/** When the money-moving actions of src/actions.cpp go through, in terms of the ledger before them,
    and what they then book. */
module Outcomes {
  import opened Options
  import opened Sums
  import opened DustBalance
  import opened LedgerTypes
  import opened Egress
  import opened EgressTheorems
  import opened Actions
  import opened Delivery
  import opened Solvency
  import opened Settlement
  import T = Transactions

  // ---- the miner ----

  /** Of a pushed transaction the miner gets, on top of what the EVM and bridge messages send it, exactly
      the inclusion fee (version 3), the tip on the gas used (versions 1 and 2) or its cut of the gas
      fee (version 0); the contract's row pays it. */
  predicate MinerPaid(c: Chain, env: Env, l: Ledger, miner: Name, tx: Tx, run: EvmRun, l': Ledger) {
    && tx.maxFee >= env.gasPrice && miner in l.balances && l'.balances.Keys == l.balances.Keys
    && var p := if env.version >= 3 then run.inclusionFee
                else if env.version >= 1 then
                  run.gasUsed * (if tx.maxPriorityFee <= tx.maxFee - env.gasPrice then tx.maxPriorityFee
                                 else tx.maxFee - env.gasPrice)
                else run.gasUsed * tx.maxFee * env.minerCut / 100_000;
       && l'.balances[miner] == l.balances[miner] + Leaving(run.reserved, Some(miner))
                                + DeliveredTo(c, env, run.messages, miner, |run.messages|) + p
       && (c.self in l.balances ==>
             l'.balances[c.self] == l.balances[c.self] + Leaving(run.reserved, Some(c.self))
                                    + DeliveredTo(c, env, run.messages, c.self, |run.messages|)
                                    - DeliveredTotal(c, run.messages, |run.messages|) - p)
  }

  lemma MinerIsPaid(c: Chain, env: Env, l: Ledger, fromSelf: bool, miner: Name, tx: Tx, minInclusion: Option<nat>,
                    run: EvmRun, l': Ledger)
    requires Solvent(c, l) && Conserves(l.evm, tx, run) && miner != c.self && miner != 0
    requires PushTx(c, env, l, fromSelf, miner, tx, minInclusion, run) == Some(l')
    ensures MinerPaid(c, env, l, miner, tx, run, l')
  {
    var job := T.Job(EXTERNAL, miner, tx, minInclusion, run);
    DueIsPaid(c, env, l, fromSelf, job, l');
    DueIs(env, job);
  }

  lemma DueIsPaid(c: Chain, env: Env, l: Ledger, fromSelf: bool, job: T.Job, l': Ledger)
    requires Solvent(c, l) && Conserves(l.evm, job.tx, job.run) && T.Mined(c, job) && job.rc == EXTERNAL
    requires PushTx(c, env, l, fromSelf, job.miner, job.tx, job.minInclusion, job.run) == Some(l')
    ensures job.tx.maxFee >= env.gasPrice && job.miner in l.balances && l'.balances.Keys == l.balances.Keys
    ensures l'.balances[job.miner] ==
            l.balances[job.miner] + Leaving(job.run.reserved, Some(job.miner))
            + DeliveredTo(c, env, job.run.messages, job.miner, |job.run.messages|) + T.Due(env, job)
    ensures c.self in l.balances ==>
              l'.balances[c.self] ==
              l.balances[c.self] + Leaving(job.run.reserved, Some(c.self))
              + DeliveredTo(c, env, job.run.messages, c.self, |job.run.messages|)
              - DeliveredTotal(c, job.run.messages, |job.run.messages|) - T.Due(env, job)
  {
    PushedIsExternal(c, env, l, fromSelf, job, l');
    MinerRow(c, env, l, job, job.miner);
    if c.self in l.balances {
      MinerRow(c, env, l, job, c.self);
    }
  }

  /** Only a transaction pushed from outside can have another miner. */
  lemma PushedIsExternal(c: Chain, env: Env, l: Ledger, fromSelf: bool, job: T.Job, l': Ledger)
    requires Solvent(c, l) && Conserves(l.evm, job.tx, job.run) && T.Mined(c, job) && job.rc == EXTERNAL
    requires PushTx(c, env, l, fromSelf, job.miner, job.tx, job.minInclusion, job.run) == Some(l')
    ensures T.TxOk(c, env, l, job) && l' == T.AfterTx(c, env, l, job) && l'.balances.Keys == l.balances.Keys
  {
    T.TransactionMeaning(c, env, l, job);
    T.AfterTxFrame(c, env, l, job);
  }

  lemma MinerRow(c: Chain, env: Env, l: Ledger, job: T.Job, n: Name)
    requires Solvent(c, l) && Conserves(l.evm, job.tx, job.run) && job.rc == EXTERNAL && T.Mined(c, job)
    requires T.TxOk(c, env, l, job) && n in l.balances
    ensures n in T.AfterTx(c, env, l, job).balances
    ensures T.AfterTx(c, env, l, job).balances[n] ==
            l.balances[n] + Leaving(job.run.reserved, Some(n))
            + If(n == job.miner, T.Due(env, job)) - If(n == c.self, T.Due(env, job))
            + DeliveredTo(c, env, job.run.messages, n, |job.run.messages|)
            - If(n == c.self, DeliveredTotal(c, job.run.messages, |job.run.messages|))
  {
    T.TransactionRow(c, env, l, job, n);
  }

  lemma DueIs(env: Env, job: T.Job)
    requires job.tx.maxFee >= env.gasPrice
    ensures T.Due(env, job) ==
            if env.version >= 3 then job.run.inclusionFee
            else if env.version >= 1 then
              job.run.gasUsed * (if job.tx.maxPriorityFee <= job.tx.maxFee - env.gasPrice then job.tx.maxPriorityFee
                                 else job.tx.maxFee - env.gasPrice)
            else job.run.gasUsed * job.tx.maxFee * env.minerCut / 100_000
  {
    TimesIsProduct(job.run.gasUsed, T.Tip(env, job.tx));
    TimesIsProduct(job.run.gasUsed, job.tx.maxFee);
    TimesIsProduct(Times(job.run.gasUsed, job.tx.maxFee), env.minerCut);
  }

  // ---- transactions the contract makes itself ----

  function InternalJob(c: Chain, env: Env, payer: Option<Name>, from: Name, value: nat, gasLimit: nat, run: EvmRun): T.Job {
    T.Job(INTERNAL.(gasPayer := payer), c.self, InternalTx(env, FromReserved(from), value, gasLimit), None, run)
  }

  /** The rows once gas is settled: the payer is down the gas used, the sender the value, the contract up
      the gas. */
  function SettledRow(c: Chain, balances: map<Name, nat>, payer: Option<Name>, from: Name, value: nat, fee: nat,
                      inflow: map<Name, nat>, n: Name): int
    requires n in balances
  {
    balances[n] - If(n == payer.GetOr(from), fee) - If(n == from, value) + InflowOf(inflow, n) + If(n == c.self, fee)
  }

  function SettledRows(c: Chain, balances: map<Name, nat>, payer: Option<Name>, from: Name, value: nat, fee: nat,
                       inflow: map<Name, nat>): map<Name, nat> {
    map n | n in balances :: Nat(SettledRow(c, balances, payer, from, value, fee, inflow, n))
  }

  /** What the rows and totals must allow before the bridge messages are looked at. */
  predicate InternalExecOk(c: Chain, env: Env, l: Ledger, payer: Option<Name>, from: Name, value: nat, gasLimit: nat, run: EvmRun) {
    var cost, fee := Times(gasLimit, env.gasPrice), Times(run.gasUsed, env.gasPrice);
    && value + cost < UINT256_MAX
    && T.CanPay(l.balances, from, value, payer, cost)
    && l.inevm + value + cost < Cap(c.unit)
    && T.CanLeave(c, env, T.PaidRows(l.balances, from, value, payer, cost), None, run)
    && (payer.Some? ==>
          && cost > fee && from in l.balances
          && (payer.value != from ==> l.balances[payer.value] - fee + Leaving(run.reserved, payer) < Cap(c.unit)))
    && (from != c.self ==> l.gasIncome + fee < Cap(c.unit))
  }

  /** Everything a transaction on behalf of `from` needs, in terms of the ledger before it: the rows cover
      value and gas, the totals fit, every reserved account passes its checks on the debited rows, a payer
      has gas left to get back, and the bridge messages can be delivered. */
  predicate InternalOk(c: Chain, env: Env, l: Ledger, payer: Option<Name>, from: Name, value: nat, gasLimit: nat,
                       run: EvmRun, inflow: map<Name, nat>) {
    && InternalExecOk(c, env, l, payer, from, value, gasLimit, run)
    && Deliverable(c, env, SettledRows(c, l.balances, payer, from, value, Times(run.gasUsed, env.gasPrice), inflow), run.messages)
  }

  lemma InternalBasics(c: Chain, env: Env, payer: Option<Name>, from: Name, value: nat, gasLimit: nat, run: EvmRun)
    ensures var job := InternalJob(c, env, payer, from, value, gasLimit, run);
            && T.Cost(job.tx) == Times(gasLimit, env.gasPrice) && T.Fee(env, job) == Times(run.gasUsed, env.gasPrice)
            && T.Enters(job.tx) && !T.Mined(c, job) && T.Portion(c, env, job) == None && T.PriceMet(env, job)
            && T.Income(c, env, job) == (if from == c.self then 0 else Times(run.gasUsed, env.gasPrice))
  {
  }

  lemma InternalAdmitted(c: Chain, env: Env, l: Ledger, payer: Option<Name>, from: Name, value: nat, gasLimit: nat, run: EvmRun)
    requires run.success
    ensures var cost := Times(gasLimit, env.gasPrice);
            T.Admitted(c, env, l, InternalJob(c, env, payer, from, value, gasLimit, run)) <==>
            && value + cost < UINT256_MAX && T.CanPay(l.balances, from, value, payer, cost)
            && l.inevm + value + cost < Cap(c.unit)
  {
    InternalBasics(c, env, payer, from, value, gasLimit, run);
  }

  /** The rows after egress, given how the EVM charges gas. */
  lemma InternalLeft(c: Chain, env: Env, l: Ledger, job: T.Job, payer: Option<Name>, from: Name, value: nat, gasLimit: nat,
                     run: EvmRun, inflow: map<Name, nat>, n: Name)
    requires job == InternalJob(c, env, payer, from, value, gasLimit, run)
    requires Solvent(c, l) && Conserves(l.evm, job.tx, run) && Charges(c, env, job.tx, run, inflow) && n in l.balances
    requires T.CanEnter(c, l, job.rc, job.tx) && T.CanLeave(c, env, T.Debited(l.balances, job.rc, job.tx), None, run)
    ensures n in T.Left(c, env, l, job).balances
    ensures T.Left(c, env, l, job).balances[n] == l.balances[n] - T.Paid(job, n) + Leaving(run.reserved, Some(n))
  {
    InternalBasics(c, env, payer, from, value, gasLimit, run);
    T.DebitedRow(l, c, job, n);
    T.EntersBalanced(c, l, job);
    T.LeftRow(c, env, T.AfterIngress(l, job.rc, job.tx), job, n);
  }

  lemma ChargedShare(c: Chain, env: Env, payer: Option<Name>, from: Name, value: nat, gasLimit: nat, run: EvmRun,
                     inflow: map<Name, nat>, n: Name)
    requires Charges(c, env, InternalTx(env, FromReserved(from), value, gasLimit), run, inflow)
    ensures var cost, fee := Times(gasLimit, env.gasPrice), Times(run.gasUsed, env.gasPrice);
            fee <= cost && Leaving(run.reserved, Some(n)) == InflowOf(inflow, n) + If(n == from, cost - fee) + If(n == c.self, fee)
  {
    InternalGasFee(env, FromReserved(from), value, gasLimit, run);
  }

  /** An account that received something and passed its checks has room for it. */
  lemma ReceiverFits(c: Chain, env: Env, balances: map<Name, nat>, run: EvmRun, n: Name)
    requires Distinct(run.reserved) && T.CanLeave(c, env, balances, None, run)
    requires n in balances && Leaving(run.reserved, Some(n)) > 0
    ensures balances[n] + Leaving(run.reserved, Some(n)) < Cap(c.unit)
  {
    var i := LeavingFrom(run.reserved, n);
    assert ObjectOk(c, env, None, balances, run.messages, run.reserved[i]);
  }

  /** When gas can be settled. */
  lemma InternalGas(c: Chain, env: Env, l: Ledger, job: T.Job, payer: Option<Name>, from: Name, value: nat, gasLimit: nat,
                    run: EvmRun, inflow: map<Name, nat>)
    requires job == InternalJob(c, env, payer, from, value, gasLimit, run)
    requires Solvent(c, l) && Conserves(l.evm, job.tx, run) && Charges(c, env, job.tx, run, inflow)
    requires T.CanEnter(c, l, job.rc, job.tx) && T.CanLeave(c, env, T.Debited(l.balances, job.rc, job.tx), None, run)
    ensures var cost, fee := Times(gasLimit, env.gasPrice), Times(run.gasUsed, env.gasPrice);
            T.GasOk(c, env, T.Left(c, env, l, job), job, false) <==>
            && (payer.Some? ==>
                  && cost > fee && from in l.balances
                  && (payer.value != from ==> l.balances[payer.value] - fee + Leaving(run.reserved, payer) < Cap(c.unit)))
            && (from != c.self ==> l.gasIncome + fee < Cap(c.unit))
  {
    InternalBasics(c, env, payer, from, value, gasLimit, run);
    var l2 := T.Left(c, env, l, job);
    NoMinerRows(l2.balances, c.self);
    assert l2.gasIncome == l.gasIncome;
    ChargedShare(c, env, payer, from, value, gasLimit, run, inflow, from);
    assert T.CanBook(c, env, l2.gasIncome, job) <==> (from != c.self ==> l.gasIncome + Times(run.gasUsed, env.gasPrice) < Cap(c.unit));
    if payer.Some? {
      InternalRefund(c, env, l, job, payer.value, from, value, gasLimit, run, inflow);
    }
  }

  lemma NoMinerRows(balances: map<Name, nat>, miner: Name)
    ensures T.MinerRows(balances, miner, None) == balances
  {
  }

  lemma InternalRefund(c: Chain, env: Env, l: Ledger, job: T.Job, payer: Name, from: Name, value: nat, gasLimit: nat,
                       run: EvmRun, inflow: map<Name, nat>)
    requires job == InternalJob(c, env, Some(payer), from, value, gasLimit, run)
    requires Solvent(c, l) && Conserves(l.evm, job.tx, run) && Charges(c, env, job.tx, run, inflow)
    requires T.CanEnter(c, l, job.rc, job.tx) && T.CanLeave(c, env, T.Debited(l.balances, job.rc, job.tx), None, run)
    ensures var cost, fee := Times(gasLimit, env.gasPrice), Times(run.gasUsed, env.gasPrice);
            T.CanRefund(c, env, T.Left(c, env, l, job).balances, job) <==>
            && cost > fee && from in l.balances
            && (payer != from ==> l.balances[payer] - fee + Leaving(run.reserved, Some(payer)) < Cap(c.unit))
  {
    InternalBasics(c, env, Some(payer), from, value, gasLimit, run);
    var left := T.Left(c, env, l, job).balances;
    T.GasKeys(c, env, l, job);
    InternalLeft(c, env, l, job, Some(payer), from, value, gasLimit, run, inflow, payer);
    InternalParts(c, env, Some(payer), from, value, gasLimit, run, payer);
    if from in l.balances {
      SenderLeft(c, env, l, job, Some(payer), from, value, gasLimit, run, inflow);
    }
    RefundIff(c, env, left, job, payer, from, value, gasLimit, run);
  }

  lemma LeftIsPaidPlus(c: Chain, env: Env, l: Ledger, job: T.Job, payer: Option<Name>, from: Name, value: nat, gasLimit: nat,
                       run: EvmRun, inflow: map<Name, nat>)
    requires job == InternalJob(c, env, payer, from, value, gasLimit, run)
    requires Solvent(c, l) && Conserves(l.evm, job.tx, run) && Charges(c, env, job.tx, run, inflow) && from in l.balances
    requires T.CanEnter(c, l, job.rc, job.tx) && T.CanLeave(c, env, T.Debited(l.balances, job.rc, job.tx), None, run)
    ensures var rows, left := T.Debited(l.balances, job.rc, job.tx), T.Left(c, env, l, job).balances;
            from in left && from in rows && left[from] == rows[from] + Leaving(run.reserved, Some(from))
  {
    InternalLeft(c, env, l, job, payer, from, value, gasLimit, run, inflow, from);
    T.DebitedRow(l, c, job, from);
  }

  /** The sender's row after egress has at least the refund, and room for it. */
  lemma SenderLeft(c: Chain, env: Env, l: Ledger, job: T.Job, payer: Option<Name>, from: Name, value: nat, gasLimit: nat,
                   run: EvmRun, inflow: map<Name, nat>)
    requires job == InternalJob(c, env, payer, from, value, gasLimit, run)
    requires Solvent(c, l) && Conserves(l.evm, job.tx, run) && Charges(c, env, job.tx, run, inflow) && from in l.balances
    requires T.CanEnter(c, l, job.rc, job.tx) && T.CanLeave(c, env, T.Debited(l.balances, job.rc, job.tx), None, run)
    ensures var cost, fee, left := Times(gasLimit, env.gasPrice), Times(run.gasUsed, env.gasPrice), T.Left(c, env, l, job).balances;
            from in left && (cost > fee ==> cost - fee <= left[from] < Cap(c.unit))
  {
    LeftIsPaidPlus(c, env, l, job, payer, from, value, gasLimit, run, inflow);
    RefundFits(c, env, T.Debited(l.balances, job.rc, job.tx), payer, from, value, gasLimit, run, inflow);
  }

  lemma RefundFits(c: Chain, env: Env, rows: map<Name, nat>, payer: Option<Name>, from: Name, value: nat, gasLimit: nat,
                   run: EvmRun, inflow: map<Name, nat>)
    requires Charges(c, env, InternalTx(env, FromReserved(from), value, gasLimit), run, inflow)
    requires T.CanLeave(c, env, rows, None, run) && from in rows
    ensures var cost, fee, share := Times(gasLimit, env.gasPrice), Times(run.gasUsed, env.gasPrice), Leaving(run.reserved, Some(from));
            cost > fee ==> cost - fee <= share && rows[from] + share < Cap(c.unit)
  {
    ChargedShare(c, env, payer, from, value, gasLimit, run, inflow, from);
    if Leaving(run.reserved, Some(from)) > 0 {
      ReceiverFits(c, env, rows, run, from);
    }
  }

  lemma RefundIff(c: Chain, env: Env, left: map<Name, nat>, job: T.Job, payer: Name, from: Name, value: nat, gasLimit: nat, run: EvmRun)
    requires job == InternalJob(c, env, Some(payer), from, value, gasLimit, run) && payer in left
    requires value + Times(gasLimit, env.gasPrice) < UINT256_MAX
    requires var cost, fee := Times(gasLimit, env.gasPrice), Times(run.gasUsed, env.gasPrice);
             from in left && cost > fee ==> cost - fee <= left[from] < Cap(c.unit)
    ensures var cost, fee := Times(gasLimit, env.gasPrice), Times(run.gasUsed, env.gasPrice);
            T.CanRefund(c, env, left, job) <==>
            cost > fee && from in left && (payer != from ==> left[payer] + cost - fee < Cap(c.unit))
  {
    InternalBasics(c, env, Some(payer), from, value, gasLimit, run);
  }

  lemma RowsAreSettled(c: Chain, balances: map<Name, nat>, payer: Option<Name>, from: Name, value: nat, fee: nat,
                       inflow: map<Name, nat>, b: map<Name, nat>)
    requires b.Keys == balances.Keys
    requires forall n :: n in balances ==> b[n] == SettledRow(c, balances, payer, from, value, fee, inflow, n)
    ensures b == SettledRows(c, balances, payer, from, value, fee, inflow)
  {
  }

  lemma InternalRows(c: Chain, env: Env, l: Ledger, job: T.Job, payer: Option<Name>, from: Name, value: nat, gasLimit: nat,
                     run: EvmRun, inflow: map<Name, nat>, b: map<Name, nat>)
    requires job == InternalJob(c, env, payer, from, value, gasLimit, run)
    requires Solvent(c, l) && Conserves(l.evm, job.tx, run) && Charges(c, env, job.tx, run, inflow)
    requires T.CanEnter(c, l, job.rc, job.tx) && T.CanLeave(c, env, T.Debited(l.balances, job.rc, job.tx), None, run)
    requires T.GasOk(c, env, T.Left(c, env, l, job), job, false) && b == T.AfterGas(c, env, T.Left(c, env, l, job), job).balances
    ensures b == SettledRows(c, l.balances, payer, from, value, Times(run.gasUsed, env.gasPrice), inflow)
  {
    T.GasKeys(c, env, l, job);
    var fee := Times(run.gasUsed, env.gasPrice);
    forall n | n in l.balances ensures b[n] == SettledRow(c, l.balances, payer, from, value, fee, inflow, n) {
      InternalRow(c, env, l, job, payer, from, value, gasLimit, run, inflow, n);
    }
    RowsAreSettled(c, l.balances, payer, from, value, fee, inflow, b);
  }

  lemma InternalParts(c: Chain, env: Env, payer: Option<Name>, from: Name, value: nat, gasLimit: nat, run: EvmRun, n: Name)
    ensures var job := InternalJob(c, env, payer, from, value, gasLimit, run);
            var cost, fee := Times(gasLimit, env.gasPrice), Times(run.gasUsed, env.gasPrice);
            && T.Paid(job, n) == If(n == from, value) + If(n == payer.GetOr(from), cost)
            && T.Refunded(env, job, n) == (if payer.None? then 0 else If(n == payer.value, cost - fee) - If(n == from, cost - fee))
  {
    InternalBasics(c, env, payer, from, value, gasLimit, run);
  }

  lemma InternalRow(c: Chain, env: Env, l: Ledger, job: T.Job, payer: Option<Name>, from: Name, value: nat, gasLimit: nat,
                    run: EvmRun, inflow: map<Name, nat>, n: Name)
    requires job == InternalJob(c, env, payer, from, value, gasLimit, run)
    requires Solvent(c, l) && Conserves(l.evm, job.tx, run) && Charges(c, env, job.tx, run, inflow) && n in l.balances
    requires T.CanEnter(c, l, job.rc, job.tx) && T.CanLeave(c, env, T.Debited(l.balances, job.rc, job.tx), None, run)
    requires T.GasOk(c, env, T.Left(c, env, l, job), job, false)
    ensures n in T.AfterGas(c, env, T.Left(c, env, l, job), job).balances
    ensures T.AfterGas(c, env, T.Left(c, env, l, job), job).balances[n] ==
            SettledRow(c, l.balances, payer, from, value, Times(run.gasUsed, env.gasPrice), inflow, n)
  {
    InternalLeft(c, env, l, job, payer, from, value, gasLimit, run, inflow, n);
    var left := T.Left(c, env, l, job);
    SettledFrom(c, env, left, job, payer, from, value, gasLimit, run, inflow, n, l.balances);
  }

  lemma SettledFrom(c: Chain, env: Env, left: Ledger, job: T.Job, payer: Option<Name>, from: Name, value: nat, gasLimit: nat,
                    run: EvmRun, inflow: map<Name, nat>, n: Name, balances: map<Name, nat>)
    requires job == InternalJob(c, env, payer, from, value, gasLimit, run)
    requires Charges(c, env, job.tx, run, inflow) && n in balances && n in left.balances && T.GasOk(c, env, left, job, false)
    requires left.balances[n] == balances[n] - T.Paid(job, n) + Leaving(run.reserved, Some(n))
    ensures n in T.AfterGas(c, env, left, job).balances
    ensures T.AfterGas(c, env, left, job).balances[n] ==
            SettledRow(c, balances, payer, from, value, Times(run.gasUsed, env.gasPrice), inflow, n)
  {
    InternalBasics(c, env, payer, from, value, gasLimit, run);
    InternalParts(c, env, payer, from, value, gasLimit, run, n);
    T.GasRow(c, env, left, job, false, n);
    ChargedShare(c, env, payer, from, value, gasLimit, run, inflow, n);
  }

  lemma InternalExec(c: Chain, env: Env, l: Ledger, job: T.Job, payer: Option<Name>, from: Name, value: nat, gasLimit: nat,
                     run: EvmRun, inflow: map<Name, nat>)
    requires job == InternalJob(c, env, payer, from, value, gasLimit, run)
    requires Solvent(c, l) && run.success && Conserves(l.evm, job.tx, run) && Charges(c, env, job.tx, run, inflow)
    ensures T.ExecOk(c, env, l, job) <==> InternalExecOk(c, env, l, payer, from, value, gasLimit, run)
    ensures T.ExecOk(c, env, l, job) ==>
              T.AfterGas(c, env, T.Left(c, env, l, job), job).balances ==
              SettledRows(c, l.balances, payer, from, value, Times(run.gasUsed, env.gasPrice), inflow)
  {
    InternalBasics(c, env, payer, from, value, gasLimit, run);
    InternalAdmitted(c, env, l, payer, from, value, gasLimit, run);
    assert T.Debited(l.balances, job.rc, job.tx) == T.PaidRows(l.balances, from, value, payer, Times(gasLimit, env.gasPrice));
    if T.Admitted(c, env, l, job) && T.CanLeave(c, env, T.Debited(l.balances, job.rc, job.tx), None, run) {
      InternalGas(c, env, l, job, payer, from, value, gasLimit, run, inflow);
      if T.GasOk(c, env, T.Left(c, env, l, job), job, false) {
        InternalRows(c, env, l, job, payer, from, value, gasLimit, run, inflow, T.AfterGas(c, env, T.Left(c, env, l, job), job).balances);
      }
    }
  }

  /** A transaction on behalf of a reserved account goes through if and only if `InternalOk` holds. */
  lemma InternalTxSucceeds(c: Chain, env: Env, l: Ledger, payer: Option<Name>, from: Name, value: nat, gasLimit: nat,
                           run: EvmRun, inflow: map<Name, nat>)
    requires Solvent(c, l) && run.success
    requires Conserves(l.evm, InternalTx(env, FromReserved(from), value, gasLimit), run)
    requires Charges(c, env, InternalTx(env, FromReserved(from), value, gasLimit), run, inflow)
    ensures ProcessTx(c, env, l, INTERNAL.(gasPayer := payer), c.self,
                      InternalTx(env, FromReserved(from), value, gasLimit), None, run).Some? <==>
            InternalOk(c, env, l, payer, from, value, gasLimit, run, inflow)
  {
    var job := InternalJob(c, env, payer, from, value, gasLimit, run);
    T.TransactionMeaning(c, env, l, job);
    InternalExec(c, env, l, job, payer, from, value, gasLimit, run, inflow);
  }

  predicate CallOk(c: Chain, env: Env, l: Ledger, payer: Option<Name>, from: Name, value: nat, gasLimit: nat,
                   run: EvmRun, inflow: map<Name, nat>) {
    && (payer.Some? ==> env.version >= 1) && from in l.nonces
    && InternalOk(c, env, l, payer, from, value, gasLimit, run, inflow)
  }

  /** `call` and `callotherpay` go through if and only if the sender has a nonce, a payer only pays from
      version 1 on, and the transaction can be made. */
  lemma CallSucceeds(c: Chain, env: Env, l: Ledger, payer: Option<Name>, from: Name, value: nat, gasLimit: nat,
                     run: EvmRun, inflow: map<Name, nat>)
    requires Solvent(c, l) && run.success
    requires Conserves(l.evm, InternalTx(env, FromReserved(from), value, gasLimit), run)
    requires Charges(c, env, InternalTx(env, FromReserved(from), value, gasLimit), run, inflow)
    ensures CallPaid(c, env, l, payer, from, value, gasLimit, run).Some? <==>
            CallOk(c, env, l, payer, from, value, gasLimit, run, inflow)
  {
    if (payer.Some? ==> env.version >= 1) && from in l.nonces {
      var l1 := l.(nonces := l.nonces[from := l.nonces[from] + 1]);
      CallPaidIsProcessTx(c, env, l, payer, from, value, gasLimit, run, l1);
      InternalTxSucceeds(c, env, l1, payer, from, value, gasLimit, run, inflow);
    }
  }

  lemma CallSucceedsAny(c: Chain, env: Env, l: Ledger, payer: Option<Name>, from: Name, value: nat, gasLimit: nat, run: EvmRun)
    requires Solvent(c, l) && run.success && Conserves(l.evm, InternalTx(env, FromReserved(from), value, gasLimit), run)
    ensures forall inflow :: Charges(c, env, InternalTx(env, FromReserved(from), value, gasLimit), run, inflow) ==>
              (CallPaid(c, env, l, payer, from, value, gasLimit, run).Some? <==>
               CallOk(c, env, l, payer, from, value, gasLimit, run, inflow))
  {
    forall inflow | Charges(c, env, InternalTx(env, FromReserved(from), value, gasLimit), run, inflow)
      ensures CallPaid(c, env, l, payer, from, value, gasLimit, run).Some? <==>
              CallOk(c, env, l, payer, from, value, gasLimit, run, inflow)
    {
      CallSucceeds(c, env, l, payer, from, value, gasLimit, run, inflow);
    }
  }

  // ---- the actions in full, whatever the run did ----

  /** The contract's own transactions may use the bridge signature, abort when the run fails, need no
      chain id, and have the contract as miner. */
  function OwnRules(payer: Option<Name>): RuntimeConfig {
    RuntimeConfig(true, true, false, false, payer)
  }

  /** Outside transactions are the opposite in every respect. */
  function OutsideRules(): RuntimeConfig {
    RuntimeConfig(false, false, true, true, None)
  }

  lemma NonceMoved(c: Chain, l: Ledger, n: Name, l1: Ledger)
    requires Solvent(c, l) && n in l.nonces && l1 == l.(nonces := l.nonces[n := l.nonces[n] + 1])
    ensures Solvent(c, l1)
  {
  }

  /** `call` and `callotherpay`: one nonce of the sender, then the transaction under the contract's rules. */
  lemma CallMeaning(c: Chain, env: Env, l: Ledger, payer: Option<Name>, from: Name, value: nat, gasLimit: nat, run: EvmRun)
    requires Solvent(c, l) && Conserves(l.evm, InternalTx(env, FromReserved(from), value, gasLimit), run)
    ensures var tx := Tx(FromReserved(from), true, gasLimit, env.gasPrice, env.gasPrice, value, false);
            var job := T.Job(OwnRules(payer), c.self, tx, None, run);
            CallPaid(c, env, l, payer, from, value, gasLimit, run) ==
            if (payer.Some? ==> env.version >= 1) && from in l.nonces
               && T.TxOk(c, env, l.(nonces := l.nonces[from := l.nonces[from] + 1]), job)
            then Some(T.AfterTx(c, env, l.(nonces := l.nonces[from := l.nonces[from] + 1]), job)) else None
  {
    if (payer.Some? ==> env.version >= 1) && from in l.nonces {
      var l1 := l.(nonces := l.nonces[from := l.nonces[from] + 1]);
      NonceMoved(c, l, from, l1);
      CallPaidIsProcessTx(c, env, l, payer, from, value, gasLimit, run, l1);
      T.TransactionMeaning(c, env, l1, T.Job(OwnRules(payer), c.self, InternalTx(env, FromReserved(from), value, gasLimit), None, run));
    }
  }

  /** `pushtx`: the rules depend on who pushes, and a minimum inclusion price needs version 1. */
  lemma PushMeaning(c: Chain, env: Env, l: Ledger, fromSelf: bool, miner: Name, tx: Tx, minInclusion: Option<nat>, run: EvmRun)
    requires Solvent(c, l) && Conserves(l.evm, tx, run)
    ensures var job := T.Job(if fromSelf then OwnRules(None) else OutsideRules(), miner, tx, minInclusion, run);
            PushTx(c, env, l, fromSelf, miner, tx, minInclusion, run) ==
            if (minInclusion.Some? ==> env.version >= 1) && T.TxOk(c, env, l, job) then Some(T.AfterTx(c, env, l, job)) else None
  {
    T.TransactionMeaning(c, env, l, T.Job(if fromSelf then OwnRules(None) else OutsideRules(), miner, tx, minInclusion, run));
  }

  /** `admincall`: as `call` for a reserved sender; any other sender has to exist in the EVM and uses no
      nonce row. */
  lemma AdminCallMeaning(c: Chain, env: Env, l: Ledger, from: Sender, value: nat, gasLimit: nat, run: EvmRun)
    requires Solvent(c, l) && Conserves(l.evm, InternalTx(env, from, value, gasLimit), run)
    ensures var job := T.Job(OwnRules(None), c.self, Tx(from, true, gasLimit, env.gasPrice, env.gasPrice, value, false), None, run);
            AdminCall(c, env, l, from, value, gasLimit, run) ==
            match from
            case FromReserved(n) => CallPaid(c, env, l, None, n, value, gasLimit, run)
            case FromAddress(a) => if a in l.evm && T.TxOk(c, env, l, job) then Some(T.AfterTx(c, env, l, job)) else None
  {
    T.TransactionMeaning(c, env, l, T.Job(OwnRules(None), c.self, InternalTx(env, from, value, gasLimit), None, run));
  }

  // ---- deposits and bridging in ----

  /** A deposit goes through exactly for a positive amount the token and an open row can hold, and moves
      nothing but that row and the tokens held. */
  lemma DepositMeaning(c: Chain, l: Ledger, to: Name, quantity: nat)
    ensures var worth := Times(quantity, c.unit);
            Deposit(c, l, to, quantity) ==
            if quantity > 0 && l.held + worth < Cap(c.unit) && to in l.balances && l.balances[to] + worth < Cap(c.unit)
            then Some(l.(held := l.held + worth, balances := l.balances[to := l.balances[to] + worth])) else None
  {
  }

  /** The ledger once a bridged quantity has arrived and the fee is booked. */
  predicate CanArrive(c: Chain, env: Env, l: Ledger, quantity: nat) {
    && quantity > env.ingressFee && l.held + Times(quantity, c.unit) < Cap(c.unit)
    && c.self in l.balances && l.balances[c.self] + Times(quantity, c.unit) < Cap(c.unit)
    && l.bridgeIncome + Times(env.ingressFee, c.unit) < Cap(c.unit) && c.self in l.nonces
  }

  function Arrived(c: Chain, env: Env, l: Ledger, quantity: nat): Ledger
    requires CanArrive(c, env, l, quantity)
  {
    l.(held := l.held + Times(quantity, c.unit),
       balances := l.balances[c.self := l.balances[c.self] + Times(quantity, c.unit)],
       bridgeIncome := l.bridgeIncome + Times(env.ingressFee, c.unit),
       nonces := l.nonces[c.self := l.nonces[c.self] + 1])
  }

  predicate BridgeInOk(c: Chain, env: Env, l: Ledger, quantity: nat, gasLimit: nat, run: EvmRun, inflow: map<Name, nat>) {
    CanArrive(c, env, l, quantity) &&
    InternalOk(c, env, Arrived(c, env, l, quantity), None, c.self, Times(quantity - env.ingressFee, c.unit), gasLimit, run, inflow)
  }

  lemma ArrivalMeaning(c: Chain, env: Env, l: Ledger, quantity: nat)
    ensures PrepareBridgeIn(c, env, l, quantity) ==
            if CanArrive(c, env, l, quantity) then Some(Arrived(c, env, l, quantity)) else None
  {
  }

  lemma CreditedSolvent(c: Chain, l: Ledger, n: Name, worth: nat, l': Ledger)
    requires Solvent(c, l) && n in l.balances
    requires l'.held == l.held + worth && l'.balances == l.balances[n := l.balances[n] + worth]
    requires l'.inevm == l.inevm && l'.evm == l.evm
    ensures Solvent(c, l')
  {
    SumUpdate(l.balances, n, l.balances[n] + worth);
  }

  /** What a transaction on behalf of a reserved account books: the gas used as income, unless it is the
      contract's own. Nonces and bridge income stay. */
  lemma InternalTxBooks(c: Chain, env: Env, l: Ledger, payer: Option<Name>, from: Name, value: nat, gasLimit: nat,
                        run: EvmRun, l': Ledger)
    requires Solvent(c, l) && Conserves(l.evm, InternalTx(env, FromReserved(from), value, gasLimit), run)
    requires ProcessTx(c, env, l, INTERNAL.(gasPayer := payer), c.self,
                       InternalTx(env, FromReserved(from), value, gasLimit), None, run) == Some(l')
    ensures l'.gasIncome == l.gasIncome + (if from == c.self then 0 else Times(run.gasUsed, env.gasPrice))
    ensures l'.nonces == l.nonces && l'.bridgeIncome == l.bridgeIncome && l'.evm == run.evm
  {
    var job := InternalJob(c, env, payer, from, value, gasLimit, run);
    T.TransactionMeaning(c, env, l, job);
    InternalBasics(c, env, payer, from, value, gasLimit, run);
    T.AfterTxFrame(c, env, l, job);
  }

  lemma ArrivedOutcome(c: Chain, env: Env, l: Ledger, p: Ledger, quantity: nat, gasLimit: nat, run: EvmRun, inflow: map<Name, nat>)
    requires Solvent(c, l) && run.success && CanArrive(c, env, l, quantity) && p == Arrived(c, env, l, quantity)
    requires var value := Times(quantity - env.ingressFee, c.unit);
             Conserves(l.evm, InternalTx(env, FromReserved(c.self), value, gasLimit), run)
             && Charges(c, env, InternalTx(env, FromReserved(c.self), value, gasLimit), run, inflow)
    ensures var value := Times(quantity - env.ingressFee, c.unit);
            var r := ProcessTx(c, env, p, INTERNAL, c.self, InternalTx(env, FromReserved(c.self), value, gasLimit), None, run);
            && (r.Some? <==> InternalOk(c, env, p, None, c.self, value, gasLimit, run, inflow))
            && (r.Some? ==> r.value.gasIncome == p.gasIncome && r.value.nonces == p.nonces && r.value.bridgeIncome == p.bridgeIncome)
  {
    CreditedSolvent(c, l, c.self, Times(quantity, c.unit), p);
    ArrivedTx(c, env, p, Times(quantity - env.ingressFee, c.unit), gasLimit, run, inflow);
  }

  lemma BridgeInRefused(c: Chain, env: Env, l: Ledger, quantity: nat, gasLimit: nat, run: EvmRun)
    requires !CanArrive(c, env, l, quantity)
    ensures BridgeIn(c, env, l, quantity, gasLimit, run).None?
  {
    ArrivalMeaning(c, env, l, quantity);
  }

  lemma BridgeInOkIs(c: Chain, env: Env, l: Ledger, p: Ledger, quantity: nat, gasLimit: nat, run: EvmRun, inflow: map<Name, nat>)
    requires CanArrive(c, env, l, quantity) && p == Arrived(c, env, l, quantity)
    ensures BridgeInOk(c, env, l, quantity, gasLimit, run, inflow) <==>
            InternalOk(c, env, p, None, c.self, Times(quantity - env.ingressFee, c.unit), gasLimit, run, inflow)
  {
  }

  lemma BridgeInArrives(c: Chain, env: Env, l: Ledger, p: Ledger, quantity: nat, gasLimit: nat, tx: Tx, run: EvmRun, inflow: map<Name, nat>)
    requires Solvent(c, l) && run.success && CanArrive(c, env, l, quantity) && p == Arrived(c, env, l, quantity)
    requires tx == InternalTx(env, FromReserved(c.self), Times(quantity - env.ingressFee, c.unit), gasLimit)
    requires Conserves(l.evm, tx, run) && Charges(c, env, tx, run, inflow)
    ensures BridgeIn(c, env, l, quantity, gasLimit, run).Some? <==> BridgeInOk(c, env, l, quantity, gasLimit, run, inflow)
  {
    assert BridgeIn(c, env, l, quantity, gasLimit, run) == ProcessTx(c, env, p, INTERNAL, c.self, tx, None, run) by {
      BridgeInIsTx(c, env, l, quantity, gasLimit, run);
    }
    ArrivedOutcome(c, env, l, p, quantity, gasLimit, run, inflow);
    BridgeInOkIs(c, env, l, p, quantity, gasLimit, run, inflow);
  }

  lemma BridgeInTxIs(c: Chain, env: Env, quantity: nat, gasLimit: nat)
    requires quantity > env.ingressFee
    ensures BridgeInTx(c, env, quantity, gasLimit) ==
            InternalTx(env, FromReserved(c.self), Times(quantity - env.ingressFee, c.unit), gasLimit)
  {
  }

  /** Bridging in goes through if and only if the quantity exceeds the fee and fits, and the contract's
      own transaction for the rest goes through. */
  lemma BridgeInSucceeds(c: Chain, env: Env, l: Ledger, quantity: nat, gasLimit: nat, run: EvmRun, inflow: map<Name, nat>)
    requires Solvent(c, l) && run.success && quantity > env.ingressFee
    requires Conserves(l.evm, BridgeInTx(c, env, quantity, gasLimit), run)
    requires Charges(c, env, BridgeInTx(c, env, quantity, gasLimit), run, inflow)
    ensures BridgeIn(c, env, l, quantity, gasLimit, run).Some? <==> BridgeInOk(c, env, l, quantity, gasLimit, run, inflow)
  {
    if !CanArrive(c, env, l, quantity) {
      BridgeInRefused(c, env, l, quantity, gasLimit, run);
    } else {
      BridgeInTxIs(c, env, quantity, gasLimit);
      BridgeInArrives(c, env, l, Arrived(c, env, l, quantity), quantity, gasLimit, BridgeInTx(c, env, quantity, gasLimit), run, inflow);
    }
  }

  lemma BridgeInIsTx(c: Chain, env: Env, l: Ledger, quantity: nat, gasLimit: nat, run: EvmRun)
    requires quantity > env.ingressFee
    ensures BridgeIn(c, env, l, quantity, gasLimit, run) ==
            if CanArrive(c, env, l, quantity)
            then ProcessTx(c, env, Arrived(c, env, l, quantity), INTERNAL, c.self,
                           InternalTx(env, FromReserved(c.self), Times(quantity - env.ingressFee, c.unit), gasLimit), None, run)
            else None
  {
    ArrivalMeaning(c, env, l, quantity);
  }

  lemma ArrivedTx(c: Chain, env: Env, p: Ledger, value: nat, gasLimit: nat, run: EvmRun, inflow: map<Name, nat>)
    requires Solvent(c, p) && run.success
    requires Conserves(p.evm, InternalTx(env, FromReserved(c.self), value, gasLimit), run)
    requires Charges(c, env, InternalTx(env, FromReserved(c.self), value, gasLimit), run, inflow)
    ensures var r := ProcessTx(c, env, p, INTERNAL, c.self, InternalTx(env, FromReserved(c.self), value, gasLimit), None, run);
            && (r.Some? <==> InternalOk(c, env, p, None, c.self, value, gasLimit, run, inflow))
            && (r.Some? ==> r.value.gasIncome == p.gasIncome && r.value.nonces == p.nonces && r.value.bridgeIncome == p.bridgeIncome)
  {
    assert INTERNAL.(gasPayer := None) == INTERNAL;
    InternalTxSucceeds(c, env, p, None, c.self, value, gasLimit, run, inflow);
    var r := ProcessTx(c, env, p, INTERNAL, c.self, InternalTx(env, FromReserved(c.self), value, gasLimit), None, run);
    if r.Some? {
      InternalTxBooks(c, env, p, None, c.self, value, gasLimit, run, r.value);
    }
  }

  lemma BridgeInSucceedsAny(c: Chain, env: Env, l: Ledger, quantity: nat, gasLimit: nat, run: EvmRun)
    requires Solvent(c, l) && run.success && quantity > env.ingressFee
    requires Conserves(l.evm, BridgeInTx(c, env, quantity, gasLimit), run)
    ensures forall inflow :: Charges(c, env, BridgeInTx(c, env, quantity, gasLimit), run, inflow) ==>
              (BridgeIn(c, env, l, quantity, gasLimit, run).Some? <==> BridgeInOk(c, env, l, quantity, gasLimit, run, inflow))
  {
    forall inflow | Charges(c, env, BridgeInTx(c, env, quantity, gasLimit), run, inflow)
      ensures BridgeIn(c, env, l, quantity, gasLimit, run).Some? <==> BridgeInOk(c, env, l, quantity, gasLimit, run, inflow)
    {
      BridgeInSucceeds(c, env, l, quantity, gasLimit, run, inflow);
    }
  }

  /** Whatever the run did, a bridge-in that goes through books exactly the fee. */
  lemma FeeIsBooked(c: Chain, env: Env, l: Ledger, quantity: nat, gasLimit: nat, run: EvmRun, l': Ledger)
    requires BridgeIn(c, env, l, quantity, gasLimit, run) == Some(l')
    ensures quantity > env.ingressFee && l'.bridgeIncome == l.bridgeIncome + Times(env.ingressFee, c.unit)
  {
    ArrivalMeaning(c, env, l, quantity);
    var p := Arrived(c, env, l, quantity);
    IncomeStays(c, env, p, INTERNAL, c.self, BridgeInTx(c, env, quantity, gasLimit), None, run, l');
  }

  lemma IncomeStays(c: Chain, env: Env, l: Ledger, rc: RuntimeConfig, miner: Name, tx: Tx, minInclusion: Option<nat>,
                    run: EvmRun, l': Ledger)
    requires ProcessTx(c, env, l, rc, miner, tx, minInclusion, run) == Some(l')
    ensures l'.bridgeIncome == l.bridgeIncome
  {
    var m := ActiveMiner(c, miner);
    var l1, portion := IngressPhase(c, l, rc, tx).value, MinerPortion(env, tx, run, m).value;
    EgressKeepsIncome(c, env, l1, portion, run);
    var e := EgressPhase(c, env, l1, portion, run.reserved, run.messages).value;
    GasKeepsIncome(c, env, e.0, rc, m, tx, run, portion, e.1);
  }

  lemma GasKeepsIncome(c: Chain, env: Env, l: Ledger, rc: RuntimeConfig, m: Option<Name>, tx: Tx, run: EvmRun,
                       portion: Option<nat>, taken: bool)
    ensures var r := SettleGas(c, env, l, rc, m, tx, run, portion, taken);
            r.Some? ==> r.value.bridgeIncome == l.bridgeIncome
  {
  }

  lemma EgressKeepsIncome(c: Chain, env: Env, l: Ledger, portion: Option<nat>, run: EvmRun)
    ensures var r := EgressPhase(c, env, l, portion, run.reserved, run.messages);
            r.Some? ==> r.value.0.bridgeIncome == l.bridgeIncome
  {
    var e := EgressUpTo(c, env, portion, l.balances, run.reserved, run.messages, |run.reserved|);
    if e.Some? {
      SendUpToFrame(c, l.(balances := e.value.balances), run.messages, e.value.need, |run.messages|);
    }
  }

  /** Bridging in, whatever the run did. */
  lemma BridgeInMeaning(c: Chain, env: Env, l: Ledger, quantity: nat, gasLimit: nat, run: EvmRun)
    requires Solvent(c, l)
    requires quantity > env.ingressFee ==> Conserves(l.evm, BridgeInTx(c, env, quantity, gasLimit), run)
    ensures BridgeIn(c, env, l, quantity, gasLimit, run) ==
            if !CanArrive(c, env, l, quantity) then None
            else
              var tx := Tx(FromReserved(c.self), true, gasLimit, env.gasPrice, env.gasPrice, Times(quantity - env.ingressFee, c.unit), false);
              var job, p := T.Job(OwnRules(None), c.self, tx, None, run), Arrived(c, env, l, quantity);
              if T.TxOk(c, env, p, job) then Some(T.AfterTx(c, env, p, job)) else None
  {
    if !CanArrive(c, env, l, quantity) {
      BridgeInRefused(c, env, l, quantity, gasLimit, run);
    } else {
      var p := Arrived(c, env, l, quantity);
      BridgeInTxIs(c, env, quantity, gasLimit);
      CreditedSolvent(c, l, c.self, Times(quantity, c.unit), p);
      BridgeInIsTx(c, env, l, quantity, gasLimit, run);
      T.TransactionMeaning(c, env, p, T.Job(OwnRules(None), c.self, BridgeInTx(c, env, quantity, gasLimit), None, run));
    }
  }
}
