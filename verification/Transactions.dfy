/** A transaction as a whole (`process_tx`, src/actions.cpp:183-443 and 564-650): exactly when it goes
    through and what it then does to every row, written out without the code's own steps. */
module Transactions {
  import opened Options
  import opened Sums
  import opened DustBalance
  import opened LedgerTypes
  import opened Egress
  import opened EgressTheorems
  import opened Actions
  import opened Delivery
  import opened Solvency

  datatype Job = Job(rc: RuntimeConfig, miner: Name, tx: Tx, minInclusion: Option<nat>, run: EvmRun)

  // ---- into the EVM ----

  /** The most the gas can cost. */
  function Cost(tx: Tx): nat {
    Times(tx.gasLimit, tx.maxFee)
  }

  /** Only bridge-signed transactions from a reserved address bring money in. */
  predicate Enters(tx: Tx) {
    tx.special && tx.from.FromReserved?
  }

  function Entering(tx: Tx): nat {
    if Enters(tx) then tx.value + Cost(tx) else 0
  }

  /** The payer's row covers the gas and the sender's the value; one row covers both if they are one. */
  predicate CanPay(balances: map<Name, nat>, from: Name, value: nat, payer: Option<Name>, cost: nat) {
    match payer
    case None => from in balances && value + cost <= balances[from]
    case Some(p) =>
      && p in balances && cost <= balances[p]
      && (value > 0 ==> from in balances && value + If(p == from, cost) <= balances[from])
  }

  function PaidRow(balances: map<Name, nat>, from: Name, value: nat, payer: Option<Name>, cost: nat, n: Name): int
    requires n in balances
  {
    balances[n] - If(n == from, value) - If(n == payer.GetOr(from), cost)
  }

  function PaidRows(balances: map<Name, nat>, from: Name, value: nat, payer: Option<Name>, cost: nat): map<Name, nat> {
    map n | n in balances :: Nat(PaidRow(balances, from, value, payer, cost, n))
  }

  lemma PaidMeaning(balances: map<Name, nat>, from: Name, tx: Tx, rc: RuntimeConfig)
    ensures DebitSender(balances, from, tx, rc) ==
            if CanPay(balances, from, tx.value, rc.gasPayer, Cost(tx))
            then Some(PaidRows(balances, from, tx.value, rc.gasPayer, Cost(tx))) else None
    ensures CanPay(balances, from, tx.value, rc.gasPayer, Cost(tx)) ==>
              forall n :: n in balances ==> PaidRow(balances, from, tx.value, rc.gasPayer, Cost(tx), n) >= 0
  {
    var r, rows := DebitSender(balances, from, tx, rc), PaidRows(balances, from, tx.value, rc.gasPayer, Cost(tx));
    if r.Some? {
      forall n | n in balances ensures r.value[n] == rows[n] {
      }
      assert r.value == rows;
    }
  }

  function Debited(balances: map<Name, nat>, rc: RuntimeConfig, tx: Tx): map<Name, nat> {
    if Enters(tx) then PaidRows(balances, tx.from.account, tx.value, rc.gasPayer, Cost(tx)) else balances
  }

  predicate CanEnter(c: Chain, l: Ledger, rc: RuntimeConfig, tx: Tx) {
    && (tx.special ==> rc.allowSpecial)
    && (Enters(tx) ==>
          && tx.value + Cost(tx) < UINT256_MAX
          && CanPay(l.balances, tx.from.account, tx.value, rc.gasPayer, Cost(tx))
          && l.inevm + tx.value + Cost(tx) < Cap(c.unit))
  }

  function AfterIngress(l: Ledger, rc: RuntimeConfig, tx: Tx): Ledger {
    l.(balances := Debited(l.balances, rc, tx), inevm := l.inevm + Entering(tx))
  }

  lemma IngressMeaning(c: Chain, l: Ledger, rc: RuntimeConfig, tx: Tx)
    ensures IngressPhase(c, l, rc, tx) == if CanEnter(c, l, rc, tx) then Some(AfterIngress(l, rc, tx)) else None
  {
    if Enters(tx) {
      PaidMeaning(l.balances, tx.from.account, tx, rc);
    }
  }

  // ---- out of the EVM ----

  /** Messages that become token transfers. */
  function Marks(balances: map<Name, nat>, run: EvmRun): seq<bool> {
    seq(|run.messages|, k requires 0 <= k < |run.messages| => SentOn(balances, run.reserved, run.messages[k]))
  }

  predicate CanLeave(c: Chain, env: Env, balances: map<Name, nat>, portion: Option<nat>, run: EvmRun) {
    && (forall j :: 0 <= j < |run.reserved| ==> ObjectOk(c, env, portion, balances, run.messages, run.reserved[j]))
    && (forall k :: 0 <= k < |run.messages| && SentOn(balances, run.reserved, run.messages[k]) ==> run.messages[k].value > 0)
  }

  function LeftRows(c: Chain, balances: map<Name, nat>, portion: Option<nat>, run: EvmRun): map<Name, nat> {
    map n | n in balances :: Nat(RowAfter(c, portion, balances, run.reserved, n))
  }

  function AfterEgress(c: Chain, l: Ledger, portion: Option<nat>, run: EvmRun): Ledger {
    var marks := Marks(l.balances, run);
    l.(balances := LeftRows(c, l.balances, portion, run),
       inevm := Nat(l.inevm - Leaving(run.reserved, None)),
       held := Nat(l.held - MarkedValue(run.messages, marks, |marks|)),
       sent := l.sent + Outgoing(c, run.messages, marks, |marks|))
  }

  lemma EgressMeaning(c: Chain, env: Env, l: Ledger, portion: Option<nat>, run: EvmRun)
    requires Distinct(run.reserved) && Leaving(run.reserved, None) <= l.inevm <= l.held && l.inevm < Cap(c.unit)
    ensures EgressPhase(c, env, l, portion, run.reserved, run.messages) ==
            if CanLeave(c, env, l.balances, portion, run)
            then Some((AfterEgress(c, l, portion, run), MinerTakes(c, portion, l.balances, run.reserved))) else None
    ensures CanLeave(c, env, l.balances, portion, run) ==>
              forall n :: n in l.balances ==>
                LeftRows(c, l.balances, portion, run)[n] == RowAfter(c, portion, l.balances, run.reserved, n)
  {
    EgressPhaseSucceeds(c, env, l, portion, run.reserved, run.messages);
    var r := EgressPhase(c, env, l, portion, run.reserved, run.messages);
    if r.Some? {
      var need := EgressPhaseMeaning(c, env, l, portion, run.reserved, run.messages);
      PhaseIsClosed(c, l, portion, run, need, r.value.0, r.value.1);
    }
  }

  lemma PhaseIsClosed(c: Chain, l: Ledger, portion: Option<nat>, run: EvmRun, need: seq<bool>, l': Ledger, taken: bool)
    requires PhaseResult(c, l, portion, run.reserved, run.messages, l', taken, need)
    ensures l' == AfterEgress(c, l, portion, run) && taken == MinerTakes(c, portion, l.balances, run.reserved)
    ensures forall n :: n in l.balances ==> l'.balances[n] == RowAfter(c, portion, l.balances, run.reserved, n)
  {
    assert need == Marks(l.balances, run);
    assert l'.balances == LeftRows(c, l.balances, portion, run);
  }

  // ---- the miner ----

  /** What a unit of gas pays above the base fee. */
  function Tip(env: Env, tx: Tx): nat {
    if tx.maxFee < env.gasPrice then 0
    else if tx.maxPriorityFee <= tx.maxFee - env.gasPrice then tx.maxPriorityFee
    else tx.maxFee - env.gasPrice
  }

  predicate Mined(c: Chain, job: Job) {
    job.miner != c.self && job.miner != 0
  }

  /** The miner's due: the inclusion fee, the tip on the gas used, or the cut of the gas fee. */
  function Due(env: Env, job: Job): nat {
    if env.version >= 3 then job.run.inclusionFee
    else if env.version >= 1 then Times(job.run.gasUsed, Tip(env, job.tx))
    else Times(Times(job.run.gasUsed, job.tx.maxFee), env.minerCut) / 100_000
  }

  function Portion(c: Chain, env: Env, job: Job): Option<nat> {
    if Mined(c, job) then Some(Due(env, job)) else None
  }

  predicate PortionOk(c: Chain, env: Env, job: Job) {
    Mined(c, job) && env.version < 3 ==>
      Times(job.run.gasUsed, if env.version >= 1 then Tip(env, job.tx) else job.tx.maxFee) < UINT256_MAX
  }

  lemma PortionMeaning(c: Chain, env: Env, job: Job)
    ensures MinerPortion(env, job.tx, job.run, ActiveMiner(c, job.miner)) ==
            if PortionOk(c, env, job) then Some(Portion(c, env, job)) else None
  {
    assert PriorityFee(job.tx, env.gasPrice) == Tip(env, job.tx);
  }

  // ---- gas ----

  predicate CanPayMiner(c: Chain, balances: map<Name, nat>, miner: Name, portion: Option<nat>, taken: bool) {
    portion.Some? && portion.value > 0 ==>
      taken && miner in balances && balances[miner] + portion.value < Cap(c.unit)
  }

  function MinerRows(balances: map<Name, nat>, miner: Name, portion: Option<nat>): map<Name, nat> {
    map n | n in balances :: balances[n] + If(n == miner, portion.GetOr(0))
  }

  lemma MinerMeaning(c: Chain, l: Ledger, job: Job, portion: Option<nat>, taken: bool)
    requires portion.Some? <==> Mined(c, job)
    ensures PayMiner(c, l, ActiveMiner(c, job.miner), portion, taken) ==
            if CanPayMiner(c, l.balances, job.miner, portion, taken)
            then Some(l.(balances := MinerRows(l.balances, job.miner, portion))) else None
  {
    var rows := MinerRows(l.balances, job.miner, portion);
    if CanPayMiner(c, l.balances, job.miner, portion, taken) {
      if portion.Some? && portion.value > 0 {
        assert rows == l.balances[job.miner := l.balances[job.miner] + portion.value];
      } else {
        assert rows == l.balances;
      }
    }
  }

  /** Gas actually charged. */
  function Fee(env: Env, job: Job): nat {
    Times(job.run.gasUsed, Tip(env, job.tx) + env.gasPrice)
  }

  predicate CanRefund(c: Chain, env: Env, balances: map<Name, nat>, job: Job) {
    job.rc.gasPayer.Some? ==>
      var payer, refund := job.rc.gasPayer.value, Cost(job.tx) - Fee(env, job);
      && Cost(job.tx) < UINT256_MAX && refund > 0
      && job.tx.from.FromReserved? && job.tx.from.account in balances && refund <= balances[job.tx.from.account]
      && payer in balances && balances[payer] + If(payer != job.tx.from.account, refund) < Cap(c.unit)
  }

  function RefundRow(env: Env, balances: map<Name, nat>, job: Job, n: Name): int
    requires n in balances
  {
    if job.rc.gasPayer.None? || !job.tx.from.FromReserved? then balances[n]
    else balances[n] - If(n == job.tx.from.account, Cost(job.tx) - Fee(env, job))
         + If(n == job.rc.gasPayer.value, Cost(job.tx) - Fee(env, job))
  }

  function RefundRows(env: Env, balances: map<Name, nat>, job: Job): map<Name, nat> {
    map n | n in balances :: Nat(RefundRow(env, balances, job, n))
  }

  lemma FeeMeaning(env: Env, job: Job)
    ensures GasFee(env, job.tx, job.run) == Fee(env, job)
  {
    assert PriorityFee(job.tx, env.gasPrice) == Tip(env, job.tx);
  }

  /** Taking from one row and giving to another, or the same. */
  function Transferred(balances: map<Name, nat>, from: Name, to: Name, x: nat): map<Name, nat> {
    map n | n in balances :: Nat(balances[n] - If(n == from, x) + If(n == to, x))
  }

  predicate CanTransfer(c: Chain, balances: map<Name, nat>, from: Name, to: Name, x: nat) {
    from in balances && x <= balances[from] && to in balances && balances[to] + If(to != from, x) < Cap(c.unit)
  }

  lemma TransferMeaning(c: Chain, balances: map<Name, nat>, from: Name, to: Name, x: nat)
    ensures var r := DebitRow(balances, from, x);
            (if r.Some? then CreditRow(c, r.value, to, x) else None) ==
            if CanTransfer(c, balances, from, to, x) then Some(Transferred(balances, from, to, x)) else None
  {
    if CanTransfer(c, balances, from, to, x) {
      var b := balances[from := balances[from] - x];
      assert b[to := b[to] + x] == Transferred(balances, from, to, x);
    }
  }

  lemma RefundRowsAre(c: Chain, env: Env, balances: map<Name, nat>, job: Job)
    requires CanRefund(c, env, balances, job)
    ensures RefundRows(env, balances, job) ==
            if job.rc.gasPayer.None? then balances
            else Transferred(balances, job.tx.from.account, job.rc.gasPayer.value, Cost(job.tx) - Fee(env, job))
    ensures forall n :: n in balances ==> RefundRows(env, balances, job)[n] == RefundRow(env, balances, job, n)
  {
  }

  lemma RefundIsTransfer(c: Chain, env: Env, l: Ledger, job: Job, from: Name, payer: Name, refund: nat)
    requires job.rc.gasPayer == Some(payer) && job.tx.from == FromReserved(from)
    requires refund == Cost(job.tx) - Fee(env, job) && refund > 0 && Cost(job.tx) < UINT256_MAX
    ensures RefundPayer(c, env, l, job.rc, job.tx, job.run) ==
            if CanTransfer(c, l.balances, from, payer, refund)
            then Some(l.(balances := Transferred(l.balances, from, payer, refund))) else None
  {
    FeeMeaning(env, job);
    TransferMeaning(c, l.balances, from, payer, refund);
  }

  lemma RefundImpossible(c: Chain, env: Env, l: Ledger, job: Job)
    requires job.rc.gasPayer.Some?
    requires Cost(job.tx) <= Fee(env, job) || Cost(job.tx) >= UINT256_MAX || !job.tx.from.FromReserved?
    ensures RefundPayer(c, env, l, job.rc, job.tx, job.run).None? && !CanRefund(c, env, l.balances, job)
  {
    FeeMeaning(env, job);
  }

  lemma RefundMeaning(c: Chain, env: Env, l: Ledger, job: Job)
    ensures RefundPayer(c, env, l, job.rc, job.tx, job.run) ==
            if CanRefund(c, env, l.balances, job) then Some(l.(balances := RefundRows(env, l.balances, job))) else None
  {
    if CanRefund(c, env, l.balances, job) {
      RefundRowsAre(c, env, l.balances, job);
    }
    if job.rc.gasPayer.Some? {
      if Cost(job.tx) <= Fee(env, job) || Cost(job.tx) >= UINT256_MAX || !job.tx.from.FromReserved? {
        RefundImpossible(c, env, l, job);
      } else {
        RefundIsTransfer(c, env, l, job, job.tx.from.account, job.rc.gasPayer.value, Cost(job.tx) - Fee(env, job));
      }
    }
  }

  /** What the statistics book: nothing for the contract's own transactions. */
  function Income(c: Chain, env: Env, job: Job): int {
    if job.tx.special && job.tx.from == FromReserved(c.self) then 0
    else if env.version >= 1 then Times(job.run.gasUsed, env.gasPrice)
    else Times(job.run.gasUsed, job.tx.maxFee) - Portion(c, env, job).GetOr(0)
  }

  predicate CanBook(c: Chain, env: Env, income: nat, job: Job) {
    !(job.tx.special && job.tx.from == FromReserved(c.self)) ==>
      && Times(job.run.gasUsed, if env.version >= 1 then env.gasPrice else job.tx.maxFee) < UINT256_MAX
      && 0 <= Income(c, env, job) && income + Income(c, env, job) < Cap(c.unit)
  }

  lemma IncomeMeaning(c: Chain, env: Env, l: Ledger, job: Job)
    ensures AddGasIncome(c, env, l, job.tx, job.run, Portion(c, env, job)) ==
            if CanBook(c, env, l.gasIncome, job) then Some(l.(gasIncome := Nat(l.gasIncome + Income(c, env, job)))) else None
  {
  }

  predicate GasOk(c: Chain, env: Env, l: Ledger, job: Job, taken: bool) {
    && CanPayMiner(c, l.balances, job.miner, Portion(c, env, job), taken)
    && CanRefund(c, env, MinerRows(l.balances, job.miner, Portion(c, env, job)), job)
    && CanBook(c, env, l.gasIncome, job)
  }

  function AfterGas(c: Chain, env: Env, l: Ledger, job: Job): Ledger {
    l.(balances := RefundRows(env, MinerRows(l.balances, job.miner, Portion(c, env, job)), job),
       gasIncome := Nat(l.gasIncome + Income(c, env, job)))
  }

  lemma GasMeaning(c: Chain, env: Env, l: Ledger, job: Job, taken: bool)
    ensures SettleGas(c, env, l, job.rc, ActiveMiner(c, job.miner), job.tx, job.run, Portion(c, env, job), taken) ==
            if GasOk(c, env, l, job, taken) then Some(AfterGas(c, env, l, job)) else None
  {
    MinerMeaning(c, l, job, Portion(c, env, job), taken);
    var l1 := l.(balances := MinerRows(l.balances, job.miner, Portion(c, env, job)));
    RefundMeaning(c, env, l1, job);
    IncomeMeaning(c, env, l1.(balances := RefundRows(env, l1.balances, job)), job);
  }

  // ---- the transaction ----

  predicate PriceMet(env: Env, job: Job) {
    && job.tx.maxFee >= env.gasPrice
    && if env.version >= 1 then Tip(env, job.tx) >= job.minInclusion.GetOr(0) else job.tx.maxPriorityFee == job.tx.maxFee
  }

  predicate Admitted(c: Chain, env: Env, l: Ledger, job: Job) {
    && (job.rc.allowNonSelfMiner || job.miner == c.self)
    && PriceMet(env, job)
    && (Mined(c, job) ==> job.miner in l.balances)
    && CanEnter(c, l, job.rc, job.tx)
    && (job.rc.enforceChainId ==> job.tx.hasChainId)
    && PortionOk(c, env, job)
    && (job.rc.abortOnFailure ==> job.run.success)
  }

  /** The ledger once everything has left the EVM. */
  function Left(c: Chain, env: Env, l: Ledger, job: Job): Ledger {
    AfterEgress(c, AfterIngress(l, job.rc, job.tx), Portion(c, env, job), job.run)
  }

  /** `execute_tx` goes through. */
  predicate ExecOk(c: Chain, env: Env, l: Ledger, job: Job) {
    var rows := Debited(l.balances, job.rc, job.tx);
    && Admitted(c, env, l, job)
    && CanLeave(c, env, rows, Portion(c, env, job), job.run)
    && GasOk(c, env, Left(c, env, l, job), job, MinerTakes(c, Portion(c, env, job), rows, job.run.reserved))
  }

  predicate TxOk(c: Chain, env: Env, l: Ledger, job: Job) {
    ExecOk(c, env, l, job) && Deliverable(c, env, AfterGas(c, env, Left(c, env, l, job), job).balances, job.run.messages)
  }

  function AfterTx(c: Chain, env: Env, l: Ledger, job: Job): Ledger {
    var l' := AfterGas(c, env, Left(c, env, l, job), job);
    l'.(balances := DeliveredRows(c, env, l'.balances, job.run.messages), evm := job.run.evm)
  }

  lemma EntersBalanced(c: Chain, l: Ledger, job: Job)
    requires Solvent(c, l) && Conserves(l.evm, job.tx, job.run) && CanEnter(c, l, job.rc, job.tx)
    ensures var l1 := AfterIngress(l, job.rc, job.tx);
            Leaving(job.run.reserved, None) <= l1.inevm <= l1.held && l1.inevm < Cap(c.unit)
  {
    IngressMeaning(c, l, job.rc, job.tx);
    IngressBalanced(c, l, job.rc, job.tx);
  }

  lemma AfterRunMeaning(c: Chain, env: Env, l: Ledger, job: Job)
    requires Distinct(job.run.reserved) && Leaving(job.run.reserved, None) <= l.inevm <= l.held && l.inevm < Cap(c.unit)
    ensures var l2 := AfterEgress(c, l, Portion(c, env, job), job.run);
            AfterRun(c, env, l, job.rc, ActiveMiner(c, job.miner), job.tx, job.run, Portion(c, env, job)) ==
            if CanLeave(c, env, l.balances, Portion(c, env, job), job.run)
               && GasOk(c, env, l2, job, MinerTakes(c, Portion(c, env, job), l.balances, job.run.reserved))
            then Some(AfterGas(c, env, l2, job)) else None
  {
    var l2 := AfterEgress(c, l, Portion(c, env, job), job.run);
    EgressMeaning(c, env, l, Portion(c, env, job), job.run);
    GasMeaning(c, env, l2, job, MinerTakes(c, Portion(c, env, job), l.balances, job.run.reserved));
  }

  lemma PriceMeaning(env: Env, job: Job)
    ensures PriceOk(env, job.tx, job.minInclusion) <==> PriceMet(env, job)
  {
    assert PriorityFee(job.tx, env.gasPrice) == Tip(env, job.tx);
  }

  /** Before the messages: `execute_tx`. */
  lemma ExecuteMeaning(c: Chain, env: Env, l: Ledger, job: Job)
    requires Solvent(c, l) && Conserves(l.evm, job.tx, job.run)
    requires (job.rc.allowNonSelfMiner || job.miner == c.self) && PriceMet(env, job)
    ensures ExecuteTx(c, env, l, job.rc, job.miner, job.tx, job.run) ==
            if ExecOk(c, env, l, job) then Some(AfterGas(c, env, Left(c, env, l, job), job)) else None
  {
    IngressMeaning(c, l, job.rc, job.tx);
    PortionMeaning(c, env, job);
    if CanEnter(c, l, job.rc, job.tx) {
      EntersBalanced(c, l, job);
      AfterRunMeaning(c, env, AfterIngress(l, job.rc, job.tx), job);
    }
  }

  /** A transaction goes through if and only if `TxOk` holds, and then leaves exactly `AfterTx`. */
  lemma TransactionMeaning(c: Chain, env: Env, l: Ledger, job: Job)
    requires Solvent(c, l) && Conserves(l.evm, job.tx, job.run)
    ensures ProcessTx(c, env, l, job.rc, job.miner, job.tx, job.minInclusion, job.run) ==
            if TxOk(c, env, l, job) then Some(AfterTx(c, env, l, job)) else None
  {
    PriceMeaning(env, job);
    if (job.rc.allowNonSelfMiner || job.miner == c.self) && PriceMet(env, job) {
      ExecuteMeaning(c, env, l, job);
      MessagesMeaning(c, env, AfterGas(c, env, Left(c, env, l, job), job), job.run.messages);
    }
  }

  // ---- one row ----

  /** Value and gas that a row brings into the EVM. */
  function Paid(job: Job, n: Name): int {
    if !Enters(job.tx) then 0
    else If(n == job.tx.from.account, job.tx.value) + If(n == job.rc.gasPayer.GetOr(job.tx.from.account), Cost(job.tx))
  }

  /** What a row gets from the miner's due: the miner receives it, the contract gives it. */
  function MinerShare(c: Chain, env: Env, job: Job, n: Name): int {
    if Mined(c, job) then If(n == job.miner, Due(env, job)) - If(n == c.self, Due(env, job)) else 0
  }

  /** The excess gas goes from the sender back to whoever paid for it. */
  function Refunded(env: Env, job: Job, n: Name): int {
    if job.rc.gasPayer.None? || !job.tx.from.FromReserved? then 0
    else If(n == job.rc.gasPayer.value, Cost(job.tx) - Fee(env, job)) - If(n == job.tx.from.account, Cost(job.tx) - Fee(env, job))
  }

  function MessageShare(c: Chain, env: Env, job: Job, n: Name): int {
    DeliveredTo(c, env, job.run.messages, n, |job.run.messages|)
    - If(n == c.self, DeliveredTotal(c, job.run.messages, |job.run.messages|))
  }

  lemma DebitedRow(l: Ledger, c: Chain, job: Job, n: Name)
    requires CanEnter(c, l, job.rc, job.tx) && n in l.balances
    ensures n in Debited(l.balances, job.rc, job.tx) && Debited(l.balances, job.rc, job.tx)[n] == l.balances[n] - Paid(job, n)
  {
    if Enters(job.tx) {
      PaidMeaning(l.balances, job.tx.from.account, job.tx, job.rc);
      assert PaidRow(l.balances, job.tx.from.account, job.tx.value, job.rc.gasPayer, Cost(job.tx), n) >= 0;
    }
  }

  lemma LeftRow(c: Chain, env: Env, l: Ledger, job: Job, n: Name)
    requires Distinct(job.run.reserved) && Leaving(job.run.reserved, None) <= l.inevm <= l.held && l.inevm < Cap(c.unit)
    requires CanLeave(c, env, l.balances, Portion(c, env, job), job.run) && n in l.balances
    requires CanPayMiner(c, LeftRows(c, l.balances, Portion(c, env, job), job.run), job.miner, Portion(c, env, job),
                         MinerTakes(c, Portion(c, env, job), l.balances, job.run.reserved))
    ensures LeftRows(c, l.balances, Portion(c, env, job), job.run)[n] ==
            l.balances[n] + Leaving(job.run.reserved, Some(n)) - If(n == c.self && Mined(c, job), Due(env, job))
  {
    EgressMeaning(c, env, l, Portion(c, env, job), job.run);
    assert LeftRows(c, l.balances, Portion(c, env, job), job.run)[n] ==
           RowAfter(c, Portion(c, env, job), l.balances, job.run.reserved, n);
  }

  lemma GasRow(c: Chain, env: Env, l: Ledger, job: Job, taken: bool, n: Name)
    requires GasOk(c, env, l, job, taken) && n in l.balances
    ensures n in AfterGas(c, env, l, job).balances
    ensures AfterGas(c, env, l, job).balances[n] ==
            l.balances[n] + If(n == job.miner && Mined(c, job), Due(env, job)) + Refunded(env, job, n)
  {
    var b := MinerRows(l.balances, job.miner, Portion(c, env, job));
    RefundRowsAre(c, env, b, job);
  }

  /** Every row of a transaction that goes through: what it paid in, what left the EVM for it, the
      miner's due, the refund and the messages. */
  lemma TransactionRow(c: Chain, env: Env, l: Ledger, job: Job, n: Name)
    requires Solvent(c, l) && Conserves(l.evm, job.tx, job.run) && TxOk(c, env, l, job) && n in l.balances
    ensures n in AfterTx(c, env, l, job).balances
    ensures AfterTx(c, env, l, job).balances[n] ==
            l.balances[n] - Paid(job, n) + Leaving(job.run.reserved, Some(n)) + MinerShare(c, env, job, n)
            + Refunded(env, job, n) + MessageShare(c, env, job, n)
  {
    var l1, l2 := AfterIngress(l, job.rc, job.tx), Left(c, env, l, job);
    var taken := MinerTakes(c, Portion(c, env, job), l1.balances, job.run.reserved);
    DebitedRow(l, c, job, n);
    EntersBalanced(c, l, job);
    LeftRow(c, env, l1, job, n);
    GasRow(c, env, l2, job, taken, n);
    DeliverRow(c, env, AfterGas(c, env, l2, job), job, n);
  }

  lemma DeliverRow(c: Chain, env: Env, l: Ledger, job: Job, n: Name)
    requires Deliverable(c, env, l.balances, job.run.messages) && n in l.balances
    ensures DeliveredRows(c, env, l.balances, job.run.messages)[n] == l.balances[n] + MessageShare(c, env, job, n)
  {
    MessagesMeaning(c, env, l, job.run.messages);
  }

  lemma GasKeys(c: Chain, env: Env, l: Ledger, job: Job)
    ensures Left(c, env, l, job).balances.Keys == l.balances.Keys
    ensures AfterGas(c, env, Left(c, env, l, job), job).balances.Keys == l.balances.Keys
  {
  }

  /** Beside the rows: what the transaction books, and what it leaves alone. */
  lemma AfterTxFrame(c: Chain, env: Env, l: Ledger, job: Job)
    ensures var l' := AfterTx(c, env, l, job);
            && l'.balances.Keys == l.balances.Keys && l'.nonces == l.nonces && l'.bridgeIncome == l.bridgeIncome
            && l'.gasIncome == Nat(l.gasIncome + Income(c, env, job)) && l'.evm == job.run.evm
            && l'.inevm == Nat(l.inevm + Entering(job.tx) - Leaving(job.run.reserved, None))
  {
  }
}
