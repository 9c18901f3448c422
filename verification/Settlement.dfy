/** Who ends up paying what: the exact change of every row across `call`, `callotherpay` and
    a bridge-in, given that the EVM charges the sender for gas and pays it to the contract. */
module Settlement {
  import opened Options
  import opened Sums
  import opened DustBalance
  import opened LedgerTypes
  import opened Egress
  import opened EgressTheorems
  import opened Actions
  import opened Solvency
  import opened Delivery

  /** Value the EVM moved into a reserved account on its own account. */
  function InflowOf(inflow: map<Name, nat>, n: Name): nat {
    if n in inflow then inflow[n] else 0
  }

  /** A successful run of a bridge-signed transaction: the sender pays the value and the gas
      used out of what was brought in, the contract's reserved address collects the gas. */
  ghost predicate Charges(c: Chain, env: Env, tx: Tx, run: EvmRun, inflow: map<Name, nat>) {
    && tx.from.FromReserved? && Distinct(run.reserved)
    && GasFee(env, tx, run) <= MaxGasCost(tx)
    && forall n :: Leaving(run.reserved, Some(n)) ==
                   InflowOf(inflow, n)
                   + If(n == tx.from.account, MaxGasCost(tx) - GasFee(env, tx, run))
                   + If(n == c.self, GasFee(env, tx, run))
  }

  // ---- rows, phase by phase ----

  lemma DebitSenderRow(balances: map<Name, nat>, from: Name, tx: Tx, rc: RuntimeConfig, n: Name)
    ensures var r := DebitSender(balances, from, tx, rc);
            r.Some? ==>
              && r.value.Keys == balances.Keys
              && (n in balances ==>
                    r.value[n] == balances[n] - If(n == from, tx.value) - If(n == rc.gasPayer.GetOr(from), MaxGasCost(tx)))
  {
  }

  lemma RefundRow(c: Chain, env: Env, l: Ledger, rc: RuntimeConfig, tx: Tx, run: EvmRun, n: Name)
    requires tx.from.FromReserved?
    ensures var r := RefundPayer(c, env, l, rc, tx, run);
            r.Some? ==>
              && r.value == l.(balances := r.value.balances)
              && r.value.balances.Keys == l.balances.Keys
              && (n in l.balances ==>
                    r.value.balances[n] == l.balances[n]
                      - If(rc.gasPayer.Some? && n == tx.from.account, MaxGasCost(tx) - GasFee(env, tx, run))
                      + If(rc.gasPayer == Some(n), MaxGasCost(tx) - GasFee(env, tx, run)))
  {
  }

  /** Without a miner to pay, the egress phase adds to each row what left the EVM for it. */
  lemma EgressRow(c: Chain, env: Env, l: Ledger, run: EvmRun, n: Name)
    requires Distinct(run.reserved) && l.inevm < Cap(c.unit)
    ensures var r := EgressPhase(c, env, l, None, run.reserved, run.messages);
            r.Some? ==>
              && r.value.0.balances.Keys == l.balances.Keys
              && r.value.0.inevm == l.inevm - Leaving(run.reserved, None)
              && r.value.0.nonces == l.nonces && !r.value.1
              && (n in l.balances ==> r.value.0.balances[n] == l.balances[n] + Leaving(run.reserved, Some(n)))
  {
    var need := EgressPhaseMeaning(c, env, l, None, run.reserved, run.messages);
  }

  // ---- a bridge-signed transaction with the contract as miner ----

  lemma ExecuteTxRow(c: Chain, env: Env, l: Ledger, payer: Option<Name>, tx: Tx, run: EvmRun, n: Name)
    requires tx.special && tx.from.FromReserved? && Distinct(run.reserved)
    ensures var from := tx.from.account;
            var refund := MaxGasCost(tx) - GasFee(env, tx, run);
            var r := ExecuteTx(c, env, l, INTERNAL.(gasPayer := payer), c.self, tx, run);
            r.Some? ==>
              && r.value.balances.Keys == l.balances.Keys
              && r.value.inevm == l.inevm + tx.value + MaxGasCost(tx) - Leaving(run.reserved, None)
              && r.value.nonces == l.nonces
              && (n in l.balances ==>
                    r.value.balances[n] == l.balances[n]
                      - If(n == from, tx.value) - If(n == payer.GetOr(from), MaxGasCost(tx))
                      + Leaving(run.reserved, Some(n))
                      - If(payer.Some? && n == from, refund) + If(payer == Some(n), refund))
  {
    var rc := INTERNAL.(gasPayer := payer);
    var r := ExecuteTx(c, env, l, rc, c.self, tx, run);
    if r.Some? {
      var l1 := IngressPhase(c, l, rc, tx).value;
      DebitSenderRow(l.balances, tx.from.account, tx, rc, n);
      var l2 := EgressPhase(c, env, l1, None, run.reserved, run.messages).value.0;
      EgressRow(c, env, l1, run, n);
      RefundRow(c, env, l2, rc, tx, run, n);
    }
  }

  /** The exact change of every row. */
  ghost predicate RowSettled(c: Chain, env: Env, l: Ledger, payer: Option<Name>, tx: Tx, run: EvmRun,
                             inflow: map<Name, nat>, n: Name, l': Ledger)
    requires tx.from.FromReserved?
  {
    n in l.balances ==>
      && n in l'.balances
      && l'.balances[n] == l.balances[n]
           - If(n == payer.GetOr(tx.from.account), GasFee(env, tx, run)) - If(n == tx.from.account, tx.value)
           + InflowOf(inflow, n) + DeliveredTo(c, env, run.messages, n, |run.messages|)
           + If(n == c.self, GasFee(env, tx, run) - DeliveredTotal(c, run.messages, |run.messages|))
  }

  lemma InternalTxRow(c: Chain, env: Env, l: Ledger, payer: Option<Name>, tx: Tx, run: EvmRun,
                      inflow: map<Name, nat>, n: Name, l1: Ledger, l2: Ledger)
    requires tx.special && Charges(c, env, tx, run, inflow)
    requires ExecuteTx(c, env, l, INTERNAL.(gasPayer := payer), c.self, tx, run) == Some(l1)
    requires MessagesPhase(c, env, l1, run.messages) == Some(l2)
    ensures RowSettled(c, env, l, payer, tx, run, inflow, n, l2)
  {
    ExecuteTxRow(c, env, l, payer, tx, run, n);
    MessagesRow(c, env, l1, run.messages, n);
    assert Leaving(run.reserved, Some(n)) ==
           InflowOf(inflow, n)
           + If(n == tx.from.account, MaxGasCost(tx) - GasFee(env, tx, run))
           + If(n == c.self, GasFee(env, tx, run));
  }

  lemma ProcessTxParts(c: Chain, env: Env, l: Ledger, rc: RuntimeConfig, tx: Tx, run: EvmRun) returns (l1: Ledger, l2: Ledger)
    requires ProcessTx(c, env, l, rc, c.self, tx, None, run).Some?
    ensures ExecuteTx(c, env, l, rc, c.self, tx, run) == Some(l1)
    ensures MessagesPhase(c, env, l1, run.messages) == Some(l2)
    ensures ProcessTx(c, env, l, rc, c.self, tx, None, run) == Some(l2.(evm := run.evm))
  {
    l1 := ExecuteTx(c, env, l, rc, c.self, tx, run).value;
    l2 := MessagesPhase(c, env, l1, run.messages).value;
  }

  /** `callotherpay`: the payer is down by exactly the gas used, the sender by exactly the
      value, the contract up by the gas; all are up by what the EVM and the bridge messages
      sent them. */
  lemma CallOtherPaySettles(c: Chain, env: Env, l: Ledger, payer: Name, from: Name, value: nat, gasLimit: nat,
                            run: EvmRun, inflow: map<Name, nat>, n: Name, l': Ledger)
    requires Charges(c, env, InternalTx(env, FromReserved(from), value, gasLimit), run, inflow)
    requires CallOtherPay(c, env, l, payer, from, value, gasLimit, run) == Some(l')
    ensures RowSettled(c, env, l, Some(payer), InternalTx(env, FromReserved(from), value, gasLimit), run, inflow, n, l')
  {
    var tx := InternalTx(env, FromReserved(from), value, gasLimit);
    var l0 := l.(nonces := l.nonces[from := l.nonces[from] + 1]);
    CallOtherPayIsProcessTx(c, env, l, payer, from, value, gasLimit, run, l0);
    InternalTxSettles(c, env, l0, Some(payer), tx, run, inflow, n, l');
  }

  /** `call`, or `callotherpay` with a payer. */
  function CallPaid(c: Chain, env: Env, l: Ledger, payer: Option<Name>, from: Name, value: nat, gasLimit: nat,
                    run: EvmRun): Option<Ledger> {
    if payer.Some? then CallOtherPay(c, env, l, payer.value, from, value, gasLimit, run)
    else Call(c, env, l, from, value, gasLimit, run)
  }

  lemma CallPaidIsProcessTx(c: Chain, env: Env, l: Ledger, payer: Option<Name>, from: Name, value: nat, gasLimit: nat,
                            run: EvmRun, l1: Ledger)
    requires (payer.Some? ==> env.version >= 1) && from in l.nonces
    requires l1 == l.(nonces := l.nonces[from := l.nonces[from] + 1])
    ensures CallPaid(c, env, l, payer, from, value, gasLimit, run)
            == ProcessTx(c, env, l1, INTERNAL.(gasPayer := payer), c.self,
                         InternalTx(env, FromReserved(from), value, gasLimit), None, run)
  {
    if payer.Some? {
      CallOtherPayIsProcessTx(c, env, l, payer.value, from, value, gasLimit, run, l1);
    } else {
      CallIsProcessTx(c, env, l, from, value, gasLimit, run, l1);
    }
  }

  /** Likewise of `call`, where the sender pays, and for all rows at once. */
  lemma CallSettlesAll(c: Chain, env: Env, l: Ledger, payer: Option<Name>, from: Name, value: nat, gasLimit: nat,
                       run: EvmRun, l': Ledger)
    requires CallPaid(c, env, l, payer, from, value, gasLimit, run) == Some(l')
    ensures forall inflow, n ::
              Charges(c, env, InternalTx(env, FromReserved(from), value, gasLimit), run, inflow) ==>
              RowSettled(c, env, l, payer, InternalTx(env, FromReserved(from), value, gasLimit), run, inflow, n, l')
  {
    var tx := InternalTx(env, FromReserved(from), value, gasLimit);
    forall inflow, n | Charges(c, env, tx, run, inflow)
      ensures RowSettled(c, env, l, payer, tx, run, inflow, n, l')
    {
      if payer.Some? {
        CallOtherPaySettles(c, env, l, payer.value, from, value, gasLimit, run, inflow, n, l');
      } else {
        CallSettles(c, env, l, from, value, gasLimit, run, inflow, n, l');
      }
    }
  }

  lemma CallSettles(c: Chain, env: Env, l: Ledger, from: Name, value: nat, gasLimit: nat,
                    run: EvmRun, inflow: map<Name, nat>, n: Name, l': Ledger)
    requires Charges(c, env, InternalTx(env, FromReserved(from), value, gasLimit), run, inflow)
    requires Call(c, env, l, from, value, gasLimit, run) == Some(l')
    ensures RowSettled(c, env, l, None, InternalTx(env, FromReserved(from), value, gasLimit), run, inflow, n, l')
  {
    var l0 := l.(nonces := l.nonces[from := l.nonces[from] + 1]);
    CallIsProcessTx(c, env, l, from, value, gasLimit, run, l0);
    InternalTxSettles(c, env, l0, None, InternalTx(env, FromReserved(from), value, gasLimit), run, inflow, n, l');
  }

  lemma InternalTxSettles(c: Chain, env: Env, l: Ledger, payer: Option<Name>, tx: Tx, run: EvmRun,
                          inflow: map<Name, nat>, n: Name, l': Ledger)
    requires tx.special && Charges(c, env, tx, run, inflow)
    requires ProcessTx(c, env, l, INTERNAL.(gasPayer := payer), c.self, tx, None, run) == Some(l')
    ensures RowSettled(c, env, l, payer, tx, run, inflow, n, l')
  {
    var l1, l2 := ProcessTxParts(c, env, l, INTERNAL.(gasPayer := payer), tx, run);
    InternalTxRow(c, env, l, payer, tx, run, inflow, n, l1, l2);
  }

  /** Internal transactions bid exactly the base fee. */
  lemma InternalGasFee(env: Env, from: Sender, value: nat, gasLimit: nat, run: EvmRun)
    ensures GasFee(env, InternalTx(env, from, value, gasLimit), run) == Times(run.gasUsed, env.gasPrice)
    ensures MaxGasCost(InternalTx(env, from, value, gasLimit)) == Times(gasLimit, env.gasPrice)
  {
  }

  /** With payer, sender and contract distinct this reads: payer minus gas, sender minus value, each
      plus what the EVM and the bridge messages sent it. */
  lemma CallOtherPayDistinct(c: Chain, env: Env, l: Ledger, payer: Name, from: Name, value: nat, gasLimit: nat,
                             run: EvmRun, inflow: map<Name, nat>, l': Ledger)
    requires payer != from && payer != c.self && from != c.self && payer in l.balances && from in l.balances
    requires Charges(c, env, InternalTx(env, FromReserved(from), value, gasLimit), run, inflow)
    requires CallOtherPay(c, env, l, payer, from, value, gasLimit, run) == Some(l')
    ensures payer in l'.balances && from in l'.balances
    ensures l'.balances[payer] == l.balances[payer] - Times(run.gasUsed, env.gasPrice) + InflowOf(inflow, payer)
                                  + DeliveredTo(c, env, run.messages, payer, |run.messages|)
    ensures l'.balances[from] == l.balances[from] - value + InflowOf(inflow, from)
                                 + DeliveredTo(c, env, run.messages, from, |run.messages|)
  {
    CallOtherPaySettles(c, env, l, payer, from, value, gasLimit, run, inflow, payer, l');
    CallOtherPaySettles(c, env, l, payer, from, value, gasLimit, run, inflow, from, l');
    InternalGasFee(env, FromReserved(from), value, gasLimit, run);
  }

  // ---- payer and sender the same ----

  lemma DebitTwice(balances: map<Name, nat>, n: Name, x: nat, y: nat)
    ensures var b := DebitRow(balances, n, x);
            (if b.Some? then DebitRow(b.value, n, y) else None) == DebitRow(balances, n, y + x)
  {
    if n in balances && x + y <= balances[n] {
      assert balances[n := balances[n] - x][n := balances[n] - x - y] == balances[n := balances[n] - x - y];
    }
  }

  lemma DebitSenderSame(balances: map<Name, nat>, from: Name, tx: Tx, rc: RuntimeConfig)
    ensures DebitSender(balances, from, tx, rc.(gasPayer := Some(from))) == DebitSender(balances, from, tx, rc.(gasPayer := None))
  {
    DebitTwice(balances, from, MaxGasCost(tx), tx.value);
  }

  lemma RefundToSelf(c: Chain, env: Env, l: Ledger, tx: Tx, run: EvmRun)
    requires tx.from.FromReserved? && tx.from.account in l.balances && l.balances[tx.from.account] < Cap(c.unit)
    requires GasFee(env, tx, run) < MaxGasCost(tx) < UINT256_MAX
    requires MaxGasCost(tx) - GasFee(env, tx, run) <= l.balances[tx.from.account]
    ensures RefundPayer(c, env, l, INTERNAL.(gasPayer := Some(tx.from.account)), tx, run) == Some(l)
  {
    var n, w := tx.from.account, l.balances[tx.from.account];
    var refund := MaxGasCost(tx) - GasFee(env, tx, run);
    assert l.balances[n := w - refund][n := w] == l.balances;
  }

  /** The egress phase leaves the sender's row below the cap and with at least the refund. */
  lemma SenderRowAfterEgress(c: Chain, env: Env, l: Ledger, run: EvmRun, from: Name, amount: nat)
    requires Distinct(run.reserved) && l.inevm < Cap(c.unit) && from in l.balances
    requires amount <= Leaving(run.reserved, Some(from)) && amount > 0
    ensures var r := EgressPhase(c, env, l, None, run.reserved, run.messages);
            r.Some? ==> from in r.value.0.balances && amount <= r.value.0.balances[from] < Cap(c.unit)
  {
    var r := EgressPhase(c, env, l, None, run.reserved, run.messages);
    if r.Some? {
      EgressRow(c, env, l, run, from);
      EgressUpToMeaning(c, env, None, l.balances, run.reserved, run.messages, |run.reserved|);
      var i := LeavingFrom(run.reserved, from);
      assert ObjectOk(c, env, None, l.balances, run.messages, run.reserved[i]);
    }
  }

  lemma AfterRunSame(c: Chain, env: Env, l: Ledger, tx: Tx, run: EvmRun, inflow: map<Name, nat>)
    requires tx.special && Charges(c, env, tx, run, inflow)
    requires l.inevm < Cap(c.unit) && tx.from.account in l.balances && MaxGasCost(tx) < UINT256_MAX
    ensures AfterRun(c, env, l, INTERNAL.(gasPayer := Some(tx.from.account)), None, tx, run, None) ==
            if MaxGasCost(tx) > GasFee(env, tx, run) then AfterRun(c, env, l, INTERNAL, None, tx, run, None) else None
  {
    var e := EgressPhase(c, env, l, None, run.reserved, run.messages);
    if e.Some? && MaxGasCost(tx) > GasFee(env, tx, run) {
      SenderRowAfterEgress(c, env, l, run, tx.from.account, MaxGasCost(tx) - GasFee(env, tx, run));
      RefundToSelf(c, env, e.value.0, tx, run);
    }
  }

  lemma ExecuteTxSame(c: Chain, env: Env, l: Ledger, tx: Tx, run: EvmRun, inflow: map<Name, nat>)
    requires tx.special && Charges(c, env, tx, run, inflow)
    ensures ExecuteTx(c, env, l, INTERNAL.(gasPayer := Some(tx.from.account)), c.self, tx, run) ==
            if MaxGasCost(tx) > GasFee(env, tx, run) then ExecuteTx(c, env, l, INTERNAL, c.self, tx, run) else None
  {
    DebitSenderSame(l.balances, tx.from.account, tx, INTERNAL);
    var l1 := IngressPhase(c, l, INTERNAL, tx);
    assert l1 == IngressPhase(c, l, INTERNAL.(gasPayer := Some(tx.from.account)), tx);
    if l1.Some? {
      AfterRunSame(c, env, l1.value, tx, run, inflow);
    }
  }

  lemma ProcessTxSame(c: Chain, env: Env, l: Ledger, tx: Tx, run: EvmRun, inflow: map<Name, nat>)
    requires tx.special && Charges(c, env, tx, run, inflow)
    ensures ProcessTx(c, env, l, INTERNAL.(gasPayer := Some(tx.from.account)), c.self, tx, None, run) ==
            if MaxGasCost(tx) > GasFee(env, tx, run) then ProcessTx(c, env, l, INTERNAL, c.self, tx, None, run) else None
  {
    ExecuteTxSame(c, env, l, tx, run, inflow);
  }

  /** Paying for one's own call ends in the ledger of `call`, or aborts exactly when `call`
      would or when the gas used leaves nothing to refund. */
  lemma CallOtherPayBySender(c: Chain, env: Env, l: Ledger, from: Name, value: nat, gasLimit: nat,
                             run: EvmRun, inflow: map<Name, nat>)
    requires env.version >= 1
    requires Charges(c, env, InternalTx(env, FromReserved(from), value, gasLimit), run, inflow)
    ensures CallOtherPay(c, env, l, from, from, value, gasLimit, run) ==
            if Times(gasLimit, env.gasPrice) > Times(run.gasUsed, env.gasPrice)
            then Call(c, env, l, from, value, gasLimit, run) else None
  {
    var tx := InternalTx(env, FromReserved(from), value, gasLimit);
    InternalGasFee(env, FromReserved(from), value, gasLimit, run);
    if from in l.nonces {
      var l1 := l.(nonces := l.nonces[from := l.nonces[from] + 1]);
      CallIsProcessTx(c, env, l, from, value, gasLimit, run, l1);
      CallOtherPayIsProcessTx(c, env, l, from, from, value, gasLimit, run, l1);
      ProcessTxSame(c, env, l1, tx, run, inflow);
    }
  }

  /** A run that does nothing, at gas price 0. */
  predicate Idle(env: Env, l: Ledger, run: EvmRun) {
    && env.version >= 1 && env.gasPrice == 0
    && run.success && run.reserved == [] && run.messages == [] && run.evm == l.evm
  }

  lemma IdleCharges(c: Chain, env: Env, l: Ledger, from: Name, gasLimit: nat, run: EvmRun)
    requires Idle(env, l, run)
    ensures var tx := InternalTx(env, FromReserved(from), 0, gasLimit);
            && MaxGasCost(tx) == 0 && GasFee(env, tx, run) == 0
            && Conserves(l.evm, tx, run) && Charges(c, env, tx, run, map[])
  {
    TimesIsProduct(gasLimit, 0);
    TimesIsProduct(run.gasUsed, 0);
    InternalGasFee(env, FromReserved(from), 0, gasLimit, run);
  }

  lemma IdleCall(c: Chain, env: Env, l: Ledger, from: Name, gasLimit: nat, run: EvmRun)
    requires Solvent(c, l) && from in l.balances && from in l.nonces && l.gasIncome < Cap(c.unit) && Idle(env, l, run)
    ensures Call(c, env, l, from, 0, gasLimit, run).Some?
  {
    var tx := InternalTx(env, FromReserved(from), 0, gasLimit);
    IdleCharges(c, env, l, from, gasLimit, run);
    TimesIsProduct(run.gasUsed, 0);
    var l1 := l.(nonces := l.nonces[from := l.nonces[from] + 1]);
    CallIsProcessTx(c, env, l, from, 0, gasLimit, run, l1);
    var l2 := IngressPhase(c, l1, INTERNAL, tx);
    assert l2.Some?;
    assert AfterRun(c, env, l2.value, INTERNAL, None, tx, run, None).Some?;
  }

  /** A call at gas price 0 leaves nothing to refund: `call` succeeds, paying for it oneself aborts. */
  lemma NoRefund(c: Chain, env: Env, l: Ledger, from: Name, gasLimit: nat, run: EvmRun)
    requires Solvent(c, l) && from in l.balances && from in l.nonces && l.gasIncome < Cap(c.unit) && Idle(env, l, run)
    ensures Call(c, env, l, from, 0, gasLimit, run).Some?
    ensures CallOtherPay(c, env, l, from, from, 0, gasLimit, run).None?
  {
    IdleCall(c, env, l, from, gasLimit, run);
    IdleCharges(c, env, l, from, gasLimit, run);
    InternalGasFee(env, FromReserved(from), 0, gasLimit, run);
    CallOtherPayBySender(c, env, l, from, 0, gasLimit, run, map[]);
  }

  /** ... as for an account just opened. */
  lemma NoRefundWitness(c: Chain, from: Name, gasLimit: nat, gasUsed: nat)
    ensures var env := Env(1, 0, 0, 0, {}, {}, {}, map[], map[]);
            var l := OpenAccount(InitLedger(c), from);
            var run := EvmRun(true, gasUsed, 0, [], [], map[]);
            Call(c, env, l, from, 0, gasLimit, run).Some? && CallOtherPay(c, env, l, from, from, 0, gasLimit, run).None?
  {
    var l := OpenAccount(InitLedger(c), from);
    InitGood(c);
    OpenGood(c, InitLedger(c), from);
    SplitBelowCap(c.unit, 0, 0);
    NoRefund(c, Env(1, 0, 0, 0, {}, {}, {}, map[], map[]), l, from, gasLimit, EvmRun(true, gasUsed, 0, [], [], map[]));
  }

  lemma CallIsProcessTx(c: Chain, env: Env, l: Ledger, from: Name, value: nat, gasLimit: nat, run: EvmRun, l1: Ledger)
    requires from in l.nonces && l1 == l.(nonces := l.nonces[from := l.nonces[from] + 1])
    ensures Call(c, env, l, from, value, gasLimit, run)
            == ProcessTx(c, env, l1, INTERNAL, c.self, InternalTx(env, FromReserved(from), value, gasLimit), None, run)
  {
    assert IncrementNonce(l, from) == Some(l1);
  }

  lemma CallOtherPayIsProcessTx(c: Chain, env: Env, l: Ledger, payer: Name, from: Name, value: nat, gasLimit: nat,
                                run: EvmRun, l1: Ledger)
    requires env.version >= 1 && from in l.nonces && l1 == l.(nonces := l.nonces[from := l.nonces[from] + 1])
    ensures CallOtherPay(c, env, l, payer, from, value, gasLimit, run)
            == ProcessTx(c, env, l1, INTERNAL.(gasPayer := Some(payer)), c.self,
                         InternalTx(env, FromReserved(from), value, gasLimit), None, run)
  {
    assert IncrementNonce(l, from) == Some(l1);
  }

  // ---- bridge-in to a plain address ----

  function Grown(evm: map<Address, nat>, dest: Address, x: nat): map<Address, nat> {
    evm[dest := (if dest in evm then evm[dest] else 0) + x]
  }

  /** The EVM run of a value transfer to an address without code. */
  ghost predicate PlainTransfer(c: Chain, env: Env, evm: map<Address, nat>, tx: Tx, dest: Address, run: EvmRun) {
    && Charges(c, env, tx, run, map[]) && Conserves(evm, tx, run) && run.messages == []
    && run.evm == Grown(evm, dest, tx.value)
  }

  lemma {:induction false} TimesAdd(a: nat, b: nat, u: nat)
    ensures Times(a + b, u) == Times(a, u) + Times(b, u)
    decreases a
  {
    if a > 0 {
      TimesAdd(a - 1, b, u);
    }
  }

  lemma GrownSum(evm: map<Address, nat>, dest: Address, x: nat)
    ensures Sum(Grown(evm, dest, x)) == Sum(evm) + x
  {
    SumUpdate(evm, dest, (if dest in evm then evm[dest] else 0) + x);
  }

  /** Of what was brought in, all but the value leaves again. */
  lemma PlainLeaving(evm: map<Address, nat>, tx: Tx, dest: Address, run: EvmRun)
    requires tx.special && tx.from.FromReserved? && Conserves(evm, tx, run) && run.evm == Grown(evm, dest, tx.value)
    ensures Leaving(run.reserved, None) == MaxGasCost(tx)
  {
    GrownSum(evm, dest, tx.value);
  }

  /** The contract is the sender and collects its own gas: only the value goes. */
  lemma SelfTxRow(c: Chain, env: Env, l: Ledger, tx: Tx, run: EvmRun, n: Name, l1: Ledger, l2: Ledger)
    requires tx.special && tx.from == FromReserved(c.self) && Charges(c, env, tx, run, map[])
    requires run.messages == [] && Leaving(run.reserved, None) == MaxGasCost(tx)
    requires ExecuteTx(c, env, l, INTERNAL, c.self, tx, run) == Some(l1)
    requires MessagesPhase(c, env, l1, run.messages) == Some(l2)
    ensures l2.balances.Keys == l.balances.Keys
    ensures n in l.balances ==> l2.balances[n] == l.balances[n] - If(n == c.self, tx.value)
    ensures l2.inevm == l.inevm + tx.value
  {
    InternalTxRow(c, env, l, None, tx, run, map[], n, l1, l2);
    ExecuteTxRow(c, env, l, None, tx, run, n);
    MessagesRow(c, env, l1, run.messages, n);
  }

  lemma SelfTxLedger(c: Chain, env: Env, l: Ledger, tx: Tx, run: EvmRun, l': Ledger)
    requires tx.special && tx.from == FromReserved(c.self) && Charges(c, env, tx, run, map[])
    requires run.messages == [] && Leaving(run.reserved, None) == MaxGasCost(tx)
    requires c.self in l.balances
    requires ProcessTx(c, env, l, INTERNAL, c.self, tx, None, run) == Some(l')
    ensures tx.value <= l.balances[c.self] && l'.balances == l.balances[c.self := l.balances[c.self] - tx.value]
    ensures l'.inevm == l.inevm + tx.value && l'.evm == run.evm
  {
    var l1, l2 := ProcessTxParts(c, env, l, INTERNAL, tx, run);
    SelfTxRow(c, env, l, tx, run, c.self, l1, l2);
    forall n | n in l.balances ensures l2.balances[n] == l.balances[n] - If(n == c.self, tx.value) {
      SelfTxRow(c, env, l, tx, run, n, l1, l2);
    }
  }

  /** Bridging `q` native units in to a plain address: the contract keeps exactly the ingress
      fee, the destination and `inevm` grow by exactly the rest, no other row moves, whatever
      the gas price and the gas used. */
  lemma BridgeInIsExact(c: Chain, env: Env, l: Ledger, dest: Address, quantity: nat, gasLimit: nat, run: EvmRun, l': Ledger)
    requires quantity > env.ingressFee
    requires PlainTransfer(c, env, l.evm, BridgeInTx(c, env, quantity, gasLimit), dest, run)
    requires BridgeIn(c, env, l, quantity, gasLimit, run) == Some(l')
    ensures c.self in l.balances
    ensures l'.balances == l.balances[c.self := l.balances[c.self] + Times(env.ingressFee, c.unit)]
    ensures l'.inevm == l.inevm + Times(quantity - env.ingressFee, c.unit)
    ensures l'.evm == Grown(l.evm, dest, Times(quantity - env.ingressFee, c.unit))
  {
    var tx := BridgeInTx(c, env, quantity, gasLimit);
    var p := BridgeInParts(c, env, l, quantity, gasLimit, run, l');
    BridgeInValue(c, env, quantity, gasLimit);
    PlainLeaving(l.evm, tx, dest, run);
    BridgeInMoves(c, env, l, p, quantity, tx, run, l');
  }

  /** What `BridgeInIsExact` concludes, for one destination. */
  ghost predicate BridgedPlainly(c: Chain, env: Env, l: Ledger, dest: Address, quantity: nat, gasLimit: nat, run: EvmRun, l': Ledger) {
    quantity > env.ingressFee && PlainTransfer(c, env, l.evm, BridgeInTx(c, env, quantity, gasLimit), dest, run) ==>
      && c.self in l.balances
      && l'.balances == l.balances[c.self := l.balances[c.self] + Times(env.ingressFee, c.unit)]
      && l'.inevm == l.inevm + Times(quantity - env.ingressFee, c.unit)
      && l'.evm == Grown(l.evm, dest, Times(quantity - env.ingressFee, c.unit))
  }

  lemma BridgeInAnywhere(c: Chain, env: Env, l: Ledger, quantity: nat, gasLimit: nat, run: EvmRun, l': Ledger)
    requires BridgeIn(c, env, l, quantity, gasLimit, run) == Some(l')
    ensures forall dest :: BridgedPlainly(c, env, l, dest, quantity, gasLimit, run, l')
  {
    forall dest ensures BridgedPlainly(c, env, l, dest, quantity, gasLimit, run, l') {
      if quantity > env.ingressFee && PlainTransfer(c, env, l.evm, BridgeInTx(c, env, quantity, gasLimit), dest, run) {
        BridgeInIsExact(c, env, l, dest, quantity, gasLimit, run, l');
      }
    }
  }

  lemma BridgeInValue(c: Chain, env: Env, quantity: nat, gasLimit: nat)
    requires quantity > env.ingressFee
    ensures BridgeInTx(c, env, quantity, gasLimit).value == Times(quantity - env.ingressFee, c.unit)
    ensures BridgeInTx(c, env, quantity, gasLimit).special
    ensures BridgeInTx(c, env, quantity, gasLimit).from == FromReserved(c.self)
  {
  }

  lemma BridgeInMoves(c: Chain, env: Env, l: Ledger, p: Ledger, quantity: nat, tx: Tx, run: EvmRun, l': Ledger)
    requires quantity > env.ingressFee && tx.special && tx.from == FromReserved(c.self)
    requires tx.value == Times(quantity - env.ingressFee, c.unit)
    requires Charges(c, env, tx, run, map[]) && run.messages == [] && Leaving(run.reserved, None) == MaxGasCost(tx)
    requires c.self in l.balances && p.inevm == l.inevm
    requires p.balances == l.balances[c.self := l.balances[c.self] + Times(quantity, c.unit)]
    requires ProcessTx(c, env, p, INTERNAL, c.self, tx, None, run) == Some(l')
    ensures l'.balances == l.balances[c.self := l.balances[c.self] + Times(env.ingressFee, c.unit)]
    ensures l'.inevm == l.inevm + tx.value && l'.evm == run.evm
  {
    SelfTxLedger(c, env, p, tx, run, l');
    FeeStays(c, l.balances, p.balances, l'.balances, quantity, env.ingressFee, tx.value);
  }

  /** In with the whole quantity, out with the rest: the fee stays. */
  lemma FeeStays(c: Chain, b0: map<Name, nat>, b1: map<Name, nat>, b2: map<Name, nat>, quantity: nat, fee: nat, rest: nat)
    requires c.self in b0 && fee <= quantity && rest == Times(quantity - fee, c.unit)
    requires b1 == b0[c.self := b0[c.self] + Times(quantity, c.unit)]
    requires rest <= b1[c.self] && b2 == b1[c.self := b1[c.self] - rest]
    ensures b2 == b0[c.self := b0[c.self] + Times(fee, c.unit)]
  {
    TimesAdd(fee, quantity - fee, c.unit);
  }

  lemma BridgeInParts(c: Chain, env: Env, l: Ledger, quantity: nat, gasLimit: nat, run: EvmRun, l': Ledger) returns (p: Ledger)
    requires quantity > env.ingressFee && BridgeIn(c, env, l, quantity, gasLimit, run) == Some(l')
    ensures PrepareBridgeIn(c, env, l, quantity) == Some(p)
    ensures c.self in l.balances
    ensures p.balances == l.balances[c.self := l.balances[c.self] + Times(quantity, c.unit)]
    ensures p.inevm == l.inevm && p.evm == l.evm
    ensures ProcessTx(c, env, p, INTERNAL, c.self, BridgeInTx(c, env, quantity, gasLimit), None, run) == Some(l')
  {
    p := PrepareBridgeIn(c, env, l, quantity).value;
  }
}
