/** Solvency over every run: the native tokens the contract holds always cover, to the wei,
    the open balances plus what is in the EVM, and `inevm` is the sum of the persisted EVM
    balances (the oracle `check_balances` of tests/basic_evm_tester.cpp). */
module Solvency {
  import opened Options
  import opened Sums
  import opened DustBalance
  import opened LedgerTypes
  import opened Egress
  import opened EgressTheorems
  import opened Actions

  /** Rows and `inevm` add up to the tokens held, save `missing` wei in flight. */
  ghost predicate Balanced(c: Chain, l: Ledger, missing: nat) {
    l.held == Sum(l.balances) + l.inevm + missing && l.inevm < Cap(c.unit)
  }

  ghost predicate Solvent(c: Chain, l: Ledger) {
    Balanced(c, l, 0) && l.inevm == Sum(l.evm)
  }

  /** The contract's own row exists and every open account has a nonce row. */
  predicate WellOpened(c: Chain, l: Ledger) {
    c.self in l.balances && l.balances.Keys <= l.nonces.Keys
  }

  /** All that is assumed of an EVM run: it conserves the total of the balances it works on. */
  ghost predicate Conserves(evm: map<Address, nat>, tx: Tx, run: EvmRun) {
    Distinct(run.reserved) && Sum(run.evm) + Leaving(run.reserved, None) == Sum(evm) + Ingress(tx)
  }

  /** Phases change rows, `inevm`, tokens and statistics; rows are never added or dropped. */
  predicate Framed(l: Ledger, l': Ledger) {
    l'.balances.Keys == l.balances.Keys && l'.nonces == l.nonces && l'.evm == l.evm
  }

  // ---- execute_tx, phase by phase ----

  lemma DebitSenderSum(balances: map<Name, nat>, n: Name, tx: Tx, rc: RuntimeConfig)
    ensures var r := DebitSender(balances, n, tx, rc);
            r.Some? ==> Sum(r.value) == Sum(balances) - (tx.value + MaxGasCost(tx)) && r.value.Keys == balances.Keys
  {
    match rc.gasPayer {
      case None => DebitRowSum(balances, n, tx.value + MaxGasCost(tx));
      case Some(payer) =>
        var b := DebitRow(balances, payer, MaxGasCost(tx));
        DebitRowSum(balances, payer, MaxGasCost(tx));
        if b.Some? && tx.value > 0 {
          DebitRowSum(b.value, n, tx.value);
        }
    }
  }

  lemma IngressBalanced(c: Chain, l: Ledger, rc: RuntimeConfig, tx: Tx)
    requires Balanced(c, l, 0)
    ensures var r := IngressPhase(c, l, rc, tx);
            r.Some? ==> Balanced(c, r.value, 0) && Framed(l, r.value) && r.value.inevm == l.inevm + Ingress(tx)
  {
    if tx.special && tx.from.FromReserved? {
      DebitSenderSum(l.balances, tx.from.account, tx, rc);
    }
  }

  lemma EgressBalanced(c: Chain, env: Env, l: Ledger, portion: Option<nat>, objs: seq<Reserved>, msgs: seq<Message>)
    requires Balanced(c, l, 0) && Distinct(objs)
    ensures var r := EgressPhase(c, env, l, portion, objs, msgs);
            r.Some? ==>
              && (r.value.1 ==> portion.Some?)
              && Balanced(c, r.value.0, if r.value.1 then portion.value else 0)
              && Framed(l, r.value.0) && r.value.0.inevm == l.inevm - Leaving(objs, None)
  {
    var need := EgressPhaseMeaning(c, env, l, portion, objs, msgs);
  }

  lemma PayMinerBalanced(c: Chain, l: Ledger, miner: Option<Name>, portion: Option<nat>, taken: bool)
    requires taken ==> portion.Some?
    requires miner.None? ==> portion.None?
    requires Balanced(c, l, if taken then portion.value else 0)
    ensures var r := PayMiner(c, l, miner, portion, taken);
            r.Some? ==> Balanced(c, r.value, 0) && Framed(l, r.value) && r.value.inevm == l.inevm
  {
    if portion.Some? && portion.value != 0 {
      CreditRowSum(c, l.balances, miner.value, portion.value);
    }
  }

  lemma RefundBalanced(c: Chain, env: Env, l: Ledger, rc: RuntimeConfig, tx: Tx, run: EvmRun)
    requires Balanced(c, l, 0)
    ensures var r := RefundPayer(c, env, l, rc, tx, run);
            r.Some? ==> Balanced(c, r.value, 0) && Framed(l, r.value) && r.value.inevm == l.inevm
  {
    var r := RefundPayer(c, env, l, rc, tx, run);
    if r.Some? && rc.gasPayer.Some? {
      var refund := MaxGasCost(tx) - GasFee(env, tx, run);
      DebitRowSum(l.balances, tx.from.account, refund);
      CreditRowSum(c, DebitRow(l.balances, tx.from.account, refund).value, rc.gasPayer.value, refund);
    }
  }

  lemma RefundAndIncomeBalanced(c: Chain, env: Env, l: Ledger, rc: RuntimeConfig, tx: Tx, run: EvmRun, portion: Option<nat>)
    requires Balanced(c, l, 0)
    ensures var r := RefundPayer(c, env, l, rc, tx, run);
            r.Some? ==>
              var q := AddGasIncome(c, env, r.value, tx, run, portion);
              q.Some? ==> Balanced(c, q.value, 0) && Framed(l, q.value) && q.value.inevm == l.inevm
  {
    RefundBalanced(c, env, l, rc, tx, run);
  }

  /** Paying the miner what was taken for it, refunding and booking leaves the ledger balanced. */
  lemma SettleGasBalanced(c: Chain, env: Env, l: Ledger, rc: RuntimeConfig, m: Option<Name>, tx: Tx, run: EvmRun,
                          portion: Option<nat>, taken: bool)
    requires (taken ==> portion.Some?) && (m.None? ==> portion.None?)
    requires Balanced(c, l, if taken then portion.value else 0)
    ensures var r := SettleGas(c, env, l, rc, m, tx, run, portion, taken);
            r.Some? ==> Balanced(c, r.value, 0) && Framed(l, r.value) && r.value.inevm == l.inevm
  {
    var l1 := PayMiner(c, l, m, portion, taken);
    if l1.Some? {
      PayMinerBalanced(c, l, m, portion, taken);
      RefundAndIncomeBalanced(c, env, l1.value, rc, tx, run, portion);
    }
  }

  lemma AfterRunBalanced(c: Chain, env: Env, l: Ledger, rc: RuntimeConfig, m: Option<Name>, tx: Tx, run: EvmRun,
                         portion: Option<nat>)
    requires Balanced(c, l, 0) && Distinct(run.reserved) && (m.None? ==> portion.None?)
    ensures var r := AfterRun(c, env, l, rc, m, tx, run, portion);
            r.Some? ==> Balanced(c, r.value, 0) && Framed(l, r.value) && r.value.inevm == l.inevm - Leaving(run.reserved, None)
  {
    var e := EgressPhase(c, env, l, portion, run.reserved, run.messages);
    EgressBalanced(c, env, l, portion, run.reserved, run.messages);
    if e.Some? {
      SettleGasBalanced(c, env, e.value.0, rc, m, tx, run, portion, e.value.1);
    }
  }

  lemma ExecuteTxBalanced(c: Chain, env: Env, l: Ledger, rc: RuntimeConfig, miner: Name, tx: Tx, run: EvmRun)
    requires Balanced(c, l, 0) && Distinct(run.reserved)
    ensures var r := ExecuteTx(c, env, l, rc, miner, tx, run);
            r.Some? ==> Balanced(c, r.value, 0) && Framed(l, r.value)
                        && r.value.inevm == l.inevm + Ingress(tx) - Leaving(run.reserved, None)
  {
    var m := ActiveMiner(c, miner);
    var l1 := IngressPhase(c, l, rc, tx);
    var portion := MinerPortion(env, tx, run, m);
    IngressBalanced(c, l, rc, tx);
    if l1.Some? && portion.Some? {
      AfterRunBalanced(c, env, l1.value, rc, m, tx, run, portion.value);
    }
  }

  // ---- process_filtered_messages ----

  lemma BridgeOneSum(c: Chain, env: Env, b: Bridged, msg: Message)
    ensures var r := BridgeOne(c, env, b, msg);
            r.Some? ==> Sum(r.value.balances) == Sum(b.balances) + r.value.total - b.total
                        && r.value.balances.Keys == b.balances.Keys
  {
    var target := BridgeTarget(c, env, msg);
    if IsBridgeMessage(c, msg) && target.Some? {
      CreditRowSum(c, b.balances, target.value, msg.value);
    }
  }

  lemma {:induction false} BridgeUpToSum(c: Chain, env: Env, balances: map<Name, nat>, msgs: seq<Message>, i: nat)
    requires i <= |msgs|
    ensures var r := BridgeUpTo(c, env, balances, msgs, i);
            r.Some? ==> Sum(r.value.balances) == Sum(balances) + r.value.total && r.value.balances.Keys == balances.Keys
    decreases i
  {
    if i > 0 {
      BridgeUpToSum(c, env, balances, msgs, i - 1);
      var b := BridgeUpTo(c, env, balances, msgs, i - 1);
      if b.Some? {
        BridgeOneSum(c, env, b.value, msgs[i - 1]);
      }
    }
  }

  /** Crediting the receivers and debiting the total cancel out. */
  lemma TotalPaid(c: Chain, l: Ledger, b: Bridged, b': map<Name, nat>)
    requires Balanced(c, l, 0) && Sum(b.balances) == Sum(l.balances) + b.total && b.balances.Keys == l.balances.Keys
    requires DebitRow(b.balances, c.self, b.total) == Some(b')
    ensures Balanced(c, l.(balances := b'), 0) && b'.Keys == l.balances.Keys
  {
    DebitRowSum(b.balances, c.self, b.total);
  }

  lemma MessagesBalanced(c: Chain, env: Env, l: Ledger, msgs: seq<Message>)
    requires Balanced(c, l, 0)
    ensures var r := MessagesPhase(c, env, l, msgs);
            r.Some? ==> Balanced(c, r.value, 0) && Framed(l, r.value) && r.value.inevm == l.inevm
  {
    var r := MessagesPhase(c, env, l, msgs);
    if r.Some? {
      BridgeUpToSum(c, env, l.balances, msgs, |msgs|);
      var b := BridgeUpTo(c, env, l.balances, msgs, |msgs|).value;
      if b.total != 0 {
        TotalPaid(c, l, b, r.value.balances);
      }
    }
  }

  lemma ProcessTxSolvent(c: Chain, env: Env, l: Ledger, rc: RuntimeConfig, miner: Name, tx: Tx,
                         minInclusion: Option<nat>, run: EvmRun)
    requires Solvent(c, l) && Conserves(l.evm, tx, run)
    ensures var r := ProcessTx(c, env, l, rc, miner, tx, minInclusion, run);
            r.Some? ==> Solvent(c, r.value) && r.value.balances.Keys == l.balances.Keys && r.value.nonces == l.nonces
  {
    var r := ProcessTx(c, env, l, rc, miner, tx, minInclusion, run);
    if r.Some? {
      ExecuteTxBalanced(c, env, l, rc, miner, tx, run);
      MessagesBalanced(c, env, ExecuteTx(c, env, l, rc, miner, tx, run).value, run.messages);
    }
  }

  // ---- steps and runs ----

  datatype Action =
    | Open(owner: Name)
    | Close(owner: Name)
    | DepositTo(owner: Name, quantity: nat)
    | BridgeTo(quantity: nat, gasLimit: nat, run: EvmRun)
    | WithdrawTo(owner: Name, amount: int, to: Option<Name>)
    | CallAs(from: Name, value: nat, gasLimit: nat, run: EvmRun)
    | CallPaidBy(payer: Name, from: Name, value: nat, gasLimit: nat, run: EvmRun)
    | AdminCallAs(sender: Sender, value: nat, gasLimit: nat, run: EvmRun)
    | Push(fromSelf: bool, miner: Name, tx: Tx, minInclusion: Option<nat>, run: EvmRun)

  function Apply(c: Chain, env: Env, l: Ledger, a: Action): Option<Ledger> {
    match a
    case Open(n) => Some(OpenAccount(l, n))
    case Close(n) => CloseAccount(c, l, n)
    case DepositTo(n, q) => Deposit(c, l, n, q)
    case BridgeTo(q, g, run) => BridgeIn(c, env, l, q, g, run)
    case WithdrawTo(n, q, to) => Withdraw(c, l, n, q, to)
    case CallAs(n, v, g, run) => Call(c, env, l, n, v, g, run)
    case CallPaidBy(p, n, v, g, run) => CallOtherPay(c, env, l, p, n, v, g, run)
    case AdminCallAs(s, v, g, run) => AdminCall(c, env, l, s, v, g, run)
    case Push(self, m, tx, mi, run) => PushTx(c, env, l, self, m, tx, mi, run)
  }

  /** The transaction an action runs in the EVM, if it gets that far. */
  function TxOf(c: Chain, env: Env, a: Action): Option<(Tx, EvmRun)> {
    match a
    case BridgeTo(q, g, run) => if q > env.ingressFee then Some((BridgeInTx(c, env, q, g), run)) else None
    case CallAs(n, v, g, run) => Some((InternalTx(env, FromReserved(n), v, g), run))
    case CallPaidBy(p, n, v, g, run) => Some((InternalTx(env, FromReserved(n), v, g), run))
    case AdminCallAs(s, v, g, run) => Some((InternalTx(env, s, v, g), run))
    case Push(self, m, tx, mi, run) => Some((tx, run))
    case _ => None
  }

  ghost predicate StepOk(c: Chain, env: Env, l: Ledger, a: Action) {
    var t := TxOf(c, env, a);
    t.Some? ==> Conserves(l.evm, t.value.0, t.value.1)
  }

  ghost predicate Good(c: Chain, l: Ledger) {
    Solvent(c, l) && WellOpened(c, l)
  }

  lemma OpenGood(c: Chain, l: Ledger, n: Name)
    requires Good(c, l)
    ensures Good(c, OpenAccount(l, n))
  {
    if n !in l.balances {
      SumUpdate(l.balances, n, 0);
    }
  }

  lemma CloseGood(c: Chain, l: Ledger, n: Name)
    requires Good(c, l)
    ensures var r := CloseAccount(c, l, n);
            r.Some? ==> Good(c, r.value)
  {
    if n in l.balances {
      SumRemove(l.balances, n);
    }
  }

  lemma DepositGood(c: Chain, l: Ledger, n: Name, quantity: nat)
    requires Good(c, l)
    ensures var r := Deposit(c, l, n, quantity);
            r.Some? ==> Good(c, r.value)
  {
    CreditRowSum(c, l.balances, n, Times(quantity, c.unit));
  }

  lemma WithdrawGood(c: Chain, l: Ledger, n: Name, quantity: int, to: Option<Name>)
    requires Good(c, l)
    ensures var r := Withdraw(c, l, n, quantity, to);
            r.Some? ==> Good(c, r.value)
  {
    if quantity > 0 {
      DebitRowSum(l.balances, n, Times(quantity, c.unit));
    }
  }

  /** With enough tokens behind the owner's row, a withdrawal sends exactly the quantity to the named
      receiver, takes its worth off the owner's row and off the tokens held, and does nothing else. */
  lemma CoveredWithdrawal(c: Chain, l: Ledger, owner: Name, quantity: int, to: Option<Name>)
    requires owner in l.balances ==> l.balances[owner] <= l.held
    ensures Withdraw(c, l, owner, quantity, to) ==
            if owner in l.balances && 0 < quantity <= MAX_AMOUNT && to.GetOr(owner) != c.self
               && Times(quantity, c.unit) <= l.balances[owner]
            then Some(l.(balances := l.balances[owner := l.balances[owner] - Times(quantity, c.unit)],
                         held := l.held - Times(quantity, c.unit),
                         sent := l.sent + [Transfer(to.GetOr(owner), quantity)]))
            else None
  {
  }

  lemma RowIsHeld(c: Chain, l: Ledger, n: Name)
    requires Balanced(c, l, 0) && n in l.balances
    ensures l.balances[n] <= l.held
  {
    SumAtLeast(l.balances, n);
  }

  /** A withdrawal the owner's row covers is never refused for lack of tokens. */
  lemma WithdrawMeaning(c: Chain, l: Ledger, owner: Name, quantity: int, to: Option<Name>)
    requires Solvent(c, l)
    ensures Withdraw(c, l, owner, quantity, to) ==
            if owner in l.balances && 0 < quantity <= MAX_AMOUNT && to.GetOr(owner) != c.self
               && Times(quantity, c.unit) <= l.balances[owner]
            then Some(l.(balances := l.balances[owner := l.balances[owner] - Times(quantity, c.unit)],
                         held := Nat(l.held - Times(quantity, c.unit)),
                         sent := l.sent + [Transfer(to.GetOr(owner), quantity)]))
            else None
    ensures owner in l.balances ==> l.balances[owner] <= l.held
  {
    if owner in l.balances {
      RowIsHeld(c, l, owner);
    }
    CoveredWithdrawal(c, l, owner, quantity, to);
  }

  lemma PrepareBridgeInGood(c: Chain, env: Env, l: Ledger, quantity: nat)
    requires Good(c, l)
    ensures var r := PrepareBridgeIn(c, env, l, quantity);
            r.Some? ==> Good(c, r.value) && r.value.evm == l.evm && quantity > env.ingressFee
  {
    CreditRowSum(c, l.balances, c.self, Times(quantity, c.unit));
  }

  lemma BridgeInGood(c: Chain, env: Env, l: Ledger, quantity: nat, gasLimit: nat, run: EvmRun)
    requires Good(c, l)
    requires quantity > env.ingressFee ==> Conserves(l.evm, BridgeInTx(c, env, quantity, gasLimit), run)
    ensures var r := BridgeIn(c, env, l, quantity, gasLimit, run);
            r.Some? ==> Good(c, r.value)
  {
    var p := PrepareBridgeIn(c, env, l, quantity);
    PrepareBridgeInGood(c, env, l, quantity);
    if p.Some? {
      ProcessTxSolvent(c, env, p.value, INTERNAL, c.self, BridgeInTx(c, env, quantity, gasLimit), None, run);
    }
  }

  lemma CallGood(c: Chain, env: Env, l: Ledger, from: Name, tx: Tx, rc: RuntimeConfig, run: EvmRun)
    requires Good(c, l) && Conserves(l.evm, tx, run) && from in l.nonces
    ensures var r := ProcessTx(c, env, IncrementNonce(l, from).value, rc, c.self, tx, None, run);
            r.Some? ==> Good(c, r.value)
  {
    ProcessTxSolvent(c, env, IncrementNonce(l, from).value, rc, c.self, tx, None, run);
  }

  lemma StepGood(c: Chain, env: Env, l: Ledger, a: Action)
    requires Good(c, l) && StepOk(c, env, l, a)
    ensures var r := Apply(c, env, l, a);
            r.Some? ==> Good(c, r.value)
  {
    match a {
      case Open(n) => OpenGood(c, l, n);
      case Close(n) => CloseGood(c, l, n);
      case DepositTo(n, q) => DepositGood(c, l, n, q);
      case BridgeTo(q, g, run) => BridgeInGood(c, env, l, q, g, run);
      case WithdrawTo(n, q, to) => WithdrawGood(c, l, n, q, to);
      case CallAs(n, v, g, run) =>
        if n in l.nonces {
          CallGood(c, env, l, n, InternalTx(env, FromReserved(n), v, g), INTERNAL, run);
        }
      case CallPaidBy(p, n, v, g, run) =>
        if n in l.nonces {
          CallGood(c, env, l, n, InternalTx(env, FromReserved(n), v, g), INTERNAL.(gasPayer := Some(p)), run);
        }
      case AdminCallAs(s, v, g, run) =>
        match s {
          case FromReserved(n) =>
            if n in l.nonces {
              CallGood(c, env, l, n, InternalTx(env, s, v, g), INTERNAL, run);
            }
          case FromAddress(_) => ProcessTxSolvent(c, env, l, INTERNAL, c.self, InternalTx(env, s, v, g), None, run);
        }
      case Push(self, m, tx, mi, run) =>
        ProcessTxSolvent(c, env, l, if self then INTERNAL else EXTERNAL, m, tx, mi, run);
    }
  }

  /** An aborted action leaves the ledger as it was. */
  function Step(c: Chain, l: Ledger, s: (Env, Action)): Ledger {
    Apply(c, s.0, l, s.1).GetOr(l)
  }

  function Run(c: Chain, l: Ledger, steps: seq<(Env, Action)>): Ledger
    decreases |steps|
  {
    if steps == [] then l else Run(c, Step(c, l, steps[0]), steps[1..])
  }

  ghost predicate RunOk(c: Chain, l: Ledger, steps: seq<(Env, Action)>)
    decreases |steps|
  {
    steps != [] ==> StepOk(c, steps[0].0, l, steps[0].1) && RunOk(c, Step(c, l, steps[0]), steps[1..])
  }

  lemma {:induction false} RunGood(c: Chain, l: Ledger, steps: seq<(Env, Action)>)
    requires Good(c, l) && RunOk(c, l, steps)
    ensures Good(c, Run(c, l, steps))
    decreases |steps|
  {
    if steps != [] {
      StepGood(c, steps[0].0, l, steps[0].1);
      RunGood(c, Step(c, l, steps[0]), steps[1..]);
    }
  }

  lemma InitGood(c: Chain)
    ensures Good(c, InitLedger(c))
  {
    SumUpdate(map[], c.self, 0);
    assert map[][c.self := 0] == InitLedger(c).balances;
    SplitBelowCap(c.unit, 0, 0);
  }

  /** From initialisation on, whatever is called and whatever aborts, the contract is solvent. */
  lemma AlwaysSolvent(c: Chain, steps: seq<(Env, Action)>)
    requires RunOk(c, InitLedger(c), steps)
    ensures var l := Run(c, InitLedger(c), steps);
            && l.held == Sum(l.balances) + l.inevm
            && l.inevm == Sum(l.evm)
            && c.self in l.balances
            && l.balances.Keys <= l.nonces.Keys
  {
    InitGood(c);
    RunGood(c, InitLedger(c), steps);
  }
}
