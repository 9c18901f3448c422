/** Nonces over whole runs: every account is issued 0, 1, 2, ... with no gap or repeat, across
    closing and reopening. */
module Nonces {
  import opened Options
  import opened LedgerTypes
  import opened Egress
  import opened EgressTheorems
  import opened Actions
  import opened Solvency

  /** What `assertnonce` compares with: the next nonce, 0 without a row. */
  function Next(l: Ledger, n: Name): nat {
    if n in l.nonces then l.nonces[n] else 0
  }

  /** The account whose nonce an action takes. */
  function Issuer(c: Chain, a: Action): Option<Name> {
    match a
    case BridgeTo(_, _, _) => Some(c.self)
    case CallAs(n, _, _, _) => Some(n)
    case CallPaidBy(_, n, _, _, _) => Some(n)
    case AdminCallAs(s, _, _, _) => if s.FromReserved? then Some(s.account) else None
    case _ => None
  }

  // ---- transactions leave the nonce table alone ----

  lemma EgressKeepsNonces(c: Chain, env: Env, l: Ledger, portion: Option<nat>, objs: seq<Reserved>, msgs: seq<Message>)
    ensures var r := EgressPhase(c, env, l, portion, objs, msgs);
            r.Some? ==> r.value.0.nonces == l.nonces
  {
    var e := EgressUpTo(c, env, portion, l.balances, objs, msgs, |objs|);
    if e.Some? {
      SendUpToFrame(c, l.(balances := e.value.balances), msgs, e.value.need, |msgs|);
    }
  }

  lemma SettleGasKeepsNonces(c: Chain, env: Env, l: Ledger, rc: RuntimeConfig, m: Option<Name>, tx: Tx, run: EvmRun,
                             portion: Option<nat>, taken: bool)
    ensures var r := SettleGas(c, env, l, rc, m, tx, run, portion, taken);
            r.Some? ==> r.value.nonces == l.nonces
  {
  }

  lemma AfterRunKeepsNonces(c: Chain, env: Env, l: Ledger, rc: RuntimeConfig, m: Option<Name>, tx: Tx, run: EvmRun,
                            portion: Option<nat>)
    ensures var r := AfterRun(c, env, l, rc, m, tx, run, portion);
            r.Some? ==> r.value.nonces == l.nonces
  {
    var e := EgressPhase(c, env, l, portion, run.reserved, run.messages);
    EgressKeepsNonces(c, env, l, portion, run.reserved, run.messages);
    if e.Some? {
      SettleGasKeepsNonces(c, env, e.value.0, rc, m, tx, run, portion, e.value.1);
    }
  }

  lemma ProcessTxKeepsNonces(c: Chain, env: Env, l: Ledger, rc: RuntimeConfig, miner: Name, tx: Tx,
                             minInclusion: Option<nat>, run: EvmRun)
    ensures var r := ProcessTx(c, env, l, rc, miner, tx, minInclusion, run);
            r.Some? ==> r.value.nonces == l.nonces
  {
    var m := ActiveMiner(c, miner);
    var l1, portion := IngressPhase(c, l, rc, tx), MinerPortion(env, tx, run, m);
    if l1.Some? && portion.Some? {
      AfterRunKeepsNonces(c, env, l1.value, rc, m, tx, run, portion.value);
    }
  }

  /** A successful action moves its issuer's next nonce by one and no other. */
  lemma ApplyNonces(c: Chain, env: Env, l: Ledger, a: Action, n: Name)
    ensures var r := Apply(c, env, l, a);
            r.Some? ==> Next(r.value, n) == Next(l, n) + (if Issuer(c, a) == Some(n) then 1 else 0)
  {
    match a {
      case BridgeTo(q, g, run) =>
        var p := PrepareBridgeIn(c, env, l, q);
        if p.Some? {
          ProcessTxKeepsNonces(c, env, p.value, INTERNAL, c.self, BridgeInTx(c, env, q, g), None, run);
        }
      case CallAs(from, v, g, run) => CallNonces(c, env, l, from, None, v, g, run);
      case CallPaidBy(p, from, v, g, run) => CallNonces(c, env, l, from, Some(p), v, g, run);
      case AdminCallAs(s, v, g, run) =>
        match s {
          case FromReserved(from) => CallNonces(c, env, l, from, None, v, g, run);
          case FromAddress(_) => ProcessTxKeepsNonces(c, env, l, INTERNAL, c.self, InternalTx(env, s, v, g), None, run);
        }
      case Push(self, m, tx, mi, run) => ProcessTxKeepsNonces(c, env, l, if self then INTERNAL else EXTERNAL, m, tx, mi, run);
      case _ =>
    }
  }

  lemma CallNonces(c: Chain, env: Env, l: Ledger, from: Name, payer: Option<Name>, value: nat, gasLimit: nat, run: EvmRun)
    ensures var l1 := IncrementNonce(l, from);
            l1.Some? ==>
              var r := ProcessTx(c, env, l1.value, INTERNAL.(gasPayer := payer), c.self,
                                 InternalTx(env, FromReserved(from), value, gasLimit), None, run);
              r.Some? ==> r.value.nonces == l.nonces[from := l.nonces[from] + 1]
  {
    var l1 := IncrementNonce(l, from);
    if l1.Some? {
      ProcessTxKeepsNonces(c, env, l1.value, INTERNAL.(gasPayer := payer), c.self,
                           InternalTx(env, FromReserved(from), value, gasLimit), None, run);
    }
  }

  // ---- runs ----

  predicate Issues(c: Chain, l: Ledger, s: (Env, Action), n: Name) {
    Issuer(c, s.1) == Some(n) && Apply(c, s.0, l, s.1).Some?
  }

  /** The nonces a run issues to one account, in order. */
  function Issued(c: Chain, l: Ledger, steps: seq<(Env, Action)>, n: Name): seq<nat>
    decreases |steps|
  {
    if steps == [] then []
    else
      (if Issues(c, l, steps[0], n) then [Next(l, n)] else []) + Issued(c, Step(c, l, steps[0]), steps[1..], n)
  }

  lemma StepNonces(c: Chain, l: Ledger, s: (Env, Action), n: Name)
    ensures Next(Step(c, l, s), n) == Next(l, n) + (if Issues(c, l, s, n) then 1 else 0)
  {
    ApplyNonces(c, s.0, l, s.1, n);
  }

  function Consecutive(first: nat, count: nat): seq<nat> {
    seq(count, i requires i >= 0 => first + i)
  }

  /** One more nonce in front, or none, of consecutive ones. */
  lemma ConsecutiveFrom(issues: bool, first: nat, next: nat, last: nat)
    requires next == first + (if issues then 1 else 0) && next <= last
    ensures (if issues then [first] else []) + Consecutive(next, last - next) == Consecutive(first, last - first)
  {
  }

  /** The first step of a run: the ledger after it and whether it issued a nonce. */
  lemma IssuedUnfold(c: Chain, l: Ledger, steps: seq<(Env, Action)>, n: Name) returns (l1: Ledger, issues: bool)
    requires steps != []
    ensures Run(c, l, steps) == Run(c, l1, steps[1..])
    ensures Issued(c, l, steps, n) == (if issues then [Next(l, n)] else []) + Issued(c, l1, steps[1..], n)
    ensures Next(l1, n) == Next(l, n) + (if issues then 1 else 0)
  {
    l1, issues := Step(c, l, steps[0]), Issues(c, l, steps[0], n);
    StepNonces(c, l, steps[0], n);
  }

  /** The nonces issued and the next one after a run fit together. */
  predicate Fits(issued: seq<nat>, first: nat, last: nat) {
    first <= last && issued == Consecutive(first, last - first)
  }

  lemma FitsFrom(issues: bool, first: nat, next: nat, last: nat, rest: seq<nat>)
    requires Fits(rest, next, last) && next == first + (if issues then 1 else 0)
    ensures Fits((if issues then [first] else []) + rest, first, last)
  {
    ConsecutiveFrom(issues, first, next, last);
  }

  lemma {:induction false} IssuedAreConsecutive(c: Chain, l: Ledger, steps: seq<(Env, Action)>, n: Name)
    ensures Fits(Issued(c, l, steps, n), Next(l, n), Next(Run(c, l, steps), n))
    decreases |steps|
  {
    if steps != [] {
      var l1, issues := IssuedUnfold(c, l, steps, n);
      IssuedAreConsecutive(c, l1, steps[1..], n);
      FitsFrom(issues, Next(l, n), Next(l1, n), Next(Run(c, l1, steps[1..]), n), Issued(c, l1, steps[1..], n));
    }
  }

  /** From initialisation: exactly 0, 1, 2, ... up to the next nonce. */
  lemma NoncesHaveNoGaps(c: Chain, steps: seq<(Env, Action)>, n: Name)
    ensures Issued(c, InitLedger(c), steps, n) == Consecutive(0, Next(Run(c, InitLedger(c), steps), n))
  {
    IssuedAreConsecutive(c, InitLedger(c), steps, n);
  }
}
