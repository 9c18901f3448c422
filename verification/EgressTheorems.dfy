/** What the egress phase guarantees as a whole. */
module EgressTheorems {
  import opened Options
  import opened Sums
  import opened DustBalance
  import opened LedgerTypes
  import opened Egress

  // ---- the order of the reserved objects does not matter ----

  lemma {:induction false} LeavingConcat(a: seq<Reserved>, b: seq<Reserved>, who: Option<Name>)
    ensures Leaving(a + b, who) == Leaving(a, who) + Leaving(b, who)
    decreases |b|
  {
    if b == [] {
      assert a + b == a;
    } else {
      var b' := b[..|b| - 1];
      LeavingConcat(a, b', who);
      assert (a + b)[..|a + b| - 1] == a + b';
    }
  }

  lemma LeavingWithout(b: seq<Reserved>, j: nat, who: Option<Name>)
    requires j < |b|
    ensures Leaving(b, who) == Leaving(b[..j] + b[j + 1..], who) + Weight(b[j], who)
    ensures multiset(b[..j] + b[j + 1..]) == multiset(b) - multiset{b[j]}
  {
    assert b == (b[..j] + [b[j]]) + b[j + 1..];
    LeavingConcat(b[..j] + [b[j]], b[j + 1..], who);
    LeavingAppend(b[..j], b[j], who);
    LeavingConcat(b[..j], b[j + 1..], who);
  }

  lemma {:induction false} LeavingPermutation(a: seq<Reserved>, b: seq<Reserved>, who: Option<Name>)
    requires multiset(a) == multiset(b)
    ensures Leaving(a, who) == Leaving(b, who)
    decreases |a|
  {
    if a == [] {
      assert |multiset(b)| == 0;
    } else {
      var n := |a| - 1;
      assert a[n] in multiset(b);
      var j :| 0 <= j < |b| && b[j] == a[n];
      LeavingWithout(a, n, who);
      LeavingWithout(b, j, who);
      LeavingPermutation(a[..n] + a[n + 1..], b[..j] + b[j + 1..], who);
    }
  }

  lemma ResultUnique(c: Chain, portion: Option<nat>, balances: map<Name, nat>, a: seq<Reserved>, b: seq<Reserved>,
                     msgs: seq<Message>, e: Egressed, f: Egressed)
    requires EgressResult(c, portion, balances, a, msgs, e) && EgressResult(c, portion, balances, b, msgs, f)
    requires forall n :: Leaving(a, Some(n)) == Leaving(b, Some(n))
    requires Leaving(a, None) == Leaving(b, None)
    ensures e == f
  {
    assert e.balances == f.balances;
    assert e.need == f.need;
  }

  /** Visiting the reserved objects in another order gives the same balances, total, marks
      and flag, or aborts just the same. */
  lemma EgressOrderIndependent(c: Chain, env: Env, portion: Option<nat>, balances: map<Name, nat>,
                               a: seq<Reserved>, b: seq<Reserved>, msgs: seq<Message>)
    requires Distinct(a) && Distinct(b) && multiset(a) == multiset(b)
    ensures EgressUpTo(c, env, portion, balances, a, msgs, |a|) == EgressUpTo(c, env, portion, balances, b, msgs, |b|)
  {
    EgressUpToMeaning(c, env, portion, balances, a, msgs, |a|);
    EgressUpToMeaning(c, env, portion, balances, b, msgs, |b|);
    assert a[..|a|] == a && b[..|b|] == b;
    SameElements(a, b);
    var r, q := EgressUpTo(c, env, portion, balances, a, msgs, |a|), EgressUpTo(c, env, portion, balances, b, msgs, |b|);
    assert r.Some? <==> q.Some?;
    if r.Some? {
      forall n ensures Leaving(a, Some(n)) == Leaving(b, Some(n)) {
        LeavingPermutation(a, b, Some(n));
      }
      LeavingPermutation(a, b, None);
      ResultUnique(c, portion, balances, a, b, msgs, r.value, q.value);
    }
  }

  lemma SameElements(a: seq<Reserved>, b: seq<Reserved>)
    requires multiset(a) == multiset(b)
    ensures forall i :: 0 <= i < |a| ==> a[i] in b
    ensures forall i :: 0 <= i < |b| ==> b[i] in a
  {
    forall i | 0 <= i < |a| ensures a[i] in b {
      assert a[i] in multiset(a);
    }
    forall i | 0 <= i < |b| ensures b[i] in a {
      assert b[i] in multiset(b);
    }
  }

  lemma EgressPhaseOrderIndependent(c: Chain, env: Env, l: Ledger, portion: Option<nat>,
                                    a: seq<Reserved>, b: seq<Reserved>, msgs: seq<Message>)
    requires Distinct(a) && Distinct(b) && multiset(a) == multiset(b)
    ensures EgressPhase(c, env, l, portion, a, msgs) == EgressPhase(c, env, l, portion, b, msgs)
  {
    EgressOrderIndependent(c, env, portion, l.balances, a, b, msgs);
    assert |a| == |multiset(a)| == |multiset(b)| == |b|;
  }

  // ---- conservation across the loop ----

  /** Value of the marked messages among the first `n`. */
  function MarkedValue(msgs: seq<Message>, need: seq<bool>, n: nat): nat
    requires n <= |msgs| == |need|
  {
    if n == 0 then 0 else MarkedValue(msgs, need, n - 1) + (if need[n - 1] then msgs[n - 1].value else 0)
  }

  lemma {:induction false} MarkedValueGrows(msgs: seq<Message>, need: seq<bool>, need': seq<bool>, account: Name, n: nat)
    requires n <= |msgs| == |need| && Marked(msgs, need, need', account, |msgs|)
    requires forall k :: 0 <= k < |msgs| && need[k] ==> msgs[k].receiver != account
    ensures MarkedValue(msgs, need', n) == MarkedValue(msgs, need, n) + ValueTo(msgs, account, n)
    decreases n
  {
    if n > 0 {
      MarkedValueGrows(msgs, need, need', account, n - 1);
    }
  }

  lemma {:induction false} NothingMarked(msgs: seq<Message>, n: nat)
    requires n <= |msgs|
    ensures MarkedValue(msgs, seq(|msgs|, _ => false), n) == 0
    decreases n
  {
    if n > 0 {
      NothingMarked(msgs, n - 1);
    }
  }

  lemma {:induction false} MarkedValueBound(msgs: seq<Message>, need: seq<bool>, k: nat, n: nat)
    requires k < n <= |msgs| == |need| && need[k]
    ensures msgs[k].value <= MarkedValue(msgs, need, n)
    decreases n
  {
    if k < n - 1 {
      MarkedValueBound(msgs, need, k, n - 1);
    }
  }

  lemma CreditRowSum(c: Chain, balances: map<Name, nat>, n: Name, x: nat)
    ensures var r := CreditRow(c, balances, n, x);
            r.Some? ==> Sum(r.value) == Sum(balances) + x && r.value.Keys == balances.Keys
  {
    if n in balances {
      SumUpdate(balances, n, balances[n] + x);
    }
  }

  lemma DebitRowSum(balances: map<Name, nat>, n: Name, x: nat)
    ensures var r := DebitRow(balances, n, x);
            r.Some? ==> Sum(r.value) == Sum(balances) - x && r.value.Keys == balances.Keys
  {
    if n in balances && x <= balances[n] {
      SumUpdate(balances, n, balances[n] - x);
    }
  }

  /** Rows plus marked messages account for all that left the EVM, less the miner's portion. */
  ghost predicate Accounted(balances: map<Name, nat>, portion: Option<nat>, msgs: seq<Message>, e: Egressed) {
    && |e.need| == |msgs| && (e.deducted ==> portion.Some?)
    && Sum(e.balances) + MarkedValue(msgs, e.need, |msgs|)
       == Sum(balances) + e.total - (if e.deducted then portion.value else 0)
    && MarkedValue(msgs, e.need, |msgs|) <= e.total
  }

  lemma EgressOneAccounted(c: Chain, env: Env, portion: Option<nat>, balances: map<Name, nat>,
                           msgs: seq<Message>, e: Egressed, o: Reserved)
    requires Accounted(balances, portion, msgs, e)
    requires forall k :: 0 <= k < |msgs| && e.need[k] ==> msgs[k].receiver != o.account
    ensures var r := EgressOne(c, env, portion, msgs, e, o);
            r.Some? ==> Accounted(balances, portion, msgs, r.value)
  {
    var r := EgressOne(c, env, portion, msgs, e, o);
    if r.Some? && o.balance != 0 {
      if o.account in e.balances {
        CreditAccounted(c, env, portion, balances, msgs, e, o);
      } else {
        MarkUpToMeaning(c, o.account, o.balance, msgs, e.need, |msgs|);
        MarkedValueGrows(msgs, e.need, r.value.need, o.account, |msgs|);
      }
    }
  }

  lemma CreditAccounted(c: Chain, env: Env, portion: Option<nat>, balances: map<Name, nat>,
                        msgs: seq<Message>, e: Egressed, o: Reserved)
    requires Accounted(balances, portion, msgs, e) && o.balance != 0 && o.account in e.balances
    ensures var r := EgressOne(c, env, portion, msgs, e, o);
            r.Some? ==> Accounted(balances, portion, msgs, r.value)
  {
    var r := EgressOne(c, env, portion, msgs, e, o);
    if r.Some? {
      var b := CreditRow(c, e.balances, o.account, o.balance).value;
      CreditRowSum(c, e.balances, o.account, o.balance);
      if portion.Some? && o.account == c.self {
        DebitRowSum(b, o.account, portion.value);
      }
    }
  }

  lemma {:induction false} EgressUpToAccounted(c: Chain, env: Env, portion: Option<nat>, balances: map<Name, nat>,
                                               objs: seq<Reserved>, msgs: seq<Message>, i: nat)
    requires Distinct(objs) && i <= |objs|
    ensures var r := EgressUpTo(c, env, portion, balances, objs, msgs, i);
            r.Some? ==> Accounted(balances, portion, msgs, r.value)
    decreases i
  {
    if i == 0 {
      NothingMarked(msgs, |msgs|);
    } else {
      EgressUpToAccounted(c, env, portion, balances, objs, msgs, i - 1);
      var r := EgressUpTo(c, env, portion, balances, objs, msgs, i - 1);
      if r.Some? {
        EgressUpToMeaning(c, env, portion, balances, objs, msgs, i - 1);
        LeavingNone(objs[..i - 1], objs[i - 1].account);
        assert forall k :: 0 <= k < |msgs| && r.value.need[k] ==> SentOn(balances, objs[..i - 1], msgs[k]);
        EgressOneAccounted(c, env, portion, balances, msgs, r.value, objs[i - 1]);
      }
    }
  }

  // ---- the transfers ----

  /** The transfers that should go out: marked messages in message order, whole units. */
  function Outgoing(c: Chain, msgs: seq<Message>, need: seq<bool>, n: nat): seq<Transfer>
    requires n <= |msgs| == |need|
  {
    if n == 0 then []
    else Outgoing(c, msgs, need, n - 1)
         + (if need[n - 1] then [Transfer(msgs[n - 1].receiver, msgs[n - 1].value / c.unit)] else [])
  }

  /** Marked values are whole and small enough to survive the cast to 64 bits. */
  ghost predicate Sendable(c: Chain, msgs: seq<Message>, need: seq<bool>)
    requires |msgs| == |need|
  {
    forall k :: 0 <= k < |msgs| && need[k] ==> msgs[k].value % c.unit == 0 && msgs[k].value < Cap(c.unit)
  }

  lemma NativeExact(c: Chain, value: nat)
    requires value % c.unit == 0 && value < Cap(c.unit)
    ensures NativeAmount(c, value) == value / c.unit <= MAX_AMOUNT
    ensures Times(value / c.unit, c.unit) == value
  {
    TimesIsProduct(value / c.unit, c.unit);
    var q := value / c.unit;
    assert value == q * c.unit + value % c.unit;
    SplitBelowCap(c.unit, q, 0);
  }

  /** Only `held` and the log change, by exactly the marked messages. */
  lemma {:induction false} SendUpToMeaning(c: Chain, l: Ledger, msgs: seq<Message>, need: seq<bool>, n: nat)
    requires n <= |msgs| == |need| && Sendable(c, msgs, need)
    ensures var r := SendUpTo(c, l, msgs, need, n);
            r.Some? ==>
              && r.value == l.(held := r.value.held, sent := l.sent + Outgoing(c, msgs, need, n))
              && r.value.held == l.held - MarkedValue(msgs, need, n)
    decreases n
  {
    if n == 0 {
      assert l.sent + [] == l.sent;
    } else {
      SendUpToMeaning(c, l, msgs, need, n - 1);
      var r := SendUpTo(c, l, msgs, need, n - 1);
      if r.Some? && need[n - 1] {
        var value := msgs[n - 1].value;
        NativeExact(c, value);
        assert l.sent + Outgoing(c, msgs, need, n) ==
               l.sent + Outgoing(c, msgs, need, n - 1) + [Transfer(msgs[n - 1].receiver, value / c.unit)];
      } else if r.Some? {
        assert Outgoing(c, msgs, need, n) == Outgoing(c, msgs, need, n - 1);
      }
    }
  }

  // ---- the phase ----

  lemma {:induction false} LeavingFrom(objs: seq<Reserved>, account: Name) returns (i: nat)
    requires Distinct(objs) && Leaving(objs, Some(account)) > 0
    ensures i < |objs| && objs[i].account == account && objs[i].balance == Leaving(objs, Some(account))
  {
    if j :| 0 <= j < |objs| && objs[j].account == account {
      i := j;
      LeavingOne(objs, i);
    } else {
      LeavingNone(objs, account);
    }
  }

  /** Every account whose messages are sent on received exactly their sum, in at most five
      dust-free messages. */
  lemma SentAccountOk(c: Chain, env: Env, portion: Option<nat>, balances: map<Name, nat>,
                      objs: seq<Reserved>, msgs: seq<Message>, account: Name)
    requires Distinct(objs) && EgressUpTo(c, env, portion, balances, objs, msgs, |objs|).Some?
    requires account !in balances && Leaving(objs, Some(account)) > 0
    ensures CountTo(msgs, account, |msgs|) <= 5
    ensures DustFree(c, msgs, account, |msgs|)
    ensures ValueTo(msgs, account, |msgs|) == Leaving(objs, Some(account))
    ensures account in env.accounts && account != c.self
  {
    EgressUpToMeaning(c, env, portion, balances, objs, msgs, |objs|);
    var i := LeavingFrom(objs, account);
    assert ObjectOk(c, env, portion, balances, msgs, objs[i]);
  }

  lemma MarkedIsSendable(c: Chain, env: Env, portion: Option<nat>, balances: map<Name, nat>,
                         objs: seq<Reserved>, msgs: seq<Message>)
    requires Distinct(objs)
    ensures var r := EgressUpTo(c, env, portion, balances, objs, msgs, |objs|);
            r.Some? && r.value.total < Cap(c.unit) ==> Sendable(c, msgs, r.value.need)
  {
    var r := EgressUpTo(c, env, portion, balances, objs, msgs, |objs|);
    if r.Some? && r.value.total < Cap(c.unit) {
      EgressUpToMeaning(c, env, portion, balances, objs, msgs, |objs|);
      EgressUpToAccounted(c, env, portion, balances, objs, msgs, |objs|);
      assert objs[..|objs|] == objs;
      forall k | 0 <= k < |msgs| && r.value.need[k]
        ensures msgs[k].value % c.unit == 0 && msgs[k].value < Cap(c.unit)
      {
        assert SentOn(balances, objs, msgs[k]);
        SentAccountOk(c, env, portion, balances, objs, msgs, msgs[k].receiver);
        MarkedValueBound(msgs, r.value.need, k, |msgs|);
      }
    }
  }

  /** Which rows, how much, and which transfers: everything the phase does, in terms of
      what left the EVM. */
  ghost predicate PhaseResult(c: Chain, l: Ledger, portion: Option<nat>, objs: seq<Reserved>, msgs: seq<Message>,
                              l': Ledger, taken: bool, need: seq<bool>) {
    && l' == l.(balances := l'.balances, inevm := l'.inevm, held := l'.held, sent := l'.sent)
    && l'.balances.Keys == l.balances.Keys
    && (forall n :: n in l.balances ==> l'.balances[n] == RowAfter(c, portion, l.balances, objs, n))
    && l'.inevm == l.inevm - Leaving(objs, None)
    && taken == MinerTakes(c, portion, l.balances, objs)
    && |need| == |msgs| && (forall k :: 0 <= k < |msgs| ==> need[k] == SentOn(l.balances, objs, msgs[k]))
    && l'.sent == l.sent + Outgoing(c, msgs, need, |msgs|)
    && l'.held == l.held - MarkedValue(msgs, need, |msgs|)
    && Sum(l'.balances) + MarkedValue(msgs, need, |msgs|)
       == Sum(l.balances) + Leaving(objs, None) - (if taken then portion.value else 0)
  }

  /** The loop, the transfers and the final debit of a successful phase. */
  lemma EgressPhaseParts(c: Chain, env: Env, l: Ledger, portion: Option<nat>, objs: seq<Reserved>, msgs: seq<Message>)
    returns (e: Egressed, l': Ledger)
    requires objs != [] && EgressPhase(c, env, l, portion, objs, msgs).Some?
    ensures EgressUpTo(c, env, portion, l.balances, objs, msgs, |objs|) == Some(e)
    ensures SendUpTo(c, l.(balances := e.balances), msgs, e.need, |msgs|) == Some(l')
    ensures e.total <= l'.inevm == l.inevm
    ensures EgressPhase(c, env, l, portion, objs, msgs) == Some((l'.(inevm := l'.inevm - e.total), e.deducted))
  {
    e := EgressUpTo(c, env, portion, l.balances, objs, msgs, |objs|).value;
    l' := SendUpTo(c, l.(balances := e.balances), msgs, e.need, |msgs|).value;
    SendUpToFrame(c, l.(balances := e.balances), msgs, e.need, |msgs|);
  }

  lemma PhaseFromParts(c: Chain, l: Ledger, portion: Option<nat>, objs: seq<Reserved>, msgs: seq<Message>, e: Egressed, l': Ledger)
    requires EgressResult(c, portion, l.balances, objs, msgs, e) && Accounted(l.balances, portion, msgs, e)
    requires e.total <= l.inevm && l' == l.(balances := e.balances, held := l'.held, sent := l.sent + Outgoing(c, msgs, e.need, |msgs|))
    requires l'.held == l.held - MarkedValue(msgs, e.need, |msgs|)
    ensures PhaseResult(c, l, portion, objs, msgs, l'.(inevm := l.inevm - e.total), e.deducted, e.need)
  {
  }

  lemma NothingLeaves(c: Chain, l: Ledger, portion: Option<nat>, msgs: seq<Message>, need: seq<bool>)
    requires need == seq(|msgs|, _ => false)
    ensures PhaseResult(c, l, portion, [], msgs, l, false, need)
  {
    NothingMarked(msgs, |msgs|);
    NothingOutgoing(c, msgs, |msgs|);
  }

  lemma EgressPhaseMeaning(c: Chain, env: Env, l: Ledger, portion: Option<nat>,
                           objs: seq<Reserved>, msgs: seq<Message>) returns (need: seq<bool>)
    requires Distinct(objs) && l.inevm < Cap(c.unit)
    ensures var r := EgressPhase(c, env, l, portion, objs, msgs);
            r.Some? ==> PhaseResult(c, l, portion, objs, msgs, r.value.0, r.value.1, need)
  {
    need := seq(|msgs|, _ => false);
    if objs == [] {
      NothingLeaves(c, l, portion, msgs, need);
    } else if EgressPhase(c, env, l, portion, objs, msgs).Some? {
      var e, l' := EgressPhaseParts(c, env, l, portion, objs, msgs);
      need := e.need;
      MarkedIsSendable(c, env, portion, l.balances, objs, msgs);
      SendUpToMeaning(c, l.(balances := e.balances), msgs, e.need, |msgs|);
      EgressUpToAccounted(c, env, portion, l.balances, objs, msgs, |objs|);
      EgressUpToMeaning(c, env, portion, l.balances, objs, msgs, |objs|);
      assert objs[..|objs|] == objs;
      PhaseFromParts(c, l, portion, objs, msgs, e, l');
    }
  }

  // ---- when the phase succeeds ----

  lemma {:induction false} MarkedValueMonotone(msgs: seq<Message>, need: seq<bool>, m: nat, n: nat)
    requires m <= n <= |msgs| == |need|
    ensures MarkedValue(msgs, need, m) <= MarkedValue(msgs, need, n)
    decreases n
  {
    if m < n {
      MarkedValueMonotone(msgs, need, m, n - 1);
    }
  }

  /** With enough tokens and whole values, a transfer fails only for a value of 0. */
  lemma OneTransfer(c: Chain, l: Ledger, msg: Message)
    requires msg.value % c.unit == 0 && msg.value < Cap(c.unit) && msg.value <= l.held && msg.receiver != c.self
    ensures SendTokens(c, l, msg.receiver, NativeAmount(c, msg.value)).Some? <==> msg.value > 0
  {
    NativeExact(c, msg.value);
  }

  lemma {:induction false} SendUpToSucceeds(c: Chain, l: Ledger, msgs: seq<Message>, need: seq<bool>, n: nat)
    requires n <= |msgs| == |need| && Sendable(c, msgs, need) && MarkedValue(msgs, need, |msgs|) <= l.held
    requires forall k :: 0 <= k < |msgs| && need[k] ==> msgs[k].receiver != c.self
    ensures SendUpTo(c, l, msgs, need, n).Some? <==> forall k :: 0 <= k < n && need[k] ==> msgs[k].value > 0
    decreases n
  {
    if n > 0 {
      SendUpToSucceeds(c, l, msgs, need, n - 1);
      var r := SendUpTo(c, l, msgs, need, n - 1);
      if r.Some? && need[n - 1] {
        SendUpToMeaning(c, l, msgs, need, n - 1);
        MarkedValueMonotone(msgs, need, n, |msgs|);
        OneTransfer(c, r.value, msgs[n - 1]);
      }
    }
  }

  /** The transfers of a phase that takes no more than the EVM holds out of it. */
  lemma TransfersSucceed(c: Chain, env: Env, l: Ledger, portion: Option<nat>, objs: seq<Reserved>, msgs: seq<Message>, e: Egressed)
    requires Distinct(objs) && l.inevm <= l.held && l.inevm < Cap(c.unit)
    requires EgressUpTo(c, env, portion, l.balances, objs, msgs, |objs|) == Some(e) && e.total <= l.inevm
    ensures SendUpTo(c, l.(balances := e.balances), msgs, e.need, |msgs|).Some? <==>
            forall k :: 0 <= k < |msgs| && SentOn(l.balances, objs, msgs[k]) ==> msgs[k].value > 0
  {
    MarkedIsSendable(c, env, portion, l.balances, objs, msgs);
    EgressUpToAccounted(c, env, portion, l.balances, objs, msgs, |objs|);
    EgressUpToMeaning(c, env, portion, l.balances, objs, msgs, |objs|);
    assert objs[..|objs|] == objs;
    forall k | 0 <= k < |msgs| && e.need[k] ensures msgs[k].receiver != c.self {
      SentAccountOk(c, env, portion, l.balances, objs, msgs, msgs[k].receiver);
    }
    SendUpToSucceeds(c, l.(balances := e.balances), msgs, e.need, |msgs|);
  }

  /** The phase succeeds if and only if every reserved account passes its checks, no more leaves than
      the EVM holds, and no message that has to be sent on is worth nothing. */
  lemma EgressPhaseSucceeds(c: Chain, env: Env, l: Ledger, portion: Option<nat>, objs: seq<Reserved>, msgs: seq<Message>)
    requires Distinct(objs) && l.inevm <= l.held && l.inevm < Cap(c.unit)
    ensures EgressPhase(c, env, l, portion, objs, msgs).Some? <==>
            && (forall j :: 0 <= j < |objs| ==> ObjectOk(c, env, portion, l.balances, msgs, objs[j]))
            && Leaving(objs, None) <= l.inevm
            && (forall k :: 0 <= k < |msgs| && SentOn(l.balances, objs, msgs[k]) ==> msgs[k].value > 0)
  {
    if objs != [] {
      EgressUpToMeaning(c, env, portion, l.balances, objs, msgs, |objs|);
      assert objs[..|objs|] == objs;
      var r := EgressUpTo(c, env, portion, l.balances, objs, msgs, |objs|);
      if r.Some? {
        SendUpToFrame(c, l.(balances := r.value.balances), msgs, r.value.need, |msgs|);
        if r.value.total <= l.inevm {
          TransfersSucceed(c, env, l, portion, objs, msgs, r.value);
        }
      }
    }
  }

  lemma {:induction false} NothingOutgoing(c: Chain, msgs: seq<Message>, n: nat)
    requires n <= |msgs|
    ensures Outgoing(c, msgs, seq(|msgs|, _ => false), n) == []
    decreases n
  {
    if n > 0 {
      NothingOutgoing(c, msgs, n - 1);
    }
  }

  lemma {:induction false} SendUpToFrame(c: Chain, l: Ledger, msgs: seq<Message>, need: seq<bool>, n: nat)
    requires n <= |msgs| == |need|
    ensures var r := SendUpTo(c, l, msgs, need, n);
            r.Some? ==> r.value == l.(held := r.value.held, sent := r.value.sent)
    decreases n
  {
    if n > 0 {
      SendUpToFrame(c, l, msgs, need, n - 1);
    }
  }

  // ---- the transfers, account by account ----

  /** Wei worth of the transfers to one account. */
  function PaidTo(c: Chain, transfers: seq<Transfer>, account: Name): nat {
    if transfers == [] then 0
    else
      var t := transfers[|transfers| - 1];
      PaidTo(c, transfers[..|transfers| - 1], account) + (if t.to == account then Times(t.amount, c.unit) else 0)
  }

  lemma PaidToAppend(c: Chain, transfers: seq<Transfer>, t: Transfer, account: Name)
    ensures PaidTo(c, transfers + [t], account)
            == PaidTo(c, transfers, account) + (if t.to == account then Times(t.amount, c.unit) else 0)
  {
    assert (transfers + [t])[..|transfers|] == transfers;
  }

  lemma {:induction false} OutgoingPays(c: Chain, msgs: seq<Message>, need: seq<bool>, account: Name, n: nat)
    requires n <= |msgs| == |need| && Sendable(c, msgs, need)
    requires forall k :: 0 <= k < |msgs| && msgs[k].receiver == account ==> need[k]
    ensures PaidTo(c, Outgoing(c, msgs, need, n), account) == ValueTo(msgs, account, n)
    decreases n
  {
    if n > 0 {
      OutgoingPays(c, msgs, need, account, n - 1);
      var msg := msgs[n - 1];
      if need[n - 1] {
        NativeExact(c, msg.value);
        PaidToAppend(c, Outgoing(c, msgs, need, n - 1), Transfer(msg.receiver, msg.value / c.unit), account);
      } else {
        assert Outgoing(c, msgs, need, n) == Outgoing(c, msgs, need, n - 1);
      }
    }
  }

  /** A non-open account that received value in the EVM is sent exactly that value, in at most
      five transfers without dust; nobody else is sent anything by the phase. */
  lemma EgressPaysExactly(c: Chain, env: Env, l: Ledger, portion: Option<nat>, objs: seq<Reserved>, msgs: seq<Message>,
                          account: Name) returns (need: seq<bool>)
    requires Distinct(objs) && l.inevm < Cap(c.unit)
    requires account !in l.balances && Leaving(objs, Some(account)) > 0
    ensures var r := EgressPhase(c, env, l, portion, objs, msgs);
            r.Some? ==>
              && PhaseResult(c, l, portion, objs, msgs, r.value.0, r.value.1, need)
              && PaidTo(c, Outgoing(c, msgs, need, |msgs|), account) == Leaving(objs, Some(account))
              && CountTo(msgs, account, |msgs|) <= 5
              && DustFree(c, msgs, account, |msgs|)
  {
    need := EgressPhaseMeaning(c, env, l, portion, objs, msgs);
    var r := EgressPhase(c, env, l, portion, objs, msgs);
    if r.Some? && objs != [] {
      SentAccountOk(c, env, portion, l.balances, objs, msgs, account);
      PhaseSendable(c, env, l, portion, objs, msgs, need);
      forall k | 0 <= k < |msgs| && msgs[k].receiver == account ensures need[k] {
        assert SentOn(l.balances, objs, msgs[k]);
      }
      OutgoingPays(c, msgs, need, account, |msgs|);
    }
  }

  lemma PhaseSendable(c: Chain, env: Env, l: Ledger, portion: Option<nat>, objs: seq<Reserved>, msgs: seq<Message>, need: seq<bool>)
    requires Distinct(objs) && objs != [] && l.inevm < Cap(c.unit)
    requires EgressPhase(c, env, l, portion, objs, msgs).Some?
    requires |need| == |msgs| && forall k :: 0 <= k < |msgs| ==> need[k] == SentOn(l.balances, objs, msgs[k])
    ensures Sendable(c, msgs, need)
  {
    var e := EgressUpTo(c, env, portion, l.balances, objs, msgs, |objs|).value;
    EgressUpToMeaning(c, env, portion, l.balances, objs, msgs, |objs|);
    assert objs[..|objs|] == objs;
    assert e.need == need;
    SendUpToFrame(c, l.(balances := e.balances), msgs, e.need, |msgs|);
    MarkedIsSendable(c, env, portion, l.balances, objs, msgs);
  }
}
