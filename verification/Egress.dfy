/** The egress phase of `execute_tx` (src/actions.cpp:315-390). */
module Egress {
  import opened Options
  import opened DustBalance
  import opened LedgerTypes

  /** A message to a reserved address that survived the EVM run. */
  datatype Message = Message(receiver: Name, value: nat, data: Bytes)

  /** A reserved account after the run: its final balance, and whether it got code. */
  datatype Reserved = Reserved(account: Name, balance: nat, hasCode: bool)

  datatype Egressed = Egressed(balances: map<Name, nat>, total: nat, need: seq<bool>, deducted: bool)

  // ---- the inner loop: match the messages to one non-open account ----

  datatype Marking = Marking(left: nat, pending: nat, need: seq<bool>)

  function MarkOne(c: Chain, account: Name, msg: Message, i: nat, m: Marking): Option<Marking>
    requires i < |m.need|
  {
    if msg.receiver != account then Some(m)
    else
      :- Need(m.pending + 1 <= 5);
      :- Need(msg.value % c.unit == 0);
      :- Need(m.left >= msg.value);
      Some(Marking(m.left - msg.value, m.pending + 1, m.need[i := true]))
  }

  /** The loop over the first `i` messages. */
  function MarkUpTo(c: Chain, account: Name, balance: nat, msgs: seq<Message>, need: seq<bool>, i: nat): (r: Option<Marking>)
    requires i <= |msgs| == |need|
    ensures r.Some? ==> |r.value.need| == |need|
  {
    if i == 0 then Some(Marking(balance, 0, need))
    else
      var m :- MarkUpTo(c, account, balance, msgs, need, i - 1);
      MarkOne(c, account, msgs[i - 1], i - 1, m)
  }

  // ---- the outer loop: one reserved object ----

  function EgressOne(c: Chain, env: Env, portion: Option<nat>, msgs: seq<Message>, e: Egressed, o: Reserved): (r: Option<Egressed>)
    requires |e.need| == |msgs|
    ensures r.Some? ==> |r.value.need| == |msgs|
  {
    if o.hasCode || o.account == 0 then None
    else if o.balance == 0 then Some(e)
    else if o.account in e.balances then
      var b :- CreditRow(c, e.balances, o.account, o.balance);
      if portion.Some? && o.account == c.self then
        :- Need(!e.deducted);
        var b' :- DebitRow(b, o.account, portion.value);
        Some(Egressed(b', e.total + o.balance, e.need, true))
      else
        Some(Egressed(b, e.total + o.balance, e.need, e.deducted))
    else
      :- Need(o.account != c.self && o.account in env.accounts);
      :- Need(o.account in env.coded ==> o.account in env.egressList);
      var m :- MarkUpTo(c, o.account, o.balance, msgs, e.need, |msgs|);
      :- Need(m.left == 0);
      Some(Egressed(e.balances, e.total + o.balance, m.need, e.deducted))
  }

  function EgressUpTo(c: Chain, env: Env, portion: Option<nat>, balances: map<Name, nat>,
                      objs: seq<Reserved>, msgs: seq<Message>, i: nat): (r: Option<Egressed>)
    requires i <= |objs|
    ensures r.Some? ==> |r.value.need| == |msgs|
  {
    if i == 0 then Some(Egressed(balances, 0, seq(|msgs|, _ => false), false))
    else
      var e :- EgressUpTo(c, env, portion, balances, objs, msgs, i - 1);
      EgressOne(c, env, portion, msgs, e, objs[i - 1])
  }

  // ---- the transfers, in message order ----

  /** `(uint64_t)(value / minimum_natively_representable)`. */
  function NativeAmount(c: Chain, value: nat): nat
  {
    value / c.unit % TWO_64
  }

  function SendUpTo(c: Chain, l: Ledger, msgs: seq<Message>, need: seq<bool>, i: nat): Option<Ledger>
    requires i <= |msgs| == |need|
  {
    if i == 0 then Some(l)
    else
      var l' :- SendUpTo(c, l, msgs, need, i - 1);
      if need[i - 1] then SendTokens(c, l', msgs[i - 1].receiver, NativeAmount(c, msgs[i - 1].value))
      else Some(l')
  }

  /** The whole phase; also whether the miner's portion was taken off the contract. */
  function EgressPhase(c: Chain, env: Env, l: Ledger, portion: Option<nat>,
                       objs: seq<Reserved>, msgs: seq<Message>): Option<(Ledger, bool)>
  {
    if objs == [] then Some((l, false))
    else
      var e :- EgressUpTo(c, env, portion, l.balances, objs, msgs, |objs|);
      var l' :- SendUpTo(c, l.(balances := e.balances), msgs, e.need, |msgs|);
      var inevm :- Debit(l'.inevm, e.total);
      Some((l'.(inevm := inevm), e.deducted))
  }

  // ================ what the loops compute ================

  /** Among the first `n` messages, those to one account: how many, and their value. */
  function CountTo(msgs: seq<Message>, account: Name, n: nat): nat
    requires n <= |msgs|
  {
    if n == 0 then 0 else CountTo(msgs, account, n - 1) + (if msgs[n - 1].receiver == account then 1 else 0)
  }

  function ValueTo(msgs: seq<Message>, account: Name, n: nat): nat
    requires n <= |msgs|
  {
    if n == 0 then 0
    else ValueTo(msgs, account, n - 1) + (if msgs[n - 1].receiver == account then msgs[n - 1].value else 0)
  }

  predicate DustFree(c: Chain, msgs: seq<Message>, account: Name, n: nat)
    requires n <= |msgs|
  {
    forall i :: 0 <= i < n && msgs[i].receiver == account ==> msgs[i].value % c.unit == 0
  }

  /** `need` after marking the messages to `account` among the first `n`. */
  predicate Marked(msgs: seq<Message>, need: seq<bool>, need': seq<bool>, account: Name, n: nat)
    requires n <= |msgs| == |need|
  {
    |need'| == |need| &&
    forall k :: 0 <= k < |need| ==> need'[k] == (need[k] || (k < n && msgs[k].receiver == account))
  }

  lemma {:induction false} MarkUpToMeaning(c: Chain, account: Name, balance: nat, msgs: seq<Message>, need: seq<bool>, i: nat)
    requires i <= |msgs| == |need|
    ensures var r := MarkUpTo(c, account, balance, msgs, need, i);
            && (r.Some? <==> CountTo(msgs, account, i) <= 5 && DustFree(c, msgs, account, i)
                             && ValueTo(msgs, account, i) <= balance)
            && (r.Some? ==> r.value.left == balance - ValueTo(msgs, account, i)
                            && r.value.pending == CountTo(msgs, account, i)
                            && Marked(msgs, need, r.value.need, account, i))
    decreases i
  {
    if i > 0 {
      MarkUpToMeaning(c, account, balance, msgs, need, i - 1);
    }
  }

  // ---- what left the EVM, in total or to one account ----

  function Weight(o: Reserved, who: Option<Name>): nat {
    if who.None? || o.account == who.value then o.balance else 0
  }

  function Leaving(objs: seq<Reserved>, who: Option<Name>): nat {
    if objs == [] then 0 else Leaving(objs[..|objs| - 1], who) + Weight(objs[|objs| - 1], who)
  }

  predicate Distinct(objs: seq<Reserved>) {
    forall i, j :: 0 <= i < j < |objs| ==> objs[i].account != objs[j].account
  }

  lemma {:induction false} LeavingOne(objs: seq<Reserved>, i: nat)
    requires Distinct(objs) && i < |objs|
    ensures Leaving(objs, Some(objs[i].account)) == objs[i].balance
    decreases |objs|
  {
    var rest := objs[..|objs| - 1];
    if i == |objs| - 1 {
      LeavingNone(rest, objs[i].account);
    } else {
      LeavingOne(rest, i);
    }
  }

  lemma {:induction false} LeavingNone(objs: seq<Reserved>, account: Name)
    requires forall i :: 0 <= i < |objs| ==> objs[i].account != account
    ensures Leaving(objs, Some(account)) == 0
    decreases |objs|
  {
    if objs != [] {
      LeavingNone(objs[..|objs| - 1], account);
    }
  }

  // ---- the outer loop ----

  /** One object passes every check of the loop body; this only looks at the balances the
      phase started from. */
  predicate ObjectOk(c: Chain, env: Env, portion: Option<nat>, balances: map<Name, nat>, msgs: seq<Message>, o: Reserved) {
    && !o.hasCode && o.account != 0
    && (o.balance != 0 ==>
          if o.account in balances then
            && balances[o.account] + o.balance < Cap(c.unit)
            && (portion.Some? && o.account == c.self ==> portion.value <= balances[o.account] + o.balance)
          else
            && o.account != c.self && o.account in env.accounts
            && (o.account in env.coded ==> o.account in env.egressList)
            && CountTo(msgs, o.account, |msgs|) <= 5
            && DustFree(c, msgs, o.account, |msgs|)
            && ValueTo(msgs, o.account, |msgs|) == o.balance)
  }

  /** The miner's portion comes off the contract's row once that row receives anything. */
  function MinerTakes(c: Chain, portion: Option<nat>, balances: map<Name, nat>, objs: seq<Reserved>): bool {
    portion.Some? && c.self in balances && Leaving(objs, Some(c.self)) > 0
  }

  function RowAfter(c: Chain, portion: Option<nat>, balances: map<Name, nat>, objs: seq<Reserved>, n: Name): int
    requires n in balances
  {
    balances[n] + Leaving(objs, Some(n))
    - (if n == c.self && MinerTakes(c, portion, balances, objs) then portion.value else 0)
  }

  /** A message is sent on exactly if it goes to a non-open account that received value. */
  predicate SentOn(balances: map<Name, nat>, objs: seq<Reserved>, msg: Message) {
    msg.receiver !in balances && Leaving(objs, Some(msg.receiver)) > 0
  }

  predicate EgressResult(c: Chain, portion: Option<nat>, balances: map<Name, nat>, objs: seq<Reserved>,
                         msgs: seq<Message>, e: Egressed) {
    && e.balances.Keys == balances.Keys
    && (forall n :: n in balances ==> e.balances[n] == RowAfter(c, portion, balances, objs, n))
    && e.total == Leaving(objs, None)
    && |e.need| == |msgs|
    && (forall k :: 0 <= k < |msgs| ==> e.need[k] == SentOn(balances, objs, msgs[k]))
    && e.deducted == MinerTakes(c, portion, balances, objs)
  }

  lemma LeavingAppend(objs: seq<Reserved>, o: Reserved, who: Option<Name>)
    ensures Leaving(objs + [o], who) == Leaving(objs, who) + Weight(o, who)
  {
    assert (objs + [o])[..|objs|] == objs;
  }

  lemma LeavingAppendAll(objs: seq<Reserved>, o: Reserved)
    ensures Leaving(objs + [o], None) == Leaving(objs, None) + o.balance
    ensures forall n :: Leaving(objs + [o], Some(n)) == Leaving(objs, Some(n)) + (if n == o.account then o.balance else 0)
  {
    LeavingAppend(objs, o, None);
    forall n ensures Leaving(objs + [o], Some(n)) == Leaving(objs, Some(n)) + (if n == o.account then o.balance else 0) {
      LeavingAppend(objs, o, Some(n));
    }
  }

  /** Crediting an open account: when it succeeds. */
  lemma EgressOpenOk(c: Chain, env: Env, portion: Option<nat>, balances: map<Name, nat>,
                     objs: seq<Reserved>, msgs: seq<Message>, e: Egressed, o: Reserved)
    requires EgressResult(c, portion, balances, objs, msgs, e)
    requires Leaving(objs, Some(o.account)) == 0 && o.balance != 0 && o.account in balances
    ensures EgressOne(c, env, portion, msgs, e, o).Some? <==> ObjectOk(c, env, portion, balances, msgs, o)
  {
    assert e.balances[o.account] == RowAfter(c, portion, balances, objs, o.account) == balances[o.account];
  }

  /** ... what it does to every row but the visited one ... */
  lemma EgressOpenOthers(c: Chain, env: Env, portion: Option<nat>, balances: map<Name, nat>,
                         objs: seq<Reserved>, msgs: seq<Message>, e: Egressed, o: Reserved, n: Name)
    requires EgressResult(c, portion, balances, objs, msgs, e)
    requires o.balance != 0 && o.account in balances && n in balances && n != o.account
    requires EgressOne(c, env, portion, msgs, e, o).Some?
    ensures EgressOne(c, env, portion, msgs, e, o).value.balances[n] == RowAfter(c, portion, balances, objs + [o], n)
  {
    LeavingAppend(objs, o, Some(n));
    LeavingAppend(objs, o, Some(c.self));
    assert e.balances[n] == RowAfter(c, portion, balances, objs, n);
  }

  /** ... to the visited one ... */
  lemma EgressOpenRow(c: Chain, env: Env, portion: Option<nat>, balances: map<Name, nat>,
                      objs: seq<Reserved>, msgs: seq<Message>, e: Egressed, o: Reserved)
    requires EgressResult(c, portion, balances, objs, msgs, e)
    requires Leaving(objs, Some(o.account)) == 0 && o.balance != 0 && o.account in balances
    requires EgressOne(c, env, portion, msgs, e, o).Some?
    ensures var n := o.account;
            EgressOne(c, env, portion, msgs, e, o).value.balances[n] == RowAfter(c, portion, balances, objs + [o], n)
  {
    LeavingAppend(objs, o, Some(o.account));
    assert e.balances[o.account] == RowAfter(c, portion, balances, objs, o.account) == balances[o.account];
  }

  /** ... and altogether. */
  lemma EgressOpen(c: Chain, env: Env, portion: Option<nat>, balances: map<Name, nat>,
                   objs: seq<Reserved>, msgs: seq<Message>, e: Egressed, o: Reserved)
    requires EgressResult(c, portion, balances, objs, msgs, e)
    requires Leaving(objs, Some(o.account)) == 0 && o.balance != 0 && o.account in balances
    requires EgressOne(c, env, portion, msgs, e, o).Some?
    ensures EgressResult(c, portion, balances, objs + [o], msgs, EgressOne(c, env, portion, msgs, e, o).value)
  {
    var e' := EgressOne(c, env, portion, msgs, e, o).value;
    forall n | n in balances ensures e'.balances[n] == RowAfter(c, portion, balances, objs + [o], n) {
      if n == o.account {
        EgressOpenRow(c, env, portion, balances, objs, msgs, e, o);
      } else {
        EgressOpenOthers(c, env, portion, balances, objs, msgs, e, o, n);
      }
    }
    LeavingAppendAll(objs, o);
  }

  /** Matching the messages to a non-open account: when it succeeds. */
  lemma EgressNonOpenOk(c: Chain, env: Env, portion: Option<nat>, balances: map<Name, nat>,
                        msgs: seq<Message>, e: Egressed, o: Reserved)
    requires e.balances.Keys == balances.Keys && |e.need| == |msgs| && o.balance != 0 && o.account !in balances
    ensures var r := EgressOne(c, env, portion, msgs, e, o);
            && (r.Some? <==> ObjectOk(c, env, portion, balances, msgs, o))
            && (r.Some? ==> r.value == e.(total := e.total + o.balance, need := r.value.need)
                            && Marked(msgs, e.need, r.value.need, o.account, |msgs|))
  {
    MarkUpToMeaning(c, o.account, o.balance, msgs, e.need, |msgs|);
  }

  /** ... and what it does. */
  lemma EgressNonOpen(c: Chain, env: Env, portion: Option<nat>, balances: map<Name, nat>,
                      objs: seq<Reserved>, msgs: seq<Message>, e: Egressed, o: Reserved)
    requires EgressResult(c, portion, balances, objs, msgs, e) && o.balance != 0 && o.account !in balances
    requires EgressOne(c, env, portion, msgs, e, o).Some?
    ensures EgressResult(c, portion, balances, objs + [o], msgs, EgressOne(c, env, portion, msgs, e, o).value)
  {
    LeavingAppendAll(objs, o);
    EgressNonOpenOk(c, env, portion, balances, msgs, e, o);
  }

  /** One more object on top of a prefix it is not part of. */
  lemma EgressOneMeaning(c: Chain, env: Env, portion: Option<nat>, balances: map<Name, nat>,
                         objs: seq<Reserved>, msgs: seq<Message>, e: Egressed, o: Reserved)
    requires EgressResult(c, portion, balances, objs, msgs, e)
    requires Leaving(objs, Some(o.account)) == 0
    ensures var r := EgressOne(c, env, portion, msgs, e, o);
            && (r.Some? <==> ObjectOk(c, env, portion, balances, msgs, o))
            && (r.Some? ==> EgressResult(c, portion, balances, objs + [o], msgs, r.value))
  {
    if o.balance == 0 {
      LeavingAppendAll(objs, o);
    } else if o.account in balances {
      EgressOpenOk(c, env, portion, balances, objs, msgs, e, o);
      if EgressOne(c, env, portion, msgs, e, o).Some? {
        EgressOpen(c, env, portion, balances, objs, msgs, e, o);
      }
    } else {
      EgressNonOpenOk(c, env, portion, balances, msgs, e, o);
      if EgressOne(c, env, portion, msgs, e, o).Some? {
        EgressNonOpen(c, env, portion, balances, objs, msgs, e, o);
      }
    }
  }

  /** The first `i` objects all pass. */
  predicate AllOk(c: Chain, env: Env, portion: Option<nat>, balances: map<Name, nat>, objs: seq<Reserved>,
                  msgs: seq<Message>, i: nat)
    requires i <= |objs|
  {
    i > 0 ==> AllOk(c, env, portion, balances, objs, msgs, i - 1) && ObjectOk(c, env, portion, balances, msgs, objs[i - 1])
  }

  lemma {:induction false} AllOkMeaning(c: Chain, env: Env, portion: Option<nat>, balances: map<Name, nat>,
                                        objs: seq<Reserved>, msgs: seq<Message>, i: nat)
    requires i <= |objs|
    ensures AllOk(c, env, portion, balances, objs, msgs, i) <==>
            forall j :: 0 <= j < i ==> ObjectOk(c, env, portion, balances, msgs, objs[j])
    decreases i
  {
    if i > 0 {
      AllOkMeaning(c, env, portion, balances, objs, msgs, i - 1);
    }
  }

  lemma {:induction false} EgressLoop(c: Chain, env: Env, portion: Option<nat>, balances: map<Name, nat>,
                                      objs: seq<Reserved>, msgs: seq<Message>, i: nat)
    requires Distinct(objs) && i <= |objs|
    ensures var r := EgressUpTo(c, env, portion, balances, objs, msgs, i);
            && (r.Some? <==> AllOk(c, env, portion, balances, objs, msgs, i))
            && (r.Some? ==> EgressResult(c, portion, balances, objs[..i], msgs, r.value))
    decreases i
  {
    if i > 0 {
      EgressLoop(c, env, portion, balances, objs, msgs, i - 1);
      var r := EgressUpTo(c, env, portion, balances, objs, msgs, i - 1);
      if r.Some? {
        LeavingNone(objs[..i - 1], objs[i - 1].account);
        EgressOneMeaning(c, env, portion, balances, objs[..i - 1], msgs, r.value, objs[i - 1]);
        assert objs[..i - 1] + [objs[i - 1]] == objs[..i];
      }
    }
  }

  /** The loop succeeds exactly if every object passes, and then computes `EgressResult`. */
  lemma EgressUpToMeaning(c: Chain, env: Env, portion: Option<nat>, balances: map<Name, nat>,
                          objs: seq<Reserved>, msgs: seq<Message>, i: nat)
    requires Distinct(objs) && i <= |objs|
    ensures var r := EgressUpTo(c, env, portion, balances, objs, msgs, i);
            && (r.Some? <==> forall j :: 0 <= j < i ==> ObjectOk(c, env, portion, balances, msgs, objs[j]))
            && (r.Some? ==> EgressResult(c, portion, balances, objs[..i], msgs, r.value))
  {
    EgressLoop(c, env, portion, balances, objs, msgs, i);
    AllOkMeaning(c, env, portion, balances, objs, msgs, i);
  }
}
