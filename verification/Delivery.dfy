/** What `process_filtered_messages` (src/actions.cpp:506-562) does, message by message: who is
    credited, who pays, and exactly when it goes through. */
module Delivery {
  import opened Options
  import opened DustBalance
  import opened LedgerTypes
  import opened Egress
  import opened BridgeMessage
  import opened Actions

  /** The account the data of a message names. */
  function NamedBy(env: Env, msg: Message): Option<Name> {
    var d := Decode(msg.data);
    if d.Decoded? && d.msg.account in env.nameOf then Some(env.nameOf[d.msg.account]) else None
  }

  /** A message with data for the contract's own reserved address. */
  predicate ForBridge(c: Chain, msg: Message) {
    msg.receiver == c.self && msg.data != []
  }

  /** The named account exists, has registered, agrees to atomic delivery if that is asked for, and its
      minimum fee is covered. */
  predicate Acceptable(c: Chain, env: Env, msg: Message) {
    var n := NamedBy(env, msg);
    && n.Some? && n.value in env.accounts && n.value in env.receivers
    && (Decode(msg.data).msg.forceAtomic ==> env.receivers[n.value].forceAtomic)
    && msg.value >= Times(env.receivers[n.value].minFee, c.unit)
  }

  /** Value of the bridge messages that name one account, and of all of them, among the first `i`. */
  function DeliveredTo(c: Chain, env: Env, msgs: seq<Message>, n: Name, i: nat): nat
    requires i <= |msgs|
  {
    if i == 0 then 0
    else DeliveredTo(c, env, msgs, n, i - 1)
         + If(ForBridge(c, msgs[i - 1]) && NamedBy(env, msgs[i - 1]) == Some(n), msgs[i - 1].value)
  }

  function DeliveredTotal(c: Chain, msgs: seq<Message>, i: nat): nat
    requires i <= |msgs|
  {
    if i == 0 then 0 else DeliveredTotal(c, msgs, i - 1) + If(ForBridge(c, msgs[i - 1]), msgs[i - 1].value)
  }

  lemma TargetMeaning(c: Chain, env: Env, msg: Message)
    ensures BridgeTarget(c, env, msg) == if Acceptable(c, env, msg) then NamedBy(env, msg) else None
  {
  }

  // ---- the loop ----

  /** Message `k` can be delivered, with all that the first `i` bring to its receiver. */
  predicate Delivers(c: Chain, env: Env, balances: map<Name, nat>, msgs: seq<Message>, i: nat, k: nat)
    requires k < i <= |msgs|
  {
    ForBridge(c, msgs[k]) ==>
      && Acceptable(c, env, msgs[k])
      && NamedBy(env, msgs[k]).value in balances
      && balances[NamedBy(env, msgs[k]).value] + DeliveredTo(c, env, msgs, NamedBy(env, msgs[k]).value, i) < Cap(c.unit)
  }

  predicate AllDeliver(c: Chain, env: Env, balances: map<Name, nat>, msgs: seq<Message>, i: nat)
    requires i <= |msgs|
  {
    forall k :: 0 <= k < i ==> Delivers(c, env, balances, msgs, i, k)
  }

  lemma {:induction false} DeliveredMonotone(c: Chain, env: Env, msgs: seq<Message>, n: Name, i: nat, j: nat)
    requires i <= j <= |msgs|
    ensures DeliveredTo(c, env, msgs, n, i) <= DeliveredTo(c, env, msgs, n, j)
    decreases j
  {
    if i < j {
      DeliveredMonotone(c, env, msgs, n, i, j - 1);
    }
  }

  lemma AllDeliverFewer(c: Chain, env: Env, balances: map<Name, nat>, msgs: seq<Message>, i: nat, j: nat)
    requires j <= i <= |msgs| && AllDeliver(c, env, balances, msgs, i)
    ensures AllDeliver(c, env, balances, msgs, j)
  {
    forall k | 0 <= k < j ensures Delivers(c, env, balances, msgs, j, k) {
      assert Delivers(c, env, balances, msgs, i, k);
      if NamedBy(env, msgs[k]).Some? {
        DeliveredMonotone(c, env, msgs, NamedBy(env, msgs[k]).value, j, i);
      }
    }
  }

  /** One more message: earlier ones to other accounts are not affected. */
  lemma AllDeliverStep(c: Chain, env: Env, balances: map<Name, nat>, msgs: seq<Message>, i: nat)
    requires 0 < i <= |msgs|
    ensures AllDeliver(c, env, balances, msgs, i) <==>
            AllDeliver(c, env, balances, msgs, i - 1) && Delivers(c, env, balances, msgs, i, i - 1)
  {
    if AllDeliver(c, env, balances, msgs, i) {
      AllDeliverFewer(c, env, balances, msgs, i, i - 1);
    }
    if AllDeliver(c, env, balances, msgs, i - 1) && Delivers(c, env, balances, msgs, i, i - 1) {
      forall k | 0 <= k < i ensures Delivers(c, env, balances, msgs, i, k) {
        if k < i - 1 {
          assert Delivers(c, env, balances, msgs, i - 1, k);
        }
      }
    }
  }

  /** The rows after `i` messages. */
  predicate RowsDelivered(c: Chain, env: Env, balances: map<Name, nat>, msgs: seq<Message>, i: nat, b: Bridged)
    requires i <= |msgs|
  {
    && b.total == DeliveredTotal(c, msgs, i)
    && b.balances.Keys == balances.Keys
    && forall n :: n in balances ==> b.balances[n] == balances[n] + DeliveredTo(c, env, msgs, n, i)
  }

  lemma BridgeOneMeaning(c: Chain, env: Env, balances: map<Name, nat>, msgs: seq<Message>, i: nat, b: Bridged)
    requires 0 < i <= |msgs| && RowsDelivered(c, env, balances, msgs, i - 1, b)
    ensures var r := BridgeOne(c, env, b, msgs[i - 1]);
            && (r.Some? <==> Delivers(c, env, balances, msgs, i, i - 1))
            && (r.Some? ==> RowsDelivered(c, env, balances, msgs, i, r.value))
  {
    TargetMeaning(c, env, msgs[i - 1]);
  }

  lemma {:induction false} BridgeLoopMeaning(c: Chain, env: Env, balances: map<Name, nat>, msgs: seq<Message>, i: nat)
    requires i <= |msgs|
    ensures var r := BridgeUpTo(c, env, balances, msgs, i);
            && (r.Some? <==> AllDeliver(c, env, balances, msgs, i))
            && (r.Some? ==> RowsDelivered(c, env, balances, msgs, i, r.value))
    decreases i
  {
    if i > 0 {
      BridgeLoopMeaning(c, env, balances, msgs, i - 1);
      AllDeliverStep(c, env, balances, msgs, i);
      var b := BridgeUpTo(c, env, balances, msgs, i - 1);
      if b.Some? {
        BridgeOneMeaning(c, env, balances, msgs, i, b.value);
      }
    }
  }

  // ---- the whole phase ----

  /** Every message can be delivered and the contract's row pays for all of them. */
  predicate Deliverable(c: Chain, env: Env, balances: map<Name, nat>, msgs: seq<Message>) {
    var total := DeliveredTotal(c, msgs, |msgs|);
    && AllDeliver(c, env, balances, msgs, |msgs|)
    && (total > 0 ==> c.self in balances && total <= balances[c.self] + DeliveredTo(c, env, msgs, c.self, |msgs|))
  }

  function DeliveredRow(c: Chain, env: Env, balances: map<Name, nat>, msgs: seq<Message>, n: Name): int
    requires n in balances
  {
    balances[n] + DeliveredTo(c, env, msgs, n, |msgs|) - If(n == c.self, DeliveredTotal(c, msgs, |msgs|))
  }

  function DeliveredRows(c: Chain, env: Env, balances: map<Name, nat>, msgs: seq<Message>): map<Name, nat> {
    map n | n in balances :: Nat(DeliveredRow(c, env, balances, msgs, n))
  }

  /** The phase goes through if and only if the messages are deliverable; each row then gains what names
      it, and the contract's row pays the total. */
  lemma MessagesMeaning(c: Chain, env: Env, l: Ledger, msgs: seq<Message>)
    ensures MessagesPhase(c, env, l, msgs) ==
            if Deliverable(c, env, l.balances, msgs)
            then Some(l.(balances := DeliveredRows(c, env, l.balances, msgs))) else None
    ensures Deliverable(c, env, l.balances, msgs) ==>
              forall n :: n in l.balances ==>
                DeliveredRows(c, env, l.balances, msgs)[n] == DeliveredRow(c, env, l.balances, msgs, n)
  {
    BridgeLoopMeaning(c, env, l.balances, msgs, |msgs|);
    var b := BridgeUpTo(c, env, l.balances, msgs, |msgs|);
    if b.Some? && Deliverable(c, env, l.balances, msgs) {
      DebitTotal(c, env, l.balances, msgs, b.value);
    }
  }

  lemma DebitTotal(c: Chain, env: Env, balances: map<Name, nat>, msgs: seq<Message>, b: Bridged)
    requires RowsDelivered(c, env, balances, msgs, |msgs|, b) && Deliverable(c, env, balances, msgs)
    ensures forall n :: n in balances ==> DeliveredRow(c, env, balances, msgs, n) >= 0
    ensures if b.total == 0 then b.balances == DeliveredRows(c, env, balances, msgs)
            else DebitRow(b.balances, c.self, b.total) == Some(DeliveredRows(c, env, balances, msgs))
  {
    var rows := DeliveredRows(c, env, balances, msgs);
    if b.total == 0 {
      assert b.balances == rows;
    } else {
      assert b.balances[c.self := b.balances[c.self] - b.total] == rows;
    }
  }

  // ---- one message, from the encoder's side ----

  lemma OneMessage(c: Chain, env: Env, msg: Message, n: Name)
    ensures DeliveredTotal(c, [msg], 1) == If(ForBridge(c, msg), msg.value)
    ensures DeliveredTo(c, env, [msg], n, 1) == If(ForBridge(c, msg) && NamedBy(env, msg) == Some(n), msg.value)
  {
    assert DeliveredTotal(c, [msg], 0) == 0 && DeliveredTo(c, env, [msg], n, 0) == 0;
  }

  /** When a single bridge message is deliverable. */
  lemma OneDelivers(c: Chain, env: Env, balances: map<Name, nat>, msg: Message)
    requires ForBridge(c, msg)
    ensures Deliverable(c, env, balances, [msg]) <==>
            && Acceptable(c, env, msg) && NamedBy(env, msg).value in balances
            && balances[NamedBy(env, msg).value] + msg.value < Cap(c.unit)
            && (msg.value > 0 ==> c.self in balances && (NamedBy(env, msg) == Some(c.self) || msg.value <= balances[c.self]))
  {
    assert AllDeliver(c, env, balances, [msg], 1) <==> Delivers(c, env, balances, [msg], 1, 0);
    OneMessage(c, env, msg, c.self);
    if NamedBy(env, msg).Some? {
      OneMessage(c, env, msg, NamedBy(env, msg).value);
    }
  }

  /** The rows after moving `v` from the contract to `r`. */
  function Moved(c: Chain, balances: map<Name, nat>, r: Name, v: nat): map<Name, nat>
    requires r in balances && (v > 0 ==> c.self in balances && (r == c.self || v <= balances[c.self]))
  {
    if r == c.self || v == 0 then balances else balances[r := balances[r] + v][c.self := balances[c.self] - v]
  }

  lemma OneDelivered(c: Chain, env: Env, balances: map<Name, nat>, msg: Message, r: Name)
    requires ForBridge(c, msg) && NamedBy(env, msg) == Some(r) && r in balances
    requires msg.value > 0 ==> c.self in balances && (r == c.self || msg.value <= balances[c.self])
    ensures DeliveredRows(c, env, balances, [msg]) == Moved(c, balances, r, msg.value)
  {
    var rows, moved := DeliveredRows(c, env, balances, [msg]), Moved(c, balances, r, msg.value);
    forall n | n in balances ensures rows[n] == moved[n] {
      OneMessage(c, env, msg, n);
    }
  }

  lemma OneMessageMoves(c: Chain, env: Env, l: Ledger, msg: Message)
    requires ForBridge(c, msg)
    ensures var r, result := NamedBy(env, msg), MessagesPhase(c, env, l, [msg]);
            && (result.Some? <==>
                && Acceptable(c, env, msg) && r.value in l.balances && l.balances[r.value] + msg.value < Cap(c.unit)
                && (msg.value > 0 ==> c.self in l.balances && (r.value == c.self || msg.value <= l.balances[c.self])))
            && (result.Some? ==> result.value == l.(balances := Moved(c, l.balances, r.value, msg.value)))
  {
    MessagesMeaning(c, env, l, [msg]);
    OneDelivers(c, env, l.balances, msg);
    if Deliverable(c, env, l.balances, [msg]) {
      OneDelivered(c, env, l.balances, msg, NamedBy(env, msg).value);
    }
  }

  lemma EncodedIsNamed(c: Chain, env: Env, m: MessageV0, t: Bytes, v: nat)
    requires |m.account| < TWO_256 - 0x100 && |m.data| < TWO_256
    ensures var msg := Message(c.self, v, Encode(m) + t);
            && ForBridge(c, msg)
            && NamedBy(env, msg) == (if 1 <= |m.account| <= 32 && |m.data| < TWO_32 - 1 && m.account in env.nameOf
                                     then Some(env.nameOf[m.account]) else None)
            && (NamedBy(env, msg).Some? ==> Decode(msg.data).msg.forceAtomic == m.forceAtomic)
  {
    DecodesWhen(m, t);
    assert |Encode(m) + t| >= 100 by {
      HeadWords(m, t);
    }
  }

  /** An encoded message of value `v` whose account bytes name `r` goes through exactly under the
      source's checks, and then moves `v` from the contract's row to the row of `r`. */
  lemma EncodedMessageMoves(c: Chain, env: Env, l: Ledger, m: MessageV0, t: Bytes, v: nat)
    requires |m.account| < TWO_256 - 0x100 && |m.data| < TWO_256
    ensures var r := if m.account in env.nameOf then env.nameOf[m.account] else 0;
            var result := MessagesPhase(c, env, l, [Message(c.self, v, Encode(m) + t)]);
            && (result.Some? <==>
                && 1 <= |m.account| <= 32 && |m.data| < TWO_32 - 1
                && m.account in env.nameOf && r in env.accounts && r in env.receivers
                && (m.forceAtomic ==> env.receivers[r].forceAtomic)
                && v >= Times(env.receivers[r].minFee, c.unit)
                && r in l.balances && l.balances[r] + v < Cap(c.unit)
                && (v > 0 ==> c.self in l.balances && (r == c.self || v <= l.balances[c.self])))
            && (result.Some? ==> result.value == l.(balances := Moved(c, l.balances, r, v)))
  {
    EncodedIsNamed(c, env, m, t, v);
    OneMessageMoves(c, env, l, Message(c.self, v, Encode(m) + t));
  }

  // ---- one row ----

  /** Bridge messages move value from the contract's row to the accounts they name. */
  lemma MessagesRow(c: Chain, env: Env, l: Ledger, msgs: seq<Message>, n: Name)
    ensures var r := MessagesPhase(c, env, l, msgs);
            r.Some? ==>
              && r.value == l.(balances := r.value.balances)
              && r.value.balances.Keys == l.balances.Keys
              && (n in l.balances ==>
                    r.value.balances[n] == l.balances[n] + DeliveredTo(c, env, msgs, n, |msgs|)
                                           - If(n == c.self, DeliveredTotal(c, msgs, |msgs|)))
  {
    MessagesMeaning(c, env, l, msgs);
  }
}
