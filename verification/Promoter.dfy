/** Antelope timestamps to EVM block numbers (block_mapping.hpp). */
module BlockMapping {

  const TWO_32: nat := 0x1_0000_0000
  const SECOND: nat := 1_000_000

  /** Antelope block times are 32-bit counts of half seconds since 2000-01-01, in microseconds here. */
  const LAST_TIME: nat := 946_684_800_000_000 + (TWO_32 - 1) * 500_000

  type Time = t: nat | t <= LAST_TIME

  /** `timestamp_to_evm_block_num` with the default one-second interval; the result is 32 bits wide. */
  function BlockNum(genesis: nat, timestamp: nat): nat {
    var s := timestamp / SECOND;
    if s < genesis then 0 else (1 + (s - genesis)) % TWO_32
  }

  /** Up to an hour after the last representable block time nothing wraps. */
  lemma NoWrap(genesis: nat, timestamp: nat)
    requires timestamp <= LAST_TIME + 3600 * SECOND
    ensures BlockNum(genesis, timestamp) ==
            (if timestamp / SECOND < genesis then 0 else 1 + (timestamp / SECOND - genesis))
    ensures BlockNum(genesis, timestamp) + 1 < TWO_32
  {
  }

  lemma BlockNumMonotone(genesis: nat, t: nat, u: nat)
    requires t <= u <= LAST_TIME + 3600 * SECOND
    ensures BlockNum(genesis, t) <= BlockNum(genesis, u)
  {
    NoWrap(genesis, t);
    NoWrap(genesis, u);
  }
}

/** The pending/active promoter of include/evm_runtime/value_promoter.hpp. */
module Promoter {
  import opened Options
  import opened BlockMapping

  datatype Pending<+T> = Pending(value: T, time: Time)
  datatype Promoter<+T> = Promoter(pending: Option<Pending<T>>, cached: T)

  predicate IsActive<T>(p: Pending<T>, genesis: nat, now: Time) {
    BlockNum(genesis, now) > BlockNum(genesis, p.time)
  }

  function GetValue<T>(p: Promoter<T>, genesis: nat, now: Time): T {
    if p.pending.Some? && IsActive(p.pending.value, genesis, now) then p.pending.value.value else p.cached
  }

  /** `get_value_and_maybe_promote`: the promoter afterwards; `cached` is what it returns. */
  function Promote<T>(p: Promoter<T>, genesis: nat, now: Time): Promoter<T> {
    if p.pending.Some? && IsActive(p.pending.value, genesis, now) then Promoter(None, p.pending.value.value) else p
  }

  function Update<T>(p: Promoter<T>, f: T -> T, genesis: nat, now: Time): Promoter<T> {
    var q := Promote(p, genesis, now);
    q.(pending := Some(Pending(f(q.cached), now)))
  }

  // ---- the timeline it implements ----

  /** Updates made so far: the block each was made in and the value it set. */
  type Log<T> = seq<(nat, T)>

  /** The value in force in block `n`: the last update made in a block strictly before `n`. */
  function Seen<T>(init: T, log: Log<T>, n: nat): T {
    if log == [] then init
    else if log[|log| - 1].0 < n then log[|log| - 1].1
    else Seen(init, log[..|log| - 1], n)
  }

  datatype Event<!T> = Read(time: Time) | Promoted(time: Time) | Updated(time: Time, f: T -> T)

  function Step<T>(p: Promoter<T>, genesis: nat, e: Event<T>): Promoter<T> {
    match e
    case Read(_) => p
    case Promoted(t) => Promote(p, genesis, t)
    case Updated(t, f) => Update(p, f, genesis, t)
  }

  function Run<T>(p: Promoter<T>, genesis: nat, events: seq<Event<T>>): Promoter<T> {
    if events == [] then p else Step(Run(p, genesis, events[..|events| - 1]), genesis, events[|events| - 1])
  }

  /** The same events on the timeline alone. */
  function LogStep<T>(init: T, log: Log<T>, genesis: nat, e: Event<T>): Log<T> {
    if e.Updated? then log + [(BlockNum(genesis, e.time), e.f(Seen(init, log, BlockNum(genesis, e.time))))] else log
  }

  function LogOf<T>(init: T, genesis: nat, events: seq<Event<T>>): Log<T> {
    if events == [] then []
    else LogStep(init, LogOf(init, genesis, events[..|events| - 1]), genesis, events[|events| - 1])
  }

  predicate Ordered<T>(events: seq<Event<T>>) {
    forall i, j :: 0 <= i < j < |events| ==> events[i].time <= events[j].time
  }

  /** The promoter stands for the log at any time from `now` on. */
  predicate Represents<T(==)>(p: Promoter<T>, genesis: nat, init: T, log: Log<T>, now: Time) {
    && (forall i :: 0 <= i < |log| ==> log[i].0 <= BlockNum(genesis, now))
    && if p.pending.None? then
         && p.cached == Seen(init, log, BlockNum(genesis, now))
         && (forall i :: 0 <= i < |log| ==> log[i].0 < BlockNum(genesis, now))
       else
         var b := BlockNum(genesis, p.pending.value.time);
         && |log| > 0 && log[|log| - 1] == (b, p.pending.value.value)
         && p.cached == Seen(init, log, b)
         && (forall i :: 0 <= i < |log| ==> log[i].0 <= b)
  }

  /** Later entries of the same block do not show in it, later blocks do not matter earlier. */
  lemma SeenLater<T>(init: T, log: Log<T>, m: nat, n: nat)
    requires m <= n && forall i :: 0 <= i < |log| ==> log[i].0 < m
    ensures Seen(init, log, m) == Seen(init, log, n)
  {
  }

  lemma SeenAppend<T>(init: T, log: Log<T>, e: (nat, T), n: nat)
    ensures Seen(init, log + [e], n) == if e.0 < n then e.1 else Seen(init, log, n)
  {
    assert (log + [e])[..|log|] == log;
  }

  /** A promoter that represents a log shows the log's value at every later time. */
  lemma RepresentsShows<T>(p: Promoter<T>, genesis: nat, init: T, log: Log<T>, now: Time, t: Time)
    requires Represents(p, genesis, init, log, now) && now <= t
    ensures GetValue(p, genesis, t) == Seen(init, log, BlockNum(genesis, t))
    ensures Represents(Promote(p, genesis, t), genesis, init, log, t)
  {
    BlockNumMonotone(genesis, now, t);
    if p.pending.None? {
      SeenLater(init, log, BlockNum(genesis, now), BlockNum(genesis, t));
    } else {
      var b := BlockNum(genesis, p.pending.value.time);
      assert b <= BlockNum(genesis, t) by {
        assert log[|log| - 1].0 == b;
      }
    }
  }

  lemma RepresentsLater<T>(p: Promoter<T>, genesis: nat, init: T, log: Log<T>, now: Time, t: Time)
    requires Represents(p, genesis, init, log, now) && now <= t
    ensures Represents(p, genesis, init, log, t)
  {
    BlockNumMonotone(genesis, now, t);
    if p.pending.None? {
      SeenLater(init, log, BlockNum(genesis, now), BlockNum(genesis, t));
    }
  }

  lemma UpdateRepresents<T>(p: Promoter<T>, genesis: nat, init: T, log: Log<T>, now: Time, t: Time, f: T -> T)
    requires Represents(p, genesis, init, log, now) && now <= t
    ensures Represents(Update(p, f, genesis, t), genesis, init, LogStep(init, log, genesis, Updated(t, f)), t)
  {
    RepresentsShows(p, genesis, init, log, now, t);
    var b := BlockNum(genesis, t);
    var v := f(Seen(init, log, b));
    SeenAppend(init, log, (b, v), b);
  }

  /** For any interleaving of reads, promotions and updates at nondecreasing times, the value
      seen is the last update of the latest earlier block that had one. */
  lemma {:induction false} RunRepresents<T>(genesis: nat, init: T, events: seq<Event<T>>, now: Time)
    requires Ordered(events) && (forall i :: 0 <= i < |events| ==> events[i].time <= now)
    ensures Represents(Promote(Run(Promoter(None, init), genesis, events), genesis, now), genesis, init,
                       LogOf(init, genesis, events), now)
    ensures GetValue(Run(Promoter(None, init), genesis, events), genesis, now) ==
            Seen(init, LogOf(init, genesis, events), BlockNum(genesis, now))
    decreases |events|
  {
    if events != [] {
      var k := |events| - 1;
      var e := events[k];
      var log := LogOf(init, genesis, events[..k]);
      var p := Run(Promoter(None, init), genesis, events[..k]);
      RunRepresents(genesis, init, events[..k], e.time);
      var p' := Step(p, genesis, e);
      if e.Updated? {
        var q := Promote(p, genesis, e.time);
        UpdateRepresents(q, genesis, init, log, e.time, e.time, e.f);
        assert Update(q, e.f, genesis, e.time) == Update(p, e.f, genesis, e.time);
        RepresentsShows(p', genesis, init, LogStep(init, log, genesis, e), e.time, now);
      } else {
        RunRepresents(genesis, init, events[..k], now);
        PromoteTwice(p, genesis, e.time, now);
      }
    }
  }

  /** Promoting on the way changes nothing later. */
  lemma PromoteTwice<T>(p: Promoter<T>, genesis: nat, t: Time, u: Time)
    requires t <= u
    ensures Promote(Promote(p, genesis, t), genesis, u) == Promote(p, genesis, u)
    ensures GetValue(Promote(p, genesis, t), genesis, u) == GetValue(p, genesis, u)
  {
    BlockNumMonotone(genesis, t, u);
  }

  lemma {:induction false} LogKeepsBlock<T>(genesis: nat, init: T, before: seq<Event<T>>, during: seq<Event<T>>, n: nat)
    requires forall i :: 0 <= i < |during| ==> BlockNum(genesis, during[i].time) >= n
    ensures Seen(init, LogOf(init, genesis, before + during), n) == Seen(init, LogOf(init, genesis, before), n)
    decreases |during|
  {
    if during == [] {
      assert before + during == before;
    } else {
      var k := |during| - 1;
      var events := before + during;
      assert events[..|events| - 1] == before + during[..k] && events[|events| - 1] == during[k];
      LogKeepsBlock(genesis, init, before, during[..k], n);
      if during[k].Updated? {
        var log := LogOf(init, genesis, before + during[..k]);
        var b := BlockNum(genesis, during[k].time);
        SeenAppend(init, log, (b, during[k].f(Seen(init, log, b))), n);
      }
    }
  }

  /** So the value never changes within a block, whatever happens in it. */
  lemma StableWithinBlock<T>(genesis: nat, init: T, before: seq<Event<T>>, during: seq<Event<T>>, now: Time)
    requires Ordered(before + during) && (forall i :: 0 <= i < |before + during| ==> (before + during)[i].time <= now)
    requires forall i :: 0 <= i < |during| ==> BlockNum(genesis, during[i].time) == BlockNum(genesis, now)
    ensures GetValue(Run(Promoter(None, init), genesis, before + during), genesis, now) ==
            GetValue(Run(Promoter(None, init), genesis, before), genesis, now)
  {
    var events := before + during;
    assert forall i :: 0 <= i < |before| ==> before[i] == events[i];
    RunRepresents(genesis, init, events, now);
    RunRepresents(genesis, init, before, now);
    LogKeepsBlock(genesis, init, before, during, BlockNum(genesis, now));
  }

  // ---- the struct as it is written ----

  class ValuePromoter<T> {
    var pendingValue: Option<Pending<T>>
    var cachedValue: T

    function View(): Promoter<T>
      reads this
    {
      Promoter(pendingValue, cachedValue)
    }

    constructor (initial: T)
      ensures View() == Promoter(None, initial)
    {
      pendingValue, cachedValue := None, initial;
    }

    method PromotePending() returns (ok: bool)
      modifies this
      ensures ok <==> old(pendingValue.Some?)
      ensures ok ==> View() == Promoter(None, old(pendingValue).value.value)
      ensures !ok ==> View() == old(View())
    {
      if pendingValue.None? {
        return false;
      }
      cachedValue := pendingValue.value.value;
      pendingValue := None;
      return true;
    }

    method GetValueAndMaybePromote(genesis: nat, now: Time) returns (value: T, promoted: bool)
      modifies this
      ensures View() == Promote(old(View()), genesis, now)
      ensures value == GetValue(old(View()), genesis, now) && value == cachedValue
      ensures promoted <==> old(pendingValue.Some?) && IsActive(old(pendingValue).value, genesis, now)
    {
      promoted := false;
      if pendingValue.Some? && IsActive(pendingValue.value, genesis, now) {
        promoted := PromotePending();
      }
      value := cachedValue;
    }

    method UpdateWith(visitor: T -> T, genesis: nat, now: Time)
      modifies this
      ensures View() == Update(old(View()), visitor, genesis, now)
    {
      var value, _ := GetValueAndMaybePromote(genesis, now);
      pendingValue := Some(Pending(visitor(value), now));
    }
  }
}
