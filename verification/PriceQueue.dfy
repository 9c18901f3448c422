/** The delayed price queue of src/config_wrapper.cpp: `enqueue` and `process_queue`, for scalar
    prices (EVM versions 1 and 2) and for partially specified price pairs (version 3). */
module PriceQueue {
  import opened Options
  import opened BlockMapping

  const GRACE_PERIOD: nat := 180 * SECOND

  datatype GasPrices = GasPrices(overhead: Option<nat>, storage: Option<nat>)

  datatype Entry<+V> = Entry(block: nat, value: V)

  /** A queue table (rows in key order), the cached `queue_front_block`, and the price in force. */
  datatype Queue<V> = Queue(front: nat, entries: seq<Entry<V>>, current: V)

  /** How a due entry changes the price, and when a new value changes nothing. */
  datatype Kind<!V> = Kind(apply: (V, V) -> V, same: (V, V) -> bool)

  function Merge(current: GasPrices, prices: GasPrices): GasPrices {
    GasPrices(if prices.overhead.Some? then prices.overhead else current.overhead,
              if prices.storage.Some? then prices.storage else current.storage)
  }

  /** `is_same_as_current_price` for pairs. */
  predicate SameAsCurrent(current: GasPrices, prices: GasPrices) {
    && (prices.overhead.Some? ==> current.overhead == prices.overhead)
    && (prices.storage.Some? ==> current.storage == prices.storage)
  }

  function Latest<V>(current: V, value: V): V {
    value
  }

  predicate Equal<V(==)>(current: V, value: V) {
    current == value
  }

  const SCALAR: Kind<nat> := Kind(Latest<nat>, Equal<nat>)
  const PAIRS: Kind<GasPrices> := Kind(Merge, SameAsCurrent)

  /** The block a value enqueued now takes effect in. */
  function Activation(genesis: nat, now: Time): nat {
    BlockNum(genesis, now + GRACE_PERIOD) + 1
  }

  function Last<V>(entries: seq<Entry<V>>): Entry<V>
    requires entries != []
  {
    entries[|entries| - 1]
  }

  /** `None` is the "internal error" abort. */
  function Enqueue<V(==)>(k: Kind<V>, q: Queue<V>, v: V, a: nat): Option<Queue<V>> {
    if q.front == 0 && k.same(q.current, v) then Some(q)
    else if q.entries != [] && v == Last(q.entries).value then Some(q)
    else if q.entries != [] && a < Last(q.entries).block then None
    else if q.entries != [] && a == Last(q.entries).block then
      Some(q.(entries := q.entries[..|q.entries| - 1] + [Entry(a, v)]))
    else
      Some(q.(entries := q.entries + [Entry(a, v)], front := if q.front == 0 then a else q.front))
  }

  function Front<V>(entries: seq<Entry<V>>): nat {
    if entries == [] then 0 else entries[0].block
  }

  /** The loop of `process_queue`. */
  function Drain<V>(k: Kind<V>, q: Queue<V>, b: nat): Queue<V>
    decreases |q.entries|
  {
    if q.entries == [] || b < q.entries[0].block then q
    else Drain(k, Queue(Front(q.entries[1..]), q.entries[1..], k.apply(q.current, q.entries[0].value)), b)
  }

  function Process<V>(k: Kind<V>, q: Queue<V>, b: nat): Queue<V> {
    if q.front == 0 || b < q.front then q else Drain(k, q, b)
  }

  // ---- what the queue means ----

  /** The price a transaction in block `b` pays. */
  function PriceAt<V>(k: Kind<V>, q: Queue<V>, b: nat): V {
    Process(k, q, b).current
  }

  predicate Sorted<V>(entries: seq<Entry<V>>) {
    && (forall i :: 0 <= i < |entries| ==> entries[i].block > 0)
    && (forall i, j :: 0 <= i < j < |entries| ==> entries[i].block < entries[j].block)
  }

  /** Rows strictly ordered, and the cached front is the smallest block, 0 exactly when empty. */
  predicate QueueOk<V>(q: Queue<V>) {
    Sorted(q.entries) && q.front == Front(q.entries)
  }

  /** All that processing needs of the cached front: it is not 0 and not late while rows wait. It
      may be early, or left over from the other queue while there are no rows. */
  predicate QueueSound<V>(q: Queue<V>) {
    Sorted(q.entries) && (q.entries != [] ==> 0 < q.front <= q.entries[0].block)
  }

  /** All entries folded into a price. */
  function Fold<V>(k: Kind<V>, current: V, entries: seq<Entry<V>>): V {
    if entries == [] then current else k.apply(Fold(k, current, entries[..|entries| - 1]), Last(entries).value)
  }

  function Due<V>(entries: seq<Entry<V>>, b: nat): nat {
    if entries == [] || b < entries[0].block then 0 else 1 + Due(entries[1..], b)
  }

  lemma {:induction false} DueMeaning<V>(entries: seq<Entry<V>>, b: nat)
    requires Sorted(entries)
    ensures var n := Due(entries, b);
            n <= |entries| && forall i :: 0 <= i < |entries| ==> (entries[i].block <= b <==> i < n)
    decreases |entries|
  {
    if entries != [] && b >= entries[0].block {
      var rest := entries[1..];
      DueMeaning(rest, b);
      forall i | 0 < i < |entries| ensures entries[i].block <= b <==> i < 1 + Due(rest, b) {
        assert entries[i] == rest[i - 1];
      }
    }
  }

  lemma Shift<V>(entries: seq<Entry<V>>, n: nat)
    requires n < |entries|
    ensures entries[1..][n..] == entries[n + 1..] && entries[..n + 1][1..] == entries[1..][..n]
  {
  }

  /** The loop takes off exactly the due rows, applies them in order and leaves the front at the
      first remaining row; without a due row it changes nothing. */
  lemma {:induction false} DrainMeaning<V>(k: Kind<V>, q: Queue<V>, b: nat)
    ensures var n := Due(q.entries, b);
            n <= |q.entries| &&
            Drain(k, q, b) ==
            Queue(if n == 0 then q.front else Front(q.entries[n..]), q.entries[n..], Fold(k, q.current, q.entries[..n]))
    decreases |q.entries|
  {
    if q.entries != [] && b >= q.entries[0].block {
      var rest := q.entries[1..];
      var n := Due(rest, b);
      DrainMeaning(k, Queue(Front(rest), rest, k.apply(q.current, q.entries[0].value)), b);
      Shift(q.entries, n);
      FoldFirst(k, q.current, q.entries[..n + 1]);
    } else {
      assert q.entries[0..] == q.entries && q.entries[..0] == [];
    }
  }

  lemma {:induction false} FoldFirst<V>(k: Kind<V>, current: V, entries: seq<Entry<V>>)
    requires entries != []
    ensures Fold(k, current, entries) == Fold(k, k.apply(current, entries[0].value), entries[1..])
    decreases |entries|
  {
    if |entries| > 1 {
      var m := |entries| - 1;
      FoldFirst(k, current, entries[..m]);
      assert entries[..m][1..] == entries[1..][..m - 1];
    } else {
      assert entries[..0] == [] && entries[1..] == [];
    }
  }

  lemma SortedParts<V>(entries: seq<Entry<V>>, n: nat)
    requires Sorted(entries) && n <= |entries|
    ensures Sorted(entries[..n]) && Sorted(entries[n..])
  {
    assert forall i :: 0 <= i < |entries| - n ==> entries[n..][i] == entries[n + i];
  }

  lemma DrainKeeps<V>(k: Kind<V>, q: Queue<V>, b: nat)
    requires QueueSound(q)
    ensures QueueSound(Drain(k, q, b)) && (QueueOk(q) ==> QueueOk(Drain(k, q, b)))
    ensures forall i :: 0 <= i < |Drain(k, q, b).entries| ==> b < Drain(k, q, b).entries[i].block
  {
    DrainMeaning(k, q, b);
    DueMeaning(q.entries, b);
    SortedParts(q.entries, Due(q.entries, b));
  }

  /** The shortcut through the cached front never skips a due row, and none is left. */
  lemma ProcessIsDrain<V>(k: Kind<V>, q: Queue<V>, b: nat)
    requires QueueSound(q)
    ensures Process(k, q, b) == Drain(k, q, b)
    ensures QueueSound(Process(k, q, b)) && (QueueOk(q) ==> QueueOk(Process(k, q, b)))
    ensures forall i :: 0 <= i < |Process(k, q, b).entries| ==> b < Process(k, q, b).entries[i].block
  {
    DrainKeeps(k, q, b);
  }

  // ---- lazy processing equals eager processing ----

  lemma {:induction false} DrainTwice<V>(k: Kind<V>, q: Queue<V>, b: nat, b': nat)
    requires b <= b'
    ensures Drain(k, Drain(k, q, b), b') == Drain(k, q, b')
    decreases |q.entries|
  {
    if q.entries != [] && b >= q.entries[0].block {
      DrainTwice(k, Queue(Front(q.entries[1..]), q.entries[1..], k.apply(q.current, q.entries[0].value)), b, b');
    }
  }

  function ProcessAll<V>(k: Kind<V>, q: Queue<V>, blocks: seq<nat>): Queue<V> {
    if blocks == [] then q else Process(k, ProcessAll(k, q, blocks[..|blocks| - 1]), blocks[|blocks| - 1])
  }

  /** Processing at any blocks on the way to `b` and then at `b` is processing once at `b`. */
  lemma {:induction false} LazyIsEager<V>(k: Kind<V>, q: Queue<V>, blocks: seq<nat>, b: nat)
    requires QueueSound(q) && forall i :: 0 <= i < |blocks| ==> blocks[i] <= b
    ensures Process(k, ProcessAll(k, q, blocks), b) == Process(k, q, b)
    ensures QueueSound(ProcessAll(k, q, blocks))
    decreases |blocks|
  {
    if blocks != [] {
      var m := |blocks| - 1;
      LazyIsEager(k, q, blocks[..m], b);
      ProcessEarlier(k, ProcessAll(k, q, blocks[..m]), blocks[m], b);
    }
  }

  /** Processing once on the way to `b'` does not change what processing at `b'` gives. */
  lemma ProcessEarlier<V>(k: Kind<V>, q: Queue<V>, b: nat, b': nat)
    requires QueueSound(q) && b <= b'
    ensures Process(k, Process(k, q, b), b') == Process(k, q, b')
    ensures QueueSound(Process(k, q, b))
  {
    ProcessIsDrain(k, q, b);
    ProcessIsDrain(k, q, b');
    ProcessIsDrain(k, Process(k, q, b), b');
    DrainTwice(k, q, b, b');
  }

  // ---- enqueueing ----

  lemma PriceIsFold<V>(k: Kind<V>, q: Queue<V>, b: nat, n: nat)
    requires QueueSound(q) && n <= |q.entries|
    requires forall i :: 0 <= i < |q.entries| ==> (q.entries[i].block <= b <==> i < n)
    ensures PriceAt(k, q, b) == Fold(k, q.current, q.entries[..n])
  {
    ProcessIsDrain(k, q, b);
    DrainMeaning(k, q, b);
    DueMeaning(q.entries, b);
    assert Due(q.entries, b) == n;
  }

  /** The front and all rows lie at or before `a`. */
  predicate UpTo<V>(q: Queue<V>, a: nat) {
    a > 0 && q.front <= a && (q.entries != [] ==> Last(q.entries).block <= a)
  }

  /** Enqueueing never reports an internal error and keeps the queue in order. */
  lemma EnqueueKeepsOk<V>(k: Kind<V>, q: Queue<V>, v: V, a: nat)
    requires QueueSound(q) && UpTo(q, a)
    ensures var r := Enqueue(k, q, v, a);
            r.Some? && QueueSound(r.value) && UpTo(r.value, a) && (QueueOk(q) ==> QueueOk(r.value))
  {
  }

  lemma ProcessKeepsUpTo<V>(k: Kind<V>, q: Queue<V>, b: nat, a: nat)
    requires QueueSound(q) && UpTo(q, a)
    ensures QueueSound(Process(k, q, b)) && UpTo(Process(k, q, b), a)
    ensures QueueOk(q) ==> QueueOk(Process(k, q, b))
  {
    ProcessIsDrain(k, q, b);
    DrainMeaning(k, q, b);
  }

  lemma {:induction false} DueAppend<V>(entries: seq<Entry<V>>, e: Entry<V>, b: nat)
    requires Sorted(entries + [e])
    ensures Due(entries, b) <= |entries|
    ensures Due(entries + [e], b) == if b >= e.block then |entries| + 1 else Due(entries, b)
    ensures b >= e.block ==> Due(entries, b) == |entries|
    decreases |entries|
  {
    var all := entries + [e];
    if entries == [] {
      assert all[1..] == [];
    } else {
      assert all[0] == entries[0] && all[|entries|] == e;
      assert all[1..] == entries[1..] + [e];
      SortedParts(all, 1);
      DueAppend(entries[1..], e, b);
    }
  }

  lemma PriceIsDue<V>(k: Kind<V>, q: Queue<V>, b: nat)
    requires QueueSound(q)
    ensures Due(q.entries, b) <= |q.entries|
    ensures PriceAt(k, q, b) == Fold(k, q.current, q.entries[..Due(q.entries, b)])
  {
    ProcessIsDrain(k, q, b);
    DrainMeaning(k, q, b);
  }

  lemma AppendedPrice<V>(k: Kind<V>, q: Queue<V>, q': Queue<V>, v: V, a: nat, b: nat)
    requires QueueSound(q) && QueueSound(q') && q'.current == q.current && q'.entries == q.entries + [Entry(a, v)]
    ensures PriceAt(k, q', b) == if b >= a then k.apply(PriceAt(k, q, b), v) else PriceAt(k, q, b)
  {
    var m, n := |q.entries|, Due(q.entries, b);
    DueAppend(q.entries, Entry(a, v), b);
    PriceIsDue(k, q, b);
    PriceIsDue(k, q', b);
    if b >= a {
      assert q.entries[..m] == q.entries && q'.entries[..m + 1] == q'.entries && q'.entries[..m] == q.entries;
    } else {
      assert q'.entries[..n] == q.entries[..n];
    }
  }

  /** Without its last row the queue gives the price before that row. */
  function WithoutLast<V>(q: Queue<V>): Queue<V>
    requires q.entries != []
  {
    q.(entries := q.entries[..|q.entries| - 1])
  }

  lemma LastRowPrice<V>(k: Kind<V>, q: Queue<V>, b: nat)
    requires QueueSound(q) && q.entries != []
    ensures QueueSound(WithoutLast(q))
    ensures PriceAt(k, q, b) == if b >= Last(q.entries).block
                                then k.apply(PriceAt(k, WithoutLast(q), b), Last(q.entries).value)
                                else PriceAt(k, WithoutLast(q), b)
  {
    var m := |q.entries| - 1;
    SortedParts(q.entries, m);
    assert q.entries == q.entries[..m] + [Last(q.entries)];
    AppendedPrice(k, WithoutLast(q), q, Last(q.entries).value, Last(q.entries).block, b);
  }

  /** From the last row on the price no longer changes. */
  lemma PriceSettles<V>(k: Kind<V>, q: Queue<V>, b: nat, b': nat)
    requires QueueSound(q) && (q.entries != [] ==> Last(q.entries).block <= b) && b <= b'
    ensures PriceAt(k, q, b) == PriceAt(k, q, b')
  {
    PriceIsFold(k, q, b, |q.entries|);
    PriceIsFold(k, q, b', |q.entries|);
  }

  /** Applying a value twice is applying it once, and a value the shortcut takes for the current
      price changes nothing. */
  ghost predicate Lawful<V(!new)>(k: Kind<V>) {
    forall x, v :: k.apply(k.apply(x, v), v) == k.apply(x, v) && (k.same(x, v) ==> k.apply(x, v) == x)
  }

  lemma SameMeansNoChange(current: GasPrices, v: GasPrices)
    ensures SameAsCurrent(current, v) <==> Merge(current, v) == current
    ensures Merge(Merge(current, v), v) == Merge(current, v)
  {
  }

  lemma KindsAreLawful()
    ensures Lawful(SCALAR) && Lawful(PAIRS)
  {
    forall x, v ensures PAIRS.apply(PAIRS.apply(x, v), v) == PAIRS.apply(x, v) && (PAIRS.same(x, v) ==> PAIRS.apply(x, v) == x) {
      SameMeansNoChange(x, v);
    }
  }

  /** Just before block `a` the rows in force are those the new one follows or replaces. */
  lemma PriceBefore<V>(k: Kind<V>, q: Queue<V>, a: nat, b: nat)
    requires QueueSound(q) && UpTo(q, a) && a <= b
    ensures PriceAt(k, q, a - 1) ==
            if q.entries != [] && Last(q.entries).block == a then PriceAt(k, WithoutLast(q), b) else PriceAt(k, q, b)
  {
    if q.entries != [] && Last(q.entries).block == a {
      LastRowPrice(k, q, a - 1);
      PriceSettles(k, WithoutLast(q), a - 1, b);
    } else {
      PriceSettles(k, q, a - 1, b);
    }
  }

  /** A value enqueued for block `a` changes nothing before `a`; from `a` on the price is the one in
      force just before `a` with the value applied, whichever of the shortcuts the queue takes. */
  lemma EnqueueMeaning<V(!new)>(k: Kind<V>, q: Queue<V>, v: V, a: nat, b: nat)
    requires Lawful(k) && QueueSound(q) && UpTo(q, a)
    ensures Enqueue(k, q, v, a).Some?
    ensures PriceAt(k, Enqueue(k, q, v, a).value, b) ==
            if b >= a then k.apply(PriceAt(k, q, a - 1), v) else PriceAt(k, q, b)
  {
    EnqueueKeepsOk(k, q, v, a);
    var q' := Enqueue(k, q, v, a).value;
    if b >= a {
      PriceBefore(k, q, a, b);
    }
    if q.front == 0 && k.same(q.current, v) {
      PriceIsFold(k, q, b, 0);
    } else if q.entries != [] && v == Last(q.entries).value {
      LastRowPrice(k, q, b);
    } else if q.entries != [] && a == Last(q.entries).block {
      LastRowPrice(k, q, b);
      LastRowPrice(k, q', b);
      assert WithoutLast(q') == WithoutLast(q);
    } else {
      AppendedPrice(k, q, q', v, a, b);
    }
  }

  // ---- when a pair is lost ----

  /** Overwriting a row with `v` loses nothing: whatever the row set, `v` sets too, or it was
      that way already. */
  predicate Covers(before: GasPrices, row: GasPrices, v: GasPrices) {
    && (row.overhead.None? || v.overhead.Some? || before.overhead == row.overhead)
    && (row.storage.None? || v.storage.Some? || before.storage == row.storage)
  }

  /** The enqueue falls on the block of the last row and replaces it. */
  predicate Overwrites(q: Queue<GasPrices>, v: GasPrices, a: nat) {
    q.entries != [] && v != Last(q.entries).value && a == Last(q.entries).block
  }

  lemma CoversIsExact(before: GasPrices, row: GasPrices, v: GasPrices)
    ensures Merge(before, v) == Merge(Merge(before, row), v) <==> Covers(before, row, v)
  {
  }

  /** From its block on a pair is merged into the price announced before it, exactly unless it
      replaces a row of the same block that set a field it leaves open. */
  lemma PairEnqueue(q: Queue<GasPrices>, v: GasPrices, a: nat, b: nat)
    requires QueueSound(q) && UpTo(q, a) && b >= a
    ensures Enqueue(PAIRS, q, v, a).Some?
    ensures PriceAt(PAIRS, Enqueue(PAIRS, q, v, a).value, b) == Merge(PriceAt(PAIRS, q, b), v) <==>
            (Overwrites(q, v, a) ==> Covers(PriceAt(PAIRS, q, a - 1), Last(q.entries).value, v))
  {
    KindsAreLawful();
    EnqueueMeaning(PAIRS, q, v, a, b);
    PriceBefore(PAIRS, q, a, b);
    if q.entries != [] && a == Last(q.entries).block {
      LastRowPrice(PAIRS, q, b);
      CoversIsExact(PriceAt(PAIRS, q, a - 1), Last(q.entries).value, v);
      SameMeansNoChange(PriceAt(PAIRS, q, a - 1), v);
    }
  }

  /** Two partial updates in one block: the first is lost. */
  lemma OverwriteLosesField()
    ensures var q0 := Queue(0, [], GasPrices(Some(10), Some(10)));
            var q1 := Enqueue(PAIRS, q0, GasPrices(Some(20), None), 200).value;
            var q2 := Enqueue(PAIRS, q1, GasPrices(None, Some(30)), 200).value;
            PriceAt(PAIRS, q1, 200) == GasPrices(Some(20), Some(10)) &&
            PriceAt(PAIRS, q2, 200) == GasPrices(Some(10), Some(30))
  {
    var q0 := Queue(0, [], GasPrices(Some(10), Some(10)));
    var v1, v2 := GasPrices(Some(20), None), GasPrices(None, Some(30));
    var q1 := Enqueue(PAIRS, q0, v1, 200).value;
    KindsAreLawful();
    EnqueueKeepsOk(PAIRS, q0, v1, 200);
    PriceIsFold(PAIRS, q0, 199, 0);
    EnqueueMeaning(PAIRS, q0, v1, 200, 199);
    EnqueueMeaning(PAIRS, q0, v1, 200, 200);
    EnqueueMeaning(PAIRS, q1, v2, 200, 200);
  }

  // ---- runs at nondecreasing times ----

  datatype QueueEvent<V> = Enqueued(time: Time, value: V) | Processed(time: Time)

  function QueueStep<V(==)>(k: Kind<V>, q: Queue<V>, genesis: nat, e: QueueEvent<V>): Option<Queue<V>> {
    match e
    case Enqueued(t, v) => Enqueue(k, q, v, Activation(genesis, t))
    case Processed(t) => Some(Process(k, q, BlockNum(genesis, t)))
  }

  function QueueRun<V(==)>(k: Kind<V>, current: V, genesis: nat, events: seq<QueueEvent<V>>): Option<Queue<V>> {
    if events == [] then Some(Queue(0, [], current))
    else
      var q :- QueueRun(k, current, genesis, events[..|events| - 1]);
      QueueStep(k, q, genesis, events[|events| - 1])
  }

  predicate InOrder<V>(events: seq<QueueEvent<V>>) {
    forall i, j :: 0 <= i < j < |events| ==> events[i].time <= events[j].time
  }

  lemma ActivationMonotone(genesis: nat, t: Time, u: Time)
    requires t <= u
    ensures BlockNum(genesis, t) < Activation(genesis, t) <= Activation(genesis, u)
  {
    BlockNumMonotone(genesis, t, t + GRACE_PERIOD);
    BlockNumMonotone(genesis, t + GRACE_PERIOD, u + GRACE_PERIOD);
  }

  /** The announced block, in seconds: a value enqueued in second `s` counts from second `s + 181` on
      (and not before block 1). */
  function Effective(genesis: nat, t: Time): (a: nat)
    ensures a > 0
  {
    var s := t / 1_000_000;
    if s + 181 < genesis then 1 else s + 182 - genesis
  }

  lemma ActivationIs(genesis: nat, t: Time)
    ensures Activation(genesis, t) == Effective(genesis, t)
  {
    NoWrap(genesis, t + GRACE_PERIOD);
  }

  /** Blocks from the announced one on are those of the seconds from `t + 181` on. */
  lemma InSeconds(genesis: nat, t: Time, u: Time)
    requires genesis <= t / 1_000_000
    ensures BlockNum(genesis, u) >= Effective(genesis, t) <==> u / 1_000_000 >= t / 1_000_000 + 181
    ensures Effective(genesis, t) - 1 == BlockNum(genesis, t + 180 * 1_000_000)
  {
    NoWrap(genesis, u);
    NoWrap(genesis, t + 180 * 1_000_000);
  }

  /** In every run the cached front is right and the "internal error" check never fires. */
  lemma {:induction false} QueueRunOk<V>(k: Kind<V>, current: V, genesis: nat, events: seq<QueueEvent<V>>, now: Time)
    requires InOrder(events) && (forall i :: 0 <= i < |events| ==> events[i].time <= now)
    ensures var r := QueueRun(k, current, genesis, events);
            r.Some? && QueueOk(r.value) && UpTo(r.value, Activation(genesis, now))
    decreases |events|
  {
    if events != [] {
      var m := |events| - 1;
      var e := events[m];
      QueueRunOk(k, current, genesis, events[..m], e.time);
      ActivationMonotone(genesis, e.time, now);
      var q := QueueRun(k, current, genesis, events[..m]).value;
      if e.Enqueued? {
        EnqueueKeepsOk(k, q, e.value, Activation(genesis, e.time));
      } else {
        ProcessKeepsUpTo(k, q, BlockNum(genesis, e.time), Activation(genesis, e.time));
      }
    }
  }

  /** The price announced for block `b`: the last value enqueued to count from a block `a` of at most
      `b`, applied to what was announced for the block before `a` when it was enqueued. */
  function Announced<V>(k: Kind<V>, current: V, genesis: nat, events: seq<QueueEvent<V>>, b: nat): V
    decreases |events|
  {
    if events == [] then current
    else
      var e, before := events[|events| - 1], events[..|events| - 1];
      if e.Enqueued? && Effective(genesis, e.time) <= b
      then k.apply(Announced(k, current, genesis, before, Effective(genesis, e.time) - 1), e.value)
      else Announced(k, current, genesis, before, b)
  }

  /** For every run of enqueues and lazy processing, the price paid in any block from now on
      is the one announced for it. */
  lemma {:induction false} Timeline<V(!new)>(k: Kind<V>, current: V, genesis: nat, events: seq<QueueEvent<V>>, now: Time, b: nat)
    requires Lawful(k) && InOrder(events) && (forall i :: 0 <= i < |events| ==> events[i].time <= now)
    requires BlockNum(genesis, now) <= b
    ensures QueueRun(k, current, genesis, events).Some?
    ensures PriceAt(k, QueueRun(k, current, genesis, events).value, b) == Announced(k, current, genesis, events, b)
    decreases |events|
  {
    if events != [] {
      var m := |events| - 1;
      var e := events[m];
      var a := Effective(genesis, e.time);
      ActivationIs(genesis, e.time);
      QueueRunOk(k, current, genesis, events[..m], e.time);
      BlockNumMonotone(genesis, e.time, now);
      ActivationMonotone(genesis, e.time, now);
      Timeline(k, current, genesis, events[..m], e.time, b);
      var q := QueueRun(k, current, genesis, events[..m]).value;
      if e.Enqueued? {
        Timeline(k, current, genesis, events[..m], e.time, a - 1);
        EnqueueMeaning(k, q, e.value, a, b);
      } else {
        ProcessEarlier(k, q, BlockNum(genesis, e.time), b);
      }
    }
  }

  /** Scalar prices: simply the last one enqueued to be active by then. */
  function LastAnnounced(current: nat, genesis: nat, events: seq<QueueEvent<nat>>, b: nat): nat {
    if events == [] then current
    else
      var e := events[|events| - 1];
      if e.Enqueued? && Effective(genesis, e.time) <= b then e.value
      else LastAnnounced(current, genesis, events[..|events| - 1], b)
  }

  lemma {:induction false} ScalarTimeline(current: nat, genesis: nat, events: seq<QueueEvent<nat>>, now: Time, b: nat)
    requires InOrder(events) && (forall i :: 0 <= i < |events| ==> events[i].time <= now)
    requires BlockNum(genesis, now) <= b
    ensures QueueRun(SCALAR, current, genesis, events).Some?
    ensures PriceAt(SCALAR, QueueRun(SCALAR, current, genesis, events).value, b) == LastAnnounced(current, genesis, events, b)
  {
    KindsAreLawful();
    Timeline(SCALAR, current, genesis, events, now, b);
    LastIsAnnounced(current, genesis, events, b);
  }

  lemma {:induction false} LastIsAnnounced(current: nat, genesis: nat, events: seq<QueueEvent<nat>>, b: nat)
    ensures Announced(SCALAR, current, genesis, events, b) == LastAnnounced(current, genesis, events, b)
    decreases |events|
  {
    if events != [] {
      LastIsAnnounced(current, genesis, events[..|events| - 1], b);
    }
  }

  /** Price pairs, same-block overwrites included. */
  lemma PairTimeline(current: GasPrices, genesis: nat, events: seq<QueueEvent<GasPrices>>, now: Time, b: nat)
    requires InOrder(events) && (forall i :: 0 <= i < |events| ==> events[i].time <= now)
    requires BlockNum(genesis, now) <= b
    ensures QueueRun(PAIRS, current, genesis, events).Some?
    ensures PriceAt(PAIRS, QueueRun(PAIRS, current, genesis, events).value, b) == Announced(PAIRS, current, genesis, events, b)
  {
    KindsAreLawful();
    Timeline(PAIRS, current, genesis, events, now, b);
  }

  // ---- the two loops as they are written ----

  /** `enqueue`: the rows and the front afterwards; `ok` is false on "internal error". */
  method EnqueueRow<V(==)>(k: Kind<V>, q: Queue<V>, v: V, block: nat) returns (ok: bool, q': Queue<V>)
    ensures ok <==> Enqueue(k, q, v, block).Some?
    ensures ok ==> Some(q') == Enqueue(k, q, v, block)
  {
    ok, q' := true, q;
    if q.front == 0 && k.same(q.current, v) {
      return;
    }
    if q.entries != [] {
      var last := q.entries[|q.entries| - 1];
      if v == last.value {
        return;
      }
      if block < last.block {
        ok := false;
        return;
      }
      if block == last.block {
        q' := q.(entries := q.entries[..|q.entries| - 1] + [Entry(block, v)]);
        return;
      }
    }
    q' := q.(entries := q.entries + [Entry(block, v)]);
    if q.front == 0 {
      q' := q'.(front := block);
    }
  }

  /** `process_queue`: erase due rows one by one, moving the front along. */
  method ProcessRows<V(==)>(k: Kind<V>, q: Queue<V>, current: nat) returns (q': Queue<V>)
    ensures q' == Process(k, q, current)
  {
    q' := q;
    if q.front == 0 || current < q.front {
      return;
    }
    while q'.entries != [] && current >= q'.entries[0].block
      invariant Drain(k, q', current) == Drain(k, q, current)
      decreases |q'.entries|
    {
      var rest := q'.entries[1..];
      q' := Queue(if rest != [] then rest[0].block else 0, rest, k.apply(q'.current, q'.entries[0].value));
    }
  }
}
