/** How much `state::gc(max)` does: exactly `min(max, W)` deletions, where `W` counts one
    for every queue entry plus the rows of its scope. */
module StateGc {
  import opened StateTables
  import opened StateInvariants

  /** Storage rows of the queued scopes, as (scope, primary key). */
  ghost function Garbage(db: Db): set<(nat, nat)> {
    set id, i | id in db.gc.Values && i in Scope(db, id) :: (id, i)
  }

  /** W: deletions left to do. */
  ghost function Work(db: Db): nat {
    |db.gc| + |Garbage(db)|
  }

  function StorageRows(db: Db): set<(nat, nat)> {
    set id, i | id in db.storage && i in db.storage[id] :: (id, i)
  }

  /** Rows of the two tables `gc` deletes from. */
  function Rows(db: Db): nat {
    |db.gc| + |StorageRows(db)|
  }

  function Min(a: nat, b: nat): nat {
    if a < b then a else b
  }

  lemma MapSizeAfterRemove<V>(m: map<nat, V>, k: nat)
    requires k in m
    ensures |m - {k}| == |m| - 1
  {
    assert (m - {k}).Keys == m.Keys - {k};
  }

  lemma WorkIsZeroWhenEmpty(db: Db)
    ensures Work(db) == 0 <==> db.gc == map[]
  {
    if db.gc == map[] {
      assert Garbage(db) == {};
    }
  }

  function Tagged(id: nat, keys: set<nat>): set<(nat, nat)> {
    set i | i in keys :: (id, i)
  }

  lemma {:induction false} TaggedSize(id: nat, keys: set<nat>)
    ensures |Tagged(id, keys)| == |keys|
  {
    if keys != {} {
      var i :| i in keys;
      TaggedSize(id, keys - {i});
      assert Tagged(id, keys) == Tagged(id, keys - {i}) + {(id, i)};
    }
  }

  ghost predicate DistinctQueue(db: Db) {
    forall g, h :: g in db.gc && h in db.gc && db.gc[g] == db.gc[h] ==> g == h
  }

  lemma QueueWithout(db: Db, g: nat, id: nat)
    requires DistinctQueue(db) && g in db.gc
    ensures id in (db.gc - {g}).Values <==> id in db.gc.Values && id != db.gc[g]
  {
    var gc' := db.gc - {g};
    if id in db.gc.Values && id != db.gc[g] {
      var h :| h in db.gc && db.gc[h] == id;
      assert h in gc' && gc'[h] == id;
    }
  }

  lemma GarbageWithout(db: Db, g: nat)
    requires DistinctQueue(db) && g in db.gc
    ensures Garbage(db) == Garbage(db.(gc := db.gc - {g})) + Tagged(db.gc[g], Scope(db, db.gc[g]).Keys)
    ensures Garbage(db.(gc := db.gc - {g})) !! Tagged(db.gc[g], Scope(db, db.gc[g]).Keys)
  {
    forall id ensures id in (db.gc - {g}).Values <==> id in db.gc.Values && id != db.gc[g] {
      QueueWithout(db, g, id);
    }
  }

  /** As queue entries name distinct scopes, W is the sum over entries of one plus the size
      of their scope: taking an entry away takes exactly that much. */
  lemma WorkPerEntry(db: Db, g: nat)
    requires DistinctQueue(db) && g in db.gc
    ensures Work(db) == Work(db.(gc := db.gc - {g})) + 1 + |Scope(db, db.gc[g])|
  {
    MapSizeAfterRemove(db.gc, g);
    TaggedSize(db.gc[g], Scope(db, db.gc[g]).Keys);
    GarbageWithout(db, g);
  }

  lemma EraseRowCounts(db: Db, id: nat, i: nat)
    requires id in db.gc.Values && i in Scope(db, id)
    ensures var db' := SetScope(db, id, Scope(db, id) - {i});
            Work(db') == Work(db) - 1 && Rows(db') == Rows(db) - 1
  {
    var db' := SetScope(db, id, Scope(db, id) - {i});
    assert Garbage(db') == Garbage(db) - {(id, i)};
    assert (id, i) in Garbage(db);
    assert StorageRows(db') == StorageRows(db) - {(id, i)};
    assert (id, i) in StorageRows(db);
  }

  lemma DropEntryCounts(db: Db, g: nat)
    requires g in db.gc && Scope(db, db.gc[g]) == map[]
    ensures var db' := db.(gc := db.gc - {g});
            Work(db') == Work(db) - 1 && Rows(db') == Rows(db) - 1
  {
    var db' := db.(gc := db.gc - {g});
    MapSizeAfterRemove(db.gc, g);
    forall id | id in db.gc.Values && Scope(db, id) != map[] ensures id in db'.gc.Values {
      var h :| h in db.gc && db.gc[h] == id;
      assert h in db'.gc && db'.gc[h] == id;
    }
    assert Garbage(db') == Garbage(db);
    assert StorageRows(db') == StorageRows(db);
  }

  /** Every unit of budget is one deleted row. */
  lemma GcStepCounts(db: Db)
    requires db.gc != map[]
    ensures Work(GcStep(db)) == Work(db) - 1
    ensures Rows(GcStep(db)) == Rows(db) - 1
  {
    var g := FirstKey(db.gc.Keys);
    var scope := Scope(db, db.gc[g]);
    if scope != map[] {
      EraseRowCounts(db, db.gc[g], FirstKey(scope.Keys));
    } else {
      DropEntryCounts(db, g);
    }
  }

  lemma {:induction false} GcWork(db: Db, max: nat)
    ensures Work(Gc(db, max)) == Work(db) - Min(max, Work(db))
    decreases max
  {
    if max == 0 || db.gc == map[] {
      WorkIsZeroWhenEmpty(db);
    } else {
      GcStepCounts(db);
      GcWork(GcStep(db), max - 1);
    }
  }

  /** `gc(max)` deletes exactly min(max, W) rows. */
  lemma {:induction false} GcRows(db: Db, max: nat)
    ensures Rows(Gc(db, max)) == Rows(db) - Min(max, Work(db))
    decreases max
  {
    if max == 0 || db.gc == map[] {
      WorkIsZeroWhenEmpty(db);
    } else {
      GcStepCounts(db);
      GcRows(GcStep(db), max - 1);
    }
  }

  /** `gc` reports an empty queue exactly when the budget covered the work. */
  lemma GcReport(db: Db, max: nat)
    ensures Gc(db, max).gc == map[] <==> Work(db) <= max
  {
    GcWork(db, max);
    WorkIsZeroWhenEmpty(Gc(db, max));
  }

  /** No row of an account that is not queued is touched. */
  lemma {:induction false} GcSparesTheLiving(db: Db, max: nat, id: nat)
    requires !Queued(db, id)
    ensures Scope(Gc(db, max), id) == Scope(db, id)
    ensures !Queued(Gc(db, max), id)
    decreases max
  {
    if max != 0 && db.gc != map[] {
      var g := FirstKey(db.gc.Keys);
      assert db.gc[g] != id;
      assert !Queued(GcStep(db), id) by {
        forall h | h in GcStep(db).gc ensures GcStep(db).gc[h] != id {
          assert db.gc[h] != id;
        }
      }
      GcSparesTheLiving(GcStep(db), max - 1, id);
    }
  }

  /** The queue is served in order: an entry goes only after all earlier ones. */
  lemma {:induction false} GcInOrder(db: Db, max: nat, g: nat, h: nat)
    requires g in db.gc && h in db.gc && g < h && h !in Gc(db, max).gc
    ensures g !in Gc(db, max).gc
    decreases max
  {
    if max != 0 && db.gc != map[] {
      var db' := GcStep(db);
      if g in db'.gc {
        assert h in db'.gc;
        GcInOrder(db', max - 1, g, h);
      } else {
        GcAddsNothing(db', max - 1, g);
      }
    }
  }

  lemma {:induction false} GcAddsNothing(db: Db, max: nat, g: nat)
    requires g !in db.gc
    ensures g !in Gc(db, max).gc
    decreases max
  {
    if max != 0 && db.gc != map[] {
      GcAddsNothing(GcStep(db), max - 1, g);
    }
  }

  ghost function GcCalls(db: Db, max: nat, calls: nat): Db
    decreases calls
  {
    if calls == 0 then db else GcCalls(Gc(db, max), max, calls - 1)
  }

  /** Repeated calls with a positive budget finish after ceil(W / max) of them and not before. */
  lemma {:induction false} GcFinishes(db: Db, max: nat, calls: nat)
    requires max > 0
    ensures GcCalls(db, max, calls).gc == map[] <==> Work(db) <= calls * max
    decreases calls
  {
    if calls == 0 {
      WorkIsZeroWhenEmpty(db);
    } else {
      GcWork(db, max);
      GcFinishes(Gc(db, max), max, calls - 1);
      Cover(Work(db), max, calls);
    }
  }

  lemma Cover(work: nat, max: nat, calls: nat)
    requires calls > 0
    ensures work - Min(max, work) <= (calls - 1) * max <==> work <= calls * max
  {
    assert calls * max == max + (calls - 1) * max;
    assert (calls - 1) * max >= 0;
  }
}
