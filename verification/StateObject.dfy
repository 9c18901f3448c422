/** `evm_runtime::state` as it is written: an object that edits its tables in place. Each
    method is the corresponding function of StateTables on the object's view. */
module StateObject {
  import opened Options
  import opened StateTables
  import opened StateInvariants

  method AvailablePrimaryKey(keys: set<nat>) returns (k: nat)
    ensures k == AvailableKey(keys)
  {
    k := 0;
    var rest := keys;
    while rest != {}
      invariant rest <= keys
      invariant forall x :: x in keys && x !in rest ==> x < k
      invariant k > 0 ==> k - 1 in keys
      invariant rest != keys ==> k > 0
      decreases rest
    {
      var x :| x in rest;
      if x >= k {
        k := x + 1;
      }
      rest := rest - {x};
    }
    if keys != {} {
      assert IsMax(keys, k - 1);
    }
  }

  method Begin(keys: set<nat>) returns (k: nat)
    requires keys != {}
    ensures k == FirstKey(keys)
  {
    k :| k in keys;
    var rest := keys - {k};
    while rest != {}
      invariant rest <= keys && k in keys
      invariant forall x :: x in keys && x !in rest ==> k <= x
      decreases rest
    {
      var x :| x in rest;
      if x < k {
        k := x;
      }
      rest := rest - {x};
    }
    assert IsMin(keys, k);
  }

  method ByAddress(accounts: map<nat, AccountRow>, a: Address) returns (r: Option<nat>)
    requires UniqueAddresses(accounts)
    ensures r == FindAddress(accounts, a)
  {
    if id :| id in accounts && accounts[id].address == a {
      r := Some(id);
    } else {
      r := None;
    }
  }

  method ByCodeHash(codes: map<nat, CodeRow>, hash: Word) returns (r: Option<nat>)
    requires HashesUnique(codes)
    ensures r == FindHash(codes, hash)
  {
    if c :| c in codes && codes[c].hash == hash {
      r := Some(c);
    } else {
      r := None;
    }
  }

  method ByKey(scope: map<nat, StorageRow>, key: Word) returns (r: Option<nat>)
    requires ScopeOk(scope)
    ensures r == FindKey(scope, key)
  {
    if i :| i in scope && scope[i].key == key {
      r := Some(i);
    } else {
      r := None;
    }
  }

  /** Spending one unit of budget on a row of the first queued scope, or on its empty entry. */
  lemma SpendOnRow(db: Db, i: nat, k: nat, budget: nat)
    requires db.gc != map[] && i == FirstKey(db.gc.Keys) && Scope(db, db.gc[i]) != map[] && budget > 0
    requires k == FirstKey(Scope(db, db.gc[i]).Keys)
    ensures StateTables.Gc(db, budget) == StateTables.Gc(SetScope(db, db.gc[i], Scope(db, db.gc[i]) - {k}), budget - 1)
  {
  }

  lemma SpendOnEntry(db: Db, i: nat, budget: nat)
    requires db.gc != map[] && i == FirstKey(db.gc.Keys) && Scope(db, db.gc[i]) == map[] && budget > 0
    ensures StateTables.Gc(db, budget) == StateTables.Gc(db.(gc := db.gc - {i}), budget - 1)
  {
  }

  class State {
    const readOnly: bool
    const allowFrozen: bool
    var accounts: map<nat, AccountRow>
    var codes: map<nat, CodeRow>
    var storage: map<nat, map<nat, StorageRow>>
    var gcstore: map<nat, nat>
    var config2: Option<nat>
    var nextAccountId: Option<nat>
    var addr2id: map<Address, nat>
    var addr2code: map<Word, Bytes>

    ghost function View(): Session
      reads this
    {
      Session(Db(accounts, codes, storage, gcstore, config2), nextAccountId, addr2id, addr2code)
    }

    ghost predicate Valid()
      reads this
    {
      Inv(View())
    }

    constructor (db: Db, readOnly: bool, allowFrozen: bool)
      requires Inv(Open(db))
      ensures Valid() && View() == Open(db)
      ensures this.readOnly == readOnly && this.allowFrozen == allowFrozen
    {
      this.readOnly, this.allowFrozen := readOnly, allowFrozen;
      accounts, codes, storage, gcstore, config2 := db.accounts, db.codes, db.storage, db.gc, db.config2;
      nextAccountId, addr2id, addr2code := None, map[], map[];
    }

    /** The destructor. */
    method Destroy()
      requires Valid()
      modifies this`config2
      ensures View().db == Close(old(View()))
      ensures Inv(Open(View().db))
    {
      ReopenKeepsInv(View());
      if nextAccountId.Some? {
        config2 := nextAccountId;
      }
    }

    method GetNextAccountId() returns (id: nat)
      modifies this`nextAccountId
      ensures id == NextId(old(View()))
      ensures View() == old(View()).(next := Some(id + 1))
    {
      if nextAccountId.None? {
        if config2.Some? {
          nextAccountId := config2;
        } else {
          var k := AvailablePrimaryKey(accounts.Keys);
          nextAccountId := Some(k);
        }
      }
      id := nextAccountId.value;
      nextAccountId := Some(nextAccountId.value + 1);
    }

    method EmplaceAccount(row: AccountRow) returns (id: nat)
      modifies this`accounts, this`nextAccountId
      ensures id == NextId(old(View()))
      ensures View() == Emplace(old(View()), row)
    {
      id := GetNextAccountId();
      accounts := accounts[id := row];
    }

    method RemoveAccount(id: nat)
      requires CanRelease(View().db, id)
      modifies this`accounts, this`codes, this`gcstore
      ensures View() == old(View()).(db := RemoveRow(old(View()).db, id))
    {
      var g := AvailablePrimaryKey(gcstore.Keys);
      gcstore := gcstore[g := id];
      var row := accounts[id];
      if row.codeId.Some? {
        var c := row.codeId.value;
        if codes[c].refCount - 1 != 0 {
          codes := codes[c := codes[c].(refCount := codes[c].refCount - 1)];
        } else {
          codes := codes - {c};
        }
      }
      accounts := accounts - {id};
    }

    /** The `rmaccount` action on these tables. */
    method RmAccount(id: nat) returns (ok: bool)
      requires Valid()
      modifies this`accounts, this`codes, this`gcstore
      ensures ok <==> id in old(accounts)
      ensures !ok ==> View() == old(View())
      ensures ok ==> CanRelease(old(View()).db, id) && View() == old(View()).(db := RemoveRow(old(View()).db, id))
      ensures Valid()
    {
      if id !in accounts {
        return false;
      }
      RemoveKeepsInv(View(), id);
      RemoveAccount(id);
      return true;
    }

    method UpdateAccount(a: Address, initial: Option<Account>, current: Option<Account>) returns (ok: bool)
      requires Valid()
      modifies this
      ensures ok <==> !readOnly
      ensures !ok ==> View() == old(View())
      ensures ok ==> CanUpdateAccount(old(View()), a) && View() == StateTables.UpdateAccount(old(View()), a, initial, current)
      ensures Valid()
    {
      if readOnly {
        return false;
      }
      UpdateAccountKeepsInv(View(), a, initial, current);
      if current == initial {
        return true;
      }
      var found := ByAddress(accounts, a);
      if current.Some? {
        if found.None? {
          var _ := EmplaceAccount(NewRow(a, current.value.nonce, current.value.balance, None));
        } else if initial.Some? && initial.value.incarnation != current.value.incarnation {
          RemoveAccount(found.value);
          var _ := EmplaceAccount(NewRow(a, current.value.nonce, current.value.balance, None));
        } else {
          var row := accounts[found.value];
          accounts := accounts[found.value := row.(nonce := current.value.nonce, balance := current.value.balance)];
        }
      } else if found.Some? {
        RemoveAccount(found.value);
      }
      return true;
    }

    /** Returns whether all garbage is gone. */
    method Gc(max: nat) returns (done: bool)
      requires Valid()
      modifies this`storage, this`gcstore
      ensures View() == old(View()).(db := StateTables.Gc(old(View()).db, max))
      ensures done <==> gcstore == map[]
      ensures Valid()
    {
      GcScopes(max);
      done := gcstore == map[];
      GcKeepsInv(old(View()), max);
    }

    /** The outer loop: empty the queued scopes one by one, then drop their entries. */
    method GcScopes(max: nat)
      modifies this`storage, this`gcstore
      ensures View() == old(View()).(db := StateTables.Gc(old(View()).db, max))
    {
      var budget := max;
      while budget > 0 && gcstore != map[]
        invariant 0 <= budget <= max
        invariant View() == old(View()).(db := View().db)
        invariant StateTables.Gc(View().db, budget) == StateTables.Gc(old(View()).db, max)
      {
        var i := Begin(gcstore.Keys);
        budget := GcScope(i, budget);
        if budget == 0 {
          break;
        }
        SpendOnEntry(View().db, i, budget);
        gcstore := gcstore - {i};
        budget := budget - 1;
      }
    }

    /** The inner loop: erase rows of the first queued scope while budget lasts. */
    method GcScope(i: nat, max: nat) returns (budget: nat)
      requires gcstore != map[] && i == FirstKey(gcstore.Keys)
      modifies this`storage
      ensures View() == old(View()).(db := View().db) && budget <= max
      ensures StateTables.Gc(View().db, budget) == StateTables.Gc(old(View()).db, max)
      ensures budget == 0 || Scope(View().db, gcstore[i]) == map[]
    {
      var id := gcstore[i];
      budget := max;
      while budget > 0 && id in storage && storage[id] != map[]
        invariant 0 <= budget <= max
        invariant View() == old(View()).(db := View().db)
        invariant StateTables.Gc(View().db, budget) == StateTables.Gc(old(View()).db, max)
        decreases budget
      {
        var k := Begin(storage[id].Keys);
        SpendOnRow(View().db, i, k, budget);
        storage := storage[id := storage[id] - {k}];
        budget := budget - 1;
      }
    }

    /** One more reference to the code with this hash; its row's id. */
    method RetainCode(hash: Word, code: Bytes) returns (codeId: nat)
      requires HashesUnique(codes)
      modifies this`codes
      ensures (codes, codeId) == StateTables.RetainCode(old(codes), hash, code)
    {
      var itrc := ByCodeHash(codes, hash);
      if itrc.None? {
        codeId := AvailablePrimaryKey(codes.Keys);
        codes := codes[codeId := CodeRow(1, code, hash)];
      } else {
        codeId := itrc.value;
        codes := codes[codeId := codes[codeId].(refCount := codes[codeId].refCount + 1)];
      }
    }

    /** The object stays valid exactly if the account had no code (or nothing was written). */
    method UpdateAccountCode(a: Address, hash: Word, code: Bytes) returns (ok: bool)
      requires Valid()
      modifies this
      ensures ok <==> !readOnly
      ensures !ok ==> View() == old(View())
      ensures ok ==> View() == StateTables.UpdateAccountCode(old(View()), a, hash, code)
      ensures Valid() <==> !ok || !HasCode(old(View()), a)
    {
      if readOnly {
        return false;
      }
      RedeployLeaksReference(View(), a, hash, code);
      if !HasCode(View(), a) {
        UpdateAccountCodeKeepsInv(View(), a, hash, code);
      }
      var codeId := RetainCode(hash, code);
      var found := ByAddress(accounts, a);
      if found.Some? {
        accounts := accounts[found.value := accounts[found.value].(codeId := Some(codeId))];
      } else {
        var _ := EmplaceAccount(NewRow(a, 0, 0, Some(codeId)));
      }
      return true;
    }

    method UpdateStorage(a: Address, key: Word, value: Word) returns (ok: bool)
      requires Valid()
      modifies this
      ensures ok <==> !readOnly
      ensures !ok ==> View() == old(View())
      ensures ok ==> View() == StateTables.UpdateStorage(old(View()), a, key, value)
      ensures Valid()
    {
      if readOnly {
        return false;
      }
      UpdateStorageKeepsInv(View(), a, key, value);
      var found := ByAddress(accounts, a);
      if value == 0 {
        if found.None? {
          return true;
        }
        var scope := if found.value in storage then storage[found.value] else map[];
        var row := ByKey(scope, key);
        if row.None? {
          return true;
        }
        storage := storage[found.value := scope - {row.value}];
      } else {
        var id;
        if found.None? {
          EmplaceKeepsInv(View(), NewRow(a, 0, 0, None));
          id := EmplaceAccount(NewRow(a, 0, 0, None));
        } else {
          id := found.value;
        }
        var scope := if id in storage then storage[id] else map[];
        var row := ByKey(scope, key);
        if row.None? {
          var k := AvailablePrimaryKey(scope.Keys);
          storage := storage[id := scope[k := StorageRow(key, value)]];
        } else {
          storage := storage[id := scope[row.value := scope[row.value].(value := value)]];
        }
      }
      return true;
    }

    /** `ok` is false when the account is frozen and this object may not see it. */
    method ReadAccount(a: Address) returns (ok: bool, r: Option<Account>)
      requires Valid()
      modifies this`addr2id, this`addr2code
      ensures ok <==> StateTables.ReadAccount(old(View()), a, allowFrozen).Some?
      ensures ok ==> Some((View(), r)) == StateTables.ReadAccount(old(View()), a, allowFrozen)
      ensures Valid()
    {
      ok, r := true, None;
      var found := ByAddress(accounts, a);
      if found.None? {
        return;
      }
      var row := accounts[found.value];
      if !allowFrozen && row.frozen {
        return false, None;
      }
      addr2id := addr2id[a := found.value];
      var codeHash := KECCAK_EMPTY;
      if row.codeId.Some? && row.codeId.value in codes {
        codeHash := codes[row.codeId.value].hash;
        addr2code := addr2code[codeHash := codes[row.codeId.value].code];
      }
      r := Some(Account(row.nonce, row.balance, codeHash, 0));
      SameTables(old(View()), View());
    }

    method ReadCode(hash: Word) returns (code: Bytes)
      requires Valid()
      modifies this`addr2code
      ensures (View(), code) == StateTables.ReadCode(old(View()), hash)
      ensures Valid()
    {
      if hash in addr2code {
        return addr2code[hash];
      }
      var itr := ByCodeHash(codes, hash);
      if itr.None? || codes[itr.value].code == [] {
        return [];
      }
      addr2code := addr2code[hash := codes[itr.value].code];
      return addr2code[hash];
    }

    method ReadStorage(a: Address, key: Word) returns (value: Word)
      requires Valid()
      modifies this`addr2id
      ensures (View(), value) == StateTables.ReadStorage(old(View()), a, key)
      ensures Valid()
    {
      if a !in addr2id {
        var found := ByAddress(accounts, a);
        if found.None? {
          return 0;
        }
        addr2id := addr2id[a := found.value];
      }
      var id := addr2id[a];
      var scope := if id in storage then storage[id] else map[];
      assert scope == Scope(View().db, id);
      var row := ByKey(scope, key);
      if row.None? {
        return 0;
      }
      return scope[row.value].value;
    }
  }
}
