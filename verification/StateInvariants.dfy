/** What every operation of src/state.cpp keeps: unique addresses, ids that are never
    handed out twice, exact code reference counts, well-formed storage scopes. */
module StateInvariants {
  import opened Options
  import opened StateTables

  ghost predicate UniqueAddresses(accounts: map<nat, AccountRow>) {
    forall i, j :: i in accounts && j in accounts && accounts[i].address == accounts[j].address ==> i == j
  }

  /** Ids in use, queued for collection, or owning storage rows all lie below the next
      id; the queue names distinct ids of dead accounts. */
  ghost predicate IdsOk(s: Session) {
    && (forall id :: id in s.db.accounts ==> id < NextId(s))
    && (forall g :: g in s.db.gc ==> s.db.gc[g] < NextId(s) && s.db.gc[g] !in s.db.accounts)
    && (forall g, h :: g in s.db.gc && h in s.db.gc && s.db.gc[g] == s.db.gc[h] ==> g == h)
    && (s.next.None? && s.db.config2.None? ==> s.db.accounts == map[] && s.db.gc == map[])
  }

  ghost predicate Queued(db: Db, id: nat) {
    exists g :: g in db.gc && db.gc[g] == id
  }

  ghost predicate ScopeOk(scope: map<nat, StorageRow>) {
    && (forall i, j :: i in scope && j in scope && scope[i].key == scope[j].key ==> i == j)
    && (forall i :: i in scope ==> scope[i].value != 0)
  }

  /** No storage row is out of reach of both its account and the collector. */
  ghost predicate StorageOk(db: Db) {
    forall id :: id in db.storage ==>
      && ScopeOk(db.storage[id])
      && (db.storage[id] != map[] ==> id in db.accounts || Queued(db, id))
  }

  ghost function Holders(accounts: map<nat, AccountRow>, c: nat): set<nat> {
    set id | id in accounts && accounts[id].codeId == Some(c)
  }

  ghost predicate CodeIdsResolve(accounts: map<nat, AccountRow>, codes: map<nat, CodeRow>) {
    forall id :: id in accounts && accounts[id].codeId.Some? ==> accounts[id].codeId.value in codes
  }

  ghost predicate CountsExact(accounts: map<nat, AccountRow>, codes: map<nat, CodeRow>) {
    forall c :: c in codes ==> codes[c].refCount == |Holders(accounts, c)| && codes[c].refCount >= 1
  }

  ghost predicate HashesUnique(codes: map<nat, CodeRow>) {
    forall c, d :: c in codes && d in codes && codes[c].hash == codes[d].hash ==> c == d
  }

  ghost predicate CodesOk(accounts: map<nat, AccountRow>, codes: map<nat, CodeRow>) {
    CodeIdsResolve(accounts, codes) && CountsExact(accounts, codes) && HashesUnique(codes)
  }

  ghost predicate Inv(s: Session) {
    && UniqueAddresses(s.db.accounts)
    && IdsOk(s)
    && StorageOk(s.db)
    && CodesOk(s.db.accounts, s.db.codes)
  }

  lemma SameTables(s: Session, s': Session)
    requires Inv(s) && s'.db == s.db && s'.next == s.next
    ensures Inv(s') && NextId(s') == NextId(s)
  {
  }

  /** A removal of a coded account never hits "code not found". */
  lemma CanAlwaysRelease(s: Session, id: nat)
    requires CodesOk(s.db.accounts, s.db.codes) && id in s.db.accounts
    ensures CanRelease(s.db, id)
  {
  }

  // ---- creating a row ----

  lemma EmplaceKeepsIds(s: Session, row: AccountRow)
    requires UniqueAddresses(s.db.accounts) && IdsOk(s) && FindAddress(s.db.accounts, row.address).None?
    ensures NextId(s) !in s.db.accounts && !Queued(s.db, NextId(s))
    ensures UniqueAddresses(Emplace(s, row).db.accounts) && IdsOk(Emplace(s, row))
  {
  }

  /** A new account starts with an empty scope, whatever garbage is still queued. */
  lemma EmplaceStartsEmpty(s: Session, row: AccountRow)
    requires UniqueAddresses(s.db.accounts) && IdsOk(s) && StorageOk(s.db)
    requires FindAddress(s.db.accounts, row.address).None?
    ensures Scope(Emplace(s, row).db, NextId(s)) == map[]
    ensures StorageOk(Emplace(s, row).db)
  {
    EmplaceKeepsIds(s, row);
    var db' := Emplace(s, row).db;
    forall id | id in db'.storage && db'.storage[id] != map[]
      ensures id in db'.accounts || Queued(db', id)
    {
      if Queued(s.db, id) {
        var g :| g in s.db.gc && s.db.gc[g] == id;
        assert g in db'.gc && db'.gc[g] == id;
      }
    }
  }

  lemma EmplaceKeepsCodes(s: Session, row: AccountRow)
    requires CodesOk(s.db.accounts, s.db.codes) && row.codeId.None? && NextId(s) !in s.db.accounts
    ensures CodesOk(Emplace(s, row).db.accounts, s.db.codes)
  {
    var accounts' := Emplace(s, row).db.accounts;
    forall c ensures Holders(accounts', c) == Holders(s.db.accounts, c) {
    }
  }

  lemma EmplaceKeepsInv(s: Session, row: AccountRow)
    requires Inv(s) && row.codeId.None? && FindAddress(s.db.accounts, row.address).None?
    ensures Inv(Emplace(s, row))
    ensures NextId(s) !in s.db.accounts && Scope(s.db, NextId(s)) == map[]
  {
    EmplaceKeepsIds(s, row);
    EmplaceStartsEmpty(s, row);
    EmplaceKeepsCodes(s, row);
  }

  // ---- removing a row ----

  lemma HoldersAfterRemove(accounts: map<nat, AccountRow>, id: nat, c: nat)
    ensures Holders(accounts - {id}, c) == Holders(accounts, c) - {id}
  {
  }

  lemma ReleaseKeepsCounts(accounts: map<nat, AccountRow>, codes: map<nat, CodeRow>, id: nat)
    requires CodeIdsResolve(accounts, codes) && CountsExact(accounts, codes) && id in accounts
    ensures CountsExact(accounts - {id}, ReleaseCode(codes, accounts[id].codeId))
  {
    var codes' := ReleaseCode(codes, accounts[id].codeId);
    forall c | c in codes'
      ensures codes'[c].refCount == |Holders(accounts - {id}, c)| && codes'[c].refCount >= 1
    {
      HoldersAfterRemove(accounts, id, c);
      assert id in Holders(accounts, c) <==> accounts[id].codeId == Some(c);
    }
  }

  /** A code another account holds is not erased. */
  lemma ReleaseSparesOthers(accounts: map<nat, AccountRow>, codes: map<nat, CodeRow>, id: nat, j: nat)
    requires CodeIdsResolve(accounts, codes) && CountsExact(accounts, codes)
    requires id in accounts && j in accounts && j != id && accounts[j].codeId.Some?
    ensures accounts[j].codeId.value in ReleaseCode(codes, accounts[id].codeId)
  {
    var k := accounts[j].codeId.value;
    if accounts[id].codeId == Some(k) {
      assert {id, j} <= Holders(accounts, k);
      CardinalityMonotone({id, j}, Holders(accounts, k));
    }
  }

  lemma ReleaseKeepsHashes(codes: map<nat, CodeRow>, codeId: Option<nat>)
    requires HashesUnique(codes) && (codeId.Some? ==> codeId.value in codes && codes[codeId.value].refCount >= 1)
    ensures HashesUnique(ReleaseCode(codes, codeId))
  {
  }

  lemma ReleaseKeepsCodes(accounts: map<nat, AccountRow>, codes: map<nat, CodeRow>, id: nat)
    requires CodesOk(accounts, codes) && id in accounts
    ensures CodesOk(accounts - {id}, ReleaseCode(codes, accounts[id].codeId))
  {
    ReleaseKeepsCounts(accounts, codes, id);
    ReleaseKeepsHashes(codes, accounts[id].codeId);
    forall j | j in accounts - {id} && accounts[j].codeId.Some?
      ensures accounts[j].codeId.value in ReleaseCode(codes, accounts[id].codeId)
    {
      ReleaseSparesOthers(accounts, codes, id, j);
    }
  }

  lemma CardinalityMonotone<T>(a: set<T>, b: set<T>)
    requires a <= b
    ensures |a| <= |b|
  {
    assert b == a + (b - a);
  }

  lemma RemoveKeepsIds(s: Session, id: nat)
    requires UniqueAddresses(s.db.accounts) && IdsOk(s) && CanRelease(s.db, id)
    ensures UniqueAddresses(RemoveRow(s.db, id).accounts) && IdsOk(s.(db := RemoveRow(s.db, id)))
    ensures NextId(s.(db := RemoveRow(s.db, id))) == NextId(s)
  {
  }

  lemma RemoveKeepsStorage(db: Db, id: nat)
    requires StorageOk(db) && CanRelease(db, id)
    ensures StorageOk(RemoveRow(db, id))
  {
    var db' := RemoveRow(db, id);
    var k := AvailableKey(db.gc.Keys);
    assert db'.gc[k] == id;
    forall i | i in db'.storage && db'.storage[i] != map[]
      ensures i in db'.accounts || Queued(db', i)
    {
      if Queued(db, i) {
        var g :| g in db.gc && db.gc[g] == i;
        assert g in db'.gc && db'.gc[g] == i;
      }
    }
  }

  lemma RemoveKeepsInv(s: Session, id: nat)
    requires Inv(s) && id in s.db.accounts
    ensures CanRelease(s.db, id) && Inv(s.(db := RemoveRow(s.db, id)))
    ensures FindAddress(RemoveRow(s.db, id).accounts, s.db.accounts[id].address).None?
  {
    CanAlwaysRelease(s, id);
    RemoveKeepsIds(s, id);
    RemoveKeepsStorage(s.db, id);
    ReleaseKeepsCodes(s.db.accounts, s.db.codes, id);
  }

  // ---- update_account ----

  lemma UpdateAccountKeepsInv(s: Session, a: Address, initial: Option<Account>, current: Option<Account>)
    requires Inv(s)
    ensures CanUpdateAccount(s, a) && Inv(UpdateAccount(s, a, initial, current))
  {
    var found := FindAddress(s.db.accounts, a);
    if found.Some? {
      RemoveKeepsInv(s, found.value);
    }
    if current != initial && current.Some? {
      var c := current.value;
      var row := NewRow(a, c.nonce, c.balance, None);
      if found.None? {
        EmplaceKeepsInv(s, row);
      } else if NewIncarnation(initial, c) {
        EmplaceKeepsInv(s.(db := RemoveRow(s.db, found.value)), row);
      } else {
        ModifyKeepsInv(s, found.value, c.nonce, c.balance);
      }
    }
  }

  lemma ModifyKeepsInv(s: Session, id: nat, nonce: nat, balance: nat)
    requires Inv(s) && id in s.db.accounts
    ensures Inv(s.(db := s.db.(accounts := s.db.accounts[id := s.db.accounts[id].(nonce := nonce, balance := balance)])))
  {
    var accounts' := s.db.accounts[id := s.db.accounts[id].(nonce := nonce, balance := balance)];
    assert accounts'.Keys == s.db.accounts.Keys;
    forall c ensures Holders(accounts', c) == Holders(s.db.accounts, c) {
    }
    var s' := s.(db := s.db.(accounts := accounts'));
    StorageFrame(s.db, s'.db);
  }

  /** `StorageOk` only depends on the storage, the live ids and the queue. */
  lemma StorageFrame(db: Db, db': Db)
    requires StorageOk(db)
    requires db'.storage == db.storage && db'.gc == db.gc && db.accounts.Keys <= db'.accounts.Keys
    ensures StorageOk(db')
  {
    forall id | id in db'.storage && db'.storage[id] != map[]
      ensures id in db'.accounts || Queued(db', id)
    {
      if Queued(db, id) {
        var g :| g in db.gc && db.gc[g] == id;
        assert g in db'.gc && db'.gc[g] == id;
      }
    }
  }

  // ---- update_account_code ----

  ghost predicate HasCode(s: Session, a: Address) {
    var id := FindAddress(s.db.accounts, a);
    id.Some? && s.db.accounts[id.value].codeId.Some?
  }

  /** Writing `codeId` of a row that had none: the reference counts stay exact. */
  lemma RetainKeepsCounts(accounts: map<nat, AccountRow>, codes: map<nat, CodeRow>, id: nat, row: AccountRow,
                          hash: Word, code: Bytes)
    requires CodeIdsResolve(accounts, codes) && CountsExact(accounts, codes)
    requires id in accounts ==> accounts[id].codeId.None?
    requires row.codeId == Some(RetainCode(codes, hash, code).1)
    ensures CountsExact(accounts[id := row], RetainCode(codes, hash, code).0)
  {
    var (codes', k) := RetainCode(codes, hash, code);
    forall c | c in codes'
      ensures codes'[c].refCount == |Holders(accounts[id := row], c)| && codes'[c].refCount >= 1
    {
      HoldersAfterRetain(accounts, id, row, c);
      if c == k {
        assert id !in Holders(accounts, k);
        if FindHash(codes, hash).None? {
          assert Holders(accounts, k) == {};
        }
      }
    }
  }

  lemma RetainKeepsCodes(accounts: map<nat, AccountRow>, codes: map<nat, CodeRow>, id: nat, row: AccountRow,
                         hash: Word, code: Bytes)
    requires CodesOk(accounts, codes)
    requires id in accounts ==> accounts[id].codeId.None?
    requires row.codeId == Some(RetainCode(codes, hash, code).1)
    ensures CodesOk(accounts[id := row], RetainCode(codes, hash, code).0)
  {
    RetainKeepsCounts(accounts, codes, id, row, hash, code);
    RetainKeepsHashes(codes, hash, code);
  }

  lemma RetainKeepsHashes(codes: map<nat, CodeRow>, hash: Word, code: Bytes)
    requires HashesUnique(codes)
    ensures HashesUnique(RetainCode(codes, hash, code).0)
    ensures codes.Keys + {RetainCode(codes, hash, code).1} == RetainCode(codes, hash, code).0.Keys
  {
  }

  lemma HoldersAfterRetain(accounts: map<nat, AccountRow>, id: nat, row: AccountRow, c: nat)
    requires id in accounts ==> accounts[id].codeId.None?
    ensures Holders(accounts[id := row], c) ==
            if row.codeId == Some(c) then Holders(accounts, c) + {id} else Holders(accounts, c)
  {
  }

  lemma UpdateAccountCodeKeepsInv(s: Session, a: Address, hash: Word, code: Bytes)
    requires Inv(s) && !HasCode(s, a)
    ensures Inv(UpdateAccountCode(s, a, hash, code))
  {
    match FindAddress(s.db.accounts, a) {
      case Some(id) => RecodeKeepsInv(s, a, id, hash, code);
      case None => CreateWithCodeKeepsInv(s, a, hash, code);
    }
  }

  lemma RecodeKeepsInv(s: Session, a: Address, id: nat, hash: Word, code: Bytes)
    requires Inv(s) && FindAddress(s.db.accounts, a) == Some(id) && s.db.accounts[id].codeId.None?
    ensures Inv(UpdateAccountCode(s, a, hash, code))
  {
    var row := s.db.accounts[id].(codeId := Some(RetainCode(s.db.codes, hash, code).1));
    RetainKeepsCodes(s.db.accounts, s.db.codes, id, row, hash, code);
    var s' := UpdateAccountCode(s, a, hash, code);
    assert s'.db.accounts.Keys == s.db.accounts.Keys;
    StorageFrame(s.db, s'.db);
  }

  lemma CreateWithCodeKeepsInv(s: Session, a: Address, hash: Word, code: Bytes)
    requires Inv(s) && FindAddress(s.db.accounts, a).None?
    ensures Inv(UpdateAccountCode(s, a, hash, code))
  {
    var (codes', k) := RetainCode(s.db.codes, hash, code);
    var s1 := s.(db := s.db.(codes := codes'));
    var row := NewRow(a, 0, 0, Some(k));
    assert NextId(s1) == NextId(s) && IdsOk(s1);
    StorageFrame(s.db, s1.db);
    EmplaceKeepsIds(s1, row);
    EmplaceStartsEmpty(s1, row);
    RetainKeepsCodes(s.db.accounts, s.db.codes, NextId(s), row, hash, code);
  }

  /** Deploying over code the account already holds leaks a reference: the counts
      survive exactly when the account had no code. */
  lemma RedeployLeaksReference(s: Session, a: Address, hash: Word, code: Bytes)
    requires Inv(s)
    ensures CodesOk(UpdateAccountCode(s, a, hash, code).db.accounts, UpdateAccountCode(s, a, hash, code).db.codes)
            <==> !HasCode(s, a)
  {
    if !HasCode(s, a) {
      UpdateAccountCodeKeepsInv(s, a, hash, code);
    } else {
      var id := FindAddress(s.db.accounts, a).value;
      var held := s.db.accounts[id].codeId.value;
      var (codes', k) := RetainCode(s.db.codes, hash, code);
      var accounts' := s.db.accounts[id := s.db.accounts[id].(codeId := Some(k))];
      assert UpdateAccountCode(s, a, hash, code).db.accounts == accounts';
      assert id in Holders(s.db.accounts, held);
      if held == k {
        assert Holders(accounts', k) == Holders(s.db.accounts, k);
      } else {
        assert Holders(accounts', held) == Holders(s.db.accounts, held) - {id};
        assert codes'[held] == s.db.codes[held];
      }
    }
  }

  /** Code set twice on one account: the first code keeps a reference nobody holds. */
  lemma RedeployWitness(first: Bytes, second: Bytes)
    ensures var s := UpdateAccountCode(Open(FRESH_DB), 1, 7, first);
            && Inv(s) && HasCode(s, 1)
            && !CodesOk(UpdateAccountCode(s, 1, 8, second).db.accounts, UpdateAccountCode(s, 1, 8, second).db.codes)
  {
    var s := UpdateAccountCode(Open(FRESH_DB), 1, 7, first);
    UpdateAccountCodeKeepsInv(Open(FRESH_DB), 1, 7, first);
    assert s.db.accounts[NextId(Open(FRESH_DB))].address == 1;
    RedeployLeaksReference(s, 1, 8, second);
  }

  // ---- update_storage ----

  lemma WriteKeepsScope(scope: map<nat, StorageRow>, key: Word, value: Word)
    requires ScopeOk(scope)
    ensures value != 0 ==> ScopeOk(WriteKey(scope, key, value))
    ensures ScopeOk(EraseKey(scope, key))
  {
  }

  lemma SetScopeKeepsInv(s: Session, id: nat, scope: map<nat, StorageRow>)
    requires Inv(s) && id in s.db.accounts && ScopeOk(scope)
    ensures Inv(s.(db := SetScope(s.db, id, scope)))
  {
    var db' := SetScope(s.db, id, scope);
    forall i | i in db'.storage && db'.storage[i] != map[]
      ensures i in db'.accounts || Queued(db', i)
    {
      if i != id && Queued(s.db, i) {
        var g :| g in s.db.gc && s.db.gc[g] == i;
        assert g in db'.gc && db'.gc[g] == i;
      }
    }
  }

  lemma UpdateStorageKeepsInv(s: Session, a: Address, key: Word, value: Word)
    requires Inv(s)
    ensures Inv(UpdateStorage(s, a, key, value))
  {
    var found := FindAddress(s.db.accounts, a);
    if value == 0 {
      if found.Some? {
        WriteKeepsScope(Scope(s.db, found.value), key, value);
        SetScopeKeepsInv(s, found.value, EraseKey(Scope(s.db, found.value), key));
      }
    } else {
      var s' := if found.None? then Emplace(s, NewRow(a, 0, 0, None)) else s;
      var id := if found.None? then NextId(s) else found.value;
      if found.None? {
        EmplaceKeepsInv(s, NewRow(a, 0, 0, None));
      }
      WriteKeepsScope(Scope(s'.db, id), key, value);
      SetScopeKeepsInv(s', id, WriteKey(Scope(s'.db, id), key, value));
    }
  }

  // ---- collection and closing ----

  lemma GcStepKeepsStorage(db: Db)
    requires StorageOk(db) && db.gc != map[]
    ensures StorageOk(GcStep(db))
  {
    var g := FirstKey(db.gc.Keys);
    var scope := Scope(db, db.gc[g]);
    var db' := GcStep(db);
    if scope != map[] {
      var rest := scope - {FirstKey(scope.Keys)};
      assert ScopeOk(rest);
      forall i | i in db'.storage && db'.storage[i] != map[]
        ensures i in db'.accounts || Queued(db', i)
      {
        QueuedFrame(db, db', i);
      }
    } else {
      forall i | i in db'.storage && db'.storage[i] != map[]
        ensures i in db'.accounts || Queued(db', i)
      {
        if i !in db.accounts {
          var h :| h in db.gc && db.gc[h] == i;
          assert h in db'.gc && db'.gc[h] == i;
        }
      }
    }
  }

  lemma QueuedFrame(db: Db, db': Db, id: nat)
    requires db'.gc == db.gc
    ensures Queued(db, id) <==> Queued(db', id)
  {
    if Queued(db, id) {
      var g :| g in db.gc && db.gc[g] == id;
      assert g in db'.gc && db'.gc[g] == id;
    }
    if Queued(db', id) {
      var g :| g in db'.gc && db'.gc[g] == id;
      assert g in db.gc && db.gc[g] == id;
    }
  }

  lemma GcStepKeepsInv(s: Session)
    requires Inv(s) && s.db.gc != map[]
    ensures Inv(s.(db := GcStep(s.db)))
    ensures NextId(s.(db := GcStep(s.db))) == NextId(s)
  {
    GcStepKeepsStorage(s.db);
  }

  lemma {:induction false} GcKeepsInv(s: Session, max: nat)
    requires Inv(s)
    ensures Inv(s.(db := Gc(s.db, max)))
    decreases max
  {
    if max != 0 && s.db.gc != map[] {
      GcStepKeepsInv(s);
      GcKeepsInv(s.(db := GcStep(s.db)), max - 1);
    }
  }

  /** Ending a session and opening the next one continues the same id sequence. */
  lemma ReopenKeepsInv(s: Session)
    requires Inv(s)
    ensures Inv(Open(Close(s))) && NextId(Open(Close(s))) == NextId(s)
  {
    StorageFrame(s.db, Close(s));
  }
}
