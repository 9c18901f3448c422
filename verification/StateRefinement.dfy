/** The tables of `evm_runtime::state` stand for a plain map from address to
    (nonce, balance, code, storage), over every run of operations. */
module StateRefinement {
  import opened Options
  import opened StateTables
  import opened StateInvariants

  datatype Code = Code(hash: Word, bytes: Bytes)
  datatype Acct = Acct(nonce: nat, balance: nat, code: Option<Code>, storage: map<Word, Word>)
  type World = map<Address, Acct>

  function Get(storage: map<Word, Word>, key: Word): Word {
    if key in storage then storage[key] else 0
  }

  function CodeOf(codes: map<nat, CodeRow>, codeId: Option<nat>): Option<Code> {
    if codeId.Some? && codeId.value in codes then Some(Code(codes[codeId.value].hash, codes[codeId.value].code))
    else None
  }

  ghost predicate SameStorage(scope: map<nat, StorageRow>, storage: map<Word, Word>) {
    forall key :: Lookup(scope, key) == Get(storage, key)
  }

  ghost predicate RowRefines(db: Db, id: nat, acct: Acct)
    requires id in db.accounts
  {
    && db.accounts[id].nonce == acct.nonce
    && db.accounts[id].balance == acct.balance
    && CodeOf(db.codes, db.accounts[id].codeId) == acct.code
    && SameStorage(Scope(db, id), acct.storage)
  }

  ghost predicate Refines(db: Db, w: World) {
    && (forall id :: id in db.accounts ==>
          db.accounts[id].address in w && RowRefines(db, id, w[db.accounts[id].address]))
    && (forall a :: a in w ==> FindAddress(db.accounts, a).Some?)
  }

  // ---- the map's own operations ----

  const BLANK := Acct(0, 0, None, map[])

  function At(w: World, a: Address): Acct {
    if a in w then w[a] else BLANK
  }

  function PutAccount(w: World, a: Address, initial: Option<Account>, current: Option<Account>): World {
    if current == initial then w
    else if current.None? then w - {a}
    else if NewIncarnation(initial, current.value) then
      w[a := Acct(current.value.nonce, current.value.balance, None, map[])]
    else w[a := At(w, a).(nonce := current.value.nonce, balance := current.value.balance)]
  }

  function PutCode(w: World, a: Address, hash: Word, code: Bytes): World {
    w[a := At(w, a).(code := Some(Code(hash, code)))]
  }

  function PutStorage(w: World, a: Address, key: Word, value: Word): World {
    if value != 0 then w[a := At(w, a).(storage := At(w, a).storage[key := value])]
    else if a in w then w[a := w[a].(storage := w[a].storage - {key})]
    else w
  }

  // ---- each primitive against the map ----

  lemma FindUnique(accounts: map<nat, AccountRow>, id: nat)
    requires UniqueAddresses(accounts) && id in accounts
    ensures FindAddress(accounts, accounts[id].address) == Some(id)
  {
  }

  /** Row by row, everything but row `id` means the same in both. */
  ghost predicate OthersSame(db: Db, db': Db, id: nat) {
    forall j :: j != id ==>
      && (j in db.accounts <==> j in db'.accounts)
      && (j in db.accounts ==>
            && db'.accounts[j] == db.accounts[j]
            && CodeOf(db'.codes, db.accounts[j].codeId) == CodeOf(db.codes, db.accounts[j].codeId)
            && Scope(db', j) == Scope(db, j))
  }

  /** A change confined to one row is a change confined to one address. */
  lemma OneRowRefines(db: Db, db': Db, w: World, a: Address, id: nat, acct: Acct)
    requires UniqueAddresses(db.accounts) && UniqueAddresses(db'.accounts) && Refines(db, w)
    requires OthersSame(db, db', id)
    requires if id in db.accounts then db.accounts[id].address == a else FindAddress(db.accounts, a).None?
    requires id in db'.accounts ==> db'.accounts[id].address == a && RowRefines(db', id, acct)
    ensures Refines(db', if id in db'.accounts then w[a := acct] else w - {a})
  {
    var w' := if id in db'.accounts then w[a := acct] else w - {a};
    forall j | j in db'.accounts
      ensures db'.accounts[j].address in w' && RowRefines(db', j, w'[db'.accounts[j].address])
    {
      if j != id {
        var b := db.accounts[j].address;
        assert b != a;
        assert RowRefines(db, j, w[b]);
      }
    }
    forall b | b in w' ensures FindAddress(db'.accounts, b).Some? {
      if b != a {
        var j := FindAddress(db.accounts, b).value;
        assert j != id;
        assert j in db'.accounts && db'.accounts[j].address == b;
      } else {
        assert id in db'.accounts && db'.accounts[id].address == b;
      }
    }
  }

  lemma EmplaceRefines(s: Session, w: World, row: AccountRow, acct: Acct)
    requires Inv(s) && Refines(s.db, w) && FindAddress(s.db.accounts, row.address).None?
    requires acct == Acct(row.nonce, row.balance, CodeOf(s.db.codes, row.codeId), map[])
    ensures Refines(Emplace(s, row).db, w[row.address := acct])
  {
    EmplaceKeepsIds(s, row);
    EmplaceStartsEmpty(s, row);
    OneRowRefines(s.db, Emplace(s, row).db, w, row.address, NextId(s), acct);
  }

  lemma RemoveRefines(s: Session, w: World, id: nat)
    requires Inv(s) && Refines(s.db, w) && id in s.db.accounts
    ensures CanRelease(s.db, id) && Refines(RemoveRow(s.db, id), w - {s.db.accounts[id].address})
  {
    RemoveKeepsInv(s, id);
    forall j | j in s.db.accounts && j != id
      ensures CodeOf(RemoveRow(s.db, id).codes, s.db.accounts[j].codeId) == CodeOf(s.db.codes, s.db.accounts[j].codeId)
    {
      ReleaseKeepsOtherCode(s.db, id, j);
    }
    var a := s.db.accounts[id].address;
    OneRowRefines(s.db, RemoveRow(s.db, id), w, a, id, BLANK);
  }

  lemma ReleaseKeepsOtherCode(db: Db, id: nat, j: nat)
    requires CodesOk(db.accounts, db.codes) && id in db.accounts && j in db.accounts && j != id
    ensures CodeOf(RemoveRow(db, id).codes, db.accounts[j].codeId) == CodeOf(db.codes, db.accounts[j].codeId)
  {
    ReleaseKeepsCodes(db.accounts, db.codes, id);
    var accounts' := db.accounts - {id};
    assert accounts'[j] == db.accounts[j];
  }

  lemma ModifyRefines(db: Db, w: World, id: nat, nonce: nat, balance: nat)
    requires UniqueAddresses(db.accounts) && Refines(db, w) && id in db.accounts
    ensures var a := db.accounts[id].address;
            a in w &&
            Refines(db.(accounts := db.accounts[id := db.accounts[id].(nonce := nonce, balance := balance)]),
                    w[a := w[a].(nonce := nonce, balance := balance)])
  {
    var a := db.accounts[id].address;
    var db' := db.(accounts := db.accounts[id := db.accounts[id].(nonce := nonce, balance := balance)]);
    assert RowRefines(db, id, w[a]);
    OneRowRefines(db, db', w, a, id, w[a].(nonce := nonce, balance := balance));
  }

  lemma UpdateAccountRefines(s: Session, w: World, a: Address, initial: Option<Account>, current: Option<Account>)
    requires Inv(s) && Refines(s.db, w)
    ensures CanUpdateAccount(s, a)
    ensures Refines(UpdateAccount(s, a, initial, current).db, PutAccount(w, a, initial, current))
  {
    UpdateAccountKeepsInv(s, a, initial, current);
    var found := FindAddress(s.db.accounts, a);
    if found.None? {
      assert a !in w && w - {a} == w;
    }
    if current == initial {
    } else if current.None? {
      if found.Some? {
        RemoveRefines(s, w, found.value);
      }
    } else if found.None? {
      EmplaceRefines(s, w, NewRow(a, current.value.nonce, current.value.balance, None),
                     Acct(current.value.nonce, current.value.balance, None, map[]));
    } else if NewIncarnation(initial, current.value) {
      ReincarnateRefines(s, w, a, found.value, current.value);
    } else {
      ModifyRefines(s.db, w, found.value, current.value.nonce, current.value.balance);
    }
  }

  lemma ReincarnateRefines(s: Session, w: World, a: Address, id: nat, c: Account)
    requires Inv(s) && Refines(s.db, w) && FindAddress(s.db.accounts, a) == Some(id) && CanRelease(s.db, id)
    ensures Refines(Emplace(s.(db := RemoveRow(s.db, id)), NewRow(a, c.nonce, c.balance, None)).db,
                    w[a := Acct(c.nonce, c.balance, None, map[])])
  {
    var acct := Acct(c.nonce, c.balance, None, map[]);
    RemoveRefines(s, w, id);
    var s1 := s.(db := RemoveRow(s.db, id));
    assert Inv(s1) && FindAddress(s1.db.accounts, a).None? by {
      RemoveKeepsInv(s, id);
    }
    EmplaceRefines(s1, w - {a}, NewRow(a, c.nonce, c.balance, None), acct);
    PutAfterDrop(w, a, acct);
  }

  lemma PutAfterDrop(w: World, a: Address, acct: Acct)
    ensures (w - {a})[a := acct] == w[a := acct]
  {
  }

  // ---- code ----

  /** The hash names this code: a stored row with the hash holds the same bytes. */
  ghost predicate HashNames(codes: map<nat, CodeRow>, hash: Word, code: Bytes) {
    forall c :: c in codes && codes[c].hash == hash ==> codes[c].code == code
  }

  lemma RetainMeaning(codes: map<nat, CodeRow>, hash: Word, code: Bytes, codeId: Option<nat>)
    requires HashNames(codes, hash, code) && (codeId.Some? ==> codeId.value in codes)
    ensures var r := RetainCode(codes, hash, code);
            CodeOf(r.0, Some(r.1)) == Some(Code(hash, code)) && CodeOf(r.0, codeId) == CodeOf(codes, codeId)
  {
  }

  lemma UpdateAccountCodeRefines(s: Session, w: World, a: Address, hash: Word, code: Bytes)
    requires Inv(s) && Refines(s.db, w) && !HasCode(s, a) && HashNames(s.db.codes, hash, code)
    ensures Refines(UpdateAccountCode(s, a, hash, code).db, PutCode(w, a, hash, code))
  {
    var db' := UpdateAccountCode(s, a, hash, code).db;
    var acct := At(w, a).(code := Some(Code(hash, code)));
    UpdateAccountCodeKeepsInv(s, a, hash, code);
    CodeChangeIsLocal(s, a, hash, code);
    if FindAddress(s.db.accounts, a).Some? {
      RecodedRow(s, a, CodedId(s, a), w[a], hash, code);
    } else {
      assert a !in w;
      EmplaceKeepsInv(s, NewRow(a, 0, 0, None));
      CodedNewRow(s, a, hash, code);
    }
    OneRowRefines(s.db, db', w, a, CodedId(s, a), acct);
  }

  /** The row `update_account_code` writes. */
  ghost function CodedId(s: Session, a: Address): nat {
    if FindAddress(s.db.accounts, a).Some? then FindAddress(s.db.accounts, a).value else NextId(s)
  }

  lemma CodesKeepMeaning(accounts: map<nat, AccountRow>, codes: map<nat, CodeRow>, hash: Word, code: Bytes)
    requires CodeIdsResolve(accounts, codes) && HashNames(codes, hash, code)
    ensures forall j :: j in accounts ==>
              CodeOf(RetainCode(codes, hash, code).0, accounts[j].codeId) == CodeOf(codes, accounts[j].codeId)
  {
    forall j | j in accounts
      ensures CodeOf(RetainCode(codes, hash, code).0, accounts[j].codeId) == CodeOf(codes, accounts[j].codeId)
    {
      RetainMeaning(codes, hash, code, accounts[j].codeId);
    }
  }

  lemma CodeChangeIsLocal(s: Session, a: Address, hash: Word, code: Bytes)
    requires CodeIdsResolve(s.db.accounts, s.db.codes) && HashNames(s.db.codes, hash, code)
    ensures OthersSame(s.db, UpdateAccountCode(s, a, hash, code).db, CodedId(s, a))
  {
    var db' := UpdateAccountCode(s, a, hash, code).db;
    CodesKeepMeaning(s.db.accounts, s.db.codes, hash, code);
    assert db'.codes == RetainCode(s.db.codes, hash, code).0 && db'.storage == s.db.storage;
  }

  lemma RecodedRow(s: Session, a: Address, id: nat, acct: Acct, hash: Word, code: Bytes)
    requires HashNames(s.db.codes, hash, code) && FindAddress(s.db.accounts, a) == Some(id) && RowRefines(s.db, id, acct)
    ensures var db' := UpdateAccountCode(s, a, hash, code).db;
            id in db'.accounts && RowRefines(db', id, acct.(code := Some(Code(hash, code))))
  {
    RetainMeaning(s.db.codes, hash, code, None);
  }

  lemma CodedNewRow(s: Session, a: Address, hash: Word, code: Bytes)
    requires HashNames(s.db.codes, hash, code) && FindAddress(s.db.accounts, a).None? && Scope(s.db, NextId(s)) == map[]
    ensures var db' := UpdateAccountCode(s, a, hash, code).db;
            NextId(s) in db'.accounts && RowRefines(db', NextId(s), BLANK.(code := Some(Code(hash, code))))
  {
    RetainMeaning(s.db.codes, hash, code, None);
  }

  // ---- storage ----

  lemma LookupAfterWrite(scope: map<nat, StorageRow>, key: Word, value: Word, k: Word)
    requires ScopeOk(scope) && value != 0
    ensures Lookup(WriteKey(scope, key, value), k) == if k == key then value else Lookup(scope, k)
  {
    var scope' := WriteKey(scope, key, value);
    WriteKeepsScope(scope, key, value);
    if k == key {
      var i := if FindKey(scope, key).Some? then FindKey(scope, key).value else AvailableKey(scope.Keys);
      assert i in scope' && scope'[i] == StorageRow(key, value);
    } else if FindKey(scope, k).Some? {
      var i := FindKey(scope, k).value;
      assert i in scope' && scope'[i] == scope[i];
    }
  }

  lemma LookupAfterErase(scope: map<nat, StorageRow>, key: Word, k: Word)
    requires ScopeOk(scope)
    ensures Lookup(EraseKey(scope, key), k) == if k == key then 0 else Lookup(scope, k)
  {
    var scope' := EraseKey(scope, key);
    if k != key && FindKey(scope, k).Some? {
      var i := FindKey(scope, k).value;
      assert i in scope' && scope'[i] == scope[i];
    }
  }

  lemma SetScopeRefines(db: Db, w: World, a: Address, id: nat, scope: map<nat, StorageRow>, storage: map<Word, Word>)
    requires UniqueAddresses(db.accounts) && Refines(db, w)
    requires id in db.accounts && db.accounts[id].address == a && a in w && SameStorage(scope, storage)
    ensures Refines(SetScope(db, id, scope), w[a := w[a].(storage := storage)])
  {
    assert RowRefines(db, id, w[a]);
    OneRowRefines(db, SetScope(db, id, scope), w, a, id, w[a].(storage := storage));
  }

  lemma UpdateStorageRefines(s: Session, w: World, a: Address, key: Word, value: Word)
    requires Inv(s) && Refines(s.db, w)
    ensures Refines(UpdateStorage(s, a, key, value).db, PutStorage(w, a, key, value))
  {
    var found := FindAddress(s.db.accounts, a);
    if value == 0 {
      if found.Some? {
        EraseRefines(s, w, a, found.value, key);
      }
    } else if found.None? {
      CreateWithStorageRefines(s, w, a, key, value);
    } else {
      WriteRefines(s, w, a, found.value, key, value);
    }
  }

  lemma CreateWithStorageRefines(s: Session, w: World, a: Address, key: Word, value: Word)
    requires Inv(s) && Refines(s.db, w) && FindAddress(s.db.accounts, a).None? && value != 0
    ensures Refines(UpdateStorage(s, a, key, value).db, PutStorage(w, a, key, value))
  {
    var row := NewRow(a, 0, 0, None);
    var s1, w1 := Emplace(s, row), w[a := BLANK];
    assert a !in w;
    EmplaceRefines(s, w, row, BLANK);
    EmplaceKeepsInv(s, row);
    assert s1.db.accounts[NextId(s)] == row;
    WriteRefines(s1, w1, a, NextId(s), key, value);
    PutTwice(w, a, BLANK, BLANK.(storage := BLANK.storage[key := value]));
  }

  lemma PutTwice(w: World, a: Address, x: Acct, y: Acct)
    ensures w[a := x][a := y] == w[a := y]
  {
  }

  lemma WriteRefines(s: Session, w: World, a: Address, id: nat, key: Word, value: Word)
    requires Inv(s) && Refines(s.db, w) && id in s.db.accounts && s.db.accounts[id].address == a && value != 0
    ensures a in w
    ensures Refines(SetScope(s.db, id, WriteKey(Scope(s.db, id), key, value)),
                    w[a := w[a].(storage := w[a].storage[key := value])])
  {
    var scope := Scope(s.db, id);
    assert RowRefines(s.db, id, w[a]);
    forall k ensures Lookup(WriteKey(scope, key, value), k) == Get(w[a].storage[key := value], k) {
      LookupAfterWrite(scope, key, value, k);
      assert Lookup(scope, k) == Get(w[a].storage, k);
    }
    SetScopeRefines(s.db, w, a, id, WriteKey(scope, key, value), w[a].storage[key := value]);
  }

  lemma EraseRefines(s: Session, w: World, a: Address, id: nat, key: Word)
    requires Inv(s) && Refines(s.db, w) && FindAddress(s.db.accounts, a) == Some(id)
    ensures Refines(UpdateStorage(s, a, key, 0).db, PutStorage(w, a, key, 0))
  {
    var scope := Scope(s.db, id);
    assert RowRefines(s.db, id, w[a]);
    var storage' := w[a].storage - {key};
    forall k ensures Lookup(EraseKey(scope, key), k) == Get(storage', k) {
      LookupAfterErase(scope, key, k);
      assert Lookup(scope, k) == Get(w[a].storage, k);
    }
    SetScopeRefines(s.db, w, a, id, EraseKey(scope, key), storage');
    if FindKey(scope, key).None? {
      ScopeUnchangedRefines(s.db, w, a, id, storage');
    }
  }

  lemma ScopeUnchangedRefines(db: Db, w: World, a: Address, id: nat, storage: map<Word, Word>)
    requires UniqueAddresses(db.accounts) && Refines(db, w)
    requires id in db.accounts && db.accounts[id].address == a && a in w && SameStorage(Scope(db, id), storage)
    ensures Refines(db, w[a := w[a].(storage := storage)])
  {
  }

  // ---- collection ----

  lemma SameRowsRefine(db: Db, db': Db, w: World)
    requires Refines(db, w) && db'.accounts == db.accounts && db'.codes == db.codes
    requires forall j :: j in db.accounts ==> Scope(db', j) == Scope(db, j)
    ensures Refines(db', w)
  {
    forall j | j in db'.accounts ensures RowRefines(db', j, w[db'.accounts[j].address]) {
      assert RowRefines(db, j, w[db.accounts[j].address]);
    }
  }

  lemma GcStepRefines(s: Session, w: World)
    requires Inv(s) && Refines(s.db, w) && s.db.gc != map[]
    ensures Refines(GcStep(s.db), w)
  {
    GcStepSparesLive(s.db);
    SameRowsRefine(s.db, GcStep(s.db), w);
  }

  lemma GcStepSparesLive(db: Db)
    requires db.gc != map[] && forall g :: g in db.gc ==> db.gc[g] !in db.accounts
    ensures GcStep(db).accounts == db.accounts && GcStep(db).codes == db.codes
    ensures forall j :: j in db.accounts ==> Scope(GcStep(db), j) == Scope(db, j)
  {
    assert db.gc[FirstKey(db.gc.Keys)] !in db.accounts;
  }

  /** Collection is invisible. */
  lemma {:induction false} GcRefines(s: Session, w: World, max: nat)
    requires Inv(s) && Refines(s.db, w)
    ensures Refines(Gc(s.db, max), w)
    decreases max
  {
    if max != 0 && s.db.gc != map[] {
      GcStepRefines(s, w);
      GcStepKeepsInv(s);
      GcRefines(s.(db := GcStep(s.db)), w, max - 1);
    }
  }
}
