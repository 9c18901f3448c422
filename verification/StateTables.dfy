/** The rows behind `evm_runtime::state` (include/evm_runtime/tables.hpp) and every
    operation of src/state.cpp as a function on them. */
module StateTables {
  import opened Options

  type Address = nat
  type Word = nat // a 32-byte word read as a number; 0 is the zero word

  datatype AccountRow = AccountRow(address: Address, nonce: nat, balance: nat, codeId: Option<nat>, frozen: bool)
  datatype CodeRow = CodeRow(refCount: nat, code: Bytes, hash: Word)
  datatype StorageRow = StorageRow(key: Word, value: Word)

  /** `silkworm::Account` as the EVM passes it in. */
  datatype Account = Account(nonce: nat, balance: nat, codeHash: Word, incarnation: nat)

  /** Tables are keyed by primary key; `storage` by scope and then primary key. */
  datatype Db = Db(
    accounts: map<nat, AccountRow>,
    codes: map<nat, CodeRow>,
    storage: map<nat, map<nat, StorageRow>>,
    gc: map<nat, nat>,
    config2: Option<nat>)

  /** One `state` object over the tables: its copy of `config2` and its two caches. */
  datatype Session = Session(
    db: Db,
    next: Option<nat>,
    addr2id: map<Address, nat>,
    addr2code: map<Word, Bytes>)

  const FRESH_DB := Db(map[], map[], map[], map[], None)

  function Open(db: Db): Session {
    Session(db, None, map[], map[])
  }

  // ---- primary keys ----

  ghost predicate IsMax(s: set<nat>, m: nat) {
    m in s && forall x :: x in s ==> x <= m
  }

  ghost predicate IsMin(s: set<nat>, m: nat) {
    m in s && forall x :: x in s ==> m <= x
  }

  lemma {:induction false} MaxExists(s: set<nat>)
    requires s != {}
    ensures exists m :: IsMax(s, m)
  {
    var x :| x in s;
    if s == {x} {
      assert IsMax(s, x);
    } else {
      MaxExists(s - {x});
      var m :| IsMax(s - {x}, m);
      assert s == (s - {x}) + {x};
      assert IsMax(s, if x > m then x else m);
    }
  }

  lemma {:induction false} MinExists(s: set<nat>)
    requires s != {}
    ensures exists m :: IsMin(s, m)
  {
    var x :| x in s;
    if s == {x} {
      assert IsMin(s, x);
    } else {
      MinExists(s - {x});
      var m :| IsMin(s - {x}, m);
      assert s == (s - {x}) + {x};
      assert IsMin(s, if x < m then x else m);
    }
  }

  /** `multi_index::available_primary_key`: one past the largest key in use. */
  ghost function AvailableKey(keys: set<nat>): (k: nat)
    ensures keys == {} ==> k == 0
    ensures forall x :: x in keys ==> x < k
  {
    if keys == {} then 0
    else
      MaxExists(keys);
      var m: nat :| IsMax(keys, m);
      m + 1
  }

  /** `multi_index::begin`. */
  ghost function FirstKey(keys: set<nat>): (k: nat)
    requires keys != {}
    ensures IsMin(keys, k)
  {
    MinExists(keys);
    var m: nat :| IsMin(keys, m);
    m
  }

  // ---- secondary indices ----

  /** `by.address`. */
  ghost function FindAddress(accounts: map<nat, AccountRow>, a: Address): (r: Option<nat>)
    ensures r.Some? ==> r.value in accounts && accounts[r.value].address == a
    ensures r.None? ==> forall id :: id in accounts ==> accounts[id].address != a
  {
    if id :| id in accounts && accounts[id].address == a then Some(id) else None
  }

  /** `by.codehash`. */
  ghost function FindHash(codes: map<nat, CodeRow>, h: Word): (r: Option<nat>)
    ensures r.Some? ==> r.value in codes && codes[r.value].hash == h
    ensures r.None? ==> forall c :: c in codes ==> codes[c].hash != h
  {
    if c :| c in codes && codes[c].hash == h then Some(c) else None
  }

  /** `by.key` inside one storage scope. */
  ghost function FindKey(scope: map<nat, StorageRow>, key: Word): (r: Option<nat>)
    ensures r.Some? ==> r.value in scope && scope[r.value].key == key
    ensures r.None? ==> forall i :: i in scope ==> scope[i].key != key
  {
    if i :| i in scope && scope[i].key == key then Some(i) else None
  }

  function Scope(db: Db, id: nat): map<nat, StorageRow> {
    if id in db.storage then db.storage[id] else map[]
  }

  ghost function Lookup(scope: map<nat, StorageRow>, key: Word): Word {
    match FindKey(scope, key)
    case None => 0
    case Some(i) => scope[i].value
  }

  // ---- id allocation ----

  /** The id `get_next_account_id` hands out next. */
  ghost function NextId(s: Session): nat {
    if s.next.Some? then s.next.value
    else if s.db.config2.Some? then s.db.config2.value
    else AvailableKey(s.db.accounts.Keys)
  }

  ghost function Emplace(s: Session, row: AccountRow): Session {
    s.(db := s.db.(accounts := s.db.accounts[NextId(s) := row]), next := Some(NextId(s) + 1))
  }

  /** The destructor: the counter goes back to the `config2` row. */
  function Close(s: Session): Db {
    if s.next.Some? then s.db.(config2 := s.next) else s.db
  }

  // ---- writes ----

  /** Drop one reference; the row goes with its last one. */
  function ReleaseCode(codes: map<nat, CodeRow>, codeId: Option<nat>): map<nat, CodeRow>
    requires codeId.Some? ==> codeId.value in codes && codes[codeId.value].refCount >= 1
  {
    if codeId.None? then codes
    else
      var c := codeId.value;
      if codes[c].refCount - 1 != 0 then codes[c := codes[c].(refCount := codes[c].refCount - 1)]
      else codes - {c}
  }

  predicate CanRelease(db: Db, id: nat) {
    id in db.accounts &&
    (db.accounts[id].codeId.Some? ==>
       db.accounts[id].codeId.value in db.codes && db.codes[db.accounts[id].codeId.value].refCount >= 1)
  }

  /** `remove_account`, and the whole of the `rmaccount` action: queue the storage for
      collection, release the code, erase the row. */
  ghost function RemoveRow(db: Db, id: nat): Db
    requires CanRelease(db, id)
  {
    db.(gc := db.gc[AvailableKey(db.gc.Keys) := id],
        codes := ReleaseCode(db.codes, db.accounts[id].codeId),
        accounts := db.accounts - {id})
  }

  function NewRow(a: Address, nonce: nat, balance: nat, codeId: Option<nat>): AccountRow {
    AccountRow(a, nonce, balance, codeId, false)
  }

  predicate NewIncarnation(initial: Option<Account>, current: Account) {
    initial.Some? && initial.value.incarnation != current.incarnation
  }

  ghost predicate RemovesRow(s: Session, a: Address, initial: Option<Account>, current: Option<Account>) {
    current != initial && FindAddress(s.db.accounts, a).Some? &&
    (current.None? || NewIncarnation(initial, current.value))
  }

  ghost predicate CanUpdateAccount(s: Session, a: Address) {
    var id := FindAddress(s.db.accounts, a);
    id.Some? ==> CanRelease(s.db, id.value)
  }

  ghost function UpdateAccount(s: Session, a: Address, initial: Option<Account>, current: Option<Account>): Session
    requires CanUpdateAccount(s, a)
  {
    var found := FindAddress(s.db.accounts, a);
    if current == initial then s
    else if current.None? then
      if found.None? then s else s.(db := RemoveRow(s.db, found.value))
    else
      var c := current.value;
      var row := NewRow(a, c.nonce, c.balance, None);
      if found.None? then Emplace(s, row)
      else if NewIncarnation(initial, c) then Emplace(s.(db := RemoveRow(s.db, found.value)), row)
      else
        var id := found.value;
        var was := s.db.accounts[id];
        s.(db := s.db.(accounts := s.db.accounts[id := was.(nonce := c.nonce, balance := c.balance)]))
  }

  /** Find the code row for a hash or add one; either way one more reference. */
  ghost function RetainCode(codes: map<nat, CodeRow>, hash: Word, code: Bytes): (map<nat, CodeRow>, nat) {
    match FindHash(codes, hash)
    case None =>
      var c := AvailableKey(codes.Keys);
      (codes[c := CodeRow(1, code, hash)], c)
    case Some(c) => (codes[c := codes[c].(refCount := codes[c].refCount + 1)], c)
  }

  ghost function UpdateAccountCode(s: Session, a: Address, hash: Word, code: Bytes): Session {
    var (codes, c) := RetainCode(s.db.codes, hash, code);
    var s' := s.(db := s.db.(codes := codes));
    match FindAddress(s.db.accounts, a)
    case Some(id) => s'.(db := s'.db.(accounts := s.db.accounts[id := s.db.accounts[id].(codeId := Some(c))]))
    case None => Emplace(s', NewRow(a, 0, 0, Some(c)))
  }

  function SetScope(db: Db, id: nat, scope: map<nat, StorageRow>): Db {
    db.(storage := db.storage[id := scope])
  }

  ghost function WriteKey(scope: map<nat, StorageRow>, key: Word, value: Word): map<nat, StorageRow> {
    match FindKey(scope, key)
    case None => scope[AvailableKey(scope.Keys) := StorageRow(key, value)]
    case Some(i) => scope[i := scope[i].(value := value)]
  }

  ghost function EraseKey(scope: map<nat, StorageRow>, key: Word): map<nat, StorageRow> {
    match FindKey(scope, key)
    case None => scope
    case Some(i) => scope - {i}
  }

  ghost function UpdateStorage(s: Session, a: Address, key: Word, value: Word): Session {
    var found := FindAddress(s.db.accounts, a);
    if value == 0 then
      if found.None? || FindKey(Scope(s.db, found.value), key).None? then s
      else s.(db := SetScope(s.db, found.value, EraseKey(Scope(s.db, found.value), key)))
    else
      var s' := if found.None? then Emplace(s, NewRow(a, 0, 0, None)) else s;
      var id := if found.None? then NextId(s) else found.value;
      s'.(db := SetScope(s'.db, id, WriteKey(Scope(s'.db, id), key, value)))
  }

  // ---- reads (they only fill the caches) ----

  const KECCAK_EMPTY: Word := 0xc5d2460186f7233c927e7db2dcc703c0e500b653ca82273b7bfad8045d85a470

  /** `None`: the account is frozen and frozen accounts are not allowed. */
  ghost function ReadAccount(s: Session, a: Address, allowFrozen: bool): Option<(Session, Option<Account>)> {
    match FindAddress(s.db.accounts, a)
    case None => Some((s, None))
    case Some(id) =>
      var row := s.db.accounts[id];
      if !allowFrozen && row.frozen then None
      else
        var s1 := s.(addr2id := s.addr2id[a := id]);
        if row.codeId.Some? && row.codeId.value in s.db.codes then
          var c := s.db.codes[row.codeId.value];
          Some((s1.(addr2code := s1.addr2code[c.hash := c.code]), Some(Account(row.nonce, row.balance, c.hash, 0))))
        else
          Some((s1, Some(Account(row.nonce, row.balance, KECCAK_EMPTY, 0))))
  }

  ghost function ReadCode(s: Session, hash: Word): (Session, Bytes) {
    if hash in s.addr2code then (s, s.addr2code[hash])
    else
      match FindHash(s.db.codes, hash)
      case None => (s, [])
      case Some(c) =>
        if s.db.codes[c].code == [] then (s, [])
        else (s.(addr2code := s.addr2code[hash := s.db.codes[c].code]), s.db.codes[c].code)
  }

  ghost function ReadStorage(s: Session, a: Address, key: Word): (Session, Word) {
    if a in s.addr2id then (s, Lookup(Scope(s.db, s.addr2id[a]), key))
    else
      match FindAddress(s.db.accounts, a)
      case None => (s, 0)
      case Some(id) => (s.(addr2id := s.addr2id[a := id]), Lookup(Scope(s.db, id), key))
  }

  // ---- garbage collection ----

  /** One deletion: the first row of the first queued scope, or the queue entry itself
      once its scope is empty. */
  ghost function GcStep(db: Db): Db
    requires db.gc != map[]
  {
    var g := FirstKey(db.gc.Keys);
    var scope := Scope(db, db.gc[g]);
    if scope != map[] then SetScope(db, db.gc[g], scope - {FirstKey(scope.Keys)})
    else db.(gc := db.gc - {g})
  }

  ghost function Gc(db: Db, max: nat): Db
    decreases max
  {
    if max == 0 || db.gc == map[] then db else Gc(GcStep(db), max - 1)
  }
}
