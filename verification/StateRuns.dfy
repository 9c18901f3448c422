/** Whole runs of src/state.cpp operations from a fresh deployment, and the two read
    caches of a `state` object. */
module StateRuns {
  import opened Options
  import opened StateTables
  import opened StateInvariants
  import opened StateRefinement

  datatype Op =
    | OpAccount(a: Address, initial: Option<Account>, current: Option<Account>)
    | OpCode(a: Address, hash: Word, code: Bytes)
    | OpStorage(a: Address, key: Word, value: Word)
    | OpReadAccount(a: Address, allowFrozen: bool)
    | OpReadCode(hash: Word)
    | OpReadStorage(a: Address, key: Word)
    | OpGc(max: nat)
    | OpRemove(id: nat) // the `rmaccount` action: no `state` object is alive
    | OpReopen          // destructor, then a new `state` object

  /** What the EVM promises about `update_account_code`: code is set once, and a hash
      names one code. */
  ghost predicate Enabled(s: Session, op: Op) {
    op.OpCode? ==> !HasCode(s, op.a) && HashNames(s.db.codes, op.hash, op.code)
  }

  /** Aborted operations leave the state as it was. */
  ghost function Step(s: Session, op: Op): Session {
    match op
    case OpAccount(a, initial, current) =>
      if CanUpdateAccount(s, a) then UpdateAccount(s, a, initial, current) else s // "code not found"
    case OpCode(a, hash, code) => UpdateAccountCode(s, a, hash, code)
    case OpStorage(a, key, value) => UpdateStorage(s, a, key, value)
    case OpReadAccount(a, allowFrozen) =>
      var r := ReadAccount(s, a, allowFrozen);
      if r.Some? then r.value.0 else s // "account is frozen"
    case OpReadCode(hash) => ReadCode(s, hash).0
    case OpReadStorage(a, key) => ReadStorage(s, a, key).0
    case OpGc(max) => s.(db := Gc(s.db, max))
    case OpRemove(id) =>
      var o := Open(Close(s));
      if CanRelease(o.db, id) then o.(db := RemoveRow(o.db, id)) else o
    case OpReopen => Open(Close(s))
  }

  /** Every operation keeps the invariants, and none of them aborts with "code not found". */
  lemma StepKeepsInv(s: Session, op: Op)
    requires Inv(s) && Enabled(s, op)
    ensures Inv(Step(s, op))
    ensures op.OpAccount? ==> CanUpdateAccount(s, op.a)
    ensures op.OpRemove? && op.id in s.db.accounts ==> CanRelease(Close(s), op.id)
  {
    match op {
      case OpAccount(a, initial, current) => UpdateAccountKeepsInv(s, a, initial, current);
      case OpCode(a, hash, code) => UpdateAccountCodeKeepsInv(s, a, hash, code);
      case OpStorage(a, key, value) => UpdateStorageKeepsInv(s, a, key, value);
      case OpReadAccount(a, allowFrozen) => SameTables(s, Step(s, op));
      case OpReadCode(hash) => SameTables(s, Step(s, op));
      case OpReadStorage(a, key) => SameTables(s, Step(s, op));
      case OpGc(max) => GcKeepsInv(s, max);
      case OpRemove(id) =>
        ReopenKeepsInv(s);
        if id in s.db.accounts {
          RemoveKeepsInv(Open(Close(s)), id);
        }
      case OpReopen => ReopenKeepsInv(s);
    }
  }

  /** The same operation on the plain map. */
  ghost function Meaning(s: Session, w: World, op: Op): World {
    match op
    case OpAccount(a, initial, current) => PutAccount(w, a, initial, current)
    case OpCode(a, hash, code) => PutCode(w, a, hash, code)
    case OpStorage(a, key, value) => PutStorage(w, a, key, value)
    case OpRemove(id) => if id in s.db.accounts then w - {s.db.accounts[id].address} else w
    case _ => w
  }

  lemma StepRefines(s: Session, w: World, op: Op)
    requires Inv(s) && Enabled(s, op) && Refines(s.db, w)
    ensures Refines(Step(s, op).db, Meaning(s, w, op))
  {
    match op {
      case OpAccount(a, initial, current) => UpdateAccountRefines(s, w, a, initial, current);
      case OpCode(a, hash, code) => UpdateAccountCodeRefines(s, w, a, hash, code);
      case OpStorage(a, key, value) => UpdateStorageRefines(s, w, a, key, value);
      case OpReadAccount(a, allowFrozen) =>
      case OpReadCode(hash) =>
      case OpReadStorage(a, key) =>
      case OpGc(max) => GcRefines(s, w, max);
      case OpRemove(id) =>
        CloseRefines(s, w);
        if id in s.db.accounts {
          ReopenKeepsInv(s);
          RemoveRefines(Open(Close(s)), w, id);
        }
      case OpReopen => CloseRefines(s, w);
    }
  }

  lemma CloseRefines(s: Session, w: World)
    requires Refines(s.db, w)
    ensures Refines(Close(s), w)
  {
    SameRowsRefine(s.db, Close(s), w);
  }

  // ---- runs ----

  ghost function Run(s: Session, ops: seq<Op>): Session
    decreases |ops|
  {
    if ops == [] then s else Run(Step(s, ops[0]), ops[1..])
  }

  ghost predicate RunEnabled(s: Session, ops: seq<Op>)
    decreases |ops|
  {
    ops != [] ==> Enabled(s, ops[0]) && RunEnabled(Step(s, ops[0]), ops[1..])
  }

  ghost function MapRun(s: Session, w: World, ops: seq<Op>): World
    decreases |ops|
  {
    if ops == [] then w else MapRun(Step(s, ops[0]), Meaning(s, w, ops[0]), ops[1..])
  }

  lemma {:induction false} RunRefines(s: Session, w: World, ops: seq<Op>)
    requires Inv(s) && RunEnabled(s, ops) && Refines(s.db, w)
    ensures Inv(Run(s, ops)) && Refines(Run(s, ops).db, MapRun(s, w, ops))
    decreases |ops|
  {
    if ops != [] {
      StepKeepsInv(s, ops[0]);
      StepRefines(s, w, ops[0]);
      RunRefines(Step(s, ops[0]), Meaning(s, w, ops[0]), ops[1..]);
    }
  }

  /** Every run from a fresh deployment keeps the invariants and refines the map. */
  lemma FreshRunRefines(ops: seq<Op>)
    requires RunEnabled(Open(FRESH_DB), ops)
    ensures Inv(Run(Open(FRESH_DB), ops))
    ensures Refines(Run(Open(FRESH_DB), ops).db, MapRun(Open(FRESH_DB), map[], ops))
  {
    RunRefines(Open(FRESH_DB), map[], ops);
  }

  // ---- ids are never reused ----

  /** New rows of one operation get ids from `NextId` on. */
  ghost predicate IdsGrow(s: Session, s': Session) {
    NextId(s) <= NextId(s') && forall id :: id in s'.db.accounts && id !in s.db.accounts ==> NextId(s) <= id
  }

  lemma UpdateAccountIds(s: Session, a: Address, initial: Option<Account>, current: Option<Account>)
    requires UniqueAddresses(s.db.accounts) && IdsOk(s) && CanUpdateAccount(s, a)
    ensures IdsGrow(s, UpdateAccount(s, a, initial, current))
  {
    var found := FindAddress(s.db.accounts, a);
    if found.Some? {
      RemoveKeepsIds(s, found.value);
    }
  }

  lemma UpdateAccountCodeIds(s: Session, a: Address, hash: Word, code: Bytes)
    requires IdsOk(s)
    ensures IdsGrow(s, UpdateAccountCode(s, a, hash, code))
  {
    var (codes, c) := RetainCode(s.db.codes, hash, code);
    EmplaceIds(s.(db := s.db.(codes := codes)), NewRow(a, 0, 0, Some(c)));
  }

  lemma UpdateStorageIds(s: Session, a: Address, key: Word, value: Word)
    requires IdsOk(s)
    ensures IdsGrow(s, UpdateStorage(s, a, key, value))
  {
    EmplaceIds(s, NewRow(a, 0, 0, None));
  }

  lemma EmplaceIds(s: Session, row: AccountRow)
    ensures NextId(Emplace(s, row)) == NextId(s) + 1
    ensures IdsGrow(s, Emplace(s, row))
  {
  }

  lemma StepIds(s: Session, op: Op)
    requires UniqueAddresses(s.db.accounts) && IdsOk(s)
    ensures IdsGrow(s, Step(s, op))
  {
    match op {
      case OpCode(a, hash, code) => UpdateAccountCodeIds(s, a, hash, code);
      case OpStorage(a, key, value) => UpdateStorageIds(s, a, key, value);
      case OpAccount(a, initial, current) =>
        if CanUpdateAccount(s, a) {
          UpdateAccountIds(s, a, initial, current);
        }
      case OpGc(max) => GcKeepsTables(s.db, max);
      case OpRemove(id) => RemoveByIdIds(s, id);
      case _ =>
    }
  }

  lemma RemoveByIdIds(s: Session, id: nat)
    requires UniqueAddresses(s.db.accounts) && IdsOk(s)
    ensures IdsGrow(s, Step(s, OpRemove(id)))
  {
    var o := Open(Close(s));
    assert NextId(o) == NextId(s) && IdsOk(o);
    if CanRelease(o.db, id) {
      RemoveKeepsIds(o, id);
    }
  }

  lemma {:induction false} GcKeepsTables(db: Db, max: nat)
    ensures var db' := Gc(db, max);
            db'.accounts == db.accounts && db'.codes == db.codes && db'.config2 == db.config2
    decreases max
  {
    if max != 0 && db.gc != map[] {
      GcKeepsTables(GcStep(db), max - 1);
    }
  }

  /** Once an id has been handed out and its row is gone, no later state has it again. */
  lemma {:induction false} DeadIdsStayDead(s: Session, ops: seq<Op>, id: nat)
    requires Inv(s) && RunEnabled(s, ops) && id < NextId(s) && id !in s.db.accounts
    ensures id < NextId(Run(s, ops)) && id !in Run(s, ops).db.accounts
    decreases |ops|
  {
    if ops != [] {
      StepIds(s, ops[0]);
      StepKeepsInv(s, ops[0]);
      DeadIdsStayDead(Step(s, ops[0]), ops[1..], id);
    }
  }

  // ---- caches ----

  ghost predicate IdCacheFresh(s: Session, a: Address) {
    a in s.addr2id ==> FindAddress(s.db.accounts, a) == Some(s.addr2id[a])
  }

  ghost predicate CodeCacheFresh(s: Session, hash: Word) {
    hash in s.addr2code ==>
      FindHash(s.db.codes, hash).Some? && s.db.codes[FindHash(s.db.codes, hash).value].code == s.addr2code[hash]
  }

  ghost predicate Coherent(s: Session) {
    (forall a :: IdCacheFresh(s, a)) && (forall hash :: CodeCacheFresh(s, hash))
  }

  function Uncached(s: Session): Session {
    s.(addr2id := map[], addr2code := map[])
  }

  /** An operation that erases an account row through this object. */
  ghost predicate Erases(s: Session, op: Op) {
    op.OpAccount? && RemovesRow(s, op.a, op.initial, op.current)
  }

  lemma CoherentReads(s: Session, a: Address, key: Word, hash: Word, allowFrozen: bool)
    requires Inv(s) && Coherent(s)
    ensures ReadStorage(s, a, key).1 == ReadStorage(Uncached(s), a, key).1
    ensures ReadCode(s, hash).1 == ReadCode(Uncached(s), hash).1
    ensures ReadAccount(s, a, allowFrozen).Some? <==> ReadAccount(Uncached(s), a, allowFrozen).Some?
    ensures ReadAccount(s, a, allowFrozen).Some? ==>
              ReadAccount(s, a, allowFrozen).value.1 == ReadAccount(Uncached(s), a, allowFrozen).value.1
  {
    assert IdCacheFresh(s, a) && CodeCacheFresh(s, hash);
  }

  /** Uncached reads give what the map holds. */
  lemma StorageReadsTheMap(s: Session, w: World, a: Address, key: Word)
    requires Inv(s) && Refines(s.db, w)
    ensures ReadStorage(Uncached(s), a, key).1 == Get(At(w, a).storage, key)
  {
    var found := FindAddress(s.db.accounts, a);
    if found.Some? {
      assert RowRefines(s.db, found.value, w[a]);
    }
  }

  function AccountOf(acct: Acct): Account {
    Account(acct.nonce, acct.balance, if acct.code.Some? then acct.code.value.hash else KECCAK_EMPTY, 0)
  }

  lemma AccountReadsTheMap(s: Session, w: World, a: Address, allowFrozen: bool)
    requires CodeIdsResolve(s.db.accounts, s.db.codes) && Refines(s.db, w)
    ensures var r := ReadAccount(s, a, allowFrozen);
            r.Some? ==> r.value.1 == if a in w then Some(AccountOf(w[a])) else None
  {
    var found := FindAddress(s.db.accounts, a);
    if found.Some? {
      assert RowRefines(s.db, found.value, w[a]);
    }
  }

  lemma CodeReadsTheMap(s: Session, w: World, a: Address)
    requires CodesOk(s.db.accounts, s.db.codes) && Refines(s.db, w) && a in w && w[a].code.Some?
    ensures ReadCode(Uncached(s), w[a].code.value.hash).1 == w[a].code.value.bytes
  {
    var id := FindAddress(s.db.accounts, a).value;
    assert RowRefines(s.db, id, w[a]);
    var c := s.db.accounts[id].codeId.value;
    assert FindHash(s.db.codes, w[a].code.value.hash) == Some(c);
  }

  /** Reads, writes and collection keep the caches coherent as long as no account is
      removed through the same object; a new object starts coherent. */
  lemma StepKeepsCoherent(s: Session, op: Op)
    requires Inv(s) && Enabled(s, op) && Coherent(s) && !Erases(s, op)
    ensures Coherent(Step(s, op))
  {
    StepKeepsInv(s, op);
    forall a ensures IdCacheFresh(Step(s, op), a) {
      assert IdCacheFresh(s, a);
      IdCacheStep(s, op, a);
    }
    forall hash ensures CodeCacheFresh(Step(s, op), hash) {
      assert CodeCacheFresh(s, hash);
      CodeCacheStep(s, op, hash);
    }
  }

  lemma IdCacheStep(s: Session, op: Op, a: Address)
    requires IdsOk(s) && UniqueAddresses(Step(s, op).db.accounts)
    requires IdCacheFresh(s, a) && !Erases(s, op)
    ensures IdCacheFresh(Step(s, op), a)
  {
    if a in Step(s, op).addr2id {
      WritesKeepIdCache(s, op);
      if a in s.addr2id {
        var id := s.addr2id[a];
        RowsPersist(s, op, id);
        FindUnique(Step(s, op).db.accounts, id);
      }
    }
  }

  lemma WritesKeepIdCache(s: Session, op: Op)
    ensures op.OpReadAccount? || op.OpReadStorage? || op.OpReadCode? ==> Step(s, op).db == s.db
    ensures op.OpReadAccount? || op.OpReadStorage? ==>
              var found := FindAddress(s.db.accounts, op.a);
              Step(s, op).addr2id == s.addr2id ||
              (found.Some? && Step(s, op).addr2id == s.addr2id[op.a := found.value])
    ensures !op.OpReadAccount? && !op.OpReadStorage? ==>
              Step(s, op).addr2id == s.addr2id || Step(s, op).addr2id == map[]
    ensures op.OpRemove? ==> Step(s, op).addr2id == map[]
  {
  }

  /** Without an erasure rows keep their id and address. */
  lemma RowsPersist(s: Session, op: Op, id: nat)
    requires IdsOk(s) && !Erases(s, op) && !op.OpRemove? && id in s.db.accounts
    ensures id in Step(s, op).db.accounts && Step(s, op).db.accounts[id].address == s.db.accounts[id].address
  {
    match op {
      case OpAccount(a, initial, current) =>
        if CanUpdateAccount(s, a) {
          UpdateAccountKeepsRow(s, a, initial, current, id);
        }
      case OpCode(a, hash, code) => UpdateAccountCodeKeepsRow(s, a, hash, code, id);
      case OpStorage(a, key, value) => UpdateStorageKeepsRow(s, a, key, value, id);
      case OpGc(max) => GcKeepsTables(s.db, max);
      case _ =>
    }
  }

  lemma EmplaceKeepsRow(s: Session, row: AccountRow, id: nat)
    requires IdsOk(s) && id in s.db.accounts
    ensures id in Emplace(s, row).db.accounts && Emplace(s, row).db.accounts[id] == s.db.accounts[id]
  {
  }

  lemma UpdateAccountKeepsRow(s: Session, a: Address, initial: Option<Account>, current: Option<Account>, id: nat)
    requires IdsOk(s) && CanUpdateAccount(s, a) && !RemovesRow(s, a, initial, current) && id in s.db.accounts
    ensures var s' := UpdateAccount(s, a, initial, current);
            id in s'.db.accounts && s'.db.accounts[id].address == s.db.accounts[id].address
  {
    if current.Some? {
      EmplaceKeepsRow(s, NewRow(a, current.value.nonce, current.value.balance, None), id);
    }
  }

  lemma UpdateAccountCodeKeepsRow(s: Session, a: Address, hash: Word, code: Bytes, id: nat)
    requires IdsOk(s) && id in s.db.accounts
    ensures var s' := UpdateAccountCode(s, a, hash, code);
            id in s'.db.accounts && s'.db.accounts[id].address == s.db.accounts[id].address
  {
  }

  lemma UpdateStorageKeepsRow(s: Session, a: Address, key: Word, value: Word, id: nat)
    requires IdsOk(s) && id in s.db.accounts
    ensures var s' := UpdateStorage(s, a, key, value);
            id in s'.db.accounts && s'.db.accounts[id].address == s.db.accounts[id].address
  {
    EmplaceKeepsRow(s, NewRow(a, 0, 0, None), id);
  }

  lemma CodeCacheStep(s: Session, op: Op, hash: Word)
    requires CodesOk(s.db.accounts, s.db.codes) && HashesUnique(Step(s, op).db.codes)
    requires CodeCacheFresh(s, hash) && !Erases(s, op)
    ensures CodeCacheFresh(Step(s, op), hash)
  {
    if op.OpReadAccount? || op.OpReadCode? {
      RereadCode(s, op, hash);
    } else if hash in Step(s, op).addr2code {
      WritesKeepCodeCache(s, op);
      var c := FindHash(s.db.codes, hash).value;
      CodesPersist(s, op, c);
      assert FindHash(Step(s, op).db.codes, hash) == Some(c);
    }
  }

  lemma WritesKeepCodeCache(s: Session, op: Op)
    requires !op.OpReadAccount? && !op.OpReadCode?
    ensures Step(s, op).addr2code == s.addr2code || Step(s, op).addr2code == map[]
    ensures op.OpRemove? ==> Step(s, op).addr2code == map[]
  {
  }

  lemma CodesPersist(s: Session, op: Op, c: nat)
    requires !Erases(s, op) && !op.OpRemove? && c in s.db.codes
    ensures var codes' := Step(s, op).db.codes;
            c in codes' && codes'[c].hash == s.db.codes[c].hash && codes'[c].code == s.db.codes[c].code
  {
    match op {
      case OpAccount(a, initial, current) =>
        if CanUpdateAccount(s, a) {
          UpdateAccountKeepsCodes(s, a, initial, current);
        }
      case OpCode(a, hash, code) => UpdateAccountCodeKeepsCode(s, a, hash, code, c);
      case OpGc(max) => GcKeepsTables(s.db, max);
      case _ =>
    }
  }

  lemma UpdateAccountKeepsCodes(s: Session, a: Address, initial: Option<Account>, current: Option<Account>)
    requires CanUpdateAccount(s, a) && !RemovesRow(s, a, initial, current)
    ensures UpdateAccount(s, a, initial, current).db.codes == s.db.codes
  {
  }

  lemma RetainKeepsCode(codes: map<nat, CodeRow>, hash: Word, code: Bytes, c: nat)
    requires c in codes
    ensures var codes' := RetainCode(codes, hash, code).0;
            c in codes' && codes'[c].hash == codes[c].hash && codes'[c].code == codes[c].code
  {
  }

  lemma UpdateAccountCodeKeepsCode(s: Session, a: Address, hash: Word, code: Bytes, c: nat)
    requires c in s.db.codes
    ensures var codes' := UpdateAccountCode(s, a, hash, code).db.codes;
            c in codes' && codes'[c].hash == s.db.codes[c].hash && codes'[c].code == s.db.codes[c].code
  {
    RetainKeepsCode(s.db.codes, hash, code, c);
    assert UpdateAccountCode(s, a, hash, code).db.codes == RetainCode(s.db.codes, hash, code).0;
  }

  /** A read caches what the table holds. */
  lemma RereadCode(s: Session, op: Op, hash: Word)
    requires CodesOk(s.db.accounts, s.db.codes) && (op.OpReadAccount? || op.OpReadCode?)
    requires CodeCacheFresh(s, hash)
    ensures CodeCacheFresh(Step(s, op), hash)
  {
    if op.OpReadAccount? && FindAddress(s.db.accounts, op.a).Some? {
      var row := s.db.accounts[FindAddress(s.db.accounts, op.a).value];
      if row.codeId.Some? {
        var c := row.codeId.value;
        assert FindHash(s.db.codes, s.db.codes[c].hash) == Some(c);
      }
    }
  }

  ghost predicate NeverErases(s: Session, ops: seq<Op>)
    decreases |ops|
  {
    ops != [] ==> !Erases(s, ops[0]) && NeverErases(Step(s, ops[0]), ops[1..])
  }

  /** Cached reads equal uncached ones after any run that removes no account through
      the object (the object may be closed and reopened at will). */
  lemma {:induction false} CachesAgreeUntilRemoval(s: Session, ops: seq<Op>)
    requires Inv(s) && RunEnabled(s, ops) && Coherent(s) && NeverErases(s, ops)
    ensures Inv(Run(s, ops)) && Coherent(Run(s, ops))
    decreases |ops|
  {
    if ops != [] {
      StepKeepsCoherent(s, ops[0]);
      StepKeepsInv(s, ops[0]);
      CachesAgreeUntilRemoval(Step(s, ops[0]), ops[1..]);
    }
  }

  /** Every `state` object, opened after any history and used in any way that erases no account
      through it, answers every read with the value the map holds. */
  lemma ObjectReadsTheMap(before: seq<Op>, after: seq<Op>, a: Address, key: Word, allowFrozen: bool)
    requires RunEnabled(Open(FRESH_DB), before)
    requires var o := Open(Close(Run(Open(FRESH_DB), before))); RunEnabled(o, after) && NeverErases(o, after)
    ensures var o := Open(Close(Run(Open(FRESH_DB), before)));
            var s, w := Run(o, after), MapRun(o, MapRun(Open(FRESH_DB), map[], before), after);
            && ReadStorage(s, a, key).1 == Get(At(w, a).storage, key)
            && (a in w && w[a].code.Some? ==> ReadCode(s, w[a].code.value.hash).1 == w[a].code.value.bytes)
            && ReadAccount(s, a, allowFrozen).Some?
            && ReadAccount(s, a, allowFrozen).value.1 == if a in w then Some(AccountOf(w[a])) else None
  {
    var s0, w0 := Run(Open(FRESH_DB), before), MapRun(Open(FRESH_DB), map[], before);
    FreshRunRefines(before);
    ReopenKeepsInv(s0);
    CloseRefines(s0, w0);
    var o := Open(Close(s0));
    RunRefines(o, w0, after);
    CachesAgreeUntilRemoval(o, after);
    var s, w := Run(o, after), MapRun(o, w0, after);
    var hash := if a in w && w[a].code.Some? then w[a].code.value.hash else 0;
    CoherentReads(s, a, key, hash, allowFrozen);
    StorageReadsTheMap(s, w, a, key);
    AccountReadsTheMap(s, w, a, allowFrozen);
    StaysUnfrozen(Open(FRESH_DB), before);
    ReadsSucceed(o, after, a, allowFrozen);
    if a in w && w[a].code.Some? {
      CodeReadsTheMap(s, w, a);
    }
  }

  // ---- frozen accounts ----

  /** An account read aborts exactly on a frozen row that may not be seen. */
  lemma ReadAborts(s: Session, a: Address, allowFrozen: bool)
    ensures ReadAccount(s, a, allowFrozen).None? <==>
            var found := FindAddress(s.db.accounts, a);
            !allowFrozen && found.Some? && s.db.accounts[found.value].frozen
  {
  }

  ghost predicate Unfrozen(s: Session) {
    forall id :: id in s.db.accounts ==> !s.db.accounts[id].frozen
  }

  lemma UpdateAccountUnfrozen(s: Session, a: Address, initial: Option<Account>, current: Option<Account>)
    requires Unfrozen(s) && CanUpdateAccount(s, a)
    ensures Unfrozen(UpdateAccount(s, a, initial, current))
  {
  }

  lemma UpdateAccountCodeUnfrozen(s: Session, a: Address, hash: Word, code: Bytes)
    requires Unfrozen(s)
    ensures Unfrozen(UpdateAccountCode(s, a, hash, code))
  {
  }

  lemma UpdateStorageUnfrozen(s: Session, a: Address, key: Word, value: Word)
    requires Unfrozen(s)
    ensures Unfrozen(UpdateStorage(s, a, key, value))
  {
  }

  /** None of the operations freezes an account. */
  lemma StepUnfrozen(s: Session, op: Op)
    requires Unfrozen(s)
    ensures Unfrozen(Step(s, op))
  {
    match op {
      case OpAccount(a, initial, current) =>
        if CanUpdateAccount(s, a) {
          UpdateAccountUnfrozen(s, a, initial, current);
        }
      case OpCode(a, hash, code) => UpdateAccountCodeUnfrozen(s, a, hash, code);
      case OpStorage(a, key, value) => UpdateStorageUnfrozen(s, a, key, value);
      case OpGc(max) => GcKeepsTables(s.db, max);
      case _ =>
    }
  }

  lemma {:induction false} StaysUnfrozen(s: Session, ops: seq<Op>)
    requires Unfrozen(s)
    ensures Unfrozen(Run(s, ops))
    decreases |ops|
  {
    if ops != [] {
      StepUnfrozen(s, ops[0]);
      StaysUnfrozen(Step(s, ops[0]), ops[1..]);
    }
  }

  /** So no account read aborts, in any run from a fresh deployment. */
  lemma ReadsSucceed(s: Session, ops: seq<Op>, a: Address, allowFrozen: bool)
    requires Unfrozen(s)
    ensures ReadAccount(Run(s, ops), a, allowFrozen).Some?
  {
    StaysUnfrozen(s, ops);
  }

  // ---- reads after an erasure through the same object ----

  /** The removal and the new row it may be followed by leave the old scope where it is. */
  lemma ErasureKeepsScopes(s: Session, a: Address, initial: Option<Account>, current: Option<Account>)
    requires Inv(s) && RemovesRow(s, a, initial, current)
    ensures CanUpdateAccount(s, a)
    ensures var s' := UpdateAccount(s, a, initial, current);
            s'.db.storage == s.db.storage && s'.addr2id == s.addr2id && s'.addr2code == s.addr2code
  {
    UpdateAccountKeepsInv(s, a, initial, current);
  }

  /** The map's account, or none, starts over without storage. */
  lemma ErasedReadsZero(s: Session, w: World, a: Address, initial: Option<Account>, current: Option<Account>, key: Word)
    requires Inv(s) && Refines(s.db, w) && RemovesRow(s, a, initial, current)
    ensures CanUpdateAccount(s, a)
    ensures ReadStorage(Uncached(UpdateAccount(s, a, initial, current)), a, key).1 == 0
  {
    UpdateAccountKeepsInv(s, a, initial, current);
    UpdateAccountRefines(s, w, a, initial, current);
    StorageReadsTheMap(UpdateAccount(s, a, initial, current), PutAccount(w, a, initial, current), a, key);
  }

  /** After an account is deleted or re-created through an object, a storage read through that object
      is right for every other address, and for the account itself exactly if its id had not been
      cached or the slot held 0: otherwise it repeats the old value. */
  lemma StorageReadAfterErasure(s: Session, w: World, a: Address, initial: Option<Account>, current: Option<Account>,
                                b: Address, key: Word)
    requires Inv(s) && Coherent(s) && Refines(s.db, w) && RemovesRow(s, a, initial, current)
    ensures CanUpdateAccount(s, a)
    ensures var s' := UpdateAccount(s, a, initial, current);
            && (ReadStorage(s', b, key).1 == ReadStorage(Uncached(s'), b, key).1 <==>
                b != a || a !in s.addr2id || ReadStorage(s, a, key).1 == 0)
            && (a in s.addr2id ==> ReadStorage(s', a, key).1 == ReadStorage(s, a, key).1)
  {
    ErasureKeepsScopes(s, a, initial, current);
    if b == a {
      ErasedReadsZero(s, w, a, initial, current, key);
    } else {
      assert IdCacheFresh(s, b);
      OtherRowsStay(s, a, initial, current, b);
    }
  }

  lemma OtherRowsStay(s: Session, a: Address, initial: Option<Account>, current: Option<Account>, b: Address)
    requires Inv(s) && RemovesRow(s, a, initial, current) && b != a
    ensures CanUpdateAccount(s, a)
    ensures FindAddress(UpdateAccount(s, a, initial, current).db.accounts, b) == FindAddress(s.db.accounts, b)
  {
    UpdateAccountKeepsInv(s, a, initial, current);
    var s' := UpdateAccount(s, a, initial, current);
    var id := FindAddress(s.db.accounts, b);
    if id.Some? {
      assert id.value in s'.db.accounts && s'.db.accounts[id.value] == s.db.accounts[id.value];
      FindUnique(s'.db.accounts, id.value);
    }
  }

  /** The account is the only one holding the code with this hash. */
  ghost predicate SoleHolder(s: Session, a: Address, hash: Word) {
    var id := FindAddress(s.db.accounts, a);
    id.Some? &&
    var codeId := s.db.accounts[id.value].codeId;
    codeId.Some? && codeId.value in s.db.codes &&
    s.db.codes[codeId.value].hash == hash && s.db.codes[codeId.value].refCount == 1
  }

  lemma ErasedCodes(s: Session, a: Address, initial: Option<Account>, current: Option<Account>)
    requires Inv(s) && RemovesRow(s, a, initial, current)
    ensures CanUpdateAccount(s, a)
    ensures UpdateAccount(s, a, initial, current).db.codes ==
            ReleaseCode(s.db.codes, s.db.accounts[FindAddress(s.db.accounts, a).value].codeId)
    ensures HashesUnique(UpdateAccount(s, a, initial, current).db.codes)
  {
    UpdateAccountKeepsInv(s, a, initial, current);
  }

  /** Looking a hash up after a release finds the same code, or nothing after its last reference. */
  lemma LookupAfterRelease(codes: map<nat, CodeRow>, codeId: Option<nat>, hash: Word)
    requires HashesUnique(codes) && (codeId.Some? ==> codeId.value in codes && codes[codeId.value].refCount >= 1)
    ensures var codes' := ReleaseCode(codes, codeId);
            if codeId.Some? && codes[codeId.value].hash == hash && codes[codeId.value].refCount == 1
            then FindHash(codes', hash).None?
            else FindHash(codes', hash) == FindHash(codes, hash)
                 && (FindHash(codes, hash).Some? ==>
                       codes'[FindHash(codes, hash).value].code == codes[FindHash(codes, hash).value].code)
  {
    var codes' := ReleaseCode(codes, codeId);
    ReleaseKeepsHashes(codes, codeId);
    var c := FindHash(codes, hash);
    if c.Some? && c.value in codes' {
      assert codes'[c.value].hash == hash;
    }
  }

  /** Code reads through the same object are right exactly if the code was not cached, was empty, or
      some other account still holds it. */
  lemma CodeReadAfterErasure(s: Session, a: Address, initial: Option<Account>, current: Option<Account>, hash: Word)
    requires Inv(s) && Coherent(s) && RemovesRow(s, a, initial, current)
    ensures CanUpdateAccount(s, a)
    ensures var s' := UpdateAccount(s, a, initial, current);
            ReadCode(s', hash).1 == ReadCode(Uncached(s'), hash).1 <==>
            hash !in s.addr2code || s.addr2code[hash] == [] || !SoleHolder(s, a, hash)
  {
    var s' := UpdateAccount(s, a, initial, current);
    ErasureKeepsScopes(s, a, initial, current);
    ErasedCodes(s, a, initial, current);
    assert CodeCacheFresh(s, hash);
    LookupAfterRelease(s.db.codes, s.db.accounts[FindAddress(s.db.accounts, a).value].codeId, hash);
  }

  /** Read a slot and delete the account: from then on the object reads the old value and the map
      has none. */
  lemma ReadThenDelete(s: Session, w: World, a: Address, acct: Account, key: Word)
    requires Inv(s) && Coherent(s) && Refines(s.db, w) && a in w
    ensures var s1 := ReadStorage(s, a, key).0;
            CanUpdateAccount(s1, a) &&
            var s2 := UpdateAccount(s1, a, Some(acct), None);
            ReadStorage(s2, a, key).1 == Get(w[a].storage, key) && ReadStorage(Uncached(s2), a, key).1 == 0
  {
    var s1 := ReadStorage(s, a, key).0;
    SameTables(s, s1);
    StepKeepsCoherent(s, OpReadStorage(a, key));
    assert IdCacheFresh(s, a);
    StorageReadsTheMap(s, w, a, key);
    CoherentReads(s, a, key, 0, true);
    StorageReadAfterErasure(s1, w, a, Some(acct), None, a, key);
    ErasedReadsZero(s1, w, a, Some(acct), None, key);
  }

  lemma ThreeCalls(s: Session, a: Address, acct: Account, key: Word, value: Word)
    requires CanUpdateAccount(ReadStorage(UpdateStorage(s, a, key, value), a, key).0, a)
    ensures Step(Step(Step(s, OpStorage(a, key, value)), OpReadStorage(a, key)), OpAccount(a, Some(acct), None)) ==
            UpdateAccount(ReadStorage(UpdateStorage(s, a, key, value), a, key).0, a, Some(acct), None)
  {
  }

  /** Likewise from any sound state after writing the slot. */
  lemma WriteReadDelete(s: Session, w: World, a: Address, acct: Account, key: Word, value: Word)
    requires Inv(s) && Coherent(s) && Refines(s.db, w) && value != 0
    ensures var s' := Step(Step(Step(s, OpStorage(a, key, value)), OpReadStorage(a, key)), OpAccount(a, Some(acct), None));
            ReadStorage(s', a, key).1 == value && ReadStorage(Uncached(s'), a, key).1 == 0
  {
    var s1, w1 := UpdateStorage(s, a, key, value), PutStorage(w, a, key, value);
    assert Inv(s1) && Refines(s1.db, w1) && Coherent(s1) by {
      UpdateStorageKeepsInv(s, a, key, value);
      UpdateStorageRefines(s, w, a, key, value);
      StepKeepsCoherent(s, OpStorage(a, key, value));
    }
    ReadThenDelete(s1, w1, a, acct, key);
    ThreeCalls(s, a, acct, key, value);
  }

  lemma FreshOk()
    ensures Inv(Open(FRESH_DB)) && Coherent(Open(FRESH_DB)) && Refines(FRESH_DB, map[])
  {
  }

  /** Write 9 to a slot of a new account, read it, delete the account: the object still reads 9. */
  lemma StaleReadWitness(acct: Account)
    ensures var ops := [OpStorage(1, 5, 9), OpReadStorage(1, 5), OpAccount(1, Some(acct), None)];
            var s := Run(Open(FRESH_DB), ops);
            RunEnabled(Open(FRESH_DB), ops) && ReadStorage(s, 1, 5).1 == 9 && ReadStorage(Uncached(s), 1, 5).1 == 0
  {
    FreshOk();
    WriteReadDelete(Open(FRESH_DB), map[], 1, acct, 5, 9);
    RunThree(Open(FRESH_DB), OpStorage(1, 5, 9), OpReadStorage(1, 5), OpAccount(1, Some(acct), None));
  }

  lemma RunThree(s: Session, a: Op, b: Op, c: Op)
    ensures Run(s, [a, b, c]) == Step(Step(Step(s, a), b), c)
    ensures !a.OpCode? && !b.OpCode? && !c.OpCode? ==> RunEnabled(s, [a, b, c])
  {
    assert [a, b, c][1..] == [b, c] && [b, c][1..] == [c] && [c][1..] == [];
    assert Run(Step(Step(s, a), b), [c]) == Step(Step(Step(s, a), b), c);
    assert !c.OpCode? ==> RunEnabled(Step(Step(s, a), b), [c]);
  }
}
