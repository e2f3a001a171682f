/** The secrets vault over an ideal authenticated cipher. */
module Vault {
  import opened Shared

  /**
   * Keys: given as bytes, or derived from a passphrase and a salt. Different passphrases or salts
   * never derive the same key, and a derived key is never one that was given.
   */
  datatype Key = Given(bytes: string) | Derived(passphrase: string, salt: int)

  /** What `encrypt` yields, and anything else that may be found in its place. */
  datatype Blob = Sealed(key: Key, aad: string, plaintext: string) | Damaged(bits: string)

  function Encrypt(key: Key, aad: string, plaintext: string): Blob {
    Sealed(key, aad, plaintext)
  }

  /** Opens only under the key and with the associated data it was sealed with. */
  function Decrypt(key: Key, aad: string, blob: Blob): Option<string> {
    if blob.Sealed? && blob.key == key && blob.aad == aad then Some(blob.plaintext) else None
  }

  datatype ErrorCode = MissingKey | WrongKey | NotFound | InvalidRef | Corrupt | NotInitialized | StoreFailed

  datatype Kdf = RawKdf | Scrypt(salt: int)

  datatype KeySource = RawSource(bytes: Option<string>) | PassphraseSource(passphrase: string)

  function Derive(source: KeySource, salt: Option<int>): Result<Key, ErrorCode> {
    match source
    case RawSource(bytes) => if bytes.Some? then Ok(Given(bytes.value)) else Err(MissingKey)
    case PassphraseSource(p) => if salt.Some? then Ok(Derived(p, salt.value)) else Err(MissingKey)
  }

  /** A key for a new vault, or a vault being rotated: passphrases get the fresh salt. */
  function DeriveFresh(source: KeySource, salt: int): Result<(Key, Kdf), ErrorCode> {
    match source
    case PassphraseSource(p) => Ok((Derived(p, salt), Scrypt(salt)))
    case RawSource(_) =>
      match Derive(source, None)
      case Ok(key) => Ok((key, RawKdf))
      case Err(code) => Err(code)
  }

  datatype Record = Record(name: string, createdAt: int, updatedAt: int, blob: Blob)

  datatype VaultFile = VaultFile(kdf: Kdf, check: Blob, secrets: map<string, Record>)

  const CHECK_ID := "__vault_check__"
  const CHECK_PLAINTEXT := "vo-vault-v1"

  // ---- References -----------------------------------------------------------------

  const PREFIX := "vault://"

  predicate IsId(id: string) {
    |id| == 32 && forall i :: 0 <= i < 32 ==> '0' <= id[i] <= '9' || 'a' <= id[i] <= 'f'
  }

  function RefTo(id: string): string { PREFIX + id }

  function IdOf(ref: string): Result<string, ErrorCode> {
    if |ref| >= |PREFIX| && ref[..|PREFIX|] == PREFIX && IsId(ref[|PREFIX|..]) then Ok(ref[|PREFIX|..]) else Err(InvalidRef)
  }

  /** Exactly the references the vault gives out are understood, and as what they were given out for. */
  lemma RefsRoundTrip(ref: string, id: string)
    ensures IdOf(ref) == Ok(id) <==> IsId(id) && ref == RefTo(id)
  {
  }

  /** By code: a reference is `vault://` and 32 digits, decimal or small letters up to f. */
  lemma RefsAre(ref: string)
    ensures IdOf(ref).Ok? <==>
      && |ref| == 40 && ref[..8] == "vault://"
      && forall i :: 8 <= i < 40 ==> 48 <= ref[i] as int < 58 || 97 <= ref[i] as int < 103
    ensures IdOf(ref).Ok? ==> IdOf(ref).value == ref[8..]
  {
    if |ref| >= 8 {
      assert forall i :: 8 <= i < |ref| ==> ref[8..][i - 8] == ref[i];
    }
  }

  // ---- What a vault holds ---------------------------------------------------------

  predicate Opens(key: Key, file: VaultFile) {
    Decrypt(key, CHECK_ID, file.check) == Some(CHECK_PLAINTEXT)
  }

  /** The secrets a key can read, by id. */
  function Contents(key: Key, file: VaultFile): map<string, string> {
    map id | id in file.secrets && Decrypt(key, id, file.secrets[id].blob).Some? ::
      Decrypt(key, id, file.secrets[id].blob).value
  }

  function Lookup(key: Key, file: VaultFile, ref: string): Result<string, ErrorCode> {
    match IdOf(ref)
    case Err(code) => Err(code)
    case Ok(id) =>
      if id !in file.secrets then Err(NotFound)
      else if id in Contents(key, file) then Ok(Contents(key, file)[id])
      else if Opens(key, file) then Err(Corrupt)
      else Err(WrongKey)
  }

  // ---- What operations do to a vault -------------------------------------------------

  /** The key in memory and the file it is used with. */
  datatype State = State(key: Key, file: VaultFile)

  datatype Op =
    | PutOp(id: string, name: string, value: string, now: int)
    | UpdateOp(id: string, value: string, now: int)
    | DeleteOp(id: string)
    | RotateOp(source: KeySource, salt: int)   // the salt is the fresh one

  /** Every secret in the file has a proper id and can be read with the key. */
  ghost predicate Whole(s: State) {
    forall id :: id in s.file.secrets ==> IsId(id) && Decrypt(s.key, id, s.file.secrets[id].blob).Some?
  }

  /** The ids new secrets are given are proper ones. */
  predicate ProperIds(ops: seq<Op>) {
    forall i :: 0 <= i < |ops| && ops[i].PutOp? ==> IsId(ops[i].id)
  }

  ghost function Rotated(s: State, next: Key, kdf: Kdf): VaultFile
    requires Whole(s)
  {
    var plaintexts := Contents(s.key, s.file);
    VaultFile(kdf, Encrypt(next, CHECK_ID, CHECK_PLAINTEXT),
      map id | id in s.file.secrets :: s.file.secrets[id].(blob := Encrypt(next, id, plaintexts[id])))
  }

  /** What an operation that goes through leaves behind. */
  ghost function After(s: State, op: Op): State {
    var secrets := s.file.secrets;
    match op
    case PutOp(id, name, value, now) =>
      s.(file := s.file.(secrets := secrets[id := Record(name, now, now, Encrypt(s.key, id, value))]))
    case UpdateOp(id, value, now) =>
      if id !in secrets then s
      else s.(file := s.file.(secrets := secrets[id := secrets[id].(updatedAt := now, blob := Encrypt(s.key, id, value))]))
    case DeleteOp(id) => s.(file := s.file.(secrets := secrets - {id}))
    case RotateOp(source, salt) =>
      match DeriveFresh(source, salt)
      case Err(_) => s
      case Ok((next, kdf)) => if Whole(s) then State(next, Rotated(s, next, kdf)) else s
  }

  /** What the same operation does to a plain map from ids to values. */
  function MapAfter(m: map<string, string>, op: Op): map<string, string> {
    match op
    case PutOp(id, _, value, _) => m[id := value]
    case UpdateOp(id, value, _) => if id in m then m[id := value] else m
    case DeleteOp(id) => m - {id}
    case RotateOp(_, _) => m
  }

  ghost function AfterAll(s: State, ops: seq<Op>): State {
    if ops == [] then s else After(AfterAll(s, ops[..|ops| - 1]), ops[|ops| - 1])
  }

  function MapAfterAll(m: map<string, string>, ops: seq<Op>): map<string, string> {
    if ops == [] then m else MapAfter(MapAfterAll(m, ops[..|ops| - 1]), ops[|ops| - 1])
  }

  lemma SealedReadsBack(s: State, id: string, record: Record, value: string)
    requires Whole(s) && IsId(id) && record.blob == Encrypt(s.key, id, value)
    ensures var file := s.file.(secrets := s.file.secrets[id := record]);
      Whole(s.(file := file)) && Contents(s.key, file) == Contents(s.key, s.file)[id := value]
  {
  }

  lemma RotatedReadsBack(s: State, next: Key, kdf: Kdf)
    requires Whole(s)
    ensures var s' := State(next, Rotated(s, next, kdf));
      Whole(s') && Opens(next, s'.file) && Contents(next, s'.file) == Contents(s.key, s.file)
  {
  }

  lemma StepIsAMapStep(s: State, op: Op)
    requires Whole(s) && (op.PutOp? ==> IsId(op.id))
    ensures var s' := After(s, op);
      && Whole(s')
      && Contents(s'.key, s'.file) == MapAfter(Contents(s.key, s.file), op)
      && (Opens(s.key, s.file) ==> Opens(s'.key, s'.file))
  {
    match op
    case PutOp(id, name, value, now) =>
      SealedReadsBack(s, id, Record(name, now, now, Encrypt(s.key, id, value)), value);
    case UpdateOp(id, value, now) =>
      if id in s.file.secrets {
        SealedReadsBack(s, id, s.file.secrets[id].(updatedAt := now, blob := Encrypt(s.key, id, value)), value);
      }
    case DeleteOp(id) =>
    case RotateOp(source, salt) =>
      if DeriveFresh(source, salt).Ok? {
        var (next, kdf) := DeriveFresh(source, salt).value;
        RotatedReadsBack(s, next, kdf);
      }
  }

  /**
   * Over any run of puts, updates, deletions and rotations a vault that can be read is a plain map
   * from ids to values, stays readable, and its check record goes with its key.
   */
  lemma {:induction false} VaultIsAMap(s: State, ops: seq<Op>)
    requires Whole(s) && ProperIds(ops)
    ensures var s' := AfterAll(s, ops);
      && Whole(s')
      && Contents(s'.key, s'.file) == MapAfterAll(Contents(s.key, s.file), ops)
      && (Opens(s.key, s.file) ==> Opens(s'.key, s'.file))
  {
    if ops != [] {
      VaultIsAMap(s, ops[..|ops| - 1]);
      StepIsAMapStep(AfterAll(s, ops[..|ops| - 1]), ops[|ops| - 1]);
    }
  }

  /** Rotation keeps every secret's id, name and dates, and shuts out every key but the new one. */
  lemma RotationKeepsLabels(s: State, source: KeySource, salt: int)
    requires Whole(s) && DeriveFresh(source, salt).Ok?
    ensures var s' := After(s, RotateOp(source, salt));
      && s'.key == DeriveFresh(source, salt).value.0
      && SameLabels(s.file.secrets, s'.file.secrets)
      && (forall k :: k != s'.key ==> !Opens(k, s'.file))
      && forall k, id :: k != s'.key && id in s.file.secrets ==> Lookup(k, s'.file, RefTo(id)) == Err(WrongKey)
  {
    forall id | id in s.file.secrets ensures IdOf(RefTo(id)) == Ok(id) {
      RefsRoundTrip(RefTo(id), id);
    }
  }

  /** The same secrets by id, name and creation and update times. */
  ghost predicate SameLabels(a: map<string, Record>, b: map<string, Record>) {
    a.Keys == b.Keys && forall id :: id in a ==> a[id] == b[id].(blob := a[id].blob)
  }

  // ---- Opening what was saved --------------------------------------------------------

  function SaltOf(kdf: Kdf): Option<int> {
    if kdf.Scrypt? then Some(kdf.salt) else None
  }

  /** The vault a saved file and a key source make. */
  function Reopened(source: KeySource, saved: VaultFile, verifyKey: bool): Result<State, ErrorCode> {
    match Derive(source, SaltOf(saved.kdf))
    case Err(code) => Err(code)
    case Ok(key) => if verifyKey && !Opens(key, saved) then Err(WrongKey) else Ok(State(key, saved))
  }

  /** The source whose key a vault has after an operation. */
  function SourceAfter(source: KeySource, op: Op): KeySource {
    if op.RotateOp? && DeriveFresh(op.source, op.salt).Ok? then op.source else source
  }

  function SourceAfterAll(source: KeySource, ops: seq<Op>): KeySource {
    if ops == [] then source else SourceAfter(SourceAfterAll(source, ops[..|ops| - 1]), ops[|ops| - 1])
  }

  lemma StepKeepsItsSource(s: State, source: KeySource, op: Op)
    requires Whole(s) && Opens(s.key, s.file) && Derive(source, SaltOf(s.file.kdf)) == Ok(s.key)
    ensures var s' := After(s, op); Derive(SourceAfter(source, op), SaltOf(s'.file.kdf)) == Ok(s'.key)
  {
    if op.RotateOp? && DeriveFresh(op.source, op.salt).Ok? {
      var (next, kdf) := DeriveFresh(op.source, op.salt).value;
      SavedKdfGivesTheKeyBack(op.source, op.salt, next, kdf);
    }
  }

  /**
   * After any run of operations, the file left behind opens under the source it was last rotated
   * to, or else first opened with, as the very vault the run ended with: the map it stands for is
   * the map the run makes.
   */
  lemma {:induction false} ReopeningGivesTheSameVault(s: State, source: KeySource, ops: seq<Op>, verifyKey: bool)
    requires Whole(s) && ProperIds(ops) && Reopened(source, s.file, true) == Ok(s)
    ensures var s' := AfterAll(s, ops);
      && Reopened(SourceAfterAll(source, ops), s'.file, verifyKey) == Ok(s')
      && Contents(s'.key, s'.file) == MapAfterAll(Contents(s.key, s.file), ops)
  {
    VaultIsAMap(s, ops);
    if ops != [] {
      var before := ops[..|ops| - 1];
      ReopeningGivesTheSameVault(s, source, before, true);
      VaultIsAMap(s, before);
      StepKeepsItsSource(AfterAll(s, before), SourceAfterAll(source, before), ops[|ops| - 1]);
    }
  }

  /** A new vault opens again under the source it was made with. */
  lemma NewVaultReopens(source: KeySource, salt: int)
    requires DeriveFresh(source, salt).Ok?
    ensures var (key, kdf) := DeriveFresh(source, salt).value;
      var file := VaultFile(kdf, Encrypt(key, CHECK_ID, CHECK_PLAINTEXT), map[]);
      Reopened(source, file, true) == Ok(State(key, file)) && Whole(State(key, file))
  {
    var (key, kdf) := DeriveFresh(source, salt).value;
    SavedKdfGivesTheKeyBack(source, salt, key, kdf);
  }

  /** Where the file is kept. Saving may fail, and then changes nothing. */
  class RecordStore {
    var saved: Option<VaultFile>

    constructor ()
      ensures saved.None?
    {
      saved := None;
    }

    method Save(file: VaultFile, working: bool) returns (ok: bool)
      modifies this
      ensures ok <==> working
      ensures saved == if ok then Some(file) else old(saved)
    {
      if working { saved := Some(file); }
      return working;
    }
  }

  class Vault {
    const store: RecordStore
    var key: Key
    var file: VaultFile

    /** Memory and the persisted file agree. */
    ghost predicate Valid()
      reads this, store
    {
      store.saved == Some(file)
    }

    ghost function View(): State
      reads this
    {
      State(key, file)
    }

    ghost function Secrets(): map<string, string>
      reads this
    {
      Contents(key, file)
    }

    constructor Holding(store: RecordStore, key: Key, file: VaultFile)
      ensures this.store == store && this.key == key && this.file == file
    {
      this.store, this.key, this.file := store, key, file;
    }

    /** `salt` is the fresh salt a new vault would use, `working` whether the store can save. */
    static method Open(
      store: RecordStore, source: KeySource, create: bool, verifyKey: bool, salt: int, working: bool)
      returns (r: Result<Vault, ErrorCode>)
      modifies store
      ensures r.Ok? ==> r.value.Valid() && r.value.store == store && fresh(r.value)
      ensures old(store.saved).Some? ==> store.saved == old(store.saved)
      // Reopening: the file as it was saved, under the key the source derives for it.
      ensures old(store.saved).Some? ==>
        match r
        case Ok(vault) => Reopened(source, old(store.saved).value, verifyKey) == Ok(vault.View())
        case Err(code) => Reopened(source, old(store.saved).value, verifyKey) == Err(code)
      ensures old(store.saved).Some? && r.Ok? ==>
        && r.value.file == old(store.saved).value
        && (source.RawSource? ==> source.bytes.Some? && r.value.key == Given(source.bytes.value))
        && (source.PassphraseSource? ==>
              r.value.file.kdf.Scrypt? && r.value.key == Derived(source.passphrase, r.value.file.kdf.salt))
        && (verifyKey ==> r.value.file.check == Sealed(r.value.key, CHECK_ID, CHECK_PLAINTEXT))
      ensures old(store.saved).Some? && r.Err? ==>
        match r.error
        case MissingKey => if source.RawSource? then source.bytes.None? else old(store.saved).value.kdf.RawKdf?
        case WrongKey => verifyKey
        case _ => false
      // Creating: an empty vault that its own key opens.
      ensures old(store.saved).None? && r.Ok? ==>
        create && r.value.file.secrets == map[] && Opens(r.value.key, r.value.file)
        && r.value.file.check == Sealed(r.value.key, CHECK_ID, CHECK_PLAINTEXT)
        && (source.RawSource? ==>
              source.bytes.Some? && r.value.key == Given(source.bytes.value) && r.value.file.kdf == RawKdf)
        && (source.PassphraseSource? ==>
              r.value.key == Derived(source.passphrase, salt) && r.value.file.kdf == Scrypt(salt))
      ensures old(store.saved).None? && r.Err? ==> store.saved.None?
      ensures old(store.saved).None? && !create ==> r == Err(NotInitialized)
    {
      if store.saved.None? {
        if !create { return Err(NotInitialized); }
        var derived := DeriveFresh(source, salt);
        if derived.Err? { return Err(derived.error); }
        var (key, kdf) := derived.value;
        var file := VaultFile(kdf, Encrypt(key, CHECK_ID, CHECK_PLAINTEXT), map[]);
        var ok := store.Save(file, working);
        if !ok { return Err(StoreFailed); }
        var vault := new Vault.Holding(store, key, file);
        return Ok(vault);
      }
      var file := store.saved.value;
      var derived := Derive(source, SaltOf(file.kdf));
      if derived.Err? { return Err(derived.error); }
      var vault := new Vault.Holding(store, derived.value, file);
      if verifyKey && !Opens(vault.key, vault.file) { return Err(WrongKey); }
      return Ok(vault);
    }

    /** Saved first, and only then held in memory. */
    method Persist(next: VaultFile, working: bool) returns (ok: bool)
      requires Valid()
      modifies this`file, store
      ensures Valid() && (ok <==> working)
      ensures file == if ok then next else old(file)
    {
      ok := store.Save(next, working);
      if ok { file := next; }
    }

    /** `id` is the fresh random id. */
    method Put(name: string, value: string, id: string, now: int, working: bool) returns (r: Result<string, ErrorCode>)
      requires Valid() && IsId(id) && id !in file.secrets
      modifies this`file, store
      ensures Valid()
      ensures r == if working then Ok(RefTo(id)) else Err(StoreFailed)
      ensures View() == if r.Ok? then After(old(View()), PutOp(id, name, value, now)) else old(View())
      ensures r.Ok? ==> Secrets() == old(Secrets())[id := value]
      ensures r.Ok? ==>
        file == old(file).(secrets := old(file).secrets[id := Record(name, now, now, Sealed(key, id, value))])
    {
      var record := Record(name, now, now, Encrypt(key, id, value));
      var ok := Persist(file.(secrets := file.secrets[id := record]), working);
      return if ok then Ok(RefTo(id)) else Err(StoreFailed);
    }

    method Update(ref: string, value: string, now: int, working: bool) returns (r: Result<string, ErrorCode>)
      requires Valid()
      modifies this`file, store
      ensures Valid()
      ensures r == if IdOf(ref).Err? then Err(InvalidRef)
                   else if IdOf(ref).value !in old(file).secrets then Err(NotFound)
                   else if !working then Err(StoreFailed) else Ok(ref)
      ensures View() == if r.Ok? then After(old(View()), UpdateOp(IdOf(ref).value, value, now)) else old(View())
      ensures r.Ok? ==> Secrets() == old(Secrets())[IdOf(ref).value := value]
      ensures r.Ok? ==>
        var id, before := IdOf(ref).value, old(file).secrets;
        file == old(file).(secrets :=
          before[id := Record(before[id].name, before[id].createdAt, now, Sealed(key, id, value))])
    {
      var parsed := IdOf(ref);
      if parsed.Err? { return Err(parsed.error); }
      var id := parsed.value;
      RefsRoundTrip(ref, id);
      if id !in file.secrets { return Err(NotFound); }
      var record := file.secrets[id].(updatedAt := now, blob := Encrypt(key, id, value));
      var ok := Persist(file.(secrets := file.secrets[id := record]), working);
      return if ok then Ok(RefTo(id)) else Err(StoreFailed);
    }

    method Get(ref: string) returns (r: Result<string, ErrorCode>)
      ensures r == Lookup(key, file, ref)
      ensures r == Err(InvalidRef) <==> IdOf(ref).Err?
      ensures r == Err(NotFound) <==> IdOf(ref).Ok? && IdOf(ref).value !in file.secrets
      ensures IdOf(ref).Ok? && IdOf(ref).value in file.secrets ==>
        var id, blob := IdOf(ref).value, file.secrets[IdOf(ref).value].blob;
        && (forall value :: r == Ok(value) <==> blob == Sealed(key, id, value))
        && (r.Err? ==> r.error == if file.check == Sealed(key, CHECK_ID, CHECK_PLAINTEXT) then Corrupt else WrongKey)
    {
      var parsed := IdOf(ref);
      if parsed.Err? { return Err(parsed.error); }
      var id := parsed.value;
      if id !in file.secrets { return Err(NotFound); }
      var value := Decrypt(key, id, file.secrets[id].blob);
      if value.None? {
        return if Opens(key, file) then Err(Corrupt) else Err(WrongKey);
      }
      return Ok(value.value);
    }

    method Delete(ref: string, working: bool) returns (r: Result<bool, ErrorCode>)
      requires Valid()
      modifies this`file, store
      ensures Valid()
      ensures r == if IdOf(ref).Err? then Err(InvalidRef)
                   else if IdOf(ref).value !in old(file).secrets then Ok(false)
                   else if working then Ok(true) else Err(StoreFailed)
      ensures View() == if r == Ok(true) then After(old(View()), DeleteOp(IdOf(ref).value)) else old(View())
      ensures r == Ok(true) ==> Secrets() == old(Secrets()) - {IdOf(ref).value}
      ensures r == Ok(true) ==> file == old(file).(secrets := old(file).secrets - {IdOf(ref).value})
    {
      var parsed := IdOf(ref);
      if parsed.Err? { return Err(parsed.error); }
      var id := parsed.value;
      if id !in file.secrets { return Ok(false); }
      var ok := Persist(file.(secrets := file.secrets - {id}), working);
      return if ok then Ok(true) else Err(StoreFailed);
    }

    /** Reads every secret; one that cannot be read stops it. */
    method Plaintexts() returns (r: Result<map<string, string>, ErrorCode>)
      ensures r.Ok? <==> Whole(View())
      ensures r.Ok? ==> r.value == Secrets()
      ensures r.Err? ==> exists id :: id in file.secrets && Lookup(key, file, RefTo(id)) == Err(r.error)
    {
      var plaintexts: map<string, string> := map[];
      var left := file.secrets.Keys;
      while left != {}
        invariant left <= file.secrets.Keys
        invariant plaintexts.Keys == file.secrets.Keys - left
        invariant forall id :: id in plaintexts ==> IsId(id) && id in Secrets() && plaintexts[id] == Secrets()[id]
        decreases left
      {
        var id :| id in left;
        RefsRoundTrip(RefTo(id), id);
        var value := Get(RefTo(id));
        if value.Err? { return Err(value.error); }
        plaintexts := plaintexts[id := value.value];
        left := left - {id};
      }
      return Ok(plaintexts);
    }

    /** Seals every secret again under another key. */
    method Resealed(newKey: Key, plaintexts: map<string, string>) returns (secrets: map<string, Record>)
      requires plaintexts.Keys == file.secrets.Keys
      ensures secrets.Keys == file.secrets.Keys
      ensures forall id :: id in secrets ==>
        secrets[id] == file.secrets[id].(blob := Encrypt(newKey, id, plaintexts[id]))
    {
      secrets := map[];
      var left := file.secrets.Keys;
      while left != {}
        invariant left <= file.secrets.Keys && secrets.Keys == file.secrets.Keys - left
        invariant forall id :: id in secrets ==>
          secrets[id] == file.secrets[id].(blob := Encrypt(newKey, id, plaintexts[id]))
        decreases left
      {
        var id :| id in left;
        secrets := secrets[id := file.secrets[id].(blob := Encrypt(newKey, id, plaintexts[id]))];
        left := left - {id};
      }
    }

    /**
     * Moves the vault to a new key. It succeeds exactly when every
     * secret can be read, a key can be derived and the store can save; otherwise nothing changes.
     */
    method Rotate(source: KeySource, salt: int, working: bool) returns (r: Option<ErrorCode>)
      requires Valid()
      modifies this, store
      ensures Valid()
      ensures r.None? <==> Whole(old(View())) && DeriveFresh(source, salt).Ok? && working
      ensures r.Some? ==> View() == old(View())
      ensures r.None? ==>
        DeriveFresh(source, salt) == Ok((key, file.kdf)) && View() == After(old(View()), RotateOp(source, salt))
      ensures r.None? ==> Secrets() == old(Secrets()) && Opens(key, file)
    {
      var plaintexts := Plaintexts();
      if plaintexts.Err? { return Some(plaintexts.error); }
      var derived := DeriveFresh(source, salt);
      if derived.Err? { return Some(derived.error); }
      var (newKey, kdf) := derived.value;
      var secrets := Resealed(newKey, plaintexts.value);
      var next := VaultFile(kdf, Encrypt(newKey, CHECK_ID, CHECK_PLAINTEXT), secrets);
      assert next == Rotated(View(), newKey, kdf);
      assert Contents(newKey, next) == plaintexts.value;
      var ok := Persist(next, working);
      if !ok { return Some(StoreFailed); }
      key := newKey;
      return None;
    }
  }

  // ---- What the old key is worth ----------------------------------------------------

  /** Rotating to a passphrase, even the same one, always changes the key when the salt is fresh. */
  lemma FreshSaltFreshKey(source: KeySource, salt: int, former: Key, next: Key, kdf: Kdf)
    requires source.PassphraseSource? && DeriveFresh(source, salt) == Ok((next, kdf))
    requires former.Derived? ==> former.salt != salt
    ensures next != former
    ensures Derive(source, SaltOf(kdf)) == Ok(next)
  {
  }

  /** The source a vault was created or rotated with derives the same key from what was saved. */
  lemma SavedKdfGivesTheKeyBack(source: KeySource, salt: int, key: Key, kdf: Kdf)
    requires DeriveFresh(source, salt) == Ok((key, kdf))
    ensures Derive(source, SaltOf(kdf)) == Ok(key)
  {
  }
}
