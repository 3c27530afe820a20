/**
  The encrypted file store for sessions. A file is named after the hash of its session
  identifier; a save writes a temporary file, removes the old file, and renames. A crash, or
  an error of the file system, may stop a save after any of its steps.
 */
module FileStore {
  import opened Bytes
  import opened Primitives
  import opened RatchetPersistence
  import opened Text
  import SessionStore

  /** The file of a session and the temporary file beside it. */
  datatype Name = Final(id: string) | Temp(id: string)

  /** A record sealed with the store's key, bound to the identifier. */
  datatype Record = Record(key: nat, nonce: Nonce, id: string, session: PersistedSession)

  /** What a file holds: a whole record, or anything else, such as one partly written. */
  datatype Content = Whole(record: Record) | Partial(what: nat)

  type Files = map<Name, Content>

  /** A whole record of a session, sealed with the key and bound to the identifier. */
  ghost predicate IsRecordOf(content: Content, key: nat, id: string, session: PersistedSession) {
    && content.Whole?
    && content.record.key == key && content.record.id == id && content.record.session == session
  }

  /** Files differ in the given names at most. */
  ghost predicate SameBut(before: Files, after: Files, names: set<Name>) {
    forall n :: n !in names ==> (n in after <==> n in before) && (n in before ==> after[n] == before[n])
  }

  function Load(files: Files, key: nat, id: string): Result<Option<PersistedSession>> {
    if IsBlank(id) then Err(InvalidRatchetSessionId)
    else if Final(id) !in files then Ok(None)
    else
      match files[Final(id)]
      case Partial(_) => Err(StorageFailure)
      case Whole(r) => if r.key == key && r.id == id then Ok(Some(r.session)) else Err(StorageFailure)
  }

  const STEPS: nat := 4

  /** The files after `stop` steps of a save; stopped while writing, the temporary file holds `part`. */
  function SavedUpTo(files: Files, id: string, record: Record, part: Content, stop: nat): Files {
    if stop == 0 then files
    else if stop == 1 then files[Temp(id) := part]
    else if stop == 2 then files[Temp(id) := Whole(record)]
    else if stop == 3 then files[Temp(id) := Whole(record)] - {Final(id)}
    else (files - {Temp(id)})[Final(id) := Whole(record)]
  }

  class EncryptedFileSessionStore {
    const key: nat
    var files: Files

    constructor (key: nat)
      ensures this.key == key && files == map[]
    {
      this.key, files := key, map[];
    }

    method LoadSession(id: string) returns (r: Result<Option<PersistedSession>>)
      ensures IsBlank(id) ==> r == Err(InvalidRatchetSessionId)
      ensures !IsBlank(id) && Final(id) !in files ==> r == Ok(None)
      ensures forall session :: r == Ok(Some(session)) <==>
                !IsBlank(id) && Final(id) in files && IsRecordOf(files[Final(id)], key, id, session)
      ensures !IsBlank(id) && r.Err? ==> r == Err(StorageFailure)
      ensures r == Load(files, key, id)
    {
      if IsBlank(id) {
        return Err(InvalidRatchetSessionId);
      }
      if Final(id) !in files {
        return Ok(None);
      }
      var content := files[Final(id)];
      if content.Partial? || content.record.key != key || content.record.id != id {
        return Err(StorageFailure);
      }
      return Ok(Some(content.record.session));
    }

    /** `stop` is the step a crash or a file system error comes after; STEPS if none does. */
    method SaveSession(id: string, session: PersistedSession, nonce: Nonce, part: Content, stop: nat)
      returns (r: Outcome)
      modifies this
      ensures r == if IsBlank(id) then Fail(InvalidRatchetSessionId)
                   else if stop < STEPS then Fail(StorageFailure)
                   else Pass
      ensures files == if IsBlank(id) then old(files)
                       else SavedUpTo(old(files), id, Record(key, nonce, id, session), part, stop)
      ensures SameBut(old(files), files, {Final(id), Temp(id)})
      ensures r.Pass? ==> Temp(id) !in files && Final(id) in files && files[Final(id)] == Whole(Record(key, nonce, id, session))
      ensures r == Fail(StorageFailure) ==>
                && (stop == 0 ==> files == old(files))
                && (stop == 1 ==> files == old(files)[Temp(id) := part])
                && (2 <= stop ==> Temp(id) in files && files[Temp(id)] == Whole(Record(key, nonce, id, session)))
                && (stop == 2 ==> SameBut(old(files), files, {Temp(id)}))
                && (stop == 3 ==> Final(id) !in files)
    {
      if IsBlank(id) {
        return Fail(InvalidRatchetSessionId);
      }
      if stop == 0 {
        return Fail(StorageFailure);
      }
      var record := Record(key, nonce, id, session);
      files := files[Temp(id) := part];
      if stop == 1 {
        return Fail(StorageFailure);
      }
      files := files[Temp(id) := Whole(record)];
      if stop == 2 {
        return Fail(StorageFailure);
      }
      if Final(id) in files {
        files := files - {Final(id)};
      }
      if stop == 3 {
        return Fail(StorageFailure);
      }
      files := (files - {Temp(id)})[Final(id) := files[Temp(id)]];
      return Pass;
    }

    method DeleteSession(id: string) returns (r: Outcome)
      modifies this
      ensures r == if IsBlank(id) then Fail(InvalidRatchetSessionId) else Pass
      ensures files == if IsBlank(id) then old(files) else old(files) - {Final(id)}
      ensures SameBut(old(files), files, if IsBlank(id) then {} else {Final(id)})
      ensures r.Pass? ==> Final(id) !in files
    {
      if IsBlank(id) {
        return Fail(InvalidRatchetSessionId);
      }
      if Final(id) in files {
        files := files - {Final(id)};
      }
      return Pass;
    }
  }

  /** The files after each step of a save: the temporary file, the old one removed, the new one in its place. */
  lemma SaveSteps(files: Files, key: nat, id: string, session: PersistedSession, nonce: Nonce, part: Content, stop: nat)
    ensures var after := SavedUpTo(files, id, Record(key, nonce, id, session), part, stop);
            && SameBut(files, after, {Final(id), Temp(id)})
            && (stop == 0 ==> after == files)
            && (stop == 1 ==> after == files[Temp(id) := part])
            && (stop in {2, 3} ==> Temp(id) in after && after[Temp(id)] == Whole(Record(key, nonce, id, session)))
            && (stop == 2 ==> SameBut(files, after, {Temp(id)}))
            && (stop == 3 ==> Final(id) !in after)
            && (stop >= 4 ==>
                  && Temp(id) !in after && Final(id) in after
                  && after[Final(id)] == Whole(Record(key, nonce, id, session)))
  {
  }

  /** What loads, in terms of the file named after the session. */
  lemma LoadReads(files: Files, key: nat, id: string)
    ensures var r := Load(files, key, id);
            && (IsBlank(id) ==> r == Err(InvalidRatchetSessionId))
            && (!IsBlank(id) && Final(id) !in files ==> r == Ok(None))
            && (!IsBlank(id) && Final(id) in files ==>
                  forall session :: r == Ok(Some(session)) <==> IsRecordOf(files[Final(id)], key, id, session))
            && (!IsBlank(id) && Final(id) in files && r.Err? ==> r.error == StorageFailure)
            && (!IsBlank(id) && Final(id) in files && r.Ok? ==> r.value.Some?)
  {
  }

  /**
    After a crash at any step the session loads as it was, as it was to be, or not at all; it
    is lost only between the removal and the renaming, when the temporary file holds the new
    one whole; and no other session is affected.
   */
  lemma CrashLeavesOldNewOrNothing(
    files: Files, key: nat, id: string, session: PersistedSession, nonce: Nonce, part: Content, stop: nat, other: string)
    requires !IsBlank(id)
    ensures var record := Record(key, nonce, id, session);
            var after := SavedUpTo(files, id, record, part, stop);
            && (stop <= 2 ==> Load(after, key, id) == Load(files, key, id))
            && (stop == 3 ==> Load(after, key, id) == Ok(None) && Temp(id) in after && after[Temp(id)] == Whole(record))
            && (stop >= STEPS ==> Load(after, key, id) == Ok(Some(session)))
            && (other != id ==> Load(after, key, other) == Load(files, key, other))
  {
  }

  // The store as a map

  datatype Operation =
    | Save(id: string, session: PersistedSession, nonce: Nonce, part: Content, stop: nat)
    | Delete(id: string)

  function Applied(key: nat, files: Files, o: Operation): Files {
    if IsBlank(o.id) then files
    else
      match o
      case Save(id, session, nonce, part, stop) =>
        SavedUpTo(files, id, Record(key, nonce, id, session), part, stop)
      case Delete(id) => files - {Final(id)}
  }

  function AllApplied(key: nat, files: Files, operations: seq<Operation>): Files
    decreases |operations|
  {
    if operations == [] then files
    else AllApplied(key, Applied(key, files, operations[0]), operations[1..])
  }

  /** What an operation does to a map from identifiers to sessions. */
  function MapApplied(m: SessionStore.Sessions, o: Operation): SessionStore.Sessions {
    if IsBlank(o.id) then m
    else
      match o
      case Save(id, session, _, _, stop) =>
        if stop <= 2 then m else if stop == 3 then m - {id} else m[id := session]
      case Delete(id) => m - {id}
  }

  function AllMapApplied(m: SessionStore.Sessions, operations: seq<Operation>): SessionStore.Sessions
    decreases |operations|
  {
    if operations == [] then m else AllMapApplied(MapApplied(m, operations[0]), operations[1..])
  }

  /** Every session file holds one whole record: the map's session, under this key and identifier. */
  ghost predicate Holds(key: nat, files: Files, m: SessionStore.Sessions) {
    && (forall id :: id in m ==> Final(id) in files)
    && (forall n :: n in files && n.Final? ==>
          && n.id in m && files[n].Whole?
          && files[n].record.key == key && files[n].record.id == n.id && files[n].record.session == m[n.id])
  }

  lemma OperationHolds(key: nat, files: Files, m: SessionStore.Sessions, o: Operation)
    requires Holds(key, files, m)
    ensures Holds(key, Applied(key, files, o), MapApplied(m, o))
  {
  }

  lemma {:induction false} OperationsHold(key: nat, files: Files, m: SessionStore.Sessions, operations: seq<Operation>)
    requires Holds(key, files, m)
    ensures Holds(key, AllApplied(key, files, operations), AllMapApplied(m, operations))
    decreases |operations|
  {
    if operations != [] {
      hide Holds, Applied, MapApplied;
      OperationHolds(key, files, m, operations[0]);
      OperationsHold(key, Applied(key, files, operations[0]), MapApplied(m, operations[0]), operations[1..]);
    }
  }

  /**
    The file store refines the map: after any saves and deletions, with crashes at any steps,
    every identifier loads exactly as from the map, and never as a partial record.
   */
  lemma StoreRefinesMap(key: nat, operations: seq<Operation>, id: string)
    ensures Load(AllApplied(key, map[], operations), key, id)
            == SessionStore.Load(AllMapApplied(map[], operations), id)
  {
    assert Holds(key, map[], map[]);
    OperationsHold(key, map[], map[], operations);
    hide AllApplied, AllMapApplied;
  }

  /** Under another key nothing stored can be read, and what is missing is still missing. */
  lemma OtherKeysReadNothing(key: nat, other: nat, files: Files, m: SessionStore.Sessions, id: string)
    requires Holds(key, files, m) && other != key && !IsBlank(id)
    ensures Load(files, other, id) == if id in m then Err(StorageFailure) else Ok(None)
  {
    assert id in m ==> Final(id) in files;
  }
}
