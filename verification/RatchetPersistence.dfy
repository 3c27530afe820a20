/** The persisted form of a session, and what survives a save and a load. */
module RatchetPersistence {
  import opened Bytes
  import opened Primitives
  import opened RatchetState
  import opened RatchetRuns

  datatype PersistedKey = PersistedKey(key: Encoded<PublicKey>, number: nat, messageKey: Encoded<Key>)

  datatype PersistedSession = PersistedSession(
    version: string,
    root: Encoded<Key>,
    localSecret: Encoded<Secret>,
    localPublic: Encoded<PublicKey>,
    remote: Option<Encoded<PublicKey>>,
    sending: Option<Encoded<Key>>,
    receiving: Option<Encoded<Key>>,
    previous: nat,
    sent: nat,
    received: nat,
    skipped: seq<PersistedKey>)

  /** The order the cache is kept in: by ratchet key, then by message number. */
  predicate Before(a: SkippedId, b: SkippedId) {
    a.key.id < b.key.id || (a.key == b.key && a.number < b.number)
  }

  ghost predicate IsLeast(ids: set<SkippedId>, id: SkippedId) {
    id in ids && forall other | other in ids :: other == id || Before(id, other)
  }

  lemma {:induction false} HasLeast(ids: set<SkippedId>)
    requires ids != {}
    ensures exists id :: IsLeast(ids, id)
    decreases ids
  {
    var a :| a in ids;
    var rest := ids - {a};
    if rest == {} {
      assert ids == {a};
      assert IsLeast(ids, a);
    } else {
      HasLeast(rest);
      var b :| IsLeast(rest, b);
      var least := if Before(a, b) then a else b;
      forall other | other in ids ensures other == least || Before(least, other) {
        assert other == a || other == b || Before(b, other);
      }
      assert IsLeast(ids, least);
    }
  }

  ghost function Least(ids: set<SkippedId>): (id: SkippedId)
    requires ids != {}
    ensures IsLeast(ids, id)
  {
    HasLeast(ids);
    var id :| IsLeast(ids, id);
    id
  }

  lemma LeastUnique(ids: set<SkippedId>, id: SkippedId)
    requires ids != {} && IsLeast(ids, id)
    ensures id == Least(ids)
  {
  }

  function EntryFor(id: SkippedId, key: Key): PersistedKey {
    PersistedKey(Encoded(id.key), id.number, Encoded(key))
  }

  /** The cache as a list, in its order. */
  ghost function Listing(skipped: map<SkippedId, Key>): seq<PersistedKey>
    decreases skipped.Keys
  {
    if skipped == map[] then []
    else
      var id := Least(skipped.Keys);
      [EntryFor(id, skipped[id])] + Listing(skipped - {id})
  }

  function MapEncoded<T>(o: Option<T>): Option<Encoded<T>> {
    match o
    case None => None
    case Some(value) => Some(Encoded(value))
  }

  ghost function Persist(s: State): PersistedSession {
    PersistedSession(
      RATCHET_VERSION, Encoded(s.root), Encoded(s.local.secret), Encoded(s.local.public),
      MapEncoded(s.remote), MapEncoded(s.sending), MapEncoded(s.receiving),
      s.previous, s.sent, s.received, Listing(s.skipped))
  }

  function RestoredKeys(entries: seq<PersistedKey>, skipped: map<SkippedId, Key>): Result<map<SkippedId, Key>>
    decreases |entries|
  {
    if entries == [] then Ok(skipped)
    else if |skipped| >= MAX_SKIPPED_MESSAGE_KEYS then Err(TooManySkippedMessages)
    else
      var key := Decode(entries[0].key, InvalidRatchetMessage);
      var messageKey := Decode(entries[0].messageKey, InvalidRatchetMessage);
      if key.Err? then Err(key.error)
      else if messageKey.Err? then Err(messageKey.error)
      else RestoredKeys(entries[1..], skipped[SkippedId(key.value, entries[0].number) := messageKey.value])
  }

  function DecodeOption<T>(o: Option<Encoded<T>>): Result<Option<T>> {
    match o
    case None => Ok(None)
    case Some(text) =>
      var value := Decode(text, InvalidRatchetMessage);
      if value.Err? then Err(value.error) else Ok(Some(value.value))
  }

  function Restore(p: PersistedSession): Result<State> {
    if p.version != RATCHET_VERSION then Err(UnsupportedVersion)
    else
      var secret := Decode(p.localSecret, InvalidRatchetMessage);
      var public := Decode(p.localPublic, InvalidRatchetMessage);
      var skipped := RestoredKeys(p.skipped, map[]);
      var root := Decode(p.root, InvalidRatchetMessage);
      var remote := DecodeOption(p.remote);
      var sending := DecodeOption(p.sending);
      var receiving := DecodeOption(p.receiving);
      if secret.Err? then Err(secret.error)
      else if public.Err? then Err(public.error)
      else if skipped.Err? then Err(skipped.error)
      else if root.Err? then Err(root.error)
      else if remote.Err? then Err(remote.error)
      else if sending.Err? then Err(sending.error)
      else if receiving.Err? then Err(receiving.error)
      else
        Ok(State(root.value, KeyPair(secret.value, public.value), remote.value, sending.value, receiving.value,
                 p.previous, p.sent, p.received, skipped.value))
  }

  // Saving and loading

  lemma {:induction false} ListingSize(skipped: map<SkippedId, Key>)
    ensures |Listing(skipped)| == |skipped|
    decreases skipped.Keys
  {
    if skipped != map[] {
      var id := Least(skipped.Keys);
      RemoveShrinks(skipped, id);
      ListingSize(skipped - {id});
    }
  }

  predicate Disjoint<K, V>(a: map<K, V>, b: map<K, V>) {
    forall k :: k in a ==> k !in b
  }

  /** Moving one entry from the second map to the first keeps their union. */
  lemma MoveUnion<K, V>(base: map<K, V>, m: map<K, V>, k: K)
    requires Disjoint(base, m) && k in m
    ensures base[k := m[k]] + (m - {k}) == base + m
  {
    var l, r := base[k := m[k]] + (m - {k}), base + m;
    forall x ensures x in l <==> x in r {
    }
    forall x | x in r ensures l[x] == r[x] {
    }
  }

  lemma MoveOne<K, V>(base: map<K, V>, m: map<K, V>, k: K)
    requires Disjoint(base, m) && k in m
    ensures Disjoint(base[k := m[k]], m - {k})
    ensures |base[k := m[k]]| == |base| + 1 && |m - {k}| == |m| - 1
  {
    InsertGrows(base, k, m[k]);
    RemoveShrinks(m, k);
  }

  lemma RestoreOne(id: SkippedId, key: Key, rest: seq<PersistedKey>, base: map<SkippedId, Key>)
    ensures RestoredKeys([EntryFor(id, key)] + rest, base)
            == if |base| >= MAX_SKIPPED_MESSAGE_KEYS then Err(TooManySkippedMessages)
               else RestoredKeys(rest, base[id := key])
  {
    assert ([EntryFor(id, key)] + rest)[1..] == rest;
  }

  /** The list gives back the cache, on top of what was there, exactly when both fit. */
  lemma {:induction false} ListingRestores(base: map<SkippedId, Key>, skipped: map<SkippedId, Key>)
    requires Disjoint(base, skipped) && |base| <= MAX_SKIPPED_MESSAGE_KEYS
    ensures RestoredKeys(Listing(skipped), base)
            == if |base| + |skipped| <= MAX_SKIPPED_MESSAGE_KEYS then Ok(base + skipped) else Err(TooManySkippedMessages)
    decreases skipped.Keys
  {
    if skipped == map[] {
      assert base + skipped == base;
    } else {
      var id := Least(skipped.Keys);
      MoveOne(base, skipped, id);
      MoveUnion(base, skipped, id);
      RestoreOne(id, skipped[id], Listing(skipped - {id}), base);
      hide RestoredKeys;
      if |base| < MAX_SKIPPED_MESSAGE_KEYS {
        ListingRestores(base[id := skipped[id]], skipped - {id});
      }
    }
  }

  /** A session survives a save and a load exactly when its cache is within bounds. */
  lemma SaveThenLoad(s: State)
    ensures Restore(Persist(s))
            == if |s.skipped| <= MAX_SKIPPED_MESSAGE_KEYS then Ok(s) else Err(TooManySkippedMessages)
  {
    CacheRestores(s.skipped);
    OptionRestores(s.remote);
    OptionRestores(s.sending);
    OptionRestores(s.receiving);
    hide RestoredKeys, Listing, DecodeOption;
  }

  lemma CacheRestores(skipped: map<SkippedId, Key>)
    ensures RestoredKeys(Listing(skipped), map[])
            == if |skipped| <= MAX_SKIPPED_MESSAGE_KEYS then Ok(skipped) else Err(TooManySkippedMessages)
  {
    var none: map<SkippedId, Key> := map[];
    ListingRestores(none, skipped);
    assert none + skipped == skipped;
  }

  lemma OptionRestores<T>(o: Option<T>)
    ensures DecodeOption(MapEncoded(o)) == Ok(o)
  {
  }

  // The persisted fields, one by one

  ghost predicate HoldsField<T>(text: Encoded<T>, value: T) {
    text == Encoded(value)
  }

  ghost predicate HoldsOption<T>(text: Option<Encoded<T>>, value: Option<T>) {
    if value.Some? then text == Some(Encoded(value.value)) else text == None
  }

  /** What a persisted session says about each field of a session, but for the cache. */
  ghost predicate HoldsFields(p: PersistedSession, s: State) {
    && p.version == "simy-double-ratchet-v1"
    && HoldsField(p.root, s.root)
    && HoldsField(p.localSecret, s.local.secret) && HoldsField(p.localPublic, s.local.public)
    && HoldsOption(p.remote, s.remote)
    && HoldsOption(p.sending, s.sending) && HoldsOption(p.receiving, s.receiving)
    && p.previous == s.previous && p.sent == s.sent && p.received == s.received
  }

  /** Each field is written under its own name, and the cache as `Listing` has it. */
  lemma PersistWrites(s: State)
    ensures HoldsFields(Persist(s), s) && Persist(s).skipped == Listing(s.skipped)
  {
    hide Listing;
  }

  lemma {:induction false} ListingHolds(skipped: map<SkippedId, Key>, entry: PersistedKey)
    ensures entry in Listing(skipped) <==>
              && entry.key.Encoded? && entry.messageKey.Encoded?
              && var id := SkippedId(entry.key.value, entry.number);
                 id in skipped && skipped[id] == entry.messageKey.value
    decreases skipped.Keys
  {
    if skipped != map[] {
      var id := Least(skipped.Keys);
      ListingHolds(skipped - {id}, entry);
    }
  }

  /** Entries come in the order of the ratchet key, and under one key of the number. */
  lemma {:induction false} ListingSorted(skipped: map<SkippedId, Key>, i: nat, j: nat)
    requires i < j < |Listing(skipped)|
    ensures var a, b := Listing(skipped)[i], Listing(skipped)[j];
            && a.key.Encoded? && b.key.Encoded?
            && (a.key.value.id < b.key.value.id || (a.key == b.key && a.number < b.number))
    decreases skipped.Keys
  {
    var id := Least(skipped.Keys);
    var rest := skipped - {id};
    if i > 0 {
      ListingSorted(rest, i - 1, j - 1);
    } else {
      var b := Listing(skipped)[j];
      assert b == Listing(rest)[j - 1];
      ListingHolds(rest, b);
    }
  }

  /** The entry's key and number: what it is cached under. */
  ghost predicate Names(entry: PersistedKey, id: SkippedId) {
    entry.key == Encoded(id.key) && entry.number == id.number
  }

  /** Of the entries under one identifier the last counts; nothing else is cached. */
  lemma {:induction false} RestoredHolds(entries: seq<PersistedKey>, base: map<SkippedId, Key>, id: SkippedId)
    requires RestoredKeys(entries, base).Ok?
    ensures var out := RestoredKeys(entries, base).value;
            && (id in out <==> id in base || exists i :: 0 <= i < |entries| && Names(entries[i], id))
            && (forall i :: 0 <= i < |entries| && Names(entries[i], id)
                            && (forall j :: i < j < |entries| ==> !Names(entries[j], id))
                  ==> id in out && entries[i].messageKey == Encoded(out[id]))
            && ((forall i :: 0 <= i < |entries| ==> !Names(entries[i], id)) && id in base ==> out[id] == base[id])
    decreases |entries|
  {
    if entries != [] {
      var first := entries[0];
      var more := base[SkippedId(first.key.value, first.number) := first.messageKey.value];
      RestoredHolds(entries[1..], more, id);
      assert forall i :: 0 <= i < |entries| - 1 ==> entries[1..][i] == entries[i + 1];
      var out := RestoredKeys(entries, base).value;
      assert (exists i :: 0 <= i < |entries| && Names(entries[i], id))
             <==> Names(first, id) || exists i :: 0 <= i < |entries[1..]| && Names(entries[1..][i], id) by {
        if exists i :: 0 <= i < |entries[1..]| && Names(entries[1..][i], id) {
          var i :| 0 <= i < |entries[1..]| && Names(entries[1..][i], id);
          assert Names(entries[i + 1], id);
        }
        if i :| 0 <= i < |entries| && Names(entries[i], id) && i > 0 {
          assert Names(entries[1..][i - 1], id);
        }
      }
      forall i | 0 <= i < |entries| && Names(entries[i], id) && (forall j :: i < j < |entries| ==> !Names(entries[j], id))
        ensures id in out && entries[i].messageKey == Encoded(out[id]) {
        if i > 0 {
          assert Names(entries[1..][i - 1], id);
          forall j | i - 1 < j < |entries[1..]| ensures !Names(entries[1..][j], id) {
            assert !Names(entries[j + 1], id);
          }
        } else {
          forall j | 0 <= j < |entries[1..]| ensures !Names(entries[1..][j], id) {
            assert !Names(entries[j + 1], id);
          }
        }
      }
    }
  }

  /** The restoring of a cache breaks off at the first entry that finds it full or that cannot be read. */
  lemma {:induction false} RestoredStops(entries: seq<PersistedKey>, base: map<SkippedId, Key>, i: nat)
    requires i < |entries| && RestoredKeys(entries[..i], base).Ok?
    ensures var entry, so := entries[i], RestoredKeys(entries[..i], base).value;
            var fault := First([FaultIf(|so| >= 128, TooManySkippedMessages), Fault(entry.key, InvalidRatchetMessage),
                                Fault(entry.messageKey, InvalidRatchetMessage)]);
            if fault.Some? then RestoredKeys(entries, base) == Err(fault.value)
            else RestoredKeys(entries[..i + 1], base).Ok?
    decreases i
  {
    var first := entries[0];
    if i > 0 {
      assert entries[..i][1..] == entries[1..][..i - 1] && entries[..i + 1][1..] == entries[1..][..i];
      assert entries[..i][0] == first;
      RestoredStops(entries[1..], base[SkippedId(first.key.value, first.number) := first.messageKey.value], i - 1);
    } else {
      assert entries[..1][1..] == [] && entries[..0] == [];
      ThreeFaults(FaultIf(|base| >= 128, TooManySkippedMessages), Fault(first.key, InvalidRatchetMessage),
                  Fault(first.messageKey, InvalidRatchetMessage));
    }
  }

  lemma RestoreFields(p: PersistedSession)
    requires Restore(p).Ok?
    ensures HoldsFields(p, Restore(p).value) && RestoredKeys(p.skipped, map[]) == Ok(Restore(p).value.skipped)
  {
    hide RestoredKeys;
  }

  /** What was read is what is written there, field by field; the first field in this order that fails decides. */
  lemma RestoreReads(p: PersistedSession)
    ensures var cache := RestoredKeys(p.skipped, map[]);
            var fault := First(
              [FaultIf(p.version != "simy-double-ratchet-v1", UnsupportedVersion),
               Fault(p.localSecret, InvalidRatchetMessage), Fault(p.localPublic, InvalidRatchetMessage),
               if cache.Err? then Some(cache.error) else None,
               Fault(p.root, InvalidRatchetMessage), OptionFault(p.remote, InvalidRatchetMessage),
               OptionFault(p.sending, InvalidRatchetMessage), OptionFault(p.receiving, InvalidRatchetMessage)]);
            if fault.Some? then Restore(p) == Err(fault.value)
            else Restore(p).Ok? && HoldsFields(p, Restore(p).value) && cache == Ok(Restore(p).value.skipped)
  {
    hide First, RestoredKeys, HoldsFields;
    var cache := RestoredKeys(p.skipped, map[]);
    EightFaults(
      FaultIf(p.version != "simy-double-ratchet-v1", UnsupportedVersion),
      Fault(p.localSecret, InvalidRatchetMessage), Fault(p.localPublic, InvalidRatchetMessage),
      if cache.Err? then Some(cache.error) else None,
      Fault(p.root, InvalidRatchetMessage), OptionFault(p.remote, InvalidRatchetMessage),
      OptionFault(p.sending, InvalidRatchetMessage), OptionFault(p.receiving, InvalidRatchetMessage));
    if Restore(p).Ok? {
      RestoreFields(p);
    }
  }

  // Restarts in a run

  datatype Step = Call(call: RatchetRuns.Call) | Restart

  function Calls(steps: seq<Step>): seq<RatchetRuns.Call> {
    if steps == [] then []
    else if steps[0].Call? then [steps[0].call] + Calls(steps[1..])
    else Calls(steps[1..])
  }

  /** A run with restarts: at each the session is saved and loaded; a failed load ends the run. */
  ghost function RunRestarting(rule: ResetRule, r: Record, steps: seq<Step>): Option<Record>
    decreases |steps|
  {
    if steps == [] then Some(r)
    else if steps[0].Call? then
      if Enabled(r, steps[0].call) then RunRestarting(rule, Do(rule, r, steps[0].call), steps[1..]) else None
    else
      var loaded := Restore(Persist(r.state));
      if loaded.Err? then None else RunRestarting(rule, r.(state := loaded.value), steps[1..])
  }

  lemma {:induction false} RestartsChangeNothingFrom(rule: ResetRule, r: Record, steps: seq<Step>)
    requires RatchetRuns.Invariant(rule, r) && IsRun(rule, r, Calls(steps))
    ensures RunRestarting(rule, r, steps) == Some(Run(rule, r, Calls(steps)))
    decreases |steps|
  {
    if steps != [] {
      if steps[0].Call? {
        var calls := Calls(steps);
        assert calls[0] == steps[0].call && calls[1..] == Calls(steps[1..]);
        KeepsInvariant(rule, r, steps[0].call);
        RestartsChangeNothingFrom(rule, Do(rule, r, steps[0].call), steps[1..]);
      } else {
        SaveThenLoad(r.state);
        assert |r.state.skipped| <= MAX_SKIPPED_MESSAGE_KEYS;
        assert r.(state := r.state) == r;
        RestartsChangeNothingFrom(rule, r, steps[1..]);
      }
    }
  }

  /** Saving and loading the session anywhere in a run changes no later state and no output. */
  lemma RestartsChangeNothing(rule: ResetRule, start: Record, steps: seq<Step>)
    requires Starts(start) && IsRun(rule, start, Calls(steps))
    ensures RunRestarting(rule, start, steps) == Some(Run(rule, start, Calls(steps)))
  {
    RunsAreOk(rule, start, []);
    RestartsChangeNothingFrom(rule, start, steps);
  }
}
