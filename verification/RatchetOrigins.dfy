/** The epoch each cached key was stored under, followed through every sequence of calls. */
module RatchetOrigins {
  import opened Bytes
  import opened Primitives
  import opened RatchetState
  import opened SkipLemmas
  import opened RatchetRuns

  // What a call stores

  /** A key of the chain at `chain`. */
  predicate FromChain(key: Key, chain: Key) {
    key.MessageKey? && KeyStart(key) == ChainStart(chain)
  }

  /** Skipping stores keys of the chain being received. */
  ghost predicate SkipStored(s: State, t: State) {
    forall id :: id in t.skipped ==> Stays(s, t, id) || FromReceiving(s, t, id)
  }

  /** A key of the chain `s` is receiving, under its ratchet key. */
  predicate FromReceiving(s: State, t: State, id: SkippedId) {
    id in t.skipped && s.remote == Some(id.key) && s.receiving.Some? && FromChain(t.skipped[id], s.receiving.value)
  }

  /** A key of the chain that `key` opens. */
  predicate FromOpened(s: State, t: State, id: SkippedId) {
    id in t.skipped && t.remote == Some(id.key) && FromChain(t.skipped[id], ChainKey(s.root, Dh(s.local.secret, id.key)))
  }

  lemma SkipStores(s: State, until: nat)
    ensures var t := SkipMessageKeys(s, until).state;
            SkipStored(s, t) && t.root == s.root && t.local == s.local && t.remote == s.remote
  {
    SkipKeepsRest(s, until);
    if s.receiving.Some? {
      SkipAddsOnly(s, until);
    }
    hide SkipLoop;
  }

  /** A call stores keys of the chain being received, and of the one it opens, if it opens one. */
  ghost predicate Stored(s: State, t: State) {
    && (forall id :: id in t.skipped ==>
          Stays(s, t, id) || FromReceiving(s, t, id) || (t.root != s.root && FromOpened(s, t, id)))
    && (t.root != s.root ==> t.remote.Some? && t.remote != s.remote)
  }

  lemma AdvanceStores(s: State, header: ParsedHeader)
    ensures Stored(s, AdvanceTo(s, header).state)
  {
    if s.remote == Some(header.key) {
      SkipStores(s, header.number);
    } else {
      SkipStores(s, header.previous);
      var closed := SkipMessageKeys(s, header.previous);
      if closed.outcome.Pass? {
        var c := closed.state;
        var crossed := ApplyRemoteRatchet(c, header.key);
        SkipStores(crossed, header.number);
        var t := SkipMessageKeys(crossed, header.number).state;
        RootGrows(s.root, Dh(s.local.secret, header.key));
        forall id | id in t.skipped ensures Stays(s, t, id) || FromReceiving(s, t, id) || FromOpened(s, t, id) {
          assert Stays(crossed, t, id) || FromReceiving(crossed, t, id);
          assert id in c.skipped ==> Stays(s, c, id) || FromReceiving(s, c, id);
        }
      }
    }
  }

  lemma DecryptStores(s: State, e: Envelope, associatedData: seq<byte>)
    ensures Stored(s, Decrypt(s, e, associatedData).state)
  {
    var parsed := ParseHeader(e.header);
    if e.version == RATCHET_VERSION && parsed.Ok? {
      AdvanceStores(s, parsed.value);
    }
  }

  // Origins

  /** The epoch each entry was stored under: the newest at the time, or the one before if that was being closed. */
  function OriginsAfter(s: State, t: State, epochs: nat, origins: map<SkippedId, int>): map<SkippedId, int> {
    map id | id in t.skipped ::
      if Stays(s, t, id) then (if id in origins then origins[id] else -1)
      else if t.root != s.root && t.remote == Some(id.key) then epochs
      else epochs - 1
  }

  function OriginsOver(rule: ResetRule, r: Record, origins: map<SkippedId, int>, calls: seq<Call>): map<SkippedId, int>
    requires IsRun(rule, r, calls)
    decreases |calls|
  {
    if calls == [] then origins
    else
      var next := Do(rule, r, calls[0]);
      OriginsOver(rule, next, OriginsAfter(r.state, next.state, |r.receiveEpochs|, origins), calls[1..])
  }

  /** The key of that number in the chain of epoch `i`, under the ratchet key of that epoch. */
  ghost predicate Pinned(epochs: seq<Epoch>, i: int, id: SkippedId, key: Key) {
    0 <= i < |epochs| && epochs[i].key == id.key && key == MessageKeyAt(epochs[i].start, id.number)
  }

  /** What is known between calls: the epoch of each entry is the one its key's chain started. */
  ghost predicate Placed(epochs: seq<Epoch>, i: int, id: SkippedId, key: Key) {
    0 <= i < |epochs| && epochs[i].key == id.key && key.MessageKey? && KeyStart(key) == epochs[i].start
  }

  ghost predicate AllPlaced(epochs: seq<Epoch>, skipped: map<SkippedId, Key>, origins: map<SkippedId, int>) {
    forall id :: id in skipped ==> id in origins && Placed(epochs, origins[id], id, skipped[id])
  }

  lemma ReceivingPlaces(s: State, t: State, epochs: seq<Epoch>, tried: seq<Key>, id: SkippedId)
    requires ReceivingOk(s, epochs, tried) && FromReceiving(s, t, id)
    ensures Placed(epochs, |epochs| - 1, id, t.skipped[id])
  {
  }

  lemma OpenedPlaces(s: State, t: State, epochs: seq<Epoch>, id: SkippedId)
    requires t.root != s.root && FromOpened(s, t, id)
    ensures Placed(EpochsAfter(s, t, epochs), |epochs|, id, t.skipped[id])
  {
  }

  lemma ReceivePlaces(s: State, t: State, epochs: seq<Epoch>, tried: seq<Key>, origins: map<SkippedId, int>)
    requires ReceivingOk(s, epochs, tried) && Stored(s, t) && AllPlaced(epochs, s.skipped, origins)
    ensures AllPlaced(EpochsAfter(s, t, epochs), t.skipped, OriginsAfter(s, t, |epochs|, origins))
  {
    var more, after := EpochsAfter(s, t, epochs), OriginsAfter(s, t, |epochs|, origins);
    assert more[..|epochs|] == epochs;
    forall id | id in t.skipped ensures id in after && Placed(more, after[id], id, t.skipped[id]) {
      if Stays(s, t, id) {
        assert Placed(epochs, origins[id], id, s.skipped[id]);
      } else if FromReceiving(s, t, id) {
        ReceivingPlaces(s, t, epochs, tried, id);
      } else {
        OpenedPlaces(s, t, epochs, id);
      }
    }
  }

  lemma SendStays(rule: ResetRule, r: Record, c: Call)
    requires c.Send? && Enabled(r, c)
    ensures Do(rule, r, c).state.skipped == r.state.skipped && Do(rule, r, c).receiveEpochs == r.receiveEpochs
  {
  }

  lemma StepPlaces(rule: ResetRule, r: Record, c: Call, origins: map<SkippedId, int>)
    requires RatchetRuns.Invariant(rule, r) && Enabled(r, c) && AllPlaced(r.receiveEpochs, r.state.skipped, origins)
    ensures var next := Do(rule, r, c);
            AllPlaced(next.receiveEpochs, next.state.skipped,
                      OriginsAfter(r.state, next.state, |r.receiveEpochs|, origins))
  {
    if c.Send? {
      SendStays(rule, r, c);
    } else {
      DecryptStores(r.state, c.envelope, c.receiveData);
      ReceivePlaces(r.state, Do(rule, r, c).state, r.receiveEpochs, r.triedKeys, origins);
    }
  }

  lemma {:induction false} RunPlaces(rule: ResetRule, r: Record, origins: map<SkippedId, int>, calls: seq<Call>)
    requires RatchetRuns.Invariant(rule, r) && IsRun(rule, r, calls) && AllPlaced(r.receiveEpochs, r.state.skipped, origins)
    ensures var end := Run(rule, r, calls);
            AllPlaced(end.receiveEpochs, end.state.skipped, OriginsOver(rule, r, origins, calls))
    decreases |calls|
  {
    hide RatchetRuns.Invariant, AllPlaced, Do, Enabled;
    if calls != [] {
      KeepsInvariant(rule, r, calls[0]);
      StepPlaces(rule, r, calls[0], origins);
      var next := Do(rule, r, calls[0]);
      RunPlaces(rule, next, OriginsAfter(r.state, next.state, |r.receiveEpochs|, origins), calls[1..]);
    }
  }

  /** A cached key that belongs to an epoch's chain is the key of its number there. */
  lemma PlacedIsPinned(epochs: seq<Epoch>, received: nat, i: int, id: SkippedId, key: Key)
    requires Placed(epochs, i, id, key) && Filed(epochs, true, received, id.key, id.number, key)
    ensures Pinned(epochs, i, id, key)
  {
    ChainKeyPlace(key.of);
  }

  /**
    Over every run, failed calls included, each cached key is the key of its number in the
    chain of the very epoch it was stored under, whichever other epochs share its ratchet key.
   */
  lemma CacheIsPinned(rule: ResetRule, start: Record, calls: seq<Call>)
    requires Starts(start) && IsRun(rule, start, calls)
    ensures var r, origins := Run(rule, start, calls), OriginsOver(rule, start, map[], calls);
            forall id :: id in r.state.skipped ==>
              id in origins && Pinned(r.receiveEpochs, origins[id], id, r.state.skipped[id])
  {
    StartsEmpty(rule, start);
    RunsAreOk(rule, start, calls);
    RunPlaces(rule, start, map[], calls);
    var r, origins := Run(rule, start, calls), OriginsOver(rule, start, map[], calls);
    forall id | id in r.state.skipped
      ensures id in origins && Pinned(r.receiveEpochs, origins[id], id, r.state.skipped[id]) {
      PlacedIsPinned(r.receiveEpochs, r.state.received, origins[id], id, r.state.skipped[id]);
    }
  }

  lemma StartsEmpty(rule: ResetRule, start: Record)
    requires Starts(start)
    ensures start.state.skipped == map[] && RatchetRuns.Invariant(rule, start)
  {
    var shared, secret, public :|
      start == StartInitiator(shared, secret, public) || start == StartResponder(shared, secret, public);
    StartsOk(rule, shared, secret, public);
  }
}
