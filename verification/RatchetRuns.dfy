/**
  One session under every sequence of calls: any plaintexts, and any envelopes whatever,
  replayed, reordered, corrupted or invented, including calls that fail.
 */
module RatchetRuns {
  import opened Bytes
  import opened Primitives
  import opened RatchetState

  datatype Call =
    | Send(plaintext: seq<byte>, sendData: seq<byte>, nonce: Nonce, draw: Secret)
    | Receive(envelope: Envelope, receiveData: seq<byte>)

  /** A symmetric-key chain the session has started: the ratchet key it belongs to, its first chain key. */
  datatype Epoch = Epoch(key: PublicKey, start: Key)

  /** What a run has done so far, beside the state it has reached. */
  datatype Record = Record(
    state: State,
    draws: seq<Secret>,
    sendEpochs: seq<Epoch>,
    receiveEpochs: seq<Epoch>,
    sealedUnder: seq<Key>,
    headers: seq<ParsedHeader>,
    triedKeys: seq<Key>,
    accepted: seq<Envelope>)

  function StartInitiator(shared: Key, ephemeral: Secret, signedPreKey: PublicKey): Record {
    var s := BootstrapInitiator(shared, ephemeral, signedPreKey);
    Record(s, [ephemeral], [Epoch(s.local.public, s.sending.value)], [], [], [], [], [])
  }

  function StartResponder(shared: Key, signedPreKey: Secret, ephemeral: PublicKey): Record {
    var s := BootstrapResponder(shared, signedPreKey, ephemeral);
    Record(s, [signedPreKey], [], [Epoch(ephemeral, s.receiving.value)], [], [], [], [])
  }

  /** The calls a run may make: counters stay below the limit and every key draw is a new number. */
  predicate Enabled(r: Record, c: Call) {
    c.Send? ==> r.state.sent + 1 < U32_LIMIT && r.state.previous < U32_LIMIT && c.draw !in r.draws
  }

  function Do(rule: ResetRule, r: Record, c: Call): Record
    requires Enabled(r, c)
  {
    match c
    case Send(plaintext, sendData, nonce, draw) =>
      var e := Encrypt(rule, r.state, plaintext, sendData, nonce, draw);
      if e.result.Err? then r.(state := e.state)
      else
        var header := e.result.value.header;
        r.(state := e.state,
           draws := if r.state.sending.None? then r.draws + [draw] else r.draws,
           sendEpochs :=
             if r.state.sending.None? && r.state.remote.Some?
             then r.sendEpochs + [Epoch(PublicKey(draw), ChainKey(r.state.root, Dh(draw, r.state.remote.value)))]
             else r.sendEpochs,
           sealedUnder := r.sealedUnder + [e.key.value],
           headers := r.headers + [ParsedHeader(header.key.value, header.previous, header.number)])
    case Receive(envelope, receiveData) =>
      var d := Decrypt(r.state, envelope, receiveData);
      r.(state := d.state,
         receiveEpochs :=
           if d.state.root != r.state.root && d.state.remote.Some?
           then r.receiveEpochs
                + [Epoch(d.state.remote.value, ChainKey(r.state.root, Dh(r.state.local.secret, d.state.remote.value)))]
           else r.receiveEpochs,
         triedKeys := if d.key.Some? then r.triedKeys + [d.key.value] else r.triedKeys,
         accepted := if d.result.Ok? then r.accepted + [envelope] else r.accepted)
  }

  /** The runs from `start`: `IsRun` holds of a call sequence when each call is enabled in its turn. */
  predicate IsRun(rule: ResetRule, start: Record, calls: seq<Call>)
    decreases |calls|
  {
    calls == []
    || (Enabled(start, calls[0]) && IsRun(rule, Do(rule, start, calls[0]), calls[1..]))
  }

  function Run(rule: ResetRule, start: Record, calls: seq<Call>): Record
    requires IsRun(rule, start, calls)
    decreases |calls|
  {
    if calls == [] then start else Run(rule, Do(rule, start, calls[0]), calls[1..])
  }

  // The invariant

  ghost predicate Distinct<T>(s: seq<T>) {
    forall i, j :: 0 <= i < j < |s| ==> s[i] != s[j]
  }

  /** Chains hang off ever deeper roots, all above the present one. */
  ghost predicate EpochsOk(epochs: seq<Epoch>, root: Key) {
    && (forall i :: 0 <= i < |epochs| ==>
          epochs[i].start.ChainKey? && RootDepth(epochs[i].start.parent) < RootDepth(root))
    && (forall i, j :: 0 <= i < j < |epochs| ==>
          RootDepth(epochs[i].start.parent) < RootDepth(epochs[j].start.parent))
  }

  /** `key` belongs to chain `i`; in the last chain, if that is open, it lies before `limit`. */
  ghost predicate PlacedAt(epochs: seq<Epoch>, i: int, open: bool, limit: nat, key: Key) {
    && 0 <= i < |epochs|
    && key.MessageKey?
    && KeyStart(key) == epochs[i].start
    && (open && i == |epochs| - 1 ==> KeyNumber(key) < limit)
  }

  ghost predicate Behind(epochs: seq<Epoch>, limit: nat, key: Key) {
    exists i :: PlacedAt(epochs, i, true, limit, key)
  }

  /** The chain and number a key is filed under are its own. */
  ghost predicate Filed(epochs: seq<Epoch>, open: bool, limit: nat, public: PublicKey, number: nat, key: Key) {
    exists i :: PlacedAt(epochs, i, open, limit, key) && epochs[i].key == public && KeyNumber(key) == number
  }

  ghost predicate CacheOk(epochs: seq<Epoch>, received: nat, skipped: map<SkippedId, Key>) {
    && |skipped| <= MAX_SKIPPED_MESSAGE_KEYS
    && forall id :: id in skipped ==> Filed(epochs, true, received, id.key, id.number, skipped[id])
  }

  ghost predicate TriedOk(epochs: seq<Epoch>, received: nat, tried: seq<Key>) {
    && Distinct(tried)
    && forall k :: 0 <= k < |tried| ==> Behind(epochs, received, tried[k])
  }

  ghost predicate Untried(skipped: map<SkippedId, Key>, tried: seq<Key>) {
    forall id, k :: id in skipped && 0 <= k < |tried| ==> skipped[id] != tried[k]
  }

  /** The receiving chain stands `received` steps from the start of the last epoch. */
  ghost predicate ChainOk(epochs: seq<Epoch>, received: nat, chain: Key) {
    && epochs != []
    && ChainStart(chain) == epochs[|epochs| - 1].start
    && ChainIndex(chain) == received
  }

  ghost predicate CacheSideOk(epochs: seq<Epoch>, received: nat, skipped: map<SkippedId, Key>, tried: seq<Key>) {
    && CacheOk(epochs, received, skipped)
    && TriedOk(epochs, received, tried)
    && Untried(skipped, tried)
  }

  ghost predicate ReceivingOk(s: State, epochs: seq<Epoch>, tried: seq<Key>) {
    && EpochsOk(epochs, s.root)
    && s.remote.Some?
    && (epochs != [] ==> s.remote == Some(epochs[|epochs| - 1].key))
    && (s.receiving.Some? ==> ChainOk(epochs, s.received, s.receiving.value))
    && CacheSideOk(epochs, s.received, s.skipped, tried)
  }

  ghost predicate EmissionsOk(
    epochs: seq<Epoch>, open: bool, sent: nat, headers: seq<ParsedHeader>, keys: seq<Key>)
  {
    && |headers| == |keys|
    && (forall k :: 0 <= k < |headers| ==> Filed(epochs, open, sent, headers[k].key, headers[k].number, keys[k]))
    && Distinct(keys)
    && (forall i, j :: 0 <= i < j < |headers| ==>
          headers[i].key != headers[j].key || headers[i].number != headers[j].number)
  }

  ghost predicate SendEpochsOk(epochs: seq<Epoch>, root: Key, draws: seq<Secret>) {
    && EpochsOk(epochs, root)
    && (forall i :: 0 <= i < |epochs| ==> epochs[i].key.id in draws)
    && (forall i, j :: 0 <= i < j < |epochs| ==> epochs[i].key != epochs[j].key)
  }

  ghost predicate SendingOk(r: Record) {
    && SendEpochsOk(r.sendEpochs, r.state.root, r.draws)
    && (r.state.sending.Some? ==>
          ChainOk(r.sendEpochs, r.state.sent, r.state.sending.value)
          && r.state.local.public == r.sendEpochs[|r.sendEpochs| - 1].key)
    && EmissionsOk(r.sendEpochs, r.state.sending.Some?, r.state.sent, r.headers, r.sealedUnder)
  }

  /** Accepted envelopes are distinct: each was sealed under a key of its own among the keys tried. */
  ghost predicate AcceptedOk(r: Record) {
    && Distinct(r.accepted)
    && (forall k :: 0 <= k < |r.accepted| ==>
          r.accepted[k].ciphertext.Encoded? && r.accepted[k].ciphertext.value.Sealed?
          && r.accepted[k].ciphertext.value.key in r.triedKeys)
  }

  ghost predicate PreviousLengthOk(rule: ResetRule, r: Record) {
    rule.Twice? ==>
      && (r.state.sending.None? ==> r.state.sent == 0)
      && (r.state.sending.Some? ==> r.state.previous == 0)
      && (forall k :: 0 <= k < |r.headers| ==> r.headers[k].previous == 0)
  }

  ghost predicate Invariant(rule: ResetRule, r: Record) {
    && ReceivingOk(r.state, r.receiveEpochs, r.triedKeys)
    && SendingOk(r)
    && AcceptedOk(r)
    && PreviousLengthOk(rule, r)
  }

  lemma StartsOk(rule: ResetRule, shared: Key, secret: Secret, public: PublicKey)
    ensures Invariant(rule, StartInitiator(shared, secret, public))
    ensures Invariant(rule, StartResponder(shared, secret, public))
  {
  }

  // The receiving side

  /** The key at the receiving position has not been tried and is not cached. */
  lemma NextIsNew(epochs: seq<Epoch>, received: nat, skipped: map<SkippedId, Key>, tried: seq<Key>, root: Key, chain: Key)
    requires EpochsOk(epochs, root) && ChainOk(epochs, received, chain)
    requires CacheSideOk(epochs, received, skipped, tried)
    ensures forall k :: 0 <= k < |tried| ==> tried[k] != MessageKey(chain)
    ensures forall id :: id in skipped ==> skipped[id] != MessageKey(chain)
  {
    var key := MessageKey(chain);
    forall k | 0 <= k < |tried| ensures tried[k] != key {
      var i :| PlacedAt(epochs, i, true, received, tried[k]);
    }
    forall id | id in skipped ensures skipped[id] != key {
      var i :| PlacedAt(epochs, i, true, received, skipped[id]);
    }
  }

  /** What lies behind a position lies behind the next one. */
  lemma MovesOn(epochs: seq<Epoch>, received: nat, skipped: map<SkippedId, Key>, tried: seq<Key>)
    requires CacheSideOk(epochs, received, skipped, tried)
    ensures CacheSideOk(epochs, received + 1, skipped, tried)
  {
    forall id | id in skipped ensures Filed(epochs, true, received + 1, id.key, id.number, skipped[id]) {
      var i :| PlacedAt(epochs, i, true, received, skipped[id]) && epochs[i].key == id.key
               && KeyNumber(skipped[id]) == id.number;
      assert PlacedAt(epochs, i, true, received + 1, skipped[id]);
    }
    forall k | 0 <= k < |tried| ensures Behind(epochs, received + 1, tried[k]) {
      var i :| PlacedAt(epochs, i, true, received, tried[k]);
      assert PlacedAt(epochs, i, true, received + 1, tried[k]);
    }
  }

  /** One turn of the skip loop. */
  lemma SkipOneOk(epochs: seq<Epoch>, received: nat, skipped: map<SkippedId, Key>, tried: seq<Key>, root: Key, chain: Key)
    requires EpochsOk(epochs, root) && ChainOk(epochs, received, chain)
    requires CacheSideOk(epochs, received, skipped, tried) && |skipped| < MAX_SKIPPED_MESSAGE_KEYS
    ensures ChainOk(epochs, received + 1, NextChainKey(chain))
    ensures var id := SkippedId(epochs[|epochs| - 1].key, received);
            CacheSideOk(epochs, received + 1, skipped[id := MessageKey(chain)], tried)
  {
    var id := SkippedId(epochs[|epochs| - 1].key, received);
    var key := MessageKey(chain);
    NextIsNew(epochs, received, skipped, tried, root, chain);
    MovesOn(epochs, received, skipped, tried);
    assert PlacedAt(epochs, |epochs| - 1, true, received + 1, key);
    assert Filed(epochs, true, received + 1, id.key, id.number, key);
    InsertGrows(skipped, id, key);
  }

  lemma {:induction false} SkipLoopOk(s: State, chain: Key, until: nat, epochs: seq<Epoch>, tried: seq<Key>)
    requires EpochsOk(epochs, s.root) && ChainOk(epochs, s.received, chain)
    requires CacheSideOk(epochs, s.received, s.skipped, tried)
    requires s.receiving.None?
    ensures var t := SkipLoop(s, epochs[|epochs| - 1].key, chain, until).state;
            && Unmoved(s, t)
            && (t.receiving.Some? ==> ChainOk(epochs, t.received, t.receiving.value))
            && CacheSideOk(epochs, t.received, t.skipped, tried)
    decreases until - s.received
  {
    if s.received < until && |s.skipped| < MAX_SKIPPED_MESSAGE_KEYS {
      SkipOneOk(epochs, s.received, s.skipped, tried, s.root, chain);
      var id := SkippedId(epochs[|epochs| - 1].key, s.received);
      var t := s.(skipped := s.skipped[id := MessageKey(chain)], received := s.received + 1);
      SkipLoopOk(t, NextChainKey(chain), until, epochs, tried);
    }
  }

  /** The two states differ at most in the receiving chain's position and the cache. */
  ghost predicate Unmoved(s: State, t: State) {
    && t.root == s.root && t.local == s.local && t.remote == s.remote
    && t.sending == s.sending && t.sent == s.sent && t.previous == s.previous
  }

  lemma SkipOk(s: State, until: nat, epochs: seq<Epoch>, tried: seq<Key>)
    requires ReceivingOk(s, epochs, tried)
    ensures var t := SkipMessageKeys(s, until).state;
            ReceivingOk(t, epochs, tried) && Unmoved(s, t)
  {
    if s.received < until <= s.received + MAX_SKIPPED_MESSAGE_KEYS && s.remote.Some? && s.receiving.Some? {
      SkipLoopOk(s.(receiving := None), s.receiving.value, until, epochs, tried);
    }
  }

  ghost function Opened(s: State, key: PublicKey, epochs: seq<Epoch>): seq<Epoch> {
    epochs + [Epoch(key, ChainKey(s.root, Dh(s.local.secret, key)))]
  }

  lemma ApplyOk(s: State, key: PublicKey, epochs: seq<Epoch>, tried: seq<Key>)
    requires ReceivingOk(s, epochs, tried)
    ensures ReceivingOk(ApplyRemoteRatchet(s, key), Opened(s, key, epochs), tried)
  {
    var more := Opened(s, key, epochs);
    forall id | id in s.skipped ensures Filed(more, true, 0, id.key, id.number, s.skipped[id]) {
      var i :| PlacedAt(epochs, i, true, s.received, s.skipped[id]) && epochs[i].key == id.key
               && KeyNumber(s.skipped[id]) == id.number;
      assert PlacedAt(more, i, true, 0, s.skipped[id]) && more[i].key == id.key;
    }
    forall k | 0 <= k < |tried| ensures Behind(more, 0, tried[k]) {
      var i :| PlacedAt(epochs, i, true, s.received, tried[k]);
      assert PlacedAt(more, i, true, 0, tried[k]);
    }
  }

  /** The epochs a call that moves a session from `s` to `t` leaves behind. */
  ghost function EpochsAfter(s: State, t: State, epochs: seq<Epoch>): seq<Epoch> {
    if t.root != s.root && t.remote.Some? then Opened(s, t.remote.value, epochs) else epochs
  }

  /** A call on the receiving side either moves within the epoch or opens one epoch. */
  ghost predicate Moved(s: State, t: State) {
    && t.local == s.local
    && (t.root == s.root ==> Unmoved(s, t))
    && (t.root != s.root ==>
          t.sending.None? && t.sent == 0 && RootDepth(t.root) == RootDepth(s.root) + 1)
  }

  lemma AdvanceOk(s: State, header: ParsedHeader, epochs: seq<Epoch>, tried: seq<Key>)
    requires ReceivingOk(s, epochs, tried)
    ensures var a := AdvanceTo(s, header);
            ReceivingOk(a.state, EpochsAfter(s, a.state, epochs), tried) && Moved(s, a.state)
  {
    if s.remote == Some(header.key) {
      SkipOk(s, header.number, epochs, tried);
    } else {
      SkipOk(s, header.previous, epochs, tried);
      var closed := SkipMessageKeys(s, header.previous);
      if closed.outcome.Pass? {
        ApplyOk(closed.state, header.key, epochs, tried);
        var t := ApplyRemoteRatchet(closed.state, header.key);
        assert RootDepth(t.root) == RootDepth(s.root) + 1;
        SkipOk(t, header.number, Opened(s, header.key, epochs), tried);
      }
    }
  }

  /** Keys cached under different identifiers differ. */
  lemma CachedKeysDiffer(
    id: SkippedId, other: SkippedId, epochs: seq<Epoch>, root: Key, received: nat, skipped: map<SkippedId, Key>)
    requires EpochsOk(epochs, root) && CacheOk(epochs, received, skipped)
    requires id in skipped && other in skipped && id != other
    ensures skipped[id] != skipped[other]
  {
    var i :| PlacedAt(epochs, i, true, received, skipped[id]) && epochs[i].key == id.key
             && KeyNumber(skipped[id]) == id.number;
    var j :| PlacedAt(epochs, j, true, received, skipped[other]) && epochs[j].key == other.key
             && KeyNumber(skipped[other]) == other.number;
  }

  /** Taking a key out of the cache to try it. */
  lemma TakeCachedOk(
    id: SkippedId, epochs: seq<Epoch>, root: Key, received: nat, skipped: map<SkippedId, Key>, tried: seq<Key>)
    requires EpochsOk(epochs, root) && CacheSideOk(epochs, received, skipped, tried) && id in skipped
    ensures CacheSideOk(epochs, received, skipped - {id}, tried + [skipped[id]])
  {
    TakenStaysUntried(id, epochs, root, received, skipped, tried);
    var i :| PlacedAt(epochs, i, true, received, skipped[id]);
    assert Behind(epochs, received, skipped[id]);
    RemoveShrinks(skipped, id);
  }

  lemma TakenStaysUntried(
    id: SkippedId, epochs: seq<Epoch>, root: Key, received: nat, skipped: map<SkippedId, Key>, tried: seq<Key>)
    requires EpochsOk(epochs, root) && CacheOk(epochs, received, skipped) && Untried(skipped, tried) && id in skipped
    ensures Untried(skipped - {id}, tried + [skipped[id]])
  {
    forall other | other in skipped && other != id ensures skipped[other] != skipped[id] {
      CachedKeysDiffer(id, other, epochs, root, received, skipped);
    }
  }

  /** Trying the key at the receiving position. */
  lemma TakeNextOk(
    chain: Key, epochs: seq<Epoch>, root: Key, received: nat, skipped: map<SkippedId, Key>, tried: seq<Key>)
    requires EpochsOk(epochs, root) && ChainOk(epochs, received, chain)
    requires CacheSideOk(epochs, received, skipped, tried)
    ensures CacheSideOk(epochs, received + 1, skipped, tried + [MessageKey(chain)])
    ensures ChainOk(epochs, received + 1, NextChainKey(chain))
  {
    NextIsNew(epochs, received, skipped, tried, root, chain);
    MovesOn(epochs, received, skipped, tried);
    assert PlacedAt(epochs, |epochs| - 1, true, received + 1, MessageKey(chain));
    assert Behind(epochs, received + 1, MessageKey(chain));
  }

  ghost function Tried(tried: seq<Key>, key: Option<Key>): seq<Key> {
    if key.Some? then tried + [key.value] else tried
  }

  lemma TakeCachedKeepsState(s: State, id: SkippedId, epochs: seq<Epoch>, tried: seq<Key>)
    requires ReceivingOk(s, epochs, tried) && id in s.skipped
    ensures ReceivingOk(s.(skipped := s.skipped - {id}), epochs, tried + [s.skipped[id]])
  {
    TakeCachedOk(id, epochs, s.root, s.received, s.skipped, tried);
  }

  lemma TakeNextKeepsState(s: State, chain: Key, epochs: seq<Epoch>, tried: seq<Key>)
    requires ReceivingOk(s, epochs, tried) && s.receiving == Some(chain)
    ensures ReceivingOk(s.(receiving := Some(NextChainKey(chain)), received := s.received + 1),
                        epochs, tried + [MessageKey(chain)])
  {
    TakeNextOk(chain, epochs, s.root, s.received, s.skipped, tried);
  }

  ghost predicate TakenOk(s: State, t: Taken, epochs: seq<Epoch>, tried: seq<Key>) {
    && Moved(s, t.state)
    && ReceivingOk(t.state, EpochsAfter(s, t.state, epochs), if t.key.Ok? then tried + [t.key.value] else tried)
  }

  lemma TakeNextTakenOk(s: State, t: State, epochs: seq<Epoch>, tried: seq<Key>)
    requires Moved(s, t) && ReceivingOk(t, EpochsAfter(s, t, epochs), tried)
    ensures TakenOk(s, TakeNext(t), epochs, tried)
  {
    if t.receiving.Some? {
      TakeNextKeepsState(t, t.receiving.value, EpochsAfter(s, t, epochs), tried);
    }
  }

  lemma TakeKeyOk(s: State, header: ParsedHeader, epochs: seq<Epoch>, tried: seq<Key>)
    requires ReceivingOk(s, epochs, tried)
    ensures TakenOk(s, TakeKey(s, header), epochs, tried)
  {
    var id := SkippedId(header.key, header.number);
    if id in s.skipped {
      TakeCachedKeepsState(s, id, epochs, tried);
    } else {
      AdvanceOk(s, header, epochs, tried);
      TakeNextTakenOk(s, AdvanceTo(s, header).state, epochs, tried);
    }
  }

  /** An envelope opens only under the key it was sealed with. */
  lemma OpensUnderItsKey(s: State, e: Envelope, associatedData: seq<byte>)
    ensures var d := Decrypt(s, e, associatedData);
            d.result.Ok? ==>
              d.key.Some? && e.ciphertext.Encoded? && e.ciphertext.value.Sealed? && e.ciphertext.value.key == d.key.value
  {
  }

  lemma DecryptOk(s: State, e: Envelope, associatedData: seq<byte>, epochs: seq<Epoch>, tried: seq<Key>)
    requires ReceivingOk(s, epochs, tried)
    ensures var d := Decrypt(s, e, associatedData);
            ReceivingOk(d.state, EpochsAfter(s, d.state, epochs), Tried(tried, d.key)) && Moved(s, d.state)
  {
    var parsed := ParseHeader(e.header);
    if e.version == RATCHET_VERSION && parsed.Ok? {
      TakeKeyOk(s, parsed.value, epochs, tried);
    }
  }

  lemma MoveKeepsSending(r: Record, t: Record)
    requires SendingOk(r) && Moved(r.state, t.state)
    requires t.draws == r.draws && t.sendEpochs == r.sendEpochs
    requires t.headers == r.headers && t.sealedUnder == r.sealedUnder
    ensures SendingOk(t)
  {
    if t.state.root != r.state.root {
      CloseSending(r.sendEpochs, r.state.sending.Some?, r.state.sent, r.headers, r.sealedUnder);
    }
  }

  lemma AcceptanceOk(rule: ResetRule, r: Record, c: Call)
    requires c.Receive? && AcceptedOk(r)
    requires Distinct(Do(rule, r, c).triedKeys)
    ensures AcceptedOk(Do(rule, r, c))
  {
    var t := Do(rule, r, c);
    OpensUnderItsKey(r.state, c.envelope, c.receiveData);
    if t.accepted != r.accepted {
      assert t.triedKeys[|r.triedKeys|] == c.envelope.ciphertext.value.key;
      forall k | 0 <= k < |r.accepted| ensures r.accepted[k] != c.envelope {
        var i :| 0 <= i < |r.triedKeys| && r.triedKeys[i] == r.accepted[k].ciphertext.value.key;
        assert t.triedKeys[i] == r.triedKeys[i];
      }
    }
  }

  lemma ReceiveKeepsInvariant(rule: ResetRule, r: Record, c: Call)
    requires Invariant(rule, r) && c.Receive?
    ensures Invariant(rule, Do(rule, r, c))
  {
    DecryptOk(r.state, c.envelope, c.receiveData, r.receiveEpochs, r.triedKeys);
    var t := Do(rule, r, c);
    assert t.state == Decrypt(r.state, c.envelope, c.receiveData).state;
    assert t.receiveEpochs == EpochsAfter(r.state, t.state, r.receiveEpochs);
    MoveKeepsSending(r, t);
    AcceptanceOk(rule, r, c);
  }

  /** Closing the last sending chain keeps every emission in its place. */
  lemma CloseSending(epochs: seq<Epoch>, open: bool, sent: nat, headers: seq<ParsedHeader>, keys: seq<Key>)
    requires EmissionsOk(epochs, open, sent, headers, keys)
    ensures EmissionsOk(epochs, false, 0, headers, keys)
  {
    forall k | 0 <= k < |headers| ensures Filed(epochs, false, 0, headers[k].key, headers[k].number, keys[k]) {
      var i :| PlacedAt(epochs, i, open, sent, keys[k]) && epochs[i].key == headers[k].key
               && KeyNumber(keys[k]) == headers[k].number;
      assert PlacedAt(epochs, i, false, 0, keys[k]);
    }
  }

  // The sending side

  /** Opening a sending chain after the last one was closed. */
  lemma OpenSending(
    epochs: seq<Epoch>, root: Key, draws: seq<Secret>, draw: Secret, dh: DhOutput, headers: seq<ParsedHeader>, keys: seq<Key>)
    requires SendEpochsOk(epochs, root, draws) && draw !in draws
    requires EmissionsOk(epochs, false, 0, headers, keys)
    ensures var more := epochs + [Epoch(PublicKey(draw), ChainKey(root, dh))];
            && SendEpochsOk(more, RootKey(root, dh), draws + [draw])
            && EmissionsOk(more, true, 0, headers, keys)
  {
    var more := epochs + [Epoch(PublicKey(draw), ChainKey(root, dh))];
    forall k | 0 <= k < |headers| ensures Filed(more, true, 0, headers[k].key, headers[k].number, keys[k]) {
      var i :| PlacedAt(epochs, i, false, 0, keys[k]) && epochs[i].key == headers[k].key
               && KeyNumber(keys[k]) == headers[k].number;
      assert PlacedAt(more, i, true, 0, keys[k]) && more[i].key == headers[k].key;
    }
  }

  /** Sealing under the next key of the open sending chain. */
  lemma SealNext(
    epochs: seq<Epoch>, root: Key, draws: seq<Secret>, chain: Key, header: ParsedHeader,
    headers: seq<ParsedHeader>, keys: seq<Key>)
    requires SendEpochsOk(epochs, root, draws) && ChainOk(epochs, header.number, chain)
    requires EmissionsOk(epochs, true, header.number, headers, keys)
    requires header.key == epochs[|epochs| - 1].key
    ensures EmissionsOk(epochs, true, header.number + 1, headers + [header], keys + [MessageKey(chain)])
  {
    var sent: nat, key := header.number, MessageKey(chain);
    forall k | 0 <= k < |headers|
      ensures Filed(epochs, true, sent + 1, headers[k].key, headers[k].number, keys[k])
      ensures keys[k] != key && (headers[k].key != header.key || headers[k].number != sent)
    {
      var i :| PlacedAt(epochs, i, true, sent, keys[k]) && epochs[i].key == headers[k].key
               && KeyNumber(keys[k]) == headers[k].number;
      assert PlacedAt(epochs, i, true, sent + 1, keys[k]);
    }
    assert PlacedAt(epochs, |epochs| - 1, true, sent + 1, key);
  }

  /** The record after sealing one more message under the open sending chain. */
  function AfterSeal(r: Record, t: State, header: ParsedHeader, key: Key): Record {
    r.(state := t, headers := r.headers + [header], sealedUnder := r.sealedUnder + [key])
  }

  lemma SealKeepsSending(r: Record, t: State, header: ParsedHeader)
    requires SendingOk(r) && r.state.sending.Some?
    requires header.key == r.state.local.public && header.number == r.state.sent
    requires t == r.state.(sending := Some(NextChainKey(r.state.sending.value)), sent := r.state.sent + 1)
    ensures SendingOk(AfterSeal(r, t, header, MessageKey(r.state.sending.value)))
  {
    SealNext(r.sendEpochs, r.state.root, r.draws, r.state.sending.value, header, r.headers, r.sealedUnder);
  }

  /** The record after opening a sending chain with a new key. */
  function Opening(rule: ResetRule, r: Record, draw: Secret): Record
    requires r.state.remote.Some?
  {
    if r.state.sending.Some? then r
    else
      r.(state := EnsureSendingChain(rule, r.state, draw).state,
         draws := r.draws + [draw],
         sendEpochs := r.sendEpochs
           + [Epoch(PublicKey(draw), ChainKey(r.state.root, Dh(draw, r.state.remote.value)))])
  }

  lemma OpeningKeepsSending(rule: ResetRule, r: Record, draw: Secret)
    requires SendingOk(r) && draw !in r.draws && r.state.remote.Some?
    ensures SendingOk(Opening(rule, r, draw)) && Opening(rule, r, draw).state.sending.Some?
  {
    if r.state.sending.None? {
      CloseSending(r.sendEpochs, false, r.state.sent, r.headers, r.sealedUnder);
      OpenSending(r.sendEpochs, r.state.root, r.draws, draw, Dh(draw, r.state.remote.value), r.headers, r.sealedUnder);
    }
  }

  /** A successful send opens a sending chain if there is none, and seals under its next key. */
  lemma SendIsOpenThenSeal(rule: ResetRule, r: Record, c: Call) returns (t: State, header: ParsedHeader)
    requires c.Send? && Enabled(r, c) && c.plaintext != [] && r.state.remote.Some?
    ensures var o := Opening(rule, r, c.draw);
            && o.state.sending.Some?
            && header == ParsedHeader(o.state.local.public, o.state.previous, o.state.sent)
            && t == o.state.(sending := Some(NextChainKey(o.state.sending.value)), sent := o.state.sent + 1)
            && Do(rule, r, c) == AfterSeal(o, t, header, MessageKey(o.state.sending.value))
  {
    var o := Opening(rule, r, c.draw);
    assert o.state == EnsureSendingChain(rule, r.state, c.draw).state;
    header := ParsedHeader(o.state.local.public, o.state.previous, o.state.sent);
    t := SealMessage(o.state, c.plaintext, c.sendData, c.nonce).state;
  }

  lemma SendKeepsInvariant(rule: ResetRule, r: Record, c: Call)
    requires Invariant(rule, r) && c.Send? && Enabled(r, c)
    ensures Invariant(rule, Do(rule, r, c))
  {
    if c.plaintext != [] {
      var t, header := SendIsOpenThenSeal(rule, r, c);
      var o := Opening(rule, r, c.draw);
      OpeningKeepsSending(rule, r, c.draw);
      SealKeepsSending(o, t, header);
      SealKeepsRest(rule, r, c.draw, t, header, MessageKey(o.state.sending.value));
    }
  }

  lemma SealKeepsRest(rule: ResetRule, r: Record, draw: Secret, t: State, header: ParsedHeader, key: Key)
    requires Invariant(rule, r) && r.state.remote.Some?
    requires var o := Opening(rule, r, draw);
             && o.state.sending.Some? && header.previous == o.state.previous
             && t == o.state.(sending := Some(NextChainKey(o.state.sending.value)), sent := o.state.sent + 1)
    ensures var u := AfterSeal(Opening(rule, r, draw), t, header, key);
            && ReceivingOk(u.state, u.receiveEpochs, u.triedKeys) && AcceptedOk(u) && PreviousLengthOk(rule, u)
  {
    if r.state.sending.None? {
      assert RootDepth(t.root) == RootDepth(r.state.root) + 1;
    }
  }

  // The runs

  lemma KeepsInvariant(rule: ResetRule, r: Record, c: Call)
    requires Invariant(rule, r) && Enabled(r, c)
    ensures Invariant(rule, Do(rule, r, c))
  {
    hide Invariant, Do;
    if c.Send? {
      SendKeepsInvariant(rule, r, c);
    } else {
      ReceiveKeepsInvariant(rule, r, c);
    }
  }

  /** Every state of every run satisfies the invariant. */
  lemma {:induction false} RunKeepsInvariant(rule: ResetRule, start: Record, calls: seq<Call>)
    requires Invariant(rule, start) && IsRun(rule, start, calls)
    ensures Invariant(rule, Run(rule, start, calls))
    decreases |calls|
  {
    if calls != [] {
      KeepsInvariant(rule, start, calls[0]);
      RunKeepsInvariant(rule, Do(rule, start, calls[0]), calls[1..]);
    }
  }

  /** The runs of one side of a conversation, from its bootstrap. */
  ghost predicate Starts(start: Record) {
    exists shared, secret, public ::
      start == StartInitiator(shared, secret, public) || start == StartResponder(shared, secret, public)
  }

  lemma RunsAreOk(rule: ResetRule, start: Record, calls: seq<Call>)
    requires Starts(start) && IsRun(rule, start, calls)
    ensures Invariant(rule, Run(rule, start, calls))
  {
    var shared, secret, public :|
      start == StartInitiator(shared, secret, public) || start == StartResponder(shared, secret, public);
    StartsOk(rule, shared, secret, public);
    RunKeepsInvariant(rule, start, calls);
  }

  /**
    Over every run: no message key seals twice, none is tried twice, no envelope is accepted
    twice, and no pair of ratchet key and message number is emitted twice.
   */
  lemma KeysAreUsedOnce(rule: ResetRule, start: Record, calls: seq<Call>)
    requires Starts(start) && IsRun(rule, start, calls)
    ensures var r := Run(rule, start, calls);
            && Distinct(r.sealedUnder) && Distinct(r.triedKeys) && Distinct(r.accepted)
            && (forall i, j :: 0 <= i < j < |r.headers| ==>
                  r.headers[i].key != r.headers[j].key || r.headers[i].number != r.headers[j].number)
  {
    RunsAreOk(rule, start, calls);
  }

  /** `key` is the message key with the entry's number in a chain received under the entry's ratchet key. */
  ghost predicate Derived(epochs: seq<Epoch>, id: SkippedId, key: Key) {
    exists i :: 0 <= i < |epochs| && epochs[i].key == id.key && key == MessageKeyAt(epochs[i].start, id.number)
  }

  lemma FiledKeyIsDerived(epochs: seq<Epoch>, received: nat, id: SkippedId, key: Key)
    requires Filed(epochs, true, received, id.key, id.number, key)
    ensures Derived(epochs, id, key)
  {
    var i :| PlacedAt(epochs, i, true, received, key) && epochs[i].key == id.key && KeyNumber(key) == id.number;
    ChainKeyPlace(key.of);
  }

  ghost predicate ChainDerived(epochs: seq<Epoch>, received: nat, chain: Key) {
    epochs != [] && chain == ChainAt(epochs[|epochs| - 1].start, received)
  }

  lemma OkCacheIsDerived(s: State, epochs: seq<Epoch>, tried: seq<Key>)
    requires ReceivingOk(s, epochs, tried)
    ensures |s.skipped| <= MAX_SKIPPED_MESSAGE_KEYS
    ensures forall id :: id in s.skipped ==> Derived(epochs, id, s.skipped[id])
    ensures s.receiving.Some? ==> ChainDerived(epochs, s.received, s.receiving.value)
  {
    forall id | id in s.skipped ensures Derived(epochs, id, s.skipped[id]) {
      FiledKeyIsDerived(epochs, s.received, id, s.skipped[id]);
    }
    if s.receiving.Some? {
      ChainKeyPlace(s.receiving.value);
    }
  }

  /**
    Over every run, failed calls included: the cache holds at most 128 keys, each the key of
    that number in a chain the session received under that ratchet key; and the receiving
    chain, when there is one, stands `received` steps from the start of the newest chain.
   */
  lemma CacheAgreesWithDerivation(rule: ResetRule, start: Record, calls: seq<Call>)
    requires Starts(start) && IsRun(rule, start, calls)
    ensures var r := Run(rule, start, calls);
            && |r.state.skipped| <= MAX_SKIPPED_MESSAGE_KEYS
            && (forall id :: id in r.state.skipped ==> Derived(r.receiveEpochs, id, r.state.skipped[id]))
            && (r.state.receiving.Some? ==>
                  ChainDerived(r.receiveEpochs, r.state.received, r.state.receiving.value))
  {
    RunsAreOk(rule, start, calls);
    var r := Run(rule, start, calls);
    OkCacheIsDerived(r.state, r.receiveEpochs, r.triedKeys);
  }

  /** As written, every header a run emits carries previous chain length 0. */
  lemma HeadersCarryZero(start: Record, calls: seq<Call>)
    requires Starts(start) && IsRun(Twice, start, calls)
    ensures var r := Run(Twice, start, calls);
            && (forall k :: 0 <= k < |r.headers| ==> r.headers[k].previous == 0)
            && (r.state.sending.None? ==> r.state.sent == 0)
  {
    RunsAreOk(Twice, start, calls);
  }
}
