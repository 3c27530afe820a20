/**
  What a refused envelope does to a session held in memory: exactly which refusals leave it as
  it was, for every session, every envelope and all associated data.
 */
module RatchetRefusals {
  import opened Bytes
  import opened Primitives
  import opened RatchetState
  import opened SkipLemmas
  import opened ConversationDelivery

  /** Skipping to message `until` is refused before anything is touched. */
  predicate SkipRefused(s: State, until: nat) {
    && s.received < until
    && (until - s.received > MAX_SKIPPED_MESSAGE_KEYS || s.remote.None? || s.receiving.None?)
  }

  /** What a caller could look at before the call. */
  predicate Harmless(s: State, e: Envelope) {
    || e.version != RATCHET_VERSION
    || ParseHeader(e.header).Err?
    || HarmlessHeader(s, ParseHeader(e.header).value)
  }

  /**
    Nothing is cached under the header, and the first skip is refused outright; or there is
    nothing to skip and no receiving chain to take the key from.
   */
  predicate HarmlessHeader(s: State, header: ParsedHeader) {
    var current := s.remote == Some(header.key);
    var until := if current then header.number else header.previous;
    && SkippedId(header.key, header.number) !in s.skipped
    && (SkipRefused(s, until) || (until <= s.received && current && s.receiving.None?))
  }

  /** A skip that is not refused outright, and has somewhere to go, moves the session. */
  lemma SkipMoves(s: State, until: nat)
    requires s.received < until && !SkipRefused(s, until)
    ensures var t := SkipMessageKeys(s, until);
            if t.outcome.Pass? then t.state.received == until && t.state.receiving.Some?
            else t.state.receiving.None? && t.outcome.error == TooManySkippedMessages
  {
    SkipLoopMoves(s.(receiving := None), s.remote.value, s.receiving.value, until);
  }

  lemma {:induction false} SkipLoopMoves(s: State, remote: PublicKey, chain: Key, until: nat)
    requires s.received <= until
    ensures var t := SkipLoop(s, remote, chain, until);
            if t.outcome.Pass? then t.state.received == until && t.state.receiving.Some?
            else t.state.receiving == s.receiving && t.outcome.error == TooManySkippedMessages
    decreases until - s.received
  {
    if s.received < until && |s.skipped| < MAX_SKIPPED_MESSAGE_KEYS {
      SkipLoopMoves(SkippedOne(s, remote, chain), remote, NextChainKey(chain), until);
    }
  }

  /** Within an epoch, a call takes a key, or leaves its mark, unless it is harmless. */
  lemma WithinEpochMark(s: State, header: ParsedHeader)
    requires SkippedId(header.key, header.number) !in s.skipped && s.remote == Some(header.key)
    ensures TakeKey(s, header).state == s <==> HarmlessHeader(s, header)
    ensures HarmlessHeader(s, header) ==> TakeKey(s, header).key.Err?
  {
    if s.received < header.number && !SkipRefused(s, header.number) {
      SkipMoves(s, header.number);
    }
    hide SkipLoop;
  }

  /** Across epochs it steps the root key for good, unless the closing skip stops it. */
  lemma AcrossEpochsMark(s: State, header: ParsedHeader)
    requires SkippedId(header.key, header.number) !in s.skipped && s.remote != Some(header.key)
    ensures TakeKey(s, header).state == s <==> HarmlessHeader(s, header)
    ensures HarmlessHeader(s, header) ==> TakeKey(s, header).key.Err?
  {
    if s.received < header.previous && !SkipRefused(s, header.previous) {
      SkipMoves(s, header.previous);
    }
    var closed := SkipMessageKeys(s, header.previous);
    if closed.outcome.Pass? {
      SkipKeepsRest(s, header.previous);
      SkipKeepsRest(ApplyRemoteRatchet(closed.state, header.key), header.number);
      RootGrows(s.root, Dh(s.local.secret, header.key));
    }
    hide SkipLoop, SkipMessageKeys;
  }

  lemma TakingMarks(s: State, header: ParsedHeader)
    ensures TakeKey(s, header).state == s <==> HarmlessHeader(s, header)
    ensures HarmlessHeader(s, header) ==> TakeKey(s, header).key.Err?
  {
    var id := SkippedId(header.key, header.number);
    hide AdvanceTo;
    if id in s.skipped {
      assert id !in TakeKey(s, header).state.skipped;
    } else if s.remote == Some(header.key) {
      WithinEpochMark(s, header);
    } else {
      AcrossEpochsMark(s, header);
    }
  }

  /**
    A refused call leaves the session as it was exactly if the call is harmless, which can be
    seen before it is made; and a harmless call is always refused.
   */
  lemma RefusalIsHarmlessExactly(s: State, e: Envelope, associatedData: seq<byte>)
    ensures var d := Decrypt(s, e, associatedData);
            && (d.result.Err? ==> (d.state == s <==> Harmless(s, e)))
            && (Harmless(s, e) ==> d.result.Err?)
  {
    if e.version == RATCHET_VERSION && ParseHeader(e.header).Ok? {
      var header := ParseHeader(e.header).value;
      DecryptIsParsed(s, e, associatedData, header);
      TakingMarks(s, header);
    }
    hide TakeKey, HarmlessHeader;
  }

  // The cache runs over

  lemma {:induction false} OverfullLoop(s: State, remote: PublicKey, chain: Key, until: nat)
    requires s.received <= until && Vacant(s.skipped, remote, s.received, until)
    requires |s.skipped| <= MAX_SKIPPED_MESSAGE_KEYS < |s.skipped| + (until - s.received)
    ensures var t := SkipLoop(s, remote, chain, until);
            && t.outcome == Fail(TooManySkippedMessages)
            && t.state.receiving == s.receiving && |t.state.skipped| == MAX_SKIPPED_MESSAGE_KEYS
    decreases until - s.received
  {
    if |s.skipped| < MAX_SKIPPED_MESSAGE_KEYS {
      StoreOne(s.skipped, remote, s.received, until, MessageKey(chain));
      OverfullLoop(SkippedOne(s, remote, chain), remote, NextChainKey(chain), until);
    }
  }

  /**
    A message of the present epoch that is ahead by no more than 128, but by more than the cache
    has room for, costs the session its receiving chain: the cache is full, and every further
    message of the epoch that is not in it is refused, harmlessly.
   */
  lemma OverfullSkipTakesTheChain(
    s: State, e: Envelope, data: seq<byte>, header: ParsedHeader, f: Envelope, other: seq<byte>, next: ParsedHeader)
    requires e.version == RATCHET_VERSION && ParseHeader(e.header) == Ok(header)
    requires f.version == RATCHET_VERSION && ParseHeader(f.header) == Ok(next) && next.key == header.key
    requires s.remote == Some(header.key) && s.receiving.Some?
    requires Vacant(s.skipped, header.key, s.received, header.number + 1)
    requires |s.skipped| <= MAX_SKIPPED_MESSAGE_KEYS < |s.skipped| + (header.number - s.received)
    requires s.received < header.number <= s.received + MAX_SKIPPED_MESSAGE_KEYS
    ensures var d := Decrypt(s, e, data);
            && d.result == Err(TooManySkippedMessages)
            && d.state.receiving.None? && |d.state.skipped| == MAX_SKIPPED_MESSAGE_KEYS
            && (SkippedId(next.key, next.number) !in d.state.skipped ==>
                  Decrypt(d.state, f, other).result.Err? && Decrypt(d.state, f, other).state == d.state)
  {
    OverfullLoop(s.(receiving := None), header.key, s.receiving.value, header.number);
    SkipKeepsRest(s, header.number);
    DecryptIsParsed(s, e, data, header);
    assert SkippedId(header.key, header.number) !in s.skipped;
    var t := SkipMessageKeys(s, header.number).state;
    assert TakeKey(s, header) == Taken(t, Err(TooManySkippedMessages));
    hide TakeKey, SkipMessageKeys, SkipLoop;
    RefusalIsHarmlessExactly(t, f, other);
  }
}
