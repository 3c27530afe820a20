/** The session object, whose methods change its fields as the code does. */
module RatchetSession {
  import opened Bytes
  import opened Primitives
  import opened RatchetState
  import opened RatchetPersistence

  class DoubleRatchetSession {
    var rootKey: Key
    var localRatchetKey: KeyPair
    var remoteRatchetKey: Option<PublicKey>
    var sendingChainKey: Option<Key>
    var receivingChainKey: Option<Key>
    var previousChainLength: nat
    var sentMessages: nat
    var receivedMessages: nat
    var skippedKeys: map<SkippedId, Key>

    /** The session's fields as one value. */
    function View(): State
      reads this
    {
      State(rootKey, localRatchetKey, remoteRatchetKey, sendingChainKey, receivingChainKey,
            previousChainLength, sentMessages, receivedMessages, skippedKeys)
    }

    constructor (s: State)
      ensures View() == s
    {
      rootKey, localRatchetKey, remoteRatchetKey := s.root, s.local, s.remote;
      sendingChainKey, receivingChainKey := s.sending, s.receiving;
      previousChainLength, sentMessages, receivedMessages := s.previous, s.sent, s.received;
      skippedKeys := s.skipped;
    }

    method EnsureSendingChain(draw: Secret) returns (r: Outcome)
      modifies this
      ensures Stepped(View(), r) == RatchetState.EnsureSendingChain(Twice, old(View()), draw)
    {
      if sendingChainKey.Some? {
        return Pass;
      }
      if remoteRatchetKey.None? {
        return Fail(MissingChainState);
      }
      previousChainLength := sentMessages;
      sentMessages := 0;
      localRatchetKey := PairOf(draw);
      var dh := Dh(localRatchetKey.secret, remoteRatchetKey.value);
      sendingChainKey := Some(ChainKey(rootKey, dh));
      rootKey := RootKey(rootKey, dh);
      return Pass;
    }

    method ApplyRemoteRatchet(key: PublicKey)
      modifies this
      ensures View() == RatchetState.ApplyRemoteRatchet(old(View()), key)
    {
      previousChainLength := sentMessages;
      sentMessages := 0;
      receivedMessages := 0;
      var dh := Dh(localRatchetKey.secret, key);
      receivingChainKey := Some(ChainKey(rootKey, dh));
      rootKey := RootKey(rootKey, dh);
      remoteRatchetKey := Some(key);
      sendingChainKey := None;
    }

    method SkipMessageKeys(until: nat) returns (r: Outcome)
      modifies this
      ensures Stepped(View(), r) == RatchetState.SkipMessageKeys(old(View()), until)
    {
      if until < receivedMessages {
        return Pass;
      }
      if until == receivedMessages {
        return Pass;
      }
      if until - receivedMessages > MAX_SKIPPED_MESSAGE_KEYS {
        return Fail(TooManySkippedMessages);
      }
      if remoteRatchetKey.None? {
        return Fail(MissingChainState);
      }
      var remote := remoteRatchetKey.value;
      if receivingChainKey.None? {
        return Fail(MissingChainState);
      }
      var chainKey := receivingChainKey.value;
      receivingChainKey := None;
      while receivedMessages < until
        invariant SkipLoop(View(), remote, chainKey, until) == RatchetState.SkipMessageKeys(old(View()), until)
        decreases until - receivedMessages
      {
        if |skippedKeys| >= MAX_SKIPPED_MESSAGE_KEYS {
          return Fail(TooManySkippedMessages);
        }
        skippedKeys := skippedKeys[SkippedId(remote, receivedMessages) := MessageKey(chainKey)];
        chainKey := NextChainKey(chainKey);
        receivedMessages := receivedMessages + 1;
      }
      receivingChainKey := Some(chainKey);
      return Pass;
    }

    /** A cached key leaves the cache whether or not it opens the envelope. */
    method TrySkippedMessageKey(header: ParsedHeader, e: Envelope, associatedData: seq<byte>)
      returns (r: Option<Result<seq<byte>>>)
      modifies this`skippedKeys
      ensures var id := SkippedId(header.key, header.number);
              if id in old(skippedKeys)
              then skippedKeys == old(skippedKeys) - {id}
                   && r == Some(OpenMessage(old(skippedKeys)[id], header, e, associatedData))
              else skippedKeys == old(skippedKeys) && r == None
    {
      var id := SkippedId(header.key, header.number);
      if id in skippedKeys {
        var messageKey := skippedKeys[id];
        skippedKeys := skippedKeys - {id};
        return Some(OpenMessage(messageKey, header, e, associatedData));
      }
      return None;
    }

    method Encrypt(plaintext: seq<byte>, associatedData: seq<byte>, nonce: Nonce, draw: Secret)
      returns (r: Result<Envelope>)
      requires sentMessages < U32_LIMIT && previousChainLength < U32_LIMIT
      modifies this
      ensures var e := RatchetState.Encrypt(Twice, old(View()), plaintext, associatedData, nonce, draw);
              View() == e.state && r == e.result
    {
      if plaintext == [] {
        return Err(InvalidRatchetMessage);
      }
      var ready := EnsureSendingChain(draw);
      if ready.Fail? {
        return Err(ready.error);
      }
      var chainKey := sendingChainKey.value;
      var header := RatchetHeader(Encoded(localRatchetKey.public), previousChainLength, sentMessages);
      var messageKey := MessageKey(chainKey);
      sendingChainKey := Some(NextChainKey(chainKey));
      sentMessages := sentMessages + 1;
      var aad := BuildRatchetAad(ParsedHeader(localRatchetKey.public, header.previous, header.number), associatedData);
      return Ok(Envelope(RATCHET_VERSION, header, Encoded(nonce), Encoded(Sealed(messageKey, nonce, aad, plaintext))));
    }

    method Decrypt(e: Envelope, associatedData: seq<byte>) returns (r: Result<seq<byte>>)
      modifies this
      ensures var d := RatchetState.Decrypt(old(View()), e, associatedData);
              View() == d.state && r == d.result
    {
      if e.version != RATCHET_VERSION {
        return Err(UnsupportedVersion);
      }
      var parsed := ParseHeader(e.header);
      if parsed.Err? {
        return Err(parsed.error);
      }
      var header := parsed.value;
      var cached := TrySkippedMessageKey(header, e, associatedData);
      if cached.Some? {
        return cached.value;
      }
      if remoteRatchetKey != Some(header.key) {
        var closed := SkipMessageKeys(header.previous);
        if closed.Fail? {
          return Err(closed.error);
        }
        ApplyRemoteRatchet(header.key);
      }
      var skipped := SkipMessageKeys(header.number);
      if skipped.Fail? {
        return Err(skipped.error);
      }
      if receivingChainKey.None? {
        return Err(MissingChainState);
      }
      var chainKey := receivingChainKey.value;
      receivingChainKey := Some(NextChainKey(chainKey));
      receivedMessages := receivedMessages + 1;
      return OpenMessage(MessageKey(chainKey), header, e, associatedData);
    }

    method Persist() returns (p: PersistedSession)
      ensures p == RatchetPersistence.Persist(View())
    {
      var entries: seq<PersistedKey> := [];
      var rest := skippedKeys;
      while rest != map[]
        invariant entries + Listing(rest) == Listing(skippedKeys)
        decreases rest.Keys
      {
        HasLeast(rest.Keys);
        var id :| id in rest.Keys && forall other | other in rest.Keys :: other == id || Before(id, other);
        LeastUnique(rest.Keys, id);
        entries := entries + [PersistedKey(Encoded(id.key), id.number, Encoded(rest[id]))];
        rest := rest - {id};
      }
      p := PersistedSession(
        RATCHET_VERSION, Encoded(rootKey), Encoded(localRatchetKey.secret), Encoded(localRatchetKey.public),
        MapEncoded(remoteRatchetKey), MapEncoded(sendingChainKey), MapEncoded(receivingChainKey),
        previousChainLength, sentMessages, receivedMessages, entries);
    }
  }

  /** The associated data, appended to a buffer part by part. */
  method BuildRatchetAad(header: ParsedHeader, associatedData: seq<byte>) returns (aad: seq<byte>)
    ensures aad == RatchetAad(header, associatedData)
  {
    aad := Ascii(RATCHET_VERSION);
    aad := aad + Base64Encode(KeyBytes(header.key.id));
    aad := aad + BigEndian(header.previous, 4);
    aad := aad + BigEndian(header.number, 4);
    aad := aad + associatedData;
  }

  /** The persisted entries, inserted one by one into an empty cache. */
  method RestoreSkipped(entries: seq<PersistedKey>) returns (r: Result<map<SkippedId, Key>>)
    ensures r == RestoredKeys(entries, map[])
  {
    var skipped: map<SkippedId, Key> := map[];
    for i := 0 to |entries|
      invariant RestoredKeys(entries[i..], skipped) == RestoredKeys(entries, map[])
    {
      if |skipped| >= MAX_SKIPPED_MESSAGE_KEYS {
        return Err(TooManySkippedMessages);
      }
      var key := Decode(entries[i].key, InvalidRatchetMessage);
      if key.Err? {
        return Err(key.error);
      }
      var messageKey := Decode(entries[i].messageKey, InvalidRatchetMessage);
      if messageKey.Err? {
        return Err(messageKey.error);
      }
      assert entries[i..][1..] == entries[i + 1..];
      skipped := skipped[SkippedId(key.value, entries[i].number) := messageKey.value];
    }
    return Ok(skipped);
  }
}
