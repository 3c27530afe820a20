/**
  The session that draws its next ratchet key on receipt, and the proof that the deferred draw
  of the code changes nothing a peer can see in an honest conversation. With a single overwrite
  of the previous chain length it is that of "The Double Ratchet Algorithm", section 3.5.
 */
module EagerRatchet {
  import opened Bytes
  import opened Primitives
  import opened RatchetState

  /** DHRatchet: take the peer's key, and at once draw a key and open a sending chain. */
  function DhRatchet(rule: ResetRule, s: State, key: PublicKey, draw: Secret): State {
    EnsureSendingChain(rule, ApplyRemoteRatchet(s, key), draw).state
  }

  function EagerAdvance(rule: ResetRule, s: State, header: ParsedHeader, draw: Secret): Stepped {
    if s.remote == Some(header.key) then SkipMessageKeys(s, header.number)
    else
      var closed := SkipMessageKeys(s, header.previous);
      if closed.outcome.Fail? then closed
      else SkipMessageKeys(DhRatchet(rule, closed.state, header.key, draw), header.number)
  }

  function EagerTakeKey(rule: ResetRule, s: State, header: ParsedHeader, draw: Secret): Taken {
    var id := SkippedId(header.key, header.number);
    if id in s.skipped then Taken(s.(skipped := s.skipped - {id}), Ok(s.skipped[id]))
    else
      var ready := EagerAdvance(rule, s, header, draw);
      if ready.outcome.Fail? then Taken(ready.state, Err(ready.outcome.error)) else TakeNext(ready.state)
  }

  function EagerDecrypt(rule: ResetRule, s: State, e: Envelope, associatedData: seq<byte>, draw: Secret): Decrypted {
    if e.version != RATCHET_VERSION then Decrypted(s, None, Err(UnsupportedVersion))
    else
      var parsed := ParseHeader(e.header);
      if parsed.Err? then Decrypted(s, None, Err(parsed.error))
      else
        var taken := EagerTakeKey(rule, s, parsed.value, draw);
        match taken.key
        case Err(error) => Decrypted(taken.state, None, Err(error))
        case Ok(key) => Decrypted(taken.state, Some(key), OpenMessage(key, parsed.value, e, associatedData))
  }

  /** RatchetEncrypt: the sending chain is always there. */
  function EagerEncrypt(s: State, plaintext: seq<byte>, associatedData: seq<byte>, nonce: Nonce): Encrypted
    requires s.sent < U32_LIMIT && s.previous < U32_LIMIT
  {
    if plaintext == [] then Encrypted(s, None, Err(InvalidRatchetMessage))
    else if s.sending.None? then Encrypted(s, None, Err(MissingChainState))
    else SealMessage(s, plaintext, associatedData, nonce)
  }

  /** The eager session a session of the code stands for, `draw` being its next key. */
  function EagerOf(rule: ResetRule, s: State, draw: Secret): State {
    EnsureSendingChain(rule, s, draw).state
  }

  // Sending

  lemma SendingAgrees(
    rule: ResetRule, s: State, draw: Secret, plaintext: seq<byte>, data: seq<byte>, nonce: Nonce)
    requires s.remote.Some? && s.sent < U32_LIMIT && s.previous < U32_LIMIT
    ensures var lazy := Encrypt(rule, s, plaintext, data, nonce, draw);
            var eager := EagerEncrypt(EagerOf(rule, s, draw), plaintext, data, nonce);
            && eager.result == lazy.result && eager.key == lazy.key
            && eager.state == EagerOf(rule, lazy.state, draw)
            && (plaintext != [] ==> lazy.state.sending.Some?)
  {
  }

  // Receiving

  /** `s` with the receiving chain, position and cache of `t`. */
  function Graft(s: State, t: State): State {
    s.(receiving := t.receiving, received := t.received, skipped := t.skipped)
  }

  lemma {:induction false} SkipLoopGrafts(s: State, t: State, remote: PublicKey, chain: Key, until: nat)
    ensures var plain := SkipLoop(t, remote, chain, until);
            SkipLoop(Graft(s, t), remote, chain, until) == Stepped(Graft(s, plain.state), plain.outcome)
    decreases until - t.received
  {
    if t.received < until && |t.skipped| < MAX_SKIPPED_MESSAGE_KEYS {
      var u := t.(skipped := t.skipped[SkippedId(remote, t.received) := MessageKey(chain)], received := t.received + 1);
      SkipLoopGrafts(s, u, remote, NextChainKey(chain), until);
    }
  }

  /** Skipping depends on nothing but the peer's key and the receiving half. */
  lemma SkipGrafts(s: State, t: State, until: nat)
    requires s.remote == t.remote
    ensures var plain := SkipMessageKeys(t, until);
            SkipMessageKeys(Graft(s, t), until) == Stepped(Graft(s, plain.state), plain.outcome)
  {
    if t.received < until && t.remote.Some? && t.receiving.Some? {
      SkipLoopGrafts(s, t.(receiving := None), t.remote.value, t.receiving.value, until);
    }
  }

  /** Skipping leaves the rest of the state alone. */
  lemma SkipIsGraft(t: State, until: nat)
    ensures SkipMessageKeys(t, until).state == Graft(t, SkipMessageKeys(t, until).state)
  {
    SkipGrafts(t, t, until);
    assert Graft(t, t) == t;
  }

  lemma EagerOfGraft(rule: ResetRule, s: State, t: State, draw: Secret)
    ensures EagerOf(rule, Graft(s, t), draw) == Graft(EagerOf(rule, s, draw), t)
  {
  }

  /** Skipping, and then taking the next key, agree between a session and its eager counterpart. */
  lemma SkipAgrees(rule: ResetRule, s: State, draw: Secret, until: nat)
    ensures var lazy := SkipMessageKeys(s, until);
            SkipMessageKeys(EagerOf(rule, s, draw), until) == Stepped(EagerOf(rule, lazy.state, draw), lazy.outcome)
  {
    var e := EagerOf(rule, s, draw);
    assert e == Graft(e, s);
    SkipGrafts(e, s, until);
    SkipIsGraft(s, until);
    EagerOfGraft(rule, s, SkipMessageKeys(s, until).state, draw);
  }

  lemma TakeNextAgrees(rule: ResetRule, s: State, draw: Secret)
    ensures var lazy := TakeNext(s);
            TakeNext(EagerOf(rule, s, draw)) == Taken(EagerOf(rule, lazy.state, draw), lazy.key)
  {
  }

  ghost predicate TakingAgrees(rule: ResetRule, eager: Taken, lazy: Taken, draw: Secret) {
    eager == Taken(EagerOf(rule, lazy.state, draw), lazy.key)
  }

  /** Within an epoch, and for cached keys, the eager session takes the same key. */
  lemma TakeWithinEpochAgrees(rule: ResetRule, s: State, draw: Secret, header: ParsedHeader, unused: Secret)
    requires SkippedId(header.key, header.number) in s.skipped || s.remote == Some(header.key)
    ensures TakingAgrees(rule, EagerTakeKey(rule, EagerOf(rule, s, draw), header, unused), TakeKey(s, header), draw)
  {
    var id := SkippedId(header.key, header.number);
    if id !in s.skipped {
      SkipAgrees(rule, s, draw, header.number);
      TakeNextAgrees(rule, SkipMessageKeys(s, header.number).state, draw);
    }
  }

  /** Crossing into a new epoch with the sending chain open, it takes the same key and draws at once. */
  lemma TakeAcrossAgrees(rule: ResetRule, s: State, header: ParsedHeader, draw: Secret)
    requires SkippedId(header.key, header.number) !in s.skipped && s.remote != Some(header.key)
    requires TakeKey(s, header).key.Ok?
    ensures TakingAgrees(rule, EagerTakeKey(rule, s, header, draw), TakeKey(s, header), draw)
  {
    var closed := SkipMessageKeys(s, header.previous).state;
    var crossed := ApplyRemoteRatchet(closed, header.key);
    SkipAgrees(rule, crossed, draw, header.number);
    TakeNextAgrees(rule, SkipMessageKeys(crossed, header.number).state, draw);
  }
}
