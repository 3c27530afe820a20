/**
  The Double Ratchet session as a value, and each operation of the session as a function
  on it. The class in RatchetSession.dfy is proved against these functions.
 */
module RatchetState {
  import opened Bytes
  import opened Primitives

  const RATCHET_VERSION := "simy-double-ratchet-v1"
  const MAX_SKIPPED_MESSAGE_KEYS: nat := 128

  datatype RatchetHeader = RatchetHeader(key: Encoded<PublicKey>, previous: u32, number: u32)

  datatype ParsedHeader = ParsedHeader(key: PublicKey, previous: u32, number: u32)

  datatype Envelope = Envelope(
    version: string,
    header: RatchetHeader,
    nonce: Encoded<Nonce>,
    ciphertext: Encoded<Ciphertext>)

  datatype SkippedId = SkippedId(key: PublicKey, number: nat)

  datatype State = State(
    root: Key,
    local: KeyPair,
    remote: Option<PublicKey>,
    sending: Option<Key>,
    receiving: Option<Key>,
    previous: nat,
    sent: nat,
    received: nat,
    skipped: map<SkippedId, Key>)

  /**
    When the previous-chain-length field is overwritten. The code does it `Twice`: in
    apply_remote_ratchet and again in ensure_sending_chain. `Once` is the variant without
    the second overwrite.
   */
  datatype ResetRule = Twice | Once

  datatype Stepped = Stepped(state: State, outcome: Outcome)

  /** `key` is the message key the call sealed under, if it got that far. */
  datatype Encrypted = Encrypted(state: State, key: Option<Key>, result: Result<Envelope>)

  /** `key` is the message key the call tried to open the envelope with, if it got that far. */
  datatype Decrypted = Decrypted(state: State, key: Option<Key>, result: Result<seq<byte>>)

  /** The associated data a message is bound to: version, sender key, counters, caller's data. */
  function RatchetAad(header: ParsedHeader, associatedData: seq<byte>): seq<byte> {
    Ascii(RATCHET_VERSION)
    + Base64Encode(KeyBytes(header.key.id))
    + BigEndian(header.previous, 4)
    + BigEndian(header.number, 4)
    + associatedData
  }

  function EnsureSendingChain(rule: ResetRule, s: State, draw: Secret): (r: Stepped)
    ensures r.outcome.Pass? ==> r.state.sending.Some?
  {
    if s.sending.Some? then Stepped(s, Pass)
    else if s.remote.None? then Stepped(s, Fail(MissingChainState))
    else
      var dh := Dh(draw, s.remote.value);
      Stepped(
        s.(previous := if rule.Twice? then s.sent else s.previous,
           sent := 0,
           local := PairOf(draw),
           root := RootKey(s.root, dh),
           sending := Some(ChainKey(s.root, dh))),
        Pass)
  }

  function SealMessage(s: State, plaintext: seq<byte>, associatedData: seq<byte>, nonce: Nonce): Encrypted
    requires s.sending.Some? && s.sent < U32_LIMIT && s.previous < U32_LIMIT
  {
    var key := MessageKey(s.sending.value);
    var aad := RatchetAad(ParsedHeader(s.local.public, s.previous, s.sent), associatedData);
    Encrypted(
      s.(sending := Some(NextChainKey(s.sending.value)), sent := s.sent + 1),
      Some(key),
      Ok(Envelope(
        RATCHET_VERSION,
        RatchetHeader(Encoded(s.local.public), s.previous, s.sent),
        Encoded(nonce),
        Encoded(Sealed(key, nonce, aad, plaintext)))))
  }

  function Encrypt(
    rule: ResetRule, s: State, plaintext: seq<byte>, associatedData: seq<byte>, nonce: Nonce, draw: Secret
  ): (r: Encrypted)
    requires s.sent < U32_LIMIT && s.previous < U32_LIMIT
    ensures r.result.Ok? <==> r.key.Some?
    ensures r.result.Ok? ==> r.result.value.header.key.Encoded?
  {
    if plaintext == [] then Encrypted(s, None, Err(InvalidRatchetMessage))
    else
      var ready := EnsureSendingChain(rule, s, draw);
      if ready.outcome.Fail? then Encrypted(ready.state, None, Err(ready.outcome.error))
      else SealMessage(ready.state, plaintext, associatedData, nonce)
  }

  /** The session with its root key ratcheted by the peer's new key. */
  function ApplyRemoteRatchet(s: State, key: PublicKey): State {
    var dh := Dh(s.local.secret, key);
    s.(previous := s.sent,
       sent := 0,
       received := 0,
       root := RootKey(s.root, dh),
       remote := Some(key),
       receiving := Some(ChainKey(s.root, dh)),
       sending := None)
  }

  /** The loop of skip_message_keys: `chain` has been taken out of the state. */
  function SkipLoop(s: State, remote: PublicKey, chain: Key, until: nat): Stepped
    decreases until - s.received
  {
    if s.received >= until then Stepped(s.(receiving := Some(chain)), Pass)
    else if |s.skipped| >= MAX_SKIPPED_MESSAGE_KEYS then Stepped(s, Fail(TooManySkippedMessages))
    else
      SkipLoop(
        s.(skipped := s.skipped[SkippedId(remote, s.received) := MessageKey(chain)],
           received := s.received + 1),
        remote, NextChainKey(chain), until)
  }

  function SkipMessageKeys(s: State, until: nat): Stepped {
    if until <= s.received then Stepped(s, Pass)
    else if until - s.received > MAX_SKIPPED_MESSAGE_KEYS then Stepped(s, Fail(TooManySkippedMessages))
    else if s.remote.None? then Stepped(s, Fail(MissingChainState))
    else if s.receiving.None? then Stepped(s, Fail(MissingChainState))
    else SkipLoop(s.(receiving := None), s.remote.value, s.receiving.value, until)
  }

  function OpenMessage(key: Key, header: ParsedHeader, e: Envelope, associatedData: seq<byte>): Result<seq<byte>> {
    var nonce := Decode(e.nonce, InvalidRatchetMessage);
    var ciphertext := Decode(e.ciphertext, InvalidRatchetMessage);
    if nonce.Err? then Err(nonce.error)
    else if ciphertext.Err? then Err(ciphertext.error)
    else Open(key, nonce.value, RatchetAad(header, associatedData), ciphertext.value)
  }

  function ParseHeader(header: RatchetHeader): Result<ParsedHeader> {
    var key := Decode(header.key, InvalidRatchetMessage);
    if key.Err? then Err(key.error) else Ok(ParsedHeader(key.value, header.previous, header.number))
  }

  /** Moves to the epoch and message number a header names. */
  function AdvanceTo(s: State, header: ParsedHeader): Stepped {
    if s.remote == Some(header.key) then SkipMessageKeys(s, header.number)
    else
      var closed := SkipMessageKeys(s, header.previous);
      if closed.outcome.Fail? then closed
      else SkipMessageKeys(ApplyRemoteRatchet(closed.state, header.key), header.number)
  }

  datatype Taken = Taken(state: State, key: Result<Key>)

  /** The message key at the receiving position, and the position moved past it. */
  function TakeNext(s: State): Taken {
    if s.receiving.None? then Taken(s, Err(MissingChainState))
    else
      var chain := s.receiving.value;
      Taken(s.(receiving := Some(NextChainKey(chain)), received := s.received + 1), Ok(MessageKey(chain)))
  }

  /** The message key a header asks for: a cached key first, then the receiving chain. */
  function TakeKey(s: State, header: ParsedHeader): Taken {
    var id := SkippedId(header.key, header.number);
    if id in s.skipped then Taken(s.(skipped := s.skipped - {id}), Ok(s.skipped[id]))
    else
      var ready := AdvanceTo(s, header);
      if ready.outcome.Fail? then Taken(ready.state, Err(ready.outcome.error)) else TakeNext(ready.state)
  }

  /** Decryption once the header is parsed. The state changes before the message is authenticated. */
  function DecryptParsed(s: State, header: ParsedHeader, e: Envelope, associatedData: seq<byte>): Decrypted {
    var taken := TakeKey(s, header);
    match taken.key
    case Err(error) => Decrypted(taken.state, None, Err(error))
    case Ok(key) => Decrypted(taken.state, Some(key), OpenMessage(key, header, e, associatedData))
  }

  function Decrypt(s: State, e: Envelope, associatedData: seq<byte>): Decrypted {
    if e.version != RATCHET_VERSION then Decrypted(s, None, Err(UnsupportedVersion))
    else
      var header := ParseHeader(e.header);
      if header.Err? then Decrypted(s, None, Err(header.error))
      else DecryptParsed(s, header.value, e, associatedData)
  }

  /** A session's first root step: a root key and the first chain key. */
  function BootstrapInitiator(shared: Key, ephemeral: Secret, signedPreKey: PublicKey): State {
    var dh := Dh(ephemeral, signedPreKey);
    State(RootKey(shared, dh), PairOf(ephemeral), Some(signedPreKey),
          Some(ChainKey(shared, dh)), None, 0, 0, 0, map[])
  }

  function BootstrapResponder(shared: Key, signedPreKey: Secret, ephemeral: PublicKey): State {
    var dh := Dh(signedPreKey, ephemeral);
    State(RootKey(shared, dh), PairOf(signedPreKey), Some(ephemeral),
          None, Some(ChainKey(shared, dh)), 0, 0, 0, map[])
  }

  // Layout of the associated data

  lemma RatchetAadInjective(h: ParsedHeader, a: seq<byte>, k: ParsedHeader, b: seq<byte>)
    requires RatchetAad(h, a) == RatchetAad(k, b)
    ensures h == k && a == b
  {
    var v := Ascii(RATCHET_VERSION);
    var hk, kk := KeyBytes(h.key.id), KeyBytes(k.key.id);
    var hp, kp := BigEndian(h.previous, 4), BigEndian(k.previous, 4);
    var hn, kn := BigEndian(h.number, 4), BigEndian(k.number, 4);
    SplitEqual(v + Base64Encode(hk) + hp + hn, a, v + Base64Encode(kk) + kp + kn, b);
    SplitEqualAtEnd(v + Base64Encode(hk) + hp, hn, v + Base64Encode(kk) + kp, kn);
    SplitEqualAtEnd(v + Base64Encode(hk), hp, v + Base64Encode(kk), kp);
    SplitEqual(v, Base64Encode(hk), v, Base64Encode(kk));
    Base64Injective(hk, kk);
    KeyBytesInjective(h.key.id, k.key.id);
    U32Injective(h.previous, k.previous);
    U32Injective(h.number, k.number);
  }

  /**
    Byte by byte: the 22 bytes of the version, the 44 characters of the sender's key, the two
    counters with the most significant byte first, and the caller's data.
   */
  lemma RatchetAadLayout(header: ParsedHeader, data: seq<byte>)
    ensures var aad, p, n := RatchetAad(header, data), header.previous, header.number;
            && |aad| == 74 + |data|
            && aad[..22] == [115, 105, 109, 121, 45, 100, 111, 117, 98, 108, 101, 45, 114, 97, 116, 99, 104, 101, 116,
                             45, 118, 49]
            && aad[22..66] == Base64Encode(BigEndian(header.key.id, 32))
            && aad[66..70] == [p / 0x100_0000 % 256, p / 0x1_0000 % 256, p / 0x100 % 256, p % 256]
            && aad[70..74] == [n / 0x100_0000 % 256, n / 0x1_0000 % 256, n / 0x100 % 256, n % 256]
            && aad[74..] == data
  {
    FourBytes(header.previous);
    FourBytes(header.number);
    var v, key := Ascii(RATCHET_VERSION), Base64Encode(KeyBytes(header.key.id));
    assert v == [115, 105, 109, 121, 45, 100, 111, 117, 98, 108, 101, 45, 114, 97, 116, 99, 104, 101, 116, 45, 118, 49];
    assert |key| == 44;
    hide Ascii, Base64Encode, BigEndian;
    FiveParts(v, key, BigEndian(header.previous, 4), BigEndian(header.number, 4), data);
  }

  lemma FiveParts(a: seq<byte>, b: seq<byte>, c: seq<byte>, d: seq<byte>, e: seq<byte>)
    requires |a| == 22 && |b| == 44 && |c| == 4 && |d| == 4
    ensures var s := a + b + c + d + e;
            |s| == 74 + |e| && s[..22] == a && s[22..66] == b && s[66..70] == c && s[70..74] == d && s[74..] == e
  {
  }

  // What a call writes, and why it is refused

  /** The envelope of a message: every field, and what the ciphertext was sealed with. */
  ghost predicate Emits(
    e: Envelope, key: PublicKey, previous: u32, number: u32, messageKey: Key, nonce: Nonce, data: seq<byte>,
    plaintext: seq<byte>)
  {
    && e.version == "simy-double-ratchet-v1"
    && e.header == RatchetHeader(Encoded(key), previous, number)
    && e.nonce == Encoded(nonce)
    && e.ciphertext == Encoded(Sealed(messageKey, nonce, RatchetAad(ParsedHeader(key, previous, number), data), plaintext))
  }

  /**
    As written, a message continues the open sending chain, or opens one with the drawn key, as
    message 0; without a chain and a peer's key, or without a plaintext, it is refused.
   */
  lemma EncryptWrites(s: State, plaintext: seq<byte>, data: seq<byte>, nonce: Nonce, draw: Secret)
    requires s.sent < U32_LIMIT && s.previous < U32_LIMIT
    ensures var out := Encrypt(Twice, s, plaintext, data, nonce, draw);
            if plaintext == [] then out.state == s && out.result == Err(InvalidRatchetMessage)
            else if s.sending.Some? then
              && out.result.Ok?
              && Emits(out.result.value, s.local.public, s.previous, s.sent, MessageKey(s.sending.value), nonce, data, plaintext)
              && out.state == s.(sending := Some(NextChainKey(s.sending.value)), sent := s.sent + 1)
            else if s.remote.None? then out.state == s && out.result == Err(MissingChainState)
            else
              var dh := Dh(draw, s.remote.value);
              && out.result.Ok?
              && Emits(out.result.value, PublicKey(draw), s.sent, 0, MessageKey(ChainKey(s.root, dh)), nonce, data, plaintext)
              && out.state == State(
                   RootKey(s.root, dh), KeyPair(draw, PublicKey(draw)), s.remote, Some(NextChainKey(ChainKey(s.root, dh))),
                   s.receiving, s.sent, 1, s.received, s.skipped)
  {
    hide RatchetAad;
  }

  /** A refusal before the session is looked at. */
  lemma HeaderReasons(s: State, e: Envelope, data: seq<byte>)
    ensures var out, key := Decrypt(s, e, data), e.header.key;
            && (e.version != "simy-double-ratchet-v1" ==> out.result == Err(UnsupportedVersion) && out.state == s)
            && (e.version == "simy-double-ratchet-v1" && key.NotBase64? ==>
                  out.result == Err(InvalidBase64) && out.state == s)
            && (e.version == "simy-double-ratchet-v1" && key.WrongLength? ==>
                  out.result == Err(InvalidRatchetMessage) && out.state == s)
            && (e.version == "simy-double-ratchet-v1" && key.Encoded? ==>
                  out == DecryptParsed(s, ParsedHeader(key.value, e.header.previous, e.header.number), e, data))
  {
    hide DecryptParsed;
  }

  /** How many keys lie between the receiving position and the first message number to skip to. */
  function FirstGap(s: State, header: ParsedHeader): int {
    (if s.remote == Some(header.key) then header.number else header.previous) - s.received
  }

  /** A refusal for want of a key, seen before the call: too far ahead, or no chain to take it from. */
  lemma KeyReasons(s: State, header: ParsedHeader)
    requires SkippedId(header.key, header.number) !in s.skipped
    ensures var out, gap := TakeKey(s, header), FirstGap(s, header);
            && (gap > 128 ==> out == Taken(s, Err(TooManySkippedMessages)))
            && (0 < gap <= 128 && (s.remote.None? || s.receiving.None?) ==> out == Taken(s, Err(MissingChainState)))
            && (gap <= 0 && s.remote == Some(header.key) && s.receiving.None? ==> out == Taken(s, Err(MissingChainState)))
            && (out.key.Err? ==> out.key.error == TooManySkippedMessages || out.key.error == MissingChainState)
  {
    SkipReasons(s, FirstGap(s, header) + s.received);
    if s.remote != Some(header.key) {
      SkipReasons(ApplyRemoteRatchet(SkipMessageKeys(s, header.previous).state, header.key), header.number);
    }
    hide SkipLoop;
  }

  lemma SkipReasons(s: State, until: int)
    requires until >= 0
    ensures var t := SkipMessageKeys(s, until);
            t.outcome.Fail? ==> t.outcome.error == TooManySkippedMessages || t.outcome.error == MissingChainState
  {
    if s.remote.Some? && s.receiving.Some? {
      LoopReasons(s.(receiving := None), s.remote.value, s.receiving.value, until);
    }
  }

  lemma {:induction false} LoopReasons(s: State, remote: PublicKey, chain: Key, until: nat)
    ensures var t := SkipLoop(s, remote, chain, until);
            t.outcome.Fail? ==> t.outcome.error == TooManySkippedMessages && |t.state.skipped| >= 128
    decreases until - s.received
  {
    if s.received < until && |s.skipped| < 128 {
      LoopReasons(
        s.(skipped := s.skipped[SkippedId(remote, s.received) := MessageKey(chain)], received := s.received + 1),
        remote, NextChainKey(chain), until);
    }
  }

  /** With the key in hand: nonce and ciphertext must be well formed, and sealed just so. */
  lemma OpenReasons(key: Key, header: ParsedHeader, e: Envelope, data: seq<byte>)
    ensures var r := OpenMessage(key, header, e, data);
            && (e.nonce.NotBase64? ==> r == Err(InvalidBase64))
            && (e.nonce.WrongLength? ==> r == Err(InvalidRatchetMessage))
            && (e.nonce.Encoded? && e.ciphertext.NotBase64? ==> r == Err(InvalidBase64))
            && (e.nonce.Encoded? && e.ciphertext.WrongLength? ==> r == Err(InvalidRatchetMessage))
            && (forall plaintext :: r == Ok(plaintext) <==>
                  e.nonce.Encoded?
                  && e.ciphertext == Encoded(Sealed(key, e.nonce.value, RatchetAad(header, data), plaintext)))
            && (e.nonce.Encoded? && e.ciphertext.Encoded? && r.Err? ==> r == Err(CryptoFailure))
  {
    hide RatchetAad;
  }
}
