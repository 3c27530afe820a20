/**
  The X3DH key agreement and the initial message sealed under it. Each side derives the
  shared secret by its own procedure; both hand it to the ratchet's bootstrap.
 */
module X3dh {
  import opened Bytes
  import opened Primitives
  import opened RatchetState
  import opened Conversation
  import opened ConversationRuns

  const INITIAL_MESSAGE_VERSION := "simy-x3dh-initial-v1"

  datatype ContentKind = DirectMessage | SessionBootstrap | MediaPointer | FeedPost

  datatype IdentityKeys = IdentityKeys(signing: VerifyingKey, exchange: PublicKey)

  datatype IdentityKeyPair = IdentityKeyPair(signing: Secret, exchange: Secret)

  datatype SignedPreKey = SignedPreKey(secret: Secret, signature: Signature)

  datatype OneTimePreKey = OneTimePreKey(secret: Secret)

  datatype PreKeyBundle = PreKeyBundle(
    identity: IdentityKeys,
    signedPreKey: PublicKey,
    signature: Signature,
    oneTime: Option<PublicKey>)

  datatype MessageKeys = MessageKeys(
    sender: IdentityKeys,
    ephemeral: PublicKey,
    signedPreKey: PublicKey,
    oneTime: Option<PublicKey>)

  datatype Handshake = Handshake(keys: MessageKeys, shared: Key, ephemeral: Secret)

  datatype InitialEnvelope = InitialEnvelope(
    version: string,
    kind: ContentKind,
    senderSigning: VerifyingKeyText,
    senderExchange: Encoded<PublicKey>,
    ephemeral: Encoded<PublicKey>,
    signedPreKey: Encoded<PublicKey>,
    oneTime: Option<Encoded<PublicKey>>,
    nonce: Encoded<Nonce>,
    ciphertext: Encoded<Ciphertext>,
    createdAt: int)

  datatype Opened = Opened(kind: ContentKind, keys: MessageKeys, plaintext: seq<byte>, shared: Key)

  datatype Sealing = Sealing(envelope: InitialEnvelope, handshake: Handshake)

  function PublicKeys(identity: IdentityKeyPair): IdentityKeys {
    IdentityKeys(VerifyingKey(identity.signing), PublicKey(identity.exchange))
  }

  function GenerateSignedPreKey(identity: IdentityKeyPair, draw: Secret): SignedPreKey {
    SignedPreKey(draw, Sign(identity.signing, KeyBytes(draw)))
  }

  function BundleOf(identity: IdentityKeyPair, signed: SignedPreKey, oneTime: Option<OneTimePreKey>): PreKeyBundle {
    PreKeyBundle(
      PublicKeys(identity), PublicKey(signed.secret), signed.signature,
      if oneTime.Some? then Some(PublicKey(oneTime.value.secret)) else None)
  }

  predicate BundleVerifies(bundle: PreKeyBundle) {
    Verifies(bundle.identity.signing, KeyBytes(bundle.signedPreKey.id), bundle.signature)
  }

  /** "The X3DH Key Agreement Protocol", section 3.3: the blocks of key material, by who combines what. */
  function Material(
    identities: DhOutput, ephemeralIdentity: DhOutput, ephemeralPreKey: DhOutput, ephemeralOneTime: Option<DhOutput>
  ): seq<Block> {
    [FBlock, DhBlock(identities), DhBlock(ephemeralIdentity), DhBlock(ephemeralPreKey)]
    + (if ephemeralOneTime.Some? then [DhBlock(ephemeralOneTime.value)] else [])
  }

  // The initiator

  function Initiated(sender: IdentityKeyPair, bundle: PreKeyBundle, ephemeral: Secret): Result<Handshake> {
    if !BundleVerifies(bundle) then Err(InvalidSignature)
    else
      Ok(Handshake(
        MessageKeys(PublicKeys(sender), PublicKey(ephemeral), bundle.signedPreKey, bundle.oneTime),
        SharedSecret(Material(
          Dh(sender.exchange, bundle.signedPreKey),
          Dh(ephemeral, bundle.identity.exchange),
          Dh(ephemeral, bundle.signedPreKey),
          if bundle.oneTime.Some? then Some(Dh(ephemeral, bundle.oneTime.value)) else None)),
        ephemeral))
  }

  method InitiateX3dh(sender: IdentityKeyPair, bundle: PreKeyBundle, ephemeral: Secret) returns (r: Result<Handshake>)
    ensures r.Ok? <==> bundle.signature == Signed(bundle.identity.signing, KeyBytes(bundle.signedPreKey.id))
    ensures r.Err? ==> r == Err(InvalidSignature)
    ensures r == Initiated(sender, bundle, ephemeral)
  {
    if !BundleVerifies(bundle) {
      return Err(InvalidSignature);
    }
    var dh1 := Dh(sender.exchange, bundle.signedPreKey);
    var dh2 := Dh(ephemeral, bundle.identity.exchange);
    var ikm := [];
    ikm := ikm + [FBlock];
    ikm := ikm + [DhBlock(dh1)];
    ikm := ikm + [DhBlock(dh2)];
    var dh3 := Dh(ephemeral, bundle.signedPreKey);
    ikm := ikm + [DhBlock(dh3)];
    if bundle.oneTime.Some? {
      ikm := ikm + [DhBlock(Dh(ephemeral, bundle.oneTime.value))];
    }
    assert ikm == Material(dh1, dh2, dh3,
      if bundle.oneTime.Some? then Some(Dh(ephemeral, bundle.oneTime.value)) else None);
    return Ok(Handshake(
        MessageKeys(PublicKeys(sender), PublicKey(ephemeral), bundle.signedPreKey, bundle.oneTime),
        SharedSecret(ikm),
        ephemeral));
  }

  /**
    A handshake is started exactly on a bundle whose prekey, to the byte, its own identity
    signed; whoever else signed it, and whatever else was signed, is refused.
   */
  lemma OnlySignedBundles(sender: IdentityKeyPair, bundle: PreKeyBundle, ephemeral: Secret)
    ensures var r := Initiated(sender, bundle, ephemeral);
            && (r.Ok? <==> bundle.signature == Signed(bundle.identity.signing, BigEndian(bundle.signedPreKey.id, 32)))
            && (r.Err? ==> r == Err(InvalidSignature))
  {
  }

  /**
    The key material of "The X3DH Key Agreement Protocol", section 3.3, block by block: who
    combines what, in which order, and what goes into the message.
   */
  lemma HandshakeMaterial(sender: IdentityKeyPair, bundle: PreKeyBundle, ephemeral: Secret)
    requires Initiated(sender, bundle, ephemeral).Ok?
    ensures var h := Initiated(sender, bundle, ephemeral).value;
            && h.ephemeral == ephemeral
            && h.keys.sender.signing == VerifyingKey(sender.signing)
            && h.keys.sender.exchange == PublicKey(sender.exchange)
            && h.keys.ephemeral == PublicKey(ephemeral)
            && h.keys.signedPreKey == bundle.signedPreKey && h.keys.oneTime == bundle.oneTime
            && h.shared.SharedSecret?
            && var ikm := h.shared.ikm;
               && |ikm| == (if bundle.oneTime.Some? then 5 else 4)
               && ikm[0] == FBlock
               && ikm[1] == DhBlock(Dh(sender.exchange, bundle.signedPreKey))
               && ikm[2] == DhBlock(Dh(ephemeral, bundle.identity.exchange))
               && ikm[3] == DhBlock(Dh(ephemeral, bundle.signedPreKey))
               && (bundle.oneTime.Some? ==> ikm[4] == DhBlock(Dh(ephemeral, bundle.oneTime.value)))
  {
  }

  // The responder

  function Responded(
    receiver: IdentityKeyPair, signed: SignedPreKey, oneTime: Option<OneTimePreKey>, keys: MessageKeys
  ): Result<Key> {
    if keys.oneTime.Some? && oneTime.None? then Err(MissingOneTimePreKey)
    else if keys.oneTime.Some? && PublicKey(oneTime.value.secret) != keys.oneTime.value then Err(InvalidPreKeyBundle)
    else
      Ok(SharedSecret(Material(
        Dh(signed.secret, keys.sender.exchange),
        Dh(receiver.exchange, keys.ephemeral),
        Dh(signed.secret, keys.ephemeral),
        if keys.oneTime.Some? then Some(Dh(oneTime.value.secret, keys.ephemeral)) else None)))
  }

  method RespondX3dh(
    receiver: IdentityKeyPair, signed: SignedPreKey, oneTime: Option<OneTimePreKey>, keys: MessageKeys)
    returns (r: Result<Key>)
    ensures r == Responded(receiver, signed, oneTime, keys)
  {
    var ikm := [];
    ikm := ikm + [FBlock];
    var dh1 := Dh(signed.secret, keys.sender.exchange);
    var dh2 := Dh(receiver.exchange, keys.ephemeral);
    var dh3 := Dh(signed.secret, keys.ephemeral);
    ikm := ikm + [DhBlock(dh1)];
    ikm := ikm + [DhBlock(dh2)];
    ikm := ikm + [DhBlock(dh3)];
    match (keys.oneTime, oneTime) {
      case (Some(expected), Some(key)) =>
        if PublicKey(key.secret) != expected {
          return Err(InvalidPreKeyBundle);
        }
        ikm := ikm + [DhBlock(Dh(key.secret, keys.ephemeral))];
      case (Some(_), None) =>
        return Err(MissingOneTimePreKey);
      case _ =>
    }
    assert ikm == Material(dh1, dh2, dh3,
      if keys.oneTime.Some? then Some(Dh(oneTime.value.secret, keys.ephemeral)) else None);
    return Ok(SharedSecret(ikm));
  }

  /** The responder's material, block by block, and its two errors. */
  lemma ResponseMaterial(
    receiver: IdentityKeyPair, signed: SignedPreKey, oneTime: Option<OneTimePreKey>, keys: MessageKeys)
    ensures var r := Responded(receiver, signed, oneTime, keys);
            if keys.oneTime.Some? && oneTime.None? then r == Err(MissingOneTimePreKey)
            else if keys.oneTime.Some? && keys.oneTime.value.id != oneTime.value.secret then r == Err(InvalidPreKeyBundle)
            else
              && r.Ok? && r.value.SharedSecret?
              && var ikm := r.value.ikm;
                 && |ikm| == (if keys.oneTime.Some? then 5 else 4)
                 && ikm[0] == FBlock
                 && ikm[1] == DhBlock(Dh(signed.secret, keys.sender.exchange))
                 && ikm[2] == DhBlock(Dh(receiver.exchange, keys.ephemeral))
                 && ikm[3] == DhBlock(Dh(signed.secret, keys.ephemeral))
                 && (keys.oneTime.Some? ==> ikm[4] == DhBlock(Dh(oneTime.value.secret, keys.ephemeral)))
  {
  }

  /** The responder's keys are the ones the initiator used. */
  predicate Matches(
    bundle: PreKeyBundle, receiver: IdentityKeyPair, signed: SignedPreKey, oneTime: Option<OneTimePreKey>)
  {
    && bundle.identity.exchange == PublicKey(receiver.exchange)
    && bundle.signedPreKey == PublicKey(signed.secret)
    && (bundle.oneTime.Some? ==> oneTime.Some? && PublicKey(oneTime.value.secret) == bundle.oneTime.value)
  }

  lemma DhEqual(a: Secret, b: PublicKey, c: Secret)
    ensures Dh(a, b) == Dh(c, PublicKey(a)) <==> b == PublicKey(c)
  {
  }

  lemma MaterialEqual(
    a: DhOutput, b: DhOutput, c: DhOutput, d: Option<DhOutput>, p: DhOutput, q: DhOutput, r: DhOutput, s: Option<DhOutput>)
    ensures Material(a, b, c, d) == Material(p, q, r, s) <==> a == p && b == q && c == r && d == s
  {
    var x, y := Material(a, b, c, d), Material(p, q, r, s);
    if x == y {
      assert x[1] == y[1] && x[2] == y[2] && x[3] == y[3];
      assert |x| == 5 ==> x[4] == y[4];
    }
  }

  /**
    The two derivations agree exactly when the keys match: whatever bundle the initiator was
    given, and whether or not the responder supplies a one-time prekey the message did not use.
   */
  lemma DerivationsAgree(
    sender: IdentityKeyPair, bundle: PreKeyBundle, ephemeral: Secret,
    receiver: IdentityKeyPair, signed: SignedPreKey, oneTime: Option<OneTimePreKey>)
    requires BundleVerifies(bundle)
    ensures var handshake := Initiated(sender, bundle, ephemeral).value;
            Responded(receiver, signed, oneTime, handshake.keys) == Ok(handshake.shared)
            <==> Matches(bundle, receiver, signed, oneTime)
  {
    var keys := Initiated(sender, bundle, ephemeral).value.keys;
    DhEqual(sender.exchange, bundle.signedPreKey, signed.secret);
    DhEqual(ephemeral, bundle.identity.exchange, receiver.exchange);
    DhEqual(ephemeral, bundle.signedPreKey, signed.secret);
    if bundle.oneTime.Some? && oneTime.Some? {
      DhEqual(ephemeral, bundle.oneTime.value, oneTime.value.secret);
    }
    MaterialEqual(
      Dh(sender.exchange, bundle.signedPreKey), Dh(ephemeral, bundle.identity.exchange),
      Dh(ephemeral, bundle.signedPreKey),
      if bundle.oneTime.Some? then Some(Dh(ephemeral, bundle.oneTime.value)) else None,
      Dh(signed.secret, PublicKey(sender.exchange)), Dh(receiver.exchange, PublicKey(ephemeral)),
      Dh(signed.secret, PublicKey(ephemeral)),
      if bundle.oneTime.Some? && oneTime.Some? then Some(Dh(oneTime.value.secret, PublicKey(ephemeral))) else None);
  }

  /** The bundle a receiver publishes verifies, and matches its keys. */
  lemma PublishedBundle(
    receiver: IdentityKeyPair, draw: Secret, published: Option<OneTimePreKey>, supplied: Option<OneTimePreKey>)
    requires published.Some? ==> supplied == published
    ensures var signed := GenerateSignedPreKey(receiver, draw);
            var bundle := BundleOf(receiver, signed, published);
            && BundleVerifies(bundle) && Matches(bundle, receiver, signed, supplied)
            && signed.secret == draw && bundle.signedPreKey == PublicKey(draw)
            && bundle.identity == IdentityKeys(VerifyingKey(receiver.signing), PublicKey(receiver.exchange))
            && bundle.signature == Signed(VerifyingKey(receiver.signing), BigEndian(draw, 32))
            && bundle.oneTime == (if published.Some? then Some(PublicKey(published.value.secret)) else None)
  {
  }

  // The initial message

  function KindTag(kind: ContentKind): byte {
    match kind
    case DirectMessage => 1
    case SessionBootstrap => 2
    case MediaPointer => 3
    case FeedPost => 4
  }

  function OneTimeBytes(oneTime: Option<PublicKey>): seq<byte> {
    if oneTime.Some? then [1] + KeyBytes(oneTime.value.id) else [0]
  }

  function InitialAad(keys: MessageKeys, kind: ContentKind): seq<byte> {
    Ascii(INITIAL_MESSAGE_VERSION)
    + [KindTag(kind)]
    + KeyBytes(keys.sender.signing.id)
    + KeyBytes(keys.sender.exchange.id)
    + KeyBytes(keys.ephemeral.id)
    + KeyBytes(keys.signedPreKey.id)
    + OneTimeBytes(keys.oneTime)
  }

  method BuildInitialMessageAad(keys: MessageKeys, kind: ContentKind) returns (aad: seq<byte>)
    ensures aad == InitialAad(keys, kind)
  {
    aad := Ascii(INITIAL_MESSAGE_VERSION);
    aad := aad + [KindTag(kind)];
    aad := aad + KeyBytes(keys.sender.signing.id);
    aad := aad + KeyBytes(keys.sender.exchange.id);
    aad := aad + KeyBytes(keys.ephemeral.id);
    aad := aad + KeyBytes(keys.signedPreKey.id);
    match keys.oneTime
    case Some(value) =>
      ghost var before := aad;
      aad := aad + [1];
      aad := aad + KeyBytes(value.id);
      assert aad == before + ([1] + KeyBytes(value.id));
    case None =>
      aad := aad + [0];
  }

  /** Byte by byte: the version, one byte for the kind, four keys, and the one-time prekey or a zero. */
  lemma InitialAadLayout(keys: MessageKeys, kind: ContentKind)
    ensures var aad := InitialAad(keys, kind);
            && |aad| == (if keys.oneTime.Some? then 182 else 150)
            && aad[..20] == [115, 105, 109, 121, 45, 120, 51, 100, 104, 45, 105, 110, 105, 116, 105, 97, 108, 45, 118, 49]
            && aad[20] == (match kind
                           case DirectMessage => 1
                           case SessionBootstrap => 2
                           case MediaPointer => 3
                           case FeedPost => 4)
            && aad[21..53] == BigEndian(keys.sender.signing.id, 32)
            && aad[53..85] == BigEndian(keys.sender.exchange.id, 32)
            && aad[85..117] == BigEndian(keys.ephemeral.id, 32)
            && aad[117..149] == BigEndian(keys.signedPreKey.id, 32)
            && aad[149] == (if keys.oneTime.Some? then 1 else 0)
            && (keys.oneTime.Some? ==> aad[150..] == BigEndian(keys.oneTime.value.id, 32))
  {
    var v := Ascii(INITIAL_MESSAGE_VERSION);
    assert v == [115, 105, 109, 121, 45, 120, 51, 100, 104, 45, 105, 110, 105, 116, 105, 97, 108, 45, 118, 49];
    hide Ascii, BigEndian;
    SixParts(v, KindTag(kind), KeyBytes(keys.sender.signing.id), KeyBytes(keys.sender.exchange.id),
             KeyBytes(keys.ephemeral.id), KeyBytes(keys.signedPreKey.id), OneTimeBytes(keys.oneTime));
  }

  lemma SixParts(v: seq<byte>, t: byte, a: seq<byte>, b: seq<byte>, c: seq<byte>, d: seq<byte>, o: seq<byte>)
    requires |v| == 20 && |a| == 32 && |b| == 32 && |c| == 32 && |d| == 32 && |o| > 0
    ensures var s := v + [t] + a + b + c + d + o;
            && |s| == 149 + |o|
            && s[..20] == v && s[20] == t && s[21..53] == a && s[53..85] == b && s[85..117] == c && s[117..149] == d
            && s[149] == o[0] && s[150..] == o[1..]
  {
  }

  lemma OneTimeBytesInjective(a: Option<PublicKey>, b: Option<PublicKey>)
    requires OneTimeBytes(a) == OneTimeBytes(b)
    ensures a == b
  {
    assert OneTimeBytes(a)[0] == OneTimeBytes(b)[0];
    if a.Some? {
      SplitEqual([1], KeyBytes(a.value.id), [1], KeyBytes(b.value.id));
      KeyBytesInjective(a.value.id, b.value.id);
    }
  }

  /** The layout binds every field. */
  lemma InitialAadInjective(a: MessageKeys, k: ContentKind, b: MessageKeys, l: ContentKind)
    requires InitialAad(a, k) == InitialAad(b, l)
    ensures a == b && k == l
  {
    var v := Ascii(INITIAL_MESSAGE_VERSION);
    var a1, b1 := v + [KindTag(k)], v + [KindTag(l)];
    var a2, b2 := a1 + KeyBytes(a.sender.signing.id), b1 + KeyBytes(b.sender.signing.id);
    var a3, b3 := a2 + KeyBytes(a.sender.exchange.id), b2 + KeyBytes(b.sender.exchange.id);
    var a4, b4 := a3 + KeyBytes(a.ephemeral.id), b3 + KeyBytes(b.ephemeral.id);
    var a5, b5 := a4 + KeyBytes(a.signedPreKey.id), b4 + KeyBytes(b.signedPreKey.id);
    hide OneTimeBytes, KeyBytes, Ascii;
    SplitEqual(a5, OneTimeBytes(a.oneTime), b5, OneTimeBytes(b.oneTime));
    SplitEqual(a4, KeyBytes(a.signedPreKey.id), b4, KeyBytes(b.signedPreKey.id));
    SplitEqual(a3, KeyBytes(a.ephemeral.id), b3, KeyBytes(b.ephemeral.id));
    SplitEqual(a2, KeyBytes(a.sender.exchange.id), b2, KeyBytes(b.sender.exchange.id));
    SplitEqual(a1, KeyBytes(a.sender.signing.id), b1, KeyBytes(b.sender.signing.id));
    SplitEqual(v, [KindTag(k)], v, [KindTag(l)]);
    assert [KindTag(k)][0] == [KindTag(l)][0];
    KeyBytesInjective(a.sender.signing.id, b.sender.signing.id);
    KeyBytesInjective(a.sender.exchange.id, b.sender.exchange.id);
    KeyBytesInjective(a.ephemeral.id, b.ephemeral.id);
    KeyBytesInjective(a.signedPreKey.id, b.signedPreKey.id);
    OneTimeBytesInjective(a.oneTime, b.oneTime);
  }

  function SealInitialMessage(
    sender: IdentityKeyPair, bundle: PreKeyBundle, plaintext: seq<byte>, kind: ContentKind,
    ephemeral: Secret, nonce: Nonce, now: int
  ): Result<Sealing> {
    var initiated := Initiated(sender, bundle, ephemeral);
    if initiated.Err? then Err(initiated.error)
    else
      var keys := initiated.value.keys;
      Ok(Sealing(
        InitialEnvelope(
          INITIAL_MESSAGE_VERSION,
          kind,
          KeyText(Encoded(keys.sender.signing)),
          Encoded(keys.sender.exchange),
          Encoded(keys.ephemeral),
          Encoded(keys.signedPreKey),
          if keys.oneTime.Some? then Some(Encoded(keys.oneTime.value)) else None,
          Encoded(nonce),
          Encoded(Sealed(initiated.value.shared, nonce, InitialAad(keys, kind), plaintext)),
          now),
        initiated.value))
  }

  function ParseKeys(e: InitialEnvelope): Result<MessageKeys> {
    var signing := DecodeVerifyingKey(e.senderSigning, InvalidEnvelope);
    if signing.Err? then Err(signing.error)
    else
      var exchange := Decode(e.senderExchange, InvalidEnvelope);
      if exchange.Err? then Err(exchange.error)
      else
        var ephemeral := Decode(e.ephemeral, InvalidEnvelope);
        if ephemeral.Err? then Err(ephemeral.error)
        else
          var signedPreKey := Decode(e.signedPreKey, InvalidEnvelope);
          if signedPreKey.Err? then Err(signedPreKey.error)
          else if e.oneTime.None? then
            Ok(MessageKeys(IdentityKeys(signing.value, exchange.value), ephemeral.value, signedPreKey.value, None))
          else
            var oneTime := Decode(e.oneTime.value, InvalidEnvelope);
            if oneTime.Err? then Err(oneTime.error)
            else
              Ok(MessageKeys(IdentityKeys(signing.value, exchange.value), ephemeral.value, signedPreKey.value,
                             Some(oneTime.value)))
  }

  function OpenSealed(shared: Key, keys: MessageKeys, e: InitialEnvelope): Result<Opened> {
    var nonce := Decode(e.nonce, InvalidEnvelope);
    if nonce.Err? then Err(nonce.error)
    else
      var ciphertext := Decode(e.ciphertext, InvalidEnvelope);
      if ciphertext.Err? then Err(ciphertext.error)
      else
        var plaintext := Open(shared, nonce.value, InitialAad(keys, e.kind), ciphertext.value);
        if plaintext.Err? then Err(plaintext.error) else Ok(Opened(e.kind, keys, plaintext.value, shared))
  }

  function OpenInitialMessage(
    receiver: IdentityKeyPair, signed: SignedPreKey, oneTime: Option<OneTimePreKey>, e: InitialEnvelope
  ): Result<Opened> {
    if e.version != INITIAL_MESSAGE_VERSION then Err(UnsupportedVersion)
    else
      var keys := ParseKeys(e);
      if keys.Err? then Err(keys.error)
      else if keys.value.signedPreKey != PublicKey(signed.secret) then Err(InvalidPreKeyBundle)
      else
        var shared := Responded(receiver, signed, oneTime, keys.value);
        if shared.Err? then Err(shared.error) else OpenSealed(shared.value, keys.value, e)
  }

  /** What a sealed message says, field by field, and when there is one. */
  lemma SealWrites(
    sender: IdentityKeyPair, bundle: PreKeyBundle, plaintext: seq<byte>, kind: ContentKind,
    ephemeral: Secret, nonce: Nonce, now: int)
    ensures var r, h := SealInitialMessage(sender, bundle, plaintext, kind, ephemeral, nonce, now),
                        Initiated(sender, bundle, ephemeral);
            && (r.Ok? <==> bundle.signature == Signed(bundle.identity.signing, BigEndian(bundle.signedPreKey.id, 32)))
            && (r.Err? ==> r == Err(InvalidSignature))
            && (r.Ok? ==>
                  && h == Ok(r.value.handshake)
                  && var e := r.value.envelope;
                     && e.version == "simy-x3dh-initial-v1" && e.kind == kind && e.createdAt == now
                     && e.senderSigning == KeyText(Encoded(VerifyingKey(sender.signing)))
                     && e.senderExchange == Encoded(PublicKey(sender.exchange))
                     && e.ephemeral == Encoded(PublicKey(ephemeral))
                     && e.signedPreKey == Encoded(bundle.signedPreKey)
                     && e.oneTime == (if bundle.oneTime.Some? then Some(Encoded(bundle.oneTime.value)) else None)
                     && e.nonce == Encoded(nonce)
                     && e.ciphertext == Encoded(Sealed(h.value.shared, nonce, InitialAad(h.value.keys, kind), plaintext)))
  {
    hide InitialAad, Material;
  }

  /** Why a key text is refused: not Base64, not 32 bytes, or not a point. */
  ghost function KeyFault(text: VerifyingKeyText, wrongLength: CoreError): Option<CoreError> {
    if text.NotAPoint? then Some(InvalidPublicKey) else Fault(text.key, wrongLength)
  }

  /** The fields are read in this order, and the first that fails decides. */
  lemma ParseReads(e: InitialEnvelope)
    ensures var fault := First(
              [KeyFault(e.senderSigning, InvalidEnvelope), Fault(e.senderExchange, InvalidEnvelope),
               Fault(e.ephemeral, InvalidEnvelope), Fault(e.signedPreKey, InvalidEnvelope),
               OptionFault(e.oneTime, InvalidEnvelope)]);
            if fault.Some? then ParseKeys(e) == Err(fault.value)
            else
              && ParseKeys(e).Ok?
              && var keys := ParseKeys(e).value;
                 && e.senderSigning == KeyText(Encoded(keys.sender.signing)) && e.senderExchange == Encoded(keys.sender.exchange)
                 && e.ephemeral == Encoded(keys.ephemeral) && e.signedPreKey == Encoded(keys.signedPreKey)
                 && e.oneTime == (if keys.oneTime.Some? then Some(Encoded(keys.oneTime.value)) else None)
  {
    var a, b, c := KeyFault(e.senderSigning, InvalidEnvelope), Fault(e.senderExchange, InvalidEnvelope),
                   Fault(e.ephemeral, InvalidEnvelope);
    var d, f := Fault(e.signedPreKey, InvalidEnvelope), OptionFault(e.oneTime, InvalidEnvelope);
    FirstOf(a, [b, c, d, f]);
    FirstOf(b, [c, d, f]);
    ThreeFaults(c, d, f);
    hide First;
    assert [a] + [b, c, d, f] == [a, b, c, d, f] && [b] + [c, d, f] == [b, c, d, f];
  }

  /** An initial message is opened, or refused for the first of these reasons. */
  lemma OpenReads(receiver: IdentityKeyPair, signed: SignedPreKey, oneTime: Option<OneTimePreKey>, e: InitialEnvelope)
    ensures var r, keys := OpenInitialMessage(receiver, signed, oneTime, e), ParseKeys(e);
            if e.version != "simy-x3dh-initial-v1" then r == Err(UnsupportedVersion)
            else if keys.Err? then r == Err(keys.error)
            else if keys.value.signedPreKey.id != signed.secret then r == Err(InvalidPreKeyBundle)
            else
              var shared := Responded(receiver, signed, oneTime, keys.value);
              if shared.Err? then r == Err(shared.error)
              else
                var fault := First([Fault(e.nonce, InvalidEnvelope), Fault(e.ciphertext, InvalidEnvelope)]);
                if fault.Some? then r == Err(fault.value)
                else
                  && (r.Err? ==> r == Err(CryptoFailure))
                  && (forall o :: r == Ok(o) <==>
                        && o == Opened(e.kind, keys.value, o.plaintext, shared.value)
                        && e.ciphertext.value
                           == Sealed(shared.value, e.nonce.value, InitialAad(keys.value, e.kind), o.plaintext))
  {
    FirstOf(Fault(e.nonce, InvalidEnvelope), [Fault(e.ciphertext, InvalidEnvelope)]);
    FirstOf(Fault(e.ciphertext, InvalidEnvelope), []);
    assert [Fault(e.nonce, InvalidEnvelope)] + [Fault(e.ciphertext, InvalidEnvelope)]
           == [Fault(e.nonce, InvalidEnvelope), Fault(e.ciphertext, InvalidEnvelope)];
    assert [Fault(e.ciphertext, InvalidEnvelope)] + [] == [Fault(e.ciphertext, InvalidEnvelope)];
    hide ParseKeys, Responded, InitialAad, First;
    assert First([]) == None by {
      FirstOfNone();
    }
  }

  /** Opening inverts sealing, for every plaintext and kind, exactly when the keys match. */
  lemma OpenInvertsSeal(
    sender: IdentityKeyPair, bundle: PreKeyBundle, plaintext: seq<byte>, kind: ContentKind,
    ephemeral: Secret, nonce: Nonce, now: int,
    receiver: IdentityKeyPair, signed: SignedPreKey, oneTime: Option<OneTimePreKey>)
    requires BundleVerifies(bundle)
    ensures var sealing := SealInitialMessage(sender, bundle, plaintext, kind, ephemeral, nonce, now).value;
            var opening := OpenInitialMessage(receiver, signed, oneTime, sealing.envelope);
            && (opening.Ok? <==> Matches(bundle, receiver, signed, oneTime))
            && (opening.Ok? ==>
                  opening.value == Opened(kind, sealing.handshake.keys, plaintext, sealing.handshake.shared))
  {
    DerivationsAgree(sender, bundle, ephemeral, receiver, signed, oneTime);
    var sealing := SealInitialMessage(sender, bundle, plaintext, kind, ephemeral, nonce, now).value;
    assert ParseKeys(sealing.envelope) == Ok(sealing.handshake.keys);
    hide Responded, Initiated, Matches, ParseKeys, InitialAad;
  }

  /** What an envelope that opens looks like. */
  lemma OpenedFrom(receiver: IdentityKeyPair, signed: SignedPreKey, oneTime: Option<OneTimePreKey>, e: InitialEnvelope)
    requires OpenInitialMessage(receiver, signed, oneTime, e).Ok?
    ensures var o := OpenInitialMessage(receiver, signed, oneTime, e).value;
            && e == InitialEnvelope(
                      INITIAL_MESSAGE_VERSION, o.kind,
                      KeyText(Encoded(o.keys.sender.signing)), Encoded(o.keys.sender.exchange),
                      Encoded(o.keys.ephemeral), Encoded(o.keys.signedPreKey),
                      if o.keys.oneTime.Some? then Some(Encoded(o.keys.oneTime.value)) else None,
                      e.nonce, e.ciphertext, e.createdAt)
            && e.nonce.Encoded?
            && e.ciphertext == Encoded(Sealed(o.shared, e.nonce.value, InitialAad(o.keys, o.kind), o.plaintext))
  {
    hide Responded, InitialAad;
  }

  /** The creation time is the one field nothing binds. */
  lemma CreationTimeIsFree(
    receiver: IdentityKeyPair, signed: SignedPreKey, oneTime: Option<OneTimePreKey>, e: InitialEnvelope, at: int)
    ensures OpenInitialMessage(receiver, signed, oneTime, e.(createdAt := at))
            == OpenInitialMessage(receiver, signed, oneTime, e)
  {
  }

  /**
    Around a ciphertext that opens, nothing can be changed but the creation time: any other
    envelope around it is refused.
   */
  lemma EveryBoundFieldCounts(
    receiver: IdentityKeyPair, signed: SignedPreKey, oneTime: Option<OneTimePreKey>, e: InitialEnvelope, f: InitialEnvelope)
    requires OpenInitialMessage(receiver, signed, oneTime, e).Ok?
    requires f.ciphertext == e.ciphertext
    ensures OpenInitialMessage(receiver, signed, oneTime, f).Ok? <==> f == e.(createdAt := f.createdAt)
  {
    CreationTimeIsFree(receiver, signed, oneTime, e, f.createdAt);
    OpenedFrom(receiver, signed, oneTime, e);
    if OpenInitialMessage(receiver, signed, oneTime, f).Ok? {
      OpenedFrom(receiver, signed, oneTime, f);
      var o, p := OpenInitialMessage(receiver, signed, oneTime, e).value, OpenInitialMessage(receiver, signed, oneTime, f).value;
      hide OpenInitialMessage, InitialAad;
      InitialAadInjective(o.keys, o.kind, p.keys, p.kind);
    }
  }

  // Into the ratchet

  function BootstrapInitiatorSession(handshake: Handshake): State {
    BootstrapInitiator(handshake.shared, handshake.ephemeral, handshake.keys.signedPreKey)
  }

  function BootstrapResponderSession(signed: SignedPreKey, message: Opened): Result<State> {
    if message.keys.signedPreKey != PublicKey(signed.secret) then Err(InvalidPreKeyBundle)
    else Ok(BootstrapResponder(message.shared, signed.secret, message.keys.ephemeral))
  }

  /** The responder bootstraps exactly with the prekey the message names. */
  lemma BootstrapNeedsItsPreKey(signed: SignedPreKey, message: Opened)
    ensures var r, dh := BootstrapResponderSession(signed, message), Dh(signed.secret, message.keys.ephemeral);
            && (r.Ok? <==> message.keys.signedPreKey.id == signed.secret)
            && (r.Err? ==> r == Err(InvalidPreKeyBundle))
            && (r.Ok? ==> r.value == State(RootKey(message.shared, dh), KeyPair(signed.secret, PublicKey(signed.secret)),
                                           Some(message.keys.ephemeral), None, Some(ChainKey(message.shared, dh)),
                                           0, 0, 0, map[]))
  {
  }

  /**
    From a matching bundle, the sealed initial message carries both sides into one
    conversation: the same root key, the initiator's sending chain the responder's receiving
    chain, and every run that follows keeps the conversation's invariant.
   */
  lemma HandshakeBeginsConversation(
    sender: IdentityKeyPair, bundle: PreKeyBundle, plaintext: seq<byte>, kind: ContentKind,
    ephemeral: Secret, nonce: Nonce, now: int,
    receiver: IdentityKeyPair, signed: SignedPreKey, oneTime: Option<OneTimePreKey>,
    rule: ResetRule, client: Client, events: seq<Event>)
    requires BundleVerifies(bundle) && Matches(bundle, receiver, signed, oneTime) && ephemeral != signed.secret
    ensures var sealing := SealInitialMessage(sender, bundle, plaintext, kind, ephemeral, nonce, now).value;
            var opening := OpenInitialMessage(receiver, signed, oneTime, sealing.envelope);
            var talk := Begin(sealing.handshake.shared, ephemeral, signed.secret);
            && opening.Ok?
            && BootstrapResponderSession(signed, opening.value) == Ok(talk.responder.session)
            && BootstrapInitiatorSession(sealing.handshake) == talk.initiator.session
            && talk.initiator.session.root == talk.responder.session.root
            && talk.initiator.session.sending == talk.responder.session.receiving
            && (IsRun(rule, client, talk, events) ==> Invariant(rule, Run(rule, client, talk, events)))
  {
    OpenInvertsSeal(sender, bundle, plaintext, kind, ephemeral, nonce, now, receiver, signed, oneTime);
    var sealing := SealInitialMessage(sender, bundle, plaintext, kind, ephemeral, nonce, now).value;
    assert sealing.handshake.keys.ephemeral == PublicKey(ephemeral);
    assert sealing.handshake.keys.signedPreKey == PublicKey(signed.secret);
    hide SealInitialMessage, OpenInitialMessage, Invariant, IsRun, Run, Matches, BundleVerifies;
    DhCommutes(ephemeral, signed.secret);
    var talk := Begin(sealing.handshake.shared, ephemeral, signed.secret);
    if IsRun(rule, client, talk, events) {
      ConversationsStayWell(rule, client, sealing.handshake.shared, ephemeral, signed.secret, events);
    }
  }
}
