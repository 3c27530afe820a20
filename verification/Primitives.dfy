/**
  The symbolic algebra the protocols run on. A secret is a 256-bit number, a public key
  names its secret, a Diffie-Hellman output is an unordered pair of secrets, every key
  derivation is a constructor, and a sealed message opens only under the key, nonce and
  associated data it was sealed with.
 */
module Primitives {
  import opened Bytes

  datatype Option<+T> = None | Some(value: T)

  datatype Result<+T> = Ok(value: T) | Err(error: CoreError)

  datatype Outcome = Pass | Fail(error: CoreError)

  datatype CoreError =
    | InvalidBase64
    | InvalidPublicKey
    | InvalidMediaSize
    | InvalidChunkSize
    | MediaTooLarge
    | InvalidKeyMaterial
    | InvalidNonceMaterial
    | CryptoFailure
    | IntegrityMismatch
    | InvalidChunkSequence
    | InvalidEnvelope
    | InvalidRatchetMessage
    | InvalidDeviceRecord
    | InvalidSignature
    | InvalidPreKeyBundle
    | MissingOneTimePreKey
    | MissingChainState
    | TooManySkippedMessages
    | UnsupportedVersion
    | InvalidRatchetSessionId
    | StorageFailure

  /** A Base64 text field: the value it decodes to, or why it does not decode. */
  datatype Encoded<+T> = Encoded(value: T) | NotBase64 | WrongLength

  /** Decoding a field whose length is fixed; `wrongLength` is the caller's error for another length. */
  function Decode<T>(text: Encoded<T>, wrongLength: CoreError): (r: Result<T>)
    ensures r.Ok? <==> text.Encoded?
    ensures r.Ok? ==> r.value == text.value
  {
    match text
    case Encoded(value) => Ok(value)
    case NotBase64 => Err(InvalidBase64)
    case WrongLength => Err(wrongLength)
  }

  // Faults

  /** Why a field of a fixed length cannot be read. */
  ghost function Fault<T>(text: Encoded<T>, wrongLength: CoreError): Option<CoreError> {
    if text.NotBase64? then Some(InvalidBase64) else if text.WrongLength? then Some(wrongLength) else None
  }

  ghost function OptionFault<T>(text: Option<Encoded<T>>, wrongLength: CoreError): Option<CoreError> {
    if text.Some? then Fault(text.value, wrongLength) else None
  }

  ghost function FaultIf(condition: bool, error: CoreError): Option<CoreError> {
    if condition then Some(error) else None
  }

  /** The first of a list of faults. */
  ghost function First(faults: seq<Option<CoreError>>): Option<CoreError> {
    if faults == [] then None else if faults[0].Some? then faults[0] else First(faults[1..])
  }

  lemma FirstOfNone()
    ensures First([]) == None
  {
  }

  lemma FirstOf(a: Option<CoreError>, rest: seq<Option<CoreError>>)
    ensures First([a] + rest) == if a.Some? then a else First(rest)
  {
    assert ([a] + rest)[1..] == rest;
  }

  lemma ThreeFaults(a: Option<CoreError>, b: Option<CoreError>, c: Option<CoreError>)
    ensures First([a, b, c]) == if a.Some? then a else if b.Some? then b else c
  {
    assert [a, b, c][1..] == [b, c] && [b, c][1..] == [c] && [c][1..] == [];
    assert First([b, c]) == if b.Some? then b else First([c]);
    assert First([c]) == if c.Some? then c else First([]);
  }

  lemma FourFaults(a: Option<CoreError>, b: Option<CoreError>, c: Option<CoreError>, d: Option<CoreError>)
    ensures First([a, b, c, d]) == if a.Some? then a else if b.Some? then b else if c.Some? then c else d
  {
    hide First;
    FirstOf(a, [b, c, d]);
    ThreeFaults(b, c, d);
    assert [a] + [b, c, d] == [a, b, c, d];
  }

  lemma {:induction false} FirstOfBoth(faults: seq<Option<CoreError>>, rest: seq<Option<CoreError>>)
    ensures First(faults + rest) == if First(faults).Some? then First(faults) else First(rest)
  {
    if faults == [] {
      assert faults + rest == rest;
    } else {
      assert (faults + rest)[1..] == faults[1..] + rest;
      FirstOfBoth(faults[1..], rest);
    }
  }

  lemma EightFaults(
    a: Option<CoreError>, b: Option<CoreError>, c: Option<CoreError>, d: Option<CoreError>,
    e: Option<CoreError>, f: Option<CoreError>, g: Option<CoreError>, h: Option<CoreError>)
    ensures First([a, b, c, d, e, f, g, h])
            == if a.Some? then a else if b.Some? then b else if c.Some? then c else if d.Some? then d
               else if e.Some? then e else if f.Some? then f else if g.Some? then g else h
  {
    hide First;
    FourFaults(a, b, c, d);
    FourFaults(e, f, g, h);
    FirstOfBoth([a, b, c, d], [e, f, g, h]);
    assert [a, b, c, d] + [e, f, g, h] == [a, b, c, d, e, f, g, h];
  }

  const KEY_SPACE: nat := 0x1_00000000_00000000_00000000_00000000_00000000_00000000_00000000_00000000

  type Secret = x: int | 0 <= x < KEY_SPACE

  datatype PublicKey = PublicKey(id: Secret)

  datatype KeyPair = KeyPair(secret: Secret, public: PublicKey)

  function PairOf(secret: Secret): KeyPair {
    KeyPair(secret, PublicKey(secret))
  }

  datatype DhOutput = DhOutput(low: Secret, high: Secret)

  function Dh(secret: Secret, public: PublicKey): DhOutput {
    if secret <= public.id then DhOutput(secret, public.id) else DhOutput(public.id, secret)
  }

  /** The 32 bytes of a public key. */
  function KeyBytes(id: Secret): (b: seq<byte>)
    ensures |b| == 32
  {
    BigEndian(id, 32)
  }

  lemma KeyBytesInjective(m: Secret, n: Secret)
    requires KeyBytes(m) == KeyBytes(n)
    ensures m == n
  {
    assert Pow256(8) == U64_LIMIT;
    assert Pow256(16) == U64_LIMIT * U64_LIMIT;
    assert Pow256(24) == U64_LIMIT * U64_LIMIT * U64_LIMIT;
    assert Pow256(32) == KEY_SPACE;
    BigEndianInjective(m, n, 32);
  }

  /** The public half of a signing key; it names its secret. */
  datatype VerifyingKey = VerifyingKey(id: Secret)

  /** A signature carries its signer and what was signed. */
  datatype Signature = Signed(signer: VerifyingKey, payload: seq<byte>) | ForgedSignature(id: nat)

  function Sign(secret: Secret, payload: seq<byte>): Signature {
    Signed(VerifyingKey(secret), payload)
  }

  predicate Verifies(key: VerifyingKey, payload: seq<byte>, signature: Signature) {
    signature == Signed(key, payload)
  }

  /** A verifying key in Base64. Not every 32 bytes are a point of the curve. */
  datatype VerifyingKeyText = KeyText(key: Encoded<VerifyingKey>) | NotAPoint

  function DecodeVerifyingKey(text: VerifyingKeyText, wrongLength: CoreError): Result<VerifyingKey> {
    if text.NotAPoint? then Err(InvalidPublicKey) else Decode(text.key, wrongLength)
  }

  type Nonce = n: seq<byte> | |n| == 24
    witness [0, 0, 0, 0, 0, 0, 0, 0, 0, 0, 0, 0, 0, 0, 0, 0, 0, 0, 0, 0, 0, 0, 0, 0]

  /** One 32-byte block of the X3DH input key material. */
  datatype Block = FBlock | DhBlock(dh: DhOutput)

  /** A 32-byte symmetric key, named by its derivation. */
  datatype Key =
    | RandomKey(id: nat)
    | SharedSecret(ikm: seq<Block>)
    | RootKey(root: Key, dh: DhOutput)
    | ChainKey(parent: Key, dh: DhOutput)
    | NextChainKey(chain: Key)
    | MessageKey(of: Key)

  datatype Ciphertext =
    | Sealed(key: Key, nonce: Nonce, aad: seq<byte>, plaintext: seq<byte>)
    | Forged(id: nat)

  function Open(key: Key, nonce: Nonce, aad: seq<byte>, c: Ciphertext): Result<seq<byte>> {
    if c.Sealed? && c.key == key && c.nonce == nonce && c.aad == aad then Ok(c.plaintext)
    else Err(CryptoFailure)
  }

  /** The chain key a number of NextChainKey steps started from, and how many steps that was. */
  function ChainStart(k: Key): Key {
    if k.NextChainKey? then ChainStart(k.chain) else k
  }

  function ChainIndex(k: Key): nat {
    if k.NextChainKey? then ChainIndex(k.chain) + 1 else 0
  }

  /** `n` symmetric-key ratchet steps from `start`. */
  function ChainAt(start: Key, n: nat): (k: Key)
    ensures !start.NextChainKey? ==> ChainStart(k) == start && ChainIndex(k) == n
  {
    if n == 0 then start else NextChainKey(ChainAt(start, n - 1))
  }

  function MessageKeyAt(start: Key, n: nat): Key {
    MessageKey(ChainAt(start, n))
  }

  /** The chain a message key belongs to, and its number in that chain. */
  function KeyStart(k: Key): Key
    requires k.MessageKey?
  {
    ChainStart(k.of)
  }

  function KeyNumber(k: Key): nat
    requires k.MessageKey?
  {
    ChainIndex(k.of)
  }

  /** A chain key is determined by where it started and how far it went. */
  lemma {:induction false} ChainKeyPlace(k: Key)
    ensures k == ChainAt(ChainStart(k), ChainIndex(k))
  {
    if k.NextChainKey? {
      ChainKeyPlace(k.chain);
    }
  }

  lemma MessageKeyAtInjective(s: Key, m: nat, t: Key, n: nat)
    requires !s.NextChainKey? && !t.NextChainKey?
    requires MessageKeyAt(s, m) == MessageKeyAt(t, n)
    ensures s == t && m == n
  {
    assert ChainAt(s, m) == ChainAt(t, n);
  }

  lemma {:induction false} ChainAtStep(start: Key, n: nat)
    ensures ChainAt(NextChainKey(start), n) == ChainAt(start, n + 1)
  {
    if n > 0 {
      ChainAtStep(start, n - 1);
    }
  }

  lemma {:induction false} ChainAtAdd(start: Key, m: nat, n: nat)
    ensures ChainAt(ChainAt(start, m), n) == ChainAt(start, m + n)
  {
    if n > 0 {
      ChainAtAdd(start, m, n - 1);
    }
  }

  /** How many root-key derivations a key is away from the secret it descends from. */
  function RootDepth(k: Key): nat {
    if k.RootKey? then RootDepth(k.root) + 1 else 0
  }

  lemma RootGrows(root: Key, dh: DhOutput)
    ensures RootKey(root, dh) != root
  {
    assert RootDepth(RootKey(root, dh)) == RootDepth(root) + 1;
  }

  /** Both halves of one key exchange agree. */
  lemma DhCommutes(a: Secret, b: Secret)
    ensures Dh(a, PublicKey(b)) == Dh(b, PublicKey(a))
  {
  }

  lemma InsertGrows<K, V>(m: map<K, V>, k: K, v: V)
    ensures |m[k := v]| == if k in m then |m| else |m| + 1
  {
    if k in m {
      assert m[k := v].Keys == m.Keys;
    } else {
      assert m[k := v].Keys == m.Keys + {k};
    }
  }

  lemma RemoveShrinks<K, V>(m: map<K, V>, k: K)
    ensures |m - {k}| == if k in m then |m| - 1 else |m|
  {
    if k in m {
      assert (m - {k}).Keys == m.Keys - {k};
    } else {
      assert m - {k} == m;
    }
  }
}
