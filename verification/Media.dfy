/** Padded, chunked media encryption. */
module Media {
  import opened Bytes
  import opened Primitives

  const BUCKETS: seq<u64> := [1_048_576, 5_242_880, 10_485_760, 26_214_400, 52_428_800]
  const LARGEST: nat := 52_428_800

  datatype Plan = Plan(original: u64, padded: u64, chunkSize: u32, chunkCount: u32)

  /** The SHA-256 text of what was fed to the hash, or any other text. */
  datatype Digest = Sha256(parts: seq<Ciphertext>) | OtherText(id: nat)

  datatype Material = Material(algorithm: string, key: Encoded<Key>, baseNonce: Encoded<Nonce>)

  datatype Chunk = Chunk(index: u32, ciphertext: Encoded<Ciphertext>, digest: Digest)

  datatype Blob = Blob(
    algorithm: string, original: u64, padded: u64, chunkSize: u32, digest: Digest, chunks: seq<Chunk>)

  datatype Keys = Keys(key: Key, base: Nonce)

  // Padding

  function FirstAtLeast(n: nat, buckets: seq<u64>): Result<u64> {
    if buckets == [] then Err(MediaTooLarge)
    else if n <= buckets[0] then Ok(buckets[0])
    else FirstAtLeast(n, buckets[1..])
  }

  function ChoosePaddingBucket(n: nat): Result<u64> {
    if n == 0 then Err(InvalidMediaSize) else FirstAtLeast(n, BUCKETS)
  }

  function DivCeil(n: nat, d: nat): nat
    requires d > 0
  {
    (n + d - 1) / d
  }

  function PaddingPlan(n: nat, chunkSize: u32): Result<Plan> {
    if chunkSize == 0 then Err(InvalidChunkSize)
    else
      var bucket := ChoosePaddingBucket(n);
      if bucket.Err? then Err(bucket.error)
      else Ok(Plan(n % U64_LIMIT, bucket.value, chunkSize, DivCeil(bucket.value, chunkSize) % U32_LIMIT))
  }

  /** A bucket is chosen exactly for supported sizes, and it is the least that holds the media. */
  lemma BucketIsLeast(n: nat)
    ensures ChoosePaddingBucket(n).Ok? <==> 1 <= n <= LARGEST
    ensures ChoosePaddingBucket(n).Ok? ==>
              var b := ChoosePaddingBucket(n).value;
              && b in BUCKETS && n <= b <= LARGEST
              && forall c :: c in BUCKETS && n <= c ==> b <= c
    ensures n > LARGEST ==> ChoosePaddingBucket(n) == Err(MediaTooLarge)
  {
    FirstIsLeast(n, BUCKETS);
    assert BUCKETS[4] in BUCKETS && BUCKETS[4] == LARGEST;
  }

  lemma {:induction false} FirstIsLeast(n: nat, buckets: seq<u64>)
    requires forall i, j :: 0 <= i < j < |buckets| ==> buckets[i] < buckets[j]
    ensures FirstAtLeast(n, buckets).Ok? ==>
              var b := FirstAtLeast(n, buckets).value;
              b in buckets && n <= b && forall c :: c in buckets && n <= c ==> b <= c
    ensures FirstAtLeast(n, buckets).Err? ==>
              FirstAtLeast(n, buckets) == Err(MediaTooLarge) && forall c :: c in buckets ==> c < n
  {
    if buckets != [] && n > buckets[0] {
      FirstIsLeast(n, buckets[1..]);
      assert buckets == [buckets[0]] + buckets[1..];
    }
  }

  /** The padded size of every supported size, in numbers. */
  ghost function PaddedSize(n: nat): nat {
    if n <= 1_048_576 then 1_048_576
    else if n <= 5_242_880 then 5_242_880
    else if n <= 10_485_760 then 10_485_760
    else if n <= 26_214_400 then 26_214_400
    else 52_428_800
  }

  lemma BucketBySize(n: nat)
    ensures ChoosePaddingBucket(n) == if n == 0 then Err(InvalidMediaSize)
                                      else if n > 52_428_800 then Err(MediaTooLarge)
                                      else Ok(PaddedSize(n))
  {
    var b := BUCKETS;
    assert b[1..] == [5_242_880, 10_485_760, 26_214_400, 52_428_800];
    assert b[1..][1..] == [10_485_760, 26_214_400, 52_428_800];
    assert b[1..][1..][1..] == [26_214_400, 52_428_800];
    assert b[1..][1..][1..][1..] == [52_428_800];
    assert b[1..][1..][1..][1..][1..] == [];
    FirstOfBuckets(n, b);
    FirstOfBuckets(n, b[1..]);
    FirstOfBuckets(n, b[1..][1..]);
    FirstOfBuckets(n, b[1..][1..][1..]);
    FirstOfBuckets(n, b[1..][1..][1..][1..]);
  }

  lemma FirstOfBuckets(n: nat, buckets: seq<u64>)
    requires buckets != []
    ensures FirstAtLeast(n, buckets) == if n <= buckets[0] then Ok(buckets[0]) else FirstAtLeast(n, buckets[1..])
    ensures FirstAtLeast(n, []) == Err(MediaTooLarge)
  {
  }

  lemma CeilBounds(n: nat, d: nat)
    requires n > 0 && d > 0
    ensures 1 <= DivCeil(n, d) <= n
    ensures (DivCeil(n, d) - 1) * d < n <= DivCeil(n, d) * d
  {
    var q, r := (n + d - 1) / d, (n + d - 1) % d;
    assert n + d - 1 == q * d + r;
    assert (q - 1) * d == q * d - d;
    if q > n {
      AtLeastTimes(d, q - 1, n);
    }
  }

  lemma AtLeastTimes(d: nat, q: nat, n: nat)
    requires d >= 1 && q >= n
    ensures q * d >= n
  {
    assert q * d - q == q * (d - 1) >= 0;
  }

  /** The chunk count is the ceiling: it fits 32 bits, and no smaller number of chunks holds the bucket. */
  lemma PlanIsCeiling(n: nat, chunkSize: u32)
    ensures PaddingPlan(n, chunkSize).Ok? <==> chunkSize > 0 && 1 <= n <= LARGEST
    ensures PaddingPlan(n, chunkSize).Ok? ==>
              var p := PaddingPlan(n, chunkSize).value;
              && p.original == n && n <= p.padded <= LARGEST && p.chunkSize == chunkSize
              && p.chunkCount == DivCeil(p.padded, chunkSize) >= 1
              && (p.chunkCount - 1) * chunkSize < p.padded <= p.chunkCount * chunkSize
  {
    BucketIsLeast(n);
    if chunkSize > 0 && 1 <= n <= LARGEST {
      CeilBounds(ChoosePaddingBucket(n).value, chunkSize);
    }
  }

  /** Why there is no plan, the chunk size first; and the plan, in numbers. */
  lemma PlanReads(n: nat, chunkSize: u32)
    ensures PaddingPlan(n, chunkSize) == if chunkSize == 0 then Err(InvalidChunkSize)
                                         else if n == 0 then Err(InvalidMediaSize)
                                         else if n > 52_428_800 then Err(MediaTooLarge)
                                         else Ok(Plan(n, PaddedSize(n), chunkSize, DivCeil(PaddedSize(n), chunkSize)))
  {
    BucketBySize(n);
    PlanIsCeiling(n, chunkSize);
    hide ChoosePaddingBucket, PaddedSize, DivCeil;
  }

  function Zeros(n: nat): (z: seq<byte>)
    ensures |z| == n
  {
    seq(n, _ => 0)
  }

  function Padded(plaintext: seq<byte>, size: nat): (p: seq<byte>)
    requires |plaintext| <= size
    ensures |p| == size
  {
    plaintext + Zeros(size - |plaintext|)
  }

  // Chunks

  /** `data` cut into pieces of `size` bytes, the last one possibly shorter. */
  function Pieces(data: seq<byte>, size: nat): seq<seq<byte>>
    requires size > 0
  {
    if data == [] then []
    else if |data| <= size then [data]
    else [data[..size]] + Pieces(data[size..], size)
  }

  function Joined(pieces: seq<seq<byte>>): seq<byte> {
    if pieces == [] then [] else pieces[0] + Joined(pieces[1..])
  }

  lemma CeilStep(n: nat, d: nat)
    requires d > 0 && n > d
    ensures DivCeil(n, d) == 1 + DivCeil(n - d, d)
  {
    var m := n + d - 1;
    var q, r := m / d, m % d;
    assert m - d == (q - 1) * d + r;
    QuotientIs(m - d, d, q - 1, r);
  }

  lemma CeilSmall(n: nat, d: nat)
    requires d > 0 && n <= d
    ensures DivCeil(n, d) == if n == 0 then 0 else 1
  {
    if n > 0 {
      QuotientIs(n + d - 1, d, 1, n - 1);
    } else {
      QuotientIs(d - 1, d, 0, d - 1);
    }
  }

  /** Cutting loses nothing, and yields as many pieces as the plan counts. */
  lemma {:induction false} PiecesJoin(data: seq<byte>, size: nat)
    requires size > 0
    ensures Joined(Pieces(data, size)) == data
    ensures |Pieces(data, size)| == DivCeil(|data|, size)
  {
    hide DivCeil;
    if |data| <= size {
      CeilSmall(|data|, size);
      if data != [] {
        assert Joined([data]) == data + Joined([]);
      }
    } else {
      PiecesJoin(data[size..], size);
      CeilStep(|data|, size);
      assert Pieces(data, size)[1..] == Pieces(data[size..], size);
    }
  }

  lemma PiecesTail(data: seq<byte>, size: nat, i: nat)
    requires 0 < size < |data| && 0 < i < |Pieces(data, size)|
    ensures i - 1 < |Pieces(data[size..], size)| && Pieces(data, size)[i] == Pieces(data[size..], size)[i - 1]
  {
  }

  /** Piece `i` starts at its multiple of the size and ends at the next, or with the data. */
  lemma {:induction false} PieceAt(data: seq<byte>, size: nat, i: nat)
    requires size > 0 && i < |Pieces(data, size)|
    ensures var end := if (i + 1) * size <= |data| then (i + 1) * size else |data|;
            0 <= i * size <= end && Pieces(data, size)[i] == data[i * size..end]
  {
    if |data| <= size {
      assert i == 0 && data[..|data|] == data;
    } else if i > 0 {
      var rest, lo := data[size..], (i - 1) * size;
      PieceAt(rest, size, i - 1);
      assert i * size == lo + size && (i + 1) * size == lo + size + size;
      hide Pieces;
      var hi := if lo + size <= |rest| then lo + size else |rest|;
      assert rest[lo..hi] == data[size + lo..size + hi];
      assert Pieces(rest, size)[i - 1] == rest[lo..hi];
      PiecesTail(data, size, i);
    }
  }

  function ChunkNonce(base: Nonce, index: u32): Nonce {
    base[..20] + BigEndian(index, 4)
  }

  method DeriveChunkNonce(base: Nonce, index: u32) returns (nonce: Nonce)
    ensures nonce == ChunkNonce(base, index)
  {
    var bytes := new byte[24](i requires 0 <= i < 24 => base[i]);
    var tail := BigEndian(index, 4);
    for i := 0 to 4
      invariant forall j :: 0 <= j < 20 ==> bytes[j] == base[j]
      invariant forall j :: 0 <= j < i ==> bytes[20 + j] == tail[j]
    {
      bytes[20 + i] := tail[i];
    }
    assert bytes[..] == base[..20] + tail;
    nonce := bytes[..];
  }

  /** The base nonce with the index in its last four bytes, the most significant first. */
  lemma ChunkNonceLayout(base: Nonce, index: u32)
    ensures ChunkNonce(base, index)[..20] == base[..20]
    ensures ChunkNonce(base, index)[20..]
            == [index / 0x100_0000 % 256, index / 0x1_0000 % 256, index / 0x100 % 256, index % 256]
  {
    FourBytes(index);
  }

  /** No nonce is used for two chunks. */
  lemma ChunkNoncesDiffer(base: Nonce, i: u32, j: u32)
    requires i != j
    ensures ChunkNonce(base, i) != ChunkNonce(base, j)
  {
    if ChunkNonce(base, i) == ChunkNonce(base, j) {
      SplitEqual(base[..20], BigEndian(i, 4), base[..20], BigEndian(j, 4));
      U32Injective(i, j);
    }
  }

  function ChunkAad(index: u32, total: u32, original: u64): (aad: seq<byte>)
    ensures |aad| == 16
  {
    BigEndian(index, 4) + BigEndian(total, 4) + BigEndian(original, 8)
  }

  method BuildChunkAad(index: u32, total: u32, original: u64) returns (aad: seq<byte>)
    ensures aad == ChunkAad(index, total, original)
  {
    var bytes := new byte[16](_ => 0);
    var a, b, c := BigEndian(index, 4), BigEndian(total, 4), BigEndian(original, 8);
    for i := 0 to 4
      invariant forall j :: 0 <= j < i ==> bytes[j] == a[j]
    {
      bytes[i] := a[i];
    }
    for i := 0 to 4
      invariant forall j :: 0 <= j < 4 ==> bytes[j] == a[j]
      invariant forall j :: 0 <= j < i ==> bytes[4 + j] == b[j]
    {
      bytes[4 + i] := b[i];
    }
    for i := 0 to 8
      invariant forall j :: 0 <= j < 4 ==> bytes[j] == a[j] && bytes[4 + j] == b[j]
      invariant forall j :: 0 <= j < i ==> bytes[8 + j] == c[j]
    {
      bytes[8 + i] := c[i];
    }
    assert bytes[..] == a + b + c;
    aad := bytes[..];
  }

  /** Index, number of chunks and size, each with the most significant byte first. */
  lemma ChunkAadLayout(index: u32, total: u32, original: u64)
    ensures var aad, high := ChunkAad(index, total, original), original / 0x1_0000_0000;
            && aad[0..4] == [index / 0x100_0000 % 256, index / 0x1_0000 % 256, index / 0x100 % 256, index % 256]
            && aad[4..8] == [total / 0x100_0000 % 256, total / 0x1_0000 % 256, total / 0x100 % 256, total % 256]
            && aad[8..12] == [high / 0x100_0000 % 256, high / 0x1_0000 % 256, high / 0x100 % 256, high % 256]
            && aad[12..16]
               == [original / 0x100_0000 % 256, original / 0x1_0000 % 256, original / 0x100 % 256, original % 256]
  {
    FourBytes(index);
    FourBytes(total);
    EightBytes(original);
    FourBytes(original / 0x1_0000_0000);
    FourBytes(original);
    hide BigEndian;
    FourParts(BigEndian(index, 4), BigEndian(total, 4), BigEndian(original / 0x1_0000_0000, 4), BigEndian(original, 4));
  }

  lemma FourParts(a: seq<byte>, b: seq<byte>, c: seq<byte>, d: seq<byte>)
    requires |a| == 4 && |b| == 4 && |c| == 4 && |d| == 4
    ensures var s := a + b + (c + d); s[0..4] == a && s[4..8] == b && s[8..12] == c && s[12..16] == d
  {
  }

  lemma ChunkAadInjective(i: u32, m: u32, s: u64, j: u32, n: u32, t: u64)
    requires ChunkAad(i, m, s) == ChunkAad(j, n, t)
    ensures i == j && m == n && s == t
  {
    var a, b := BigEndian(i, 4) + BigEndian(m, 4), BigEndian(j, 4) + BigEndian(n, 4);
    SplitEqual(a, BigEndian(s, 8), b, BigEndian(t, 8));
    SplitEqual(BigEndian(i, 4), BigEndian(m, 4), BigEndian(j, 4), BigEndian(n, 4));
    U32Injective(i, j);
    U32Injective(m, n);
    U64Injective(s, t);
  }

  /** Both fields are decoded before either length is looked at. */
  function DecodeMaterial(m: Material): Result<Keys> {
    if m.key.NotBase64? || m.baseNonce.NotBase64? then Err(InvalidBase64)
    else if m.key.WrongLength? then Err(InvalidKeyMaterial)
    else if m.baseNonce.WrongLength? then Err(InvalidNonceMaterial)
    else Ok(Keys(m.key.value, m.baseNonce.value))
  }

  // Encryption

  function SealPiece(keys: Keys, index: u32, total: u32, original: u64, piece: seq<byte>): Ciphertext {
    Sealed(keys.key, ChunkNonce(keys.base, index), ChunkAad(index, total, original), piece)
  }

  /** The ciphertexts of the pieces from number `index` on. */
  function SealPieces(keys: Keys, index: nat, total: u32, original: u64, pieces: seq<seq<byte>>): (r: seq<Ciphertext>)
    requires index + |pieces| <= U32_LIMIT
    ensures |r| == |pieces|
    decreases |pieces|
  {
    if pieces == [] then []
    else
      [SealPiece(keys, index, total, original, pieces[0])]
      + SealPieces(keys, index + 1, total, original, pieces[1..])
  }

  function ChunkOf(index: u32, c: Ciphertext): Chunk {
    Chunk(index, Encoded(c), Sha256([c]))
  }

  function ChunksOf(index: nat, cs: seq<Ciphertext>): (r: seq<Chunk>)
    requires index + |cs| <= U32_LIMIT
    ensures |r| == |cs|
    decreases |cs|
  {
    if cs == [] then [] else [ChunkOf(index, cs[0])] + ChunksOf(index + 1, cs[1..])
  }

  function EncryptedBlob(algorithm: string, plan: Plan, cs: seq<Ciphertext>): Blob
    requires |cs| <= U32_LIMIT
  {
    Blob(algorithm, plan.original, plan.padded, plan.chunkSize, Sha256(cs), ChunksOf(0, cs))
  }

  lemma PiecesFit(plan: Plan, data: seq<byte>)
    requires |data| == plan.padded <= LARGEST && plan.chunkSize > 0 && plan.padded > 0
    ensures 1 <= |Pieces(data, plan.chunkSize)| <= LARGEST < U32_LIMIT
  {
    PiecesJoin(data, plan.chunkSize);
    CeilBounds(plan.padded, plan.chunkSize);
  }

  /** The ciphertexts an encryption makes. */
  function Ciphertexts(plaintext: seq<byte>, chunkSize: u32, keys: Keys): seq<Ciphertext>
    requires PaddingPlan(|plaintext|, chunkSize).Ok?
    ensures |Ciphertexts(plaintext, chunkSize, keys)| <= LARGEST
  {
    PlanIsCeiling(|plaintext|, chunkSize);
    var plan := PaddingPlan(|plaintext|, chunkSize).value;
    PiecesFit(plan, Padded(plaintext, plan.padded));
    SealPieces(keys, 0, plan.chunkCount, plan.original, Pieces(Padded(plaintext, plan.padded), chunkSize))
  }

  function Encrypted(plaintext: seq<byte>, chunkSize: u32, material: Material): Result<Blob> {
    var plan := PaddingPlan(|plaintext|, chunkSize);
    if plan.Err? then Err(plan.error)
    else
      var keys := DecodeMaterial(material);
      if keys.Err? then Err(keys.error)
      else Ok(EncryptedBlob(material.algorithm, plan.value, Ciphertexts(plaintext, chunkSize, keys.value)))
  }

  lemma {:induction false} SealedNumber(
    keys: Keys, index: nat, total: u32, original: u64, pieces: seq<seq<byte>>, i: nat)
    requires index + |pieces| <= U32_LIMIT && i < |pieces|
    ensures SealPieces(keys, index, total, original, pieces)[i] == SealPiece(keys, index + i, total, original, pieces[i])
    decreases i
  {
    if i > 0 {
      SealedNumber(keys, index + 1, total, original, pieces[1..], i - 1);
    }
  }

  lemma {:induction false} ChunkNumber(index: nat, cs: seq<Ciphertext>, i: nat)
    requires index + |cs| <= U32_LIMIT && i < |cs|
    ensures ChunksOf(index, cs)[i] == Chunk(index + i, Encoded(cs[i]), Sha256([cs[i]]))
    decreases i
  {
    if i > 0 {
      ChunkNumber(index + 1, cs[1..], i - 1);
    }
  }

  /** Why material cannot be used; a length is looked at only when both fields are Base64. */
  ghost function MaterialFault(m: Material): Option<CoreError> {
    First([FaultIf(m.key.NotBase64? || m.baseNonce.NotBase64?, InvalidBase64),
           FaultIf(m.key.WrongLength?, InvalidKeyMaterial), FaultIf(m.baseNonce.WrongLength?, InvalidNonceMaterial)])
  }

  lemma MaterialReads(m: Material)
    ensures if MaterialFault(m).Some? then DecodeMaterial(m) == Err(MaterialFault(m).value)
            else m.key.Encoded? && m.baseNonce.Encoded? && DecodeMaterial(m) == Ok(Keys(m.key.value, m.baseNonce.value))
  {
    ThreeFaults(FaultIf(m.key.NotBase64? || m.baseNonce.NotBase64?, InvalidBase64),
                FaultIf(m.key.WrongLength?, InvalidKeyMaterial), FaultIf(m.baseNonce.WrongLength?, InvalidNonceMaterial));
    hide First;
  }

  /** What an encryption is refused for, the chunk size first; and the blob it makes, but for its chunks. */
  lemma EncryptionWrites(plaintext: seq<byte>, chunkSize: u32, material: Material)
    ensures var r, n := Encrypted(plaintext, chunkSize, material), |plaintext|;
            if chunkSize == 0 then r == Err(InvalidChunkSize)
            else if n == 0 then r == Err(InvalidMediaSize)
            else if n > 52_428_800 then r == Err(MediaTooLarge)
            else if MaterialFault(material).Some? then r == Err(MaterialFault(material).value)
            else
              && r.Ok?
              && var b := r.value;
                 && b.algorithm == material.algorithm && b.original == n && b.padded == PaddedSize(n)
                 && b.chunkSize == chunkSize
                 && (|b.chunks| - 1) * chunkSize < PaddedSize(n) <= |b.chunks| * chunkSize
                 && b.digest.Sha256? && |b.digest.parts| == |b.chunks| <= LARGEST
                 && forall i :: 0 <= i < |b.chunks| ==> b.chunks[i].ciphertext == Encoded(b.digest.parts[i])
  {
    PlanReads(|plaintext|, chunkSize);
    PlanIsCeiling(|plaintext|, chunkSize);
    MaterialReads(material);
    hide PaddingPlan, DecodeMaterial, MaterialFault, Ciphertexts, ChunksOf, PaddedSize;
    if Encrypted(plaintext, chunkSize, material).Ok? {
      var keys := Keys(material.key.value, material.baseNonce.value);
      var cs := Ciphertexts(plaintext, chunkSize, keys);
      CiphertextsAre(plaintext, chunkSize, keys);
      forall i | 0 <= i < |cs| ensures ChunksOf(0, cs)[i].ciphertext == Encoded(cs[i]) {
        ChunkNumber(0, cs, i);
      }
    }
  }

  lemma CiphertextsAre(plaintext: seq<byte>, chunkSize: u32, keys: Keys)
    requires PaddingPlan(|plaintext|, chunkSize).Ok?
    ensures var plan, cs := PaddingPlan(|plaintext|, chunkSize).value, Ciphertexts(plaintext, chunkSize, keys);
            && |plaintext| <= plan.padded && |cs| == plan.chunkCount == DivCeil(plan.padded, chunkSize)
            && var pieces := Pieces(Padded(plaintext, plan.padded), chunkSize);
               |pieces| == |cs| && cs == SealPieces(keys, 0, plan.chunkCount, plan.original, pieces)
  {
    PlanIsCeiling(|plaintext|, chunkSize);
    var plan := PaddingPlan(|plaintext|, chunkSize).value;
    PiecesJoin(Padded(plaintext, plan.padded), chunkSize);
    hide PaddingPlan, Padded, DivCeil, Pieces, SealPieces;
  }

  /** The bytes from `start` on, at most `most` of them, of the plaintext padded with zeros to `size`. */
  ghost predicate IsStretch(piece: seq<byte>, plaintext: seq<byte>, start: nat, most: nat, size: nat) {
    && start + |piece| <= size && |piece| <= most && (|piece| == most || start + |piece| == size)
    && forall j :: 0 <= j < |piece| ==> piece[j] == if start + j < |plaintext| then plaintext[start + j] else 0
  }

  /** A chunk: its number, its digest, and what it is sealed with. */
  ghost predicate IsChunk(chunk: Chunk, i: u32, total: u32, original: u64, keys: Keys, piece: seq<byte>) {
    && chunk.index == i
    && chunk.ciphertext == Encoded(Sealed(keys.key, ChunkNonce(keys.base, i), ChunkAad(i, total, original), piece))
    && chunk.digest == Sha256([chunk.ciphertext.value])
  }

  /**
    Chunk `i` of an encryption is sealed under its own nonce and associated data, and holds the
    bytes from `i` times the chunk size on, with zeros past the plaintext.
   */
  lemma ChunkWrites(plaintext: seq<byte>, chunkSize: u32, material: Material, i: nat) returns (piece: seq<byte>)
    requires Encrypted(plaintext, chunkSize, material).Ok? && i < |Encrypted(plaintext, chunkSize, material).value.chunks|
    ensures material.key.Encoded? && material.baseNonce.Encoded? && |plaintext| < U64_LIMIT
    ensures var b := Encrypted(plaintext, chunkSize, material).value;
            && |b.chunks| < U32_LIMIT
            && IsChunk(b.chunks[i], i, |b.chunks|, |plaintext|, Keys(material.key.value, material.baseNonce.value), piece)
    ensures i * chunkSize >= 0 && IsStretch(piece, plaintext, i * chunkSize, chunkSize, PaddedSize(|plaintext|))
  {
    PlanReads(|plaintext|, chunkSize);
    MaterialReads(material);
    hide PaddingPlan, DecodeMaterial, MaterialFault, Ciphertexts, ChunksOf, PaddedSize, SealPieces, Pieces, ChunkNonce,
      ChunkAad, DivCeil, IsStretch;
    var keys := Keys(material.key.value, material.baseNonce.value);
    CiphertextsAre(plaintext, chunkSize, keys);
    var plan := PaddingPlan(|plaintext|, chunkSize).value;
    var cs, padded := Ciphertexts(plaintext, chunkSize, keys), Padded(plaintext, plan.padded);
    ChunkNumber(0, cs, i);
    SealedNumber(keys, 0, plan.chunkCount, plan.original, Pieces(padded, chunkSize), i);
    piece := Pieces(padded, chunkSize)[i];
    PieceIsStretch(plaintext, plan.padded, chunkSize, i);
  }

  lemma PieceIsStretch(plaintext: seq<byte>, padded: nat, size: nat, i: nat)
    requires |plaintext| <= padded && size > 0 && i < |Pieces(Padded(plaintext, padded), size)|
    ensures i * size >= 0 && IsStretch(Pieces(Padded(plaintext, padded), size)[i], plaintext, i * size, size, padded)
  {
    PieceAt(Padded(plaintext, padded), size, i);
    assert (i + 1) * size == i * size + size;
    hide Pieces;
  }

  lemma {:induction false} SealedGrows(
    keys: Keys, index: nat, total: u32, original: u64, pieces: seq<seq<byte>>, piece: seq<byte>)
    requires index + |pieces| < U32_LIMIT
    ensures SealPieces(keys, index, total, original, pieces + [piece])
            == SealPieces(keys, index, total, original, pieces)
               + [SealPiece(keys, index + |pieces|, total, original, piece)]
    decreases |pieces|
  {
    if pieces != [] {
      assert (pieces + [piece])[1..] == pieces[1..] + [piece];
      SealedGrows(keys, index + 1, total, original, pieces[1..], piece);
    } else {
      assert pieces + [piece] == [piece];
      assert SealPieces(keys, index + 1, total, original, [piece][1..]) == [];
    }
  }

  lemma {:induction false} ChunksGrow(index: nat, cs: seq<Ciphertext>, c: Ciphertext)
    requires index + |cs| < U32_LIMIT
    ensures ChunksOf(index, cs + [c]) == ChunksOf(index, cs) + [ChunkOf(index + |cs|, c)]
    decreases |cs|
  {
    if cs != [] {
      assert (cs + [c])[1..] == cs[1..] + [c];
      ChunksGrow(index + 1, cs[1..], c);
    } else {
      assert cs + [c] == [c];
      assert ChunksOf(index + 1, [c][1..]) == [];
    }
  }

  /** The encryption loop: `done` pieces are sealed, `rest` is still to be cut. */
  ghost predicate SealedSoFar(
    keys: Keys, total: u32, original: u64, pieces: seq<seq<byte>>, size: nat,
    done: seq<seq<byte>>, rest: seq<byte>, fed: seq<Ciphertext>, chunks: seq<Chunk>)
    requires size > 0 && |pieces| <= LARGEST
  {
    && done + Pieces(rest, size) == pieces
    && fed == SealPieces(keys, 0, total, original, done)
    && chunks == ChunksOf(0, fed)
  }

  lemma PiecesNext(rest: seq<byte>, size: nat)
    requires size > 0 && rest != []
    ensures var n := if |rest| < size then |rest| else size;
            Pieces(rest, size) == [rest[..n]] + Pieces(rest[n..], size)
  {
    if |rest| <= size {
      assert rest[..|rest|] == rest && rest[|rest|..] == [];
    }
  }

  lemma SealsNext(
    keys: Keys, total: u32, original: u64, pieces: seq<seq<byte>>, size: nat,
    done: seq<seq<byte>>, rest: seq<byte>, fed: seq<Ciphertext>, chunks: seq<Chunk>)
    requires size > 0 && |pieces| <= LARGEST && rest != []
    requires SealedSoFar(keys, total, original, pieces, size, done, rest, fed, chunks)
    ensures |done| == |chunks| == |fed| < |pieces|
    ensures var n := if |rest| < size then |rest| else size;
            var c := SealPiece(keys, |done|, total, original, rest[..n]);
            SealedSoFar(keys, total, original, pieces, size, done + [rest[..n]], rest[n..],
                        fed + [c], chunks + [ChunkOf(|done|, c)])
  {
    var n := if |rest| < size then |rest| else size;
    PiecesNext(rest, size);
    assert done + ([rest[..n]] + Pieces(rest[n..], size)) == (done + [rest[..n]]) + Pieces(rest[n..], size);
    SealedGrows(keys, 0, total, original, done, rest[..n]);
    ChunksGrow(0, fed, SealPiece(keys, |done|, total, original, rest[..n]));
  }

  /** `fed` is what the overall hash has been fed. */
  method EncryptMediaBytes(plaintext: seq<byte>, chunkSize: u32, material: Material) returns (r: Result<Blob>)
    ensures r == Encrypted(plaintext, chunkSize, material)
  {
    var planned := PaddingPlan(|plaintext|, chunkSize);
    if planned.Err? {
      return Err(planned.error);
    }
    var decoded := DecodeMaterial(material);
    if decoded.Err? {
      return Err(decoded.error);
    }
    var plan, keys := planned.value, decoded.value;
    PlanIsCeiling(|plaintext|, chunkSize);
    var rest := Padded(plaintext, plan.padded);
    PiecesFit(plan, rest);
    ghost var pieces, done := Pieces(rest, chunkSize), [];
    assert Ciphertexts(plaintext, chunkSize, keys) == SealPieces(keys, 0, plan.chunkCount, plan.original, pieces);
    var fed: seq<Ciphertext>, chunks: seq<Chunk> := [], [];
    assert done + pieces == pieces;
    assert SealedSoFar(keys, plan.chunkCount, plan.original, pieces, chunkSize, done, rest, fed, chunks);
    hide Pieces, SealPieces, ChunksOf, PaddingPlan, Padded, DecodeMaterial, ChunkNonce, ChunkAad;
    while rest != []
      invariant SealedSoFar(keys, plan.chunkCount, plan.original, pieces, chunkSize, done, rest, fed, chunks)
      decreases |rest|
    {
      SealsNext(keys, plan.chunkCount, plan.original, pieces, chunkSize, done, rest, fed, chunks);
      var size := if |rest| < chunkSize then |rest| else chunkSize;
      var piece := rest[..size];
      var index := |chunks|;
      var nonce := DeriveChunkNonce(keys.base, index);
      var aad := BuildChunkAad(index, plan.chunkCount, plan.original);
      var ciphertext := Sealed(keys.key, nonce, aad, piece);
      fed := fed + [ciphertext];
      chunks := chunks + [Chunk(index, Encoded(ciphertext), Sha256([ciphertext]))];
      done, rest := done + [piece], rest[size..];
    }
    AllSealed(keys, plan.chunkCount, plan.original, pieces, chunkSize, done, fed, chunks);
    return Ok(Blob(material.algorithm, plan.original, plan.padded, chunkSize, Sha256(fed), chunks));
  }

  lemma AllSealed(
    keys: Keys, total: u32, original: u64, pieces: seq<seq<byte>>, size: nat,
    done: seq<seq<byte>>, fed: seq<Ciphertext>, chunks: seq<Chunk>)
    requires size > 0 && |pieces| <= LARGEST
    requires SealedSoFar(keys, total, original, pieces, size, done, [], fed, chunks)
    ensures fed == SealPieces(keys, 0, total, original, pieces) && chunks == ChunksOf(0, fed)
  {
    assert done + [] == done;
  }

  // Decryption

  /** What the loop makes of the chunks from number `index` on: their plaintexts, or the first error. */
  function OpenChunks(keys: Keys, index: nat, total: u32, original: u64, chunks: seq<Chunk>): Result<seq<byte>>
    requires index + |chunks| <= U32_LIMIT
    decreases |chunks|
  {
    if chunks == [] then Ok([])
    else
      var first := OpenChunk(keys, index, total, original, chunks[0]);
      if first.Err? then Err(first.error)
      else
        var rest := OpenChunks(keys, index + 1, total, original, chunks[1..]);
        if rest.Err? then Err(rest.error) else Ok(first.value + rest.value)
  }

  function OpenChunk(keys: Keys, index: u32, total: u32, original: u64, chunk: Chunk): Result<seq<byte>> {
    if chunk.index != index then Err(InvalidChunkSequence)
    else
      var ciphertext := Decode(chunk.ciphertext, InvalidBase64);
      if ciphertext.Err? then Err(ciphertext.error)
      else if Sha256([ciphertext.value]) != chunk.digest then Err(IntegrityMismatch)
      else Open(keys.key, ChunkNonce(keys.base, chunk.index), ChunkAad(chunk.index, total, original), ciphertext.value)
  }

  /** A chunk is opened, or refused for the first of these reasons. */
  lemma ChunkReads(keys: Keys, index: u32, total: u32, original: u64, chunk: Chunk)
    requires !chunk.ciphertext.WrongLength?
    ensures var r := OpenChunk(keys, index, total, original, chunk);
            var fault := First(
              [FaultIf(chunk.index != index, InvalidChunkSequence), FaultIf(chunk.ciphertext.NotBase64?, InvalidBase64),
               FaultIf(chunk.ciphertext.Encoded? && chunk.digest != Sha256([chunk.ciphertext.value]), IntegrityMismatch)]);
            if fault.Some? then r == Err(fault.value)
            else
              && (r.Err? ==> r == Err(CryptoFailure))
              && (forall piece :: r == Ok(piece) <==> IsChunk(chunk, index, total, original, keys, piece))
  {
    ThreeFaults(
      FaultIf(chunk.index != index, InvalidChunkSequence), FaultIf(chunk.ciphertext.NotBase64?, InvalidBase64),
      FaultIf(chunk.ciphertext.Encoded? && chunk.digest != Sha256([chunk.ciphertext.value]), IntegrityMismatch));
    hide First, ChunkNonce, ChunkAad;
  }

  /** What the overall hash is fed. */
  function Fed(chunks: seq<Chunk>): seq<Ciphertext>
    requires forall c :: c in chunks ==> c.ciphertext.Encoded?
  {
    if chunks == [] then [] else [chunks[0].ciphertext.value] + Fed(chunks[1..])
  }

  lemma {:induction false} OpenedAreEncoded(keys: Keys, index: nat, total: u32, original: u64, chunks: seq<Chunk>)
    requires index + |chunks| <= U32_LIMIT
    ensures OpenChunks(keys, index, total, original, chunks).Ok? ==> forall c :: c in chunks ==> c.ciphertext.Encoded?
    decreases |chunks|
  {
    if chunks != [] {
      OpenedAreEncoded(keys, index + 1, total, original, chunks[1..]);
      assert chunks == [chunks[0]] + chunks[1..];
    }
  }

  function Truncated(data: seq<byte>, size: nat): seq<byte> {
    if |data| <= size then data else data[..size]
  }

  function Finished(blob: Blob, plaintext: seq<byte>): Result<seq<byte>>
    requires forall c :: c in blob.chunks ==> c.ciphertext.Encoded?
  {
    if Sha256(Fed(blob.chunks)) != blob.digest then Err(IntegrityMismatch)
    else Ok(Truncated(plaintext, blob.original))
  }

  function Decrypted(blob: Blob, material: Material): Result<seq<byte>> {
    var planned := PaddingPlan(blob.original, blob.chunkSize);
    if planned.Err? then Err(planned.error)
    else
      var plan := planned.value;
      if plan.padded != blob.padded || plan.chunkCount != |blob.chunks| then Err(InvalidChunkSequence)
      else
        var decoded := DecodeMaterial(material);
        if decoded.Err? then Err(decoded.error)
        else
          var opening := OpenChunks(decoded.value, 0, plan.chunkCount, blob.original, blob.chunks);
          if opening.Err? then Err(opening.error)
          else
            OpenedAreEncoded(decoded.value, 0, plan.chunkCount, blob.original, blob.chunks);
            Finished(blob, opening.value)
  }

  lemma {:induction false} FedAt(chunks: seq<Chunk>, i: nat)
    requires i < |chunks| && forall c :: c in chunks ==> c.ciphertext.Encoded?
    ensures |Fed(chunks)| == |chunks| && Fed(chunks)[i] == chunks[i].ciphertext.value
    decreases |chunks|
  {
    if |chunks| > 1 {
      FedAt(chunks[1..], if i > 0 then i - 1 else 0);
    }
  }

  /**
    What a decryption is refused for: the plan, the sizes it names, the material, a chunk, and
    last the overall digest; otherwise it yields the pieces' bytes up to the original size.
   */
  lemma DecryptionReads(blob: Blob, material: Material)
    ensures var r, n := Decrypted(blob, material), blob.original;
            if blob.chunkSize == 0 then r == Err(InvalidChunkSize)
            else if n == 0 then r == Err(InvalidMediaSize)
            else if n > 52_428_800 then r == Err(MediaTooLarge)
            else if blob.padded != PaddedSize(n) || |blob.chunks| != DivCeil(PaddedSize(n), blob.chunkSize) then
              r == Err(InvalidChunkSequence)
            else if MaterialFault(material).Some? then r == Err(MaterialFault(material).value)
            else
              && material.key.Encoded? && material.baseNonce.Encoded? && |blob.chunks| < U32_LIMIT
              && var keys := Keys(material.key.value, material.baseNonce.value);
                 var opening := OpenChunks(keys, 0, |blob.chunks|, n, blob.chunks);
                 if opening.Err? then r == Err(opening.error)
                 else
                   && (forall c :: c in blob.chunks ==> c.ciphertext.Encoded?)
                   && (if blob.digest != Sha256(Fed(blob.chunks)) then r == Err(IntegrityMismatch)
                       else
                         && r.Ok? && |r.value| == (if |opening.value| <= n then |opening.value| else n)
                         && forall j :: 0 <= j < |r.value| ==> r.value[j] == opening.value[j])
  {
    PlanReads(blob.original, blob.chunkSize);
    PlanIsCeiling(blob.original, blob.chunkSize);
    MaterialReads(material);
    hide PaddingPlan, DecodeMaterial, MaterialFault, OpenChunks, PaddedSize, DivCeil, Fed;
    if MaterialFault(material).None? && |blob.chunks| < U32_LIMIT {
      OpenedAreEncoded(Keys(material.key.value, material.baseNonce.value), 0, |blob.chunks|, blob.original, blob.chunks);
    }
  }

  /** An opening that continues from some plaintext. */
  function After(plaintext: seq<byte>, rest: Result<seq<byte>>): Result<seq<byte>> {
    if rest.Err? then rest else Ok(plaintext + rest.value)
  }

  lemma AfterMore(a: seq<byte>, b: seq<byte>, rest: Result<seq<byte>>)
    ensures After(a, After(b, rest)) == After(a + b, rest)
  {
    if rest.Ok? {
      assert a + (b + rest.value) == (a + b) + rest.value;
    }
  }

  lemma OpenNext(keys: Keys, index: nat, total: u32, original: u64, chunks: seq<Chunk>)
    requires index + |chunks| <= U32_LIMIT && chunks != []
    requires OpenChunk(keys, index, total, original, chunks[0]).Ok?
    ensures OpenChunks(keys, index, total, original, chunks)
            == After(OpenChunk(keys, index, total, original, chunks[0]).value,
                     OpenChunks(keys, index + 1, total, original, chunks[1..]))
  {
  }

  lemma OpenUnfolds(keys: Keys, index: nat, total: u32, original: u64, chunks: seq<Chunk>)
    requires index + |chunks| <= U32_LIMIT && chunks != []
    ensures var first := OpenChunk(keys, index, total, original, chunks[0]);
            OpenChunks(keys, index, total, original, chunks)
            == if first.Err? then Err(first.error)
               else After(first.value, OpenChunks(keys, index + 1, total, original, chunks[1..]))
  {
    hide OpenChunk;
  }

  lemma OpensNothing(keys: Keys, index: nat, total: u32, original: u64)
    requires index <= U32_LIMIT
    ensures OpenChunks(keys, index, total, original, []) == Ok([])
  {
  }

  /** Opening chunks breaks off at the first that is refused, and otherwise puts the pieces end to end. */
  lemma {:induction false} OpeningStops(keys: Keys, index: nat, total: u32, original: u64, chunks: seq<Chunk>, i: nat)
    requires index + |chunks| <= U32_LIMIT && i < |chunks|
    requires OpenChunks(keys, index, total, original, chunks[..i]).Ok?
    ensures var one := OpenChunk(keys, index + i, total, original, chunks[i]);
            if one.Err? then OpenChunks(keys, index, total, original, chunks) == Err(one.error)
            else OpenChunks(keys, index, total, original, chunks[..i + 1])
                 == Ok(OpenChunks(keys, index, total, original, chunks[..i]).value + one.value)
    decreases i
  {
    hide OpenChunk, OpenChunks;
    var one := OpenChunk(keys, index + i, total, original, chunks[i]);
    OpenUnfolds(keys, index, total, original, chunks);
    OpenUnfolds(keys, index, total, original, chunks[..i + 1]);
    if i > 0 {
      OpenUnfolds(keys, index, total, original, chunks[..i]);
      assert chunks[..i][1..] == chunks[1..][..i - 1] && chunks[..i + 1][1..] == chunks[1..][..i];
      OpeningStops(keys, index + 1, total, original, chunks[1..], i - 1);
      if one.Ok? {
        var head := OpenChunk(keys, index, total, original, chunks[0]).value;
        var rest := OpenChunks(keys, index + 1, total, original, chunks[1..][..i - 1]).value;
        assert head + (rest + one.value) == (head + rest) + one.value;
      }
    } else {
      OpensNothing(keys, index, total, original);
      OpensNothing(keys, index + 1, total, original);
      assert chunks[..0] == [] && chunks[..1][1..] == [];
      assert one.Ok? ==> one.value + [] == [] + one.value;
    }
  }

  lemma {:induction false} FedGrows(chunks: seq<Chunk>, c: Chunk)
    requires c.ciphertext.Encoded? && forall d :: d in chunks ==> d.ciphertext.Encoded?
    ensures Fed(chunks + [c]) == Fed(chunks) + [c.ciphertext.value]
  {
    if chunks != [] {
      assert (chunks + [c])[1..] == chunks[1..] + [c];
      FedGrows(chunks[1..], c);
    } else {
      assert chunks + [c] == [c];
      assert Fed([c][1..]) == [];
    }
  }

  /** The decryption loop: `i` chunks are opened, into `plaintext`; `fed` is what the hash has been fed. */
  ghost predicate OpenedSoFar(
    keys: Keys, total: u32, original: u64, chunks: seq<Chunk>, i: nat, plaintext: seq<byte>, fed: seq<Ciphertext>)
    requires i <= |chunks| <= U32_LIMIT
  {
    && (forall c :: c in chunks[..i] ==> c.ciphertext.Encoded?)
    && fed == Fed(chunks[..i])
    && OpenChunks(keys, 0, total, original, chunks)
       == After(plaintext, OpenChunks(keys, i, total, original, chunks[i..]))
  }

  lemma OpensNone(keys: Keys, total: u32, original: u64, chunks: seq<Chunk>)
    requires |chunks| <= U32_LIMIT
    ensures OpenedSoFar(keys, total, original, chunks, 0, [], [])
  {
    assert chunks[0..] == chunks;
    var whole := OpenChunks(keys, 0, total, original, chunks);
    assert whole.Ok? ==> [] + whole.value == whole.value;
  }

  lemma OpensNext(
    keys: Keys, total: u32, original: u64, chunks: seq<Chunk>, i: nat, plaintext: seq<byte>, fed: seq<Ciphertext>)
    requires i < |chunks| <= U32_LIMIT && OpenedSoFar(keys, total, original, chunks, i, plaintext, fed)
    ensures var next := OpenChunk(keys, i, total, original, chunks[i]);
            && (next.Err? ==> OpenChunks(keys, 0, total, original, chunks) == Err(next.error))
            && (next.Ok? ==>
                  && chunks[i].ciphertext.Encoded?
                  && OpenedSoFar(keys, total, original, chunks, i + 1, plaintext + next.value,
                                 fed + [chunks[i].ciphertext.value]))
  {
    var rest := chunks[i..];
    assert rest[0] == chunks[i] && rest[1..] == chunks[i + 1..] && chunks[..i + 1] == chunks[..i] + [chunks[i]];
    var next := OpenChunk(keys, i, total, original, chunks[i]);
    if next.Ok? {
      OpenNext(keys, i, total, original, rest);
      AfterMore(plaintext, next.value, OpenChunks(keys, i + 1, total, original, chunks[i + 1..]));
      FedGrows(chunks[..i], chunks[i]);
    }
  }

  lemma OpensAll(
    keys: Keys, total: u32, original: u64, chunks: seq<Chunk>, plaintext: seq<byte>, fed: seq<Ciphertext>)
    requires |chunks| <= U32_LIMIT && OpenedSoFar(keys, total, original, chunks, |chunks|, plaintext, fed)
    ensures OpenChunks(keys, 0, total, original, chunks) == Ok(plaintext)
    ensures forall c :: c in chunks ==> c.ciphertext.Encoded?
    ensures fed == Fed(chunks)
  {
    assert chunks[..|chunks|] == chunks && chunks[|chunks|..] == [] && plaintext + [] == plaintext;
  }

  method DecryptMediaBytes(blob: Blob, material: Material) returns (r: Result<seq<byte>>)
    ensures r == Decrypted(blob, material)
  {
    var planned := PaddingPlan(blob.original, blob.chunkSize);
    if planned.Err? {
      return Err(planned.error);
    }
    var plan := planned.value;
    if plan.padded != blob.padded || plan.chunkCount != |blob.chunks| {
      return Err(InvalidChunkSequence);
    }
    var decoded := DecodeMaterial(material);
    if decoded.Err? {
      return Err(decoded.error);
    }
    var keys := decoded.value;
    var fed: seq<Ciphertext>, plaintext: seq<byte>, i := [], [], 0;
    OpensNone(keys, plan.chunkCount, blob.original, blob.chunks);
    hide OpenedSoFar, OpenChunks, PaddingPlan, DecodeMaterial, ChunkNonce, ChunkAad, Fed;
    while i < |blob.chunks|
      invariant 0 <= i <= |blob.chunks|
      invariant OpenedSoFar(keys, plan.chunkCount, blob.original, blob.chunks, i, plaintext, fed)
    {
      OpensNext(keys, plan.chunkCount, blob.original, blob.chunks, i, plaintext, fed);
      var chunk := blob.chunks[i];
      if chunk.index != i {
        return Err(InvalidChunkSequence);
      }
      var ciphertext := Decode(chunk.ciphertext, InvalidBase64);
      if ciphertext.Err? {
        return Err(ciphertext.error);
      }
      if Sha256([ciphertext.value]) != chunk.digest {
        return Err(IntegrityMismatch);
      }
      fed := fed + [ciphertext.value];
      var nonce := DeriveChunkNonce(keys.base, chunk.index);
      var aad := BuildChunkAad(chunk.index, plan.chunkCount, blob.original);
      var piece := Open(keys.key, nonce, aad, ciphertext.value);
      if piece.Err? {
        return Err(piece.error);
      }
      plaintext := plaintext + piece.value;
      i := i + 1;
    }
    OpensAll(keys, plan.chunkCount, blob.original, blob.chunks, plaintext, fed);
    if Sha256(fed) != blob.digest {
      return Err(IntegrityMismatch);
    }
    return Ok(Truncated(plaintext, blob.original));
  }

  // Round trip

  lemma {:induction false} SealedOpens(keys: Keys, index: nat, total: u32, original: u64, pieces: seq<seq<byte>>)
    requires index + |pieces| <= U32_LIMIT
    ensures OpenChunks(keys, index, total, original, ChunksOf(index, SealPieces(keys, index, total, original, pieces)))
            == Ok(Joined(pieces))
    decreases |pieces|
  {
    if pieces != [] {
      SealedOpens(keys, index + 1, total, original, pieces[1..]);
      var cs := SealPieces(keys, index, total, original, pieces);
      assert cs[1..] == SealPieces(keys, index + 1, total, original, pieces[1..]);
      assert ChunksOf(index, cs)[1..] == ChunksOf(index + 1, cs[1..]);
    }
  }

  lemma {:induction false} ChunksAreFed(index: nat, cs: seq<Ciphertext>)
    requires index + |cs| <= U32_LIMIT
    ensures forall c :: c in ChunksOf(index, cs) ==> c.ciphertext.Encoded?
    ensures Fed(ChunksOf(index, cs)) == cs
    decreases |cs|
  {
    if cs != [] {
      ChunksAreFed(index + 1, cs[1..]);
      assert ChunksOf(index, cs)[1..] == ChunksOf(index + 1, cs[1..]);
    }
  }

  /** The blob of an encryption opens to the padded plaintext. */
  lemma EncryptionOpens(plaintext: seq<byte>, chunkSize: u32, keys: Keys)
    requires PaddingPlan(|plaintext|, chunkSize).Ok?
    ensures var plan, cs := PaddingPlan(|plaintext|, chunkSize).value, Ciphertexts(plaintext, chunkSize, keys);
            && |cs| == plan.chunkCount && |plaintext| <= plan.padded
            && OpenChunks(keys, 0, plan.chunkCount, plan.original, ChunksOf(0, cs)) == Ok(Padded(plaintext, plan.padded))
  {
    PlanIsCeiling(|plaintext|, chunkSize);
    var plan := PaddingPlan(|plaintext|, chunkSize).value;
    var padded := Padded(plaintext, plan.padded);
    PiecesJoin(padded, chunkSize);
    SealedOpens(keys, 0, plan.chunkCount, plan.original, Pieces(padded, chunkSize));
  }

  /**
    Decryption inverts encryption for every plaintext of 1 to 52,428,800 bytes and every
    nonzero chunk size; other inputs are refused, the chunk size first.
   */
  lemma DecryptInvertsEncrypt(plaintext: seq<byte>, chunkSize: u32, material: Material)
    requires DecodeMaterial(material).Ok?
    ensures Encrypted(plaintext, chunkSize, material).Ok? <==> chunkSize > 0 && 1 <= |plaintext| <= LARGEST
    ensures Encrypted(plaintext, chunkSize, material).Ok? ==>
              Decrypted(Encrypted(plaintext, chunkSize, material).value, material) == Ok(plaintext)
  {
    PlanIsCeiling(|plaintext|, chunkSize);
    hide OpenChunks, Ciphertexts, PaddingPlan, DecodeMaterial, Decrypted, Padded, Truncated;
    if PaddingPlan(|plaintext|, chunkSize).Ok? {
      var keys := DecodeMaterial(material).value;
      var plan, cs := PaddingPlan(|plaintext|, chunkSize).value, Ciphertexts(plaintext, chunkSize, keys);
      EncryptionOpens(plaintext, chunkSize, keys);
      DecryptsBlob(plan, cs, material, Padded(plaintext, plan.padded));
      TruncatesPadding(plaintext, plan.padded);
    }
  }

  lemma DecryptsBlob(plan: Plan, cs: seq<Ciphertext>, material: Material, padded: seq<byte>)
    requires DecodeMaterial(material).Ok?
    requires PaddingPlan(plan.original, plan.chunkSize) == Ok(plan) && |cs| == plan.chunkCount
    requires OpenChunks(DecodeMaterial(material).value, 0, plan.chunkCount, plan.original, ChunksOf(0, cs)) == Ok(padded)
    ensures Decrypted(EncryptedBlob(material.algorithm, plan, cs), material) == Ok(Truncated(padded, plan.original))
  {
    ChunksAreFed(0, cs);
    hide OpenChunks, PaddingPlan, DecodeMaterial, Truncated;
  }

  lemma TruncatesPadding(plaintext: seq<byte>, size: nat)
    requires |plaintext| <= size
    ensures Truncated(Padded(plaintext, size), |plaintext|) == plaintext
  {
  }

  // Acceptance

  /** Under `key` nothing was sealed but the given ciphertexts. */
  ghost predicate OnlySealed(key: Key, cs: seq<Ciphertext>, chunks: seq<Chunk>) {
    forall c :: c in chunks && c.ciphertext.Encoded? && c.ciphertext.value.Sealed? && c.ciphertext.value.key == key
      ==> c.ciphertext.value in cs
  }

  lemma {:induction false} SealedAt(keys: Keys, index: nat, total: u32, original: u64, pieces: seq<seq<byte>>, c: Ciphertext)
    returns (j: nat)
    requires index + |pieces| <= U32_LIMIT && c in SealPieces(keys, index, total, original, pieces)
    ensures j < |pieces| && c == SealPiece(keys, index + j, total, original, pieces[j])
    ensures SealPieces(keys, index, total, original, pieces)[j] == c
    decreases |pieces|
  {
    if c == SealPiece(keys, index, total, original, pieces[0]) {
      j := 0;
    } else {
      var i := SealedAt(keys, index + 1, total, original, pieces[1..], c);
      j := i + 1;
    }
  }

  /** A chunk that opens is, as it stands, the chunk of the encryption with its number. */
  lemma OpenedIsOriginal(
    keys: Keys, total: u32, original: u64, pieces: seq<seq<byte>>, index: u32, total': u32, original': u64, chunk: Chunk)
    requires |pieces| <= LARGEST
    requires OpenChunk(keys, index, total', original', chunk).Ok?
    requires chunk.ciphertext.value in SealPieces(keys, 0, total, original, pieces)
    ensures total' == total && original' == original && index < |pieces|
    ensures chunk == ChunkOf(index, SealPieces(keys, 0, total, original, pieces)[index])
  {
    var j := SealedAt(keys, 0, total, original, pieces, chunk.ciphertext.value);
    ChunkAadInjective(j, total, original, index, total', original');
  }

  /** Chunks that open, from number `index` on, are those of the encryption. */
  lemma {:induction false} OpenedAreOriginal(
    keys: Keys, total: u32, original: u64, pieces: seq<seq<byte>>,
    index: nat, total': u32, original': u64, chunks: seq<Chunk>)
    requires |pieces| <= LARGEST && index + |chunks| <= U32_LIMIT && chunks != []
    requires OpenChunks(keys, index, total', original', chunks).Ok?
    requires OnlySealed(keys.key, SealPieces(keys, 0, total, original, pieces), chunks)
    ensures total' == total && original' == original
    ensures AreFrom(index, SealPieces(keys, 0, total, original, pieces), chunks)
    decreases |chunks|
  {
    var cs := SealPieces(keys, 0, total, original, pieces);
    OpensHead(keys, index, total', original', chunks);
    OnlySealedSplits(keys.key, cs, chunks);
    hide *;
    OpenedIsOriginal(keys, total, original, pieces, index, total', original', chunks[0]);
    if |chunks| > 1 {
      OpenedAreOriginal(keys, total, original, pieces, index + 1, total', original', chunks[1..]);
    }
    AreFromStep(index, cs, chunks);
  }

  /** The chunks are those of `cs` from number `index` on. */
  predicate AreFrom(index: nat, cs: seq<Ciphertext>, chunks: seq<Chunk>)
    requires index + |chunks| <= U32_LIMIT
  {
    index + |chunks| <= |cs| && chunks == ChunksOf(index, cs[index..index + |chunks|])
  }

  lemma AreFromStep(index: nat, cs: seq<Ciphertext>, chunks: seq<Chunk>)
    requires chunks != [] && index + |chunks| <= U32_LIMIT && index < |cs|
    requires chunks[0] == ChunkOf(index, cs[index])
    requires |chunks| > 1 ==> AreFrom(index + 1, cs, chunks[1..])
    ensures AreFrom(index, cs, chunks)
  {
    var tail := cs[index + 1..index + |chunks|];
    assert chunks[1..] == ChunksOf(index + 1, tail);
    ChunksSplit(index, cs[index], tail);
    assert cs[index..index + |chunks|] == [cs[index]] + tail && chunks == [chunks[0]] + chunks[1..];
  }

  lemma OpensHead(keys: Keys, index: nat, total: u32, original: u64, chunks: seq<Chunk>)
    requires index + |chunks| <= U32_LIMIT && chunks != []
    requires OpenChunks(keys, index, total, original, chunks).Ok?
    ensures OpenChunk(keys, index, total, original, chunks[0]).Ok? && chunks[0].ciphertext.Encoded?
    ensures OpenChunks(keys, index + 1, total, original, chunks[1..]).Ok?
    ensures chunks[0].ciphertext.value.Sealed? && chunks[0].ciphertext.value.key == keys.key
  {
  }

  lemma OnlySealedSplits(key: Key, cs: seq<Ciphertext>, chunks: seq<Chunk>)
    requires OnlySealed(key, cs, chunks) && chunks != [] && chunks[0].ciphertext.Encoded?
    requires chunks[0].ciphertext.value.Sealed? && chunks[0].ciphertext.value.key == key
    ensures OnlySealed(key, cs, chunks[1..]) && chunks[0].ciphertext.value in cs
  {
    assert chunks[0] in chunks && forall c :: c in chunks[1..] ==> c in chunks;
  }

  lemma ChunksSplit(index: nat, c: Ciphertext, cs: seq<Ciphertext>)
    requires index + 1 + |cs| <= U32_LIMIT
    ensures ChunksOf(index, [c] + cs) == [ChunkOf(index, c)] + ChunksOf(index + 1, cs)
  {
    assert ([c] + cs)[1..] == cs;
  }

  /**
    Under material used for one encryption, a blob is accepted exactly if it is that
    encryption's blob, apart from its algorithm label and from a chunk size that gives the
    same chunk count; it then yields the original plaintext.
   */
  lemma AcceptedIsOriginal(plaintext: seq<byte>, chunkSize: u32, material: Material, blob: Blob)
    requires DecodeMaterial(material).Ok? && PaddingPlan(|plaintext|, chunkSize).Ok?
    requires OnlySealed(DecodeMaterial(material).value.key,
                        Ciphertexts(plaintext, chunkSize, DecodeMaterial(material).value), blob.chunks)
    ensures var sent := Encrypted(plaintext, chunkSize, material).value;
            && (Decrypted(blob, material).Ok? <==> SameBlob(blob, sent))
            && (Decrypted(blob, material).Ok? ==> Decrypted(blob, material) == Ok(plaintext))
  {
    var sent := Encrypted(plaintext, chunkSize, material).value;
    if Decrypted(blob, material).Ok? {
      AcceptedIsSame(plaintext, chunkSize, material, blob);
    }
    if SameBlob(blob, sent) {
      SameDecrypts(blob, sent, material);
      DecryptInvertsEncrypt(plaintext, chunkSize, material);
    }
  }

  predicate SameBlob(a: Blob, b: Blob) {
    && a == b.(algorithm := a.algorithm, chunkSize := a.chunkSize)
    && PaddingPlan(a.original, a.chunkSize).Ok?
    && PaddingPlan(b.original, b.chunkSize).Ok?
    && PaddingPlan(a.original, a.chunkSize).value.chunkCount == PaddingPlan(b.original, b.chunkSize).value.chunkCount
  }

  lemma SameDecrypts(a: Blob, b: Blob, material: Material)
    requires SameBlob(a, b)
    ensures Decrypted(a, material) == Decrypted(b, material)
  {
    hide OpenChunks, ChoosePaddingBucket, Fed, DecodeMaterial;
  }

  lemma AcceptedIsSame(plaintext: seq<byte>, chunkSize: u32, material: Material, blob: Blob)
    requires DecodeMaterial(material).Ok? && PaddingPlan(|plaintext|, chunkSize).Ok?
    requires OnlySealed(DecodeMaterial(material).value.key,
                        Ciphertexts(plaintext, chunkSize, DecodeMaterial(material).value), blob.chunks)
    requires Decrypted(blob, material).Ok?
    ensures SameBlob(blob, Encrypted(plaintext, chunkSize, material).value)
  {
    var keys := DecodeMaterial(material).value;
    var plan, plan' := PaddingPlan(|plaintext|, chunkSize).value, PaddingPlan(blob.original, blob.chunkSize).value;
    PlanIsCeiling(|plaintext|, chunkSize);
    PlanIsCeiling(blob.original, blob.chunkSize);
    EncryptionOpens(plaintext, chunkSize, keys);
    var cs := Ciphertexts(plaintext, chunkSize, keys);
    var pieces := Pieces(Padded(plaintext, plan.padded), chunkSize);
    hide PaddingPlan, DecodeMaterial, OpenChunks, Pieces, OnlySealed;
    OpenedAreOriginal(keys, plan.chunkCount, plan.original, pieces, 0, plan'.chunkCount, blob.original, blob.chunks);
    assert cs[0..|cs|] == cs;
    ChunksAreFed(0, cs);
  }
}
