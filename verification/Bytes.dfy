/** Byte strings: big-endian integers, ASCII text and Base64 (RFC 4648, section 4). */
module Bytes {

  type byte = x: int | 0 <= x < 256

  const U32_LIMIT: nat := 0x1_0000_0000
  const U64_LIMIT: nat := 0x1_0000_0000_0000_0000

  type u32 = x: int | 0 <= x < U32_LIMIT
  type u64 = x: int | 0 <= x < U64_LIMIT

  function Pow256(k: nat): (p: nat)
    ensures p > 0
  {
    if k == 0 then 1 else 256 * Pow256(k - 1)
  }

  /** The `k` low-order bytes of `n`, most significant first (Rust's `to_be_bytes`). */
  function BigEndian(n: nat, k: nat): (b: seq<byte>)
    ensures |b| == k
  {
    if k == 0 then [] else BigEndian(n / 256, k - 1) + [n % 256]
  }

  lemma Times(k: int, d: nat)
    requires k >= 1
    ensures k * d >= d
  {
  }

  lemma QuotientIs(m: int, d: nat, q: int, r: int)
    requires d > 0 && m == q * d + r && 0 <= r < d
    ensures m / d == q
  {
    var k, s := m / d - q, m % d;
    assert k * d == r - s && -k * d == s - r;
    if k >= 1 {
      Times(k, d);
    } else if k <= -1 {
      Times(-k, d);
    }
  }

  lemma DivideTwice(n: nat, a: nat, b: nat)
    requires a > 0 && b > 0
    ensures a * b > 0 && n / a / b == n / (a * b)
  {
    var q, r := n / a, n % a;
    var s, t := q / b, q % b;
    assert n == q * a + r && q == s * b + t;
    assert n == s * (a * b) + (t * a + r);
    assert (t + 1) * a <= b * a by {
      Ordered(t + 1, b, a);
    }
    QuotientIs(n, a * b, s, t * a + r);
  }

  lemma Ordered(x: nat, y: nat, a: nat)
    requires x <= y
    ensures x * a <= y * a
  {
    assert (y - x) * a >= 0;
  }

  /** The most significant byte first: byte `i` of `k` counts 256 to the power `k - 1 - i`. */
  lemma {:induction false} BigEndianAt(n: nat, k: nat, i: nat)
    requires i < k
    ensures BigEndian(n, k)[i] == n / Pow256(k - 1 - i) % 256
  {
    if i < k - 1 {
      BigEndianAt(n / 256, k - 1, i);
      DivideTwice(n, 256, Pow256(k - 2 - i));
    }
  }

  lemma FourBytes(n: nat)
    ensures BigEndian(n, 4) == [n / 0x100_0000 % 256, n / 0x1_0000 % 256, n / 0x100 % 256, n % 256]
  {
    assert Pow256(1) == 0x100 && Pow256(2) == 0x1_0000 && Pow256(3) == 0x100_0000;
    BigEndianAt(n, 4, 0);
    BigEndianAt(n, 4, 1);
    BigEndianAt(n, 4, 2);
    BigEndianAt(n, 4, 3);
  }

  lemma EightBytes(n: nat)
    ensures BigEndian(n, 8) == BigEndian(n / 0x1_0000_0000, 4) + BigEndian(n, 4)
  {
    assert Pow256(4) == 0x1_0000_0000;
    forall i | 0 <= i < 4 ensures BigEndian(n, 8)[i] == BigEndian(n / 0x1_0000_0000, 4)[i] {
      BigEndianAt(n, 8, i);
      BigEndianAt(n / 0x1_0000_0000, 4, i);
      Pow256Adds(4, 3 - i);
      DivideTwice(n, Pow256(4), Pow256(3 - i));
    }
    forall i | 4 <= i < 8 ensures BigEndian(n, 8)[i] == BigEndian(n, 4)[i - 4] {
      BigEndianAt(n, 8, i);
      BigEndianAt(n, 4, i - 4);
    }
  }

  lemma {:induction false} Pow256Adds(j: nat, k: nat)
    ensures Pow256(j + k) == Pow256(j) * Pow256(k)
  {
    if k > 0 {
      Pow256Adds(j, k - 1);
    }
  }

  lemma {:induction false} BigEndianInjective(m: nat, n: nat, k: nat)
    requires m < Pow256(k) && n < Pow256(k)
    requires BigEndian(m, k) == BigEndian(n, k)
    ensures m == n
  {
    if k != 0 {
      var p, q := BigEndian(m / 256, k - 1), BigEndian(n / 256, k - 1);
      assert BigEndian(m, k)[..k - 1] == p && BigEndian(n, k)[..k - 1] == q;
      assert BigEndian(m, k)[k - 1] == m % 256 && BigEndian(n, k)[k - 1] == n % 256;
      BigEndianInjective(m / 256, n / 256, k - 1);
    }
  }

  lemma U32Injective(m: u32, n: u32)
    requires BigEndian(m, 4) == BigEndian(n, 4)
    ensures m == n
  {
    assert Pow256(4) == U32_LIMIT;
    BigEndianInjective(m, n, 4);
  }

  lemma U64Injective(m: u64, n: u64)
    requires BigEndian(m, 8) == BigEndian(n, 8)
    ensures m == n
  {
    assert Pow256(8) == U64_LIMIT;
    BigEndianInjective(m, n, 8);
  }

  /** The bytes of an ASCII literal. */
  function Ascii(s: string): (b: seq<byte>)
    requires forall i :: 0 <= i < |s| ==> s[i] < 128 as char
    ensures |b| == |s|
  {
    seq(|s|, i requires 0 <= i < |s| => s[i] as int)
  }

  /** Equal concatenations whose first parts have equal lengths are equal part by part. */
  lemma SplitEqual<T>(a: seq<T>, b: seq<T>, c: seq<T>, d: seq<T>)
    requires a + b == c + d && |a| == |c|
    ensures a == c && b == d
  {
    assert (a + b)[..|a|] == a && (c + d)[..|c|] == c;
    assert (a + b)[|a|..] == b && (c + d)[|c|..] == d;
  }

  /** Equal concatenations whose last parts have equal lengths are equal part by part. */
  lemma SplitEqualAtEnd<T>(a: seq<T>, b: seq<T>, c: seq<T>, d: seq<T>)
    requires a + b == c + d && |b| == |d|
    ensures a == c && b == d
  {
    assert |a + b| == |c + d|;
    SplitEqual(a, b, c, d);
  }

  function Base64Char(v: int): (c: byte)
    requires 0 <= v < 64
    ensures c != 61
  {
    if v < 26 then 65 + v
    else if v < 52 then 71 + v
    else if v < 62 then v - 4
    else if v == 62 then 43
    else 47
  }

  function Base64Encode(b: seq<byte>): (t: seq<byte>)
    ensures |t| == 4 * ((|b| + 2) / 3)
  {
    if |b| == 0 then []
    else if |b| == 1 then
      [Base64Char(b[0] / 4), Base64Char(b[0] % 4 * 16), 61, 61]
    else if |b| == 2 then
      [Base64Char(b[0] / 4), Base64Char(b[0] % 4 * 16 + b[1] / 16), Base64Char(b[1] % 16 * 4), 61]
    else
      [Base64Char(b[0] / 4), Base64Char(b[0] % 4 * 16 + b[1] / 16),
       Base64Char(b[1] % 16 * 4 + b[2] / 64), Base64Char(b[2] % 64)]
      + Base64Encode(b[3..])
  }

  /** The alphabet of RFC 4648, section 4: A to Z, a to z, 0 to 9, plus, slash. */
  lemma Base64Alphabet(v: int)
    requires 0 <= v < 64
    ensures 0 <= v < 26 ==> Base64Char(v) == 'A' as int + v
    ensures 26 <= v < 52 ==> Base64Char(v) == 'a' as int + (v - 26)
    ensures 52 <= v < 62 ==> Base64Char(v) == '0' as int + (v - 52)
    ensures Base64Char(62) == '+' as int && Base64Char(63) == '/' as int
  {
  }

  /** The bits of three bytes, of which `n` are there, as four characters of six bits. */
  function Sextets(word: nat, n: nat): seq<byte>
    requires word < 0x100_0000 && 1 <= n <= 3
  {
    var pad := '=' as int;
    [Base64Char(word / 0x4_0000), Base64Char(word / 0x1000 % 64),
     if n > 1 then Base64Char(word / 64 % 64) else pad, if n > 2 then Base64Char(word % 64) else pad]
  }

  lemma Base64Word(a: byte, b: byte, c: byte)
    ensures var word := a * 0x1_0000 + b * 0x100 + c;
            && word / 0x4_0000 == a / 4 && word / 0x1000 % 64 == a % 4 * 16 + b / 16
            && word / 64 % 64 == b % 16 * 4 + c / 64 && word % 64 == c % 64
  {
    var word := a * 0x1_0000 + b * 0x100 + c;
    QuotientIs(word, 0x4_0000, a / 4, a % 4 * 0x1_0000 + b * 0x100 + c);
    QuotientIs(word, 0x1000, a * 16 + b / 16, b % 16 * 0x100 + c);
    QuotientIs(word, 64, a * 0x400 + b * 4 + c / 64, c % 64);
  }

  /** The three bytes from `i` on as one number, zeros for those that are missing. */
  function WordAt(b: seq<byte>, i: nat): (word: nat)
    ensures word < 0x100_0000
  {
    var x: int := if i < |b| then b[i] else 0;
    var y: int := if i + 1 < |b| then b[i + 1] else 0;
    var z: int := if i + 2 < |b| then b[i + 2] else 0;
    x * 0x1_0000 + y * 0x100 + z
  }

  function Bytes3(b: seq<byte>, i: nat): (n: nat)
    requires i < |b|
    ensures 1 <= n <= 3
  {
    if |b| - i >= 3 then 3 else |b| - i
  }

  lemma Base64First(b: seq<byte>)
    requires b != []
    ensures |Base64Encode(b)| >= 4 && Base64Encode(b)[..4] == Sextets(WordAt(b, 0), Bytes3(b, 0))
  {
    hide Base64Char;
    Base64Word(b[0], if |b| > 1 then b[1] else 0, if |b| > 2 then b[2] else 0);
  }

  /** Each three bytes become four characters, the last group padded. */
  lemma {:induction false} Base64Groups(b: seq<byte>, g: nat)
    requires 3 * g < |b|
    ensures 4 * g + 4 <= |Base64Encode(b)|
    ensures Base64Encode(b)[4 * g..4 * g + 4] == Sextets(WordAt(b, 3 * g), Bytes3(b, 3 * g))
  {
    if g == 0 {
      Base64First(b);
    } else {
      Base64Groups(b[3..], g - 1);
      hide Base64Char, Sextets;
      assert Base64Encode(b)[4..] == Base64Encode(b[3..]);
      assert WordAt(b[3..], 3 * (g - 1)) == WordAt(b, 3 * g);
      assert Base64Encode(b)[4 * g..4 * g + 4] == Base64Encode(b)[4..][4 * (g - 1)..4 * (g - 1) + 4];
    }
  }

  lemma Base64CharInjective(v: int, w: int)
    requires 0 <= v < 64 && 0 <= w < 64 && Base64Char(v) == Base64Char(w)
    ensures v == w
  {
  }

  /** Three bytes are determined by the four Base64 characters they are written as. */
  lemma Base64GroupInjective(a0: byte, a1: byte, a2: byte, b0: byte, b1: byte, b2: byte)
    requires Base64Char(a0 / 4) == Base64Char(b0 / 4)
    requires Base64Char(a0 % 4 * 16 + a1 / 16) == Base64Char(b0 % 4 * 16 + b1 / 16)
    requires Base64Char(a1 % 16 * 4 + a2 / 64) == Base64Char(b1 % 16 * 4 + b2 / 64)
    requires Base64Char(a2 % 64) == Base64Char(b2 % 64)
    ensures a0 == b0 && a1 == b1 && a2 == b2
  {
    Base64CharInjective(a0 / 4, b0 / 4);
    Base64CharInjective(a0 % 4 * 16 + a1 / 16, b0 % 4 * 16 + b1 / 16);
    Base64CharInjective(a1 % 16 * 4 + a2 / 64, b1 % 16 * 4 + b2 / 64);
    Base64CharInjective(a2 % 64, b2 % 64);
  }

  /** Two byte strings of one length with the same Base64 text are equal. */
  lemma {:induction false} Base64Injective(a: seq<byte>, b: seq<byte>)
    requires |a| == |b| && Base64Encode(a) == Base64Encode(b)
    ensures a == b
  {
    hide Base64Char;
    var s, t := Base64Encode(a), Base64Encode(b);
    if |a| == 0 {
    } else if |a| == 1 {
      assert s[0] == t[0] && s[1] == t[1];
      Base64GroupInjective(a[0], 0, 0, b[0], 0, 0);
    } else if |a| == 2 {
      assert s[0] == t[0] && s[1] == t[1] && s[2] == t[2];
      Base64GroupInjective(a[0], a[1], 0, b[0], b[1], 0);
    } else {
      assert s[0] == t[0] && s[1] == t[1] && s[2] == t[2] && s[3] == t[3];
      Base64GroupInjective(a[0], a[1], a[2], b[0], b[1], b[2]);
      assert s[4..] == Base64Encode(a[3..]) && t[4..] == Base64Encode(b[3..]);
      Base64Injective(a[3..], b[3..]);
      assert a == [a[0], a[1], a[2]] + a[3..] && b == [b[0], b[1], b[2]] + b[3..];
    }
  }
}
