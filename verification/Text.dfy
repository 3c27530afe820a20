/** Text as Rust sees it: white space, UTF-8 bytes, fixed-width decimals. */
module Text {
  import opened Bytes

  /** Unicode white space, which Rust's `trim` removes. */
  predicate IsWhitespace(c: char) {
    var x := c as int;
    || 0x09 <= x <= 0x0D || x == 0x20 || x == 0x85 || x == 0xA0 || x == 0x1680
    || 0x2000 <= x <= 0x200A || x == 0x2028 || x == 0x2029 || x == 0x202F || x == 0x205F || x == 0x3000
  }

  predicate IsBlank(id: string) {
    forall i :: 0 <= i < |id| ==> IsWhitespace(id[i])
  }

  /** The characters of Unicode property White_Space. */
  const WHITE_SPACE: set<char> := {
    '\U{0009}', '\U{000A}', '\U{000B}', '\U{000C}', '\U{000D}', '\U{0020}', '\U{0085}', '\U{00A0}', '\U{1680}',
    '\U{2000}', '\U{2001}', '\U{2002}', '\U{2003}', '\U{2004}', '\U{2005}', '\U{2006}', '\U{2007}', '\U{2008}',
    '\U{2009}', '\U{200A}', '\U{2028}', '\U{2029}', '\U{202F}', '\U{205F}', '\U{3000}'}

  lemma WhitespaceIs(c: char)
    ensures IsWhitespace(c) <==> c in WHITE_SPACE
  {
  }

  /** Blank is empty, or white space alone. */
  lemma BlankIs(id: string)
    ensures IsBlank(id) <==> forall c :: c in id ==> c in WHITE_SPACE
  {
    forall c ensures IsWhitespace(c) <==> c in WHITE_SPACE {
      WhitespaceIs(c);
    }
    hide IsWhitespace;
    if forall c :: c in id ==> c in WHITE_SPACE {
      forall i | 0 <= i < |id| ensures IsWhitespace(id[i]) {
        assert id[i] in id;
      }
    }
  }

  /** A character's UTF-8 bytes (RFC 3629, section 3). */
  function Utf8Char(c: char): (b: seq<byte>)
    ensures 1 <= |b| <= 4
  {
    var x := c as int;
    var y := x / 64;
    var z := y / 64;
    if x < 0x80 then [x]
    else if x < 0x800 then [0xC0 + y, 0x80 + x % 64]
    else if x < 0x10000 then [0xE0 + z, 0x80 + y % 64, 0x80 + x % 64]
    else [0xF0 + z / 64, 0x80 + z % 64, 0x80 + y % 64, 0x80 + x % 64]
  }

  function Utf8(s: string): seq<byte> {
    if s == [] then [] else Utf8Char(s[0]) + Utf8(s[1..])
  }

  /** The bytes of a text are those of its characters, in order. */
  lemma {:induction false} Utf8Joins(s: string, t: string)
    ensures Utf8(s + t) == Utf8(s) + Utf8(t)
  {
    if s == [] {
      assert s + t == t;
    } else {
      assert (s + t)[1..] == s[1..] + t;
      Utf8Joins(s[1..], t);
    }
  }

  lemma Utf8One(c: char)
    ensures Utf8([c]) == Utf8Char(c)
  {
    assert [c][1..] == [] && Utf8([]) == [];
    hide Utf8Char;
  }

  lemma Utf8LengthFromLead(c: char, d: char)
    requires Utf8Char(c)[0] == Utf8Char(d)[0]
    ensures |Utf8Char(c)| == |Utf8Char(d)|
  {
  }

  /** The code point that bytes of one character stand for. */
  function CodePoint(b: seq<byte>): int
    requires 1 <= |b| <= 4
  {
    if |b| == 1 then b[0]
    else if |b| == 2 then ((b[0] as int) - 0xC0) * 64 + ((b[1] as int) - 0x80)
    else if |b| == 3 then (((b[0] as int) - 0xE0) * 64 + ((b[1] as int) - 0x80)) * 64 + ((b[2] as int) - 0x80)
    else ((((b[0] as int) - 0xF0) * 64 + ((b[1] as int) - 0x80)) * 64 + ((b[2] as int) - 0x80)) * 64 + ((b[3] as int) - 0x80)
  }

  lemma CodePointOfChar(c: char)
    ensures CodePoint(Utf8Char(c)) == c as int
  {
  }

  /** As RFC 3629, section 3, tabulates it: how many bytes, and the ranges of the first and of the others. */
  lemma Utf8Shape(c: char)
    ensures var b, x := Utf8Char(c), c as int;
            && (forall i :: 1 <= i < |b| ==> 0x80 <= b[i] < 0xC0)
            && (x < 0x80 ==> |b| == 1 && b[0] < 0x80)
            && (0x80 <= x < 0x800 ==> |b| == 2 && 0xC0 <= b[0] < 0xE0)
            && (0x800 <= x < 0x1_0000 ==> |b| == 3 && 0xE0 <= b[0] < 0xF0)
            && (0x1_0000 <= x ==> |b| == 4 && 0xF0 <= b[0] < 0xF8)
  {
  }

  lemma Utf8CharInjective(c: char, d: char)
    requires Utf8Char(c) == Utf8Char(d)
    ensures c == d
  {
    CodePointOfChar(c);
    CodePointOfChar(d);
  }

  lemma {:induction false} Utf8Injective(s: string, t: string)
    requires Utf8(s) == Utf8(t)
    ensures s == t
  {
    if s != [] && t != [] {
      assert Utf8(s)[0] == Utf8Char(s[0])[0] && Utf8(t)[0] == Utf8Char(t[0])[0];
      Utf8LengthFromLead(s[0], t[0]);
      SplitEqual(Utf8Char(s[0]), Utf8(s[1..]), Utf8Char(t[0]), Utf8(t[1..]));
      Utf8CharInjective(s[0], t[0]);
      Utf8Injective(s[1..], t[1..]);
      assert s == [s[0]] + s[1..] && t == [t[0]] + t[1..];
    }
  }

  function Pow10(k: nat): (p: nat)
    ensures p > 0
  {
    if k == 0 then 1 else 10 * Pow10(k - 1)
  }

  lemma {:induction false} Pow10Adds(j: nat, k: nat)
    ensures Pow10(j + k) == Pow10(j) * Pow10(k)
  {
    if k > 0 {
      Pow10Adds(j, k - 1);
    }
  }

  /** The `k` low-order decimal digits of `n`, in ASCII. */
  function Decimal(n: nat, k: nat): (b: seq<byte>)
    ensures |b| == k
    ensures forall i :: 0 <= i < k ==> 48 <= b[i] <= 57
  {
    if k == 0 then [] else Decimal(n / 10, k - 1) + [48 + n % 10]
  }

  /** The digit at position `i` of `k` counts 10 to the power `k - 1 - i`. */
  lemma {:induction false} DecimalAt(n: nat, k: nat, i: nat)
    requires i < k
    ensures Decimal(n, k)[i] == '0' as int + n / Pow10(k - 1 - i) % 10
  {
    if i < k - 1 {
      DecimalAt(n / 10, k - 1, i);
      DivideTwice(n, 10, Pow10(k - 2 - i));
    }
  }

  lemma TwoDigits(n: nat)
    ensures Decimal(n, 2) == [48 + n / 10 % 10, 48 + n % 10]
  {
    assert Pow10(1) == 10;
    DecimalAt(n, 2, 0);
    DecimalAt(n, 2, 1);
  }

  lemma FourDigits(n: nat)
    ensures Decimal(n, 4) == [48 + n / 1000 % 10, 48 + n / 100 % 10, 48 + n / 10 % 10, 48 + n % 10]
  {
    assert Pow10(1) == 10 && Pow10(2) == 100 && Pow10(3) == 1000;
    DecimalAt(n, 4, 0);
    DecimalAt(n, 4, 1);
    DecimalAt(n, 4, 2);
    DecimalAt(n, 4, 3);
  }

  lemma {:induction false} DecimalInjective(m: nat, n: nat, k: nat)
    requires m < Pow10(k) && n < Pow10(k) && Decimal(m, k) == Decimal(n, k)
    ensures m == n
  {
    if k > 0 {
      var p, q := Decimal(m / 10, k - 1), Decimal(n / 10, k - 1);
      SplitEqual(p, [48 + m % 10], q, [48 + n % 10]);
      assert [48 + m % 10][0] == [48 + n % 10][0];
      DecimalInjective(m / 10, n / 10, k - 1);
    }
  }
}
