/** Signed device records, and the byte layout a signature covers. */
module Device {
  import opened Bytes
  import opened Primitives
  import opened Text

  const RECORD_VERSION := "simy-device-record-v1"

  /** A UTC time with a four-digit year; second 60 is a leap second. */
  datatype Timestamp = Timestamp(
    year: nat, month: nat, day: nat, hour: nat, minute: nat, second: nat, nanos: nat)

  predicate InRange(t: Timestamp) {
    && t.year < 10000 && t.month < 100 && t.day < 100
    && t.hour < 100 && t.minute < 100 && t.second < 100 && t.nanos < 1_000_000_000
  }

  type Time = t: Timestamp | InRange(t)
    witness Timestamp(0, 1, 1, 0, 0, 0, 0)

  datatype Keys = Keys(signing: VerifyingKeyText, exchange: Encoded<PublicKey>)

  /** What the signature covers; `name` is the device label. */
  datatype Body = Body(
    id: string, name: string, signing: VerifyingKey, exchange: PublicKey, created: Time, revoked: Option<Time>)

  datatype Record = Record(
    version: string, id: string, name: string, keys: Keys, created: Time, revoked: Option<Time>,
    signature: Encoded<Signature>)

  // Timestamps

  /** RFC 3339 text: the fraction is left out, or has 3, 6 or 9 digits, as few as are exact. */
  function Fraction(nanos: nat): (b: seq<byte>)
    ensures |b| == 0 || |b| == 4 || |b| == 7 || |b| == 10
    ensures forall i :: 0 <= i < |b| ==> b[i] < 84
  {
    if nanos == 0 then []
    else if nanos % 1_000_000 == 0 then [46] + Decimal(nanos / 1_000_000, 3)
    else if nanos % 1_000 == 0 then [46] + Decimal(nanos / 1_000, 6)
    else [46] + Decimal(nanos, 9)
  }

  function DateText(t: Time): (b: seq<byte>)
    ensures |b| == 10
    ensures forall i :: 0 <= i < 10 ==> b[i] < 84
  {
    Decimal(t.year, 4) + [45] + Decimal(t.month, 2) + [45] + Decimal(t.day, 2)
  }

  function ClockText(t: Time): (b: seq<byte>)
    ensures |b| == 8
    ensures forall i :: 0 <= i < 8 ==> b[i] < 84
  {
    Decimal(t.hour, 2) + [58] + Decimal(t.minute, 2) + [58] + Decimal(t.second, 2)
  }

  /** `2026-01-31T23:59:59.123+00:00`, in bytes: the one letter is at index 10. */
  function Rfc3339(t: Time): (b: seq<byte>)
    ensures |b| == 25 + |Fraction(t.nanos)|
    ensures forall i :: 0 <= i < |b| ==> (b[i] == 84 <==> i == 10)
    ensures b[|b| - 1] == 48
  {
    DateText(t) + [84] + ClockText(t) + Fraction(t.nanos) + [43, 48, 48, 58, 48, 48]
  }

  lemma FractionLength(nanos: nat)
    ensures |Fraction(nanos)|
            == (if nanos == 0 then 0 else if nanos % 1_000_000 == 0 then 4 else if nanos % 1_000 == 0 then 7 else 10)
  {
    hide Decimal;
  }

  /** A point and as few groups of three digits as are exact; digit `i` counts 10 to the power `9 - i`. */
  lemma FractionLayout(nanos: nat, i: nat)
    requires nanos < 1_000_000_000
    ensures var b := Fraction(nanos);
            && |b| == (if nanos == 0 then 0 else if nanos % 1_000_000 == 0 then 4 else if nanos % 1_000 == 0 then 7 else 10)
            && (b != [] ==> b[0] == '.' as int)
            && (1 <= i < |b| ==> b[i] == '0' as int + nanos / Pow10(9 - i) % 10)
  {
    var b := Fraction(nanos);
    FractionLength(nanos);
    if 1 <= i < |b| {
      assert Pow10(6) == 1_000_000 && Pow10(3) == 1_000 && Pow10(0) == 1;
      FractionDigit(nanos, if |b| == 4 then nanos / 1_000_000 else if |b| == 7 then nanos / 1_000 else nanos, |b| - 1, i);
    }
    hide Decimal;
  }

  /** The `k` leading ones of nine digits, and what each counts. */
  lemma FractionDigit(nanos: nat, leading: nat, k: nat, i: nat)
    requires 1 <= i <= k <= 9 && leading == nanos / Pow10(9 - k)
    ensures Decimal(leading, k)[i - 1] == '0' as int + nanos / Pow10(9 - i) % 10
  {
    hide Pow10, Decimal;
    Pow10Adds(9 - k, k - i);
    DecimalAt(leading, k, i - 1);
    DivideTwice(nanos, Pow10(9 - k), Pow10(k - i));
  }

  /** `yyyy-mm-ddThh:mm:ss`, the fraction, and `+00:00`. */
  lemma TimestampLayout(t: Time)
    ensures var b := Rfc3339(t);
            var z: int := '0' as int;
            && b[..4] == [z + t.year / 1000 % 10, z + t.year / 100 % 10, z + t.year / 10 % 10, z + t.year % 10]
            && b[4] == '-' as int && b[5..7] == [z + t.month / 10 % 10, z + t.month % 10]
            && b[7] == '-' as int && b[8..10] == [z + t.day / 10 % 10, z + t.day % 10]
            && b[10] == 'T' as int && b[11..13] == [z + t.hour / 10 % 10, z + t.hour % 10]
            && b[13] == ':' as int && b[14..16] == [z + t.minute / 10 % 10, z + t.minute % 10]
            && b[16] == ':' as int && b[17..19] == [z + t.second / 10 % 10, z + t.second % 10]
            && b[19..|b| - 6] == Fraction(t.nanos)
            && b[|b| - 6..] == [43, 48, 48, 58, 48, 48]
  {
    FourDigits(t.year);
    TwoDigits(t.month);
    TwoDigits(t.day);
    TwoDigits(t.hour);
    TwoDigits(t.minute);
    TwoDigits(t.second);
    hide Decimal, Fraction;
    TimestampParts(Decimal(t.year, 4), Decimal(t.month, 2), Decimal(t.day, 2), Decimal(t.hour, 2), Decimal(t.minute, 2),
                   Decimal(t.second, 2), Fraction(t.nanos));
  }

  lemma TimestampParts(
    y: seq<byte>, mo: seq<byte>, d: seq<byte>, h: seq<byte>, mi: seq<byte>, s: seq<byte>, f: seq<byte>)
    requires |y| == 4 && |mo| == 2 && |d| == 2 && |h| == 2 && |mi| == 2 && |s| == 2
    ensures var b := (y + [45] + mo + [45] + d) + [84] + (h + [58] + mi + [58] + s) + f + [43, 48, 48, 58, 48, 48];
            && |b| == 25 + |f|
            && b[..4] == y && b[4] == 45 && b[5..7] == mo && b[7] == 45 && b[8..10] == d && b[10] == 84
            && b[11..13] == h && b[13] == 58 && b[14..16] == mi && b[16] == 58 && b[17..19] == s
            && b[19..|b| - 6] == f && b[|b| - 6..] == [43, 48, 48, 58, 48, 48]
  {
    DateParts(y, mo, d);
    ClockParts(h, mi, s);
    var date, clock := y + [45] + mo + [45] + d, h + [58] + mi + [58] + s;
    WholeParts(date, clock, f);
    var b := date + [84] + clock + f + [43, 48, 48, 58, 48, 48];
    assert b[..4] == b[..10][..4] && b[5..7] == b[..10][5..7] && b[8..10] == b[..10][8..10];
    assert b[11..13] == b[11..19][..2] && b[14..16] == b[11..19][3..5] && b[17..19] == b[11..19][6..8];
    assert b[4] == b[..10][4] && b[7] == b[..10][7] && b[13] == b[11..19][2] && b[16] == b[11..19][5];
  }

  lemma DateParts(y: seq<byte>, mo: seq<byte>, d: seq<byte>)
    requires |y| == 4 && |mo| == 2 && |d| == 2
    ensures var b := y + [45] + mo + [45] + d;
            |b| == 10 && b[..4] == y && b[4] == 45 && b[5..7] == mo && b[7] == 45 && b[8..10] == d
  {
  }

  lemma ClockParts(h: seq<byte>, mi: seq<byte>, s: seq<byte>)
    requires |h| == 2 && |mi| == 2 && |s| == 2
    ensures var b := h + [58] + mi + [58] + s;
            |b| == 8 && b[..2] == h && b[2] == 58 && b[3..5] == mi && b[5] == 58 && b[6..8] == s
  {
  }

  lemma WholeParts(date: seq<byte>, clock: seq<byte>, f: seq<byte>)
    requires |date| == 10 && |clock| == 8
    ensures var b := date + [84] + clock + f + [43, 48, 48, 58, 48, 48];
            && |b| == 25 + |f| && b[..10] == date && b[10] == 84 && b[11..19] == clock
            && b[19..|b| - 6] == f && b[|b| - 6..] == [43, 48, 48, 58, 48, 48]
  {
  }

  lemma FractionInjective(m: nat, n: nat)
    requires m < 1_000_000_000 && n < 1_000_000_000 && Fraction(m) == Fraction(n)
    ensures m == n
  {
    assert Pow10(3) == 1_000 && Pow10(6) == 1_000_000 && Pow10(9) == 1_000_000_000;
    var a, b := Fraction(m), Fraction(n);
    if |a| == 4 {
      SplitEqual([46], Decimal(m / 1_000_000, 3), [46], Decimal(n / 1_000_000, 3));
      DecimalInjective(m / 1_000_000, n / 1_000_000, 3);
    } else if |a| == 7 {
      SplitEqual([46], Decimal(m / 1_000, 6), [46], Decimal(n / 1_000, 6));
      DecimalInjective(m / 1_000, n / 1_000, 6);
    } else if |a| == 10 {
      SplitEqual([46], Decimal(m, 9), [46], Decimal(n, 9));
      DecimalInjective(m, n, 9);
    }
  }

  lemma DateInjective(t: Time, u: Time)
    requires DateText(t) == DateText(u)
    ensures t.year == u.year && t.month == u.month && t.day == u.day
  {
    assert Pow10(4) == 10000 && Pow10(2) == 100;
    var y, z := Decimal(t.year, 4) + [45], Decimal(u.year, 4) + [45];
    var m, n := y + Decimal(t.month, 2), z + Decimal(u.month, 2);
    SplitEqual(m + [45], Decimal(t.day, 2), n + [45], Decimal(u.day, 2));
    SplitEqual(m, [45], n, [45]);
    SplitEqual(y, Decimal(t.month, 2), z, Decimal(u.month, 2));
    SplitEqual(Decimal(t.year, 4), [45], Decimal(u.year, 4), [45]);
    DecimalInjective(t.year, u.year, 4);
    DecimalInjective(t.month, u.month, 2);
    DecimalInjective(t.day, u.day, 2);
  }

  lemma ClockInjective(t: Time, u: Time)
    requires ClockText(t) == ClockText(u)
    ensures t.hour == u.hour && t.minute == u.minute && t.second == u.second
  {
    assert Pow10(2) == 100;
    var y, z := Decimal(t.hour, 2) + [58], Decimal(u.hour, 2) + [58];
    var m, n := y + Decimal(t.minute, 2), z + Decimal(u.minute, 2);
    SplitEqual(m + [58], Decimal(t.second, 2), n + [58], Decimal(u.second, 2));
    SplitEqual(m, [58], n, [58]);
    SplitEqual(y, Decimal(t.minute, 2), z, Decimal(u.minute, 2));
    SplitEqual(Decimal(t.hour, 2), [58], Decimal(u.hour, 2), [58]);
    DecimalInjective(t.hour, u.hour, 2);
    DecimalInjective(t.minute, u.minute, 2);
    DecimalInjective(t.second, u.second, 2);
  }

  lemma Rfc3339Injective(t: Time, u: Time)
    requires Rfc3339(t) == Rfc3339(u)
    ensures t == u
  {
    var end: seq<byte> := [43, 48, 48, 58, 48, 48];
    var a, b := DateText(t) + [84], DateText(u) + [84];
    var c, d := a + ClockText(t), b + ClockText(u);
    SplitEqualAtEnd(c + Fraction(t.nanos), end, d + Fraction(u.nanos), end);
    SplitEqual(c, Fraction(t.nanos), d, Fraction(u.nanos));
    SplitEqual(a, ClockText(t), b, ClockText(u));
    SplitEqual(DateText(t), [84], DateText(u), [84]);
    FractionInjective(t.nanos, u.nanos);
    DateInjective(t, u);
    ClockInjective(t, u);
  }

  /** Read from the end, the letter tells how long a timestamp is. */
  lemma TimestampAtEnd(a: seq<byte>, t: Time, b: seq<byte>, u: Time)
    requires a + Rfc3339(t) == b + Rfc3339(u)
    ensures a == b && t == u
  {
    var x, y := Rfc3339(t), Rfc3339(u);
    var whole := a + x;
    var i, j := |a| + 10, |b| + 10;
    assert |a| + |x| == |b| + |y|;
    assert whole[i] == x[10] && whole[j] == y[10];
    assert |b| <= i ==> whole[i] == y[i - |b|];
    assert |a| <= j ==> whole[j] == x[j - |a|];
    SplitEqual(a, x, b, y);
    Rfc3339Injective(t, u);
  }

  // The layout

  predicate IsIdByte(b: byte) {
    48 <= b <= 57 || 65 <= b <= 90 || 97 <= b <= 122 || b == 45 || b == 95
  }

  predicate ValidId(id: string) {
    8 <= |Utf8(id)| <= 128 && forall i :: 0 <= i < |Utf8(id)| ==> IsIdByte(Utf8(id)[i])
  }

  predicate ValidLabel(name: string) {
    !IsBlank(name) && |Utf8(name)| <= 128
  }

  function RevokedBytes(revoked: Option<Time>): seq<byte> {
    if revoked.Some? then [1] + Rfc3339(revoked.value) else [0]
  }

  function Payload(b: Body): seq<byte> {
    Ascii(RECORD_VERSION)
    + Utf8(b.id)
    + [0]
    + Utf8(b.name)
    + [0]
    + KeyBytes(b.signing.id)
    + KeyBytes(b.exchange.id)
    + Rfc3339(b.created)
    + RevokedBytes(b.revoked)
  }

  method DeviceRecordSigningPayload(b: Body) returns (payload: seq<byte>)
    ensures payload == Payload(b)
  {
    payload := [];
    payload := payload + Ascii(RECORD_VERSION);
    payload := payload + Utf8(b.id);
    payload := payload + [0];
    payload := payload + Utf8(b.name);
    payload := payload + [0];
    payload := payload + KeyBytes(b.signing.id);
    payload := payload + KeyBytes(b.exchange.id);
    payload := payload + Rfc3339(b.created);
    assert [] + Ascii(RECORD_VERSION) == Ascii(RECORD_VERSION);
    if b.revoked.Some? {
      ghost var before := payload;
      payload := payload + [1];
      payload := payload + Rfc3339(b.revoked.value);
      assert payload == before + ([1] + Rfc3339(b.revoked.value));
    } else {
      payload := payload + [0];
    }
  }

  /** Version, identifier and zero, label and zero, two keys, creation time, and the revocation or a zero. */
  predicate LaidOut(
    p: seq<byte>,
    version: seq<byte>, id: seq<byte>, name: seq<byte>, signing: seq<byte>, exchange: seq<byte>,
    created: seq<byte>, revoked: seq<byte>)
  {
    var i, j := 21 + |id|, 22 + |id| + |name|;
    var k := j + 65 + |created|;
    && |p| == k + |revoked|
    && p[..21] == version
    && p[21..i] == id && p[i] == 0
    && p[i + 1..j] == name && p[j] == 0
    && p[j + 1..j + 33] == signing
    && p[j + 33..j + 65] == exchange
    && p[j + 65..k] == created
    && p[k..] == revoked
  }

  lemma PayloadLayout(b: Body)
    ensures LaidOut(
              Payload(b),
              [115, 105, 109, 121, 45, 100, 101, 118, 105, 99, 101, 45, 114, 101, 99, 111, 114, 100, 45, 118, 49],
              Utf8(b.id), Utf8(b.name), BigEndian(b.signing.id, 32), BigEndian(b.exchange.id, 32),
              Rfc3339(b.created), if b.revoked.Some? then [1] + Rfc3339(b.revoked.value) else [0])
  {
    var v := Ascii(RECORD_VERSION);
    VersionBytes();
    RevokedIs(b.revoked);
    KeyIsBytes(b.signing.id);
    KeyIsBytes(b.exchange.id);
    PayloadIs(b);
    hide *;
    SevenParts(v, Utf8(b.id), Utf8(b.name), KeyBytes(b.signing.id), KeyBytes(b.exchange.id), Rfc3339(b.created),
               RevokedBytes(b.revoked));
  }

  lemma PayloadIs(b: Body)
    ensures Payload(b) == Ascii(RECORD_VERSION) + Utf8(b.id) + [0] + Utf8(b.name) + [0] + KeyBytes(b.signing.id)
                          + KeyBytes(b.exchange.id) + Rfc3339(b.created) + RevokedBytes(b.revoked)
  {
  }

  lemma VersionBytes()
    ensures Ascii(RECORD_VERSION)
            == [115, 105, 109, 121, 45, 100, 101, 118, 105, 99, 101, 45, 114, 101, 99, 111, 114, 100, 45, 118, 49]
  {
  }

  lemma KeyIsBytes(id: Secret)
    ensures KeyBytes(id) == BigEndian(id, 32) && |KeyBytes(id)| == 32
  {
  }

  lemma RevokedIs(revoked: Option<Time>)
    ensures RevokedBytes(revoked) == if revoked.Some? then [1] + Rfc3339(revoked.value) else [0]
  {
  }

  lemma SevenParts(
    v: seq<byte>, a: seq<byte>, b: seq<byte>, c: seq<byte>, d: seq<byte>, e: seq<byte>, f: seq<byte>)
    requires |v| == 21 && |c| == 32 && |d| == 32
    ensures LaidOut(v + a + [0] + b + [0] + c + d + e + f, v, a, b, c, d, e, f)
  {
    var i, j := 21 + |a|, 22 + |a| + |b|;
    var q := v + a + [0] + b + [0];
    HeadParts(v, a, b);
    TailParts(q, c, d, e, f);
    var p := q + c + d + e + f;
    assert p[..j + 1] == q;
    assert p[..21] == q[..21] && p[21..i] == q[21..i] && p[i] == q[i] && p[i + 1..j] == q[i + 1..j] && p[j] == q[j];
  }

  lemma HeadParts(v: seq<byte>, a: seq<byte>, b: seq<byte>)
    requires |v| == 21
    ensures var q, i, j := v + a + [0] + b + [0], 21 + |a|, 22 + |a| + |b|;
            |q| == j + 1 && q[..21] == v && q[21..i] == a && q[i] == 0 && q[i + 1..j] == b && q[j] == 0
  {
  }

  lemma TailParts(q: seq<byte>, c: seq<byte>, d: seq<byte>, e: seq<byte>, f: seq<byte>)
    requires |c| == 32 && |d| == 32
    ensures var p, j := q + c + d + e + f, |q|;
            var k := j + 64 + |e|;
            && |p| == k + |f| && p[..j] == q && p[j..j + 32] == c && p[j + 32..j + 64] == d && p[j + 64..k] == e
            && p[k..] == f
  {
  }

  /** The revocation field, and what comes before it, read from the end. */
  lemma RevokedAtEnd(a: seq<byte>, r: Option<Time>, b: seq<byte>, s: Option<Time>)
    requires a + RevokedBytes(r) == b + RevokedBytes(s)
    ensures a == b && r == s
  {
    RevokedLast(a, r);
    RevokedLast(b, s);
    hide RevokedBytes, Rfc3339;
    if r.Some? {
      TimestampAtEnd(a + [1], r.value, b + [1], s.value);
      SplitEqual(a, [1], b, [1]);
    } else {
      SplitEqualAtEnd(a, [0], b, [0]);
    }
  }

  lemma RevokedLast(a: seq<byte>, r: Option<Time>)
    ensures var whole := a + RevokedBytes(r);
            |whole| > 0 && whole[|whole| - 1] == if r.Some? then 48 else 0
    ensures a + RevokedBytes(r) == if r.Some? then (a + [1]) + Rfc3339(r.value) else a + [0]
  {
    if r.Some? {
      assert a + ([1] + Rfc3339(r.value)) == (a + [1]) + Rfc3339(r.value);
    }
  }

  function FirstZero(s: seq<byte>): nat {
    if s == [] || s[0] == 0 then 0 else 1 + FirstZero(s[1..])
  }

  lemma {:induction false} FirstZeroEnds(a: seq<byte>, x: seq<byte>)
    requires forall i :: 0 <= i < |a| ==> a[i] != 0
    ensures FirstZero(a + ([0] + x)) == |a|
  {
    if a != [] {
      assert (a + ([0] + x))[1..] == a[1..] + ([0] + x);
      FirstZeroEnds(a[1..], x);
    }
  }

  /** A part without zeros ends at the first zero. */
  lemma ZeroFreeAtStart(a: seq<byte>, x: seq<byte>, b: seq<byte>, y: seq<byte>)
    requires (forall i :: 0 <= i < |a| ==> a[i] != 0) && (forall i :: 0 <= i < |b| ==> b[i] != 0)
    requires a + ([0] + x) == b + ([0] + y)
    ensures a == b && x == y
  {
    FirstZeroEnds(a, x);
    FirstZeroEnds(b, y);
    SplitEqual(a, [0] + x, b, [0] + y);
    SplitEqual([0], x, [0], y);
  }

  /** The payload, split where its two zero bytes stand. */
  function Tail(b: Body): seq<byte> {
    Utf8(b.name) + [0] + KeyBytes(b.signing.id) + KeyBytes(b.exchange.id) + Rfc3339(b.created) + RevokedBytes(b.revoked)
  }

  lemma PayloadSplits(b: Body)
    ensures Payload(b) == Ascii(RECORD_VERSION) + (Utf8(b.id) + ([0] + Tail(b)))
  {
    hide Ascii, Utf8, KeyBytes, Rfc3339, RevokedBytes;
  }

  lemma TailInjective(b: Body, c: Body)
    requires Tail(b) == Tail(c)
    ensures b.name == c.name && b.signing == c.signing && b.exchange == c.exchange
    ensures b.created == c.created && b.revoked == c.revoked
  {
    hide Utf8, KeyBytes, Rfc3339, RevokedBytes;
    var b1, c1 := Utf8(b.name) + [0], Utf8(c.name) + [0];
    var b2, c2 := b1 + KeyBytes(b.signing.id), c1 + KeyBytes(c.signing.id);
    var b3, c3 := b2 + KeyBytes(b.exchange.id), c2 + KeyBytes(c.exchange.id);
    RevokedAtEnd(b3 + Rfc3339(b.created), b.revoked, c3 + Rfc3339(c.created), c.revoked);
    TimestampAtEnd(b3, b.created, c3, c.created);
    SplitEqualAtEnd(b2, KeyBytes(b.exchange.id), c2, KeyBytes(c.exchange.id));
    SplitEqualAtEnd(b1, KeyBytes(b.signing.id), c1, KeyBytes(c.signing.id));
    SplitEqualAtEnd(Utf8(b.name), [0], Utf8(c.name), [0]);
    KeyBytesInjective(b.signing.id, c.signing.id);
    KeyBytesInjective(b.exchange.id, c.exchange.id);
    Utf8Injective(b.name, c.name);
  }

  /**
    The layout is unambiguous for every label, zero bytes included, and every timestamp: the
    identifier ends at the first zero, and the rest is read from the end.
   */
  lemma PayloadInjective(b: Body, c: Body)
    requires ValidId(b.id) && ValidId(c.id) && Payload(b) == Payload(c)
    ensures b == c
  {
    PayloadSplits(b);
    PayloadSplits(c);
    hide Payload, Tail, Utf8, Ascii;
    var v := Ascii(RECORD_VERSION);
    SplitEqual(v, Utf8(b.id) + ([0] + Tail(b)), v, Utf8(c.id) + ([0] + Tail(c)));
    ZeroFreeAtStart(Utf8(b.id), Tail(b), Utf8(c.id), Tail(c));
    TailInjective(b, c);
    Utf8Injective(b.id, c.id);
  }

  // Signing and verifying

  /** The body of a record, or why there is none; the checks in the order they are made. */
  function ParseBody(
    id: string, name: string, keys: Keys, created: Time, revoked: Option<Time>): (r: Result<Body>)
    ensures r.Ok? ==> ValidId(r.value.id)
  {
    if !ValidId(id) then Err(InvalidDeviceRecord)
    else if !ValidLabel(name) then Err(InvalidDeviceRecord)
    else
      var signing := DecodeVerifyingKey(keys.signing, InvalidPublicKey);
      if signing.Err? then Err(signing.error)
      else
        var exchange := Decode(keys.exchange, InvalidPublicKey);
        if exchange.Err? then Err(exchange.error)
        else Ok(Body(id, name, signing.value, exchange.value, created, revoked))
  }

  function SignRecord(
    identity: Secret, id: string, name: string, keys: Keys, created: Time, revoked: Option<Time>): Result<Record>
  {
    var body := ParseBody(id, name, keys, created, revoked);
    if body.Err? then Err(body.error)
    else
      Ok(Record(RECORD_VERSION, id, name, keys, created, revoked, Encoded(Sign(identity, Payload(body.value)))))
  }

  function VerifyRecord(r: Record, identity: VerifyingKey): Outcome {
    if r.version != RECORD_VERSION then Fail(UnsupportedVersion)
    else
      var body := ParseBody(r.id, r.name, r.keys, r.created, r.revoked);
      if body.Err? then Fail(body.error)
      else
        var signature := Decode(r.signature, InvalidSignature);
        if signature.Err? then Fail(signature.error)
        else if Verifies(identity, Payload(body.value), signature.value) then Pass
        else Fail(InvalidSignature)
  }

  /** An identifier has 8 to 128 letters, digits, hyphens and underscores. */
  lemma ValidIdIs(id: string)
    ensures ValidId(id) <==>
              8 <= |Utf8(id)| <= 128
              && forall i :: 0 <= i < |Utf8(id)| ==>
                   var c := Utf8(id)[i] as char;
                   'a' <= c <= 'z' || 'A' <= c <= 'Z' || '0' <= c <= '9' || c == '-' || c == '_'
  {
    hide Utf8;
  }

  /** Why a key text is refused: not Base64, or not 32 bytes of a point. */
  ghost function KeyFault(text: VerifyingKeyText): Option<CoreError> {
    if text.NotAPoint? then Some(InvalidPublicKey) else Fault(text.key, InvalidPublicKey)
  }

  /** Why there is no body: the identifier, the label, or a key, in this order. */
  ghost function BodyFault(id: string, name: string, keys: Keys): Option<CoreError> {
    First([FaultIf(!ValidId(id), InvalidDeviceRecord),
           FaultIf(!(exists c :: c in name && c !in WHITE_SPACE) || |Utf8(name)| > 128, InvalidDeviceRecord),
           KeyFault(keys.signing), Fault(keys.exchange, InvalidPublicKey)])
  }

  lemma BodyReads(id: string, name: string, keys: Keys, created: Time, revoked: Option<Time>)
    ensures var fault := BodyFault(id, name, keys);
            if fault.Some? then ParseBody(id, name, keys, created, revoked) == Err(fault.value)
            else
              && keys.signing.KeyText? && keys.signing.key.Encoded? && keys.exchange.Encoded?
              && ParseBody(id, name, keys, created, revoked)
                 == Ok(Body(id, name, keys.signing.key.value, keys.exchange.value, created, revoked))
  {
    BlankIs(name);
    assert ValidLabel(name) <==> (exists c :: c in name && c !in WHITE_SPACE) && |Utf8(name)| <= 128;
    var a := FaultIf(!ValidId(id), InvalidDeviceRecord);
    var b := FaultIf(!(exists c :: c in name && c !in WHITE_SPACE) || |Utf8(name)| > 128, InvalidDeviceRecord);
    var c, d := KeyFault(keys.signing), Fault(keys.exchange, InvalidPublicKey);
    FourFaults(a, b, c, d);
    hide First, ValidId, ValidLabel, Utf8;
  }

  /** A signed record carries what it was made of, and a signature over its payload. */
  lemma SignWrites(identity: Secret, id: string, name: string, keys: Keys, created: Time, revoked: Option<Time>)
    ensures var r := SignRecord(identity, id, name, keys, created, revoked);
            var body := ParseBody(id, name, keys, created, revoked);
            if body.Err? then r == Err(body.error)
            else
              && r.Ok? && r.value.version == "simy-device-record-v1"
              && r.value.id == id && r.value.name == name && r.value.keys == keys
              && r.value.created == created && r.value.revoked == revoked
              && r.value.signature == Encoded(Signed(VerifyingKey(identity), Payload(body.value)))
  {
    hide Payload, ParseBody;
  }

  /** A record verifies, or is refused for the first of these reasons. */
  lemma VerifyReads(r: Record, identity: VerifyingKey)
    ensures var body := ParseBody(r.id, r.name, r.keys, r.created, r.revoked);
            var fault := First([FaultIf(r.version != "simy-device-record-v1", UnsupportedVersion),
                                if body.Err? then Some(body.error) else None, Fault(r.signature, InvalidSignature)]);
            if fault.Some? then VerifyRecord(r, identity) == Fail(fault.value)
            else if body.Ok? && r.signature == Encoded(Signed(identity, Payload(body.value))) then
              VerifyRecord(r, identity) == Pass
            else VerifyRecord(r, identity) == Fail(InvalidSignature)
  {
    var body := ParseBody(r.id, r.name, r.keys, r.created, r.revoked);
    ThreeFaults(FaultIf(r.version != "simy-device-record-v1", UnsupportedVersion),
                if body.Err? then Some(body.error) else None, Fault(r.signature, InvalidSignature));
    hide First, Payload, ParseBody;
  }

  lemma BodyNamesKeys(
    id: string, name: string, keys: Keys, created: Time, revoked: Option<Time>,
    id': string, name': string, keys': Keys, created': Time, revoked': Option<Time>)
    requires ParseBody(id, name, keys, created, revoked).Ok?
    requires ParseBody(id', name', keys', created', revoked') == ParseBody(id, name, keys, created, revoked)
    ensures id' == id && name' == name && keys' == keys && created' == created && revoked' == revoked
  {
  }

  /**
    Around the signature of a signed record, exactly that record verifies, and only under the
    identity key that signed it: no field can be changed.
   */
  lemma OnlyTheSignedRecordVerifies(
    secret: Secret, id: string, name: string, keys: Keys, created: Time, revoked: Option<Time>,
    r: Record, identity: VerifyingKey)
    requires SignRecord(secret, id, name, keys, created, revoked).Ok?
    requires r.signature == SignRecord(secret, id, name, keys, created, revoked).value.signature
    ensures var record := SignRecord(secret, id, name, keys, created, revoked).value;
            VerifyRecord(r, identity).Pass? <==> r == record && identity == VerifyingKey(secret)
  {
    var body := ParseBody(id, name, keys, created, revoked);
    var other := ParseBody(r.id, r.name, r.keys, r.created, r.revoked);
    if VerifyRecord(r, identity).Pass? {
      hide Payload, ParseBody;
      PayloadInjective(body.value, other.value);
      BodyNamesKeys(id, name, keys, created, revoked, r.id, r.name, r.keys, r.created, r.revoked);
    }
  }
}
