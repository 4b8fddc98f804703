/** Byte strings: the record separator, the byte order of the key-value store,
    big-endian integers and UTF-8. */
module Bytes {

  type Byte = b: int | 0 <= b < 256 witness 0

  /** A key of the store. */
  type Key = seq<Byte>

  /** The record separator, a byte that no UTF-8 text contains. */
  const SEP: Byte := 0xFF

  const U64_LIMIT: nat := 0x1_0000_0000_0000_0000
  const U64_MAX: nat := U64_LIMIT - 1
  const I64_LIMIT: int := 0x8000_0000_0000_0000

  /** Position of the first separator at or after pos, or the end of the buffer. */
  function RecordEnd(buf: seq<Byte>, pos: nat): (end: nat)
    requires pos <= |buf|
    ensures pos <= end <= |buf|
    ensures SEP !in buf[pos..end]
    ensures end < |buf| ==> buf[end] == SEP
    decreases |buf| - pos
  {
    if pos == |buf| || buf[pos] == SEP then pos
    else
      var end := RecordEnd(buf, pos + 1);
      assert buf[pos..end] == [buf[pos]] + buf[pos + 1..end];
      end
  }

  /** A record that holds no separator ends where a separator or the end of the buffer follows. */
  lemma {:induction false} RecordEndAt(buf: seq<Byte>, pos: nat, end: nat)
    requires pos <= end <= |buf|
    requires SEP !in buf[pos..end]
    requires end == |buf| || buf[end] == SEP
    ensures RecordEnd(buf, pos) == end
    decreases end - pos
  {
    if pos < end {
      assert buf[pos..end] == [buf[pos]] + buf[pos + 1..end];
      RecordEndAt(buf, pos + 1, end);
    }
  }

  // ----- Byte order -----

  /** The order in which the store keeps its keys. */
  predicate Less(a: seq<Byte>, b: seq<Byte>)
  {
    b != [] && (a == [] || a[0] < b[0] || (a[0] == b[0] && Less(a[1..], b[1..])))
  }

  lemma {:induction false} LessIrreflexive(a: seq<Byte>)
    ensures !Less(a, a)
  {
    if a != [] { LessIrreflexive(a[1..]); }
  }

  lemma {:induction false} LessTransitive(a: seq<Byte>, b: seq<Byte>, c: seq<Byte>)
    requires Less(a, b) && Less(b, c)
    ensures Less(a, c)
  {
    if a != [] && a[0] == b[0] && b[0] == c[0] {
      LessTransitive(a[1..], b[1..], c[1..]);
    }
  }

  /** a is less than b, and the bytes before position i do not tell them apart. */
  predicate DecidedAt(a: seq<Byte>, b: seq<Byte>, i: nat)
  {
    i <= |a| && i < |b| && a[..i] == b[..i] && (i == |a| || a[i] < b[i])
  }

  /** The first byte that differs decides; a proper prefix comes first. */
  lemma {:induction false} LessIff(a: seq<Byte>, b: seq<Byte>)
    ensures Less(a, b) <==> exists i: nat :: DecidedAt(a, b, i)
  {
    if Less(a, b) {
      if a == [] || a[0] < b[0] {
        assert DecidedAt(a, b, 0);
      } else {
        LessIff(a[1..], b[1..]);
        var i: nat :| DecidedAt(a[1..], b[1..], i);
        assert a[..i + 1] == [a[0]] + a[1..][..i] && b[..i + 1] == [b[0]] + b[1..][..i];
        assert DecidedAt(a, b, i + 1);
      }
    }
    if i: nat :| DecidedAt(a, b, i) {
      if i > 0 {
        assert a[0] == a[..i][0] == b[..i][0] == b[0];
        assert a[1..][..i - 1] == a[..i][1..] && b[1..][..i - 1] == b[..i][1..];
        assert DecidedAt(a[1..], b[1..], i - 1);
        LessIff(a[1..], b[1..]);
      }
    }
  }

  lemma {:induction false} LessAfterCommonPrefix(p: seq<Byte>, a: seq<Byte>, b: seq<Byte>)
    ensures Less(p + a, p + b) == Less(a, b)
  {
    if p == [] {
      assert p + a == a && p + b == b;
    } else {
      assert (p + a)[1..] == p[1..] + a && (p + b)[1..] == p[1..] + b;
      LessAfterCommonPrefix(p[1..], a, b);
    }
  }

  /** Strings of one length that differ already decide the order, whatever follows them. */
  lemma {:induction false} LessIgnoresTails(a: seq<Byte>, b: seq<Byte>, x: seq<Byte>, y: seq<Byte>)
    requires |a| == |b| && Less(a, b)
    ensures Less(a + x, b + y)
  {
    assert (a + x)[1..] == a[1..] + x && (b + y)[1..] == b[1..] + y;
    if a[0] == b[0] {
      LessIgnoresTails(a[1..], b[1..], x, y);
    }
  }

  /** A prefix never sorts after its extension. */
  lemma {:induction false} PrefixNotAfter(p: seq<Byte>, k: seq<Byte>)
    requires p <= k
    ensures !Less(k, p)
  {
    if p != [] { PrefixNotAfter(p[1..], k[1..]); }
  }

  /** Whatever lies at or after p and before an extension of p extends p: an interval. */
  lemma {:induction false} PrefixInterval(p: seq<Byte>, b: seq<Byte>, c: seq<Byte>)
    requires !Less(b, p) && Less(b, c) && p <= c
    ensures p <= b
  {
    if p != [] {
      assert b != [];
      assert p[0] == c[0] && b[0] == p[0];
      PrefixInterval(p[1..], b[1..], c[1..]);
      assert p == [p[0]] + p[1..] && b == [b[0]] + b[1..];
    }
  }

  // ----- Big-endian integers -----

  function Pow256(w: nat): (p: nat)
    ensures p > 0
  {
    if w == 0 then 1 else 256 * Pow256(w - 1)
  }

  /** The w low bytes of n, most significant first. */
  function BigEndian(n: nat, w: nat): (r: seq<Byte>)
    ensures |r| == w
  {
    if w == 0 then [] else BigEndian(n / 256, w - 1) + [n % 256]
  }

  function FromBigEndian(s: seq<Byte>): nat
  {
    if s == [] then 0 else FromBigEndian(s[..|s| - 1]) * 256 + s[|s| - 1]
  }

  lemma {:induction false} BigEndianRoundTrip(n: nat, w: nat)
    requires n < Pow256(w)
    ensures FromBigEndian(BigEndian(n, w)) == n
  {
    if w > 0 {
      BigEndianRoundTrip(n / 256, w - 1);
      var r := BigEndian(n, w);
      assert r[..w - 1] == BigEndian(n / 256, w - 1);
    }
  }

  /** Big-endian strings of one width sort as their numbers do. */
  lemma {:induction false} BigEndianOrder(m: nat, n: nat, w: nat)
    requires m < n < Pow256(w)
    ensures Less(BigEndian(m, w), BigEndian(n, w))
  {
    var a, b := BigEndian(m / 256, w - 1), BigEndian(n / 256, w - 1);
    if m / 256 < n / 256 {
      BigEndianOrder(m / 256, n / 256, w - 1);
      LessIgnoresTails(a, b, [m % 256], [n % 256]);
    } else {
      LessAfterCommonPrefix(a, [m % 256], [n % 256]);
    }
  }

  lemma Pow256Of8()
    ensures Pow256(8) == U64_LIMIT
  {
    assert Pow256(4) == 0x1_0000_0000;
  }

  // ----- UTF-8 (section 4 of RFC 3629) -----

  predicate Tail(b: Byte) { 0x80 <= b <= 0xBF }

  /** Length of the well-formed character that s starts with, 0 if there is none. */
  function CharWidth(s: seq<Byte>): (n: nat)
    requires s != []
    ensures n <= |s|
    ensures forall i :: 0 <= i < n ==> s[i] != SEP
    ensures forall i :: 1 <= i < n ==> s[i] >= 0x80
    ensures n > 1 ==> s[0] >= 0x80
  {
    if s[0] <= 0x7F then 1
    else if 0xC2 <= s[0] <= 0xDF && |s| >= 2 && Tail(s[1]) then 2
    else if 0xE0 <= s[0] <= 0xEF && |s| >= 3 && Tail(s[1]) && Tail(s[2])
            && (s[0] == 0xE0 ==> s[1] >= 0xA0) && (s[0] == 0xED ==> s[1] <= 0x9F) then 3
    else if 0xF0 <= s[0] <= 0xF4 && |s| >= 4 && Tail(s[1]) && Tail(s[2]) && Tail(s[3])
            && (s[0] == 0xF0 ==> s[1] >= 0x90) && (s[0] == 0xF4 ==> s[1] <= 0x8F) then 4
    else 0
  }

  predicate Utf8(s: seq<Byte>)
  {
    s == [] || (CharWidth(s) > 0 && Utf8(s[CharWidth(s)..]))
  }

  // ----- The text that bytes stand for -----

  /** A Unicode scalar value: a code point that is no surrogate. */
  type Scalar = c: int | 0 <= c <= 0xD7FF || 0xE000 <= c <= 0x10FFFF witness 0

  /** The bytes of one character: the scalar value, six bits to each byte after the first. */
  function CharBytes(c: Scalar): (r: seq<Byte>)
    ensures |r| == if c < 0x80 then 1 else if c < 0x800 then 2 else if c < 0x1_0000 then 3 else 4
  {
    var d, e, f := c / 0x40, c / 0x40 / 0x40, c / 0x40 / 0x40 / 0x40;
    if c < 0x80 then [c]
    else if c < 0x800 then [0xC0 + d, 0x80 + c % 0x40]
    else if c < 0x1_0000 then [0xE0 + e, 0x80 + d % 0x40, 0x80 + c % 0x40]
    else [0xF0 + f, 0x80 + e % 0x40, 0x80 + d % 0x40, 0x80 + c % 0x40]
  }

  function TextBytes(text: seq<Scalar>): seq<Byte>
  {
    if text == [] then [] else CharBytes(text[0]) + TextBytes(text[1..])
  }

  /** The character that a text starts with is as wide as its bytes. */
  lemma CharIsRead(c: Scalar, rest: seq<Byte>)
    ensures CharWidth(CharBytes(c) + rest) == |CharBytes(c)|
  {
    var r := CharBytes(c);
    CharWidthIsLocal(r + rest, |r|);
    assert (r + rest)[..|r|] == r;
  }

  lemma SixBits(high: nat, tail: int) returns (n: nat)
    requires 0x80 <= tail < 0xC0
    ensures n == high * 0x40 + (tail - 0x80) && n / 0x40 == high && 0x80 + n % 0x40 == tail
  {
    n := high * 0x40 + (tail - 0x80);
  }

  /** The first byte and the tail bytes after it are those of the scalar value that their
      bits make up. */
  lemma TwoBytes(a: int, b: int) returns (c: nat)
    requires 0xC2 <= a <= 0xDF && 0x80 <= b < 0xC0
    ensures 0x80 <= c < 0x800 && CharBytes(c) == [a, b]
  {
    c := SixBits(a - 0xC0, b);
  }

  lemma ThreeBytes(a: int, b: int, t: int) returns (c: Scalar)
    requires 0xE0 <= a <= 0xEF && 0x80 <= b < 0xC0 && 0x80 <= t < 0xC0
    requires (a == 0xE0 ==> b >= 0xA0) && (a == 0xED ==> b <= 0x9F)
    ensures CharBytes(c) == [a, b, t]
  {
    var d := SixBits(a - 0xE0, b);
    c := SixBits(d, t);
  }

  lemma FourBytes(a: int, b: int, t: int, u: int) returns (c: Scalar)
    requires 0xF0 <= a <= 0xF4 && 0x80 <= b < 0xC0 && 0x80 <= t < 0xC0 && 0x80 <= u < 0xC0
    requires (a == 0xF0 ==> b >= 0x90) && (a == 0xF4 ==> b <= 0x8F)
    ensures CharBytes(c) == [a, b, t, u]
  {
    var e := SixBits(a - 0xF0, b);
    var d := SixBits(e, t);
    c := SixBits(d, u);
  }

  /** What is taken for a character is the bytes of one. */
  lemma WidthIsChar(s: seq<Byte>) returns (c: Scalar)
    requires s != [] && CharWidth(s) > 0
    ensures s[..CharWidth(s)] == CharBytes(c)
  {
    hide CharBytes;
    match CharWidth(s) {
      case 1 =>
        c := s[0];
        OneByte(c);
      case 2 => c := TwoBytes(s[0], s[1]);
      case 3 => c := ThreeBytes(s[0], s[1], s[2]);
      case _ => c := FourBytes(s[0], s[1], s[2], s[3]);
    }
  }

  lemma OneByte(c: Scalar)
    requires c < 0x80
    ensures CharBytes(c) == [c]
  {
  }

  lemma {:induction false} TextIsUtf8(text: seq<Scalar>)
    ensures Utf8(TextBytes(text))
  {
    if text != [] {
      hide CharWidth, CharBytes;
      var first, rest := CharBytes(text[0]), TextBytes(text[1..]);
      CharIsRead(text[0], rest);
      TextIsUtf8(text[1..]);
      assert (first + rest)[|first|..] == rest;
    }
  }

  lemma {:induction false} Utf8IsText(s: seq<Byte>) returns (text: seq<Scalar>)
    requires Utf8(s)
    ensures TextBytes(text) == s
  {
    if s == [] {
      text := [];
    } else {
      hide CharWidth, CharBytes;
      var c := WidthIsChar(s);
      var rest := Utf8IsText(s[CharWidth(s)..]);
      text := [c] + rest;
      assert s == s[..CharWidth(s)] + s[CharWidth(s)..];
    }
  }

  /** Bytes are well formed if and only if they are the bytes of some characters. */
  lemma Utf8Iff(s: seq<Byte>)
    ensures Utf8(s) <==> exists text :: TextBytes(text) == s
  {
    if Utf8(s) {
      var text := Utf8IsText(s);
      assert TextBytes(text) == s;
    }
    if text :| TextBytes(text) == s { TextIsUtf8(text); }
  }

  lemma {:induction false} Utf8HasNoSep(s: seq<Byte>)
    requires Utf8(s)
    ensures SEP !in s
  {
    if s != [] {
      var n := CharWidth(s);
      Utf8HasNoSep(s[n..]);
      assert s == s[..n] + s[n..];
    }
  }

  /** The width of the first character depends on its own bytes only. */
  lemma CharWidthIsLocal(s: seq<Byte>, m: nat)
    requires 0 < m <= |s|
    requires 0 < CharWidth(s) <= m || 0 < CharWidth(s[..m])
    ensures CharWidth(s[..m]) == CharWidth(s)
  {
  }

  /** Texts join up to a text. */
  lemma {:induction false} Utf8Joined(a: seq<Byte>, b: seq<Byte>)
    requires Utf8(a) && Utf8(b)
    ensures Utf8(a + b)
  {
    if a == [] {
      assert a + b == b;
    } else {
      assert (a + b)[..|a|] == a;
      CharWidthIsLocal(a + b, |a|);
      var n := CharWidth(a);
      assert (a + b)[n..] == a[n..] + b;
      Utf8Joined(a[n..], b);
    }
  }

  /** Text may be split before any ASCII character. */
  lemma {:induction false} Utf8SplitAtAscii(s: seq<Byte>, i: nat)
    requires Utf8(s) && i < |s| && s[i] < 0x80
    ensures Utf8(s[..i]) && Utf8(s[i..])
  {
    if i > 0 {
      var n := CharWidth(s);
      Utf8SplitAtAscii(s[n..], i - n);
      assert s[..i][n..] == s[n..][..i - n];
      assert s[i..] == s[n..][i - n..];
      CharWidthIsLocal(s, i);
    } else {
      assert s[i..] == s;
    }
  }
}
