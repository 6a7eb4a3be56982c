/**
 * Definitions shared by every component of the desk model: bytes,
 * optional values, the newline search used by every line-oriented serial
 * session, and the decimal text that the firmware writes with Python's
 * `str` and the hosts read back with Rust's `parse::<u32>()` /
 * `parse::<i32>()`.
 */
module Common {

  /** One byte on a serial wire or in a register buffer. */
  type byte = x: int | 0 <= x < 256

  datatype Option<T> = None | Some(value: T)

  /** The line terminator of every serial protocol in the system. */
  const NEWLINE: byte := 10

  const U32_LIMIT: int := 0x1_0000_0000
  const I32_MIN: int := -0x8000_0000
  const I32_MAX: int := 0x7FFF_FFFF

  /** A suffix of a sequence is its first element followed by the rest. */
  lemma SuffixSplits<T>(s: seq<T>, i: nat)
    requires i < |s|
    ensures s[i..] == [s[i]] + s[i + 1..]
  {
  }

  predicate NoNewline(s: seq<byte>)
  {
    forall i :: 0 <= i < |s| ==> s[i] != NEWLINE
  }

  /**
   * `iter().position(|&c| c == b'\n')`: the index of the first newline,
   * or None when the buffer holds no complete line.
   */
  function FirstNewline(s: seq<byte>): (r: Option<nat>)
    ensures r.None? <==> NoNewline(s)
    ensures r.Some? ==> r.value < |s| && s[r.value] == NEWLINE && NoNewline(s[..r.value])
  {
    if |s| == 0 then None
    else if s[0] == NEWLINE then Some(0)
    else match FirstNewline(s[1..])
      case None => None
      case Some(k) =>
        assert s[1..][..k] == s[1..k + 1];
        Some(k + 1)
  }

  // ---------------------------------------------------------------------
  // Decimal text
  // ---------------------------------------------------------------------

  predicate IsDigit(c: byte)
  {
    48 <= c <= 57
  }

  predicate AllDigits(s: seq<byte>)
  {
    forall i :: 0 <= i < |s| ==> IsDigit(s[i])
  }

  function DigitValue(c: byte): nat
    requires IsDigit(c)
  {
    c - 48
  }

  function DigitByte(d: nat): (c: byte)
    requires d < 10
    ensures IsDigit(c) && DigitValue(c) == d
  {
    48 + d
  }

  /** The value of a string of decimal digits, most significant first. */
  function DigitsValue(s: seq<byte>): nat
    requires AllDigits(s)
  {
    if |s| == 0 then 0
    else DigitsValue(s[..|s| - 1]) * 10 + DigitValue(s[|s| - 1])
  }

  /** Python's `str(n)` for a natural number: digits, no leading zero. */
  function NatText(n: nat): (r: seq<byte>)
    ensures |r| > 0 && AllDigits(r)
    ensures |r| > 1 ==> r[0] != 48
  {
    if n < 10 then [DigitByte(n)]
    else NatText(n / 10) + [DigitByte(n % 10)]
  }

  /** Python's `str(i)` for any integer: a minus sign, then the digits. */
  function IntText(i: int): (r: seq<byte>)
    ensures |r| > 0
    ensures i < 0 <==> r[0] == 45
  {
    if i < 0 then [45] + NatText(-i) else NatText(i)
  }

  lemma {:induction false} NatTextValue(n: nat)
    ensures DigitsValue(NatText(n)) == n
    decreases n
  {
    if n >= 10 {
      var s := NatText(n / 10) + [DigitByte(n % 10)];
      assert s[..|s| - 1] == NatText(n / 10);
      NatTextValue(n / 10);
    }
  }

  /**
   * Rust's `str::parse::<u32>()`: an optional `+`, at least one digit,
   * nothing else, and a value below 2^32; anything else is an error.
   */
  function ParseU32(s: seq<byte>): (r: Option<nat>)
    ensures r.Some? ==> r.value < U32_LIMIT
    ensures r.Some? && |s| > 0 && s[0] != 43 ==> AllDigits(s) && r.value == DigitsValue(s)
    ensures |s| == 0 ==> r.None?
  {
    var digits := if |s| > 0 && s[0] == 43 then s[1..] else s;
    if |digits| > 0 && AllDigits(digits) && DigitsValue(digits) < U32_LIMIT then
      Some(DigitsValue(digits))
    else None
  }

  /**
   * Rust's `str::parse::<i32>()`: an optional `+` or `-`, at least one
   * digit, and a value in [-2^31, 2^31 - 1].
   */
  function ParseI32(s: seq<byte>): (r: Option<int>)
    ensures r.Some? ==> I32_MIN <= r.value <= I32_MAX
    ensures |s| == 0 ==> r.None?
  {
    var negative := |s| > 0 && s[0] == 45;
    var digits := if |s| > 0 && (s[0] == 43 || s[0] == 45) then s[1..] else s;
    if |digits| > 0 && AllDigits(digits) then
      var v := if negative then -(DigitsValue(digits) as int) else DigitsValue(digits) as int;
      if I32_MIN <= v <= I32_MAX then Some(v) else None
    else None
  }

  /**
   * The bytes of a text that is pure ASCII; None otherwise. Every
   * character Rust's integer parsers accept is ASCII, so any other text
   * fails to parse.
   */
  function AsciiBytes(s: string): (r: Option<seq<byte>>)
    ensures r.Some? <==> forall i :: 0 <= i < |s| ==> s[i] as int < 128
    ensures r.Some? ==> |r.value| == |s| && forall i :: 0 <= i < |s| ==> r.value[i] == s[i] as int
  {
    if |s| == 0 then Some([])
    else if s[|s| - 1] as int >= 128 then None
    else match AsciiBytes(s[..|s| - 1])
      case None =>
        var k :| 0 <= k < |s| - 1 && s[..|s| - 1][k] as int >= 128;
        assert s[k] == s[..|s| - 1][k];
        None
      case Some(front) => Some(front + [s[|s| - 1] as int])
  }

  /** `str::parse::<u32>()` on a Rust string. */
  function ParseU32Text(s: string): (r: Option<nat>)
    ensures r.Some? ==> r.value < U32_LIMIT
    ensures r.Some? ==> AsciiBytes(s).Some? && ParseU32(AsciiBytes(s).value) == r
  {
    match AsciiBytes(s)
      case None => None
      case Some(b) => ParseU32(b)
  }

  /** The characters of `str(n)`. */
  function NatString(n: nat): (r: string)
    ensures |r| == |NatText(n)| && forall i :: 0 <= i < |r| ==> r[i] as int == NatText(n)[i]
  {
    seq(|NatText(n)|, i requires 0 <= i < |NatText(n)| => NatText(n)[i] as char)
  }

  /** What Python's `str` writes for a u32, Rust reads back from the text. */
  lemma NatStringParsesAsU32(n: nat)
    requires n < U32_LIMIT
    ensures ParseU32Text(NatString(n)) == Some(n)
  {
    var b := AsciiBytes(NatString(n));
    assert b.Some?;
    assert b.value == NatText(n);
    NatTextParsesAsU32(n);
  }

  /** What Python's `str` writes for a u32, Rust's parser reads back. */
  lemma NatTextParsesAsU32(n: nat)
    requires n < U32_LIMIT
    ensures ParseU32(NatText(n)) == Some(n)
  {
    NatTextValue(n);
  }

  /** What Python's `str` writes for an i32, Rust's parser reads back. */
  lemma IntTextParsesAsI32(i: int)
    requires I32_MIN <= i <= I32_MAX
    ensures ParseI32(IntText(i)) == Some(i)
  {
    if i < 0 {
      NegativeTextParses(i);
    } else {
      NatTextValue(i);
      var s := NatText(i);
      assert s[0] != 43 && s[0] != 45;
    }
  }

  lemma NegativeTextParses(i: int)
    requires I32_MIN <= i < 0
    ensures ParseI32([45] + NatText(-i)) == Some(i)
  {
    var t := NatText(-i);
    var s := [45] + t;
    NatTextValue(-i);
    assert s[0] == 45;
    assert s[1..] == t;
    assert DigitsValue(s[1..]) == -i;
  }

  // ---------------------------------------------------------------------
  // UTF-8
  // ---------------------------------------------------------------------

  predicate InRange(c: byte, lo: int, hi: int)
  {
    lo <= c <= hi
  }

  /**
   * Well-formed UTF-8 (`str::from_utf8` succeeds): the byte sequences of
   * section 3 of RFC 3629, with no overlong forms, no surrogates and
   * nothing above U+10FFFF.
   */
  predicate ValidUtf8(s: seq<byte>)
    decreases |s|
  {
    if |s| == 0 then true
    else if s[0] < 0x80 then ValidUtf8(s[1..])
    else if InRange(s[0], 0xC2, 0xDF) then
      |s| >= 2 && InRange(s[1], 0x80, 0xBF) && ValidUtf8(s[2..])
    else if InRange(s[0], 0xE0, 0xEF) then
      |s| >= 3 &&
      (if s[0] == 0xE0 then InRange(s[1], 0xA0, 0xBF)
       else if s[0] == 0xED then InRange(s[1], 0x80, 0x9F)
       else InRange(s[1], 0x80, 0xBF)) &&
      InRange(s[2], 0x80, 0xBF) && ValidUtf8(s[3..])
    else if InRange(s[0], 0xF0, 0xF4) then
      |s| >= 4 &&
      (if s[0] == 0xF0 then InRange(s[1], 0x90, 0xBF)
       else if s[0] == 0xF4 then InRange(s[1], 0x80, 0x8F)
       else InRange(s[1], 0x80, 0xBF)) &&
      InRange(s[2], 0x80, 0xBF) && InRange(s[3], 0x80, 0xBF) && ValidUtf8(s[4..])
    else false
  }

  predicate Ascii(s: seq<byte>)
  {
    forall i :: 0 <= i < |s| ==> s[i] < 0x80
  }

  /** Text made of ASCII bytes, such as every shorthand line, is valid UTF-8. */
  lemma {:induction false} AsciiIsUtf8(s: seq<byte>)
    requires Ascii(s)
    ensures ValidUtf8(s)
    decreases |s|
  {
    if |s| > 0 {
      AsciiIsUtf8(s[1..]);
    }
  }

  /** A byte in 0x80-0xC1 cannot start a UTF-8 sequence: a continuation byte or an overlong lead byte. */
  lemma ContinuationByteInvalid(s: seq<byte>)
    requires |s| > 0 && InRange(s[0], 0x80, 0xC1)
    ensures !ValidUtf8(s)
  {
  }

  // ---------------------------------------------------------------------
  // Once-a-day display refresh
  // ---------------------------------------------------------------------

  /**
   * The regeneration gate of the puck and e-ink `draw` functions: redraw
   * when nothing was drawn yet, when the `%m-%d` date text changed, or when
   * key two was pressed.
   */
  predicate Redraws(last: Option<string>, current: string, keyTwoPressed: bool)
  {
    last.None? || last.value != current || keyTwoPressed
  }

  /** Having drawn for a date, the gate stays shut until the date or the key changes it. */
  lemma RedrawsOncePerDate(current: string, next: string, keyTwoPressed: bool)
    ensures Redraws(Some(current), next, keyTwoPressed) <==> next != current || keyTwoPressed
  {
  }

  /**
   * The strict lexicographic order of Rust's `String::cmp` (byte-wise for
   * UTF-8, hence code-point-wise) and of Python's `str` comparison: a
   * proper prefix comes first.
   */
  predicate NameLess(a: string, b: string)
    decreases |a|
  {
    if |a| == 0 then |b| > 0
    else if |b| == 0 then false
    else if a[0] != b[0] then a[0] < b[0]
    else NameLess(a[1..], b[1..])
  }

  lemma {:induction false} NameLessIrreflexive(a: string)
    ensures !NameLess(a, a)
    decreases |a|
  {
    if |a| > 0 {
      NameLessIrreflexive(a[1..]);
    }
  }

  /** Two different names are always ordered one way or the other. */
  lemma {:induction false} NameLessTotal(a: string, b: string)
    ensures a == b || NameLess(a, b) || NameLess(b, a)
    decreases |a|
  {
    if |a| > 0 && |b| > 0 && a[0] == b[0] {
      NameLessTotal(a[1..], b[1..]);
      if a[1..] == b[1..] {
        assert a == [a[0]] + a[1..] && b == [b[0]] + b[1..];
      }
    }
  }

  lemma {:induction false} NameLessTransitive(a: string, b: string, c: string)
    requires NameLess(a, b) && NameLess(b, c)
    ensures NameLess(a, c)
    decreases |a|
  {
    if |a| > 0 && a[0] == b[0] && b[0] == c[0] {
      NameLessTransitive(a[1..], b[1..], c[1..]);
    }
  }

  /** "Not after" is transitive too, so the running maximum stays a maximum. */
  lemma NotLessTransitive(a: string, b: string, c: string)
    requires !NameLess(a, b) && !NameLess(b, c)
    ensures !NameLess(a, c)
  {
    if NameLess(a, c) {
      NameLessTotal(b, c);
      if NameLess(c, b) {
        NameLessTransitive(a, c, b);
      }
    }
  }

  // ---------------------------------------------------------------------
  // Bits of a natural number
  // ---------------------------------------------------------------------

  /** Bit `i` of a number, counting from the least significant. */
  function Bit(value: nat, i: nat): bool
  {
    if i == 0 then value % 2 == 1 else Bit(value / 2, i - 1)
  }

  function Pow2(i: nat): (r: nat)
    ensures r > 0
  {
    if i == 0 then 1 else 2 * Pow2(i - 1)
  }

  /** Bitwise and, one binary digit at a time. */
  function BitAnd(x: nat, y: nat): nat
  {
    if x == 0 || y == 0 then 0 else 2 * BitAnd(x / 2, y / 2) + (x % 2) * (y % 2)
  }

  /** And-ing with the single-bit mask `2^i` keeps exactly bit `i`. */
  lemma {:induction false} AndSingleBit(x: nat, i: nat)
    ensures BitAnd(x, Pow2(i)) == if Bit(x, i) then Pow2(i) else 0
  {
    if i == 0 {
    } else if x == 0 {
      ZeroHasNoBits(i);
    } else {
      assert Pow2(i) / 2 == Pow2(i - 1) && Pow2(i) % 2 == 0;
      AndSingleBit(x / 2, i - 1);
    }
  }

  lemma {:induction false} ZeroHasNoBits(i: nat)
    ensures !Bit(0, i)
  {
    if i > 0 {
      ZeroHasNoBits(i - 1);
    }
  }
}
