/** The text layer under the header lines: UTF-8 validation (`read_line`),
    Unicode trimming (`str::trim`) and decimal parsing (`str::parse::<usize>`).
    Text is a sequence of code points. */
module Utf8 {
  import opened Wrappers

  type byte = x: int | 0 <= x < 256
  type Text = seq<int>

  const USIZE_MAX: nat := 0xFFFF_FFFF_FFFF_FFFF

  predicate Continuation(b: byte) { 0x80 <= b <= 0xBF }

  /** Length of the well-formed UTF-8 sequence that opens `b`, or 0 when there is none. */
  function HeadLength(b: seq<byte>): (n: nat)
    requires b != []
    ensures n <= 4 && n <= |b|
  {
    if b[0] < 0x80 then 1
    else if 0xC2 <= b[0] <= 0xDF && |b| >= 2 && Continuation(b[1]) then 2
    else if 0xE0 <= b[0] <= 0xEF && |b| >= 3 && Continuation(b[1]) && Continuation(b[2])
            && (b[0] == 0xE0 ==> b[1] >= 0xA0) && (b[0] == 0xED ==> b[1] <= 0x9F) then 3
    else if 0xF0 <= b[0] <= 0xF4 && |b| >= 4
            && Continuation(b[1]) && Continuation(b[2]) && Continuation(b[3])
            && (b[0] == 0xF0 ==> b[1] >= 0x90) && (b[0] == 0xF4 ==> b[1] <= 0x8F) then 4
    else 0
  }

  function HeadPoint(b: seq<byte>): int
    requires b != [] && HeadLength(b) > 0
  {
    var p: seq<int> := b;
    match HeadLength(b)
    case 1 => p[0]
    case 2 => (p[0] - 0xC0) * 0x40 + (p[1] - 0x80)
    case 3 => (p[0] - 0xE0) * 0x1000 + (p[1] - 0x80) * 0x40 + (p[2] - 0x80)
    case _ => (p[0] - 0xF0) * 0x4_0000 + (p[1] - 0x80) * 0x1000 + (p[2] - 0x80) * 0x40 + (p[3] - 0x80)
  }

  /** The decoded line, or `None` when the bytes are not UTF-8 (`read_line` then fails). */
  function DecodeUtf8(b: seq<byte>): Option<Text>
  {
    if b == [] then Some([])
    else
      var n := HeadLength(b);
      if n == 0 then None
      else match DecodeUtf8(b[n..])
        case None => None
        case Some(t) => Some([HeadPoint(b)] + t)
  }

  ghost predicate IsAscii(b: seq<byte>) { forall i :: 0 <= i < |b| ==> b[i] < 0x80 }

  lemma {:induction false} AsciiDecodesToItself(b: seq<byte>)
    requires IsAscii(b)
    ensures DecodeUtf8(b) == Some(b)
  {
    if b != [] {
      AsciiDecodesToItself(b[1..]);
      assert [b[0]] + b[1..] == b;
    }
  }

  /** `char::is_whitespace`. */
  predicate IsWhite(c: int)
  {
    9 <= c <= 13 || c == 0x20 || c == 0x85 || c == 0xA0 || c == 0x1680 || 0x2000 <= c <= 0x200A
    || c == 0x2028 || c == 0x2029 || c == 0x202F || c == 0x205F || c == 0x3000
  }

  function TrimStart(t: Text): Text
  {
    if t != [] && IsWhite(t[0]) then TrimStart(t[1..]) else t
  }

  function TrimEnd(t: Text): Text
  {
    if t != [] && IsWhite(t[|t| - 1]) then TrimEnd(t[..|t| - 1]) else t
  }

  function Trim(t: Text): Text { TrimEnd(TrimStart(t)) }

  predicate IsDigit(c: int) { 48 <= c <= 57 }

  /** The decimal digits of `n`, as `format!` prints a `usize`. */
  function Decimal(n: nat): (t: seq<byte>)
    ensures |t| > 0 && forall i :: 0 <= i < |t| ==> IsDigit(t[i])
  {
    if n < 10 then [48 + n] else Decimal(n / 10) + [48 + n % 10]
  }

  /** The value of a digit string, `None` when some character is no digit. */
  function DigitsValue(t: Text): Option<nat>
  {
    if t == [] then Some(0)
    else
      var d := t[|t| - 1];
      match DigitsValue(t[..|t| - 1])
      case None => None
      case Some(v) => if IsDigit(d) then Some(v * 10 + (d - 48)) else None
  }

  /** `str::parse::<usize>().ok()`: an optional plus sign, at least one digit, no overflow. */
  function ParseUsize(t: Text): Option<nat>
  {
    var digits := if |t| > 1 && t[0] == 43 then t[1..] else t;
    if digits == [] then None
    else match DigitsValue(digits)
      case None => None
      case Some(v) => if v <= USIZE_MAX then Some(v) else None
  }

  lemma {:induction false} DecimalValue(n: nat)
    ensures DigitsValue(Decimal(n)) == Some(n)
  {
    var t: Text := Decimal(n);
    if n < 10 {
      assert t[..|t| - 1] == [];
    } else {
      DecimalValue(n / 10);
      assert t[..|t| - 1] == Decimal(n / 10);
      assert t[|t| - 1] == 48 + n % 10;
    }
  }

  /** The printed length parses back to itself exactly when it fits a `usize`. */
  lemma ParsePrint(n: nat)
    ensures ParseUsize(Decimal(n)) == if n <= USIZE_MAX then Some(n) else None
  {
    DecimalValue(n);
  }
}
