/** What the text layer means: UTF-8 against an encoder (RFC 3629, section 3), trimming by positions,
    numbers by their decimal places. */
module TextTheorems {
  import opened Wrappers
  import opened Utf8

  // ---- UTF-8 ----------------------------------------------------------------

  /** A Unicode scalar value. */
  predicate Scalar(c: int) { 0 <= c < 0xD800 || 0xE000 <= c < 0x11_0000 }

  function EncodePoint(c: int): (b: seq<byte>)
    requires Scalar(c)
    ensures 1 <= |b| <= 4
  {
    if c < 0x80 then [c]
    else if c < 0x800 then [0xC0 + c / 0x40, 0x80 + c % 0x40]
    else if c < 0x1_0000 then [0xE0 + c / 0x1000, 0x80 + c / 0x40 % 0x40, 0x80 + c % 0x40]
    else [0xF0 + c / 0x4_0000, 0x80 + c / 0x1000 % 0x40, 0x80 + c / 0x40 % 0x40, 0x80 + c % 0x40]
  }

  ghost predicate IsText(t: Text) { forall i :: 0 <= i < |t| ==> Scalar(t[i]) }

  function Encode(t: Text): seq<byte>
    requires IsText(t)
  {
    if t == [] then [] else EncodePoint(t[0]) + Encode(t[1..])
  }

  lemma Split3(c: nat)
    ensures c == c / 0x1000 * 0x1000 + c / 0x40 % 0x40 * 0x40 + c % 0x40
  {
    assert c / 0x1000 == c / 0x40 / 0x40;
  }

  lemma Split4(c: nat)
    ensures c == c / 0x4_0000 * 0x4_0000 + c / 0x1000 % 0x40 * 0x1000 + c / 0x40 % 0x40 * 0x40 + c % 0x40
  {
    Split3(c);
    assert c / 0x4_0000 == c / 0x1000 / 0x40;
  }

  /** What an encoded scalar opens with is read back as it. */
  lemma HeadOfEncoded(c: int, rest: seq<byte>)
    requires Scalar(c)
    ensures var b := EncodePoint(c) + rest; HeadLength(b) == |EncodePoint(c)| && HeadPoint(b) == c
  {
    var b := EncodePoint(c) + rest;
    if c < 0x80 {
      HeadOf1(c, b);
    } else if c < 0x800 {
      HeadOf2(c, b);
    } else if c < 0x1_0000 {
      HeadOf3(c, b);
    } else {
      HeadOf4(c, b);
    }
  }

  lemma HeadOf1(c: int, b: seq<byte>)
    requires 0 <= c < 0x80 && |b| >= 1 && b[0] == c
    ensures HeadLength(b) == 1 && HeadPoint(b) == c
  {
  }

  lemma HeadOf2(c: int, b: seq<byte>)
    requires 0x80 <= c < 0x800 && |b| >= 2 && b[0] == 0xC0 + c / 0x40 && b[1] == 0x80 + c % 0x40
    ensures HeadLength(b) == 2 && HeadPoint(b) == c
  {
  }

  lemma HeadOf3(c: int, b: seq<byte>)
    requires 0x800 <= c < 0x1_0000 && Scalar(c) && |b| >= 3
    requires b[0] == 0xE0 + c / 0x1000 && b[1] == 0x80 + c / 0x40 % 0x40 && b[2] == 0x80 + c % 0x40
    ensures HeadLength(b) == 3 && HeadPoint(b) == c
  {
    Split3(c);
    var hi, mid := c / 0x1000, c / 0x40 % 0x40;
    assert hi == 0 ==> mid >= 0x20;
    assert hi == 0xD ==> mid <= 0x1F;
    assert HeadLength(b) == 3;
  }

  lemma HeadOf4(c: int, b: seq<byte>)
    requires 0x1_0000 <= c < 0x11_0000 && |b| >= 4
    requires b[0] == 0xF0 + c / 0x4_0000 && b[1] == 0x80 + c / 0x1000 % 0x40
    requires b[2] == 0x80 + c / 0x40 % 0x40 && b[3] == 0x80 + c % 0x40
    ensures HeadLength(b) == 4 && HeadPoint(b) == c
  {
    Split4(c);
    var hi, mid := c / 0x4_0000, c / 0x1000 % 0x40;
    assert hi == 0 ==> mid >= 0x10;
    assert hi == 4 ==> mid <= 0xF;
    assert HeadLength(b) == 4;
  }

  /** The digits to base 64 of a number built of them. */
  lemma Join2(a: nat, x: nat)
    requires x < 0x40
    ensures (a * 0x40 + x) / 0x40 == a && (a * 0x40 + x) % 0x40 == x
  {
  }

  lemma Join3(a: nat, x: nat, y: nat)
    requires x < 0x40 && y < 0x40
    ensures var c := a * 0x1000 + x * 0x40 + y; c / 0x1000 == a && c / 0x40 % 0x40 == x && c % 0x40 == y
  {
    Join2(a * 0x40 + x, y);
    Join2(a, x);
  }

  lemma Join4(a: nat, x: nat, y: nat, z: nat)
    requires x < 0x40 && y < 0x40 && z < 0x40
    ensures var c := a * 0x4_0000 + x * 0x1000 + y * 0x40 + z;
      c / 0x4_0000 == a && c / 0x1000 % 0x40 == x && c / 0x40 % 0x40 == y && c % 0x40 == z
  {
    Join3(a * 0x40 + x, y, z);
    Join2(a, x);
  }

  /** What is read at the head is a scalar, in its own encoding. */
  lemma HeadIsEncoded(b: seq<byte>)
    requires b != [] && HeadLength(b) > 0
    ensures Scalar(HeadPoint(b)) && b[..HeadLength(b)] == EncodePoint(HeadPoint(b))
  {
    var p: seq<int> := b;
    match HeadLength(b) {
      case 1 =>
        assert HeadPoint(b) == p[0];
      case 2 =>
        Join2(p[0] - 0xC0, p[1] - 0x80);
        IsHead2(b, HeadPoint(b));
      case 3 =>
        Join3(p[0] - 0xE0, p[1] - 0x80, p[2] - 0x80);
        IsHead3(b, HeadPoint(b));
      case _ =>
        Join4(p[0] - 0xF0, p[1] - 0x80, p[2] - 0x80, p[3] - 0x80);
        IsHead4(b, HeadPoint(b));
    }
  }

  lemma IsHead2(b: seq<byte>, c: nat)
    requires |b| >= 2 && 0xC2 <= b[0] <= 0xDF && Continuation(b[1])
    requires c / 0x40 == b[0] - 0xC0 && c % 0x40 == b[1] - 0x80
    ensures Scalar(c) && b[..2] == EncodePoint(c)
  {
  }

  lemma IsHead3(b: seq<byte>, c: nat)
    requires |b| >= 3 && 0xE0 <= b[0] <= 0xEF && Continuation(b[1]) && Continuation(b[2])
    requires (b[0] == 0xE0 ==> b[1] >= 0xA0) && (b[0] == 0xED ==> b[1] <= 0x9F)
    requires c / 0x1000 == b[0] - 0xE0 && c / 0x40 % 0x40 == b[1] - 0x80 && c % 0x40 == b[2] - 0x80
    ensures Scalar(c) && b[..3] == EncodePoint(c)
  {
    Split3(c);
  }

  lemma IsHead4(b: seq<byte>, c: nat)
    requires |b| >= 4 && 0xF0 <= b[0] <= 0xF4 && Continuation(b[1]) && Continuation(b[2]) && Continuation(b[3])
    requires (b[0] == 0xF0 ==> b[1] >= 0x90) && (b[0] == 0xF4 ==> b[1] <= 0x8F)
    requires c / 0x4_0000 == b[0] - 0xF0 && c / 0x1000 % 0x40 == b[1] - 0x80
    requires c / 0x40 % 0x40 == b[2] - 0x80 && c % 0x40 == b[3] - 0x80
    ensures Scalar(c) && b[..4] == EncodePoint(c)
  {
    Split4(c);
  }

  /** Bytes decode to a text exactly when they are its encoding. */
  lemma {:induction false} DecodesToIff(b: seq<byte>, t: Text)
    ensures DecodeUtf8(b) == Some(t) <==> IsText(t) && b == Encode(t)
    decreases |b| + |t|
  {
    hide HeadLength, HeadPoint, EncodePoint;
    if b != [] && HeadLength(b) > 0 {
      var n := HeadLength(b);
      HeadIsEncoded(b);
      assert b == b[..n] + b[n..];
      if t != [] {
        DecodesToIff(b[n..], t[1..]);
        assert t == [t[0]] + t[1..];
        if IsText(t) && b == Encode(t) {
          HeadOfEncoded(t[0], Encode(t[1..]));
          assert b[n..] == Encode(t[1..]);
        }
      }
    } else if t != [] && IsText(t) {
      HeadOfEncoded(t[0], Encode(t[1..]));
    }
  }

  // ---- trimming -------------------------------------------------------------

  /** `u` is what lies from `i` to `j`: white space before and after, and none at its ends. */
  ghost predicate Trims(t: Text, u: Text, i: nat, j: nat)
  {
    && i <= j <= |t| && u == t[i..j]
    && (forall k :: 0 <= k < i || j <= k < |t| ==> IsWhite(t[k]))
    && (i < j ==> !IsWhite(t[i]) && !IsWhite(t[j - 1]))
  }

  /** `u` is `t` from `i` on, behind white space only. */
  ghost predicate Skips(t: Text, u: Text, i: nat)
  {
    i <= |t| && u == t[i..] && (forall k :: 0 <= k < i ==> IsWhite(t[k])) && (i < |t| ==> !IsWhite(t[i]))
  }

  lemma SkipsMore(t: Text, u: Text, i: nat)
    requires t != [] && IsWhite(t[0]) && Skips(t[1..], u, i)
    ensures Skips(t, u, i + 1)
  {
    hide IsWhite;
    assert t[1..][i..] == t[i + 1..];
    assert forall k :: 0 < k < |t| ==> t[k] == t[1..][k - 1];
  }

  lemma {:induction false} TrimStartMeaning(t: Text)
    ensures exists i: nat :: Skips(t, TrimStart(t), i)
  {
    hide IsWhite, Skips;
    if t != [] && IsWhite(t[0]) {
      TrimStartMeaning(t[1..]);
      var i: nat :| Skips(t[1..], TrimStart(t[1..]), i);
      SkipsMore(t, TrimStart(t[1..]), i);
      assert Skips(t, TrimStart(t), i + 1);
    } else {
      SkipsNothing(t);
      assert Skips(t, TrimStart(t), 0);
    }
  }

  lemma SkipsNothing(t: Text)
    requires t == [] || !IsWhite(t[0])
    ensures Skips(t, t, 0)
  {
  }

  /** `u` is `t` up to `j`, before white space only. */
  ghost predicate Stops(t: Text, u: Text, j: nat)
  {
    j <= |t| && u == t[..j] && (forall k :: j <= k < |t| ==> IsWhite(t[k])) && (0 < j ==> !IsWhite(t[j - 1]))
  }

  lemma StopsEarlier(t: Text, u: Text, j: nat)
    requires t != [] && IsWhite(t[|t| - 1]) && Stops(t[..|t| - 1], u, j)
    ensures Stops(t, u, j)
  {
    hide IsWhite;
    assert t[..|t| - 1][..j] == t[..j];
    assert forall k :: 0 <= k < |t| - 1 ==> t[k] == t[..|t| - 1][k];
  }

  lemma {:induction false} TrimEndMeaning(t: Text)
    ensures exists j: nat :: Stops(t, TrimEnd(t), j)
  {
    hide IsWhite, Stops;
    if t != [] && IsWhite(t[|t| - 1]) {
      var u := t[..|t| - 1];
      TrimEndMeaning(u);
      var j: nat :| Stops(u, TrimEnd(u), j);
      StopsEarlier(t, TrimEnd(u), j);
      assert Stops(t, TrimEnd(t), j);
    } else {
      StopsNowhere(t);
      assert Stops(t, TrimEnd(t), |t|);
    }
  }

  lemma StopsNowhere(t: Text)
    requires t == [] || !IsWhite(t[|t| - 1])
    ensures Stops(t, t, |t|)
  {
  }

  /** Trimming takes the white space off both ends, all of it and nothing else. */
  lemma TrimMeaning(t: Text)
    ensures exists i: nat, j: nat :: Trims(t, Trim(t), i, j)
  {
    hide IsWhite, TrimStart, TrimEnd, Skips, Stops, Trims;
    TrimStartMeaning(t);
    var u := TrimStart(t);
    var i: nat :| Skips(t, u, i);
    TrimEndMeaning(u);
    var j: nat :| Stops(u, TrimEnd(u), j);
    TrimsBoth(t, u, i, j);
    assert Trims(t, Trim(t), i, i + j);
  }

  lemma TrimsBoth(t: Text, u: Text, i: nat, j: nat)
    requires Skips(t, u, i) && Stops(u, TrimEnd(u), j)
    ensures Trims(t, TrimEnd(u), i, i + j)
  {
    hide IsWhite, TrimEnd;
    assert u[..j] == t[i..i + j];
    forall k | i + j <= k < |t| ensures IsWhite(t[k])
    {
      assert t[k] == u[k - i];
    }
    assert j > 0 ==> t[i + j - 1] == u[j - 1];
  }

  /** Nothing is left exactly when there was nothing but white space. */
  lemma BlankIff(t: Text)
    ensures Trim(t) == [] <==> forall k :: 0 <= k < |t| ==> IsWhite(t[k])
  {
    hide IsWhite, Trim;
    TrimMeaning(t);
    var i: nat, j: nat :| Trims(t, Trim(t), i, j);
    assert i < j ==> !IsWhite(t[i]);
  }

  // ---- numbers --------------------------------------------------------------

  function Pow10(n: nat): nat { if n == 0 then 1 else 10 * Pow10(n - 1) }

  ghost predicate IsNumeral(d: Text) { d != [] && forall i :: 0 <= i < |d| ==> IsDigit(d[i]) }

  /** Each digit times the power of ten of its place. */
  function Places(d: Text): int
  {
    if d == [] then 0 else (d[0] - 48) * Pow10(|d| - 1) + Places(d[1..])
  }

  lemma {:induction false} PlacesSnoc(d: Text, x: int)
    ensures Places(d + [x]) == Places(d) * 10 + (x - 48)
  {
    if d == [] {
      assert ([] + [x])[1..] == [];
      assert Places([x]) == (x - 48) * Pow10(0) + Places([]);
    } else {
      PlacesSnoc(d[1..], x);
      var n := |d| - 1;
      assert (d + [x])[1..] == d[1..] + [x];
      assert Pow10(n + 1) == 10 * Pow10(n);
      assert (d[0] - 48) * Pow10(n + 1) == (d[0] - 48) * Pow10(n) * 10;
    }
  }

  lemma {:induction false} DigitsMeaning(d: Text)
    ensures DigitsValue(d).Some? <==> forall i :: 0 <= i < |d| ==> IsDigit(d[i])
    ensures DigitsValue(d).Some? ==> DigitsValue(d).value == Places(d)
  {
    if d != [] {
      var n := |d| - 1;
      DigitsMeaning(d[..n]);
      PlacesSnoc(d[..n], d[n]);
      assert d == d[..n] + [d[n]];
    }
  }

  /** A text parses to a number exactly when it is that number's digits, leading zeros and one plus
      sign allowed, and the number fits a `usize`. */
  lemma ParsesToIff(t: Text, n: nat)
    ensures ParseUsize(t) == Some(n) <==>
      n <= USIZE_MAX && exists d :: (t == d || t == [43] + d) && IsNumeral(d) && Places(d) == n
  {
    hide Places;
    var digits := if |t| > 1 && t[0] == 43 then t[1..] else t;
    DigitsMeaning(digits);
    if |t| > 1 && t[0] == 43 { assert t == [43] + digits; }
    assert ParseUsize(t) == Some(n) ==> IsNumeral(digits);
    forall d | (t == d || t == [43] + d) && IsNumeral(d) ensures d == digits
    {
      assert IsDigit(d[0]);
    }
  }

  /** What is printed is the number's digits, without a leading zero. */
  lemma {:induction false} DecimalIsCanonical(n: nat)
    ensures IsNumeral(Decimal(n)) && Places(Decimal(n)) == n
    ensures |Decimal(n)| > 1 ==> Decimal(n)[0] != 48
  {
    hide Places;
    DecimalValue(n);
    DigitsMeaning(Decimal(n));
    DecimalLeads(n);
  }

  lemma {:induction false} DecimalLeads(n: nat)
    ensures n > 0 ==> Decimal(n)[0] != 48
    ensures |Decimal(n)| > 1 ==> n > 0
  {
    if n >= 10 { DecimalLeads(n / 10); }
  }
}
