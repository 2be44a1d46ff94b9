/** The handful of Python `str`/`int` built-ins the server relies on, with the
    semantics CPython gives them: `str.isspace`, `str.strip`, `str.split` on a
    one-character separator, `str.zfill`, `str(int)`, `int(str)` (base 10) and
    clamped slicing `s[i:j]`. */
module PyText {

  import opened Options

  /** `c.isspace()`: the characters CPython classifies as whitespace. */
  predicate IsSpace(c: char)
  {
    || ('\t' <= c <= '\r')
    || ('\U{1C}' <= c <= '\U{1F}')
    || c == ' '
    || c == '\U{85}'
    || c == '\U{A0}'
    || c == '\U{1680}'
    || ('\U{2000}' <= c <= '\U{200A}')
    || c == '\U{2028}'
    || c == '\U{2029}'
    || c == '\U{202F}'
    || c == '\U{205F}'
    || c == '\U{3000}'
  }

  predicate IsDigit(c: char)
  {
    '0' <= c <= '9'
  }

  predicate AllDigits(s: string)
  {
    forall i :: 0 <= i < |s| ==> IsDigit(s[i])
  }

  predicate AllSpaces(s: string)
  {
    forall i :: 0 <= i < |s| ==> IsSpace(s[i])
  }

  function DigitChar(d: nat): (c: char)
    requires d < 10
    ensures IsDigit(c) && c as int - '0' as int == d
  {
    ('0' as int + d) as char
  }

  /** The value of a string of decimal digits, most significant first. */
  function DigitsValue(s: string): nat
    requires AllDigits(s)
  {
    if |s| == 0 then 0 else DigitsValue(s[..|s| - 1]) * 10 + (s[|s| - 1] as int - '0' as int)
  }

  /** `str(n)` for a non-negative `n`: the canonical decimal numeral. */
  function NatToStr(n: nat): (r: string)
    ensures |r| >= 1 && AllDigits(r)
    ensures r[0] == '0' ==> n == 0 && |r| == 1
  {
    if n < 10 then [DigitChar(n)] else NatToStr(n / 10) + [DigitChar(n % 10)]
  }

  /** The numeral `str(n)` denotes `n`. */
  lemma {:induction false} NatToStrValue(n: nat)
    ensures DigitsValue(NatToStr(n)) == n
  {
    if n >= 10 {
      var prefix := NatToStr(n / 10);
      NatToStrValue(n / 10);
      assert (prefix + [DigitChar(n % 10)])[..|prefix|] == prefix;
    }
  }

  /** `str(n)` for any integer: a minus sign precedes the magnitude. */
  function IntToStr(n: int): (r: string)
    ensures n >= 0 ==> r == NatToStr(n)
    ensures n < 0 ==> r == "-" + NatToStr(-n)
  {
    if n < 0 then "-" + NatToStr(-n) else NatToStr(n)
  }

  function Zeros(k: nat): (r: string)
    ensures |r| == k && AllDigits(r)
    ensures forall i :: 0 <= i < k ==> r[i] == '0'
  {
    if k == 0 then "" else "0" + Zeros(k - 1)
  }

  /** `s.zfill(width)`: pad with '0' on the left up to `width` characters,
      inserting the padding after a leading '+' or '-'. */
  function ZFill(s: string, width: nat): (r: string)
    ensures |r| == if |s| >= width then |s| else width
    ensures |s| >= width ==> r == s
  {
    if |s| >= width then s
    else if |s| > 0 && (s[0] == '+' || s[0] == '-') then [s[0]] + Zeros(width - |s|) + s[1..]
    else Zeros(width - |s|) + s
  }

  /** Number of whitespace characters at the start of `s`. */
  function LeadingSpaces(s: string): (n: nat)
    ensures n <= |s|
    ensures forall i | 0 <= i < n :: IsSpace(s[i])
    ensures n < |s| ==> !IsSpace(s[n])
  {
    if |s| > 0 && IsSpace(s[0]) then 1 + LeadingSpaces(s[1..]) else 0
  }

  /** Number of whitespace characters at the end of `s`. */
  function TrailingSpaces(s: string): (n: nat)
    ensures n <= |s|
    ensures forall i | |s| - n <= i < |s| :: IsSpace(s[i])
    ensures n < |s| ==> !IsSpace(s[|s| - n - 1])
  {
    if |s| > 0 && IsSpace(s[|s| - 1]) then 1 + TrailingSpaces(s[..|s| - 1]) else 0
  }

  /** `s.strip()`: `s` with surrounding whitespace removed. */
  function Strip(s: string): (r: string)
    ensures |r| <= |s|
    ensures r == [] || (!IsSpace(r[0]) && !IsSpace(r[|r| - 1]))
  {
    var a := LeadingSpaces(s);
    var t := s[a..];
    t[..|t| - TrailingSpaces(t)]
  }

  /** Stripping removes whitespace only, and only from the two ends. */
  lemma StripRemovesSpaces(s: string)
    ensures exists a :: StrippedAt(s, Strip(s), a)
  {
    var a := LeadingSpaces(s);
    StripWitness(s, a, TrailingSpaces(s[a..]));
    assert StrippedAt(s, Strip(s), a);
  }

  /** `r` sits at offset `a` of `s` with only whitespace around it. */
  predicate StrippedAt(s: string, r: string, a: int)
  {
    0 <= a <= |s| - |r| && s[a..a + |r|] == r && AllSpaces(s[..a]) && AllSpaces(s[a + |r|..])
  }

  lemma StripWitness(s: string, a: nat, b: nat)
    requires a <= |s| && forall i | 0 <= i < a :: IsSpace(s[i])
    requires b <= |s| - a && forall i | |s| - a - b <= i < |s| - a :: IsSpace(s[a..][i])
    ensures StrippedAt(s, s[a..][..|s| - a - b], a)
  {
    var t := s[a..];
    var r := t[..|t| - b];
    assert s[a..a + |r|] == r;
    var tail := s[a + |r|..];
    forall i | 0 <= i < |tail|
      ensures IsSpace(tail[i])
    {
      assert tail[i] == t[|t| - b + i];
    }
  }

  /** Stripping changes nothing when neither end is whitespace. */
  lemma StripUnpadded(s: string)
    requires |s| > 0 && !IsSpace(s[0]) && !IsSpace(s[|s| - 1])
    ensures Strip(s) == s
  {
    assert LeadingSpaces(s) == 0;
    assert s[0..] == s;
    assert TrailingSpaces(s) == 0;
  }

  /** `sep.join(parts)`. */
  function Join(parts: seq<string>, sep: char): string
  {
    if |parts| == 0 then ""
    else if |parts| == 1 then parts[0]
    else parts[0] + [sep] + Join(parts[1..], sep)
  }

  lemma JoinConsChar(c: char, first: string, rest: seq<string>, sep: char)
    ensures Join([[c] + first] + rest, sep) == [c] + Join([first] + rest, sep)
  {
    var xs := [[c] + first] + rest;
    var ys := [first] + rest;
    assert xs[1..] == rest && ys[1..] == rest;
  }

  /** `s.split(sep)`: the maximal separator-free pieces of `s`, in order. */
  function Split(s: string, sep: char): (parts: seq<string>)
    ensures |parts| >= 1
    ensures forall i :: 0 <= i < |parts| ==> sep !in parts[i]
  {
    if |s| == 0 then [""]
    else
      var rest := Split(s[1..], sep);
      if s[0] == sep then [""] + rest
      else [[s[0]] + rest[0]] + rest[1..]
  }

  /** Joining the pieces back with the separator gives the original string. */
  lemma {:induction false} JoinSplit(s: string, sep: char)
    ensures Join(Split(s, sep), sep) == s
    decreases |s|
  {
    if |s| > 0 {
      var rest := Split(s[1..], sep);
      JoinSplit(s[1..], sep);
      if s[0] == sep {
        assert ([""] + rest)[1..] == rest;
      } else {
        assert rest == [rest[0]] + rest[1..];
        JoinConsChar(s[0], rest[0], rest[1..], sep);
        assert s == [s[0]] + s[1..];
      }
    }
  }

  /** `s[i:j]` for non-negative bounds: out-of-range bounds are clamped. */
  function Slice(s: string, i: nat, j: nat): (r: string)
    ensures j <= |s| && i <= j ==> r == s[i..j]
    ensures i <= j && i <= |s| ==> r == s[i..if j <= |s| then j else |s|]
    ensures |r| == if i >= j || i >= |s| then 0 else (if j <= |s| then j else |s|) - i
  {
    var a := if i <= |s| then i else |s|;
    var b := if j <= |s| then j else |s|;
    if a <= b then s[a..b] else ""
  }

  /** The body of a base-10 `int()` literal: digits, with single underscores
      allowed between digits. */
  predicate DigitGroups(u: string)
  {
    |u| > 0 && IsDigit(u[0]) && GroupsTail(u[1..])
  }

  /** What may follow a digit: more digits, each optionally preceded by one
      underscore. */
  predicate GroupsTail(u: string)
    decreases |u|
  {
    || |u| == 0
    || (IsDigit(u[0]) && GroupsTail(u[1..]))
    || (|u| >= 2 && u[0] == '_' && IsDigit(u[1]) && GroupsTail(u[2..]))
  }

  lemma {:induction false} DigitsAreGroups(u: string)
    requires AllDigits(u)
    ensures GroupsTail(u)
    ensures |u| > 0 ==> DigitGroups(u)
    decreases |u|
  {
    if |u| > 0 {
      DigitsAreGroups(u[1..]);
    }
  }

  /** The literal with its underscores taken out. */
  function DropUnderscores(u: string): (r: string)
    ensures GroupsTail(u) ==> AllDigits(r)
    ensures AllDigits(u) ==> r == u
    decreases |u|
  {
    if |u| == 0 then ""
    else if u[0] == '_' then
      assert GroupsTail(u) ==> GroupsTail(u[1..]);
      DropUnderscores(u[1..])
    else [u[0]] + DropUnderscores(u[1..])
  }

  /** Digits and underscores are not separators. */
  lemma {:induction false} GroupsNoSeparators(u: string)
    requires GroupsTail(u)
    ensures NoSeparators(u)
    decreases |u|
  {
    if |u| > 0 {
      if IsDigit(u[0]) && GroupsTail(u[1..]) {
        GroupsNoSeparators(u[1..]);
        assert forall i | 1 <= i < |u| :: u[i] == u[1..][i - 1];
      } else {
        GroupsNoSeparators(u[2..]);
        assert forall i | 2 <= i < |u| :: u[i] == u[2..][i - 2];
      }
    }
  }

  /** The value of an unsigned literal, if it is one. */
  function ParseUnsigned(u: string): (r: Option<nat>)
    ensures |u| > 0 && AllDigits(u) ==> r == Some(DigitsValue(u))
    ensures r.Some? ==> NoSeparators(u)
  {
    if |u| > 0 && AllDigits(u) then
      DigitsAreGroups(u);
      Some(DigitsValue(u))
    else if DigitGroups(u) then
      assert GroupsTail(u);
      GroupsNoSeparators(u[1..]);
      assert forall i | 1 <= i < |u| :: u[i] == u[1..][i - 1];
      Some(DigitsValue(DropUnderscores(u)))
    else None
  }

  /** The information separators U+001C..U+001F. `str.isspace` holds for
      them, but `int()` does not skip them: on ASCII text CPython skips only
      tab, line feed, vertical tab, form feed, carriage return and space. */
  predicate IsSeparator(c: char)
  {
    '\U{1C}' <= c <= '\U{1F}'
  }

  predicate NoSeparators(s: string)
  {
    forall i :: 0 <= i < |s| ==> !IsSeparator(s[i])
  }

  /** `int(s)`: surrounding whitespace, an optional sign, then digit groups.
      None stands for the ValueError Python raises. A separator can be
      neither skipped as whitespace nor read as part of the literal, so a
      string holding one is rejected wherever it sits. */
  function ParseInt(s: string): (r: Option<int>)
    ensures |s| == 0 ==> r == None
    ensures !NoSeparators(s) ==> r == None
  {
    if NoSeparators(s) then ParseSigned(Strip(s)) else None
  }

  /** `int("\x1c5")` raises, although `"\x1c5".strip()` is `"5"`. */
  lemma SeparatorRejected()
    ensures Strip("\U{1C}5") == "5"
    ensures ParseInt("\U{1C}5") == None
  {
    var s := "\U{1C}5";
    assert LeadingSpaces(s) == 1 by {
      assert IsSpace(s[0]) && s[1..] == "5" && LeadingSpaces("5") == 0;
    }
    assert s[1..] == "5";
    assert TrailingSpaces("5") == 0;
    assert !NoSeparators(s) by {
      assert IsSeparator(s[0]);
    }
  }

  /** `int()` of a whitespace-only string raises ValueError. */
  lemma BlankRaises(s: string)
    requires AllSpaces(s)
    ensures ParseInt(s) == None
  {
    BlankStrips(s);
  }

  /** A whitespace-only string strips to nothing. */
  lemma BlankStrips(s: string)
    requires AllSpaces(s)
    ensures Strip(s) == []
  {
    StripRemovesSpaces(s);
  }

  /** Without surrounding whitespace `int()` reads the sign and digits as they are. */
  lemma ParseUnpadded(s: string)
    requires |s| > 0 && !IsSpace(s[0]) && !IsSpace(s[|s| - 1])
    ensures ParseInt(s) == ParseSigned(s)
  {
    StripUnpadded(s);
  }

  /** A stripped literal: an optional sign before the unsigned part. */
  function ParseSigned(t: string): (r: Option<int>)
    ensures |t| == 0 ==> r == None
    ensures |t| > 0 && AllDigits(t) ==> r == Some(DigitsValue(t))
    ensures |t| > 1 && t[0] == '-' && AllDigits(t[1..]) ==> r == Some(-(DigitsValue(t[1..]) as int))
    ensures r.Some? ==> NoSeparators(t)
  {
    if |t| > 0 && (t[0] == '+' || t[0] == '-') then
      assert forall i | 1 <= i < |t| :: t[i] == t[1..][i - 1];
      match ParseUnsigned(t[1..])
      case Some(v) => Some(if t[0] == '-' then -(v as int) else v)
      case None => None
    else ParseUnsigned(t)
  }

  function Pow10(k: nat): (r: nat)
    ensures r >= 1
  {
    if k == 0 then 1 else 10 * Pow10(k - 1)
  }

  /** Reading digits left to right: the value of `a + b` shifts `a` by `|b|` places. */
  lemma {:induction false} DigitsValueAppend(a: string, b: string)
    requires AllDigits(a) && AllDigits(b)
    ensures AllDigits(a + b)
    ensures DigitsValue(a + b) == DigitsValue(a) * Pow10(|b|) + DigitsValue(b)
    decreases |b|
  {
    ConcatDigits(a, b);
    if |b| > 0 {
      var b' := b[..|b| - 1];
      var last := b[|b| - 1] as int - '0' as int;
      ConcatDropLast(a, b);
      DigitsValueAppend(a, b');
      Shift(DigitsValue(a), Pow10(|b'|), DigitsValue(b'), last);
    } else {
      assert a + b == a;
    }
  }

  lemma ConcatDigits(a: string, b: string)
    requires AllDigits(a) && AllDigits(b)
    ensures AllDigits(a + b)
  {
    forall i | 0 <= i < |a + b|
      ensures IsDigit((a + b)[i])
    {
      if i < |a| {
        assert (a + b)[i] == a[i];
      } else {
        assert (a + b)[i] == b[i - |a|];
      }
    }
  }

  lemma ConcatDropLast(a: string, b: string)
    requires |b| > 0
    ensures (a + b)[..|a + b| - 1] == a + b[..|b| - 1]
    ensures (a + b)[|a + b| - 1] == b[|b| - 1]
  {
  }

  lemma Shift(va: int, p: int, vb: int, last: int)
    ensures (va * p + vb) * 10 + last == va * (p * 10) + (vb * 10 + last)
  {
    assert (va * p) * 10 == va * (p * 10);
  }

  lemma {:induction false} ZerosValue(k: nat)
    ensures DigitsValue(Zeros(k)) == 0
  {
    if k > 0 {
      ZerosValue(k - 1);
      DigitsValueAppend("0", Zeros(k - 1));
    }
  }

  /** A numeral below `10^k` has at most `k` digits. */
  lemma {:induction false} NatToStrLength(n: nat, k: nat)
    requires k >= 1 && n < Pow10(k)
    ensures |NatToStr(n)| <= k
  {
    if n >= 10 {
      assert k >= 2 && n / 10 < Pow10(k - 1);
      NatToStrLength(n / 10, k - 1);
    }
  }

  /** A string of digits is a literal `int()` accepts, with the digits' value. */
  lemma ParseDigits(s: string)
    requires |s| > 0 && AllDigits(s)
    ensures ParseInt(s) == Some(DigitsValue(s))
  {
    ParseUnpadded(s);
  }

  /** Zero-padding a numeral never changes the number `int()` reads back. */
  lemma ZFillNumeral(n: int, width: nat)
    ensures ParseInt(ZFill(IntToStr(n), width)) == Some(n)
  {
    if n >= 0 {
      ZFillNatural(n, width);
    } else {
      ZFillNegative(n, width);
    }
  }

  /** The digits `str(n).zfill(width)` pads out, for `n >= 0`. */
  function PaddedDigits(n: nat, width: nat): string
  {
    var d := NatToStr(n);
    if |d| >= width then d else Zeros(width - |d|) + d
  }

  lemma PaddedDigitsValue(n: nat, width: nat)
    ensures |PaddedDigits(n, width)| > 0 && AllDigits(PaddedDigits(n, width))
    ensures DigitsValue(PaddedDigits(n, width)) == n
  {
    var d := NatToStr(n);
    NatToStrValue(n);
    if |d| < width {
      LeadingZeros(width - |d|, d);
    }
  }

  /** Zeros in front of a numeral do not change its value. */
  lemma LeadingZeros(k: nat, d: string)
    requires AllDigits(d)
    ensures AllDigits(Zeros(k) + d)
    ensures DigitsValue(Zeros(k) + d) == DigitsValue(d)
  {
    DigitsValueAppend(Zeros(k), d);
    ZerosValue(k);
  }

  lemma ZFillNatural(n: nat, width: nat)
    ensures ZFill(IntToStr(n), width) == PaddedDigits(n, width)
    ensures ParseInt(ZFill(IntToStr(n), width)) == Some(n)
  {
    var p := PaddedDigits(n, width);
    assert ZFill(IntToStr(n), width) == p;
    assert ParseInt(p) == Some(n) by {
      PaddedDigitsValue(n, width);
      ParseDigits(p);
    }
  }

  lemma ZFillNegative(n: int, width: nat)
    requires n < 0
    ensures ParseInt(ZFill(IntToStr(n), width)) == Some(n)
  {
    var m: nat := -n;
    var u := PaddedDigits(m, if width > 0 then width - 1 else 0);
    PaddedDigitsValue(m, if width > 0 then width - 1 else 0);
    NegativePadding(n, width, u);
    NegativeLiteral(ZFill(IntToStr(n), width), u, m);
  }

  lemma NegativeLiteral(t: string, u: string, m: nat)
    requires |u| > 0 && AllDigits(u) && DigitsValue(u) == m && t == "-" + u
    ensures ParseInt(t) == Some(-(m as int))
  {
    ParseNegative(u);
  }

  lemma NegativePadding(n: int, width: nat, u: string)
    requires n < 0
    requires u == PaddedDigits(-n, if width > 0 then width - 1 else 0)
    ensures ZFill(IntToStr(n), width) == "-" + u
  {
    ZFillSigned('-', NatToStr(-n), width);
  }

  /** Padding goes between a sign and its digits. */
  lemma ZFillSigned(c: char, d: string, width: nat)
    requires c == '+' || c == '-'
    ensures ZFill([c] + d, width) ==
              [c] + (if |d| + 1 >= width then d else Zeros(width - 1 - |d|) + d)
  {
    var s := [c] + d;
    assert s[0] == c && s[1..] == d && |s| == |d| + 1;
    if |d| + 1 < width {
      var z := Zeros(width - 1 - |d|);
      assert ZFill(s, width) == [c] + z + d;
      assert [c] + z + d == [c] + (z + d);
    }
  }

  /** A minus sign followed by digits is a literal `int()` accepts. */
  lemma ParseNegative(u: string)
    requires |u| > 0 && AllDigits(u)
    ensures ParseInt("-" + u) == Some(-(DigitsValue(u) as int))
  {
    SignedNegative(u);
    ParseUnpadded("-" + u);
  }

  lemma SignedNegative(u: string)
    requires |u| > 0 && AllDigits(u)
    ensures ParseSigned("-" + u) == Some(-(DigitsValue(u) as int))
  {
    var r := "-" + u;
    assert r[1..] == u;
  }

  /** `str(n).zfill(width)` for `0 <= n < 10^width` is exactly `width` decimal digits. */
  lemma ZFillWidth(n: int, width: nat)
    requires width >= 1 && 0 <= n < Pow10(width)
    ensures |ZFill(IntToStr(n), width)| == width
    ensures AllDigits(ZFill(IntToStr(n), width))
  {
    NatToStrLength(n, width);
    var s := NatToStr(n);
    if |s| < width {
      assert ZFill(s, width) == Zeros(width - |s|) + s;
      DigitsValueAppend(Zeros(width - |s|), s);
    }
  }

  /** `str.split` is the inverse of `str.join` on separator-free pieces. */
  lemma {:induction false} SplitJoin(parts: seq<string>, sep: char)
    requires |parts| >= 1
    requires forall i :: 0 <= i < |parts| ==> sep !in parts[i]
    ensures Split(Join(parts, sep), sep) == parts
    decreases parts
  {
    if |parts| == 1 {
      SplitNoSep(parts[0], sep);
    } else {
      SplitJoin(parts[1..], sep);
      SplitAfterPiece(parts[0], Join(parts[1..], sep), sep);
      assert parts == [parts[0]] + parts[1..];
    }
  }

  lemma {:induction false} SplitNoSep(s: string, sep: char)
    requires sep !in s
    ensures Split(s, sep) == [s]
    decreases |s|
  {
    if |s| > 0 {
      SplitNoSep(s[1..], sep);
      assert s == [s[0]] + s[1..];
    }
  }

  lemma {:induction false} SplitAfterPiece(piece: string, rest: string, sep: char)
    requires sep !in piece
    ensures Split(piece + [sep] + rest, sep) == [piece] + Split(rest, sep)
    decreases |piece|
  {
    var s := piece + [sep] + rest;
    if |piece| == 0 {
      assert s == [sep] + rest;
      assert s[1..] == rest;
    } else {
      assert s[1..] == piece[1..] + [sep] + rest;
      SplitAfterPiece(piece[1..], rest, sep);
      assert [piece[0]] + piece[1..] == piece;
    }
  }

  /** Splitting a concatenation at a separator concatenates the two splits. */
  lemma {:induction false} SplitConcat(a: string, b: string, sep: char)
    ensures Split(a + [sep] + b, sep) == Split(a, sep) + Split(b, sep)
    decreases |a|
  {
    var s := a + [sep] + b;
    if |a| == 0 {
      assert s[1..] == b by {
        assert s == [sep] + b;
      }
    } else {
      assert s[1..] == a[1..] + [sep] + b;
      var ra := Split(a[1..], sep);
      var rb := Split(b, sep);
      assert Split(s[1..], sep) == ra + rb by {
        SplitConcat(a[1..], b, sep);
      }
      if a[0] != sep {
        assert ([[a[0]] + ra[0]] + ra[1..]) + rb == [[a[0]] + (ra + rb)[0]] + (ra + rb)[1..];
      }
    }
  }
}
