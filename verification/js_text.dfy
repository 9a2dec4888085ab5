/**
 * The JavaScript string operations the routes rely on: `String(n)` for integers,
 * `padStart`, `trim`, and the small splitting and counting helpers used to state
 * properties of the strings the routes build.
 */
module JsText {
  import opened Wrappers

  predicate IsDigit(c: char) {
    '0' <= c <= '9'
  }

  predicate AllDigits(s: string) {
    forall i :: 0 <= i < |s| ==> IsDigit(s[i])
  }

  function DigitChar(d: nat): (c: char)
    requires d < 10
    ensures IsDigit(c) && c as int - '0' as int == d
  {
    (d + '0' as int) as char
  }

  /** `String(n)` for a non-negative integer: its decimal digits, most significant first. */
  function NatToString(n: nat): (s: string)
    ensures |s| > 0 && AllDigits(s)
    ensures n < 10 <==> |s| == 1
    decreases n
  {
    if n < 10 then [DigitChar(n)] else NatToString(n / 10) + [DigitChar(n % 10)]
  }

  /** `String(i)` for any integer: a minus sign before the digits of a negative one. */
  function IntToString(i: int): (s: string)
    ensures i >= 0 ==> s == NatToString(i)
    ensures i < 0 ==> s == "-" + NatToString(-i)
  {
    if i < 0 then "-" + NatToString(-i) else NatToString(i)
  }

  /** The number a string of decimal digits denotes (the empty string denotes 0). */
  function DigitsValue(s: string): nat
    requires AllDigits(s)
  {
    if |s| == 0 then 0
    else DigitsValue(s[..|s| - 1]) * 10 + (s[|s| - 1] as int - '0' as int)
  }

  /** Reads a non-empty run of decimal digits back as a number. */
  function ParseNat(s: string): Option<nat> {
    if |s| > 0 && AllDigits(s) then Some(DigitsValue(s)) else None
  }

  /** Reading the digits `String(n)` writes gives back `n`. */
  lemma {:induction false} NatToStringRoundTrip(n: nat)
    ensures ParseNat(NatToString(n)) == Some(n)
  {
    var s := NatToString(n);
    if n >= 10 {
      var p := NatToString(n / 10);
      assert s == p + [DigitChar(n % 10)];
      assert s[..|s| - 1] == p;
      NatToStringRoundTrip(n / 10);
      assert DigitsValue(s) == DigitsValue(p) * 10 + n % 10;
    } else {
      assert s[..|s| - 1] == [];
      assert DigitsValue(s) == n;
    }
  }

  function Repeat(c: char, k: nat): (r: string)
    ensures |r| == k
    ensures forall i :: 0 <= i < k ==> r[i] == c
  {
    if k == 0 then [] else [c] + Repeat(c, k - 1)
  }

  /** `s.padStart(width, fill)` with a one-character fill. */
  function PadStart(s: string, width: nat, fill: char): (r: string)
    ensures |r| == if |s| >= width then |s| else width
    ensures r == Repeat(fill, |r| - |s|) + s
  {
    if |s| >= width then s else Repeat(fill, width - |s|) + s
  }

  /** Leading zeros do not change the number a digit string denotes. */
  lemma {:induction false} LeadingZeros(k: nat, s: string)
    requires AllDigits(s)
    ensures AllDigits(Repeat('0', k) + s)
    ensures DigitsValue(Repeat('0', k) + s) == DigitsValue(s)
    decreases |s|
  {
    var z := Repeat('0', k);
    if |s| == 0 {
      assert z + s == z;
      ZerosDenoteZero(k);
    } else {
      var t := z + s;
      assert t[..|t| - 1] == z + s[..|s| - 1];
      LeadingZeros(k, s[..|s| - 1]);
    }
  }

  lemma {:induction false} ZerosDenoteZero(k: nat)
    ensures AllDigits(Repeat('0', k))
    ensures DigitsValue(Repeat('0', k)) == 0
  {
    if k > 0 {
      var z := Repeat('0', k);
      assert z[..k - 1] == Repeat('0', k - 1);
      ZerosDenoteZero(k - 1);
    }
  }

  /** A zero-padded `String(n)` still reads back as `n`. */
  lemma PaddedRoundTrip(n: nat, width: nat)
    ensures ParseNat(PadStart(NatToString(n), width, '0')) == Some(n)
  {
    var s := NatToString(n);
    NatToStringRoundTrip(n);
    LeadingZeros(|PadStart(s, width, '0')| - |s|, s);
  }

  /** Splits `s` at the first occurrence of `c`. */
  function SplitAt(s: string, c: char): (r: Option<(string, string)>)
    ensures r.Some? ==> s == r.value.0 + [c] + r.value.1 && c !in r.value.0
    ensures r.None? ==> c !in s
  {
    if |s| == 0 then None
    else if s[0] == c then Some(([], s[1..]))
    else match SplitAt(s[1..], c)
      case None => None
      case Some(p) => Some(([s[0]] + p.0, p.1))
  }

  /** Splitting at `c` recovers the pieces on either side of its first occurrence. */
  lemma SplitAtJoin(a: string, c: char, b: string)
    requires c !in a
    ensures SplitAt(a + [c] + b, c) == Some((a, b))
  {
    var s := a + [c] + b;
    assert s[|a|] == c;
    var r := SplitAt(s, c);
    var p := r.value.0;
    assert s[|p|] == c;
    assert forall i :: 0 <= i < |a| ==> s[i] == a[i];
    assert |p| == |a|;
    assert p == s[..|a|] == a;
    assert r.value.1 == s[|a| + 1..] == b;
  }

  /** The characters `String.prototype.trim` removes: white space and line terminators. */
  predicate IsJsSpace(c: char) {
    || c == '\t' || c == '\n' || c == '\U{B}' || c == '\U{C}' || c == '\r' || c == ' '
    || c == '\U{A0}' || c == '\U{1680}' || ('\U{2000}' <= c <= '\U{200A}')
    || c == '\U{2028}' || c == '\U{2029}' || c == '\U{202F}' || c == '\U{205F}'
    || c == '\U{3000}' || c == '\U{FEFF}'
  }

  predicate AllSpace(s: string) {
    forall i :: 0 <= i < |s| ==> IsJsSpace(s[i])
  }

  /** Drops leading white space; what is dropped is a prefix of white space. */
  function TrimStart(s: string): (r: string)
    ensures |r| <= |s| && r == s[|s| - |r|..]
    ensures AllSpace(s[..|s| - |r|])
    ensures |r| > 0 ==> !IsJsSpace(r[0])
  {
    if |s| > 0 && IsJsSpace(s[0]) then TrimStart(s[1..]) else s
  }

  /** Drops trailing white space; what is dropped is a suffix of white space. */
  function TrimEnd(s: string): (r: string)
    ensures |r| <= |s| && r == s[..|r|]
    ensures AllSpace(s[|r|..])
    ensures |r| > 0 ==> !IsJsSpace(r[|r| - 1])
  {
    if |s| > 0 && IsJsSpace(s[|s| - 1]) then TrimEnd(s[..|s| - 1]) else s
  }

  /** `s.trim()`. */
  function Trim(s: string): (r: string)
    ensures |r| > 0 ==> !IsJsSpace(r[0]) && !IsJsSpace(r[|r| - 1])
  {
    TrimEnd(TrimStart(s))
  }

  /**
   * `trim` is determined by the white-space-free core: whenever `s` is white space,
   * then `mid`, then white space, and `mid` has no white space at either end,
   * `trim` returns exactly `mid`.
   */
  lemma TrimCharacterization(pre: string, mid: string, post: string)
    requires AllSpace(pre) && AllSpace(post)
    requires |mid| > 0 ==> !IsJsSpace(mid[0]) && !IsJsSpace(mid[|mid| - 1])
    ensures Trim(pre + mid + post) == mid
  {
    if |mid| == 0 {
      AllSpaceConcat(pre, post);
      assert pre + mid + post == pre + post;
      TrimStartSpaces(pre + post, []);
      assert pre + post + [] == pre + post;
    } else {
      assert pre + mid + post == pre + (mid + post);
      TrimStartSpaces(pre, mid + post);
      TrimEndSpaces(mid, post);
    }
  }

  lemma AllSpaceConcat(a: string, b: string)
    requires AllSpace(a) && AllSpace(b)
    ensures AllSpace(a + b)
  {
  }

  lemma {:induction false} TrimStartSpaces(pre: string, rest: string)
    requires AllSpace(pre)
    requires |rest| > 0 ==> !IsJsSpace(rest[0])
    ensures TrimStart(pre + rest) == rest
    decreases |pre|
  {
    if |pre| > 0 {
      assert (pre + rest)[1..] == pre[1..] + rest;
      TrimStartSpaces(pre[1..], rest);
    } else {
      assert pre + rest == rest;
    }
  }

  lemma {:induction false} TrimEndSpaces(mid: string, post: string)
    requires AllSpace(post)
    requires |mid| > 0 ==> !IsJsSpace(mid[|mid| - 1])
    ensures TrimEnd(mid + post) == mid
    decreases |post|
  {
    if |post| > 0 {
      var s := mid + post;
      assert s[..|s| - 1] == mid + post[..|post| - 1];
      TrimEndSpaces(mid, post[..|post| - 1]);
    } else {
      assert mid + post == mid;
    }
  }

  /** Trimming twice is trimming once. */
  lemma TrimIdempotent(s: string)
    ensures Trim(Trim(s)) == Trim(s)
  {
    var r := Trim(s);
    assert [] + r + [] == r;
    TrimCharacterization([], r, []);
  }

  /** The number of occurrences of `c` in `s`. */
  function Count(s: string, c: char): nat {
    if |s| == 0 then 0 else (if s[0] == c then 1 else 0) + Count(s[1..], c)
  }

  lemma {:induction false} CountConcat(a: string, b: string, c: char)
    ensures Count(a + b, c) == Count(a, c) + Count(b, c)
    decreases |a|
  {
    if |a| > 0 {
      assert (a + b)[1..] == a[1..] + b;
      CountConcat(a[1..], b, c);
    } else {
      assert a + b == b;
    }
  }

  /** Joins `parts` with `sep` between neighbours, as `Array.prototype.join` does. */
  function Join(parts: seq<string>, sep: string): string {
    if |parts| == 0 then ""
    else if |parts| == 1 then parts[0]
    else parts[0] + sep + Join(parts[1..], sep)
  }

  /** Concatenates `parts` in order. */
  function Concat(parts: seq<string>): string {
    if |parts| == 0 then "" else parts[0] + Concat(parts[1..])
  }

  /** Appending one more part appends its text: the fold the routes' `+=` loops perform. */
  lemma {:induction false} ConcatSnoc(parts: seq<string>, last: string)
    ensures Concat(parts + [last]) == Concat(parts) + last
    decreases |parts|
  {
    if |parts| == 0 {
      assert Concat([last][1..]) == "";
    } else {
      assert (parts + [last])[1..] == parts[1..] + [last];
      ConcatSnoc(parts[1..], last);
    }
  }

  // ---------------------------------------------------------------------------
  // Global replacement
  // ---------------------------------------------------------------------------

  /** `s.replace(/c/g, rep)`: every occurrence of `c` replaced by `rep`. */
  function ReplaceAll(s: string, c: char, rep: string): string {
    if |s| == 0 then ""
    else (if s[0] == c then rep else [s[0]]) + ReplaceAll(s[1..], c, rep)
  }

  lemma {:induction false} ReplaceAllConcat(a: string, b: string, c: char, rep: string)
    ensures ReplaceAll(a + b, c, rep) == ReplaceAll(a, c, rep) + ReplaceAll(b, c, rep)
    decreases |a|
  {
    if |a| == 0 {
      assert a + b == b;
    } else {
      assert (a + b)[1..] == a[1..] + b;
      ReplaceAllConcat(a[1..], b, c, rep);
    }
  }

  /**
   * `s.replace(/\n/g, " ")`: the edit routes apply it to the whole command line they
   * build, so every newline of an interpolated value becomes a space.
   */
  function OneLine(s: string): string {
    ReplaceAll(s, '\n', " ")
  }

  /** Character by character, OneLine keeps everything but newlines, which become spaces. */
  lemma {:induction false} OneLineAt(s: string)
    ensures |OneLine(s)| == |s|
    ensures forall i :: 0 <= i < |s| ==> OneLine(s)[i] == if s[i] == '\n' then ' ' else s[i]
    ensures '\n' !in OneLine(s)
    ensures '\n' !in s ==> OneLine(s) == s
    decreases |s|
  {
    if |s| > 0 {
      OneLineAt(s[1..]);
      var head := if s[0] == '\n' then " " else [s[0]];
      assert OneLine(s) == head + OneLine(s[1..]);
      forall i | 0 <= i < |s|
        ensures OneLine(s)[i] == if s[i] == '\n' then ' ' else s[i]
      {
        if i > 0 { assert OneLine(s)[i] == OneLine(s[1..])[i - 1]; }
      }
      if '\n' !in s {
        assert '\n' !in s[1..];
        assert s == [s[0]] + s[1..];
      }
    }
  }
}
