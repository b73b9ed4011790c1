/** The string operations the annotation pipeline relies on: ASCII lower-casing,
    substring and prefix tests, joining, repetition and fixed-point number formatting. */
module Text {

  // ---------------------------------------------------------------------------
  // Lower-casing (str.lower on ASCII text)
  // ---------------------------------------------------------------------------

  function LowerChar(c: char): char {
    if 'A' <= c <= 'Z' then (c as int + 32) as char else c
  }

  function Lower(s: string): (r: string)
    ensures |r| == |s|
  {
    if s == [] then [] else [LowerChar(s[0])] + Lower(s[1..])
  }

  /** Lower-casing maps every character on its own. */
  lemma {:induction false} LowerAt(s: string)
    ensures forall i :: 0 <= i < |s| ==> Lower(s)[i] == LowerChar(s[i])
    decreases |s|
  {
    if s != [] {
      LowerAt(s[1..]);
    }
  }

  /** Lower-casing twice is lower-casing once. */
  lemma LowerIdempotent(s: string)
    ensures Lower(Lower(s)) == Lower(s)
  {
    LowerAt(s);
    LowerAt(Lower(s));
    assert forall i :: 0 <= i < |s| ==> LowerChar(LowerChar(s[i])) == LowerChar(s[i]);
  }

  // ---------------------------------------------------------------------------
  // Prefixes and substrings (str.startswith and the `in` operator)
  // ---------------------------------------------------------------------------

  predicate IsPrefix(p: string, s: string) {
    |p| <= |s| && s[..|p|] == p
  }

  /** `sub` occurs in `s` starting at index `i`. */
  predicate OccursAt(s: string, sub: string, i: int) {
    0 <= i && i + |sub| <= |s| && s[i..i + |sub|] == sub
  }

  /** Python's `sub in s`: a scan of every starting position, left to right. */
  predicate Contains(s: string, sub: string)
    decreases |s|
  {
    IsPrefix(sub, s) || (|s| > 0 && Contains(s[1..], sub))
  }

  /** An occurrence at position `i` is found by the scan. */
  lemma {:induction false} OccursAtContains(s: string, sub: string, i: int)
    requires OccursAt(s, sub, i)
    ensures Contains(s, sub)
    decreases i
  {
    if i > 0 {
      assert s[1..][i - 1..i - 1 + |sub|] == s[i..i + |sub|];
      OccursAtContains(s[1..], sub, i - 1);
    }
  }

  /** What the scan finds is an occurrence at some position. */
  lemma {:induction false} ContainsOccurs(s: string, sub: string) returns (i: int)
    requires Contains(s, sub)
    ensures OccursAt(s, sub, i)
    decreases |s|
  {
    if IsPrefix(sub, s) {
      i := 0;
    } else {
      var j := ContainsOccurs(s[1..], sub);
      assert s[j + 1..j + 1 + |sub|] == s[1..][j..j + |sub|];
      i := j + 1;
    }
  }

  /** The scan finds `sub` exactly when it occurs at some position of `s`. */
  lemma ContainsIff(s: string, sub: string)
    ensures Contains(s, sub) <==> exists i :: OccursAt(s, sub, i)
  {
    if Contains(s, sub) {
      var i := ContainsOccurs(s, sub);
    }
    forall i | OccursAt(s, sub, i) ensures Contains(s, sub) {
      OccursAtContains(s, sub, i);
    }
  }

  /** A string contains each of its prefixes. */
  lemma PrefixIsContained(p: string, s: string)
    requires IsPrefix(p, s)
    ensures Contains(s, p)
  {
  }

  /** A string that contains `sub` still contains it with text appended. */
  lemma {:induction false} ContainsExtend(s: string, t: string, sub: string)
    requires Contains(s, sub)
    ensures Contains(s + t, sub)
    decreases |s|
  {
    if IsPrefix(sub, s) {
      assert (s + t)[..|sub|] == s[..|sub|];
    } else {
      assert (s + t)[1..] == s[1..] + t;
      ContainsExtend(s[1..], t, sub);
    }
  }

  /** A string that contains `sub` still contains it with text put in front. */
  lemma {:induction false} ContainsPrepend(t: string, s: string, sub: string)
    requires Contains(s, sub)
    ensures Contains(t + s, sub)
    decreases |t|
  {
    if t == [] {
      assert t + s == s;
    } else {
      assert (t + s)[1..] == t[1..] + s;
      ContainsPrepend(t[1..], s, sub);
    }
  }

  /** No character of `s` is `c`. */
  predicate Lacks(s: string, c: char) {
    forall i :: 0 <= i < |s| ==> s[i] != c
  }

  /** A string without the first character of `sub` does not contain `sub`. */
  lemma {:induction false} LacksNotContains(s: string, sub: string)
    requires |sub| > 0 && Lacks(s, sub[0])
    ensures !Contains(s, sub)
    decreases |s|
  {
    if |s| > 0 {
      assert s[0] != sub[0];
      assert !IsPrefix(sub, s) by {
        if |sub| <= |s| {
          assert s[..|sub|][0] == s[0];
        }
      }
      LacksNotContains(s[1..], sub);
    }
  }

  // ---------------------------------------------------------------------------
  // Joining and repetition (str.join and str * int)
  // ---------------------------------------------------------------------------

  /** Python's `sep.join(parts)`. */
  function Join(parts: seq<string>, sep: string): string {
    if |parts| == 0 then ""
    else if |parts| == 1 then parts[0]
    else parts[0] + sep + Join(parts[1..], sep)
  }

  /** Joining strings that are all non-empty gives "" exactly when there are none. */
  lemma {:induction false} JoinEmptyIff(parts: seq<string>, sep: string)
    requires forall i :: 0 <= i < |parts| ==> parts[i] != ""
    ensures Join(parts, sep) == "" <==> parts == []
  {
    if |parts| > 1 {
      assert |Join(parts, sep)| >= |parts[0]| > 0;
    }
  }

  /** A join of one or more parts starts with the first part. */
  lemma JoinFirst(parts: seq<string>, sep: string)
    requires |parts| > 0
    ensures IsPrefix(parts[0], Join(parts, sep))
  {
    if |parts| > 1 {
      var s := Join(parts, sep);
      assert s == parts[0] + (sep + Join(parts[1..], sep));
      assert s[..|parts[0]|] == parts[0];
    }
  }

  /** `s` ends with `p`. */
  predicate IsSuffix(p: string, s: string) {
    |p| <= |s| && s[|s| - |p|..] == p
  }

  /** A join of several parts ends with the last part. */
  lemma {:induction false} JoinLast(parts: seq<string>, sep: string)
    requires |parts| > 0
    ensures IsSuffix(parts[|parts| - 1], Join(parts, sep))
    decreases |parts|
  {
    if |parts| > 1 {
      JoinLast(parts[1..], sep);
      var rest := Join(parts[1..], sep);
      assert Join(parts, sep) == (parts[0] + sep) + rest;
      var last := parts[|parts| - 1];
      assert last == parts[1..][|parts[1..]| - 1];
      assert Join(parts, sep)[|Join(parts, sep)| - |last|..] == rest[|rest| - |last|..];
    }
  }

  /** A string that starts one of the parts is contained in the join. */
  lemma {:induction false} JoinHasPart(parts: seq<string>, sep: string, i: int, sub: string)
    requires 0 <= i < |parts| && IsPrefix(sub, parts[i])
    ensures Contains(Join(parts, sep), sub)
    decreases i
  {
    if i == 0 {
      JoinFirst(parts, sep);
      assert Join(parts, sep)[..|sub|] == Join(parts, sep)[..|parts[0]|][..|sub|];
      PrefixIsContained(sub, Join(parts, sep));
    } else {
      JoinHasPart(parts[1..], sep, i - 1, sub);
      ContainsPrepend(parts[0] + sep, Join(parts[1..], sep), sub);
    }
  }

  /** A join lacks a character that neither the parts nor the separator contain. */
  lemma {:induction false} JoinLacks(parts: seq<string>, sep: string, c: char)
    requires Lacks(sep, c) && forall i :: 0 <= i < |parts| ==> Lacks(parts[i], c)
    ensures Lacks(Join(parts, sep), c)
    decreases |parts|
  {
    if |parts| > 1 {
      JoinLacks(parts[1..], sep, c);
      assert Lacks(parts[0], c);
    }
  }

  /** Three parts joined: the separator between each neighbouring pair. */
  lemma JoinThree(a: string, b: string, c: string, sep: string)
    ensures Join([a, b, c], sep) == a + sep + b + sep + c
  {
    assert [a, b, c][1..] == [b, c];
    assert [b, c][1..] == [c];
    assert Join([b, c], sep) == b + sep + c;
    calc {
      Join([a, b, c], sep);
      a + sep + Join([b, c], sep);
      a + sep + (b + sep + c);
      a + sep + b + sep + c;
    }
  }

  /** The concatenation of a sequence of sequences, in order. */
  function Flatten<T>(xss: seq<seq<T>>): seq<T>
    decreases |xss|
  {
    if xss == [] then [] else Flatten(xss[..|xss| - 1]) + xss[|xss| - 1]
  }

  /** Element `i` stands between the flattening of those before it and of those after it. */
  lemma {:induction false} FlattenSplit<T>(xss: seq<seq<T>>, i: int)
    requires 0 <= i < |xss|
    ensures Flatten(xss) == Flatten(xss[..i]) + xss[i] + Flatten(xss[i + 1..])
    decreases |xss|
  {
    var n := |xss| - 1;
    if i == n {
      assert xss[i + 1..] == [];
    } else {
      var init := xss[..n];
      FlattenSplit(init, i);
      assert init[..i] == xss[..i] && init[i] == xss[i];
      var rest := xss[i + 1..];
      assert rest[..|rest| - 1] == init[i + 1..];
      assert rest[|rest| - 1] == xss[n];
    }
  }

  /** Python's `s * n` for a one-character `s`: empty when `n` is zero or negative. */
  function Repeat(c: char, n: int): (r: string)
    ensures |r| == (if n < 0 then 0 else n)
    ensures forall i :: 0 <= i < |r| ==> r[i] == c
    decreases if n < 0 then 0 else n
  {
    if n <= 0 then "" else [c] + Repeat(c, n - 1)
  }

  // ---------------------------------------------------------------------------
  // Decimal formatting (str(int) and the `:.Nf` format specification)
  // ---------------------------------------------------------------------------

  function Pow10(p: nat): (r: nat)
    ensures r >= 1
  {
    if p == 0 then 1 else 10 * Pow10(p - 1)
  }

  predicate IsDigit(c: char) {
    '0' <= c <= '9'
  }

  function DigitChar(d: nat): (c: char)
    requires d < 10
    ensures IsDigit(c)
  {
    ('0' as int + d) as char
  }

  /** The decimal digits of `n`, without leading zeros. */
  function NatToString(n: nat): (s: string)
    ensures |s| > 0
    ensures forall i :: 0 <= i < |s| ==> IsDigit(s[i])
  {
    if n < 10 then [DigitChar(n)] else NatToString(n / 10) + [DigitChar(n % 10)]
  }

  /** Python's `str(i)` for an int. */
  function IntToString(i: int): (s: string)
    ensures |s| > 0
  {
    if i < 0 then "-" + NatToString(-i) else NatToString(i)
  }

  /** The text of an int starts with '-' exactly when it is negative; the rest is decimal digits. */
  lemma IntToStringSign(i: int)
    ensures var s := IntToString(i);
      (s[0] == '-' <==> i < 0) && forall k :: 0 < k < |s| ==> IsDigit(s[k])
  {
  }

  /** `s` padded on the left with '0' up to `width` characters. */
  function ZeroPad(s: string, width: nat): (r: string)
    ensures |r| == if |s| < width then width else |s|
    decreases width - |s|
  {
    if |s| < width then ZeroPad("0" + s, width) else s
  }

  /** The integer nearest to a non-negative real, ties to the even neighbour. */
  function RoundHalfEven(x: real): (n: nat)
    requires x >= 0.0
    ensures n as real - 0.5 <= x <= n as real + 0.5
  {
    var fl := x.Floor;
    var frac := x - fl as real;
    if frac > 0.5 || (frac == 0.5 && fl % 2 == 1) then fl + 1 else fl
  }

  /** A non-negative real in units of 10^-places, rounded to the nearest unit: the point is
      moved one place at a time, then the result is rounded once. */
  function Scaled(magnitude: real, places: nat): nat
    requires magnitude >= 0.0
    decreases places
  {
    if places == 0 then RoundHalfEven(magnitude) else Scaled(magnitude * 10.0, places - 1)
  }

  /** The digits of a count of 10^-places units, with a point before the last `places`. */
  function UnitsToString(units: nat, places: nat): (s: string)
    ensures |s| > 0
  {
    var factor := Pow10(places);
    NatQuotient(units, factor);
    var whole := NatToString(units / factor);
    if places == 0 then whole else whole + "." + ZeroPad(NatToString(units % factor), places)
  }

  /** Quotient and remainder of naturals are naturals. */
  lemma NatQuotient(n: nat, d: nat)
    requires d >= 1
    ensures n / d >= 0 && n % d >= 0
  {
  }

  /** The `:.{places}f` rendering of `x`: a sign for negatives, the integer part, and
      exactly `places` fractional digits after a point. */
  function Fixed(x: real, places: nat): (s: string)
    ensures |s| > 0
    decreases if x < 0.0 then 1 else 0
  {
    if x < 0.0 then "-" + Fixed(-x, places)
    else UnitsToString(Scaled(x, places), places)
  }

  /** The characters a formatted number is made of. */
  predicate IsNumeric(c: char) {
    IsDigit(c) || c == '.' || c == '-'
  }

  lemma {:induction false} ZeroPadNumeric(s: string, width: nat)
    requires forall i :: 0 <= i < |s| ==> IsNumeric(s[i])
    ensures forall i :: 0 <= i < |ZeroPad(s, width)| ==> IsNumeric(ZeroPad(s, width)[i])
    decreases width - |s|
  {
    if |s| < width {
      ZeroPadNumeric("0" + s, width);
    }
  }

  /** A formatted number holds only digits, the point and the sign. */
  lemma {:induction false} FixedNumeric(x: real, places: nat)
    ensures forall i :: 0 <= i < |Fixed(x, places)| ==> IsNumeric(Fixed(x, places)[i])
    decreases if x < 0.0 then 1 else 0
  {
    if x < 0.0 {
      FixedNumeric(-x, places);
    } else {
      var units := Scaled(x, places);
      var factor := Pow10(places);
      NatQuotient(units, factor);
      ZeroPadNumeric(NatToString(units % factor), places);
    }
  }
}
