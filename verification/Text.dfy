/** The few Python `str` operations the migration script relies on, written out
    over `seq<char>`: `startswith`/`endswith`, `strip`, `split(sep)`, `split()`,
    `sep.join`, `replace`, `lower`, and decimal formatting and parsing of
    integers (`str(n)`, `f'{n:06}'`, `int(s)`). */
module Text {
  import opened Outcomes

  /** Python's `str.isspace` for one character: the ASCII controls TAB..CR and
      FS..US, the space, and the Unicode separators Python counts as white space. */
  predicate IsSpace(c: char) {
    ('\t' <= c <= '\r') || ('\U{1C}' <= c <= '\U{1F}') || c == ' '
    || c == '\U{85}' || c == '\U{A0}' || c == '\U{1680}'
    || ('\U{2000}' <= c <= '\U{200A}') || c == '\U{2028}' || c == '\U{2029}'
    || c == '\U{202F}' || c == '\U{205F}' || c == '\U{3000}'
  }

  predicate StartsWith(s: string, prefix: string) {
    |prefix| <= |s| && s[..|prefix|] == prefix
  }

  predicate EndsWith(s: string, suffix: string) {
    |suffix| <= |s| && s[|s| - |suffix|..] == suffix
  }

  lemma EndsWithConcat(a: string, b: string)
    ensures EndsWith(a + b, b)
  {
    assert (a + b)[|a|..] == b;
  }

  /** The number of white-space characters `s` starts with. */
  function LeadingSpace(s: string): (n: nat)
    ensures n <= |s| && forall k :: 0 <= k < n ==> IsSpace(s[k])
    ensures n < |s| ==> !IsSpace(s[n])
  {
    if s != [] && IsSpace(s[0]) then 1 + LeadingSpace(s[1..]) else 0
  }

  /** The number of white-space characters `s` ends with. */
  function TrailingSpace(s: string): (n: nat)
    ensures n <= |s| && forall k :: |s| - n <= k < |s| ==> IsSpace(s[k])
    ensures n < |s| ==> !IsSpace(s[|s| - n - 1])
  {
    if s != [] && IsSpace(s[|s| - 1]) then 1 + TrailingSpace(s[..|s| - 1]) else 0
  }

  /** `s.lstrip()`: `s` without its leading white space. */
  function LStrip(s: string): string {
    s[LeadingSpace(s)..]
  }

  /** `s.rstrip()`: `s` without its trailing white space. */
  function RStrip(s: string): string {
    s[..|s| - TrailingSpace(s)]
  }

  /** `s.strip()`: `s` without its leading and trailing white space. */
  function Strip(s: string): (r: string)
    ensures |r| <= |s|
    ensures r != [] ==> !IsSpace(r[0]) && !IsSpace(r[|r| - 1])
  {
    RStrip(LStrip(s))
  }

  /** What `strip` removes is white space, at both ends: the result is the
      middle of `s` after its leading white space, and what follows it is
      white space too. */
  lemma StripRemovesOnlySpace(s: string)
    ensures var n := LeadingSpace(s);
            var r := Strip(s);
            n + |r| <= |s| && r == s[n..n + |r|]
            && (forall k :: n + |r| <= k < |s| ==> IsSpace(s[k]))
  {
    var n := LeadingSpace(s);
    var l := s[n..];
    var m := |l| - TrailingSpace(l);
    SliceOfSuffix(s, n, m);
    SpaceAfter(s, n, m);
  }

  lemma SliceOfSuffix(s: string, n: nat, m: nat)
    requires n + m <= |s|
    ensures s[n..][..m] == s[n..n + m]
  {
  }

  lemma SpaceAfter(s: string, n: nat, m: nat)
    requires n + m <= |s| && forall k :: m <= k < |s| - n ==> IsSpace(s[n..][k])
    ensures forall k :: n + m <= k < |s| ==> IsSpace(s[k])
  {
    forall k | n + m <= k < |s|
      ensures IsSpace(s[k])
    {
      assert s[k] == s[n..][k - n];
    }
  }

  /** Stripping is idempotent: a stripped string has nothing left to strip. */
  lemma StripIdempotent(s: string)
    ensures Strip(Strip(s)) == Strip(s)
  {
    var t := Strip(s);
    if t != [] {
      StripUnpadded(t);
    }
  }

  /** `s.split(sep)` for a one-character separator: the pieces between the
      separators, always at least one. */
  function Split(s: string, sep: char): (r: seq<string>)
    ensures |r| >= 1
    ensures forall k :: 0 <= k < |r| ==> sep !in r[k]
  {
    if s == [] then [""]
    else if s[0] == sep then [""] + Split(s[1..], sep)
    else
      var rest := Split(s[1..], sep);
      [[s[0]] + rest[0]] + rest[1..]
  }

  /** `sep.join(parts)`. */
  function Join(parts: seq<string>, sep: string): string
  {
    if |parts| == 0 then ""
    else if |parts| == 1 then parts[0]
    else parts[0] + sep + Join(parts[1..], sep)
  }

  /** Joining the pieces of a split with the separator gives back the string. */
  lemma {:induction false} JoinSplit(s: string, sep: char)
    ensures Join(Split(s, sep), [sep]) == s
  {
    if s != [] {
      JoinSplit(s[1..], sep);
      if s[0] == sep {
        JoinEmptyFirst(Split(s[1..], sep), sep);
      } else {
        JoinExtendFirst(s[0], Split(s[1..], sep), sep);
      }
      assert s == [s[0]] + s[1..];
    }
  }

  /** An empty first piece puts a separator in front of the join. */
  lemma JoinEmptyFirst(rest: seq<string>, sep: char)
    requires |rest| >= 1
    ensures Join([""] + rest, [sep]) == [sep] + Join(rest, [sep])
  {
    assert ([""] + rest)[1..] == rest;
  }

  /** A character added to the first piece comes first in the join. */
  lemma JoinExtendFirst(c: char, rest: seq<string>, sep: char)
    requires |rest| >= 1
    ensures Join([[c] + rest[0]] + rest[1..], [sep]) == [c] + Join(rest, [sep])
  {
    var parts := [[c] + rest[0]] + rest[1..];
    if |rest| > 1 {
      var j := Join(rest[1..], [sep]);
      assert parts[0] == [c] + rest[0] && parts[1..] == rest[1..];
      assert Join(parts, [sep]) == ([c] + rest[0]) + [sep] + j;
      assert Join(rest, [sep]) == rest[0] + [sep] + j;
      ConcatAssoc4([c], rest[0], [sep], j);
    }
  }

  lemma ConcatAssoc4(a: string, b: string, c: string, d: string)
    ensures (a + b) + c + d == a + (b + c + d)
  {
  }

  /** Splitting a join of separator-free pieces gives back the pieces. */
  lemma {:induction false} SplitJoin(parts: seq<string>, sep: char)
    requires |parts| >= 1
    requires forall k :: 0 <= k < |parts| ==> sep !in parts[k]
    ensures Split(Join(parts, [sep]), sep) == parts
  {
    if |parts| == 1 {
      SplitPiece(parts[0], sep);
    } else {
      SplitJoin(parts[1..], sep);
      SplitPrefix(parts[0], Join(parts[1..], [sep]), sep);
      assert Join(parts, [sep]) == parts[0] + ([sep] + Join(parts[1..], [sep]));
      assert [parts[0]] + parts[1..] == parts;
    }
  }

  lemma {:induction false} SplitPiece(p: string, sep: char)
    requires sep !in p
    ensures Split(p, sep) == [p]
  {
    if p != [] {
      SplitPiece(p[1..], sep);
      assert [p[0]] + p[1..] == p;
    }
  }

  lemma {:induction false} SplitPrefix(p: string, rest: string, sep: char)
    requires sep !in p
    ensures Split(p + [sep] + rest, sep) == [p] + Split(rest, sep)
  {
    if p == [] {
      assert p + [sep] + rest == [sep] + rest;
      assert ([sep] + rest)[1..] == rest;
    } else {
      SplitPrefix(p[1..], rest, sep);
      assert (p + [sep] + rest)[1..] == p[1..] + [sep] + rest;
      assert [p[0]] + p[1..] == p;
    }
  }

  /** The first word of `s`: its longest prefix without white space. */
  function Word(s: string): (w: string)
    ensures |w| <= |s| && w == s[..|w|]
    ensures forall k :: 0 <= k < |w| ==> !IsSpace(w[k])
    ensures |w| < |s| ==> IsSpace(s[|w|])
  {
    if s == [] || IsSpace(s[0]) then "" else [s[0]] + Word(s[1..])
  }

  /** `s.split()`: the maximal runs of non-white-space characters. */
  function Words(s: string): (r: seq<string>)
    ensures forall k :: 0 <= k < |r| ==> r[k] != []
    ensures forall k, j :: 0 <= k < |r| && 0 <= j < |r[k]| ==> !IsSpace(r[k][j])
    decreases |s|
  {
    var t := LStrip(s);
    if t == [] then [] else
      var w := Word(t);
      [w] + Words(t[|w|..])
  }

  /** `s.replace(pattern, replacement)` for a non-empty pattern: occurrences are
      found from left to right and do not overlap. */
  function Replace(s: string, pattern: string, replacement: string): string
    requires pattern != []
  {
    if |s| < |pattern| then s
    else if s[..|pattern|] == pattern then replacement + Replace(s[|pattern|..], pattern, replacement)
    else [s[0]] + Replace(s[1..], pattern, replacement)
  }

  /** True when `pattern` occurs in `s` at position `i`. */
  predicate OccursAt(s: string, i: nat, pattern: string) {
    i + |pattern| <= |s| && s[i..i + |pattern|] == pattern
  }

  /** True when `pattern` occurs in `s`. */
  ghost predicate Contains(s: string, pattern: string) {
    exists i: nat :: OccursAt(s, i, pattern)
  }

  /** Replacing a pattern that does not occur leaves the string as it is. */
  lemma {:induction false} ReplaceAbsent(s: string, pattern: string, replacement: string)
    requires pattern != []
    requires !Contains(s, pattern)
    ensures Replace(s, pattern, replacement) == s
  {
    if |s| >= |pattern| {
      assert !OccursAt(s, 0, pattern);
      assert !Contains(s[1..], pattern) by {
        forall i: nat | OccursAt(s[1..], i, pattern)
          ensures false
        {
          assert s[1..][i..i + |pattern|] == s[i + 1..i + 1 + |pattern|];
          assert OccursAt(s, i + 1, pattern);
        }
      }
      ReplaceAbsent(s[1..], pattern, replacement);
      assert [s[0]] + s[1..] == s;
    }
  }

  /** Replacing a character by a string maps every other character to itself. */
  lemma {:induction false} ReplaceCharKeeps(s: string, c: char, replacement: string)
    requires c !in s
    ensures Replace(s, [c], replacement) == s
  {
    if s != [] {
      ReplaceCharKeeps(s[1..], c, replacement);
      assert [s[0]] + s[1..] == s;
    }
  }

  function LowerChar(c: char): char {
    if 'A' <= c <= 'Z' then (c as int + 32) as char else c
  }

  /** `s.lower()` on the ASCII letters. */
  function Lower(s: string): (r: string)
    ensures |r| == |s|
    ensures forall k :: 0 <= k < |s| ==> r[k] == LowerChar(s[k])
  {
    seq(|s|, k requires 0 <= k < |s| => LowerChar(s[k]))
  }

  /** Lower-casing twice is lower-casing once. */
  lemma LowerIdempotent(s: string)
    ensures Lower(Lower(s)) == Lower(s)
  {
  }

  predicate IsDigit(c: char) {
    '0' <= c <= '9'
  }

  function DigitChar(d: nat): (c: char)
    requires d < 10
    ensures IsDigit(c)
  {
    ('0' as int + d) as char
  }

  /** `str(n)` for `n >= 0`: decimal digits without leading zeros. */
  function NatToString(n: nat): (r: string)
    ensures r != [] && (forall k :: 0 <= k < |r| ==> IsDigit(r[k]))
    ensures |r| > 1 ==> r[0] != '0'
  {
    if n < 10 then [DigitChar(n)] else NatToString(n / 10) + [DigitChar(n % 10)]
  }

  function DigitValue(c: char): nat
    requires IsDigit(c)
  {
    c as int - '0' as int
  }

  /** The number written by a string of decimal digits. */
  function DigitsValue(s: string): nat
    requires forall k :: 0 <= k < |s| ==> IsDigit(s[k])
  {
    if s == [] then 0 else 10 * DigitsValue(s[..|s| - 1]) + DigitValue(s[|s| - 1])
  }

  /** Reading back the digits of `str(n)` gives `n`. */
  lemma {:induction false} DigitsValueOfNat(n: nat)
    ensures DigitsValue(NatToString(n)) == n
  {
    if n >= 10 {
      DigitsValueOfNat(n / 10);
      var s := NatToString(n);
      assert s[..|s| - 1] == NatToString(n / 10);
    }
  }

  /** Distinct numbers have distinct decimal strings. */
  lemma NatToStringInjective(a: nat, b: nat)
    requires NatToString(a) == NatToString(b)
    ensures a == b
  {
    DigitsValueOfNat(a);
    DigitsValueOfNat(b);
  }

  /** `str(i)` for any integer. */
  function IntToString(i: int): string {
    if i < 0 then "-" + NatToString(-i) else NatToString(i)
  }

  function Zeros(n: nat): (r: string)
    ensures |r| == n && forall k :: 0 <= k < n ==> r[k] == '0'
  {
    if n == 0 then "" else "0" + Zeros(n - 1)
  }

  /** `f'{n:0{width}}'` for `n >= 0`: the digits of `n`, padded on the left with
      zeros to at least `width` characters. */
  function ZeroPad(n: nat, width: nat): (r: string)
    ensures |r| >= width && forall k :: 0 <= k < |r| ==> IsDigit(r[k])
  {
    var s := NatToString(n);
    if |s| < width then Zeros(width - |s|) + s else s
  }

  /** Leading zeros do not change the value of a digit string. */
  lemma {:induction false} DigitsValueLeadingZeros(z: nat, s: string)
    requires forall k :: 0 <= k < |s| ==> IsDigit(s[k])
    ensures DigitsValue(Zeros(z) + s) == DigitsValue(s)
    decreases |s|
  {
    if s == [] {
      ZerosValue(z);
      assert Zeros(z) + s == Zeros(z);
    } else {
      DigitsValueLeadingZeros(z, s[..|s| - 1]);
      assert (Zeros(z) + s)[..|Zeros(z) + s| - 1] == Zeros(z) + s[..|s| - 1];
    }
  }

  lemma {:induction false} ZerosValue(z: nat)
    ensures DigitsValue(Zeros(z)) == 0
  {
    if z > 0 {
      ZerosValue(z - 1);
      assert Zeros(z)[..z - 1] == Zeros(z - 1);
    }
  }

  /** Zero-padded numbers read back to the number they pad. */
  lemma ZeroPadValue(n: nat, width: nat)
    ensures DigitsValue(ZeroPad(n, width)) == n
  {
    DigitsValueOfNat(n);
    var s := NatToString(n);
    if |s| < width {
      DigitsValueLeadingZeros(width - |s|, s);
    }
  }

  /** Zero padding to a common width is one-to-one. */
  lemma ZeroPadInjective(a: nat, b: nat, width: nat)
    requires ZeroPad(a, width) == ZeroPad(b, width)
    ensures a == b
  {
    ZeroPadValue(a, width);
    ZeroPadValue(b, width);
  }

  /** Two concatenations with equally long second parts agree part by part. */
  lemma ConcatSameLength(a1: string, b1: string, a2: string, b2: string)
    requires a1 + b1 == a2 + b2 && |b1| == |b2|
    ensures a1 == a2 && b1 == b2
  {
    assert a1 == (a1 + b1)[..|a1|];
    assert a2 == (a2 + b2)[..|a2|];
    assert b1 == (a1 + b1)[|a1|..];
    assert b2 == (a2 + b2)[|a2|..];
  }

  /** `f'{i:0{width}}'` for any integer and `width >= 1`: a minus sign counts
      towards the width. */
  function FormatPadded(i: int, width: nat): string
    requires width >= 1
  {
    if i < 0 then "-" + ZeroPad(-i, width - 1) else ZeroPad(i, width)
  }

  /** Different integers formatted to the same width give different strings. */
  lemma FormatPaddedInjective(a: int, b: int, width: nat)
    requires width >= 1 && FormatPadded(a, width) == FormatPadded(b, width)
    ensures a == b
  {
    var fa, fb := FormatPadded(a, width), FormatPadded(b, width);
    assert (a < 0) == (fa[0] == '-') by {
      if a >= 0 { assert IsDigit(fa[0]); }
    }
    assert (b < 0) == (fb[0] == '-') by {
      if b >= 0 { assert IsDigit(fb[0]); }
    }
    if a < 0 {
      assert fa[1..] == ZeroPad(-a, width - 1);
      assert fb[1..] == ZeroPad(-b, width - 1);
      ZeroPadInjective(-a, -b, width - 1);
    } else {
      ZeroPadInjective(a, b, width);
    }
  }

  function Pow10(k: nat): (r: nat)
    ensures r >= 1
  {
    if k == 0 then 1 else 10 * Pow10(k - 1)
  }

  /** A number below `10^k` (k >= 1) has at most `k` digits. */
  lemma {:induction false} NatToStringLength(n: nat, k: nat)
    requires k >= 1 && n < Pow10(k)
    ensures |NatToString(n)| <= k
  {
    if n >= 10 {
      assert Pow10(1) == 10;
      assert n / 10 < Pow10(k - 1);
      NatToStringLength(n / 10, k - 1);
    }
  }

  /** Padding a number below `10^width` gives exactly `width` characters. */
  lemma ZeroPadWidth(n: nat, width: nat)
    requires width >= 1 && n < Pow10(width)
    ensures |ZeroPad(n, width)| == width
  {
    NatToStringLength(n, width);
  }

  /** `int(s)` on the strings it accepts here: optional surrounding white space,
      an optional sign and at least one ASCII digit. Anything else is a
      `ValueError`, shown as `None`. */
  function ParseInt(s: string): (r: Option<int>)
    ensures r.Some? ==> Strip(s) != []
  {
    ParseStripped(Strip(s))
  }

  predicate AllDigits(d: string) {
    forall k :: 0 <= k < |d| ==> IsDigit(d[k])
  }

  /** `int()` on a text without surrounding white space. */
  function ParseStripped(t: string): (r: Option<int>)
    ensures r.Some? ==> t != []
  {
    if t == [] then None
    else
      var negative := t[0] == '-';
      var digits := if t[0] == '-' || t[0] == '+' then t[1..] else t;
      if digits != [] && AllDigits(digits) then
        var v: int := DigitsValue(digits);
        Some(if negative then -v else v)
      else None
  }

  /** A string that neither starts nor ends with white space is its own strip. */
  lemma StripUnpadded(s: string)
    requires s != [] && !IsSpace(s[0]) && !IsSpace(s[|s| - 1])
    ensures Strip(s) == s
  {
    assert LeadingSpace(s) == 0;
    assert s[0..] == s;
    assert TrailingSpace(s) == 0;
  }

  /** `int(str(i)) == i`. */
  lemma ParseIntOfString(i: int)
    ensures ParseInt(IntToString(i)) == Some(i)
  {
    var sign := if i < 0 then "-" else "";
    var m: nat := if i < 0 then -i else i;
    assert IntToString(i) == "" + IntText(sign, 0, m) + "" by {
      assert Zeros(0) == "";
    }
    ParseIntOfText("", sign, 0, m, "");
  }

  /** The integer texts `int()` reads here: a sign or none, any number of
      leading zeros, then the decimal digits of the absolute value. */
  function IntText(sign: string, zeros: nat, n: nat): string {
    sign + Zeros(zeros) + NatToString(n)
  }

  predicate IsSign(sign: string) {
    sign == "" || sign == "+" || sign == "-"
  }

  function Signed(sign: string, n: nat): int {
    if sign == "-" then -(n as int) else n
  }

  lemma ZerosSnoc(k: nat)
    ensures Zeros(k) + "0" == Zeros(k + 1)
  {
    assert forall i :: 0 <= i < k + 1 ==> (Zeros(k) + "0")[i] == '0';
  }

  /** A string of digits is some zeros followed by the digits of its value. */
  predicate Canonical(d: string)
    requires forall k :: 0 <= k < |d| ==> IsDigit(d[k])
  {
    var w := NatToString(DigitsValue(d));
    |w| <= |d| && d == Zeros(|d| - |w|) + w
  }

  lemma {:induction false} DigitsCanonical(d: string)
    requires d != [] && forall k :: 0 <= k < |d| ==> IsDigit(d[k])
    ensures Canonical(d)
    decreases |d|
  {
    if |d| == 1 {
      DigitsCanonicalOne(d);
    } else {
      DigitsCanonical(d[..|d| - 1]);
      if DigitsValue(d[..|d| - 1]) == 0 {
        DigitsCanonicalAfterZero(d);
      } else {
        DigitsCanonicalAfterValue(d);
      }
    }
  }

  lemma DigitsCanonicalOne(d: string)
    requires |d| == 1 && IsDigit(d[0])
    ensures Canonical(d)
  {
    assert d[..0] == [];
    assert DigitsValue(d) == DigitValue(d[0]) < 10;
    assert DigitChar(DigitValue(d[0])) == d[0];
    assert d == [d[0]];
  }

  /** A digit after a canonical run of zeros: the zeros grow by one. */
  lemma DigitsCanonicalAfterZero(d: string)
    requires |d| > 1 && forall k :: 0 <= k < |d| ==> IsDigit(d[k])
    requires Canonical(d[..|d| - 1]) && DigitsValue(d[..|d| - 1]) == 0
    ensures Canonical(d)
  {
    var d', c := d[..|d| - 1], d[|d| - 1];
    assert DigitsValue(d) == DigitValue(c) < 10;
    assert DigitChar(DigitValue(c)) == c;
    assert NatToString(DigitsValue(d)) == [c];
    assert d' == Zeros(|d'| - 1) + "0";
    ZerosSnoc(|d'| - 1);
    assert d == d' + [c];
  }

  /** A digit after a canonical run with a non-zero value: the digit joins
      the value's digits. */
  lemma DigitsCanonicalAfterValue(d: string)
    requires |d| > 1 && forall k :: 0 <= k < |d| ==> IsDigit(d[k])
    requires Canonical(d[..|d| - 1]) && DigitsValue(d[..|d| - 1]) != 0
    ensures Canonical(d)
  {
    var d', c := d[..|d| - 1], d[|d| - 1];
    var v' := DigitsValue(d');
    var w' := NatToString(v');
    var z := Zeros(|d'| - |w'|);
    assert DigitsValue(d) == 10 * v' + DigitValue(c);
    NatToStringSnoc(v', c);
    assert d' == z + w';
    InitAndLast(d);
    AppendSnoc(z, w', c);
  }

  lemma AppendSnoc(a: string, b: string, c: char)
    ensures (a + b) + [c] == a + (b + [c])
  {
  }

  lemma InitAndLast(s: string)
    requires s != []
    ensures s == s[..|s| - 1] + [s[|s| - 1]]
  {
  }

  /** Appending a digit to a positive number appends it to its digits. */
  lemma NatToStringSnoc(v: nat, c: char)
    requires v > 0 && IsDigit(c)
    ensures NatToString(10 * v + DigitValue(c)) == NatToString(v) + [c]
  {
    var n := 10 * v + DigitValue(c);
    assert n / 10 == v && n % 10 == DigitValue(c);
    assert DigitChar(DigitValue(c)) == c;
  }

  /** What `int()` accepts is an integer text of the value, up to the white
      space `strip()` removes. */
  lemma ParseIntShape(s: string)
    requires ParseInt(s).Some?
    ensures var v := ParseInt(s).value;
            var n: nat := if v < 0 then -v else v;
            exists sign: string, zeros: nat :: IsSign(sign) && Strip(s) == IntText(sign, zeros, n) && v == Signed(sign, n)
  {
    ParseStrippedShape(Strip(s));
  }

  lemma ParseStrippedShape(t: string)
    requires ParseStripped(t).Some?
    ensures var v := ParseStripped(t).value;
            var n: nat := if v < 0 then -v else v;
            exists sign: string, zeros: nat :: IsSign(sign) && t == IntText(sign, zeros, n) && v == Signed(sign, n)
  {
    var sign, digits := SignAndDigits(t);
    DigitsCanonical(digits);
    var m := DigitsValue(digits);
    var zeros := |digits| - |NatToString(m)|;
    assert t == IntText(sign, zeros, m);
  }

  /** The sign and the digits `int()` read from a stripped text. */
  lemma SignAndDigits(t: string) returns (sign: string, digits: string)
    requires ParseStripped(t).Some?
    ensures IsSign(sign) && digits != [] && AllDigits(digits) && t == sign + digits
    ensures ParseStripped(t).value == Signed(sign, DigitsValue(digits))
  {
    sign := if t[0] == '-' || t[0] == '+' then [t[0]] else "";
    digits := if t[0] == '-' || t[0] == '+' then t[1..] else t;
  }

  /** `strip()` of a text padded with white space is the text. */
  lemma StripPadded(pre: string, t: string, post: string)
    requires t != [] && !IsSpace(t[0]) && !IsSpace(t[|t| - 1])
    requires forall k :: 0 <= k < |pre| ==> IsSpace(pre[k])
    requires forall k :: 0 <= k < |post| ==> IsSpace(post[k])
    ensures Strip(pre + t + post) == t
  {
    var s := pre + t + post;
    assert forall k :: 0 <= k < |pre| ==> s[k] == pre[k];
    assert s[|pre|] == t[0];
    var n := LeadingSpace(s);
    assert n == |pre|;
    var l := s[n..];
    assert l == t + post;
    assert forall k :: 0 <= k < |post| ==> l[|t| + k] == post[k];
    assert l[|t| - 1] == t[|t| - 1];
    var m := TrailingSpace(l);
    assert m == |post|;
    assert l[..|l| - m] == t;
  }

  /** Every integer text, with white space around it, is read as its value. */
  lemma ParseIntOfText(pre: string, sign: string, zeros: nat, n: nat, post: string)
    requires IsSign(sign)
    requires forall k :: 0 <= k < |pre| ==> IsSpace(pre[k])
    requires forall k :: 0 <= k < |post| ==> IsSpace(post[k])
    ensures ParseInt(pre + IntText(sign, zeros, n) + post) == Some(Signed(sign, n))
  {
    IntTextEnds(sign, zeros, n);
    StripPadded(pre, IntText(sign, zeros, n), post);
    PaddedDigits(zeros, n);
    ParseStrippedDigits(sign, Zeros(zeros) + NatToString(n));
  }

  /** An integer text neither starts nor ends with white space. */
  lemma IntTextEnds(sign: string, zeros: nat, n: nat)
    requires IsSign(sign)
    ensures var t := IntText(sign, zeros, n);
            t != [] && !IsSpace(t[0]) && !IsSpace(t[|t| - 1])
            && t == sign + (Zeros(zeros) + NatToString(n))
  {
    var d := Zeros(zeros) + NatToString(n);
    var t := IntText(sign, zeros, n);
    assert t == sign + d;
    assert d != [] && IsDigit(d[0]) && IsDigit(d[|d| - 1]) by {
      PaddedDigits(zeros, n);
    }
    assert !IsSpace(t[|t| - 1]) by {
      assert t[|t| - 1] == d[|d| - 1];
      NotSpace(d[|d| - 1]);
    }
    assert !IsSpace(t[0]) by {
      if sign == "" {
        assert t[0] == d[0];
        NotSpace(d[0]);
      } else {
        assert t[0] == sign[0];
        NotSpace(sign[0]);
      }
    }
  }

  /** Digits and signs are not white space. */
  lemma NotSpace(c: char)
    requires IsDigit(c) || c == '+' || c == '-'
    ensures !IsSpace(c)
  {
  }

  /** Zeros followed by the digits of `n` are digits that read as `n`. */
  lemma PaddedDigits(zeros: nat, n: nat)
    ensures var d := Zeros(zeros) + NatToString(n);
            d != [] && AllDigits(d) && DigitsValue(d) == n
            && IsDigit(d[0]) && IsDigit(d[|d| - 1])
  {
    DigitsValueLeadingZeros(zeros, NatToString(n));
    DigitsValueOfNat(n);
  }

  lemma ParseStrippedDigits(sign: string, d: string)
    requires IsSign(sign) && d != [] && AllDigits(d)
    ensures ParseStripped(sign + d) == Some(Signed(sign, DigitsValue(d)))
  {
    if sign == "" {
      assert sign + d == d;
      ParseUnsignedDigits(d);
    } else {
      assert sign == [sign[0]];
      ParseSignedDigits(sign[0], d);
    }
  }

  lemma ParseUnsignedDigits(d: string)
    requires d != [] && AllDigits(d)
    ensures ParseStripped(d) == Some(DigitsValue(d) as int)
  {
    assert IsDigit(d[0]);
  }

  lemma ParseSignedDigits(c: char, d: string)
    requires (c == '+' || c == '-') && d != [] && AllDigits(d)
    ensures ParseStripped([c] + d) == Some(Signed([c], DigitsValue(d)))
  {
    var t := [c] + d;
    assert t[0] == c && t[1..] == d;
  }

  /** `s[:n]`: the first `n` characters, or all of `s` when it is shorter. */
  function Prefix(s: string, n: nat): (r: string)
    ensures |r| == if |s| < n then |s| else n
    ensures StartsWith(s, r)
  {
    if |s| <= n then s else s[..n]
  }
}
