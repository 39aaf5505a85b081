/**
 * String helpers shared by the web and desktop models: decimal digits and
 * their values, number rendering, zero padding, splitting on a separator,
 * removing a character and ASCII case mapping.
 */
module Text {

  predicate IsDigit(c: char) {
    '0' <= c <= '9'
  }

  predicate AllDigits(s: string) {
    forall i :: 0 <= i < |s| ==> IsDigit(s[i])
  }

  function DigitValue(c: char): (d: nat)
    requires IsDigit(c)
    ensures d < 10
  {
    (c as int) - ('0' as int)
  }

  function DigitChar(d: nat): (c: char)
    requires d < 10
    ensures IsDigit(c) && DigitValue(c) == d
  {
    (('0' as int) + d) as char
  }

  /** A character that is not a digit does not occur in a digit string. */
  lemma NonDigitAbsent(s: string, c: char)
    requires AllDigits(s) && !IsDigit(c)
    ensures c !in s
  {
    forall i | 0 <= i < |s|
      ensures s[i] != c
    {
      assert IsDigit(s[i]);
    }
  }

  /** Value of a string of decimal digits, most significant first; the empty string reads as 0. */
  function DigitsValue(s: string): nat
    requires AllDigits(s)
  {
    if s == [] then 0 else 10 * DigitsValue(s[..|s| - 1]) + DigitValue(s[|s| - 1])
  }

  /** Shortest decimal rendering of `n`, as JavaScript's and Java's toString give it. */
  function NatToString(n: nat): (s: string)
    ensures 1 <= |s| && AllDigits(s)
    ensures (n < 10) == (|s| == 1)
  {
    if n < 10 then [DigitChar(n)] else NatToString(n / 10) + [DigitChar(n % 10)]
  }

  /** Decimal rendering of an integer, with a leading '-' when it is negative. */
  function IntToString(i: int): string {
    if i < 0 then "-" + NatToString(-i) else NatToString(i)
  }

  /** Reading back the rendering of `n` gives `n`. */
  lemma {:induction false} NatToStringValue(n: nat)
    ensures DigitsValue(NatToString(n)) == n
  {
    if n >= 10 {
      NatToStringValue(n / 10);
      var s := NatToString(n);
      assert s[..|s| - 1] == NatToString(n / 10);
    }
  }

  function Repeat(c: char, k: nat): (r: string)
    ensures |r| == k
  {
    seq(k, _ => c)
  }

  /** JavaScript's `s.padStart(width, fill)` for a one-character fill. */
  function PadStart(s: string, width: nat, fill: char): (r: string)
    ensures |r| == if |s| < width then width else |s|
  {
    if |s| < width then Repeat(fill, width - |s|) + s else s
  }

  /** Leading zeros do not change the value of a digit string. */
  lemma {:induction false} LeadingZerosValue(k: nat, s: string)
    requires AllDigits(s)
    ensures AllDigits(Repeat('0', k) + s)
    ensures DigitsValue(Repeat('0', k) + s) == DigitsValue(s)
  {
    var t := Repeat('0', k) + s;
    if s == [] {
      assert t == Repeat('0', k);
      if k > 0 {
        LeadingZerosValue(k - 1, []);
        assert t[..|t| - 1] == Repeat('0', k - 1) + [];
      }
    } else {
      LeadingZerosValue(k, s[..|s| - 1]);
      assert t[..|t| - 1] == Repeat('0', k) + s[..|s| - 1];
    }
  }

  /** The last `k` decimal digits of `v`, zero-padded to width `k`. */
  function FixedWidth(v: nat, k: nat): (s: string)
    ensures |s| == k && AllDigits(s)
  {
    if k == 0 then [] else FixedWidth(v / 10, k - 1) + [DigitChar(v % 10)]
  }

  /** A digit string is the fixed-width rendering of its own value. */
  lemma {:induction false} FixedWidthOfDigits(s: string)
    requires AllDigits(s)
    ensures FixedWidth(DigitsValue(s), |s|) == s
  {
    if s != [] {
      var init := s[..|s| - 1];
      FixedWidthOfDigits(init);
      var v := DigitsValue(s);
      assert v / 10 == DigitsValue(init) && v % 10 == DigitValue(s[|s| - 1]);
      assert s == init + [s[|s| - 1]];
    }
  }

  /** A two-digit string is worth ten times its first digit plus its second. */
  lemma TwoDigitsValue(s: string)
    requires |s| == 2 && AllDigits(s)
    ensures DigitsValue(s) == 10 * DigitValue(s[0]) + DigitValue(s[1]) < 100
  {
    var first := s[..1];
    assert first[..0] == [] && first[0] == s[0];
    assert DigitsValue(first) == DigitValue(s[0]);
    assert s[..|s| - 1] == first;
  }

  /** Below 100, padding the shortest rendering to two places is the two-digit rendering. */
  lemma TwoDigitPadding(v: nat)
    requires v < 100
    ensures PadStart(NatToString(v), 2, '0') == FixedWidth(v, 2)
  {
    if v < 10 {
      assert FixedWidth(v, 2) == FixedWidth(0, 1) + [DigitChar(v)];
    } else {
      assert NatToString(v) == [DigitChar(v / 10)] + [DigitChar(v % 10)];
      assert FixedWidth(v, 2) == FixedWidth(v / 10, 1) + [DigitChar(v % 10)];
    }
  }

  /** The position of the first occurrence of `c` in `s`. */
  function FirstIndex(s: string, c: char): (i: nat)
    requires c in s
    ensures i < |s| && s[i] == c && c !in s[..i]
  {
    if s[0] == c then 0
    else
      assert s == [s[0]] + s[1..];
      var j := FirstIndex(s[1..], c);
      assert s[..j + 1] == [s[0]] + s[1..][..j];
      j + 1
  }

  /** `FirstIndex` is determined by its contract: any first occurrence is the first occurrence. */
  lemma FirstIndexUnique(s: string, c: char, i: nat)
    requires i < |s| && s[i] == c && c !in s[..i]
    ensures FirstIndex(s, c) == i
  {
  }

  /**
   * The fields of `s` between occurrences of `sep`, empty fields included, as
   * JavaScript's `s.split(sep)` returns them for a one-character separator.
   */
  function Split(s: string, sep: char): (parts: seq<string>)
    ensures |parts| >= 1
    decreases |s|
  {
    if sep !in s then [s]
    else
      var i := FirstIndex(s, sep);
      [s[..i]] + Split(s[i + 1..], sep)
  }

  /** A string without the separator is a single field. */
  lemma SplitWithoutSeparator(s: string, sep: char)
    requires sep !in s
    ensures Split(s, sep) == [s]
  {
  }

  /** Splitting at one occurrence of the separator splits both sides independently. */
  lemma {:induction false} SplitAtSeparator(a: string, sep: char, b: string)
    ensures Split(a + [sep] + b, sep) == Split(a, sep) + Split(b, sep)
    decreases |a|
  {
    if sep !in a {
      SplitFirstField(a, sep, b);
    } else {
      var i := FirstIndex(a, sep);
      var rest := a[i + 1..];
      assert |rest| < |a|;
      SplitAtSeparator(rest, sep, b);
      SplitLaterField(a, sep, b, i);
    }
  }

  /** Splitting at the first separator, found at `i`, gives the field before it and the fields after it. */
  lemma SplitAtFirst(s: string, sep: char, i: nat)
    requires i < |s| && s[i] == sep && sep !in s[..i]
    ensures Split(s, sep) == [s[..i]] + Split(s[i + 1..], sep)
  {
    FirstIndexUnique(s, sep, i);
  }

  /** The slices of `a + [sep] + b` at a position `i` inside `a`. */
  lemma JoinedSlices(a: string, sep: char, b: string, i: nat)
    requires i <= |a|
    ensures (a + [sep] + b)[..i] == a[..i]
    ensures i < |a| ==> (a + [sep] + b)[i] == a[i] && (a + [sep] + b)[i + 1..] == a[i + 1..] + [sep] + b
    ensures i == |a| ==> (a + [sep] + b)[i] == sep && (a + [sep] + b)[i + 1..] == b
  {
  }

  /** When the first separator is the one between `a` and `b`, the first field is `a`. */
  lemma SplitFirstField(a: string, sep: char, b: string)
    requires sep !in a
    ensures Split(a + [sep] + b, sep) == [a] + Split(b, sep)
  {
    JoinedSlices(a, sep, b, |a|);
    assert a[..|a|] == a;
    SplitAtFirst(a + [sep] + b, sep, |a|);
  }

  /** When `a` holds a separator at `i`, the fields of `a + [sep] + b` start with `a[..i]`. */
  lemma SplitLaterField(a: string, sep: char, b: string, i: nat)
    requires i < |a| && a[i] == sep && sep !in a[..i]
    requires Split(a[i + 1..] + [sep] + b, sep) == Split(a[i + 1..], sep) + Split(b, sep)
    ensures Split(a + [sep] + b, sep) == Split(a, sep) + Split(b, sep)
  {
    var s, rest := a + [sep] + b, a[i + 1..];
    JoinedSlices(a, sep, b, i);
    SplitAtFirst(s, sep, i);
    SplitAtFirst(a, sep, i);
    ConsAppend(a[..i], Split(rest, sep), Split(b, sep));
  }

  lemma ConsAppend<T>(x: T, p: seq<T>, q: seq<T>)
    ensures [x] + (p + q) == [x] + p + q
  {
  }

  /** Java's `s.replace("c", "")` for a one-character target: every occurrence of `c` is dropped. */
  function RemoveAll(s: string, c: char): (r: string)
    ensures c !in r
    ensures c !in s ==> r == s
    ensures |r| <= |s|
  {
    if s == [] then [] else (if s[0] == c then [] else [s[0]]) + RemoveAll(s[1..], c)
  }

  /**
   * Removal works piece by piece: the characters other than `c` survive in
   * their order, wherever the occurrences of `c` are.
   */
  lemma {:induction false} RemoveAllAppend(a: string, b: string, c: char)
    ensures RemoveAll(a + b, c) == RemoveAll(a, c) + RemoveAll(b, c)
  {
    if a == [] {
      assert a + b == b;
    } else {
      assert (a + b)[1..] == a[1..] + b;
      assert (a + b)[0] == a[0];
      RemoveAllAppend(a[1..], b, c);
    }
  }

  /** One character is dropped if it is `c` and kept otherwise. */
  lemma RemoveAllSingle(x: char, c: char)
    ensures RemoveAll([x], c) == if x == c then [] else [x]
  {
    assert [x][1..] == [];
  }

  /** An occurrence of `c` inside a string is dropped and the two sides are joined. */
  lemma RemoveAllInside(a: string, b: string, c: char)
    requires c !in a && c !in b
    ensures RemoveAll(a + [c] + b, c) == a + b
  {
    RemoveAllAppend(a + [c], b, c);
    RemoveAllAppend(a, [c], c);
    RemoveAllSingle(c, c);
  }

  /** Removing a character that only ends the string leaves what came before it. */
  lemma RemoveAllTrailing(s: string, c: char)
    requires c !in s
    ensures RemoveAll(s + [c], c) == s
  {
    if s != [] {
      assert (s + [c])[1..] == s[1..] + [c];
      RemoveAllTrailing(s[1..], c);
    }
  }

  /** ASCII lower-casing of one character; every other character is left as it is. */
  function LowerChar(c: char): char {
    if 'A' <= c <= 'Z' then ((c as int) + 32) as char else c
  }

  /** ASCII upper-casing of one character; every other character is left as it is. */
  function UpperChar(c: char): char {
    if 'a' <= c <= 'z' then ((c as int) - 32) as char else c
  }

  function ToLower(s: string): string {
    seq(|s|, i requires 0 <= i < |s| => LowerChar(s[i]))
  }
}
