/** The string operations the enclosure analysis relies on: the built-ins
    `toLowerCase`, `split` and the decimal rendering of a number inside a
    template literal, each stated with a partner that pins down what it means. */
module Texto {

  datatype Option<T> = None | Some(value: T)

  // ---------------------------------------------------------------------------
  // Lower-casing (ASCII letters only)
  // ---------------------------------------------------------------------------

  predicate IsUpper(c: char) {
    'A' <= c <= 'Z'
  }

  function LowerChar(c: char): (r: char)
    ensures !IsUpper(r)
    ensures IsUpper(c) ==> r as int == c as int + 32
    ensures !IsUpper(c) ==> r == c
  {
    if IsUpper(c) then (c as int + 32) as char else c
  }

  /** `s.toLowerCase()`, restricted to the ASCII letters. */
  function Lower(s: string): string {
    seq(|s|, i requires 0 <= i < |s| => LowerChar(s[i]))
  }

  /** A string without upper-case letters is its own lower-case form. */
  lemma LowerOfLower(s: string)
    requires forall i :: 0 <= i < |s| ==> !IsUpper(s[i])
    ensures Lower(s) == s
  {
  }

  // ---------------------------------------------------------------------------
  // Splitting on a separator, and its inverse
  // ---------------------------------------------------------------------------

  /** `sep` occurs in `s` starting at position `i`. */
  predicate OccursAt(s: string, sep: string, i: int) {
    0 <= i && i + |sep| <= |s| && s[i..i + |sep|] == sep
  }

  ghost predicate Contains(s: string, sep: string) {
    exists i :: OccursAt(s, sep, i)
  }

  /** The first position at or after `from` where `sep` occurs in `s`. */
  function FirstFrom(s: string, sep: string, from: nat): (r: Option<nat>)
    requires |sep| > 0
    ensures r.Some? ==> from <= r.value && OccursAt(s, sep, r.value)
    ensures forall j :: from <= j && (r.None? || j < r.value) ==> !OccursAt(s, sep, j)
    decreases |s| - from
  {
    if from + |sep| > |s| then None
    else if s[from..from + |sep|] == sep then Some(from)
    else FirstFrom(s, sep, from + 1)
  }

  /** `parts.join(sep)`. */
  function Join(parts: seq<string>, sep: string): string {
    if |parts| == 0 then ""
    else if |parts| == 1 then parts[0]
    else parts[0] + sep + Join(parts[1..], sep)
  }

  /** Where piece `k` starts in `Join(parts, sep)`. */
  function Offset(parts: seq<string>, sep: string, k: nat): nat
    requires k <= |parts|
  {
    if k == 0 then 0 else |parts[0]| + |sep| + Offset(parts[1..], sep, k - 1)
  }

  /** No occurrence of `sep` in `s` starts inside one of the pieces `r`, laid
      out in `s` as `Join(r, sep)` lays them out. */
  predicate SeparadoresMaisAEsquerda(s: string, sep: string, r: seq<string>) {
    forall k, j :: 0 <= k < |r| && Offset(r, sep, k) <= j < Offset(r, sep, k) + |r[k]| ==> !OccursAt(s, sep, j)
  }

  /** The step of `Split`: a first piece free of occurrences, a separator,
      and pieces laid out leftmost in the rest, are laid out leftmost in the
      whole string. */
  lemma MaisAEsquerdaCons(s: string, sep: string, i: nat, rest: seq<string>)
    requires |sep| > 0 && i + |sep| <= |s|
    requires forall j :: 0 <= j < i ==> !OccursAt(s, sep, j)
    requires SeparadoresMaisAEsquerda(s[i + |sep|..], sep, rest)
    ensures SeparadoresMaisAEsquerda(s, sep, [s[..i]] + rest)
  {
    var r, d, tail := [s[..i]] + rest, i + |sep|, s[i + |sep|..];
    assert r[1..] == rest;
    forall k, j | 0 <= k < |r| && Offset(r, sep, k) <= j < Offset(r, sep, k) + |r[k]|
      ensures !OccursAt(s, sep, j)
    {
      if k > 0 {
        assert r[k] == rest[k - 1];
        assert Offset(r, sep, k) == d + Offset(rest, sep, k - 1);
        if OccursAt(s, sep, j) {
          assert tail[j - d..j - d + |sep|] == s[j..j + |sep|];
          assert OccursAt(tail, sep, j - d);
        }
      }
    }
  }

  /** `s.split(sep)` for a non-empty separator: the pieces between the
      occurrences of `sep`, found left to right without overlapping. The pieces
      joined back with `sep` give `s`, no piece contains `sep`, and no
      occurrence of `sep` in `s` starts inside a piece, so every separator
      taken out is the leftmost one still available. */
  function Split(s: string, sep: string): (r: seq<string>)
    requires |sep| > 0
    ensures |r| >= 1
    ensures Join(r, sep) == s
    ensures forall k :: 0 <= k < |r| ==> !Contains(r[k], sep)
    ensures SeparadoresMaisAEsquerda(s, sep, r)
    decreases |s|
  {
    match FirstFrom(s, sep, 0)
    case None => [s]
    case Some(i) =>
      var head, tail := s[..i], s[i + |sep|..];
      assert s == head + sep + tail;
      assert !Contains(head, sep) by {
        forall j | OccursAt(head, sep, j) ensures false {
          assert head[j..j + |sep|] == s[j..j + |sep|];
          assert OccursAt(s, sep, j);
        }
      }
      var rest := Split(tail, sep);
      MaisAEsquerdaCons(s, sep, i, rest);
      [head] + rest
  }

  /** A string without the separator splits into itself alone. */
  lemma SplitWithoutSeparator(s: string, sep: string)
    requires |sep| > 0 && !Contains(s, sep)
    ensures Split(s, sep) == [s]
  {
  }

  /** A string none of whose characters starts the separator is not split. */
  lemma SplitWithoutSeparatorStart(s: string, sep: string)
    requires |sep| > 0 && sep[0] !in s
    ensures Split(s, sep) == [s]
  {
    forall j | 0 <= j && j + |sep| <= |s| ensures !OccursAt(s, sep, j) {
      assert s[j..j + |sep|][0] == s[j];
    }
    SplitWithoutSeparator(s, sep);
  }

  /** Two pieces free of the separator's first character, joined by the
      separator, split back into the two pieces. */
  lemma SplitTwo(a: string, sep: string, b: string)
    requires |sep| > 0
    requires sep[0] !in a && sep[0] !in b
    ensures Split(a + sep + b, sep) == [a, b]
  {
    var s := a + sep + b;
    assert s[..|a|] == a && s[|a| + |sep|..] == b && s[|a|..|a| + |sep|] == sep;
    forall j | 0 <= j < |a| && j + |sep| <= |s| ensures !OccursAt(s, sep, j) {
      assert s[j..j + |sep|][0] == s[j] == a[j];
    }
    assert OccursAt(s, sep, |a|);
    assert FirstFrom(s, sep, 0) == Some(|a|);
    SplitWithoutSeparatorStart(b, sep);
    assert Split(s, sep) == [a] + Split(b, sep);
  }

  // ---------------------------------------------------------------------------
  // Decimal rendering of integers, as in `${n}`
  // ---------------------------------------------------------------------------

  predicate IsDigit(c: char) {
    '0' <= c <= '9'
  }

  function DigitChar(d: nat): (c: char)
    requires d < 10
    ensures IsDigit(c) && c as int - '0' as int == d
  {
    ('0' as int + d) as char
  }

  /** The number a string of decimal digits denotes. */
  function DigitsValue(s: string): int
    requires forall i :: 0 <= i < |s| ==> IsDigit(s[i])
  {
    if s == [] then 0
    else 10 * DigitsValue(s[..|s| - 1]) + (s[|s| - 1] as int - '0' as int)
  }

  /** The shortest decimal form of `n`: digits only, no leading zero, and its
      value is `n`. */
  function NatToString(n: nat): (r: string)
    ensures 1 <= |r|
    ensures forall i :: 0 <= i < |r| ==> IsDigit(r[i])
    ensures |r| > 1 ==> r[0] != '0'
    ensures DigitsValue(r) == n
  {
    if n < 10 then [DigitChar(n)]
    else
      var r := NatToString(n / 10) + [DigitChar(n % 10)];
      assert r[..|r| - 1] == NatToString(n / 10);
      r
  }

  /** `${n}` for an integer: a minus sign for a negative number, then the
      decimal digits of its magnitude. */
  function IntToString(n: int): (r: string)
    ensures 1 <= |r|
    ensures (r[0] == '-') == (n < 0)
    ensures n >= 0 ==> r == NatToString(n)
    ensures n < 0 ==> r[1..] == NatToString(-n)
  {
    if n < 0 then "-" + NatToString(-n) else NatToString(n)
  }

  /** `${n}` is made of digits and possibly a leading minus sign, so it holds
      neither a space nor a parenthesis. */
  lemma IntToStringChars(n: int)
    ensures forall i :: 0 <= i < |IntToString(n)| ==> IntToString(n)[i] == '-' || IsDigit(IntToString(n)[i])
  {
    var r := IntToString(n);
    if n < 0 {
      forall i | 0 <= i < |r| ensures r[i] == '-' || IsDigit(r[i]) {
        if i > 0 { assert r[i] == r[1..][i - 1]; }
      }
    }
  }

  /** Two strings that each run up to a first occurrence of the marker `c`
      split at the same place: a piece free of `c` followed by a rest that
      starts with `c` is determined by the whole. */
  lemma AteAMarca(x: string, y: string, x2: string, y2: string, c: char)
    requires c !in x && c !in x2
    requires |y| > 0 && |y2| > 0 && y[0] == c && y2[0] == c
    requires x + y == x2 + y2
    ensures x == x2 && y == y2
  {
    assert x == (x + y)[..|x|] && x2 == (x2 + y2)[..|x2|];
    assert y == (x + y)[|x|..] && y2 == (x2 + y2)[|x2|..];
  }

  /** Different integers print differently, so the rendered numbers in a
      description determine the numbers. */
  lemma IntToStringInjective(m: int, n: int)
    requires IntToString(m) == IntToString(n)
    ensures m == n
  {
    if m < 0 {
      assert NatToString(-m) == IntToString(m)[1..] == NatToString(-n);
    } else {
      assert NatToString(m) == NatToString(n);
    }
  }
}
