/** The few .NET string operations the parser relies on, over `string` = `seq<char>`. */
module Text {
  import opened Wrappers

  /** A .NET string reference: `None` stands for `null`. */
  type NString = Option<string>

  /** `Char.IsWhiteSpace`: U+0009..U+000D, U+0085, and the Unicode space, line and paragraph separators. */
  predicate IsWhiteSpace(c: char) {
    || ('\U{9}' <= c <= '\U{D}') || c == ' ' || c == '\U{85}' || c == '\U{A0}' || c == '\U{1680}'
    || ('\U{2000}' <= c <= '\U{200A}') || c == '\U{2028}' || c == '\U{2029}' || c == '\U{202F}'
    || c == '\U{205F}' || c == '\U{3000}'
  }

  /**
   * `string.IsNullOrWhiteSpace`: a string is blank unless it holds a character that is not
   * white space; the empty string is blank.
   */
  predicate IsNullOrWhiteSpace(s: NString)
    ensures !IsNullOrWhiteSpace(s) <==> s.Some? && exists i :: 0 <= i < |s.value| && !IsWhiteSpace(s.value[i])
    ensures s == Some("") ==> IsNullOrWhiteSpace(s)
  {
    match s
    case None => true
    case Some(v) => forall i :: 0 <= i < |v| ==> IsWhiteSpace(v[i])
  }

  /** Upper-casing as `StringComparison.OrdinalIgnoreCase` applies it, restricted to ASCII letters. */
  function ToUpperChar(c: char): char {
    if 'a' <= c <= 'z' then (c as int - 32) as char else c
  }

  function ToUpper(s: string): (r: string)
    ensures |r| == |s|
  {
    seq(|s|, i requires 0 <= i < |s| => ToUpperChar(s[i]))
  }

  /**
   * `string.Equals(a, b, StringComparison.OrdinalIgnoreCase)`: two nulls are equal, null
   * equals no string, and two strings are equal when they have the same length and agree
   * character by character once ASCII letters are upper-cased.
   */
  predicate EqualsIgnoreCase(a: NString, b: NString)
    ensures EqualsIgnoreCase(a, b) <==>
      || (a.None? && b.None?)
      || (&& a.Some? && b.Some? && |a.value| == |b.value|
          && forall i :: 0 <= i < |a.value| ==> ToUpperChar(a.value[i]) == ToUpperChar(b.value[i]))
  {
    match a
    case None => b == None
    case Some(x) =>
      match b
      case None => false
      case Some(y) =>
        assert forall i :: 0 <= i < |x| ==> ToUpper(x)[i] == ToUpperChar(x[i]);
        assert forall i :: 0 <= i < |y| ==> ToUpper(y)[i] == ToUpperChar(y[i]);
        ToUpper(x) == ToUpper(y)
  }

  /** Comparing ignoring case is an equivalence: lookups by name do not depend on which side is asked. */
  lemma EqualsIgnoreCaseEquivalence(a: NString, b: NString, c: NString)
    ensures EqualsIgnoreCase(a, a)
    ensures EqualsIgnoreCase(a, b) ==> EqualsIgnoreCase(b, a)
    ensures EqualsIgnoreCase(a, b) && EqualsIgnoreCase(b, c) ==> EqualsIgnoreCase(a, c)
    ensures a.Some? && b.Some? && |a.value| != |b.value| ==> !EqualsIgnoreCase(a, b)
  {
  }

  /** What string interpolation and `string.Join` print for a reference: nothing for `null`. */
  function Show(s: NString): string {
    match s
    case None => ""
    case Some(v) => v
  }

  function Spaces(n: nat): (r: string)
    ensures |r| == n && forall i :: 0 <= i < n ==> r[i] == ' '
  {
    if n == 0 then "" else Spaces(n - 1) + " "
  }

  /** The `{value,-width}` format item: left-aligned, padded with spaces on the right. */
  function PadRight(s: string, width: nat): (r: string)
    ensures |r| == if |s| < width then width else |s|
    ensures r[..|s|] == s
    ensures forall i :: |s| <= i < |r| ==> r[i] == ' '
  {
    if |s| < width then s + Spaces(width - |s|) else s
  }

  /**
   * `string.Join(separator, values)`: the entries in order, a null entry printed as nothing,
   * with the separator between neighbours.
   */
  function Join(separator: string, values: seq<NString>): string {
    if |values| == 0 then ""
    else if |values| == 1 then Show(values[0])
    else Show(values[0]) + separator + Join(separator, values[1..])
  }

  /**
   * The joined string is empty for no values, is the value itself for one, and otherwise
   * starts with the first value followed by the separator.
   */
  lemma JoinShape(separator: string, values: seq<NString>)
    ensures var r := Join(separator, values);
      && (|values| == 0 ==> r == "")
      && (|values| > 0 ==> |Show(values[0])| <= |r| && r[..|Show(values[0])|] == Show(values[0]))
      && (|values| > 1 ==>
            var n := |Show(values[0])|;
            n + |separator| <= |r| && r[n..n + |separator|] == separator)
      && (|values| == 1 ==> r == Show(values[0]))
  {
    if |values| > 1 {
      var r := Join(separator, values);
      var n := |Show(values[0])|;
      assert r == Show(values[0]) + separator + Join(separator, values[1..]);
      assert r[..n] == Show(values[0]);
      assert r[n..n + |separator|] == separator;
    }
  }

  /** `s.Split(separator)`: the pieces between occurrences of `separator`. */
  function Split(s: string, separator: char): (r: seq<string>)
    ensures |r| >= 1
  {
    if |s| == 0 then [""]
    else
      var rest := Split(s[1..], separator);
      if s[0] == separator then [""] + rest else [[s[0]] + rest[0]] + rest[1..]
  }

  lemma {:induction false} SplitPrefix(a: string, separator: char, b: string)
    requires separator !in a
    ensures Split(a + [separator] + b, separator) == [a] + Split(b, separator)
    ensures Split(a, separator) == [a]
  {
    if |a| > 0 {
      assert (a + [separator] + b)[1..] == a[1..] + [separator] + b;
      SplitPrefix(a[1..], separator, b);
      assert [a[0]] + a[1..] == a;
    }
  }

  /** Splitting a joined list on the separator gives back the entries, when none of them contains it. */
  lemma {:induction false} SplitJoin(values: seq<NString>, separator: char)
    requires |values| > 0
    requires forall i :: 0 <= i < |values| ==> separator !in Show(values[i])
    ensures Split(Join([separator], values), separator) == seq(|values|, i requires 0 <= i < |values| => Show(values[i]))
  {
    if |values| == 1 {
      SplitPrefix(Show(values[0]), separator, "");
    } else {
      var rest := values[1..];
      assert Join([separator], values) == Show(values[0]) + [separator] + Join([separator], rest);
      SplitPrefix(Show(values[0]), separator, Join([separator], rest));
      SplitJoin(rest, separator);
      var shown := seq(|values|, i requires 0 <= i < |values| => Show(values[i]));
      assert shown == [Show(values[0])] + seq(|rest|, i requires 0 <= i < |rest| => Show(rest[i]));
    }
  }

  /** The number a string of decimal digits denotes, most significant digit first. */
  function DigitsValue(s: string): nat
    requires forall i :: 0 <= i < |s| ==> '0' <= s[i] <= '9'
  {
    if |s| == 0 then 0 else DigitsValue(s[..|s| - 1]) * 10 + (s[|s| - 1] - '0') as nat
  }

  /** The decimal digits of `n`, without leading zeros. */
  function NatToString(n: nat): (r: string)
    ensures |r| >= 1
    ensures forall i :: 0 <= i < |r| ==> '0' <= r[i] <= '9'
    ensures DigitsValue(r) == n
    ensures |r| > 1 ==> r[0] != '0'
  {
    var digit := ['0' + (n % 10) as char];
    if n < 10 then digit
    else
      var r := NatToString(n / 10) + digit;
      assert r[..|r| - 1] == NatToString(n / 10);
      r
  }

  /** `pattern` occurs in `s` starting at index `i`. */
  ghost predicate OccursAt(pattern: string, s: string, i: int) {
    0 <= i && i + |pattern| <= |s| && s[i..i + |pattern|] == pattern
  }

  ghost predicate Occurs(pattern: string, s: string) {
    exists i :: OccursAt(pattern, s, i)
  }

  /** `s.Replace(pattern, "")`: a left-to-right scan that drops every non-overlapping occurrence. */
  function RemoveAll(s: string, pattern: string): (r: string)
    requires |pattern| > 0
    ensures |r| <= |s|
  {
    if |s| < |pattern| then s
    else if s[..|pattern|] == pattern then RemoveAll(s[|pattern|..], pattern)
    else [s[0]] + RemoveAll(s[1..], pattern)
  }

  /** Removing a pattern changes the string exactly when the pattern occurs in it. */
  lemma {:induction false} RemoveAllUnchanged(s: string, pattern: string)
    requires |pattern| > 0
    ensures RemoveAll(s, pattern) == s <==> !Occurs(pattern, s)
    ensures Occurs(pattern, s) ==> |RemoveAll(s, pattern)| < |s|
  {
    if |s| < |pattern| {
      assert forall i :: !OccursAt(pattern, s, i);
    } else if s[..|pattern|] == pattern {
      assert OccursAt(pattern, s, 0);
    } else {
      var rest := RemoveAll(s[1..], pattern);
      RemoveAllUnchanged(s[1..], pattern);
      OccursPastHead(pattern, s);
      assert ([s[0]] + rest)[1..] == rest;
      assert [s[0]] + s[1..] == s;
    }
  }

  /**
   * `Replace` scans left to right: the text before the first occurrence is kept as it is,
   * that occurrence is dropped, and the scan resumes right after it.
   */
  lemma {:induction false} RemoveAllLeftmost(a: string, pattern: string, b: string)
    requires |pattern| > 0
    requires forall i :: 0 <= i < |a| ==> !OccursAt(pattern, a + pattern + b, i)
    ensures RemoveAll(a + pattern + b, pattern) == a + RemoveAll(b, pattern)
    decreases |a|
  {
    var s := a + pattern + b;
    if |a| == 0 {
      assert s == pattern + b;
      assert s[..|pattern|] == pattern && s[|pattern|..] == b;
    } else {
      assert !OccursAt(pattern, s, 0);
      assert s[..|pattern|] != pattern;
      var tail := a[1..];
      assert s[1..] == tail + pattern + b;
      forall i | 0 <= i < |tail| ensures !OccursAt(pattern, tail + pattern + b, i) {
        assert !OccursAt(pattern, s, i + 1);
        assert (tail + pattern + b)[i..i + |pattern|] == s[i + 1..i + 1 + |pattern|];
      }
      RemoveAllLeftmost(tail, pattern, b);
      var rest := RemoveAll(b, pattern);
      assert [a[0]] + (tail + rest) == ([a[0]] + tail) + rest;
      assert [a[0]] + tail == a;
    }
  }

  /** When the pattern does not start the string, it occurs in it exactly when it occurs past the head. */
  lemma OccursPastHead(pattern: string, s: string)
    requires 0 < |pattern| <= |s| && s[..|pattern|] != pattern
    ensures Occurs(pattern, s) <==> Occurs(pattern, s[1..])
  {
    if Occurs(pattern, s) {
      var i :| OccursAt(pattern, s, i);
      assert i != 0;
      assert s[1..][i - 1..i - 1 + |pattern|] == s[i..i + |pattern|];
      assert OccursAt(pattern, s[1..], i - 1);
    }
    if Occurs(pattern, s[1..]) {
      var i :| OccursAt(pattern, s[1..], i);
      assert s[i + 1..i + 1 + |pattern|] == s[1..][i..i + |pattern|];
      assert OccursAt(pattern, s, i + 1);
    }
  }
}
