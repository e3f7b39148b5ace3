/** String helpers the storefront's components rely on: case mapping, substring search,
    first-occurrence replacement and decimal rendering of numbers. Case mapping covers the
    ASCII letters only. */
module Text {

  function LowerChar(c: char): char
  {
    if 'A' <= c <= 'Z' then (c as int + 32) as char else c
  }

  function UpperChar(c: char): char
  {
    if 'a' <= c <= 'z' then (c as int - 32) as char else c
  }

  /** `String.prototype.toLowerCase`, restricted to ASCII letters. */
  function Lower(s: string): string
  {
    seq(|s|, i requires 0 <= i < |s| => LowerChar(s[i]))
  }

  lemma LowerIdempotent(s: string)
    ensures Lower(Lower(s)) == Lower(s)
  {
  }

  /** `needle` occurs in `hay` starting at position `i`. */
  predicate OccursAt(hay: string, needle: string, i: int)
  {
    0 <= i && i + |needle| <= |hay| && hay[i..i + |needle|] == needle
  }

  /** `String.prototype.includes`: some position of `hay` starts a copy of `needle`;
      the empty needle occurs everywhere. */
  function Contains(hay: string, needle: string): (r: bool)
    ensures r <==> exists i :: OccursAt(hay, needle, i)
    decreases |hay|
  {
    if |needle| > |hay| then
      assert forall i :: !OccursAt(hay, needle, i);
      false
    else if hay[..|needle|] == needle then
      assert OccursAt(hay, needle, 0);
      true
    else
      var rest := Contains(hay[1..], needle);
      forall i | 1 <= i
        ensures OccursAt(hay, needle, i) <==> OccursAt(hay[1..], needle, i - 1)
      {
        OccursAtShift(hay, needle, i);
      }
      assert !OccursAt(hay, needle, 0);
      if rest then
        var j :| OccursAt(hay[1..], needle, j);
        assert OccursAt(hay, needle, j + 1);
        true
      else
        false
  }

  lemma OccursAtShift(hay: string, needle: string, i: int)
    requires 1 <= i && hay != []
    ensures OccursAt(hay, needle, i) <==> OccursAt(hay[1..], needle, i - 1)
  {
    if i + |needle| <= |hay| {
      var a := hay[i..i + |needle|];
      var b := hay[1..][i - 1..i - 1 + |needle|];
      assert |a| == |b|;
      forall k | 0 <= k < |a| ensures a[k] == b[k] {
        assert a[k] == hay[i + k];
        assert b[k] == hay[1..][i - 1 + k];
      }
      assert a == b;
    }
  }

  /** The search the admin pages apply to a field: both sides lower-cased, then `includes`. */
  predicate IncludesIgnoringCase(field: string, term: string)
  {
    Contains(Lower(field), Lower(term))
  }

  lemma IncludesEmptyTerm(field: string)
    ensures IncludesIgnoringCase(field, "")
  {
    assert OccursAt(Lower(field), Lower(""), 0);
  }

  /** Terms that agree once lower-cased select the same fields. */
  lemma IncludesIgnoresTermCase(field: string, t1: string, t2: string)
    requires Lower(t1) == Lower(t2)
    ensures IncludesIgnoringCase(field, t1) == IncludesIgnoringCase(field, t2)
  {
  }

  /** Lower-casing changes letters only, so a non-letter in the term must occur verbatim in any
      field that matches it. */
  lemma IncludesNeedsChar(field: string, term: string, c: char)
    requires c in term && !('A' <= c <= 'Z') && !('a' <= c <= 'z')
    ensures IncludesIgnoringCase(field, term) ==> c in field
  {
    if IncludesIgnoringCase(field, term) {
      var j :| 0 <= j < |term| && term[j] == c;
      var i :| OccursAt(Lower(field), Lower(term), i);
      assert Lower(field)[i..i + |term|][j] == Lower(term)[j];
      assert field[i + j] == c;
    }
  }

  /** Position of the first `c` in `s`, or `|s|` when there is none. */
  function IndexOf(s: string, c: char): (k: nat)
    ensures k <= |s|
    ensures k < |s| ==> s[k] == c
    ensures forall j :: 0 <= j < k ==> s[j] != c
  {
    if s == [] then 0
    else if s[0] == c then 0
    else 1 + IndexOf(s[1..], c)
  }

  /** `String.prototype.replace` with a one-character string pattern: only the first
      occurrence of `from` is replaced. */
  function ReplaceFirst(s: string, from: char, to: char): (r: string)
    ensures |r| == |s|
  {
    if s == [] then []
    else if s[0] == from then [to] + s[1..]
    else [s[0]] + ReplaceFirst(s[1..], from, to)
  }

  /** The replacement touches exactly the first occurrence and nothing else. */
  lemma {:induction false} ReplaceFirstExactlyFirst(s: string, from: char, to: char)
    ensures var k := IndexOf(s, from);
            var r := ReplaceFirst(s, from, to);
            && (k < |s| ==> r[k] == to)
            && forall j :: 0 <= j < |s| && j != k ==> r[j] == s[j]
  {
    if s != [] && s[0] != from {
      ReplaceFirstExactlyFirst(s[1..], from, to);
      var r := ReplaceFirst(s, from, to);
      assert r == [s[0]] + ReplaceFirst(s[1..], from, to);
      forall j | 0 < j < |s| ensures r[j] == ReplaceFirst(s[1..], from, to)[j - 1] { }
    }
  }

  function DigitChar(d: nat): (c: char)
    requires d < 10
    ensures '0' <= c <= '9' && c as int - '0' as int == d
  {
    ('0' as int + d) as char
  }

  predicate AllDigits(s: string)
  {
    forall i :: 0 <= i < |s| ==> '0' <= s[i] <= '9'
  }

  /** The number a string of decimal digits denotes. */
  function DecimalValue(s: string): nat
    requires AllDigits(s)
    decreases |s|
  {
    if s == [] then 0 else 10 * DecimalValue(s[..|s| - 1]) + (s[|s| - 1] as int - '0' as int)
  }

  /** The decimal rendering of a non-negative integer (`Number.prototype.toString()`). */
  function NatToString(n: nat): string
  {
    if n < 10 then [DigitChar(n)] else NatToString(n / 10) + [DigitChar(n % 10)]
  }

  /** The rendering is digits only, without a leading zero except for 0 itself, and denotes `n`. */
  lemma {:induction false} NatToStringDecimal(n: nat)
    ensures var r := NatToString(n);
            && 1 <= |r|
            && AllDigits(r)
            && (r[0] == '0' <==> n == 0)
            && DecimalValue(r) == n
  {
    if n >= 10 {
      NatToStringDecimal(n / 10);
      var prefix := NatToString(n / 10);
      var r := NatToString(n);
      assert r[..|r| - 1] == prefix;
    }
  }
}
