/**
 * The string operations the services rely on: decimal rendering of an integer
 * (string concatenation with a timestamp), `String.prototype.split` on one
 * character, `replace` with a string pattern (first occurrence only), ASCII
 * case mapping and substring search.
 */
module Strings {
  import opened Wrappers

  // ---------------------------------------------------------------- digits

  predicate IsDigit(c: char) {
    '0' <= c <= '9'
  }

  predicate AllDigits(s: string) {
    forall i :: 0 <= i < |s| ==> IsDigit(s[i])
  }

  function DigitChar(d: nat): (c: char)
    requires d < 10
    ensures IsDigit(c) && c as int - '0' as int == d
  {
    ('0' as int + d) as char
  }

  /** Decimal rendering of a natural number, most significant digit first, no leading zeros. */
  function NatToString(n: nat): (s: string)
    ensures |s| >= 1 && AllDigits(s)
    ensures |s| > 1 ==> s[0] != '0'
    decreases n
  {
    if n < 10 then [DigitChar(n)] else NatToString(n / 10) + [DigitChar(n % 10)]
  }

  /** The number a string of decimal digits denotes; the reference reading of NatToString. */
  function DigitsValue(s: string): nat
    requires AllDigits(s)
  {
    if s == [] then 0 else DigitsValue(s[..|s| - 1]) * 10 + (s[|s| - 1] as int - '0' as int)
  }

  /** Reading back a rendered number gives the number. */
  lemma {:induction false} DigitsValueOfNatToString(n: nat)
    ensures DigitsValue(NatToString(n)) == n
    decreases n
  {
    if n >= 10 {
      var s := NatToString(n);
      assert s[..|s| - 1] == NatToString(n / 10);
      DigitsValueOfNatToString(n / 10);
    }
  }

  /** Distinct numbers render to distinct strings. */
  lemma NatToStringInjective(a: nat, b: nat)
    ensures NatToString(a) == NatToString(b) ==> a == b
  {
    DigitsValueOfNatToString(a);
    DigitsValueOfNatToString(b);
  }

  // ---------------------------------------------------------------- split and join

  /**
   * `s.split(sep)` for a one-character separator: the maximal separator-free
   * pieces between separators, so that adjacent separators give an empty piece
   * and the empty string gives `[""]`.
   */
  function Split(s: string, sep: char): (parts: seq<string>)
    ensures |parts| >= 1
    ensures forall i :: 0 <= i < |parts| ==> sep !in parts[i]
  {
    if s == [] then [""]
    else
      var rest := Split(s[1..], sep);
      if s[0] == sep then [""] + rest
      else [[s[0]] + rest[0]] + rest[1..]
  }

  /** `parts.join(sep)`. */
  function Join(parts: seq<string>, sep: char): string
    requires |parts| >= 1
  {
    if |parts| == 1 then parts[0] else parts[0] + [sep] + Join(parts[1..], sep)
  }

  lemma JoinConsFirst(c: char, parts: seq<string>, sep: char)
    requires |parts| >= 1
    ensures Join([[c] + parts[0]] + parts[1..], sep) == [c] + Join(parts, sep)
  {
    var ps := [[c] + parts[0]] + parts[1..];
    assert ps[1..] == parts[1..];
  }

  /** Joining the pieces of a split gives back the string. */
  lemma {:induction false} JoinSplit(s: string, sep: char)
    ensures Join(Split(s, sep), sep) == s
  {
    if s != [] {
      var rest := Split(s[1..], sep);
      JoinSplit(s[1..], sep);
      if s[0] == sep {
        assert ([""] + rest)[1..] == rest;
        assert s == [sep] + s[1..];
      } else {
        JoinConsFirst(s[0], rest, sep);
        assert s == [s[0]] + s[1..];
      }
    }
  }

  lemma {:induction false} SplitSeparatorFree(p: string, t: string, sep: char)
    requires sep !in p
    ensures Split(p + t, sep) == [p + Split(t, sep)[0]] + Split(t, sep)[1..]
  {
    if p == [] {
      assert p + t == t;
      assert p + Split(t, sep)[0] == Split(t, sep)[0];
      assert Split(t, sep) == [Split(t, sep)[0]] + Split(t, sep)[1..];
    } else {
      assert (p + t)[1..] == p[1..] + t;
      assert sep !in p[1..] by {
        forall i | 0 <= i < |p[1..]| ensures p[1..][i] != sep {
          assert p[1..][i] == p[i + 1];
        }
      }
      SplitSeparatorFree(p[1..], t, sep);
      var rest := Split((p + t)[1..], sep);
      assert rest == [p[1..] + Split(t, sep)[0]] + Split(t, sep)[1..];
      assert (p + t)[0] == p[0] && p[0] != sep;
      assert Split(p + t, sep) == [[p[0]] + rest[0]] + rest[1..];
      assert [p[0]] + (p[1..] + Split(t, sep)[0]) == p + Split(t, sep)[0];
    }
  }

  /** Splitting a join of separator-free pieces gives back the pieces. */
  lemma {:induction false} SplitJoin(parts: seq<string>, sep: char)
    requires |parts| >= 1
    requires forall i :: 0 <= i < |parts| ==> sep !in parts[i]
    ensures Split(Join(parts, sep), sep) == parts
  {
    if |parts| == 1 {
      SplitSeparatorFree(parts[0], "", sep);
      assert parts[0] + "" == parts[0];
      assert Split("", sep) == [""];
      assert parts == [parts[0]];
    } else {
      var tail := Join(parts[1..], sep);
      SplitJoin(parts[1..], sep);
      SplitSeparatorFree(parts[0], [sep] + tail, sep);
      assert Join(parts, sep) == parts[0] + ([sep] + tail);
      assert ([sep] + tail)[1..] == tail;
      var u := Split([sep] + tail, sep);
      assert u == [""] + Split(tail, sep);
      assert u[0] == "" && u[1..] == parts[1..];
      assert parts[0] + u[0] == parts[0];
      assert parts == [parts[0]] + parts[1..];
    }
  }

  // ---------------------------------------------------------------- search and replace

  predicate OccursAt(s: string, pat: string, j: nat) {
    j + |pat| <= |s| && s[j..j + |pat|] == pat
  }

  /** Index of the first occurrence of `pat` in `s` (JavaScript's `indexOf`, absent as None). */
  function IndexOf(s: string, pat: string): (k: Option<nat>)
    ensures k.Some? ==> OccursAt(s, pat, k.value)
    ensures k.Some? ==> forall j :: 0 <= j < k.value ==> !OccursAt(s, pat, j)
    ensures k.None? ==> forall j :: 0 <= j ==> !OccursAt(s, pat, j)
    decreases |s|
  {
    if |s| < |pat| then None
    else if s[..|pat|] == pat then Some(0)
    else
      var k := IndexOf(s[1..], pat);
      ShiftOccurrence(s, pat);
      if k.None? then None else Some(k.value + 1)
  }

  /** An occurrence in `s` after index 0 is an occurrence in `s[1..]`, one place earlier. */
  lemma ShiftOccurrence(s: string, pat: string)
    requires |s| >= 1
    ensures OccursAt(s, pat, 0) <==> |pat| <= |s| && s[..|pat|] == pat
    ensures forall j: nat :: 1 <= j ==> (OccursAt(s, pat, j) <==> OccursAt(s[1..], pat, j - 1))
  {
    if |pat| <= |s| {
      assert s[0..|pat|] == s[..|pat|];
    }
    forall j: nat | 1 <= j ensures OccursAt(s, pat, j) <==> OccursAt(s[1..], pat, j - 1) {
      if j + |pat| <= |s| {
        assert s[1..][j - 1..j - 1 + |pat|] == s[j..j + |pat|];
      }
    }
  }

  predicate Contains(s: string, pat: string) {
    IndexOf(s, pat).Some?
  }

  /** `s.replace(pat, rep)` with a string pattern: only the first occurrence is replaced. */
  function ReplaceFirst(s: string, pat: string, rep: string): string {
    match IndexOf(s, pat)
    case None => s
    case Some(i) => s[..i] + rep + s[i + |pat|..]
  }

  /** Removing a prefix that the string was built with gives back the rest. */
  lemma ReplaceFirstStripsPrefix(pat: string, rest: string)
    ensures ReplaceFirst(pat + rest, pat, "") == rest
  {
    assert (pat + rest)[..|pat|] == pat;
    assert IndexOf(pat + rest, pat) == Some(0);
    assert (pat + rest)[|pat|..] == rest;
  }

  /** A string without the pattern is left as it is. */
  lemma ReplaceFirstWithoutOccurrence(s: string, pat: string, rep: string)
    requires forall j :: 0 <= j ==> !OccursAt(s, pat, j)
    ensures ReplaceFirst(s, pat, rep) == s
  {
  }

  /** Only the first occurrence is removed: one further occurrence of the pattern survives. */
  lemma ReplaceFirstKeepsLaterOccurrence(pat: string, mid: string)
    ensures ReplaceFirst(pat + mid + pat, pat, "") == mid + pat
  {
    var s := pat + mid + pat;
    assert s[..|pat|] == pat;
    assert IndexOf(s, pat) == Some(0);
    assert s[|pat|..] == mid + pat;
  }

  // ---------------------------------------------------------------- ASCII case

  function LowerChar(c: char): char {
    if 'A' <= c <= 'Z' then (c as int + 32) as char else c
  }

  function UpperChar(c: char): char {
    if 'a' <= c <= 'z' then (c as int - 32) as char else c
  }

  /** `toLowerCase` restricted to ASCII letters. */
  function Lower(s: string): (r: string)
    ensures |r| == |s| && forall i :: 0 <= i < |s| ==> r[i] == LowerChar(s[i])
  {
    seq(|s|, i requires 0 <= i < |s| => LowerChar(s[i]))
  }

  /** `toUpperCase` restricted to ASCII letters. */
  function Upper(s: string): (r: string)
    ensures |r| == |s| && forall i :: 0 <= i < |s| ==> r[i] == UpperChar(s[i])
  {
    seq(|s|, i requires 0 <= i < |s| => UpperChar(s[i]))
  }

  /** Case-insensitive substring test (a database `contains` in insensitive mode). */
  predicate ContainsInsensitive(s: string, pat: string) {
    Contains(Lower(s), Lower(pat))
  }

  /** An empty search string is contained in every string. */
  lemma EmptyIsContained(s: string)
    ensures ContainsInsensitive(s, "")
  {
    assert Lower(s)[..0] == Lower("");
  }

  /** Lower-casing forgets any earlier case change. */
  lemma LowerAbsorbs(s: string)
    ensures Lower(Upper(s)) == Lower(s) && Lower(Lower(s)) == Lower(s)
  {
    assert Lower(Upper(s)) == Lower(s) by {
      forall i | 0 <= i < |s| ensures Lower(Upper(s))[i] == Lower(s)[i] {
        assert LowerChar(UpperChar(s[i])) == LowerChar(s[i]);
      }
    }
    assert Lower(Lower(s)) == Lower(s) by {
      forall i | 0 <= i < |s| ensures Lower(Lower(s))[i] == Lower(s)[i] {
        assert LowerChar(LowerChar(s[i])) == LowerChar(s[i]);
      }
    }
  }

  /** Changing the case of the searched text or of the pattern does not change the answer. */
  lemma CaseDoesNotMatter(s: string, pat: string)
    ensures ContainsInsensitive(Upper(s), pat) == ContainsInsensitive(s, pat)
    ensures ContainsInsensitive(Lower(s), pat) == ContainsInsensitive(s, pat)
    ensures ContainsInsensitive(s, Upper(pat)) == ContainsInsensitive(s, pat)
    ensures ContainsInsensitive(s, Lower(pat)) == ContainsInsensitive(s, pat)
  {
    LowerAbsorbs(s);
    LowerAbsorbs(pat);
  }

  /** Upper-casing cannot introduce a non-letter that the string lacks. */
  lemma UpperKeepsAbsentChar(s: string, c: char)
    requires c !in s
    requires !('a' <= c <= 'z') && !('A' <= c <= 'Z')
    ensures c !in Upper(s)
  {
    forall i | 0 <= i < |s| ensures Upper(s)[i] != c {
      assert s[i] != c;
    }
  }
}
