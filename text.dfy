/**
 * String operations the Python and JavaScript sources lean on: `str(n)` for
 * naturals, `'%02d' % i`, `str.split`, `str.join`, `str.replace` with a
 * non-empty pattern, splitting at the first occurrence of one character, and
 * `os.path.join` for two components.
 */
module Text {
  import opened Common

  predicate IsDigit(c: char) {
    '0' <= c <= '9'
  }

  function DigitChar(d: nat): (c: char)
    requires d < 10
    ensures IsDigit(c)
  {
    (('0' as int) + d) as char
  }

  function DigitValue(c: char): nat {
    if IsDigit(c) then (c as int) - ('0' as int) else 0
  }

  /** Python's `str(n)` for a natural number: its decimal digits, most significant first. */
  function NatToString(n: nat): (s: string)
    ensures |s| >= 1
    ensures forall i :: 0 <= i < |s| ==> IsDigit(s[i])
    ensures |s| == 1 <==> n < 10
  {
    if n < 10 then [DigitChar(n)] else NatToString(n / 10) + [DigitChar(n % 10)]
  }

  /** Reads a string of decimal digits back as a number. */
  function ParseDecimal(s: string): nat {
    if s == [] then 0 else 10 * ParseDecimal(s[..|s| - 1]) + DigitValue(s[|s| - 1])
  }

  /** Decimal printing is undone by decimal parsing. */
  lemma {:induction false} ParseNatToString(n: nat)
    ensures ParseDecimal(NatToString(n)) == n
  {
    if n >= 10 {
      var s := NatToString(n);
      assert s[..|s| - 1] == NatToString(n / 10);
      ParseNatToString(n / 10);
    }
  }

  /** Distinct numbers print as distinct strings, so counter-based ids never collide. */
  lemma NatToStringInjective(m: nat, n: nat)
    requires NatToString(m) == NatToString(n)
    ensures m == n
  {
    ParseNatToString(m);
    ParseNatToString(n);
  }

  /** Python's `'%02d' % i`: at least two digits, zero-padded on the left. */
  function Pad2(i: nat): string {
    if i < 10 then "0" + NatToString(i) else NatToString(i)
  }

  /** Below 100, `'%02d'` is exactly the tens digit followed by the units digit. */
  lemma Pad2Digits(i: nat)
    requires i < 100
    ensures Pad2(i) == [DigitChar(i / 10), DigitChar(i % 10)]
  {
    if i >= 10 {
      assert NatToString(i / 10) == [DigitChar(i / 10)];
    }
  }

  /** Byte-wise string order, as the shell sorts the names a glob expands to. */
  predicate StrLess(a: string, b: string) {
    if a == [] then b != []
    else if b == [] then false
    else a[0] < b[0] || (a[0] == b[0] && StrLess(a[1..], b[1..]))
  }

  /** Two-digit suffixes sort in numeric order and name distinct chunks distinctly. */
  lemma Pad2Ordered(i: nat, j: nat)
    requires i < j < 100
    ensures |Pad2(i)| == 2 && |Pad2(j)| == 2
    ensures StrLess(Pad2(i), Pad2(j))
    ensures Pad2(i) != Pad2(j)
  {
    Pad2Digits(i);
    Pad2Digits(j);
    if i / 10 == j / 10 {
      assert i % 10 < j % 10;
    } else {
      assert i / 10 < j / 10;
    }
  }

  /** A common prefix does not change how two strings compare. */
  lemma {:induction false} StrLessPrefix(p: string, a: string, b: string)
    ensures StrLess(p + a, p + b) <==> StrLess(a, b)
    decreases |p|
  {
    if p != [] {
      assert (p + a)[1..] == p[1..] + a;
      assert (p + b)[1..] == p[1..] + b;
      StrLessPrefix(p[1..], a, b);
    } else {
      assert p + a == a && p + b == b;
    }
  }

  /** Numbers from 100 up take three digits or more. */
  lemma NatToStringLong(n: nat)
    requires n >= 100
    ensures |NatToString(n)| >= 3
  {
    assert |NatToString(n / 10)| != 1;
  }

  // ----- Occurrences, str.split, str.join and str.replace -----

  predicate OccursAt(s: string, pat: string, i: nat) {
    i + |pat| <= |s| && s[i..i + |pat|] == pat
  }

  predicate Contains(s: string, pat: string) {
    exists i: nat | i <= |s| :: OccursAt(s, pat, i)
  }

  /** The leftmost position at which `pat` occurs in `s`, as Python's `str.find`. */
  function FindFirst(s: string, pat: string): (r: Option<nat>)
    requires pat != []
    ensures r.Some? ==> OccursAt(s, pat, r.value)
    ensures r.Some? ==> forall j: nat :: j < r.value ==> !OccursAt(s, pat, j)
    ensures r.None? ==> !Contains(s, pat)
    decreases |s|
  {
    if |s| < |pat| then None
    else if s[..|pat|] == pat then Some(0)
    else
      var rest := FindFirst(s[1..], pat);
      ShiftOccurrence(s, pat);
      assert !OccursAt(s, pat, 0) by {
        assert s[0..|pat|] == s[..|pat|];
      }
      match rest
      case None => None
      case Some(k) => Some(k + 1)
  }

  /** An occurrence in `s` past position 0 is an occurrence in `s[1..]`, one place earlier. */
  lemma ShiftOccurrence(s: string, pat: string)
    requires s != []
    ensures forall j: nat :: 0 < j ==> (OccursAt(s, pat, j) <==> OccursAt(s[1..], pat, j - 1))
    ensures Contains(s[1..], pat) ==> Contains(s, pat)
    ensures Contains(s, pat) && !OccursAt(s, pat, 0) ==> Contains(s[1..], pat)
  {
    forall j: nat | 0 < j
      ensures OccursAt(s, pat, j) <==> OccursAt(s[1..], pat, j - 1)
    {
      if j + |pat| <= |s| {
        var shifted, here := s[1..][j - 1..j - 1 + |pat|], s[j..j + |pat|];
        forall m | 0 <= m < |pat| ensures shifted[m] == here[m] {
          assert s[1..][j - 1 + m] == s[j + m];
        }
        assert shifted == here;
      }
    }
    if Contains(s[1..], pat) {
      var i: nat :| i <= |s[1..]| && OccursAt(s[1..], pat, i);
      assert OccursAt(s, pat, i + 1);
    }
    if Contains(s, pat) && !OccursAt(s, pat, 0) {
      var i: nat :| i <= |s| && OccursAt(s, pat, i);
      assert OccursAt(s[1..], pat, i - 1);
    }
  }

  /** Python's `s.split(sep)` for a non-empty separator. */
  function Split(s: string, sep: string): (parts: seq<string>)
    requires sep != []
    ensures |parts| >= 1
    decreases |s|
  {
    match FindFirst(s, sep)
    case None => [s]
    case Some(i) => [s[..i]] + Split(s[i + |sep|..], sep)
  }

  /** Python's `sep.join(parts)`. */
  function Join(parts: seq<string>, sep: string): string {
    if |parts| == 0 then ""
    else if |parts| == 1 then parts[0]
    else parts[0] + sep + Join(parts[1..], sep)
  }

  /** Python's `s.replace(pat, rep)` for a non-empty pattern: every non-overlapping
      occurrence, scanning from the left, becomes `rep`. */
  function Replace(s: string, pat: string, rep: string): string
    requires pat != []
  {
    Join(Split(s, pat), rep)
  }

  /** Joining the pieces of a split with the same separator gives back the string. */
  lemma {:induction false} JoinSplit(s: string, sep: string)
    requires sep != []
    ensures Join(Split(s, sep), sep) == s
    decreases |s|
  {
    var found := FindFirst(s, sep);
    if found.Some? {
      var i := found.value;
      assert OccursAt(s, sep, i);
      var rest := s[i + |sep|..];
      var tail := Split(rest, sep);
      assert Split(s, sep) == [s[..i]] + tail;
      JoinSplit(rest, sep);
      JoinCons(s[..i], tail, sep);
      assert s == s[..i] + sep + rest by {
        assert s == s[..i] + s[i..i + |sep|] + rest;
      }
    }
  }

  lemma JoinCons(a: string, parts: seq<string>, sep: string)
    requires |parts| >= 1
    ensures Join([a] + parts, sep) == a + sep + Join(parts, sep)
  {
    assert ([a] + parts)[1..] == parts;
  }

  /** No piece of a split contains the separator: every occurrence was cut out. */
  lemma {:induction false} SplitPiecesFree(s: string, sep: string)
    requires sep != []
    ensures forall k :: 0 <= k < |Split(s, sep)| ==> !Contains(Split(s, sep)[k], sep)
    decreases |s|
  {
    match FindFirst(s, sep)
    case None =>
    case Some(i) =>
      SplitPiecesFree(s[i + |sep|..], sep);
      var head := s[..i];
      forall j: nat | OccursAt(head, sep, j)
        ensures false
      {
        assert head[j..j + |sep|] == s[j..j + |sep|];
        assert OccursAt(s, sep, j);
      }
  }

  /** The first occurrence of `sep` in `a + sep + b` is right after `a` when `a` does
      not hold the separator's first character. */
  lemma {:induction false} FindFirstAfter(a: string, sep: string, b: string)
    requires sep != [] && sep[0] !in a
    ensures FindFirst(a + sep + b, sep) == Some(|a|)
    decreases |a|
  {
    var s := a + sep + b;
    if a == [] {
      assert s[..|sep|] == sep;
    } else {
      assert s[..|sep|][0] == a[0];
      assert s[1..] == a[1..] + sep + b;
      FindFirstAfter(a[1..], sep, b);
    }
  }

  /** A string without the separator's first character has no occurrence of it. */
  lemma NoSeparator(a: string, sep: string)
    requires sep != [] && sep[0] !in a
    ensures FindFirst(a, sep) == None
  {
    forall i: nat | i + |sep| <= |a| ensures !OccursAt(a, sep, i) {
      assert a[i..i + |sep|][0] == a[i];
    }
  }

  /** Splitting a join gives back the parts when no part holds the separator's first
      character. */
  lemma {:induction false} SplitJoin(parts: seq<string>, sep: string)
    requires sep != [] && |parts| >= 1
    requires forall k :: 0 <= k < |parts| ==> sep[0] !in parts[k]
    ensures Split(Join(parts, sep), sep) == parts
    decreases |parts|
  {
    if |parts| == 1 {
      NoSeparator(parts[0], sep);
    } else {
      var rest := Join(parts[1..], sep);
      FindFirstAfter(parts[0], sep, rest);
      var s := parts[0] + sep + rest;
      assert s[..|parts[0]|] == parts[0];
      assert s[|parts[0]| + |sep|..] == rest;
      SplitJoin(parts[1..], sep);
    }
  }

  /** Replacing a pattern that does not occur changes nothing. */
  lemma ReplaceAbsent(s: string, pat: string, rep: string)
    requires pat != [] && !Contains(s, pat)
    ensures Replace(s, pat, rep) == s
  {
  }

  /** Replacing a pattern by itself changes nothing. */
  lemma ReplaceBySelf(s: string, pat: string)
    requires pat != []
    ensures Replace(s, pat, pat) == s
  {
    JoinSplit(s, pat);
  }

  // ----- Splitting at one character -----

  /** Position of the first `c` in `s`, or None. */
  function IndexOf(s: string, c: char): (r: Option<nat>)
    ensures r.Some? ==> r.value < |s| && s[r.value] == c && c !in s[..r.value]
    ensures r.None? ==> c !in s
  {
    if s == [] then None
    else if s[0] == c then Some(0)
    else match IndexOf(s[1..], c)
      case None => None
      case Some(k) => Some(k + 1)
  }

  /** Python's `s.split(c, 1)` unpacked into two names: None when `c` does not occur
      (where the source's unpacking raises `ValueError`). */
  function SplitOnce(s: string, c: char): Option<(string, string)> {
    match IndexOf(s, c)
    case None => None
    case Some(i) => Some((s[..i], s[i + 1..]))
  }

  /** The first `c` of `a + [c] + b` sits right after `a` when `a` has no `c`. */
  lemma {:induction false} IndexOfAfterPrefix(a: string, c: char, b: string)
    requires c !in a
    ensures IndexOf(a + [c] + b, c) == Some(|a|)
  {
    if a != [] {
      assert (a + [c] + b)[1..] == a[1..] + [c] + b;
      IndexOfAfterPrefix(a[1..], c, b);
    }
  }

  /** Splitting `a + [c] + b` at the first `c` gives back `a` and `b` when `a` has no `c`. */
  lemma SplitOnceJoin(a: string, c: char, b: string)
    requires c !in a
    ensures SplitOnce(a + [c] + b, c) == Some((a, b))
  {
    var s := a + [c] + b;
    IndexOfAfterPrefix(a, c, b);
    assert s[..|a|] == a;
    assert s[|a| + 1..] == b;
  }

  /** The two halves of a split at `c` put back together around `c` give the string. */
  lemma SplitOnceRejoin(s: string, c: char)
    requires SplitOnce(s, c).Some?
    ensures SplitOnce(s, c).value.0 + [c] + SplitOnce(s, c).value.1 == s
    ensures c !in SplitOnce(s, c).value.0
  {
    var i := IndexOf(s, c).value;
    assert s == s[..i] + [s[i]] + s[i + 1..];
  }

  // ----- os.path.join for two components -----

  /** `os.path.join(a, b)` on POSIX: an absolute `b` wins; otherwise `b` follows `a`,
      with one '/' inserted unless `a` is empty or already ends with '/'. */
  function PathJoin(a: string, b: string): string {
    if |b| > 0 && b[0] == '/' then b
    else if a == [] || a[|a| - 1] == '/' then a + b
    else a + "/" + b
  }

  /** Joining a directory with a relative name keeps the directory as a prefix and the
      name as a suffix. */
  lemma PathJoinParts(a: string, b: string)
    requires b == [] || b[0] != '/'
    ensures a <= PathJoin(a, b)
    ensures PathJoin(a, b)[|PathJoin(a, b)| - |b|..] == b
  {
  }
}
