/** The JavaScript string operations the userscript relies on: `String.prototype.indexOf` and
    `includes` with a non-empty search string, `String.prototype.split` with a non-empty separator
    and no limit, and `Array.prototype.join` on an array of strings. Joining the pieces of a split
    restores the string; splitting a join restores the pieces when no piece holds the separator's
    first character. */
module JsStrings {
  import opened Options

  /** `t` occurs in `s` starting at index `k`. */
  predicate OccursAt(s: string, t: string, k: nat)
  {
    k + |t| <= |s| && s[k..k + |t|] == t
  }

  /** An occurrence in `s[1..]` is an occurrence in `s` one index further on. */
  lemma OccursAtShift(s: string, t: string)
    requires |s| > 0
    ensures forall k: nat :: 0 < k ==> (OccursAt(s, t, k) <==> OccursAt(s[1..], t, k - 1))
  {
    forall k: nat | 0 < k
      ensures OccursAt(s, t, k) <==> OccursAt(s[1..], t, k - 1)
    {
      if k + |t| <= |s| {
        assert s[1..][k - 1..k - 1 + |t|] == s[k..k + |t|];
      }
    }
  }

  /** `s.indexOf(t)`: the first index at which `t` occurs in `s`, None for JavaScript's -1. */
  function IndexOf(s: string, t: string): (r: Option<nat>)
    requires |t| > 0
    ensures r.Some? ==> OccursAt(s, t, r.value)
    ensures r.Some? ==> forall k: nat :: k < r.value ==> !OccursAt(s, t, k)
    ensures r.None? ==> forall k: nat :: !OccursAt(s, t, k)
    decreases |s|
  {
    if |s| < |t| then None
    else if s[..|t|] == t then Some(0)
    else
      OccursAtShift(s, t);
      match IndexOf(s[1..], t)
      case None => None
      case Some(k) => Some(k + 1)
  }

  /** `s.includes(t)`: true exactly when `t` occurs somewhere in `s`. */
  predicate Contains(s: string, t: string): (b: bool)
    requires |t| > 0
    ensures b <==> exists k: nat :: OccursAt(s, t, k)
  {
    IndexOf(s, t).Some?
  }

  /** Any occurrence of `t` makes `s.includes(t)` true. */
  lemma OccurrenceContains(s: string, t: string, k: nat)
    requires |t| > 0 && OccursAt(s, t, k)
    ensures Contains(s, t)
  {
  }

  /** For a one-character search string, `includes` is membership of that character. */
  lemma {:induction false} ContainsChar(s: string, c: char)
    ensures Contains(s, [c]) <==> c in s
  {
    if c in s {
      var i :| 0 <= i < |s| && s[i] == c;
      assert s[i..i + 1] == [c];
      OccurrenceContains(s, [c], i);
    }
    if Contains(s, [c]) {
      var k := IndexOf(s, [c]).value;
      assert s[k..k + 1][0] == s[k];
    }
  }

  /** An occurrence and no earlier one fix the result of `indexOf`. */
  lemma IndexOfIs(s: string, t: string, n: nat)
    requires |t| > 0 && OccursAt(s, t, n)
    requires forall k: nat :: k < n ==> !OccursAt(s, t, k)
    ensures IndexOf(s, t) == Some(n)
  {
  }

  /** Whether `t` occurs at `k` is decided inside any prefix that holds the whole candidate. */
  lemma OccursAtInPrefix(s: string, n: nat, t: string, k: nat)
    requires n <= |s| && k + |t| <= n
    ensures OccursAt(s[..n], t, k) <==> OccursAt(s, t, k)
  {
    assert s[..n][k..k + |t|] == s[k..k + |t|];
  }

  /** A separator cannot start inside a stretch of `s` that lacks its first character. */
  lemma FirstCharBlocks(s: string, sep: string, n: nat)
    requires |sep| > 0 && n <= |s|
    requires sep[0] !in s[..n]
    ensures forall k: nat :: k < n ==> !OccursAt(s, sep, k)
  {
    forall k: nat | k < n
      ensures !OccursAt(s, sep, k)
    {
      if k + |sep| <= |s| {
        assert s[k..k + |sep|][0] == s[k] == s[..n][k];
      }
    }
  }

  /** A prefix that ends before the first occurrence of `t` does not contain `t`. */
  lemma NoOccurrenceInPrefix(s: string, t: string, n: nat)
    requires |t| > 0 && n <= |s|
    requires forall k: nat :: k < n ==> !OccursAt(s, t, k)
    ensures !Contains(s[..n], t)
  {
    var r := IndexOf(s[..n], t);
    if r.Some? {
      OccursAtInPrefix(s, n, t, r.value);
    }
  }

  /** `s.split(sep)`: the pieces between successive left-to-right occurrences of `sep`. There is
      always at least one piece and no piece contains the separator. */
  function Split(s: string, sep: string): (parts: seq<string>)
    requires |sep| > 0
    ensures |parts| >= 1
    ensures IndexOf(s, sep).Some? ==> |parts| >= 2
    ensures forall i :: 0 <= i < |parts| ==> !Contains(parts[i], sep)
    decreases |s|
  {
    match IndexOf(s, sep)
    case None => [s]
    case Some(k) =>
      NoOccurrenceInPrefix(s, sep, k);
      [s[..k]] + Split(s[k + |sep|..], sep)
  }

  /** `parts.join(sep)`: the first piece, then each further piece after a separator. */
  function Join(parts: seq<string>, sep: string): (r: string)
    ensures |parts| == 0 ==> r == ""
    ensures |parts| == 1 ==> r == parts[0]
    ensures |parts| > 0 ==> parts[0] <= r
    ensures |parts| > 1 ==> parts[0] + sep <= r && r[|parts[0]| + |sep|..] == Join(parts[1..], sep)
  {
    if |parts| == 0 then ""
    else if |parts| == 1 then parts[0]
    else parts[0] + sep + Join(parts[1..], sep)
  }

  /** A piece without the separator's first character is split off whole. */
  lemma SplitAtFirst(x: string, sep: string, rest: string)
    requires |sep| > 0 && sep[0] !in x
    ensures Split(x + sep + rest, sep) == [x] + Split(rest, sep)
  {
    var s := x + sep + rest;
    assert s[..|x|] == x;
    assert s[|x|..|x| + |sep|] == sep;
    assert s[|x| + |sep|..] == rest;
    FirstCharBlocks(s, sep, |x|);
    IndexOfIs(s, sep, |x|);
  }

  /** When `a` followed by all but the last character of the separator does not contain the
      separator, the first occurrence in `a + sep + b` is the one right after `a`. */
  lemma SplitAfterClearPrefix(a: string, sep: string, b: string)
    requires |sep| > 0 && !Contains(a + sep[..|sep| - 1], sep)
    ensures Split(a + sep + b, sep) == [a] + Split(b, sep)
  {
    var s := a + sep + b;
    var clear := a + sep[..|sep| - 1];
    assert s[..|a|] == a;
    assert s[|a|..|a| + |sep|] == sep;
    assert s[|a| + |sep|..] == b;
    assert s[..|clear|] == clear;
    forall k: nat | k < |a|
      ensures !OccursAt(s, sep, k)
    {
      assert !OccursAt(clear, sep, k);
      OccursAtInPrefix(s, |clear|, sep, k);
    }
    IndexOfIs(s, sep, |a|);
  }

  /** A string without the separator's first character is not split. */
  lemma SplitWhole(x: string, sep: string)
    requires |sep| > 0 && sep[0] !in x
    ensures Split(x, sep) == [x]
  {
    assert x[..|x|] == x;
    FirstCharBlocks(x, sep, |x|);
  }

  /** Joining the pieces of a split restores the string. */
  lemma {:induction false} JoinSplit(s: string, sep: string)
    requires |sep| > 0
    ensures Join(Split(s, sep), sep) == s
    decreases |s|
  {
    match IndexOf(s, sep)
    case None =>
    case Some(k) =>
      var rest := s[k + |sep|..];
      JoinSplit(rest, sep);
      var tail := Split(rest, sep);
      assert Split(s, sep) == [s[..k]] + tail;
      assert ([s[..k]] + tail)[1..] == tail;
      assert s[k..k + |sep|] == sep;
      assert s == s[..k] + sep + rest;
  }

  /** Splitting a join restores the pieces, provided no piece holds the separator's first
      character. */
  lemma {:induction false} SplitJoin(parts: seq<string>, sep: string)
    requires |sep| > 0 && |parts| > 0
    requires forall i :: 0 <= i < |parts| ==> sep[0] !in parts[i]
    ensures Split(Join(parts, sep), sep) == parts
  {
    if |parts| == 1 {
      SplitWhole(parts[0], sep);
    } else {
      SplitJoin(parts[1..], sep);
      SplitAtFirst(parts[0], sep, Join(parts[1..], sep));
    }
  }

  /** The first piece of a split is a prefix of the string, and it reaches at least as far as
      the first occurrence of the separator's first character. */
  lemma SplitHeadPrefix(s: string, sep: string, n: nat)
    requires |sep| > 0 && n <= |s|
    requires sep[0] !in s[..n]
    ensures n <= |Split(s, sep)[0]| <= |s|
    ensures Split(s, sep)[0] == s[..|Split(s, sep)[0]|]
  {
    FirstCharBlocks(s, sep, n);
    assert s[..|s|] == s;
  }

  /** The first piece of a split ends exactly where the separator first occurs. */
  lemma SplitHeadExact(s: string, sep: string, n: nat)
    requires |sep| > 0 && n <= |s|
    requires sep[0] !in s[..n]
    requires n == |s| || OccursAt(s, sep, n)
    ensures Split(s, sep)[0] == s[..n]
  {
    FirstCharBlocks(s, sep, n);
    if n < |s| {
      IndexOfIs(s, sep, n);
    } else {
      assert s[..n] == s;
    }
  }
}
