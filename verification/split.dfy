/**
  Go's `strings.Index`, `strings.Split` and `strings.Join` over a non-empty
  separator, as used to cut one line of `upsc` output into its parts.
  Strings are sequences of characters; the separator used by the exporter is
  ASCII, so searching characters and searching UTF-8 bytes agree.
 */
module Strings {
  import opened Wrappers

  /** The separator between a field name and its value in `upsc` output. */
  const Separator: string := ": "

  /** `sep` occurs in `s` starting at position `i`. */
  predicate OccursAt(s: string, sep: string, i: int) {
    0 <= i && i + |sep| <= |s| && s[i..i + |sep|] == sep
  }

  /** `sep` occurs somewhere in `s`. */
  predicate Contains(s: string, sep: string) {
    exists i :: 0 <= i <= |s| && OccursAt(s, sep, i)
  }

  /** No proper suffix of `sep` is also a prefix of it, so two occurrences
      of `sep` can never overlap. */
  predicate Unbordered(sep: string) {
    forall d :: 0 < d < |sep| ==> sep[d..] != sep[..|sep| - d]
  }

  /** Shifting a search window by one character. */
  lemma OccursAtTail(s: string, sep: string, j: int)
    requires |s| > 0 && 0 <= j
    ensures OccursAt(s, sep, j + 1) <==> OccursAt(s[1..], sep, j)
  {
    if j + 1 + |sep| <= |s| {
      assert s[j + 1..j + 1 + |sep|] == s[1..][j..j + |sep|];
    }
  }

  /** An occurrence inside a prefix is an occurrence in the whole string. */
  lemma OccursInPrefix(s: string, sep: string, n: nat, j: int)
    requires n <= |s|
    ensures OccursAt(s[..n], sep, j) ==> OccursAt(s, sep, j)
  {
    if OccursAt(s[..n], sep, j) {
      assert s[..n][j..j + |sep|] == s[j..j + |sep|];
    }
  }

  /** Go's `strings.Index`: the position of the first occurrence of `sep`
      in `s`, or None when `sep` does not occur. */
  function IndexOf(s: string, sep: string): (r: Option<nat>)
    requires |sep| > 0
    ensures r.Some? ==> OccursAt(s, sep, r.value)
    ensures r.Some? ==> forall j :: 0 <= j < r.value ==> !OccursAt(s, sep, j)
    ensures r.None? <==> !Contains(s, sep)
    decreases |s|
  {
    if |s| < |sep| then
      None
    else if s[..|sep|] == sep then
      assert OccursAt(s, sep, 0);
      Some(0)
    else
      var rest := IndexOf(s[1..], sep);
      assert !OccursAt(s, sep, 0);
      match rest
      case None =>
        assert !Contains(s, sep) by {
          forall i | 0 < i <= |s|
            ensures !OccursAt(s, sep, i)
          {
            OccursAtTail(s, sep, i - 1);
          }
        }
        None
      case Some(k) =>
        OccursAtTail(s, sep, k);
        assert forall j :: 0 <= j < k + 1 ==> !OccursAt(s, sep, j) by {
          forall j | 0 < j < k + 1
            ensures !OccursAt(s, sep, j)
          {
            OccursAtTail(s, sep, j - 1);
          }
        }
        Some(k + 1)
  }

  /** Go's `strings.Join`: the parts with `sep` between consecutive ones. */
  function Join(parts: seq<string>, sep: string): string
    requires |parts| > 0
  {
    if |parts| == 1 then parts[0] else parts[0] + sep + Join(parts[1..], sep)
  }

  /** Go's `strings.Split` for a non-empty separator: cuts `s` at EVERY
      non-overlapping occurrence of `sep`, scanning left to right. A string
      without `sep` yields exactly one part. */
  function Split(s: string, sep: string): (parts: seq<string>)
    requires |sep| > 0
    ensures |parts| > 0
    ensures forall k :: 0 <= k < |parts| ==> !Contains(parts[k], sep)
    decreases |s|
  {
    match IndexOf(s, sep)
    case None => [s]
    case Some(i) =>
      var head := s[..i];
      assert !Contains(head, sep) by {
        forall j | 0 <= j <= |head|
          ensures !OccursAt(head, sep, j)
        {
          OccursInPrefix(s, sep, i, j);
        }
      }
      [head] + Split(s[i + |sep|..], sep)
  }

  /** Joining a part in front of a non-empty list of parts. */
  lemma JoinCons(head: string, tail: seq<string>, sep: string)
    requires |tail| > 0
    ensures Join([head] + tail, sep) == head + sep + Join(tail, sep)
  {
    assert ([head] + tail)[1..] == tail;
  }

  /** The split of a line in which the separator first occurs at `i`. */
  lemma SplitAt(s: string, sep: string, i: nat)
    requires |sep| > 0 && IndexOf(s, sep) == Some(i)
    ensures Split(s, sep) == [s[..i]] + Split(s[i + |sep|..], sep)
    ensures s == s[..i] + sep + s[i + |sep|..]
  {
    assert OccursAt(s, sep, i);
    Recompose(s, i, i + |sep|);
  }

  /** Cutting a string at two positions and gluing the pieces back. */
  lemma Recompose(s: string, i: nat, j: nat)
    requires i <= j <= |s|
    ensures s == s[..i] + s[i..j] + s[j..]
  {
  }

  /** Joining the parts of a split with the same separator gives back the line. */
  lemma {:induction false} JoinSplit(s: string, sep: string)
    requires |sep| > 0
    ensures Join(Split(s, sep), sep) == s
    decreases |s|
  {
    match IndexOf(s, sep)
    case None =>
    case Some(i) =>
      var rest := s[i + |sep|..];
      SplitAt(s, sep, i);
      JoinSplit(rest, sep);
      JoinCons(s[..i], Split(rest, sep), sep);
  }

  /** A line splits into a single part exactly when it holds no separator. */
  lemma SplitSinglePart(s: string, sep: string)
    requires |sep| > 0
    ensures |Split(s, sep)| == 1 <==> !Contains(s, sep)
    ensures !Contains(s, sep) ==> Split(s, sep) == [s]
  {
    match IndexOf(s, sep)
    case None =>
    case Some(i) =>
      SplitAt(s, sep, i);
      assert |Split(s[i + |sep|..], sep)| > 0;
  }

  /** When `a` holds no separator and the separator cannot overlap itself,
      the first occurrence in `a + sep + rest` is the one right after `a`. */
  lemma {:induction false} IndexAfterSeparatorFree(a: string, sep: string, rest: string)
    requires |sep| > 0 && Unbordered(sep)
    requires !Contains(a, sep)
    ensures IndexOf(a + sep + rest, sep) == Some(|a|)
  {
    var s := a + sep + rest;
    assert s[|a|..|a| + |sep|] == sep;
    assert OccursAt(s, sep, |a|);
    forall j | 0 <= j < |a|
      ensures !OccursAt(s, sep, j)
    {
      if j + |sep| <= |a| {
        assert a[j..j + |sep|] == s[j..j + |sep|];
        assert !OccursAt(a, sep, j);
      } else {
        var d := |a| - j;
        var w := s[j..j + |sep|];
        assert w[d..] == sep[..|sep| - d];
        assert sep[d..] != sep[..|sep| - d];
        assert w != sep;
      }
    }
  }

  /** Splitting `a + sep + rest` for a separator-free `a` gives `a` followed
      by the split of `rest`. */
  lemma SplitAfterSeparatorFree(a: string, sep: string, rest: string)
    requires |sep| > 0 && Unbordered(sep)
    requires !Contains(a, sep)
    ensures Split(a + sep + rest, sep) == [a] + Split(rest, sep)
  {
    var s := a + sep + rest;
    IndexAfterSeparatorFree(a, sep, rest);
    assert s[..|a|] == a;
    assert s[|a| + |sep|..] == rest;
  }

  /** The second part is only the text between the first and the second
      separators; anything after the second separator is not part of it. */
  lemma SplitSecondPart(a: string, sep: string, b: string, c: string)
    requires |sep| > 0 && Unbordered(sep)
    requires !Contains(a, sep) && !Contains(b, sep)
    ensures |Split(a + sep + b + sep + c, sep)| >= 3
    ensures Split(a + sep + b + sep + c, sep)[0] == a
    ensures Split(a + sep + b + sep + c, sep)[1] == b
  {
    SplitAfterSeparatorFree(a, sep, b + sep + c);
    SplitAfterSeparatorFree(b, sep, c);
    assert a + sep + b + sep + c == a + sep + (b + sep + c);
  }

  /** A line with exactly one separator splits into the text before it and
      the text after it. */
  lemma SplitTwoParts(a: string, sep: string, b: string)
    requires |sep| > 0 && Unbordered(sep)
    requires !Contains(a, sep) && !Contains(b, sep)
    ensures Split(a + sep + b, sep) == [a, b]
  {
    SplitAfterSeparatorFree(a, sep, b);
    SplitSinglePart(b, sep);
  }

  /** The exporter's separator cannot overlap itself. */
  lemma SeparatorUnbordered()
    ensures Unbordered(Separator)
  {
    forall d | 0 < d < |Separator|
      ensures Separator[d..] != Separator[..|Separator| - d]
    {
      assert Separator[d..][0] == ' ';
    }
  }
}
