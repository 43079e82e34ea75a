/**
 * The recent-search list: a bounded, most-recently-used list of query
 * strings, updated after every search that found at least one car.
 */
module RecentSearches {
  import opened Text

  /** The list keeps at most this many queries (`slice(0, 5)`). */
  const MaxRecent: nat := 5

  function Min(a: nat, b: nat): nat
  {
    if a <= b then a else b
  }

  /** `a` can be obtained from `b` by deleting elements, keeping the order of the rest. */
  predicate IsSubsequence<T(==)>(a: seq<T>, b: seq<T>)
    decreases |b|
  {
    if a == [] then true
    else if b == [] then false
    else (a[0] == b[0] && IsSubsequence(a[1..], b[1..])) || IsSubsequence(a, b[1..])
  }

  /** No two entries of `s` are equal ignoring case. */
  predicate NoCaseDuplicates(s: seq<string>)
  {
    forall i, j :: 0 <= i < j < |s| ==> !SameIgnoringCase(s[i], s[j])
  }

  /** The entries of `entries` that do not equal `key` ignoring case, in their original order. */
  function DropMatches(entries: seq<string>, key: string): (r: seq<string>)
    ensures |r| <= |entries|
    ensures forall x :: x in r <==> x in entries && !SameIgnoringCase(x, key)
    ensures IsSubsequence(r, entries)
  {
    if entries == [] then []
    else if SameIgnoringCase(entries[0], key) then DropMatches(entries[1..], key)
    else
      var rest := DropMatches(entries[1..], key);
      assert ([entries[0]] + rest)[1..] == rest;
      [entries[0]] + rest
  }

  /**
   * `filter` keeps every copy of a surviving entry: each string occurs in the
   * result exactly as often as in `entries`, unless it matches the key.
   */
  lemma {:induction false} DropMatchesCounts(entries: seq<string>, key: string, x: string)
    ensures multiset(DropMatches(entries, key))[x] ==
      if SameIgnoringCase(x, key) then 0 else multiset(entries)[x]
  {
    if entries != [] {
      DropMatchesCounts(entries[1..], key, x);
      assert entries == [entries[0]] + entries[1..];
    }
  }

  /**
   * The list after a successful search for `query`: the trimmed query first,
   * then the previous entries that differ from it ignoring case, cut to MaxRecent.
   */
  function RecordSearch(prev: seq<string>, query: string): (r: seq<string>)
    ensures 1 <= |r| <= MaxRecent
    ensures r[0] == Trim(query)
    ensures |r| == Min(MaxRecent, 1 + |DropMatches(prev, Trim(query))|)
    ensures r[1..] == DropMatches(prev, Trim(query))[..|r| - 1]
    ensures IsSubsequence(r[1..], prev)
    ensures forall i :: 1 <= i < |r| ==> r[i] in prev && !SameIgnoringCase(r[i], r[0])
    ensures |r| < MaxRecent ==>
      forall x :: x in prev && !SameIgnoringCase(x, Trim(query)) ==> x in r
  {
    var q := Trim(query);
    var kept := DropMatches(prev, q);
    var r := [q] + kept[..Min(|kept|, MaxRecent - 1)];
    RecordSearchParts(prev, q, kept, r);
    r
  }

  /** The facts about the kept tail that RecordSearch's contract relies on. */
  lemma RecordSearchParts(prev: seq<string>, q: string, kept: seq<string>, r: seq<string>)
    requires kept == DropMatches(prev, q)
    requires r == [q] + kept[..Min(|kept|, MaxRecent - 1)]
    ensures r[1..] == kept[..|r| - 1]
    ensures IsSubsequence(r[1..], prev)
    ensures forall i :: 1 <= i < |r| ==> r[i] in prev && !SameIgnoringCase(r[i], q)
    ensures |r| < MaxRecent ==> forall x :: x in prev && !SameIgnoringCase(x, q) ==> x in r
  {
    assert r[1..] == kept[..|r| - 1];
    PrefixIsSubsequence(kept, |r| - 1);
    SubsequenceTransitive(r[1..], kept, prev);
    forall i | 1 <= i < |r|
      ensures r[i] in prev && !SameIgnoringCase(r[i], q)
    {
      assert r[i] == kept[i - 1];
    }
    if |r| < MaxRecent {
      assert kept[..|r| - 1] == kept;
      forall x | x in prev && !SameIgnoringCase(x, q)
        ensures x in r
      {
        assert x in kept;
        var j :| 0 <= j < |kept| && kept[j] == x;
        assert r[j + 1] == x;
      }
    }
  }

  lemma {:induction false} PrefixIsSubsequence<T>(s: seq<T>, n: nat)
    requires n <= |s|
    ensures IsSubsequence(s[..n], s)
    decreases n
  {
    if n > 0 {
      PrefixIsSubsequence(s[1..], n - 1);
      assert s[..n][1..] == s[1..][..n - 1];
    }
  }

  lemma {:induction false} SubsequenceTransitive<T>(a: seq<T>, b: seq<T>, c: seq<T>)
    requires IsSubsequence(a, b) && IsSubsequence(b, c)
    ensures IsSubsequence(a, c)
    decreases |c|
  {
    if a == [] {
    } else if a[0] == b[0] && IsSubsequence(a[1..], b[1..]) {
      if b[0] == c[0] && IsSubsequence(b[1..], c[1..]) {
        SubsequenceTransitive(a[1..], b[1..], c[1..]);
      } else {
        SubsequenceTransitive(a, b, c[1..]);
      }
    } else {
      if b[0] == c[0] && IsSubsequence(b[1..], c[1..]) {
        SubsequenceTransitive(a, b[1..], c[1..]);
      } else {
        SubsequenceTransitive(a, b, c[1..]);
      }
    }
  }

  lemma {:induction false} SubsequenceMembers<T>(a: seq<T>, b: seq<T>)
    requires IsSubsequence(a, b)
    ensures forall x :: x in a ==> x in b
    decreases |b|
  {
    if a == [] {
    } else if a[0] == b[0] && IsSubsequence(a[1..], b[1..]) {
      SubsequenceMembers(a[1..], b[1..]);
      assert a == [a[0]] + a[1..];
      assert b == [b[0]] + b[1..];
    } else {
      SubsequenceMembers(a, b[1..]);
      assert b == [b[0]] + b[1..];
    }
  }

  /** Deleting entries cannot create a case-insensitive duplicate. */
  lemma {:induction false} SubsequenceKeepsNoCaseDuplicates(a: seq<string>, b: seq<string>)
    requires IsSubsequence(a, b) && NoCaseDuplicates(b)
    ensures NoCaseDuplicates(a)
    decreases |b|
  {
    if a == [] {
    } else if a[0] == b[0] && IsSubsequence(a[1..], b[1..]) {
      SubsequenceKeepsNoCaseDuplicates(a[1..], b[1..]);
      SubsequenceMembers(a[1..], b[1..]);
      forall j | 0 < j < |a| ensures !SameIgnoringCase(a[0], a[j]) {
        assert a[j] in a[1..];
        var k :| 0 <= k < |b[1..]| && b[1..][k] == a[j];
        assert b[k + 1] == a[j];
      }
    } else {
      SubsequenceKeepsNoCaseDuplicates(a, b[1..]);
    }
  }

  /** If the list had no case-insensitive duplicates, recording a search keeps it so. */
  lemma RecordSearchKeepsNoCaseDuplicates(prev: seq<string>, query: string)
    requires NoCaseDuplicates(prev)
    ensures NoCaseDuplicates(RecordSearch(prev, query))
  {
    var r := RecordSearch(prev, query);
    SubsequenceKeepsNoCaseDuplicates(r[1..], prev);
    forall i, j | 0 <= i < j < |r| ensures !SameIgnoringCase(r[i], r[j]) {
      if i > 0 {
        assert r[i] == r[1..][i - 1] && r[j] == r[1..][j - 1];
      }
    }
  }

  /** Searching for the same query twice in a row leaves the list as after the first search. */
  lemma RecordSearchIdempotent(prev: seq<string>, query: string)
    ensures RecordSearch(RecordSearch(prev, query), query) == RecordSearch(prev, query)
  {
    var r := RecordSearch(prev, query);
    var q := Trim(query);
    assert r == [q] + r[1..];
    DropMatchesNone(r[1..], q);
    assert DropMatches(r, q) == r[1..];
  }

  /** Dropping matches from a list that has none changes nothing. */
  lemma {:induction false} DropMatchesNone(entries: seq<string>, key: string)
    requires forall x :: x in entries ==> !SameIgnoringCase(x, key)
    ensures DropMatches(entries, key) == entries
  {
    if entries != [] {
      DropMatchesNone(entries[1..], key);
    }
  }
}
