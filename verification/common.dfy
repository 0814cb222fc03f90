/**
 * Building blocks shared by every router and component: an Option type and the
 * array operations the TypeScript code leans on (`Array.prototype.some`,
 * `filter`, `findIndex`) together with the ORDER BY of the database queries.
 */
module Common {

  datatype Option<+T> = None | Some(value: T)

  /** `s.some(p)`: true iff some element satisfies `p`. */
  function AnyOf<T>(s: seq<T>, p: T -> bool): (b: bool)
    ensures b <==> exists i :: 0 <= i < |s| && p(s[i])
  {
    if s == [] then false
    else
      var rest := AnyOf(s[1..], p);
      assert forall i :: 1 <= i < |s| ==> s[i] == s[1..][i - 1];
      p(s[0]) || rest
  }

  /** `s.filter(p)`: the elements satisfying `p`, in their original order. */
  function Filter<T>(s: seq<T>, p: T -> bool): (r: seq<T>)
    ensures |r| <= |s|
    ensures forall i :: 0 <= i < |r| ==> r[i] in s && p(r[i])
    ensures forall i :: 0 <= i < |s| && p(s[i]) ==> s[i] in r
  {
    if s == [] then []
    else
      var rest := Filter(s[1..], p);
      assert forall i :: 1 <= i < |s| ==> s[i] == s[1..][i - 1];
      (if p(s[0]) then [s[0]] else []) + rest
  }

  /**
   * Filtering keeps every element satisfying `p` as often as it occurs and
   * adds nothing: the kept elements' multiset is that of `s` restricted to `p`.
   */
  lemma {:induction false} FilterCounts<T>(s: seq<T>, p: T -> bool)
    ensures multiset(Filter(s, p)) <= multiset(s)
    ensures forall i :: 0 <= i < |s| && p(s[i]) ==> multiset(Filter(s, p))[s[i]] == multiset(s)[s[i]]
  {
    if s != [] {
      FilterCounts(s[1..], p);
      var rest := Filter(s[1..], p);
      var head := if p(s[0]) then [s[0]] else [];
      assert Filter(s, p) == head + rest;
      assert s == [s[0]] + s[1..];
      assert multiset(s) == multiset{s[0]} + multiset(s[1..]);
      forall i | 0 <= i < |s| && p(s[i]) ensures multiset(head + rest)[s[i]] == multiset(s)[s[i]] {
        if i > 0 {
          assert s[i] == s[1..][i - 1];
        }
        if s[i] == s[0] && s[0] in s[1..] {
          var j :| 0 <= j < |s[1..]| && s[1..][j] == s[0];
        }
      }
    }
  }

  /** A permutation of `Filter(s, p)`, such as the filtered rows after an ORDER BY, counts like the filter. */
  lemma PermutedFilterCounts<T>(s: seq<T>, p: T -> bool, r: seq<T>)
    requires multiset(r) == multiset(Filter(s, p))
    ensures multiset(r) <= multiset(s)
    ensures forall i :: 0 <= i < |s| && p(s[i]) ==> multiset(r)[s[i]] == multiset(s)[s[i]]
  {
    FilterCounts(s, p);
  }

  /**
   * Filtering a selection of `s` by `q` selects from `s` the elements that
   * satisfy both conditions, each as often as it occurs in `s`.
   */
  lemma FilterOfSelectionCounts<T>(s: seq<T>, h: T -> bool, rows: seq<T>, q: T -> bool)
    requires multiset(rows) <= multiset(s)
    requires forall i :: 0 <= i < |s| && h(s[i]) ==> multiset(rows)[s[i]] == multiset(s)[s[i]]
    ensures multiset(Filter(rows, q)) <= multiset(s)
    ensures forall i :: 0 <= i < |s| && h(s[i]) && q(s[i]) ==> multiset(Filter(rows, q))[s[i]] == multiset(s)[s[i]]
  {
    FilterCounts(rows, q);
    forall i | 0 <= i < |s| && h(s[i]) && q(s[i]) ensures multiset(Filter(rows, q))[s[i]] == multiset(s)[s[i]] {
      assert s[i] in multiset(s);
      assert s[i] in multiset(rows);
      var k :| 0 <= k < |rows| && rows[k] == s[i];
    }
  }

  /** Filtering distributes over concatenation: the relative order of kept elements is preserved. */
  lemma {:induction false} FilterAppend<T>(a: seq<T>, b: seq<T>, p: T -> bool)
    ensures Filter(a + b, p) == Filter(a, p) + Filter(b, p)
  {
    if a == [] {
      assert a + b == b;
    } else {
      assert (a + b)[1..] == a[1..] + b;
      FilterAppend(a[1..], b, p);
    }
  }

  /** The index `s.findIndex(p)` would report, or None for -1. */
  function FindIndex<T>(s: seq<T>, p: T -> bool): (r: Option<nat>)
    ensures r.None? <==> forall i :: 0 <= i < |s| ==> !p(s[i])
    ensures r.Some? ==> r.value < |s| && p(s[r.value])
    ensures r.Some? ==> forall j :: 0 <= j < r.value ==> !p(s[j])
  {
    if s == [] then None
    else if p(s[0]) then Some(0)
    else
      match FindIndex(s[1..], p)
      case None =>
        assert forall i :: 1 <= i < |s| ==> s[i] == s[1..][i - 1];
        None
      case Some(k) =>
        assert forall j :: 1 <= j <= k ==> s[j] == s[1..][j - 1];
        Some(k + 1)
  }

  /** `s` is in ascending order of `key` (the result of `ORDER BY key ASC`). */
  ghost predicate SortedBy<T>(s: seq<T>, key: T -> int) {
    forall i, j :: 0 <= i < j < |s| ==> key(s[i]) <= key(s[j])
  }

  /** Every element of a permutation of `tail + [x]` is bounded below by `lo`, if `x` and `tail` are. */
  lemma PermutationBound<T>(x: T, tail: seq<T>, r: seq<T>, key: T -> int, lo: int)
    requires multiset(r) == multiset(tail) + multiset{x}
    requires lo <= key(x)
    requires forall k :: 0 <= k < |tail| ==> lo <= key(tail[k])
    ensures forall j :: 0 <= j < |r| ==> lo <= key(r[j])
  {
    forall j | 0 <= j < |r| ensures lo <= key(r[j]) {
      assert r[j] in multiset(r);
      if r[j] != x {
        assert r[j] in multiset(tail);
        var k :| 0 <= k < |tail| && tail[k] == r[j];
      }
    }
  }

  function InsertBy<T>(x: T, s: seq<T>, key: T -> int): (r: seq<T>)
    requires SortedBy(s, key)
    ensures SortedBy(r, key)
    ensures multiset(r) == multiset(s) + multiset{x}
  {
    if s == [] then [x]
    else if key(x) <= key(s[0]) then [x] + s
    else
      var rest := InsertBy(x, s[1..], key);
      assert s == [s[0]] + s[1..];
      PermutationBound(x, s[1..], rest, key, key(s[0]));
      [s[0]] + rest
  }

  /**
   * The rows of `s` in ascending `key` order: the result of an ORDER BY.
   * The database leaves the order of equal keys open; only the two ensures
   * clauses are claimed about it.
   */
  function SortBy<T>(s: seq<T>, key: T -> int): (r: seq<T>)
    ensures SortedBy(r, key)
    ensures multiset(r) == multiset(s)
  {
    if s == [] then []
    else
      assert s == [s[0]] + s[1..];
      InsertBy(s[0], SortBy(s[1..], key), key)
  }

  /** A permutation has the same elements as the sequence it permutes. */
  lemma SameElements<T>(s: seq<T>, r: seq<T>)
    requires multiset(r) == multiset(s)
    ensures forall i :: 0 <= i < |r| ==> r[i] in s
    ensures forall i :: 0 <= i < |s| ==> s[i] in r
  {
    forall i | 0 <= i < |r| ensures r[i] in s {
      assert r[i] in multiset(r);
    }
    forall i | 0 <= i < |s| ensures s[i] in r {
      assert s[i] in multiset(s);
    }
  }

  /** Filtering a sorted sequence keeps it sorted. */
  lemma {:induction false} FilterKeepsSorted<T>(s: seq<T>, p: T -> bool, key: T -> int)
    requires SortedBy(s, key)
    ensures SortedBy(Filter(s, p), key)
  {
    if s != [] {
      FilterKeepsSorted(s[1..], p, key);
      var rest := Filter(s[1..], p);
      forall y | y in rest ensures key(s[0]) <= key(y) {
        var k :| 0 <= k < |s[1..]| && s[1..][k] == y;
        assert s[k + 1] == y;
      }
    }
  }

  /** In a sorted sequence the first element satisfying `p` has the least key among all that do. */
  lemma FirstMatchIsLeast<T>(s: seq<T>, p: T -> bool, key: T -> int, k: nat)
    requires SortedBy(s, key)
    requires FindIndex(s, p) == Some(k)
    ensures forall j :: 0 <= j < |s| && p(s[j]) ==> key(s[k]) <= key(s[j])
  {
    forall j | 0 <= j < |s| && p(s[j]) ensures key(s[k]) <= key(s[j]) {
      assert k <= j;
    }
  }

  /** The whitespace `String.prototype.trim` strips, restricted to the ASCII controls and the space. */
  predicate IsSpace(c: char) {
    c == ' ' || c == '\t' || c == '\n' || c == '\r'
  }

  function TrimStart(s: string): (r: string)
    ensures r == [] || !IsSpace(r[0])
    ensures |r| <= |s| && r == s[|s| - |r|..]
    ensures forall i :: 0 <= i < |s| - |r| ==> IsSpace(s[i])
  {
    if s != [] && IsSpace(s[0]) then
      var r := TrimStart(s[1..]);
      assert forall i :: 1 <= i < |s| ==> s[i] == s[1..][i - 1];
      r
    else s
  }

  function TrimEnd(s: string): (r: string)
    ensures r == [] || !IsSpace(r[|r| - 1])
    ensures |r| <= |s| && r == s[..|r|]
    ensures forall i :: |r| <= i < |s| ==> IsSpace(s[i])
  {
    if s != [] && IsSpace(s[|s| - 1]) then TrimEnd(s[..|s| - 1]) else s
  }

  /** `s.trim()`: `s` without its leading and trailing whitespace. */
  function Trim(s: string): (r: string)
    ensures r == [] || (!IsSpace(r[0]) && !IsSpace(r[|r| - 1]))
    ensures var lead := |s| - |TrimStart(s)|; lead + |r| <= |s| && r == s[lead..lead + |r|]
    ensures var lead := |s| - |TrimStart(s)|; forall i :: lead + |r| <= i < |s| ==> IsSpace(s[i])
  {
    var t := TrimStart(s);
    var r := TrimEnd(t);
    assert r == [] || r[0] == t[0];
    r
  }

  /** Trimming leaves nothing exactly when the text is all whitespace. */
  lemma TrimEmptyIffBlank(s: string)
    ensures Trim(s) == [] <==> forall i :: 0 <= i < |s| ==> IsSpace(s[i])
  {
    var t := TrimStart(s);
    if t != [] {
      assert s[|s| - |t|] == t[0];
    }
  }

  /** `s.trim() || null`: the trimmed text, or nothing when only whitespace is left. */
  function TrimmedOrNull(s: string): (r: Option<string>)
    ensures r.None? <==> forall i :: 0 <= i < |s| ==> IsSpace(s[i])
    ensures r.Some? ==> r.value == Trim(s) && r.value != []
  {
    TrimEmptyIffBlank(s);
    var t := Trim(s);
    if t == [] then None else Some(t)
  }

  /** Trimming twice trims nothing more. */
  lemma TrimIdempotent(s: string)
    ensures Trim(Trim(s)) == Trim(s)
  {
    var t := Trim(s);
    if t != [] {
      assert TrimStart(t) == t;
      assert TrimEnd(t) == t;
    }
  }
}
