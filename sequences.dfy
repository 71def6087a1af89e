/** The two sequence operators the control-point track's query is built from:
    `Distinct` (the first occurrence of each element wins, order kept) and
    `Where` (here `Filter`), with the facts about them that the track's
    contract rests on. */
module Sequences {

  /** No element occurs twice in `s`. */
  predicate NoDuplicates<T(==)>(s: seq<T>) {
    forall i, j :: 0 <= i < j < |s| ==> s[i] != s[j]
  }

  /** The position of the first occurrence of `x` in `s`. */
  function IndexOf<T(==)>(s: seq<T>, x: T): (i: nat)
    requires x in s
    ensures i < |s| && s[i] == x && x !in s[..i]
  {
    if s[0] == x then 0
    else
      assert x in s[1..];
      var k := IndexOf(s[1..], x);
      assert s[..k + 1] == [s[0]] + s[1..][..k];
      k + 1
  }

  /** Every element of `r` occurs in `s`, and `r` lists its elements in the
      order of their first occurrences in `s`. */
  predicate OrderedBy<T(==)>(r: seq<T>, s: seq<T>) {
    (forall i :: 0 <= i < |r| ==> r[i] in s) &&
    forall i, j :: 0 <= i < j < |r| ==> r[i] in s && r[j] in s && IndexOf(s, r[i]) < IndexOf(s, r[j])
  }

  /** LINQ `Distinct`: the elements of `s` with every repeat dropped, each kept
      at its first occurrence. */
  function Distinct<T(==)>(s: seq<T>): (r: seq<T>)
    ensures |r| <= |s|
  {
    if |s| == 0 then []
    else
      var last := s[|s| - 1];
      var d := Distinct(s[..|s| - 1]);
      if last in d then d else d + [last]
  }

  /** `Distinct` keeps exactly the elements of `s`. */
  lemma {:induction false} DistinctElements<T>(s: seq<T>, x: T)
    ensures x in Distinct(s) <==> x in s
  {
    if |s| > 0 {
      var n := |s| - 1;
      assert s == s[..n] + [s[n]];
      DistinctElements(s[..n], x);
    }
  }

  /** `Distinct` keeps no element twice. */
  lemma {:induction false} DistinctNoDuplicates<T>(s: seq<T>)
    ensures NoDuplicates(Distinct(s))
  {
    if |s| > 0 {
      var n := |s| - 1;
      var d := Distinct(s[..n]);
      DistinctNoDuplicates(s[..n]);
      if s[n] !in d {
        var r := d + [s[n]];
        forall i, j | 0 <= i < j < |r| ensures r[i] != r[j] {
          assert r[i] == d[i];
          if j < |d| {
            assert r[j] == d[j];
          }
        }
      }
    }
  }

  /** LINQ `Where`: the elements of `s` that satisfy `p`, in order. */
  function Filter<T>(p: T -> bool, s: seq<T>): (r: seq<T>)
    ensures |r| <= |s|
  {
    if |s| == 0 then []
    else
      var last := s[|s| - 1];
      var f := Filter(p, s[..|s| - 1]);
      if p(last) then f + [last] else f
  }

  /** `Filter` keeps exactly the elements of `s` that satisfy `p`. */
  lemma {:induction false} FilterElements<T>(p: T -> bool, s: seq<T>, x: T)
    ensures x in Filter(p, s) <==> x in s && p(x)
  {
    if |s| > 0 {
      var n := |s| - 1;
      assert s == s[..n] + [s[n]];
      FilterElements(p, s[..n], x);
    }
  }

  /** An occurrence of `x` with no earlier one is its first occurrence. */
  lemma IndexOfUnique<T>(s: seq<T>, x: T, i: nat)
    requires i < |s| && s[i] == x && x !in s[..i]
    ensures IndexOf(s, x) == i
  {
    var j := IndexOf(s, x);
    assert forall k :: 0 <= k < i ==> s[..i][k] == s[k];
    assert forall k :: 0 <= k < j ==> s[..j][k] == s[k];
  }

  /** The first occurrence of an element of a prefix is the same in the prefix
      as in the whole sequence. */
  lemma IndexOfPrefix<T>(s: seq<T>, k: nat, x: T)
    requires k <= |s| && x in s[..k]
    ensures x in s && IndexOf(s, x) == IndexOf(s[..k], x)
  {
    var j := IndexOf(s[..k], x);
    assert s[..k][..j] == s[..j];
    assert s[j] == x;
    IndexOfUnique(s, x, j);
  }

  /** `Distinct` keeps the order of first occurrences. */
  lemma {:induction false} DistinctOrderedBy<T>(s: seq<T>)
    ensures OrderedBy(Distinct(s), s)
  {
    if |s| > 0 {
      var n := |s| - 1;
      var init := s[..n];
      assert s == init + [s[n]];
      var d := Distinct(init);
      DistinctElements(init, s[n]);
      DistinctOrderedBy(init);
      forall y | y in d
        ensures y in s && IndexOf(s, y) == IndexOf(init, y) && IndexOf(s, y) < n
      {
        DistinctElements(init, y);
        IndexOfPrefix(s, n, y);
      }
      if s[n] !in d {
        var r := d + [s[n]];
        assert s[n] !in init;
        assert IndexOf(s, s[n]) == n;
        forall i, j | 0 <= i < j < |r|
          ensures r[i] in s && r[j] in s && IndexOf(s, r[i]) < IndexOf(s, r[j])
        {
          assert r[i] == d[i];
          if j < |d| {
            assert r[j] == d[j];
          }
        }
      }
    }
  }

  /** `Filter` keeps an order of first occurrences. */
  lemma {:induction false} FilterOrderedBy<T>(p: T -> bool, r: seq<T>, s: seq<T>)
    requires OrderedBy(r, s)
    ensures OrderedBy(Filter(p, r), s)
  {
    if |r| > 0 {
      var n := |r| - 1;
      var init := r[..n];
      assert r == init + [r[n]];
      assert OrderedBy(init, s) by {
        forall i, j | 0 <= i < j < |init|
          ensures init[i] in s && init[j] in s && IndexOf(s, init[i]) < IndexOf(s, init[j])
        {
          assert init[i] == r[i] && init[j] == r[j];
        }
      }
      FilterOrderedBy(p, init, s);
      var f := Filter(p, init);
      if p(r[n]) {
        var g := f + [r[n]];
        forall i, j | 0 <= i < j < |g|
          ensures g[i] in s && g[j] in s && IndexOf(s, g[i]) < IndexOf(s, g[j])
        {
          assert g[i] == f[i];
          if j < |f| {
            assert g[j] == f[j];
          } else {
            FilterElements(p, init, f[i]);
            var k :| 0 <= k < n && init[k] == f[i];
            assert r[k] == f[i];
          }
        }
      }
    }
  }

  /** `Filter` introduces no repeats. */
  lemma {:induction false} FilterNoDuplicates<T>(p: T -> bool, s: seq<T>)
    requires NoDuplicates(s)
    ensures NoDuplicates(Filter(p, s))
  {
    if |s| > 0 {
      var n := |s| - 1;
      var init := s[..n];
      assert s == init + [s[n]];
      assert NoDuplicates(init) by {
        forall i, j | 0 <= i < j < |init| ensures init[i] != init[j] {
          assert init[i] == s[i] && init[j] == s[j];
        }
      }
      FilterNoDuplicates(p, init);
      var f := Filter(p, init);
      if p(s[n]) {
        assert s[n] !in init;
        var g := f + [s[n]];
        forall i, j | 0 <= i < j < |g| ensures g[i] != g[j] {
          assert g[i] == f[i];
          if j < |f| {
            assert g[j] == f[j];
          } else {
            FilterElements(p, init, f[i]);
          }
        }
      }
    }
  }

  /** `r` lists the elements of `s`, each once, in the order of their first
      occurrences in `s`. */
  predicate ListsFirstOccurrences<T(==)>(r: seq<T>, s: seq<T>) {
    && (forall i :: 0 <= i < |s| ==> s[i] in r)
    && NoDuplicates(r)
    && OrderedBy(r, s)
  }

  /** `Distinct` is characterised by its three properties: `r` is
      `Distinct(s)` exactly when it lists the elements of `s`, each once, in
      the order of their first occurrences. */
  lemma DistinctCharacterised<T>(s: seq<T>, r: seq<T>)
    ensures r == Distinct(s) <==> ListsFirstOccurrences(r, s)
  {
    DistinctNoDuplicates(s);
    DistinctOrderedBy(s);
    forall i | 0 <= i < |s| ensures s[i] in Distinct(s) {
      DistinctElements(s, s[i]);
    }
    if ListsFirstOccurrences(r, s) {
      DistinctUnique(s, r);
    }
  }

  /** Splitting off the last element of `s` when it already occurred. */
  lemma FirstOccurrencesRepeatedLast<T>(s: seq<T>, r: seq<T>)
    requires |s| > 0 && s[|s| - 1] in s[..|s| - 1]
    requires ListsFirstOccurrences(r, s)
    ensures ListsFirstOccurrences(r, s[..|s| - 1])
  {
    var n := |s| - 1;
    var init := s[..n];
    forall i | 0 <= i < |r| ensures r[i] in init {
      assert r[i] in s;
    }
    forall i | 0 <= i < n ensures init[i] in r {
      assert init[i] == s[i];
    }
    forall i, j | 0 <= i < j < |r|
      ensures IndexOf(init, r[i]) < IndexOf(init, r[j])
    {
      IndexOfPrefix(s, n, r[i]);
      IndexOfPrefix(s, n, r[j]);
    }
  }

  /** If `r`'s elements are in `s`, so is its first one. */
  lemma FirstListed<T>(r: seq<T>, s: seq<T>)
    ensures |r| > 0 && (forall i :: 0 <= i < |r| ==> r[i] in s) ==> r[0] in s
  {
  }

  /** If `r` is in first-occurrence order of `s`, the element after `r[p]`
      occurs first later than `r[p]` does. */
  lemma FirstOfRestListed<T>(r: seq<T>, s: seq<T>, p: nat)
    ensures p + 1 < |r| && OrderedBy(r, s) ==> IndexOf(s, r[p]) < IndexOf(s, r[p + 1])
  {
  }

  /** When the last element of `s` is new, it comes last in `r`. */
  lemma NewLastComesLast<T>(s: seq<T>, r: seq<T>)
    requires |s| > 0 && s[|s| - 1] !in s[..|s| - 1]
    requires ListsFirstOccurrences(r, s)
    ensures |r| > 0 && r[|r| - 1] == s[|s| - 1]
  {
    var n := |s| - 1;
    var x := s[n];
    assert IndexOf(s, x) == n;
    var p :| 0 <= p < |r| && r[p] == x;
    FirstOfRestListed(r, s, p);
  }

  /** Splitting off the last element of `s` when it is new: the rest of `r`
      lists the first occurrences of the rest of `s`. */
  lemma FirstOccurrencesNewLast<T>(s: seq<T>, r: seq<T>)
    requires |s| > 0 && s[|s| - 1] !in s[..|s| - 1]
    requires ListsFirstOccurrences(r, s)
    ensures |r| > 0 && r == r[..|r| - 1] + [s[|s| - 1]]
    ensures ListsFirstOccurrences(r[..|r| - 1], s[..|s| - 1])
  {
    NewLastComesLast(s, r);
    var n := |s| - 1;
    var init, x := s[..n], s[n];
    var front := r[..|r| - 1];
    assert r == front + [x];
    forall i | 0 <= i < |front| ensures front[i] in init {
      assert front[i] == r[i] && r[i] != r[|r| - 1];
      assert r[i] in s;
    }
    forall i | 0 <= i < n ensures init[i] in front {
      assert init[i] == s[i] && s[i] != x;
      var k :| 0 <= k < |r| && r[k] == init[i];
      assert front[k] == r[k];
    }
    FrontKeepsOrder(s, r);
  }

  lemma FrontKeepsOrder<T>(s: seq<T>, r: seq<T>)
    requires |s| > 0 && |r| > 0
    requires NoDuplicates(r) && OrderedBy(r, s)
    requires forall i :: 0 <= i < |r| - 1 ==> r[i] in s[..|s| - 1]
    ensures NoDuplicates(r[..|r| - 1]) && OrderedBy(r[..|r| - 1], s[..|s| - 1])
  {
    var n := |s| - 1;
    var front := r[..|r| - 1];
    forall i, j | 0 <= i < j < |front|
      ensures front[i] != front[j] && IndexOf(s[..n], front[i]) < IndexOf(s[..n], front[j])
    {
      assert front[i] == r[i] && front[j] == r[j];
      IndexOfPrefix(s, n, front[i]);
      IndexOfPrefix(s, n, front[j]);
    }
  }

  /** The three properties of `Distinct` determine it. */
  lemma {:induction false} DistinctUnique<T>(s: seq<T>, r: seq<T>)
    requires ListsFirstOccurrences(r, s)
    ensures r == Distinct(s)
  {
    if |s| == 0 {
      FirstListed(r, s);
    } else {
      var n := |s| - 1;
      assert s == s[..n] + [s[n]];
      DistinctElements(s[..n], s[n]);
      if s[n] in s[..n] {
        FirstOccurrencesRepeatedLast(s, r);
        DistinctUnique(s[..n], r);
      } else {
        FirstOccurrencesNewLast(s, r);
        DistinctUnique(s[..n], r[..|r| - 1]);
      }
    }
  }
}
