/**
 * Merging of bin edges (cleanEdges / summariseEdges): an edge closer than a
 * threshold to the last kept edge is dropped, and the edges of several lists
 * are pooled, sorted and merged the same way.
 */
module Edges {

  /** Threshold under which two edges are taken to be the same. */
  const DefaultThreshold: real := 0.000001

  function Abs(x: real): real { if x < 0.0 then -x else x }

  predicate Sorted(s: seq<real>)
  {
    forall i, j :: 0 <= i < j < |s| ==> s[i] <= s[j]
  }

  predicate StrictlyIncreasing(s: seq<real>)
  {
    forall i, j :: 0 <= i < j < |s| ==> s[i] < s[j]
  }

  /** Consecutive elements are more than t apart. */
  predicate Spaced(s: seq<real>, t: real)
  {
    forall i :: 0 <= i < |s| - 1 ==> Abs(s[i + 1] - s[i]) > t
  }

  /** Some element of c lies within t of e. */
  predicate Near(e: real, c: seq<real>, t: real)
  {
    exists j :: 0 <= j < |c| && Abs(e - c[j]) <= t
  }

  /**
   * The edges `cleanEdges` keeps, in order: the first edge, then every edge
   * more than t away from the last edge kept so far.
   */
  function Clean(s: seq<real>, t: real): (c: seq<real>)
    ensures |c| <= |s|
    ensures c == [] <==> s == []
    ensures s != [] ==> c[0] == s[0]
    decreases |s|
  {
    if s == [] then []
    else
      var prev := Clean(s[..|s| - 1], t);
      var e := s[|s| - 1];
      if prev == [] then [e]
      else if Abs(e - prev[|prev| - 1]) > t then prev + [e]
      else prev
  }

  /** The loop of cleanEdges. */
  method CleanEdges(edgeList: seq<real>, threshold: real) returns (newEdges: seq<real>)
    ensures newEdges == Clean(edgeList, threshold)
  {
    newEdges := [];
    for i := 0 to |edgeList|
      invariant newEdges == Clean(edgeList[..i], threshold)
    {
      var edge := edgeList[i];
      assert edgeList[..i + 1][..i] == edgeList[..i];
      if |newEdges| == 0 {
        newEdges := [edge];
      } else if Abs(edge - newEdges[|newEdges| - 1]) > threshold {
        newEdges := newEdges + [edge];
      }
    }
    assert edgeList[..|edgeList|] == edgeList;
  }

  /** Every kept edge is one of the input edges. */
  lemma {:induction false} CleanSubset(s: seq<real>, t: real)
    ensures forall k :: 0 <= k < |Clean(s, t)| ==> Clean(s, t)[k] in s
    decreases |s|
  {
    if s != [] {
      var s' := s[..|s| - 1];
      CleanSubset(s', t);
      var prev, c := Clean(s', t), Clean(s, t);
      forall k | 0 <= k < |c| ensures c[k] in s {
        if k < |prev| {
          assert c[k] == prev[k];
          assert c[k] in s';
        } else {
          assert c[k] == s[|s| - 1];
        }
      }
    }
  }

  /** Kept edges are pairwise more than t apart in sequence. */
  lemma {:induction false} CleanSpaced(s: seq<real>, t: real)
    ensures Spaced(Clean(s, t), t)
    decreases |s|
  {
    if s != [] {
      CleanSpaced(s[..|s| - 1], t);
    }
  }

  /** Every edge is within t of a kept edge: nothing is lost, only merged. */
  lemma {:induction false} CleanCovers(s: seq<real>, t: real)
    requires t >= 0.0
    ensures forall i :: 0 <= i < |s| ==> Near(s[i], Clean(s, t), t)
    decreases |s|
  {
    if s != [] {
      var s' := s[..|s| - 1];
      var prev, c := Clean(s', t), Clean(s, t);
      CleanCovers(s', t);
      assert prev <= c;
      forall i | 0 <= i < |s| ensures Near(s[i], c, t) {
        if i < |s| - 1 {
          assert s[i] == s'[i];
          assert Near(s'[i], prev, t);
          var j :| 0 <= j < |prev| && Abs(s'[i] - prev[j]) <= t;
          assert c[j] == prev[j];
          assert 0 <= j < |c| && Abs(s[i] - c[j]) <= t;
        } else if prev == [] || Abs(s[i] - prev[|prev| - 1]) > t {
          assert c[|c| - 1] == s[i];
          assert Abs(s[i] - c[|c| - 1]) <= t;
        } else {
          assert c == prev;
          assert Abs(s[i] - c[|prev| - 1]) <= t;
        }
      }
    }
  }

  /** A sorted input with a non-negative threshold gives strictly increasing edges. */
  lemma {:induction false} CleanSortedIncreasing(s: seq<real>, t: real)
    requires Sorted(s) && t >= 0.0
    ensures StrictlyIncreasing(Clean(s, t))
    decreases |s|
  {
    if s != [] {
      var s' := s[..|s| - 1];
      CleanSortedIncreasing(s', t);
      var prev := Clean(s', t);
      var e := s[|s| - 1];
      if prev != [] && Abs(e - prev[|prev| - 1]) > t {
        CleanSubset(s', t);
        assert prev[|prev| - 1] in s';
        var k :| 0 <= k < |s'| && s'[k] == prev[|prev| - 1];
        assert s[k] == s'[k];
        assert prev[|prev| - 1] < e;
      }
    }
  }

  // ---------------------------------------------------------------------
  // Sorting the pooled edges.

  /** `e` placed into the sorted sequence s before its first larger element. */
  function Insert(e: real, s: seq<real>): seq<real>
    decreases |s|
  {
    if s == [] then [e]
    else if e <= s[0] then [e] + s
    else [s[0]] + Insert(e, s[1..])
  }

  /** `list.sort()` on the pooled edges, as an insertion sort. */
  function Sort(s: seq<real>): seq<real>
    decreases |s|
  {
    if s == [] then [] else Insert(s[|s| - 1], Sort(s[..|s| - 1]))
  }

  /** Inserting adds exactly e. */
  lemma {:induction false} InsertAdds(e: real, s: seq<real>)
    ensures multiset(Insert(e, s)) == multiset(s) + multiset{e}
    decreases |s|
  {
    if s != [] && e > s[0] {
      assert s == [s[0]] + s[1..];
      InsertAdds(e, s[1..]);
    }
  }

  /** Inserting keeps a sorted sequence sorted. */
  lemma {:induction false} InsertKeepsSorted(e: real, s: seq<real>)
    requires Sorted(s)
    ensures Sorted(Insert(e, s))
    decreases |s|
  {
    if s != [] && e > s[0] {
      var rest := Insert(e, s[1..]);
      InsertKeepsSorted(e, s[1..]);
      InsertAdds(e, s[1..]);
      forall k | 0 <= k < |rest| ensures s[0] <= rest[k] {
        assert rest[k] in multiset(rest);
        assert rest[k] in multiset(s[1..]) || rest[k] == e;
        if rest[k] != e {
          var i :| 0 <= i < |s[1..]| && s[1..][i] == rest[k];
          assert s[i + 1] == rest[k];
        }
      }
    }
  }

  /** The sorted edges are in ascending order and are the same edges. */
  lemma {:induction false} SortSorted(s: seq<real>)
    ensures Sorted(Sort(s))
    ensures multiset(Sort(s)) == multiset(s)
    decreases |s|
  {
    if s != [] {
      assert s == s[..|s| - 1] + [s[|s| - 1]];
      SortSorted(s[..|s| - 1]);
      InsertAdds(s[|s| - 1], Sort(s[..|s| - 1]));
      InsertKeepsSorted(s[|s| - 1], Sort(s[..|s| - 1]));
    }
  }

  /** All lists joined in order: `allEdges += edgelist` for each list. */
  function Concat(lists: seq<seq<real>>): seq<real>
    decreases |lists|
  {
    if lists == [] then [] else Concat(lists[..|lists| - 1]) + lists[|lists| - 1]
  }

  /** e is an edge of one of the lists. */
  predicate InSome(lists: seq<seq<real>>, e: real)
  {
    exists l :: 0 <= l < |lists| && e in lists[l]
  }

  lemma {:induction false} ConcatMembers(lists: seq<seq<real>>, e: real)
    ensures e in Concat(lists) <==> InSome(lists, e)
    decreases |lists|
  {
    if lists != [] {
      var front := lists[..|lists| - 1];
      ConcatMembers(front, e);
      if e in Concat(front) {
        var l :| 0 <= l < |front| && e in front[l];
        assert lists[l] == front[l];
      }
      if InSome(lists, e) {
        var l :| 0 <= l < |lists| && e in lists[l];
        if l < |front| {
          assert front[l] == lists[l];
        }
      }
    }
  }

  /** summariseEdges: pool every list, sort, and merge with the threshold. */
  method SummariseEdges(edgeListVector: seq<seq<real>>, threshold: real) returns (r: seq<real>)
    ensures r == Clean(Sort(Concat(edgeListVector)), threshold)
  {
    var allEdges: seq<real> := [];
    for i := 0 to |edgeListVector|
      invariant allEdges == Concat(edgeListVector[..i])
    {
      assert edgeListVector[..i + 1][..i] == edgeListVector[..i];
      allEdges := allEdges + edgeListVector[i];
    }
    assert edgeListVector[..|edgeListVector|] == edgeListVector;
    allEdges := Sort(allEdges);
    r := CleanEdges(allEdges, threshold);
  }

  /**
   * The summary with a non-negative threshold is strictly ascending, holds
   * only edges of the input lists, and has an edge within the threshold of
   * every input edge.
   */
  lemma SummaryProperties(lists: seq<seq<real>>, t: real)
    requires t >= 0.0
    ensures StrictlyIncreasing(Clean(Sort(Concat(lists)), t))
    ensures forall k :: 0 <= k < |Clean(Sort(Concat(lists)), t)| ==> InSome(lists, Clean(Sort(Concat(lists)), t)[k])
    ensures forall l, e :: 0 <= l < |lists| && e in lists[l] ==> Near(e, Clean(Sort(Concat(lists)), t), t)
  {
    var sorted := Sort(Concat(lists));
    SortSorted(Concat(lists));
    CleanSortedIncreasing(sorted, t);
    SummaryFromLists(lists, t);
    SummaryCoversLists(lists, t);
  }

  lemma SummaryFromLists(lists: seq<seq<real>>, t: real)
    ensures forall k :: 0 <= k < |Clean(Sort(Concat(lists)), t)| ==> InSome(lists, Clean(Sort(Concat(lists)), t)[k])
  {
    var all := Concat(lists);
    var sorted := Sort(all);
    var c := Clean(sorted, t);
    SortSorted(all);
    CleanSubset(sorted, t);
    forall k | 0 <= k < |c| ensures InSome(lists, c[k]) {
      assert c[k] in sorted;
      assert c[k] in multiset(sorted);
      assert c[k] in multiset(all);
      ConcatMembers(lists, c[k]);
    }
  }

  lemma SummaryCoversLists(lists: seq<seq<real>>, t: real)
    requires t >= 0.0
    ensures forall l, e :: 0 <= l < |lists| && e in lists[l] ==> Near(e, Clean(Sort(Concat(lists)), t), t)
  {
    var all := Concat(lists);
    var sorted := Sort(all);
    var c := Clean(sorted, t);
    SortSorted(all);
    CleanCovers(sorted, t);
    forall l, e | 0 <= l < |lists| && e in lists[l]
      ensures Near(e, c, t)
    {
      ConcatMembers(lists, e);
      assert e in multiset(all);
      assert e in multiset(sorted);
      var i :| 0 <= i < |sorted| && sorted[i] == e;
    }
  }
}
