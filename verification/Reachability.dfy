/**
 Reachability over the adjacency dictionaries that the breadth-first searches of the repository
 build (`dict[node, set[node]]`), stated by paths and independent of any search.
 */
module Reachability {

  /** `adjacency.get(node, set())`. */
  function Neighbours<T>(adj: map<T, set<T>>, x: T): set<T> {
    if x in adj then adj[x] else {}
  }

  ghost predicate IsPath<T>(adj: map<T, set<T>>, path: seq<T>, x: T, y: T) {
    && |path| > 0 && path[0] == x && path[|path| - 1] == y
    && forall i :: 0 <= i < |path| - 1 ==> path[i + 1] in Neighbours(adj, path[i])
  }

  ghost predicate Reaches<T(!new)>(adj: map<T, set<T>>, x: T, y: T) {
    exists path :: IsPath(adj, path, x, y)
  }

  /** Every edge can be followed in both directions. */
  ghost predicate Symmetric<T(!new)>(adj: map<T, set<T>>) {
    forall x, y :: y in Neighbours(adj, x) ==> x in Neighbours(adj, y)
  }

  ghost predicate Closed<T(!new)>(adj: map<T, set<T>>, s: set<T>) {
    forall x, y :: x in s && y in Neighbours(adj, x) ==> y in s
  }

  lemma ReachesItself<T(!new)>(adj: map<T, set<T>>, x: T)
    ensures Reaches(adj, x, x)
  {
    assert IsPath(adj, [x], x, x);
  }

  lemma ReachesNext<T(!new)>(adj: map<T, set<T>>, x: T, y: T, z: T)
    requires Reaches(adj, x, y) && z in Neighbours(adj, y)
    ensures Reaches(adj, x, z)
  {
    var path :| IsPath(adj, path, x, y);
    assert IsPath(adj, path + [z], x, z);
  }

  lemma ReachesTransitively<T(!new)>(adj: map<T, set<T>>, x: T, y: T, z: T)
    requires Reaches(adj, x, y) && Reaches(adj, y, z)
    ensures Reaches(adj, x, z)
  {
    var first :| IsPath(adj, first, x, y);
    var second :| IsPath(adj, second, y, z);
    var path := first + second[1..];
    forall i | 0 <= i < |path| - 1 ensures path[i + 1] in Neighbours(adj, path[i]) {
      if i >= |first| - 1 {
        var k := i - (|first| - 1);
        assert path[i] == second[k] && path[i + 1] == second[k + 1];
      }
    }
    assert IsPath(adj, path, x, z);
  }

  /** A closed set holds every path that starts in it. */
  lemma {:induction false} ClosedHoldsPath<T(!new)>(adj: map<T, set<T>>, s: set<T>, path: seq<T>, x: T, y: T)
    requires Closed(adj, s) && x in s && IsPath(adj, path, x, y)
    ensures y in s
  {
    if |path| > 1 {
      assert path[1] in Neighbours(adj, path[0]);
      assert IsPath(adj, path[1..], path[1], y) by {
        forall i | 0 <= i < |path[1..]| - 1 ensures path[1..][i + 1] in Neighbours(adj, path[1..][i]) {
          assert path[i + 2] in Neighbours(adj, path[i + 1]);
        }
      }
      ClosedHoldsPath(adj, s, path[1..], path[1], y);
    }
  }

  lemma ClosedHoldsReachable<T(!new)>(adj: map<T, set<T>>, s: set<T>, x: T, y: T)
    requires Closed(adj, s) && x in s && Reaches(adj, x, y)
    ensures y in s
  {
    var path :| IsPath(adj, path, x, y);
    ClosedHoldsPath(adj, s, path, x, y);
  }

  lemma {:induction false} ReachesBack<T(!new)>(adj: map<T, set<T>>, x: T, y: T)
    requires Symmetric(adj) && Reaches(adj, x, y)
    ensures Reaches(adj, y, x)
  {
    var path :| IsPath(adj, path, x, y);
    var back := seq(|path|, i requires 0 <= i < |path| => path[|path| - 1 - i]);
    forall i | 0 <= i < |back| - 1 ensures back[i + 1] in Neighbours(adj, back[i]) {
      var k := |path| - 2 - i;
      assert path[k + 1] in Neighbours(adj, path[k]);
    }
    assert IsPath(adj, back, y, x);
  }

  /** The members of `universe` that x reaches; x's connectivity class when `adj` is symmetric. */
  ghost function ReachableWithin<T(!new)>(adj: map<T, set<T>>, universe: set<T>, x: T): set<T> {
    set y | y in universe && Reaches(adj, x, y)
  }

  /** What a finished search has found: `seen` holds the start, only reached nodes, and no edge leaves it. */
  lemma SearchIsExact<T(!new)>(adj: map<T, set<T>>, x: T, seen: set<T>)
    requires x in seen && Closed(adj, seen)
    requires forall y :: y in seen ==> Reaches(adj, x, y)
    ensures forall y :: y in seen <==> Reaches(adj, x, y)
  {
    forall y | Reaches(adj, x, y) ensures y in seen {
      ClosedHoldsReachable(adj, seen, x, y);
    }
  }

  /** Two classes of a symmetric graph that meet are the same class. */
  lemma MeetingClassesCoincide<T(!new)>(adj: map<T, set<T>>, universe: set<T>, x: T, y: T)
    requires Symmetric(adj) && Reaches(adj, x, y)
    ensures ReachableWithin(adj, universe, x) == ReachableWithin(adj, universe, y)
  {
    ReachesBack(adj, x, y);
    forall z | z in universe ensures Reaches(adj, x, z) <==> Reaches(adj, y, z) {
      if Reaches(adj, x, z) {
        ReachesTransitively(adj, y, x, z);
      }
      if Reaches(adj, y, z) {
        ReachesTransitively(adj, x, y, z);
      }
    }
  }
}
