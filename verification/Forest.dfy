// Reachability over parent pointers. An edge (x, p) says that x names p as its
// parent. Nothing here assumes that the pointers are acyclic.

module Forest {
  type Edges = set<(string, string)>

  ghost predicate ReachIn(E: Edges, x: string, r: string, n: nat)
    decreases n
  {
    if n == 0 then x == r
    else exists y :: (x, y) in E && ReachIn(E, y, r, n - 1)
  }

  /** r is x itself or an ancestor of x. */
  ghost predicate Reaches(E: Edges, x: string, r: string) {
    exists n: nat :: ReachIn(E, x, r, n)
  }

  ghost predicate Functional(E: Edges) {
    forall x, p, q :: (x, p) in E && (x, q) in E ==> p == q
  }

  ghost predicate IsRoot(E: Edges, x: string) {
    forall e :: e in E ==> e.0 != x
  }

  /** r is a proper ancestor of x (of itself, on a cycle). */
  ghost predicate ReachesProperly(E: Edges, x: string, r: string) {
    exists n: nat :: n > 0 && ReachIn(E, x, r, n)
  }

  ghost predicate OnCycle(E: Edges, x: string) {
    ReachesProperly(E, x, x)
  }

  ghost predicate Acyclic(E: Edges) {
    forall x :: !OnCycle(E, x)
  }

  /** Two nodes belong to one tree (or to the tree around one cycle). */
  ghost predicate Connected(E: Edges, x: string, y: string) {
    exists z :: Reaches(E, x, z) && Reaches(E, y, z)
  }

  /** S holds r and, with every node, all nodes that name it as parent. */
  ghost predicate ClosedBelow(E: Edges, S: set<string>) {
    forall e :: e in E && e.1 in S ==> e.0 in S
  }

  lemma {:induction false} ReachInTrans(E: Edges, x: string, y: string, z: string, n: nat, m: nat)
    requires ReachIn(E, x, y, n) && ReachIn(E, y, z, m)
    ensures ReachIn(E, x, z, n + m)
    decreases n
  {
    if n > 0 {
      var w :| (x, w) in E && ReachIn(E, w, y, n - 1);
      ReachInTrans(E, w, y, z, n - 1, m);
      assert ReachIn(E, w, z, n + m - 1);
    }
  }

  lemma ReachesTrans(E: Edges, x: string, y: string, z: string)
    requires Reaches(E, x, y) && Reaches(E, y, z)
    ensures Reaches(E, x, z)
  {
    var n: nat :| ReachIn(E, x, y, n);
    var m: nat :| ReachIn(E, y, z, m);
    ReachInTrans(E, x, y, z, n, m);
  }

  lemma ReachSelf(E: Edges, x: string)
    ensures Reaches(E, x, x)
  {
    assert ReachIn(E, x, x, 0);
  }

  lemma ReachEdge(E: Edges, x: string, y: string)
    requires (x, y) in E
    ensures ReachIn(E, x, y, 1) && Reaches(E, x, y)
  {
    assert ReachIn(E, y, y, 0);
  }

  lemma {:induction false} ReachInMono(E: Edges, F: Edges, x: string, r: string, n: nat)
    requires E <= F && ReachIn(E, x, r, n)
    ensures ReachIn(F, x, r, n)
    decreases n
  {
    if n > 0 {
      var y :| (x, y) in E && ReachIn(E, y, r, n - 1);
      ReachInMono(E, F, y, r, n - 1);
    }
  }

  /** A path that starts in `inside` stays there if every edge from there does, and is a path of F. */
  lemma {:induction false} PathStaysInside(E: Edges, F: Edges, inside: set<string>, x: string, r: string, n: nat)
    requires forall e :: e in E && e.0 in inside ==> e in F && e.1 in inside
    requires x in inside && ReachIn(E, x, r, n)
    ensures r in inside && ReachIn(F, x, r, n)
    decreases n
  {
    if n > 0 {
      var y :| (x, y) in E && ReachIn(E, y, r, n - 1);
      assert (x, y).0 in inside;
      PathStaysInside(E, F, inside, y, r, n - 1);
    }
  }

  /** Whatever reaches into a closed set belongs to it. */
  lemma {:induction false} ClosedHoldsReaching(E: Edges, S: set<string>, x: string, r: string, n: nat)
    requires ClosedBelow(E, S) && r in S && ReachIn(E, x, r, n)
    ensures x in S
    decreases n
  {
    if n > 0 {
      var y :| (x, y) in E && ReachIn(E, y, r, n - 1);
      ClosedHoldsReaching(E, S, y, r, n - 1);
    }
  }

  /** A closed set of nodes that all reach one of its members is exactly the set below it. */
  lemma ClosedIsBelow(E: Edges, S: set<string>, r: string)
    requires ClosedBelow(E, S) && r in S
    requires forall x :: x in S ==> Reaches(E, x, r)
    ensures forall x :: x in S <==> Reaches(E, x, r)
  {
    forall x | Reaches(E, x, r) ensures x in S {
      var n: nat :| ReachIn(E, x, r, n);
      ClosedHoldsReaching(E, S, x, r, n);
    }
  }

  /** With one parent per node, the ancestors of a node form a chain. */
  lemma {:induction false} Chain(E: Edges, x: string, a: string, b: string, n: nat, m: nat)
    requires Functional(E) && n <= m
    requires ReachIn(E, x, a, n) && ReachIn(E, x, b, m)
    ensures ReachIn(E, a, b, m - n)
    decreases n
  {
    if n > 0 {
      var y :| (x, y) in E && ReachIn(E, y, a, n - 1);
      var z :| (x, z) in E && ReachIn(E, z, b, m - 1);
      assert y == z;
      Chain(E, y, a, b, n - 1, m - 1);
    }
  }

  lemma Comparable(E: Edges, x: string, a: string, b: string)
    requires Functional(E) && Reaches(E, x, a) && Reaches(E, x, b)
    ensures Reaches(E, a, b) || Reaches(E, b, a)
  {
    var n: nat :| ReachIn(E, x, a, n);
    var m: nat :| ReachIn(E, x, b, m);
    if n <= m { Chain(E, x, a, b, n, m); } else { Chain(E, x, b, a, m, n); }
  }

  /** From a cycle one never gets away from it. */
  lemma {:induction false} CycleReturns(E: Edges, r: string, z: string, k: nat, n: nat)
    requires Functional(E) && k > 0 && ReachIn(E, r, r, k) && ReachIn(E, r, z, n)
    ensures Reaches(E, z, r)
    decreases n
  {
    if n <= k {
      Chain(E, r, z, r, n, k);
    } else {
      Chain(E, r, r, z, k, n);
      CycleReturns(E, r, z, k, n - k);
    }
  }

  lemma RootReachesOnlyItself(E: Edges, r: string, z: string)
    requires IsRoot(E, r) && Reaches(E, r, z)
    ensures z == r
  {
    var n: nat :| ReachIn(E, r, z, n);
    assert forall y :: (r, y) in E ==> (r, y).0 == r;
  }

  /** A node that is a root or lies on a cycle is reached by all it is connected with. */
  lemma TopReachedByConnected(E: Edges, r: string, x: string)
    requires Functional(E) && (IsRoot(E, r) || OnCycle(E, r))
    ensures Connected(E, x, r) <==> Reaches(E, x, r)
  {
    if Connected(E, x, r) {
      var z :| Reaches(E, x, z) && Reaches(E, r, z);
      if IsRoot(E, r) {
        RootReachesOnlyItself(E, r, z);
      } else {
        var k: nat :| k > 0 && ReachIn(E, r, r, k);
        var n: nat :| ReachIn(E, r, z, n);
        CycleReturns(E, r, z, k, n);
        ReachesTrans(E, x, z, r);
      }
    }
    ReachSelf(E, r);
  }

  lemma ConnectedTrans(E: Edges, x: string, y: string, z: string)
    requires Functional(E) && Connected(E, x, y) && Connected(E, y, z)
    ensures Connected(E, x, z)
  {
    var a :| Reaches(E, x, a) && Reaches(E, y, a);
    var b :| Reaches(E, y, b) && Reaches(E, z, b);
    Comparable(E, y, a, b);
    if Reaches(E, a, b) { ReachesTrans(E, x, a, b); } else { ReachesTrans(E, z, b, a); }
  }

  /** Connectedness is an equivalence: threads never overlap in part. */
  lemma ConnectedIsEquivalence(E: Edges)
    requires Functional(E)
    ensures forall x :: Connected(E, x, x)
    ensures forall x, y :: Connected(E, x, y) ==> Connected(E, y, x)
    ensures forall x, y, z :: Connected(E, x, y) && Connected(E, y, z) ==> Connected(E, x, z)
  {
    forall x ensures Connected(E, x, x) { ReachSelf(E, x); }
    forall x, y, z | Connected(E, x, y) && Connected(E, y, z) ensures Connected(E, x, z) {
      ConnectedTrans(E, x, y, z);
    }
  }

  /** Climbing an acyclic relation ends at a root. */
  lemma {:induction false} ClimbToRoot(E: Edges, x: string, below: set<string>, nodes: set<string>) returns (r: string)
    requires Acyclic(E) && below <= nodes
    requires forall e :: e in E ==> e.0 in nodes
    requires forall b :: b in below ==> ReachesProperly(E, b, x)
    ensures Reaches(E, x, r) && IsRoot(E, r)
    decreases |nodes - below|
  {
    if IsRoot(E, x) {
      ReachSelf(E, x);
      r := x;
    } else {
      var e :| e in E && e.0 == x;
      var y := e.1;
      assert (x, y) in E;
      assert x in below ==> OnCycle(E, x);
      forall b | b in below + {x} ensures ReachesProperly(E, b, y) {
        ReachEdge(E, x, y);
        if b in below {
          var n: nat :| n > 0 && ReachIn(E, b, x, n);
          ReachInTrans(E, b, x, y, n, 1);
        }
      }
      assert nodes - (below + {x}) < nodes - below by { assert x in nodes - below; }
      SubsetSmaller(nodes - (below + {x}), nodes - below);
      r := ClimbToRoot(E, y, below + {x}, nodes);
      ReachEdge(E, x, y);
      ReachesTrans(E, x, y, r);
    }
  }

  lemma {:induction false} SubsetSmaller(a: set<string>, b: set<string>)
    requires a < b
    ensures |a| < |b|
  {
    var x :| x in b && x !in a;
    assert a <= b - {x};
    SubsetNotLarger(a, b - {x});
  }

  lemma {:induction false} SubsetNotLarger(a: set<string>, b: set<string>)
    requires a <= b
    ensures |a| <= |b|
  {
    if a != {} {
      var x :| x in a;
      SubsetNotLarger(a - {x}, b - {x});
    }
  }

  /** On an acyclic relation the connected nodes are those with the same root. */
  lemma ConnectedMeansSameRoot(E: Edges, x: string, y: string)
    requires Functional(E) && Acyclic(E)
    ensures Connected(E, x, y) <==> exists r :: IsRoot(E, r) && Reaches(E, x, r) && Reaches(E, y, r)
  {
    if Connected(E, x, y) {
      var r := ClimbToRoot(E, x, {}, set e | e in E :: e.0);
      TopReachedByConnected(E, r, x);
      ConnectedIsEquivalence(E);
      assert Connected(E, y, r);
      TopReachedByConnected(E, r, y);
    }
  }

  lemma RootUnique(E: Edges, x: string, r: string, s: string)
    requires Functional(E) && IsRoot(E, r) && IsRoot(E, s) && Reaches(E, x, r) && Reaches(E, x, s)
    ensures r == s
  {
    Comparable(E, x, r, s);
    if Reaches(E, r, s) { RootReachesOnlyItself(E, r, s); } else { RootReachesOnlyItself(E, s, r); }
  }

  /** No node of a cycle has a root above it, and without cycles every node has one. */
  lemma AcyclicIffRooted(E: Edges)
    requires Functional(E)
    ensures Acyclic(E) <==> forall e :: e in E ==> exists r :: IsRoot(E, r) && Reaches(E, e.0, r)
  {
    if Acyclic(E) {
      forall e | e in E ensures exists r :: IsRoot(E, r) && Reaches(E, e.0, r) {
        var r := ClimbToRoot(E, e.0, {}, set e | e in E :: e.0);
      }
    } else {
      var x :| OnCycle(E, x);
      var k: nat :| k > 0 && ReachIn(E, x, x, k);
      var y :| (x, y) in E && ReachIn(E, y, x, k - 1);
      if r :| IsRoot(E, r) && Reaches(E, (x, y).0, r) {
        var n: nat :| ReachIn(E, x, r, n);
        CycleReturns(E, x, r, k, n);
        RootReachesOnlyItself(E, r, x);
        assert false;
      }
    }
  }
}
