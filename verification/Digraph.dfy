/** Finite directed graphs given by their edge sets, and the reachability facts the
    transaction graph rests on.  An edge `(x, y)` is a step from `x` to `y`; for the
    transaction graph `x` is a child and `y` one of its parents. */
module Digraph {

  type Vertex = nat
  type Edges = set<(Vertex, Vertex)>

  /** A sequence of vertices, each of which steps to the next. */
  ghost predicate IsPath(e: Edges, p: seq<Vertex>) {
    |p| >= 1 && forall i :: 0 <= i < |p| - 1 ==> (p[i], p[i + 1]) in e
  }

  ghost predicate IsPathBetween(e: Edges, p: seq<Vertex>, x: Vertex, y: Vertex) {
    |p| >= 2 && IsPath(e, p) && p[0] == x && p[|p| - 1] == y
  }

  /** At least one step leads from `x` to `y`. */
  ghost predicate Reaches(e: Edges, x: Vertex, y: Vertex) {
    exists p :: IsPathBetween(e, p, x, y)
  }

  ghost predicate Acyclic(e: Edges) {
    forall x :: !Reaches(e, x, x)
  }

  /** The transitive closure of the edges, seen from `x`. */
  ghost function Closure(e: Edges, x: Vertex): set<Vertex> {
    set a | a in e && Reaches(e, x, a.1) :: a.1
  }

  /** The direct successors of `x`. */
  function Next(e: Edges, x: Vertex): (next: set<Vertex>)
    ensures forall n :: n in next <==> (x, n) in e
  {
    var from := set a | a in e && a.0 == x;
    assert forall n :: (x, n) in e ==> (x, n) in from;
    set a | a in from :: a.1
  }

  function Converse(e: Edges): Edges {
    set a | a in e :: (a.1, a.0)
  }

  /** The end points: vertices at or beyond `x` without successors. */
  ghost function Ends(e: Edges, x: Vertex): set<Vertex> {
    set y | y in Closure(e, x) + {x} && Next(e, y) == {}
  }

  lemma EdgeReaches(e: Edges, x: Vertex, y: Vertex)
    requires (x, y) in e
    ensures Reaches(e, x, y)
  {
    assert IsPathBetween(e, [x, y], x, y);
  }

  lemma ReachesTransitive(e: Edges, x: Vertex, y: Vertex, z: Vertex)
    requires Reaches(e, x, y) && Reaches(e, y, z)
    ensures Reaches(e, x, z)
  {
    var p :| IsPathBetween(e, p, x, y);
    var q :| IsPathBetween(e, q, y, z);
    assert IsPathBetween(e, p + q[1..], x, z);
  }

  /** Every path starts with one edge. */
  lemma ReachesFirstStep(e: Edges, x: Vertex, y: Vertex) returns (n: Vertex)
    requires Reaches(e, x, y)
    ensures (x, n) in e && (n == y || Reaches(e, n, y))
  {
    var p :| IsPathBetween(e, p, x, y);
    n := p[1];
    if |p| > 2 {
      assert IsPathBetween(e, p[1..], n, y);
    }
  }

  lemma ReachesMonotone(e: Edges, e': Edges, x: Vertex, y: Vertex)
    requires e <= e' && Reaches(e, x, y)
    ensures Reaches(e', x, y)
  {
    var p :| IsPathBetween(e, p, x, y);
    assert IsPathBetween(e', p, x, y);
  }

  lemma ClosureIsReaches(e: Edges, x: Vertex, y: Vertex)
    ensures y in Closure(e, x) <==> Reaches(e, x, y)
  {
    if Reaches(e, x, y) {
      var p :| IsPathBetween(e, p, x, y);
      assert (p[|p| - 2], y) in e;
      var a := (p[|p| - 2], y);
      assert a in e && Reaches(e, x, a.1);
    }
  }

  ghost function Reversed(p: seq<Vertex>): (r: seq<Vertex>)
    ensures |r| == |p| && forall i :: 0 <= i < |p| ==> r[i] == p[|p| - 1 - i]
  {
    seq(|p|, i requires 0 <= i < |p| => p[|p| - 1 - i])
  }

  lemma ConverseReaches(e: Edges, x: Vertex, y: Vertex)
    requires Reaches(e, x, y)
    ensures Reaches(Converse(e), y, x)
  {
    var p :| IsPathBetween(e, p, x, y);
    var q := Reversed(p);
    forall i | 0 <= i < |q| - 1
      ensures (q[i], q[i + 1]) in Converse(e)
    {
      var j := |p| - 2 - i;
      assert (p[j], p[j + 1]) in e;
    }
    assert IsPathBetween(Converse(e), q, y, x);
  }

  lemma ConverseTwice(e: Edges)
    ensures Converse(Converse(e)) == e
  {
    forall a | a in e ensures a in Converse(Converse(e)) {
      assert (a.1, a.0) in Converse(e);
    }
  }

  /** A vertex is beyond another exactly when the other is beyond it the opposite way. */
  lemma ClosuresAreConverse(e: Edges, x: Vertex, y: Vertex)
    ensures y in Closure(e, x) <==> x in Closure(Converse(e), y)
  {
    ClosureIsReaches(e, x, y);
    ClosureIsReaches(Converse(e), y, x);
    if Reaches(e, x, y) {
      ConverseReaches(e, x, y);
    }
    if Reaches(Converse(e), y, x) {
      ConverseReaches(Converse(e), y, x);
      ConverseTwice(e);
    }
  }

  lemma AcyclicConverse(e: Edges)
    requires Acyclic(e)
    ensures Acyclic(Converse(e))
  {
    forall x ensures !Reaches(Converse(e), x, x) {
      if Reaches(Converse(e), x, x) {
        ConverseReaches(Converse(e), x, x);
        ConverseTwice(e);
      }
    }
  }

  /** What one new edge can add: a path either was there before, or goes through the edge. */
  lemma {:induction false} NewEdgeSplitsPath(e: Edges, c: Vertex, p: Vertex, path: seq<Vertex>)
    requires |path| >= 2 && IsPath(e + {(c, p)}, path)
    ensures
      var x, y := path[0], path[|path| - 1];
      || Reaches(e, x, y)
      || ((x == c || Reaches(e, x, c)) && (y == p || Reaches(e, p, y)))
    decreases |path|
  {
    var x, n, y := path[0], path[1], path[|path| - 1];
    assert (path[0], path[0 + 1]) in e + {(c, p)};
    if (x, n) in e {
      EdgeReaches(e, x, n);
    }
    if |path| > 2 {
      var rest := path[1..];
      forall i | 0 <= i < |rest| - 1 ensures (rest[i], rest[i + 1]) in e + {(c, p)} {
        assert (path[i + 1], path[i + 1 + 1]) in e + {(c, p)};
      }
      NewEdgeSplitsPath(e, c, p, rest);
      if (x, n) in e {
        if Reaches(e, n, y) { ReachesTransitive(e, x, n, y); }
        if Reaches(e, n, c) { ReachesTransitive(e, x, n, c); }
      }
    }
  }

  /** The cycle test of the graph model is sound and complete: linking `c` to `p` keeps an
      acyclic graph acyclic exactly when `c` is neither `p` nor beyond `p`. */
  lemma CycleTestExact(e: Edges, c: Vertex, p: Vertex)
    requires Acyclic(e)
    ensures Acyclic(e + {(c, p)}) <==> c != p && c !in Closure(e, p)
  {
    var e' := e + {(c, p)};
    ClosureIsReaches(e, p, c);
    EdgeReaches(e', c, p);
    if Reaches(e, p, c) {
      ReachesMonotone(e, e', p, c);
      ReachesTransitive(e', p, c, p);
    }
    if c != p && !Reaches(e, p, c) {
      forall x ensures !Reaches(e', x, x) {
        if Reaches(e', x, x) {
          var path :| IsPathBetween(e', path, x, x);
          NewEdgeSplitsPath(e, c, p, path);
          if x != c && x != p {
            ReachesTransitive(e, p, x, c);
          }
          assert false;
        }
      }
    }
  }

  lemma AcyclicSubset(e: Edges, e': Edges)
    requires Acyclic(e) && e' <= e
    ensures Acyclic(e')
  {
    forall x ensures !Reaches(e', x, x) {
      if Reaches(e', x, x) {
        ReachesMonotone(e', e, x, x);
      }
    }
  }

  /** In an acyclic graph the closure shrinks along every edge, which is why recursion
      over parents (or children) ends. */
  lemma ClosureShrinks(e: Edges, x: Vertex, n: Vertex)
    requires Acyclic(e) && (x, n) in e
    ensures Closure(e, n) < Closure(e, x)
  {
    EdgeReaches(e, x, n);
    forall y | y in Closure(e, n) ensures y in Closure(e, x) {
      ClosureIsReaches(e, n, y);
      ReachesTransitive(e, x, n, y);
      ClosureIsReaches(e, x, y);
    }
    ClosureIsReaches(e, x, n);
    ClosureIsReaches(e, n, n);
  }

  /** The closure is what the direct successors and their closures give. */
  lemma ClosureUnfolds(e: Edges, x: Vertex, y: Vertex)
    ensures y in Closure(e, x) <==> exists n :: (x, n) in e && (n == y || y in Closure(e, n))
  {
    ClosureIsReaches(e, x, y);
    if Reaches(e, x, y) {
      var n := ReachesFirstStep(e, x, y);
      ClosureIsReaches(e, n, y);
      assert (x, n) in e && (n == y || y in Closure(e, n));
    }
    if n :| (x, n) in e && (n == y || y in Closure(e, n)) {
      EdgeReaches(e, x, n);
      if n != y {
        ClosureIsReaches(e, n, y);
        ReachesTransitive(e, x, n, y);
      }
    }
  }

  /** From every vertex of an acyclic graph some end point is reached. */
  lemma {:induction false} EndsNonEmpty(e: Edges, x: Vertex)
    requires Acyclic(e)
    ensures Ends(e, x) != {}
    decreases Closure(e, x)
  {
    if Next(e, x) == {} {
      EndsOfEnd(e, x);
    } else {
      var n :| n in Next(e, x);
      ClosureShrinks(e, x, n);
      EndsNonEmpty(e, n);
      var y :| y in Ends(e, n);
      EndsUnfold(e, x, y);
    }
  }

  lemma EndsOfEnd(e: Edges, x: Vertex)
    requires Next(e, x) == {}
    ensures Ends(e, x) == {x}
  {
    forall y | y in Ends(e, x) ensures y == x {
      ClosureUnfolds(e, x, y);
    }
  }

  /** The end points of a vertex with successors are those of its successors. */
  lemma EndsUnfold(e: Edges, x: Vertex, y: Vertex)
    requires Next(e, x) != {}
    ensures y in Ends(e, x) <==> exists n :: n in Next(e, x) && y in Ends(e, n)
  {
    ClosureUnfolds(e, x, y);
    if y in Ends(e, x) {
      assert y != x;
      var n :| (x, n) in e && (n == y || y in Closure(e, n));
      assert n in Next(e, x) && y in Ends(e, n);
    }
  }

  lemma EndsAreUnion(e: Edges, x: Vertex, found: set<Vertex>)
    requires Acyclic(e) && Next(e, x) != {}
    requires forall y :: y in found <==> exists n :: n in Next(e, x) && y in Ends(e, n)
    ensures found == Ends(e, x) && found != {}
  {
    EndsNonEmpty(e, x);
    forall y ensures y in found <==> y in Ends(e, x) {
      EndsUnfold(e, x, y);
    }
  }

  /** Linking a vertex that is neither `x` nor beyond it changes nothing seen from `x`. */
  lemma EndsUnaffected(e: Edges, x: Vertex, c: Vertex, p: Vertex)
    requires c != x && c !in Closure(e, x)
    ensures Closure(e + {(c, p)}, x) == Closure(e, x)
    ensures Ends(e + {(c, p)}, x) == Ends(e, x)
  {
    var e' := e + {(c, p)};
    ClosureIsReaches(e, x, c);
    forall y ensures y in Closure(e', x) <==> y in Closure(e, x) {
      ClosureIsReaches(e, x, y);
      ClosureIsReaches(e', x, y);
      if Reaches(e, x, y) {
        ReachesMonotone(e, e', x, y);
      }
      if Reaches(e', x, y) {
        var path :| IsPathBetween(e', path, x, y);
        NewEdgeSplitsPath(e, c, p, path);
      }
    }
    forall y | y in Closure(e, x) + {x} ensures Next(e', y) == Next(e, y) {
      assert y != c;
      forall z | z in Next(e', y) ensures z in Next(e, y) {
        assert (y, z) in e;
      }
    }
  }
}
