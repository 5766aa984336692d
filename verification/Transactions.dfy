/** The transaction graph: a table of transactions, the many-to-many table of their
    parents, and the guarded updates and recursive queries over them. */
module Transactions {

  import opened Digraph

  type Batch = nat

  datatype Actor = Actor(fullName: string, isFarm: bool, latitude: real, longitude: real)

  datatype Kind = Internal | External(source: Actor, reversal: bool)

  datatype Transaction = Transaction(kind: Kind, declined: bool)

  /** What `add_parent` does: link, or raise one of its two validation errors. */
  datatype LinkResult = Linked | SelfLink | AlreadyAncestor

  datatype Update =
    | AddParent(node: Vertex, parent: Vertex)
    | AddChild(node: Vertex, child: Vertex)
    | RemoveParent(node: Vertex, parent: Vertex)
    | RemoveChild(node: Vertex, child: Vertex)
  {
    /** The (child, parent) row the update is about. */
    function Row(): (Vertex, Vertex) {
      match this
      case AddParent(n, p) => (n, p)
      case AddChild(n, c) => (c, n)
      case RemoveParent(n, p) => (n, p)
      case RemoveChild(n, c) => (c, n)
    }
  }

  ghost function Guard(parents: Edges, child: Vertex, parent: Vertex): LinkResult {
    if parent == child then SelfLink
    else if child in Closure(parents, parent) then AlreadyAncestor
    else Linked
  }

  ghost function Apply(parents: Edges, u: Update): Edges {
    var row := u.Row();
    if u.RemoveParent? || u.RemoveChild? then parents - {row}
    else if Guard(parents, row.0, row.1).Linked? then parents + {row}
    else parents
  }

  ghost function Run(us: seq<Update>): Edges {
    if us == [] then {} else Apply(Run(us[..|us| - 1]), us[|us| - 1])
  }

  lemma GuardIsExact(parents: Edges, child: Vertex, parent: Vertex)
    requires Acyclic(parents)
    ensures Guard(parents, child, parent).Linked? <==> Acyclic(parents + {(child, parent)})
  {
    CycleTestExact(parents, child, parent);
  }

  /** Whatever the updates, the graph stays acyclic; and an update that links is refused
      exactly when carrying it out would have closed a cycle. */
  lemma {:induction false} RunsStayAcyclic(us: seq<Update>)
    ensures Acyclic(Run(us))
    ensures forall u: Update :: u.AddParent? || u.AddChild? ==>
              (u.Row() in Apply(Run(us), u) <==> Acyclic(Run(us) + {u.Row()}))
  {
    if us == [] {
      forall x ensures !Reaches({}, x, x) {
        if Reaches({}, x, x) {
          var n := ReachesFirstStep({}, x, x);
        }
      }
    } else {
      var before, u := Run(us[..|us| - 1]), us[|us| - 1];
      RunsStayAcyclic(us[..|us| - 1]);
      GuardIsExact(before, u.Row().0, u.Row().1);
      AcyclicSubset(before, before - {u.Row()});
    }
    forall u: Update | u.AddParent? || u.AddChild?
      ensures u.Row() in Apply(Run(us), u) <==> Acyclic(Run(us) + {u.Row()})
    {
      GuardIsExact(Run(us), u.Row().0, u.Row().1);
      if u.Row() in Run(us) {
        assert Run(us) + {u.Row()} == Run(us);
      }
    }
  }

  /** On every graph a run can produce, ancestors and descendants are converse. */
  lemma AncestorsAndDescendantsConverse(us: seq<Update>, x: Vertex, y: Vertex)
    ensures y in Closure(Run(us), x) <==> x in Closure(Converse(Run(us)), y)
    ensures !(y in Closure(Run(us), x) && x in Closure(Run(us), y))
  {
    var e := Run(us);
    ClosuresAreConverse(e, x, y);
    RunsStayAcyclic(us);
    ClosureIsReaches(e, x, y);
    ClosureIsReaches(e, y, x);
    if Reaches(e, x, y) && Reaches(e, y, x) {
      ReachesTransitive(e, x, y, x);
    }
  }

  // ----- batch filters -----

  /** The parents of a set of batches. */
  function BatchParents(links: set<(Batch, Batch)>, bs: set<Batch>): set<Batch> {
    set a | a in links && a.0 in bs :: a.1
  }

  function NthBatchParents(links: set<(Batch, Batch)>, bs: set<Batch>, k: nat): set<Batch>
    decreases k
  {
    if k == 0 then bs else NthBatchParents(links, BatchParents(links, bs), k - 1)
  }

  predicate HasResultIn(results: set<(Vertex, Batch)>, x: Vertex, bs: set<Batch>) {
    exists a :: a in results && a.0 == x && a.1 in bs
  }

  /** A parent path whose k-th transaction resulted in a batch that lies k generations above
      the batches of the filter. */
  ghost predicate IsBatchPath(e: Edges, results: set<(Vertex, Batch)>, links: set<(Batch, Batch)>,
                              bs: set<Batch>, p: seq<Vertex>) {
    && |p| >= 2
    && IsPath(e, p)
    && forall k :: 1 <= k < |p| ==> HasResultIn(results, p[k], NthBatchParents(links, bs, k))
  }

  ghost predicate BatchReaches(e: Edges, results: set<(Vertex, Batch)>, links: set<(Batch, Batch)>,
                               bs: set<Batch>, x: Vertex, y: Vertex) {
    exists p :: IsBatchPath(e, results, links, bs, p) && p[0] == x && p[|p| - 1] == y
  }

  /** The ancestors of `x`; with a non-empty filter, only those on batch paths. */
  ghost function Ancestors(e: Edges, results: set<(Vertex, Batch)>, links: set<(Batch, Batch)>,
                           bs: set<Batch>, x: Vertex): set<Vertex> {
    if bs == {} then Closure(e, x)
    else set y | y in Closure(e, x) && BatchReaches(e, results, links, bs, x, y)
  }

  /** The parents `get_ancestors` loops over. */
  function SelectedParents(e: Edges, results: set<(Vertex, Batch)>, links: set<(Batch, Batch)>,
                           bs: set<Batch>, x: Vertex): set<Vertex> {
    if bs == {} then Next(e, x)
    else set n | n in Next(e, x) && HasResultIn(results, n, BatchParents(links, bs))
  }

  lemma BatchPathDrop(e: Edges, results: set<(Vertex, Batch)>, links: set<(Batch, Batch)>,
                      bs: set<Batch>, p: seq<Vertex>)
    requires IsBatchPath(e, results, links, bs, p)
    ensures (p[0], p[1]) in e && HasResultIn(results, p[1], BatchParents(links, bs))
    ensures |p| > 2 ==> IsBatchPath(e, results, links, BatchParents(links, bs), p[1..])
  {
    var up, q := BatchParents(links, bs), p[1..];
    assert (p[0], p[0 + 1]) in e;
    assert NthBatchParents(links, bs, 1) == NthBatchParents(links, up, 0);
    forall k | 1 <= k < |q| ensures HasResultIn(results, q[k], NthBatchParents(links, up, k)) {
      assert NthBatchParents(links, bs, k + 1) == NthBatchParents(links, up, k);
      assert q[k] == p[k + 1];
    }
  }

  lemma BatchPathPrepend(e: Edges, results: set<(Vertex, Batch)>, links: set<(Batch, Batch)>,
                         bs: set<Batch>, x: Vertex, q: seq<Vertex>)
    requires |q| >= 1 && (x, q[0]) in e && HasResultIn(results, q[0], BatchParents(links, bs))
    requires |q| >= 2 ==> IsBatchPath(e, results, links, BatchParents(links, bs), q)
    ensures IsBatchPath(e, results, links, bs, [x] + q)
  {
    var up, p := BatchParents(links, bs), [x] + q;
    assert NthBatchParents(links, bs, 1) == NthBatchParents(links, up, 0);
    forall k | 1 <= k < |p| ensures HasResultIn(results, p[k], NthBatchParents(links, bs, k)) {
      assert NthBatchParents(links, bs, k) == NthBatchParents(links, up, k - 1);
      assert p[k] == q[k - 1];
    }
  }

  lemma BatchReachesUnfolds(e: Edges, results: set<(Vertex, Batch)>, links: set<(Batch, Batch)>,
                            bs: set<Batch>, x: Vertex, y: Vertex)
    ensures BatchReaches(e, results, links, bs, x, y) <==>
            exists n :: (x, n) in e && HasResultIn(results, n, BatchParents(links, bs))
                        && (n == y || BatchReaches(e, results, links, BatchParents(links, bs), n, y))
  {
    var up := BatchParents(links, bs);
    if BatchReaches(e, results, links, bs, x, y) {
      var p :| IsBatchPath(e, results, links, bs, p) && p[0] == x && p[|p| - 1] == y;
      BatchPathDrop(e, results, links, bs, p);
      assert (x, p[1]) in e && (p[1] == y || BatchReaches(e, results, links, up, p[1], y));
    }
    if n :| (x, n) in e && HasResultIn(results, n, up)
            && (n == y || BatchReaches(e, results, links, up, n, y)) {
      var q := [n];
      if n != y {
        q :| IsBatchPath(e, results, links, up, q) && q[0] == n && q[|q| - 1] == y;
      }
      BatchPathPrepend(e, results, links, bs, x, q);
      var p := [x] + q;
      assert p[0] == x && p[|p| - 1] == y;
    }
  }

  /** Batch paths are parent paths, so the filter only ever narrows the ancestors; and a
      transaction passes it exactly when a batch path leads to it. */
  lemma FilterNarrows(e: Edges, results: set<(Vertex, Batch)>, links: set<(Batch, Batch)>,
                      bs: set<Batch>, x: Vertex, y: Vertex)
    requires bs != {}
    ensures Ancestors(e, results, links, bs, x) <= Ancestors(e, results, links, {}, x)
    ensures y in Ancestors(e, results, links, bs, x) <==> BatchReaches(e, results, links, bs, x, y)
  {
    if BatchReaches(e, results, links, bs, x, y) {
      var p :| IsBatchPath(e, results, links, bs, p) && p[0] == x && p[|p| - 1] == y;
      assert IsPathBetween(e, p, x, y);
      ClosureIsReaches(e, x, y);
    }
  }

  /** A chain of batches that starts in the filter, each batch made from the next, and ends with a
      result of the transaction. */
  ghost predicate IsChainTo(results: set<(Vertex, Batch)>, links: set<(Batch, Batch)>, bs: set<Batch>,
                            y: Vertex, c: seq<Batch>) {
    |c| >= 1 && c[0] in bs && (y, c[|c| - 1]) in results && forall i :: 0 <= i < |c| - 1 ==> (c[i], c[i + 1]) in links
  }

  lemma {:induction false} ChainOfNthParent(links: set<(Batch, Batch)>, bs: set<Batch>, k: nat, b: Batch)
    returns (c: seq<Batch>)
    requires b in NthBatchParents(links, bs, k)
    ensures |c| == k + 1 && c[0] in bs && c[k] == b && forall i :: 0 <= i < k ==> (c[i], c[i + 1]) in links
    decreases k
  {
    if k == 0 {
      c := [b];
    } else {
      var rest := ChainOfNthParent(links, BatchParents(links, bs), k - 1, b);
      var a :| a in links && a.0 in bs && a.1 == rest[0];
      c := [a.0] + rest;
    }
  }

  lemma {:induction false} ChainEndsInNthParent(links: set<(Batch, Batch)>, bs: set<Batch>, c: seq<Batch>)
    requires |c| >= 1 && c[0] in bs && forall i :: 0 <= i < |c| - 1 ==> (c[i], c[i + 1]) in links
    ensures c[|c| - 1] in NthBatchParents(links, bs, |c| - 1)
    decreases |c|
  {
    if |c| > 1 {
      assert (c[0], c[0 + 1]) in links;
      ChainEndsInNthParent(links, BatchParents(links, bs), c[1..]);
    }
  }

  /** The transaction made a batch that is k generations above one of the filter. */
  ghost predicate MadeAbove(results: set<(Vertex, Batch)>, links: set<(Batch, Batch)>, bs: set<Batch>, y: Vertex,
                            k: nat) {
    exists c :: |c| == k + 1 && IsChainTo(results, links, bs, y, c)
  }

  lemma MadeAboveExactly(results: set<(Vertex, Batch)>, links: set<(Batch, Batch)>, bs: set<Batch>, y: Vertex, k: nat)
    ensures HasResultIn(results, y, NthBatchParents(links, bs, k)) <==> MadeAbove(results, links, bs, y, k)
  {
    if HasResultIn(results, y, NthBatchParents(links, bs, k)) {
      var a :| a in results && a.0 == y && a.1 in NthBatchParents(links, bs, k);
      var c := ChainOfNthParent(links, bs, k, a.1);
      assert IsChainTo(results, links, bs, y, c);
    }
    if MadeAbove(results, links, bs, y, k) {
      var c :| |c| == k + 1 && IsChainTo(results, links, bs, y, c);
      ChainEndsInNthParent(links, bs, c);
      assert (y, c[k]) in results;
    }
  }

  ghost predicate FollowsBatches(results: set<(Vertex, Batch)>, links: set<(Batch, Batch)>, bs: set<Batch>,
                                 p: seq<Vertex>) {
    forall k :: 1 <= k < |p| ==> MadeAbove(results, links, bs, p[k], k)
  }

  /** Over the tables: a transaction passes the filter exactly when some parent path leads to it of
      which each transaction made a batch that the batches of the filter go back to, in as many
      generations as the transaction is above the first. */
  lemma FilterFollowsBatches(e: Edges, results: set<(Vertex, Batch)>, links: set<(Batch, Batch)>,
                             bs: set<Batch>, x: Vertex, y: Vertex)
    requires bs != {}
    ensures y in Ancestors(e, results, links, bs, x) <==>
            exists p :: IsPathBetween(e, p, x, y) && FollowsBatches(results, links, bs, p)
  {
    FilterNarrows(e, results, links, bs, x, y);
    forall p | |p| >= 2 && IsPath(e, p)
      ensures IsBatchPath(e, results, links, bs, p) <==> FollowsBatches(results, links, bs, p)
    {
      BatchPathFollows(e, results, links, bs, p);
    }
    if BatchReaches(e, results, links, bs, x, y) {
      var p :| IsBatchPath(e, results, links, bs, p) && p[0] == x && p[|p| - 1] == y;
      assert IsPathBetween(e, p, x, y);
    }
    if p :| IsPathBetween(e, p, x, y) && FollowsBatches(results, links, bs, p) {
      assert IsBatchPath(e, results, links, bs, p);
    }
  }

  lemma BatchPathFollows(e: Edges, results: set<(Vertex, Batch)>, links: set<(Batch, Batch)>, bs: set<Batch>,
                         p: seq<Vertex>)
    requires |p| >= 2 && IsPath(e, p)
    ensures IsBatchPath(e, results, links, bs, p) <==> FollowsBatches(results, links, bs, p)
  {
    forall k | 1 <= k < |p|
      ensures HasResultIn(results, p[k], NthBatchParents(links, bs, k)) <==> MadeAbove(results, links, bs, p[k], k)
    {
      MadeAboveExactly(results, links, bs, p[k], k);
    }
  }

  /** One level of the recursion of `get_ancestors`. */
  lemma AncestorsUnfold(e: Edges, results: set<(Vertex, Batch)>, links: set<(Batch, Batch)>,
                        bs: set<Batch>, x: Vertex, y: Vertex)
    ensures
      var up := if bs == {} then {} else BatchParents(links, bs);
      var selected := SelectedParents(e, results, links, bs, x);
      y in Ancestors(e, results, links, bs, x) <==>
      y in selected || exists n :: n in selected && y in Ancestors(e, results, links, up, n)
  {
    if bs == {} {
      ClosureUnfolds(e, x, y);
    } else {
      var up := BatchParents(links, bs);
      var selected := SelectedParents(e, results, links, bs, x);
      FilterNarrows(e, results, links, bs, x, y);
      BatchReachesUnfolds(e, results, links, bs, x, y);
      forall n | (x, n) in e && HasResultIn(results, n, up)
        ensures n in selected
        ensures y in Ancestors(e, results, links, up, n) <==> BatchReaches(e, results, links, up, n, y)
      {
        assert up != {};
        FilterNarrows(e, results, links, up, n, y);
      }
    }
  }

  // ----- the tables -----

  class TransactionGraph {
    var rows: map<Vertex, Transaction>
    var parents: Edges                      // (child, parent)
    var resultBatches: set<(Vertex, Batch)> // (transaction, batch it created)
    var batchParents: set<(Batch, Batch)>   // (batch, parent batch)

    ghost predicate Valid()
      reads this
    {
      && Acyclic(parents)
      && forall a :: a in parents ==> a.0 in rows && a.1 in rows
    }

    constructor ()
      ensures Valid() && rows == map[] && parents == Run([])
      ensures resultBatches == {} && batchParents == {}
    {
      rows, parents, resultBatches, batchParents := map[], {}, {}, {};
      new;
      RunsStayAcyclic([]);
    }

    /** `circular_checker`: refuse self links, and parents the child is an ancestor of. */
    method CircularChecker(parent: Vertex, child: Vertex) returns (r: LinkResult)
      requires Valid()
      ensures r == Guard(parents, child, parent)
      ensures r.Linked? <==> Acyclic(parents + {(child, parent)})
      ensures r.SelfLink? <==> parent == child
      ensures r.AlreadyAncestor? <==> parent != child && Reaches(parents, parent, child)
    {
      GuardIsExact(parents, child, parent);
      ClosureIsReaches(parents, parent, child);
      if parent == child {
        return SelfLink;
      }
      var ancestors := GetAncestors(parent, false, {});
      if child in ancestors {
        return AlreadyAncestor;
      }
      return Linked;
    }

    method AddParent(node: Vertex, parent: Vertex) returns (r: LinkResult)
      requires Valid() && node in rows && parent in rows
      modifies this`parents
      ensures Valid()
      ensures r == Guard(old(parents), node, parent)
      ensures r.Linked? <==> Acyclic(old(parents) + {(node, parent)})
      ensures parents == Apply(old(parents), Update.AddParent(node, parent))
      ensures parents == old(parents) + if Acyclic(old(parents) + {(node, parent)}) then {(node, parent)} else {}
    {
      r := CircularChecker(parent, node);
      if r.Linked? {
        parents := parents + {(node, parent)};
      }
    }

    method AddChild(node: Vertex, child: Vertex) returns (r: LinkResult)
      requires Valid() && node in rows && child in rows
      modifies this`parents
      ensures Valid()
      ensures r.Linked? <==> Acyclic(old(parents) + {(child, node)})
      ensures parents == Apply(old(parents), Update.AddChild(node, child))
      ensures parents == old(parents) + if Acyclic(old(parents) + {(child, node)}) then {(child, node)} else {}
    {
      r := AddParent(child, node);
    }

    method RemoveParent(node: Vertex, parent: Vertex)
      requires Valid()
      modifies this`parents
      ensures Valid()
      ensures parents == Apply(old(parents), Update.RemoveParent(node, parent))
      ensures parents == old(parents) - {(node, parent)}
    {
      AcyclicSubset(parents, parents - {(node, parent)});
      parents := parents - {(node, parent)};
    }

    method RemoveChild(node: Vertex, child: Vertex)
      requires Valid()
      modifies this`parents
      ensures Valid()
      ensures parents == Apply(old(parents), Update.RemoveChild(node, child))
      ensures parents == old(parents) - {(child, node)}
    {
      RemoveParent(child, node);
    }

    method GetDescendants(x: Vertex, includeSelf: bool) returns (found: set<Vertex>)
      requires Valid()
      ensures found == Closure(Converse(parents), x) + (if includeSelf then {x} else {})
      decreases Closure(Converse(parents), x)
    {
      var children := Converse(parents);
      AcyclicConverse(parents);
      found := Next(children, x);
      var todo := found;
      while todo != {}
        invariant todo <= Next(children, x)
        invariant forall y :: y in found <==>
                    y in Next(children, x) ||
                    exists n :: n in Next(children, x) - todo && y in Closure(children, n)
      {
        var child :| child in todo;
        ClosureShrinks(children, x, child);
        var grandChildren := GetDescendants(child, false);
        found := found + grandChildren;
        todo := todo - {child};
      }
      forall y ensures y in found <==> y in Closure(children, x) {
        ClosureUnfolds(children, x, y);
      }
      if includeSelf {
        found := found + {x};
      }
    }

    method GetAncestors(x: Vertex, includeSelf: bool, batches: set<Batch>) returns (found: set<Vertex>)
      requires Valid()
      ensures found == Ancestors(parents, resultBatches, batchParents, batches, x)
                       + (if includeSelf then {x} else {})
      decreases Closure(parents, x)
    {
      var sourceBatches: set<Batch> := {};
      if batches != {} {
        sourceBatches := BatchParents(batchParents, batches);
      }
      var selected := SelectedParents(parents, resultBatches, batchParents, batches, x);
      found := selected;
      var todo := selected;
      while todo != {}
        invariant todo <= selected
        invariant forall y :: y in found <==>
                    y in selected ||
                    exists n :: n in selected - todo
                                && y in Ancestors(parents, resultBatches, batchParents, sourceBatches, n)
      {
        var parent :| parent in todo;
        ClosureShrinks(parents, x, parent);
        var grandParents := GetAncestors(parent, false, sourceBatches);
        found := found + grandParents;
        todo := todo - {parent};
      }
      forall y ensures y in found <==> y in Ancestors(parents, resultBatches, batchParents, batches, x) {
        AncestorsUnfold(parents, resultBatches, batchParents, batches, x, y);
      }
      if includeSelf {
        found := found + {x};
      }
    }

    method GetLeafNodes(x: Vertex) returns (leaves: set<Vertex>)
      requires Valid()
      ensures leaves == Ends(Converse(parents), x)
      ensures leaves != {}
      decreases Closure(Converse(parents), x)
    {
      var edges := Converse(parents);
      AcyclicConverse(parents);
      var children := Next(edges, x);
      if children == {} {
        EndsOfEnd(edges, x);
        return {x};
      }
      leaves := {};
      var todo := children;
      while todo != {}
        invariant todo <= children
        invariant forall y :: y in leaves <==> exists n :: n in children - todo && y in Ends(edges, n)
      {
        var child :| child in todo;
        ClosureShrinks(edges, x, child);
        var below := GetLeafNodes(child);
        leaves := leaves + below;
        todo := todo - {child};
      }
      EndsAreUnion(edges, x, leaves);
    }

    method GetRootNodes(x: Vertex) returns (roots: set<Vertex>)
      requires Valid()
      ensures roots == Ends(parents, x)
      ensures roots != {}
      decreases Closure(parents, x)
    {
      var above := Next(parents, x);
      if above == {} {
        EndsOfEnd(parents, x);
        return {x};
      }
      roots := {};
      var todo := above;
      while todo != {}
        invariant todo <= above
        invariant forall y :: y in roots <==> exists n :: n in above - todo && y in Ends(parents, n)
      {
        var parent :| parent in todo;
        ClosureShrinks(parents, x, parent);
        var further := GetRootNodes(parent);
        roots := roots + further;
        todo := todo - {parent};
      }
      EndsAreUnion(parents, x, roots);
    }

    /** `Transaction.get_parent_transactions`: the shown ancestors-or-self. */
    method GetParentTransactions(x: Vertex, onlyInternal: bool, batches: set<Batch>)
      returns (found: set<Vertex>)
      requires Valid() && x in rows
      ensures found == set y | y in Ancestors(parents, resultBatches, batchParents, batches, x) + {x}
                               && y in rows
                               && if onlyInternal || (y == x && rows[x].kind.Internal?) then rows[y].kind.Internal?
                                  else rows[y].kind.External? && !rows[y].kind.reversal && !rows[y].declined
    {
      var candidates := GetAncestors(x, true, batches);
      if onlyInternal {
        return set y | y in candidates && y in rows && rows[y].kind.Internal?;
      }
      found := set y | y in candidates && y in rows && Shown(rows[y]);
      if rows[x].kind.Internal? {
        found := found + {x};
      }
    }
  }

  predicate Shown(t: Transaction) {
    t.kind.External? && !t.kind.reversal && !t.declined
  }
}
