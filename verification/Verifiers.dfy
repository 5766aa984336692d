/** The system verifiers: folds over the root transactions of a batch's source transaction. */
module Verifiers {

  import opened Basics
  import opened Digraph
  import opened Transactions

  type Region = (real, real) -> bool

  /** Which system verifier runs; the point-in-polygon test stays uninterpreted. */
  datatype Verifier = FarmerClaim | TraceableGuji(region: Region) | GoodPrice

  /** The sentences verifiers put into their info text; none of them renders to "". */
  datatype Sentence = NotAFarm(fullName: string) | NotInRegion(fullName: string) | AlwaysVerified

  datatype Verdict = Verdict(passed: bool, info: seq<Sentence>, coordinates: seq<(real, real)>)

  /** A verifier raises when it looks for the farmer behind an internal transaction. */
  datatype Outcome = Raised | Done(verdict: Verdict)

  type Rows = map<Vertex, Transaction>

  predicate SourcePasses(v: Verifier, a: Actor) {
    match v
    case FarmerClaim => a.isFarm
    case TraceableGuji(region) => a.isFarm && region(a.latitude, a.longitude)
    case GoodPrice => true
  }

  function FarmNote(a: Actor): seq<Sentence> {
    if a.isFarm then [] else [NotAFarm(a.fullName)]
  }

  function Note(v: Verifier, a: Actor): seq<Sentence> {
    match v
    case FarmerClaim => FarmNote(a)
    case TraceableGuji(region) =>
      FarmNote(a) + if region(a.latitude, a.longitude) then [] else [NotInRegion(a.fullName)]
    case GoodPrice => []
  }

  /** The rows of a queryset ordered by "-id". */
  function Descending(s: set<Vertex>): (ids: seq<Vertex>)
    ensures |ids| == |s|
    ensures forall i :: 0 <= i < |ids| ==> ids[i] in s
  {
    if s == {} then [] else [Greatest(s)] + Descending(s - {Greatest(s)})
  }

  lemma {:induction false} DescendingIsSorted(s: set<Vertex>)
    ensures forall i, j :: 0 <= i < j < |Descending(s)| ==> Descending(s)[i] > Descending(s)[j]
  {
    if s != {} {
      DescendingIsSorted(s - {Greatest(s)});
    }
  }

  ghost function Elements(ids: seq<Vertex>): set<Vertex> {
    if ids == [] then {} else Elements(ids[..|ids| - 1]) + {ids[|ids| - 1]}
  }

  lemma {:induction false} ElementsPrepend(id: Vertex, ids: seq<Vertex>)
    ensures Elements([id] + ids) == {id} + Elements(ids)
  {
    if ids == [] {
      assert ([id] + ids)[..0] == [];
    } else {
      assert ([id] + ids)[..|ids|] == [id] + ids[..|ids| - 1];
      ElementsPrepend(id, ids[..|ids| - 1]);
    }
  }

  lemma {:induction false} DescendingHasAll(s: set<Vertex>)
    ensures Elements(Descending(s)) == s
  {
    if s != {} {
      DescendingHasAll(s - {Greatest(s)});
      ElementsPrepend(Greatest(s), Descending(s - {Greatest(s)}));
    }
  }

  predicate IsExternal(rows: Rows, y: Vertex) {
    y in rows && rows[y].kind.External?
  }

  /** The verdict so far, with one more root transaction. */
  function Extended(v: Verifier, rows: Rows, o: Outcome, id: Vertex): Outcome {
    if o.Raised? || !IsExternal(rows, id) then Raised
    else
      var a := rows[id].kind.source;
      Done(Verdict(o.verdict.passed && SourcePasses(v, a), o.verdict.info + Note(v, a),
                   o.verdict.coordinates + [Place(a)]))
  }

  function Place(a: Actor): (real, real) {
    (a.latitude, a.longitude)
  }

  /** The verdict over a list of root transactions, in their order. */
  ghost function Fold(v: Verifier, rows: Rows, ids: seq<Vertex>): Outcome {
    if ids == [] then Done(Verdict(true, [], []))
    else Extended(v, rows, Fold(v, rows, ids[..|ids| - 1]), ids[|ids| - 1])
  }

  /** One more root for the region check, its notes written one after the other. */
  lemma ExtendedInRegion(rows: Rows, region: Region, before: Verdict, id: Vertex)
    requires IsExternal(rows, id)
    ensures
      var a := rows[id].kind.source;
      var here := region(a.latitude, a.longitude);
      Extended(TraceableGuji(region), rows, Done(before), id) ==
        Done(Verdict(before.passed && a.isFarm && here,
                     before.info + FarmNote(a) + (if here then [] else [NotInRegion(a.fullName)]),
                     before.coordinates + [Place(a)]))
  {
    var a := rows[id].kind.source;
    var here := region(a.latitude, a.longitude);
    assert before.info + Note(TraceableGuji(region), a)
        == before.info + FarmNote(a) + (if here then [] else [NotInRegion(a.fullName)]);
  }

  lemma FoldGrows(v: Verifier, rows: Rows, ids: seq<Vertex>, i: nat)
    requires i < |ids|
    ensures Fold(v, rows, ids[..i + 1]) == Extended(v, rows, Fold(v, rows, ids[..i]), ids[i])
  {
    assert ids[..i + 1][..i] == ids[..i];
  }

  /** What the verifier has to say about transaction `x`. */
  ghost function Assess(v: Verifier, rows: Rows, parents: Edges, x: Vertex): Outcome {
    if v.GoodPrice? then Done(Verdict(true, [AlwaysVerified], []))
    else Fold(v, rows, Descending(Ends(parents, x)))
  }

  lemma {:induction false} RaisedStays(v: Verifier, rows: Rows, ids: seq<Vertex>, k: nat)
    requires k <= |ids| && Fold(v, rows, ids[..k]).Raised?
    ensures Fold(v, rows, ids).Raised?
    decreases |ids| - k
  {
    if k == |ids| {
      assert ids[..k] == ids;
    } else {
      FoldGrows(v, rows, ids, k);
      RaisedStays(v, rows, ids, k + 1);
    }
  }

  /** The good-price verifier passes whatever it is asked about. */
  lemma GoodPricePasses(rows: Rows, parents: Edges, x: Vertex)
    ensures
      var o := Assess(GoodPrice, rows, parents, x);
      o.Done? && o.verdict.passed && o.verdict.info != [] && o.verdict.coordinates == []
  {}

  // ----- the verifiers -----

  method VerifyFarmer(g: TransactionGraph, x: Vertex) returns (r: Outcome)
    requires g.Valid() && x in g.rows
    ensures r == Assess(FarmerClaim, g.rows, g.parents, x)
  {
    var roots := g.GetRootNodes(x);
    RootsInTable(g.rows, g.parents, x);
    r := CheckFarmers(g.rows, Descending(roots));
  }

  method CheckFarmers(rows: Rows, roots: seq<Vertex>) returns (r: Outcome)
    requires forall i :: 0 <= i < |roots| ==> roots[i] in rows
    ensures r == Fold(FarmerClaim, rows, roots)
  {
    var traceable, coordinates, info := true, [], [];
    for i := 0 to |roots|
      invariant Fold(FarmerClaim, rows, roots[..i]) == Done(Verdict(traceable, info, coordinates))
    {
      FoldGrows(FarmerClaim, rows, roots, i);
      if rows[roots[i]].kind.Internal? {
        RaisedStays(FarmerClaim, rows, roots, i + 1);
        return Raised;
      }
      var source := rows[roots[i]].kind.source;
      if !source.isFarm {
        info := info + [NotAFarm(source.fullName)];
      }
      traceable := traceable && source.isFarm;
      coordinates := coordinates + [(source.latitude, source.longitude)];
    }
    assert roots[..|roots|] == roots;
    return Done(Verdict(traceable, info, coordinates));
  }

  method VerifyTraceableGuji(g: TransactionGraph, x: Vertex, region: Region) returns (r: Outcome)
    requires g.Valid() && x in g.rows
    ensures r == Assess(TraceableGuji(region), g.rows, g.parents, x)
  {
    var roots := g.GetRootNodes(x);
    RootsInTable(g.rows, g.parents, x);
    r := CheckGujiFarmers(g.rows, Descending(roots), region);
  }

  method CheckGujiFarmers(rows: Rows, roots: seq<Vertex>, region: Region) returns (r: Outcome)
    requires forall i :: 0 <= i < |roots| ==> roots[i] in rows
    ensures r == Fold(TraceableGuji(region), rows, roots)
  {
    ghost var v := TraceableGuji(region);
    var inRegion, traceable, coordinates, info := true, true, [], [];
    for i := 0 to |roots|
      invariant Fold(v, rows, roots[..i]) == Done(Verdict(inRegion && traceable, info, coordinates))
    {
      FoldGrows(v, rows, roots, i);
      if rows[roots[i]].kind.Internal? {
        RaisedStays(v, rows, roots, i + 1);
        return Raised;
      }
      var source := rows[roots[i]].kind.source;
      ExtendedInRegion(rows, region, Verdict(inRegion && traceable, info, coordinates), roots[i]);
      if !source.isFarm {
        info := info + [NotAFarm(source.fullName)];
      }
      traceable := traceable && source.isFarm;
      var sourceInGuji := region(source.latitude, source.longitude);
      coordinates := coordinates + [(source.latitude, source.longitude)];
      inRegion := inRegion && sourceInGuji;
      if !sourceInGuji {
        info := info + [NotInRegion(source.fullName)];
      }
    }
    assert roots[..|roots|] == roots;
    return Done(Verdict(inRegion && traceable, info, coordinates));
  }

  /** Dispatch on the verifier of a criterion. */
  method VerifyWith(v: Verifier, g: TransactionGraph, x: Vertex) returns (r: Outcome)
    requires g.Valid() && x in g.rows
    ensures r == Assess(v, g.rows, g.parents, x)
  {
    match v
    case FarmerClaim => r := VerifyFarmer(g, x);
    case TraceableGuji(region) => r := VerifyTraceableGuji(g, x, region);
    case GoodPrice => r := Done(Verdict(true, [AlwaysVerified], []));
  }

  // ----- what the verdicts mean -----

  ghost predicate IsTable(rows: Rows, parents: Edges) {
    forall a :: a in parents ==> a.0 in rows && a.1 in rows
  }

  lemma RootsInTable(rows: Rows, parents: Edges, x: Vertex)
    requires IsTable(rows, parents) && x in rows
    ensures forall y :: y in Ends(parents, x) ==> y in rows
  {}

  ghost predicate AllExternal(rows: Rows, ids: set<Vertex>) {
    forall y :: y in ids ==> IsExternal(rows, y)
  }

  ghost predicate AllPass(v: Verifier, rows: Rows, ids: set<Vertex>) {
    forall y :: y in ids ==> IsExternal(rows, y) && SourcePasses(v, rows[y].kind.source)
  }

  lemma {:induction false} FoldExact(v: Verifier, rows: Rows, ids: seq<Vertex>)
    requires !v.GoodPrice?
    ensures
      match Fold(v, rows, ids)
      case Raised => !AllExternal(rows, Elements(ids))
      case Done(d) =>
        && AllExternal(rows, Elements(ids))
        && (d.passed <==> AllPass(v, rows, Elements(ids)))
        && (d.info == [] <==> d.passed)
        && |d.coordinates| == |ids|
  {
    if ids != [] {
      FoldExact(v, rows, ids[..|ids| - 1]);
    }
  }

  /** A root-based verifier raises exactly when some parentless ancestor-or-self is internal;
      otherwise it passes exactly when each of them has a passing source, has something to say
      exactly when it fails, and reports one place per root. */
  lemma VerdictExact(v: Verifier, rows: Rows, parents: Edges, x: Vertex)
    requires !v.GoodPrice?
    ensures
      var roots := set y | y in Closure(parents, x) + {x} && Next(parents, y) == {};
      match Assess(v, rows, parents, x)
      case Raised => !AllExternal(rows, roots)
      case Done(d) =>
        && AllExternal(rows, roots)
        && (d.passed <==> AllPass(v, rows, roots))
        && (d.info == [] <==> d.passed)
        && |d.coordinates| == |roots|
  {
    FoldExact(v, rows, Descending(Ends(parents, x)));
    DescendingHasAll(Ends(parents, x));
    assert Ends(parents, x) == set y | y in Closure(parents, x) + {x} && Next(parents, y) == {};
  }

  /** A parentless ancestor-or-self. */
  ghost predicate IsRoot(parents: Edges, x: Vertex, y: Vertex) {
    (y == x || Reaches(parents, x, y)) && forall n :: (y, n) !in parents
  }

  lemma RootsExactly(parents: Edges, x: Vertex, y: Vertex)
    ensures y in Ends(parents, x) <==> IsRoot(parents, x, y)
  {
    ClosureIsReaches(parents, x, y);
    assert Next(parents, y) == {} <==> forall n :: (y, n) !in parents;
  }

  /** A root transaction that a farm made, and within the region where there is one. */
  ghost predicate MadeByFarm(rows: Rows, y: Vertex, region: Option<Region>) {
    && y in rows && rows[y].kind.External? && rows[y].kind.source.isFarm
    && (region.Some? ==> region.value(rows[y].kind.source.latitude, rows[y].kind.source.longitude))
  }

  /** What the two root-based verifiers ask for: that all root transactions were made by farms, the
      second also that all of these lie in the region. */
  lemma VerdictIsAboutFarms(rows: Rows, parents: Edges, x: Vertex, region: Region)
    ensures
      var o := Assess(FarmerClaim, rows, parents, x);
      o.Done? ==> (o.verdict.passed <==> forall y :: IsRoot(parents, x, y) ==> MadeByFarm(rows, y, None))
    ensures
      var o := Assess(TraceableGuji(region), rows, parents, x);
      o.Done? ==> (o.verdict.passed <==> forall y :: IsRoot(parents, x, y) ==> MadeByFarm(rows, y, Some(region)))
  {
    VerdictByRoots(FarmerClaim, rows, parents, x);
    VerdictByRoots(TraceableGuji(region), rows, parents, x);
    forall y ensures y in Ends(parents, x) <==> IsRoot(parents, x, y) {
      RootsExactly(parents, x, y);
    }
  }

  /** What a verifier has to say of a source. */
  predicate Says(v: Verifier, a: Actor, s: Sentence) {
    || (!a.isFarm && s == NotAFarm(a.fullName))
    || (v.TraceableGuji? && !v.region(a.latitude, a.longitude) && s == NotInRegion(a.fullName))
  }

  lemma NoteSays(v: Verifier, a: Actor, s: Sentence)
    requires !v.GoodPrice?
    ensures s in Note(v, a) <==> Says(v, a, s)
  {}

  lemma {:induction false} FoldSays(v: Verifier, rows: Rows, ids: seq<Vertex>, s: Sentence)
    requires !v.GoodPrice? && Fold(v, rows, ids).Done?
    ensures s in Fold(v, rows, ids).verdict.info <==>
            exists y :: y in Elements(ids) && IsExternal(rows, y) && Says(v, rows[y].kind.source, s)
  {
    if ids != [] {
      var front, last := ids[..|ids| - 1], ids[|ids| - 1];
      FoldSays(v, rows, front, s);
      NoteSays(v, rows[last].kind.source, s);
      assert Elements(ids) == Elements(front) + {last};
    }
  }

  /** The info text names exactly the sources of root transactions that are at fault, and what is
      wrong with each. */
  lemma InfoNamesFaults(v: Verifier, rows: Rows, parents: Edges, x: Vertex, s: Sentence)
    requires !v.GoodPrice? && Assess(v, rows, parents, x).Done?
    ensures s in Assess(v, rows, parents, x).verdict.info <==>
            exists y :: IsRoot(parents, x, y) && IsExternal(rows, y) && Says(v, rows[y].kind.source, s)
  {
    FoldSays(v, rows, Descending(Ends(parents, x)), s);
    DescendingHasAll(Ends(parents, x));
    forall y ensures y in Ends(parents, x) <==> IsRoot(parents, x, y) {
      RootsExactly(parents, x, y);
    }
  }

  lemma ExtendedPlaces(v: Verifier, rows: Rows, o: Outcome, id: Vertex)
    requires Extended(v, rows, o, id).Done?
    ensures o.Done? && IsExternal(rows, id)
    ensures Extended(v, rows, o, id).verdict.coordinates == o.verdict.coordinates + [Place(rows[id].kind.source)]
  {}

  ghost function PlaceOf(rows: Rows, y: Vertex): (real, real) {
    if IsExternal(rows, y) then Place(rows[y].kind.source) else (0.0, 0.0)
  }

  ghost function PlacesOf(rows: Rows, ids: seq<Vertex>): (places: seq<(real, real)>)
    ensures |places| == |ids| && forall i :: 0 <= i < |ids| ==> places[i] == PlaceOf(rows, ids[i])
  {
    seq(|ids|, i requires 0 <= i < |ids| => PlaceOf(rows, ids[i]))
  }

  lemma PlacesAppend(rows: Rows, ids: seq<Vertex>, id: Vertex)
    ensures PlacesOf(rows, ids + [id]) == PlacesOf(rows, ids) + [PlaceOf(rows, id)]
  {}

  lemma {:induction false} FoldPlaces(v: Verifier, rows: Rows, ids: seq<Vertex>)
    requires Fold(v, rows, ids).Done?
    ensures Fold(v, rows, ids).verdict.coordinates == PlacesOf(rows, ids)
  {
    if ids != [] {
      var front, last := ids[..|ids| - 1], ids[|ids| - 1];
      ExtendedPlaces(v, rows, Fold(v, rows, front), last);
      FoldPlaces(v, rows, front);
      PlacesAppend(rows, front, last);
      assert ids == front + [last];
    }
  }

  /** One place for every transaction, in their order. */
  ghost predicate Places(rows: Rows, ids: seq<Vertex>, places: seq<(real, real)>) {
    && |places| == |ids|
    && forall i :: 0 <= i < |ids| ==>
         && IsExternal(rows, ids[i])
         && places[i] == (rows[ids[i]].kind.source.latitude, rows[ids[i]].kind.source.longitude)
  }

  lemma FoldReportsPlaces(v: Verifier, rows: Rows, ids: seq<Vertex>)
    requires !v.GoodPrice? && Fold(v, rows, ids).Done?
    ensures Places(rows, ids, Fold(v, rows, ids).verdict.coordinates)
  {
    FoldExact(v, rows, ids);
    FoldPlaces(v, rows, ids);
    forall i | 0 <= i < |ids| ensures IsExternal(rows, ids[i]) {
      ElementAt(ids, i);
    }
  }

  /** The places reported are those of the root transactions' sources, newest root first. */
  lemma PlacesNewestFirst(v: Verifier, rows: Rows, parents: Edges, x: Vertex) returns (roots: seq<Vertex>)
    requires !v.GoodPrice? && Assess(v, rows, parents, x).Done?
    ensures Elements(roots) == Ends(parents, x)
    ensures forall i, j :: 0 <= i < j < |roots| ==> roots[i] > roots[j]
    ensures Places(rows, roots, Assess(v, rows, parents, x).verdict.coordinates)
  {
    roots := Descending(Ends(parents, x));
    DescendingHasAll(Ends(parents, x));
    DescendingIsSorted(Ends(parents, x));
    FoldReportsPlaces(v, rows, roots);
  }

  lemma {:induction false} ElementAt(ids: seq<Vertex>, i: nat)
    requires i < |ids|
    ensures ids[i] in Elements(ids)
  {
    if i < |ids| - 1 {
      ElementAt(ids[..|ids| - 1], i);
    }
  }

  /** The verdict at a transaction without parents is about that transaction alone. */
  lemma AssessLoneRoot(v: Verifier, rows: Rows, parents: Edges, x: Vertex)
    requires !v.GoodPrice? && Next(parents, x) == {}
    ensures Assess(v, rows, parents, x) == Extended(v, rows, Done(Verdict(true, [], [])), x)
  {
    EndsOfEnd(parents, x);
    assert Ends(parents, x) - {Greatest(Ends(parents, x))} == {};
    assert Descending(Ends(parents, x)) == [x];
    FoldGrows(v, rows, [x], 0);
    assert [x][..1] == [x] && [x][..0] == [];
  }

  /** The verdict of a transaction with parents is the conjunction of its parents' verdicts,
      and it raises exactly when one of theirs does. */
  lemma VerdictIsConjunction(v: Verifier, rows: Rows, parents: Edges, x: Vertex)
    requires Next(parents, x) != {} && !v.GoodPrice?
    ensures Assess(v, rows, parents, x).Raised? <==>
            exists n :: n in Next(parents, x) && Assess(v, rows, parents, n).Raised?
    ensures Assess(v, rows, parents, x).Done? ==>
              (Assess(v, rows, parents, x).verdict.passed <==>
               forall n :: n in Next(parents, x) ==> Assess(v, rows, parents, n).verdict.passed)
  {
    VerdictByRoots(v, rows, parents, x);
    forall n | n in Next(parents, x)
      ensures Assess(v, rows, parents, n).Raised? <==> !AllExternal(rows, Ends(parents, n))
      ensures Assess(v, rows, parents, n).Done? ==>
                (Assess(v, rows, parents, n).verdict.passed <==> AllPass(v, rows, Ends(parents, n)))
    {
      VerdictByRoots(v, rows, parents, n);
    }
    RootsOfParents(v, rows, parents, x);
  }

  lemma EndsOfTwo(parents: Edges, x: Vertex, n: Vertex, m: Vertex)
    requires Next(parents, x) == {n, m}
    ensures Ends(parents, x) == Ends(parents, n) + Ends(parents, m)
  {
    forall y ensures y in Ends(parents, x) <==> y in Ends(parents, n) || y in Ends(parents, m) {
      EndsUnfold(parents, x, y);
      assert n in Next(parents, x) && m in Next(parents, x);
    }
  }

  lemma AllOfUnion(v: Verifier, rows: Rows, a: set<Vertex>, b: set<Vertex>)
    ensures AllExternal(rows, a + b) <==> AllExternal(rows, a) && AllExternal(rows, b)
    ensures AllPass(v, rows, a + b) <==> AllPass(v, rows, a) && AllPass(v, rows, b)
  {}

  /** One of two parents that fails is enough, if none raises. */
  lemma FailsWithParent(v: Verifier, rows: Rows, parents: Edges, x: Vertex, n: Vertex, m: Vertex)
    requires !v.GoodPrice? && Next(parents, x) == {n, m}
    requires Assess(v, rows, parents, n).Done? && Assess(v, rows, parents, m).Done?
    requires !Assess(v, rows, parents, n).verdict.passed
    ensures Assess(v, rows, parents, x).Done? && !Assess(v, rows, parents, x).verdict.passed
  {
    VerdictByRoots(v, rows, parents, x);
    VerdictByRoots(v, rows, parents, n);
    VerdictByRoots(v, rows, parents, m);
    EndsOfTwo(parents, x, n, m);
    AllOfUnion(v, rows, Ends(parents, n), Ends(parents, m));
  }

  lemma VerdictByRoots(v: Verifier, rows: Rows, parents: Edges, x: Vertex)
    requires !v.GoodPrice?
    ensures Assess(v, rows, parents, x).Raised? <==> !AllExternal(rows, Ends(parents, x))
    ensures Assess(v, rows, parents, x).Done? ==>
              (Assess(v, rows, parents, x).verdict.passed <==> AllPass(v, rows, Ends(parents, x)))
  {
    FoldExact(v, rows, Descending(Ends(parents, x)));
    DescendingHasAll(Ends(parents, x));
  }

  lemma RootsOfParents(v: Verifier, rows: Rows, parents: Edges, x: Vertex)
    requires Next(parents, x) != {}
    ensures AllExternal(rows, Ends(parents, x)) <==>
            forall n :: n in Next(parents, x) ==> AllExternal(rows, Ends(parents, n))
    ensures AllPass(v, rows, Ends(parents, x)) <==>
            forall n :: n in Next(parents, x) ==> AllPass(v, rows, Ends(parents, n))
  {
    forall y ensures y in Ends(parents, x) <==> exists n :: n in Next(parents, x) && y in Ends(parents, n) {
      EndsUnfold(parents, x, y);
    }
  }

  /** Giving a parent to a transaction outside the ancestors-or-self changes no verdict. */
  lemma VerdictUnaffectedByOthers(v: Verifier, rows: Rows, parents: Edges, x: Vertex, c: Vertex, p: Vertex)
    requires c !in Closure(parents, x) + {x}
    ensures Assess(v, rows, parents + {(c, p)}, x) == Assess(v, rows, parents, x)
  {
    EndsUnaffected(parents, x, c, p);
  }
}
