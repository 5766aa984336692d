/** The arithmetic of inherited claims: rounded, quantity-weighted percentages.  Floats are
    modelled as reals, and rounding as Python's `round(_, 2)` on exact values. */
module Percentages {

  import opened Basics

  /** Nearest hundredth, halves to even. */
  function RoundHundredth(x: real): real {
    var n := (x * 100.0).Floor;
    var rest := x * 100.0 - n as real;
    var m := if rest < 0.5 || (rest == 0.5 && n % 2 == 0) then n else n + 1;
    m as real / 100.0
  }

  /** `_percentage`: zero when there is nothing to divide by. */
  function Percentage(value: real, total: real): real {
    if total == 0.0 then 0.0 else RoundHundredth(value / total * 100.0)
  }

  function Distance(x: real, y: real): real {
    if x < y then y - x else x - y
  }

  /** As many hundredths as are nearest, an even number if two are equally near. */
  predicate IsNearest(x: real, r: real, hundredths: int) {
    && r == hundredths as real / 100.0
    && Distance(hundredths as real, x * 100.0) <= 0.5
    && (Distance(hundredths as real, x * 100.0) == 0.5 ==> hundredths % 2 == 0)
  }

  lemma RoundsToHundredths(x: real)
    ensures exists m :: IsNearest(x, RoundHundredth(x), m)
  {
    var n := (x * 100.0).Floor;
    var rest := x * 100.0 - n as real;
    var m := if rest < 0.5 || (rest == 0.5 && n % 2 == 0) then n else n + 1;
    assert IsNearest(x, RoundHundredth(x), m);
  }

  lemma RoundingError(x: real)
    ensures Distance(RoundHundredth(x), x) <= 0.005
    ensures 0.0 <= x <= 100.0 ==> 0.0 <= RoundHundredth(x) <= 100.0
  {
    var n := (x * 100.0).Floor;
    if 0.0 <= x <= 100.0 {
      assert 0 <= n <= 100 * 100;
      if n == 100 * 100 {
        assert x * 100.0 == 10000.0;
      }
    }
  }

  /** Where a batch claim's percentage comes from: set on the claim itself, or weighed from the
      batches its batch was made of, each with or without an approved claim of its own. */
  datatype Provenance = Direct(percentage: real) | Inherited(sources: Sources)

  datatype Sources =
    | NoMore
    | Unclaimed(quantity: real, rest: Sources)
    | Claimed(quantity: real, origin: Provenance, rest: Sources)

  function Total(ss: Sources): real {
    if ss.NoMore? then 0.0 else ss.quantity + Total(ss.rest)
  }

  /** The percentage `verify` stores, rounding at every level. */
  function Stored(p: Provenance): real {
    match p
    case Direct(x) => x
    case Inherited(ss) => Percentage(StoredVerified(ss), Total(ss))
  }

  function Part(quantity: real, share: real): real {
    quantity * share
  }

  /** The part of a quantity that a percentage stands for. */
  function Share(quantity: real, percentage: real): real {
    Part(quantity, percentage / 100.0)
  }

  function StoredVerified(ss: Sources): real {
    if ss.NoMore? then 0.0
    else if ss.Unclaimed? then StoredVerified(ss.rest)
    else Share(ss.quantity, Stored(ss.origin)) + StoredVerified(ss.rest)
  }

  /** The percentage without any rounding: the mean of the sources' percentages, weighted with
      their quantities, where sources without a claim weigh in with nothing. */
  function Exact(p: Provenance): real {
    match p
    case Direct(x) => x
    case Inherited(ss) => if Total(ss) == 0.0 then 0.0 else ExactVerified(ss) / Total(ss)
  }

  function ExactVerified(ss: Sources): real {
    if ss.NoMore? then 0.0
    else if ss.Unclaimed? then ExactVerified(ss.rest)
    else ss.quantity * Exact(ss.origin) + ExactVerified(ss.rest)
  }

  /** How many roundings a percentage went through. */
  function Depth(p: Provenance): nat {
    match p
    case Direct(_) => 0
    case Inherited(ss) => 1 + DepthOfSources(ss)
  }

  function DepthOfSources(ss: Sources): nat {
    match ss
    case NoMore => 0
    case Unclaimed(_, rest) => DepthOfSources(rest)
    case Claimed(_, origin, rest) =>
      if Depth(origin) < DepthOfSources(rest) then DepthOfSources(rest) else Depth(origin)
  }

  /** Quantities are not negative and percentages set directly are percentages. */
  predicate Plausible(p: Provenance) {
    match p
    case Direct(x) => 0.0 <= x <= 100.0
    case Inherited(ss) => PlausibleSources(ss)
  }

  predicate PlausibleSources(ss: Sources) {
    match ss
    case NoMore => true
    case Unclaimed(q, rest) => q >= 0.0 && PlausibleSources(rest)
    case Claimed(q, origin, rest) => q >= 0.0 && Plausible(origin) && PlausibleSources(rest)
  }

  /** The exact percentage as a share of the total, part by part as the stored one is made. */
  ghost function ExactShares(ss: Sources): real {
    if ss.NoMore? then 0.0
    else if ss.Unclaimed? then ExactShares(ss.rest)
    else Share(ss.quantity, Exact(ss.origin)) + ExactShares(ss.rest)
  }

  lemma ShareOfHundred(q: real, p: real)
    ensures q * p == Share(q, p) * 100.0
  {
    assert q * (p / 100.0) * 100.0 == q * (p / 100.0 * 100.0);
  }

  lemma {:induction false} ExactSharesAddUp(ss: Sources)
    ensures ExactVerified(ss) == ExactShares(ss) * 100.0
  {
    if !ss.NoMore? {
      ExactSharesAddUp(ss.rest);
      if ss.Claimed? {
        ShareOfHundred(ss.quantity, Exact(ss.origin));
      }
    }
  }

  lemma ExactAsShare(ss: Sources)
    requires Total(ss) != 0.0
    ensures Exact(Inherited(ss)) == ExactShares(ss) / Total(ss) * 100.0
  {
    ExactSharesAddUp(ss);
    MoveFactor(ExactShares(ss), Total(ss));
  }

  lemma MoveFactor(s: real, t: real)
    requires t != 0.0
    ensures s * 100.0 / t == s / t * 100.0
  {}

  /** A stored percentage stays a percentage, and is off the exact one by at most half a
      hundredth per level of inheritance. */
  lemma {:induction false} StoredIsCloseToExact(p: Provenance)
    requires Plausible(p)
    ensures 0.0 <= Stored(p) <= 100.0
    ensures 0.0 <= Exact(p) <= 100.0
    ensures Distance(Stored(p), Exact(p)) <= 0.005 * Depth(p) as real
  {
    match p
    case Direct(_) =>
    case Inherited(ss) =>
      var d, bound := DepthOfSources(ss), 0.00005 * DepthOfSources(ss) as real;
      SumsAreClose(ss, d, bound);
      AllowanceOfTotal(ss, bound);
      SharesAreClose(StoredVerified(ss), ExactShares(ss), Total(ss), d, bound);
      if Total(ss) != 0.0 {
        ExactAsShare(ss);
      }
  }

  /** Weighed from sources that are not inherited themselves. */
  predicate FromDirect(ss: Sources) {
    match ss
    case NoMore => true
    case Unclaimed(_, rest) => FromDirect(rest)
    case Claimed(_, origin, rest) => origin.Direct? && FromDirect(rest)
  }

  lemma {:induction false} FromDirectIsShallow(ss: Sources)
    requires FromDirect(ss)
    ensures DepthOfSources(ss) == 0
  {
    if !ss.NoMore? {
      FromDirectIsShallow(ss.rest);
    }
  }

  /** One level of inheritance costs at most half a hundredth. */
  lemma OneLevelIsClose(ss: Sources)
    requires PlausibleSources(ss) && FromDirect(ss)
    ensures Distance(Stored(Inherited(ss)), Exact(Inherited(ss))) <= 0.005
  {
    FromDirectIsShallow(ss);
    StoredIsCloseToExact(Inherited(ss));
  }

  lemma SharesAreClose(s: real, e: real, t: real, d: nat, bound: real)
    requires 0.0 <= s <= t && 0.0 <= e <= t && bound == 0.00005 * d as real && Distance(s, e) <= t * bound
    ensures 0.0 <= Percentage(s, t) <= 100.0
    ensures t != 0.0 ==> 0.0 <= e / t * 100.0 <= 100.0
    ensures t != 0.0 ==> Distance(Percentage(s, t), e / t * 100.0) <= 0.005 * (1 + d) as real
  {
    if t != 0.0 {
      ShareOfTotal(s, t);
      ShareOfTotal(e, t);
      DistanceOfShares(s, e, t, bound);
      RoundingError(s / t * 100.0);
    }
  }

  /** The error a sum may carry when each share may be off by `bound`. */
  ghost function Allowance(ss: Sources, bound: real): real {
    if ss.NoMore? then 0.0 else Part(ss.quantity, bound) + Allowance(ss.rest, bound)
  }

  lemma {:induction false} AllowanceOfTotal(ss: Sources, bound: real)
    ensures Allowance(ss, bound) == Total(ss) * bound
  {
    if !ss.NoMore? {
      AllowanceOfTotal(ss.rest, bound);
      Distributes(ss.quantity, Total(ss.rest), bound);
    }
  }

  lemma Distributes(q: real, t: real, bound: real)
    ensures (q + t) * bound == q * bound + t * bound
  {}

  lemma {:induction false} SumsAreClose(ss: Sources, d: nat, bound: real)
    requires PlausibleSources(ss) && DepthOfSources(ss) <= d && bound == 0.00005 * d as real
    ensures 0.0 <= StoredVerified(ss) <= Total(ss)
    ensures 0.0 <= ExactShares(ss) <= Total(ss)
    ensures Distance(StoredVerified(ss), ExactShares(ss)) <= Allowance(ss, bound)
    decreases ss, 1
  {
    if ss.Unclaimed? {
      SumsAreClose(ss.rest, d, bound);
      PartOfQuantity(ss.quantity, bound);
    } else if ss.Claimed? {
      SumsAreClose(ss.rest, d, bound);
      OriginShares(ss, d, bound);
      SharesOfQuantity(ss.quantity, Stored(ss.origin), Exact(ss.origin), bound);
    }
  }

  lemma SharesOfQuantity(q: real, x: real, y: real, bound: real)
    requires q >= 0.0 && SharesClose(x / 100.0, y / 100.0, bound)
    ensures 0.0 <= Share(q, x) <= q && 0.0 <= Share(q, y) <= q
    ensures Distance(Share(q, x), Share(q, y)) <= Part(q, bound)
  {
    PartOfQuantity(q, x / 100.0);
    PartOfQuantity(q, y / 100.0);
    DistanceOfParts(q, x / 100.0, y / 100.0, bound);
  }

  predicate SharesClose(x: real, y: real, bound: real) {
    0.0 <= x <= 1.0 && 0.0 <= y <= 1.0 && Distance(x, y) <= bound
  }

  lemma OriginShares(ss: Sources, d: nat, bound: real)
    requires ss.Claimed? && PlausibleSources(ss) && DepthOfSources(ss) <= d && bound == 0.00005 * d as real
    ensures SharesClose(Stored(ss.origin) / 100.0, Exact(ss.origin) / 100.0, bound) && ss.quantity >= 0.0
    decreases ss, 0
  {
    StoredIsCloseToExact(ss.origin);
  }

  lemma PartOfQuantity(q: real, s: real)
    requires q >= 0.0 && 0.0 <= s
    ensures 0.0 <= Part(q, s)
    ensures s <= 1.0 ==> Part(q, s) <= q
  {}

  lemma DistanceOfParts(q: real, s: real, e: real, bound: real)
    requires q >= 0.0 && Distance(s, e) <= bound
    ensures Distance(Part(q, s), Part(q, e)) <= Part(q, bound)
  {
    assert q * s - q * e == q * (s - e);
    if s < e { assert q * (e - s) <= q * bound; } else { assert q * (s - e) <= q * bound; }
  }

  lemma ShareOfTotal(s: real, t: real)
    requires 0.0 <= s <= t && t > 0.0
    ensures 0.0 <= s / t * 100.0 <= 100.0
  {
    assert s / t <= 1.0;
  }

  lemma DistanceOfShares(s: real, e: real, t: real, bound: real)
    requires t > 0.0 && Distance(s, e) <= t * bound
    ensures Distance(s / t * 100.0, e / t * 100.0) <= bound * 100.0
  {
    var x, y := s / t, e / t;
    assert s == x * t && e == y * t;
    assert Distance(x * t, y * t) <= t * bound;
    if x < y {
      assert (y - x) * t <= bound * t;
    } else {
      assert (x - y) * t <= bound * t;
    }
    CancelFactor(if x < y then y - x else x - y, bound, t);
  }

  lemma CancelFactor(a: real, b: real, t: real)
    requires t > 0.0 && a * t <= b * t
    ensures a <= b
  {
    assert a - b > 0.0 ==> (a - b) * t > 0.0;
  }

  // ----- writing percentages, claim by claim -----

  /** A batch a transaction drew from: how much of it, and the percentages of its approved
      attachments of the claim at hand (at most one in a sound table). */
  datatype SourceBatch = SourceBatch(quantity: real, approved: seq<real>)

  predicate AtMostOneApproved(bs: seq<SourceBatch>) {
    forall i :: 0 <= i < |bs| ==> |bs[i].approved| <= 1
  }

  function TotalQuantity(bs: seq<SourceBatch>): real {
    if bs == [] then 0.0 else TotalQuantity(bs[..|bs| - 1]) + bs[|bs| - 1].quantity
  }

  function VerifiedPart(b: SourceBatch): real {
    if |b.approved| == 1 then Share(b.quantity, b.approved[0]) else 0.0
  }

  function VerifiedQuantity(bs: seq<SourceBatch>): real {
    if bs == [] then 0.0 else VerifiedQuantity(bs[..|bs| - 1]) + VerifiedPart(bs[|bs| - 1])
  }

  /** The weighted percentage an inherited claim gets from its source batches. */
  function WeightedPercentage(bs: seq<SourceBatch>): real {
    Percentage(VerifiedQuantity(bs), TotalQuantity(bs))
  }

  /** The lookup of the approved claim raises when a source batch has two of them. */
  method ComputeWeightedPercentage(bs: seq<SourceBatch>) returns (percentage: Option<real>)
    ensures percentage == if AtMostOneApproved(bs) then Some(WeightedPercentage(bs)) else None
    ensures percentage.Some? ==>
              percentage.value ==
                if Sum(Quantities(bs)) == 0.0 then 0.0 else RoundHundredth(Sum(Weights(bs)) / Sum(Quantities(bs)))
  {
    WeightedIsMean(bs);
    var total, verified := 0.0, 0.0;
    for i := 0 to |bs|
      invariant total == TotalQuantity(bs[..i]) && verified == VerifiedQuantity(bs[..i])
      invariant AtMostOneApproved(bs[..i])
    {
      assert bs[..i + 1] == bs[..i] + [bs[i]];
      SumsOfAppended(bs[..i], bs[i]);
      if |bs[i].approved| > 1 {
        return None;
      }
      total := total + bs[i].quantity;
      if |bs[i].approved| == 1 {
        verified := verified + Share(bs[i].quantity, bs[i].approved[0]);
      }
    }
    assert bs[..|bs|] == bs;
    percentage := Some(Percentage(verified, total));
  }

  type ClaimId = nat

  /** One write of a claim's percentage.  A contribution names the approved claim it draws on;
      one that names a claim never written counts as unclaimed. */
  datatype Write =
    | SetDirectly(claim: ClaimId, percentage: real)
    | WeighSources(claim: ClaimId, from: seq<(real, ClaimId)>)

  function LookUp(stored: map<ClaimId, real>, from: seq<(real, ClaimId)>): seq<SourceBatch> {
    if from == [] then []
    else
      var last := from[|from| - 1];
      LookUp(stored, from[..|from| - 1])
      + [SourceBatch(last.0, if last.1 in stored then [stored[last.1]] else [])]
  }

  function Perform(stored: map<ClaimId, real>, w: Write): map<ClaimId, real> {
    match w
    case SetDirectly(c, x) => stored[c := x]
    case WeighSources(c, from) => stored[c := WeightedPercentage(LookUp(stored, from))]
  }

  function PerformAll(ws: seq<Write>): map<ClaimId, real> {
    if ws == [] then map[] else Perform(PerformAll(ws[..|ws| - 1]), ws[|ws| - 1])
  }

  predicate PlausibleWrite(w: Write) {
    match w
    case SetDirectly(_, x) => 0.0 <= x <= 100.0
    case WeighSources(_, from) => forall i :: 0 <= i < |from| ==> from[i].0 >= 0.0
  }

  // The same run, remembering where each percentage came from.

  ghost function OriginsOf(origins: map<ClaimId, Provenance>, from: seq<(real, ClaimId)>): Sources {
    if from == [] then NoMore
    else
      var last, rest := from[|from| - 1], OriginsOf(origins, from[..|from| - 1]);
      if last.1 in origins then Claimed(last.0, origins[last.1], rest) else Unclaimed(last.0, rest)
  }

  ghost function Trace(origins: map<ClaimId, Provenance>, w: Write): map<ClaimId, Provenance> {
    match w
    case SetDirectly(c, x) => origins[c := Direct(x)]
    case WeighSources(c, from) => origins[c := Inherited(OriginsOf(origins, from))]
  }

  ghost function TraceAll(ws: seq<Write>): map<ClaimId, Provenance> {
    if ws == [] then map[] else Trace(TraceAll(ws[..|ws| - 1]), ws[|ws| - 1])
  }

  ghost predicate Explains(origins: map<ClaimId, Provenance>, stored: map<ClaimId, real>) {
    && origins.Keys == stored.Keys
    && forall c :: c in stored ==> stored[c] == Stored(origins[c]) && Plausible(origins[c])
  }

  // ----- what is weighed -----

  function Sum(xs: seq<real>): real {
    if xs == [] then 0.0 else Sum(xs[..|xs| - 1]) + xs[|xs| - 1]
  }

  function Quantities(bs: seq<SourceBatch>): (qs: seq<real>)
    ensures |qs| == |bs| && forall i :: 0 <= i < |bs| ==> qs[i] == bs[i].quantity
  {
    seq(|bs|, i requires 0 <= i < |bs| => bs[i].quantity)
  }

  /** Quantity times percentage, for a batch with an approved claim. */
  function Weight(b: SourceBatch): real {
    if |b.approved| == 1 then b.quantity * b.approved[0] else 0.0
  }

  function Weights(bs: seq<SourceBatch>): (ws: seq<real>)
    ensures |ws| == |bs| && forall i :: 0 <= i < |bs| ==> ws[i] == Weight(bs[i])
  {
    seq(|bs|, i requires 0 <= i < |bs| => Weight(bs[i]))
  }

  /** The sums of the loop: the quantities of all source batches, and the percentages of those with
      a claim, weighted with their quantities. */
  lemma {:induction false} SumsAreWeighted(bs: seq<SourceBatch>)
    ensures TotalQuantity(bs) == Sum(Quantities(bs))
    ensures VerifiedQuantity(bs) * 100.0 == Sum(Weights(bs))
  {
    if bs != [] {
      var front, last := bs[..|bs| - 1], bs[|bs| - 1];
      SumsAreWeighted(front);
      assert Quantities(bs)[..|bs| - 1] == Quantities(front);
      assert Weights(bs)[..|bs| - 1] == Weights(front);
      WeightOfPart(last);
      Distributes(VerifiedQuantity(front), VerifiedPart(last), 100.0);
    }
  }

  lemma WeightOfPart(b: SourceBatch)
    ensures VerifiedPart(b) * 100.0 == Weight(b)
  {
    if |b.approved| == 1 {
      ShareOfHundred(b.quantity, b.approved[0]);
    }
  }

  /** The weighted percentage is the rounded mean of the percentages, weighted with the quantities. */
  lemma WeightedIsMean(bs: seq<SourceBatch>)
    ensures WeightedPercentage(bs) ==
              if Sum(Quantities(bs)) == 0.0 then 0.0 else RoundHundredth(Sum(Weights(bs)) / Sum(Quantities(bs)))
  {
    SumsAreWeighted(bs);
    if TotalQuantity(bs) != 0.0 {
      MoveFactor(VerifiedQuantity(bs), TotalQuantity(bs));
    }
  }

  lemma {:induction false} SumOfMultiples(xs: seq<real>, ys: seq<real>, p: real)
    requires |xs| == |ys| && forall i :: 0 <= i < |xs| ==> ys[i] == Part(xs[i], p)
    ensures Sum(ys) == Part(Sum(xs), p)
  {
    if xs != [] {
      SumOfMultiples(xs[..|xs| - 1], ys[..|ys| - 1], p);
      Distributes(Sum(xs[..|xs| - 1]), xs[|xs| - 1], p);
    }
  }

  lemma DivideBack(t: real, p: real)
    requires t != 0.0
    ensures Part(t, p) / t == p
  {}

  lemma MeanOfEqual(bs: seq<SourceBatch>, p: real)
    requires Sum(Quantities(bs)) != 0.0
    requires forall i :: 0 <= i < |bs| ==> Weight(bs[i]) == Part(bs[i].quantity, p)
    ensures WeightedPercentage(bs) == RoundHundredth(p)
  {
    WeightedIsMean(bs);
    SumOfMultiples(Quantities(bs), Weights(bs), p);
    DivideBack(Sum(Quantities(bs)), p);
  }

  /** Sources that agree on a percentage hand it on, rounded; sources without a claim give nothing. */
  lemma AgreeingSourcesHandOn(bs: seq<SourceBatch>, p: real)
    requires Sum(Quantities(bs)) != 0.0
    ensures (forall i :: 0 <= i < |bs| ==> bs[i].approved == [p]) ==> WeightedPercentage(bs) == RoundHundredth(p)
    ensures (forall i :: 0 <= i < |bs| ==> bs[i].approved == []) ==> WeightedPercentage(bs) == 0.0
  {
    if forall i :: 0 <= i < |bs| ==> bs[i].approved == [p] {
      MeanOfEqual(bs, p);
    }
    if forall i :: 0 <= i < |bs| ==> bs[i].approved == [] {
      MeanOfEqual(bs, 0.0);
      assert RoundHundredth(0.0) == 0.0;
    }
  }

  lemma SumsOfAppended(bs: seq<SourceBatch>, b: SourceBatch)
    ensures TotalQuantity(bs + [b]) == TotalQuantity(bs) + b.quantity
    ensures VerifiedQuantity(bs + [b]) == VerifiedQuantity(bs) + VerifiedPart(b)
  {
    assert (bs + [b])[..|bs|] == bs;
  }

  /** One contribution looked up, and the same one with its origin. */
  lemma SourceExplains(origins: map<ClaimId, Provenance>, stored: map<ClaimId, real>, q: real, c: ClaimId,
                       rest: Sources)
    requires Explains(origins, stored) && q >= 0.0 && PlausibleSources(rest)
    ensures
      var b := SourceBatch(q, if c in stored then [stored[c]] else []);
      var ss := if c in origins then Claimed(q, origins[c], rest) else Unclaimed(q, rest);
      && Total(ss) == Total(rest) + b.quantity
      && StoredVerified(ss) == StoredVerified(rest) + VerifiedPart(b)
      && PlausibleSources(ss)
  {}

  lemma {:induction false} SourcesExplain(origins: map<ClaimId, Provenance>, stored: map<ClaimId, real>,
                                          from: seq<(real, ClaimId)>)
    requires Explains(origins, stored)
    requires forall i :: 0 <= i < |from| ==> from[i].0 >= 0.0
    ensures TotalQuantity(LookUp(stored, from)) == Total(OriginsOf(origins, from))
    ensures VerifiedQuantity(LookUp(stored, from)) == StoredVerified(OriginsOf(origins, from))
    ensures PlausibleSources(OriginsOf(origins, from))
  {
    if from != [] {
      var front, last := from[..|from| - 1], from[|from| - 1];
      SourcesExplain(origins, stored, front);
      SourceExplains(origins, stored, last.0, last.1, OriginsOf(origins, front));
      SumsOfAppended(LookUp(stored, front), SourceBatch(last.0, if last.1 in stored then [stored[last.1]] else []));
    }
  }

  /** After any run of writes, every stored percentage is a percentage, and differs from the
      exact one by at most 0.005 for each level of inheritance behind it. */
  lemma {:induction false} EveryRunStaysClose(ws: seq<Write>)
    requires forall i :: 0 <= i < |ws| ==> PlausibleWrite(ws[i])
    ensures Explains(TraceAll(ws), PerformAll(ws))
    ensures forall c :: c in PerformAll(ws) ==>
              && 0.0 <= PerformAll(ws)[c] <= 100.0
              && Distance(PerformAll(ws)[c], Exact(TraceAll(ws)[c])) <= 0.005 * Depth(TraceAll(ws)[c]) as real
  {
    if ws != [] {
      var front, w := ws[..|ws| - 1], ws[|ws| - 1];
      EveryRunStaysClose(front);
      if w.WeighSources? {
        SourcesExplain(TraceAll(front), PerformAll(front), w.from);
      }
    }
    forall c | c in PerformAll(ws)
      ensures
        && 0.0 <= PerformAll(ws)[c] <= 100.0
        && Distance(PerformAll(ws)[c], Exact(TraceAll(ws)[c])) <= 0.005 * Depth(TraceAll(ws)[c]) as real
    {
      StoredIsCloseToExact(TraceAll(ws)[c]);
    }
  }
}
