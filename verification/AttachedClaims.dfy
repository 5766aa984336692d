/** Batch claims as objects: `verify`, `check_and_approve` and `inherit_data` update the status,
    percentage and criteria of the claim, and the table of field responses, in place. */
module AttachedClaims {

  import opened Basics
  import opened Digraph
  import opened Transactions
  import opened Verifiers
  import opened ClaimStates
  import opened Percentages
  import FR = FieldResponses

  datatype VerifiedBy = SecondParty | ThirdParty | BySystem | NoOne

  datatype AttachedFrom = Directly | FromTransaction | ByInheritance

  class FieldResponseTable {
    const attachments: FR.Attachments
    var rows: seq<FR.FieldResponse>

    constructor (attachments: FR.Attachments)
      ensures this.attachments == attachments && rows == []
    {
      this.attachments := attachments;
      rows := [];
    }

    /** The copying loop of a criterion's `inherit_data`. */
    method Inherit(q: FR.Request)
      modifies this`rows
      ensures rows == FR.Inherit(old(rows), attachments, q)
    {
      var found := FR.Found(rows, attachments, q);
      for i := 0 to |found|
        invariant rows == FR.Copied(old(rows), found, i, q.target)
      {
        var copy := FR.FieldResponse(q.target, found[i].key);
        var present := copy in rows;
        if FR.NonEmpty(found[i].key) && !present {
          rows := rows + [copy];
        }
      }
    }
  }

  /** What the verifier of a criterion says, or that it raises. */
  type Judge = CriterionKind -> Outcome

  /** Manual criteria never raise. */
  ghost function OutcomeOf(kind: CriterionKind, rows: Rows, parents: Edges, x: Vertex): Outcome {
    if kind.System? then Assess(kind.verifier, rows, parents, x) else Done(Verdict(false, [], []))
  }

  /** The judge that a transaction graph makes for source transaction `x`. */
  ghost function JudgeOf(rows: Rows, parents: Edges, x: Vertex): (judge: Judge)
    ensures SpeaksFor(judge, rows, parents, x)
  {
    kind => OutcomeOf(kind, rows, parents, x)
  }

  ghost predicate SpeaksFor(judge: Judge, rows: Rows, parents: Edges, x: Vertex) {
    forall kind {:trigger OutcomeOf(kind, rows, parents, x)} :: judge(kind) == OutcomeOf(kind, rows, parents, x)
  }

  ghost function OutcomesOf(cs: seq<Criterion>, judge: Judge): (os: seq<Outcome>)
    ensures |os| == |cs|
  {
    seq(|cs|, i requires 0 <= i < |cs| => judge(cs[i].kind))
  }

  /** How many criteria come before the first that raises. */
  ghost function Stop(os: seq<Outcome>): (k: nat)
    ensures k <= |os| && (k < |os| ==> os[k].Raised?)
    ensures NoneBefore(os, k)
  {
    if os == [] || os[0].Raised? then 0 else 1 + Stop(os[1..])
  }

  ghost predicate NoneBefore(os: seq<Outcome>, k: nat) {
    k <= |os| && forall i :: 0 <= i < k ==> os[i].Done?
  }

  lemma NoneBeforeMore(os: seq<Outcome>, k: nat)
    requires k < |os| && NoneBefore(os, k) && os[k].Done?
    ensures NoneBefore(os, k + 1)
  {}

  lemma StopIs(os: seq<Outcome>, k: nat)
    requires NoneBefore(os, k) && (k < |os| ==> os[k].Raised?)
    ensures Stop(os) == k
  {}

  /** The verdicts; there is none to tell where the verifier raises. */
  ghost function VerdictsIn(os: seq<Outcome>): (vs: Verdicts)
    ensures |vs| == |os|
  {
    seq(|os|, i requires 0 <= i < |os| => if os[i].Done? then os[i].verdict else Verdict(false, [], []))
  }

  ghost function VerdictsOf(cs: seq<Criterion>, judge: Judge): (vs: Verdicts)
    ensures |vs| == |cs|
  {
    VerdictsIn(OutcomesOf(cs, judge))
  }

  /** The state that `verify` leaves, and whether it gets to its end: a verifier that raises stops
      it, or a source batch with two approved attachments of the claim. */
  datatype Attempt = Attempt(state: ClaimState, ok: bool)

  ghost function AttemptVerify(t: Terms, s: ClaimState, judge: Judge, sources: seq<SourceBatch>): Attempt {
    var k, vs := Stop(OutcomesOf(s.criteria, judge)), VerdictsOf(s.criteria, judge);
    if k < |s.criteria| || (t.inherited && !AtMostOneApproved(sources)) then
      Attempt(ClaimStates.VerifyCriteria(Start(t, s), k, vs), false)
    else
      Attempt(ClaimStates.Verify(t, s, vs, WeightedPercentage(sources)), true)
  }

  /** The same for `inherit_data`, on the side of the claim. */
  ghost function AttemptInherit(s: ClaimState, judge: Judge, sourceStatuses: seq<Status>): Attempt {
    var k, vs := Stop(OutcomesOf(s.criteria, judge)), VerdictsOf(s.criteria, judge);
    if k < |s.criteria| then Attempt(ClaimStates.VerifyCriteria(s, k, vs), false)
    else Attempt(InheritStatus(s, vs, sourceStatuses), true)
  }

  lemma Singleton(s: set<Status>, x: Status)
    requires |s| == 1 && x in s
    ensures s == {x}
  {
    assert |s - {x}| == 0;
  }

  lemma OneStatusIsUnanimous(cs: seq<Criterion>, statuses: set<Status>)
    requires statuses == set i | 0 <= i < |cs| :: cs[i].status
    ensures |statuses| == 1 <==> Unanimous(cs)
  {
    if |statuses| == 1 {
      var s :| s in statuses;
      Singleton(statuses, s);
      forall i | 0 <= i < |cs| ensures cs[i].status == s {
        assert cs[i].status in statuses;
      }
    }
    if Unanimous(cs) {
      assert cs[0].status in statuses;
      assert statuses == {cs[0].status};
    }
  }

  // ----- claims of one kind of criteria only -----

  ghost predicate AllManual(cs: seq<Criterion>) {
    forall j :: 0 <= j < |cs| ==> cs[j].kind.Manual?
  }

  /** Approved with all its criteria, with 100 percent unless there are none. */
  ghost predicate WhollyApproved(after: ClaimState, before: ClaimState) {
    && after.status.Approved? && |after.criteria| == |before.criteria|
    && (forall j :: 0 <= j < |after.criteria| ==> after.criteria[j].status.Approved?)
    && after.percentage == if after.criteria == [] then before.percentage else 100.0
  }

  lemma FreshManual(t: Terms, s: ClaimState, vs: Verdicts, weighted: real)
    requires |s.criteria| <= |vs| && Fresh(s) && !t.inherited && AllManual(s.criteria)
    ensures
      var after := ClaimStates.Verify(t, s, vs, weighted);
      if t.automatic then WhollyApproved(after, s) else after == s
  {
    FreshVerify(t, s, vs, weighted);
    var cs := FreshCriteria(t, s, vs);
    if !t.automatic {
      assert cs == s.criteria;
    } else if cs != [] {
      assert cs[0].status.Approved?;
    }
  }

  lemma NothingRaises(cs: seq<Criterion>, judge: Judge)
    requires forall j :: 0 <= j < |cs| ==> judge(cs[j].kind).Done?
    ensures Stop(OutcomesOf(cs, judge)) == |cs|
  {
    StopIs(OutcomesOf(cs, judge), |cs|);
  }

  /** A new claim with manual criteria only waits for its verifier, if there is to be one;
      otherwise it is approved, and so are its criteria. */
  lemma ManualVerified(t: Terms, s: ClaimState, rows: Rows, parents: Edges, x: Vertex, judge: Judge,
                       sources: seq<SourceBatch>)
    requires SpeaksFor(judge, rows, parents, x)
    ensures Fresh(s) && !t.inherited && AllManual(s.criteria) ==>
              var a := AttemptVerify(t, s, judge, sources);
              a.ok && if t.automatic then WhollyApproved(a.state, s) else a.state == s
  {
    if Fresh(s) && !t.inherited && AllManual(s.criteria) {
      assert judge(Manual) == OutcomeOf(Manual, rows, parents, x);
      NothingRaises(s.criteria, judge);
      FreshManual(t, s, VerdictsOf(s.criteria, judge), WeightedPercentage(sources));
    }
  }

  lemma FreshPassing(t: Terms, s: ClaimState, vs: Verdicts, weighted: real)
    requires |s.criteria| <= |vs| && Fresh(s) && !t.inherited && s.criteria != []
    requires forall j :: 0 <= j < |s.criteria| ==> s.criteria[j].kind.System? && vs[j].passed
    ensures WhollyApproved(ClaimStates.Verify(t, s, vs, weighted), s)
  {
    FreshVerify(t, s, vs, weighted);
    assert FreshCriteria(t, s, vs)[0].status.Approved?;
  }

  /** A new claim with good-price criteria only is approved as soon as it is verified, whatever
      the batch. */
  lemma GoodPriceIsApproved(t: Terms, s: ClaimState, rows: Rows, parents: Edges, x: Vertex, sources: seq<SourceBatch>)
    requires Fresh(s) && !t.inherited && s.criteria != []
    requires forall j :: 0 <= j < |s.criteria| ==> s.criteria[j].kind == System(GoodPrice)
    ensures
      var a := AttemptVerify(t, s, JudgeOf(rows, parents, x), sources);
      a.ok && WhollyApproved(a.state, s)
  {
    var judge := JudgeOf(rows, parents, x);
    GoodPricePasses(rows, parents, x);
    assert judge(System(GoodPrice)) == OutcomeOf(System(GoodPrice), rows, parents, x);
    NothingRaises(s.criteria, judge);
    FreshPassing(t, s, VerdictsOf(s.criteria, judge), WeightedPercentage(sources));
  }

  class AttachedBatchClaim {
    const batch: nat
    const hasVerifier: bool          // a verifier was chosen for this attachment
    const claimHasVerifiers: bool    // the claim has a preset list of verifiers
    const verifiedBy: VerifiedBy
    const attachedFrom: AttachedFrom
    var status: Status
    var verificationPercentage: real
    var criteria: seq<Criterion>

    ghost function State(): ClaimState
      reads this
    {
      ClaimState(status, verificationPercentage, criteria)
    }

    ghost function TermsOf(): Terms {
      Terms(!hasVerifier && !claimHasVerifiers && verifiedBy.NoOne?, attachedFrom.ByInheritance?)
    }

    constructor (batch: nat, hasVerifier: bool, claimHasVerifiers: bool, verifiedBy: VerifiedBy,
                 attachedFrom: AttachedFrom, criteria: seq<Criterion>)
      ensures this.batch == batch && this.hasVerifier == hasVerifier
      ensures this.claimHasVerifiers == claimHasVerifiers
      ensures this.verifiedBy == verifiedBy && this.attachedFrom == attachedFrom
      ensures State() == ClaimState(Pending, 0.0, criteria)
    {
      this.batch, this.hasVerifier, this.claimHasVerifiers := batch, hasVerifier, claimHasVerifiers;
      this.verifiedBy, this.attachedFrom := verifiedBy, attachedFrom;
      status, verificationPercentage, this.criteria := Pending, 0.0, criteria;
    }

    method CheckAndApprove()
      modifies this`status, this`verificationPercentage
      ensures State() == ClaimStates.CheckAndApprove(old(State()))
    {
      var statuses := set i | 0 <= i < |criteria| :: criteria[i].status;
      OneStatusIsUnanimous(criteria, statuses);
      if |statuses| == 1 {
        var shared :| shared in statuses;
        assert criteria[0].status in statuses;
        Singleton(statuses, shared);
        status := shared;
        if shared.Approved? {
          verificationPercentage := 100.0;
        }
      }
    }

    /** `verify` of the claim's i-th criterion, for source transaction `x`. */
    method VerifyCriterion(i: nat, g: TransactionGraph, x: Vertex, ghost judge: Judge) returns (ok: bool)
      requires i < |criteria| && g.Valid() && x in g.rows && SpeaksFor(judge, g.rows, g.parents, x)
      modifies this
      ensures
        var o := judge(old(criteria)[i].kind);
        && (ok <==> o.Done?)
        && State() == if ok then VerifyBy(old(State()), i, o.verdict) else old(State())
      ensures ok ==>
                |criteria| == |old(criteria)|
                && forall j :: 0 <= j < |criteria| && j != i ==> criteria[j] == old(criteria)[j]
      ensures ok && old(criteria)[i].kind.System? ==>
                var c, v := criteria[i], judge(old(criteria)[i].kind).verdict;
                c.status == (if v.passed then Approved else Rejected) && c.info == v.info && c.evidence == v.coordinates
      ensures old(criteria)[i].kind.Manual? ==>
                && status == old(status)
                && criteria[i].status ==
                     if status.Approved? || status.Rejected? then status else old(criteria)[i].status
    {
      assert judge(criteria[i].kind) == OutcomeOf(criteria[i].kind, g.rows, g.parents, x);
      match criteria[i].kind
      case System(verifier) =>
        var outcome := VerifyWith(verifier, g, x);
        if outcome.Raised? {
          return false;
        }
        var v := outcome.verdict;
        criteria := criteria[i := criteria[i].(status := if v.passed then Approved else Rejected,
                                               info := v.info, evidence := v.coordinates)];
        CheckAndApprove();
        return true;
      case Manual =>
        if status.Approved? {
          criteria := criteria[i := criteria[i].(status := Approved)];
        }
        if status.Rejected? {
          criteria := criteria[i := criteria[i].(status := Rejected)];
        }
        return true;
    }

    /** `verify`: approve if nobody needs to verify, verify the criteria in turn, then weigh the
        source batches of an inherited claim or check the criteria once more. */
    method Verify(g: TransactionGraph, x: Vertex, ghost judge: Judge, sources: seq<SourceBatch>) returns (ok: bool)
      requires g.Valid() && x in g.rows && SpeaksFor(judge, g.rows, g.parents, x)
      modifies this
      ensures Attempt(State(), ok) == AttemptVerify(TermsOf(), old(State()), judge, sources)
      ensures ok && attachedFrom.ByInheritance? ==> verificationPercentage == WeightedPercentage(sources)
      ensures Fresh(old(State())) && AllManual(old(criteria)) && !attachedFrom.ByInheritance? ==>
                && ok
                && if hasVerifier || claimHasVerifiers || !verifiedBy.NoOne? then State() == old(State())
                   else WhollyApproved(State(), old(State()))
    {
      ManualVerified(TermsOf(), State(), g.rows, g.parents, x, judge, sources);
      if !hasVerifier && !claimHasVerifiers && verifiedBy.NoOne? {
        status := Approved;
      }
      ok := VerifyCriteria(g, x, judge);
      if !ok {
        return;
      }
      if attachedFrom.ByInheritance? {
        var percentage := ComputeWeightedPercentage(sources);
        if percentage.None? {
          return false;
        }
        verificationPercentage := percentage.value;
      } else {
        CheckAndApprove();
      }
    }

    /** What attaching a claim to a batch ends with: an inherited claim takes over the data of its
        sources, and then every claim is verified. */
    method CompleteAttachment(g: TransactionGraph, x: Vertex, ghost judge: Judge, table: FieldResponseTable,
                              batches: set<nat>, sourceStatuses: seq<Status>, sources: seq<SourceBatch>)
      returns (ok: bool)
      requires g.Valid() && x in g.rows && SpeaksFor(judge, g.rows, g.parents, x)
      modifies this, table`rows
      ensures
        var taken := if attachedFrom.ByInheritance? then
                       AttemptInherit(old(State()), judge, sourceStatuses)
                     else Attempt(old(State()), true);
        Attempt(State(), ok) ==
          if taken.ok then AttemptVerify(TermsOf(), taken.state, judge, sources) else taken
    {
      if attachedFrom.ByInheritance? {
        ok := InheritData(g, x, judge, table, batches, sourceStatuses);
        if !ok {
          return;
        }
      }
      ok := Verify(g, x, judge, sources);
    }

    /** The loop over the criteria. */
    method VerifyCriteria(g: TransactionGraph, x: Vertex, ghost judge: Judge) returns (ok: bool)
      requires g.Valid() && x in g.rows && SpeaksFor(judge, g.rows, g.parents, x)
      modifies this
      ensures
        var k := Stop(OutcomesOf(old(criteria), judge));
        && (ok <==> k == |old(criteria)|)
        && State() == ClaimStates.VerifyCriteria(old(State()), k, VerdictsOf(old(criteria), judge))
    {
      ghost var os := OutcomesOf(criteria, judge);
      ghost var k;
      ok, k := VerifyEach(g, x, judge, os);
      StopIs(os, k);
    }

    method VerifyEach(g: TransactionGraph, x: Vertex, ghost judge: Judge, ghost os: seq<Outcome>)
      returns (ok: bool, ghost k: nat)
      requires g.Valid() && x in g.rows && SpeaksFor(judge, g.rows, g.parents, x)
      requires os == OutcomesOf(criteria, judge)
      modifies this
      ensures NoneBefore(os, k) && (k < |os| ==> os[k].Raised?) && (ok <==> k == |os|)
      ensures State() == ClaimStates.VerifyCriteria(old(State()), k, VerdictsIn(os))
    {
      ghost var start, vs := State(), VerdictsIn(os);
      for i := 0 to |criteria|
        invariant |criteria| == |os| && NoneBefore(os, i)
        invariant State() == ClaimStates.VerifyCriteria(start, i, vs)
      {
        OutcomeAt(start, i, judge, vs);
        ok := VerifyCriterion(i, g, x, judge);
        if !ok {
          return false, i;
        }
        NoneBeforeMore(os, i);
      }
      return true, |os|;
    }

    /** `inherit_data` of the claim's i-th criterion: copy the source responses and verify it. */
    method InheritCriterion(i: nat, g: TransactionGraph, x: Vertex, ghost judge: Judge, table: FieldResponseTable,
                            batches: set<nat>)
      returns (ok: bool)
      requires i < |criteria| && g.Valid() && x in g.rows && SpeaksFor(judge, g.rows, g.parents, x)
      modifies this, table`rows
      ensures
        var o := judge(old(criteria)[i].kind);
        && (ok <==> o.Done?)
        && State() == if ok then VerifyBy(old(State()), i, o.verdict) else old(State())
      ensures table.rows == FR.Inherit(old(table.rows), table.attachments,
                                       FR.Request(old(criteria)[i].id, old(criteria)[i].definition, batches))
    {
      table.Inherit(FR.Request(criteria[i].id, criteria[i].definition, batches));
      ok := VerifyCriterion(i, g, x, judge);
    }

    /** `inherit_data`: copy the source responses and verify, criterion by criterion, then take
        the common status of the source batches' claims, whatever the criteria led to. */
    method InheritData(g: TransactionGraph, x: Vertex, ghost judge: Judge, table: FieldResponseTable, batches: set<nat>,
                       sourceStatuses: seq<Status>) returns (ok: bool)
      requires g.Valid() && x in g.rows && SpeaksFor(judge, g.rows, g.parents, x)
      modifies this, table`rows
      ensures !attachedFrom.ByInheritance? ==> ok && State() == old(State()) && table.rows == old(table.rows)
      ensures ok && attachedFrom.ByInheritance? ==>
                status == if sourceStatuses != [] && forall j :: 0 <= j < |sourceStatuses| ==>
                               sourceStatuses[j] == sourceStatuses[0]
                          then sourceStatuses[0] else Partial
      ensures attachedFrom.ByInheritance? ==>
                && Attempt(State(), ok) == AttemptInherit(old(State()), judge, sourceStatuses)
                && table.rows == FR.InheritAll(old(table.rows), table.attachments, Requests(old(criteria), batches),
                                               Copying(OutcomesOf(old(criteria), judge)))
    {
      if !attachedFrom.ByInheritance? {
        return true;
      }
      ok := InheritCriteria(g, x, judge, table, batches);
      if !ok {
        return;
      }
      var statuses := set i | 0 <= i < |sourceStatuses| :: sourceStatuses[i];
      OneStatusIsCommon(sourceStatuses, statuses);
      if |statuses| == 1 {
        status := sourceStatuses[0];
      } else {
        status := Partial;
      }
    }

    /** The loop over the criteria. */
    method InheritCriteria(g: TransactionGraph, x: Vertex, ghost judge: Judge, table: FieldResponseTable,
                           batches: set<nat>)
      returns (ok: bool)
      requires g.Valid() && x in g.rows && SpeaksFor(judge, g.rows, g.parents, x)
      modifies this, table`rows
      ensures
        var k := Stop(OutcomesOf(old(criteria), judge));
        && (ok <==> k == |old(criteria)|)
        && State() == ClaimStates.VerifyCriteria(old(State()), k, VerdictsOf(old(criteria), judge))
      ensures table.rows == FR.InheritAll(old(table.rows), table.attachments, Requests(old(criteria), batches),
                                          Copying(OutcomesOf(old(criteria), judge)))
    {
      ghost var os := OutcomesOf(criteria, judge);
      ghost var k;
      ok, k := InheritEach(g, x, judge, table, batches, os);
      CopyingIs(os, k);
    }

    method InheritEach(g: TransactionGraph, x: Vertex, ghost judge: Judge, table: FieldResponseTable, batches: set<nat>,
                       ghost os: seq<Outcome>) returns (ok: bool, ghost k: nat)
      requires g.Valid() && x in g.rows && SpeaksFor(judge, g.rows, g.parents, x)
      requires os == OutcomesOf(criteria, judge)
      modifies this, table`rows
      ensures NoneBefore(os, k) && (k < |os| ==> os[k].Raised?) && (ok <==> k == |os|)
      ensures State() == ClaimStates.VerifyCriteria(old(State()), k, VerdictsIn(os))
      ensures table.rows == FR.InheritAll(old(table.rows), table.attachments, Requests(old(criteria), batches),
                                          if ok then k else k + 1)
    {
      ghost var start, vs, qs, rows := State(), VerdictsIn(os), Requests(criteria, batches), table.rows;
      for i := 0 to |criteria|
        invariant |criteria| == |os| && NoneBefore(os, i)
        invariant State() == ClaimStates.VerifyCriteria(start, i, vs)
        invariant table.rows == FR.InheritAll(rows, table.attachments, qs, i)
      {
        ok := InheritNext(i, g, x, judge, table, batches, start, os, rows);
        if !ok {
          return false, i;
        }
        NoneBeforeMore(os, i);
      }
      return true, |os|;
    }

    /** One pass of that loop. */
    method InheritNext(i: nat, g: TransactionGraph, x: Vertex, ghost judge: Judge, table: FieldResponseTable,
                       batches: set<nat>, ghost start: ClaimState, ghost os: seq<Outcome>,
                       ghost rows: seq<FR.FieldResponse>)
      returns (ok: bool)
      requires g.Valid() && x in g.rows && SpeaksFor(judge, g.rows, g.parents, x)
      requires os == OutcomesOf(start.criteria, judge) && i < |os|
      requires State() == ClaimStates.VerifyCriteria(start, i, VerdictsIn(os))
      requires table.rows == FR.InheritAll(rows, table.attachments, Requests(start.criteria, batches), i)
      modifies this, table`rows
      ensures ok <==> os[i].Done?
      ensures State() == ClaimStates.VerifyCriteria(start, if ok then i + 1 else i, VerdictsIn(os))
      ensures table.rows == FR.InheritAll(rows, table.attachments, Requests(start.criteria, batches), i + 1)
    {
      OutcomeAt(start, i, judge, VerdictsIn(os));
      RequestAt(start, i, VerdictsIn(os), batches);
      ok := InheritCriterion(i, g, x, judge, table, batches);
    }
  }

  /** How many criteria get the responses of their sources: a criterion whose verifier raises has
      had them copied before. */
  ghost function Copying(os: seq<Outcome>): (n: nat)
    ensures n <= |os|
  {
    if Stop(os) < |os| then Stop(os) + 1 else |os|
  }

  lemma CopyingIs(os: seq<Outcome>, k: nat)
    requires NoneBefore(os, k) && (k < |os| ==> os[k].Raised?)
    ensures Stop(os) == k && Copying(os) == if k == |os| then k else k + 1
  {
    StopIs(os, k);
  }

  lemma OutcomeAt(s: ClaimState, k: nat, judge: Judge, vs: Verdicts)
    requires k < |s.criteria| <= |vs|
    ensures judge(VerifyCriteria(s, k, vs).criteria[k].kind) == OutcomesOf(s.criteria, judge)[k]
  {
    SameRequest(s, k, vs);
  }

  lemma RequestAt(s: ClaimState, k: nat, vs: Verdicts, batches: set<nat>)
    requires k < |s.criteria| <= |vs|
    ensures
      var c := VerifyCriteria(s, k, vs).criteria[k];
      FR.Request(c.id, c.definition, batches) == Requests(s.criteria, batches)[k]
  {
    SameRequest(s, k, vs);
  }

  /** One request per criterion of the inheriting claim. */
  ghost function Requests(cs: seq<Criterion>, batches: set<nat>): (qs: seq<FR.Request>)
    ensures |qs| == |cs|
  {
    seq(|cs|, i requires 0 <= i < |cs| => FR.Request(cs[i].id, cs[i].definition, batches))
  }

  lemma OneStatusIsCommon(sources: seq<Status>, statuses: set<Status>)
    requires statuses == set i | 0 <= i < |sources| :: sources[i]
    ensures |statuses| == 1 ==> |sources| > 0 && CommonStatus(sources) == sources[0]
    ensures |statuses| != 1 ==> CommonStatus(sources) == Partial
  {
    if |statuses| == 1 {
      var s :| s in statuses;
      Singleton(statuses, s);
      forall i | 0 <= i < |sources| ensures sources[i] == s { assert sources[i] in statuses; }
    } else if |sources| > 0 && forall i :: 0 <= i < |sources| ==> sources[i] == sources[0] {
      assert sources[0] in statuses;
      assert statuses == {sources[0]};
    }
  }

  /** Verifying criteria changes neither which verifiers run nor what they are asked about. */
  lemma {:induction false} SameRequest(s: ClaimState, k: nat, vs: Verdicts)
    requires k <= |s.criteria| <= |vs|
    ensures forall j :: 0 <= j < |s.criteria| ==>
              && VerifyCriteria(s, k, vs).criteria[j].kind == s.criteria[j].kind
              && VerifyCriteria(s, k, vs).criteria[j].id == s.criteria[j].id
              && VerifyCriteria(s, k, vs).criteria[j].definition == s.criteria[j].definition
  {
    if k > 0 {
      SameRequest(s, k - 1, vs);
    }
  }

  // ----- an automatic claim that moves -----

  /** The two criteria: the source in the region, the source a farm. */
  ghost predicate RegionThenFarm(cs: seq<Criterion>, region: Region) {
    |cs| == 2 && cs[0].kind == System(TraceableGuji(region)) && cs[1].kind == System(FarmerClaim)
  }

  /** A transaction without parents, by a source outside the region that is a farm, or not. */
  ghost predicate LoneSale(rows: Rows, parents: Edges, x: Vertex, region: Region, isFarm: bool) {
    && Next(parents, x) == {} && IsExternal(rows, x)
    && rows[x].kind.source.isFarm == isFarm
    && !region(rows[x].kind.source.latitude, rows[x].kind.source.longitude)
  }

  lemma LoneSaleAssessed(v: Verifier, rows: Rows, parents: Edges, x: Vertex)
    requires !v.GoodPrice? && Next(parents, x) == {} && IsExternal(rows, x)
    ensures Assess(v, rows, parents, x).Done?
    ensures Assess(v, rows, parents, x).verdict.passed <==> SourcePasses(v, rows[x].kind.source)
  {
    AssessLoneRoot(v, rows, parents, x);
  }

  /** No verifier raises. */
  ghost predicate NoneRaises(cs: seq<Criterion>, rows: Rows, parents: Edges, x: Vertex) {
    forall i :: 0 <= i < |cs| ==> OutcomeOf(cs[i].kind, rows, parents, x).Done?
  }

  /** Then nothing stops `verify`, unless a source batch has two approved attachments. */
  lemma NothingStopsVerify(t: Terms, s: ClaimState, rows: Rows, parents: Edges, x: Vertex, sources: seq<SourceBatch>)
    ensures AttemptVerify(t, s, JudgeOf(rows, parents, x), sources).ok <==>
            NoneRaises(s.criteria, rows, parents, x) && (t.inherited ==> AtMostOneApproved(sources))
  {
    var os := OutcomesOf(s.criteria, JudgeOf(rows, parents, x));
    if NoneRaises(s.criteria, rows, parents, x) {
      StopIs(os, |os|);
    } else {
      var i :| 0 <= i < |s.criteria| && OutcomeOf(s.criteria[i].kind, rows, parents, x).Raised?;
      assert os[i].Raised?;
    }
  }

  lemma LoneSaleRaisesNothing(cs: seq<Criterion>, rows: Rows, parents: Edges, x: Vertex, region: Region, isFarm: bool)
    requires RegionThenFarm(cs, region) && LoneSale(rows, parents, x, region, isFarm)
    ensures NoneRaises(cs, rows, parents, x)
  {
    forall i | 0 <= i < |cs| ensures OutcomeOf(cs[i].kind, rows, parents, x).Done? {
      LoneSaleAssessed(cs[i].kind.verifier, rows, parents, x);
    }
  }

  lemma VerdictAt(cs: seq<Criterion>, rows: Rows, parents: Edges, x: Vertex, i: nat)
    requires i < |cs| && cs[i].kind.System? && OutcomeOf(cs[i].kind, rows, parents, x).Done?
    ensures Assess(cs[i].kind.verifier, rows, parents, x) == Done(VerdictsOf(cs, JudgeOf(rows, parents, x))[i])
  {}

  lemma LoneSaleVerdicts(cs: seq<Criterion>, rows: Rows, parents: Edges, x: Vertex, region: Region, isFarm: bool)
    requires RegionThenFarm(cs, region) && LoneSale(rows, parents, x, region, isFarm)
    ensures NoneRaises(cs, rows, parents, x)
    ensures
      var vs := VerdictsOf(cs, JudgeOf(rows, parents, x));
      |vs| == 2 && !vs[0].passed && vs[1].passed == isFarm
  {
    LoneSaleRaisesNothing(cs, rows, parents, x, region, isFarm);
    VerdictAt(cs, rows, parents, x, 0);
    VerdictAt(cs, rows, parents, x, 1);
    LoneSaleAssessed(cs[0].kind.verifier, rows, parents, x);
    LoneSaleAssessed(cs[1].kind.verifier, rows, parents, x);
  }

  /** The exception to idempotence is real, though it takes a change of the source data: attached
      while the source is no farm, both criteria are rejected; when it has become one, the next
      call of `verify` still rejects the claim, and the one after that approves it. */
  lemma AutomaticClaimCanMove(cs: seq<Criterion>, before: Rows, now: Rows, parents: Edges, x: Vertex, region: Region)
    requires RegionThenFarm(cs, region) && Fresh(ClaimState(Pending, 0.0, cs))
    requires LoneSale(before, parents, x, region, false) && LoneSale(now, parents, x, region, true)
    ensures NoneRaises(cs, before, parents, x) && NoneRaises(cs, now, parents, x)
    ensures
      var t := Terms(true, false);
      var earlier := VerdictsOf(cs, JudgeOf(before, parents, x));
      var attached := ClaimStates.Verify(t, ClaimState(Pending, 0.0, cs), earlier, 0.0);
      && |attached.criteria| == 2 && attached.status.Rejected?
      && NoneRaises(attached.criteria, now, parents, x)
      && var vs := VerdictsOf(attached.criteria, JudgeOf(now, parents, x));
         var second := ClaimStates.Verify(t, attached, vs, 0.0);
         && |second.criteria| == 2 && second.status.Rejected?
         && ClaimStates.Verify(t, second, vs, 0.0).status.Approved?
  {
    LoneSaleVerdicts(cs, before, parents, x, region, false);
    LoneSaleVerdicts(cs, now, parents, x, region, true);
    var t, begin := Terms(true, false), ClaimState(Pending, 0.0, cs);
    TwoFailuresReject(begin, VerdictsOf(cs, JudgeOf(before, parents, x)), 0.0);
    var attached := ClaimStates.Verify(t, begin, VerdictsOf(cs, JudgeOf(before, parents, x)), 0.0);
    LoneSaleVerdicts(attached.criteria, now, parents, x, region, true);
    StaleRejectionMoves(attached, VerdictsOf(attached.criteria, JudgeOf(now, parents, x)), 0.0);
  }

  /** Such a transaction and claim exist. */
  lemma LoneSalesExist()
    ensures exists cs: seq<Criterion>, before: Rows, now: Rows, region: Region ::
      && RegionThenFarm(cs, region) && Fresh(ClaimState(Pending, 0.0, cs))
      && LoneSale(before, {}, 0, region, false) && LoneSale(now, {}, 0, region, true)
  {
    var region: Region := (latitude, longitude) => false;
    var cs := [Criterion(1, 1, System(TraceableGuji(region)), Pending, [], []),
               Criterion(2, 2, System(FarmerClaim), Pending, [], [])];
    var before: Rows := map[0 := Transaction(External(Actor([], false, 0.0, 0.0), false), false)];
    var now: Rows := map[0 := Transaction(External(Actor([], true, 0.0, 0.0), false), false)];
    assert RegionThenFarm(cs, region) && Fresh(ClaimState(Pending, 0.0, cs));
    assert LoneSale(before, {}, 0, region, false) && LoneSale(now, {}, 0, region, true);
  }

  // ----- an inherited claim that ends up otherwise -----

  /** A transaction made of two sales: one by a farm, one by somebody else. */
  ghost predicate FarmAndOther(rows: Rows, parents: Edges, x: Vertex, farm: Vertex, other: Vertex) {
    && Next(parents, x) == {farm, other} && Next(parents, farm) == {} && Next(parents, other) == {}
    && IsExternal(rows, farm) && rows[farm].kind.source.isFarm
    && IsExternal(rows, other) && !rows[other].kind.source.isFarm
  }

  ghost predicate FromFarmersOnly(s: ClaimState) {
    Fresh(s) && |s.criteria| == 1 && s.criteria[0].kind == System(FarmerClaim)
  }

  lemma FarmPasses(rows: Rows, parents: Edges, x: Vertex, farm: Vertex, other: Vertex)
    requires FarmAndOther(rows, parents, x, farm, other)
    ensures Assess(FarmerClaim, rows, parents, farm).Done? && Assess(FarmerClaim, rows, parents, farm).verdict.passed
  {
    LoneSaleAssessed(FarmerClaim, rows, parents, farm);
  }

  lemma OtherFails(rows: Rows, parents: Edges, x: Vertex, farm: Vertex, other: Vertex)
    requires FarmAndOther(rows, parents, x, farm, other)
    ensures Assess(FarmerClaim, rows, parents, other).Done?
    ensures !Assess(FarmerClaim, rows, parents, other).verdict.passed
  {
    LoneSaleAssessed(FarmerClaim, rows, parents, other);
  }

  lemma BothFail(rows: Rows, parents: Edges, x: Vertex, farm: Vertex, other: Vertex)
    requires FarmAndOther(rows, parents, x, farm, other)
    ensures Assess(FarmerClaim, rows, parents, x).Done? && !Assess(FarmerClaim, rows, parents, x).verdict.passed
  {
    FarmPasses(rows, parents, x, farm, other);
    OtherFails(rows, parents, x, farm, other);
    FailsWithParent(FarmerClaim, rows, parents, x, other, farm);
  }

  lemma OneOutcome(cs: seq<Criterion>, judge: Judge)
    requires |cs| == 1 && judge(cs[0].kind).Done?
    ensures Stop(OutcomesOf(cs, judge)) == 1
    ensures VerdictsOf(cs, judge) == [judge(cs[0].kind).verdict]
  {
    StopIs(OutcomesOf(cs, judge), 1);
  }

  lemma ApprovedDirectly(s: ClaimState, judge: Judge)
    requires FromFarmersOnly(s) && judge(System(FarmerClaim)).Done? && judge(System(FarmerClaim)).verdict.passed
    ensures
      var direct := AttemptVerify(Terms(false, false), s, judge, []);
      direct.ok && direct.state.status.Approved?
  {
    OneOutcome(s.criteria, judge);
    FreshVerify(Terms(false, false), s, VerdictsOf(s.criteria, judge), WeightedPercentage([]));
  }

  lemma RejectedAfterAll(s: ClaimState, judge: Judge, sources: seq<SourceBatch>)
    requires FromFarmersOnly(s) && judge(System(FarmerClaim)).Done? && !judge(System(FarmerClaim)).verdict.passed
    requires AtMostOneApproved(sources)
    ensures
      var taken := AttemptInherit(s, judge, [Approved]);
      && taken.ok && taken.state.status.Approved?
      && var after := AttemptVerify(Terms(false, true), taken.state, judge, sources);
         after.ok && after.state.status.Rejected?
  {
    OneOutcome(s.criteria, judge);
    var vs := VerdictsOf(s.criteria, judge);
    var taken := InheritStatus(s, vs, [Approved]);
    FreshInheritThenVerify(Terms(false, true), s, vs, WeightedPercentage(sources), [Approved]);
    SameRequest(s, 1, vs);
    assert taken.criteria[0].kind == s.criteria[0].kind;
    OneOutcome(taken.criteria, judge);
  }

  /** Attached to the farm's batch the claim is approved. The batch made of both sales takes over
      that status, the other source batch having no such claim; and `verify` rejects it. */
  lemma InheritedStatusCanChange(s: ClaimState, rows: Rows, parents: Edges, x: Vertex, farm: Vertex, other: Vertex,
                                 sources: seq<SourceBatch>)
    requires FarmAndOther(rows, parents, x, farm, other) && FromFarmersOnly(s) && AtMostOneApproved(sources)
    ensures
      var direct := AttemptVerify(Terms(false, false), s, JudgeOf(rows, parents, farm), []);
      var taken := AttemptInherit(s, JudgeOf(rows, parents, x), [Approved]);
      && direct.ok && direct.state.status.Approved?
      && taken.ok && taken.state.status.Approved?
      && var after := AttemptVerify(Terms(false, true), taken.state, JudgeOf(rows, parents, x), sources);
         after.ok && after.state.status.Rejected?
  {
    FarmPasses(rows, parents, x, farm, other);
    BothFail(rows, parents, x, farm, other);
    ApprovedDirectly(s, JudgeOf(rows, parents, farm));
    RejectedAfterAll(s, JudgeOf(rows, parents, x), sources);
  }

  /** Such transactions and claims exist. */
  lemma FarmAndOtherExist()
    ensures exists rows: Rows, parents: Edges, s: ClaimState ::
      FarmAndOther(rows, parents, 2, 0, 1) && FromFarmersOnly(s)
  {
    var farm, other := Actor([], true, 0.0, 0.0), Actor([], false, 0.0, 0.0);
    var rows: Rows := map[0 := Transaction(External(farm, false), false),
                          1 := Transaction(External(other, false), false),
                          2 := Transaction(Internal, false)];
    var parents: Edges := {(2, 0), (2, 1)};
    var s := ClaimState(Pending, 0.0, [Criterion(1, 1, System(FarmerClaim), Pending, [], [])]);
    assert Next(parents, 2) == {0, 1} && Next(parents, 0) == {} && Next(parents, 1) == {};
    assert FarmAndOther(rows, parents, 2, 0, 1) && FromFarmersOnly(s);
  }
}
