/** How the status of an attached batch claim and the statuses of its criteria feed back into
    each other: the state functions behind `AttachedBatchClaim`, and what they promise. */
module ClaimStates {

  import opened Verifiers

  datatype Status = Pending | Approved | Rejected | Partial

  datatype CriterionKind = Manual | System(verifier: Verifier)

  datatype Criterion = Criterion(
    id: nat,          // key of the attached criterion
    definition: nat,  // the criterion it attaches
    kind: CriterionKind,
    status: Status,
    info: seq<Sentence>,
    evidence: seq<(real, real)>)

  datatype ClaimState = ClaimState(status: Status, percentage: real, criteria: seq<Criterion>)

  /** Verdicts of the system verifiers, one per criterion (those of manual criteria unused). */
  type Verdicts = seq<Verdict>

  predicate Decided(s: Status) {
    s.Approved? || s.Rejected?
  }

  predicate Unanimous(cs: seq<Criterion>) {
    |cs| > 0 && forall i :: 0 <= i < |cs| ==> cs[i].status == cs[0].status
  }

  function Judged(c: Criterion, v: Verdict): Criterion {
    c.(status := if v.passed then Approved else Rejected, info := v.info, evidence := v.coordinates)
  }

  function WithStatus(c: Criterion, status: Status): Criterion {
    c.(status := status)
  }

  function CheckAndApprove(s: ClaimState): ClaimState {
    if !Unanimous(s.criteria) then s
    else s.(status := s.criteria[0].status,
            percentage := if s.criteria[0].status.Approved? then 100.0 else s.percentage)
  }

  /** The i-th criterion verified, `v` being what its verifier says. */
  function VerifyBy(s: ClaimState, i: nat, v: Verdict): ClaimState
    requires i < |s.criteria|
  {
    var c := s.criteria[i];
    if c.kind.System? then CheckAndApprove(s.(criteria := s.criteria[i := Judged(c, v)]))
    else if Decided(s.status) then s.(criteria := s.criteria[i := WithStatus(c, s.status)])
    else s
  }

  function VerifyCriterion(s: ClaimState, i: nat, vs: Verdicts): ClaimState
    requires i < |s.criteria| && i < |vs|
  {
    VerifyBy(s, i, vs[i])
  }

  /** The state after verifying the first `k` criteria in turn. */
  function VerifyCriteria(s: ClaimState, k: nat, vs: Verdicts): (r: ClaimState)
    requires k <= |s.criteria| <= |vs|
    ensures |r.criteria| == |s.criteria|
  {
    if k == 0 then s else VerifyCriterion(VerifyCriteria(s, k - 1, vs), k - 1, vs)
  }

  /** What of the claim decides how `verify` treats it. */
  datatype Terms = Terms(automatic: bool, inherited: bool)

  function Start(t: Terms, s: ClaimState): ClaimState {
    if t.automatic then s.(status := Approved) else s
  }

  function Verify(t: Terms, s: ClaimState, vs: Verdicts, weighted: real): ClaimState
    requires |s.criteria| <= |vs|
  {
    var after := VerifyCriteria(Start(t, s), |s.criteria|, vs);
    if t.inherited then after.(percentage := weighted) else CheckAndApprove(after)
  }

  // ----- invariants of a pass over the criteria -----

  /** The first `k` criteria say what their verdicts, or the claim once decided, say. */
  ghost predicate Settled(s: ClaimState, k: nat, vs: Verdicts)
    requires k <= |s.criteria| <= |vs|
  {
    forall j :: 0 <= j < k ==>
      if s.criteria[j].kind.System? then s.criteria[j] == Judged(s.criteria[j], vs[j])
      else Decided(s.status) ==> s.criteria[j].status == s.status
  }

  predicate HasSystem(cs: seq<Criterion>, k: nat)
    requires k <= |cs|
  {
    exists j :: 0 <= j < k && cs[j].kind.System?
  }

  /** Once a system criterion was verified, unanimous criteria have carried the claim along. */
  ghost predicate Agrees(s: ClaimState, k: nat)
    requires k <= |s.criteria|
  {
    HasSystem(s.criteria, k) && Unanimous(s.criteria) ==> s.status == s.criteria[0].status
  }

  lemma StepSettles(u: ClaimState, i: nat, vs: Verdicts)
    requires i < |u.criteria| <= |vs| && Settled(u, i, vs) && Agrees(u, i)
    ensures
      var after := VerifyCriterion(u, i, vs);
      && |after.criteria| == |u.criteria|
      && after.criteria[i].kind == u.criteria[i].kind
      && (forall j :: 0 <= j < |u.criteria| && j != i ==> after.criteria[j] == u.criteria[j])
      && Settled(after, i + 1, vs) && Agrees(after, i + 1)
  {}

  lemma {:induction false} PassSettles(s: ClaimState, k: nat, vs: Verdicts)
    requires k <= |s.criteria| <= |vs|
    ensures Settled(VerifyCriteria(s, k, vs), k, vs) && Agrees(VerifyCriteria(s, k, vs), k)
    ensures forall j :: 0 <= j < |s.criteria| ==>
              VerifyCriteria(s, k, vs).criteria[j].kind == s.criteria[j].kind
    ensures forall j :: k <= j < |s.criteria| ==> VerifyCriteria(s, k, vs).criteria[j] == s.criteria[j]
  {
    if k > 0 {
      PassSettles(s, k - 1, vs);
      StepSettles(VerifyCriteria(s, k - 1, vs), k - 1, vs);
    }
  }

  /** The state `z` with percentage `p`, or 100 where its criteria agree to approve. */
  ghost predicate Stays(u: ClaimState, z: ClaimState, p: real) {
    && u.criteria == z.criteria && u.status == z.status
    && (u.percentage == p || (Unanimous(z.criteria) && z.status.Approved? && u.percentage == 100.0))
  }

  lemma SettledStep(u: ClaimState, z: ClaimState, p: real, i: nat, vs: Verdicts)
    requires i < |z.criteria| <= |vs| && Stays(u, z, p)
    requires Settled(z, |z.criteria|, vs) && Agrees(z, |z.criteria|)
    ensures Stays(VerifyCriterion(u, i, vs), z, p)
  {
    var c := z.criteria[i];
    if c.kind.System? {
      assert z.criteria[i := Judged(c, vs[i])] == z.criteria;
    } else if Decided(z.status) {
      assert z.criteria[i := WithStatus(c, z.status)] == z.criteria;
    }
  }

  /** A settled state that agrees with its criteria is left alone from step `m` on, but for a
      percentage that approval may raise to 100. */
  lemma {:induction false} SettledStays(s: ClaimState, z: ClaimState, m: nat, k: nat, vs: Verdicts)
    requires m <= k <= |s.criteria| == |z.criteria| <= |vs|
    requires VerifyCriteria(s, m, vs).criteria == z.criteria && VerifyCriteria(s, m, vs).status == z.status
    requires Settled(z, |z.criteria|, vs) && Agrees(z, |z.criteria|)
    ensures Stays(VerifyCriteria(s, k, vs), z, VerifyCriteria(s, m, vs).percentage)
  {
    if m < k {
      SettledStays(s, z, m, k - 1, vs);
      SettledStep(VerifyCriteria(s, k - 1, vs), z, VerifyCriteria(s, m, vs).percentage, k - 1, vs);
    }
  }

  lemma {:induction false} NoSystemKeepsStatus(s: ClaimState, k: nat, vs: Verdicts)
    requires k <= |s.criteria| <= |vs|
    requires forall j :: 0 <= j < |s.criteria| ==> s.criteria[j].kind.Manual?
    ensures VerifyCriteria(s, k, vs).status == s.status
  {
    if k > 0 {
      NoSystemKeepsStatus(s, k - 1, vs);
      PassSettles(s, k - 1, vs);
    }
  }

  lemma {:induction false} EarlierCriteriaStay(s: ClaimState, m: nat, k: nat, vs: Verdicts)
    requires m <= k <= |s.criteria| <= |vs|
    ensures forall j :: 0 <= j < m ==>
              VerifyCriteria(s, k, vs).criteria[j] == VerifyCriteria(s, m, vs).criteria[j]
  {
    if m < k {
      EarlierCriteriaStay(s, m, k - 1, vs);
    }
  }

  /** A step that leads to divided criteria changes at most the criterion it is about. */
  lemma DividedStep(before: ClaimState, cs: seq<Criterion>, i: nat, v: Verdict)
    requires i < |before.criteria| == |cs| && before.criteria[i] == cs[i] && !Unanimous(cs)
    requires VerifyBy(before, i, v).criteria == cs
    ensures before.criteria == cs && VerifyBy(before, i, v).status == before.status
  {
    assert forall j :: 0 <= j < |cs| && j != i ==> VerifyBy(before, i, v).criteria[j] == before.criteria[j];
  }

  /** Without unanimity a pass that starts approved either ends so, or has changed a criterion. */
  lemma {:induction false} DividedKeepsApproved(s: ClaimState, k: nat, vs: Verdicts)
    requires k <= |s.criteria| <= |vs| && s.status.Approved? && !Unanimous(s.criteria)
    ensures VerifyCriteria(s, k, vs).criteria == s.criteria ==> VerifyCriteria(s, k, vs).status.Approved?
  {
    if k > 0 {
      DividedKeepsApproved(s, k - 1, vs);
      PassSettles(s, k - 1, vs);
      if VerifyCriteria(s, k, vs).criteria == s.criteria {
        DividedStep(VerifyCriteria(s, k - 1, vs), s.criteria, k - 1, vs[k - 1]);
      }
    }
  }

  // ----- verifying twice -----

  /** What one call of `verify` leaves behind. */
  lemma VerifySettles(t: Terms, s: ClaimState, vs: Verdicts, weighted: real)
    requires |s.criteria| <= |vs|
    ensures
      var after := Verify(t, s, vs, weighted);
      && |after.criteria| == |s.criteria|
      && Settled(after, |after.criteria|, vs)
      && Agrees(after, |after.criteria|)
      && (t.inherited ==> after.percentage == weighted)
      && (!t.inherited && Unanimous(after.criteria) ==>
            && after.status == after.criteria[0].status
            && (after.status.Approved? ==> after.percentage == 100.0))
  {
    PassSettles(Start(t, s), |s.criteria|, vs);
  }

  /** An automatic claim that unanimous criteria took off its approval has a system criterion
      in front, and stands where its criteria stand. */
  lemma UnanimousAgainstApproval(t: Terms, s: ClaimState, vs: Verdicts, weighted: real)
    requires |s.criteria| <= |vs| && t.automatic
    requires
      var after := Verify(t, s, vs, weighted);
      Unanimous(after.criteria) && !after.status.Approved?
    ensures
      var after := Verify(t, s, vs, weighted);
      after.criteria[0].kind.System? && after.status == after.criteria[0].status
  {
    var n, begin := |s.criteria|, Start(t, s);
    var after := Verify(t, s, vs, weighted);
    VerifySettles(t, s, vs, weighted);
    PassSettles(begin, n, vs);
    EarlierCriteriaStay(begin, 1, n, vs);
    if after.criteria[0].kind.Manual? {
      assert VerifyCriteria(begin, 1, vs) == VerifyCriterion(VerifyCriteria(begin, 0, vs), 0, vs);
      assert after.criteria[0].status.Approved?;
      if !HasSystem(after.criteria, n) {
        NoSystemKeepsStatus(begin, n, vs);
      }
    }
  }

  lemma VerifyAgainFromApproval(t: Terms, s: ClaimState, vs: Verdicts, weighted: real)
    requires |s.criteria| <= |vs|
    requires !t.automatic || Verify(t, s, vs, weighted).status.Approved?
    ensures var after := Verify(t, s, vs, weighted);
            |after.criteria| <= |vs| && Verify(t, after, vs, weighted) == after
  {
    var after := Verify(t, s, vs, weighted);
    VerifySettles(t, s, vs, weighted);
    assert Start(t, after) == after;
    SettledStays(after, after, 0, |after.criteria|, vs);
  }

  lemma VerifyAgainWhenUnanimous(t: Terms, s: ClaimState, vs: Verdicts, weighted: real)
    requires |s.criteria| <= |vs| && t.automatic
    requires
      var after := Verify(t, s, vs, weighted);
      Unanimous(after.criteria) && !after.status.Approved?
    ensures var after := Verify(t, s, vs, weighted);
            |after.criteria| <= |vs| && Verify(t, after, vs, weighted) == after
  {
    var after := Verify(t, s, vs, weighted);
    VerifySettles(t, s, vs, weighted);
    UnanimousAgainstApproval(t, s, vs, weighted);
    var begin := Start(t, after);
    assert after.criteria[0 := Judged(after.criteria[0], vs[0])] == after.criteria;
    assert VerifyCriteria(begin, 1, vs) == VerifyCriterion(VerifyCriteria(begin, 0, vs), 0, vs);
    SettledStays(begin, after, 1, |after.criteria|, vs);
  }

  /** `verify` is idempotent, with the verdicts unchanged, from every state of a claim that is
      not verified automatically; an automatic claim can move on a second call, and does so
      exactly when the first call left it unapproved over divided criteria. */
  lemma VerifyIdempotentExactly(t: Terms, s: ClaimState, vs: Verdicts, weighted: real)
    requires |s.criteria| <= |vs|
    ensures
      var after := Verify(t, s, vs, weighted);
      && |after.criteria| == |s.criteria|
      && (Verify(t, after, vs, weighted) == after <==>
          !t.automatic || after.status.Approved? || Unanimous(after.criteria))
  {
    var after := Verify(t, s, vs, weighted);
    VerifySettles(t, s, vs, weighted);
    if !t.automatic || after.status.Approved? {
      VerifyAgainFromApproval(t, s, vs, weighted);
    } else if Unanimous(after.criteria) {
      VerifyAgainWhenUnanimous(t, s, vs, weighted);
    } else {
      DividedKeepsApproved(Start(t, after), |after.criteria|, vs);
    }
  }

  /** Verifying the i-th criterion rejects an approved claim: it and all before it are system
      criteria that fail, and all after it were rejected before. */
  ghost predicate RejectedAt(s: ClaimState, i: nat, vs: Verdicts)
    requires i < |s.criteria| <= |vs|
  {
    && (forall j :: 0 <= j <= i ==> s.criteria[j].kind.System? && !vs[j].passed)
    && (forall j :: i < j < |s.criteria| ==> s.criteria[j].status.Rejected?)
  }

  ghost predicate RejectedBefore(s: ClaimState, k: nat, vs: Verdicts)
    requires k <= |s.criteria| <= |vs|
  {
    exists i :: 0 <= i < k && RejectedAt(s, i, vs)
  }

  lemma RejectedMore(s: ClaimState, k: nat, vs: Verdicts)
    requires k < |s.criteria| <= |vs|
    ensures RejectedBefore(s, k + 1, vs) <==> RejectedBefore(s, k, vs) || RejectedAt(s, k, vs)
  {
    if RejectedBefore(s, k, vs) {
      var i :| 0 <= i < k && RejectedAt(s, i, vs);
      assert 0 <= i < k + 1;
    }
  }

  /** The criteria of a pass that has reached the k-th: those before follow their verdicts or the
      claim, the others are as they were. */
  ghost predicate Reached(u: ClaimState, s: ClaimState, k: nat, vs: Verdicts)
    requires k <= |s.criteria| <= |vs|
  {
    && |u.criteria| == |s.criteria| && Settled(u, k, vs)
    && (forall j :: 0 <= j < |s.criteria| ==> u.criteria[j].kind == s.criteria[j].kind)
    && (forall j :: k <= j < |s.criteria| ==> u.criteria[j] == s.criteria[j])
  }

  lemma RejectedCriteria(cs: seq<Criterion>, u: ClaimState, s: ClaimState, k: nat, vs: Verdicts)
    requires k < |s.criteria| <= |vs| && Reached(u, s, k, vs) && s.criteria[k].kind.System? && u.status.Approved?
    requires cs == u.criteria[k := Judged(u.criteria[k], vs[k])]
    ensures (forall j :: 0 <= j < |cs| ==> cs[j].status.Rejected?) <==> RejectedAt(s, k, vs)
  {
    forall j | 0 <= j <= k ensures cs[j].status.Rejected? <==> s.criteria[j].kind.System? && !vs[j].passed {
      if j < k && s.criteria[j].kind.System? {
        assert u.criteria[j] == Judged(u.criteria[j], vs[j]);
      }
    }
    forall j | k < j < |cs| ensures cs[j] == s.criteria[j] {}
  }

  /** While a claim is approved, a system criterion rejects it exactly under that condition. */
  lemma RejectionStep(u: ClaimState, s: ClaimState, k: nat, vs: Verdicts)
    requires k < |s.criteria| <= |vs| && Reached(u, s, k, vs) && s.criteria[k].kind.System? && u.status.Approved?
    ensures VerifyCriterion(u, k, vs).status == if RejectedAt(s, k, vs) then Rejected else Approved
  {
    var cs := u.criteria[k := Judged(u.criteria[k], vs[k])];
    RejectedCriteria(cs, u, s, k, vs);
    assert VerifyCriterion(u, k, vs).status == if Unanimous(cs) then cs[0].status else Approved;
    assert Unanimous(cs) ==> cs[k].status == cs[0].status;
  }

  /** A rejected claim with a failing criterion in front stays rejected. */
  lemma RejectionStays(u: ClaimState, s: ClaimState, k: nat, vs: Verdicts)
    requires k < |s.criteria| <= |vs| && Reached(u, s, k, vs) && u.status.Rejected? && RejectedBefore(s, k, vs)
    ensures VerifyCriterion(u, k, vs).status.Rejected?
  {
    var i :| 0 <= i < k && RejectedAt(s, i, vs);
    assert u.criteria[0] == Judged(u.criteria[0], vs[0]);
  }

  lemma PassReaches(s: ClaimState, k: nat, vs: Verdicts)
    requires k <= |s.criteria| <= |vs|
    ensures Reached(VerifyCriteria(s, k, vs), s, k, vs)
  {
    PassSettles(s, k, vs);
  }

  /** One step of a pass. */
  ghost predicate IsStep(r: ClaimState, after: ClaimState, s: ClaimState, k: nat, vs: Verdicts)
    requires k < |s.criteria| <= |vs|
  {
    Reached(r, s, k, vs) && Reached(after, s, k + 1, vs) && after == VerifyCriterion(r, k, vs)
  }

  lemma PassIsStep(s: ClaimState, k: nat, vs: Verdicts)
    requires k < |s.criteria| <= |vs|
    ensures IsStep(VerifyCriteria(s, k, vs), VerifyCriteria(s, k + 1, vs), s, k, vs)
  {
    PassReaches(s, k, vs);
    PassReaches(s, k + 1, vs);
  }

  ghost predicate IsPass(states: seq<ClaimState>, s: ClaimState, vs: Verdicts)
    requires |s.criteria| <= |vs|
  {
    && 1 <= |states| <= |s.criteria| + 1 && states[0] == s
    && forall i :: 0 <= i < |states| - 1 ==> IsStep(states[i], states[i + 1], s, i, vs)
  }

  lemma IsPassMore(states: seq<ClaimState>, after: ClaimState, s: ClaimState, vs: Verdicts)
    requires |states| <= |s.criteria| <= |vs| && IsPass(states, s, vs)
    requires IsStep(states[|states| - 1], after, s, |states| - 1, vs)
    ensures IsPass(states + [after], s, vs)
  {}

  lemma {:induction false} StatesOfPass(s: ClaimState, k: nat, vs: Verdicts) returns (states: seq<ClaimState>)
    requires k <= |s.criteria| <= |vs|
    ensures |states| == k + 1 && IsPass(states, s, vs) && states[k] == VerifyCriteria(s, k, vs)
  {
    if k == 0 {
      states := [s];
    } else {
      states := StatesOfPass(s, k - 1, vs);
      PassIsStep(s, k - 1, vs);
      IsPassMore(states, VerifyCriteria(s, k, vs), s, vs);
      states := states + [VerifyCriteria(s, k, vs)];
    }
  }

  lemma RejectionMore(u: ClaimState, s: ClaimState, k: nat, vs: Verdicts)
    requires k < |s.criteria| <= |vs| && Reached(u, s, k, vs)
    requires u.status == if RejectedBefore(s, k, vs) then Rejected else Approved
    ensures VerifyCriterion(u, k, vs).status == if RejectedBefore(s, k + 1, vs) then Rejected else Approved
  {
    RejectedMore(s, k, vs);
    if RejectedBefore(s, k, vs) {
      RejectionStays(u, s, k, vs);
    } else if s.criteria[k].kind.System? {
      RejectionStep(u, s, k, vs);
    }
  }

  lemma {:induction false} RejectionAlong(states: seq<ClaimState>, s: ClaimState, k: nat, vs: Verdicts)
    requires k < |states| && |s.criteria| <= |vs| && IsPass(states, s, vs) && s.status.Approved?
    ensures states[k].status == if RejectedBefore(s, k, vs) then Rejected else Approved
  {
    if k > 0 {
      RejectionAlong(states, s, k - 1, vs);
      assert IsStep(states[k - 1], states[k - 1 + 1], s, k - 1, vs);
      RejectionMore(states[k - 1], s, k - 1, vs);
    }
  }

  lemma RejectionOfPass(s: ClaimState, k: nat, vs: Verdicts)
    requires k <= |s.criteria| <= |vs| && s.status.Approved?
    ensures VerifyCriteria(s, k, vs).status == if RejectedBefore(s, k, vs) then Rejected else Approved
  {
    var states := StatesOfPass(s, k, vs);
    RejectionAlong(states, s, k, vs);
  }

  /** Some system criterion passes behind one whose verification rejects the claim. */
  ghost predicate Moves(s: ClaimState, vs: Verdicts)
    requires |s.criteria| <= |vs|
  {
    exists i, m :: 0 <= i < m < |s.criteria| && RejectedAt(s, i, vs) && s.criteria[m].kind.System? && vs[m].passed
  }

  /** A pass that has rejected the claim leaves divided criteria exactly if one of them passes. */
  lemma DividedExactly(u: ClaimState, s: ClaimState, vs: Verdicts)
    requires |s.criteria| <= |vs| && Reached(u, s, |s.criteria|, vs) && u.status.Rejected?
    requires RejectedBefore(s, |s.criteria|, vs)
    ensures Unanimous(u.criteria) <==> !Moves(s, vs)
  {
    var i :| 0 <= i < |s.criteria| && RejectedAt(s, i, vs);
    assert u.criteria[0] == Judged(u.criteria[0], vs[0]);
    forall j | 0 <= j < |s.criteria|
      ensures u.criteria[j].status.Rejected? <==> !(s.criteria[j].kind.System? && vs[j].passed)
    {
      if s.criteria[j].kind.System? {
        assert u.criteria[j] == Judged(u.criteria[j], vs[j]);
      }
    }
    if m :| 0 <= m < |s.criteria| && s.criteria[m].kind.System? && vs[m].passed {
      assert i < m;
    }
  }

  /** When a second `verify` changes something, read off the claim before the first: it is an
      automatic one whose first criteria, up to some point, are failing system criteria, all later
      ones were rejected before, and one of these is a system criterion that passes now. */
  lemma VerifyMovesExactly(t: Terms, s: ClaimState, vs: Verdicts, weighted: real)
    requires |s.criteria| <= |vs|
    ensures
      var after := Verify(t, s, vs, weighted);
      && |after.criteria| == |s.criteria|
      && (Verify(t, after, vs, weighted) != after <==> t.automatic && Moves(s, vs))
  {
    var n := |s.criteria|;
    VerifyIdempotentExactly(t, s, vs, weighted);
    if t.automatic {
      var begin := Start(t, s);
      var u := VerifyCriteria(begin, n, vs);
      RejectionOfPass(begin, n, vs);
      PassReaches(begin, n, vs);
      assert Moves(begin, vs) <==> Moves(s, vs) by {
        forall i | 0 <= i < n ensures RejectedAt(begin, i, vs) <==> RejectedAt(s, i, vs) {}
      }
      if RejectedBefore(begin, n, vs) {
        DividedExactly(u, begin, vs);
      }
    }
  }

  /** How the exception comes about, for two system criteria that were both rejected before: the
      first failing again and the second passing now, an automatic claim is rejected in passing,
      over a rejection that is no longer true, and the next call approves it. */
  lemma StaleRejectionMoves(s: ClaimState, vs: Verdicts, weighted: real)
    requires |s.criteria| == |vs| == 2 && s.criteria[0].kind.System? && s.criteria[1].kind.System?
    requires s.criteria[1].status.Rejected? && !vs[0].passed && vs[1].passed
    ensures
      var t := Terms(true, false);
      var after := Verify(t, s, vs, weighted);
      && after == ClaimState(Rejected, s.percentage, [Judged(s.criteria[0], vs[0]), Judged(s.criteria[1], vs[1])])
      && Verify(t, after, vs, weighted) == after.(status := Approved)
  {
    var t, cs := Terms(true, false), [Judged(s.criteria[0], vs[0]), Judged(s.criteria[1], vs[1])];
    var rejected := ClaimState(Rejected, s.percentage, cs);
    assert cs[1].status != cs[0].status;
    assert [cs[0], s.criteria[1]][1].status == cs[0].status;
    TwoSystemCriteria(Start(t, s), vs);
    assert Verify(t, s, vs, weighted) == rejected;
    assert Judged(cs[0], vs[0]) == cs[0] && Judged(cs[1], vs[1]) == cs[1];
    TwoSystemCriteria(Start(t, rejected), vs);
  }

  /** Two failing system criteria reject a fresh automatic claim. */
  lemma TwoFailuresReject(s: ClaimState, vs: Verdicts, weighted: real)
    requires |s.criteria| == |vs| == 2 && s.criteria[0].kind.System? && s.criteria[1].kind.System?
    requires Fresh(s) && !vs[0].passed && !vs[1].passed
    ensures
      Verify(Terms(true, false), s, vs, weighted)
      == ClaimState(Rejected, s.percentage, [Judged(s.criteria[0], vs[0]), Judged(s.criteria[1], vs[1])])
  {
    FreshVerify(Terms(true, false), s, vs, weighted);
    var cs := FreshCriteria(Terms(true, false), s, vs);
    assert cs == [Judged(s.criteria[0], vs[0]), Judged(s.criteria[1], vs[1])];
  }

  lemma TwoSystemCriteria(s: ClaimState, vs: Verdicts)
    requires |s.criteria| == |vs| == 2 && s.criteria[0].kind.System? && s.criteria[1].kind.System?
    ensures
      var first := CheckAndApprove(s.(criteria := [Judged(s.criteria[0], vs[0]), s.criteria[1]]));
      VerifyCriteria(s, 2, vs) ==
        CheckAndApprove(first.(criteria := [Judged(s.criteria[0], vs[0]), Judged(s.criteria[1], vs[1])]))
  {
    assert s.criteria[0 := Judged(s.criteria[0], vs[0])] == [Judged(s.criteria[0], vs[0]), s.criteria[1]];
    assert VerifyCriteria(s, 1, vs) == VerifyCriterion(VerifyCriteria(s, 0, vs), 0, vs);
  }

  // ----- freshly attached claims -----

  predicate Fresh(s: ClaimState) {
    s.status.Pending? && forall j :: 0 <= j < |s.criteria| ==> s.criteria[j].status.Pending?
  }

  /** The criteria of a fresh claim, verified independently of each other. */
  ghost function FreshCriteria(t: Terms, s: ClaimState, vs: Verdicts): (cs: seq<Criterion>)
    requires |s.criteria| <= |vs|
    ensures |cs| == |s.criteria|
  {
    seq(|s.criteria|, j requires 0 <= j < |s.criteria| =>
      if s.criteria[j].kind.System? then Judged(s.criteria[j], vs[j])
      else WithStatus(s.criteria[j], if t.automatic then Approved else Pending))
  }

  /** The outcome of verifying a fresh claim: unanimous criteria decide; divided ones leave the
      claim approved or pending according to its terms. */
  ghost function FreshOutcome(t: Terms, s: ClaimState, vs: Verdicts): ClaimState
    requires |s.criteria| <= |vs|
  {
    var cs := FreshCriteria(t, s, vs);
    if Unanimous(cs) then
      ClaimState(cs[0].status, if cs[0].status.Approved? then 100.0 else s.percentage, cs)
    else ClaimState(if t.automatic then Approved else Pending, s.percentage, cs)
  }

  /** A fresh claim whose first `k` criteria were verified on their own. */
  ghost function FreshUpTo(t: Terms, s: ClaimState, k: nat, vs: Verdicts): ClaimState
    requires k <= |s.criteria| <= |vs|
  {
    ClaimState(Start(t, s).status, s.percentage, FreshCriteria(t, s, vs)[..k] + s.criteria[k..])
  }

  lemma FreshStep(t: Terms, s: ClaimState, k: nat, vs: Verdicts)
    requires k < |s.criteria| <= |vs| && Fresh(s)
    ensures
      var next := FreshUpTo(t, s, k + 1, vs);
      VerifyCriterion(FreshUpTo(t, s, k, vs), k, vs) ==
        if s.criteria[k].kind.System? then CheckAndApprove(next) else next
  {
    var before, c, verified := FreshUpTo(t, s, k, vs), s.criteria[k], FreshCriteria(t, s, vs);
    assert before.criteria[k] == c;
    assert before.criteria[k := verified[k]] == verified[..k + 1] + s.criteria[k + 1..];
    if c.kind.Manual? && !t.automatic {
      assert verified[k] == c;
      assert before.criteria[k := c] == before.criteria;
    }
  }

  lemma FreshStart(t: Terms, s: ClaimState, vs: Verdicts)
    requires |s.criteria| <= |vs|
    ensures FreshUpTo(t, s, 0, vs) == Start(t, s)
  {
    assert s.criteria[0..] == s.criteria;
    assert FreshCriteria(t, s, vs)[..0] == [];
  }

  lemma FreshEnd(t: Terms, s: ClaimState, vs: Verdicts)
    requires |s.criteria| <= |vs|
    ensures
      FreshUpTo(t, s, |s.criteria|, vs) == ClaimState(Start(t, s).status, s.percentage, FreshCriteria(t, s, vs))
  {
    assert s.criteria[|s.criteria|..] == [];
    assert FreshCriteria(t, s, vs)[..|s.criteria|] == FreshCriteria(t, s, vs);
  }

  lemma OneStillWaits(t: Terms, s: ClaimState, k: nat, vs: Verdicts)
    requires 0 < k < |s.criteria| <= |vs| && Fresh(s) && s.criteria[k - 1].kind.System?
    ensures CheckAndApprove(FreshUpTo(t, s, k, vs)) == FreshUpTo(t, s, k, vs)
  {
    var cs := FreshUpTo(t, s, k, vs).criteria;
    assert cs[k - 1] == FreshCriteria(t, s, vs)[k - 1];
    assert cs[k] == s.criteria[k];
    assert cs[k - 1].status != cs[k].status;
  }

  /** While criteria of a fresh claim are still waiting, the mid-way approval check does nothing. */
  lemma {:induction false} WaitingCriteriaHoldBack(t: Terms, s: ClaimState, k: nat, vs: Verdicts)
    requires k < |s.criteria| <= |vs| && Fresh(s)
    ensures VerifyCriteria(Start(t, s), k, vs) == FreshUpTo(t, s, k, vs)
  {
    if k == 0 {
      FreshStart(t, s, vs);
    } else {
      WaitingCriteriaHoldBack(t, s, k - 1, vs);
      FreshStep(t, s, k - 1, vs);
      if s.criteria[k - 1].kind.System? {
        OneStillWaits(t, s, k, vs);
      }
    }
  }

  ghost predicate MayBeChecked(s: ClaimState, r: ClaimState) {
    r == s || r == CheckAndApprove(s)
  }

  /** The last criterion is checked when no other waits. */
  lemma FreshLast(t: Terms, s: ClaimState, k: nat, vs: Verdicts)
    requires k + 1 == |s.criteria| <= |vs| && Fresh(s)
    ensures MayBeChecked(FreshUpTo(t, s, k + 1, vs), VerifyCriteria(Start(t, s), k + 1, vs))
  {
    WaitingCriteriaHoldBack(t, s, k, vs);
    OneMoreVerified(Start(t, s), k, vs);
    FreshStep(t, s, k, vs);
  }

  lemma OneMoreVerified(s: ClaimState, k: nat, vs: Verdicts)
    requires k < |s.criteria| <= |vs|
    ensures VerifyCriteria(s, k + 1, vs) == VerifyCriterion(VerifyCriteria(s, k, vs), k, vs)
  {}

  lemma FreshPass(t: Terms, s: ClaimState, n: nat, vs: Verdicts)
    requires n == |s.criteria| <= |vs| && Fresh(s)
    ensures MayBeChecked(FreshUpTo(t, s, n, vs), VerifyCriteria(Start(t, s), n, vs))
  {
    if n == 0 {
      FreshStart(t, s, vs);
    } else {
      FreshLast(t, s, n - 1, vs);
    }
  }

  /** On a fresh claim that was not inherited, `verify` does what its reference says, although
      it checks for approval after every system criterion. */
  lemma FreshVerify(t: Terms, s: ClaimState, vs: Verdicts, weighted: real)
    requires |s.criteria| <= |vs| && Fresh(s) && !t.inherited
    ensures Verify(t, s, vs, weighted) == FreshOutcome(t, s, vs)
  {
    FreshPass(t, s, |s.criteria|, vs);
    FreshEnd(t, s, vs);
  }

  /** Verifying a fresh claim a second time changes nothing; and criteria that agree on a
      status hand it to the claim, with 100 percent when they approve. */
  lemma FreshVerifyIsIdempotent(t: Terms, s: ClaimState, vs: Verdicts, weighted: real)
    requires |s.criteria| <= |vs| && Fresh(s) && !t.inherited
    ensures
      var after := Verify(t, s, vs, weighted);
      && |after.criteria| <= |vs|
      && Verify(t, after, vs, weighted) == after
      && (Unanimous(after.criteria) ==>
            && after.status == after.criteria[0].status
            && (after.status.Approved? ==> after.percentage == 100.0))
  {
    FreshVerify(t, s, vs, weighted);
    VerifySettles(t, s, vs, weighted);
    VerifyIdempotentExactly(t, s, vs, weighted);
  }

  // ----- inheriting -----

  /** The status shared by the source batches' claims, or partial. */
  function CommonStatus(sources: seq<Status>): Status {
    if |sources| > 0 && forall i :: 0 <= i < |sources| ==> sources[i] == sources[0] then sources[0]
    else Partial
  }

  /** The status side of `inherit_data`: verify every criterion, then take the common status. */
  function InheritStatus(s: ClaimState, vs: Verdicts, sources: seq<Status>): ClaimState
    requires |s.criteria| <= |vs|
  {
    VerifyCriteria(s, |s.criteria|, vs).(status := CommonStatus(sources))
  }

  // A new claim that is inherited first takes over the data of its sources and is verified then.

  /** The system criteria stand where their verdicts do. */
  ghost predicate AllJudged(z: ClaimState, vs: Verdicts)
    requires |z.criteria| <= |vs|
  {
    forall j :: 0 <= j < |z.criteria| && z.criteria[j].kind.System? ==> z.criteria[j] == Judged(z.criteria[j], vs[j])
  }

  /** Criteria that agree overrule the claim, once one of the first `k` is a system criterion; but
      not a decision of the claim against them that a manual criterion in front takes over. */
  predicate Overruled(z: ClaimState, k: nat)
    requires k <= |z.criteria|
  {
    && HasSystem(z.criteria, k) && Unanimous(z.criteria)
    && (Decided(z.status) && z.status != z.criteria[0].status ==> z.criteria[0].kind.System?)
  }

  /** A manual criterion does what a decided claim does. */
  function Following(c: Criterion, status: Status): Criterion {
    if c.kind.Manual? && Decided(status) then WithStatus(c, status) else c
  }

  ghost predicate Followed(cs: seq<Criterion>, z: ClaimState, k: nat) {
    && |cs| == |z.criteria|
    && forall j :: 0 <= j < |cs| ==> cs[j] == if j < k then Following(z.criteria[j], z.status) else z.criteria[j]
  }

  /** The state of a pass from judged criteria. */
  ghost predicate JudgedUpTo(r: ClaimState, z: ClaimState, k: nat)
    requires k <= |z.criteria|
  {
    && r.status == (if Overruled(z, k) then z.criteria[0].status else z.status)
    && if Overruled(z, k) then r.criteria == z.criteria else Followed(r.criteria, z, k)
  }

  lemma NothingToFollow(cs: seq<Criterion>, z: ClaimState, k: nat)
    requires k <= |z.criteria| && Followed(cs, z, k)
    requires (forall j :: 0 <= j < k ==> z.criteria[j].kind.System?)
             || !Decided(z.status)
             || (Unanimous(z.criteria) && z.criteria[0].status == z.status)
    ensures cs == z.criteria
  {}

  lemma JudgedSystemStep(r: ClaimState, z: ClaimState, k: nat, vs: Verdicts)
    requires k < |z.criteria| <= |vs| && AllJudged(z, vs) && JudgedUpTo(r, z, k) && z.criteria[k].kind.System?
    requires |r.criteria| == |z.criteria|
    ensures JudgedUpTo(VerifyCriterion(r, k, vs), z, k + 1)
  {
    assert HasSystem(z.criteria, k + 1);
    assert r.criteria[k] == z.criteria[k] == Judged(r.criteria[k], vs[k]);
    assert r.criteria[k := Judged(r.criteria[k], vs[k])] == r.criteria;
    assert VerifyCriterion(r, k, vs) == CheckAndApprove(r);
    if !Overruled(z, k) {
      if forall j :: 0 <= j < k ==> z.criteria[j].kind.System? {
        NothingToFollow(r.criteria, z, k);
      } else if !Decided(z.status) || (Unanimous(z.criteria) && z.criteria[0].status == z.status) {
        NothingToFollow(r.criteria, z, k);
      } else {
        var j :| 0 <= j < k && z.criteria[j].kind.Manual?;
        assert r.criteria[j].status == z.status;
        SystemInFront(z, k);
        assert !Overruled(z, k + 1);
        assert Unanimous(r.criteria) ==> r.criteria[0].status == z.status;
        assert Followed(r.criteria, z, k + 1);
      }
    }
  }

  /** A system criterion in front overrules at once. */
  lemma SystemInFront(z: ClaimState, k: nat)
    requires 0 < k <= |z.criteria|
    ensures Unanimous(z.criteria) && z.criteria[0].kind.System? ==> Overruled(z, k)
  {
    assert z.criteria[0].kind.System? ==> HasSystem(z.criteria, k);
  }

  lemma JudgedManualStep(r: ClaimState, z: ClaimState, k: nat, vs: Verdicts)
    requires k < |z.criteria| <= |vs| && AllJudged(z, vs) && JudgedUpTo(r, z, k) && z.criteria[k].kind.Manual?
    requires |r.criteria| == |z.criteria|
    ensures JudgedUpTo(VerifyCriterion(r, k, vs), z, k + 1)
  {
    assert HasSystem(z.criteria, k + 1) <==> HasSystem(z.criteria, k);
    assert r.criteria[k] == z.criteria[k];
    if Overruled(z, k) {
      assert WithStatus(z.criteria[k], r.status) == z.criteria[k];
    }
  }

  /** A pass over criteria that stand where their verdicts do. */
  lemma {:induction false} JudgedPass(z: ClaimState, k: nat, vs: Verdicts)
    requires k <= |z.criteria| <= |vs| && AllJudged(z, vs)
    ensures JudgedUpTo(VerifyCriteria(z, k, vs), z, k)
  {
    if k > 0 {
      var r := VerifyCriteria(z, k - 1, vs);
      JudgedPass(z, k - 1, vs);
      if z.criteria[k - 1].kind.System? {
        JudgedSystemStep(r, z, k - 1, vs);
      } else {
        JudgedManualStep(r, z, k - 1, vs);
      }
    }
  }

  /** Taking over the data and verifying, from any state: the percentage is the weighted one in
      any case; the status is the sources' common one exactly when neither agreeing criteria nor
      the claim's being verified automatically makes it a different one. */
  lemma InheritThenVerifyExactly(t: Terms, s: ClaimState, vs: Verdicts, weighted: real, sources: seq<Status>)
    requires |s.criteria| <= |vs| && t.inherited
    ensures
      var u := InheritStatus(s, vs, sources);
      var begin, after := Start(t, u), Verify(t, u, vs, weighted);
      var common := CommonStatus(sources);
      && |u.criteria| == |s.criteria|
      && after.percentage == weighted
      && (after.status == common <==>
          if Overruled(begin, |u.criteria|) then u.criteria[0].status == common
          else t.automatic ==> common.Approved?)
  {
    PassSettles(s, |s.criteria|, vs);
    var u := InheritStatus(s, vs, sources);
    JudgedPass(Start(t, u), |u.criteria|, vs);
  }

  /** The verdicts on the first `n` criteria agree, and there is one. */
  predicate VerdictsAgree(vs: Verdicts, n: nat)
    requires n <= |vs|
  {
    n > 0 && forall j :: 0 <= j < n ==> vs[j].passed == vs[0].passed
  }

  /** What a claim just attached ends up with: only system criteria that agree decide it;
      otherwise it is approved if it is verified automatically, and else has the status its
      sources have in common. */
  lemma FreshInheritThenVerify(t: Terms, s: ClaimState, vs: Verdicts, weighted: real, sources: seq<Status>)
    requires |s.criteria| <= |vs| && t.inherited && Fresh(s)
    ensures
      var after := Verify(t, InheritStatus(s, vs, sources), vs, weighted);
      && after.percentage == weighted
      && after.status ==
           if (forall j :: 0 <= j < |s.criteria| ==> s.criteria[j].kind.System?) && VerdictsAgree(vs, |s.criteria|) then
             (if vs[0].passed then Approved else Rejected)
           else if t.automatic then Approved
           else CommonStatus(sources)
  {
    var n, u := |s.criteria|, InheritStatus(s, vs, sources);
    FreshPass(Terms(false, true), s, n, vs);
    FreshEnd(Terms(false, true), s, vs);
    assert u.criteria == FreshCriteria(Terms(false, true), s, vs);
    PassSettles(s, n, vs);
    JudgedPass(Start(t, u), n, vs);
    FreshOverruled(s, u, Start(t, u), vs);
  }

  lemma FreshOverruled(s: ClaimState, u: ClaimState, z: ClaimState, vs: Verdicts)
    requires |s.criteria| <= |vs| && u.criteria == z.criteria == FreshCriteria(Terms(false, true), s, vs) && Fresh(s)
    ensures Overruled(z, |z.criteria|) <==>
            (forall j :: 0 <= j < |s.criteria| ==> s.criteria[j].kind.System?) && VerdictsAgree(vs, |s.criteria|)
    ensures Overruled(z, |z.criteria|) ==> z.criteria[0].status == if vs[0].passed then Approved else Rejected
  {
    var cs := z.criteria;
    assert forall j :: 0 <= j < |cs| ==> cs[j].kind == s.criteria[j].kind;
    assert JustVerified(cs, vs);
    AgreeingCriteria(cs, vs);
  }

  /** System criteria with the status of their verdicts, manual ones still pending. */
  ghost predicate JustVerified(cs: seq<Criterion>, vs: Verdicts)
    requires |cs| <= |vs|
  {
    forall j :: 0 <= j < |cs| ==>
      cs[j].status == if cs[j].kind.Manual? then Pending else if vs[j].passed then Approved else Rejected
  }

  lemma AgreeingCriteria(cs: seq<Criterion>, vs: Verdicts)
    requires |cs| <= |vs| && JustVerified(cs, vs)
    ensures HasSystem(cs, |cs|) && Unanimous(cs) <==>
            (forall j :: 0 <= j < |cs| ==> cs[j].kind.System?) && VerdictsAgree(vs, |cs|)
  {
    if HasSystem(cs, |cs|) && Unanimous(cs) {
      var j :| 0 <= j < |cs| && cs[j].kind.System?;
      assert cs[j].status == cs[0].status;
      forall i | 0 <= i < |cs| ensures cs[i].kind.System? && vs[i].passed == vs[0].passed {
        assert cs[i].status == cs[0].status;
      }
    }
    if (forall j :: 0 <= j < |cs| ==> cs[j].kind.System?) && VerdictsAgree(vs, |cs|) {
      assert cs[0].kind.System?;
    }
  }

  // A claim copied along with its percentage, as new batches of internal transactions get it, takes
  // over the data of its sources but is not verified.

  /** Verifying the i-th criterion finds all criteria approved: the system criteria so far pass,
      the others follow an approval or were approved and still are, the later ones were approved. */
  ghost predicate ApprovedAt(s: ClaimState, i: nat, vs: Verdicts)
    requires i < |s.criteria| <= |vs|
  {
    && s.criteria[i].kind.System?
    && (forall j :: 0 <= j <= i && s.criteria[j].kind.System? ==> vs[j].passed)
    && (forall j :: 0 <= j < i && s.criteria[j].kind.Manual? ==> Following(s.criteria[j], s.status).status.Approved?)
    && (forall j :: i < j < |s.criteria| ==> s.criteria[j].status.Approved?)
  }

  ghost predicate ApprovedBefore(s: ClaimState, k: nat, vs: Verdicts)
    requires k <= |s.criteria| <= |vs|
  {
    exists i :: 0 <= i < k && ApprovedAt(s, i, vs)
  }

  ghost predicate FailedBefore(s: ClaimState, k: nat, vs: Verdicts)
    requires k <= |s.criteria| <= |vs|
  {
    exists i :: 0 <= i < k && s.criteria[i].kind.System? && !vs[i].passed
  }

  /** A criterion as it stands when the first `k` have been verified without a failure. */
  function Verified(s: ClaimState, j: nat, k: nat, vs: Verdicts): Criterion
    requires j < |s.criteria| <= |vs|
  {
    if j >= k then s.criteria[j]
    else if s.criteria[j].kind.System? then Judged(s.criteria[j], vs[j])
    else Following(s.criteria[j], s.status)
  }

  /** The state of a pass: the percentage tells whether all criteria were found approved; if not,
      a verdict has failed or the status of the claim has not changed. */
  ghost predicate PassedUpTo(r: ClaimState, s: ClaimState, k: nat, vs: Verdicts)
    requires k <= |s.criteria| <= |vs|
  {
    && r.percentage == (if ApprovedBefore(s, k, vs) then 100.0 else s.percentage)
    && (ApprovedBefore(s, k, vs) || FailedBefore(s, k, vs) || Unhurt(r, s, k, vs))
  }

  ghost predicate Unhurt(r: ClaimState, s: ClaimState, k: nat, vs: Verdicts)
    requires k <= |s.criteria| <= |vs|
  {
    && r.status == s.status && |r.criteria| == |s.criteria|
    && forall j :: 0 <= j < |r.criteria| ==> r.criteria[j] == Verified(s, j, k, vs)
  }

  lemma PassedMore(s: ClaimState, k: nat, vs: Verdicts)
    requires k < |s.criteria| <= |vs|
    ensures ApprovedBefore(s, k + 1, vs) <==> ApprovedBefore(s, k, vs) || ApprovedAt(s, k, vs)
    ensures FailedBefore(s, k + 1, vs) <==>
            FailedBefore(s, k, vs) || (s.criteria[k].kind.System? && !vs[k].passed)
  {
    assert ApprovedBefore(s, k, vs) ==> ApprovedBefore(s, k + 1, vs) by {
      if ApprovedBefore(s, k, vs) {
        var i :| 0 <= i < k && ApprovedAt(s, i, vs);
        assert 0 <= i < k + 1;
      }
    }
  }

  /** A verdict that failed keeps all criteria from being approved. */
  lemma FailureBlocks(r: ClaimState, s: ClaimState, k: nat, vs: Verdicts)
    requires k <= |s.criteria| <= |vs| && SameKinds(r, s) && FailedBefore(s, k, vs) && Settled(r, k, vs)
    ensures !(Unanimous(r.criteria) && r.criteria[0].status.Approved?)
  {
    var i :| 0 <= i < k && s.criteria[i].kind.System? && !vs[i].passed;
    assert r.criteria[i].status.Rejected?;
  }

  lemma UnhurtSystemStep(r: ClaimState, s: ClaimState, k: nat, vs: Verdicts)
    requires k < |s.criteria| <= |vs| && Unhurt(r, s, k, vs) && !FailedBefore(s, k, vs)
    requires s.criteria[k].kind.System? && vs[k].passed
    ensures
      var after := VerifyCriterion(r, k, vs);
      if ApprovedAt(s, k, vs) then after.percentage == 100.0
      else after.percentage == r.percentage && Unhurt(after, s, k + 1, vs)
  {
    var judged := r.(criteria := r.criteria[k := Judged(r.criteria[k], vs[k])]);
    assert VerifyCriterion(r, k, vs) == CheckAndApprove(judged);
    assert forall j :: 0 <= j < |s.criteria| ==> judged.criteria[j] == Verified(s, j, k + 1, vs);
    assert judged.criteria[k].status.Approved?;
    AllApproved(judged.criteria, s, k, vs);
  }

  lemma AllApproved(cs: seq<Criterion>, s: ClaimState, k: nat, vs: Verdicts)
    requires k < |s.criteria| == |cs| <= |vs| && !FailedBefore(s, k, vs) && s.criteria[k].kind.System? && vs[k].passed
    requires forall j :: 0 <= j < |cs| ==> cs[j] == Verified(s, j, k + 1, vs)
    ensures Unanimous(cs) <==> ApprovedAt(s, k, vs)
    ensures Unanimous(cs) ==> cs[0].status.Approved?
  {
    assert cs[k].status.Approved?;
    forall j | 0 <= j < |cs|
      ensures cs[j].status.Approved? <==>
              if j > k then s.criteria[j].status.Approved?
              else s.criteria[j].kind.System? || Following(s.criteria[j], s.status).status.Approved?
    {
      assert cs[j] == Verified(s, j, k + 1, vs);
      assert j < k && s.criteria[j].kind.System? ==> vs[j].passed;
    }
    if Unanimous(cs) {
      assert forall j :: 0 <= j < |cs| ==> cs[j].status == cs[0].status == cs[k].status;
      assert forall j :: 0 <= j < k && s.criteria[j].kind.Manual? ==> cs[j].status.Approved?;
      assert forall j :: k < j < |cs| ==> cs[j].status.Approved?;
    }
    assert Unanimous(cs) <==> forall j :: 0 <= j < |cs| ==> cs[j].status.Approved?;
  }

  lemma UnhurtManualStep(r: ClaimState, s: ClaimState, k: nat, vs: Verdicts)
    requires k < |s.criteria| <= |vs| && Unhurt(r, s, k, vs) && s.criteria[k].kind.Manual?
    ensures Unhurt(VerifyCriterion(r, k, vs), s, k + 1, vs)
  {
    assert r.criteria[k] == s.criteria[k];
  }

  lemma PercentageKept(r: ClaimState, k: nat, vs: Verdicts)
    requires k < |r.criteria| <= |vs|
    ensures
      var after := VerifyCriterion(r, k, vs);
      && |after.criteria| == |r.criteria|
      && (r.percentage == 100.0 ==> after.percentage == 100.0)
      && (r.criteria[k].kind.Manual? ==> after.percentage == r.percentage)
      && (!(Unanimous(after.criteria) && after.criteria[0].status.Approved?) ==> after.percentage == r.percentage)
  {}

  ghost predicate SameKinds(r: ClaimState, s: ClaimState) {
    |r.criteria| == |s.criteria| && forall j :: 0 <= j < |s.criteria| ==> r.criteria[j].kind == s.criteria[j].kind
  }

  lemma PercentageStep(r: ClaimState, after: ClaimState, s: ClaimState, k: nat, vs: Verdicts)
    requires k < |s.criteria| <= |vs| && SameKinds(r, s) && SameKinds(after, s)
    requires PassedUpTo(r, s, k, vs) && Settled(after, k + 1, vs)
    requires after == VerifyCriterion(r, k, vs)
    ensures PassedUpTo(after, s, k + 1, vs)
  {
    PassedMore(s, k, vs);
    PercentageKept(r, k, vs);
    if ApprovedBefore(s, k, vs) {
    } else if s.criteria[k].kind.Manual? {
      if Unhurt(r, s, k, vs) {
        UnhurtManualStep(r, s, k, vs);
      }
    } else if FailedBefore(s, k + 1, vs) {
      FailureBlocks(after, s, k + 1, vs);
      FailedVerdict(s, k, vs);
    } else {
      UnhurtSystemStep(r, s, k, vs);
    }
  }

  lemma FailedVerdict(s: ClaimState, k: nat, vs: Verdicts)
    requires k < |s.criteria| <= |vs| && FailedBefore(s, k + 1, vs)
    ensures !ApprovedAt(s, k, vs)
  {
    var i :| 0 <= i < k + 1 && s.criteria[i].kind.System? && !vs[i].passed;
  }

  lemma {:induction false} PercentageAlong(states: seq<ClaimState>, s: ClaimState, k: nat, vs: Verdicts)
    requires k < |states| && |s.criteria| <= |vs| && IsPass(states, s, vs)
    ensures PassedUpTo(states[k], s, k, vs)
  {
    if k > 0 {
      PercentageAlong(states, s, k - 1, vs);
      assert IsStep(states[k - 1], states[k - 1 + 1], s, k - 1, vs);
      PercentageStep(states[k - 1], states[k], s, k - 1, vs);
    }
  }

  lemma PercentageOfPass(s: ClaimState, vs: Verdicts)
    requires |s.criteria| <= |vs|
    ensures PassedUpTo(VerifyCriteria(s, |s.criteria|, vs), s, |s.criteria|, vs)
  {
    var states := StatesOfPass(s, |s.criteria|, vs);
    PercentageAlong(states, s, |s.criteria|, vs);
  }

  /** From any state, `inherit_data` leaves the percentage as it is, unless verifying some system
      criterion finds all criteria approved: then it is 100. */
  lemma InheritedPercentageExactly(s: ClaimState, vs: Verdicts, sources: seq<Status>)
    requires |s.criteria| <= |vs|
    ensures InheritStatus(s, vs, sources).percentage ==
              if exists i :: 0 <= i < |s.criteria| && ApprovedAt(s, i, vs) then 100.0 else s.percentage
  {
    PercentageOfPass(s, vs);
  }

  /** A system criterion that passes with all before it, ahead of none but approved criteria. */
  ghost predicate PassesAhead(s: ClaimState, i: nat, vs: Verdicts)
    requires i < |s.criteria| <= |vs|
  {
    && s.criteria[i].kind.System?
    && (forall j :: 0 <= j <= i && s.criteria[j].kind.System? ==> vs[j].passed)
    && (forall j :: i < j < |s.criteria| ==> s.criteria[j].status.Approved?)
  }

  /** A claim copied as approved loses a partial percentage to 100 exactly when the system criteria
      pass up to one that only approved criteria follow. */
  lemma CopiedPercentageExactly(s: ClaimState, vs: Verdicts, sources: seq<Status>)
    requires |s.criteria| <= |vs| && s.status.Approved? && s.percentage != 100.0
    ensures InheritStatus(s, vs, sources).percentage != s.percentage <==>
            exists i :: 0 <= i < |s.criteria| && PassesAhead(s, i, vs)
    ensures InheritStatus(s, vs, sources).percentage in {s.percentage, 100.0}
  {
    InheritedPercentageExactly(s, vs, sources);
    forall i | 0 <= i < |s.criteria| ensures ApprovedAt(s, i, vs) <==> PassesAhead(s, i, vs) {}
  }

  /** From a source that is 60 percent verified, a claim on farmers' batches becomes 100 percent. */
  lemma CopiedPercentageCanJump()
    ensures
      var c := Criterion(1, 1, System(FarmerClaim), Approved, [], []);
      var v := Verdict(true, [], [(0.0, 0.0)]);
      InheritStatus(ClaimState(Approved, 60.0, [c]), [v], [Approved]).percentage == 100.0
  {
    var s := ClaimState(Approved, 60.0, [Criterion(1, 1, System(FarmerClaim), Approved, [], [])]);
    var vs := [Verdict(true, [], [(0.0, 0.0)])];
    assert ApprovedAt(s, 0, vs);
    InheritedPercentageExactly(s, vs, [Approved]);
  }
}
