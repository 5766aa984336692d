/** Versions of claims: `create_new_version` copies a claim, its criteria and their fields.
    A table is the sequence of its rows in order of creation; a key is a position in it. */
module ClaimVersions {

  import opened Basics

  type Id = nat

  /** The token shared by the versions of a claim or criterion. */
  type Reference = nat

  /** The columns that are copied as they are. */
  type Body = nat

  datatype Claim = Claim(
    reference: Reference, version: nat, active: bool, latest: bool, body: Body,
    owners: set<Id>, supplyChains: set<Id>, verifiers: set<Id>)

  datatype Criterion = Criterion(claim: Id, reference: Reference, version: nat, body: Body)

  datatype Field = Field(criterion: Id, body: Body)

  type Claims = seq<Claim>
  type Criteria = seq<Criterion>
  type Fields = seq<Field>

  // ----- what a call promises -----

  /** One more than the greatest version of the claim's reference. */
  ghost predicate IsNextVersion(claims: Claims, self: Id, v: nat)
    requires self < |claims|
  {
    && (forall c :: 0 <= c < |claims| && claims[c].reference == claims[self].reference ==> claims[c].version < v)
    && (exists c :: 0 <= c < |claims| && claims[c].reference == claims[self].reference && claims[c].version == v - 1)
  }

  /** The copy takes over every column, but not the many-to-many relations. */
  function CopyOf(c: Claim, version: nat): Claim {
    c.(version := version, owners := {}, supplyChains := {}, verifiers := {})
  }

  function Retired(c: Claim): Claim {
    c.(active := false, latest := false)
  }

  function CriterionCopy(c: Criterion, claim: Id, version: nat): Criterion {
    c.(claim := claim, version := version)
  }

  function FieldCopy(f: Field, criterion: Id): Field {
    f.(criterion := criterion)
  }

  /** The call on claim `self`: a copy with the next version appears, and `self` is retired. */
  ghost predicate ClaimsStep(before: Claims, after: Claims, self: Id) {
    && self < |before| && |after| == |before| + 1
    && after[|before|] == CopyOf(before[self], after[|before|].version)
    && IsNextVersion(before, self, after[|before|].version)
    && after[self] == Retired(before[self])
    && forall c :: 0 <= c < |before| && c != self ==> after[c] == before[c]
  }

  /** New criteria, `origin` naming what each was copied from: one for every criterion in `done`,
      under the given claim, with a version above all earlier ones of its reference.  Rows that
      were there stay as they were. */
  ghost predicate CriteriaCopied(before: Criteria, after: Criteria, origin: seq<Id>, done: set<Id>, claim: Id) {
    && before <= after && |after| == |before| + |origin|
    && OnceEach(origin, done, |before|)
    && (forall k :: |before| <= k < |after| ==>
          after[k] == CriterionCopy(before[origin[k - |before|]], claim, after[k].version))
    && (forall i, j :: 0 <= i < j < |after| && j >= |before| && after[i].reference == after[j].reference
          ==> after[i].version < after[j].version)
  }

  /** New fields: one copy of every field in `done`, each under the copy of its criterion. */
  ghost predicate FieldsCopied(before: Fields, after: Fields, origin: seq<Id>, done: set<Id>,
                               criteria: nat, criterionOrigin: seq<Id>) {
    && before <= after && |after| == |before| + |origin|
    && OnceEach(origin, done, |before|)
    && forall k :: |before| <= k < |after| ==>
         var f := before[origin[k - |before|]];
         && criteria <= after[k].criterion < criteria + |criterionOrigin|
         && criterionOrigin[after[k].criterion - criteria] == f.criterion
         && after[k] == FieldCopy(f, after[k].criterion)
  }

  /** `origin` lists the elements of `done`, all below `bound`, once each. */
  ghost predicate OnceEach(origin: seq<Id>, done: set<Id>, bound: nat) {
    && (forall i :: 0 <= i < |origin| ==> origin[i] in done)
    && (forall i, j :: 0 <= i < j < |origin| ==> origin[i] != origin[j])
    && (forall c :: c in done ==> c in origin && c < bound)
  }

  // ----- what calls keep -----

  ghost predicate VersionsDistinct(claims: Claims) {
    forall c, d :: 0 <= c < d < |claims| && claims[c].reference == claims[d].reference
                   ==> claims[c].version != claims[d].version
  }

  /** Every reference has exactly one latest claim. */
  ghost predicate OneLatest(claims: Claims) {
    && (forall c :: 0 <= c < |claims| ==> HasLatest(claims, claims[c].reference))
    && (forall c, d :: 0 <= c < |claims| && 0 <= d < |claims| && claims[c].latest && claims[d].latest && c != d
                       ==> claims[c].reference != claims[d].reference)
  }

  ghost predicate IsLatest(claims: Claims, c: int, r: Reference) {
    0 <= c < |claims| && claims[c].latest && claims[c].reference == r
  }

  ghost predicate HasLatest(claims: Claims, r: Reference) {
    exists c :: IsLatest(claims, c, r)
  }

  ghost predicate LatestIsGreatest(claims: Claims, r: Reference) {
    forall c, d :: IsLatest(claims, c, r) && 0 <= d < |claims| && claims[d].reference == r
                   ==> claims[d].version <= claims[c].version
  }

  // ----- what the copy loses -----

  predicate Unrelated(c: Claim) {
    c.owners == {} && c.supplyChains == {} && c.verifiers == {}
  }

  /** The new claim has the details of the old one, relations included, exactly when the old one
      had no owners, supply chains and verifiers. */
  lemma CopyHasSameDetailsExactly(before: Claims, after: Claims, self: Id)
    requires ClaimsStep(before, after, self)
    ensures
      var copy := after[|before|];
      && copy == before[self].(version := copy.version, owners := {}, supplyChains := {}, verifiers := {})
      && (copy == before[self].(version := copy.version) <==> Unrelated(before[self]))
  {
    var copy, was := after[|before|], before[self];
    var same := was.(version := copy.version);
    assert same.owners == was.owners && same.supplyChains == was.supplyChains && same.verifiers == was.verifiers;
    assert copy.owners == copy.supplyChains == copy.verifiers == {};
  }

  /** A claim preset to be verified by claim verifier 7 gets a new version that has none. */
  lemma CopyCanLoseVerifiers()
    ensures exists before: Claims, after: Claims ::
      && ClaimsStep(before, after, 0)
      && before[0].verifiers == {7} && after[1].verifiers == {}
  {
    var c := Claim(0, 1, true, true, 0, {}, {}, {7});
    var before, after := [c], [Retired(c), CopyOf(c, 2)];
    assert before[0].version == 2 - 1;
    assert IsNextVersion(before, 0, 2);
    assert ClaimsStep(before, after, 0) && before[0].verifiers == {7} && after[1].verifiers == {};
  }

  // ----- what a run keeps -----

  lemma StepKeepsVersionsDistinct(before: Claims, after: Claims, self: Id)
    requires ClaimsStep(before, after, self) && VersionsDistinct(before)
    ensures VersionsDistinct(after)
  {}

  lemma StepKeepsOneLatest(before: Claims, after: Claims, self: Id)
    requires ClaimsStep(before, after, self) && OneLatest(before)
    ensures OneLatest(after)
  {
    forall c | 0 <= c < |after| ensures HasLatest(after, after[c].reference) {
      var r := before[if c == |before| then self else c].reference;
      assert HasLatest(before, r);
      var d :| IsLatest(before, d, r);
      assert IsLatest(after, if d == self then |before| else d, r);
    }
  }

  /** The latest claim carries the greatest version after a call exactly when the call was made
      on the latest claim: called on an older one, the copy outgrows the one that stays latest. */
  lemma StepKeepsLatestGreatestExactly(before: Claims, after: Claims, self: Id)
    requires ClaimsStep(before, after, self) && OneLatest(before)
    requires LatestIsGreatest(before, before[self].reference)
    ensures LatestIsGreatest(after, before[self].reference) <==> before[self].latest
  {
    var r := before[self].reference;
    if before[self].latest {
      forall c | IsLatest(after, c, r) ensures c == |before| {
        assert c != |before| ==> IsLatest(before, c, r);
      }
    } else {
      assert HasLatest(before, r);
      var d :| IsLatest(before, d, r);
      assert IsLatest(after, d, r) && after[d].version < after[|before|].version;
    }
  }

  /** A new version of version 1, while 2 is the latest, is 3; but 2 stays the latest. */
  lemma LatestCanBeOutgrown()
    ensures exists before: Claims, after: Claims ::
      && ClaimsStep(before, after, 0) && OneLatest(before) && LatestIsGreatest(before, 0)
      && !LatestIsGreatest(after, 0)
  {
    var old1 := Claim(0, 1, false, false, 0, {}, {}, {});
    var old2 := Claim(0, 2, true, true, 0, {}, {}, {});
    var before, after := [old1, old2], [Retired(old1), old2, CopyOf(old1, 3)];
    assert before[1].version == 3 - 1;
    assert IsNextVersion(before, 0, 3);
    assert ClaimsStep(before, after, 0);
    assert IsLatest(before, 1, 0);
    StepKeepsLatestGreatestExactly(before, after, 0);
  }

  /** A run: the call on claim `calls[i]` leads from `states[i]` to `states[i + 1]`. */
  ghost predicate IsRun(states: seq<Claims>, calls: seq<Id>) {
    && |states| == |calls| + 1
    && forall i :: 0 <= i < |calls| ==> ClaimsStep(states[i], states[i + 1], calls[i])
  }

  /** Whatever claims `create_new_version` is called on, versions stay distinct and one claim of
      each reference stays latest. */
  lemma {:induction false} RunsKeepVersions(states: seq<Claims>, calls: seq<Id>, n: nat)
    requires IsRun(states, calls) && n < |states|
    requires VersionsDistinct(states[0]) && OneLatest(states[0])
    ensures VersionsDistinct(states[n]) && OneLatest(states[n])
  {
    if n > 0 {
      RunsKeepVersions(states, calls, n - 1);
      assert ClaimsStep(states[n - 1], states[n - 1 + 1], calls[n - 1]);
      StepKeepsVersionsDistinct(states[n - 1], states[n], calls[n - 1]);
      StepKeepsOneLatest(states[n - 1], states[n], calls[n - 1]);
    }
  }

  /** If it is always called on the latest claim, that one has the greatest version throughout. */
  lemma {:induction false} RunsOnLatestKeepItGreatest(states: seq<Claims>, calls: seq<Id>, n: nat, r: Reference)
    requires IsRun(states, calls) && n < |states|
    requires VersionsDistinct(states[0]) && OneLatest(states[0]) && LatestIsGreatest(states[0], r)
    requires forall i :: 0 <= i < |calls| ==> calls[i] < |states[i]| && states[i][calls[i]].latest
    ensures LatestIsGreatest(states[n], r)
  {
    if n > 0 {
      RunsOnLatestKeepItGreatest(states, calls, n - 1, r);
      RunsKeepVersions(states, calls, n - 1);
      var before, after, self := states[n - 1], states[n - 1 + 1], calls[n - 1];
      assert ClaimsStep(before, after, self);
      if before[self].reference == r {
        StepKeepsLatestGreatestExactly(before, after, self);
      } else {
        OtherReferencesStay(before, after, self, r);
      }
    }
  }

  lemma OtherReferencesStay(before: Claims, after: Claims, self: Id, r: Reference)
    requires ClaimsStep(before, after, self) && LatestIsGreatest(before, r)
    requires r != before[self].reference
    ensures LatestIsGreatest(after, r)
  {
    forall c | IsLatest(after, c, r) ensures IsLatest(before, c, r) {}
  }

  // ----- which claims are active -----

  function ActiveOf(claims: Claims, r: Reference): set<Id> {
    set c | 0 <= c < |claims| && claims[c].reference == r && claims[c].active
  }

  /** A call hands the old claim's being active on to the copy, and the old claim is not active any
      more; so each reference keeps its number of active claims. */
  lemma StepHandsOnActive(before: Claims, after: Claims, self: Id, r: Reference)
    requires ClaimsStep(before, after, self)
    ensures !after[self].active && !after[self].latest
    ensures after[|before|].active == before[self].active && after[|before|].latest == before[self].latest
    ensures |ActiveOf(after, r)| == |ActiveOf(before, r)|
  {
    var was, copy := before[self], after[|before|];
    var others := ActiveOf(before, r) - {self};
    assert copy.active == was.active && copy.reference == was.reference;
    if was.active && was.reference == r {
      assert ActiveOf(before, r) == others + {self};
      assert ActiveOf(after, r) == others + {|before|};
    } else {
      assert ActiveOf(after, r) == ActiveOf(before, r);
    }
  }

  /** Over every run, as many claims of a reference stay active as were to begin with. */
  lemma {:induction false} RunsKeepActive(states: seq<Claims>, calls: seq<Id>, n: nat, r: Reference)
    requires IsRun(states, calls) && n < |states|
    ensures |ActiveOf(states[n], r)| == |ActiveOf(states[0], r)|
  {
    if n > 0 {
      RunsKeepActive(states, calls, n - 1, r);
      assert ClaimsStep(states[n - 1], states[n - 1 + 1], calls[n - 1]);
      StepHandsOnActive(states[n - 1], states[n], calls[n - 1], r);
    }
  }

  // ----- the copy is whole -----

  /** A criterion with the same content under the new claim. */
  ghost predicate SameCriterion(c: Criterion, copy: Criterion, claim: Id) {
    copy.claim == claim && copy.reference == c.reference && copy.body == c.body && copy.version > c.version
  }

  /** The new version has the criteria of the old claim, each with the same content and fields: no
      criterion and no field is left behind, and nothing else is added. */
  lemma NewVersionIsWhole(cs: Criteria, cs': Criteria, origin: seq<Id>, fs: Fields, fs': Fields, fieldOrigin: seq<Id>,
                          self: Id, copy: Id)
    requires CriteriaCopied(cs, cs', origin, CriteriaOf(cs, self), copy)
    requires FieldsCopied(fs, fs', fieldOrigin, FieldsOf(fs, CriteriaOf(cs, self)), |cs|, origin)
    ensures cs <= cs' && |cs'| == |cs| + |origin| && fs <= fs' && |fs'| == |fs| + |fieldOrigin|
    ensures forall i :: 0 <= i < |origin| ==>
              origin[i] < |cs| && cs[origin[i]].claim == self && SameCriterion(cs[origin[i]], cs'[|cs| + i], copy)
    ensures forall c :: 0 <= c < |cs| && cs[c].claim == self ==> c in origin
    ensures forall i :: 0 <= i < |fieldOrigin| ==>
              && fieldOrigin[i] < |fs| && fs'[|fs| + i].body == fs[fieldOrigin[i]].body
              && |cs| <= fs'[|fs| + i].criterion < |cs'|
              && origin[fs'[|fs| + i].criterion - |cs|] == fs[fieldOrigin[i]].criterion
    ensures forall f :: 0 <= f < |fs| && fs[f].criterion in origin ==> f in fieldOrigin
    ensures forall i, j :: 0 <= i < j < |origin| ==> origin[i] != origin[j]
    ensures forall i, j :: 0 <= i < j < |fieldOrigin| ==> fieldOrigin[i] != fieldOrigin[j]
  {
    forall i | 0 <= i < |origin|
      ensures origin[i] < |cs| && cs[origin[i]].claim == self && SameCriterion(cs[origin[i]], cs'[|cs| + i], copy)
    {
      assert origin[i] in CriteriaOf(cs, self);
      var k := |cs| + i;
      assert cs'[k] == CriterionCopy(cs[origin[k - |cs|]], copy, cs'[k].version);
      assert cs'[origin[i]] == cs[origin[i]];
    }
    forall f | 0 <= f < |fs| && fs[f].criterion in origin ensures f in fieldOrigin {
      assert fs[f].criterion in CriteriaOf(cs, self);
      assert f in FieldsOf(fs, CriteriaOf(cs, self));
    }
    forall i | 0 <= i < |fieldOrigin|
      ensures fieldOrigin[i] < |fs| && fs'[|fs| + i].body == fs[fieldOrigin[i]].body
      ensures |cs| <= fs'[|fs| + i].criterion < |cs'|
      ensures origin[fs'[|fs| + i].criterion - |cs|] == fs[fieldOrigin[i]].criterion
    {
      var k := |fs| + i;
      assert fieldOrigin[k - |fs|] == fieldOrigin[i];
    }
  }

  // ----- one row at a time -----

  lemma OnceEachMore(origin: seq<Id>, done: set<Id>, bound: nat, c: Id)
    requires OnceEach(origin, done, bound) && c < bound && c !in done
    ensures OnceEach(origin + [c], done + {c}, bound)
  {}

  lemma AddCriterionCopy(before: Criteria, after: Criteria, origin: seq<Id>, done: set<Id>, claim: Id,
                         c: Id, v: nat)
    requires CriteriaCopied(before, after, origin, done, claim)
    requires c < |before| && c !in done
    requires forall d :: 0 <= d < |after| && after[d].reference == before[c].reference ==> after[d].version < v
    ensures CriteriaCopied(before, after + [CriterionCopy(before[c], claim, v)], origin + [c],
                           done + {c}, claim)
  {
    OnceEachMore(origin, done, |before|, c);
  }

  lemma AddFieldCopy(before: Fields, after: Fields, origin: seq<Id>, done: set<Id>, criteria: nat,
                     criterionOrigin: seq<Id>, f: Id, criterion: Id)
    requires FieldsCopied(before, after, origin, done, criteria, criterionOrigin)
    requires f < |before| && f !in done
    requires criteria <= criterion < criteria + |criterionOrigin|
    requires criterionOrigin[criterion - criteria] == before[f].criterion
    ensures FieldsCopied(before, after + [FieldCopy(before[f], criterion)], origin + [f], done + {f},
                         criteria, criterionOrigin)
  {
    OnceEachMore(origin, done, |before|, f);
  }

  // ----- the tables -----

  function CriteriaOf(criteria: Criteria, claim: Id): set<Id> {
    set c | 0 <= c < |criteria| && criteria[c].claim == claim
  }

  function FieldsOf(fields: Fields, criteria: set<Id>): set<Id> {
    set f | 0 <= f < |fields| && fields[f].criterion in criteria
  }

  class ClaimTables {
    var claims: Claims
    var criteria: Criteria
    var fields: Fields

    ghost predicate Valid()
      reads this
    {
      forall f :: 0 <= f < |fields| ==> fields[f].criterion < |criteria|
    }

    constructor ()
      ensures Valid() && claims == [] && criteria == [] && fields == []
    {
      claims, criteria, fields := [], [], [];
    }

    method CreateNewVersion(self: Id) returns (copy: Id, ghost origin: seq<Id>, ghost fieldOrigin: seq<Id>)
      requires Valid() && self < |claims|
      modifies this
      ensures Valid()
      ensures ClaimsStep(old(claims), claims, self) && copy == |old(claims)|
      ensures CriteriaCopied(old(criteria), criteria, origin, CriteriaOf(old(criteria), self), copy)
      ensures FieldsCopied(old(fields), fields, fieldOrigin,
                           FieldsOf(old(fields), CriteriaOf(old(criteria), self)), |old(criteria)|, origin)
    {
      CopyClaim(self);
      copy := |claims| - 1;
      origin, fieldOrigin := [], [];
      var all := CriteriaOf(criteria, self);
      var todo := all;
      assert all - todo == {} == FieldsOf(fields, all - todo);
      while todo != {}
        invariant todo <= all && Valid()
        invariant ClaimsStep(old(claims), claims, self)
        invariant CriteriaCopied(old(criteria), criteria, origin, all - todo, copy)
        invariant FieldsCopied(old(fields), fields, fieldOrigin, FieldsOf(old(fields), all - todo),
                               |old(criteria)|, origin)
      {
        var c :| c in todo;
        origin, fieldOrigin := CopyCriterion(c, copy, origin, fieldOrigin, old(criteria), old(fields), all - todo);
        assert all - (todo - {c}) == (all - todo) + {c};
        todo := todo - {c};
      }
      assert all - todo == all;
    }

    method CopyClaim(self: Id)
      requires self < |claims|
      modifies this`claims
      ensures ClaimsStep(old(claims), claims, self)
    {
      var versions := set c | 0 <= c < |claims| && claims[c].reference == claims[self].reference :: claims[c].version;
      assert claims[self].version in versions;
      var version := Greatest(versions) + 1;
      forall c | 0 <= c < |claims| && claims[c].reference == claims[self].reference
        ensures claims[c].version < version
      {
        assert claims[c].version in versions;
      }
      assert IsNextVersion(claims, self, version);
      claims := claims[self := Retired(claims[self])] + [CopyOf(claims[self], version)];
    }

    /** One criterion with its fields. */
    method CopyCriterion(c: Id, claim: Id, ghost origin: seq<Id>, ghost fieldOrigin: seq<Id>,
                         ghost criteria0: Criteria, ghost fields0: Fields, ghost done: set<Id>)
      returns (ghost origin': seq<Id>, ghost fieldOrigin': seq<Id>)
      requires Valid() && c < |criteria0| && c !in done
      requires forall f :: 0 <= f < |fields0| ==> fields0[f].criterion < |criteria0|
      requires CriteriaCopied(criteria0, criteria, origin, done, claim)
      requires FieldsCopied(fields0, fields, fieldOrigin, FieldsOf(fields0, done), |criteria0|, origin)
      modifies this`criteria, this`fields
      ensures Valid()
      ensures CriteriaCopied(criteria0, criteria, origin', done + {c}, claim)
      ensures FieldsCopied(fields0, fields, fieldOrigin', FieldsOf(fields0, done + {c}), |criteria0|, origin')
    {
      var versions := set d | 0 <= d < |criteria| && criteria[d].reference == criteria[c].reference
                      :: criteria[d].version;
      assert criteria[c].version in versions;
      var copy, version := |criteria|, Greatest(versions) + 1;
      forall d | 0 <= d < |criteria| && criteria[d].reference == criteria[c].reference
        ensures criteria[d].version < version
      {
        assert criteria[d].version in versions;
      }
      AddCriterionCopy(criteria0, criteria, origin, done, claim, c, version);
      criteria := criteria + [CriterionCopy(criteria[c], claim, version)];
      origin' := origin + [c];
      fieldOrigin' := CopyFields(c, copy, fieldOrigin, fields0, FieldsOf(fields0, done), |criteria0|, origin');
      assert FieldsOf(fields0, done) + FieldsOf(fields0, {c}) == FieldsOf(fields0, done + {c});
    }

    method CopyFields(c: Id, copy: Id, ghost fieldOrigin: seq<Id>, ghost fields0: Fields, ghost done: set<Id>,
                      ghost criteria0: nat, ghost origin: seq<Id>)
      returns (ghost fieldOrigin': seq<Id>)
      requires Valid() && c < criteria0 <= copy < criteria0 + |origin| <= |criteria| && origin[copy - criteria0] == c
      requires FieldsCopied(fields0, fields, fieldOrigin, done, criteria0, origin)
      requires FieldsOf(fields0, {c}) !! done
      modifies this`fields
      ensures Valid()
      ensures FieldsCopied(fields0, fields, fieldOrigin', done + FieldsOf(fields0, {c}), criteria0, origin)
    {
      fieldOrigin' := fieldOrigin;
      var all := FieldsOf(fields, {c});
      assert all == FieldsOf(fields0, {c});
      var todo := all;
      assert done + (all - todo) == done;
      while todo != {}
        invariant todo <= all && Valid()
        invariant FieldsCopied(fields0, fields, fieldOrigin', done + (all - todo), criteria0, origin)
      {
        var f :| f in todo;
        AddFieldCopy(fields0, fields, fieldOrigin', done + (all - todo), criteria0, origin, f, copy);
        fields := fields + [FieldCopy(fields[f], copy)];
        fieldOrigin' := fieldOrigin' + [f];
        assert done + (all - todo) + {f} == done + (all - (todo - {f}));
        todo := todo - {f};
      }
      assert all - todo == all;
    }
  }
}
