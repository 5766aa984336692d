/** The rows of an uploaded sheet: a row adds up what its cells report. */
module ExcelRows {
  import opened Basics
  import opened ExcelCells

  datatype Issues = Issues(total: nat, transactionIssues: nat, farmerIssues: nat)

  /** `issues` is only there when the row has fields. */
  datatype RowCheck = RowCheck(
    checks: seq<Check>, issues: Option<Issues>, status: Status, valid: bool, message: seq<Complaint>)

  datatype RowOutcome = RowRaised | RowChecked(check: RowCheck)

  // ---------------------------------------------------------------- a row as values

  /** A dependent choice names the field it depends on. */
  predicate WellFormed(vs: seq<View>) {
    forall i :: 0 <= i < |vs| && vs[i].kind.DependantChoice? ==> vs[i].kind.selection < |vs|
  }

  /** The selection passed to the i-th field: a field before it has been validated already. */
  function SelectionAt(vs: seq<View>, i: nat, t: Tests): Option<Value>
    requires WellFormed(vs) && i < |vs|
  {
    if !vs[i].kind.DependantChoice? then None
    else
      var j := vs[i].kind.selection;
      Some(if j < i then After(vs[j], t) else vs[j].value)
  }

  predicate AcceptsAt(vs: seq<View>, i: nat, t: Tests)
    requires WellFormed(vs) && i < |vs|
  {
    Accepts(vs[i], SelectionAt(vs, i, t), t)
  }

  predicate RaisesAt(vs: seq<View>, i: nat, t: Tests)
    requires WellFormed(vs) && i < |vs|
  {
    Raises(vs[i], SelectionAt(vs, i, t), t)
  }

  function CheckAt(vs: seq<View>, i: nat, t: Tests): Check
    requires WellFormed(vs) && i < |vs|
  {
    CheckOf(vs[i], SelectionAt(vs, i, t), t)
  }

  /** None of the first n fields raises. */
  predicate Quiet(vs: seq<View>, n: nat, t: Tests)
    requires WellFormed(vs) && n <= |vs|
  {
    forall i :: 0 <= i < n ==> !RaisesAt(vs, i, t)
  }

  function ChecksOf(vs: seq<View>, n: nat, t: Tests): (cs: seq<Check>)
    requires WellFormed(vs) && n <= |vs|
    ensures |cs| == n && forall i :: 0 <= i < n ==> cs[i] == CheckAt(vs, i, t)
  {
    if n == 0 then [] else ChecksOf(vs, n - 1, t) + [CheckAt(vs, n - 1, t)]
  }

  function SumOf(cs: seq<Check>): Issues {
    if cs == [] then Issues(0, 0, 0)
    else
      Plus(SumOf(cs[..|cs| - 1]), cs[|cs| - 1])
  }

  function Plus(s: Issues, c: Check): Issues {
    Issues(s.total + c.total, s.transactionIssues + c.transactionIssues, s.farmerIssues + c.farmerIssues)
  }

  function MessageOf(cs: seq<Check>): seq<Complaint> {
    if cs == [] then [] else MessageOf(cs[..|cs| - 1]) + cs[|cs| - 1].message
  }

  predicate AllValid(cs: seq<Check>) {
    forall i :: 0 <= i < |cs| ==> cs[i].valid
  }

  /** Every status in the order of the checks. */
  predicate Lists(statuses: seq<Status>, cs: seq<Check>) {
    |statuses| == |cs| && forall i :: 0 <= i < |cs| ==> statuses[i] == cs[i].status
  }

  predicate Any(cs: seq<Check>, s: Status) {
    exists i :: 0 <= i < |cs| && cs[i].status == s
  }

  predicate All(cs: seq<Check>, s: Status) {
    forall i :: 0 <= i < |cs| ==> cs[i].status == s
  }

  function RowStatus(cs: seq<Check>): Status {
    if Any(cs, Changed) then Changed
    else if cs != [] && All(cs, New) then New
    else Unchanged
  }

  function RowVerdict(vs: seq<View>, t: Tests): RowOutcome
    requires WellFormed(vs)
  {
    if !Quiet(vs, |vs|, t) then RowRaised
    else
      var cs := ChecksOf(vs, |vs|, t);
      RowChecked(RowCheck(cs, if cs == [] then None else Some(SumOf(cs)), RowStatus(cs), AllValid(cs), MessageOf(cs)))
  }

  // ---------------------------------------------------------------- what the sums mean

  /** The invalid fields among the first n, in or outside the transaction's headings. */
  function InvalidIn(vs: seq<View>, n: nat, inTransaction: bool, t: Tests): set<nat>
    requires WellFormed(vs) && n <= |vs|
  {
    set i: nat | i < n && !AcceptsAt(vs, i, t) && (vs[i].heading in IssueHeadings <==> inTransaction)
  }

  function Invalid(vs: seq<View>, n: nat, t: Tests): set<nat>
    requires WellFormed(vs) && n <= |vs|
  {
    set i: nat | i < n && !AcceptsAt(vs, i, t)
  }

  lemma CheckAtExact(vs: seq<View>, i: nat, t: Tests)
    requires WellFormed(vs) && i < |vs| && !RaisesAt(vs, i, t)
    ensures
      var c := CheckAt(vs, i, t);
      && (c.valid <==> AcceptsAt(vs, i, t)) && (c.valid <==> c.message == [])
      && c.total == (if c.valid then 0 else 1)
      && c.transactionIssues == (if !c.valid && vs[i].heading in IssueHeadings then 1 else 0)
      && c.farmerIssues == (if !c.valid && vs[i].heading !in IssueHeadings then 1 else 0)
  {
    ChecksAreConsistent(vs[i], SelectionAt(vs, i, t), t);
  }

  lemma ChecksGrow(vs: seq<View>, n: nat, t: Tests)
    requires WellFormed(vs) && n < |vs|
    ensures
      var before, c := ChecksOf(vs, n, t), CheckAt(vs, n, t);
      && ChecksOf(vs, n + 1, t) == before + [c]
      && SumOf(before + [c]) == Plus(SumOf(before), c)
      && MessageOf(before + [c]) == MessageOf(before) + c.message
  {
    SumsGrow(ChecksOf(vs, n, t), CheckAt(vs, n, t));
  }

  lemma SumsGrow(cs: seq<Check>, c: Check)
    ensures SumOf(cs + [c]) == Plus(SumOf(cs), c)
    ensures MessageOf(cs + [c]) == MessageOf(cs) + c.message
  {
    assert (cs + [c])[..|cs|] == cs;
  }

  lemma QuietGrows(vs: seq<View>, n: nat, t: Tests)
    requires WellFormed(vs) && n < |vs|
    ensures Quiet(vs, n + 1, t) <==> Quiet(vs, n, t) && !RaisesAt(vs, n, t)
  {
    assert Quiet(vs, n + 1, t) ==> !RaisesAt(vs, n, t);
  }

  lemma InvalidGrows(vs: seq<View>, n: nat, inTransaction: bool, t: Tests)
    requires WellFormed(vs) && n < |vs|
    ensures
      |InvalidIn(vs, n + 1, inTransaction, t)| == |InvalidIn(vs, n, inTransaction, t)|
      + (if !AcceptsAt(vs, n, t) && (vs[n].heading in IssueHeadings <==> inTransaction) then 1 else 0)
  {
    var more := !AcceptsAt(vs, n, t) && (vs[n].heading in IssueHeadings <==> inTransaction);
    assert InvalidIn(vs, n + 1, inTransaction, t) == InvalidIn(vs, n, inTransaction, t) + if more then {n} else {};
  }

  lemma InvalidSplits(vs: seq<View>, n: nat, t: Tests)
    requires WellFormed(vs) && n <= |vs|
    ensures |Invalid(vs, n, t)| == |InvalidIn(vs, n, true, t)| + |InvalidIn(vs, n, false, t)|
  {
    assert Invalid(vs, n, t) == InvalidIn(vs, n, true, t) + InvalidIn(vs, n, false, t);
    assert InvalidIn(vs, n, true, t) !! InvalidIn(vs, n, false, t);
  }

  /** The invalid fields among the first n, counted in all and by class. */
  function Counts(vs: seq<View>, n: nat, t: Tests): Issues
    requires WellFormed(vs) && n <= |vs|
  {
    Issues(|Invalid(vs, n, t)|, |InvalidIn(vs, n, true, t)|, |InvalidIn(vs, n, false, t)|)
  }

  lemma CountsGrow(vs: seq<View>, n: nat, t: Tests)
    requires WellFormed(vs) && n < |vs| && !RaisesAt(vs, n, t)
    ensures Counts(vs, n + 1, t) == Plus(Counts(vs, n, t), CheckAt(vs, n, t))
  {
    InvalidSplits(vs, n, t);
    InvalidSplits(vs, n + 1, t);
    InvalidGrows(vs, n, true, t);
    InvalidGrows(vs, n, false, t);
    CheckAtExact(vs, n, t);
  }

  lemma CountsOfNone(vs: seq<View>, t: Tests)
    requires WellFormed(vs)
    ensures Counts(vs, 0, t) == Issues(0, 0, 0)
  {
    assert Invalid(vs, 0, t) == InvalidIn(vs, 0, true, t) == InvalidIn(vs, 0, false, t) == {};
  }

  predicate SumCounts(vs: seq<View>, n: nat, t: Tests)
    requires WellFormed(vs) && n <= |vs|
  {
    SumOf(ChecksOf(vs, n, t)) == Counts(vs, n, t)
  }

  lemma SumCountsOneMore(vs: seq<View>, n: nat, t: Tests)
    requires WellFormed(vs) && n < |vs| && !RaisesAt(vs, n, t) && SumCounts(vs, n, t)
    ensures SumCounts(vs, n + 1, t)
  {
    CountsGrow(vs, n, t);
    ChecksGrow(vs, n, t);
  }

  lemma {:induction false} SumsCountInvalid(vs: seq<View>, n: nat, t: Tests)
    requires WellFormed(vs) && n <= |vs| && Quiet(vs, n, t)
    ensures SumCounts(vs, n, t)
  {
    if n == 0 {
      CountsOfNone(vs, t);
    } else {
      QuietGrows(vs, n - 1, t);
      SumsCountInvalid(vs, n - 1, t);
      SumCountsOneMore(vs, n - 1, t);
    }
  }

  lemma {:induction false} MessageEmptyExactly(cs: seq<Check>)
    requires forall i :: 0 <= i < |cs| ==> (cs[i].valid <==> cs[i].message == [])
    ensures MessageOf(cs) == [] <==> AllValid(cs)
  {
    if cs != [] {
      var front, last := cs[..|cs| - 1], cs[|cs| - 1];
      MessageEmptyExactly(front);
      assert AllValid(cs) <==> AllValid(front) && last.valid by {
        assert forall i :: 0 <= i < |front| ==> cs[i] == front[i];
      }
    }
  }

  /** For a row of any mix of cells: the total is the number of invalid cells and the sum of the
      two classes, and the row is valid exactly when it is zero, which is when nothing is said. */
  lemma RowCountsIssues(vs: seq<View>, t: Tests)
    requires WellFormed(vs) && RowVerdict(vs, t).RowChecked? && vs != []
    ensures
      var c := RowVerdict(vs, t).check;
      && c.issues.Some?
      && c.issues.value.total == |Invalid(vs, |vs|, t)|
      && c.issues.value.total == c.issues.value.transactionIssues + c.issues.value.farmerIssues
      && c.issues.value.transactionIssues == |InvalidIn(vs, |vs|, true, t)|
      && (c.valid <==> c.issues.value.total == 0)
      && (c.valid <==> c.message == [])
      && (c.valid <==> forall i :: 0 <= i < |vs| ==> AcceptsAt(vs, i, t))
  {
    SumsCountInvalid(vs, |vs|, t);
    InvalidSplits(vs, |vs|, t);
    ValidExactly(vs, t);
    MessageEmptyExactly(ChecksOf(vs, |vs|, t));
  }

  /** A row without fields is valid and unchanged, and has no issues to report. */
  lemma RowWithoutFields(t: Tests)
    ensures RowVerdict([], t) == RowChecked(RowCheck([], None, Unchanged, true, []))
  {}

  /** Messages come in the order of the fields: that of the first in front. */
  lemma {:induction false} MessagesInOrder(c: Check, rest: seq<Check>)
    ensures MessageOf([c] + rest) == c.message + MessageOf(rest)
  {
    if rest == [] {
      SumsGrow([], c);
      assert [c] + rest == [] + [c];
    } else {
      var front, last := rest[..|rest| - 1], rest[|rest| - 1];
      MessagesInOrder(c, front);
      SumsGrow([c] + front, last);
      SumsGrow(front, last);
      assert rest == front + [last] && [c] + rest == [c] + front + [last];
      Regrouped(c.message, MessageOf(front), last.message);
    }
  }

  lemma Regrouped(a: seq<Complaint>, b: seq<Complaint>, c: seq<Complaint>)
    ensures a + b + c == a + (b + c)
  {}

  lemma ValidExactly(vs: seq<View>, t: Tests)
    requires WellFormed(vs) && Quiet(vs, |vs|, t)
    ensures AllValid(ChecksOf(vs, |vs|, t)) <==> forall i :: 0 <= i < |vs| ==> AcceptsAt(vs, i, t)
    ensures AllValid(ChecksOf(vs, |vs|, t)) <==> Invalid(vs, |vs|, t) == {}
    ensures forall i :: 0 <= i < |vs| ==>
              (ChecksOf(vs, |vs|, t)[i].valid <==> ChecksOf(vs, |vs|, t)[i].message == [])
  {
    forall i | 0 <= i < |vs|
      ensures ChecksOf(vs, |vs|, t)[i].valid <==> AcceptsAt(vs, i, t)
      ensures ChecksOf(vs, |vs|, t)[i].valid <==> ChecksOf(vs, |vs|, t)[i].message == []
    {
      assert !RaisesAt(vs, i, t);
      CheckAtExact(vs, i, t);
    }
    if i :| 0 <= i < |vs| && !AcceptsAt(vs, i, t) {
      assert i in Invalid(vs, |vs|, t);
    }
  }

  // ---------------------------------------------------------------- rows of cells

  /** The running values of a row's loop after these checks. */
  predicate Tallied(cs: seq<Check>, valid: bool, message: seq<Complaint>, statuses: seq<Status>, sum: Issues,
                    issues: Option<Issues>)
  {
    && valid == AllValid(cs) && message == MessageOf(cs) && Lists(statuses, cs)
    && sum == SumOf(cs)
    && issues == if cs == [] then None else Some(SumOf(cs))
  }

  lemma TallyGrows(cs: seq<Check>, c: Check, valid: bool, message: seq<Complaint>, statuses: seq<Status>,
                   sum: Issues, issues: Option<Issues>)
    requires Tallied(cs, valid, message, statuses, sum, issues)
    ensures Tallied(cs + [c], valid && c.valid, message + c.message, statuses + [c.status], Plus(sum, c),
                    Some(Plus(sum, c)))
  {
    SumsGrow(cs, c);
    assert AllValid(cs + [c]) ==> c.valid && AllValid(cs) by {
      assert (cs + [c])[|cs|] == c;
      assert forall i :: 0 <= i < |cs| ==> (cs + [c])[i] == cs[i];
    }
  }

  /** The first k fields did not raise, and these are their checks. */
  predicate Ran(vs: seq<View>, k: nat, checks: seq<Check>, t: Tests)
    requires WellFormed(vs) && k <= |vs|
  {
    Quiet(vs, k, t) && checks == ChecksOf(vs, k, t)
  }

  lemma RanGrows(vs: seq<View>, k: nat, checks: seq<Check>, t: Tests)
    requires WellFormed(vs) && k < |vs| && Ran(vs, k, checks, t) && !RaisesAt(vs, k, t)
    ensures Ran(vs, k + 1, checks + [CheckAt(vs, k, t)], t)
  {
    QuietGrows(vs, k, t);
  }

  lemma AllRan(vs: seq<View>, checks: seq<Check>, valid: bool, message: seq<Complaint>, statuses: seq<Status>,
               sum: Issues, issues: Option<Issues>, t: Tests)
    requires WellFormed(vs) && Ran(vs, |vs|, checks, t) && Tallied(checks, valid, message, statuses, sum, issues)
    ensures RowVerdict(vs, t) == RowChecked(RowCheck(checks, issues, RowStatus(checks), valid, message))
  {}

  lemma StatusesSuffice(statuses: seq<Status>, cs: seq<Check>)
    requires Lists(statuses, cs)
    ensures forall s :: s in statuses <==> Any(cs, s)
    ensures forall s :: (set x | x in statuses) == {s} <==> cs != [] && All(cs, s)
  {
    var seen := set x | x in statuses;
    assert forall i :: 0 <= i < |cs| ==> cs[i].status == statuses[i] && statuses[i] in seen;
    forall s
      ensures seen == {s} <==> cs != [] && All(cs, s)
    {
      if cs != [] && All(cs, s) {
        assert statuses[0] in seen && seen == {s};
      }
      if seen == {s} {
        assert s in seen;
      }
    }
  }

  ghost predicate Distinct(cells: seq<Cell>) {
    forall i, j :: 0 <= i < j < |cells| ==> cells[i] != cells[j]
  }

  ghost function Views(cells: seq<Cell>): (vs: seq<View>)
    reads cells
    ensures |vs| == |cells| && forall i :: 0 <= i < |vs| ==> vs[i] == cells[i].AsView()
  {
    if cells == [] then [] else Views(cells[..|cells| - 1]) + [cells[|cells| - 1].AsView()]
  }

  /** How many of the first n fields are validated before one raises. */
  ghost function Stop(vs: seq<View>, n: nat, t: Tests): (k: nat)
    requires WellFormed(vs) && n <= |vs|
    ensures k <= n && Quiet(vs, k, t) && (k < n ==> RaisesAt(vs, k, t))
  {
    if n == 0 then 0
    else
      var k := Stop(vs, n - 1, t);
      if k < n - 1 || RaisesAt(vs, n - 1, t) then k else n
  }

  lemma StopIs(vs: seq<View>, k: nat, t: Tests)
    requires WellFormed(vs) && k <= |vs| && Quiet(vs, k, t) && (k < |vs| ==> RaisesAt(vs, k, t))
    ensures Stop(vs, |vs|, t) == k
    ensures Quiet(vs, |vs|, t) <==> k == |vs|
  {
  }

  /** The first k cells, found as `vs`, hold what validation makes of their values; the others are
      as they were. */
  ghost predicate ValidatedUpTo(cells: seq<Cell>, vs: seq<View>, k: nat, t: Tests)
    reads cells
    requires |vs| == |cells|
  {
    forall i :: 0 <= i < |cells| ==> cells[i].AsView() == vs[i].With(if i < k then After(vs[i], t) else vs[i].value)
  }

  class ExcelRow {
    const fields: seq<Cell>

    constructor (fields: seq<Cell>)
      ensures this.fields == fields
    {
      this.fields := fields;
    }

    /** A dependent choice gets its selection from the row. */
    method ValidateField(k: nat, ghost vs: seq<View>, t: Tests) returns (r: Outcome)
      requires Distinct(fields) && WellFormed(vs) && k < |vs| == |fields|
      requires ValidatedUpTo(fields, vs, k, t)
      modifies fields[k]
      ensures r == if RaisesAt(vs, k, t) then Raised else Checked(CheckAt(vs, k, t))
      ensures ValidatedUpTo(fields, vs, if r.Raised? then k else k + 1, t)
    {
      var field := fields[k];
      assert field.AsView() == vs[k];
      var selection: Option<Value> := None;
      if field.kind.DependantChoice? {
        selection := Some(fields[field.kind.selection].value);
      }
      assert selection == SelectionAt(vs, k, t);
      r := field.Validate(selection, t);
    }

    /** `ExcelRow.validate`: a field that raises stops it, and the fields before it keep what
        their validation made of their values. */
    method Validate(t: Tests) returns (r: RowOutcome)
      requires Distinct(fields) && WellFormed(Views(fields))
      modifies fields
      ensures r == old(RowVerdict(Views(fields), t))
      ensures ValidatedUpTo(fields, old(Views(fields)), old(Stop(Views(fields), |fields|, t)), t)
    {
      ghost var vs := Views(fields);
      var valid, message, checks, statuses := true, [], [], [];
      var sum, issues := Issues(0, 0, 0), None;
      for k := 0 to |fields|
        invariant Ran(vs, k, checks, t) && ValidatedUpTo(fields, vs, k, t)
        invariant Tallied(checks, valid, message, statuses, sum, issues)
      {
        var check := ValidateField(k, vs, t);
        if check.Raised? {
          StopIs(vs, k, t);
          return RowRaised;
        }
        RanGrows(vs, k, checks, t);
        TallyGrows(checks, check.check, valid, message, statuses, sum, issues);
        valid := valid && check.check.valid;
        message := message + check.check.message;
        checks := checks + [check.check];
        statuses := statuses + [check.check.status];
        sum := Plus(sum, check.check);
        issues := Some(sum);
      }
      StopIs(vs, |vs|, t);
      var status := StatusOfRow(statuses, checks);
      AllRan(vs, checks, valid, message, statuses, sum, issues, t);
      return RowChecked(RowCheck(checks, issues, status, valid, message));
    }
  }

  /** Changed if any field is, new if all of them are. */
  method StatusOfRow(statuses: seq<Status>, ghost cs: seq<Check>) returns (s: Status)
    requires Lists(statuses, cs)
    ensures s == RowStatus(cs)
    ensures s == Changed <==> Changed in statuses
    ensures s == New <==> statuses != [] && forall i :: 0 <= i < |statuses| ==> statuses[i] == New
  {
    StatusesSuffice(statuses, cs);
    if Changed in statuses {
      s := Changed;
    } else if (set x | x in statuses) == {New} {
      s := New;
    } else {
      s := Unchanged;
    }
  }
}
