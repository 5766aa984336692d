/** The whole sheet: its rows, and the fields that stand outside them. */
module ExcelSheets {
  import opened Basics
  import opened ExcelCells
  import opened ExcelRows

  datatype SheetCheck = SheetCheck(
    valid: bool, message: seq<Complaint>, count: nat, rows: seq<RowCheck>, fields: seq<Check>, status: Status)

  datatype SheetOutcome = SheetRaised | SheetChecked(check: SheetCheck)

  predicate AllWellFormed(vss: seq<seq<View>>) {
    forall i :: 0 <= i < |vss| ==> WellFormed(vss[i])
  }

  /** None of the first n rows raises. */
  predicate RowsQuiet(vss: seq<seq<View>>, n: nat, t: Tests)
    requires AllWellFormed(vss) && n <= |vss|
  {
    forall i :: 0 <= i < n ==> RowQuiet(vss[i], t)
  }

  predicate RowQuiet(vs: seq<View>, t: Tests)
    requires WellFormed(vs)
  {
    RowVerdict(vs, t).RowChecked?
  }

  function RowCheckOf(vs: seq<View>, t: Tests): RowCheck
    requires WellFormed(vs) && RowQuiet(vs, t)
  {
    RowVerdict(vs, t).check
  }

  function RowChecksOf(vss: seq<seq<View>>, n: nat, t: Tests): (cs: seq<RowCheck>)
    requires AllWellFormed(vss) && n <= |vss| && RowsQuiet(vss, n, t)
    ensures |cs| == n
  {
    if n == 0 then [] else RowChecksOf(vss, n - 1, t) + [RowCheckOf(vss[n - 1], t)]
  }

  lemma {:induction false} RowCheckAt(vss: seq<seq<View>>, n: nat, t: Tests, i: nat)
    requires AllWellFormed(vss) && i < n <= |vss| && RowsQuiet(vss, n, t)
    ensures RowQuiet(vss[i], t) && RowChecksOf(vss, n, t)[i] == RowCheckOf(vss[i], t)
  {
    if i < n - 1 {
      RowCheckAt(vss, n - 1, t, i);
    }
  }

  /** A field outside the rows is validated without a selection. */
  predicate FieldsQuiet(vs: seq<View>, n: nat, t: Tests)
    requires n <= |vs|
  {
    forall i :: 0 <= i < n ==> !Raises(vs[i], None, t)
  }

  function FieldChecksOf(vs: seq<View>, n: nat, t: Tests): (cs: seq<Check>)
    requires n <= |vs|
    ensures |cs| == n && forall i :: 0 <= i < n ==> cs[i] == CheckOf(vs[i], None, t)
  {
    if n == 0 then [] else FieldChecksOf(vs, n - 1, t) + [CheckOf(vs[n - 1], None, t)]
  }

  predicate AllRowsValid(cs: seq<RowCheck>) {
    forall i :: 0 <= i < |cs| ==> cs[i].valid
  }

  function RowMessages(cs: seq<RowCheck>): seq<Complaint> {
    if cs == [] then [] else RowMessages(cs[..|cs| - 1]) + cs[|cs| - 1].message
  }

  /** Unlike a row, a sheet with no field of its own is new, and so is a mixed one in which
      nothing changed. */
  function SheetStatus(cs: seq<Check>): Status {
    if cs != [] && All(cs, Unchanged) then Unchanged
    else if Any(cs, Changed) then Changed
    else New
  }

  function Summarise(rows: seq<RowCheck>, fields: seq<Check>): SheetCheck {
    SheetCheck(AllRowsValid(rows) && AllValid(fields), RowMessages(rows) + MessageOf(fields), |rows|, rows, fields,
               SheetStatus(fields))
  }

  function SheetVerdict(vss: seq<seq<View>>, vs: seq<View>, t: Tests): SheetOutcome
    requires AllWellFormed(vss)
  {
    if !RowsQuiet(vss, |vss|, t) || !FieldsQuiet(vs, |vs|, t) then SheetRaised
    else SheetChecked(Summarise(RowChecksOf(vss, |vss|, t), FieldChecksOf(vs, |vs|, t)))
  }

  /** A sheet is valid exactly when every cell of it accepts its value. */
  lemma SheetValidExactly(vss: seq<seq<View>>, vs: seq<View>, t: Tests)
    requires AllWellFormed(vss) && SheetVerdict(vss, vs, t).SheetChecked?
    ensures SheetVerdict(vss, vs, t).check.valid <==>
            && (forall i, j :: 0 <= i < |vss| && 0 <= j < |vss[i]| ==> AcceptsAt(vss[i], j, t))
            && (forall i :: 0 <= i < |vs| ==> Accepts(vs[i], None, t))
  {
    var c := SheetVerdict(vss, vs, t).check;
    forall i | 0 <= i < |vss|
      ensures c.rows[i].valid <==> forall j :: 0 <= j < |vss[i]| ==> AcceptsAt(vss[i], j, t)
    {
      RowCheckAt(vss, |vss|, t, i);
      ValidExactly(vss[i], t);
    }
    forall i | 0 <= i < |vs|
      ensures c.fields[i].valid <==> Accepts(vs[i], None, t)
    {
      assert !Raises(vs[i], None, t);
      ChecksAreConsistent(vs[i], None, t);
    }
  }

  /** Messages come in the order of the rows: that of the first in front. */
  lemma {:induction false} RowMessagesInOrder(c: RowCheck, rest: seq<RowCheck>)
    ensures RowMessages([c] + rest) == c.message + RowMessages(rest)
  {
    var cs := [c] + rest;
    if rest == [] {
      assert cs[..0] == [];
      assert RowMessages([]) == [] && [] + c.message == c.message + [];
    } else {
      RowMessagesInOrder(c, rest[..|rest| - 1]);
      assert cs[..|cs| - 1] == [c] + rest[..|rest| - 1];
      Regrouped(c.message, RowMessages(rest[..|rest| - 1]), rest[|rest| - 1].message);
    }
  }

  /** What the result of a sheet is made of: the check of every row and of every field outside the
      rows, all that they say, rows first, and what has become of those fields. A sheet without such
      fields counts as new. */
  lemma SheetIsWhole(vss: seq<seq<View>>, vs: seq<View>, t: Tests)
    requires AllWellFormed(vss)
    ensures
      match SheetVerdict(vss, vs, t)
      case SheetRaised =>
        || (exists i :: 0 <= i < |vss| && RowVerdict(vss[i], t).RowRaised?)
        || (exists i :: 0 <= i < |vs| && Raises(vs[i], None, t))
      case SheetChecked(c) =>
        && c.count == |vss| == |c.rows| && |c.fields| == |vs|
        && (forall i :: 0 <= i < |vss| ==> RowVerdict(vss[i], t) == RowChecked(c.rows[i]))
        && (forall i :: 0 <= i < |vs| ==> Verdict(vs[i], None, t) == Checked(c.fields[i]))
        && c.message == RowMessages(c.rows) + MessageOf(c.fields)
        && (c.status == Changed <==> exists i :: 0 <= i < |vs| && c.fields[i].status == Changed)
        && (c.status == Unchanged <==> vs != [] && forall i :: 0 <= i < |vs| ==> c.fields[i].status == Unchanged)
  {
    if SheetVerdict(vss, vs, t).SheetRaised? {
      assert !RowsQuiet(vss, |vss|, t) || !FieldsQuiet(vs, |vs|, t);
    } else {
      var c := SheetVerdict(vss, vs, t).check;
      forall i | 0 <= i < |vss| ensures RowVerdict(vss[i], t) == RowChecked(c.rows[i]) {
        RowCheckAt(vss, |vss|, t, i);
      }
      SheetStatusExactly(c.fields);
    }
  }

  lemma SheetStatusExactly(cs: seq<Check>)
    ensures SheetStatus(cs) == Changed <==> exists i :: 0 <= i < |cs| && cs[i].status == Changed
    ensures SheetStatus(cs) == Unchanged <==> cs != [] && forall i :: 0 <= i < |cs| ==> cs[i].status == Unchanged
  {}

  // ---------------------------------------------------------------- the sheet

  ghost predicate Apart(a: seq<Cell>, b: seq<Cell>) {
    forall c :: c in a ==> c !in b
  }

  ghost function CellsIn(rows: seq<ExcelRow>): (cs: set<Cell>)
    ensures forall i, c :: 0 <= i < |rows| && c in rows[i].fields ==> c in cs
  {
    if rows == [] then {}
    else
      var row := rows[|rows| - 1];
      CellsIn(rows[..|rows| - 1]) + set c | c in row.fields
  }

  ghost function RowViews(rows: seq<ExcelRow>): (vss: seq<seq<View>>)
    reads CellsIn(rows)
    ensures |vss| == |rows| && forall i :: 0 <= i < |vss| ==> vss[i] == Views(rows[i].fields)
  {
    if rows == [] then [] else RowViews(rows[..|rows| - 1]) + [Views(rows[|rows| - 1].fields)]
  }

  /** The first k rows, found as `vss`, have been validated; the others are as they were. */
  ghost predicate RowsUpTo(rows: seq<ExcelRow>, vss: seq<seq<View>>, k: nat, t: Tests)
    reads CellsIn(rows)
  {
    |vss| == |rows| && forall i :: 0 <= i < |rows| ==> RowDone(rows[i].fields, vss[i], i < k, t)
  }

  ghost predicate RowDone(cells: seq<Cell>, vs: seq<View>, done: bool, t: Tests)
    reads cells
  {
    |vs| == |cells| && ValidatedUpTo(cells, vs, if done then |vs| else 0, t)
  }

  lemma ViewsOfUntouched(cells: seq<Cell>, vs: seq<View>, t: Tests)
    requires |vs| == |cells|
    ensures ValidatedUpTo(cells, vs, 0, t) <==> Views(cells) == vs
  {
    assert forall i :: 0 <= i < |cells| ==> vs[i] == vs[i].With(vs[i].value);
  }

  lemma NothingDoneYet(rows: seq<ExcelRow>, t: Tests)
    ensures RowsUpTo(rows, RowViews(rows), 0, t)
  {
    forall i | 0 <= i < |rows| ensures RowDone(rows[i].fields, RowViews(rows)[i], false, t) {
      ViewsOfUntouched(rows[i].fields, RowViews(rows)[i], t);
    }
  }

  lemma RowsQuietGrows(vss: seq<seq<View>>, n: nat, t: Tests)
    requires AllWellFormed(vss) && n < |vss| && RowsQuiet(vss, n, t)
    ensures
      if RowQuiet(vss[n], t) then
        RowsQuiet(vss, n + 1, t) && RowChecksOf(vss, n + 1, t) == RowChecksOf(vss, n, t) + [RowCheckOf(vss[n], t)]
      else
        !RowsQuiet(vss, |vss|, t)
  {
    if RowQuiet(vss[n], t) {
      assert RowsQuiet(vss, n + 1, t);
    }
  }

  lemma FieldsQuietGrows(vs: seq<View>, n: nat, t: Tests)
    requires n < |vs|
    ensures FieldsQuiet(vs, n + 1, t) <==> FieldsQuiet(vs, n, t) && !Raises(vs[n], None, t)
    ensures FieldsQuiet(vs, |vs|, t) ==> FieldsQuiet(vs, n + 1, t)
  {
    assert FieldsQuiet(vs, n + 1, t) ==> !Raises(vs[n], None, t);
  }

  class Excel {
    const rows: seq<ExcelRow>
    const fields: seq<Cell>

    constructor (rows: seq<ExcelRow>, fields: seq<Cell>)
      ensures this.rows == rows && this.fields == fields
    {
      this.rows, this.fields := rows, fields;
    }

    /** Every cell is in one place only. */
    ghost predicate Valid() {
      && Distinct(fields) && (forall k :: 0 <= k < |fields| ==> fields[k] !in CellsIn(rows))
      && (forall i :: 0 <= i < |rows| ==> Distinct(rows[i].fields))
      && (forall i, j :: 0 <= i < |rows| && 0 <= j < |rows| && i != j ==> Apart(rows[i].fields, rows[j].fields))
    }

    method ValidateRow(k: nat, ghost vss: seq<seq<View>>, t: Tests) returns (r: RowOutcome)
      requires Valid() && AllWellFormed(vss) && k < |rows| && RowsUpTo(rows, vss, k, t)
      modifies rows[k].fields
      ensures r == RowVerdict(vss[k], t)
      ensures r.RowChecked? ==> RowsUpTo(rows, vss, k + 1, t)
    {
      ViewsOfUntouched(rows[k].fields, vss[k], t);
      r := rows[k].Validate(t);
      if r.RowChecked? {
        StopIs(vss[k], |vss[k]|, t);
        forall i | 0 <= i < |rows| && i != k
          ensures RowDone(rows[i].fields, vss[i], i < k + 1, t)
        {
          assert old(RowDone(rows[i].fields, vss[i], i < k, t));
          assert Apart(rows[i].fields, rows[k].fields);
          forall j | 0 <= j < |rows[i].fields|
            ensures rows[i].fields[j].AsView() == old(rows[i].fields[j].AsView())
          {
            assert rows[i].fields[j] in rows[i].fields && rows[i].fields[j] !in rows[k].fields;
          }
        }
      }
    }

    method ValidateRows(t: Tests, ghost vss: seq<seq<View>>) returns (checks: Option<seq<RowCheck>>)
      requires Valid() && AllWellFormed(vss) && RowsUpTo(rows, vss, 0, t)
      modifies CellsIn(rows)
      ensures checks == if RowsQuiet(vss, |rows|, t) then Some(RowChecksOf(vss, |rows|, t)) else None
      ensures checks.Some? ==> RowsUpTo(rows, vss, |rows|, t)
    {
      var done := [];
      for k := 0 to |rows|
        invariant RowsQuiet(vss, k, t) && done == RowChecksOf(vss, k, t)
        invariant RowsUpTo(rows, vss, k, t)
      {
        RowsQuietGrows(vss, k, t);
        var r := ValidateRow(k, vss, t);
        if r.RowRaised? {
          return None;
        }
        done := done + [r.check];
      }
      return Some(done);
    }

    /** The fields outside the rows get no selection. */
    method ValidateField(k: nat, t: Tests, ghost vs: seq<View>) returns (r: Outcome)
      requires Distinct(fields) && k < |vs| == |fields| && ValidatedUpTo(fields, vs, k, t)
      modifies fields[k]
      ensures r == Verdict(vs[k], None, t)
      ensures ValidatedUpTo(fields, vs, if r.Raised? then k else k + 1, t)
    {
      assert fields[k].AsView() == vs[k];
      r := fields[k].Validate(None, t);
    }

    method ValidateFields(t: Tests, ghost vs: seq<View>) returns (checks: Option<seq<Check>>)
      requires Distinct(fields) && |vs| == |fields| && ValidatedUpTo(fields, vs, 0, t)
      modifies fields
      ensures checks == if FieldsQuiet(vs, |vs|, t) then Some(FieldChecksOf(vs, |vs|, t)) else None
      ensures checks.Some? ==> ValidatedUpTo(fields, vs, |vs|, t)
    {
      var done := [];
      for k := 0 to |fields|
        invariant FieldsQuiet(vs, k, t) && done == FieldChecksOf(vs, k, t)
        invariant ValidatedUpTo(fields, vs, k, t)
      {
        FieldsQuietGrows(vs, k, t);
        var r := ValidateField(k, t, vs);
        if r.Raised? {
          return None;
        }
        done := done + [r.check];
      }
      return Some(done);
    }

    /** `Excel.validate`: nothing is said of the values that an exception leaves behind. */
    method Validate(t: Tests) returns (r: SheetOutcome)
      requires Valid() && AllWellFormed(RowViews(rows))
      modifies CellsIn(rows), fields
      ensures r == SheetVerdict(old(RowViews(rows)), old(Views(fields)), t)
      ensures r.SheetChecked? ==>
                && RowsUpTo(rows, old(RowViews(rows)), |rows|, t)
                && ValidatedUpTo(fields, old(Views(fields)), |fields|, t)
    {
      NothingDoneYet(rows, t);
      ViewsOfUntouched(fields, Views(fields), t);
      r := ValidateSheet(t, RowViews(rows), Views(fields));
    }

    method ValidateSheet(t: Tests, ghost vss: seq<seq<View>>, ghost vs: seq<View>) returns (r: SheetOutcome)
      requires Valid() && AllWellFormed(vss) && RowsUpTo(rows, vss, 0, t)
      requires |vs| == |fields| && ValidatedUpTo(fields, vs, 0, t)
      modifies CellsIn(rows), fields
      ensures r == SheetVerdict(vss, vs, t)
      ensures r.SheetChecked? ==> RowsUpTo(rows, vss, |rows|, t) && ValidatedUpTo(fields, vs, |vs|, t)
    {
      var rowChecks := ValidateRows(t, vss);
      if rowChecks.None? {
        return SheetRaised;
      }
      var checks := ValidateFields(t, vs);
      if checks.None? {
        return SheetRaised;
      }
      r := SheetChecked(Summarise(rowChecks.value, checks.value));
    }
  }
}
