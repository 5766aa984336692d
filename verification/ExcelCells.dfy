/**
  * The cells of an uploaded sheet: each kind validates its value by editing the check that the
  * kind it extends has made. What a kind asks of a text or number is a parameter.
  */
module ExcelCells {
  import opened Basics

  /** A cell's value; text 0 is the empty text. */
  datatype Value = Absent | Text(text: nat) | Number(number: real) | Date(day: int)

  predicate Truthy(v: Value) {
    match v
    case Absent => false
    case Text(s) => s != 0
    case Number(x) => x != 0.0
    case Date(_) => true
  }

  datatype Heading =
    TransactionDate | Unit | Currency | ProductId | Product | PricePerUnit | TotalQuantity | Other(id: nat)

  datatype Kind =
    | Plain
    | Alpha
    | Char
    | Integer
    | Day(min: Option<int>, max: Option<int>)
    | Decimal
    | Choice(choices: set<Value>)
    | Email
    | PhoneNumber
    | DependantChoice(selection: nat, allowed: map<Value, set<Value>>)
    | Combination(parts: seq<Value>, combined: Kind)
    | Phone
    | DialCode(choices: set<Value>)
    | CurrencyCode
    | Country(choices: set<Value>)

  /** What the kinds ask of a value, and how text is made of values. */
  datatype Tests = Tests(
    alphabetical: nat -> bool,
    printable: Value -> bool,
    compact: Value -> nat,
    integer: nat -> bool,
    decimal: nat -> bool,
    email: nat -> bool,
    phoneNumber: Value -> bool,
    digits: Value -> bool,
    currency: nat -> bool,
    country: nat -> bool,
    joined: (Kind, seq<Value>) -> Value)

  datatype Status = New | Changed | Unchanged

  datatype Complaint =
    | Mandatory | NotAlphabetical | NotText | NotInteger | BadDate | TooEarly | TooLate | NotDecimal
    | NotAChoice | BadEmail | BadPhone | NotForSelection

  datatype Check = Check(
    valid: bool,
    message: seq<Complaint>,
    status: Status,
    isFarmerData: bool,
    total: nat,
    transactionIssues: nat,
    farmerIssues: nat)

  datatype Outcome = Raised | Checked(check: Check)

  /** The headings whose problems `check_issue` puts down to the transaction, and those that
      `is_farmer_data` does not count as farmer data: they differ in the product id. */
  const IssueHeadings: set<Heading> := {TransactionDate, Unit, Currency, Product, PricePerUnit, TotalQuantity}
  const DataHeadings: set<Heading> :=
    {TransactionDate, Unit, Currency, ProductId, Product, PricePerUnit, TotalQuantity}

  /** `check_issue`. */
  function CheckIssue(h: Heading, c: Check): Check {
    if h in IssueHeadings then c.(total := 1, transactionIssues := 1) else c.(total := 1, farmerIssues := 1)
  }

  /** A cell as `validate` finds it; `stored` when it belongs to a model object. */
  datatype View = View(
    heading: Heading, kind: Kind, required: bool, update: bool, stored: bool, database: Value, value: Value)
  {
    /** Mandatory and not there. */
    predicate Missing() {
      required && !Truthy(value)
    }

    function Status(): Status {
      if !stored && update then New
      else if (!Truthy(database) && !Truthy(value)) || database == value then Unchanged
      else Changed
    }

    function With(value: Value): View {
      View(heading, kind, required, update, stored, database, value)
    }

    /** The cell that a combination makes for its joined value, or none if such cells cannot be
        made from a heading alone. */
    function Combined(t: Tests): Option<View>
      requires kind.Combination?
    {
      match BareKind(kind.combined)
      case None => None
      case Some(k) => Some(View(heading, k, true, true, false, Absent, t.joined(k, kind.parts)))
    }

    /** The check that goes with these complaints. */
    function Flagged(message: seq<Complaint>): Check {
      var n := if message == [] then 0 else 1;
      var inTransaction := heading in IssueHeadings;
      Check(message == [], message, Status(), heading !in DataHeadings,
            n, if inTransaction then n else 0, if inTransaction then 0 else n)
    }
  }

  /** A kind as made from a heading alone. */
  function BareKind(k: Kind): (r: Option<Kind>)
    ensures r.Some? ==> !r.value.Combination? && !r.value.DependantChoice?
  {
    match k
    case Choice(_) => None
    case DialCode(_) => None
    case Country(_) => None
    case DependantChoice(_, _) => None
    case Combination(_, _) => None
    case Day(_, _) => Some(Day(None, None))
    case _ => Some(k)
  }

  function Depth(k: Kind): nat {
    if k.Combination? then 1 else 0
  }

  // ---------------------------------------------------------------- what a cell accepts

  /** A value that is there suits its kind. */
  predicate Suits(v: View, selection: Option<Value>, t: Tests)
    requires !v.kind.Combination?
  {
    match v.kind
    case Plain => true
    case Alpha => v.value.Text? && t.alphabetical(v.value.text)
    case Char => t.printable(v.value)
    case Integer => t.integer(t.compact(v.value))
    case Day(min, max) =>
      && v.value.Date?
      && (min.Some? ==> min.value <= v.value.day)
      && (max.Some? ==> v.value.day <= max.value)
    case Decimal => t.decimal(t.compact(v.value))
    case Choice(choices) => v.value in choices
    case Email => t.printable(v.value) && v.value.Text? && t.email(v.value.text)
    case PhoneNumber => t.phoneNumber(v.value)
    case DependantChoice(_, allowed) =>
      selection.Some? && selection.value in allowed && v.value in allowed[selection.value]
    case Phone => t.digits(v.value)
    case DialCode(choices) => v.value in choices
    case CurrencyCode => t.printable(v.value) && v.value.Text? && t.currency(v.value.text)
    case Country(choices) => v.value in choices && v.value.Text? && t.country(v.value.text)
  }

  /** An optional cell left blank is fine, but for three kinds: these test the blank as well. */
  predicate BlankSuits(v: View, selection: Option<Value>, t: Tests)
    requires !v.kind.Combination?
  {
    match v.kind
    case Alpha => false
    case PhoneNumber => t.phoneNumber(v.value)
    case DependantChoice(_, _) => Suits(v, selection, t)
    case Char => t.printable(v.value)
    case Email => t.printable(v.value)
    case CurrencyCode => t.printable(v.value)
    case _ => true
  }

  /** What a valid cell is: a value that suits its kind, or an optional blank. A combination
      stands or falls with the cell made for its joined value. */
  predicate Accepts(v: View, selection: Option<Value>, t: Tests)
    decreases Depth(v.kind)
  {
    if v.kind.Combination? then
      !v.Missing() && v.Combined(t).Some? && Accepts(v.Combined(t).value, None, t)
    else if Truthy(v.value) then
      Suits(v, selection, t)
    else
      !v.required && BlankSuits(v, selection, t)
  }

  /** A number where text is needed, a selection that was not passed, a combination that cannot
      be made. */
  predicate Raises(v: View, selection: Option<Value>, t: Tests)
    decreases Depth(v.kind)
  {
    match v.kind
    case DialCode(_) => Truthy(v.value) && !v.value.Text?
    case Alpha => !v.Missing() && !v.value.Text?
    case Email => Truthy(v.value) && t.printable(v.value) && !v.value.Text?
    case Country(choices) => Truthy(v.value) && v.value in choices && !v.value.Text?
    case DependantChoice(_, _) => !v.Missing() && selection.None?
    case Combination(_, _) =>
      !v.Missing() && (v.Combined(t).None? || Raises(v.Combined(t).value, None, t))
    case _ => false
  }

  /** The value after `validate`: the two number kinds keep the compacted text. */
  function After(v: View, t: Tests): Value {
    if (v.kind.Integer? || v.kind.Decimal?) && Truthy(v.value) then Text(t.compact(v.value)) else v.value
  }

  // ---------------------------------------------------------------- what is reported

  function When(c: bool, what: Complaint): seq<Complaint> {
    if c then [what] else []
  }

  function DayComplaints(v: View): seq<Complaint>
    requires v.kind.Day?
  {
    if !v.value.Date? then When(Truthy(v.value), BadDate)
    else
      When(v.kind.min.Some? && v.value.day < v.kind.min.value, TooEarly)
      + When(v.kind.max.Some? && v.kind.max.value < v.value.day, TooLate)
  }

  /** The complaints of a cell that is not missing and does not raise. */
  function KindComplaints(v: View, selection: Option<Value>, t: Tests): seq<Complaint>
    requires !v.kind.Combination? && !v.Missing()
  {
    match v.kind
    case Plain => []
    case Alpha => When(!v.value.Text? || !Truthy(v.value) || !t.alphabetical(v.value.text), NotAlphabetical)
    case Char => When(!t.printable(v.value), NotText)
    case Integer => When(Truthy(v.value) && !t.integer(t.compact(v.value)), NotInteger)
    case Day(_, _) => DayComplaints(v)
    case Decimal => When(Truthy(v.value) && !t.decimal(t.compact(v.value)), NotDecimal)
    case Choice(choices) => When(Truthy(v.value) && v.value !in choices, NotAChoice)
    case Email =>
      if !t.printable(v.value) then [NotText] else When(Truthy(v.value) && !Suits(v, selection, t), BadEmail)
    case PhoneNumber => When(!t.phoneNumber(v.value), BadPhone)
    case DependantChoice(_, _) => When(!Suits(v, selection, t), NotForSelection)
    case Phone => When(Truthy(v.value) && !t.digits(v.value), BadPhone)
    case DialCode(choices) => When(Truthy(v.value) && v.value !in choices, NotAChoice)
    case CurrencyCode =>
      if !t.printable(v.value) then [NotText] else When(Truthy(v.value) && !Suits(v, selection, t), NotAChoice)
    case Country(_) => When(Truthy(v.value) && !Suits(v, selection, t), NotAChoice)
  }

  /** The check that `validate` returns when it does not raise. */
  function CheckOf(v: View, selection: Option<Value>, t: Tests): Check
    decreases Depth(v.kind)
  {
    if v.Missing() then v.Flagged([Mandatory])
    else if v.kind.Combination? then
      (if v.Combined(t).Some? then CheckOf(v.Combined(t).value, None, t) else v.Flagged([]))
    else v.Flagged(KindComplaints(v, selection, t))
  }

  function Verdict(v: View, selection: Option<Value>, t: Tests): Outcome {
    if Raises(v, selection, t) then Raised else Checked(CheckOf(v, selection, t))
  }

  /** A check is valid exactly when the cell accepts its value; it then has no message and no
      issue, and otherwise one issue, of one class. The class is that of the data for every
      heading except the product id. */
  lemma {:induction false} ChecksAreConsistent(v: View, selection: Option<Value>, t: Tests)
    requires !Raises(v, selection, t)
    ensures
      var c := CheckOf(v, selection, t);
      && (c.valid <==> Accepts(v, selection, t))
      && (c.valid <==> c.message == [])
      && c.total == c.transactionIssues + c.farmerIssues
      && c.total == (if c.valid then 0 else 1)
      && c.transactionIssues == (if !c.valid && !v.heading.Other? && v.heading != ProductId then 1 else 0)
      && (c.isFarmerData <==> v.heading.Other?)
      && (v.heading != ProductId ==> (c.farmerIssues == 1 <==> !c.valid && c.isFarmerData))
    decreases Depth(v.kind)
  {
    if v.kind.Combination? && !v.Missing() {
      ChecksAreConsistent(v.Combined(t).value, None, t);
      assert v.Combined(t).value.heading == v.heading;
    } else if !v.Missing() {
      KindComplaintsExact(v, selection, t);
    }
  }

  lemma KindComplaintsExact(v: View, selection: Option<Value>, t: Tests)
    requires !v.kind.Combination? && !v.Missing() && !Raises(v, selection, t)
    ensures KindComplaints(v, selection, t) == [] <==> Accepts(v, selection, t)
  {
    match v.kind
    case Day(min, max) =>
      assert KindComplaints(v, selection, t) == DayComplaints(v);
    case _ =>
  }

  /** What a cell that does not raise must be like for a complaint to be made. */
  predicate Deserves(v: View, selection: Option<Value>, t: Tests, what: Complaint) {
    var there := Truthy(v.value);
    if v.required && !there then what == Mandatory
    else
      match what
      case Mandatory => false
      case NotAlphabetical => v.kind.Alpha? && v.value.Text? && (v.value.text == 0 || !t.alphabetical(v.value.text))
      case NotText => (v.kind.Char? || v.kind.Email? || v.kind.CurrencyCode?) && !t.printable(v.value)
      case NotInteger => v.kind.Integer? && there && !t.integer(t.compact(v.value))
      case NotDecimal => v.kind.Decimal? && there && !t.decimal(t.compact(v.value))
      case BadDate => v.kind.Day? && there && !v.value.Date?
      case TooEarly => v.kind.Day? && v.value.Date? && v.kind.min.Some? && v.value.day < v.kind.min.value
      case TooLate => v.kind.Day? && v.value.Date? && v.kind.max.Some? && v.value.day > v.kind.max.value
      case NotAChoice =>
        && there
        && (match v.kind
            case Choice(choices) => v.value !in choices
            case DialCode(choices) => v.value !in choices
            case Country(choices) => v.value !in choices || (v.value.Text? && !t.country(v.value.text))
            case CurrencyCode => t.printable(v.value) && !(v.value.Text? && t.currency(v.value.text))
            case _ => false)
      case BadEmail => v.kind.Email? && there && t.printable(v.value) && v.value.Text? && !t.email(v.value.text)
      case BadPhone =>
        (v.kind.PhoneNumber? && !t.phoneNumber(v.value)) || (v.kind.Phone? && there && !t.digits(v.value))
      case NotForSelection =>
        && v.kind.DependantChoice? && selection.Some?
        && !(selection.value in v.kind.allowed && v.value in v.kind.allowed[selection.value])
  }

  lemma DayComplaintsDeserved(v: View, selection: Option<Value>, t: Tests, what: Complaint)
    requires v.kind.Day? && !v.Missing()
    ensures what in DayComplaints(v) <==> Deserves(v, selection, t, what)
  {}

  lemma KindComplaintsDeserved(v: View, selection: Option<Value>, t: Tests, what: Complaint)
    requires !v.kind.Combination? && !v.Missing() && !Raises(v, selection, t)
    ensures what in KindComplaints(v, selection, t) <==> Deserves(v, selection, t, what)
  {
    match v.kind
    case Day(_, _) => DayComplaintsDeserved(v, selection, t, what);
    case _ =>
  }

  /** Each complaint is made exactly where it is deserved. */
  lemma ComplaintsExact(v: View, selection: Option<Value>, t: Tests, what: Complaint)
    requires !v.kind.Combination? && !Raises(v, selection, t)
    ensures what in CheckOf(v, selection, t).message <==> Deserves(v, selection, t, what)
  {
    if v.Missing() {
      assert CheckOf(v, selection, t).message == [Mandatory];
    } else {
      assert CheckOf(v, selection, t).message == KindComplaints(v, selection, t);
      KindComplaintsDeserved(v, selection, t, what);
    }
  }

  /** A mandatory cell is complained of as such if nothing, an empty text or a zero is in it. */
  lemma MandatoryExactly(v: View, selection: Option<Value>, t: Tests)
    requires !v.kind.Combination? && !Raises(v, selection, t)
    ensures Mandatory in CheckOf(v, selection, t).message <==>
            v.required && v.value in {Absent, Text(0), Number(0.0)}
  {
    ComplaintsExact(v, selection, t, Mandatory);
  }

  /** The cell made for the joined value of a combination counts as new, and may not be blank. */
  lemma CombinationIsNew(v: View, selection: Option<Value>, t: Tests)
    requires v.kind.Combination? && !v.Missing() && !Raises(v, selection, t)
    ensures BareKind(v.kind.combined).Some?
    ensures
      var c := CheckOf(v, selection, t);
      && c.status == New
      && (!Truthy(t.joined(BareKind(v.kind.combined).value, v.kind.parts)) ==> c.message == [Mandatory])
  {
    var w := v.Combined(t).value;
    assert CheckOf(v, selection, t) == CheckOf(w, None, t);
    assert CheckOf(w, None, t) == w.Flagged(CheckOf(w, None, t).message);
  }

  /** The product id is the one heading where the two lists disagree: every problem with it counts
      as the farmer's, though it is not farmer data. */
  lemma ProductIdIsMisclassified(v: View, selection: Option<Value>, t: Tests)
    requires !Raises(v, selection, t) && !CheckOf(v, selection, t).valid
    ensures
      var c := CheckOf(v, selection, t);
      (c.farmerIssues == 1) != c.isFarmerData <==> v.heading == ProductId
  {
    if v.kind.Combination? && !v.Missing() {
      var w := v.Combined(t).value;
      assert w.heading == v.heading && CheckOf(v, selection, t) == CheckOf(w, None, t);
      assert CheckOf(w, None, t) == w.Flagged(CheckOf(w, None, t).message);
    } else {
      assert CheckOf(v, selection, t) == v.Flagged(CheckOf(v, selection, t).message);
    }
  }

  // ---------------------------------------------------------------- the cell

  class Cell {
    const heading: Heading
    const kind: Kind
    const required: bool
    const update: bool
    const stored: bool
    const database: Value
    var value: Value

    constructor (heading: Heading, kind: Kind, required: bool, update: bool, stored: bool, database: Value,
                 value: Value)
      ensures AsView() == View(heading, kind, required, update, stored, database, value)
    {
      this.heading, this.kind, this.required := heading, kind, required;
      this.update, this.stored, this.database, this.value := update, stored, database, value;
    }

    function AsView(): View
      reads this
    {
      View(heading, kind, required, update, stored, database, value)
    }

    /** `validate` of the base class, where the value can be represented. */
    method ValidateBase() returns (data: Check)
      ensures data == AsView().Flagged(When(AsView().Missing(), Mandatory))
      ensures data.valid <==> !required || Truthy(value)
      ensures data.status == New <==> !stored && update
      ensures data.status == Unchanged <==>
              (stored || !update) && (database == value || !(Truthy(database) || Truthy(value)))
    {
      var status: Status;
      if !stored && update {
        status := New;
      } else if !Truthy(database) && !Truthy(value) {
        status := Unchanged;
      } else if database == value {
        status := Unchanged;
      } else {
        status := Changed;
      }
      data := Check(true, [], status, heading !in DataHeadings, 0, 0, 0);
      if required && !Truthy(value) {
        data := data.(valid := false, message := data.message + [Mandatory]);
        data := CheckIssue(heading, data);
      }
    }

    /** A further complaint about this cell. */
    function Refuse(c: Check, what: Complaint): Check {
      CheckIssue(heading, c.(valid := false, message := c.message + [what]))
    }

    method ValidateAlpha(t: Tests) returns (r: Outcome)
      requires kind.Alpha?
      ensures r == Verdict(AsView(), None, t)
      ensures r.Raised? <==> (!required || Truthy(value)) && !value.Text?
    {
      var check := ValidateBase();
      if check.valid {
        if !value.Text? {
          return Raised;
        }
        if value.text == 0 || !t.alphabetical(value.text) {
          check := Refuse(check, NotAlphabetical);
        }
      }
      return Checked(check);
    }

    method ValidateChar(t: Tests) returns (check: Check)
      ensures check == AsView().Flagged(
                         if AsView().Missing() then [Mandatory] else When(!t.printable(value), NotText))
    {
      check := ValidateBase();
      if !check.valid {
        return;
      }
      if t.printable(value) {
        check := check.(valid := true);
      } else {
        check := Refuse(check, NotText);
      }
    }

    /** For whole and decimal numbers alike. */
    method ValidateNumber(t: Tests) returns (r: Outcome)
      requires kind.Integer? || kind.Decimal?
      modifies this`value
      ensures r == old(Verdict(AsView(), None, t))
      ensures value == old(After(AsView(), t))
      ensures value == if Truthy(old(value)) then Text(t.compact(old(value))) else old(value)
    {
      var check := ValidateBase();
      if !check.valid {
        return Checked(check);
      }
      var ok := true;
      if Truthy(value) || required {
        value := Text(t.compact(value));
        ok := if kind.Integer? then t.integer(value.text) else t.decimal(value.text);
      }
      if ok {
        check := check.(valid := true);
      } else {
        check := Refuse(check, if kind.Integer? then NotInteger else NotDecimal);
      }
      return Checked(check);
    }

    method ValidateDay(t: Tests) returns (r: Outcome)
      requires kind.Day?
      ensures r == Verdict(AsView(), None, t)
    {
      var check := ValidateBase();
      if !check.valid {
        return Checked(check);
      }
      if !Truthy(value) && !required {
        return Checked(check);
      }
      if !value.Date? {
        return Checked(Refuse(check, BadDate));
      }
      if kind.min.Some? && value.day < kind.min.value {
        check := Refuse(check, TooEarly);
      }
      if kind.max.Some? && value.day > kind.max.value {
        check := Refuse(check, TooLate);
      }
      return Checked(check);
    }

    method ValidateChoice(choices: set<Value>) returns (check: Check)
      ensures check == AsView().Flagged(
                         if AsView().Missing() then [Mandatory]
                         else When(Truthy(value) && value !in choices, NotAChoice))
    {
      check := ValidateBase();
      if check.valid && (Truthy(value) || required) && value !in choices {
        check := Refuse(check, NotAChoice);
      }
    }

    /** The dial code is cut out of the value before anything is checked. */
    method ValidateDialCode(t: Tests) returns (r: Outcome)
      requires kind.DialCode?
      ensures r == Verdict(AsView(), None, t)
      ensures r.Raised? <==> Truthy(value) && !value.Text?
    {
      if Truthy(value) && !value.Text? {
        return Raised;
      }
      var check := ValidateChoice(kind.choices);
      return Checked(check);
    }

    method ValidateEmail(t: Tests) returns (r: Outcome)
      requires kind.Email?
      ensures r == Verdict(AsView(), None, t)
      ensures r.Raised? <==> Truthy(value) && t.printable(value) && !value.Text?
    {
      var check := ValidateChar(t);
      if !check.valid {
        return Checked(check);
      }
      if !required && !Truthy(value) {
        check := check.(valid := true);
      } else {
        if !value.Text? {
          return Raised;
        }
        if !t.email(value.text) {
          check := Refuse(check, BadEmail);
        }
      }
      return Checked(check);
    }

    method ValidatePhoneNumber(t: Tests) returns (r: Outcome)
      requires kind.PhoneNumber?
      ensures r == Verdict(AsView(), None, t)
    {
      var check := ValidateBase();
      if check.valid && !t.phoneNumber(value) {
        check := Refuse(check, BadPhone);
      }
      return Checked(check);
    }

    method ValidateDependantChoice(selection: Option<Value>, t: Tests) returns (r: Outcome)
      requires kind.DependantChoice?
      ensures r == Verdict(AsView(), selection, t)
      ensures r.Raised? <==> (!required || Truthy(value)) && selection.None?
    {
      var check := ValidateBase();
      if !check.valid {
        return Checked(check);
      }
      if selection.None? {
        return Raised;
      }
      if selection.value !in kind.allowed || value !in kind.allowed[selection.value] {
        check := Refuse(check, NotForSelection);
      }
      return Checked(check);
    }

    method ValidateCombination(t: Tests) returns (r: Outcome)
      requires kind.Combination?
      ensures r == Verdict(AsView(), None, t)
      decreases Depth(kind), 0
    {
      var check := ValidateBase();
      if !check.valid {
        return Checked(check);
      }
      var bare := BareKind(kind.combined);
      if bare.None? {
        return Raised;
      }
      var base := new Cell(heading, bare.value, true, true, false, Absent, t.joined(bare.value, kind.parts));
      r := base.Validate(None, t);
    }

    method ValidatePhone(t: Tests) returns (r: Outcome)
      requires kind.Phone?
      ensures r == Verdict(AsView(), None, t)
    {
      var check := ValidateBase();
      if check.valid && Truthy(value) && !t.digits(value) {
        check := Refuse(check, BadPhone);
      }
      return Checked(check);
    }

    method ValidateCurrency(t: Tests) returns (r: Outcome)
      requires kind.CurrencyCode?
      ensures r == Verdict(AsView(), None, t)
    {
      var check := ValidateChar(t);
      if check.valid && Truthy(value) {
        if !(value.Text? && t.currency(value.text)) {
          check := Refuse(check, NotAChoice);
        }
      }
      return Checked(check);
    }

    method ValidateCountry(t: Tests) returns (r: Outcome)
      requires kind.Country?
      ensures r == Verdict(AsView(), None, t)
      ensures r.Raised? <==> Truthy(value) && value in kind.choices && !value.Text?
    {
      var check := ValidateChoice(kind.choices);
      if check.valid && Truthy(value) {
        if !value.Text? {
          return Raised;
        }
        if !t.country(value.text) {
          check := Refuse(check, NotAChoice);
        }
      }
      return Checked(check);
    }

    /** `validate` of whichever class the cell has. */
    method Validate(selection: Option<Value>, t: Tests) returns (r: Outcome)
      modifies this`value
      ensures r == old(Verdict(AsView(), selection, t))
      ensures value == old(After(AsView(), t))
      ensures !kind.Integer? && !kind.Decimal? ==> value == old(value)
      decreases Depth(kind), 1
    {
      match kind {
        case Plain =>
          var check := ValidateBase();
          r := Checked(check);
        case Alpha => r := ValidateAlpha(t);
        case Char =>
          var check := ValidateChar(t);
          r := Checked(check);
        case Integer => r := ValidateNumber(t);
        case Day(_, _) => r := ValidateDay(t);
        case Decimal => r := ValidateNumber(t);
        case Choice(choices) =>
          var check := ValidateChoice(choices);
          r := Checked(check);
        case Email => r := ValidateEmail(t);
        case PhoneNumber => r := ValidatePhoneNumber(t);
        case DependantChoice(_, _) => r := ValidateDependantChoice(selection, t);
        case Combination(_, _) => r := ValidateCombination(t);
        case Phone => r := ValidatePhone(t);
        case DialCode(_) => r := ValidateDialCode(t);
        case CurrencyCode => r := ValidateCurrency(t);
        case Country(_) => r := ValidateCountry(t);
      }
    }
  }
}
