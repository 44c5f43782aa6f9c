/**
 * The payroll importer for one fiscal year's workbook: cell parsers, the
 * HR INFO and EARNINGS row parsers, the join of the two sheets by
 * temporary id, and the batched insert into `payroll` with its counters.
 */
module ImportPayroll {
  import opened Wrappers
  import opened Text
  import opened Numbers
  import opened Cells
  import opened Collections
  import opened Store

  const BatchSize: nat := 1000

  /** `parse_integer`: a whole number, truncating any fraction; `None` when there is none. */
  function ParseInteger(c: Cell): (r: Option<int>)
    ensures c.Int? ==> r == Some(c.i)
    ensures c.Num? ==> r == Some(Trunc(c.d))
    ensures c.Null? || c.Timestamp? ==> r.None?
    ensures c.Str? ==> (r.Some? <==> FloatOfText(c.s).Some?)
    ensures c.Str? && r.Some? ==> r.value == Trunc(FloatOfText(c.s).value)
  {
    match c
    case Null => None
    case Int(i) => Some(i)
    case Num(d) => Some(Trunc(d))
    case Str(s) =>
      var t := Trim(s);
      if t == [] || t == "-" then None
      else (match ParseDecimalLiteral(t)
        case Some(d) => Some(Trunc(d))
        case None => None)
    case Timestamp(_) => None
  }

  /** Blank text and a lone dash stand for no value. */
  predicate IsNullText(s: string) {
    IsBlank(s) || Trim(s) == "-"
  }

  /** Text standing for no value has no number in it. */
  lemma {:induction false} NullTextNoNumber(s: string)
    requires IsNullText(s)
    ensures FloatOfText(s).None? && IntOfText(s).None?
  {
  }

  /** Text that `float()` reads as `d` gives the truncation of `d`. */
  lemma {:induction false} ParseIntegerOfText(s: string, d: Decimal)
    requires FloatOfText(s) == Some(d)
    ensures ParseInteger(Str(s)) == Some(Trunc(d))
  {
  }

  /** A whole number with nothing after the point truncates to itself. */
  lemma {:induction false} TruncInt(i: int)
    ensures Trunc(Decimal(i, 0)) == i
  {
  }

  /** `int(str(i))`: the text of a whole number, with or without blanks around it, reads back as that number. */
  lemma {:induction false} ParseIntegerIntText(i: int)
    ensures ParseInteger(Str(IntText(i))) == Some(i)
    ensures ParseInteger(Str(" " + IntText(i) + " ")) == Some(i)
  {
    IntTextReadsBackAsFloat(i);
    TruncInt(i);
    ParseIntegerOfText(IntText(i), Decimal(i, 0));
    IntTextTrimmed(i);
    TrimPad(IntText(i));
    ParseIntegerOfText(" " + IntText(i) + " ", Decimal(i, 0));
  }

  lemma {:induction false} DigitsOneTwoNine()
    ensures DigitsValue("129") == 129 && DigitsValue("120") == 120
  {
    assert "129"[..2] == "12" && "12"[..1] == "1" && "1"[..0] == "";
    assert "120"[..2] == "12";
  }

  /** `float("12.0")` is 120 tenths. */
  lemma {:induction false} FloatOfTwelvePointZero()
    ensures FloatOfText("12.0") == Some(Decimal(120, 1))
  {
    TrimNoSpace("12.0");
    PointLiteral("12", "0");
    assert "12" + "." + "0" == "12.0" && "12" + "0" == "120";
    DigitsOneTwoNine();
  }

  /** `"12.9"` reads as 129 tenths. */
  lemma {:induction false} TwelvePointNineLiteral()
    ensures ParseDecimalLiteral("12.9") == Some(Decimal(129, 1))
  {
    PointLiteral("12", "9");
    assert "12" + "." + "9" == "12.9" && "12" + "9" == "129";
    DigitsOneTwoNine();
  }

  /** `float("12.9")` is 129 tenths. */
  lemma {:induction false} FloatOfTwelvePointNine()
    ensures FloatOfText("12.9") == Some(Decimal(129, 1))
  {
    TrimNoSpace("12.9");
    TwelvePointNineLiteral();
  }

  /** `float("-12.9")` is -129 tenths. */
  lemma {:induction false} FloatOfMinusTwelvePointNine()
    ensures FloatOfText("-12.9") == Some(Decimal(-129, 1))
  {
    TrimNoSpace("-12.9");
    TwelvePointNineLiteral();
    SignedLiteral(true, "12.9", 129, 1);
    assert "-" + "12.9" == "-12.9";
  }

  /** Decimal text truncates toward zero: `"12.0"` and `"12.9"` give 12, `"-12.9"` gives -12. */
  lemma {:induction false} ParseIntegerTruncates()
    ensures ParseInteger(Str("12.0")) == Some(12)
    ensures ParseInteger(Str("12.9")) == Some(12)
    ensures ParseInteger(Str("-12.9")) == Some(-12)
  {
    FloatOfTwelvePointZero();
    FloatOfTwelvePointNine();
    FloatOfMinusTwelvePointNine();
    ParseIntegerOfText("12.0", Decimal(120, 1));
    ParseIntegerOfText("12.9", Decimal(129, 1));
    ParseIntegerOfText("-12.9", Decimal(-129, 1));
    TruncTenths();
  }

  lemma {:induction false} TruncTenths()
    ensures Trunc(Decimal(120, 1)) == 12 && Trunc(Decimal(129, 1)) == 12 && Trunc(Decimal(-129, 1)) == -12
  {
  }

  /** `parse_float`: the numeric value of a cell; `None` when there is none. */
  function ParseFloat(c: Cell): (r: Option<real>)
    ensures c.Int? ==> r == Some(c.i as real)
    ensures c.Num? ==> r == Some(Value(c.d))
    ensures c.Null? || c.Timestamp? ==> r.None?
    ensures c.Str? ==> (r.Some? <==> FloatOfText(c.s).Some?)
    ensures c.Str? && r.Some? ==> r.value == Value(FloatOfText(c.s).value)
  {
    match c
    case Null => None
    case Int(i) => Some(i as real)
    case Num(d) => Some(Value(d))
    case Str(s) =>
      var t := Trim(s);
      if t == [] || t == "-" then None
      else (match ParseDecimalLiteral(t)
        case Some(d) => Some(Value(d))
        case None => None)
    case Timestamp(_) => None
  }

  /** Text that `float()` reads as `d` gives the value of `d`. */
  lemma {:induction false} ParseFloatOfText(s: string, d: Decimal)
    requires FloatOfText(s) == Some(d)
    ensures ParseFloat(Str(s)) == Some(Value(d))
  {
  }

  /** A number written out by `str()` reads back as the same value. */
  lemma {:induction false} ParseFloatText(d: Decimal, i: int)
    ensures ParseFloat(Str(FloatText(d))) == Some(Value(d))
    ensures ParseFloat(Str(IntText(i))) == Some(i as real)
  {
    FloatTextReadsBack(d);
    ParseFloatOfText(FloatText(d), FloatOfText(FloatText(d)).value);
    IntTextReadsBackAsFloat(i);
    ParseFloatOfText(IntText(i), Decimal(i, 0));
    WholeValue(i);
  }

  /** `parse_text`: trimmed, non-empty text other than `-`; numbers by their `str()` unless zero. */
  function ParseText(c: Cell): (r: Option<string>)
    ensures r.Some? ==> r.value != [] && r.value != "-" && Trim(r.value) == r.value
    ensures r.None? <==> c.Null? || c.Timestamp? || ((c.Int? || c.Num?) && !Truthy(c)) || (c.Str? && IsNullText(c.s))
    ensures c.Str? && r.Some? ==> r.value == Trim(c.s)
    ensures (c.Int? || c.Num?) && r.Some? ==> r.value == CellText(c)
  {
    match c
    case Null => None
    case Int(i) =>
      if i != 0 then
        IntTextTrimmed(i);
        Some(Trim(IntText(i)))
      else None
    case Num(d) =>
      if d.mant != 0 then
        FloatTextChars(d);
        NumberTextTrimmed(FloatText(d));
        Some(Trim(FloatText(d)))
      else None
    case Str(s) =>
      var t := Trim(s);
      TrimIdempotent(s);
      if t != [] && t != "-" then Some(t) else None
    case Timestamp(_) => None
  }

  /** `parse_last_hire_date`: numbers and numeric text as whole-number text, other text trimmed. */
  function ParseLastHireDate(c: Cell): (r: Option<string>)
    ensures r.None? <==> c.Null? || c.Timestamp? || (c.Str? && IsNullText(c.s))
    ensures c.Int? ==> r == Some(IntText(c.i))
    ensures c.Num? ==> r == Some(IntText(Trunc(c.d)))
    ensures c.Str? && FloatOfText(c.s).Some? ==> r == Some(IntText(Trunc(FloatOfText(c.s).value)))
    ensures c.Str? && FloatOfText(c.s).None? && !IsNullText(c.s) ==> r == Some(Trim(c.s))
  {
    match c
    case Null => None
    case Int(i) => Some(IntText(i))
    case Num(d) => Some(IntText(Trunc(d)))
    case Str(s) =>
      var t := Trim(s);
      if t == "-" || t == [] then None
      else (match ParseDecimalLiteral(t)
        case Some(d) => Some(IntText(Trunc(d)))
        case None => Some(t))
    case Timestamp(_) => None
  }

  lemma {:induction false} SerialDateDigits()
    ensures DigitsValue("440000") == 440000
  {
    assert "440000"[..5] == "44000" && "44000"[..4] == "4400";
    assert "4400"[..3] == "440" && "440"[..2] == "44" && "44"[..1] == "4" && "4"[..0] == "";
  }

  lemma {:induction false} SerialDateLiteral()
    ensures ParseDecimalLiteral("44000.0") == Some(Decimal(440000, 1))
  {
    PointLiteral("44000", "0");
    assert "44000" + "." + "0" == "44000.0" && "44000" + "0" == "440000";
    SerialDateDigits();
  }

  /** `float("44000.0")` is 440000 tenths. */
  lemma {:induction false} FloatOfSerialDate()
    ensures FloatOfText("44000.0") == Some(Decimal(440000, 1))
  {
    TrimNoSpace("44000.0");
    SerialDateLiteral();
  }

  /** `str(44000)`. */
  lemma {:induction false} SerialDateText()
    ensures IntText(44000) == "44000"
  {
    assert NatText(4) == "4" && NatText(44) == "44" && NatText(440) == "440" && NatText(4400) == "4400";
  }

  /** Text that `float()` reads as `d` gives the whole part of `d`. */
  lemma {:induction false} ParseLastHireDateOfNumber(s: string, d: Decimal)
    requires FloatOfText(s) == Some(d)
    ensures ParseLastHireDate(Str(s)) == Some(IntText(Trunc(d)))
  {
  }

  lemma {:induction false} TruncSerialDate()
    ensures Trunc(Decimal(440000, 1)) == 44000
  {
  }

  /** `"44000.0"`, a date serial written as a float, is canonicalised to `"44000"`. */
  lemma {:induction false} LastHireDateSerial()
    ensures ParseLastHireDate(Str("44000.0")) == Some("44000")
  {
    FloatOfSerialDate();
    ParseLastHireDateOfNumber("44000.0", Decimal(440000, 1));
    TruncSerialDate();
    SerialDateText();
  }

  /** A dash with blanks around it is no date. */
  lemma {:induction false} LastHireDateDash()
    ensures ParseLastHireDate(Str(" - ")) == None
  {
    TrimPad("-");
    assert " - " == " " + "-" + " ";
  }

  /** Whole-number text is its own last hire date. */
  lemma {:induction false} LastHireDateOfIntText(n: int)
    ensures ParseLastHireDate(Str(IntText(n))) == Some(IntText(n))
  {
    IntTextReadsBackAsFloat(n);
    TruncInt(n);
  }

  /** Stripped text that is not a number is its own last hire date. */
  lemma {:induction false} LastHireDateOfText(s: string)
    requires FloatOfText(s).None? && !IsNullText(s)
    ensures ParseLastHireDate(Str(Trim(s))) == Some(Trim(s))
  {
    TrimIdempotent(s);
  }

  /** The text produced is stable: parsing it again gives it back. */
  lemma {:induction false} LastHireDateIdempotent(c: Cell)
    requires ParseLastHireDate(c).Some?
    ensures ParseLastHireDate(Str(ParseLastHireDate(c).value)) == ParseLastHireDate(c)
  {
    if c.Int? {
      LastHireDateOfIntText(c.i);
    } else if c.Num? {
      LastHireDateOfIntText(Trunc(c.d));
    } else if c.Str? && FloatOfText(c.s).Some? {
      LastHireDateOfIntText(Trunc(FloatOfText(c.s).value));
    } else {
      LastHireDateOfText(c.s);
    }
  }

  /** The dict `{header: value}` of one row, cells beyond the row's end being `None`. */
  function RowPairs(headers: seq<Cell>, row: seq<Cell>): (p: seq<(Cell, Cell)>)
    ensures |p| == |headers|
    ensures forall i :: 0 <= i < |headers| ==> p[i] == (headers[i], CellAt(row, i + 1))
  {
    seq(|headers|, i requires 0 <= i < |headers| => (headers[i], CellAt(row, i + 1)))
  }

  /** The row dict: each header maps to its cell; a repeated header keeps its last column. */
  function RowData(headers: seq<Cell>, row: seq<Cell>): map<Cell, Cell> {
    LastMap(RowPairs(headers, row))
  }

  /** The row dict has exactly the headers as keys, so a name no header carries is read as `None`. */
  lemma {:induction false} RowDataKeys(headers: seq<Cell>, row: seq<Cell>)
    ensures forall key :: key in RowData(headers, row) <==> key in headers
  {
    var p := RowPairs(headers, row);
    forall key ensures key in KeysOf(p) <==> key in headers {
      if key in headers {
        var i :| 0 <= i < |headers| && headers[i] == key;
        assert p[i].0 == key;
      }
    }
  }

  /** The column a header names gives the value; a header past the row's end gives `None`. */
  lemma {:induction false} RowDataLookup(headers: seq<Cell>, row: seq<Cell>, i: nat)
    requires i < |headers|
    requires forall j :: i < j < |headers| ==> headers[j] != headers[i]
    ensures Get(RowData(headers, row), headers[i]) == if i < |row| then row[i] else Null
  {
    LastMapValue(RowPairs(headers, row), i);
  }

  /** The loop of `parse_hr_row`/`parse_earnings_row` that fills the row dict. */
  method BuildRowData(headers: seq<Cell>, row: seq<Cell>) returns (data: map<Cell, Cell>)
    ensures data == RowData(headers, row)
  {
    data := map[];
    var i := 0;
    while i < |headers|
      invariant i <= |headers|
      invariant data == LastMap(RowPairs(headers, row)[..i])
    {
      var value := if i < |row| then row[i] else Null;
      LastMapSnoc(RowPairs(headers, row)[..i], (headers[i], value));
      assert RowPairs(headers, row)[..i + 1] == RowPairs(headers, row)[..i] + [(headers[i], value)];
      data := data[headers[i] := value];
      i := i + 1;
    }
    assert RowPairs(headers, row)[..i] == RowPairs(headers, row);
  }

  /** The value under a named column. */
  function Field(data: map<Cell, Cell>, name: string): Cell {
    Get(data, Str(name))
  }

  /** One employee record of the HR INFO sheet. */
  datatype HrRecord = HrRecord(
    temporaryId: string,
    recordNbr: Option<int>,
    employeeName: Option<string>,
    agencyNbr: Option<string>,
    agencyName: Option<string>,
    departmentNbr: Option<string>,
    departmentName: Option<string>,
    branchCode: Option<string>,
    branchName: Option<string>,
    jobCode: Option<string>,
    jobTitle: Option<string>,
    locationNbr: Option<string>,
    locationName: Option<string>,
    locationCountyName: Option<string>,
    regTempCode: Option<string>,
    regTempDesc: Option<string>,
    classifiedCode: Option<string>,
    classifiedDesc: Option<string>,
    originalHireDate: Option<int>,
    lastHireDate: Option<string>,
    jobEntryDate: Option<int>,
    fullPartTimeCode: Option<string>,
    fullPartTimeDesc: Option<string>,
    salaryPlanGrid: Option<string>,
    salaryGradeRange: Option<int>,
    maxSalaryStep: Option<int>,
    compensationRate: Option<real>,
    compFrequencyCode: Option<string>,
    compFrequencyDesc: Option<string>,
    positionFte: Option<real>,
    bargainingUnitNbr: Option<int>,
    bargainingUnitName: Option<string>,
    activeOnJune30: Option<string>)

  /** The HR record of a row dict; `None` when the row has no temporary id. */
  function ParseHrData(data: map<Cell, Cell>, active: Option<Cell>): (r: Option<HrRecord>)
    ensures r.None? <==> ParseText(Field(data, "TEMPORARY_ID")).None?
    ensures r.Some? ==> r.value.temporaryId == ParseText(Field(data, "TEMPORARY_ID")).value
    ensures r.Some? && active.None? ==> r.value.activeOnJune30.None?
  {
    var tid := ParseText(Field(data, "TEMPORARY_ID"));
    if tid.None? then None
    else
      Some(HrRecord(
        tid.value,
        ParseInteger(Field(data, "RECORD_NBR")),
        ParseText(Field(data, "EMPLOYEE_NAME")),
        ParseText(Field(data, "AGENCY_NBR")),
        ParseText(Field(data, "AGENCY_NAME")),
        ParseText(Field(data, "DEPARTMENT_NBR")),
        ParseText(Field(data, "DEPARTMENT_NAME")),
        ParseText(Field(data, "BRANCH_CODE")),
        ParseText(Field(data, "BRANCH_NAME")),
        ParseText(Field(data, "JOB_CODE")),
        ParseText(Field(data, "JOB_TITLE")),
        ParseText(Field(data, "LOCATION_NBR")),
        ParseText(Field(data, "LOCATION_NAME")),
        ParseText(Field(data, "LOCATION_COUNTY_NAME")),
        ParseText(Field(data, "REG_TEMP_CODE")),
        ParseText(Field(data, "REG_TEMP_DESC")),
        ParseText(Field(data, "CLASSIFIED_CODE")),
        ParseText(Field(data, "CLASSIFIED_DESC")),
        ParseInteger(Field(data, "ORIGINAL_HIRE_DATE")),
        ParseLastHireDate(Field(data, "LAST_HIRE_DATE")),
        ParseInteger(Field(data, "JOB_ENTRY_DATE")),
        ParseText(Field(data, "FULL_PART_TIME_CODE")),
        ParseText(Field(data, "FULL_PART_TIME_DESC")),
        ParseText(Field(data, "SALARY_PLAN_GRID")),
        ParseInteger(Field(data, "SALARY_GRADE_RANGE")),
        ParseInteger(Field(data, "MAX_SALARY_STEP")),
        ParseFloat(Field(data, "COMPENSATION_RATE")),
        ParseText(Field(data, "COMP_FREQUENCY_CODE")),
        ParseText(Field(data, "COMP_FREQUENCY_DESC")),
        ParseFloat(Field(data, "POSITION_FTE")),
        ParseInteger(Field(data, "BARGAINING_UNIT_NBR")),
        ParseText(Field(data, "BARGAINING_UNIT_NAME")),
        match active
        case Some(h) => if Truthy(h) then ParseText(Get(data, h)) else None
        case None => None))
  }

  /** `parse_hr_row`: the HR record of one row, `None` exactly when its temporary id is missing. */
  function ParseHrRow(row: seq<Cell>, headers: seq<Cell>, active: Option<Cell>): (r: Option<HrRecord>)
    ensures r.None? <==> ParseText(Get(RowData(headers, row), Str("TEMPORARY_ID"))).None?
    ensures r.Some? ==> r.value.temporaryId != [] && Trim(r.value.temporaryId) == r.value.temporaryId
  {
    ParseHrData(RowData(headers, row), active)
  }

  /** One row of the EARNINGS sheet. */
  datatype EarningsRecord = EarningsRecord(
    temporaryId: string,
    regularWages: real,
    overtimeWages: real,
    otherWages: real,
    totalWages: real)

  /** `parse_float(value) or 0.0`. */
  function WageOrZero(c: Cell): (w: real)
    ensures ParseFloat(c).None? ==> w == 0.0
    ensures ParseFloat(c).Some? ==> w == ParseFloat(c).value
  {
    match ParseFloat(c)
    case Some(v) => v
    case None => 0.0
  }

  /** A missing, blank, dash or unreadable wage is 0.0. */
  lemma {:induction false} WageOrZeroDefaults(s: string)
    requires IsNullText(s) || FloatOfText(s).None?
    ensures WageOrZero(Str(s)) == 0.0 && WageOrZero(Null) == 0.0
  {
  }

  /** The earnings record of a row dict; `None` when the row has no temporary id. */
  function ParseEarningsData(data: map<Cell, Cell>): (r: Option<EarningsRecord>)
    ensures r.None? <==> ParseText(Field(data, "TEMPORARY_ID")).None?
    ensures r.Some? ==> r.value.temporaryId == ParseText(Field(data, "TEMPORARY_ID")).value
    ensures r.Some? ==> r.value.regularWages == WageOrZero(Field(data, "REGULAR_WAGES"))
    ensures r.Some? ==> r.value.overtimeWages == WageOrZero(Field(data, "OVERTIME_WAGES"))
    ensures r.Some? ==> r.value.otherWages == WageOrZero(Field(data, "OTHER_WAGES"))
    ensures r.Some? ==> r.value.totalWages == WageOrZero(Field(data, "TOTAL_WAGES"))
  {
    var tid := ParseText(Field(data, "TEMPORARY_ID"));
    if tid.None? then None
    else
      Some(EarningsRecord(
        tid.value,
        WageOrZero(Field(data, "REGULAR_WAGES")),
        WageOrZero(Field(data, "OVERTIME_WAGES")),
        WageOrZero(Field(data, "OTHER_WAGES")),
        WageOrZero(Field(data, "TOTAL_WAGES"))))
  }

  /** `parse_earnings_row`: the four wages are always numbers, 0.0 where the cell gives none. */
  function ParseEarningsRow(row: seq<Cell>, headers: seq<Cell>): (r: Option<EarningsRecord>)
    ensures r.None? <==> ParseText(Get(RowData(headers, row), Str("TEMPORARY_ID"))).None?
    ensures r.Some? ==> r.value.temporaryId != []
    ensures r.Some? ==> r.value.regularWages == WageOrZero(Get(RowData(headers, row), Str("REGULAR_WAGES")))
    ensures r.Some? ==> r.value.overtimeWages == WageOrZero(Get(RowData(headers, row), Str("OVERTIME_WAGES")))
    ensures r.Some? ==> r.value.otherWages == WageOrZero(Get(RowData(headers, row), Str("OTHER_WAGES")))
    ensures r.Some? ==> r.value.totalWages == WageOrZero(Get(RowData(headers, row), Str("TOTAL_WAGES")))
  {
    ParseEarningsData(RowData(headers, row))
  }

  /** The HR records of a sheet's rows, in row order, rows without an id dropped. */
  function HrRecords(headers: seq<Cell>, rows: seq<seq<Cell>>, active: Option<Cell>): (r: seq<HrRecord>)
    ensures |r| <= |rows|
  {
    if rows == [] then []
    else
      var init := HrRecords(headers, rows[..|rows| - 1], active);
      match ParseHrRow(rows[|rows| - 1], headers, active)
      case Some(rec) => init + [rec]
      case None => init
  }

  /** The earnings records of a sheet's rows, in row order, rows without an id dropped. */
  function EarningsRecords(headers: seq<Cell>, rows: seq<seq<Cell>>): (r: seq<EarningsRecord>)
    ensures |r| <= |rows|
  {
    if rows == [] then []
    else
      var init := EarningsRecords(headers, rows[..|rows| - 1]);
      match ParseEarningsRow(rows[|rows| - 1], headers)
      case Some(rec) => init + [rec]
      case None => init
  }

  /** The `(id, record)` assignments of a loop that stores each record under its own id. */
  function Keyed<R>(recs: seq<R>, id: R -> string): (p: seq<(string, R)>)
    ensures |p| == |recs| && forall i :: 0 <= i < |recs| ==> p[i] == (id(recs[i]), recs[i])
  {
    seq(|recs|, i requires 0 <= i < |recs| => (id(recs[i]), recs[i]))
  }

  /** The key of `hr_data`. */
  function HrId(rec: HrRecord): string {
    rec.temporaryId
  }

  /** The key of `earnings_data`. */
  function EarningsId(rec: EarningsRecord): string {
    rec.temporaryId
  }

  /** The temporary ids of HR records, in order. */
  function HrIds(recs: seq<HrRecord>): (ids: seq<string>)
    ensures |ids| == |recs| && forall i :: 0 <= i < |recs| ==> ids[i] == recs[i].temporaryId
  {
    seq(|recs|, i requires 0 <= i < |recs| => recs[i].temporaryId)
  }

  /** One row of `payroll`: an HR record, the fiscal year as text and the four wages. */
  datatype PayrollRow = PayrollRow(
    hr: HrRecord,
    fiscalYear: string,
    regularWages: real,
    overtimeWages: real,
    otherWages: real,
    totalWages: real)

  /** The combined record of one id: wages from its earnings record, 0.0 without one. */
  function Combine(hr: HrRecord, earnings: Option<EarningsRecord>, fiscalYear: int): PayrollRow {
    match earnings
    case Some(e) => PayrollRow(hr, IntText(fiscalYear), e.regularWages, e.overtimeWages, e.otherWages, e.totalWages)
    case None => PayrollRow(hr, IntText(fiscalYear), 0.0, 0.0, 0.0, 0.0)
  }

  /** Every stored HR record is the one of the id it is stored under. */
  lemma {:induction false} HrDataKeyed(recs: seq<HrRecord>, x: string)
    requires x in LastMap(Keyed(recs, HrId))
    ensures LastMap(Keyed(recs, HrId))[x].temporaryId == x
  {
    LastMapFrom(Keyed(recs, HrId), x);
  }

  /** Every id seen among the HR records is a key of `hr_data`. */
  lemma {:induction false} HrIdsAreKeys(recs: seq<HrRecord>, x: string)
    requires x in HrIds(recs)
    ensures x in LastMap(Keyed(recs, HrId))
  {
    var i :| 0 <= i < |recs| && HrIds(recs)[i] == x;
    assert Keyed(recs, HrId)[i].0 == x;
  }

  /**
   * The join: one record per distinct HR id, in the order the ids were
   * first seen, with the last HR record of that id and the wages of the
   * last earnings record of that id.
   */
  function Join(hr: seq<HrRecord>, earnings: seq<EarningsRecord>, fiscalYear: int): (r: seq<PayrollRow>)
    ensures |r| == |Dedup(HrIds(hr))|
    ensures forall k :: 0 <= k < |r| ==> r[k].hr.temporaryId == Dedup(HrIds(hr))[k] && r[k].fiscalYear == IntText(fiscalYear)
    ensures forall k, l :: 0 <= k < l < |r| ==> r[k].hr.temporaryId != r[l].hr.temporaryId
  {
    var hrData := LastMap(Keyed(hr, HrId));
    var earningsData := LastMap(Keyed(earnings, EarningsId));
    var ids := Dedup(HrIds(hr));
    assert forall k :: 0 <= k < |ids| ==> ids[k] in hrData && hrData[ids[k]].temporaryId == ids[k] by {
      forall k | 0 <= k < |ids| ensures ids[k] in hrData && hrData[ids[k]].temporaryId == ids[k] {
        HrIdsAreKeys(hr, ids[k]);
        HrDataKeyed(hr, ids[k]);
      }
    }
    seq(|ids|, k requires 0 <= k < |ids| =>
      Combine(hrData[ids[k]], if ids[k] in earningsData then Some(earningsData[ids[k]]) else None, fiscalYear))
  }

  /** The joined record at position `k`: the last HR record of the `k`-th id, with that id's last earnings record if any. */
  lemma {:induction false} JoinAt(hr: seq<HrRecord>, earnings: seq<EarningsRecord>, fiscalYear: int, k: nat)
    requires k < |Dedup(HrIds(hr))|
    ensures var id := Dedup(HrIds(hr))[k];
      var earningsData := LastMap(Keyed(earnings, EarningsId));
      && id in LastMap(Keyed(hr, HrId))
      && Join(hr, earnings, fiscalYear)[k]
         == Combine(LastMap(Keyed(hr, HrId))[id], if id in earningsData then Some(earningsData[id]) else None, fiscalYear)
  {
    HrIdsAreKeys(hr, Dedup(HrIds(hr))[k]);
  }

  /** There are as many joined records as distinct HR ids. */
  lemma {:induction false} JoinCount(hr: seq<HrRecord>, earnings: seq<EarningsRecord>, fiscalYear: int)
    ensures |Join(hr, earnings, fiscalYear)| == |set x | x in HrIds(hr)|
  {
    DedupLength(HrIds(hr));
  }

  /** The last HR row with an id supplies that id's record. */
  lemma {:induction false} JoinTakesLastHrRow(hr: seq<HrRecord>, earnings: seq<EarningsRecord>, fiscalYear: int, i: nat)
    requires i < |hr|
    requires forall j :: i < j < |hr| ==> hr[j].temporaryId != hr[i].temporaryId
    ensures exists k :: 0 <= k < |Join(hr, earnings, fiscalYear)| && Join(hr, earnings, fiscalYear)[k].hr == hr[i]
  {
    var ids := Dedup(HrIds(hr));
    var x := hr[i].temporaryId;
    assert HrIds(hr)[i] == x;
    assert x in ids;
    var k :| 0 <= k < |ids| && ids[k] == x;
    LastMapValue(Keyed(hr, HrId), i);
    assert Join(hr, earnings, fiscalYear)[k].hr == LastMap(Keyed(hr, HrId))[x];
  }

  /** Wages come from the last earnings row with the same id, and are 0.0 when there is none. */
  lemma {:induction false} JoinWages(hr: seq<HrRecord>, earnings: seq<EarningsRecord>, fiscalYear: int, k: nat)
    requires k < |Join(hr, earnings, fiscalYear)|
    ensures var row := Join(hr, earnings, fiscalYear)[k];
      (forall j :: 0 <= j < |earnings| ==> earnings[j].temporaryId != row.hr.temporaryId)
      ==> row.regularWages == 0.0 && row.overtimeWages == 0.0 && row.otherWages == 0.0 && row.totalWages == 0.0
    ensures var row := Join(hr, earnings, fiscalYear)[k];
      forall j :: 0 <= j < |earnings| && earnings[j].temporaryId == row.hr.temporaryId
        && (forall l :: j < l < |earnings| ==> earnings[l].temporaryId != row.hr.temporaryId)
        ==> row.totalWages == earnings[j].totalWages && row.regularWages == earnings[j].regularWages
            && row.overtimeWages == earnings[j].overtimeWages && row.otherWages == earnings[j].otherWages
  {
    var row := Join(hr, earnings, fiscalYear)[k];
    var x := row.hr.temporaryId;
    var p := Keyed(earnings, EarningsId);
    if x in LastMap(p) {
      var j :| 0 <= j < |p| && p[j].0 == x;
      assert earnings[j].temporaryId == x;
    }
    forall j | 0 <= j < |earnings| && earnings[j].temporaryId == x
      && (forall l :: j < l < |earnings| ==> earnings[l].temporaryId != x)
      ensures row.totalWages == earnings[j].totalWages && row.regularWages == earnings[j].regularWages
        && row.overtimeWages == earnings[j].overtimeWages && row.otherWages == earnings[j].otherWages
    {
      LastMapValue(p, j);
    }
  }

  /** Ids keep the place where they first occur among the HR rows. */
  lemma {:induction false} JoinOrder(hr: seq<HrRecord>, earnings: seq<EarningsRecord>, fiscalYear: int, k: nat, l: nat)
    requires k < l < |Join(hr, earnings, fiscalYear)|
    ensures FirstIndex(HrIds(hr), Join(hr, earnings, fiscalYear)[k].hr.temporaryId)
          < FirstIndex(HrIds(hr), Join(hr, earnings, fiscalYear)[l].hr.temporaryId)
  {
    DedupFirstOccurrenceOrder(HrIds(hr), k, l);
  }

  /** The counters after one more batch of `size` rows, given how its insert went. */
  function Tally(t: (nat, nat), outcome: Outcome, size: nat): (nat, nat) {
    match outcome
    case Ok(n) => (t.0 + (if n > 0 then n else size), t.1)
    case Fail => (t.0, t.1 + size)
  }

  /** The counters after inserting `batches`: rows reported inserted, and rows of failed batches. */
  function InsertTotals<T>(batches: seq<seq<T>>, store: seq<Outcome>): (t: (nat, nat))
  {
    if batches == [] then (0, 0)
    else Tally(InsertTotals(batches[..|batches| - 1], store), OutcomeAt(store, |batches| - 1), |batches[|batches| - 1]|)
  }

  /** Whether every insert answered with no data or with as many rows as it was sent. */
  predicate ReportsBatchSizes<T>(batches: seq<seq<T>>, store: seq<Outcome>) {
    forall k :: 0 <= k < |batches| ==> OutcomeAt(store, k).Ok? ==> OutcomeAt(store, k).rows in {0, |batches[k]|}
  }

  /**
   * No row is lost from the counters: when each insert reports its batch
   * (or nothing), inserted plus skipped is the number of rows sent, and
   * skipped counts exactly the rows of the failed batches.
   */
  lemma {:induction false} InsertTotalsAccount<T>(batches: seq<seq<T>>, store: seq<Outcome>)
    requires ReportsBatchSizes(batches, store)
    ensures InsertTotals(batches, store).0 + InsertTotals(batches, store).1 == |Flatten(batches)|
    ensures (forall k :: 0 <= k < |batches| ==> OutcomeAt(store, k).Fail?) ==> InsertTotals(batches, store).0 == 0
    ensures (forall k :: 0 <= k < |batches| ==> OutcomeAt(store, k).Ok?) ==> InsertTotals(batches, store).1 == 0
  {
    if batches != [] {
      var init := batches[..|batches| - 1];
      var last := batches[|batches| - 1];
      assert ReportsBatchSizes(init, store) by {
        forall k | 0 <= k < |init| ensures init[k] == batches[k] { }
      }
      InsertTotalsAccount(init, store);
      assert batches == init + [last];
      FlattenAppend(init, [last]);
      assert Flatten([last]) == last + Flatten([last][1..]);
      assert Flatten([last][1..]) == [];
    }
  }

  /** One more row: its record, when it has one, is appended. */
  lemma {:induction false} HrRecordsStep(headers: seq<Cell>, rows: seq<seq<Cell>>, r: nat, active: Option<Cell>)
    requires r < |rows|
    ensures HrRecords(headers, rows[..r + 1], active)
      == HrRecords(headers, rows[..r], active)
         + (if ParseHrRow(rows[r], headers, active).Some? then [ParseHrRow(rows[r], headers, active).value] else [])
  {
    assert rows[..r + 1][..r] == rows[..r];
  }

  /** One more row: its record, when it has one, is appended. */
  lemma {:induction false} EarningsRecordsStep(headers: seq<Cell>, rows: seq<seq<Cell>>, r: nat)
    requires r < |rows|
    ensures EarningsRecords(headers, rows[..r + 1])
      == EarningsRecords(headers, rows[..r])
         + (if ParseEarningsRow(rows[r], headers).Some? then [ParseEarningsRow(rows[r], headers).value] else [])
  {
    assert rows[..r + 1][..r] == rows[..r];
  }

  /** Storing one more HR record: it replaces the id's value, and a new id goes to the end of the key order. */
  lemma {:induction false} HrDataStep(recs: seq<HrRecord>, rec: HrRecord)
    ensures LastMap(Keyed(recs + [rec], HrId)) == LastMap(Keyed(recs, HrId))[rec.temporaryId := rec]
    ensures Dedup(HrIds(recs + [rec]))
      == if rec.temporaryId in Dedup(HrIds(recs)) then Dedup(HrIds(recs)) else Dedup(HrIds(recs)) + [rec.temporaryId]
  {
    LastMapSnoc(Keyed(recs, HrId), (rec.temporaryId, rec));
    assert Keyed(recs + [rec], HrId) == Keyed(recs, HrId) + [(rec.temporaryId, rec)];
    assert HrIds(recs + [rec]) == HrIds(recs) + [rec.temporaryId];
    DedupSnoc(HrIds(recs), rec.temporaryId);
  }

  /** Storing one more earnings record replaces the id's value. */
  lemma {:induction false} EarningsDataStep(recs: seq<EarningsRecord>, rec: EarningsRecord)
    ensures LastMap(Keyed(recs + [rec], EarningsId)) == LastMap(Keyed(recs, EarningsId))[rec.temporaryId := rec]
  {
    LastMapSnoc(Keyed(recs, EarningsId), (rec.temporaryId, rec));
    assert Keyed(recs + [rec], EarningsId) == Keyed(recs, EarningsId) + [(rec.temporaryId, rec)];
  }

  /** The HR loop of `import_payroll_file`: `hr_data` and the order in which its keys were first stored. */
  method CollectHr(headers: seq<Cell>, rows: seq<seq<Cell>>, active: Option<Cell>)
    returns (hrData: map<string, HrRecord>, hrOrder: seq<string>)
    ensures hrData == LastMap(Keyed(HrRecords(headers, rows, active), HrId))
    ensures hrOrder == Dedup(HrIds(HrRecords(headers, rows, active)))
  {
    hrData, hrOrder := map[], [];
    ghost var recs: seq<HrRecord> := [];
    var r := 0;
    while r < |rows|
      invariant r <= |rows|
      invariant recs == HrRecords(headers, rows[..r], active)
      invariant hrData == LastMap(Keyed(recs, HrId))
      invariant hrOrder == Dedup(HrIds(recs))
    {
      var data := BuildRowData(headers, rows[r]);
      var parsed := ParseHrData(data, active);
      HrRecordsStep(headers, rows, r, active);
      if parsed.Some? {
        var rec := parsed.value;
        HrDataStep(recs, rec);
        if rec.temporaryId !in hrOrder {
          hrOrder := hrOrder + [rec.temporaryId];
        }
        hrData := hrData[rec.temporaryId := rec];
        recs := recs + [rec];
      }
      r := r + 1;
    }
    assert rows[..r] == rows;
  }

  /** The earnings loop of `import_payroll_file`: `earnings_data`, the last record of each id. */
  method CollectEarnings(headers: seq<Cell>, rows: seq<seq<Cell>>)
    returns (earningsData: map<string, EarningsRecord>)
    ensures earningsData == LastMap(Keyed(EarningsRecords(headers, rows), EarningsId))
  {
    earningsData := map[];
    ghost var recs: seq<EarningsRecord> := [];
    var r := 0;
    while r < |rows|
      invariant r <= |rows|
      invariant recs == EarningsRecords(headers, rows[..r])
      invariant earningsData == LastMap(Keyed(recs, EarningsId))
    {
      var data := BuildRowData(headers, rows[r]);
      var parsed := ParseEarningsData(data);
      EarningsRecordsStep(headers, rows, r);
      if parsed.Some? {
        var rec := parsed.value;
        EarningsDataStep(recs, rec);
        earningsData := earningsData[rec.temporaryId := rec];
        recs := recs + [rec];
      }
      r := r + 1;
    }
    assert rows[..r] == rows;
  }

  /** The loop over `hr_data` that builds the payroll records, in key order. */
  method JoinRecords(hrData: map<string, HrRecord>, hrOrder: seq<string>,
                     earningsData: map<string, EarningsRecord>, fiscalYear: int,
                     ghost hr: seq<HrRecord>, ghost earnings: seq<EarningsRecord>)
    returns (records: seq<PayrollRow>)
    requires hrData == LastMap(Keyed(hr, HrId)) && hrOrder == Dedup(HrIds(hr))
    requires earningsData == LastMap(Keyed(earnings, EarningsId))
    ensures records == Join(hr, earnings, fiscalYear)
  {
    ghost var joined := Join(hr, earnings, fiscalYear);
    records := [];
    var k := 0;
    while k < |hrOrder|
      invariant k <= |hrOrder| == |joined|
      invariant records == joined[..k]
    {
      var id := hrOrder[k];
      JoinAt(hr, earnings, fiscalYear, k);
      var e := if id in earningsData then Some(earningsData[id]) else None;
      records := records + [Combine(hrData[id], e, fiscalYear)];
      assert records == joined[..k + 1];
      k := k + 1;
    }
  }

  /** Sending one more batch adds its outcome to the counters. */
  lemma {:induction false} InsertTotalsStep<T>(sent: seq<seq<T>>, batch: seq<T>, store: seq<Outcome>)
    ensures InsertTotals(sent + [batch], store) == Tally(InsertTotals(sent, store), OutcomeAt(store, |sent|), |batch|)
  {
    assert (sent + [batch])[..|sent|] == sent;
  }

  /** One more turn of the batch loop: the next slice is the next batch, and its outcome updates the counters. */
  lemma {:induction false} InsertStep<T>(records: seq<T>, i: nat, sent: seq<seq<T>>, store: seq<Outcome>)
    requires i < |records|
    requires Batches(records, BatchSize) == sent + Batches(records[i..], BatchSize)
    ensures var j := if i + BatchSize < |records| then i + BatchSize else |records|;
      && Batches(records, BatchSize) == (sent + [records[i..j]]) + Batches(records[j..], BatchSize)
      && InsertTotals(sent + [records[i..j]], store) == Tally(InsertTotals(sent, store), OutcomeAt(store, |sent|), j - i)
  {
    var j := if i + BatchSize < |records| then i + BatchSize else |records|;
    SendNext(records, i, BatchSize, sent);
    InsertTotalsStep(sent, records[i..j], store);
  }

  /** The batch loop: batches of 1000 in order; a failed batch is counted as skipped and the loop goes on. */
  method InsertBatches<T>(records: seq<T>, store: seq<Outcome>)
    returns (inserted: nat, skipped: nat, sent: seq<seq<T>>)
    ensures sent == Batches(records, BatchSize)
    ensures (inserted, skipped) == InsertTotals(sent, store)
  {
    ghost var all := Batches(records, BatchSize);
    inserted, skipped, sent := 0, 0, [];
    var i := 0;
    while i < |records|
      invariant i <= |records|
      invariant all == sent + Batches(records[i..], BatchSize)
      invariant (inserted, skipped) == InsertTotals(sent, store)
      decreases |records| - i
    {
      var j := if i + BatchSize < |records| then i + BatchSize else |records|;
      var batch := records[i..j];
      var outcome := OutcomeAt(store, |sent|);
      InsertStep(records, i, sent, store);
      if outcome.Ok? {
        inserted := inserted + (if outcome.rows > 0 then outcome.rows else |batch|);
      } else {
        skipped := skipped + |batch|;
      }
      sent := sent + [batch];
      i := j;
    }
    assert records[i..] == [];
  }

  /** The outcome of `import_payroll_file`: rows inserted, rows skipped, and the batches sent in call order. */
  method ImportPayrollFile(wb: Workbook, fiscalYear: int, store: seq<Outcome>)
    returns (inserted: nat, skipped: nat, sent: seq<seq<PayrollRow>>)
    ensures FindSheetByPattern(SheetNames(wb), "HR INFO").None? || FindSheetByPattern(SheetNames(wb), "EARNINGS").None?
      ==> inserted == 0 && skipped == 0 && sent == []
    ensures FindSheetByPattern(SheetNames(wb), "HR INFO").Some? && FindSheetByPattern(SheetNames(wb), "EARNINGS").Some?
      ==> var hrSheet := SheetNamed(wb, FindSheetByPattern(SheetNames(wb), "HR INFO").value);
          var earnSheet := SheetNamed(wb, FindSheetByPattern(SheetNames(wb), "EARNINGS").value);
          var records := Join(HrRecords(hrSheet.header, hrSheet.rows, ActiveColumn(wb)),
                              EarningsRecords(earnSheet.header, earnSheet.rows), fiscalYear);
          sent == Batches(records, BatchSize) && (inserted, skipped) == InsertTotals(sent, store)
  {
    var hrName := FindSheetByPattern(SheetNames(wb), "HR INFO");
    var earnName := FindSheetByPattern(SheetNames(wb), "EARNINGS");
    if hrName.None? || earnName.None? {
      return 0, 0, [];
    }
    var active := ActiveColumn(wb);
    var hrSheet := SheetNamed(wb, hrName.value);
    var earnSheet := SheetNamed(wb, earnName.value);
    var hrData, hrOrder := CollectHr(hrSheet.header, hrSheet.rows, active);
    var earningsData := CollectEarnings(earnSheet.header, earnSheet.rows);
    var records := JoinRecords(hrData, hrOrder, earningsData, fiscalYear,
      HrRecords(hrSheet.header, hrSheet.rows, active), EarningsRecords(earnSheet.header, earnSheet.rows));
    if records == [] {
      return 0, 0, [];
    }
    inserted, skipped, sent := InsertBatches(records, store);
  }
}
