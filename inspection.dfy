/**
 * The read-only inspection of the FY2025 payroll workbook: it finds the
 * HR INFO and EARNINGS sheets, indexes the earnings by temporary id, and
 * over the HR rows counts empty employee names, agency names and total
 * wages, collects the distinct agencies, and checks whether
 * (temporary_id, record_nbr) is unique.
 */
module Inspection {
  import opened Wrappers
  import opened Text
  import opened Numbers
  import opened Cells
  import opened Collections

  /** `find_sheet`: the first sheet name containing the pattern, ignoring case. */
  function FindSheet(wb: Workbook, pattern: string): (r: Option<string>)
    ensures r.Some? ==> r.value in SheetNames(wb) && Contains(Lower(r.value), Lower(pattern))
    ensures r.None? <==> forall i :: 0 <= i < |wb| ==> !Contains(Lower(wb[i].name), Lower(pattern))
    ensures r.Some? ==> exists i :: (0 <= i < |wb| && wb[i].name == r.value
      && forall j :: 0 <= j < i ==> !Contains(Lower(wb[j].name), Lower(pattern)))
  {
    FindSheetByPattern(SheetNames(wb), pattern)
  }

  /** Whether a header cell names the column `name`: non-empty, and equal after strip and upper-casing. */
  predicate HeaderIs(h: Cell, name: string) {
    Truthy(h) && Upper(Trim(CellText(h))) == Upper(Trim(name))
  }

  /** `col_idx`: the 1-based position of the first header that names the column. */
  function ColIdx(headers: seq<Cell>, name: string): (r: Option<nat>)
    ensures r.Some? ==> 1 <= r.value <= |headers| && HeaderIs(headers[r.value - 1], name)
    ensures r.Some? ==> forall j :: 0 <= j < r.value - 1 ==> !HeaderIs(headers[j], name)
    ensures r.None? <==> forall j :: 0 <= j < |headers| ==> !HeaderIs(headers[j], name)
  {
    var p := h => HeaderIs(h, name);
    var k := FirstWhere(headers, p);
    if k.None? then None
    else
      assert p(headers[k.value]);
      Some(k.value + 1)
  }

  /** `esc`: every single quote doubled. */
  function Esc(s: string): (r: string)
    ensures ReadQuotedBody(r + "'") == Some((s, ""))
    ensures |r| >= |s|
  {
    DoubleQuotesRoundTrip(s, "");
    assert DoubleQuotes(s) + "'" + "" == DoubleQuotes(s) + "'";
    DoubleQuotes(s)
  }

  /** The stripped text of an id cell; `None` stays `None`. */
  function IdText(c: Cell): Option<string> {
    if c.Null? then None else Some(Trim(CellText(c)))
  }

  /** The key an earnings row is stored under: its stripped column-1 value, when that is not empty. */
  function EarningsKey(row: seq<Cell>): (k: Option<string>)
    ensures k.Some? ==> k.value != [] && Trim(k.value) == k.value
  {
    match IdText(CellAt(row, 1))
    case Some(t) => TrimIdempotent(CellText(CellAt(row, 1))); if t != [] then Some(t) else None
    case None => None
  }

  /** The wage an earnings row carries: column 5 when the header has at least five cells. */
  function EarningsWage(row: seq<Cell>, wide: bool): Cell {
    if wide then CellAt(row, 5) else Null
  }

  /** The assignment an earnings row makes, if any: its wage stored under its id. */
  function EarningsPair(row: seq<Cell>, wide: bool): Option<(string, Cell)> {
    match EarningsKey(row)
    case Some(k) => Some((k, EarningsWage(row, wide)))
    case None => None
  }

  /** The assignments the earnings loop makes, in row order. */
  function EarningsPairs(rows: seq<seq<Cell>>, wide: bool): (p: seq<(string, Cell)>)
    ensures |p| <= |rows|
  {
    Collected(rows, row => EarningsPair(row, wide))
  }

  /** Exactly the rows with a non-empty id are stored. */
  lemma {:induction false} EarningsByIdKeys(rows: seq<seq<Cell>>, wide: bool, k: string)
    ensures k in LastMap(EarningsPairs(rows, wide)) <==> exists i :: 0 <= i < |rows| && EarningsKey(rows[i]) == Some(k)
  {
    var f := row => EarningsPair(row, wide);
    assert EarningsPairs(rows, wide) == Collected(rows, f);
    LastMapKeysBy(rows, f, EarningsKey, k);
  }

  /** The `earnings_by_id` loop: one assignment per row with a non-empty id, a later row overwriting an earlier one. */
  method BuildEarningsById(rows: seq<seq<Cell>>, wide: bool) returns (byId: map<string, Cell>)
    ensures byId == LastMap(EarningsPairs(rows, wide))
  {
    byId := map[];
    var r := 0;
    while r < |rows|
      invariant r <= |rows|
      invariant byId == LastMap(EarningsPairs(rows[..r], wide))
    {
      EarningsStep(rows, r, wide);
      var tid := IdText(CellAt(rows[r], 1));
      var tw := if wide then CellAt(rows[r], 5) else Null;
      if tid.Some? && tid.value != [] {
        byId := byId[tid.value := tw];
      }
      r := r + 1;
    }
    assert rows[..r] == rows;
  }

  /** One more earnings row stores its wage under its id when that id is not empty, and changes nothing otherwise. */
  lemma {:induction false} EarningsStep(rows: seq<seq<Cell>>, r: nat, wide: bool)
    requires r < |rows|
    ensures var tid := IdText(CellAt(rows[r], 1));
      var before := LastMap(EarningsPairs(rows[..r], wide));
      LastMap(EarningsPairs(rows[..r + 1], wide))
        == if tid.Some? && tid.value != [] then before[tid.value := EarningsWage(rows[r], wide)] else before
  {
    var f := row => EarningsPair(row, wide);
    assert rows[..r + 1] == rows[..r] + [rows[r]];
    CollectedSnoc(rows[..r], rows[r], f);
    if f(rows[r]).Some? {
      LastMapSnoc(EarningsPairs(rows[..r], wide), f(rows[r]).value);
    }
  }

  /** The value stored under an id is the wage of the last earnings row with that id. */
  lemma {:induction false} EarningsByIdLast(rows: seq<seq<Cell>>, wide: bool, i: nat)
    requires i < |rows| && EarningsKey(rows[i]).Some?
    requires forall j :: i < j < |rows| ==> EarningsKey(rows[j]) != EarningsKey(rows[i])
    ensures EarningsKey(rows[i]).value in LastMap(EarningsPairs(rows, wide))
    ensures LastMap(EarningsPairs(rows, wide))[EarningsKey(rows[i]).value] == EarningsWage(rows[i], wide)
  {
    LastMapCollected(rows, row => EarningsPair(row, wide), i);
  }

  /** The HR column positions `main` looks up. */
  datatype Columns = Columns(employee: Option<nat>, agency: Option<nat>, id: Option<nat>, recordNbr: Option<nat>)

  /** `hr.cell(row=r, column=col).value if col else None`. */
  function Pick(row: seq<Cell>, col: Option<nat>): Cell {
    match col
    case Some(c) => CellAt(row, c)
    case None => Null
  }

  /** A value counted as empty: `None`, or text that is only whitespace. */
  predicate Missing(c: Cell) {
    c.Null? || (c.Str? && IsBlank(c.s))
  }

  /** The wage looked up for an HR row: by its stripped id when that is not empty. */
  function WageLookup(byId: map<string, Cell>, row: seq<Cell>, cols: Columns): Cell {
    match IdText(Pick(row, cols.id))
    case Some(t) => if t != [] && t in byId then byId[t] else Null
    case None => Null
  }

  /** A wage counted as missing: `None`, blank text, or a dash. */
  predicate WageMissing(c: Cell) {
    c.Null? || (c.Str? && (IsBlank(c.s) || Trim(c.s) == "-"))
  }

  /** The agency value collected from an HR row: its stripped text, when not empty. */
  function AgencyOf(row: seq<Cell>, cols: Columns): (a: Option<string>)
    ensures a.Some? ==> a.value != [] && Trim(a.value) == a.value
  {
    var ag := Pick(row, cols.agency);
    if !ag.Null? && Trim(CellText(ag)) != [] then
      TrimIdempotent(CellText(ag));
      Some(Trim(CellText(ag)))
    else None
  }

  /** The record number as a key part: numbers compare by value (so `1` and `1.0` are one key), anything else by its text. */
  datatype KeyPart = Number(x: real) | Text(s: string)

  function RecordPart(rn: Cell): KeyPart {
    match rn
    case Int(i) => Number(i as real)
    case Num(d) => Number(Value(d))
    case _ => Text(CellText(rn))
  }

  /** The `(temporary_id, record_nbr)` pair of an HR row, when both are present. */
  function KeyOf(row: seq<Cell>, cols: Columns): Option<(string, KeyPart)> {
    var tid := Pick(row, cols.id);
    var rn := Pick(row, cols.recordNbr);
    if !tid.Null? && !rn.Null? then Some((Trim(CellText(tid)), RecordPart(rn))) else None
  }

  /** The agencies collected from the rows, in row order. */
  function Agencies(rows: seq<seq<Cell>>, cols: Columns): (a: seq<string>)
    ensures |a| <= |rows|
  {
    Collected(rows, row => AgencyOf(row, cols))
  }

  /**
   * An agency is collected exactly when some row carries it, and every
   * agency collected is stripped and not empty.
   */
  lemma {:induction false} AgenciesFromRows(rows: seq<seq<Cell>>, cols: Columns, g: string)
    ensures g in Agencies(rows, cols) <==> exists i :: 0 <= i < |rows| && AgencyOf(rows[i], cols) == Some(g)
    ensures g in Agencies(rows, cols) ==> g != [] && Trim(g) == g
  {
    CollectedFrom(rows, row => AgencyOf(row, cols));
  }

  /** The keys collected from the rows, in row order. */
  function KeyList(rows: seq<seq<Cell>>, cols: Columns): (k: seq<(string, KeyPart)>)
    ensures |k| <= |rows|
  {
    Collected(rows, row => KeyOf(row, cols))
  }

  /** What the HR loop accumulates. */
  datatype Tally = Tally(nullEmployee: nat, nullAgency: nat, nullTotalWages: nat, agencies: seq<string>, keys: seq<(string, KeyPart)>)

  /** The HR loop, row by row. */
  method ScanHr(rows: seq<seq<Cell>>, cols: Columns, byId: map<string, Cell>) returns (t: Tally)
    ensures t.nullEmployee == CountIf(rows, row => Missing(Pick(row, cols.employee)))
    ensures t.nullAgency == CountIf(rows, row => Missing(Pick(row, cols.agency)))
    ensures t.nullTotalWages == CountIf(rows, row => WageMissing(WageLookup(byId, row, cols)))
    ensures t.agencies == Agencies(rows, cols)
    ensures t.keys == KeyList(rows, cols)
  {
    var nullEmployee, nullAgency, nullTotalWages := 0, 0, 0;
    var agencies, keys := [], [];
    var r := 0;
    while r < |rows|
      invariant r <= |rows|
      invariant nullEmployee == CountIf(rows[..r], row => Missing(Pick(row, cols.employee)))
      invariant nullAgency == CountIf(rows[..r], row => Missing(Pick(row, cols.agency)))
      invariant nullTotalWages == CountIf(rows[..r], row => WageMissing(WageLookup(byId, row, cols)))
      invariant agencies == Agencies(rows[..r], cols)
      invariant keys == KeyList(rows[..r], cols)
    {
      assert rows[..r + 1] == rows[..r] + [rows[r]];
      assert rows[..r + 1][..r] == rows[..r];
      CollectedSnoc(rows[..r], rows[r], row => AgencyOf(row, cols));
      CollectedSnoc(rows[..r], rows[r], row => KeyOf(row, cols));
      var row := rows[r];
      if Missing(Pick(row, cols.employee)) {
        nullEmployee := nullEmployee + 1;
      }
      if Missing(Pick(row, cols.agency)) {
        nullAgency := nullAgency + 1;
      }
      if WageMissing(WageLookup(byId, row, cols)) {
        nullTotalWages := nullTotalWages + 1;
      }
      var agency := AgencyOf(row, cols);
      if agency.Some? {
        agencies := agencies + [agency.value];
      }
      var key := KeyOf(row, cols);
      if key.Some? {
        keys := keys + [key.value];
      }
      r := r + 1;
    }
    assert rows[..r] == rows;
    t := Tally(nullEmployee, nullAgency, nullTotalWages, agencies, keys);
  }

  /** A key list has a repeated pair exactly when its set is smaller. */
  predicate Unique(keys: seq<(string, KeyPart)>) {
    |set k | k in keys| == |keys|
  }

  /** The warning is printed exactly when two rows share a key. */
  lemma {:induction false} UniqueIffNoRepeat(keys: seq<(string, KeyPart)>)
    ensures Unique(keys) <==> forall i, j :: 0 <= i < j < |keys| ==> keys[i] != keys[j]
  {
    DistinctCardinality(keys);
  }

  /** What the inspection reports. */
  datatype Report = Report(
    hrRows: nat, earningsRows: nat,
    nullEmployee: nat, nullAgency: nat, nullTotalWages: nat,
    distinctAgencies: seq<string>, uniqueKeys: nat, notUnique: bool)

  /** `main` from the loaded workbook on: `None` when either sheet is missing. */
  method Inspect(wb: Workbook) returns (r: Option<Report>)
    ensures FindSheet(wb, "HR INFO").None? || FindSheet(wb, "EARNINGS").None? <==> r.None?
    ensures r.Some? ==> var hr := SheetNamed(wb, FindSheet(wb, "HR INFO").value);
      r.value.hrRows == |hr.rows|
      && r.value.nullEmployee <= |hr.rows| && r.value.nullAgency <= |hr.rows| && r.value.nullTotalWages <= |hr.rows|
      && r.value.uniqueKeys <= |hr.rows|
    ensures r.Some? ==> StrictlySorted(r.value.distinctAgencies)
    ensures r.Some? ==> forall i :: 0 <= i < |r.value.distinctAgencies| ==>
      r.value.distinctAgencies[i] != [] && Trim(r.value.distinctAgencies[i]) == r.value.distinctAgencies[i]
  {
    var hrName := FindSheet(wb, "HR INFO");
    var earnName := FindSheet(wb, "EARNINGS");
    if hrName.None? || earnName.None? {
      return None;
    }
    var hr := SheetNamed(wb, hrName.value);
    var earn := SheetNamed(wb, earnName.value);
    var cols := Columns(
      ColIdx(hr.header, "EMPLOYEE_NAME"), ColIdx(hr.header, "AGENCY_NAME"),
      ColIdx(hr.header, "TEMPORARY_ID"), ColIdx(hr.header, "RECORD_NBR"));
    var byId := BuildEarningsById(earn.rows, |earn.header| >= 5);
    var t := ScanHr(hr.rows, cols, byId);
    var distinct := SortedDistinct(t.agencies);
    forall i | 0 <= i < |distinct| ensures distinct[i] != [] && Trim(distinct[i]) == distinct[i] {
      AgenciesFromRows(hr.rows, cols, distinct[i]);
    }
    var unique := set k | k in t.keys;
    assert |unique| <= |t.keys| by { DedupLength(t.keys); DedupIdentity(t.keys); }
    r := Some(Report(|hr.rows|, |earn.rows|, t.nullEmployee, t.nullAgency, t.nullTotalWages,
      distinct, |unique|, |t.keys| != |unique|));
  }
}
