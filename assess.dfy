/**
 * The one-off assessment of the FY2020-FY2025 payroll workbooks: the
 * joined row count of each year that has both sheets and their total,
 * and, for FY2025, the agencies and employee names found in HR INFO.
 */
module Assess {
  import opened Wrappers
  import opened Text
  import opened Cells
  import opened Collections
  import opened Inspection

  const FiscalYears: seq<int> := [2020, 2021, 2022, 2023, 2024, 2025]

  /** The column of the first name, or of the second when no header names the first. */
  function ColumnOr(headers: seq<Cell>, first: string, second: string): (r: Option<nat>)
    ensures r.Some? ==> 1 <= r.value <= |headers|
    ensures r.Some? ==> r == ColIdx(headers, first) || r == ColIdx(headers, second)
    ensures r.None? <==> forall j :: 0 <= j < |headers| ==> !HeaderIs(headers[j], first) && !HeaderIs(headers[j], second)
  {
    var byFirst := ColIdx(headers, first);
    if byFirst.Some? then byFirst else ColIdx(headers, second)
  }

  /** The first name wins: when some header names it, the column found is the first header named by it. */
  lemma {:induction false} ColumnOrPrefersFirst(headers: seq<Cell>, first: string, second: string, j: nat)
    requires j < |headers| && HeaderIs(headers[j], first)
    ensures ColumnOr(headers, first, second) == ColIdx(headers, first) != None
  {
    assert ColIdx(headers, first).Some?;
  }

  /** `col_index("AGENCY_NAME") or col_index("AGENCY_NBR")`. */
  function AgencyColumn(headers: seq<Cell>): Option<nat> {
    ColumnOr(headers, "AGENCY_NAME", "AGENCY_NBR")
  }

  /** The value a row contributes from a column: `str(v).strip()` when `v` is truthy and that is not empty. */
  function Kept(row: seq<Cell>, col: Option<nat>): (r: Option<string>)
    ensures r.Some? ==> r.value != [] && Trim(r.value) == r.value
  {
    if col.None? then None
    else
      var v := CellAt(row, col.value);
      if Truthy(v) && Trim(CellText(v)) != [] then
        TrimIdempotent(CellText(v));
        Some(Trim(CellText(v)))
      else None
  }

  /** The values the rows contribute from a column, in row order. */
  function KeptValues(rows: seq<seq<Cell>>, col: Option<nat>): seq<string> {
    Collected(rows, row => Kept(row, col))
  }

  /** The HR loop of the data-quality step: the agency list and the set of employee names. */
  method CollectHr(rows: seq<seq<Cell>>, agencyCol: Option<nat>, nameCol: Option<nat>)
    returns (agencies: seq<string>, names: set<string>)
    ensures agencies == KeptValues(rows, agencyCol)
    ensures names == SetOf(KeptValues(rows, nameCol))
  {
    agencies, names := CollectListAndSet(rows, row => Kept(row, agencyCol), row => Kept(row, nameCol));
  }

  /** One pass over the rows: what `listOf` yields appended to a list, what `setOf` yields added to a set. */
  method CollectListAndSet<T, U>(rows: seq<T>, listOf: T -> Option<U>, setOf: T -> Option<U>)
    returns (list: seq<U>, found: set<U>)
    ensures list == Collected(rows, listOf)
    ensures found == SetOf(Collected(rows, setOf))
  {
    list, found := [], {};
    ghost var setList: seq<U> := [];
    var r := 0;
    while r < |rows|
      invariant r <= |rows|
      invariant list == Collected(rows[..r], listOf)
      invariant setList == Collected(rows[..r], setOf)
      invariant found == SetOf(setList)
    {
      assert rows[..r + 1] == rows[..r] + [rows[r]];
      CollectedSnoc(rows[..r], rows[r], listOf);
      CollectedSnoc(rows[..r], rows[r], setOf);
      var x := listOf(rows[r]);
      if x.Some? {
        list := list + [x.value];
      }
      var y := setOf(rows[r]);
      if y.Some? {
        SetOfSnoc(setList, y.value);
        found := found + {y.value};
        setList := setList + [y.value];
      }
      r := r + 1;
    }
    assert rows[..r] == rows;
  }

  /**
   * A value is kept from the rows exactly when some row yields it, and
   * every kept value is stripped and not empty.
   */
  lemma {:induction false} KeptFromRows(rows: seq<seq<Cell>>, col: Option<nat>, v: string)
    ensures v in KeptValues(rows, col) <==> exists i :: 0 <= i < |rows| && Kept(rows[i], col) == Some(v)
    ensures v in KeptValues(rows, col) ==> v != [] && Trim(v) == v
  {
    CollectedFrom(rows, row => Kept(row, col));
  }

  /** The sorted distinct list has exactly as many entries as there are distinct values. */
  lemma {:induction false} SortedDistinctLength(s: seq<string>)
    ensures |SortedDistinct(s)| == |SetOf(s)|
  {
    var d := SortedDistinct(s);
    StrictlySortedDistinct(d);
    DistinctCardinality(d);
    assert (set x | x in d) == SetOf(s);
  }

  /** A list has no more distinct values than entries. */
  lemma {:induction false} SetOfSeqSize<T(!new)>(s: seq<T>)
    ensures |SetOf(s)| <= |s|
  {
    DedupLength(s);
    DedupIdentity(s);
  }

  /** What the FY2025 data-quality step reports. */
  datatype Quality = Quality(uniqueAgencies: nat, uniqueEmployees: nat, distinctAgencies: seq<string>)

  /**
   * The data-quality step on the FY2025 workbook. The sheets are looked
   * up without a check, so a missing one ends the run with `KeyError`.
   */
  method SampleQuality(wb: Workbook) returns (r: Result<Quality, string>)
    ensures r.Err? <==> FindSheetByPattern(SheetNames(wb), "HR INFO").None? || FindSheetByPattern(SheetNames(wb), "EARNINGS").None?
    ensures r.Ok? ==> r.value.uniqueAgencies == |r.value.distinctAgencies|
    ensures r.Ok? ==> StrictlySorted(r.value.distinctAgencies)
    ensures r.Ok? ==> forall i :: 0 <= i < |r.value.distinctAgencies| ==>
      r.value.distinctAgencies[i] != [] && Trim(r.value.distinctAgencies[i]) == r.value.distinctAgencies[i]
    ensures r.Ok? ==> var hr := SheetNamed(wb, FindSheetByPattern(SheetNames(wb), "HR INFO").value);
      r.value.uniqueAgencies <= |hr.rows| && r.value.uniqueEmployees <= |hr.rows|
    ensures r.Ok? ==> var hr := SheetNamed(wb, FindSheetByPattern(SheetNames(wb), "HR INFO").value);
      var agencies := KeptValues(hr.rows, AgencyColumn(hr.header));
      && r.value.distinctAgencies == SortedDistinct(agencies)
      && r.value.uniqueAgencies == |SetOf(agencies)|
      && r.value.uniqueEmployees == |SetOf(KeptValues(hr.rows, ColIdx(hr.header, "EMPLOYEE_NAME")))|
  {
    var hrName := FindSheetByPattern(SheetNames(wb), "HR INFO");
    var earnName := FindSheetByPattern(SheetNames(wb), "EARNINGS");
    if hrName.None? || earnName.None? {
      return Err("KeyError: 'Worksheet None does not exist.'");
    }
    var hr := SheetNamed(wb, hrName.value);
    var agencyCol := AgencyColumn(hr.header);
    var nameCol := ColIdx(hr.header, "EMPLOYEE_NAME");
    var agencies, names := CollectHr(hr.rows, agencyCol, nameCol);
    var counter := SetOf(agencies);
    var distinct := SortedDistinct(agencies);
    SortedDistinctLength(agencies);
    forall i | 0 <= i < |distinct| ensures distinct[i] != [] && Trim(distinct[i]) == distinct[i] {
      KeptFromRows(hr.rows, agencyCol, distinct[i]);
    }
    SetOfSeqSize(agencies);
    SetOfSeqSize(KeptValues(hr.rows, nameCol));
    r := Ok(Quality(|counter|, |names|, distinct));
  }

  /** A year's joined row count: the HR data rows, when both sheets are found. */
  function YearCount(fy: int, wb: Workbook): (r: Option<(int, nat)>)
    ensures r.Some? <==> FindSheetByPattern(SheetNames(wb), "HR INFO").Some? && FindSheetByPattern(SheetNames(wb), "EARNINGS").Some?
    ensures r.Some? ==> r.value == (fy, |SheetNamed(wb, FindSheetByPattern(SheetNames(wb), "HR INFO").value).rows|)
  {
    var hrName := FindSheetByPattern(SheetNames(wb), "HR INFO");
    var earnName := FindSheetByPattern(SheetNames(wb), "EARNINGS");
    if hrName.None? || earnName.None? then None
    else
      assert hrName.value in SheetNames(wb);
      Some((fy, |SheetNamed(wb, hrName.value).rows|))
  }

  /** `sum(c for _, c in row_counts)`. */
  function Total(counts: seq<(int, nat)>): nat {
    if counts == [] then 0 else Total(counts[..|counts| - 1]) + counts[|counts| - 1].1
  }

  /** Every year's count is part of the total. */
  lemma {:induction false} TotalBounds(counts: seq<(int, nat)>, k: nat)
    requires k < |counts|
    ensures counts[k].1 <= Total(counts)
  {
    if k < |counts| - 1 {
      TotalBounds(counts[..|counts| - 1], k);
    }
  }

  /** Adding one more year adds its count. */
  lemma {:induction false} TotalSnoc(counts: seq<(int, nat)>, c: (int, nat))
    ensures Total(counts + [c]) == Total(counts) + c.1
  {
    assert (counts + [c])[..|counts|] == counts;
  }

  /** The workbook a fiscal year contributes, when its file exists. */
  function FileOf(workbooks: map<int, Workbook>, fy: int): Option<int> {
    if fy in workbooks then Some(fy) else None
  }

  /** The workbook files that exist, in fiscal-year order. */
  function Files(years: seq<int>, workbooks: map<int, Workbook>): (r: seq<int>)
    ensures |r| <= |years|
    ensures forall i :: 0 <= i < |r| ==> r[i] in workbooks && r[i] in years
  {
    var r := Collected(years, fy => FileOf(workbooks, fy));
    assert forall i :: 0 <= i < |r| ==> r[i] in workbooks && r[i] in years by {
      forall i | 0 <= i < |r| ensures r[i] in workbooks && r[i] in years {
        CollectedFrom(years, fy => FileOf(workbooks, fy));
        assert r[i] in r;
      }
    }
    r
  }

  /** The count a file contributes. */
  function FileCount(workbooks: map<int, Workbook>, fy: int): Option<(int, nat)> {
    if fy in workbooks then YearCount(fy, workbooks[fy]) else None
  }

  /** The first loop of the row-count summary: the files found, in the order of `years`. */
  method FindFiles(years: seq<int>, workbooks: map<int, Workbook>) returns (files: seq<int>)
    ensures files == Files(years, workbooks)
  {
    var fileOf := fy => FileOf(workbooks, fy);
    files := [];
    var i := 0;
    while i < |years|
      invariant i <= |years|
      invariant files == Collected(years[..i], fileOf)
    {
      assert years[..i + 1] == years[..i] + [years[i]];
      CollectedSnoc(years[..i], years[i], fileOf);
      assert fileOf(years[i]) == FileOf(workbooks, years[i]);
      if years[i] in workbooks {
        files := files + [years[i]];
      }
      i := i + 1;
    }
    assert years[..i] == years;
  }

  /**
   * The row-count summary over the fiscal years: one count per existing
   * file whose workbook has both sheets, and their total.
   */
  method RowCountSummary(years: seq<int>, workbooks: map<int, Workbook>) returns (counts: seq<(int, nat)>, total: nat)
    ensures counts == Collected(Files(years, workbooks), fy => FileCount(workbooks, fy))
    ensures total == Total(counts)
    ensures |counts| <= |years|
  {
    var files := FindFiles(years, workbooks);
    counts, total := SumCounts(files, fy => FileCount(workbooks, fy));
  }

  /** The second loop of the row-count summary: the count of each file that has one, and their running total. */
  method SumCounts(files: seq<int>, countOf: int -> Option<(int, nat)>) returns (counts: seq<(int, nat)>, total: nat)
    ensures counts == Collected(files, countOf)
    ensures total == Total(counts)
  {
    counts, total := [], 0;
    var k := 0;
    while k < |files|
      invariant k <= |files|
      invariant counts == Collected(files[..k], countOf)
      invariant total == Total(counts)
    {
      assert files[..k + 1] == files[..k] + [files[k]];
      CollectedSnoc(files[..k], files[k], countOf);
      var c := countOf(files[k]);
      if c.Some? {
        TotalSnoc(counts, c.value);
        counts := counts + [c.value];
        total := total + c.value.1;
      }
      k := k + 1;
    }
    assert files[..k] == files;
  }

  /**
   * A year is in the summary exactly when its workbook exists and has both
   * sheets, and then with its HR data-row count.
   */
  lemma {:induction false} SummaryYears(years: seq<int>, workbooks: map<int, Workbook>, fy: int, n: nat)
    ensures (fy, n) in Collected(Files(years, workbooks), f => FileCount(workbooks, f))
      <==> fy in years && fy in workbooks && YearCount(fy, workbooks[fy]) == Some((fy, n))
  {
    var files := Files(years, workbooks);
    CollectedFrom(files, f => FileCount(workbooks, f));
    CollectedFrom(years, f => FileOf(workbooks, f));
    if (fy, n) in Collected(files, f => FileCount(workbooks, f)) {
      var i :| 0 <= i < |files| && FileCount(workbooks, files[i]) == Some((fy, n));
      assert files[i] in files;
    }
    if fy in years && fy in workbooks && YearCount(fy, workbooks[fy]) == Some((fy, n)) {
      assert fy in files;
      var i :| 0 <= i < |files| && files[i] == fy;
      assert FileCount(workbooks, files[i]) == Some((fy, n));
    }
  }
}
