/**
 * One spreadsheet or data-frame cell as the scripts receive it from
 * openpyxl or pandas, and a sheet as a header row over data rows.
 */
module Cells {
  import opened Text
  import opened Numbers
  import opened Wrappers
  import opened Collections

  /**
   * A cell value: empty (`None`, or pandas' `NaN`), a whole number, a
   * float (kept as the exact decimal it denotes), text, or a date-time
   * (seconds since 1970-01-01T00:00, read as UTC).
   */
  datatype Cell = Null | Int(i: int) | Num(d: Decimal) | Str(s: string) | Timestamp(seconds: int)

  /** Python's `bool(value)`. */
  predicate Truthy(c: Cell) {
    match c
    case Null => false
    case Int(i) => i != 0
    case Num(d) => d.mant != 0
    case Str(s) => s != []
    case Timestamp(_) => true
  }

  /** A float is false exactly when its value is zero. */
  lemma {:induction false} TruthyNum(d: Decimal)
    ensures Truthy(Num(d)) <==> Value(d) != 0.0
  {
  }

  /** Python's `str(value)`. */
  function CellText(c: Cell): string {
    match c
    case Null => "None"
    case Int(i) => IntText(i)
    case Num(d) => FloatText(d)
    case Str(s) => s
    case Timestamp(t) => DateTimeText(t)
  }

  /** `n` written with at least two digits. */
  function Pad2(n: nat): string {
    if n < 10 then "0" + NatText(n) else NatText(n)
  }

  /** A year written with at least four digits. */
  function Pad4(y: int): string {
    if y < 0 then IntText(y)
    else if y < 10 then "000" + NatText(y)
    else if y < 100 then "00" + NatText(y)
    else if y < 1000 then "0" + NatText(y)
    else NatText(y)
  }

  /**
   * The proleptic Gregorian date of day `z` counted from 1970-01-01, as
   * (year, month, day).
   */
  function CivilFromDays(z: int): (int, int, int) {
    var z' := z + 719468;
    var era := z' / 146097;
    var doe := z' - era * 146097;
    var yoe := (doe - doe / 1460 + doe / 36524 - doe / 146096) / 365;
    var doy := doe - (365 * yoe + yoe / 4 - yoe / 100);
    var mp := (5 * doy + 2) / 153;
    var day := doy - (153 * mp + 2) / 5 + 1;
    var month := if mp < 10 then mp + 3 else mp - 9;
    (yoe + era * 400 + (if month <= 2 then 1 else 0), month, day)
  }

  /** `str()` of a date-time with whole seconds: `YYYY-MM-DD HH:MM:SS`. */
  function DateTimeText(t: int): string {
    var days := t / 86400;
    var secs := t % 86400;
    var (y, m, d) := CivilFromDays(days);
    Pad4(y) + "-" + Pad2(if m < 0 then 0 else m) + "-" + Pad2(if d < 0 then 0 else d) + " "
    + Pad2(secs / 3600) + ":" + Pad2(secs % 3600 / 60) + ":" + Pad2(secs % 60)
  }

  /** `sheet.cell(row=r, column=c).value` for 1-based `c`: empty beyond the row's end. */
  function CellAt(row: seq<Cell>, c: nat): (v: Cell)
    ensures 1 <= c <= |row| ==> v == row[c - 1]
    ensures c == 0 || c > |row| ==> v == Null
  {
    if 1 <= c <= |row| then row[c - 1] else Null
  }

  /** `d.get(key)` on a dict of cells (a row dict, or a pandas row): the value stored, or `None`. */
  function Get<K>(d: map<K, Cell>, key: K): (v: Cell)
    ensures key !in d ==> v == Null
    ensures key in d ==> v == d[key]
  {
    if key in d then d[key] else Null
  }

  /** A worksheet: its name, its header row (row 1) and its data rows (rows 2 to `max_row`). */
  datatype Sheet = Sheet(name: string, header: seq<Cell>, rows: seq<seq<Cell>>)

  /** A workbook's sheets in workbook order. */
  type Workbook = seq<Sheet>

  /** The names of a workbook's sheets, in order (`workbook.sheetnames`). */
  function SheetNames(wb: Workbook): (names: seq<string>)
    ensures |names| == |wb| && forall i :: 0 <= i < |wb| ==> names[i] == wb[i].name
  {
    seq(|wb|, i requires 0 <= i < |wb| => wb[i].name)
  }

  /** `workbook[name]`: the first sheet with that name. */
  function SheetNamed(wb: Workbook, name: string): (s: Sheet)
    requires name in SheetNames(wb)
    ensures s in wb && s.name == name
  {
    if wb[0].name == name then wb[0] else SheetNamed(wb[1..], name)
  }

  /** Python's `float(text)`: surrounding whitespace is allowed. */
  function FloatOfText(s: string): (r: Option<Decimal>)
    ensures r.Some? ==> !IsBlank(s)
  {
    ParseDecimalLiteral(Trim(s))
  }

  /** Python's `int(text)`: surrounding whitespace is allowed. */
  function IntOfText(s: string): (r: Option<int>)
    ensures r.Some? ==> !IsBlank(s)
  {
    ParseIntLiteral(Trim(s))
  }

  /** Digits, signs and points are not whitespace, so `str(number).strip()` is `str(number)`. */
  lemma {:induction false} NumberTextTrimmed(s: string)
    requires forall k :: 0 <= k < |s| ==> IsDigit(s[k]) || s[k] == '-' || s[k] == '.'
    ensures Trim(s) == s
  {
    TrimNoSpace(s);
  }

  /** `str(i)` is already stripped. */
  lemma {:induction false} IntTextTrimmed(i: int)
    ensures Trim(IntText(i)) == IntText(i)
  {
    NumberTextTrimmed(IntText(i));
  }

  /** `str(i)` reads back through `int()` as `i`. */
  lemma {:induction false} IntTextReadsBack(i: int)
    ensures IntOfText(IntText(i)) == Some(i)
  {
    IntTextTrimmed(i);
    IntTextRoundTrip(i);
  }

  /** `str(i)` reads back through `float()` as `i` with nothing after the point. */
  lemma {:induction false} IntTextReadsBackAsFloat(i: int)
    ensures FloatOfText(IntText(i)) == Some(Decimal(i, 0))
  {
    IntTextTrimmed(i);
    IntTextIsDecimal(i);
  }

  /** `str(x)` of a float reads back through `float()` as the same value. */
  lemma {:induction false} FloatTextReadsBack(d: Decimal)
    ensures FloatOfText(FloatText(d)).Some? && Value(FloatOfText(FloatText(d)).value) == Value(d)
  {
    FloatTextChars(d);
    NumberTextTrimmed(FloatText(d));
    FloatTextRoundTrip(d);
  }

  /**
   * The first of `names` whose lower-cased form contains the lower-cased
   * pattern, in workbook order.
   */
  function FindSheetByPattern(names: seq<string>, pattern: string): (r: Option<string>)
    ensures r.Some? ==> exists i :: (0 <= i < |names| && names[i] == r.value
      && forall j :: 0 <= j < i ==> !Contains(Lower(names[j]), Lower(pattern)))
    ensures r.Some? ==> Contains(Lower(r.value), Lower(pattern))
    ensures r.None? <==> forall i :: 0 <= i < |names| ==> !Contains(Lower(names[i]), Lower(pattern))
  {
    if names == [] then None
    else if Contains(Lower(names[0]), Lower(pattern)) then Some(names[0])
    else
      var r := FindSheetByPattern(names[1..], pattern);
      assert forall i :: 0 < i < |names| ==> names[i] == names[1..][i - 1];
      assert r.Some? ==> forall i :: (0 <= i < |names| - 1 && names[1..][i] == r.value
        && (forall j :: 0 <= j < i ==> !Contains(Lower(names[1..][j]), Lower(pattern)))
        ==> names[i + 1] == r.value && forall j :: 0 <= j < i + 1 ==> !Contains(Lower(names[j]), Lower(pattern)));
      r
  }

  /** The match is the first one: the sheet found is the first whose name contains the pattern. */
  lemma {:induction false} FindSheetByPatternFirst(names: seq<string>, pattern: string, i: nat)
    requires i < |names| && Contains(Lower(names[i]), Lower(pattern))
    requires forall j :: 0 <= j < i ==> !Contains(Lower(names[j]), Lower(pattern))
    ensures FindSheetByPattern(names, pattern) == Some(names[i])
  {
    if i > 0 {
      assert forall j :: 0 <= j < i - 1 ==> names[1..][j] == names[j + 1];
      FindSheetByPatternFirst(names[1..], pattern, i - 1);
    }
  }

  /** Whether a header names the fiscal year's active-on-June-30 column. */
  predicate IsActiveHeader(h: Cell) {
    Truthy(h) && Contains(Upper(CellText(h)), "ACTIVE_ON_JUNE_30")
  }

  /** The position of the first header, in column order, that names the active-on-June-30 column. */
  function FirstActiveIndex(headers: seq<Cell>): (r: Option<nat>)
    ensures r.Some? ==> r.value < |headers| && IsActiveHeader(headers[r.value])
    ensures r.Some? ==> forall j :: 0 <= j < r.value ==> !IsActiveHeader(headers[j])
    ensures r.None? <==> forall i :: 0 <= i < |headers| ==> !IsActiveHeader(headers[i])
  {
    FirstWhere(headers, IsActiveHeader)
  }

  /** The first header, in column order, that names the active-on-June-30 column. */
  function FirstActiveHeader(headers: seq<Cell>): (r: Option<Cell>)
    ensures r.Some? ==> IsActiveHeader(r.value)
    ensures r.Some? ==> exists i :: (0 <= i < |headers| && headers[i] == r.value
      && forall j :: 0 <= j < i ==> !IsActiveHeader(headers[j]))
    ensures r.None? <==> forall i :: 0 <= i < |headers| ==> !IsActiveHeader(headers[i])
  {
    match FirstActiveIndex(headers)
    case None => None
    case Some(i) => Some(headers[i])
  }

  /**
   * The active-on-June-30 column of a workbook: looked up in the header
   * of the HR INFO sheet; none when there is no such sheet.
   */
  function ActiveColumn(wb: Workbook): (r: Option<Cell>)
    ensures FindSheetByPattern(SheetNames(wb), "HR INFO").None? ==> r.None?
    ensures FindSheetByPattern(SheetNames(wb), "HR INFO").Some?
      ==> r == FirstActiveHeader(SheetNamed(wb, FindSheetByPattern(SheetNames(wb), "HR INFO").value).header)
    ensures r.Some? ==> IsActiveHeader(r.value)
  {
    match FindSheetByPattern(SheetNames(wb), "HR INFO")
    case None => None
    case Some(name) => FirstActiveHeader(SheetNamed(wb, name).header)
  }
}
