/**
 * The FY2025 payroll import: the HR INFO and EARNINGS sheets are read as
 * data frames, earnings are reduced to the first row of each temporary id
 * and left-joined onto HR, columns are converted, renamed and projected
 * onto the `payroll` schema, and the records are upserted in batches of
 * 1000.
 */
module ImportFy2025 {
  import opened Wrappers
  import opened Text
  import opened Numbers
  import opened Cells
  import opened Collections
  import Store

  const BatchSize: nat := 1000
  const FiscalYear: string := "2025"

  /** The columns `payroll` receives, in the order they are sent. */
  const Schema: seq<string> := [
    "temporary_id", "record_nbr", "employee_name", "agency_nbr", "agency_name",
    "department_nbr", "department_name", "branch_code", "branch_name",
    "job_code", "job_title", "location_nbr", "location_name", "location_county_name",
    "reg_temp_code", "reg_temp_desc", "classified_code", "classified_desc",
    "original_hire_date", "last_hire_date", "job_entry_date",
    "full_part_time_code", "full_part_time_desc", "active_on_june_30",
    "salary_plan_grid", "salary_grade_range", "max_salary_step",
    "compensation_rate", "comp_frequency_code", "comp_frequency_desc",
    "position_fte", "bargaining_unit_nbr", "bargaining_unit_name",
    "regular_wages", "overtime_wages", "other_wages", "total_wages",
    "fiscal_year"]

  /** The columns sent as whole numbers. */
  const IntColumns: seq<string> := [
    "record_nbr", "original_hire_date", "job_entry_date", "salary_grade_range", "max_salary_step", "bargaining_unit_nbr"]

  const WageColumns: seq<string> := ["REGULAR_WAGES", "OVERTIME_WAGES", "OTHER_WAGES", "TOTAL_WAGES"]

  /** The fixed part of the rename from sheet headers to schema columns. */
  const ColumnMap: map<string, string> := map[
    "TEMPORARY_ID" := "temporary_id", "RECORD_NBR" := "record_nbr",
    "EMPLOYEE_NAME" := "employee_name", "AGENCY_NBR" := "agency_nbr",
    "AGENCY_NAME" := "agency_name", "DEPARTMENT_NBR" := "department_nbr",
    "DEPARTMENT_NAME" := "department_name", "BRANCH_CODE" := "branch_code",
    "BRANCH_NAME" := "branch_name", "JOB_CODE" := "job_code",
    "JOB_TITLE" := "job_title", "LOCATION_NBR" := "location_nbr",
    "LOCATION_NAME" := "location_name", "LOCATION_COUNTY_NAME" := "location_county_name",
    "REG_TEMP_CODE" := "reg_temp_code", "REG_TEMP_DESC" := "reg_temp_desc",
    "CLASSIFIED_CODE" := "classified_code", "CLASSIFIED_DESC" := "classified_desc",
    "FULL_PART_TIME_CODE" := "full_part_time_code", "FULL_PART_TIME_DESC" := "full_part_time_desc",
    "SALARY_PLAN_GRID" := "salary_plan_grid", "SALARY_GRADE_RANGE" := "salary_grade_range",
    "MAX_SALARY_STEP" := "max_salary_step", "COMPENSATION_RATE" := "compensation_rate",
    "COMP_FREQUENCY_CODE" := "comp_frequency_code", "COMP_FREQUENCY_DESC" := "comp_frequency_desc",
    "POSITION_FTE" := "position_fte", "BARGAINING_UNIT_NBR" := "bargaining_unit_nbr",
    "BARGAINING_UNIT_NAME" := "bargaining_unit_name", "REGULAR_WAGES" := "regular_wages",
    "OVERTIME_WAGES" := "overtime_wages", "OTHER_WAGES" := "other_wages",
    "TOTAL_WAGES" := "total_wages"]

  /**
   * A data frame: its column names in order, and one dict per row from
   * column name to value (`NaN` and `None` both being `Null`).
   */
  datatype Frame = Frame(columns: seq<string>, rows: seq<map<string, Cell>>)

  /** The first sheet name in which `pattern` occurs, with case respected. */
  function FindSheetContaining(names: seq<string>, pattern: string): (r: Option<string>)
    ensures r.Some? ==> r.value in names && Contains(r.value, pattern)
    ensures r.Some? ==> exists i :: (0 <= i < |names| && names[i] == r.value
      && forall j :: 0 <= j < i ==> !Contains(names[j], pattern))
    ensures r.None? <==> forall i :: 0 <= i < |names| ==> !Contains(names[i], pattern)
  {
    match FirstWhere(names, name => Contains(name, pattern))
    case None => None
    case Some(k) => Some(names[k])
  }

  /** The names of a workbook's sheets. */
  function Names(sheets: seq<(string, Frame)>): (names: seq<string>)
    ensures |names| == |sheets| && forall i :: 0 <= i < |sheets| ==> names[i] == sheets[i].0
  {
    seq(|sheets|, i requires 0 <= i < |sheets| => sheets[i].0)
  }

  /** `pd.read_excel(sheet_name=name)`: the frame of the first sheet with that name. */
  function SheetFrame(sheets: seq<(string, Frame)>, name: string): (f: Frame)
    requires name in Names(sheets)
    ensures (name, f) in sheets
  {
    if sheets[0].0 == name then sheets[0].1
    else
      assert name in Names(sheets[1..]) by {
        var i :| 0 <= i < |sheets| && Names(sheets)[i] == name;
        assert Names(sheets[1..])[i - 1] == name;
      }
      SheetFrame(sheets[1..], name)
  }

  /** The key of each row, in order. */
  function Keys(rows: seq<map<string, Cell>>, key: string): (ks: seq<Cell>)
    ensures |ks| == |rows| && forall i :: 0 <= i < |rows| ==> ks[i] == Get(rows[i], key)
  {
    seq(|rows|, i requires 0 <= i < |rows| => Get(rows[i], key))
  }

  /** `drop_duplicates(subset=[key], keep="first")`: each row whose key was not seen before. */
  function KeepFirst(rows: seq<map<string, Cell>>, key: string): (r: seq<map<string, Cell>>)
    ensures |r| <= |rows|
  {
    if rows == [] then []
    else
      var init := rows[..|rows| - 1];
      var last := rows[|rows| - 1];
      if Get(last, key) in Keys(init, key) then KeepFirst(init, key) else KeepFirst(init, key) + [last]
  }

  /** The rows kept carry each key once, in the order the keys first appear. */
  lemma {:induction false} KeepFirstKeys(rows: seq<map<string, Cell>>, key: string)
    ensures Keys(KeepFirst(rows, key), key) == Dedup(Keys(rows, key))
  {
    if rows != [] {
      var init := rows[..|rows| - 1];
      var last := rows[|rows| - 1];
      KeepFirstKeys(init, key);
      assert Keys(rows, key) == Keys(init, key) + [Get(last, key)];
      DedupSnoc(Keys(init, key), Get(last, key));
      if Get(last, key) !in Keys(init, key) {
        assert Keys(KeepFirst(init, key) + [last], key) == Keys(KeepFirst(init, key), key) + [Get(last, key)];
      }
    }
  }

  /** Every row kept is the first row of its key. */
  lemma {:induction false} KeepFirstIsFirst(rows: seq<map<string, Cell>>, key: string, k: nat)
    requires k < |KeepFirst(rows, key)|
    ensures Get(KeepFirst(rows, key)[k], key) in Keys(rows, key)
    ensures KeepFirst(rows, key)[k] == rows[FirstIndex(Keys(rows, key), Get(KeepFirst(rows, key)[k], key))]
  {
    var init := rows[..|rows| - 1];
    var last := rows[|rows| - 1];
    var x := Get(KeepFirst(rows, key)[k], key);
    assert Keys(rows, key) == Keys(init, key) + [Get(last, key)];
    if k < |KeepFirst(init, key)| {
      KeepFirstIsFirst(init, key, k);
      assert Keys(init, key) == Keys(rows, key)[..|rows| - 1];
      FirstIndexPrefix(Keys(rows, key), |rows| - 1, x);
    } else {
      assert KeepFirst(rows, key)[k] == last && Get(last, key) !in Keys(init, key);
      assert Keys(rows, key)[..|rows| - 1] == Keys(init, key);
      assert FirstIndex(Keys(rows, key), x) == |rows| - 1;
    }
  }

  /** The position of the first row whose key is `x`. */
  function FirstMatch(rows: seq<map<string, Cell>>, key: string, x: Cell): (m: Option<nat>)
    ensures m.Some? ==> m.value < |rows| && Get(rows[m.value], key) == x
    ensures m.None? <==> forall j :: 0 <= j < |rows| ==> Get(rows[j], key) != x
    decreases |rows|
  {
    if rows == [] then None
    else if Get(rows[0], key) == x then Some(0)
    else
      var m := FirstMatch(rows[1..], key, x);
      assert forall j :: 0 < j < |rows| ==> rows[j] == rows[1..][j - 1];
      if m.None? then None else Some(m.value + 1)
  }

  /** Among rows whose keys are distinct, at most one row matches. */
  lemma {:induction false} UniqueMatch(rows: seq<map<string, Cell>>, key: string, x: Cell, j: nat)
    requires forall a, b :: 0 <= a < b < |Keys(rows, key)| ==> Keys(rows, key)[a] != Keys(rows, key)[b]
    requires j < |rows| && Get(rows[j], key) == x
    ensures FirstMatch(rows, key, x) == Some(j)
  {
    var m := FirstMatch(rows, key, x).value;
    assert Keys(rows, key)[m] == Keys(rows, key)[j];
  }

  /** The name a left column takes in the merge: `_x` when the right side has it too. */
  function LeftName(c: string, right: seq<string>, key: string): string {
    if c != key && c in right then c + "_x" else c
  }

  /** The name a right column takes in the merge: `_y` when the left side has it too. */
  function RightName(c: string, left: seq<string>): string {
    if c in left then c + "_y" else c
  }

  /** The columns of `s` other than `c`, in order. */
  function Without(s: seq<string>, c: string): (r: seq<string>)
    ensures forall x :: x in r <==> x in s && x != c
    ensures |r| <= |s|
  {
    if s == [] then []
    else if s[0] == c then Without(s[1..], c)
    else [s[0]] + Without(s[1..], c)
  }

  /** The `(name, value)` pairs a left row contributes. */
  function LeftPairs(row: map<string, Cell>, cols: seq<string>, right: seq<string>, key: string): (p: seq<(string, Cell)>)
    ensures |p| == |cols| && forall j :: 0 <= j < |cols| ==> p[j] == (LeftName(cols[j], right, key), Get(row, cols[j]))
  {
    seq(|cols|, j requires 0 <= j < |cols| => (LeftName(cols[j], right, key), Get(row, cols[j])))
  }

  /** The `(name, value)` pairs a right row contributes, all empty when there is no match. */
  function RightPairs(row: Option<map<string, Cell>>, cols: seq<string>, left: seq<string>): (p: seq<(string, Cell)>)
    ensures |p| == |cols|
    ensures forall j :: 0 <= j < |cols| ==> p[j].0 == RightName(cols[j], left)
    ensures forall j :: 0 <= j < |cols| ==> p[j].1 == if row.Some? then Get(row.value, cols[j]) else Null
  {
    seq(|cols|, j requires 0 <= j < |cols| =>
      (RightName(cols[j], left), if row.Some? then Get(row.value, cols[j]) else Null))
  }

  /** The right row matched by a left row, if any. */
  function Matched(right: Frame, key: string, x: Cell): Option<map<string, Cell>> {
    match FirstMatch(right.rows, key, x)
    case Some(m) => Some(right.rows[m])
    case None => None
  }

  /** The merged row for one left row: its own pairs, then the matching right row's pairs, stored in order. */
  function MergedRow(row: map<string, Cell>, leftCols: seq<string>, right: Frame, key: string): map<string, Cell> {
    LastMap(LeftPairs(row, leftCols, right.columns, key)
      + RightPairs(Matched(right, key, Get(row, key)), Without(right.columns, key), leftCols))
  }

  /**
   * `left.merge(right, on=key, how="left")` for a right side with distinct
   * keys: one row per left row, in left order, with the matching right
   * row's columns or empty values.
   */
  function Merge(left: Frame, right: Frame, key: string): (r: Frame)
    ensures |r.rows| == |left.rows|
    ensures r.columns == seq(|left.columns|, j requires 0 <= j < |left.columns| => LeftName(left.columns[j], right.columns, key))
      + seq(|Without(right.columns, key)|, j requires 0 <= j < |Without(right.columns, key)| => RightName(Without(right.columns, key)[j], left.columns))
  {
    var rest := Without(right.columns, key);
    Frame(
      seq(|left.columns|, j requires 0 <= j < |left.columns| => LeftName(left.columns[j], right.columns, key))
      + seq(|rest|, j requires 0 <= j < |rest| => RightName(rest[j], left.columns)),
      seq(|left.rows|, i requires 0 <= i < |left.rows| => MergedRow(left.rows[i], left.columns, right, key)))
  }

  /** A right-only column no left `_x` name collides with is empty in a merged row whose key has no match. */
  lemma {:induction false} UnmatchedRow(row: map<string, Cell>, leftCols: seq<string>, right: Frame, key: string, w: string)
    requires w != key && w in right.columns && w !in leftCols
    requires forall c :: c in leftCols ==> c + "_x" != w
    requires forall j :: 0 <= j < |right.rows| ==> Get(right.rows[j], key) != Get(row, key)
    ensures Get(MergedRow(row, leftCols, right, key), w) == Null
  {
    var rest := Without(right.columns, key);
    var pairs := LeftPairs(row, leftCols, right.columns, key)
      + RightPairs(Matched(right, key, Get(row, key)), rest, leftCols);
    if w in LastMap(pairs) {
      forall j | 0 <= j < |pairs| && pairs[j].0 == w ensures pairs[j].1 == Null {
      }
      LastMapUniform(pairs, w, Null);
    }
  }

  /**
   * A right-only column that no left column's `_x` name collides with is
   * empty in every merged row whose key has no match.
   */
  lemma {:induction false} UnmatchedIsEmpty(left: Frame, right: Frame, key: string, w: string, i: nat)
    requires i < |left.rows| && w != key && w in right.columns && w !in left.columns
    requires forall c :: c in left.columns ==> c + "_x" != w
    requires forall j :: 0 <= j < |right.rows| ==> Get(right.rows[j], key) != Get(left.rows[i], key)
    ensures Get(Merge(left, right, key).rows[i], w) == Null
  {
    UnmatchedRow(left.rows[i], left.columns, right, key, w);
  }

  /** No left column is renamed to a right-only column that no `_x` name collides with. */
  lemma {:induction false} LeftPairsAvoid(row: map<string, Cell>, leftCols: seq<string>, rightCols: seq<string>, key: string, w: string)
    requires w !in leftCols && forall c :: c in leftCols ==> c + "_x" != w
    ensures forall j :: 0 <= j < |leftCols| ==> LeftPairs(row, leftCols, rightCols, key)[j].0 != w
  {
    forall j | 0 <= j < |leftCols| ensures LeftPairs(row, leftCols, rightCols, key)[j].0 != w {
      assert leftCols[j] in leftCols;
    }
  }

  /** The right pair named `w` holds the right row's `w`, when no `_y` name collides with it. */
  lemma {:induction false} RightPairsCarry(r: map<string, Cell>, rest: seq<string>, leftCols: seq<string>, w: string)
    requires w !in leftCols && forall c :: c in leftCols ==> c + "_y" != w
    ensures forall j :: 0 <= j < |rest| && RightPairs(Some(r), rest, leftCols)[j].0 == w ==> RightPairs(Some(r), rest, leftCols)[j].1 == Get(r, w)
  {
  }

  /** A right-only column no suffixed column takes over carries, in a merged row whose key has a match, the matched row's value. */
  lemma {:induction false} MatchedRow(row: map<string, Cell>, leftCols: seq<string>, right: Frame, key: string, w: string, m: nat)
    requires w != key && w in right.columns && w !in leftCols
    requires forall c :: c in leftCols ==> c + "_x" != w && c + "_y" != w
    requires FirstMatch(right.rows, key, Get(row, key)) == Some(m)
    ensures Get(MergedRow(row, leftCols, right, key), w) == Get(right.rows[m], w)
  {
    var rest := Without(right.columns, key);
    assert Matched(right, key, Get(row, key)) == Some(right.rows[m]);
    LeftPairsAvoid(row, leftCols, right.columns, key, w);
    RightPairsCarry(right.rows[m], rest, leftCols, w);
    var j :| 0 <= j < |rest| && rest[j] == w;
    LastMapOfTwo(LeftPairs(row, leftCols, right.columns, key), RightPairs(Some(right.rows[m]), rest, leftCols), w, Get(right.rows[m], w), j);
  }

  /**
   * A right-only column whose name no suffixed column takes over carries,
   * in every merged row whose key has a match, the matched right row's value.
   */
  lemma {:induction false} MatchedCarries(left: Frame, right: Frame, key: string, w: string, i: nat)
    requires i < |left.rows| && w != key && w in right.columns && w !in left.columns
    requires forall c :: c in left.columns ==> c + "_x" != w && c + "_y" != w
    requires FirstMatch(right.rows, key, Get(left.rows[i], key)).Some?
    ensures Get(Merge(left, right, key).rows[i], w) == Get(right.rows[FirstMatch(right.rows, key, Get(left.rows[i], key)).value], w)
  {
    MatchedRow(left.rows[i], left.columns, right, key, w, FirstMatch(right.rows, key, Get(left.rows[i], key)).value);
  }

  /**
   * A left column whose merged name `n` no other column takes carries, in
   * every merged row, the left row's own value.
   */
  lemma {:induction false} LeftRow(row: map<string, Cell>, leftCols: seq<string>, right: Frame, key: string, c: string)
    requires c in leftCols
    requires forall c' :: c' in leftCols && LeftName(c', right.columns, key) == LeftName(c, right.columns, key) ==> c' == c
    requires forall w :: w in right.columns && w != key ==> RightName(w, leftCols) != LeftName(c, right.columns, key)
    ensures Get(MergedRow(row, leftCols, right, key), LeftName(c, right.columns, key)) == Get(row, c)
  {
    var n := LeftName(c, right.columns, key);
    var rest := Without(right.columns, key);
    var lp := LeftPairs(row, leftCols, right.columns, key);
    var rp := RightPairs(Matched(right, key, Get(row, key)), rest, leftCols);
    var k :| 0 <= k < |leftCols| && leftCols[k] == c;
    forall t | 0 <= t < |rp|
      ensures rp[t].0 != n
    {
      assert rest[t] in rest;
    }
    forall t | 0 <= t < |lp| && lp[t].0 == n
      ensures lp[t].1 == Get(row, c)
    {
      assert leftCols[t] in leftCols;
    }
    LastMapOfFirst(lp, rp, n, Get(row, c), k);
  }

  /**
   * A left column the right side does not have (or the key itself) keeps its
   * name and, in merged row `i`, left row `i`'s value, provided no suffixed
   * name collides with it.
   */
  lemma {:induction false} MergeKeepsLeft(left: Frame, right: Frame, key: string, c: string, i: nat)
    requires i < |left.rows| && c in left.columns && (c == key || c !in right.columns)
    requires forall c' :: c' in left.columns ==> c' + "_x" != c
    requires forall w :: w in right.columns ==> w + "_y" != c
    ensures Get(Merge(left, right, key).rows[i], c) == Get(left.rows[i], c)
  {
    LeftRow(left.rows[i], left.columns, right, key, c);
  }

  /**
   * A non-key column both sides have is renamed `c_x` on the left and, in
   * merged row `i`, holds left row `i`'s value, provided no column is
   * already called `c_x`.
   */
  lemma {:induction false} MergeSuffixesShared(left: Frame, right: Frame, key: string, c: string, i: nat)
    requires i < |left.rows| && c in left.columns && c in right.columns && c != key
    requires c + "_x" !in left.columns && c + "_x" !in right.columns
    ensures Get(Merge(left, right, key).rows[i], c + "_x") == Get(left.rows[i], c)
  {
    forall c' | c' in left.columns && LeftName(c', right.columns, key) == c + "_x"
      ensures c' == c
    {
      if c' != key && c' in right.columns {
        SuffixInjective(c', c, "_x");
      }
    }
    forall w | w in right.columns && w != key
      ensures RightName(w, left.columns) != c + "_x"
    {
      if w in left.columns {
        assert (w + "_y")[|w + "_y"| - 1] == 'y';
        assert (c + "_x")[|c + "_x"| - 1] == 'x';
      }
    }
    LeftRow(left.rows[i], left.columns, right, key, c);
  }

  /** Appending the same suffix keeps names apart. */
  lemma SuffixInjective(a: string, b: string, s: string)
    requires a + s == b + s
    ensures a == b
  {
    assert a == (a + s)[..|a|];
    assert b == (b + s)[..|b|];
  }

  /** `df[name] = values`: the column is replaced, or appended when new. */
  function SetColumn(f: Frame, name: string, values: seq<Cell>): (r: Frame)
    requires |values| == |f.rows|
    ensures r.columns == if name in f.columns then f.columns else f.columns + [name]
    ensures |r.rows| == |f.rows|
    ensures forall i :: 0 <= i < |r.rows| ==> r.rows[i] == f.rows[i][name := values[i]]
  {
    Frame(if name in f.columns then f.columns else f.columns + [name],
      seq(|f.rows|, i requires 0 <= i < |f.rows| => f.rows[i][name := values[i]]))
  }

  /** `df[src].apply(g)`. */
  function Apply(f: Frame, src: string, g: Cell -> Cell): (values: seq<Cell>)
    ensures |values| == |f.rows| && forall i :: 0 <= i < |f.rows| ==> values[i] == g(Get(f.rows[i], src))
  {
    seq(|f.rows|, i requires 0 <= i < |f.rows| => g(Get(f.rows[i], src)))
  }

  /** `df.drop(columns=names, errors="ignore")`. */
  function Drop(f: Frame, names: set<string>): (r: Frame)
    ensures |r.rows| == |f.rows|
    ensures forall c :: c in r.columns <==> c in f.columns && c !in names
    ensures forall i :: 0 <= i < |r.rows| ==> r.rows[i] == f.rows[i] - names
  {
    Frame(DropNames(f.columns, names), seq(|f.rows|, i requires 0 <= i < |f.rows| => f.rows[i] - names))
  }

  function DropNames(s: seq<string>, names: set<string>): (r: seq<string>)
    ensures forall c :: c in r <==> c in s && c !in names
  {
    if s == [] then []
    else if s[0] in names then DropNames(s[1..], names)
    else [s[0]] + DropNames(s[1..], names)
  }

  /** The new name of a column under a rename map. */
  function Renamed(m: map<string, string>, c: string): string {
    if c in m then m[c] else c
  }

  /** The `(new name, value)` pairs of one row under a rename map. */
  function RenamePairs(row: map<string, Cell>, cols: seq<string>, m: map<string, string>): (p: seq<(string, Cell)>)
    ensures |p| == |cols| && forall j :: 0 <= j < |cols| ==> p[j] == (Renamed(m, cols[j]), Get(row, cols[j]))
  {
    seq(|cols|, j requires 0 <= j < |cols| => (Renamed(m, cols[j]), Get(row, cols[j])))
  }

  /** `df.rename(columns=m)`, each row read back as a dict (a later column of the same name wins). */
  function Rename(f: Frame, m: map<string, string>): (r: Frame)
    ensures |r.rows| == |f.rows|
    ensures |r.columns| == |f.columns| && forall j :: 0 <= j < |f.columns| ==> r.columns[j] == Renamed(m, f.columns[j])
  {
    Frame(seq(|f.columns|, j requires 0 <= j < |f.columns| => Renamed(m, f.columns[j])),
      seq(|f.rows|, i requires 0 <= i < |f.rows| => LastMap(RenamePairs(f.rows[i], f.columns, m))))
  }

  /** A column nothing is renamed to and that is not renamed keeps its values. */
  lemma {:induction false} RenameKeeps(f: Frame, m: map<string, string>, c: string, i: nat)
    requires i < |f.rows| && c in f.columns && c !in m
    requires forall k :: k in m ==> m[k] != c
    ensures Get(Rename(f, m).rows[i], c) == Get(f.rows[i], c)
  {
    var j :| 0 <= j < |f.columns| && f.columns[j] == c;
    var pairs := RenamePairs(f.rows[i], f.columns, m);
    assert pairs[j].0 == c;
    assert c in KeysOf(pairs);
    LastMapUniform(pairs, c, Get(f.rows[i], c));
  }

  /** The entries of `schema` that are columns of the frame, in schema order. */
  function Present(schema: seq<string>, cols: seq<string>): (r: seq<string>)
    ensures forall c :: c in r <==> c in schema && c in cols
    ensures |r| <= |schema|
  {
    if schema == [] then []
    else if schema[0] in cols then [schema[0]] + Present(schema[1..], cols)
    else Present(schema[1..], cols)
  }

  /** Where the k-th projected column sits in the schema. */
  function PresentAt(schema: seq<string>, cols: seq<string>, k: nat): (a: nat)
    requires k < |Present(schema, cols)|
    ensures a < |schema| && schema[a] == Present(schema, cols)[k]
    decreases |schema|
  {
    if schema[0] in cols then
      if k == 0 then 0 else 1 + PresentAt(schema[1..], cols, k - 1)
    else 1 + PresentAt(schema[1..], cols, k)
  }

  /** Schema order is kept: later projected columns sit later in the schema. */
  lemma {:induction false} PresentInOrder(schema: seq<string>, cols: seq<string>, k: nat, l: nat)
    requires k < l < |Present(schema, cols)|
    ensures PresentAt(schema, cols, k) < PresentAt(schema, cols, l)
    decreases |schema|
  {
    if schema[0] !in cols {
      PresentInOrder(schema[1..], cols, k, l);
    } else if k > 0 {
      PresentInOrder(schema[1..], cols, k - 1, l - 1);
    }
  }

  /** A row restricted to the given columns. */
  function Restrict(row: map<string, Cell>, cols: seq<string>): (r: map<string, Cell>)
    ensures forall c :: c in r <==> c in cols
    ensures forall c :: c in cols ==> r[c] == Get(row, c)
  {
    map c | c in cols :: Get(row, c)
  }

  /** `df[[c for c in schema if c in df.columns]]`. */
  function Project(f: Frame, schema: seq<string>): (r: Frame)
    ensures r.columns == Present(schema, f.columns)
    ensures |r.rows| == |f.rows| && forall i :: 0 <= i < |f.rows| ==> r.rows[i] == Restrict(f.rows[i], r.columns)
  {
    var cols := Present(schema, f.columns);
    Frame(cols, seq(|f.rows|, i requires 0 <= i < |f.rows| => Restrict(f.rows[i], cols)))
  }

  /** `int()` truncating toward zero of an exact rational. */
  function TruncReal(x: real): int {
    if x >= 0.0 then x.Floor else -((-x).Floor)
  }

  /**
   * `to_int_safe`: the 1900-system serial day of a date-time, truncated
   * toward zero; an int as it is; empty or anything else `None`.
   */
  function ToIntSafe(c: Cell): (r: Option<int>)
    ensures c.Null? || c.Num? || c.Str? ==> r.None?
    ensures c.Int? ==> r == Some(c.i)
    ensures c.Timestamp? ==> r == Some(TruncReal(c.seconds as real / 86400.0 + 25569.0))
  {
    match c
    case Null => None
    case Int(i) => Some(i)
    case Timestamp(t) => Some(TruncReal(t as real / 86400.0 + 25569.0))
    case _ => None
  }

  /** 1970-01-01T00:00 is serial 25569. */
  lemma {:induction false} EpochSerial()
    ensures ToIntSafe(Timestamp(0)) == Some(25569)
  {
  }

  /** Every instant of one day on or after 1899-12-30 has that day's serial. */
  lemma {:induction false} SameDaySameSerial(day: int, s: int)
    requires 0 <= s < 86400 && day + 25569 >= 0
    ensures ToIntSafe(Timestamp(day * 86400 + s)) == Some(day + 25569)
  {
    var x := (day * 86400 + s) as real / 86400.0 + 25569.0;
    assert x == (day + 25569) as real + s as real / 86400.0;
    assert 0.0 <= s as real / 86400.0 < 1.0;
    assert x >= 0.0;
  }

  /** The cell a serial becomes in the frame. */
  function SerialCell(c: Cell): Cell {
    match ToIntSafe(c)
    case Some(i) => Int(i)
    case None => Null
  }

  /** `pd.to_numeric(errors="coerce").fillna(0)` on one wage cell. */
  function WageCell(c: Cell): (r: Cell)
    ensures r.Int? || r.Num?
    ensures c.Null? || c.Timestamp? ==> r == Int(0)
    ensures c.Str? && FloatOfText(c.s).None? ==> r == Int(0)
    ensures c.Str? && FloatOfText(c.s).Some? ==> r == Num(FloatOfText(c.s).value)
  {
    match c
    case Int(i) => Int(i)
    case Num(d) => Num(d)
    case Str(s) => (match FloatOfText(s)
      case Some(d) => Num(d)
      case None => Int(0))
    case _ => Int(0)
  }

  /** A dash, a blank and an empty wage are all 0. */
  lemma {:induction false} WageDefaults(s: string)
    requires IsBlank(s) || Trim(s) == "-"
    ensures WageCell(Str(s)) == Int(0) && WageCell(Null) == Int(0)
  {
  }

  /** `last_hire_safe`: empty, exactly `-`, or blank text is `None`; anything else is `str(val).strip()`. */
  function LastHireSafe(c: Cell): (r: Option<string>)
    ensures c.Null? || c == Str("-") ==> r.None?
    ensures c.Str? && IsBlank(c.s) ==> r.None?
    ensures !c.Null? && c != Str("-") && !IsBlank(CellText(c)) ==> r == Some(Trim(CellText(c)))
    ensures r.Some? ==> r.value != [] && Trim(r.value) == r.value
  {
    if c.Null? || c == Str("-") then None
    else
      var t := Trim(CellText(c));
      TrimIdempotent(CellText(c));
      if t == [] then None else Some(t)
  }

  /** `" - "` is not exactly `-`, so it is kept as a lone dash. */
  lemma {:induction false} LastHireSafeSpacedDash()
    ensures LastHireSafe(Str(" - ")) == Some("-")
  {
    TrimPad("-");
    assert " - " == " " + "-" + " ";
    assert !IsBlank(" - ") by { assert !IsSpace(" - "[1]); }
  }

  /** The cell a last hire date becomes in the frame. */
  function LastHireCell(c: Cell): Cell {
    match LastHireSafe(c)
    case Some(s) => Str(s)
    case None => Null
  }

  /** The first column whose upper-cased name contains `ACTIVE_ON_JUNE_30`. */
  function ActiveColumn(cols: seq<string>): (r: Option<string>)
    ensures r.Some? ==> r.value in cols && Contains(Upper(r.value), "ACTIVE_ON_JUNE_30")
    ensures r.Some? ==> exists i :: (0 <= i < |cols| && cols[i] == r.value
      && forall j :: 0 <= j < i ==> !Contains(Upper(cols[j]), "ACTIVE_ON_JUNE_30"))
    ensures r.None? <==> forall j :: 0 <= j < |cols| ==> !Contains(Upper(cols[j]), "ACTIVE_ON_JUNE_30")
  {
    match FirstWhere(cols, col => Contains(Upper(col), "ACTIVE_ON_JUNE_30"))
    case None => None
    case Some(k) => Some(cols[k])
  }

  /** `pd.to_numeric(errors="coerce").astype("Int64")` on one record number; a fraction makes the cast fail. */
  function RecordNumber(c: Cell): (r: Result<Cell, string>)
    ensures r.Ok? ==> r.value.Null? || r.value.Int?
    ensures c.Int? ==> r == Ok(c)
    ensures c.Null? || c.Timestamp? ==> r == Ok(Null)
    ensures c.Num? ==> r == WholeOrFail(c.d)
    ensures c.Str? && FloatOfText(c.s).None? ==> r == Ok(Null)
    ensures c.Str? && FloatOfText(c.s).Some? ==> r == WholeOrFail(FloatOfText(c.s).value)
  {
    match c
    case Int(i) => Ok(Int(i))
    case Num(d) => WholeOrFail(d)
    case Str(s) => (match FloatOfText(s)
      case Some(d) => WholeOrFail(d)
      case None => Ok(Null))
    case _ => Ok(Null)
  }

  /** A float cast to a nullable integer: allowed only when it has no fraction. */
  function WholeOrFail(d: Decimal): (r: Result<Cell, string>)
    ensures r.Ok? <==> Value(d) == Trunc(d) as real
    ensures r.Ok? ==> r == Ok(Int(Trunc(d)))
  {
    if Value(d) == Trunc(d) as real then Ok(Int(Trunc(d)))
    else Err("cannot safely cast non-equivalent float64 to int64")
  }

  /** The lambda of the integer-column coercion: `int(x)` unless empty; text that is not an integer makes it fail. */
  function IntOrFail(c: Cell): (r: Result<Cell, string>)
    ensures r.Ok? ==> r.value.Null? || r.value.Int?
    ensures c.Null? ==> r == Ok(Null)
    ensures c.Int? ==> r == Ok(c)
    ensures c.Num? ==> r == Ok(Int(Trunc(c.d)))
    ensures c.Str? ==> (r.Ok? <==> IntOfText(c.s).Some?)
    ensures c.Str? && r.Ok? ==> r.value == Int(IntOfText(c.s).value)
    ensures c.Timestamp? ==> r.Err?
  {
    match c
    case Null => Ok(Null)
    case Int(i) => Ok(Int(i))
    case Num(d) => Ok(Int(Trunc(d)))
    case Str(s) => (match IntOfText(s)
      case Some(i) => Ok(Int(i))
      case None => Err("invalid literal for int()"))
    case Timestamp(_) => Err("int() argument must be a string or a number")
  }

  /** The column of a frame mapped through a conversion that may fail: the first failure, or all results. */
  function ApplyOrFail(rows: seq<map<string, Cell>>, c: string, g: Cell -> Result<Cell, string>): (r: Result<seq<Cell>, string>)
    ensures r.Ok? ==> |r.value| == |rows| && forall i :: 0 <= i < |rows| ==> g(Get(rows[i], c)) == Ok(r.value[i])
    ensures r.Err? ==> exists i :: 0 <= i < |rows| && g(Get(rows[i], c)).Err?
  {
    if rows == [] then Ok([])
    else
      match ApplyOrFail(rows[..|rows| - 1], c, g)
      case Err(e) => Err(e)
      case Ok(init) =>
        match g(Get(rows[|rows| - 1], c))
        case Err(e) => Err(e)
        case Ok(v) => Ok(init + [v])
  }

  /** The loop's treatment of one value: integer columns get `int(float(v))`, `None` when that fails. */
  function FixValue(k: string, v: Cell): (r: Cell)
    ensures k in IntColumns && !v.Null? ==> r.Null? || r.Int?
    ensures k !in IntColumns || v.Null? ==> r == v
    ensures v.Int? ==> r == v
  {
    if k in IntColumns && !v.Null? then
      match v
      case Int(i) => Int(i)
      case Num(d) => Int(Trunc(d))
      case Str(s) => (match FloatOfText(s)
        case Some(d) => Int(Trunc(d))
        case None => Null)
      case _ => Null
    else v
  }

  /** One record after the loop. */
  function FixRecord(r: map<string, Cell>): (f: map<string, Cell>)
    ensures f.Keys == r.Keys
    ensures forall k :: k in r ==> f[k] == FixValue(k, r[k])
  {
    map k | k in r :: FixValue(k, r[k])
  }

  /** Rewriting a record twice is rewriting it once. */
  lemma {:induction false} FixRecordIdempotent(r: map<string, Cell>)
    ensures FixRecord(FixRecord(r)) == FixRecord(r)
  {
    var f := FixRecord(r);
    forall k | k in f ensures FixValue(k, f[k]) == f[k] {
      assert f[k] == FixValue(k, r[k]);
    }
  }

  /**
   * Once the integer columns hold only integers and empties, the
   * record loop changes nothing: after the column coercion it has no effect.
   */
  lemma {:induction false} FixRecordAfterCoercion(r: map<string, Cell>)
    requires forall k :: k in r && k in IntColumns ==> r[k].Null? || r[k].Int?
    ensures FixRecord(r) == r
  {
  }

  /** The loop over `records` that rewrites each dict in place. */
  method FixRecords(records: seq<map<string, Cell>>, keys: seq<string>) returns (fixed: seq<map<string, Cell>>)
    requires forall i :: 0 <= i < |records| ==> forall k :: k in records[i] <==> k in keys
    ensures |fixed| == |records|
    ensures forall i :: 0 <= i < |records| ==> fixed[i] == FixRecord(records[i])
    ensures forall i, k :: 0 <= i < |fixed| && k in fixed[i] && k in IntColumns ==> fixed[i][k].Null? || fixed[i][k].Int?
  {
    fixed := [];
    var i := 0;
    while i < |records|
      invariant i <= |records| && |fixed| == i
      invariant forall a :: 0 <= a < i ==> fixed[a] == FixRecord(records[a])
    {
      var r := FixOne(records[i], keys);
      fixed := fixed + [r];
      i := i + 1;
    }
  }

  /** The inner loop: one dict rewritten key by key, in the order of `keys`. */
  method FixOne(rec: map<string, Cell>, keys: seq<string>) returns (r: map<string, Cell>)
    requires forall k :: k in rec <==> k in keys
    ensures r == FixRecord(rec)
  {
    r := rec;
    var j := 0;
    while j < |keys|
      invariant j <= |keys|
      invariant r.Keys == rec.Keys
      invariant forall k :: k in r ==> r[k] == if k in keys[..j] then FixValue(k, rec[k]) else rec[k]
    {
      var k := keys[j];
      var v := r[k];
      if k in keys[..j] {
        // a repeated key: the dict has one entry, already rewritten; rewriting it again changes nothing
        assert v == FixValue(k, rec[k]);
      } else {
        r := r[k := FixValue(k, v)];
      }
      assert keys[..j + 1] == keys[..j] + [k];
      j := j + 1;
    }
    assert keys[..j] == keys;
  }

  /** What is sent: the columns, and one dict per HR row. */
  datatype Prepared = Prepared(columns: seq<string>, records: seq<map<string, Cell>>)

  /** A frame of `n` rows that carries `fiscal_year` = `"2025"` in each of them. */
  predicate Stamped(df: Frame, n: nat) {
    |df.rows| == n && "fiscal_year" in df.columns
    && forall i :: 0 <= i < |df.rows| ==> Get(df.rows[i], "fiscal_year") == Str(FiscalYear)
  }

  /** Every row holds exactly the frame's columns. */
  ghost predicate Rectangular(df: Frame) {
    forall i :: 0 <= i < |df.rows| ==> forall k :: k in df.rows[i] <==> k in df.columns
  }

  /** Setting a column that is already there keeps the rows' keys. */
  lemma {:induction false} SetColumnRectangular(df: Frame, name: string, values: seq<Cell>)
    requires Rectangular(df) && name in df.columns && |values| == |df.rows|
    ensures Rectangular(SetColumn(df, name, values))
  {
  }

  /** A projection leaves every row with exactly the kept columns. */
  lemma {:induction false} ProjectRectangular(df: Frame)
    ensures Rectangular(Project(df, Schema))
  {
  }

  /** Setting another column keeps the fiscal year. */
  lemma {:induction false} SetColumnStamped(df: Frame, name: string, values: seq<Cell>, n: nat)
    requires Stamped(df, n) && name != "fiscal_year" && |values| == |df.rows|
    ensures Stamped(SetColumn(df, name, values), n)
  {
    var r := SetColumn(df, name, values);
    forall i | 0 <= i < |r.rows| ensures Get(r.rows[i], "fiscal_year") == Str(FiscalYear) {
      assert r.rows[i] == df.rows[i][name := values[i]];
    }
  }

  /** Dropping other columns keeps the fiscal year. */
  lemma {:induction false} DropStamped(df: Frame, names: set<string>, n: nat)
    requires Stamped(df, n) && "fiscal_year" !in names
    ensures Stamped(Drop(df, names), n)
  {
    var r := Drop(df, names);
    forall i | 0 <= i < |r.rows| ensures Get(r.rows[i], "fiscal_year") == Str(FiscalYear) {
      assert r.rows[i] == df.rows[i] - names;
    }
  }

  /** The rename `main` applies: the fixed map, plus the active column when there is one. */
  function RenameMap(cols: seq<string>): (m: map<string, string>)
    ensures ActiveColumn(cols).Some? ==> m == ColumnMap[ActiveColumn(cols).value := "active_on_june_30"]
    ensures ActiveColumn(cols).None? ==> m == ColumnMap
  {
    match ActiveColumn(cols)
    case Some(a) => ColumnMap[a := "active_on_june_30"]
    case None => ColumnMap
  }

  /** The rename neither moves `fiscal_year` nor renames anything to it. */
  lemma {:induction false} RenameMapAvoidsFiscalYear(cols: seq<string>)
    ensures "fiscal_year" !in RenameMap(cols)
    ensures forall k :: k in RenameMap(cols) ==> RenameMap(cols)[k] != "fiscal_year"
  {
    match ActiveColumn(cols)
    case None =>
      FiscalYearNotSource();
      FiscalYearNotTarget();
    case Some(a) =>
      ActiveRenameAvoidsFiscalYear(a);
  }

  /** A rename that neither moves `fiscal_year` nor renames anything to it. */
  predicate AvoidsFiscalYear(m: map<string, string>) {
    "fiscal_year" !in m && forall k :: k in m ==> m[k] != "fiscal_year"
  }

  /** Adding the active column to the fixed rename neither moves `fiscal_year` nor renames anything to it. */
  lemma {:induction false} ActiveRenameAvoidsFiscalYear(a: string)
    requires Contains(Upper(a), "ACTIVE_ON_JUNE_30")
    ensures AvoidsFiscalYear(ColumnMap[a := "active_on_june_30"])
  {
    NotContainsLonger(Upper("fiscal_year"), "ACTIVE_ON_JUNE_30");
    FiscalYearNotSource();
    FiscalYearNotTarget();
  }

  /** `fiscal_year` is not renamed by the fixed rename. */
  lemma {:induction false} FiscalYearNotSource()
    ensures "fiscal_year" !in ColumnMap
  {
  }

  /** Nothing is renamed to `fiscal_year` by the fixed rename. */
  lemma {:induction false} FiscalYearNotTarget()
    ensures forall k :: k in ColumnMap ==> ColumnMap[k] != "fiscal_year"
  {
  }

  /** Renaming keeps the fiscal year. */
  lemma {:induction false} RenameStamped(df: Frame, n: nat)
    requires Stamped(df, n)
    ensures Stamped(Rename(df, RenameMap(df.columns)), n)
  {
    var m := RenameMap(df.columns);
    RenameMapAvoidsFiscalYear(df.columns);
    var j :| 0 <= j < |df.columns| && df.columns[j] == "fiscal_year";
    assert Rename(df, m).columns[j] == "fiscal_year";
    forall i | 0 <= i < |df.rows|
      ensures Get(Rename(df, m).rows[i], "fiscal_year") == Str(FiscalYear)
    {
      RenameKeeps(df, m, "fiscal_year", i);
    }
  }

  /** Projecting onto the schema keeps the fiscal year. */
  lemma {:induction false} ProjectStamped(df: Frame, n: nat)
    requires Stamped(df, n)
    ensures Stamped(Project(df, Schema), n)
  {
    var r := Project(df, Schema);
    assert "fiscal_year" in Schema;
    forall i | 0 <= i < |r.rows| ensures Get(r.rows[i], "fiscal_year") == Str(FiscalYear) {
      assert r.rows[i] == Restrict(df.rows[i], r.columns);
    }
  }

  /** The earnings deduplicated by id, each HR row joined with its first earnings row. */
  function Merged(hr: Frame, earnings: Frame): (m: Frame)
    ensures |m.rows| == |hr.rows|
  {
    Merge(hr, Frame(earnings.columns, KeepFirst(earnings.rows, "TEMPORARY_ID")), "TEMPORARY_ID")
  }

  /** The merge with every row stamped with the fiscal year. */
  function MergeEarnings(hr: Frame, earnings: Frame): (df: Frame)
    ensures Stamped(df, |hr.rows|)
    ensures forall c :: c in df.columns <==> c in Merged(hr, earnings).columns || c == "fiscal_year"
    ensures forall i, c :: 0 <= i < |df.rows| && c != "fiscal_year" ==> Get(df.rows[i], c) == Get(Merged(hr, earnings).rows[i], c)
  {
    var m := Merged(hr, earnings);
    SetColumn(m, "fiscal_year", seq(|m.rows|, i => Str(FiscalYear)))
  }

  /** `df[dst] = df[src].apply(g)`: the new column holds `g` of the old one, everything else is kept. */
  function ApplyInto(df: Frame, src: string, dst: string, g: Cell -> Cell): (r: Frame)
    ensures |r.rows| == |df.rows|
    ensures forall c :: c in r.columns <==> c in df.columns || c == dst
    ensures forall i :: 0 <= i < |r.rows| ==> Get(r.rows[i], dst) == g(Get(df.rows[i], src))
    ensures forall i, c :: 0 <= i < |r.rows| && c != dst ==> Get(r.rows[i], c) == Get(df.rows[i], c)
    ensures forall i, c :: 0 <= i < |r.rows| && c != dst ==> (c in r.rows[i] <==> c in df.rows[i])
  {
    var values := Apply(df, src, g);
    var r := SetColumn(df, dst, values);
    assert forall i :: 0 <= i < |r.rows| ==> r.rows[i] == df.rows[i][dst := values[i]];
    r
  }

  /** The two serial-date columns converted under their new names, the originals dropped. */
  function ConvertDates(df0: Frame): (df: Frame)
    ensures |df.rows| == |df0.rows|
    ensures forall c :: c in df.columns <==>
      (c in df0.columns || c == "original_hire_date" || c == "job_entry_date") && c != "ORIGINAL_HIRE_DATE" && c != "JOB_ENTRY_DATE"
  {
    var withHire := ApplyInto(df0, "ORIGINAL_HIRE_DATE", "original_hire_date", SerialCell);
    var withEntry := ApplyInto(withHire, "JOB_ENTRY_DATE", "job_entry_date", SerialCell);
    Drop(withEntry, {"ORIGINAL_HIRE_DATE", "JOB_ENTRY_DATE"})
  }

  /** The new date columns hold the serials converted, and the old ones are gone from every row. */
  lemma {:induction false} ConvertDatesValues(df0: Frame)
    ensures var df := ConvertDates(df0);
      forall i :: 0 <= i < |df.rows| ==>
        (Get(df.rows[i], "original_hire_date") == SerialCell(Get(df0.rows[i], "ORIGINAL_HIRE_DATE"))
         && Get(df.rows[i], "job_entry_date") == SerialCell(Get(df0.rows[i], "JOB_ENTRY_DATE"))
         && "ORIGINAL_HIRE_DATE" !in df.rows[i] && "JOB_ENTRY_DATE" !in df.rows[i])
  {
    forall i | 0 <= i < |df0.rows| {
      ConvertDatesRow(df0, i);
    }
  }

  /** One row of the date conversion. */
  lemma {:induction false} ConvertDatesRow(df0: Frame, i: nat)
    requires i < |df0.rows|
    ensures var df := ConvertDates(df0);
      Get(df.rows[i], "original_hire_date") == SerialCell(Get(df0.rows[i], "ORIGINAL_HIRE_DATE"))
      && Get(df.rows[i], "job_entry_date") == SerialCell(Get(df0.rows[i], "JOB_ENTRY_DATE"))
      && "ORIGINAL_HIRE_DATE" !in df.rows[i] && "JOB_ENTRY_DATE" !in df.rows[i]
  {
    var withHire := ApplyInto(df0, "ORIGINAL_HIRE_DATE", "original_hire_date", SerialCell);
    var withEntry := ApplyInto(withHire, "JOB_ENTRY_DATE", "job_entry_date", SerialCell);
    var df := Drop(withEntry, {"ORIGINAL_HIRE_DATE", "JOB_ENTRY_DATE"});
    assert Get(withHire.rows[i], "JOB_ENTRY_DATE") == Get(df0.rows[i], "JOB_ENTRY_DATE");
    assert Get(withEntry.rows[i], "original_hire_date") == Get(withHire.rows[i], "original_hire_date");
    assert df.rows[i] == withEntry.rows[i] - {"ORIGINAL_HIRE_DATE", "JOB_ENTRY_DATE"};
  }

  /** Every other column keeps its values through the date conversion. */
  lemma {:induction false} ConvertDatesKeeps(df0: Frame)
    ensures var df := ConvertDates(df0);
      forall i, c :: 0 <= i < |df.rows| && c !in DateNames ==> Get(df.rows[i], c) == Get(df0.rows[i], c)
  {
    var withHire := ApplyInto(df0, "ORIGINAL_HIRE_DATE", "original_hire_date", SerialCell);
    var withEntry := ApplyInto(withHire, "JOB_ENTRY_DATE", "job_entry_date", SerialCell);
    var df := Drop(withEntry, {"ORIGINAL_HIRE_DATE", "JOB_ENTRY_DATE"});
    forall i, c | 0 <= i < |df.rows| && c !in DateNames ensures Get(df.rows[i], c) == Get(df0.rows[i], c) {
      assert Get(withEntry.rows[i], c) == Get(withHire.rows[i], c) == Get(df0.rows[i], c);
      assert df.rows[i] == withEntry.rows[i] - {"ORIGINAL_HIRE_DATE", "JOB_ENTRY_DATE"};
    }
  }

  /** The four names the date conversion reads or writes. */
  const DateNames: set<string> := {"ORIGINAL_HIRE_DATE", "JOB_ENTRY_DATE", "original_hire_date", "job_entry_date"}

  /** No wage column is listed twice. */
  lemma {:induction false} WageColumnsDistinct(w: nat)
    requires w < |WageColumns|
    ensures WageColumns[w] !in WageColumns[..w]
  {
  }

  /** The first `w` wage columns that the frame has, each converted to a number; everything else kept. */
  function WagesConverted(df: Frame, w: nat): (r: Frame)
    requires w <= |WageColumns|
    ensures r.columns == df.columns && |r.rows| == |df.rows|
    ensures forall i, c :: (0 <= i < |df.rows| && c in WageColumns[..w] && c in df.columns
      ==> Get(r.rows[i], c) == WageCell(Get(df.rows[i], c)))
    ensures forall i, c :: (0 <= i < |df.rows| && !(c in WageColumns[..w] && c in df.columns)
      ==> Get(r.rows[i], c) == Get(df.rows[i], c))
    decreases w
  {
    if w == 0 then df
    else
      var prev := WagesConverted(df, w - 1);
      var col := WageColumns[w - 1];
      WageColumnsDistinct(w - 1);
      assert WageColumns[..w] == WageColumns[..w - 1] + [col];
      if col in prev.columns then SetColumn(prev, col, Apply(prev, col, WageCell)) else prev
  }

  /** The loop over the wage columns: each one present converted to a number. */
  method ConvertWages(df0: Frame) returns (df: Frame)
    ensures df == WagesConverted(df0, |WageColumns|)
  {
    df := df0;
    var w := 0;
    while w < |WageColumns|
      invariant w <= |WageColumns| && df == WagesConverted(df0, w)
    {
      if WageColumns[w] in df.columns {
        df := SetColumn(df, WageColumns[w], Apply(df, WageColumns[w], WageCell));
      }
      w := w + 1;
    }
  }

  /** The last hire date converted from its text form under its new name, the original dropped. */
  function ConvertLastHire(df0: Frame): (df: Frame)
    ensures |df.rows| == |df0.rows|
    ensures forall c :: c in df.columns <==> (c in df0.columns || c == "last_hire_date") && c != "LAST_HIRE_DATE"
    ensures forall i :: 0 <= i < |df.rows| ==>
      (Get(df.rows[i], "last_hire_date") == LastHireCell(Get(df0.rows[i], "LAST_HIRE_DATE")) && "LAST_HIRE_DATE" !in df.rows[i])
    ensures forall i, c :: (0 <= i < |df.rows| && c != "LAST_HIRE_DATE" && c != "last_hire_date"
      ==> Get(df.rows[i], c) == Get(df0.rows[i], c))
  {
    var withLast := ApplyInto(df0, "LAST_HIRE_DATE", "last_hire_date", LastHireCell);
    var r := Drop(withLast, {"LAST_HIRE_DATE"});
    assert forall i :: 0 <= i < |r.rows| ==> r.rows[i] == withLast.rows[i] - {"LAST_HIRE_DATE"};
    r
  }

  /** The date, wage and last-hire conversions, in the order `main` runs them. */
  function ConvertColumns(df: Frame): (r: Frame)
    ensures |r.rows| == |df.rows|
  {
    ConvertLastHire(WagesConverted(ConvertDates(df), |WageColumns|))
  }

  /** The frame the lines from the merge to the last hire date build, when they do not raise. */
  function WideFrame(hr: Frame, earnings: Frame): (w: Frame)
    ensures |w.rows| == |hr.rows|
  {
    ConvertColumns(MergeEarnings(hr, earnings))
  }

  /** A wage column the frame has, after the wage conversion. */
  lemma {:induction false} WageConvertedAt(df: Frame, i: nat, c: string)
    requires i < |df.rows| && c in WageColumns && c in df.columns
    ensures Get(WagesConverted(df, |WageColumns|).rows[i], c) == WageCell(Get(df.rows[i], c))
  {
    assert WageColumns[..|WageColumns|] == WageColumns;
  }

  /** Any other column, after the wage conversion. */
  lemma {:induction false} WageKeptAt(df: Frame, i: nat, c: string)
    requires i < |df.rows| && !(c in WageColumns && c in df.columns)
    ensures Get(WagesConverted(df, |WageColumns|).rows[i], c) == Get(df.rows[i], c)
  {
    assert WageColumns[..|WageColumns|] == WageColumns;
  }

  /** A column the date conversion neither reads nor writes, after it. */
  lemma {:induction false} DateKeptAt(df: Frame, i: nat, c: string)
    requires i < |df.rows| && c !in DateNames
    ensures Get(ConvertDates(df).rows[i], c) == Get(df.rows[i], c)
  {
    ConvertDatesKeeps(df);
  }

  /** `fiscal_year` is neither a wage column nor touched by the date conversion. */
  lemma {:induction false} ConvertedNamesAvoidFiscalYear()
    ensures "fiscal_year" !in WageColumns && "fiscal_year" !in DateNames
  {
  }

  /** The last hire date's two names are not among the other dates' names. */
  lemma {:induction false} LastHireNotDate()
    ensures "LAST_HIRE_DATE" !in DateNames && "last_hire_date" !in DateNames
  {
  }

  /** No wage column is a date column, old or new. */
  lemma {:induction false} WagesAreNotDates()
    ensures forall c :: c in WageColumns ==> c !in DateNames && c != "LAST_HIRE_DATE" && c != "last_hire_date"
    ensures "original_hire_date" !in WageColumns && "job_entry_date" !in WageColumns && "LAST_HIRE_DATE" !in WageColumns
  {
  }

  /** The conversions keep the fiscal year. */
  lemma {:induction false} ConvertColumnsStamped(df: Frame, n: nat)
    requires Stamped(df, n)
    ensures Stamped(ConvertColumns(df), n)
  {
    var dated := ConvertDates(df);
    var paid := WagesConverted(dated, |WageColumns|);
    var w := ConvertLastHire(paid);
    ConvertedNamesAvoidFiscalYear();
    forall i | 0 <= i < |w.rows| ensures Get(w.rows[i], "fiscal_year") == Str(FiscalYear) {
      DateKeptAt(df, i, "fiscal_year");
      WageKeptAt(dated, i, "fiscal_year");
    }
  }

  /** The columns after the conversions: the old ones and the new ones, less the three originals converted. */
  lemma {:induction false} ConvertColumnsColumns(df: Frame)
    ensures forall c :: c in ConvertColumns(df).columns <==>
      (c in df.columns || c in ["original_hire_date", "job_entry_date", "last_hire_date"])
      && c !in ["ORIGINAL_HIRE_DATE", "JOB_ENTRY_DATE", "LAST_HIRE_DATE"]
  {
  }

  /** One row after the conversions: the dates converted under their new names. */
  lemma {:induction false} ConvertColumnsDates(df: Frame, i: nat)
    requires i < |df.rows|
    ensures var w, m := ConvertColumns(df).rows[i], df.rows[i];
      Get(w, "original_hire_date") == SerialCell(Get(m, "ORIGINAL_HIRE_DATE"))
      && Get(w, "job_entry_date") == SerialCell(Get(m, "JOB_ENTRY_DATE"))
      && Get(w, "last_hire_date") == LastHireCell(Get(m, "LAST_HIRE_DATE"))
  {
    var dated := ConvertDates(df);
    ConvertDatesRow(df, i);
    WagesAreNotDates();
    LastHireNotDate();
    WageKeptAt(dated, i, "original_hire_date");
    WageKeptAt(dated, i, "job_entry_date");
    WageKeptAt(dated, i, "LAST_HIRE_DATE");
    DateKeptAt(df, i, "LAST_HIRE_DATE");
  }

  /**
   * One row after the conversions: each wage column the frame has
   * converted to a number, every other value kept.
   */
  lemma {:induction false} ConvertColumnsWages(df: Frame, i: nat)
    requires i < |df.rows|
    ensures var w, m := ConvertColumns(df).rows[i], df.rows[i];
      forall c :: c in WageColumns && c in df.columns ==> Get(w, c) == WageCell(Get(m, c))
    ensures var w, m := ConvertColumns(df).rows[i], df.rows[i];
      forall c :: (c !in DateNames && c != "LAST_HIRE_DATE" && c != "last_hire_date"
                   && !(c in WageColumns && c in df.columns)) ==> Get(w, c) == Get(m, c)
  {
    var dated := ConvertDates(df);
    var paid := WagesConverted(dated, |WageColumns|);
    var w := ConvertLastHire(paid);
    WagesAreNotDates();
    forall c | c in WageColumns && c in df.columns ensures Get(w.rows[i], c) == WageCell(Get(df.rows[i], c)) {
      DateKeptAt(df, i, c);
      WageConvertedAt(dated, i, c);
    }
    forall c | c !in DateNames && c != "LAST_HIRE_DATE" && c != "last_hire_date" && !(c in WageColumns && c in df.columns)
      ensures Get(w.rows[i], c) == Get(df.rows[i], c)
    {
      DateKeptAt(df, i, c);
      WageKeptAt(dated, i, c);
    }
  }
  /** The columns those lines read are there: the join key on both sides, and the three dates after the join. */
  predicate WideColumnsPresent(hr: Frame, earnings: Frame) {
    "TEMPORARY_ID" in hr.columns && "TEMPORARY_ID" in earnings.columns
    && "ORIGINAL_HIRE_DATE" in Merged(hr, earnings).columns
    && "JOB_ENTRY_DATE" in Merged(hr, earnings).columns
    && "LAST_HIRE_DATE" in Merged(hr, earnings).columns
  }

  /**
   * Lines from the merge to the last hire date: join, stamp the fiscal
   * year, convert the dates and wages; a missing column raises `KeyError`.
   */
  method Widen(hr: Frame, earnings: Frame) returns (r: Result<Frame, string>)
    ensures r.Ok? <==> WideColumnsPresent(hr, earnings)
    ensures r.Ok? ==> r.value == WideFrame(hr, earnings)
  {
    if "TEMPORARY_ID" !in hr.columns || "TEMPORARY_ID" !in earnings.columns {
      return Err("KeyError: 'TEMPORARY_ID'");
    }
    var df := MergeEarnings(hr, earnings);
    if "ORIGINAL_HIRE_DATE" !in df.columns || "JOB_ENTRY_DATE" !in df.columns {
      return Err("KeyError: date column");
    }
    df := ConvertDates(df);
    df := ConvertWages(df);
    if "LAST_HIRE_DATE" !in df.columns {
      return Err("KeyError: 'LAST_HIRE_DATE'");
    }
    df := ConvertLastHire(df);
    return Ok(df);
  }

  /**
   * The cast a kept column goes through after the rename: the record
   * number's `to_numeric(...).astype("Int64")` (the later `int()` leaves
   * its nullable integer as it is), `int()` on the other integer columns,
   * none elsewhere.
   */
  function CastOf(c: string, v: Cell): (r: Result<Cell, string>)
    ensures c == "record_nbr" ==> r == RecordNumber(v)
    ensures c != "record_nbr" && c in IntColumns ==> r == IntOrFail(v)
    ensures c !in IntColumns ==> r == Ok(v)
  {
    if c == "record_nbr" then RecordNumber(v)
    else if c in IntColumns then IntOrFail(v)
    else Ok(v)
  }

  /** Every value of every schema column of the renamed frame survives its cast. */
  ghost predicate CastsSucceed(df: Frame) {
    forall i, c :: 0 <= i < |df.rows| && c in df.columns && c in Schema ==> CastOf(c, Get(df.rows[i], c)).Ok?
  }

  /** When the lines from the rename to the integer coercion run without raising. */
  ghost predicate NarrowSucceeds(df0: Frame) {
    CastsSucceed(Rename(df0, RenameMap(df0.columns)))
  }

  /** `out` keeps the schema columns of `df`, in schema order, each value cast. */
  ghost predicate NarrowedFrom(df: Frame, out: Frame) {
    out.columns == Present(Schema, df.columns) && |out.rows| == |df.rows|
    && forall i, c :: 0 <= i < |df.rows| && c in out.columns ==> CastOf(c, Get(df.rows[i], c)) == Ok(Get(out.rows[i], c))
  }

  /** A record number that does not cast makes the renamed frame fail. */
  lemma {:induction false} RecordCastFails(df: Frame)
    requires "record_nbr" in df.columns && ApplyOrFail(df.rows, "record_nbr", RecordNumber).Err?
    ensures !CastsSucceed(df)
  {
    assert "record_nbr" in Schema;
    forall i | 0 <= i < |df.rows| && RecordNumber(Get(df.rows[i], "record_nbr")).Err?
      ensures !CastsSucceed(df)
    {
      assert CastOf("record_nbr", Get(df.rows[i], "record_nbr")).Err?;
    }
  }

  /**
   * `df1` is the renamed frame `df` with its record numbers cast: every
   * other column as it was.
   */
  ghost predicate RecordCast(df: Frame, df1: Frame) {
    df1.columns == df.columns && |df1.rows| == |df.rows|
    && (forall i, c :: 0 <= i < |df.rows| && c != "record_nbr" ==> Get(df1.rows[i], c) == Get(df.rows[i], c))
    && ("record_nbr" in df.columns
        ==> forall i :: 0 <= i < |df.rows| ==> RecordNumber(Get(df.rows[i], "record_nbr")) == Ok(Get(df1.rows[i], "record_nbr")))
  }

  /** A failed `int()` in the coercion of the projection is a failed cast of the renamed frame. */
  lemma {:induction false} CoerceFailureIsCastFailure(df: Frame, df1: Frame, i: nat, c: string)
    requires RecordCast(df, df1)
    requires var p := Project(df1, Schema);
      i < |p.rows| && c in IntColumns && c in p.columns && IntOrFail(Get(p.rows[i], c)).Err?
    ensures !CastsSucceed(df)
  {
    var p := Project(df1, Schema);
    assert p.rows[i] == Restrict(df1.rows[i], p.columns);
    assert Get(p.rows[i], c) == Get(df1.rows[i], c);
    assert "record_nbr" in df.columns
      ==> RecordNumber(Get(df.rows[i], "record_nbr")) == Ok(Get(df1.rows[i], "record_nbr"));
    assert c != "record_nbr";
    assert Get(df1.rows[i], c) == Get(df.rows[i], c);
    assert CastOf(c, Get(df.rows[i], c)).Err?;
  }

  /** A failed cast of the renamed frame is a failed `int()` in the coercion of the projection. */
  lemma {:induction false} CastFailureIsCoerceFailure(df: Frame, df1: Frame, i: nat, c: string)
    requires RecordCast(df, df1)
    requires i < |df.rows| && c in df.columns && c in Schema && CastOf(c, Get(df.rows[i], c)).Err?
    ensures var p := Project(df1, Schema);
      c in IntColumns && c in p.columns && IntOrFail(Get(p.rows[i], c)).Err?
  {
    var p := Project(df1, Schema);
    assert c in p.columns;
    assert p.rows[i] == Restrict(df1.rows[i], p.columns);
    assert Get(p.rows[i], c) == Get(df1.rows[i], c);
  }

  /** Writing the cast record numbers back makes a record cast. */
  lemma {:induction false} RecordCastSet(df: Frame, values: seq<Cell>)
    requires "record_nbr" in df.columns && ApplyOrFail(df.rows, "record_nbr", RecordNumber) == Ok(values)
    ensures RecordCast(df, SetColumn(df, "record_nbr", values))
  {
    var df1 := SetColumn(df, "record_nbr", values);
    forall i, c | 0 <= i < |df.rows| && c != "record_nbr" ensures Get(df1.rows[i], c) == Get(df.rows[i], c) {
      assert df1.rows[i] == df.rows[i]["record_nbr" := values[i]];
    }
    forall i | 0 <= i < |df.rows| ensures RecordNumber(Get(df.rows[i], "record_nbr")) == Ok(Get(df1.rows[i], "record_nbr")) {
      assert df1.rows[i] == df.rows[i]["record_nbr" := values[i]];
    }
  }

  /** Without a record number column there is nothing to cast. */
  lemma {:induction false} RecordCastNone(df: Frame)
    requires "record_nbr" !in df.columns
    ensures RecordCast(df, df)
  {
  }

  /** After the record-number cast, the integer coercion of the projection fails exactly when some cast fails. */
  lemma {:induction false} NarrowCoerceFails(df: Frame, df1: Frame)
    requires RecordCast(df, df1)
    ensures var p := Project(df1, Schema);
      (exists i, c :: 0 <= i < |p.rows| && c in IntColumns && c in p.columns && IntOrFail(Get(p.rows[i], c)).Err?)
      <==> !CastsSucceed(df)
  {
    var p := Project(df1, Schema);
    forall i, c | 0 <= i < |p.rows| && c in IntColumns && c in p.columns && IntOrFail(Get(p.rows[i], c)).Err?
      ensures !CastsSucceed(df)
    {
      CoerceFailureIsCastFailure(df, df1, i, c);
    }
    forall i, c | 0 <= i < |df.rows| && c in df.columns && c in Schema && CastOf(c, Get(df.rows[i], c)).Err?
      ensures exists i, c :: 0 <= i < |p.rows| && c in IntColumns && c in p.columns && IntOrFail(Get(p.rows[i], c)).Err?
    {
      CastFailureIsCoerceFailure(df, df1, i, c);
    }
  }

  /** One value of the narrowed frame is the cast of the renamed frame's value. */
  lemma {:induction false} NarrowValueAt(df: Frame, df1: Frame, q: Frame, i: nat, c: string)
    requires RecordCast(df, df1) && Project(df1, Schema).columns == q.columns && Coerced(Project(df1, Schema), q, |IntColumns|)
    requires i < |df.rows| && c in q.columns
    ensures CastOf(c, Get(df.rows[i], c)) == Ok(Get(q.rows[i], c))
  {
    var p := Project(df1, Schema);
    assert IntColumns[..|IntColumns|] == IntColumns;
    assert p.rows[i] == Restrict(df1.rows[i], p.columns);
    assert Get(p.rows[i], c) == Get(df1.rows[i], c);
    if c == "record_nbr" {
      assert RecordNumber(Get(df.rows[i], c)) == Ok(Get(df1.rows[i], c));
    }
  }

  /** After the record-number cast, a successful integer coercion of the projection narrows the renamed frame. */
  lemma {:induction false} NarrowCoerceValues(df: Frame, df1: Frame, q: Frame)
    requires RecordCast(df, df1) && Project(df1, Schema).columns == q.columns && Coerced(Project(df1, Schema), q, |IntColumns|)
    ensures NarrowedFrom(df, q)
  {
    forall i, c | 0 <= i < |df.rows| && c in q.columns
      ensures CastOf(c, Get(df.rows[i], c)) == Ok(Get(q.rows[i], c))
    {
      NarrowValueAt(df, df1, q, i, c);
    }
  }

  /**
   * Lines from the rename to the integer coercion: rename, cast the record
   * number, keep the schema's columns in schema order, and coerce the
   * integer columns; a failed cast raises.
   */
  method Narrow(df0: Frame, n: nat) returns (r: Result<Frame, string>)
    requires Stamped(df0, n)
    ensures r.Ok? ==> Stamped(r.value, n) && Rectangular(r.value)
    ensures r.Ok? <==> NarrowSucceeds(df0)
    ensures r.Ok? ==> NarrowedFrom(Rename(df0, RenameMap(df0.columns)), r.value)
  {
    RenameStamped(df0, n);
    var df := Rename(df0, RenameMap(df0.columns));
    var df1 := df;
    if "record_nbr" in df.columns {
      match ApplyOrFail(df.rows, "record_nbr", RecordNumber) {
        case Err(e) =>
          RecordCastFails(df);
          return Err(e);
        case Ok(values) =>
          SetColumnStamped(df, "record_nbr", values, n);
          RecordCastSet(df, values);
          df1 := SetColumn(df, "record_nbr", values);
      }
    } else {
      RecordCastNone(df);
    }
    ProjectStamped(df1, n);
    ProjectRectangular(df1);
    NarrowCoerceFails(df, df1);
    r := CoerceIntColumns(Project(df1, Schema), n);
    if r.Ok? {
      NarrowCoerceValues(df, df1, r.value);
    }
  }

  lemma {:induction false} IntColumnsAvoidFiscalYear()
    ensures "fiscal_year" !in IntColumns
  {
  }

  /**
   * `df` is `df0` with the first `k` integer columns that `df0` has
   * converted by `int()`: those hold the converted values, every other
   * column its old ones.
   */
  ghost predicate Coerced(df0: Frame, df: Frame, k: nat)
    requires k <= |IntColumns|
  {
    |df.rows| == |df0.rows|
    && (forall i, c :: 0 <= i < |df0.rows| && c in IntColumns[..k] && c in df0.columns
          ==> IntOrFail(Get(df0.rows[i], c)) == Ok(Get(df.rows[i], c)))
    && (forall i, c :: 0 <= i < |df0.rows| && !(c in IntColumns[..k] && c in df0.columns)
          ==> Get(df.rows[i], c) == Get(df0.rows[i], c))
  }

  /** No integer column is listed twice. */
  lemma {:induction false} IntColumnsDistinct(k: nat)
    requires k < |IntColumns|
    ensures IntColumns[k] !in IntColumns[..k]
  {
  }

  /** Converting the next integer column, when the frame has it. */
  lemma {:induction false} CoerceStep(df0: Frame, df: Frame, k: nat, values: seq<Cell>)
    requires k < |IntColumns| && Coerced(df0, df, k) && df.columns == df0.columns && IntColumns[k] in df.columns
    requires |values| == |df.rows| && forall i :: 0 <= i < |df.rows| ==> IntOrFail(Get(df.rows[i], IntColumns[k])) == Ok(values[i])
    ensures Coerced(df0, SetColumn(df, IntColumns[k], values), k + 1)
  {
    var col := IntColumns[k];
    var next := SetColumn(df, col, values);
    IntColumnsDistinct(k);
    assert IntColumns[..k + 1] == IntColumns[..k] + [col];
    forall i, c | 0 <= i < |df0.rows| && c in IntColumns[..k + 1] && c in df0.columns
      ensures IntOrFail(Get(df0.rows[i], c)) == Ok(Get(next.rows[i], c))
    {
      assert next.rows[i] == df.rows[i][col := values[i]];
      if c != col {
        assert c in IntColumns[..k];
      }
    }
    forall i, c | 0 <= i < |df0.rows| && !(c in IntColumns[..k + 1] && c in df0.columns)
      ensures Get(next.rows[i], c) == Get(df0.rows[i], c)
    {
      assert next.rows[i] == df.rows[i][col := values[i]];
    }
  }

  /** Passing over an integer column the frame lacks. */
  lemma {:induction false} CoerceSkip(df0: Frame, df: Frame, k: nat)
    requires k < |IntColumns| && Coerced(df0, df, k) && IntColumns[k] !in df0.columns
    ensures Coerced(df0, df, k + 1)
  {
    assert IntColumns[..k + 1] == IntColumns[..k] + [IntColumns[k]];
  }

  /** A failed conversion of the next column fails on a value `df0` itself holds. */
  lemma {:induction false} CoerceFails(df0: Frame, df: Frame, k: nat)
    requires k < |IntColumns| && Coerced(df0, df, k) && IntColumns[k] in df0.columns
    requires ApplyOrFail(df.rows, IntColumns[k], IntOrFail).Err?
    ensures exists i, c :: 0 <= i < |df0.rows| && c in IntColumns && c in df0.columns && IntOrFail(Get(df0.rows[i], c)).Err?
  {
    var col := IntColumns[k];
    IntColumnsDistinct(k);
    var i :| 0 <= i < |df.rows| && IntOrFail(Get(df.rows[i], col)).Err?;
    assert Get(df.rows[i], col) == Get(df0.rows[i], col);
  }

  /**
   * The loop over the integer columns: each present one is converted by
   * `int()`, everything else is kept, and the run raises exactly when some
   * value of a present integer column does not convert.
   */
  method CoerceIntColumns(df0: Frame, n: nat) returns (r: Result<Frame, string>)
    requires Stamped(df0, n) && Rectangular(df0)
    ensures r.Ok? ==> Stamped(r.value, n) && Rectangular(r.value) && r.value.columns == df0.columns
    ensures r.Ok? ==> Coerced(df0, r.value, |IntColumns|)
    ensures r.Err? <==> exists i, c :: 0 <= i < |df0.rows| && c in IntColumns && c in df0.columns && IntOrFail(Get(df0.rows[i], c)).Err?
  {
    var df := df0;
    var c := 0;
    assert IntColumns[..0] == [];
    while c < |IntColumns|
      invariant c <= |IntColumns| && Stamped(df, n) && Rectangular(df) && df.columns == df0.columns
      invariant Coerced(df0, df, c)
    {
      var col := IntColumns[c];
      if col in df.columns {
        var converted := ApplyOrFail(df.rows, col, IntOrFail);
        if converted.Err? {
          CoerceFails(df0, df, c);
          return Err(converted.error);
        }
        var values := converted.value;
        IntColumnsAvoidFiscalYear();
        assert col in IntColumns;
        SetColumnStamped(df, col, values, n);
        SetColumnRectangular(df, col, values);
        CoerceStep(df0, df, c, values);
        df := SetColumn(df, col, values);
      } else {
        CoerceSkip(df0, df, c);
      }
      c := c + 1;
    }
    return Ok(df);
  }

  /** When the frame work of `main` runs without raising: the columns it reads are there, and every cast succeeds. */
  ghost predicate Prepares(hr: Frame, earnings: Frame) {
    WideColumnsPresent(hr, earnings) && NarrowSucceeds(WideFrame(hr, earnings))
  }

  /** The wide frame under the schema's column names. */
  ghost function RenamedWide(hr: Frame, earnings: Frame): Frame {
    var w := WideFrame(hr, earnings);
    Rename(w, RenameMap(w.columns))
  }

  /** The record loop leaves the rows of a narrowed frame as they are. */
  lemma {:induction false} NarrowedRowsFixed(df: Frame, q: Frame)
    requires NarrowedFrom(df, q) && Rectangular(q)
    ensures forall i :: 0 <= i < |q.rows| ==> FixRecord(q.rows[i]) == q.rows[i]
  {
    forall i | 0 <= i < |q.rows| ensures FixRecord(q.rows[i]) == q.rows[i] {
      forall k | k in q.rows[i] && k in IntColumns ensures q.rows[i][k].Null? || q.rows[i][k].Int? {
        assert CastOf(k, Get(df.rows[i], k)) == Ok(Get(q.rows[i], k));
      }
      FixRecordAfterCoercion(q.rows[i]);
    }
  }

  /**
   * What the record loop hands to the upserts: `fiscal_year` is a column
   * and `"2025"` in every record, and every integer column a record holds
   * is an integer or `None`.
   */
  ghost predicate RecordsReady(p: Prepared) {
    "fiscal_year" in p.columns
    && (forall i :: 0 <= i < |p.records| ==> Get(p.records[i], "fiscal_year") == Str(FiscalYear))
    && forall i, k :: 0 <= i < |p.records| && k in p.records[i] && k in IntColumns ==> p.records[i][k].Null? || p.records[i][k].Int?
  }

  /** The records are the wide frame of the two sheets, renamed, projected on the schema and cast. */
  ghost predicate PreparedFrom(hr: Frame, earnings: Frame, p: Prepared) {
    NarrowedFrom(RenamedWide(hr, earnings), Frame(p.columns, p.records))
  }

  /**
   * What `main`'s frame work yields on the two sheets: records exactly
   * when it runs without raising, and then the prepared frame's records,
   * one per HR row, ready for the upserts.
   */
  ghost predicate PreparedOutcome(hr: Frame, earnings: Frame, r: Result<Prepared, string>) {
    (r.Ok? <==> Prepares(hr, earnings))
    && (r.Ok? ==> PreparedFrom(hr, earnings, r.value) && |r.value.records| == |hr.rows| && RecordsReady(r.value))
  }

  /**
   * Lines from the rename to the record loop, on the wide frame `w`: the
   * casts and the projection, then one record per row.
   */
  method BuildRecords(w: Frame, n: nat) returns (r: Result<Prepared, string>)
    requires Stamped(w, n)
    ensures r.Ok? <==> NarrowSucceeds(w)
    ensures r.Ok? ==> NarrowedFrom(Rename(w, RenameMap(w.columns)), Frame(r.value.columns, r.value.records))
    ensures r.Ok? ==> |r.value.records| == n && RecordsReady(r.value)
  {
    var narrow := Narrow(w, n);
    if narrow.Err? {
      return Err(narrow.error);
    }
    NarrowedRowsFixed(Rename(w, RenameMap(w.columns)), narrow.value);
    var p := RecordsOf(narrow.value, n);
    return Ok(p);
  }

  /** The record loop of `main` on a narrowed frame: its rows, already in the form the loop writes. */
  method RecordsOf(df: Frame, n: nat) returns (p: Prepared)
    requires Stamped(df, n) && Rectangular(df)
    requires forall i :: 0 <= i < |df.rows| ==> FixRecord(df.rows[i]) == df.rows[i]
    ensures p == Prepared(df.columns, df.rows) && RecordsReady(p)
  {
    var records := FixRecords(df.rows, df.columns);
    assert records == df.rows;
    IntColumnsAvoidFiscalYear();
    forall i | 0 <= i < |records| ensures Get(records[i], "fiscal_year") == Str(FiscalYear) {
      assert "fiscal_year" in df.rows[i];
    }
    return Prepared(df.columns, records);
  }

  /** The frame work of `main`, from the two sheets to the records sent; an exception is an error. */
  method Prepare(hr: Frame, earnings: Frame) returns (r: Result<Prepared, string>)
    ensures PreparedOutcome(hr, earnings, r)
  {
    var wide := Widen(hr, earnings);
    if wide.Err? {
      return Err(wide.error);
    }
    ConvertColumnsStamped(MergeEarnings(hr, earnings), |hr.rows|);
    r := BuildRecords(wide.value, |hr.rows|);
  }

  /**
   * What the upsert loop does with the given answers: the batches sent are
   * the first batches of 1000 in order, all before the last succeeded,
   * `failed` tells whether the last raised, and without a failure every
   * batch is sent.
   */
  predicate UpsertRun(records: seq<map<string, Cell>>, store: seq<Store.Outcome>,
                      sent: seq<seq<map<string, Cell>>>, failed: bool)
  {
    var all := Batches(records, BatchSize);
    |sent| <= |all| && sent == all[..|sent|]
    && (failed <==> sent != [] && Store.OutcomeAt(store, |sent| - 1).Fail?)
    && (forall k :: 0 <= k < |sent| - 1 ==> Store.OutcomeAt(store, k).Ok?)
    && (!failed ==> sent == all)
  }

  /** The answers decide the run: only one list of batches sent and one failure flag fit them. */
  lemma {:induction false} UpsertRunUnique(records: seq<map<string, Cell>>, store: seq<Store.Outcome>,
                                           sent: seq<seq<map<string, Cell>>>, failed: bool,
                                           sent': seq<seq<map<string, Cell>>>, failed': bool)
    requires UpsertRun(records, store, sent, failed) && UpsertRun(records, store, sent', failed')
    ensures sent == sent' && failed == failed'
  {
    UpsertRunNoShorter(records, store, sent, failed, sent', failed');
    UpsertRunNoShorter(records, store, sent', failed', sent, failed);
  }

  /** When every batch's upsert succeeds, the run sends every batch and does not fail. */
  lemma {:induction false} UpsertRunAllSucceed(records: seq<map<string, Cell>>, store: seq<Store.Outcome>,
                                               sent: seq<seq<map<string, Cell>>>, failed: bool)
    requires UpsertRun(records, store, sent, failed)
    requires forall k :: 0 <= k < |Batches(records, BatchSize)| ==> Store.OutcomeAt(store, k).Ok?
    ensures !failed && sent == Batches(records, BatchSize)
  {
    if sent != [] {
      assert |sent| - 1 < |Batches(records, BatchSize)|;
    }
  }

  /** No run on the same answers sends more batches than another. */
  lemma {:induction false} UpsertRunNoShorter(records: seq<map<string, Cell>>, store: seq<Store.Outcome>,
                                              sent: seq<seq<map<string, Cell>>>, failed: bool,
                                              sent': seq<seq<map<string, Cell>>>, failed': bool)
    requires UpsertRun(records, store, sent, failed) && UpsertRun(records, store, sent', failed')
    ensures |sent'| <= |sent|
  {
    if failed {
      assert Store.OutcomeAt(store, |sent| - 1).Fail?;
      assert !(|sent| - 1 < |sent'| - 1);
    } else {
      assert sent == Batches(records, BatchSize);
    }
  }

  /**
   * The run from batch `k` on: each batch is sent, and the first whose
   * upsert raises is the last one sent.
   */
  function SendFrom(all: seq<seq<map<string, Cell>>>, store: seq<Store.Outcome>, k: nat): (run: (seq<seq<map<string, Cell>>>, bool))
    requires k <= |all|
    decreases |all| - k
  {
    if k == |all| then ([], false)
    else if Store.OutcomeAt(store, k).Fail? then ([all[k]], true)
    else var rest := SendFrom(all, store, k + 1); ([all[k]] + rest.0, rest.1)
  }

  /** What the upsert loop sends on the given answers, and whether it ends on a raised upsert. */
  function UpsertOutcome(records: seq<map<string, Cell>>, store: seq<Store.Outcome>): (seq<seq<map<string, Cell>>>, bool) {
    SendFrom(Batches(records, BatchSize), store, 0)
  }

  /** The run from batch `k` on is the next batches in order, stopping exactly at the first failure. */
  lemma {:induction false} SendFromRun(all: seq<seq<map<string, Cell>>>, store: seq<Store.Outcome>, k: nat)
    requires k <= |all|
    ensures var run := SendFrom(all, store, k);
      && k + |run.0| <= |all| && run.0 == all[k..k + |run.0|]
      && (run.1 <==> run.0 != [] && Store.OutcomeAt(store, k + |run.0| - 1).Fail?)
      && (forall j :: k <= j < k + |run.0| - 1 ==> Store.OutcomeAt(store, j).Ok?)
      && (!run.1 ==> run.0 == all[k..])
    decreases |all| - k
  {
    if k < |all| && Store.OutcomeAt(store, k).Ok? {
      SendFromRun(all, store, k + 1);
      var rest := SendFrom(all, store, k + 1);
      assert [all[k]] + all[k + 1..k + 1 + |rest.0|] == all[k..k + 1 + |rest.0|];
      if !rest.1 {
        assert [all[k]] + all[k + 1..] == all[k..];
      }
    }
  }

  /** The reference run is an upsert run: the first batches in order, up to the first raised upsert, or all. */
  lemma UpsertOutcomeRun(records: seq<map<string, Cell>>, store: seq<Store.Outcome>)
    ensures UpsertRun(records, store, UpsertOutcome(records, store).0, UpsertOutcome(records, store).1)
  {
    var all := Batches(records, BatchSize);
    SendFromRun(all, store, 0);
    assert all[0..] == all;
  }

  /** The batch loop: upserts in order until one raises, which ends the run. */
  method UpsertAll(records: seq<map<string, Cell>>, store: seq<Store.Outcome>)
    returns (sent: seq<seq<map<string, Cell>>>, failed: bool)
    ensures (sent, failed) == UpsertOutcome(records, store)
  {
    sent, failed := [], false;
    var i := 0;
    while i < |records| && !failed
      invariant i <= |records| && Sending(records, store, i, sent, failed)
      decreases |records| - i, !failed
    {
      var j := if i + BatchSize < |records| then i + BatchSize else |records|;
      SendingStep(records, store, i, sent);
      failed := Store.OutcomeAt(store, |sent|).Fail?;
      sent := sent + [records[i..j]];
      i := j;
    }
    SendingDone(records, store, i, sent, failed);
  }

  /** What the loop of `main` knows once `i` records are consumed and `sent` is the list of batches sent. */
  ghost predicate Sending(records: seq<map<string, Cell>>, store: seq<Store.Outcome>, i: nat,
                          sent: seq<seq<map<string, Cell>>>, failed: bool)
  {
    var all := Batches(records, BatchSize);
    i <= |records|
    && (!failed ==> all == sent + Batches(records[i..], BatchSize))
    && (failed ==> sent != [] && |sent| <= |all| && sent == all[..|sent|] && Store.OutcomeAt(store, |sent| - 1).Fail?)
    && (forall k :: 0 <= k < |sent| - (if failed then 1 else 0) ==> Store.OutcomeAt(store, k).Ok?)
  }

  /** One batch sent: the next slice of at most `BatchSize` records, and its answer sets the flag. */
  lemma SendingStep(records: seq<map<string, Cell>>, store: seq<Store.Outcome>, i: nat,
                    sent: seq<seq<map<string, Cell>>>)
    requires i < |records| && Sending(records, store, i, sent, false)
    ensures var j := if i + BatchSize < |records| then i + BatchSize else |records|;
      Sending(records, store, j, sent + [records[i..j]], Store.OutcomeAt(store, |sent|).Fail?)
  {
    SendNext(records, i, BatchSize, sent);
  }

  /** When the loop stops, the batches sent and the flag are the reference run. */
  lemma SendingDone(records: seq<map<string, Cell>>, store: seq<Store.Outcome>, i: nat,
                    sent: seq<seq<map<string, Cell>>>, failed: bool)
    requires Sending(records, store, i, sent, failed) && (i == |records| || failed)
    ensures (sent, failed) == UpsertOutcome(records, store)
  {
    if !failed {
      SentAll(records, BatchSize, sent);
    }
    UpsertRunIsOutcome(records, store, sent, failed);
  }

  /** A run the answers allow is the reference run. */
  lemma UpsertRunIsOutcome(records: seq<map<string, Cell>>, store: seq<Store.Outcome>,
                           sent: seq<seq<map<string, Cell>>>, failed: bool)
    requires UpsertRun(records, store, sent, failed)
    ensures (sent, failed) == UpsertOutcome(records, store)
  {
    UpsertOutcomeRun(records, store);
    UpsertRunUnique(records, store, sent, failed, UpsertOutcome(records, store).0, UpsertOutcome(records, store).1);
  }

  /** `hr` and `earnings` are the frames of the sheets that `main` finds by case-sensitive name search. */
  ghost predicate SheetsFound(sheets: seq<(string, Frame)>, hr: Frame, earnings: Frame) {
    var hrName := FindSheetContaining(Names(sheets), "HR INFO");
    var earnName := FindSheetContaining(Names(sheets), "EARNINGS");
    hrName.Some? && earnName.Some?
    && hr == SheetFrame(sheets, hrName.value) && earnings == SheetFrame(sheets, earnName.value)
  }

  /** The sheets looked up, then the frame work; a missing sheet stops `main` with its message. */
  method PrepareSheets(sheets: seq<(string, Frame)>) returns (r: Result<Prepared, string>)
    ensures FindSheetContaining(Names(sheets), "HR INFO").None? || FindSheetContaining(Names(sheets), "EARNINGS").None?
      ==> r == Err("Sheets 'HR INFO' and 'EARNINGS' not found in workbook.")
    ensures forall hr, earnings :: SheetsFound(sheets, hr, earnings) ==> PreparedOutcome(hr, earnings, r)
  {
    var hrName := FindSheetContaining(Names(sheets), "HR INFO");
    var earnName := FindSheetContaining(Names(sheets), "EARNINGS");
    if hrName.None? || earnName.None? {
      return Err("Sheets 'HR INFO' and 'EARNINGS' not found in workbook.");
    }
    r := Prepare(SheetFrame(sheets, hrName.value), SheetFrame(sheets, earnName.value));
  }

  /**
   * `main`: the records prepared from the sheets, then the upserts; a
   * missing sheet or an exception in the frame work stops the run before
   * anything is sent, and `failed` reports the upsert that raised and
   * ended the run.
   */
  method ImportFy2025(sheets: seq<(string, Frame)>, store: seq<Store.Outcome>)
    returns (r: Result<Prepared, string>, sent: seq<seq<map<string, Cell>>>, failed: bool)
    ensures FindSheetContaining(Names(sheets), "HR INFO").None? || FindSheetContaining(Names(sheets), "EARNINGS").None?
      ==> r == Err("Sheets 'HR INFO' and 'EARNINGS' not found in workbook.")
    ensures forall hr, earnings :: SheetsFound(sheets, hr, earnings) ==> PreparedOutcome(hr, earnings, r)
    ensures r.Err? ==> sent == [] && !failed
    ensures r.Ok? ==> (sent, failed) == UpsertOutcome(r.value.records, store)
  {
    r := PrepareSheets(sheets);
    sent, failed := [], false;
    if r.Ok? {
      sent, failed := UpsertAll(r.value.records, store);
    }
  }
}
