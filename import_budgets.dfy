/**
 * The budgets CSV import: each row of a year's budgets file becomes a
 * budget record or is skipped, and the records are upserted in batches
 * of 1000, falling back to a plain insert when an upsert fails.
 */
module ImportBudgets {
  import opened Wrappers
  import opened Text
  import opened Numbers
  import opened Cells
  import opened Collections
  import opened Store

  const BatchSize: nat := 1000

  /**
   * One CSV row as `csv.DictReader` gives it: the header's names mapped to
   * the row's fields, `None` for the fields a short row lacks.
   */
  type CsvRow = map<string, Option<string>>

  /** `row.get(key, default)`. */
  function Lookup(row: CsvRow, key: string, default: string): (v: Option<string>)
    ensures key !in row ==> v == Some(default)
    ensures key in row ==> v == row[key]
  {
    if key in row then row[key] else Some(default)
  }

  /** `not value or not value.strip()`: no value, or only whitespace. */
  predicate Blank(v: Option<string>) {
    v.None? || IsBlank(v.value)
  }

  /** `parse_decimal`: commas are dropped before `float()`; blank or unreadable text is 0.0. */
  function ParseDecimal(v: Option<string>): (r: real)
    ensures Blank(v) ==> r == 0.0
    ensures !Blank(v) && FloatOfText(RemoveAll(Trim(v.value), ",")).None? ==> r == 0.0
    ensures !Blank(v) && FloatOfText(RemoveAll(Trim(v.value), ",")).Some?
      ==> r == Value(FloatOfText(RemoveAll(Trim(v.value), ",")).value)
  {
    if Blank(v) then 0.0
    else
      match FloatOfText(RemoveAll(Trim(v.value), ","))
      case Some(d) => Value(d)
      case None => 0.0
  }

  /** Text that `float()` reads and that has no comma and no whitespace is read unchanged. */
  lemma {:induction false} ParseDecimalPlain(s: string, d: Decimal)
    requires s != [] && forall i :: 0 <= i < |s| ==> s[i] != ',' && !IsSpace(s[i])
    requires FloatOfText(s) == Some(d)
    ensures ParseDecimal(Some(s)) == Value(d)
  {
    TrimNoSpace(s);
    RemoveAllAbsent(s, ',');
  }

  /** A number written out by `str()` reads back as the same value. */
  lemma {:induction false} ParseDecimalFloatText(d: Decimal)
    ensures ParseDecimal(Some(FloatText(d))) == Value(d)
  {
    FloatTextChars(d);
    FloatTextReadsBack(d);
    ParseDecimalPlain(FloatText(d), FloatOfText(FloatText(d)).value);
  }

  lemma {:induction false} ThousandsWithoutCommas()
    ensures RemoveAll("1,234.50", ",") == "1234.50"
  {
    assert "1,234.50"[..1] != "," && "1,234.50"[1..][..1] == ",";
    assert "1,234.50"[1..][1..] == "234.50";
    RemoveAllAbsent("234.50", ',');
    assert RemoveAll("1,234.50"[1..], ",") == "234.50";
  }

  lemma {:induction false} ThousandsLiteral()
    ensures ParseDecimalLiteral("1234.50") == Some(Decimal(123450, 2))
  {
    PointLiteral("1234", "50");
    assert "1234" + "." + "50" == "1234.50" && "1234" + "50" == "123450";
    DigitsOfThousands();
  }

  lemma {:induction false} DigitsOfThousands()
    ensures DigitsValue("123450") == 123450
  {
    assert "123450"[..5] == "12345" && "12345"[..4] == "1234";
    assert "1234"[..3] == "123" && "123"[..2] == "12" && "12"[..1] == "1" && "1"[..0] == "";
  }

  /** `"1,234.50"` is read as 1234.5: the thousands separator is dropped. */
  lemma {:induction false} ParseDecimalThousands()
    ensures ParseDecimal(Some("1,234.50")) == 1234.5
  {
    TrimNoSpace("1,234.50");
    ThousandsWithoutCommas();
    ThousandsFloat();
  }

  lemma {:induction false} ThousandsFloat()
    ensures FloatOfText("1234.50") == Some(Decimal(123450, 2)) && Value(Decimal(123450, 2)) == 1234.5
  {
    TrimNoSpace("1234.50");
    ThousandsLiteral();
    assert Pow10(2) == 100;
  }

  /** `parse_integer`: `int()` of the stripped text; blank or non-integer text gives `None`. */
  function ParseInteger(v: Option<string>): (r: Option<int>)
    ensures Blank(v) ==> r.None?
    ensures !Blank(v) ==> r == IntOfText(v.value)
  {
    if Blank(v) then None else IntOfText(v.value)
  }

  /** `str(i)` reads back as `i`. */
  lemma {:induction false} ParseIntegerIntText(i: int)
    ensures ParseInteger(Some(IntText(i))) == Some(i)
  {
    IntTextReadsBack(i);
  }

  /** Only whole-number literals parse: `"5.0"` is not an integer. */
  lemma {:induction false} ParseIntegerRejectsPoint()
    ensures ParseInteger(Some("5.0")) == None
  {
    TrimNoSpace("5.0");
    assert SplitSign("5.0") == (false, "5.0");
    assert LeadingDigits("5.0") == 1 by {
      assert "5.0"[1..] == ".0";
    }
  }

  /** `normalize_text`: blank becomes `None`, anything else is stripped. */
  function NormalizeText(v: Option<string>): (r: Option<string>)
    ensures r.None? <==> Blank(v)
    ensures r.Some? ==> r.value == Trim(v.value) && r.value != []
  {
    if Blank(v) then None else Some(Trim(v.value))
  }

  /** Normalising twice changes nothing, and a lone dash stays text. */
  lemma {:induction false} NormalizeTextIdempotent(v: Option<string>)
    ensures NormalizeText(NormalizeText(v)) == NormalizeText(v)
    ensures NormalizeText(Some(" - ")) == Some("-")
  {
    if !Blank(v) {
      TrimIdempotent(v.value);
    }
    NormalizeDash();
  }

  lemma {:induction false} NormalizeDash()
    ensures NormalizeText(Some(" - ")) == Some("-")
  {
    TrimPad("-");
    assert " - " == " " + "-" + " ";
  }

  /** One row of `budgets`. */
  datatype BudgetRecord = BudgetRecord(
    budgetPeriod: int,
    agency: Option<string>,
    fund: Option<string>,
    program: Option<string>,
    activity: Option<string>,
    availableAmount: real,
    obligatedAmount: real,
    spendAmount: real,
    remainingAmount: real,
    budgetAmount: real,
    budgetRemainingAmount: real)

  /** `parse_budget_row`: `None` exactly when the budget period is not an integer. */
  function ParseBudgetRow(row: CsvRow): (r: Option<BudgetRecord>)
    ensures r.None? <==> ParseInteger(Lookup(row, "Budget Period", "")).None?
    ensures r.Some? ==> r.value.budgetPeriod == ParseInteger(Lookup(row, "Budget Period", "")).value
    ensures r.Some? ==> r.value.agency == NormalizeText(Lookup(row, "Agency", ""))
    ensures r.Some? ==> r.value.fund == NormalizeText(Lookup(row, "Fund", ""))
    ensures r.Some? ==> r.value.program == NormalizeText(Lookup(row, "Program", ""))
    ensures r.Some? ==> r.value.activity == NormalizeText(Lookup(row, "Activity", ""))
    ensures r.Some? ==> r.value.availableAmount == ParseDecimal(Lookup(row, "Available Amount", "0"))
    ensures r.Some? ==> r.value.obligatedAmount == ParseDecimal(Lookup(row, "Obligated Amount", "0"))
    ensures r.Some? ==> r.value.spendAmount == ParseDecimal(Lookup(row, "Spend Amount", "0"))
    ensures r.Some? ==> r.value.remainingAmount == ParseDecimal(Lookup(row, "Remaining Amount", "0"))
    ensures r.Some? ==> r.value.budgetAmount == ParseDecimal(Lookup(row, "Budget Amount", "0"))
    ensures r.Some? ==> r.value.budgetRemainingAmount == ParseDecimal(Lookup(row, "Budget Remaining Amount", "0"))
  {
    match ParseInteger(Lookup(row, "Budget Period", ""))
    case None => None
    case Some(period) =>
      Some(BudgetRecord(
        period,
        NormalizeText(Lookup(row, "Agency", "")),
        NormalizeText(Lookup(row, "Fund", "")),
        NormalizeText(Lookup(row, "Program", "")),
        NormalizeText(Lookup(row, "Activity", "")),
        ParseDecimal(Lookup(row, "Available Amount", "0")),
        ParseDecimal(Lookup(row, "Obligated Amount", "0")),
        ParseDecimal(Lookup(row, "Spend Amount", "0")),
        ParseDecimal(Lookup(row, "Remaining Amount", "0")),
        ParseDecimal(Lookup(row, "Budget Amount", "0")),
        ParseDecimal(Lookup(row, "Budget Remaining Amount", "0"))))
  }

  /** An amount column missing from the file, or empty in the row, is 0.0. */
  lemma {:induction false} MissingAmountIsZero(row: CsvRow, key: string)
    requires key !in row || Blank(row[key])
    ensures ParseDecimal(Lookup(row, key, "0")) == 0.0
  {
    if key !in row {
      ZeroDefault();
    }
  }

  lemma {:induction false} ZeroLiteral()
    ensures FloatOfText("0") == Some(Decimal(0, 0))
  {
    TrimNoSpace("0");
    assert SplitSign("0") == (false, "0");
    assert LeadingDigits("0") == 1 by { assert "0"[1..] == []; }
    assert "0"[..0] == [];
  }

  lemma {:induction false} ZeroText(s: string)
    requires s == "0" && FloatOfText(s) == Some(Decimal(0, 0))
    ensures ParseDecimal(Some(s)) == 0.0
  {
    ParseDecimalPlain(s, Decimal(0, 0));
    WholeValue(0);
  }

  /** The default `"0"` reads as 0.0. */
  lemma {:induction false} ZeroDefault()
    ensures ParseDecimal(Some("0")) == 0.0
  {
    ZeroLiteral();
    ZeroText("0");
  }

  /** Whether a row is skipped. */
  predicate Invalid(row: CsvRow) {
    ParseBudgetRow(row).None?
  }

  /** The records of the valid rows, in input order. */
  function BudgetRecords(rows: seq<CsvRow>): (r: seq<BudgetRecord>)
    ensures |r| <= |rows|
  {
    if rows == [] then []
    else
      var init := BudgetRecords(rows[..|rows| - 1]);
      match ParseBudgetRow(rows[|rows| - 1])
      case Some(rec) => init + [rec]
      case None => init
  }

  /** Every row is either a record or skipped. */
  lemma {:induction false} BudgetRecordsAccount(rows: seq<CsvRow>)
    ensures |BudgetRecords(rows)| + CountIf(rows, Invalid) == |rows|
  {
    if rows != [] {
      BudgetRecordsAccount(rows[..|rows| - 1]);
    }
  }

  /** The row loop of `import_budget_file`: valid rows appended in order, the others counted. */
  method CollectBudgetRows(rows: seq<CsvRow>) returns (records: seq<BudgetRecord>, skipped: nat)
    ensures records == BudgetRecords(rows)
    ensures skipped == CountIf(rows, Invalid)
    ensures |records| + skipped == |rows|
  {
    records, skipped := [], 0;
    var i := 0;
    while i < |rows|
      invariant i <= |rows|
      invariant records == BudgetRecords(rows[..i])
      invariant skipped == CountIf(rows[..i], Invalid)
    {
      assert rows[..i + 1][..i] == rows[..i];
      var parsed := ParseBudgetRow(rows[i]);
      if parsed.Some? {
        records := records + [parsed.value];
      } else {
        skipped := skipped + 1;
      }
      i := i + 1;
    }
    assert rows[..i] == rows;
    BudgetRecordsAccount(rows);
  }

  /**
   * What one batch adds to the total: the upsert's row count (0 without
   * data); after a failed upsert, the insert's row count (the batch size
   * without data); `None` when the insert fails too.
   */
  function BatchGain<T>(batch: seq<T>, upsert: Outcome, insert: Outcome): (g: Option<nat>)
    ensures g.None? <==> upsert.Fail? && insert.Fail?
    ensures upsert.Ok? ==> g == Some(upsert.rows)
  {
    match upsert
    case Ok(n) => Some(n)
    case Fail =>
      match insert
      case Ok(n) => Some(if n > 0 then n else |batch|)
      case Fail => None
  }

  /** Whether batch `k` is one whose upsert and insert both fail. */
  predicate Aborts<T>(batches: seq<seq<T>>, upserts: seq<Outcome>, inserts: seq<Outcome>, k: nat)
    requires k < |batches|
  {
    BatchGain(batches[k], OutcomeAt(upserts, k), OutcomeAt(inserts, k)).None?
  }

  /** The total of the gains of batches that do not abort. */
  function UpsertTotal<T>(batches: seq<seq<T>>, upserts: seq<Outcome>, inserts: seq<Outcome>): nat {
    if batches == [] then 0
    else
      var k := |batches| - 1;
      UpsertTotal(batches[..k], upserts, inserts)
      + BatchGain(batches[k], OutcomeAt(upserts, k), OutcomeAt(inserts, k)).GetOr(0)
  }

  /** The first batch that aborts the file, if any. */
  function FirstAbort<T>(batches: seq<seq<T>>, upserts: seq<Outcome>, inserts: seq<Outcome>, from: nat): Option<nat>
    requires from <= |batches|
    decreases |batches| - from
  {
    if from == |batches| then None
    else if Aborts(batches, upserts, inserts, from) then Some(from)
    else FirstAbort(batches, upserts, inserts, from + 1)
  }

  /** The batch found is the first from `from` on that aborts; none is found when no batch aborts. */
  lemma {:induction false} FirstAbortFirst<T>(batches: seq<seq<T>>, upserts: seq<Outcome>, inserts: seq<Outcome>, from: nat)
    requires from <= |batches|
    ensures var r := FirstAbort(batches, upserts, inserts, from);
      && (r.Some? ==> from <= r.value < |batches| && Aborts(batches, upserts, inserts, r.value))
      && (r.Some? ==> forall j :: from <= j < r.value ==> !Aborts(batches, upserts, inserts, j))
      && (r.None? ==> forall j :: from <= j < |batches| ==> !Aborts(batches, upserts, inserts, j))
    decreases |batches| - from
  {
    if from < |batches| && !Aborts(batches, upserts, inserts, from) {
      FirstAbortFirst(batches, upserts, inserts, from + 1);
    }
  }

  /**
   * When every upsert and insert reports at most its batch, the total
   * counts no more rows than were sent.
   */
  lemma {:induction false} UpsertTotalBound<T>(batches: seq<seq<T>>, upserts: seq<Outcome>, inserts: seq<Outcome>)
    requires forall k :: 0 <= k < |batches| ==> OutcomeAt(upserts, k).Ok? ==> OutcomeAt(upserts, k).rows <= |batches[k]|
    requires forall k :: 0 <= k < |batches| ==> OutcomeAt(inserts, k).Ok? ==> OutcomeAt(inserts, k).rows <= |batches[k]|
    ensures UpsertTotal(batches, upserts, inserts) <= |Flatten(batches)|
  {
    if batches != [] {
      var init := batches[..|batches| - 1];
      var last := batches[|batches| - 1];
      UpsertTotalBound(init, upserts, inserts);
      assert batches == init + [last];
      FlattenAppend(init, [last]);
      assert Flatten([last]) == last + Flatten([last][1..]);
      assert Flatten([last][1..]) == [];
    }
  }

  /** Sending one more batch adds its gain. */
  lemma {:induction false} UpsertTotalStep<T>(sent: seq<seq<T>>, batch: seq<T>, upserts: seq<Outcome>, inserts: seq<Outcome>)
    ensures UpsertTotal(sent + [batch], upserts, inserts)
      == UpsertTotal(sent, upserts, inserts) + BatchGain(batch, OutcomeAt(upserts, |sent|), OutcomeAt(inserts, |sent|)).GetOr(0)
  {
    assert (sent + [batch])[..|sent|] == sent;
  }

  /** Where the search for an aborting batch goes from batch `k`. */
  lemma {:induction false} FirstAbortAt<T>(batches: seq<seq<T>>, upserts: seq<Outcome>, inserts: seq<Outcome>, k: nat)
    requires k < |batches|
    ensures Aborts(batches, upserts, inserts, k) ==> FirstAbort(batches, upserts, inserts, k) == Some(k)
    ensures !Aborts(batches, upserts, inserts, k) ==>
      FirstAbort(batches, upserts, inserts, k) == FirstAbort(batches, upserts, inserts, k + 1)
  {
  }

  /**
   * One turn of the batch loop: the next batch is the one after those sent;
   * it aborts the file when both calls fail, and otherwise adds its gain.
   */
  lemma {:induction false} UpsertStep<T>(records: seq<T>, i: nat, sent: seq<seq<T>>, upserts: seq<Outcome>, inserts: seq<Outcome>)
    requires i < |records|
    requires Batches(records, BatchSize) == sent + Batches(records[i..], BatchSize)
    ensures var all := Batches(records, BatchSize);
      var j := if i + BatchSize < |records| then i + BatchSize else |records|;
      var gain := BatchGain(records[i..j], OutcomeAt(upserts, |sent|), OutcomeAt(inserts, |sent|));
      && all == (sent + [records[i..j]]) + Batches(records[j..], BatchSize)
      && (gain.None? ==> FirstAbort(all, upserts, inserts, |sent|) == Some(|sent|) && sent + [records[i..j]] == all[..|sent| + 1])
      && (gain.Some? ==> FirstAbort(all, upserts, inserts, |sent|) == FirstAbort(all, upserts, inserts, |sent| + 1))
      && (gain.Some? ==> UpsertTotal(sent + [records[i..j]], upserts, inserts) == UpsertTotal(sent, upserts, inserts) + gain.value)
  {
    var all := Batches(records, BatchSize);
    var j := if i + BatchSize < |records| then i + BatchSize else |records|;
    BatchesStep(records, i, BatchSize);
    NextBatch(all, sent, records[i..j], Batches(records[j..], BatchSize));
    FirstAbortAt(all, upserts, inserts, |sent|);
    UpsertTotalStep(sent, records[i..j], upserts, inserts);
  }

  /** The batch after those already sent. */
  lemma {:induction false} NextBatch<T>(all: seq<seq<T>>, sent: seq<seq<T>>, batch: seq<T>, rest: seq<seq<T>>)
    requires all == sent + ([batch] + rest)
    ensures |sent| < |all| && all[|sent|] == batch && all[..|sent| + 1] == sent + [batch]
    ensures all == (sent + [batch]) + rest
  {
  }

  /**
   * The batch loop of `import_budget_file`: batches are sent in order;
   * when one fails both ways the loop stops and the count is 0.
   */
  method UpsertBatches<T>(records: seq<T>, upserts: seq<Outcome>, inserts: seq<Outcome>)
    returns (inserted: nat, sent: seq<seq<T>>)
    ensures var all := Batches(records, BatchSize);
      match FirstAbort(all, upserts, inserts, 0)
      case None => sent == all && inserted == UpsertTotal(all, upserts, inserts)
      case Some(k) => k < |all| && sent == all[..k + 1] && inserted == 0
  {
    ghost var all := Batches(records, BatchSize);
    inserted, sent := 0, [];
    var i := 0;
    while i < |records|
      invariant i <= |records|
      invariant all == sent + Batches(records[i..], BatchSize)
      invariant inserted == UpsertTotal(sent, upserts, inserts)
      invariant FirstAbort(all, upserts, inserts, 0) == FirstAbort(all, upserts, inserts, |sent|)
      decreases |records| - i
    {
      var j := if i + BatchSize < |records| then i + BatchSize else |records|;
      var batch := records[i..j];
      var gain := BatchGain(batch, OutcomeAt(upserts, |sent|), OutcomeAt(inserts, |sent|));
      UpsertStep(records, i, sent, upserts, inserts);
      if gain.None? {
        return 0, sent + [batch];
      }
      inserted := inserted + gain.value;
      sent := sent + [batch];
      i := j;
    }
    assert records[i..] == [];
  }

  /**
   * `import_budget_file` on the rows of one file: the count inserted, the
   * rows skipped and the batches sent; no store call without records.
   */
  method ImportBudgetFile(rows: seq<CsvRow>, upserts: seq<Outcome>, inserts: seq<Outcome>)
    returns (inserted: nat, skipped: nat, sent: seq<seq<BudgetRecord>>)
    ensures skipped == CountIf(rows, Invalid) && |BudgetRecords(rows)| + skipped == |rows|
    ensures BudgetRecords(rows) == [] ==> inserted == 0 && sent == []
    ensures BudgetRecords(rows) != [] ==>
      var all := Batches(BudgetRecords(rows), BatchSize);
      match FirstAbort(all, upserts, inserts, 0)
      case None => sent == all && inserted == UpsertTotal(all, upserts, inserts)
      case Some(k) => k < |all| && sent == all[..k + 1] && inserted == 0
  {
    var records;
    records, skipped := CollectBudgetRows(rows);
    if records == [] {
      return 0, skipped, [];
    }
    inserted, sent := UpsertBatches(records, upserts, inserts);
  }
}
