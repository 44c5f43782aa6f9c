/**
 * The Minnesota Senate seed generator: a line-by-line reader of the
 * senate markdown that keeps the senator being read and the address
 * lines seen so far, and the SQL it writes for the senators found.
 */
module SenateSeed {
  import opened Wrappers
  import opened Text
  import opened Collections
  import opened SenateLines

  /** A senator as read from the markdown; every field but the number and the name may be missing. */
  datatype Senator = Senator(
    number: string, name: string, district: Option<string>, party: Option<string>,
    title: Option<string>, phone: Option<string>, email: Option<string>, address: Option<string>)

  /** The senator a header line starts. */
  function NewSenator(number: string, name: string): Senator {
    Senator(number, name, None, None, None, None, None, None)
  }

  /** The reader's state: the senator being read, the address lines collected for it, and the senators done. */
  datatype Reader = Reader(current: Option<Senator>, officeLines: seq<string>, senators: seq<Senator>)

  const Start := Reader(None, [], [])

  /** The address made of collected office lines: joined by line breaks and stripped. */
  function Address(officeLines: seq<string>): string {
    Trim(Join(officeLines, "\n"))
  }

  /** A senator as saved: with the collected office lines as its address, when there are any. */
  function Flush(s: Senator, officeLines: seq<string>): Senator {
    if officeLines != [] then s.(address := Some(Address(officeLines))) else s
  }

  /** The senators done, followed by the one being read (saved with its address lines), if any. */
  function Finish(r: Reader): seq<Senator> {
    if r.current.Some? then r.senators + [Flush(r.current.value, r.officeLines)] else r.senators
  }

  /** `line.replace(tag, '').strip()`. */
  function FieldValue(line: string, tag: string): string
    requires tag != []
  {
    Trim(RemoveAll(line, tag))
  }

  /** A stripped line the reader may take for an address line: not empty, and not a rule, bold label or heading. */
  predicate IsPlainLine(line: string) {
    line != [] && !StartsWith(line, "---") && !StartsWith(line, "**") && !StartsWith(line, "#")
  }

  /** A line kept as an address line: stripped, and plain. */
  predicate IsOfficeLine(line: string) {
    IsPlainLine(line) && Trim(line) == line
  }

  /** What a markdown line is to the reader, tested in the reader's order. */
  datatype LineKind =
    | Header(number: string, name: string)
    | District(district: string)
    | Party(party: string)
    | Title(title: string)
    | Phone(phone: string)
    | Email(found: Option<string>, usesForm: bool)
    | Office
    | Plain(text: string)
    | Other

  /** The number and name of a header line, read after stripping it. */
  function LineHeader(raw: string): Option<(string, string)> {
    HeaderOf(Trim(raw))
  }

  /**
   * A line, stripped, taken for what it is: a header, one of the bold
   * labels, a plain line, or nothing the reader uses. An Email line
   * carries the address found in it and whether it names the e-mail form.
   */
  function Classify(raw: string): (k: LineKind)
    ensures k.Header? <==> LineHeader(raw).Some?
    ensures k.Header? ==> (k.number, k.name) == LineHeader(raw).value
    ensures k.Header? ==> IsNumber(k.number) && Trim(k.name) == k.name
    ensures k.Plain? ==> IsOfficeLine(k.text)
    ensures k.Email? && k.found.Some? ==> IsEmailAddress(k.found.value)
  {
    var line := Trim(raw);
    TrimIdempotent(raw);
    match HeaderOf(line)
    case Some((number, name)) => Header(number, name)
    case None =>
      if StartsWith(line, "**District:**") then District(FieldValue(line, "**District:**"))
      else if StartsWith(line, "**Party:**") then Party(FieldValue(line, "**Party:**"))
      else if StartsWith(line, "**Title:**") then Title(FieldValue(line, "**Title:**"))
      else if StartsWith(line, "**Phone:**") then Phone(FieldValue(line, "**Phone:**"))
      else if StartsWith(line, "**Email:**") then
        var text := FieldValue(line, "**Email:**");
        Email(FindEmail(text), Contains(text, "Use Email Form"))
      else if StartsWith(line, "**Office:**") then Office
      else if IsPlainLine(line) then Plain(line)
      else Other
  }

  /**
   * One line read. A header saves the senator being read and starts the
   * next; before the first header nothing else counts; a Phone line
   * turns the pending address lines into the address; an Office line
   * drops them; a plain line is collected only while no phone is known.
   */
  function Step(r: Reader, kind: LineKind): Reader {
    if kind.Header? then Reader(Some(NewSenator(kind.number, kind.name)), [], Finish(r))
    else if r.current.None? then r
    else
      var s := r.current.value;
      match kind
      case District(v) => r.(current := Some(s.(district := Some(v))))
      case Party(v) => r.(current := Some(s.(party := Some(v))))
      case Title(v) => r.(current := Some(s.(title := Some(v))))
      case Phone(v) => Reader(Some(Flush(s.(phone := Some(v)), r.officeLines)), [], r.senators)
      case Email(found, usesForm) =>
        if found.Some? then r.(current := Some(s.(email := found)))
        else if usesForm then r.(current := Some(s.(email := None)))
        else r
      case Office => r.(officeLines := [])
      case Plain(text) => if s.phone.None? then r.(officeLines := r.officeLines + [text]) else r
      case Other => r
  }

  /** The reader after the lines, in order, starting from `r`. */
  function Run(r: Reader, kinds: seq<LineKind>): Reader {
    if kinds == [] then r else Step(Run(r, kinds[..|kinds| - 1]), kinds[|kinds| - 1])
  }

  /** The lines of the markdown, each taken for what it is. */
  function Kinds(content: string): seq<LineKind> {
    Map(Split(content, '\n'), Classify)
  }

  /** The senators the markdown holds, in the order of their headers. */
  function Senators(content: string): seq<Senator> {
    Finish(Run(Start, Kinds(content)))
  }

  /** The reading loop's body: one line, taken for what it is, read into the reader's variables. */
  method ReadLine(current: Option<Senator>, officeLines: seq<string>, senators: seq<Senator>, kind: LineKind)
    returns (current': Option<Senator>, officeLines': seq<string>, senators': seq<Senator>)
    ensures Reader(current', officeLines', senators') == Step(Reader(current, officeLines, senators), kind)
  {
    current', officeLines', senators' := current, officeLines, senators;
    if kind.Header? {
      if current.Some? {
        var s := current.value;
        if officeLines != [] {
          s := s.(address := Some(Address(officeLines)));
        }
        senators' := senators + [s];
      }
      current' := Some(NewSenator(kind.number, kind.name));
      officeLines' := [];
    } else if current.Some? {
      var s := current.value;
      match kind {
        case District(v) => s := s.(district := Some(v));
        case Party(v) => s := s.(party := Some(v));
        case Title(v) => s := s.(title := Some(v));
        case Phone(v) =>
          s := s.(phone := Some(v));
          if officeLines != [] {
            s := s.(address := Some(Address(officeLines)));
            officeLines' := [];
          }
        case Email(found, usesForm) =>
          if found.Some? {
            s := s.(email := found);
          } else if usesForm {
            s := s.(email := None);
          }
        case Office => officeLines' := [];
        case Plain(text) =>
          if s.phone.None? {
            officeLines' := officeLines + [text];
          }
        case Other =>
      }
      current' := Some(s);
    }
  }

  /** The reading loop over the lines of the markdown, and the senator still open at the end. */
  method ParseSenators(content: string) returns (senators: seq<Senator>)
    ensures senators == Senators(content)
  {
    var lines := Split(content, '\n');
    ghost var kinds := Kinds(content);
    var current: Option<Senator> := None;
    var officeLines: seq<string> := [];
    senators := [];
    var i := 0;
    while i < |lines|
      invariant i <= |lines| && |kinds| == |lines|
      invariant Reader(current, officeLines, senators) == Run(Start, kinds[..i])
    {
      RunSnoc(Start, kinds, i);
      var kind := Classify(lines[i]);
      assert kind == kinds[i];
      current, officeLines, senators := ReadLine(current, officeLines, senators, kind);
      i := i + 1;
    }
    assert kinds[..i] == kinds;
    senators := FinishReading(current, officeLines, senators);
  }

  /** One more line kind is one more step. */
  lemma {:induction false} RunSnoc(r: Reader, kinds: seq<LineKind>, i: nat)
    requires i < |kinds|
    ensures Run(r, kinds[..i + 1]) == Step(Run(r, kinds[..i]), kinds[i])
  {
    assert kinds[..i + 1][..i] == kinds[..i];
  }

  /** After the last line: the senator still open is saved with its address lines. */
  method FinishReading(current: Option<Senator>, officeLines: seq<string>, senators: seq<Senator>) returns (all: seq<Senator>)
    ensures all == Finish(Reader(current, officeLines, senators))
  {
    all := senators;
    if current.Some? {
      var s := current.value;
      if officeLines != [] {
        s := s.(address := Some(Address(officeLines)));
      }
      all := all + [s];
    }
  }

  /** The numbers and names of the header lines, in order. */
  function Headers(lines: seq<string>): seq<(string, string)> {
    Collected(lines, LineHeader)
  }

  /** The number and name a line kind starts a senator with. */
  function HeaderKey(k: LineKind): Option<(string, string)> {
    if k.Header? then Some((k.number, k.name)) else None
  }

  /** The numbers and names of a list of senators. */
  function SenatorKeys(ss: seq<Senator>): (k: seq<(string, string)>)
    ensures |k| == |ss| && forall i :: 0 <= i < |ss| ==> k[i] == (ss[i].number, ss[i].name)
  {
    seq(|ss|, i requires 0 <= i < |ss| => (ss[i].number, ss[i].name))
  }

  lemma {:induction false} SenatorKeysSnoc(ss: seq<Senator>, s: Senator)
    ensures SenatorKeys(ss + [s]) == SenatorKeys(ss) + [(s.number, s.name)]
  {
  }

  /** The numbers and names of the senators a reader has started: those done, then the current one. */
  function ReaderKeys(r: Reader): seq<(string, string)> {
    SenatorKeys(Finish(r))
  }

  /** A header adds its number and name; every other line leaves the senators started as they are. */
  lemma {:induction false} KeysStep(r: Reader, k: LineKind)
    ensures ReaderKeys(Step(r, k)) == if HeaderKey(k).Some? then ReaderKeys(r) + [HeaderKey(k).value] else ReaderKeys(r)
  {
    if r.current.Some? {
      SenatorKeysSnoc(r.senators, Flush(r.current.value, r.officeLines));
    }
    if k.Header? {
      SenatorKeysSnoc(Finish(r), NewSenator(k.number, k.name));
    } else if r.current.Some? {
      SenatorKeysSnoc(r.senators, Flush(Step(r, k).current.value, Step(r, k).officeLines));
    }
  }

  lemma {:induction false} RunKeys(kinds: seq<LineKind>)
    ensures ReaderKeys(Run(Start, kinds)) == Collected(kinds, HeaderKey)
  {
    if kinds != [] {
      var init := kinds[..|kinds| - 1];
      var k := kinds[|kinds| - 1];
      RunKeys(init);
      KeysStep(Run(Start, init), k);
      CollectedSnoc(init, k, HeaderKey);
      assert init + [k] == kinds;
    }
  }

  /**
   * As many senators are read as there are header lines, and the k-th
   * senator has the number and the stripped name of the k-th header.
   */
  lemma {:induction false} SenatorsFollowHeaders(content: string)
    ensures SenatorKeys(Senators(content)) == Headers(Split(content, '\n'))
    ensures |Senators(content)| == |Headers(Split(content, '\n'))|
  {
    RunKeys(Kinds(content));
    CollectedMap(Split(content, '\n'), Classify, HeaderKey, LineHeader);
  }

  /** Reading one list of lines and then another is reading them one after the other. */
  lemma {:induction false} RunAppend(r: Reader, a: seq<LineKind>, b: seq<LineKind>)
    ensures Run(r, a + b) == Run(Run(r, a), b)
  {
    if b == [] {
      assert a + b == a;
    } else {
      var init := b[..|b| - 1];
      RunAppend(r, a, init);
      assert (a + b)[..|a + b| - 1] == a + init;
    }
  }

  /** Before any header line the reader has nothing to fill, so it stays as it started. */
  lemma {:induction false} RunWithoutHeaders(kinds: seq<LineKind>)
    requires forall i :: 0 <= i < |kinds| ==> !kinds[i].Header?
    ensures Run(Start, kinds) == Start
  {
    if kinds != [] {
      RunWithoutHeaders(kinds[..|kinds| - 1]);
    }
  }

  /** The lines before the first header line are ignored. */
  lemma {:induction false} LinesBeforeFirstHeader(before: seq<string>, after: seq<string>)
    requires forall i :: 0 <= i < |before| ==> LineHeader(before[i]).None?
    ensures Run(Start, Map(before + after, Classify)) == Run(Start, Map(after, Classify))
  {
    var kb := Map(before, Classify);
    MapAppend(before, after, Classify);
    RunAppend(Start, kb, Map(after, Classify));
    RunWithoutHeaders(kb);
  }

  /** What holds of every senator read: a number of digits, a stripped name, and an e-mail address of the pattern. */
  ghost predicate WellFormed(s: Senator) {
    IsNumber(s.number) && Trim(s.name) == s.name && (s.email.Some? ==> IsEmailAddress(s.email.value))
  }

  /** A line kind as `Classify` makes it. */
  ghost predicate ValidKind(k: LineKind) {
    (k.Header? ==> IsNumber(k.number) && Trim(k.name) == k.name)
    && (k.Plain? ==> IsOfficeLine(k.text))
    && (k.Email? && k.found.Some? ==> IsEmailAddress(k.found.value))
  }

  /**
   * The reader's invariant: nothing is collected before the first header;
   * once the phone is read no address line is pending; every senator
   * read is well formed and every pending line is an address line.
   */
  ghost predicate Consistent(r: Reader) {
    (r.current.None? ==> r.officeLines == [] && r.senators == [])
    && (r.current.Some? ==> WellFormed(r.current.value) && (r.current.value.phone.Some? ==> r.officeLines == []))
    && (forall i :: 0 <= i < |r.senators| ==> WellFormed(r.senators[i]))
    && (forall i :: 0 <= i < |r.officeLines| ==> IsOfficeLine(r.officeLines[i]))
  }

  /** Every line keeps the reader's invariant. */
  lemma {:induction false} StepConsistent(r: Reader, k: LineKind)
    requires Consistent(r) && ValidKind(k)
    ensures Consistent(Step(r, k))
  {
    if k.Header? && r.current.Some? {
      FinishWellFormed(r);
    }
  }

  /** Saving the senator being read keeps every senator well formed. */
  lemma {:induction false} FinishWellFormed(r: Reader)
    requires Consistent(r)
    ensures forall i :: 0 <= i < |Finish(r)| ==> WellFormed(Finish(r)[i])
  {
    if r.current.Some? {
      var last := Flush(r.current.value, r.officeLines);
      assert WellFormed(last);
      var done := Finish(r);
      assert forall i :: 0 <= i < |done| ==> done[i] == if i < |r.senators| then r.senators[i] else last;
    }
  }

  lemma {:induction false} RunConsistent(kinds: seq<LineKind>)
    requires forall i :: 0 <= i < |kinds| ==> ValidKind(kinds[i])
    ensures Consistent(Run(Start, kinds))
  {
    if kinds != [] {
      RunConsistent(kinds[..|kinds| - 1]);
      StepConsistent(Run(Start, kinds[..|kinds| - 1]), kinds[|kinds| - 1]);
    }
  }

  /** Every senator read has a number of digits, a stripped name and, when it has one, an e-mail address of the pattern. */
  lemma {:induction false} SenatorsWellFormed(content: string)
    ensures forall i :: 0 <= i < |Senators(content)| ==> WellFormed(Senators(content)[i])
  {
    var kinds := Kinds(content);
    RunConsistent(kinds);
    FinishWellFormed(Run(Start, kinds));
  }

  /** A line that starts with a bold label is not a header. */
  lemma {:induction false} BoldIsNotHeader(line: string)
    requires StartsWith(line, "**")
    ensures HeaderOf(line).None?
  {
    assert line[0] == '*';
  }

  /** A line whose third character differs from a label's does not start with that label. */
  lemma {:induction false} OtherLabel(line: string, tag: string)
    requires |line| > 2 && |tag| > 2 && line[2] != tag[2]
    ensures !StartsWith(line, tag)
  {
  }

  /** A line that starts with the Phone label is a Phone line carrying the rest of the line, stripped. */
  lemma {:induction false} PhoneKind(raw: string)
    requires StartsWith(Trim(raw), "**Phone:**")
    ensures Classify(raw) == Phone(FieldValue(Trim(raw), "**Phone:**"))
  {
    var line := Trim(raw);
    BoldIsNotHeader(line);
    assert line[2] == 'P' by { assert line[..10][2] == 'P'; }
    OtherLabel(line, "**District:**");
    OtherLabel(line, "**Title:**");
    assert !StartsWith(line, "**Party:**") by { assert line[..10][3] == 'h'; }
  }

  /**
   * A Phone line sets the phone and, when address lines are pending,
   * makes them the address; none is pending afterwards.
   */
  lemma {:induction false} PhoneLine(r: Reader, raw: string)
    requires r.current.Some? && StartsWith(Trim(raw), "**Phone:**")
    ensures Step(r, Classify(raw)).current.Some? && Step(r, Classify(raw)).senators == r.senators
    ensures Step(r, Classify(raw)).current.value.phone == Some(FieldValue(Trim(raw), "**Phone:**"))
    ensures Step(r, Classify(raw)).current.value.address
      == if r.officeLines != [] then Some(Address(r.officeLines)) else r.current.value.address
    ensures Step(r, Classify(raw)).officeLines == []
  {
    PhoneKind(raw);
  }

  /** A line that starts with the Office label is an Office line. */
  lemma {:induction false} OfficeKind(raw: string)
    requires StartsWith(Trim(raw), "**Office:**")
    ensures Classify(raw) == Office
  {
    var line := Trim(raw);
    BoldIsNotHeader(line);
    assert line[2] == 'O' by { assert line[..11][2] == 'O'; }
    OtherLabel(line, "**District:**");
    OtherLabel(line, "**Party:**");
    OtherLabel(line, "**Title:**");
    OtherLabel(line, "**Phone:**");
    OtherLabel(line, "**Email:**");
  }

  /** An Office line drops the address lines collected so far. */
  lemma {:induction false} OfficeLine(r: Reader, raw: string)
    requires r.current.Some? && StartsWith(Trim(raw), "**Office:**")
    ensures Step(r, Classify(raw)) == r.(officeLines := [])
  {
    OfficeKind(raw);
  }

  /** A rule line of the generated SQL. */
  const Rule := "-- ============================================================================"

  /** Line `k` of the comment lines that open the SQL. */
  function PreambleLine(k: nat): string
    requires k < 7
  {
    match k
    case 0 => "-- Seed Minnesota Senate members"
    case 1 => "-- Generated from senate.md"
    case 3 => Rule
    case 4 => "-- STEP 1: Insert senators into people table"
    case 5 => Rule
    case _ => ""
  }

  const Preamble: seq<string> := seq(7, k requires 0 <= k < 7 => PreambleLine(k))

  /** Line `k` of the lines between the people and the roles: the Minnesota Senate organisation, inserted unless present. */
  function MiddleLine(k: nat): string
    requires k < 11
  {
    match k
    case 0 => Rule
    case 1 => "-- STEP 2: Create roles for senators"
    case 2 => Rule
    case 4 => "-- First, ensure Minnesota Senate org exists"
    case 5 => "INSERT INTO civic.orgs (name, slug, org_type, parent_id)"
    case 6 => "SELECT 'Minnesota Senate', 'mn-senate', 'agency',"
    case 7 => "  (SELECT id FROM civic.orgs WHERE slug = 'legislative')"
    case 8 => "WHERE NOT EXISTS (SELECT 1 FROM civic.orgs WHERE slug = 'mn-senate');"
    case 10 => "-- Create roles for each senator"
    case _ => ""
  }

  const Middle: seq<string> := seq(11, k requires 0 <= k < 11 => MiddleLine(k))

  /**
   * What the generator computes for a senator before writing its lines:
   * the SQL literals of its fields, its slug and the slug's literal, and
   * the literal of its role title.
   */
  datatype SqlValues = SqlValues(
    name: string, slug: string, slugValue: string, party: string, district: string,
    email: string, phone: string, address: string, title: string)

  /** `senator.get('title') or 'Senator'`: the title when there is a non-empty one. */
  function RoleTitle(s: Senator): (t: string)
    ensures t != []
    ensures s.title.Some? && s.title.value != [] ==> t == s.title.value
  {
    if s.title.Some? && s.title.value != [] then s.title.value else "Senator"
  }

  /** Every field escaped with `escape_sql`, missing ones as NULL; the slug made from the name. */
  function Values(s: Senator): (v: SqlValues)
    ensures v.slugValue == "'" + v.slug + "'"
    ensures |v.name| >= 2 && v.name[0] == '\'' && ReadQuotedBody(v.name[1..]) == Some((s.name, ""))
    ensures |v.title| >= 2 && v.title[0] == '\'' && ReadQuotedBody(v.title[1..]) == Some((RoleTitle(s), ""))
  {
    var slug := Slug(s.name);
    SlugNeedsNoEscape(s.name);
    SqlValues(EscapeSql(Some(s.name)), slug, EscapeSql(Some(slug)), EscapeSql(s.party), EscapeSql(s.district),
      EscapeSql(s.email), EscapeSql(s.phone), EscapeSql(s.address), EscapeSql(Some(RoleTitle(s))))
  }

  /** The row of values of the people insert, in column order. */
  function ValuesLine(v: SqlValues): string {
    "VALUES (" + Join([v.name, v.slugValue, v.party, v.district, v.email, v.phone, v.address], ", ") + ")"
  }

  /** Line `k` of the insert of a senator into the people table, which updates the row with the same slug. */
  function PeopleLine(v: SqlValues, k: nat): string
    requires k < 10
  {
    match k
    case 0 => "INSERT INTO civic.people (name, slug, party, district, email, phone, address)"
    case 1 => ValuesLine(v)
    case 2 => "ON CONFLICT (slug) DO UPDATE SET"
    case 3 => "  name = EXCLUDED.name,"
    case 4 => "  party = EXCLUDED.party,"
    case 5 => "  district = EXCLUDED.district,"
    case 6 => "  email = EXCLUDED.email,"
    case 7 => "  phone = EXCLUDED.phone,"
    case 8 => "  address = EXCLUDED.address;"
    case _ => ""
  }

  /** The people insert of one senator: its values row second, a blank line last. */
  function PeopleBlock(v: SqlValues): (b: seq<string>)
    ensures |b| == 10
  {
    seq(10, k requires 0 <= k < 10 => PeopleLine(v, k))
  }

  /** Line `k` of the senator's role in the Minnesota Senate, inserted when both the person and the organisation exist. */
  function RoleLine(v: SqlValues, k: nat): string
    requires k < 10
  {
    match k
    case 0 => "INSERT INTO civic.roles (person_id, org_id, title, is_current)"
    case 1 => "SELECT"
    case 2 => "  (SELECT id FROM civic.people WHERE slug = '" + v.slug + "'),"
    case 3 => "  (SELECT id FROM civic.orgs WHERE slug = 'mn-senate'),"
    case 4 => "  " + v.title + ","
    case 5 => "  true"
    case 6 => "WHERE EXISTS (SELECT 1 FROM civic.people WHERE slug = '" + v.slug + "')"
    case 7 => "  AND EXISTS (SELECT 1 FROM civic.orgs WHERE slug = 'mn-senate')"
    case 8 => "ON CONFLICT DO NOTHING;"
    case _ => ""
  }

  /** The role insert of one senator: its escaped title fifth, a blank line last. */
  function RoleBlock(v: SqlValues): (b: seq<string>)
    ensures |b| == 10
  {
    seq(10, k requires 0 <= k < 10 => RoleLine(v, k))
  }

  /** The lines of the SQL seed for the senators' values, in order. */
  function Document(vs: seq<SqlValues>): seq<string> {
    Preamble + Flatten(Map(vs, PeopleBlock)) + Middle + Flatten(Map(vs, RoleBlock))
  }

  /** One of the generator's loops: a block of lines appended for each senator in turn. */
  method AppendBlocks(lines: seq<string>, vs: seq<SqlValues>, block: SqlValues -> seq<string>) returns (sqlLines: seq<string>)
    ensures sqlLines == lines + Flatten(Map(vs, block))
  {
    sqlLines := lines;
    var i := 0;
    while i < |vs|
      invariant i <= |vs|
      invariant sqlLines == lines + Flatten(Map(vs[..i], block))
    {
      FlattenMapSnoc(vs, i, block);
      sqlLines := sqlLines + block(vs[i]);
      i := i + 1;
    }
    assert vs[..i] == vs;
  }

  /** The SQL generation: the opening lines, a people insert per senator, the organisation, a role per senator. */
  method EmitSql(ss: seq<Senator>) returns (sqlLines: seq<string>)
    ensures sqlLines == Document(Map(ss, Values))
  {
    var vs := Map(ss, Values);
    sqlLines := AppendBlocks(Preamble, vs, PeopleBlock);
    sqlLines := AppendBlocks(sqlLines + Middle, vs, RoleBlock);
  }

  /** The seed generation as a whole: the senators read from the markdown, written out as SQL lines. */
  method GenerateSeed(content: string) returns (sqlLines: seq<string>)
    ensures sqlLines == Document(Map(Senators(content), Values))
  {
    var senators := ParseSenators(content);
    sqlLines := EmitSql(senators);
  }

  /** Twenty lines per senator besides the eighteen fixed ones. */
  lemma {:induction false} DocumentLength(vs: seq<SqlValues>)
    ensures |Document(vs)| == 18 + 20 * |vs|
  {
    FlattenLength(Map(vs, PeopleBlock), 10);
    FlattenLength(Map(vs, RoleBlock), 10);
  }

  /** The people insert of the k-th senator is lines `[7 + 10k, 17 + 10k)`. */
  lemma {:induction false} PeopleBlockAt(vs: seq<SqlValues>, k: nat)
    requires k < |vs|
    ensures 17 + 10 * k <= |Document(vs)| && Document(vs)[7 + 10 * k..17 + 10 * k] == PeopleBlock(vs[k])
  {
    TwoSectionsAt(Preamble, Middle, vs, PeopleBlock, RoleBlock, 10, k);
    var lo := |Preamble| + 10 * k;
    assert Document(vs)[lo..lo + 10] == PeopleBlock(vs[k]);
    assert |Preamble| == 7;
  }

  /** The role insert of the k-th of `n` senators is lines `[18 + 10n + 10k, 28 + 10n + 10k)`. */
  lemma {:induction false} RoleBlockAt(vs: seq<SqlValues>, n: nat, k: nat)
    requires n == |vs| && k < n
    ensures 28 + 10 * n + 10 * k <= |Document(vs)|
    ensures Document(vs)[18 + 10 * n + 10 * k..28 + 10 * n + 10 * k] == RoleBlock(vs[k])
  {
    TwoSectionsAt(Preamble, Middle, vs, PeopleBlock, RoleBlock, 10, k);
    var lo := |Preamble| + 10 * n + |Middle| + 10 * k;
    assert Document(vs)[lo..lo + 10] == RoleBlock(vs[k]);
    assert |Preamble| == 7 && |Middle| == 11;
  }

  /**
   * The seed has twenty lines per header line of the markdown besides the
   * fixed ones, and its k-th people insert and k-th role insert are made
   * from the senator of the k-th header line.
   */
  lemma {:induction false} SeedFollowsHeaders(content: string, k: nat)
    requires k < |Headers(Split(content, '\n'))|
    ensures |Senators(content)| == |Headers(Split(content, '\n'))|
    ensures (Senators(content)[k].number, Senators(content)[k].name) == Headers(Split(content, '\n'))[k]
    ensures SeedOf(Senators(content), Values, k)
  {
    SenatorsFollowHeaders(content);
    var ss := Senators(content);
    assert SenatorKeys(ss)[k] == (ss[k].number, ss[k].name);
    SeedOfSenators(ss, Values, k);
  }

  /**
   * The seed written for senators turned into SQL values by `values`: twenty
   * lines each besides the fixed ones, and the k-th senator's inserts in place.
   */
  ghost predicate SeedOf<S>(ss: seq<S>, values: S -> SqlValues, k: nat)
    requires k < |ss|
  {
    var vs := Map(ss, values);
    var n := |ss|;
    |Document(vs)| == 18 + 20 * n
    && Document(vs)[7 + 10 * k..17 + 10 * k] == PeopleBlock(values(ss[k]))
    && Document(vs)[18 + 10 * n + 10 * k..28 + 10 * n + 10 * k] == RoleBlock(values(ss[k]))
  }

  lemma {:induction false} SeedOfSenators<S>(ss: seq<S>, values: S -> SqlValues, k: nat)
    requires k < |ss|
    ensures SeedOf(ss, values, k)
  {
    var vs := Map(ss, values);
    var n := |ss|;
    assert |vs| == n && vs[k] == values(ss[k]);
    assert |Document(vs)| == 18 + 20 * n by {
      DocumentLength(vs);
    }
    assert Document(vs)[7 + 10 * k..17 + 10 * k] == PeopleBlock(values(ss[k])) by {
      PeopleBlockAt(vs, k);
    }
    assert Document(vs)[18 + 10 * n + 10 * k..28 + 10 * n + 10 * k] == RoleBlock(values(ss[k])) by {
      RoleBlockAt(vs, n, k);
    }
  }

  /** The VALUES row starts with the name's literal, so a reader of it reads the name first. */
  lemma {:induction false} ValuesLineReadsName(v: SqlValues, name: string)
    requires |v.name| >= 2 && v.name[0] == '\'' && ReadQuotedBody(v.name[1..]) == Some((name, ""))
    ensures var line := ValuesLine(v);
      |line| > 9 && line[..8] == "VALUES (" && line[8] == '\''
      && ReadQuotedBody(line[9..]) == Some((name, ", " + Join([v.slugValue, v.party, v.district, v.email, v.phone, v.address], ", ") + ")"))
  {
    var lits := [v.name, v.slugValue, v.party, v.district, v.email, v.phone, v.address];
    var rest := ", " + Join(lits[1..], ", ") + ")";
    assert Join(lits, ", ") == v.name + (", " + Join(lits[1..], ", "));
    var line := ValuesLine(v);
    assert line == "VALUES (" + v.name + rest;
    assert line[9..] == v.name[1..] + rest;
    ReadQuotedBodyAppend(v.name[1..], rest);
  }

  /**
   * An SQL reader of the people insert's VALUES row takes its first
   * literal back to the senator's name, whatever quotes the name holds.
   */
  lemma {:induction false} NameReadBack(s: Senator)
    ensures var line := PeopleBlock(Values(s))[1];
      |line| > 9 && line[..8] == "VALUES (" && line[8] == '\''
      && ReadQuotedBody(line[9..]).Some? && ReadQuotedBody(line[9..]).value.0 == s.name
  {
    ValuesLineReadsName(Values(s), s.name);
  }

  /** The title line holds the title literal, so a reader of it reads the title. */
  lemma {:induction false} TitleLineReadsTitle(title: string, t: string)
    requires |title| >= 2 && title[0] == '\'' && ReadQuotedBody(title[1..]) == Some((t, ""))
    ensures var line := "  " + title + ",";
      |line| > 3 && line[..2] == "  " && line[2] == '\''
      && ReadQuotedBody(line[3..]) == Some((t, ","))
  {
    var line := "  " + title + ",";
    assert line[3..] == title[1..] + ",";
    ReadQuotedBodyAppend(title[1..], ",");
  }

  /**
   * An SQL reader of the role insert's title line takes its literal back to
   * the senator's title, or `Senator` when there is none.
   */
  lemma {:induction false} TitleReadBack(s: Senator)
    ensures var line := RoleBlock(Values(s))[4];
      |line| > 3 && line[..2] == "  " && line[2] == '\''
      && ReadQuotedBody(line[3..]) == Some((RoleTitle(s), ","))
  {
    var v := Values(s);
    assert RoleBlock(v)[4] == RoleLine(v, 4) == "  " + v.title + ",";
    TitleLineReadsTitle(v.title, RoleTitle(s));
  }
}
