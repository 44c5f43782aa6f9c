/**
 * The line-level pieces of the Minnesota Senate seed generator: SQL
 * literal escaping, the `## <number>. <name>` header pattern, the e-mail
 * pattern searched for in an Email line, and slug derivation.
 */
module SenateLines {
  import opened Wrappers
  import opened Text
  import Numbers

  /** `escape_sql`: `NULL` for a missing value, otherwise a quoted literal with every quote doubled. */
  function EscapeSql(s: Option<string>): (r: string)
    ensures s.None? ==> r == "NULL"
    ensures s.Some? ==> |r| >= 2 && r[0] == '\'' && ReadQuotedBody(r[1..]) == Some((s.value, ""))
  {
    match s
    case None => "NULL"
    case Some(v) =>
      DoubleQuotesRoundTrip(v, "");
      assert ("'" + DoubleQuotes(v) + "'")[1..] == DoubleQuotes(v) + "'" + "";
      "'" + DoubleQuotes(v) + "'"
  }

  /** Text without a quote is left as it is by the doubling. */
  lemma {:induction false} DoubleQuotesNoQuote(s: string)
    requires forall i :: 0 <= i < |s| ==> s[i] != '\''
    ensures DoubleQuotes(s) == s
  {
    if s != [] {
      DoubleQuotesNoQuote(s[1..]);
      assert [s[0]] + s[1..] == s;
    }
  }

  /** The length of the longest prefix of `s` whose characters all satisfy `p`. */
  function Span(s: string, p: char -> bool): (n: nat)
    ensures n <= |s|
    ensures forall i :: 0 <= i < n ==> p(s[i])
    ensures n < |s| ==> !p(s[n])
    decreases |s|
  {
    if s != [] && p(s[0]) then 1 + Span(s[1..], p) else 0
  }

  /** A prefix of characters satisfying `p`, followed by one that does not (or by nothing), is the span. */
  lemma {:induction false} SpanOfPrefix(x: string, y: string, p: char -> bool)
    requires forall i :: 0 <= i < |x| ==> p(x[i])
    requires y == [] || !p(y[0])
    ensures Span(x + y, p) == |x|
    decreases |x|
  {
    if x != [] {
      assert (x + y)[1..] == x[1..] + y;
      SpanOfPrefix(x[1..], y, p);
    } else {
      assert x + y == y;
    }
  }

  /** A run of one or more digits, what `(\d+)` captures. */
  predicate IsNumber(s: string) {
    s != [] && forall i :: 0 <= i < |s| ==> Numbers.IsDigit(s[i])
  }

  predicate IsLetter(c: char) {
    'a' <= c <= 'z' || 'A' <= c <= 'Z'
  }

  /**
   * `re.match(r'^##\s+(\d+)\.\s+(.+)$', line)`, giving the number and the
   * stripped name. `\s` is Python's whitespace and `.` any character.
   * When only blanks follow the dot, `.+` takes back the last of them and
   * the name is empty.
   */
  function HeaderOf(line: string): (r: Option<(string, string)>)
    ensures r.Some? ==> IsNumber(r.value.0)
    ensures r.Some? ==> Trim(r.value.1) == r.value.1
    ensures r.Some? ==> StartsWith(line, "##")
  {
    if !StartsWith(line, "##") then None
    else
      var t := line[2..];
      var a := Span(t, IsSpace);
      var u := t[a..];
      var d := Span(u, Numbers.IsDigit);
      if a == 0 || d == 0 || d == |u| || u[d] != '.' then None
      else
        var v := u[d + 1..];
        var b := Span(v, IsSpace);
        if b == 0 || (b == |v| && b < 2) then None
        else
          var name := if b < |v| then v[b..] else v[b - 1..];
          TrimIdempotent(name);
          Some((u[..d], Trim(name)))
  }

  /** The header line the markdown uses for a senator. */
  function HeaderLine(number: string, name: string): string {
    "## " + number + ". " + name
  }

  /** How `HeaderOf` reads a line once its pieces are known: the blanks, the digits, the dot, the blanks, the name. */
  lemma {:induction false} HeaderOfPieces(line: string, t: string, u: string, v: string, number: string, name: string)
    requires StartsWith(line, "##") && t == line[2..]
    requires Span(t, IsSpace) == 1 && u == t[1..]
    requires Span(u, Numbers.IsDigit) == |number| && 0 < |number| < |u| && u[..|number|] == number && u[|number|] == '.'
    requires v == u[|number| + 1..] && Span(v, IsSpace) == 1 && v[1..] == name && name != []
    requires Trim(name) == name
    ensures HeaderOf(line) == Some((number, name))
  {
  }

  /** One blank in front of text that does not start with one is a span of length one. */
  lemma {:induction false} SpanOneBlank(y: string)
    requires y == [] || !IsSpace(y[0])
    ensures Span(" " + y, IsSpace) == 1
  {
    assert (" " + y)[1..] == y;
  }

  /** The digits of a number in front of a dot are a span of the number's length. */
  lemma {:induction false} SpanNumber(number: string, y: string)
    requires IsNumber(number) && y != [] && y[0] == '.'
    ensures Span(number + y, Numbers.IsDigit) == |number|
  {
    assert forall i :: 0 <= i < |number| ==> Numbers.IsDigit(number[i]);
    SpanOfPrefix(number, y, Numbers.IsDigit);
  }

  /** A header line cut at the pieces it was written from. */
  lemma {:induction false} HeaderLineCut(number: string, name: string, t: string, u: string, v: string)
    requires v == " " + name && u == number + ("." + v) && t == " " + u
    ensures var line := HeaderLine(number, name);
      && StartsWith(line, "##") && t == line[2..] && u == t[1..]
      && |number| < |u| && u[..|number|] == number && u[|number|] == '.'
      && v == u[|number| + 1..] && v[1..] == name
  {
    var line := "##" + t;
    assert line == HeaderLine(number, name);
    assert line[..2] == "##" && line[2..] == t;
    assert u[..|number|] == number && u[|number|..] == "." + v;
  }

  /** The pieces `HeaderOf` finds in a header line: one blank, the digits, the dot, one blank, the name. */
  lemma {:induction false} HeaderLinePieces(number: string, name: string)
    returns (t: string, u: string, v: string)
    requires IsNumber(number) && name != [] && !IsSpace(name[0])
    ensures var line := HeaderLine(number, name);
      && StartsWith(line, "##") && t == line[2..]
      && Span(t, IsSpace) == 1 && u == t[1..]
      && Span(u, Numbers.IsDigit) == |number| && |number| < |u| && u[..|number|] == number && u[|number|] == '.'
      && v == u[|number| + 1..] && Span(v, IsSpace) == 1 && v[1..] == name
  {
    v := " " + name;
    u := number + ("." + v);
    t := " " + u;
    HeaderLineCut(number, name, t, u, v);
    SpanOneBlank(u);
    SpanNumber(number, "." + v);
    SpanOneBlank(name);
  }

  /** A header written for a number and a stripped, non-empty name is read back as that number and name. */
  lemma {:induction false} HeaderRoundTrip(number: string, name: string)
    requires IsNumber(number)
    requires name != [] && Trim(name) == name
    ensures HeaderOf(HeaderLine(number, name)) == Some((number, name))
  {
    var t, u, v := HeaderLinePieces(number, name);
    HeaderOfPieces(HeaderLine(number, name), t, u, v, number, name);
  }

  /** The characters of `[a-zA-Z0-9._%+-]`, the part before the `@`. */
  predicate IsLocalChar(c: char) {
    IsLetter(c) || Numbers.IsDigit(c) || c == '.' || c == '_' || c == '%' || c == '+' || c == '-'
  }

  /** The characters of `[a-zA-Z0-9.-]`, the domain. */
  predicate IsDomainChar(c: char) {
    IsLetter(c) || Numbers.IsDigit(c) || c == '.' || c == '-'
  }

  /**
   * An e-mail address of the pattern `[a-zA-Z0-9._%+-]+@[a-zA-Z0-9.-]+\.[a-zA-Z]{2,}`,
   * with the `@` at `k` and the dot before the top-level domain at `j`.
   */
  predicate EmailParts(e: string, k: nat, j: nat) {
    0 < k && k + 1 < j && j + 2 < |e|
    && (forall i :: 0 <= i < k ==> IsLocalChar(e[i]))
    && e[k] == '@'
    && (forall i :: k < i < j ==> IsDomainChar(e[i]))
    && e[j] == '.'
    && (forall i :: j < i < |e| ==> IsLetter(e[i]))
  }

  /** A whole string of the e-mail pattern. */
  ghost predicate IsEmailAddress(e: string) {
    exists k, j :: EmailParts(e, k, j)
  }

  /**
   * Inside a run of domain characters, `[a-zA-Z0-9.-]+\.[a-zA-Z]{2,}`
   * backtracks from the longest domain: the last dot at a position
   * below `end`, with at least one character before it and two letters
   * after it. The result is that dot and the end of the letters after it.
   */
  function TopLevelDomain(run: string, end: nat): Option<(nat, nat)>
    requires end <= |run|
    decreases end
  {
    if end <= 1 then None
    else if run[end - 1] == '.' && LettersFrom(run, end) >= 2 then Some((end - 1, end + LettersFrom(run, end)))
    else TopLevelDomain(run, end - 1)
  }

  /** What the search finds is a dot past the first character, followed by at least two letters. */
  lemma {:induction false} TopLevelDomainFound(run: string, end: nat)
    requires end <= |run| && TopLevelDomain(run, end).Some?
    ensures var (dot, stop) := TopLevelDomain(run, end).value;
      1 <= dot && dot + 3 <= stop <= |run| && run[dot] == '.'
      && forall i :: dot < i < stop ==> IsLetter(run[i])
    decreases end
  {
    if !(run[end - 1] == '.' && LettersFrom(run, end) >= 2) {
      TopLevelDomainFound(run, end - 1);
    }
  }

  /** The number of letters in `run` from position `i` on, up to the first character that is not one. */
  function LettersFrom(run: string, i: nat): (n: nat)
    requires i <= |run|
    ensures i + n <= |run|
    ensures forall j :: i <= j < i + n ==> IsLetter(run[j])
    ensures i + n < |run| ==> !IsLetter(run[i + n])
    decreases |run| - i
  {
    if i < |run| && IsLetter(run[i]) then 1 + LettersFrom(run, i + 1) else 0
  }

  /** Letters up to the end of `run` are all counted. */
  lemma {:induction false} LettersToEnd(run: string, i: nat)
    requires i <= |run|
    requires forall j :: i <= j < |run| ==> IsLetter(run[j])
    ensures LettersFrom(run, i) == |run| - i
    decreases |run| - i
  {
    if i < |run| {
      LettersToEnd(run, i + 1);
    }
  }

  /** `re.match` of the e-mail pattern at the start of `s`: the length of the match. */
  function EmailAt(s: string): (r: Option<nat>)
    ensures r.Some? ==> r.value <= |s| && IsEmailAddress(s[..r.value])
  {
    var k := Span(s, IsLocalChar);
    if k == 0 || k == |s| || s[k] != '@' then None
    else
      var rest := s[k + 1..];
      var run := rest[..Span(rest, IsDomainChar)];
      match TopLevelDomain(run, |run|)
      case None => None
      case Some((dot, end)) =>
        TopLevelDomainFound(run, |run|);
        EmailOfParts(s, k, run, dot, end);
        Some(k + 1 + end)
  }

  /** The local part, the `@`, and a domain run with its top-level domain make an address. */
  lemma {:induction false} EmailOfParts(s: string, k: nat, run: string, dot: nat, end: nat)
    requires 0 < k < |s| && s[k] == '@' && forall i :: 0 <= i < k ==> IsLocalChar(s[i])
    requires k + 1 + |run| <= |s| && run == s[k + 1..][..|run|]
    requires forall i :: 0 <= i < |run| ==> IsDomainChar(run[i])
    requires 1 <= dot && dot + 3 <= end <= |run| && run[dot] == '.'
    requires forall i :: dot < i < end ==> IsLetter(run[i])
    ensures k + 1 + end <= |s| && IsEmailAddress(s[..k + 1 + end])
  {
    var e := s[..k + 1 + end];
    assert forall i :: 0 <= i < end ==> e[k + 1 + i] == run[i];
    assert EmailParts(e, k, k + 1 + dot);
  }

  /** `re.search` of the e-mail pattern: the match at the leftmost position where there is one. */
  function FindEmail(s: string): (r: Option<string>)
    ensures r.Some? ==> Contains(s, r.value) && IsEmailAddress(r.value)
    decreases |s|
  {
    if s == [] then None
    else
      match EmailAt(s)
      case Some(n) =>
        ContainsAt(s, s[..n], 0);
        Some(s[..n])
      case None => FindEmail(s[1..])
  }

  /** A letter at the end of the part searched is not a dot: the search moves on. */
  lemma {:induction false} TopLevelDomainLetter(run: string, end: nat)
    requires 1 < end <= |run| && run[end - 1] != '.'
    ensures TopLevelDomain(run, end) == TopLevelDomain(run, end - 1)
  {
  }

  /** Past the dot before the top-level domain, the search skips the letters. */
  lemma {:induction false} TopLevelDomainSkip(run: string, dot: nat, end: nat, r: Option<(nat, nat)>)
    requires dot < end <= |run|
    requires forall i :: dot < i < end ==> run[i] != '.'
    requires TopLevelDomain(run, dot + 1) == r
    ensures TopLevelDomain(run, end) == r
    decreases end
  {
    if end > dot + 1 {
      TopLevelDomainSkip(run, dot, end - 1, r);
      TopLevelDomainLetter(run, end);
    }
  }

  /** A dot followed by at least two letters ends the search. */
  lemma {:induction false} TopLevelDomainAtDot(run: string, dot: nat)
    requires 1 <= dot < |run| && run[dot] == '.' && LettersFrom(run, dot + 1) >= 2
    ensures TopLevelDomain(run, dot + 1) == Some((dot, dot + 1 + LettersFrom(run, dot + 1)))
  {
  }

  /** Inside the run of an address's domain, the search finds the dot before the top-level domain. */
  lemma {:induction false} TopLevelDomainOfAddress(run: string, dot: nat)
    requires 1 <= dot && dot + 2 < |run| && run[dot] == '.'
    requires forall i :: dot < i < |run| ==> IsLetter(run[i])
    ensures TopLevelDomain(run, |run|) == Some((dot, |run|))
  {
    LettersToEnd(run, dot + 1);
    TopLevelDomainAtDot(run, dot);
    assert forall i :: dot < i < |run| ==> run[i] != '.';
    TopLevelDomainSkip(run, dot, |run|, Some((dot, |run|)));
  }

  /** What `EmailAt` finds in an address: the local part up to the `@`, the rest as one domain run, and its top-level domain. */
  lemma {:induction false} EmailAddressPieces(e: string, k: nat, j: nat)
    requires EmailParts(e, k, j)
    ensures Span(e, IsLocalChar) == k
    ensures Span(e[k + 1..], IsDomainChar) == |e| - k - 1
    ensures TopLevelDomain(e[k + 1..], |e| - k - 1) == Some((j - k - 1, |e| - k - 1))
  {
    LocalSpan(e, k);
    var rest := e[k + 1..];
    DomainOfAddress(e, k, j, rest);
    SpanOfPrefix(rest, [], IsDomainChar);
    assert rest + [] == rest;
    TopLevelDomainOfAddress(rest, j - k - 1);
  }

  /** The local part of an address ends at its `@`. */
  lemma {:induction false} LocalSpan(e: string, k: nat)
    requires k < |e| && e[k] == '@' && forall i :: 0 <= i < k ==> IsLocalChar(e[i])
    ensures Span(e, IsLocalChar) == k
  {
    SpanOfPrefix(e[..k], e[k..], IsLocalChar);
    assert e[..k] + e[k..] == e;
  }

  /** After the `@` of an address come only domain characters, with the dot before the top-level domain and letters after it. */
  lemma {:induction false} DomainOfAddress(e: string, k: nat, j: nat, rest: string)
    requires EmailParts(e, k, j) && rest == e[k + 1..]
    ensures forall i :: 0 <= i < |rest| ==> IsDomainChar(rest[i])
    ensures 1 <= j - k - 1 && j - k + 1 < |rest| && rest[j - k - 1] == '.'
    ensures forall i :: j - k - 1 < i < |rest| ==> IsLetter(rest[i])
  {
    forall i | 0 <= i < |rest| ensures IsDomainChar(rest[i]) {
      assert rest[i] == e[k + 1 + i];
    }
  }

  /** An address of the pattern is matched whole at its start. */
  lemma {:induction false} EmailAtAddress(e: string, k: nat, j: nat)
    requires EmailParts(e, k, j)
    ensures EmailAt(e) == Some(|e|)
  {
    EmailAddressPieces(e, k, j);
    var rest := e[k + 1..];
    assert rest[..|rest|] == rest;
  }

  /** An address of the pattern is found whole in a text that is just that address. */
  lemma {:induction false} EmailRoundTrip(e: string, k: nat, j: nat)
    requires EmailParts(e, k, j)
    ensures FindEmail(e) == Some(e)
  {
    EmailAtAddress(e, k, j);
    assert e[..|e|] == e;
  }

  /** The characters `[^a-zA-Z0-9\s-]` does not match, which the first substitution keeps. */
  predicate SlugKeeps(c: char) {
    IsLetter(c) || Numbers.IsDigit(c) || IsSpace(c) || c == '-'
  }

  predicate IsCapital(c: char) {
    'A' <= c <= 'Z'
  }

  /** A character a slug may hold: `[a-z0-9-]`. */
  predicate IsSlugChar(c: char) {
    'a' <= c <= 'z' || Numbers.IsDigit(c) || c == '-'
  }

  /** `re.sub(r'[^a-zA-Z0-9\s-]', '', s)`. */
  function KeepSlugChars(s: string): (r: string)
    ensures forall i :: 0 <= i < |r| ==> SlugKeeps(r[i])
    ensures (forall i :: 0 <= i < |s| ==> !IsCapital(s[i])) ==> forall i :: 0 <= i < |r| ==> !IsCapital(r[i])
    decreases |s|
  {
    if s == [] then []
    else (if SlugKeeps(s[0]) then [s[0]] else []) + KeepSlugChars(s[1..])
  }

  /** `re.sub(r'\s+', '-', s)`: every run of whitespace becomes one dash. */
  function DashBlanks(s: string): (r: string)
    ensures forall i :: 0 <= i < |r| ==> !IsSpace(r[i])
    ensures (forall i :: 0 <= i < |s| ==> IsSpace(s[i]) || IsSlugChar(s[i])) ==> forall i :: 0 <= i < |r| ==> IsSlugChar(r[i])
    decreases |s|
  {
    if s == [] then []
    else if IsSpace(s[0]) then "-" + DashBlanks(s[Span(s, IsSpace)..])
    else [s[0]] + DashBlanks(s[1..])
  }

  /** `s.lstrip('-')`. */
  function DropLeadingDashes(s: string): (r: string)
    ensures r != [] ==> r[0] != '-'
    ensures (forall i :: 0 <= i < |s| ==> IsSlugChar(s[i])) ==> forall i :: 0 <= i < |r| ==> IsSlugChar(r[i])
    decreases |s|
  {
    if s != [] && s[0] == '-' then DropLeadingDashes(s[1..]) else s
  }

  /** `s.rstrip('-')`. */
  function DropTrailingDashes(s: string): (r: string)
    ensures r != [] ==> r[|r| - 1] != '-'
    ensures s != [] && s[0] != '-' ==> r != [] && r[0] == s[0]
    ensures (forall i :: 0 <= i < |s| ==> IsSlugChar(s[i])) ==> forall i :: 0 <= i < |r| ==> IsSlugChar(r[i])
    decreases |s|
  {
    if s != [] && s[|s| - 1] == '-' then DropTrailingDashes(s[..|s| - 1]) else s
  }

  /**
   * The slug of a senator's name: lower-cased, stripped of every character
   * that is not a letter, digit, blank or dash, each run of blanks turned
   * into a dash, and the dashes at both ends removed.
   */
  function Slug(name: string): (r: string)
    ensures forall i :: 0 <= i < |r| ==> IsSlugChar(r[i])
    ensures r != [] ==> r[0] != '-' && r[|r| - 1] != '-'
  {
    DropTrailingDashes(DropLeadingDashes(DashBlanks(KeepSlugChars(Lower(name)))))
  }

  /** A slug needs no escaping: written between quotes as it is, it reads as the literal `escape_sql` makes of it. */
  lemma {:induction false} SlugNeedsNoEscape(name: string)
    ensures EscapeSql(Some(Slug(name))) == "'" + Slug(name) + "'"
  {
    DoubleQuotesNoQuote(Slug(name));
  }

  /** Lower-casing leaves text without capitals as it is. */
  lemma {:induction false} LowerNoCapitals(s: string)
    requires forall i :: 0 <= i < |s| ==> !('A' <= s[i] <= 'Z')
    ensures Lower(s) == s
  {
  }

  /** The first substitution leaves text it has nothing to remove from as it is. */
  lemma {:induction false} KeepSlugCharsKeeps(s: string)
    requires forall i :: 0 <= i < |s| ==> SlugKeeps(s[i])
    ensures KeepSlugChars(s) == s
    decreases |s|
  {
    if s != [] {
      KeepSlugCharsKeeps(s[1..]);
      assert [s[0]] + s[1..] == s;
    }
  }

  /** The second substitution leaves text without blanks as it is. */
  lemma {:induction false} DashBlanksKeeps(s: string)
    requires forall i :: 0 <= i < |s| ==> !IsSpace(s[i])
    ensures DashBlanks(s) == s
    decreases |s|
  {
    if s != [] {
      DashBlanksKeeps(s[1..]);
      assert [s[0]] + s[1..] == s;
    }
  }

  /** Text made of slug characters, with no dash at either end, is its own slug. */
  lemma {:induction false} SlugOfSlugText(s: string)
    requires forall i :: 0 <= i < |s| ==> IsSlugChar(s[i])
    requires s != [] ==> s[0] != '-' && s[|s| - 1] != '-'
    ensures Slug(s) == s
  {
    assert forall i :: 0 <= i < |s| ==> !('A' <= s[i] <= 'Z') && SlugKeeps(s[i]) && !IsSpace(s[i]);
    LowerNoCapitals(s);
    KeepSlugCharsKeeps(s);
    DashBlanksKeeps(s);
    assert DropLeadingDashes(s) == s;
    assert DropTrailingDashes(s) == s;
  }

  /** Deriving a slug from a slug gives it back. */
  lemma {:induction false} SlugIdempotent(name: string)
    ensures Slug(Slug(name)) == Slug(name)
  {
    SlugOfSlugText(Slug(name));
  }
}
