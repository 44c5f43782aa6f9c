/**
 * The string operations the scripts rely on, with Python's meaning:
 * `str.strip()`, ASCII `lower()`/`upper()`, `startswith`, the `in`
 * substring test, `replace(pat, '')`, quote doubling, `join`, `split`
 * and the code-point order that `sorted()` uses on strings.
 */
module Text {
  import opened Wrappers

  /** The characters for which Python's `str.isspace()` holds. */
  predicate IsSpace(c: char) {
    c == ' ' || ('\t' <= c <= '\r') || ('\U{1c}' <= c <= '\U{1f}')
    || c == '\U{85}' || c == '\U{a0}' || c == '\U{1680}'
    || ('\U{2000}' <= c <= '\U{200a}') || c == '\U{2028}' || c == '\U{2029}'
    || c == '\U{202f}' || c == '\U{205f}' || c == '\U{3000}'
  }

  /** A string made only of whitespace (the empty string included). */
  predicate IsBlank(s: string) {
    forall i :: 0 <= i < |s| ==> IsSpace(s[i])
  }

  /** `s.lstrip()`: the suffix left after dropping the leading whitespace. */
  function TrimLeft(s: string): (r: string)
    ensures |r| <= |s|
    ensures IsBlank(s[..|s| - |r|])
    ensures r != [] ==> !IsSpace(r[0])
  {
    if s != [] && IsSpace(s[0]) then TrimLeft(s[1..]) else s
  }

  /** What `lstrip()` keeps is a suffix of its input. */
  lemma {:induction false} TrimLeftSuffix(s: string)
    ensures TrimLeft(s) == s[|s| - |TrimLeft(s)|..]
    decreases |s|
  {
    if s != [] && IsSpace(s[0]) {
      TrimLeftSuffix(s[1..]);
      assert s[1..][|s| - 1 - |TrimLeft(s)|..] == s[|s| - |TrimLeft(s)|..];
    }
  }

  /** `s.rstrip()`: the prefix left after dropping the trailing whitespace. */
  function TrimRight(s: string): (r: string)
    ensures |r| <= |s| && r == s[..|r|]
    ensures IsBlank(s[|r|..])
    ensures r != [] ==> !IsSpace(r[|r| - 1])
  {
    if s != [] && IsSpace(s[|s| - 1]) then
      var p := s[..|s| - 1];
      var r := TrimRight(p);
      assert r == s[..|r|] by { assert p[..|r|] == s[..|r|]; }
      assert s[|r|..] == p[|r|..] + [s[|s| - 1]];
      r
    else s
  }

  /** `s.strip()`. */
  function Trim(s: string): (r: string)
    ensures |r| <= |s|
    ensures r != [] ==> !IsSpace(r[0]) && !IsSpace(r[|r| - 1])
    ensures r == [] <==> IsBlank(s)
  {
    var l := TrimLeft(s);
    var r := TrimRight(l);
    TrimLeftSuffix(s);
    assert r == [] ==> IsBlank(s) by {
      if r == [] {
        assert l == [];
        assert s[..|s| - |l|] == s;
      }
    }
    assert r != [] ==> !IsSpace(r[0]) by {
      if r != [] { assert r[0] == l[0]; }
    }
    r
  }

  /** Stripping twice changes nothing. */
  lemma {:induction false} TrimIdempotent(s: string)
    ensures Trim(Trim(s)) == Trim(s)
  {
    var t := Trim(s);
    assert TrimLeft(t) == t;
    assert TrimRight(t) == t;
  }

  /** Text without whitespace is left as it is by `strip()`. */
  lemma {:induction false} TrimNoSpace(s: string)
    requires forall i :: 0 <= i < |s| ==> !IsSpace(s[i])
    ensures Trim(s) == s
  {
    assert TrimLeft(s) == s;
    assert TrimRight(s) == s;
  }

  /** A leading blank is dropped by `lstrip()`. */
  lemma {:induction false} TrimLeftSpace(x: string)
    ensures TrimLeft(" " + x) == TrimLeft(x)
  {
    assert (" " + x)[1..] == x;
  }

  /** A trailing blank is dropped by `rstrip()`. */
  lemma {:induction false} TrimRightSpace(x: string)
    ensures TrimRight(x + " ") == TrimRight(x)
  {
    assert (x + " ")[..|x|] == x;
  }

  /** Padding text that starts and ends with a non-space by one blank on each side is undone by `strip()`. */
  lemma {:induction false} TrimPad(s: string)
    requires s != [] && !IsSpace(s[0]) && !IsSpace(s[|s| - 1])
    ensures Trim(" " + s + " ") == s
  {
    TrimLeftSpace(s + " ");
    assert " " + s + " " == " " + (s + " ");
    assert TrimLeft(s + " ") == s + " ";
    TrimRightSpace(s);
    assert TrimRight(s) == s;
  }

  /** ASCII `lower()` of one character. */
  function LowerChar(c: char): char {
    if 'A' <= c <= 'Z' then (c as int + 32) as char else c
  }

  /** ASCII `upper()` of one character. */
  function UpperChar(c: char): char {
    if 'a' <= c <= 'z' then (c as int - 32) as char else c
  }

  function Lower(s: string): (r: string)
    ensures |r| == |s| && forall i :: 0 <= i < |s| ==> r[i] == LowerChar(s[i])
  {
    seq(|s|, i requires 0 <= i < |s| => LowerChar(s[i]))
  }

  function Upper(s: string): (r: string)
    ensures |r| == |s| && forall i :: 0 <= i < |s| ==> r[i] == UpperChar(s[i])
  {
    seq(|s|, i requires 0 <= i < |s| => UpperChar(s[i]))
  }

  /** `s.startswith(p)`. */
  predicate StartsWith(s: string, p: string) {
    |p| <= |s| && s[..|p|] == p
  }

  /** Python's substring test `p in s`. */
  predicate Contains(s: string, p: string)
    decreases |s|
  {
    StartsWith(s, p) || (s != [] && Contains(s[1..], p))
  }

  /** `p in s` holds exactly when `p` occurs at some offset of `s`. */
  lemma {:induction false} ContainsAt(s: string, p: string, k: nat)
    requires k + |p| <= |s| && s[k..k + |p|] == p
    ensures Contains(s, p)
    decreases k
  {
    if k > 0 {
      assert s[1..][k - 1..k - 1 + |p|] == s[k..k + |p|];
      ContainsAt(s[1..], p, k - 1);
    } else {
      assert s[..|p|] == s[0..0 + |p|];
    }
  }

  /** A string that `p` occurs in is at least as long as `p`. */
  lemma {:induction false} ContainsLength(s: string, p: string)
    requires Contains(s, p)
    ensures |p| <= |s|
    decreases |s|
  {
    if !StartsWith(s, p) { ContainsLength(s[1..], p); }
  }

  /** A pattern longer than the string does not occur in it. */
  lemma {:induction false} NotContainsLonger(s: string, p: string)
    requires |s| < |p|
    ensures !Contains(s, p)
    decreases |s|
  {
    if s != [] { NotContainsLonger(s[1..], p); }
  }

  /** `s.replace(p, '')`: the occurrences of `p` found scanning left to right, without overlap, removed. */
  function RemoveAll(s: string, p: string): (r: string)
    requires p != []
    ensures |r| <= |s|
    decreases |s|
  {
    if |s| < |p| then s
    else if s[..|p|] == p then RemoveAll(s[|p|..], p)
    else [s[0]] + RemoveAll(s[1..], p)
  }

  /** The characters of `s` other than `c`, in their order. */
  function OtherChars(s: string, c: char): string {
    if s == [] then [] else (if s[0] == c then [] else [s[0]]) + OtherChars(s[1..], c)
  }

  /**
   * Removing a one-character `p` keeps every other character in order and
   * leaves no `c` behind.
   */
  lemma {:induction false} RemoveAllChar(s: string, c: char)
    ensures RemoveAll(s, [c]) == OtherChars(s, c)
    ensures forall i :: 0 <= i < |RemoveAll(s, [c])| ==> RemoveAll(s, [c])[i] != c
    decreases |s|
  {
    if |s| >= 1 {
      RemoveAllChar(s[1..], c);
      assert s[..1] == [c] <==> s[0] == c by { assert s[..1][0] == s[0]; }
    }
  }

  /** Removing a character that does not occur changes nothing. */
  lemma {:induction false} RemoveAllAbsent(s: string, c: char)
    requires forall i :: 0 <= i < |s| ==> s[i] != c
    ensures RemoveAll(s, [c]) == s
    decreases |s|
  {
    if |s| >= 1 {
      assert s[..1] != [c] by { assert s[..1][0] == s[0]; }
      RemoveAllAbsent(s[1..], c);
      assert [s[0]] + s[1..] == s;
    }
  }

  /** `s.replace("'", "''")`: every single quote doubled. */
  function DoubleQuotes(s: string): (r: string)
    ensures |r| >= |s|
  {
    if s == [] then []
    else (if s[0] == '\'' then "''" else [s[0]]) + DoubleQuotes(s[1..])
  }

  /**
   * How an SQL reader takes a quoted literal apart: given the text after the
   * opening quote, it reads up to the first quote that is not doubled and
   * returns the value read (each `''` read as one `'`) and the text after
   * the closing quote; `None` when the literal is never closed.
   */
  function ReadQuotedBody(t: string): Option<(string, string)>
    decreases |t|
  {
    if t == [] then None
    else if t[0] == '\'' then
      if |t| >= 2 && t[1] == '\'' then
        match ReadQuotedBody(t[2..])
        case Some(p) => Some(("'" + p.0, p.1))
        case None => None
      else Some(("", t[1..]))
    else
      match ReadQuotedBody(t[1..])
      case Some(p) => Some(([t[0]] + p.0, p.1))
      case None => None
  }

  /** A doubled quote in front is read as one quote, and the reader goes on. */
  lemma {:induction false} ReadDoubledQuote(u: string, v: string, rest: string)
    requires ReadQuotedBody(u) == Some((v, rest))
    ensures ReadQuotedBody("''" + u) == Some(("'" + v, rest))
  {
    assert ("''" + u)[2..] == u;
  }

  /** Any other character in front is read as itself, and the reader goes on. */
  lemma {:induction false} ReadPlainChar(c: char, u: string, v: string, rest: string)
    requires c != '\'' && ReadQuotedBody(u) == Some((v, rest))
    ensures ReadQuotedBody([c] + u) == Some(([c] + v, rest))
  {
    assert ([c] + u)[1..] == u;
  }

  /** A reader that starts after the opening quote gets back exactly `s`, and stops at the quote after the doubled text. */
  lemma {:induction false} DoubleQuotesClosed(s: string)
    ensures ReadQuotedBody(DoubleQuotes(s) + "'") == Some((s, []))
  {
    if s == [] {
      assert DoubleQuotes(s) + "'" == "'" && "'"[1..] == [];
    } else {
      DoubleQuotesClosed(s[1..]);
      var u := DoubleQuotes(s[1..]) + "'";
      if s[0] == '\'' {
        ReadDoubledQuote(u, s[1..], []);
        assert DoubleQuotes(s) + "'" == "''" + u;
        assert "'" + s[1..] == s;
      } else {
        ReadPlainChar(s[0], u, s[1..], []);
        assert DoubleQuotes(s) + "'" == [s[0]] + u;
        assert [s[0]] + s[1..] == s;
      }
    }
  }

  /**
   * Undoing the doubling recovers the input: a reader that starts after
   * the opening quote gets back exactly `s`, and stops at the quote that
   * follows the doubled text (unless that quote is itself followed by a
   * quote, which a reader takes for one more doubled quote).
   */
  lemma {:induction false} DoubleQuotesRoundTrip(s: string, rest: string)
    requires rest == [] || rest[0] != '\''
    ensures ReadQuotedBody(DoubleQuotes(s) + "'" + rest) == Some((s, rest))
  {
    DoubleQuotesClosed(s);
    ReadQuotedBodyAppend(DoubleQuotes(s) + "'", rest);
  }

  /** The reader stops at the closing quote: what follows it is left as it is, unless it starts with a quote. */
  lemma {:induction false} ReadQuotedBodyAppend(t: string, rest: string)
    requires ReadQuotedBody(t).Some? && ReadQuotedBody(t).value.1 == []
    requires rest == [] || rest[0] != '\''
    ensures ReadQuotedBody(t + rest) == Some((ReadQuotedBody(t).value.0, rest))
    decreases |t|
  {
    if t[0] == '\'' {
      if |t| >= 2 && t[1] == '\'' {
        ReadQuotedBodyAppend(t[2..], rest);
        assert (t + rest)[2..] == t[2..] + rest;
      } else {
        assert t == "'";
      }
    } else {
      ReadQuotedBodyAppend(t[1..], rest);
      assert (t + rest)[1..] == t[1..] + rest;
    }
  }

  /** `sep.join(parts)`. */
  function Join(parts: seq<string>, sep: string): (r: string)
    ensures parts == [] ==> r == []
    ensures |parts| == 1 ==> r == parts[0]
  {
    if parts == [] then []
    else if |parts| == 1 then parts[0]
    else parts[0] + sep + Join(parts[1..], sep)
  }

  /** `s.split(sep)` for a one-character separator: always at least one piece. */
  function Split(s: string, sep: char): (r: seq<string>)
    ensures |r| >= 1
    ensures forall k, i :: 0 <= k < |r| && 0 <= i < |r[k]| ==> r[k][i] != sep
    decreases |s|
  {
    if s == [] then [[]]
    else
      var tail := Split(s[1..], sep);
      if s[0] == sep then [[]] + tail
      else [[s[0]] + tail[0]] + tail[1..]
  }

  /** Splitting and joining back with the same separator gives the text back. */
  lemma {:induction false} JoinSplit(s: string, sep: char)
    ensures Join(Split(s, sep), [sep]) == s
    decreases |s|
  {
    if s != [] {
      var tail := Split(s[1..], sep);
      JoinSplit(s[1..], sep);
      if s[0] == sep {
        assert Split(s, sep) == [[]] + tail;
        assert Join([[]] + tail, [sep]) == [] + [sep] + Join(tail, [sep]);
        assert [sep] + s[1..] == s;
      } else {
        var r := Split(s, sep);
        assert r == [[s[0]] + tail[0]] + tail[1..];
        if |tail| == 1 {
          assert Join(r, [sep]) == [s[0]] + tail[0];
          assert [s[0]] + s[1..] == s;
        } else {
          assert r[1..] == tail[1..];
          assert Join(tail, [sep]) == tail[0] + [sep] + Join(tail[1..], [sep]);
          assert Join(r, [sep]) == ([s[0]] + tail[0]) + [sep] + Join(tail[1..], [sep]);
          assert [s[0]] + s[1..] == s;
        }
      }
    }
  }

  /** Python's string order: code point by code point, a proper prefix first. */
  predicate LexLess(a: string, b: string)
    decreases |a|
  {
    if a == [] then b != []
    else if b == [] then false
    else if a[0] != b[0] then a[0] < b[0]
    else LexLess(a[1..], b[1..])
  }

  lemma {:induction false} LexLessIrreflexive(a: string)
    ensures !LexLess(a, a)
    decreases |a|
  {
    if a != [] { LexLessIrreflexive(a[1..]); }
  }

  lemma {:induction false} LexLessTotal(a: string, b: string)
    ensures a == b || LexLess(a, b) || LexLess(b, a)
    decreases |a|
  {
    if a != [] && b != [] && a[0] == b[0] {
      LexLessTotal(a[1..], b[1..]);
      if a[1..] == b[1..] { assert a == [a[0]] + a[1..] && b == [b[0]] + b[1..]; }
    }
  }

  lemma {:induction false} LexLessTransitive(a: string, b: string, c: string)
    requires LexLess(a, b) && LexLess(b, c)
    ensures LexLess(a, c)
    decreases |a|
  {
    if a != [] && a[0] == b[0] && b[0] == c[0] {
      LexLessTransitive(a[1..], b[1..], c[1..]);
    }
  }

  /** Strictly increasing in Python's string order, hence free of duplicates. */
  predicate StrictlySorted(s: seq<string>) {
    forall i, j :: 0 <= i < j < |s| ==> LexLess(s[i], s[j])
  }

  /** Inserts `x` into a sorted list unless it is already there. */
  function Insert(x: string, s: seq<string>): (r: seq<string>)
    requires StrictlySorted(s)
    ensures StrictlySorted(r)
    ensures forall y :: y in r <==> y == x || y in s
  {
    if s == [] then [x]
    else if x == s[0] then s
    else if LexLess(x, s[0]) then
      assert forall j :: 0 < j < |s| ==> LexLess(x, s[j]) by {
        forall j | 0 < j < |s| ensures LexLess(x, s[j]) { LexLessTransitive(x, s[0], s[j]); }
      }
      [x] + s
    else
      LexLessTotal(x, s[0]);
      var t := Insert(x, s[1..]);
      assert forall y :: y in s <==> y == s[0] || y in s[1..] by {
        assert s == [s[0]] + s[1..];
      }
      assert forall j :: 0 <= j < |t| ==> LexLess(s[0], t[j]) by {
        forall j | 0 <= j < |t| ensures LexLess(s[0], t[j]) {
          assert t[j] in t;
          if t[j] != x {
            var k :| 1 <= k < |s| && s[k] == t[j];
          }
        }
      }
      [s[0]] + t
  }

  /** `sorted(set(s))`. */
  function SortedDistinct(s: seq<string>): (r: seq<string>)
    ensures StrictlySorted(r)
    ensures forall y :: y in r <==> y in s
  {
    if s == [] then []
    else
      var t := SortedDistinct(s[..|s| - 1]);
      assert forall y :: y in s <==> y in s[..|s| - 1] || y == s[|s| - 1] by {
        assert s == s[..|s| - 1] + [s[|s| - 1]];
      }
      Insert(s[|s| - 1], t)
  }

  /** A strictly sorted list has no repeated element, so its length is the number of distinct values. */
  lemma {:induction false} StrictlySortedDistinct(s: seq<string>)
    requires StrictlySorted(s)
    ensures forall i, j :: 0 <= i < j < |s| ==> s[i] != s[j]
  {
    forall i, j | 0 <= i < j < |s| ensures s[i] != s[j] {
      LexLessIrreflexive(s[i]);
    }
  }
}
