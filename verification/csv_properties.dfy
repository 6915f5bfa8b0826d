/** Consequences of `CsvSplitterCorrect.SplitMatchesFields`: what `split`
    promises about every line, and what it returns on some typical ones. */
module CsvProperties {
  import opened Wrappers
  import opened Strings
  import opened CsvLineSplitter
  import opened CsvFields
  import opened CsvSplitterCorrect

  /* ---------- calls are independent ---------- */

  /** `reset` clears the tokens and the cursor, and the `startChar` it keeps
      is overwritten before it is read: the splitter's earlier calls do not
      matter. */
  lemma SplitIgnoresPriorState(sp1: Splitter, sp2: Splitter, line: string)
    ensures Split(sp1, line) == Split(sp2, line)
  {
    SplitMatchesFields(sp1, line);
    SplitMatchesFields(sp2, line);
  }

  /* ---------- how many tokens ---------- */

  lemma FieldsNotEmpty(s: string)
    ensures Fields(s).Success? ==> |Fields(s).value| >= 1
  {
  }

  /** The empty line gives no tokens; any other line gives at least one,
      because the last field is appended when the line end is reached. */
  lemma SplitTokenCount(sp: Splitter, line: string)
    ensures |line| == 0 ==> Split(sp, line) == Success([])
    ensures |line| > 0 && Split(sp, line).Success? ==> |Split(sp, line).value| >= 1
  {
    SplitMatchesFields(sp, line);
    if |line| > 0 {
      FieldsNotEmpty(Content(line));
    }
  }

  /* ---------- only the content is read ---------- */

  /** Two non-empty lines that agree before their first CR or LF split alike. */
  lemma SplitReadsContentOnly(sp: Splitter, line1: string, line2: string)
    requires |line1| > 0 && |line2| > 0 && Content(line1) == Content(line2)
    ensures Split(sp, line1) == Split(sp, line2)
  {
    SplitMatchesFields(sp, line1);
    SplitMatchesFields(sp, line2);
  }

  lemma {:induction false} CollapseFromChars(s: string, i: nat)
    requires i <= |s|
    ensures forall ch :: ch in CollapseFrom(s, i) ==> ch in s
    decreases |s| - i
  {
    if i < |s| {
      if i + 1 < |s| && s[i] == '"' && s[i + 1] == '"' {
        CollapseFromChars(s, i + 2);
      } else {
        CollapseFromChars(s, i + 1);
      }
    }
  }

  /** Every character of every string of `v` occurs in `s`. */
  predicate CharsFrom(v: seq<string>, s: string)
  {
    forall k, ch :: 0 <= k < |v| && ch in v[k] ==> ch in s
  }

  lemma InSuffix(s: string, i: nat, ch: char)
    requires i <= |s| && ch in s[i..]
    ensures ch in s
  {
    var n :| 0 <= n < |s[i..]| && s[i..][n] == ch;
    assert s[i + n] == ch;
  }

  lemma ConsChars(token: string, rest: Result<seq<string>, SplitError>, s: string, i: nat)
    requires i <= |s|
    requires forall ch :: ch in token ==> ch in s
    requires rest.Success? ==> CharsFrom(rest.value, s[i..])
    ensures Cons(token, rest).Success? ==> CharsFrom(Cons(token, rest).value, s)
  {
    if rest.Success? {
      var v := [token] + rest.value;
      forall k, ch | 0 <= k < |v| && ch in v[k]
        ensures ch in s
      {
        if k > 0 {
          assert v[k] == rest.value[k - 1];
          InSuffix(s, i, ch);
        }
      }
    }
  }

  lemma SliceChars(s: string, i: nat, j: nat)
    requires i <= j <= |s|
    ensures forall ch :: ch in s[i..j] ==> ch in s
  {
    forall ch | ch in s[i..j]
      ensures ch in s
    {
      var n :| 0 <= n < j - i && s[i..j][n] == ch;
      assert s[i + n] == ch;
    }
  }

  /** Every character of every field occurs in the text it was split from. */
  lemma {:induction false} FieldsChars(s: string)
    ensures Fields(s).Success? ==> CharsFrom(Fields(s).value, s)
    decreases |s|
  {
    if s != [] {
      if s[0] == ',' {
        FieldsChars(s[1..]);
        ConsChars("", Fields(s[1..]), s, 1);
      } else if s[0] == '"' {
        var j := QuotedEnd(s, 1, 1);
        if j >= 2 {
          var token := CollapseQuotes(s[1..j - 1]);
          CollapseFromChars(s[1..j - 1], 0);
          SliceChars(s, 1, j - 1);
          if j < |s| {
            FieldsChars(s[j + 1..]);
            ConsChars(token, Fields(s[j + 1..]), s, j + 1);
          }
        }
      } else {
        var j := IndexOf(s, ',');
        SliceChars(s, 0, j);
        assert s[..j] == s[0..j];
        if j < |s| {
          FieldsChars(s[j + 1..]);
          ConsChars(s[..j], Fields(s[j + 1..]), s, j + 1);
        }
      }
    }
  }

  /** No token holds a CR or LF. */
  lemma TokensHaveNoBreaks(sp: Splitter, line: string)
    ensures Split(sp, line).Success? ==>
      forall k, ch :: 0 <= k < |Split(sp, line).value| && ch in Split(sp, line).value[k] ==> !IsBreak(ch)
  {
    SplitMatchesFields(sp, line);
    var c := Content(line);
    FieldsChars(c);
    forall ch | ch in c
      ensures !IsBreak(ch)
    {
      var n :| 0 <= n < |c| && c[n] == ch;
    }
  }

  /** A line without CR or LF is all content. */
  lemma ContentOfUnbroken(line: string)
    requires NoBreaks(line)
    ensures Content(line) == line
  {
    NoBreakFrom(line, 0);
    assert line[..|line|] == line;
  }

  lemma {:induction false} NoBreakFrom(line: string, i: nat)
    requires i <= |line| && NoBreaks(line)
    ensures BreakFrom(line, i) == |line|
    decreases |line| - i
  {
    if i < |line| {
      NoBreakFrom(line, i + 1);
    }
  }

  /* ---------- lines without quotes ---------- */

  /** Without quotes, the fields are the pieces between commas. */
  lemma {:induction false} FieldsUnquoted(s: string)
    requires '"' !in s
    ensures Fields(s) == Success(SplitOn(s, ','))
    decreases |s|
  {
    if s != [] {
      var j := IndexOf(s, ',');
      assert s[0] != '"';
      if j < |s| {
        FieldsUnquoted(s[j + 1..]);
        if j == 0 {
          assert s[..0] == "" && s[1..] == s[j + 1..];
        }
      }
    }
  }

  /** A line without quotes or line breaks splits into the pieces between
      its commas: none holds a comma, there is one more than there are
      commas, and joining them with commas gives the line back. */
  lemma UnquotedLine(sp: Splitter, line: string)
    requires |line| > 0 && '"' !in line && '\r' !in line && '\n' !in line
    ensures Split(sp, line) == Success(SplitOn(line, ','))
    ensures |SplitOn(line, ',')| == Count(line, ',') + 1
    ensures forall k :: 0 <= k < |SplitOn(line, ',')| ==> ',' !in SplitOn(line, ',')[k]
    ensures Join(SplitOn(line, ','), ",") == line
  {
    SplitMatchesFields(sp, line);
    ContentOfUnbroken(line);
    FieldsUnquoted(line);
    JoinSplitOn(line, ',');
  }

  /** Joining fields that hold no comma, quote or line break, and are not a
      single empty one, gives a line that splits back into them. */
  lemma UnquotedRoundTrip(xs: seq<string>)
    requires |xs| > 0 && Join(xs, ",") != ""
    requires forall k :: 0 <= k < |xs| ==> ',' !in xs[k] && '"' !in xs[k] && '\r' !in xs[k] && '\n' !in xs[k]
    ensures SplitLine(Join(xs, ",")) == Success(xs)
  {
    var line := Join(xs, ",");
    JoinChars(xs, ",", '"');
    JoinChars(xs, ",", '\r');
    JoinChars(xs, ",", '\n');
    UnquotedLine(Splitter([], 0, 0), line);
    SplitOnJoin(xs, ',');
  }

  /** A character in neither the separator nor any part is not in the join. */
  lemma {:induction false} JoinChars(xs: seq<string>, sep: string, c: char)
    requires c !in sep
    requires forall k :: 0 <= k < |xs| ==> c !in xs[k]
    ensures c !in Join(xs, sep)
  {
    if |xs| > 1 {
      JoinChars(xs[1..], sep, c);
      assert xs[0] + sep + Join(xs[1..], sep) == Join(xs, sep);
    }
  }

  /* ---------- quoting round trip ---------- */

  /** A field written with quotes around it and its quotes doubled. */
  function Quote(t: string): (r: string)
    ensures |r| >= 2 && r[0] == '"' && r[|r| - 1] == '"'
  {
    "\"" + DoubleQuotes(t) + "\""
  }

  /** Every field quoted, joined with commas: RFC 4180 style output. */
  function Encode(xs: seq<string>): string
  {
    if xs == [] then ""
    else if |xs| == 1 then Quote(xs[0])
    else Quote(xs[0]) + "," + Encode(xs[1..])
  }

  lemma {:induction false} DoubleQuotesCount(t: string)
    ensures Count(DoubleQuotes(t), '"') == 2 * Count(t, '"')
  {
    if t != [] {
      DoubleQuotesCount(t[1..]);
      if t[0] == '"' {
        CountConcat("\"\"", DoubleQuotes(t[1..]), '"');
      } else {
        CountConcat([t[0]], DoubleQuotes(t[1..]), '"');
      }
    }
  }

  /** Inside a quoted field the quote count stays odd across a doubled
      text, so no comma in it ends the field. */
  lemma {:induction false} QuotedEndDoubled(p: string, t: string, r: string, q: nat)
    requires q % 2 == 1
    ensures
      var s := p + DoubleQuotes(t) + r;
      QuotedEnd(s, |p|, q) == QuotedEnd(s, |p| + |DoubleQuotes(t)|, q + 2 * Count(t, '"'))
    decreases |t|
  {
    var s := p + DoubleQuotes(t) + r;
    if t == [] {
      assert DoubleQuotes(t) == "";
    } else if t[0] == '"' {
      var p' := p + "\"\"";
      assert s == p' + DoubleQuotes(t[1..]) + r;
      assert s[|p|] == '"' && s[|p| + 1] == '"';
      QuotedEndDoubled(p', t[1..], r, q + 2);
    } else {
      var p' := p + [t[0]];
      assert s == p' + DoubleQuotes(t[1..]) + r;
      assert s[|p|] == t[0];
      QuotedEndDoubled(p', t[1..], r, q);
    }
  }

  /** A quoted field followed by `r` (nothing, or a comma and more) ends
      right after its closing quote. */
  lemma QuotedEndOfQuote(t: string, r: string)
    requires r == [] || r[0] == ','
    ensures QuotedEnd(Quote(t) + r, 1, 1) == |Quote(t)|
  {
    var d := DoubleQuotes(t);
    var s := Quote(t) + r;
    assert s == "\"" + d + ("\"" + r);
    QuotedEndDoubled("\"", t, "\"" + r, 1);
    var c := Count(t, '"');
    assert s[1 + |d|] == '"';
    assert QuotedEnd(s, 1 + |d|, 1 + 2 * c) == QuotedEnd(s, 2 + |d|, 2 + 2 * c);
  }

  /** The quoted field at the front of `Quote(t) + r`. */
  lemma FieldsQuote(t: string, r: string)
    requires r == [] || r[0] == ','
    ensures Fields(Quote(t) + r) ==
      if r == [] then Success([t]) else Cons(t, Fields(r[1..]))
  {
    var s := Quote(t) + r;
    var n := |Quote(t)|;
    QuotedEndOfQuote(t, r);
    assert s[0] == '"';
    assert s[1..n - 1] == DoubleQuotes(t);
    CollapseDoubleQuotes(t);
    if r != [] {
      assert s[n + 1..] == r[1..];
    }
  }

  /** Fields that are quoted and joined split back into the fields. */
  lemma {:induction false} FieldsEncode(xs: seq<string>)
    requires |xs| > 0
    ensures Fields(Encode(xs)) == Success(xs)
  {
    if |xs| == 1 {
      assert Encode(xs) == Quote(xs[0]) + "";
      FieldsQuote(xs[0], "");
      assert xs == [xs[0]];
    } else {
      var r := "," + Encode(xs[1..]);
      assert Encode(xs) == Quote(xs[0]) + r;
      FieldsQuote(xs[0], r);
      assert r[1..] == Encode(xs[1..]);
      FieldsEncode(xs[1..]);
      assert [xs[0]] + xs[1..] == xs;
    }
  }

  predicate NoBreaks(s: string)
  {
    forall i :: 0 <= i < |s| ==> !IsBreak(s[i])
  }

  lemma {:induction false} DoubleQuotesNoBreaks(t: string)
    requires NoBreaks(t)
    ensures NoBreaks(DoubleQuotes(t))
  {
    if t != [] {
      DoubleQuotesNoBreaks(t[1..]);
    }
  }

  lemma {:induction false} EncodeNoBreaks(xs: seq<string>)
    requires forall k :: 0 <= k < |xs| ==> NoBreaks(xs[k])
    ensures NoBreaks(Encode(xs))
  {
    if xs != [] {
      DoubleQuotesNoBreaks(xs[0]);
      if |xs| > 1 {
        EncodeNoBreaks(xs[1..]);
      }
    }
  }

  /** Any list of fields without line breaks survives quoting, joining and
      splitting: the empty list as the empty line, the others field by field. */
  lemma EncodeRoundTrip(xs: seq<string>)
    requires forall k :: 0 <= k < |xs| ==> NoBreaks(xs[k])
    ensures SplitLine(Encode(xs)) == Success(xs)
  {
    var line := Encode(xs);
    SplitMatchesFields(Splitter([], 0, 0), line);
    if xs != [] {
      EncodeNoBreaks(xs);
      ContentOfUnbroken(line);
      FieldsEncode(xs);
    }
  }

  /* ---------- quoting only where needed ---------- */

  /** A field written back the way the splitter's design describes: quoted
      when it holds a comma or a quote, verbatim otherwise. */
  function Escape(t: string): string
  {
    if ',' in t || '"' in t then Quote(t) else t
  }

  function EscapeAll(xs: seq<string>): (ys: seq<string>)
    ensures |ys| == |xs|
    ensures forall k {:trigger ys[k]} :: 0 <= k < |xs| ==> ys[k] == Escape(xs[k])
  {
    seq(|xs|, k requires 0 <= k < |xs| => Escape(xs[k]))
  }

  /** An unquoted field at the front of `u + r`. */
  lemma FieldsPlain(u: string, r: string)
    requires ',' !in u && '"' !in u
    requires r == [] || r[0] == ','
    ensures Fields(u + r) == if r == [] then Success([u]) else Cons(u, Fields(r[1..]))
  {
    var s := u + r;
    if u == [] {
      assert s == r;
    } else if r == [] {
      assert s == u;
      assert IndexOf(s, ',') == |s|;
    } else {
      assert r == [','] + r[1..];
      assert s == u + [','] + r[1..];
      IndexOfPrefix(u, r[1..], ',');
      assert s[..|u|] == u && s[|u| + 1..] == r[1..];
    }
  }

  /** An escaped field at the front of `Escape(t) + r`. */
  lemma FieldsEscape(t: string, r: string)
    requires r == [] || r[0] == ','
    ensures Fields(Escape(t) + r) == if r == [] then Success([t]) else Cons(t, Fields(r[1..]))
  {
    if ',' in t || '"' in t {
      FieldsQuote(t, r);
    } else {
      FieldsPlain(t, r);
    }
  }

  /** Escaped fields joined with commas read back as the fields. */
  lemma {:induction false} FieldsEscaped(xs: seq<string>)
    requires |xs| > 0
    ensures Fields(Join(EscapeAll(xs), ",")) == Success(xs)
  {
    var ys := EscapeAll(xs);
    if |xs| == 1 {
      assert Join(ys, ",") == Escape(xs[0]) + "";
      FieldsEscape(xs[0], "");
      assert xs == [xs[0]];
    } else {
      assert ys[1..] == EscapeAll(xs[1..]);
      var r := "," + Join(EscapeAll(xs[1..]), ",");
      assert Join(ys, ",") == Escape(xs[0]) + r;
      FieldsEscape(xs[0], r);
      assert r[1..] == Join(EscapeAll(xs[1..]), ",");
      FieldsEscaped(xs[1..]);
      assert [xs[0]] + xs[1..] == xs;
    }
  }

  lemma EscapeNoBreaks(t: string)
    requires NoBreaks(t)
    ensures '\r' !in Escape(t) && '\n' !in Escape(t)
  {
    if ',' in t || '"' in t {
      DoubleQuotesNoBreaks(t);
      assert Quote(t) == "\"" + DoubleQuotes(t) + "\"";
    }
  }

  /** The splitter's tokens, escaped only where they hold a comma or a quote
      and joined with commas, split back into the same tokens, for every
      list of break-free fields but the single empty field. */
  lemma EscapeRoundTrip(xs: seq<string>)
    requires xs != [""]
    requires forall k :: 0 <= k < |xs| ==> NoBreaks(xs[k])
    ensures SplitLine(Join(EscapeAll(xs), ",")) == Success(xs)
  {
    var ys := EscapeAll(xs);
    var line := Join(ys, ",");
    SplitMatchesFields(Splitter([], 0, 0), line);
    if xs != [] {
      forall k | 0 <= k < |ys| ensures '\r' !in ys[k] && '\n' !in ys[k] {
        EscapeNoBreaks(xs[k]);
      }
      NotInJoin(ys, ",", '\r');
      NotInJoin(ys, ",", '\n');
      if |xs| == 1 {
        assert line == Escape(xs[0]) && xs[0] != "";
      } else {
        assert line == ys[0] + "," + Join(ys[1..], ",");
      }
      ContentOfUnbroken(line);
      FieldsEscaped(xs);
    }
  }

  /** The one exception: a single empty field, which the splitter returns
      for a line holding only a line break, escapes to the empty line, and
      that splits into no tokens at all. */
  lemma EscapeEmptyField()
    ensures Join(EscapeAll([""]), ",") == ""
    ensures SplitLine(Join(EscapeAll([""]), ",")) == Success([])
  {
    assert EscapeAll([""])[0] == "";
    SplitMatchesFields(Splitter([], 0, 0), "");
  }

  /* ---------- the one failure ---------- */

  /** The splitter only fails on a content that ends with a quote. */
  lemma {:induction false} FieldsFailure(s: string)
    ensures Fields(s).Failure? ==> |s| > 0 && s[|s| - 1] == '"'
    decreases |s|
  {
    if s != [] {
      if s[0] == ',' {
        FieldsFailure(s[1..]);
      } else if s[0] == '"' {
        var j := QuotedEnd(s, 1, 1);
        if j < 2 {
          assert |s| == 1;
        } else if j < |s| {
          FieldsFailure(s[j + 1..]);
        }
      } else {
        var j := IndexOf(s, ',');
        if j < |s| {
          FieldsFailure(s[j + 1..]);
        }
      }
    }
  }

  /** ... and it does fail when the last field is a lone quote after a
      prefix without quotes. */
  lemma {:induction false} LoneQuoteFails(p: string)
    requires '"' !in p && (p == [] || p[|p| - 1] == ',')
    ensures Fields(p + "\"").Failure?
    decreases |p|
  {
    var s := p + "\"";
    if p == [] {
      assert s == "\"";
      LoneQuoteAlone();
    } else if p[0] == ',' {
      assert s[0] == ',' && s[1..] == p[1..] + "\"";
      LoneQuoteFails(p[1..]);
      assert Fields(s) == Cons("", Fields(s[1..]));
    } else {
      var j := IndexOf(p, ',');
      assert p[|p| - 1] == ',';
      assert j < |p|;
      IndexOfExtend(p, "\"", ',');
      assert s[0] == p[0];
      PlainFieldOf(s, j);
      assert s[j + 1..] == p[j + 1..] + "\"";
      LoneQuoteFails(p[j + 1..]);
    }
  }

  /** A line that is nothing but a quote fails. */
  lemma LoneQuoteAlone()
    ensures Fields("\"").Failure?
  {
    assert QuotedEnd("\"", 1, 1) < 2;
  }

  /** It also fails when the fields before the lone quote are quoted ones,
      whatever they hold: `"x","` and `"a,b","` both throw. */
  lemma {:induction false} EncodedLoneQuoteFails(xs: seq<string>)
    requires |xs| > 0
    ensures Fields(Encode(xs) + ",\"").Failure?
  {
    if |xs| == 1 {
      assert Encode(xs) + ",\"" == Quote(xs[0]) + "," + "\"";
      LoneQuoteAlone();
      QuotedThenFailure(xs[0], "\"");
    } else {
      var rest := Encode(xs[1..]) + ",\"";
      assert Encode(xs) + ",\"" == Quote(xs[0]) + "," + rest;
      EncodedLoneQuoteFails(xs[1..]);
      QuotedThenFailure(xs[0], rest);
    }
  }

  /** A quoted field in front of a failing rest fails too. */
  lemma QuotedThenFailure(t: string, rest: string)
    requires Fields(rest).Failure?
    ensures Fields(Quote(t) + "," + rest).Failure?
  {
    var r := "," + rest;
    assert Quote(t) + "," + rest == Quote(t) + r;
    FieldsQuote(t, r);
    assert r[1..] == rest;
  }

  lemma {:induction false} IndexOfExtend(p: string, r: string, c: char)
    requires IndexOf(p, c) < |p|
    ensures IndexOf(p + r, c) == IndexOf(p, c)
  {
    if p[0] != c {
      assert (p + r)[1..] == p[1..] + r;
      IndexOfExtend(p[1..], r, c);
    }
  }

  /** The whole line's verdict: a line fails only when its content ends with
      a quote. The converse holds for a lone quote as the last field
      (`LoneQuoteFails`, `EncodedLoneQuoteFails`), not for every final quote. */
  lemma SplitFailure(sp: Splitter, line: string)
    ensures Split(sp, line).Failure? ==> |Content(line)| > 0 && Content(line)[|Content(line)| - 1] == '"'
  {
    SplitMatchesFields(sp, line);
    FieldsFailure(Content(line));
  }
}
