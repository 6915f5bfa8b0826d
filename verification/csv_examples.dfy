/** What `split` returns on a few typical lines, derived from the field
    description. */
module CsvExamples {
  import opened Wrappers
  import opened Strings
  import opened CsvLineSplitter
  import opened CsvFields
  import opened CsvSplitterCorrect
  import opened CsvProperties

  /** A bare comma separates two empty fields. */
  lemma OneComma()
    ensures SplitLine(",") == Success(["", ""])
  {
    var line := ",";
    SplitMatchesFields(Splitter([], 0, 0), line);
    Unbroken(line);
    assert line[1..] == "";
    assert Fields(line) == Cons("", Fields(""));
    assert [""] + [""] == ["", ""];
  }

  /** Two commas separate three empty fields. */
  lemma TwoCommas()
    ensures SplitLine(",,") == Success(["", "", ""])
  {
    var line := ",,";
    SplitMatchesFields(Splitter([], 0, 0), line);
    Unbroken(line);
    assert line[1..] == ",";
    assert ","[1..] == "";
    assert Fields(",") == Success(["", ""]) by {
      assert Fields(",") == Cons("", Fields(""));
      assert [""] + [""] == ["", ""];
    }
    assert [""] + ["", ""] == ["", "", ""];
  }

  /** `Fields` of an unquoted field with nothing after it. */
  lemma LastPlainField(x: string)
    requires x != [] && x[0] != '"' && ',' !in x
    ensures Fields(x) == Success([x])
  {
    IndexOfAbsentIs(x, ',');
  }

  lemma IndexOfAbsentIs(x: string, c: char)
    requires c !in x
    ensures IndexOf(x, c) == |x|
  {
    assert forall k :: 0 <= k < |x| ==> x[k] != c;
  }

  /** `Fields` of an unquoted field followed by a comma and more. */
  lemma PlainFieldThen(x: string, rest: string)
    requires x != [] && x[0] != '"' && x[0] != ',' && ',' !in x
    ensures Fields(x + "," + rest) == Cons(x, Fields(rest))
  {
    var s := x + "," + rest;
    IndexOfPrefix(x, rest, ',');
    assert s[..|x|] == x && s[|x| + 1..] == rest;
    assert s[0] == x[0];
  }

  lemma Unbroken(line: string)
    requires '\r' !in line && '\n' !in line
    ensures Content(line) == line
  {
    assert NoBreaks(line);
    ContentOfUnbroken(line);
  }

  /** A field that is written as is: not empty, not opened by a quote, and
      holding no comma or line break. */
  predicate PlainField(x: string)
  {
    x != [] && x[0] != '"' && ',' !in x && '\r' !in x && '\n' !in x
  }

  lemma TwoPlainFields(a: string, b: string)
    requires PlainField(a) && PlainField(b)
    ensures SplitLine(a + "," + b) == Success([a, b])
  {
    var line := a + "," + b;
    SplitMatchesFields(Splitter([], 0, 0), line);
    Unbroken(line);
    PlainFieldThen(a, b);
    LastPlainField(b);
    assert [a] + [b] == [a, b];
  }

  lemma QuotedThenPlain(t: string, b: string)
    requires '\r' !in t && '\n' !in t && PlainField(b)
    ensures SplitLine(Quote(t) + "," + b) == Success([t, b])
  {
    var line := Quote(t) + "," + b;
    SplitMatchesFields(Splitter([], 0, 0), line);
    DoubleQuotesNoBreaks(t);
    Unbroken(line);
    assert line == Quote(t) + ("," + b);
    FieldsQuote(t, "," + b);
    assert ("," + b)[1..] == b;
    LastPlainField(b);
    assert [t] + [b] == [t, b];
  }

  lemma TwoWords()
    ensures SplitLine("hello,world") == Success(["hello", "world"])
  {
    TwoPlainFields("hello", "world");
    assert "hello" + "," + "world" == "hello,world";
  }

  /** A comma inside quotes, after an odd number of quotes, does not end
      the field. */
  lemma QuotedComma()
    ensures SplitLine("\"a,b\",c") == Success(["a,b", "c"])
  {
    QuotedThenPlain("a,b", "c");
    assert DoubleQuotes("a,b") == "a,b" by {
      assert DoubleQuotes("b") == "b";
      assert DoubleQuotes(",b") == ",b";
    }
    assert Quote("a,b") + "," + "c" == "\"a,b\",c";
  }

  /** A doubled quote inside a quoted field stands for one quote. */
  lemma EscapedQuote()
    ensures SplitLine("\"a\"\"b\",c") == Success(["a\"b", "c"])
  {
    QuotedThenPlain("a\"b", "c");
    assert DoubleQuotes("a\"b") == "a\"\"b" by {
      assert DoubleQuotes("b") == "b";
      assert DoubleQuotes("\"b") == "\"\"b";
    }
    assert Quote("a\"b") + "," + "c" == "\"a\"\"b\",c";
  }

  /** The line terminator is not part of the last field. */
  lemma TrailingLineBreak()
    ensures SplitLine("a,b\r\n") == Success(["a", "b"])
  {
    var line := "a,b\r\n";
    SplitMatchesFields(Splitter([], 0, 0), line);
    assert BreakFrom(line, 3) == 3;
    assert BreakFrom(line, 0) == 3;
    assert Content(line) == "a,b";
    assert "a,b" == "a" + "," + "b";
    PlainFieldThen("a", "b");
    LastPlainField("b");
    assert ["a"] + ["b"] == ["a", "b"];
  }

  /** A line holding only a terminator is one empty field. */
  lemma OnlyLineBreak()
    ensures SplitLine("\r\n") == Success([""])
  {
    var line := "\r\n";
    SplitMatchesFields(Splitter([], 0, 0), line);
    assert BreakFrom(line, 0) == 0;
    assert Content(line) == "";
  }

  /** An unterminated quoted field loses its last character. */
  lemma UnterminatedQuote()
    ensures SplitLine("\"ab") == Success(["a"])
  {
    var line := "\"ab";
    SplitMatchesFields(Splitter([], 0, 0), line);
    Unbroken(line);
    assert QuotedEnd(line, 1, 1) == 3;
    assert line[1..2] == "a";
    assert CollapseQuotes("a") == "a" by {
      assert CollapseFrom("a", 1) == "";
    }
  }

  /** A lone quote as the whole line, or as the last field, makes the
      substring call throw. */
  lemma LoneQuoteLines()
    ensures SplitLine("\"").Failure?
    ensures SplitLine("a,\"").Failure?
  {
    SplitMatchesFields(Splitter([], 0, 0), "\"");
    Unbroken("\"");
    SplitMatchesFields(Splitter([], 0, 0), "a,\"");
    Unbroken("a,\"");
    LoneQuoteFails("a,");
    assert "a," + "\"" == "a,\"";
  }
}
