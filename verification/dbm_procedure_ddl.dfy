/** The stored-procedure statements Db2 and MariaDB share: the
    `CREATE OR REPLACE PROCEDURE` template, which differs between them only
    in its last line, and the `CALL` statement. A statement receives the
    `Procedure` the mapper found for its class. */
module ProcedureDdl {
  import opened Wrappers
  import opened Strings
  import opened DbData
  import opened Procedures
  import opened Serializers
  import opened SqlWords
  import opened KotlinText
  import TemplateText

  /** `"${escaped(it.name)} ${it.dbType}"` for every argument. */
  function ArgDefList(esc: string -> string, args: seq<ProcedureArg>): (ds: seq<string>)
    ensures |ds| == |args|
    ensures forall i :: 0 <= i < |args| ==> ds[i] == esc(args[i].Name()) + " " + args[i].value.dbType
  {
    if args == [] then [] else [esc(args[0].Name()) + " " + args[0].value.dbType] + ArgDefList(esc, args[1..])
  }

  function ArgDefs(esc: string -> string, p: Procedure): string
  {
    Join(ArgDefList(esc, p.args), ", ")
  }

  /** The first line of the template. */
  function Head(path: string, args: string): string
  {
    "CREATE OR REPLACE PROCEDURE " + path + "(" + args + ")"
  }

  /** The lines of the raw string literal, with the indentation it has in
      the source: it opens with a line break, and its closing quotes sit
      on a line of their own, indented less than the text. */
  function TemplateLines(path: string, args: string, body: string, end: string): seq<string>
  {
    ["", Spaces(16) + Head(path, args), Spaces(16) + "BEGIN", Spaces(20) + body, Spaces(16) + end, Spaces(12)]
  }

  function Template(path: string, args: string, body: string, end: string): string
  {
    Join(TemplateLines(path, args, body, end), "\n")
  }

  /** `createProcedure`; `end` is the template's last line. */
  function CreateProcedure(esc: string -> string, p: Procedure, body: string, end: string): Query
  {
    Query(TrimIndent(Template(EscapedProcedure(esc, p), ArgDefs(esc, p), body, end)), [])
  }

  /** `callProcedure`: one `?` per argument, bound to the argument values
      of `obj` in argument order. */
  function CallProcedure(esc: string -> string, p: Procedure, obj: Obj): Query
  {
    Query("CALL " + EscapedProcedure(esc, p) + "(" + SqlArguments(p, ", ") + ")", QueryValues(p, obj))
  }

  // Evaluating the template.

  /** A template line holds no line break when its parts hold none. */
  lemma TemplateSplits(path: string, args: string, body: string, end: string)
    requires '\n' !in path && '\n' !in args && '\n' !in body && '\n' !in end
    ensures Lines(Template(path, args, body, end)) == TemplateLines(path, args, body, end)
  {
    var ls := TemplateLines(path, args, body, end);
    forall k | 0 <= k < |ls|
      ensures '\n' !in ls[k]
    {
      if k == 1 {
        HeadOneLine(path, args);
      }
    }
    assert "\n" == ['\n'];
    SplitOnJoin(ls, '\n');
  }

  lemma HeadOneLine(path: string, args: string)
    requires '\n' !in path && '\n' !in args
    ensures '\n' !in Head(path, args)
  {
    assert '\n' !in "CREATE OR REPLACE PROCEDURE ";
  }

  lemma HeadStart(path: string, args: string)
    ensures Head(path, args) != [] && !IsWhitespace(Head(path, args)[0])
  {
    assert Head(path, args)[0] == 'C';
  }

  /** The template's least indentation is that of its first text line:
      sixteen spaces, whatever the body. */
  lemma TemplateIndent(path: string, args: string, body: string, end: string)
    requires end != [] && !IsWhitespace(end[0])
    ensures MinIndent(TemplateLines(path, args, body, end)) == Some(16)
  {
    var ls := TemplateLines(path, args, body, end);
    var head := Head(path, args);
    HeadStart(path, args);
    assert "BEGIN"[0] == 'B';
    IndentWidthSpaces(16, head);
    IndentWidthSpaces(16, "BEGIN");
    IndentWidthSpaces(20, body);
    IndentWidthSpaces(16, end);
    SpacesBlank(16, head);
    SpacesBlank(12, "");
    assert Spaces(12) + "" == ls[5];
    forall i | 0 <= i < |ls| && !IsBlank(ls[i])
      ensures 16 <= IndentWidth(ls[i])
    {
    }
    MinIndentIs(ls, 1, 16);
  }

  /** Trimming drops the blank first and last lines and sixteen spaces of
      every other line. */
  lemma TemplateReindent(path: string, args: string, body: string, end: string)
    requires end != [] && !IsWhitespace(end[0])
    ensures Reindent(TemplateLines(path, args, body, end), 16, 0) == [Head(path, args), "BEGIN", Spaces(4) + body, end]
  {
    var ls := TemplateLines(path, args, body, end);
    SpacesBlank(12, "");
    assert Spaces(12) + "" == Spaces(12);
    ReindentSix(ls, 16);
    CutSpaces(16, 16, Head(path, args));
    CutSpaces(16, 16, "BEGIN");
    CutSpaces(20, 16, body);
    CutSpaces(16, 16, end);
    assert Spaces(0) + Head(path, args) == Head(path, args);
    assert Spaces(0) + "BEGIN" == "BEGIN";
    assert Spaces(0) + end == end;
  }

  /** A one-line body comes out as four lines: the header with the
      escaped path and the argument list, `BEGIN`, the body indented by
      four spaces, and the closing line. */
  lemma TemplateTrimmed(path: string, args: string, body: string, end: string)
    requires '\n' !in path && '\n' !in args && '\n' !in body && '\n' !in end
    requires end != [] && !IsWhitespace(end[0])
    ensures TrimIndent(Template(path, args, body, end)) == Join([Head(path, args), "BEGIN", "    " + body, end], "\n")
  {
    TemplateSplits(path, args, body, end);
    TemplateIndent(path, args, body, end);
    TemplateReindent(path, args, body, end);
    assert Spaces(4) == "    ";
  }

  /** The trimmed template has exactly those four lines. */
  lemma TrimmedLines(path: string, args: string, body: string, end: string)
    requires '\n' !in path && '\n' !in args && '\n' !in body && '\n' !in end
    requires end != [] && !IsWhitespace(end[0])
    ensures Lines(TrimIndent(Template(path, args, body, end))) == [Head(path, args), "BEGIN", "    " + body, end]
  {
    var ls := [Head(path, args), "BEGIN", "    " + body, end];
    TemplateTrimmed(path, args, body, end);
    HeadOneLine(path, args);
    assert '\n' !in ls[2];
    assert "\n" == ['\n'];
    SplitOnJoin(ls, '\n');
  }

  /** Whatever the body, several lines included: the template is the
      frame of sixteen spaces around the header, `BEGIN` and the closing
      line, so trimming keeps the header, `BEGIN` and the closing line
      indented by `16 - m`, the body's first line by `20 - m`, and cuts
      `m` characters off each further body line, where `m` is the least
      of sixteen and the indentation of the body's further lines. */
  lemma TemplateAnyBody(path: string, args: string, body: string, end: string)
    requires '\n' !in path && '\n' !in args && TemplateText.TextLine(end)
    ensures Lines(TrimIndent(Template(path, args, body, end))) == TemplateText.TrimmedFrame(16, Head(path, args), "BEGIN", body, end)
  {
    assert TemplateLines(path, args, body, end) == TemplateText.Frame(16, Head(path, args), "BEGIN", body, end);
    HeadOneLine(path, args);
    HeadStart(path, args);
    assert "BEGIN"[0] == 'B' && '\n' !in "BEGIN";
    TemplateText.TrimFrame(16, Head(path, args), "BEGIN", body, end);
  }

  /** A body block indented by `n` spaces, fewer than the template's
      sixteen, sets the cut: `16 - n` spaces stay before the header,
      `BEGIN` and the closing line, and the block's text lines come out
      flush left. */
  lemma TemplateBlock(path: string, args: string, n: nat, ts: seq<string>, end: string)
    requires '\n' !in path && '\n' !in args && TemplateText.TextLine(end) && n < 16
    requires |ts| > 0 && forall i :: 0 <= i < |ts| ==> TemplateText.TextLine(ts[i])
    ensures var body := Join([""] + TemplateText.Indent(n, ts) + [Spaces(n)], "\n");
      Lines(TrimIndent(Template(path, args, body, end))) == [Spaces(16 - n) + Head(path, args), Spaces(16 - n) + "BEGIN", Spaces(20 - n)] + ts + ["", Spaces(16 - n) + end]
  {
    var body := Join([""] + TemplateText.Indent(n, ts) + [Spaces(n)], "\n");
    TemplateAnyBody(path, args, body, end);
    HeadOneLine(path, args);
    HeadStart(path, args);
    assert "BEGIN"[0] == 'B' && '\n' !in "BEGIN";
    TemplateText.BlockBody(16, n, Head(path, args), "BEGIN", ts, end);
  }

  // Calling a procedure.

  /** A call has one `?` per bound value and one bound value per argument,
      each read from the argument's property. */
  lemma CallAlignment(esc: string -> string, p: Procedure, obj: Obj)
    requires '?' !in EscapedProcedure(esc, p)
    ensures var q := CallProcedure(esc, p, obj);
      Count(q.sql, '?') == |q.values| == |p.args|
      && forall i :: 0 <= i < |p.args| ==> q.values[i].name == p.args[i].Name() && q.values[i].value == obj.get(p.args[i].value.prop)
  {
    var pre := "CALL " + EscapedProcedure(esc, p) + "(";
    CountAbsent(pre, '?');
    CountConcat(pre, SqlArguments(p, ", "), '?');
    CountConcat(pre + SqlArguments(p, ", "), ")", '?');
  }

  /** The argument list reads back, at its separators, as one
      `name type` definition per argument. */
  lemma ArgDefsReadBack(esc: string -> string, p: Procedure)
    requires p.args != []
    requires forall i :: 0 <= i < |p.args| ==> ',' !in esc(p.args[i].Name()) && ',' !in p.args[i].value.dbType
    ensures Unjoin(ArgDefs(esc, p), ", ") == ArgDefList(esc, p.args)
    ensures |Unjoin(ArgDefs(esc, p), ", ")| == |p.args|
  {
    UnjoinJoin(ArgDefList(esc, p.args), ", ");
  }
}
