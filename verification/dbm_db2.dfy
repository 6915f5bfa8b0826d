/** `Db2Serializer`: IBM Db2. Names are escaped in double quotes, a
    primary key may not be an auto-generated UUID, the last generated key
    is read with `VALUES IDENTITY_VAL_LOCAL()`, schemas are created and
    dropped by their unescaped name, and stored procedures are supported. */
module Db2Serializers {
  import opened Wrappers
  import opened Strings
  import opened DbData
  import opened Columns
  import opened TableInfos
  import opened SqlWords
  import opened Escapes
  import opened KotlinText
  import RowBuilders
  import Serializers
  import SerializerProperties
  import TableDdl
  import Procedures
  import ProcedureDdl
  import TemplateText

  const AllowAutoUUID: bool := false

  const SelectLastId: Option<string> := Some("VALUES IDENTITY_VAL_LOCAL()")

  const Escaped: string -> string := DoubleQuoted

  /** The primary key's definition: its own type, an identity clause for
      an auto-incremented key, and `NOT NULL` always. */
  function PkDef(t: TableInfo): string
  {
    var pk := t.primaryKey;
    Escaped(pk.Name()) + " " + pk.value.dbType + " PRIMARY KEY"
      + Flag(AutoInc(pk.value.prop), " GENERATED BY DEFAULT AS IDENTITY") + " NOT NULL"
  }

  function CreateTable(t: TableInfo): Query
    requires TableDdl.ForeignTyped(t.foreignKeys)
  {
    TableDdl.CreateTable(Escaped, t, PkDef(t))
  }

  /** Db2's own `insertRow`, written out again with the same text as the
      base serializer's; `batch` plays no part. */
  function InsertRow(t: TableInfo, row: Obj, batch: bool): Query
  {
    var rb := Serializers.InsertRowBuilder(t);
    Query(Serializers.InsertSql(Escaped, t), RowBuilders.QueryValues(rb, row))
  }

  /** The database types of the arguments, in argument order. */
  function ArgTypes(args: seq<Procedures.ProcedureArg>): (ts: seq<string>)
    ensures |ts| == |args|
    ensures forall i :: 0 <= i < |args| ==> ts[i] == args[i].value.dbType
  {
    if args == [] then [] else [args[0].value.dbType] + ArgTypes(args[1..])
  }

  /** `dropProcedure`: Db2 names the procedure by its signature, so the
      argument types follow in parentheses when there are any. */
  function DropProcedure(p: Procedures.Procedure): Query
  {
    var types := Join(ArgTypes(p.args), ", ");
    var args := if p.args != [] then "(" + types + ")" else types;
    Query("DROP PROCEDURE " + Serializers.EscapedProcedure(Escaped, p) + args, [])
  }

  function CreateProcedure(p: Procedures.Procedure, body: string): Query
  {
    ProcedureDdl.CreateProcedure(Escaped, p, body, "END")
  }

  function CallProcedure(p: Procedures.Procedure, obj: Obj): Query
  {
    ProcedureDdl.CallProcedure(Escaped, p, obj)
  }

  /** `createSchema`: the name is not escaped and there is no `IF NOT
      EXISTS`. */
  function CreateSchema(schema: string): Query
  {
    Query("CREATE SCHEMA " + schema, [])
  }

  /** `dropSchema`: always `RESTRICT`, whatever `cascade` asks for. */
  function DropSchema(schema: string, cascade: bool): Query
  {
    Query("DROP SCHEMA " + schema + " RESTRICT", [])
  }

  // Properties.

  /** The primary key's definition reads as its escaped name and type,
      `PRIMARY KEY`, the identity clause exactly for an auto-incremented
      key, and `NOT NULL` last in every case. */
  lemma PkDefWords(t: TableInfo)
    requires Bare(t.primaryKey.Name()) && ' ' !in t.primaryKey.value.dbType
    ensures Words(PkDef(t))
         == [Escaped(t.primaryKey.Name()), t.primaryKey.value.dbType, "PRIMARY", "KEY"]
            + (if AutoInc(t.primaryKey.value.prop) then ["GENERATED", "BY", "DEFAULT", "AS", "IDENTITY"] else [])
            + ["NOT", "NULL"]
  {
    var pk := t.primaryKey;
    EscapedBare(pk.Name());
    PkText(Escaped(pk.Name()), pk.value.dbType, AutoInc(pk.value.prop));
  }

  lemma PkText(name: string, kind: string, identity: bool)
    requires ' ' !in name && ' ' !in kind
    ensures Words(name + " " + kind + " PRIMARY KEY" + Flag(identity, " GENERATED BY DEFAULT AS IDENTITY") + " NOT NULL")
         == [name, kind, "PRIMARY", "KEY"] + (if identity then ["GENERATED", "BY", "DEFAULT", "AS", "IDENTITY"] else []) + ["NOT", "NULL"]
  {
    var p := name + " " + kind + " PRIMARY KEY";
    var ws := [name, kind, "PRIMARY", "KEY"];
    PrimaryKeyText(name, kind);
    IdentityClause(p, ws, identity);
    ThenFlag2(p + Flag(identity, " GENERATED BY DEFAULT AS IDENTITY"),
      ws + (if identity then ["GENERATED", "BY", "DEFAULT", "AS", "IDENTITY"] else []), true, " NOT NULL", "NOT", "NULL");
  }

  lemma IdentityClause(p: string, ws: seq<string>, on: bool)
    requires Words(p) == ws
    ensures Words(p + Flag(on, " GENERATED BY DEFAULT AS IDENTITY"))
         == ws + (if on then ["GENERATED", "BY", "DEFAULT", "AS", "IDENTITY"] else [])
  {
    if on {
      var a, b := " GENERATED BY", " DEFAULT AS IDENTITY";
      var xs, ys := ["GENERATED", "BY"], ["DEFAULT", "AS", "IDENTITY"];
      GeneratedBy(p, ws);
      DefaultAsIdentity(p + a, ws + xs);
      Chain(p, a, b, ws, xs, ys);
      IdentityLiteral();
      assert xs + ys == ["GENERATED", "BY", "DEFAULT", "AS", "IDENTITY"];
    } else {
      assert p + Flag(on, " GENERATED BY DEFAULT AS IDENTITY") == p;
    }
  }

  lemma Chain(p: string, a: string, b: string, ws: seq<string>, xs: seq<string>, ys: seq<string>)
    requires Words(p + a + b) == ws + xs + ys
    ensures Words(p + (a + b)) == ws + (xs + ys)
  {
    assert p + a + b == p + (a + b);
    assert ws + xs + ys == ws + (xs + ys);
  }

  lemma GeneratedBy(p: string, ws: seq<string>)
    requires Words(p) == ws
    ensures Words(p + " GENERATED BY") == ws + ["GENERATED", "BY"]
  {
    ThenFlag2(p, ws, true, " GENERATED BY", "GENERATED", "BY");
  }

  lemma DefaultAsIdentity(p: string, ws: seq<string>)
    requires Words(p) == ws
    ensures Words(p + " DEFAULT AS IDENTITY") == ws + ["DEFAULT", "AS", "IDENTITY"]
  {
    ThenFlag3(p, ws, true, " DEFAULT AS IDENTITY", "DEFAULT", "AS", "IDENTITY");
  }

  lemma IdentityLiteral()
    ensures " GENERATED BY DEFAULT AS IDENTITY" == " GENERATED BY" + " DEFAULT AS IDENTITY"
  {
  }

  /** The insertion is the base serializer's for batches and single rows
      alike, and its placeholders match its values one for one. */
  lemma InsertRowSpec(t: TableInfo, row: Obj, batch: bool)
    requires SerializerProperties.PlainNames(t)
    ensures InsertRow(t, row, batch) == Serializers.InsertRow(Escaped, t, row, batch) == InsertRow(t, row, !batch)
    ensures Count(InsertRow(t, row, batch).sql, '?') == |InsertRow(t, row, batch).values|
  {
    EscapesQuote();
    SerializerProperties.InsertRowMarks(Escaped, t, row, batch);
  }

  /** Without arguments the procedure is dropped by its escaped path
      alone; with arguments the path is followed by a parenthesised list
      that reads back, at its separators, as the argument types in order. */
  lemma DropProcedureSpec(p: Procedures.Procedure)
    requires ' ' !in Serializers.EscapedProcedure(Escaped, p)
    ensures var q := DropProcedure(p);
      q.values == []
      && (p.args == [] ==> Words(q.sql) == ["DROP", "PROCEDURE", Serializers.EscapedProcedure(Escaped, p)])
  {
    if p.args == [] {
      assert ArgTypes(p.args) == [];
      Lead2("DROP PROCEDURE ", "DROP", "PROCEDURE", Serializers.EscapedProcedure(Escaped, p));
      var e := Serializers.EscapedProcedure(Escaped, p);
      assert Join(ArgTypes(p.args), ", ") == "";
      assert DropProcedure(p).sql == "DROP PROCEDURE " + e + "";
      assert "DROP PROCEDURE " + e + "" == "DROP PROCEDURE " + e;
    }
  }

  lemma DropProcedureTypes(p: Procedures.Procedure)
    requires p.args != []
    requires forall i :: 0 <= i < |p.args| ==> ',' !in p.args[i].value.dbType
    ensures var sql := DropProcedure(p).sql;
      var pre := "DROP PROCEDURE " + Serializers.EscapedProcedure(Escaped, p) + "(";
      |pre| < |sql| && sql[..|pre|] == pre && sql[|sql| - 1] == ')'
      && Unjoin(sql[|pre|..|sql| - 1], ", ") == ArgTypes(p.args)
  {
    var pre := "DROP PROCEDURE " + Serializers.EscapedProcedure(Escaped, p) + "(";
    var types := Join(ArgTypes(p.args), ", ");
    assert DropProcedure(p).sql == pre + types + [')'];
    Enclosed(pre, types, ')');
    UnjoinJoin(ArgTypes(p.args), ", ");
  }

  /** The statement for any body: the header with the escaped path and
      the argument definitions, `BEGIN`, the body and `END`. Every line
      loses the least of sixteen and the indentation of the body's further
      lines (`m`); the body's first line sits four spaces deeper than
      `BEGIN`. A one-line body gives exactly four lines, the body indented
      by four spaces. */
  lemma CreateProcedureLines(p: Procedures.Procedure, body: string)
    requires '\n' !in Serializers.EscapedProcedure(Escaped, p) && '\n' !in ProcedureDdl.ArgDefs(Escaped, p)
    ensures var q := CreateProcedure(p, body);
      var header := "CREATE OR REPLACE PROCEDURE " + Serializers.EscapedProcedure(Escaped, p) + "(" + ProcedureDdl.ArgDefs(Escaped, p) + ")";
      var bls := Lines(body);
      var m := TemplateText.FrameCut(16, body);
      q.values == []
      && Lines(q.sql) == [Spaces(16 - m) + header, Spaces(16 - m) + "BEGIN", Spaces(20 - m) + bls[0]] + CutAll(bls[1..], m) + [Spaces(16 - m) + "END"]
      && ('\n' !in body ==> Lines(q.sql) == [header, "BEGIN", "    " + body, "END"])
  {
    var path := Serializers.EscapedProcedure(Escaped, p);
    var args := ProcedureDdl.ArgDefs(Escaped, p);
    assert "END"[0] == 'E' && '\n' !in "END";
    ProcedureDdl.TemplateAnyBody(path, args, body, "END");
    if '\n' !in body {
      ProcedureDdl.TrimmedLines(path, args, body, "END");
    }
  }

  /** A body written as its own block, each text line indented by `n`
      spaces and the closing line by `n`, as the stored-procedure tutorial
      writes its bodies with `n` twelve: below the template's sixteen, the
      block sets the cut, so `16 - n` spaces stay before the header,
      `BEGIN` and `END`, the text lines come out flush left, and blank
      lines stand for the body's opening and closing line breaks. */
  lemma CreateProcedureBlock(p: Procedures.Procedure, n: nat, ts: seq<string>)
    requires '\n' !in Serializers.EscapedProcedure(Escaped, p) && '\n' !in ProcedureDdl.ArgDefs(Escaped, p) && n < 16
    requires |ts| > 0 && forall i :: 0 <= i < |ts| ==> TemplateText.TextLine(ts[i])
    ensures var q := CreateProcedure(p, Join([""] + TemplateText.Indent(n, ts) + [Spaces(n)], "\n"));
      var header := "CREATE OR REPLACE PROCEDURE " + Serializers.EscapedProcedure(Escaped, p) + "(" + ProcedureDdl.ArgDefs(Escaped, p) + ")";
      Lines(q.sql) == [Spaces(16 - n) + header, Spaces(16 - n) + "BEGIN", Spaces(20 - n)] + ts + ["", Spaces(16 - n) + "END"]
  {
    ProcedureDdl.TemplateBlock(Serializers.EscapedProcedure(Escaped, p), ProcedureDdl.ArgDefs(Escaped, p), n, ts, "END");
  }

  /** A call binds one value per argument, read from the argument's
      property, and has one placeholder per value. */
  lemma CallProcedureSpec(p: Procedures.Procedure, obj: Obj)
    requires '?' !in Serializers.EscapedProcedure(Escaped, p)
    ensures var q := CallProcedure(p, obj);
      Count(q.sql, '?') == |q.values| == |p.args|
      && forall i :: 0 <= i < |p.args| ==> q.values[i].name == p.args[i].Name() && q.values[i].value == obj.get(p.args[i].value.prop)
  {
    ProcedureDdl.CallAlignment(Escaped, p, obj);
  }

  /** Both schema statements name the schema unescaped, and dropping
      ignores `cascade`: it always restricts. */
  lemma SchemaSpec(schema: string, cascade: bool)
    requires ' ' !in schema
    ensures Words(CreateSchema(schema).sql) == ["CREATE", "SCHEMA", schema]
    ensures Words(DropSchema(schema, cascade).sql) == ["DROP", "SCHEMA", schema, "RESTRICT"]
    ensures DropSchema(schema, cascade) == DropSchema(schema, !cascade)
  {
    CreateSchemaText(schema);
    DropSchemaText(schema);
  }

  lemma CreateSchemaText(schema: string)
    requires ' ' !in schema
    ensures Words("CREATE SCHEMA " + schema) == ["CREATE", "SCHEMA", schema]
  {
    Lead2("CREATE SCHEMA ", "CREATE", "SCHEMA", schema);
  }

  lemma DropSchemaText(schema: string)
    requires ' ' !in schema
    ensures Words("DROP SCHEMA " + schema + " RESTRICT") == ["DROP", "SCHEMA", schema, "RESTRICT"]
  {
    Lead2("DROP SCHEMA ", "DROP", "SCHEMA", schema);
    ThenLast("DROP SCHEMA " + schema, ["DROP", "SCHEMA", schema], " RESTRICT", "RESTRICT");
  }
}
