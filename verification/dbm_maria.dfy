/** `MariaSerializer`: MariaDB. Names are escaped in backticks, the last
    generated key is read with `SELECT LAST_INSERT_ID()`, an
    auto-incremented key is declared `AUTO_INCREMENT`, and stored procedures
    end with `END;`. Schemas, insertion and the other statements are the
    base serializer's. */
module MariaSerializers {
  import opened Wrappers
  import opened Strings
  import opened DbData
  import opened Columns
  import opened TableInfos
  import opened SqlWords
  import opened Escapes
  import opened KotlinText
  import Serializers
  import TableDdl
  import Procedures
  import ProcedureDdl
  import TemplateText

  const SelectLastId: Option<string> := Some("SELECT LAST_INSERT_ID()")

  const Escaped: string -> string := Backticked

  /** The primary key's definition: its own type and `AUTO_INCREMENT` for
      an auto-incremented key. */
  function PkDef(t: TableInfo): string
  {
    var pk := t.primaryKey;
    Escaped(pk.Name()) + " " + pk.value.dbType + " PRIMARY KEY" + Flag(AutoInc(pk.value.prop), " AUTO_INCREMENT")
  }

  function CreateTable(t: TableInfo): Query
    requires TableDdl.ForeignTyped(t.foreignKeys)
  {
    TableDdl.CreateTable(Escaped, t, PkDef(t))
  }

  function CreateProcedure(p: Procedures.Procedure, body: string): Query
  {
    ProcedureDdl.CreateProcedure(Escaped, p, body, "END;")
  }

  function CallProcedure(p: Procedures.Procedure, obj: Obj): Query
  {
    ProcedureDdl.CallProcedure(Escaped, p, obj)
  }

  /** `dropProcedure`: by name alone, and only if it exists. */
  function DropProcedure(p: Procedures.Procedure): Query
  {
    Query("DROP PROCEDURE IF EXISTS " + Serializers.EscapedProcedure(Escaped, p), [])
  }

  // Properties.

  /** The primary key's definition reads as its escaped name and type,
      `PRIMARY KEY`, and `AUTO_INCREMENT` exactly for an auto-incremented
      key. */
  lemma PkDefWords(t: TableInfo)
    requires Bare(t.primaryKey.Name()) && ' ' !in t.primaryKey.value.dbType
    ensures Words(PkDef(t))
         == [Escaped(t.primaryKey.Name()), t.primaryKey.value.dbType, "PRIMARY", "KEY"]
            + (if AutoInc(t.primaryKey.value.prop) then ["AUTO_INCREMENT"] else [])
  {
    var pk := t.primaryKey;
    var name := Escaped(pk.Name());
    EscapedBare(pk.Name());
    PrimaryKeyText(name, pk.value.dbType);
    ThenFlag1(name + " " + pk.value.dbType + " PRIMARY KEY", [name, pk.value.dbType, "PRIMARY", "KEY"],
      AutoInc(pk.value.prop), " AUTO_INCREMENT", "AUTO_INCREMENT");
  }

  /** The procedure is dropped by its escaped path, whatever its
      arguments, and a missing procedure is no error. */
  lemma DropProcedureWords(p: Procedures.Procedure)
    requires ' ' !in Serializers.EscapedProcedure(Escaped, p)
    ensures DropProcedure(p).values == []
    ensures Words(DropProcedure(p).sql) == ["DROP", "PROCEDURE", "IF", "EXISTS", Serializers.EscapedProcedure(Escaped, p)]
    ensures DropProcedure(p) == DropProcedure(p.(args := []))
  {
    DropText(Serializers.EscapedProcedure(Escaped, p));
  }

  lemma DropText(path: string)
    requires ' ' !in path
    ensures Words("DROP PROCEDURE IF EXISTS " + path) == ["DROP", "PROCEDURE", "IF", "EXISTS", path]
  {
    Lead4("DROP PROCEDURE IF EXISTS ", "DROP", "PROCEDURE", "IF", "EXISTS", path);
  }

  /** The statement for any body: the header with the escaped path and
      the argument definitions, `BEGIN`, the body and `END;`. Every line
      loses the least of sixteen and the indentation of the body's further
      lines (`m`); the body's first line sits four spaces deeper than
      `BEGIN`. A one-line body gives exactly four lines, the body indented
      by four spaces. */
  lemma CreateProcedureLines(p: Procedures.Procedure, body: string)
    requires '\n' !in Serializers.EscapedProcedure(Escaped, p) && '\n' !in ProcedureDdl.ArgDefs(Escaped, p)
    ensures var q := CreateProcedure(p, body);
      var header := "CREATE OR REPLACE PROCEDURE " + Serializers.EscapedProcedure(Escaped, p) + "(" + ProcedureDdl.ArgDefs(Escaped, p) + ")";
      var bls := Lines(body);
      var m := TemplateText.FrameCut(16, body);
      q.values == []
      && Lines(q.sql) == [Spaces(16 - m) + header, Spaces(16 - m) + "BEGIN", Spaces(20 - m) + bls[0]] + CutAll(bls[1..], m) + [Spaces(16 - m) + "END;"]
      && ('\n' !in body ==> Lines(q.sql) == [header, "BEGIN", "    " + body, "END;"])
  {
    var path := Serializers.EscapedProcedure(Escaped, p);
    var args := ProcedureDdl.ArgDefs(Escaped, p);
    assert "END;"[0] == 'E' && '\n' !in "END;";
    ProcedureDdl.TemplateAnyBody(path, args, body, "END;");
    if '\n' !in body {
      ProcedureDdl.TrimmedLines(path, args, body, "END;");
    }
  }

  /** A body written as its own block, each text line indented by `n`
      spaces and the closing line by `n`, as the stored-procedure tutorial
      writes its bodies with `n` twelve: below the template's sixteen, the
      block sets the cut, so `16 - n` spaces stay before the header,
      `BEGIN` and `END;`, the text lines come out flush left, and blank
      lines stand for the body's opening and closing line breaks. */
  lemma CreateProcedureBlock(p: Procedures.Procedure, n: nat, ts: seq<string>)
    requires '\n' !in Serializers.EscapedProcedure(Escaped, p) && '\n' !in ProcedureDdl.ArgDefs(Escaped, p) && n < 16
    requires |ts| > 0 && forall i :: 0 <= i < |ts| ==> TemplateText.TextLine(ts[i])
    ensures var q := CreateProcedure(p, Join([""] + TemplateText.Indent(n, ts) + [Spaces(n)], "\n"));
      var header := "CREATE OR REPLACE PROCEDURE " + Serializers.EscapedProcedure(Escaped, p) + "(" + ProcedureDdl.ArgDefs(Escaped, p) + ")";
      Lines(q.sql) == [Spaces(16 - n) + header, Spaces(16 - n) + "BEGIN", Spaces(20 - n)] + ts + ["", Spaces(16 - n) + "END;"]
  {
    ProcedureDdl.TemplateBlock(Serializers.EscapedProcedure(Escaped, p), ProcedureDdl.ArgDefs(Escaped, p), n, ts, "END;");
  }

  /** A call binds one value per argument, read from the argument's
      property, and has one placeholder per value. */
  lemma CallProcedureSpec(p: Procedures.Procedure, obj: Obj)
    requires '?' !in Serializers.EscapedProcedure(Escaped, p)
    ensures var q := CallProcedure(p, obj);
      Count(q.sql, '?') == |q.values| == |p.args|
      && forall i :: 0 <= i < |p.args| ==> q.values[i].name == p.args[i].Name() && q.values[i].value == obj.get(p.args[i].value.prop)
  {
    ProcedureDdl.CallAlignment(Escaped, p, obj);
  }
}
