/** `PgSerializer`: PostgreSQL. Names are escaped in double quotes, a
    primary key may be generated as a UUID, an insertion of a single row
    asks for its generated key back with `RETURNING`, and stored procedures
    are not implemented. */
module PgSerializers {
  import opened Wrappers
  import opened Strings
  import opened DbData
  import opened Columns
  import opened TableInfos
  import opened SqlWords
  import opened Escapes
  import RowBuilders
  import Serializers
  import SerializerProperties
  import TableDdl
  import Procedures

  const AllowAutoUUID: bool := true

  /** PostgreSQL keeps the base serializer's missing `selectLastId`. */
  const SelectLastId: Option<string> := None

  const Escaped: string -> string := DoubleQuoted

  /** The primary key's definition: an auto-incremented key becomes a
      `SERIAL`, an auto-generated UUID gets a database default. */
  function PkDef(t: TableInfo): string
  {
    var pk := t.primaryKey;
    var kind := if AutoInc(pk.value.prop) then "SERIAL" else pk.value.dbType;
    Escaped(pk.Name()) + " " + kind + " PRIMARY KEY" + Flag(AutoUUID(pk.value.prop), " DEFAULT gen_random_uuid()")
  }

  function CreateTable(t: TableInfo): Query
    requires TableDdl.ForeignTyped(t.foreignKeys)
  {
    TableDdl.CreateTable(Escaped, t, PkDef(t))
  }

  /** A single row whose key the database generates is asked for that
      key back. */
  predicate Returning(t: TableInfo, batch: bool)
  {
    !batch && AutoGenerated(t.primaryKey.value.prop)
  }

  function InsertRow(t: TableInfo, row: Obj, batch: bool): Query
  {
    var rb := Serializers.InsertRowBuilder(t);
    var sql := Serializers.InsertSql(Escaped, t);
    Query(sql + Flag(Returning(t, batch), " RETURNING " + Escaped(t.primaryKey.Name())), RowBuilders.QueryValues(rb, row))
  }

  /** `createProcedure`, `callProcedure` and `dropProcedure` are all
      `TODO("Not implemented")`. */
  function CreateProcedure(p: Procedures.Procedure, body: string): Result<Query, DbError>
  {
    Failure(NotImplemented)
  }

  function CallProcedure(p: Procedures.Procedure, obj: Obj): Result<Query, DbError>
  {
    Failure(NotImplemented)
  }

  function DropProcedure(p: Procedures.Procedure): Result<Query, DbError>
  {
    Failure(NotImplemented)
  }

  // Properties.

  /** The primary key's definition reads as its escaped name, `SERIAL`
      for an auto-incremented key and its own type otherwise, `PRIMARY
      KEY`, and a `DEFAULT gen_random_uuid()` exactly for an
      auto-generated UUID. */
  lemma PkDefWords(t: TableInfo)
    requires Bare(t.primaryKey.Name()) && ' ' !in t.primaryKey.value.dbType
    ensures var p := t.primaryKey.value.prop;
      Words(PkDef(t))
        == [Escaped(t.primaryKey.Name()), if AutoInc(p) then "SERIAL" else t.primaryKey.value.dbType, "PRIMARY", "KEY"]
           + (if AutoUUID(p) then ["DEFAULT", "gen_random_uuid()"] else [])
  {
    var pk := t.primaryKey;
    EscapedBare(pk.Name());
    PkText(Escaped(pk.Name()), if AutoInc(pk.value.prop) then "SERIAL" else pk.value.dbType, AutoUUID(pk.value.prop));
  }

  lemma PkText(name: string, kind: string, uuid: bool)
    requires ' ' !in name && ' ' !in kind
    ensures Words(name + " " + kind + " PRIMARY KEY" + Flag(uuid, " DEFAULT gen_random_uuid()"))
         == [name, kind, "PRIMARY", "KEY"] + (if uuid then ["DEFAULT", "gen_random_uuid()"] else [])
  {
    PrimaryKeyText(name, kind);
    UuidDefault(name + " " + kind + " PRIMARY KEY", [name, kind, "PRIMARY", "KEY"], uuid);
  }

  lemma UuidDefault(p: string, ws: seq<string>, on: bool)
    requires Words(p) == ws
    ensures Words(p + Flag(on, " DEFAULT gen_random_uuid()")) == ws + (if on then ["DEFAULT", "gen_random_uuid()"] else [])
  {
    ThenFlag2(p, ws, on, " DEFAULT gen_random_uuid()", "DEFAULT", "gen_random_uuid()");
  }

  /** The insertion is the base serializer's, with the same values and a
      `RETURNING` of the escaped key appended exactly for a single row with
      a generated key; its placeholders still match its values one for
      one. */
  lemma InsertRowSpec(t: TableInfo, row: Obj, batch: bool)
    requires SerializerProperties.PlainNames(t)
    ensures var q := InsertRow(t, row, batch);
      var base := Serializers.InsertRow(Escaped, t, row, batch);
      q.values == base.values
      && (Returning(t, batch) ==> q.sql == base.sql + " RETURNING " + Escaped(t.primaryKey.Name()))
      && (!Returning(t, batch) ==> q.sql == base.sql)
      && Count(q.sql, '?') == |q.values|
  {
    var base := Serializers.InsertRow(Escaped, t, row, batch);
    EscapesQuote();
    SerializerProperties.InsertRowMarks(Escaped, t, row, batch);
    KeyUnmarked(t);
    ReturningUnmarked(base.sql, Returning(t, batch), Escaped(t.primaryKey.Name()));
  }

  lemma KeyUnmarked(t: TableInfo)
    requires SerializerProperties.PlainNames(t)
    ensures '?' !in Escaped(t.primaryKey.Name())
  {
    assert t.primaryKey in AllColumns(t);
    EscapedBare(t.primaryKey.Name());
  }

  /** A `RETURNING` clause adds no placeholder. */
  lemma ReturningUnmarked(sql: string, on: bool, key: string)
    requires '?' !in key
    ensures Count(sql + Flag(on, " RETURNING " + key), '?') == Count(sql, '?')
  {
    var tail := Flag(on, " RETURNING " + key);
    assert '?' !in " RETURNING ";
    CountAbsent(tail, '?');
    CountConcat(sql, tail, '?');
  }

  /** Whatever the procedure, none of the three procedure statements
      exists for PostgreSQL. */
  lemma ProceduresNotImplemented(p: Procedures.Procedure, body: string, obj: Obj)
    ensures CreateProcedure(p, body).Failure? && CreateProcedure(p, body).error == NotImplemented
    ensures CallProcedure(p, obj).Failure? && CallProcedure(p, obj).error == NotImplemented
    ensures DropProcedure(p).Failure? && DropProcedure(p).error == NotImplemented
  {
  }
}
