/** The database-independent part of `Serializer`: the escaped paths of
    schemas, tables, columns and procedures, and the statements every
    database shares. `esc` is the database's `escaped(name)`; a statement
    receives the `TableInfo` the mapper found for its class. */
module Serializers {
  import opened Wrappers
  import opened Strings
  import opened DbData
  import opened Columns
  import opened RowBuilders
  import opened TableInfos
  import Procedures
  import opened SqlWords

  datatype Order = ASC | DESC

  /** The name Kotlin prints for an `Order`. */
  function OrderText(o: Order): string
  {
    match o
    case ASC => "ASC"
    case DESC => "DESC"
  }

  /** Offset pagination: page `number` of `limit` rows, ordered by `orderBy`. */
  datatype Page = Page(orderBy: Prop, order: Order, number: nat, limit: nat)

  /** The number of rows before the page. */
  function Offset(p: Page): nat
  {
    p.number * p.limit
  }

  /** Cursor pagination: `limit` rows from the row whose `orderBy` value is
      `index` on. */
  datatype Cursor = Cursor(orderBy: Prop, order: Order, index: Value, limit: nat)

  /** How a value prints inside a string template. */
  function ValueText(v: Value): string
  {
    match v
    case IntValue(i) => IntToString(i)
    case TextValue(s) => s
    case UuidValue(u) => u
    case NullValue => "null"
  }

  // Escaped paths.

  /** The schema, when there is one, and the procedure name, each escaped,
      joined by dots. */
  function EscapedProcedure(esc: string -> string, p: Procedures.Procedure): string
  {
    Join(MapStrings(esc, Present([p.schema, Some(p.Name())])), ".")
  }

  /** The escaped schema and the escaped table name, joined by a dot. */
  function EscapedTable(esc: string -> string, t: TableInfo): string
  {
    Join(MapStrings(esc, [t.schema, t.Name()]), ".")
  }

  /** The escaped schema, table and column names of the column's owning
      table, joined by dots; reading the owner of a column no table has
      claimed yet fails. */
  function EscapedColumn(esc: string -> string, c: Column): Result<string, DbError>
  {
    match c.table
    case None => Failure(UninitializedProperty)
    case Some(r) => Success(Join(MapStrings(esc, [r.schema, r.name, c.Name()]), "."))
  }

  lemma JoinPair(a: string, b: string, sep: string)
    ensures Join([a, b], sep) == a + sep + b
  {
    assert [a, b][1..] == [b];
  }

  lemma JoinTriple(a: string, b: string, c: string, sep: string)
    ensures Join([a, b, c], sep) == a + sep + b + sep + c
  {
    assert [a, b, c][1..] == [b, c];
    JoinPair(b, c, sep);
  }

  /** A table path is the escaped schema, a dot and the escaped name; with
      the escape that changes nothing it is `TableInfo.path`. */
  lemma EscapedTableShape(esc: string -> string, t: TableInfo)
    ensures EscapedTable(esc, t) == esc(t.schema) + "." + esc(t.Name())
    ensures EscapedTable(n => n, t) == Path(t)
  {
    assert MapStrings(esc, [t.schema, t.Name()]) == [esc(t.schema), esc(t.Name())];
    JoinPair(esc(t.schema), esc(t.Name()), ".");
    assert MapStrings(n => n, [t.schema, t.Name()]) == [t.schema, t.Name()];
  }

  /** A procedure path is the escaped name alone when the procedure has no
      schema and `schema.name` escaped part by part otherwise; with the
      escape that changes nothing it is `Procedure.path`. */
  lemma EscapedProcedureShape(esc: string -> string, p: Procedures.Procedure)
    ensures p.schema.None? ==> EscapedProcedure(esc, p) == esc(p.Name())
    ensures p.schema.Some? ==> EscapedProcedure(esc, p) == esc(p.schema.value) + "." + esc(p.Name())
    ensures EscapedProcedure(n => n, p) == Procedures.Path(p)
  {
    Procedures.PresentPair(p.schema, p.Name());
    var xs := Present([p.schema, Some(p.Name())]);
    assert MapStrings(n => n, xs) == xs;
    if p.schema.Some? {
      assert MapStrings(esc, xs) == [esc(p.schema.value), esc(p.Name())];
      JoinPair(esc(p.schema.value), esc(p.Name()), ".");
    } else {
      assert MapStrings(esc, xs) == [esc(p.Name())];
    }
  }

  /** A column of a constructed table is addressed through that table: its
      path is the table's path, a dot and the escaped column name. */
  lemma EscapedColumnOfTable(esc: string -> string, t: TableInfo, c: Column)
    requires Linked(t) && c in AllColumns(t)
    ensures EscapedColumn(esc, c) == Success(EscapedTable(esc, t) + "." + esc(c.Name()))
  {
    EscapedTableShape(esc, t);
    assert c.table == Some(t.Ref());
    assert MapStrings(esc, [t.schema, t.kclass, c.Name()]) == [esc(t.schema), esc(t.kclass), esc(c.Name())];
    JoinTriple(esc(t.schema), esc(t.kclass), esc(c.Name()), ".");
  }

  /** A column whose back-link is unset cannot be addressed. */
  lemma EscapedColumnUnlinked(esc: string -> string, c: Column)
    ensures EscapedColumn(esc, c).Failure? <==> c.table.None?
    ensures EscapedColumn(esc, c).Failure? ==> EscapedColumn(esc, c).error == UninitializedProperty
  {
  }

  // Statements.

  function CascadeSql(cascade: bool): string
  {
    if cascade then " CASCADE" else ""
  }

  function CreateSchema(esc: string -> string, schema: string): Query
  {
    Query("CREATE SCHEMA IF NOT EXISTS " + esc(schema), [])
  }

  function DropSchema(esc: string -> string, schema: string, cascade: bool): Query
  {
    Query("DROP SCHEMA IF EXISTS " + esc(schema) + CascadeSql(cascade), [])
  }

  function DropTable(esc: string -> string, t: TableInfo, cascade: bool): Query
  {
    Query("DROP TABLE IF EXISTS " + EscapedTable(esc, t) + CascadeSql(cascade), [])
  }

  function DeleteTable(esc: string -> string, t: TableInfo): Query
  {
    Query("DELETE FROM " + EscapedTable(esc, t), [])
  }

  /** Deletes the row of `row`'s primary key. */
  function DeleteRow(esc: string -> string, t: TableInfo, row: Obj): Result<Query, DbError>
  {
    var pk :- EscapedColumn(esc, t.primaryKey);
    Success(Query("DELETE FROM " + EscapedTable(esc, t) + " WHERE " + pk + " = ?",
                  [QueryValueOf(t.primaryKey.value, row)]))
  }

  /** The columns an insert writes: the primary key too, unless the
      database generates it. */
  function InsertRowBuilder(t: TableInfo): RowBuilder
  {
    RowBuilderOf(t, !AutoGenerated(t.primaryKey.value.prop))
  }

  /** The columns an update writes: all but the primary key. */
  function UpdateRowBuilder(t: TableInfo): RowBuilder
  {
    RowBuilderOf(t, false)
  }

  /** The SQL text of an insert, without anything a database appends. */
  function InsertSql(esc: string -> string, t: TableInfo): string
  {
    var rb := InsertRowBuilder(t);
    "INSERT INTO " + EscapedTable(esc, t) + " (" + SqlColumns(rb, ", ", esc) + ") VALUES (" + SqlQuestions(rb, ", ") + ")"
  }

  /** `insertRow`; the base version ignores `batch`. */
  function InsertRow(esc: string -> string, t: TableInfo, row: Obj, batch: bool): Query
  {
    Query(InsertSql(esc, t), QueryValues(InsertRowBuilder(t), row))
  }

  /** `escaped(name) = ?` for one updated column. */
  function Assignment(esc: string -> string): string -> string
  {
    n => esc(n) + " = ?"
  }

  /** Sets every non-key column of `row`'s primary key. */
  function UpdateRow(esc: string -> string, t: TableInfo, row: Obj): Result<Query, DbError>
  {
    var pk :- EscapedColumn(esc, t.primaryKey);
    var rb := UpdateRowBuilder(t);
    Success(Query("UPDATE " + EscapedTable(esc, t) + " SET " + SqlColumns(rb, ", ", Assignment(esc)) + " WHERE " + pk + " = ?",
                  QueryValues(rb, row) + [QueryValueOf(t.primaryKey.value, row)]))
  }

  function SelectTable(esc: string -> string, t: TableInfo): Query
  {
    Query("SELECT * FROM " + EscapedTable(esc, t), [])
  }

  /** Offset pagination. */
  function SelectPage(esc: string -> string, t: TableInfo, page: Page): Query
  {
    Query("SELECT * FROM " + EscapedTable(esc, t) + " ORDER BY " + esc(page.orderBy.name) + " " + OrderText(page.order)
          + " LIMIT " + NatToString(page.limit) + " OFFSET " + NatToString(Offset(page)), [])
  }

  /** The comparison that keeps the rows from the cursor on. */
  function Comparison(o: Order): string
  {
    match o
    case ASC => ">="
    case DESC => "<="
  }

  /** Cursor pagination. */
  function SelectCursor(esc: string -> string, t: TableInfo, cursor: Cursor): Query
  {
    var column := esc(cursor.orderBy.name);
    Query("SELECT * FROM " + EscapedTable(esc, t) + " WHERE " + column + " " + Comparison(cursor.order) + " " + ValueText(cursor.index)
          + " ORDER BY " + column + " " + OrderText(cursor.order) + " LIMIT " + NatToString(cursor.limit), [])
  }
}
