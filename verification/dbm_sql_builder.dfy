/** `SqlBuilder`: the shortcuts a user's SQL template calls to name a table,
    a column or a procedure the way the serializer escapes it. `T` of the
    Kotlin generics is the class name `kclass`. */
module SqlBuilders {
  import opened Wrappers
  import opened DbData
  import opened Columns
  import opened TableInfos
  import Procedures
  import opened Mappers
  import opened Serializers
  import Escapes

  /** `table<T>()`: the escaped path of `kclass`'s table. */
  function Table(m: Mapper, esc: string -> string, kclass: string): Result<string, DbError>
  {
    var t :- GetTableInfo(m, kclass);
    Success(EscapedTable(esc, t))
  }

  /** `SELECT<T>()`. */
  function Select(m: Mapper, esc: string -> string, kclass: string): Result<string, DbError>
  {
    var table :- Table(m, esc, kclass);
    Success("SELECT * FROM " + table)
  }

  /** `DELETE<T>()`. */
  function Delete(m: Mapper, esc: string -> string, kclass: string): Result<string, DbError>
  {
    var table :- Table(m, esc, kclass);
    Success("DELETE FROM " + table)
  }

  /** The column of `kprop` in `t`; a property that is no column of the
      table is a `QueryException`. */
  function ColumnIn(t: TableInfo, kprop: Prop): Result<Column, DbError>
  {
    match GetColumn(t, kprop)
    case None => Failure(QueryException)
    case Some(c) => Success(c)
  }

  /** `column(kprop)`: the escaped path of the column in the table of the
      class that declares `kprop`. */
  function ColumnOf(m: Mapper, esc: string -> string, kprop: Prop): Result<string, DbError>
  {
    var t :- GetTableInfo(m, kprop.owner);
    var c :- ColumnIn(t, kprop);
    EscapedColumn(esc, c)
  }

  /** `name(column)`: the escaped property name alone. */
  function NameOf(esc: string -> string, kprop: Prop): string
  {
    esc(kprop.name)
  }

  /** `name` is the escaped property name alone: it does not depend on the
      class that declares the property, and under double quotes it reads
      back as the name and, unlike `column`, holds no dot of a path. */
  lemma NameOfSpec(esc: string -> string, kprop: Prop, other: Prop)
    requires other.name == kprop.name
    ensures NameOf(esc, kprop) == NameOf(esc, other)
    ensures Escapes.Unwrapped(NameOf(Escapes.DoubleQuoted, kprop)) == kprop.name
    ensures '.' !in kprop.name ==> '.' !in NameOf(Escapes.DoubleQuoted, kprop)
  {
    Escapes.DoubleQuotedRoundTrip(kprop.name);
    assert Escapes.DoubleQuoted(kprop.name) == ['"'] + kprop.name + ['"'];
  }

  /** `procedure<T>()`: the escaped path of `kclass`'s procedure. */
  function ProcedureOf(m: Mapper, esc: string -> string, kclass: string): Result<string, DbError>
  {
    var p :- GetProcedure(m, kclass);
    Success(EscapedProcedure(esc, p))
  }

  /** The mapper stores each table under its own class, constructed. */
  predicate WellFormed(m: Mapper)
  {
    forall k :: k in m.tables ==> m.tables[k].kclass == k && Linked(m.tables[k])
  }

  /** `SELECT<T>()` and `DELETE<T>()` are the texts of the serializer's
      `selectTable` and `deleteTable` for the same class, and fail exactly
      when the class has no table. */
  lemma SelectDeleteAgree(m: Mapper, esc: string -> string, kclass: string)
    ensures Select(m, esc, kclass).Success? <==> kclass in m.tables
    ensures Delete(m, esc, kclass).Success? <==> kclass in m.tables
    ensures kclass !in m.tables ==> Select(m, esc, kclass) == Delete(m, esc, kclass) == Failure(SerializerException)
    ensures kclass in m.tables ==>
      Select(m, esc, kclass).value == SelectTable(esc, m.tables[kclass]).sql
      && Delete(m, esc, kclass).value == DeleteTable(esc, m.tables[kclass]).sql
  {
  }

  /** `column(kprop)` fails with `SerializerException` when the declaring
      class has no table and with `QueryException` when the table has no
      column for the property; in a well-formed mapper it otherwise
      succeeds, and the column path is the table path, a dot and the
      escaped property name. */
  lemma ColumnOfSpec(m: Mapper, esc: string -> string, kprop: Prop)
    ensures kprop.owner !in m.tables ==> ColumnOf(m, esc, kprop) == Failure(SerializerException)
    ensures kprop.owner in m.tables && GetColumn(m.tables[kprop.owner], kprop).None? ==>
      ColumnOf(m, esc, kprop) == Failure(QueryException)
    ensures WellFormed(m) ==>
      (ColumnOf(m, esc, kprop).Success? <==>
         kprop.owner in m.tables && exists c :: c in AllColumns(m.tables[kprop.owner]) && c.value.prop == kprop)
    ensures WellFormed(m) && ColumnOf(m, esc, kprop).Success? ==>
      ColumnOf(m, esc, kprop).value == Table(m, esc, kprop.owner).value + "." + NameOf(esc, kprop)
  {
    if WellFormed(m) && kprop.owner in m.tables {
      var t := m.tables[kprop.owner];
      var r := GetColumn(t, kprop);
      if r.Some? {
        EscapedColumnOfTable(esc, t, r.value);
      }
    }
  }

  /** `procedure<T>()` fails with `SerializerException` for a class without
      procedure; otherwise it is the escaped name alone when the procedure
      has no schema, and the escaped schema, a dot and the escaped name when
      it has one. */
  lemma ProcedureOfSpec(m: Mapper, esc: string -> string, kclass: string)
    ensures ProcedureOf(m, esc, kclass).Success? <==> kclass in m.procedures
    ensures kclass !in m.procedures ==> ProcedureOf(m, esc, kclass) == Failure(SerializerException)
    ensures kclass in m.procedures && m.procedures[kclass].schema.None? ==>
      ProcedureOf(m, esc, kclass).value == esc(m.procedures[kclass].Name())
    ensures kclass in m.procedures && m.procedures[kclass].schema.Some? ==>
      ProcedureOf(m, esc, kclass).value == esc(m.procedures[kclass].schema.value) + "." + esc(m.procedures[kclass].Name())
  {
    if kclass in m.procedures {
      EscapedProcedureShape(esc, m.procedures[kclass]);
    }
  }
}
