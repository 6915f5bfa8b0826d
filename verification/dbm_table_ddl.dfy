/** The `createTable` text the three databases share: the column
    definitions, then one `FOREIGN KEY` clause per foreign key, joined by
    `", "` inside `CREATE TABLE IF NOT EXISTS path (…)`. Only the primary
    key's definition differs between databases; it is a parameter here. */
module TableDdl {
  import opened Wrappers
  import opened Strings
  import opened DbData
  import opened Columns
  import opened TableInfos
  import opened Serializers
  import opened SqlWords

  /** `escaped(it.foreignTable)`: the escaped path of a referenced table. */
  function EscapedRef(esc: string -> string, r: TableRef): string
  {
    Join(MapStrings(esc, [r.schema, r.name]), ".")
  }

  /** The definition of a foreign or other column. */
  function ColumnDef(esc: string -> string, c: Column): string
  {
    esc(c.Name()) + " " + c.value.dbType + Flag(c.notNull, " NOT NULL") + Flag(c.unique, " UNIQUE")
  }

  /** The constraint clause of a foreign key. */
  function ForeignClause(esc: string -> string, c: Column): string
    requires c.kind.ForeignKind?
  {
    var k := c.kind;
    "FOREIGN KEY (" + esc(c.Name()) + ") REFERENCES " + EscapedRef(esc, k.target.table) + " (" + esc(k.target.primaryKeyName) + ")"
      + Flag(k.cascadeUpdate, " ON UPDATE CASCADE") + Flag(k.cascadeDelete, " ON DELETE CASCADE")
  }

  /** The definitions of `cs`, one per column, in column order. */
  function ColumnDefs(esc: string -> string, cs: seq<Column>): (ds: seq<string>)
    ensures |ds| == |cs|
    ensures forall i {:trigger ds[i]} :: 0 <= i < |cs| ==> ds[i] == ColumnDef(esc, cs[i])
  {
    seq(|cs|, i requires 0 <= i < |cs| => ColumnDef(esc, cs[i]))
  }

  /** Every column of the list is a foreign key, as the type of
      `TableInfo.foreignKeys` guarantees. */
  predicate ForeignTyped(cs: seq<Column>)
  {
    forall i :: 0 <= i < |cs| ==> cs[i].kind.ForeignKind?
  }

  /** The clauses of `cs`, one per foreign key, in column order. */
  function ForeignClauses(esc: string -> string, cs: seq<Column>): (ds: seq<string>)
    requires ForeignTyped(cs)
    ensures |ds| == |cs|
    ensures forall i {:trigger ds[i]} :: 0 <= i < |cs| ==> ds[i] == ForeignClause(esc, cs[i])
  {
    seq(|cs|, i requires 0 <= i < |cs| && cs[i].kind.ForeignKind? => ForeignClause(esc, cs[i]))
  }

  /** `col + constraints`: the primary key's definition, the foreign
      columns', the other columns', then the foreign key clauses. */
  function Entries(esc: string -> string, t: TableInfo, pkDef: string): seq<string>
    requires ForeignTyped(t.foreignKeys)
  {
    [pkDef] + ColumnDefs(esc, t.foreignKeys) + ColumnDefs(esc, t.otherColumns) + ForeignClauses(esc, t.foreignKeys)
  }

  function CreateTable(esc: string -> string, t: TableInfo, pkDef: string): Query
    requires ForeignTyped(t.foreignKeys)
  {
    Query("CREATE TABLE IF NOT EXISTS " + EscapedTable(esc, t) + " (" + Join(Entries(esc, t, pkDef), ", ") + ")", [])
  }

  // Layout of the entry list.

  /** No escaped name, type or referenced path of the table holds a comma. */
  predicate CommaFree(esc: string -> string, t: TableInfo)
  {
    (forall c :: c in t.foreignKeys + t.otherColumns ==> ',' !in esc(c.Name()) && ',' !in c.value.dbType)
    && (forall c :: c in t.foreignKeys && c.kind.ForeignKind? ==>
          ',' !in EscapedRef(esc, c.kind.target.table) && ',' !in esc(c.kind.target.primaryKeyName))
  }

  lemma ColumnDefCommaFree(esc: string -> string, c: Column)
    requires ',' !in esc(c.Name()) && ',' !in c.value.dbType
    ensures ',' !in ColumnDef(esc, c)
  {
  }

  lemma ForeignClauseCommaFree(esc: string -> string, c: Column)
    requires c.kind.ForeignKind? && ',' !in esc(c.Name())
    requires ',' !in EscapedRef(esc, c.kind.target.table) && ',' !in esc(c.kind.target.primaryKeyName)
    ensures ',' !in ForeignClause(esc, c)
  {
  }

  /** No entry of the list holds a comma. */
  predicate NoCommas(xs: seq<string>)
  {
    forall k :: 0 <= k < |xs| ==> ',' !in xs[k]
  }

  lemma NoCommasConcat(xs: seq<string>, ys: seq<string>)
    requires NoCommas(xs) && NoCommas(ys)
    ensures NoCommas(xs + ys)
  {
    forall k | 0 <= k < |xs + ys|
      ensures ',' !in (xs + ys)[k]
    {
      if k >= |xs| {
        assert (xs + ys)[k] == ys[k - |xs|];
      }
    }
  }

  lemma ColumnDefsCommaFree(esc: string -> string, cs: seq<Column>)
    requires forall c :: c in cs ==> ',' !in esc(c.Name()) && ',' !in c.value.dbType
    ensures NoCommas(ColumnDefs(esc, cs))
  {
    forall k | 0 <= k < |cs|
      ensures ',' !in ColumnDefs(esc, cs)[k]
    {
      assert cs[k] in cs;
      ColumnDefCommaFree(esc, cs[k]);
    }
  }

  lemma ForeignClausesCommaFree(esc: string -> string, cs: seq<Column>)
    requires ForeignTyped(cs)
    requires forall c :: c in cs ==> ',' !in esc(c.Name())
    requires forall c :: c in cs && c.kind.ForeignKind? ==>
      ',' !in EscapedRef(esc, c.kind.target.table) && ',' !in esc(c.kind.target.primaryKeyName)
    ensures NoCommas(ForeignClauses(esc, cs))
  {
    forall k | 0 <= k < |cs|
      ensures ',' !in ForeignClauses(esc, cs)[k]
    {
      assert cs[k] in cs;
      ForeignClauseCommaFree(esc, cs[k]);
    }
  }

  /** Reading the parenthesised list back at its `", "` separators gives
      the entries, in order. */
  lemma EntriesReadBack(esc: string -> string, t: TableInfo, pkDef: string)
    requires ForeignTyped(t.foreignKeys) && CommaFree(esc, t) && ',' !in pkDef
    ensures Unjoin(Join(Entries(esc, t, pkDef), ", "), ", ") == Entries(esc, t, pkDef)
  {
    var fks, others := t.foreignKeys, t.otherColumns;
    assert forall c :: c in fks ==> c in fks + others;
    assert forall c :: c in others ==> c in fks + others;
    ColumnDefsCommaFree(esc, fks);
    ColumnDefsCommaFree(esc, others);
    ForeignClausesCommaFree(esc, fks);
    assert NoCommas([pkDef]);
    NoCommasConcat([pkDef], ColumnDefs(esc, fks));
    NoCommasConcat([pkDef] + ColumnDefs(esc, fks), ColumnDefs(esc, others));
    NoCommasConcat([pkDef] + ColumnDefs(esc, fks) + ColumnDefs(esc, others), ForeignClauses(esc, fks));
    UnjoinJoin(Entries(esc, t, pkDef), ", ");
  }

  /** The statement is the table's escaped path followed by a
      parenthesised list that reads back, at its `", "` separators, as the
      entries; it binds no values. */
  lemma CreateTableReadBack(esc: string -> string, t: TableInfo, pkDef: string)
    requires ForeignTyped(t.foreignKeys) && CommaFree(esc, t) && ',' !in pkDef
    ensures var q := CreateTable(esc, t, pkDef);
      var pre := "CREATE TABLE IF NOT EXISTS " + EscapedTable(esc, t) + " (";
      q.values == []
      && |pre| < |q.sql| && q.sql[..|pre|] == pre && q.sql[|q.sql| - 1] == ')'
      && Unjoin(q.sql[|pre|..|q.sql| - 1], ", ") == Entries(esc, t, pkDef)
  {
    var pre := "CREATE TABLE IF NOT EXISTS " + EscapedTable(esc, t) + " (";
    var list := Join(Entries(esc, t, pkDef), ", ");
    assert CreateTable(esc, t, pkDef).sql == pre + list + [')'];
    Enclosed(pre, list, ')');
    EntriesReadBack(esc, t, pkDef);
  }

  // Words of the entries.

  /** A column definition reads as its escaped name and type, then `NOT
      NULL` exactly when the column is not nullable, then `UNIQUE` exactly
      when it is unique. */
  lemma ColumnDefWords(esc: string -> string, c: Column)
    requires ' ' !in esc(c.Name()) && ' ' !in c.value.dbType
    ensures Words(ColumnDef(esc, c))
         == [esc(c.Name()), c.value.dbType] + (if c.notNull then ["NOT", "NULL"] else []) + (if c.unique then ["UNIQUE"] else [])
  {
    var p := esc(c.Name()) + " " + c.value.dbType;
    var ws := [esc(c.Name()), c.value.dbType];
    Pair(esc(c.Name()), c.value.dbType);
    ThenFlag2(p, ws, c.notNull, " NOT NULL", "NOT", "NULL");
    ThenFlag1(p + Flag(c.notNull, " NOT NULL"), ws + (if c.notNull then ["NOT", "NULL"] else []), c.unique, " UNIQUE", "UNIQUE");
  }

  /** The foreign key clause without its cascades, regrouped into its
      words. */
  lemma ForeignRegroup(name: string, ref: string, pk: string)
    ensures "FOREIGN KEY (" + name + ") REFERENCES " + ref + " (" + pk + ")"
         == "FOREIGN KEY " + ("(" + name + ")") + " REFERENCES " + ref + " " + ("(" + pk + ")")
  {
    assert "FOREIGN KEY (" == "FOREIGN KEY " + "(";
    assert ") REFERENCES " == ")" + " REFERENCES ";
    assert " (" == " " + "(";
  }

  lemma ForeignBase(name: string, ref: string, pk: string)
    requires ' ' !in name && ' ' !in ref && ' ' !in pk
    ensures Words("FOREIGN KEY (" + name + ") REFERENCES " + ref + " (" + pk + ")")
         == ["FOREIGN", "KEY", "(" + name + ")", "REFERENCES", ref, "(" + pk + ")"]
  {
    var column := "(" + name + ")";
    ForeignRegroup(name, ref, pk);
    Lead2("FOREIGN KEY ", "FOREIGN", "KEY", column);
    ThenKeyword("FOREIGN KEY " + column, ["FOREIGN", "KEY", column], " REFERENCES ", "REFERENCES", ref);
    Then("FOREIGN KEY " + column + " REFERENCES " + ref, ["FOREIGN", "KEY", column, "REFERENCES", ref], "(" + pk + ")");
  }

  /** The words of a foreign key clause, over plain strings. */
  lemma ForeignText(name: string, ref: string, pk: string, onUpdate: bool, onDelete: bool)
    requires ' ' !in name && ' ' !in ref && ' ' !in pk
    ensures Words("FOREIGN KEY (" + name + ") REFERENCES " + ref + " (" + pk + ")"
                  + Flag(onUpdate, " ON UPDATE CASCADE") + Flag(onDelete, " ON DELETE CASCADE"))
         == ["FOREIGN", "KEY", "(" + name + ")", "REFERENCES", ref, "(" + pk + ")"]
            + (if onUpdate then ["ON", "UPDATE", "CASCADE"] else []) + (if onDelete then ["ON", "DELETE", "CASCADE"] else [])
  {
    var b := "FOREIGN KEY (" + name + ") REFERENCES " + ref + " (" + pk + ")";
    var ws := ["FOREIGN", "KEY", "(" + name + ")", "REFERENCES", ref, "(" + pk + ")"];
    ForeignBase(name, ref, pk);
    OnUpdate(b, ws, onUpdate);
    OnDelete(b + Flag(onUpdate, " ON UPDATE CASCADE"), ws + (if onUpdate then ["ON", "UPDATE", "CASCADE"] else []), onDelete);
  }

  lemma OnUpdate(p: string, ws: seq<string>, on: bool)
    requires Words(p) == ws
    ensures Words(p + Flag(on, " ON UPDATE CASCADE")) == ws + (if on then ["ON", "UPDATE", "CASCADE"] else [])
  {
    ThenFlag3(p, ws, on, " ON UPDATE CASCADE", "ON", "UPDATE", "CASCADE");
  }

  lemma OnDelete(p: string, ws: seq<string>, on: bool)
    requires Words(p) == ws
    ensures Words(p + Flag(on, " ON DELETE CASCADE")) == ws + (if on then ["ON", "DELETE", "CASCADE"] else [])
  {
    ThenFlag3(p, ws, on, " ON DELETE CASCADE", "ON", "DELETE", "CASCADE");
  }

  /** A foreign key clause names the column, the referenced table and its
      primary key, then `ON UPDATE CASCADE` exactly when updates cascade,
      then `ON DELETE CASCADE` exactly when deletes cascade: never the other
      way round. */
  lemma ForeignClauseWords(esc: string -> string, c: Column)
    requires c.kind.ForeignKind? && ' ' !in esc(c.Name())
    requires ' ' !in EscapedRef(esc, c.kind.target.table) && ' ' !in esc(c.kind.target.primaryKeyName)
    ensures var k := c.kind;
      Words(ForeignClause(esc, c))
         == ["FOREIGN", "KEY", "(" + esc(c.Name()) + ")", "REFERENCES", EscapedRef(esc, k.target.table), "(" + esc(k.target.primaryKeyName) + ")"]
            + (if k.cascadeUpdate then ["ON", "UPDATE", "CASCADE"] else []) + (if k.cascadeDelete then ["ON", "DELETE", "CASCADE"] else [])
  {
    var k := c.kind;
    ForeignText(esc(c.Name()), EscapedRef(esc, k.target.table), esc(k.target.primaryKeyName), k.cascadeUpdate, k.cascadeDelete);
  }
}
