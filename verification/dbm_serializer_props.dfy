/** What the shared statements of `Serializer` say, read back from their
    text: the words of each statement, and the match between the `?`
    placeholders and the bound values. The names involved are plain
    identifiers and the escape keeps them so, which the configuration
    checks guarantee for every name a serializer accepts. */
module SerializerProperties {
  import opened Wrappers
  import opened Strings
  import opened DbData
  import opened Columns
  import opened RowBuilders
  import opened TableInfos
  import opened SqlWords
  import opened Serializers

  /** The schema, the class and every column of the table are named by
      plain identifiers. */
  predicate PlainNames(t: TableInfo)
  {
    Bare(t.schema) && Bare(t.kclass) && forall c :: c in AllColumns(t) ==> Bare(c.Name())
  }

  lemma EscapedTableClean(esc: string -> string, t: TableInfo)
    requires Quoting(esc) && Bare(t.schema) && Bare(t.kclass)
    ensures Clean(EscapedTable(esc, t))
  {
    EscapedTableShape(esc, t);
    assert Bare(esc(t.schema)) && Bare(esc(t.Name()));
  }

  /** In a constructed table the primary key's path is the table path, a
      dot and the escaped key name. */
  lemma PrimaryKeyPath(esc: string -> string, t: TableInfo)
    requires Linked(t)
    ensures EscapedColumn(esc, t.primaryKey) == Success(EscapedTable(esc, t) + "." + esc(t.primaryKey.Name()))
  {
    assert t.primaryKey in AllColumns(t);
    EscapedColumnOfTable(esc, t, t.primaryKey);
  }

  lemma PrimaryKeyPathClean(esc: string -> string, t: TableInfo)
    requires Quoting(esc) && Linked(t) && PlainNames(t)
    ensures EscapedColumn(esc, t.primaryKey).Success? && Clean(EscapedColumn(esc, t.primaryKey).value)
  {
    PrimaryKeyPath(esc, t);
    EscapedTableClean(esc, t);
    assert t.primaryKey in AllColumns(t);
    assert Bare(esc(t.primaryKey.Name()));
  }

  lemma DigitsHaveNoSpace(n: nat)
    ensures Clean(NatToString(n))
  {
    var r := NatToString(n);
    assert forall k :: 0 <= k < |r| ==> IsDigit(r[k]);
  }

  // Words of the statements.

  lemma CreateSchemaWords(esc: string -> string, schema: string)
    requires Quoting(esc) && Bare(schema)
    ensures Words(CreateSchema(esc, schema).sql) == ["CREATE", "SCHEMA", "IF", "NOT", "EXISTS", esc(schema)]
  {
    assert Bare(esc(schema));
    CreateSchemaLead(esc(schema));
  }

  lemma CreateSchemaLead(x: string)
    requires ' ' !in x
    ensures Words("CREATE SCHEMA IF NOT EXISTS " + x) == ["CREATE", "SCHEMA", "IF", "NOT", "EXISTS", x]
  {
    Lead5("CREATE SCHEMA IF NOT EXISTS ", "CREATE", "SCHEMA", "IF", "NOT", "EXISTS", x);
  }

  /** `dropSchema` ends with the word `CASCADE` exactly when asked to, and
      is otherwise the same statement. */
  lemma DropSchemaWords(esc: string -> string, schema: string, cascade: bool)
    requires Quoting(esc) && Bare(schema)
    ensures Words(DropSchema(esc, schema, cascade).sql)
         == ["DROP", "SCHEMA", "IF", "EXISTS", esc(schema)] + (if cascade then ["CASCADE"] else [])
  {
    assert Bare(esc(schema));
    var p := "DROP SCHEMA IF EXISTS " + esc(schema);
    DropSchemaLead(esc(schema));
    if cascade {
      ThenLast(p, ["DROP", "SCHEMA", "IF", "EXISTS", esc(schema)], " CASCADE", "CASCADE");
    } else {
      assert p + "" == p;
    }
  }

  /** `dropTable` ends with the word `CASCADE` exactly when asked to, and is
      otherwise the same statement. */
  lemma DropTableWords(esc: string -> string, t: TableInfo, cascade: bool)
    requires Quoting(esc) && Bare(t.schema) && Bare(t.kclass)
    ensures Words(DropTable(esc, t, cascade).sql)
         == ["DROP", "TABLE", "IF", "EXISTS", EscapedTable(esc, t)] + (if cascade then ["CASCADE"] else [])
  {
    EscapedTableClean(esc, t);
    var p := "DROP TABLE IF EXISTS " + EscapedTable(esc, t);
    DropTableLead(EscapedTable(esc, t));
    if cascade {
      ThenLast(p, ["DROP", "TABLE", "IF", "EXISTS", EscapedTable(esc, t)], " CASCADE", "CASCADE");
    } else {
      assert p + "" == p;
    }
  }

  lemma DropSchemaLead(x: string)
    requires ' ' !in x
    ensures Words("DROP SCHEMA IF EXISTS " + x) == ["DROP", "SCHEMA", "IF", "EXISTS", x]
  {
    Lead4("DROP SCHEMA IF EXISTS ", "DROP", "SCHEMA", "IF", "EXISTS", x);
  }

  lemma DropTableLead(x: string)
    requires ' ' !in x
    ensures Words("DROP TABLE IF EXISTS " + x) == ["DROP", "TABLE", "IF", "EXISTS", x]
  {
    Lead4("DROP TABLE IF EXISTS ", "DROP", "TABLE", "IF", "EXISTS", x);
  }

  lemma DeleteTableWords(esc: string -> string, t: TableInfo)
    requires Quoting(esc) && Bare(t.schema) && Bare(t.kclass)
    ensures Words(DeleteTable(esc, t).sql) == ["DELETE", "FROM", EscapedTable(esc, t)]
  {
    EscapedTableClean(esc, t);
    Lead2("DELETE FROM ", "DELETE", "FROM", EscapedTable(esc, t));
  }

  lemma SelectTableWords(esc: string -> string, t: TableInfo)
    requires Quoting(esc) && Bare(t.schema) && Bare(t.kclass)
    ensures Words(SelectTable(esc, t).sql) == ["SELECT", "*", "FROM", EscapedTable(esc, t)]
  {
    EscapedTableClean(esc, t);
    Lead3("SELECT * FROM ", "SELECT", "*", "FROM", EscapedTable(esc, t));
  }

  /** Offset pagination orders by the page's column in the page's order,
      and skips `number * limit` rows. */
  lemma SelectPageWords(esc: string -> string, t: TableInfo, page: Page)
    requires Quoting(esc) && Bare(t.schema) && Bare(t.kclass) && Bare(page.orderBy.name)
    ensures Words(SelectPage(esc, t, page).sql)
         == ["SELECT", "*", "FROM", EscapedTable(esc, t), "ORDER", "BY", esc(page.orderBy.name), OrderText(page.order),
             "LIMIT", NatToString(page.limit), "OFFSET", NatToString(page.number * page.limit)]
  {
    EscapedTableClean(esc, t);
    assert Bare(esc(page.orderBy.name));
    DigitsHaveNoSpace(Offset(page));
    DigitsHaveNoSpace(page.limit);
    assert ' ' !in OrderText(page.order);
    PageWords(EscapedTable(esc, t), esc(page.orderBy.name), OrderText(page.order), NatToString(page.limit), NatToString(Offset(page)));
  }

  /** Cursor pagination filters and orders by the same column, and keeps
      the rows at or after the cursor in the direction of the order: `>=`
      for ascending, `<=` for descending. */
  lemma SelectCursorWords(esc: string -> string, t: TableInfo, cursor: Cursor)
    requires Quoting(esc) && Bare(t.schema) && Bare(t.kclass) && Bare(cursor.orderBy.name)
    requires ' ' !in ValueText(cursor.index)
    ensures var column := esc(cursor.orderBy.name);
      Words(SelectCursor(esc, t, cursor).sql)
         == ["SELECT", "*", "FROM", EscapedTable(esc, t), "WHERE", column, Comparison(cursor.order), ValueText(cursor.index),
             "ORDER", "BY", column, OrderText(cursor.order), "LIMIT", NatToString(cursor.limit)]
    ensures Comparison(cursor.order) == ">=" <==> OrderText(cursor.order) == "ASC"
    ensures Comparison(cursor.order) == "<=" <==> OrderText(cursor.order) == "DESC"
  {
    EscapedTableClean(esc, t);
    DigitsHaveNoSpace(cursor.limit);
    CursorWords(EscapedTable(esc, t), esc(cursor.orderBy.name), Comparison(cursor.order), ValueText(cursor.index),
                OrderText(cursor.order), NatToString(cursor.limit));
  }

  // Placeholders and bound values.

  /** `deleteRow` needs the primary key's back-link; on a constructed table
      it binds exactly the row's primary key to the statement's single `?`,
      which follows `WHERE <key path> =`. */
  lemma DeleteRowSpec(esc: string -> string, t: TableInfo, row: Obj)
    ensures DeleteRow(esc, t, row).Success? <==> t.primaryKey.table.Some?
    ensures DeleteRow(esc, t, row).Failure? ==> DeleteRow(esc, t, row).error == UninitializedProperty
    ensures DeleteRow(esc, t, row).Success? ==> DeleteRow(esc, t, row).value.values == [QueryValueOf(t.primaryKey.value, row)]
    ensures Quoting(esc) && Linked(t) && PlainNames(t) ==>
      var q := DeleteRow(esc, t, row).value;
      Count(q.sql, '?') == |q.values| == 1
      && Words(q.sql) == ["DELETE", "FROM", EscapedTable(esc, t), "WHERE", EscapedColumn(esc, t.primaryKey).value, "=", "?"]
  {
    if Quoting(esc) && Linked(t) && PlainNames(t) {
      PrimaryKeyPathClean(esc, t);
      EscapedTableClean(esc, t);
      DeleteRowText(EscapedTable(esc, t), EscapedColumn(esc, t.primaryKey).value);
    }
  }

  /** The escaped names of the columns contain no `?`, so the column list
      contains none either. */
  lemma ColumnListClean(esc: string -> string, t: TableInfo, rb: RowBuilder)
    requires Quoting(esc) && PlainNames(t)
    requires forall c :: c in rb.columns ==> c in AllColumns(t)
    ensures '?' !in SqlColumns(rb, ", ", esc)
    ensures forall i :: 0 <= i < |rb.columns| ==> Clean(esc(rb.columns[i].Name()))
  {
    var xs := MapStrings(esc, Names(rb.columns));
    forall i | 0 <= i < |rb.columns|
      ensures Clean(esc(rb.columns[i].Name()))
    {
      assert rb.columns[i] in AllColumns(t);
      assert Bare(esc(rb.columns[i].Name()));
    }
    NotInJoin(xs, ", ", '?');
  }

  /** The columns an insert writes all belong to the table. */
  lemma InsertColumnsOfTable(t: TableInfo)
    ensures forall c :: c in InsertRowBuilder(t).columns ==> c in AllColumns(t)
  {
    RowBuilderOrder(t);
    if !AutoGenerated(t.primaryKey.value.prop) {
      assert InsertRowBuilder(t).columns == AllColumns(t);
    } else {
      assert InsertRowBuilder(t).columns == AllColumns(t)[1..];
    }
  }

  /** An insert binds one value per column it writes; the primary key is
      written, as the first column, exactly when the database does not
      generate it. */
  lemma InsertRowValues(esc: string -> string, t: TableInfo, row: Obj, batch: bool)
    ensures var q := InsertRow(esc, t, row, batch);
      |q.values| == |t.foreignKeys| + |t.otherColumns| + (if AutoGenerated(t.primaryKey.value.prop) then 0 else 1)
      && (!AutoGenerated(t.primaryKey.value.prop) ==> q.values[0] == QueryValueOf(t.primaryKey.value, row))
  {
    RowBuilderOrder(t);
  }

  /** An insert has one `?` per bound value. */
  lemma InsertRowMarks(esc: string -> string, t: TableInfo, row: Obj, batch: bool)
    requires Quoting(esc) && PlainNames(t)
    ensures Count(InsertRow(esc, t, row, batch).sql, '?') == |InsertRow(esc, t, row, batch).values|
  {
    var rb := InsertRowBuilder(t);
    InsertColumnsOfTable(t);
    ColumnListClean(esc, t, rb);
    EscapedTableClean(esc, t);
    InsertText(EscapedTable(esc, t), SqlColumns(rb, ", ", esc), SqlQuestions(rb, ", "));
  }

  /** The i-th column an insert lists is the column of its i-th bound value. */
  lemma InsertRowColumns(esc: string -> string, t: TableInfo, row: Obj, batch: bool)
    requires Quoting(esc) && PlainNames(t)
    ensures var q := InsertRow(esc, t, row, batch);
      q.values != [] ==>
        var listed := Unjoin(SqlColumns(InsertRowBuilder(t), ", ", esc), ", ");
        |listed| == |q.values| && forall i :: 0 <= i < |q.values| ==> listed[i] == esc(q.values[i].name)
  {
    var rb := InsertRowBuilder(t);
    InsertColumnsOfTable(t);
    ColumnListClean(esc, t, rb);
    if rb.columns != [] {
      SqlColumnsItems(rb, ", ", esc);
    }
  }

  /** An update binds one value per `column = ?` assignment, in order, then
      the row's primary key for the final `= ?`; it needs the primary key's
      back-link. */
  lemma UpdateRowAlignment(esc: string -> string, t: TableInfo, row: Obj)
    ensures UpdateRow(esc, t, row).Success? <==> t.primaryKey.table.Some?
    ensures UpdateRow(esc, t, row).Failure? ==> UpdateRow(esc, t, row).error == UninitializedProperty
    ensures UpdateRow(esc, t, row).Success? ==>
      var q := UpdateRow(esc, t, row).value;
      |q.values| == |t.foreignKeys| + |t.otherColumns| + 1
      && q.values[|q.values| - 1] == QueryValueOf(t.primaryKey.value, row)
      && q.values[..|q.values| - 1] == QueryValues(UpdateRowBuilder(t), row)
    ensures Quoting(esc) && Linked(t) && PlainNames(t) ==>
      var q := UpdateRow(esc, t, row).value;
      Count(q.sql, '?') == |q.values|
      && (|q.values| > 1 ==>
            var settings := Unjoin(SqlColumns(UpdateRowBuilder(t), ", ", Assignment(esc)), ", ");
            |settings| == |q.values| - 1
            && forall i :: 0 <= i < |settings| ==> settings[i] == esc(q.values[i].name) + " = ?")
  {
    var rb := UpdateRowBuilder(t);
    RowBuilderOrder(t);
    if t.primaryKey.table.Some? {
      var q := UpdateRow(esc, t, row).value;
      assert q.values[..|q.values| - 1] == QueryValues(rb, row);
    }
    if Quoting(esc) && Linked(t) && PlainNames(t) {
      UpdateRowCount(esc, t, row);
      UpdateRowSettings(esc, t, row);
    }
  }

  /** The `column = ?` assignments of an update, one per non-key column. */
  function Settings(esc: string -> string, t: TableInfo): seq<string>
  {
    MapStrings(Assignment(esc), Names(UpdateRowBuilder(t).columns))
  }

  lemma SettingsMarked(esc: string -> string, t: TableInfo)
    requires Quoting(esc) && PlainNames(t)
    ensures forall k :: 0 <= k < |Settings(esc, t)| ==> Count(Settings(esc, t)[k], '?') == 1 && ',' !in Settings(esc, t)[k]
  {
    var names := Names(UpdateRowBuilder(t).columns);
    UpdateNamesClean(esc, t);
    AssignmentsMarked(esc, names);
    assert Settings(esc, t) == MapStrings(Assignment(esc), names);
  }

  /** The escaped names of the columns an update sets are clean. */
  lemma UpdateNamesClean(esc: string -> string, t: TableInfo)
    requires Quoting(esc) && PlainNames(t)
    ensures var names := Names(UpdateRowBuilder(t).columns);
      forall k :: 0 <= k < |names| ==> Clean(esc(names[k]))
  {
    var rb := UpdateRowBuilder(t);
    RowBuilderOrder(t);
    assert forall c :: c in rb.columns ==> c in AllColumns(t) by {
      assert rb.columns == AllColumns(t)[1..];
    }
    ColumnListClean(esc, t, rb);
    var names := Names(rb.columns);
    forall k | 0 <= k < |names|
      ensures Clean(esc(names[k]))
    {
      assert names[k] == rb.columns[k].Name();
    }
  }

  /** Every assignment `name = ?` of clean names holds one `?` and no comma. */
  lemma AssignmentsMarked(esc: string -> string, names: seq<string>)
    requires forall k :: 0 <= k < |names| ==> Clean(esc(names[k]))
    ensures var items := MapStrings(Assignment(esc), names);
      forall k :: 0 <= k < |items| ==> Count(items[k], '?') == 1 && ',' !in items[k]
  {
    var items := MapStrings(Assignment(esc), names);
    forall k | 0 <= k < |items|
      ensures Count(items[k], '?') == 1 && ',' !in items[k]
    {
      var n := esc(names[k]);
      assert items[k] == n + " = ?";
      MarkedOnce(n);
    }
  }

  /** Each assignment holds one `?`, and the separators none. */
  lemma SettingsCount(esc: string -> string, t: TableInfo)
    requires Quoting(esc) && PlainNames(t)
    ensures Count(SqlColumns(UpdateRowBuilder(t), ", ", Assignment(esc)), '?') == |UpdateRowBuilder(t).columns|
  {
    var items := Settings(esc, t);
    SettingsMarked(esc, t);
    CountAllOnce(items, '?');
    CountJoin(items, ", ", '?');
    CountAbsent(", ", '?');
  }

  lemma UpdateRowCount(esc: string -> string, t: TableInfo, row: Obj)
    requires Quoting(esc) && Linked(t) && PlainNames(t)
    ensures UpdateRow(esc, t, row).Success?
    ensures Count(UpdateRow(esc, t, row).value.sql, '?') == |UpdateRow(esc, t, row).value.values|
  {
    SettingsCount(esc, t);
    PrimaryKeyPathClean(esc, t);
    EscapedTableClean(esc, t);
    UpdateText(EscapedTable(esc, t), SqlColumns(UpdateRowBuilder(t), ", ", Assignment(esc)), EscapedColumn(esc, t.primaryKey).value);
  }

  lemma UpdateRowSettings(esc: string -> string, t: TableInfo, row: Obj)
    requires Quoting(esc) && Linked(t) && PlainNames(t)
    ensures UpdateRow(esc, t, row).Success?
    ensures var q := UpdateRow(esc, t, row).value;
      |q.values| > 1 ==>
        var settings := Unjoin(SqlColumns(UpdateRowBuilder(t), ", ", Assignment(esc)), ", ");
        |settings| == |q.values| - 1
        && forall i :: 0 <= i < |settings| ==> settings[i] == esc(q.values[i].name) + " = ?"
  {
    var rb := UpdateRowBuilder(t);
    SettingsMarked(esc, t);
    if rb.columns != [] {
      UnjoinJoin(Settings(esc, t), ", ");
    }
  }

  // The expectations of the serializer tests.

  lemma SmallNumbers()
    ensures NatToString(15) == "15" && NatToString(45) == "45" && IntToString(123) == "123"
  {
    assert NatToString(15) == "15";
    assert NatToString(45) == "45";
    assert IntToString(123) == "123";
  }

  /** Page 3 of 15 rows, descending, skips 45 rows. */
  lemma SelectPageExample(esc: string -> string, t: TableInfo, pk: Prop)
    ensures SelectPage(esc, t, Page(pk, DESC, 3, 15)).sql
         == "SELECT * FROM " + EscapedTable(esc, t) + " ORDER BY " + esc(pk.name) + " DESC LIMIT 15 OFFSET 45"
  {
    var p, column := "SELECT * FROM " + EscapedTable(esc, t) + " ORDER BY ", esc(pk.name);
    SmallNumbers();
    assert Offset(Page(pk, DESC, 3, 15)) == 45 && OrderText(DESC) == "DESC";
    assert SelectPage(esc, t, Page(pk, DESC, 3, 15)).sql == p + column + " " + "DESC" + " LIMIT " + "15" + " OFFSET " + "45";
    PageLiteral();
    PageText(p, column, " ", "DESC", " LIMIT ", "15", " OFFSET ", "45");
  }

  /** From index 123 on, descending. */
  lemma SelectCursorDescExample(esc: string -> string, t: TableInfo, pk: Prop)
    ensures SelectCursor(esc, t, Cursor(pk, DESC, IntValue(123), 15)).sql
         == "SELECT * FROM " + EscapedTable(esc, t) + " WHERE " + esc(pk.name) + " <= 123 ORDER BY " + esc(pk.name) + " DESC LIMIT 15"
  {
    var p, column := "SELECT * FROM " + EscapedTable(esc, t), esc(pk.name);
    SmallNumbers();
    assert Comparison(DESC) == "<=" && OrderText(DESC) == "DESC" && ValueText(IntValue(123)) == "123";
    assert SelectCursor(esc, t, Cursor(pk, DESC, IntValue(123), 15)).sql
        == p + " WHERE " + column + " " + "<=" + " " + "123" + " ORDER BY " + column + " " + "DESC" + " LIMIT " + "15";
    CursorDescWhere();
    CursorDescLimit();
    CursorText(p + " WHERE ", column, " ", "<=", " ", "123", " ORDER BY ", " ", "DESC", " LIMIT ", "15");
  }

  /** From index 123 on, ascending. */
  lemma SelectCursorAscExample(esc: string -> string, t: TableInfo, pk: Prop)
    ensures SelectCursor(esc, t, Cursor(pk, ASC, IntValue(123), 15)).sql
         == "SELECT * FROM " + EscapedTable(esc, t) + " WHERE " + esc(pk.name) + " >= 123 ORDER BY " + esc(pk.name) + " ASC LIMIT 15"
  {
    var p, column := "SELECT * FROM " + EscapedTable(esc, t), esc(pk.name);
    SmallNumbers();
    assert Comparison(ASC) == ">=" && OrderText(ASC) == "ASC" && ValueText(IntValue(123)) == "123";
    assert SelectCursor(esc, t, Cursor(pk, ASC, IntValue(123), 15)).sql
        == p + " WHERE " + column + " " + ">=" + " " + "123" + " ORDER BY " + column + " " + "ASC" + " LIMIT " + "15";
    CursorAscWhere();
    CursorAscLimit();
    CursorText(p + " WHERE ", column, " ", ">=", " ", "123", " ORDER BY ", " ", "ASC", " LIMIT ", "15");
  }

  // Regrouping the literal pieces of the test expectations.

  lemma PageText(p: string, c: string, a1: string, a2: string, a3: string, a4: string, a5: string, a6: string)
    ensures p + c + a1 + a2 + a3 + a4 + a5 + a6 == p + c + (a1 + a2 + a3 + a4 + a5 + a6)
  {
  }

  lemma PageLiteral()
    ensures " " + "DESC" + " LIMIT " + "15" + " OFFSET " + "45" == " DESC LIMIT 15 OFFSET 45"
  {
  }

  lemma CursorDescWhere()
    ensures " " + "<=" + " " + "123" + " ORDER BY " == " <= 123 ORDER BY "
  {
  }

  lemma CursorAscWhere()
    ensures " " + ">=" + " " + "123" + " ORDER BY " == " >= 123 ORDER BY "
  {
  }

  lemma CursorDescLimit()
    ensures " " + "DESC" + " LIMIT " + "15" == " DESC LIMIT 15"
  {
  }

  lemma CursorAscLimit()
    ensures " " + "ASC" + " LIMIT " + "15" == " ASC LIMIT 15"
  {
  }

  lemma CursorText(p: string, c: string, a1: string, a2: string, a3: string, a4: string, a5: string,
                    b1: string, b2: string, b3: string, b4: string)
    ensures p + c + a1 + a2 + a3 + a4 + a5 + c + b1 + b2 + b3 + b4
         == p + c + (a1 + a2 + a3 + a4 + a5) + c + (b1 + b2 + b3 + b4)
  {
  }
}
