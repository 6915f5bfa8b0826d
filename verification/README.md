# CSV line splitter and dbmessiah SQL builders in Dafny

This project models two pieces of the dbmessiah repository and proves what
they promise.

**The CSV line splitter** (`CSVLineSplitter`, a test utility in Java).
- `split` reads one line through a state machine with four states:
  `Start`, `QuotedToken`, `NonQuotedToken` and `EmptyField`.
- `CsvLineSplitter.Next` is one call of `State.next`. `CsvLineSplitter.Run`
  is the `while (state != null)` loop, and its termination measure is the
  pair (cursor distance to the end, state rank).
- `CsvFields.Fields` is an independent field grammar written from the
  quoting rules. `CsvSplitterCorrect.SplitMatchesFields` proves that the
  machine computes exactly that grammar on the text before the first line
  break.
- The splitter only roughly follows section 2 of RFC 4180, items 4 to 7:
  - a comma ends a quoted field whenever the running quote count is even;
  - an unterminated quoted field loses its last character;
  - a quote that opens the last field and is its only character, as in
    `"` or `a,"`, makes `substring` throw.

  The model follows the code in all three. The crash is the error result
  `StringIndexOutOfBounds`.
- Re-escaping tokens (quoting only those that hold a comma or a quote) and
  joining them with commas splits back into the same tokens for every
  break-free token list except the single empty token `[""]`. That list
  is what the line `\r\n` gives; it escapes to the empty line, which splits
  into no tokens at all (`CsvProperties.EscapeEmptyField`).

**The SQL-text and metadata builders of the dbmessiah Kotlin library.**
- `RowBuilder`, `QueryBuilder` and `SqlBuilder` build placeholder lists,
  escaped paths and bound values.
- `TableInfo`, `Procedure`, `PrimaryColumn` and the user-facing `Table`
  give paths, column order, auto-increment classification and the
  primary-key constraint default.
- The base `Serializer` writes DML and DDL. `PgSerializer`, `Db2Serializer`
  and `MariaSerializer` are its three dialects.
- `Exporter` writes PlantUML and dbdiagram.io text.
- `SerializerTests` validates a configuration.

Reflection is abstracted:
- A Kotlin property is a `DbData.Prop`: the declaring class, the name, the
  type name, and the reflected facts (nullable, mutable, whole number,
  UUID, inline or not) as booleans.
- A class is its name. Where the source compares `KClass` objects, as
  `SerializerTests.kt:469-471` does for a foreign key's target, the model
  compares simple names, so two classes of the same simple name in
  different packages count as one.
- An object is a function from properties to values.
- The mapper's registries are maps (`Mappers.Mapper`).
- Each dialect's `escaped` is a `string -> string`. The generic serializer
  members take it as a parameter (`esc`).
- `ext_kprops` and `ext_kparams` are function parameters, so a class whose
  constructor parameters cannot be read is `None`.

The three dialects build `CREATE TABLE` through the shared `TableDdl`:
- column definitions first, then foreign key clauses;
- the clauses for foreign and other columns are the same in
  `PgSerializer.kt`, `Db2Serializer.kt` and `MariaSerializer.kt`;
- only the primary-key definition differs (`PkDef` in each dialect module).

Db2 and MariaDB share the stored-procedure template (`ProcedureDdl`), which
differs only in its closing line. Kotlin's `trimIndent` is modelled in
`KotlinText`. `TemplateText` states what it makes of the template for any
body: the least indentation is sixteen or the body's further lines' own,
whichever is smaller, and every line loses that much. A one-line body
gives exactly four lines.

Where the sources disagree, this is what the model follows:
- The serializer files name the primary key `primaryColumn`, and use
  `getInsertRowBuilder` and `autoGenerated`, which `data/TableInfo.kt` and
  `data/PrimaryColumn.kt` do not define. The model takes:
  - the insertion row as `getRowBuilder(!autoGenerated)`;
  - the update row as `getRowBuilder(false)`;
  - `autoGenerated` as `autoInc || autoUUID`.

  The insert and update expectations in `Test_Serializer.kt` agree with
  this.
- The repository has two `Table` classes. `Exporter.kt` and
  `SerializerTests.kt` read `name` from `domain/Table.kt`, where it is the
  simple name of the class declaring the key (`Tables.Name`). The name of
  `domain/table/Table.kt:27` is the simple name of the key's type
  (`Tables.NameAsWritten`); "## Findings" below records the difference.
  The model keeps one `Tables.Table` with both names.
- No source file defines `Page`. The model gives it the fields the
  serializer reads (`Serializers.Page`: number, limit, order column and
  order), and takes the offset (`Serializers.Offset`) to be the page
  number times the limit, as `Test_Serializer.kt:345-350` expects (page 3
  of 15 rows is `OFFSET 45`).
- `MariaSerializer` passes no `allowAutoUUID`, although the base
  serializer's parameter has no default. The model gives MariaDB no
  `AllowAutoUUID` constant and states the auto-UUID check only for
  PostgreSQL and Db2.

## Model

| member | source | states |
|---|---|---|
| CsvLineSplitter.Next | src/test/kotlin/utils/CSVLineSplitter.java:38-163 | one step of the machine either stops, or moves the cursor forward, or keeps it in place while leaving `EmptyField` for `Start`; this lexicographic decrease is why `split` terminates |
| CsvLineSplitter.CollapseDoubleQuotes | src/test/kotlin/utils/CSVLineSplitter.java:122-124 | `replaceAll("\"\"", "\"")` undoes the doubling of every quote, so an escaped quote reads back as one quote |
| CsvLineSplitter.CharsSlice | src/test/kotlin/utils/CSVLineSplitter.java:123 | the substring the splitter extracts is the slice of the line between the two indices |
| CsvFields.LineEnd | src/test/kotlin/utils/CSVLineSplitter.java:45-52 | the reading stops at the first CR or LF, or at the end of the string; no character before that point is a line break |
| CsvFields.Content | src/test/kotlin/utils/CSVLineSplitter.java:45-52 | the part of the line the splitter reads holds no CR or LF |
| CsvSplitterCorrect.SplitMatchesFields | src/test/kotlin/utils/CSVLineSplitter.java:16-29 | `split` on any line equals the reference field grammar applied to the text before the first line break; an empty line gives no tokens |
| CsvSplitterCorrect.StartToEmpty | src/test/kotlin/utils/CSVLineSplitter.java:89-163 | a comma in `Start` emits an empty token and, since `EmptyField` steps back, resumes `Start` just after the comma |
| CsvSplitterCorrect.QuotedCloses | src/test/kotlin/utils/CSVLineSplitter.java:112-128 | a comma seen after an even number of quotes ends the quoted field; the token drops the opening quote and the character before the comma, and collapses doubled quotes |
| CsvSplitterCorrect.QuotedThrows | src/test/kotlin/utils/CSVLineSplitter.java:84-124 | a quoted field that closes right after its opening quote makes `substring` get begin greater than end, and the call fails; in a real split this happens only at the line end, as in `a,"`: a comma there is seen with a count of one quote, which is odd, so it does not close the field, and the lemma's comma case is never reached from `split` |
| CsvSplitterCorrect.NonQuotedCloses | src/test/kotlin/utils/CSVLineSplitter.java:139-143 | a comma ends an unquoted field, whose token is the text from its first character up to the comma |
| CsvSplitterCorrect.StartRun | src/test/kotlin/utils/CSVLineSplitter.java:74-98 | from `Start` at any position, the run appends exactly the reference fields of the rest of the line to the tokens found so far |
| CsvSplitterCorrect.QuotedRun | src/test/kotlin/utils/CSVLineSplitter.java:100-129 | from inside a quoted field, the run ends the field at the first comma preceded by an even count of quotes, or at the line end |
| CsvSplitterCorrect.NonQuotedRun | src/test/kotlin/utils/CSVLineSplitter.java:131-152 | from inside an unquoted field, the run ends the field at the next comma or the line end |
| CsvProperties.SplitIgnoresPriorState | src/test/kotlin/utils/CSVLineSplitter.java:18-34 | `reset` clears the tokens and the cursor, so a call's result does not depend on any earlier call |
| CsvProperties.SplitTokenCount | src/test/kotlin/utils/CSVLineSplitter.java:20-81 | the empty string gives no tokens, and a non-empty line that splits gives at least one |
| CsvProperties.SplitReadsContentOnly | src/test/kotlin/utils/CSVLineSplitter.java:45-52 | two non-empty lines with the same text before their first line break split identically |
| CsvProperties.TokensHaveNoBreaks | src/test/kotlin/utils/CSVLineSplitter.java:45-81 | no token contains CR or LF |
| CsvProperties.UnquotedLine | src/test/kotlin/utils/CSVLineSplitter.java:76-163 | a non-empty line without quotes or line breaks splits at every comma: one more token than commas, no token holds a comma, and joining with commas gives the line back |
| CsvProperties.UnquotedRoundTrip | src/test/kotlin/utils/CSVLineSplitter.java:131-163 | joining comma-free, quote-free, break-free fields with commas and splitting gives the fields back |
| CsvProperties.EncodeRoundTrip | src/test/kotlin/utils/CSVLineSplitter.java:100-129 | quoting each field, doubling its quotes and joining with commas is undone by `split`, for any fields without line breaks |
| CsvProperties.EscapeRoundTrip | src/test/kotlin/utils/CSVLineSplitter.java:74-163 | quoting only the tokens that hold a comma or a quote, doubling their quotes, and joining with commas is undone by `split`, for any break-free tokens other than the single empty token |
| CsvProperties.EscapeEmptyField | src/test/kotlin/utils/CSVLineSplitter.java:16-29 | the single empty token escapes and joins to the empty line, which splits into no tokens, so the re-escaping round trip does not hold for it |
| CsvProperties.FieldsFailure | src/test/kotlin/utils/CSVLineSplitter.java:122-124 | the reference grammar fails only on text whose last character is a quote |
| CsvProperties.LoneQuoteFails | src/test/kotlin/utils/CSVLineSplitter.java:84-124 | a quote alone as the last field after a prefix of unquoted fields, as in `"` or `a,"`, makes the split fail |
| CsvProperties.EncodedLoneQuoteFails | src/test/kotlin/utils/CSVLineSplitter.java:84-124 | a quote alone as the last field after any non-empty list of fields written by `Encode`, quoted ones included, makes the split fail |
| CsvProperties.SplitFailure | src/test/kotlin/utils/CSVLineSplitter.java:122-124 | whenever `split` fails, the line's content ends in a quote |
| CsvProperties.FieldsUnquoted | src/test/kotlin/utils/CSVLineSplitter.java:131-163 | without quotes the reference grammar is plain splitting at commas |
| CsvExamples.OneComma | src/test/kotlin/utils/CSVLineSplitter.java:89-163 | `","` gives two empty tokens |
| CsvExamples.TwoCommas | src/test/kotlin/utils/CSVLineSplitter.java:89-163 | `",,"` gives three empty tokens |
| CsvExamples.TwoPlainFields | src/test/kotlin/utils/CSVLineSplitter.java:131-151 | two unquoted fields around a comma come back verbatim |
| CsvExamples.QuotedThenPlain | src/test/kotlin/utils/CSVLineSplitter.java:100-129 | a quoted field followed by an unquoted one comes back as the field and the unquoted text |
| CsvExamples.QuotedComma | src/test/kotlin/utils/CSVLineSplitter.java:112-128 | `"a,b",c` gives `a,b` and `c`: the comma inside the quotes does not end the field |
| CsvExamples.EscapedQuote | src/test/kotlin/utils/CSVLineSplitter.java:122-124 | `"a""b",c` gives `a"b` and `c` |
| CsvExamples.TrailingLineBreak | src/test/kotlin/utils/CSVLineSplitter.java:45-52 | `a,b` followed by CR LF gives `a` and `b` |
| CsvExamples.OnlyLineBreak | src/test/kotlin/utils/CSVLineSplitter.java:78-81 | a line that is only CR LF gives one empty token |
| CsvExamples.UnterminatedQuote | src/test/kotlin/utils/CSVLineSplitter.java:59-124 | an unterminated quoted field loses its last character: `"ab` gives `a` |
| CsvExamples.LoneQuoteLines | src/test/kotlin/utils/CSVLineSplitter.java:84-124 | `"` and `a,"` both fail |
| RowBuilders.SqlQuestions | src/main/kotlin/com/urosjarc/dbmessiah/builders/RowBuilder.kt:28-29 | one `?` per column whatever the separator, and no columns give the empty string |
| RowBuilders.SqlQuestionsItems | src/main/kotlin/com/urosjarc/dbmessiah/builders/RowBuilder.kt:28-29 | read back at its separators, the placeholder list is one `?` per column |
| RowBuilders.SqlColumnsItems | src/main/kotlin/com/urosjarc/dbmessiah/builders/RowBuilder.kt:19-20 | read back at its separators, the column list is the escaped column names in column order |
| RowBuilders.QueryValues | src/main/kotlin/com/urosjarc/dbmessiah/builders/RowBuilder.kt:38-40 | one bound value per column in column order, carrying the column's name, JDBC type and encoder and the object's property value |
| RowBuilders.RowAlignment | src/main/kotlin/com/urosjarc/dbmessiah/builders/RowBuilder.kt:19-40 | column list, placeholder list and bound values have the same length, the number of columns |
| QueryBuilders.NewQueryBuilder | src/main/kotlin/com/urosjarc/dbmessiah/builders/QueryBuilder.kt:32-35 | construction succeeds exactly when the input's class is registered, with no values yet; otherwise it fails with `MappingException` |
| QueryBuilders.Input | src/main/kotlin/com/urosjarc/dbmessiah/builders/QueryBuilder.kt:52-65 | `input` returns `?` and appends exactly one value, named after the property and read from the input, after the earlier ones; a property without a serializer fails with `MapperException` |
| QueryBuilders.RenderSpec | src/main/kotlin/com/urosjarc/dbmessiah/builders/QueryBuilder.kt:43-65 | evaluating a template whose holes are `input` calls gives the template text with a `?` per hole and appends the holes' values in call order |
| QueryBuilders.QueryWithInputSpec | src/main/kotlin/com/urosjarc/dbmessiah/builders/QueryBuilder.kt:32-65 | `queryWithInput` fails for an unregistered input, fails for an unserializable property, and otherwise returns the SQL unchanged with all values in call order, one `?` per value |
| QueryBuilders.BuildKeepsInputs | src/main/kotlin/com/urosjarc/dbmessiah/builders/QueryBuilder.kt:43 | `build` does not clear the values: a second template's query also holds every value of the first |
| QueryBuilders.FlattenMarks | src/main/kotlin/com/urosjarc/dbmessiah/builders/QueryBuilder.kt:65 | when the template text has no `?` of its own, the `?` count is the number of `input` calls |
| QueryBuilders.BoundLength | src/main/kotlin/com/urosjarc/dbmessiah/builders/QueryBuilder.kt:62 | each `input` call binds exactly one value |
| SqlBuilders.SelectDeleteAgree | src/main/kotlin/com/urosjarc/dbmessiah/builders/SqlBuilder.kt:24-45 | `SELECT<T>()` and `DELETE<T>()` succeed exactly for a registered table and are the select-all and delete-all statements on its escaped path; otherwise both fail with `SerializerException` |
| SqlBuilders.ColumnOfSpec | src/main/kotlin/com/urosjarc/dbmessiah/builders/SqlBuilder.kt:52-57 | `column` fails for an unregistered owner and with `QueryException` for a property that is not a column; in a linked mapper it succeeds exactly for a column of the owner and is the table path, a dot and the escaped name |
| SqlBuilders.ProcedureOfSpec | src/main/kotlin/com/urosjarc/dbmessiah/builders/SqlBuilder.kt:73-76 | `procedure<T>()` succeeds exactly for a registered procedure and is its escaped name, preceded by the escaped schema and a dot when there is a schema |
| SqlBuilders.NameOfSpec | src/main/kotlin/com/urosjarc/dbmessiah/builders/SqlBuilder.kt:64-66 | `name` is the escaped property name alone, independent of the declaring class; double-quoted it reads back as the name and holds no path dot |
| Mappers.GetTableInfo | src/main/kotlin/com/urosjarc/dbmessiah/Mapper.kt:451-452 | the lookup succeeds exactly for a registered table class, else `SerializerException` |
| Mappers.GetProcedure | src/main/kotlin/com/urosjarc/dbmessiah/Mapper.kt:441-442 | the lookup succeeds exactly for a registered procedure class, else `SerializerException` |
| Mappers.GetSerializer | src/main/kotlin/com/urosjarc/dbmessiah/Mapper.kt:122-124 | the lookup succeeds exactly for a property with a serializer, else `MapperException` |
| Procedures.PathCases | src/main/kotlin/com/urosjarc/dbmessiah/data/Procedure.kt:30 | the path is the schema, a dot and the name when there is a schema, and the name alone otherwise |
| Procedures.MakeProcedure | src/main/kotlin/com/urosjarc/dbmessiah/data/Procedure.kt:12-20 | after construction every argument points back at this procedure and keeps its value |
| Procedures.SqlArguments | src/main/kotlin/com/urosjarc/dbmessiah/data/Procedure.kt:39-40 | one `?` per argument whatever the separator; none without arguments |
| Procedures.QueryValues | src/main/kotlin/com/urosjarc/dbmessiah/data/Procedure.kt:49-51 | one bound value per argument in argument order, read from the object |
| Procedures.ArgumentAlignment | src/main/kotlin/com/urosjarc/dbmessiah/data/Procedure.kt:39-51 | placeholders, bound values and arguments are equal in number |
| Procedures.EqualsHashCode | src/main/kotlin/com/urosjarc/dbmessiah/data/Procedure.kt:54-62 | equal procedures have equal hash codes |
| Procedures.EqualsIff | src/main/kotlin/com/urosjarc/dbmessiah/data/Procedure.kt:57-62 | for dot-free names, two procedures are equal exactly when schema and class name agree |
| Procedures.ToStringArgs | src/main/kotlin/com/urosjarc/dbmessiah/data/Procedure.kt:65-68 | the text is the class name, then in parentheses one `name: Type` per argument, read back at the separators |
| Procedures.ToString | src/main/kotlin/com/urosjarc/dbmessiah/data/Procedure.kt:65-68 | the text starts with the class name and an opening parenthesis and ends with a closing one |
| TableInfos.MakeTableInfo | src/main/kotlin/com/urosjarc/dbmessiah/data/TableInfo.kt:19-45 | after construction every column points back at this table and nothing else about the columns changes |
| TableInfos.GetColumn | src/main/kotlin/com/urosjarc/dbmessiah/data/TableInfo.kt:53-54 | the result is the first column, in primary, foreign, other order, whose property matches; none exactly when no column matches |
| TableInfos.RowBuilderOrder | src/main/kotlin/com/urosjarc/dbmessiah/data/TableInfo.kt:62-66 | with the primary key the row lists it first, then foreign keys, then other columns; without it the same row minus its first column |
| TableInfos.EqualsHashCode | src/main/kotlin/com/urosjarc/dbmessiah/data/TableInfo.kt:69-80 | equal table infos have equal hash codes and equal texts |
| TableInfos.EqualsIff | src/main/kotlin/com/urosjarc/dbmessiah/data/TableInfo.kt:72-77 | for dot-free names, equality holds exactly when schema and class name agree |
| Columns.AutoInc | src/main/kotlin/com/urosjarc/dbmessiah/data/PrimaryColumn.kt:27-32 | auto-increment exactly when the type is a (possibly inline) whole number and the property is mutable and nullable |
| Columns.AutoUUID | src/main/kotlin/com/urosjarc/dbmessiah/data/PrimaryColumn.kt:42-47 | auto-UUID exactly when the type is a (possibly inline) UUID and the property is mutable and nullable |
| SerializerChecks.KeyMutabilityGenerated | src/main/kotlin/com/urosjarc/dbmessiah/data/PrimaryColumn.kt:27-47 | for a key that passes the mutability checks, a whole-number key is auto-increment and a UUID key auto-UUID exactly when it is nullable |
| Tables.InitConstraints | src/main/kotlin/com/urosjarc/dbmessiah/domain/table/Table.kt:18-25 | the result always has an entry for the primary key; without one, exactly `(pk, [AUTO_INC])` is appended after the unchanged user entries, and with one nothing changes |
| Tables.InitConstraintsIdempotent | src/main/kotlin/com/urosjarc/dbmessiah/domain/table/Table.kt:20 | defaulting an already defaulted list changes nothing |
| Tables.MakeTable | src/main/kotlin/com/urosjarc/dbmessiah/domain/table/Table.kt:11-25 | the constructed table keeps its primary key and foreign keys and has a constraint entry for its primary key |
| Tables.NewTable | src/main/kotlin/com/urosjarc/dbmessiah/domain/table/Table.kt:11-28 | the constructor fails with `SerializerException` exactly when the key has no backing field to find its declaring class by, and otherwise builds the table with the key, the foreign keys and the defaulted constraints |
| Tables.NewTableBuilt | src/main/kotlin/com/urosjarc/dbmessiah/domain/table/Table.kt:18-30 | a table whose key has a backing field is built, named after the class declaring the key, and its key's constraints are `[AUTO_INC]` unless the user gave an entry for the key |
| Tables.ConstraintsFor | src/main/kotlin/com/urosjarc/dbmessiah/domain/table/Table.kt:30 | the constraints of the first entry for the property, or none when there is no entry |
| Tables.PrimaryKeyConstraintsDefault | src/main/kotlin/com/urosjarc/dbmessiah/domain/table/Table.kt:18-30 | the primary key's constraints are `[AUTO_INC]` when the user gave none, and the user's first entry otherwise |
| Tables.FirstEntry | src/main/kotlin/com/urosjarc/dbmessiah/domain/table/Table.kt:30 | `firstOrNull`: the index of the first entry for the property, or the length when there is none |
| Tables.NameAsWrittenCollides | src/main/kotlin/com/urosjarc/dbmessiah/domain/table/Table.kt:27 | as written, two tables of different classes whose keys have the same type get the same name, the key's type |
| Tables.NameAsWrittenIgnoresClass | src/main/kotlin/com/urosjarc/dbmessiah/domain/table/Table.kt:27 | as written, any two tables whose keys have the same type get the same name, whatever their classes |
| Exporters.PathIdentifiesClass | src/main/kotlin/com/urosjarc/dbmessiah/Exporter.kt:32 | with the name of `domain/Table.kt` (`Tables.Name`, the declaring class), which the exporter reads, two tables of one schema get the same path exactly when they belong to the same class |
| Tables.NameIdentifiesClass | src/main/kotlin/com/urosjarc/dbmessiah/domain/table/Table.kt:27-28 | the corrected name is the class name, so two tables share a name exactly when they share a class |
| Serializers.EscapedTableShape | src/main/kotlin/com/urosjarc/dbmessiah/Serializer.kt:141 | the table path is the escaped schema, a dot and the escaped name; unescaped it is the table's `path` |
| Serializers.EscapedProcedureShape | src/main/kotlin/com/urosjarc/dbmessiah/Serializer.kt:124-125 | the schema segment is left out when the procedure has none; unescaped it is the procedure's `path` |
| Serializers.EscapedColumnOfTable | src/main/kotlin/com/urosjarc/dbmessiah/Serializer.kt:149-150 | a column of a linked table is the escaped table path, a dot and the escaped column name |
| Serializers.EscapedColumnUnlinked | src/main/kotlin/com/urosjarc/dbmessiah/Serializer.kt:149-150 | a column whose table was never set fails, as reading an uninitialized `lateinit` property does |
| SerializerProperties.CreateSchemaWords | src/main/kotlin/com/urosjarc/dbmessiah/Serializer.kt:158 | `CREATE SCHEMA IF NOT EXISTS` and the escaped schema |
| SerializerProperties.DropSchemaWords | src/main/kotlin/com/urosjarc/dbmessiah/Serializer.kt:166-169 | `DROP SCHEMA IF EXISTS`, the escaped schema, and `CASCADE` exactly when cascading |
| SerializerProperties.DropTableWords | src/main/kotlin/com/urosjarc/dbmessiah/Serializer.kt:178-182 | `DROP TABLE IF EXISTS`, the escaped table, and `CASCADE` exactly when cascading |
| SerializerProperties.DeleteTableWords | src/main/kotlin/com/urosjarc/dbmessiah/Serializer.kt:198-201 | `DELETE FROM` and the escaped table |
| SerializerProperties.SelectTableWords | src/main/kotlin/com/urosjarc/dbmessiah/Serializer.kt:257-260 | `SELECT * FROM` and the escaped table |
| SerializerProperties.DeleteRowSpec | src/main/kotlin/com/urosjarc/dbmessiah/Serializer.kt:209-215 | the statement deletes by the escaped primary-key column with a single `?` bound to the row's primary key; it fails only for an unlinked key |
| SerializerProperties.InsertRowValues | src/main/kotlin/com/urosjarc/dbmessiah/Serializer.kt:224-232 | one bound value per foreign and other column, plus the primary key first unless it is auto-generated |
| SerializerProperties.InsertRowMarks | src/main/kotlin/com/urosjarc/dbmessiah/Serializer.kt:224-232 | the `?` count equals the number of bound values |
| SerializerProperties.InsertRowColumns | src/main/kotlin/com/urosjarc/dbmessiah/Serializer.kt:224-232 | read back, the column list names each bound value, in order |
| SerializerProperties.UpdateRowAlignment | src/main/kotlin/com/urosjarc/dbmessiah/Serializer.kt:240-249 | one value per `column = ?` setting, in column order, then the primary-key value for the trailing `= ?`; it fails only for an unlinked key |
| SerializerProperties.UpdateRowCount | src/main/kotlin/com/urosjarc/dbmessiah/Serializer.kt:240-249 | the `?` count equals the number of bound values |
| SerializerProperties.UpdateRowSettings | src/main/kotlin/com/urosjarc/dbmessiah/Serializer.kt:243 | read back, the settings are `escaped name = ?` for each bound value but the last |
| SerializerProperties.SelectPageWords | src/main/kotlin/com/urosjarc/dbmessiah/Serializer.kt:269-272 | select all, `ORDER BY` the escaped column and the order, `LIMIT` the limit, `OFFSET` page number times limit |
| SerializerProperties.SelectCursorWords | src/main/kotlin/com/urosjarc/dbmessiah/Serializer.kt:281-288 | select all `WHERE` the escaped column compares with the index, ordered by the same column; `>=` goes with ASC and `<=` with DESC |
| SerializerProperties.SelectPageExample | src/test/kotlin/com/urosjarc/dbmessiah/Test_Serializer.kt:345-350 | page 3 of 15 rows in descending order gives `LIMIT 15 OFFSET 45` |
| SerializerProperties.SelectCursorDescExample | src/test/kotlin/com/urosjarc/dbmessiah/Test_Serializer.kt:353-357 | a descending cursor at 123 gives `<= 123` and `DESC LIMIT 15` |
| SerializerProperties.SelectCursorAscExample | src/test/kotlin/com/urosjarc/dbmessiah/Test_Serializer.kt:358-361 | an ascending cursor at 123 gives `>= 123` and `ASC LIMIT 15` |
| SerializerProperties.PrimaryKeyPathClean | src/main/kotlin/com/urosjarc/dbmessiah/Serializer.kt:149-150 | a linked primary key with plain names has an escaped path, and that path holds no space |
| TableLayout.EntriesOrder | src/main/kotlin/com/urosjarc/dbmessiah/impl/postgresql/PgSerializer.kt:39-61 | the definitions are the primary key's, then one per foreign key, then one per other column, then one FOREIGN KEY clause per foreign key |
| TableDdl.CreateTableReadBack | src/main/kotlin/com/urosjarc/dbmessiah/impl/postgresql/PgSerializer.kt:61-64 | `CREATE TABLE IF NOT EXISTS`, the escaped table and the parenthesised list that reads back at its separators as those definitions; nothing is bound |
| TableDdl.ColumnDefWords | src/main/kotlin/com/urosjarc/dbmessiah/impl/postgresql/PgSerializer.kt:43-57 | a column definition is its escaped name and type, `NOT NULL` exactly when not null and `UNIQUE` exactly when unique |
| TableDdl.ForeignClauseWords | src/main/kotlin/com/urosjarc/dbmessiah/impl/postgresql/PgSerializer.kt:45-49 | a foreign key clause references the target table and its primary key, with `ON UPDATE CASCADE` before `ON DELETE CASCADE`, each exactly when set |
| PgSerializers.PkDefWords | src/main/kotlin/com/urosjarc/dbmessiah/impl/postgresql/PgSerializer.kt:31-39 | the key's type is `SERIAL` exactly when auto-increment, else its own type, and `DEFAULT gen_random_uuid()` follows exactly when auto-UUID |
| PgSerializers.InsertRowSpec | src/main/kotlin/com/urosjarc/dbmessiah/impl/postgresql/PgSerializer.kt:67-77 | the base insertion with the same values, plus `RETURNING` the escaped key exactly for a single row with an auto-generated key |
| PgSerializers.ProceduresNotImplemented | src/main/kotlin/com/urosjarc/dbmessiah/impl/postgresql/PgSerializer.kt:79-81 | all three procedure statements fail as not implemented |
| Db2Serializers.PkDefWords | src/main/kotlin/com/urosjarc/dbmessiah/impl/db2/Db2Serializer.kt:35-39 | `PRIMARY KEY`, the identity clause exactly when auto-increment, and `NOT NULL` always |
| Db2Serializers.InsertRowSpec | src/main/kotlin/com/urosjarc/dbmessiah/impl/db2/Db2Serializer.kt:67-75 | the base insertion, the same for batches and single rows, with one `?` per value |
| Db2Serializers.DropProcedureSpec | src/main/kotlin/com/urosjarc/dbmessiah/impl/db2/Db2Serializer.kt:78-83 | without arguments the procedure is dropped by its escaped path alone |
| Db2Serializers.DropProcedureTypes | src/main/kotlin/com/urosjarc/dbmessiah/impl/db2/Db2Serializer.kt:78-83 | with arguments the path is followed by a parenthesised list that reads back as the argument types in order |
| Db2Serializers.ArgTypes | src/main/kotlin/com/urosjarc/dbmessiah/impl/db2/Db2Serializer.kt:80 | the database types of the arguments, in argument order |
| Db2Serializers.CreateProcedureLines | src/main/kotlin/com/urosjarc/dbmessiah/impl/db2/Db2Serializer.kt:85-96 | after `trimIndent`, any body gives the header with escaped path and argument definitions, `BEGIN`, the body's lines and `END`; all lose the least of sixteen and the indentation of the body's further lines, the body's first line sits four deeper than `BEGIN`; a one-line body gives exactly the header, `BEGIN`, the body indented by four spaces, and `END` |
| Db2Serializers.CreateProcedureBlock | src/main/kotlin/com/urosjarc/dbmessiah/impl/db2/Db2Serializer.kt:85-96 | a body written as a block indented by `n < 16`, the way the stored-procedure tutorial writes its bodies with `n` twelve, gives the header, `BEGIN` and `END` indented by `16 - n` and the body's text lines flush left between a line of `20 - n` spaces and an empty line |
| Db2Serializers.CallProcedureSpec | src/main/kotlin/com/urosjarc/dbmessiah/impl/db2/Db2Serializer.kt:98-105 | `CALL` with one `?` per argument and the argument values in order |
| Db2Serializers.SchemaSpec | src/main/kotlin/com/urosjarc/dbmessiah/impl/db2/Db2Serializer.kt:107-109 | schemas are created and dropped by their raw name, and dropping always restricts whatever `cascade` says |
| SerializerChecks.DialectAutoUuid | src/main/kotlin/com/urosjarc/dbmessiah/impl/db2/Db2Serializer.kt:22 | PostgreSQL accepts auto-UUID keys; Db2 rejects a configuration exactly when some key is auto-UUID |
| MariaSerializers.PkDefWords | src/main/kotlin/com/urosjarc/dbmessiah/impl/maria/MariaSerializer.kt:33-34 | `PRIMARY KEY` and `AUTO_INCREMENT` exactly when auto-increment |
| MariaSerializers.CreateProcedureLines | src/main/kotlin/com/urosjarc/dbmessiah/impl/maria/MariaSerializer.kt:62-73 | after `trimIndent`, any body gives the header with backticked argument definitions, `BEGIN`, the body's lines and `END;`; all lose the least of sixteen and the indentation of the body's further lines; a one-line body gives exactly the header, `BEGIN`, the body indented by four spaces, and `END;` |
| MariaSerializers.CreateProcedureBlock | src/main/kotlin/com/urosjarc/dbmessiah/impl/maria/MariaSerializer.kt:62-73 | a body block indented by `n < 16` leaves `16 - n` spaces before the header, `BEGIN` and `END;`, and its text lines flush left |
| MariaSerializers.CallProcedureSpec | src/main/kotlin/com/urosjarc/dbmessiah/impl/maria/MariaSerializer.kt:75-82 | `CALL` with one `?` per argument and the argument values in order |
| MariaSerializers.DropProcedureWords | src/main/kotlin/com/urosjarc/dbmessiah/impl/maria/MariaSerializer.kt:84-87 | `DROP PROCEDURE IF EXISTS` and the escaped path, whatever the arguments |
| ProcedureDdl.TemplateAnyBody | src/main/kotlin/com/urosjarc/dbmessiah/impl/db2/Db2Serializer.kt:89-94 | for any body, `trimIndent` of the template keeps the header, `BEGIN` and the closing line indented by `16 - m`, the body's first line by `20 - m`, and cuts `m` characters off each further body line, where `m` is the least of sixteen and the further lines' indentation |
| ProcedureDdl.TemplateBlock | src/main/kotlin/com/urosjarc/dbmessiah/impl/maria/MariaSerializer.kt:66-71 | a body block indented by `n < 16` makes the cut `n`: `16 - n` spaces before the template's own lines, the block's text lines flush left |
| TemplateText.TrimFrame | src/main/kotlin/com/urosjarc/dbmessiah/impl/db2/Db2Serializer.kt:89-94 | a blank line, three text lines at `k` around a body at `k + 4`, and a last line of `k - 4` spaces trim to the text lines at `k - m`, the body's first line at `k + 4 - m` and its further lines cut by `m` |
| TemplateText.FrameIndent | src/main/kotlin/com/urosjarc/dbmessiah/impl/db2/Db2Serializer.kt:89-94 | the template's least indentation is `k` or a smaller indentation of the body's further lines; the body's first line never sets it |
| TemplateText.BlockBody | src/main/kotlin/com/urosjarc/dbmessiah/impl/maria/MariaSerializer.kt:66-71 | a body block indented by `n < k`, between an opening line break and a closing line of `n` spaces, sets the cut to `n` and comes out flush left |
| ProcedureDdl.ArgDefsReadBack | src/main/kotlin/com/urosjarc/dbmessiah/impl/maria/MariaSerializer.kt:64 | the argument list reads back as one `escaped name type` per argument |
| Escapes.DoubleQuotedRoundTrip | src/main/kotlin/com/urosjarc/dbmessiah/impl/postgresql/PgSerializer.kt:22 | the name wrapped in double quotes, recoverable by unwrapping |
| Escapes.BacktickedRoundTrip | src/main/kotlin/com/urosjarc/dbmessiah/impl/maria/MariaSerializer.kt:24 | the name wrapped in backticks, recoverable by unwrapping |
| Exporters.RegisterKeys | src/main/kotlin/com/urosjarc/dbmessiah/Exporter.kt:28-34 | a class is in the path map exactly when some schema registers a table of it |
| Exporters.RegisterValue | src/main/kotlin/com/urosjarc/dbmessiah/Exporter.kt:28-34 | a class maps to the path of its last registered table, as repeated map writes leave it |
| Exporters.PlantUmlFails | src/main/kotlin/com/urosjarc/dbmessiah/Exporter.kt:50 | PlantUML generation fails, as `!!` on null does, exactly when some foreign key targets an unregistered class |
| Exporters.PlantUmlFrame | src/main/kotlin/com/urosjarc/dbmessiah/Exporter.kt:23-73 | the output starts with `@startuml`, the two skinparam lines and a blank line, and ends with one relationship per foreign key in registration order, whatever the flags, then a blank line and `@enduml` |
| Exporters.RelationshipTarget | src/main/kotlin/com/urosjarc/dbmessiah/Exporter.kt:47-52 | each relationship reads `from -down-> to: fk`, where `to` is the path of the last registered table of the target class |
| Exporters.EdgesTable | src/main/kotlin/com/urosjarc/dbmessiah/Exporter.kt:47-52 | registering one more table appends exactly one relationship per foreign key of it after the earlier ones |
| Exporters.EdgeOrigin | src/main/kotlin/com/urosjarc/dbmessiah/Exporter.kt:47-52 | every relationship comes from some foreign key of some registered table |
| Exporters.ClassBlockPrimaryKey | src/main/kotlin/com/urosjarc/dbmessiah/Exporter.kt:44-45 | turning `withPrimaryKey` on inserts exactly the key line after the class header |
| Exporters.ClassBlockForeignKeys | src/main/kotlin/com/urosjarc/dbmessiah/Exporter.kt:54-55 | turning `withForeignKeys` on inserts exactly one line per foreign key after the key line |
| Exporters.ClassBlockOtherColumns | src/main/kotlin/com/urosjarc/dbmessiah/Exporter.kt:58-61 | turning `withOtherColumns` on inserts exactly one line per class property before the closing brace |
| Exporters.PackagesSchema | src/main/kotlin/com/urosjarc/dbmessiah/Exporter.kt:37-66 | each schema adds one package block holding one class block per table, in registration order |
| Exporters.DbDiagramFails | src/main/kotlin/com/urosjarc/dbmessiah/Exporter.kt:112 | dbdiagram.io generation fails exactly when some foreign key targets an unregistered class |
| Exporters.DbDiagramLayout | src/main/kotlin/com/urosjarc/dbmessiah/Exporter.kt:99-129 | all table blocks come first, then a blank line, then the table groups |
| Exporters.GroupsSchema | src/main/kotlin/com/urosjarc/dbmessiah/Exporter.kt:100-123 | each schema adds one `TableGroup` listing its tables' paths and a closing brace |
| Exporters.ReferenceTarget | src/main/kotlin/com/urosjarc/dbmessiah/Exporter.kt:109-114 | a foreign key line refers to `schema.Table.pk` of the last registered table of its target class |
| Exporters.Relationships | src/main/kotlin/com/urosjarc/dbmessiah/Exporter.kt:47-52 | the relationship lines exist exactly when every target class has a path, one line per foreign key in order; otherwise `!!` fails |
| Exporters.References | src/main/kotlin/com/urosjarc/dbmessiah/Exporter.kt:109-114 | the reference lines exist exactly when every target class has a key path, one line per foreign key in order; otherwise `!!` fails |
| Exporters.TableBlocksFail | src/main/kotlin/com/urosjarc/dbmessiah/Exporter.kt:99-122 | the table blocks succeed exactly when every foreign key of every table has a key path for its target |
| SerializerChecks.AtLeastOneTable | src/main/kotlin/com/urosjarc/dbmessiah/SerializerTests.kt:34-36 | passes exactly when the first schema exists and has a table |
| SerializerChecks.MatchEntire | src/main/kotlin/com/urosjarc/dbmessiah/SerializerTests.kt:268-363 | the loop accepts exactly the names the regex `[a-zA-Z_][a-zA-Z0-9_]*` matches entirely |
| SerializerChecks.AssertValidName | src/main/kotlin/com/urosjarc/dbmessiah/SerializerTests.kt:360-363 | passes exactly for a valid name, and otherwise fails naming the group and the name |
| SerializerChecks.MemberNames | src/main/kotlin/com/urosjarc/dbmessiah/SerializerTests.kt:346-350 | passes exactly when every property name is valid and the constructor parameters can be read, each with a valid name |
| SerializerChecks.ClassNames | src/main/kotlin/com/urosjarc/dbmessiah/SerializerTests.kt:344-351 | passes exactly when the class name and its members' names are valid; an invalid class name is the first failure |
| SerializerChecks.ClassesNames | src/main/kotlin/com/urosjarc/dbmessiah/SerializerTests.kt:298-335 | passes exactly when every listed class and its members have valid names |
| SerializerChecks.SchemaNames | src/main/kotlin/com/urosjarc/dbmessiah/SerializerTests.kt:275-291 | passes exactly when every schema, table, property and parameter name is valid and every table's parameters can be read |
| SerializerChecks.UnreadableParametersPass | src/main/kotlin/com/urosjarc/dbmessiah/SerializerTests.kt:283-286 | as written, a table whose parameters cannot be read passes; the corrected check fails it |
| SerializerChecks.UnreadableClassPasses | src/main/kotlin/com/urosjarc/dbmessiah/SerializerTests.kt:344-351 | as written, a class whose parameters cannot be read passes the class check; the corrected check fails it with the missing-parameters error |
| SerializerChecks.ClassesNamesAsWrittenSpec | src/main/kotlin/com/urosjarc/dbmessiah/SerializerTests.kt:344-351 | as written, the class check passes whenever the corrected one does, and agrees with it whenever every class's parameters can be read |
| SerializerChecks.SchemaNamesAsWrittenSpec | src/main/kotlin/com/urosjarc/dbmessiah/SerializerTests.kt:283-286 | as written, the check treats unreadable parameters as none, and it passes whenever the corrected one does |
| SerializerChecks.AutoUuidAllowed | src/main/kotlin/com/urosjarc/dbmessiah/SerializerTests.kt:379-389 | passes when the database allows auto-UUID keys, and otherwise exactly when no key is auto-UUID |
| SerializerChecks.NotOptionalImmutable | src/main/kotlin/com/urosjarc/dbmessiah/SerializerTests.kt:395-402 | passes exactly when every nullable key is mutable |
| SerializerChecks.NotMutableRequired | src/main/kotlin/com/urosjarc/dbmessiah/SerializerTests.kt:408-415 | passes exactly when every mutable key is nullable |
| SerializerChecks.KeyMutability | src/main/kotlin/com/urosjarc/dbmessiah/SerializerTests.kt:395-415 | both checks pass exactly when every key is nullable if and only if it is mutable |
| SerializerChecks.KeyTypes | src/main/kotlin/com/urosjarc/dbmessiah/SerializerTests.kt:421-434 | passes exactly when every key is a (possibly inline) whole number or UUID |
| SerializerChecks.ForeignKeysWithoutKey | src/main/kotlin/com/urosjarc/dbmessiah/SerializerTests.kt:440-447 | passes exactly when no table lists its primary key among its foreign keys |
| SerializerChecks.Target | src/main/kotlin/com/urosjarc/dbmessiah/SerializerTests.kt:466-475 | a foreign key passes exactly when its class is registered and the first such table's key has the foreign key's type; an unregistered class is reported as such |
| SerializerChecks.ForeignTargets | src/main/kotlin/com/urosjarc/dbmessiah/SerializerTests.kt:454-479 | passes exactly when every foreign key of every table meets that condition |
| SerializerChecks.ForeignTargetsExport | src/main/kotlin/com/urosjarc/dbmessiah/SerializerTests.kt:454-479 | a configuration that passes has every target registered, so both exports succeed |
| SerializerChecks.KeyConstraints | src/main/kotlin/com/urosjarc/dbmessiah/SerializerTests.kt:490-511 | passes exactly when no primary-key entry carries `UNIQUE`, `CASCADE_UPDATE` or `CASCADE_DELETE` |
| SerializerChecks.EntryCheck | src/main/kotlin/com/urosjarc/dbmessiah/SerializerTests.kt:497-505 | an entry passes exactly when it is not the key's or carries only allowed constraints |
| SerializerChecks.DefaultKeyConstraintsValid | src/main/kotlin/com/urosjarc/dbmessiah/SerializerTests.kt:490-511 | a table whose key got the default `[AUTO_INC]` passes the constraint check |
| SerializerChecks.Each | src/main/kotlin/com/urosjarc/dbmessiah/SerializerTests.kt:276-290 | a walk over items passes exactly when every item passes, and otherwise reports the first failure |
| Schemas.TablesOfRegistered | src/main/kotlin/com/urosjarc/dbmessiah/SerializerTests.kt:455-461 | listing the tables schema by schema gives the tables of the registered schema/table pairs, in order |
| Schemas.FirstOf | src/main/kotlin/com/urosjarc/dbmessiah/SerializerTests.kt:466 | `firstOrNull`: the first registered table of the class, or the length when there is none |
| Schemas.RegisteredSchema | src/main/kotlin/com/urosjarc/dbmessiah/SerializerTests.kt:457-461 | a schema adds its tables, paired with it, after the earlier pairs |

## Left out

- Serializer construction (`Serializer.kt:37-78`): it builds `TableInfo`s
  from the schemas by reflection. The model takes the mapper's registries
  as given data.
- `selectTable` by primary key (`Serializer.kt:297-302`): it needs the
  value's JDBC type serializer, and type serializers are not part of this
  model.
- `query` (`Serializer.kt:311`) only wraps the user's SQL text, with no
  bound values. The `SqlBuilder` shortcuts that text is built from are
  modelled on their own.
- Each dialect's `selectLastId` is a constant string with no property
  stated about it.
- JDBC execution, connections, generated-key retrieval, batching and the
  profiler are I/O and wall-clock state outside the builders.
- The uniqueness, emptiness and per-dialect serialization groups of
  `SerializerTests` (lines 43-251 and 519 onwards) are left out. They
  compare reflected lists or run the serializer against a live
  configuration.
- The configuration checks this model states are the naming checks, the
  primary-key rules, the foreign-key rules and the constraint check.
- Error messages are not modelled. Each exception is a variant of
  `DbData.DbError` or `SerializerChecks.TestError` that carries the
  offending names.
- Kotlin's `lines()` also splits at `\r`, and `trimIndent` treats every
  Unicode whitespace as indentation. The model splits at `\n` only and
  counts space, tab, line feed, carriage return, vertical tab and form feed
  as indentation (`KotlinText.IsWhitespace`). The template's own text
  contains none of the others; a procedure body holding `\r` or other
  Unicode whitespace can come out differently in Kotlin.
- An object's value of a property (`DbData.Obj.get`) is always defined.
  `DbValue.getValue` (`DbValue.kt:104-115`) throws `DbValueException`
  when the receiver lacks the property or is of the wrong class. The
  modelled callers always pass an object of the property's own class, so
  they cannot reach that case, and the model leaves it out.
- CsvLineSplitter.CharsSlice: positions, `charAt` and `substring` are
  modelled over Unicode characters, while Java counts UTF-16 code units. A
  character outside the Basic Multilingual Plane (an emoji, say) is one
  position in the model and two in Java, so a token that `ExtractQuoted`
  or `ExtractNonQuoted` cuts next to one can differ: for `"a😀` Java keeps
  `a` and half of the surrogate pair, the model keeps `a`.
- Java's `String.hashCode` is modelled with its 32-bit wrap-around
  (`DbData.JavaHash`). Hash collisions between different paths are not
  explored.
- Serializers.EscapedColumnUnlinked: an uninitialised `lateinit` read
  becomes an error result. The JVM's exception type is not modelled.
- SerializerProperties.SelectCursorWords: the cursor index is printed by
  `ValueText` for integer, text, UUID and null values. Kotlin's `toString`
  of other index types is not modelled.
- Exporters.PlantUmlFrame: the class blocks between header and
  relationships are stated by `PackagesSchema` and the `ClassBlock` lemmas,
  not by this lemma.
- Properties of the PostgreSQL procedure statements: they are `TODO()` in
  the source, and the model states that they always fail.

## Findings

| source | as written | input that shows it | evidently intended | confidence | as-written member | corrected member |
|---|---|---|---|---|---|---|
| src/main/kotlin/com/urosjarc/dbmessiah/domain/table/Table.kt:27 | `name` is the simple name of `primaryKey.ext_kclass`, the class of the key's value type | tables of `Parent` and `Child`, both keyed by an `Int` property: both are named `Int` | the simple name of the class declaring the key (`kclass`, line 28), as `domain/Table.kt:33-34` and the exporter expectations (`main.Parent`) use it | not executed | Tables.NameAsWrittenCollides | Tables.NameIdentifiesClass |
| src/main/kotlin/com/urosjarc/dbmessiah/SerializerTests.kt:286 | `?: SerializerTestsException(...)` builds the exception without `throw`, so a table whose constructor parameters cannot be read passes the name check (the same at line 350 for `assertValidKClass`) | a table whose class gives `ext_kparams == null` | `?: throw SerializerTestsException(...)`, failing the check as the message says | not executed | SerializerChecks.UnreadableParametersPass | SerializerChecks.SchemaNames |
| src/main/kotlin/com/urosjarc/dbmessiah/SerializerTests.kt:350 | `assertValidKClass` ends in the same `?: SerializerTestsException(...)` without `throw`, so the global and schema class checks pass a class whose parameters cannot be read | a global procedure class whose `ext_kparams` is `null` | `?: throw SerializerTestsException(...)` | not executed | SerializerChecks.UnreadableClassPasses | SerializerChecks.ClassesNames |
