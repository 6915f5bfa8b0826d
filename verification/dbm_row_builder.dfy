/** `RowBuilder`: the column list, the placeholder list and the bound values
    of one row, all taken from the same list of columns. */
module RowBuilders {
  import opened Strings
  import opened DbData
  import opened Columns

  datatype RowBuilder = RowBuilder(columns: seq<Column>)

  /** The escaped column names joined by `separator`. */
  function SqlColumns(rb: RowBuilder, separator: string, escaped: string -> string): (r: string)
    ensures rb.columns == [] ==> r == ""
  {
    Join(MapStrings(escaped, Names(rb.columns)), separator)
  }

  /** One `?` per column joined by `separator`. */
  function SqlQuestions(rb: RowBuilder, separator: string): (r: string)
    ensures '?' !in separator ==> Count(r, '?') == |rb.columns|
    ensures rb.columns == [] ==> r == ""
  {
    Placeholders(|rb.columns|, separator)
  }

  /** The value of every column read from `obj`, in column order. */
  function QueryValues(rb: RowBuilder, obj: Obj): (qs: seq<QueryValue>)
    ensures |qs| == |rb.columns|
    ensures forall i :: 0 <= i < |qs| ==>
      qs[i].name == rb.columns[i].Name() && qs[i].value == obj.get(rb.columns[i].value.prop)
      && qs[i].jdbcType == rb.columns[i].value.jdbcType && qs[i].encoder == rb.columns[i].value.encoder
  {
    QueryValuesOf(Values(rb.columns), obj)
  }

  /** Reading the column list back at its separators gives the escaped
      names in column order. */
  lemma SqlColumnsItems(rb: RowBuilder, separator: string, escaped: string -> string)
    requires rb.columns != [] && separator != []
    requires forall i :: 0 <= i < |rb.columns| ==> separator[0] !in escaped(rb.columns[i].Name())
    ensures Unjoin(SqlColumns(rb, separator, escaped), separator) == MapStrings(escaped, Names(rb.columns))
  {
    UnjoinJoin(MapStrings(escaped, Names(rb.columns)), separator);
  }

  /** Reading the placeholder list back gives one `?` per column. */
  lemma SqlQuestionsItems(rb: RowBuilder, separator: string)
    requires rb.columns != [] && separator != [] && separator[0] != '?'
    ensures Unjoin(SqlQuestions(rb, separator), separator) == Repeat("?", |rb.columns|)
  {
    UnjoinJoin(Repeat("?", |rb.columns|), separator);
  }

  /** The column list, the placeholders and the values have one entry per
      column each. */
  lemma RowAlignment(rb: RowBuilder, escaped: string -> string, obj: Obj)
    requires rb.columns != []
    requires forall i :: 0 <= i < |rb.columns| ==> ',' !in escaped(rb.columns[i].Name())
    ensures |Unjoin(SqlColumns(rb, ", ", escaped), ", ")| == |rb.columns|
    ensures |Unjoin(SqlQuestions(rb, ", "), ", ")| == |rb.columns|
    ensures Count(SqlQuestions(rb, ", "), '?') == |QueryValues(rb, obj)| == |rb.columns|
  {
    SqlColumnsItems(rb, ", ", escaped);
    SqlQuestionsItems(rb, ", ");
  }
}
