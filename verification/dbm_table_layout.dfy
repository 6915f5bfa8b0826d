/** Where each part of the `createTable` list lands: the layout of
    `TableDdl.Entries`, entry by entry. */
module TableLayout {
  import opened Columns
  import opened TableInfos
  import opened TableDdl

  /** The entries are, in this order: the primary key's definition, one
      definition per foreign key, one per other column, and one clause per
      foreign key. Each range is stated by the entry's index `k`. */
  lemma EntriesOrder(esc: string -> string, t: TableInfo, pkDef: string)
    requires ForeignTyped(t.foreignKeys)
    ensures |Entries(esc, t, pkDef)| == 1 + 2 * |t.foreignKeys| + |t.otherColumns|
    ensures Entries(esc, t, pkDef)[0] == pkDef
    ensures forall k :: 1 <= k < 1 + |t.foreignKeys| ==>
      Entries(esc, t, pkDef)[k] == ColumnDef(esc, t.foreignKeys[k - 1])
    ensures forall k :: 1 + |t.foreignKeys| <= k < 1 + |t.foreignKeys| + |t.otherColumns| ==>
      Entries(esc, t, pkDef)[k] == ColumnDef(esc, t.otherColumns[k - 1 - |t.foreignKeys|])
    ensures forall k :: 1 + |t.foreignKeys| + |t.otherColumns| <= k < |Entries(esc, t, pkDef)| ==>
      Entries(esc, t, pkDef)[k] == ForeignClause(esc, t.foreignKeys[k - 1 - |t.foreignKeys| - |t.otherColumns|])
  {
    EntriesHead(esc, t, pkDef);
    ForeignDefsAt(esc, t, pkDef);
    OtherDefsAt(esc, t, pkDef);
    ClausesAt(esc, t, pkDef);
  }

  /** The number of entries, and the primary key's definition first. */
  lemma EntriesHead(esc: string -> string, t: TableInfo, pkDef: string)
    requires ForeignTyped(t.foreignKeys)
    ensures |Entries(esc, t, pkDef)| == 1 + 2 * |t.foreignKeys| + |t.otherColumns|
    ensures Entries(esc, t, pkDef)[0] == pkDef
  {
    Positions(Entries(esc, t, pkDef), pkDef, ColumnDefs(esc, t.foreignKeys), ColumnDefs(esc, t.otherColumns), ForeignClauses(esc, t.foreignKeys),
      |t.foreignKeys|, |t.otherColumns|);
  }

  /** The foreign columns' definitions follow the first entry. */
  lemma ForeignDefsAt(esc: string -> string, t: TableInfo, pkDef: string)
    requires ForeignTyped(t.foreignKeys)
    ensures forall k :: 1 <= k < 1 + |t.foreignKeys| ==>
      Entries(esc, t, pkDef)[k] == ColumnDef(esc, t.foreignKeys[k - 1])
  {
    Positions(Entries(esc, t, pkDef), pkDef, ColumnDefs(esc, t.foreignKeys), ColumnDefs(esc, t.otherColumns), ForeignClauses(esc, t.foreignKeys),
      |t.foreignKeys|, |t.otherColumns|);
  }

  /** The other columns' definitions follow the foreign ones. */
  lemma OtherDefsAt(esc: string -> string, t: TableInfo, pkDef: string)
    requires ForeignTyped(t.foreignKeys)
    ensures forall k :: 1 + |t.foreignKeys| <= k < 1 + |t.foreignKeys| + |t.otherColumns| ==>
      Entries(esc, t, pkDef)[k] == ColumnDef(esc, t.otherColumns[k - 1 - |t.foreignKeys|])
  {
    Positions(Entries(esc, t, pkDef), pkDef, ColumnDefs(esc, t.foreignKeys), ColumnDefs(esc, t.otherColumns), ForeignClauses(esc, t.foreignKeys),
      |t.foreignKeys|, |t.otherColumns|);
  }

  /** The foreign key clauses follow all the column definitions. */
  lemma ClausesAt(esc: string -> string, t: TableInfo, pkDef: string)
    requires ForeignTyped(t.foreignKeys)
    ensures forall k :: 1 + |t.foreignKeys| + |t.otherColumns| <= k < |Entries(esc, t, pkDef)| ==>
      Entries(esc, t, pkDef)[k] == ForeignClause(esc, t.foreignKeys[k - 1 - |t.foreignKeys| - |t.otherColumns|])
  {
    Positions(Entries(esc, t, pkDef), pkDef, ColumnDefs(esc, t.foreignKeys), ColumnDefs(esc, t.otherColumns), ForeignClauses(esc, t.foreignKeys),
      |t.foreignKeys|, |t.otherColumns|);
  }

  /** Where each part of `es == [p] + a + b + c` lands, with `na` and `nb`
      the lengths of `a` and `b`. */
  lemma Positions(es: seq<string>, p: string, a: seq<string>, b: seq<string>, c: seq<string>, na: nat, nb: nat)
    requires es == [p] + a + b + c && |a| == na && |b| == nb
    ensures |es| == 1 + na + nb + |c|
    ensures es[0] == p
    ensures forall k :: 1 <= k < 1 + na ==> es[k] == a[k - 1]
    ensures forall k :: 1 + na <= k < 1 + na + nb ==> es[k] == b[k - 1 - na]
    ensures forall k :: 1 + na + nb <= k < |es| ==> es[k] == c[k - 1 - na - nb]
  {
  }
}
