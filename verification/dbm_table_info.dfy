/** `TableInfo`: the final description of a table — schema, class, primary
    key, foreign keys and other columns — with its path, column lookup and
    row builders. */
module TableInfos {
  import opened Wrappers
  import opened Strings
  import opened DbData
  import opened Columns
  import opened RowBuilders

  datatype TableInfo = TableInfo(
    schema: string,
    kclass: string,
    primaryKey: Column,
    foreignKeys: seq<Column>,
    otherColumns: seq<Column>)
  {
    /** The unescaped table name: the class's simple name. */
    function Name(): string
    {
      kclass
    }

    function Ref(): TableRef
    {
      TableRef(schema, kclass)
    }
  }

  /** `schema.name`. */
  function Path(t: TableInfo): string
  {
    Join([t.schema, t.Name()], ".")
  }

  /** The primary key, then the foreign keys, then the other columns. */
  function AllColumns(t: TableInfo): seq<Column>
  {
    [t.primaryKey] + t.foreignKeys + t.otherColumns
  }

  /** Every column's back-link names this table. */
  predicate Linked(t: TableInfo)
  {
    forall c :: c in AllColumns(t) ==> c.table == Some(t.Ref())
  }

  /** `cs` with every back-link set to `r`. */
  function Link(cs: seq<Column>, r: TableRef): (ls: seq<Column>)
    ensures |ls| == |cs|
    ensures forall i :: 0 <= i < |cs| ==> ls[i] == cs[i].(table := Some(r))
  {
    if cs == [] then [] else [cs[0].(table := Some(r))] + Link(cs[1..], r)
  }

  /** The constructor: its `init` block makes this table the owner of every
      column, and changes nothing else. */
  function MakeTableInfo(schema: string, kclass: string, pk: Column, fks: seq<Column>, others: seq<Column>): (t: TableInfo)
    ensures t.schema == schema && t.kclass == kclass
    ensures Linked(t)
    ensures t.primaryKey.(table := pk.table) == pk
    ensures |t.foreignKeys| == |fks| && forall i :: 0 <= i < |fks| ==> t.foreignKeys[i].(table := fks[i].table) == fks[i]
    ensures |t.otherColumns| == |others| && forall i :: 0 <= i < |others| ==> t.otherColumns[i].(table := others[i].table) == others[i]
  {
    var r := TableRef(schema, kclass);
    var t := TableInfo(schema, kclass, pk.(table := Some(r)), Link(fks, r), Link(others, r));
    AllLinked(t.primaryKey, t.foreignKeys, t.otherColumns, r);
    t
  }

  lemma AllLinked(pk: Column, a: seq<Column>, b: seq<Column>, r: TableRef)
    requires pk.table == Some(r)
    requires forall i :: 0 <= i < |a| ==> a[i].table == Some(r)
    requires forall i :: 0 <= i < |b| ==> b[i].table == Some(r)
    ensures forall c :: c in [pk] + a + b ==> c.table == Some(r)
  {
    forall c | c in [pk] + a + b
      ensures c.table == Some(r)
    {
      if c in a {
        var i :| 0 <= i < |a| && a[i] == c;
      } else if c in b {
        var i :| 0 <= i < |b| && b[i] == c;
      }
    }
  }

  /** The first column, searching primary key, foreign keys and other
      columns in that order, whose property is `kprop`; `None` when no column
      has it. */
  function GetColumn(t: TableInfo, kprop: Prop): (r: Option<Column>)
    ensures r.None? <==> forall c :: c in AllColumns(t) ==> c.value.prop != kprop
    ensures r.Some? ==> r.value in AllColumns(t) && r.value.value.prop == kprop
    ensures t.primaryKey.value.prop == kprop ==> r == Some(t.primaryKey)
    ensures r.Some? ==> (exists i :: 0 <= i < |AllColumns(t)| && AllColumns(t)[i] == r.value
                           && forall j :: 0 <= j < i ==> AllColumns(t)[j].value.prop != kprop)
  {
    var cs := AllColumns(t);
    var i := FirstWithProp(cs, kprop);
    assert cs[0] == t.primaryKey;
    if i < |cs| then Some(cs[i]) else None
  }

  /** Kotlin's `MutableList.add(index, x)`. */
  function InsertAt(s: seq<Column>, i: nat, x: Column): seq<Column>
    requires i <= |s|
  {
    s[..i] + [x] + s[i..]
  }

  /** The foreign keys and the other columns, with the primary key inserted
      in front when asked for. */
  function RowBuilderOf(t: TableInfo, withPrimaryColumn: bool): RowBuilder
  {
    var columns := t.foreignKeys + t.otherColumns;
    RowBuilder(if withPrimaryColumn then InsertAt(columns, 0, t.primaryKey) else columns)
  }

  /** With the primary key the row builder lists exactly the columns that
      `GetColumn` searches, in the same order; without it, the same list
      minus its first entry. */
  lemma RowBuilderOrder(t: TableInfo)
    ensures RowBuilderOf(t, true).columns == AllColumns(t)
    ensures RowBuilderOf(t, true).columns == [t.primaryKey] + RowBuilderOf(t, false).columns
    ensures RowBuilderOf(t, false).columns == AllColumns(t)[1..]
    ensures |RowBuilderOf(t, false).columns| == |t.foreignKeys| + |t.otherColumns|
  {
    var columns := t.foreignKeys + t.otherColumns;
    assert columns[..0] == [] && columns[0..] == columns;
    assert AllColumns(t) == [t.primaryKey] + columns;
  }

  /** Tables are equal when their paths are. */
  predicate Equals(a: TableInfo, b: TableInfo)
  {
    Path(a) == Path(b)
  }

  function HashCode(t: TableInfo): int
  {
    JavaHash(Path(t))
  }

  function ToString(t: TableInfo): string
  {
    Path(t)
  }

  /** Equal tables have equal hashes and print the same. */
  lemma EqualsHashCode(a: TableInfo, b: TableInfo)
    requires Equals(a, b)
    ensures HashCode(a) == HashCode(b) && ToString(a) == ToString(b)
  {
  }

  /** When schema and class names hold no dot, two tables are equal exactly
      when they have the same schema and the same class name. */
  lemma EqualsIff(a: TableInfo, b: TableInfo)
    requires '.' !in a.schema && '.' !in a.kclass && '.' !in b.schema && '.' !in b.kclass
    ensures Equals(a, b) <==> a.schema == b.schema && a.kclass == b.kclass
  {
    DottedPathsEqual([a.schema, a.kclass], [b.schema, b.kclass]);
    if Equals(a, b) {
      assert [a.schema, a.kclass][0] == [b.schema, b.kclass][0];
      assert [a.schema, a.kclass][1] == [b.schema, b.kclass][1];
    }
  }
}
