/** Table columns: the primary key, foreign keys and other columns of a
    table, and the auto-generation rules of a primary key. */
module Columns {
  import opened Wrappers
  import opened DbData

  /** The table a column belongs to, as its schema and class name. */
  datatype TableRef = TableRef(schema: string, name: string)

  /** The table a foreign key points at and the name of that table's
      primary key. */
  datatype ForeignTarget = ForeignTarget(table: TableRef, primaryKeyName: string)

  datatype ColumnKind =
    | PrimaryKind
    | ForeignKind(target: ForeignTarget, cascadeUpdate: bool, cascadeDelete: bool)
    | OtherKind

  /** A column. `table` is the `lateinit` back-link to the owning table:
      `None` until the table's constructor sets it. */
  datatype Column = Column(value: DbValue, notNull: bool, unique: bool, kind: ColumnKind, table: Option<TableRef>)
  {
    function Name(): string
    {
      value.prop.name
    }
  }

  /** A primary key is auto-incremented when its type is a (possibly inline)
      whole number and the property is both mutable and nullable. */
  function AutoInc(p: Prop): (r: bool)
    ensures r <==> (p.wholeNumber || p.inlineWholeNumber) && p.mutable && p.nullable
  {
    false !in [p.wholeNumber || p.inlineWholeNumber, p.mutable, p.nullable]
  }

  /** A primary key gets a generated UUID when its type is a (possibly inline)
      UUID and the property is both mutable and nullable. */
  function AutoUUID(p: Prop): (r: bool)
    ensures r <==> (p.uuid || p.inlineUUID) && p.mutable && p.nullable
  {
    false !in [p.uuid || p.inlineUUID, p.mutable, p.nullable]
  }

  /** The database fills in the primary key on insert. */
  predicate AutoGenerated(p: Prop)
  {
    AutoInc(p) || AutoUUID(p)
  }

  /** Index of the first column whose property is `p`, or `|cs|`. */
  function FirstWithProp(cs: seq<Column>, p: Prop): (i: nat)
    ensures i <= |cs|
    ensures i < |cs| ==> cs[i].value.prop == p
    ensures forall j :: 0 <= j < i ==> cs[j].value.prop != p
  {
    if cs == [] then 0
    else if cs[0].value.prop == p then 0
    else 1 + FirstWithProp(cs[1..], p)
  }

  /** The database values of `cs`, in order. */
  function Values(cs: seq<Column>): (ds: seq<DbValue>)
    ensures |ds| == |cs|
    ensures forall i :: 0 <= i < |cs| ==> ds[i] == cs[i].value
  {
    if cs == [] then [] else [cs[0].value] + Values(cs[1..])
  }

  /** The names of `cs`, in order. */
  function Names(cs: seq<Column>): (ns: seq<string>)
    ensures |ns| == |cs|
    ensures forall i :: 0 <= i < |cs| ==> ns[i] == cs[i].Name()
  {
    if cs == [] then [] else [cs[0].Name()] + Names(cs[1..])
  }
}
