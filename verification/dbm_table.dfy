/** `Table`: the user's declaration of a table — its primary key, foreign
    keys and column constraints — before the mapper turns it into a
    `TableInfo`. */
module Tables {
  import opened Wrappers
  import opened DbData

  /** Column constraints. */
  datatype C = AUTO_INC | UNIQUE | CASCADE_DELETE | CASCADE_UPDATE

  /** A table. `foreignKeys` pairs a property with the class it points at;
      `constraints` pairs a property with its constraint list. */
  datatype Table = Table(primaryKey: Prop, foreignKeys: seq<(Prop, string)>, constraints: seq<(Prop, seq<C>)>)

  /** The class that represents the table: the class declaring its primary
      key. */
  function Kclass(t: Table): string
  {
    t.primaryKey.owner
  }

  /** The table name as `Table.name` computes it: the simple name of the
      class of the primary key's type rather than of the class declaring
      it. */
  function NameAsWritten(t: Table): string
  {
    t.primaryKey.typeName
  }

  /** The table name as the rest of the library uses it, and as the
      exporters' expected diagrams show it: the simple name of the table's
      class. */
  function Name(t: Table): string
  {
    t.primaryKey.owner
  }

  /** Two tables keyed by an `Int`, `Parent` and `Child`, both get the name
      `Int` as written: neither is named after its class and the two names
      collide. */
  lemma NameAsWrittenCollides()
    ensures var key := (owner: string) => Prop(owner, "pk", "Int", true, true, true, false, false, false);
      var parent, child := MakeTable(key("Parent"), [], []), MakeTable(key("Child"), [], []);
      Kclass(parent) == "Parent" && Kclass(child) == "Child"
      && NameAsWritten(parent) == NameAsWritten(child) == "Int"
      && NameAsWritten(parent) != Kclass(parent)
  {
  }

  /** As written, any two tables whose keys have the same type share a
      name, whatever classes they belong to. */
  lemma NameAsWrittenIgnoresClass(a: Table, b: Table)
    requires a.primaryKey.typeName == b.primaryKey.typeName
    ensures NameAsWritten(a) == NameAsWritten(b)
  {
  }

  /** Named after their classes, two tables share a name exactly when they
      share a class. */
  lemma NameIdentifiesClass(a: Table, b: Table)
    ensures Name(a) == Kclass(a)
    ensures Name(a) == Name(b) <==> Kclass(a) == Kclass(b)
  {
  }

  /** Index of the first constraint entry for `k`, or `|cs|`. */
  function FirstEntry(cs: seq<(Prop, seq<C>)>, k: Prop): (i: nat)
    ensures i <= |cs|
    ensures i < |cs| ==> cs[i].0 == k
    ensures forall j :: 0 <= j < i ==> cs[j].0 != k
  {
    if cs == [] then 0 else if cs[0].0 == k then 0 else 1 + FirstEntry(cs[1..], k)
  }

  predicate HasEntry(cs: seq<(Prop, seq<C>)>, k: Prop)
  {
    exists i :: 0 <= i < |cs| && cs[i].0 == k
  }

  /** The constructor's defaulting step: a primary key without a constraint
      entry gets `[AUTO_INC]`, appended at the end. */
  function InitConstraints(pk: Prop, cs: seq<(Prop, seq<C>)>): (r: seq<(Prop, seq<C>)>)
    ensures HasEntry(r, pk)
    ensures |cs| <= |r| <= |cs| + 1 && r[..|cs|] == cs
    ensures |r| == |cs| + 1 <==> !HasEntry(cs, pk)
    ensures |r| == |cs| + 1 ==> r[|cs|] == (pk, [AUTO_INC])
  {
    if FirstEntry(cs, pk) < |cs| then cs
    else
      var r := cs + [(pk, [AUTO_INC])];
      assert r[|cs|].0 == pk;
      r
  }

  /** Defaulting twice is defaulting once. */
  lemma InitConstraintsIdempotent(pk: Prop, cs: seq<(Prop, seq<C>)>)
    ensures InitConstraints(pk, InitConstraints(pk, cs)) == InitConstraints(pk, cs)
  {
    var r := InitConstraints(pk, cs);
    var i :| 0 <= i < |r| && r[i].0 == pk;
    assert FirstEntry(r, pk) <= i;
  }

  /** The table the constructor builds once its key has a backing field. */
  function MakeTable(pk: Prop, fks: seq<(Prop, string)>, cs: seq<(Prop, seq<C>)>): (t: Table)
    ensures t.primaryKey == pk && t.foreignKeys == fks
    ensures HasEntry(t.constraints, t.primaryKey)
  {
    Table(pk, fks, InitConstraints(pk, cs))
  }

  /** The constructor with its failure. `kclass` is the class declaring the
      key's backing field; `hasField` says whether reflection finds that
      field. A key without one (an extension or a getter-only property)
      makes the constructor throw. */
  function NewTable(pk: Prop, hasField: bool, fks: seq<(Prop, string)>, cs: seq<(Prop, seq<C>)>): (r: Result<Table, DbError>)
    ensures r.Failure? <==> !hasField
    ensures r.Failure? ==> r.error == SerializerException
    ensures r.Success? ==> r.value == MakeTable(pk, fks, cs) && Kclass(r.value) == pk.owner
  {
    if hasField then Success(MakeTable(pk, fks, cs)) else Failure(SerializerException)
  }

  /** A table that is built carries the defaulted key constraints, and it is
      named after the class that declares its key. */
  lemma NewTableBuilt(pk: Prop, hasField: bool, fks: seq<(Prop, string)>, cs: seq<(Prop, seq<C>)>)
    requires hasField
    ensures NewTable(pk, hasField, fks, cs).Success?
    ensures Name(NewTable(pk, hasField, fks, cs).value) == pk.owner
    ensures !HasEntry(cs, pk) ==> PrimaryKeyConstraints(NewTable(pk, hasField, fks, cs).value) == [AUTO_INC]
    ensures HasEntry(cs, pk) ==> PrimaryKeyConstraints(NewTable(pk, hasField, fks, cs).value) == cs[FirstEntry(cs, pk)].1
  {
    PrimaryKeyConstraintsDefault(pk, cs, fks);
  }

  /** The constraints of the first entry for `kprop`, or none. */
  function ConstraintsFor(t: Table, kprop: Prop): (r: seq<C>)
    ensures !HasEntry(t.constraints, kprop) ==> r == []
    ensures HasEntry(t.constraints, kprop) ==>
      exists i :: 0 <= i < |t.constraints| && t.constraints[i] == (kprop, r)
        && forall j :: 0 <= j < i ==> t.constraints[j].0 != kprop
  {
    var i := FirstEntry(t.constraints, kprop);
    if i < |t.constraints| then t.constraints[i].1 else []
  }

  function PrimaryKeyConstraints(t: Table): seq<C>
  {
    ConstraintsFor(t, t.primaryKey)
  }

  /** After construction the primary key's constraints are the user's own
      when they gave an entry for it, and `[AUTO_INC]` otherwise. */
  lemma {:induction false} PrimaryKeyConstraintsDefault(pk: Prop, cs: seq<(Prop, seq<C>)>, targets: seq<(Prop, string)>)
    ensures !HasEntry(cs, pk) ==> PrimaryKeyConstraints(MakeTable(pk, targets, cs)) == [AUTO_INC]
    ensures HasEntry(cs, pk) ==> PrimaryKeyConstraints(MakeTable(pk, targets, cs)) == cs[FirstEntry(cs, pk)].1
  {
    var t := MakeTable(pk, targets, cs);
    if !HasEntry(cs, pk) {
      FirstEntryAbsent(cs, pk);
      FirstEntryAppend(cs, pk, [AUTO_INC]);
    }
  }

  lemma FirstEntryAbsent(cs: seq<(Prop, seq<C>)>, k: Prop)
    requires !HasEntry(cs, k)
    ensures FirstEntry(cs, k) == |cs|
  {
  }

  lemma {:induction false} FirstEntryAppend(cs: seq<(Prop, seq<C>)>, k: Prop, v: seq<C>)
    requires FirstEntry(cs, k) == |cs|
    ensures FirstEntry(cs + [(k, v)], k) == |cs|
  {
    if cs != [] {
      assert (cs + [(k, v)])[1..] == cs[1..] + [(k, v)];
      FirstEntryAppend(cs[1..], k, v);
    }
  }
}
