/** `Schema`: a named group of registered tables. The serializer keeps its
    schemas in registration order; the exporters and the configuration
    checks walk every table with its schema in that order. */
module Schemas {
  import opened Tables

  datatype Schema = Schema(name: string, tables: seq<Table>)

  /** Every table with its schema, schema by schema, in registration
      order. */
  function Registered(ss: seq<Schema>): (es: seq<(Schema, Table)>)
  {
    if ss == [] then [] else Pairs(ss[0], ss[0].tables) + Registered(ss[1..])
  }

  function Pairs(s: Schema, ts: seq<Table>): (ps: seq<(Schema, Table)>)
    ensures |ps| == |ts|
    ensures forall i :: 0 <= i < |ts| ==> ps[i] == (s, ts[i])
  {
    if ts == [] then [] else [(s, ts[0])] + Pairs(s, ts[1..])
  }

  /** The registered tables alone, in registration order. */
  function TablesOf(ss: seq<Schema>): (ts: seq<Table>)
  {
    if ss == [] then [] else ss[0].tables + TablesOf(ss[1..])
  }

  /** The registered tables are the tables of the registered pairs. */
  lemma {:induction false} TablesOfRegistered(ss: seq<Schema>)
    ensures |TablesOf(ss)| == |Registered(ss)|
    ensures forall i :: 0 <= i < |TablesOf(ss)| ==> TablesOf(ss)[i] == Registered(ss)[i].1
  {
    if ss != [] {
      TablesOfRegistered(ss[1..]);
      var ps := Pairs(ss[0], ss[0].tables);
      assert Registered(ss) == ps + Registered(ss[1..]);
      assert TablesOf(ss) == ss[0].tables + TablesOf(ss[1..]);
      forall i | 0 <= i < |TablesOf(ss)|
        ensures TablesOf(ss)[i] == Registered(ss)[i].1
      {
        if i >= |ps| {
          assert TablesOf(ss)[i] == TablesOf(ss[1..])[i - |ps|];
        }
      }
    }
  }

  /** Some registered table has class `k`. */
  predicate Known(es: seq<(Schema, Table)>, k: string)
  {
    exists i :: 0 <= i < |es| && Kclass(es[i].1) == k
  }

  /** The first registered table of class `k`, as `firstOrNull` finds it,
      or `|es|`. */
  function FirstOf(es: seq<(Schema, Table)>, k: string): (i: nat)
    ensures i <= |es|
    ensures i < |es| ==> Kclass(es[i].1) == k
    ensures forall j :: 0 <= j < i ==> Kclass(es[j].1) != k
  {
    if es == [] then 0 else if Kclass(es[0].1) == k then 0 else 1 + FirstOf(es[1..], k)
  }

  /** `firstOrNull` finds a table exactly when some table has the class. */
  lemma FirstOfKnown(es: seq<(Schema, Table)>, k: string)
    ensures FirstOf(es, k) < |es| <==> Known(es, k)
  {
  }

  lemma {:induction false} RegisteredAppend(a: seq<Schema>, b: seq<Schema>)
    ensures Registered(a + b) == Registered(a) + Registered(b)
  {
    if a != [] {
      assert (a + b)[1..] == a[1..] + b;
      RegisteredAppend(a[1..], b);
    } else {
      assert a + b == b;
    }
  }

  /** Registration takes the schemas in order and, inside each, its tables
      in order. */
  lemma RegisteredSchema(ss: seq<Schema>, s: Schema)
    ensures Registered(ss + [s]) == Registered(ss) + Pairs(s, s.tables)
  {
    RegisteredAppend(ss, [s]);
    assert Registered([s]) == Pairs(s, s.tables) + Registered([]);
  }
}
