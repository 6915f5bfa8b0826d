/** `Exporter`: the PlantUML class diagram and the dbdiagram.io text of the
    registered schemas. Both first map every table class to its path
    `schema.Table` (dbdiagram.io also to its key's path `schema.Table.pk`),
    then write one block per table; a foreign key pointing at a class no
    schema registers fails with a `NullPointer`, the `!!` of the lookup.
    `kprops` stands for the reflective `ext_kprops` of a class. */
module Exporters {
  import opened Wrappers
  import opened Strings
  import opened DbData
  import opened Tables
  import opened Schemas

  /** A foreign key `fk` of the table at path `from`, pointing at class
      `target`. */
  datatype Edge = Edge(from: string, fk: Prop, target: string)

  /** `"${s.name}.${t.name}"`, with the table named after its class. */
  function PathOf(s: Schema, t: Table): string
  {
    s.name + "." + Name(t)
  }

  /** Within one schema, two tables get the same path exactly when they
      belong to the same class. */
  lemma PathIdentifiesClass(s: Schema, a: Table, b: Table)
    ensures PathOf(s, a) == PathOf(s, b) <==> Kclass(a) == Kclass(b)
  {
    var pre := s.name + ".";
    assert PathOf(s, a) == pre + Name(a) && PathOf(s, b) == pre + Name(b);
    if PathOf(s, a) == PathOf(s, b) {
      assert Name(a) == (pre + Name(a))[|pre|..] == (pre + Name(b))[|pre|..] == Name(b);
    }
  }

  /** `"${s.name}.${t.name}.${t.primaryKey.name}"`. */
  function KeyPathOf(s: Schema, t: Table): string
  {
    PathOf(s, t) + "." + t.primaryKey.name
  }

  /** The map the exporters fill in registration order: class to `f` of
      its table, a later registration of a class overwriting an earlier
      one. */
  function Register(es: seq<(Schema, Table)>, f: (Schema, Table) -> string): map<string, string>
  {
    if es == [] then map[]
    else
      var n := |es| - 1;
      Register(es[..n], f)[Kclass(es[n].1) := f(es[n].0, es[n].1)]
  }

  /** A class is in the map exactly when some registered table has it. */
  lemma {:induction false} RegisterKeys(es: seq<(Schema, Table)>, f: (Schema, Table) -> string, k: string)
    ensures k in Register(es, f) <==> Known(es, k)
  {
    if es != [] {
      var n := |es| - 1;
      RegisterKeys(es[..n], f, k);
      if k in Register(es[..n], f) {
        var i :| 0 <= i < n && Kclass(es[..n][i].1) == k;
        assert Kclass(es[i].1) == k;
      }
      if exists i :: 0 <= i < |es| && Kclass(es[i].1) == k {
        var i :| 0 <= i < |es| && Kclass(es[i].1) == k;
        if i < n {
          assert Kclass(es[..n][i].1) == k;
        }
      }
    }
  }

  /** A class maps to `f` of its last registered table. */
  lemma {:induction false} RegisterValue(es: seq<(Schema, Table)>, f: (Schema, Table) -> string, k: string)
    requires k in Register(es, f)
    ensures exists i :: (0 <= i < |es| && Kclass(es[i].1) == k && Register(es, f)[k] == f(es[i].0, es[i].1)
      && forall j :: i < j < |es| ==> Kclass(es[j].1) != k)
  {
    var n := |es| - 1;
    var m := Register(es[..n], f);
    assert Register(es, f) == m[Kclass(es[n].1) := f(es[n].0, es[n].1)];
    if Kclass(es[n].1) != k {
      assert k in m;
      RegisterValue(es[..n], f, k);
      var i :| 0 <= i < n && Kclass(es[..n][i].1) == k && m[k] == f(es[..n][i].0, es[..n][i].1)
        && forall j :: i < j < n ==> Kclass(es[..n][j].1) != k;
      assert es[..n][i] == es[i];
      assert Register(es, f)[k] == m[k];
      forall j | i < j < |es|
        ensures Kclass(es[j].1) != k
      {
        if j < n {
          assert es[..n][j] == es[j];
        }
      }
    } else {
      assert Register(es, f)[k] == f(es[n].0, es[n].1);
    }
  }

  /** The foreign keys of every table, in registration order, each with the
      path of its own table. */
  function Edges(es: seq<(Schema, Table)>): (r: seq<Edge>)
  {
    if es == [] then [] else TableEdges(es[0].0, es[0].1, es[0].1.foreignKeys) + Edges(es[1..])
  }

  function TableEdges(s: Schema, t: Table, fks: seq<(Prop, string)>): (r: seq<Edge>)
    ensures |r| == |fks|
    ensures forall i :: 0 <= i < |fks| ==> r[i] == Edge(PathOf(s, t), fks[i].0, fks[i].1)
  {
    if fks == [] then [] else [Edge(PathOf(s, t), fks[0].0, fks[0].1)] + TableEdges(s, t, fks[1..])
  }

  /** Every foreign key points at a registered class. */
  predicate TargetsRegistered(ss: seq<Schema>)
  {
    EdgesKnown(Registered(ss), Edges(Registered(ss)))
  }

  predicate EdgesKnown(es: seq<(Schema, Table)>, edges: seq<Edge>)
  {
    forall i :: 0 <= i < |edges| ==> Known(es, edges[i].target)
  }

  /** Every target is a key of `m`. */
  predicate EdgesIn(edges: seq<Edge>, m: map<string, string>)
  {
    forall i :: 0 <= i < |edges| ==> edges[i].target in m
  }

  /** `kclass_to_path[t.kclass]` as a string template prints it. */
  function ClassName(paths: map<string, string>, t: Table): string
  {
    if Kclass(t) in paths then paths[Kclass(t)] else "null"
  }

  /** One line per property: `indent`, its name, `sep` and its type. */
  function PropLines(ps: seq<Prop>, indent: string, sep: string): (ls: seq<string>)
    ensures |ls| == |ps|
    ensures forall i :: 0 <= i < |ps| ==> ls[i] == indent + ps[i].name + sep + ps[i].typeName
  {
    if ps == [] then [] else [indent + ps[0].name + sep + ps[0].typeName] + PropLines(ps[1..], indent, sep)
  }

  // PlantUML.

  const Header: seq<string> := ["@startuml", "skinparam backgroundColor darkgray", "skinparam ClassBackgroundColor lightgray"]

  function PkLine(t: Table): string
  {
    "\t\t" + t.primaryKey.name + ": " + t.primaryKey.typeName
  }

  /** The foreign key lines: the key's name and the target's class. */
  function FkLines(fks: seq<(Prop, string)>): (ls: seq<string>)
    ensures |ls| == |fks|
    ensures forall i :: 0 <= i < |fks| ==> ls[i] == "\t\t" + fks[i].0.name + ": " + fks[i].1
  {
    if fks == [] then [] else ["\t\t" + fks[0].0.name + ": " + fks[0].1] + FkLines(fks[1..])
  }

  datatype Flags = Flags(withPrimaryKey: bool, withForeignKeys: bool, withOtherColumns: bool)

  /** The class block's parts: its header, then the lines each flag
      shows, then the closing line. */
  function ClassHead(paths: map<string, string>, t: Table): string
  {
    "\tclass " + ClassName(paths, t) + " {"
  }

  function PkPart(t: Table, on: bool): seq<string>
  {
    if on then [PkLine(t)] else []
  }

  function FkPart(t: Table, on: bool): seq<string>
  {
    if on then FkLines(t.foreignKeys) else []
  }

  function OtherPart(kprops: string -> seq<Prop>, t: Table, on: bool): seq<string>
  {
    if on then PropLines(kprops(Kclass(t)), "\t\t", ": ") else []
  }

  function ClassBlock(paths: map<string, string>, kprops: string -> seq<Prop>, t: Table, f: Flags): seq<string>
  {
    [ClassHead(paths, t)] + PkPart(t, f.withPrimaryKey) + FkPart(t, f.withForeignKeys)
      + OtherPart(kprops, t, f.withOtherColumns) + ["\t}"]
  }

  function Classes(paths: map<string, string>, kprops: string -> seq<Prop>, ts: seq<Table>, f: Flags): seq<string>
  {
    if ts == [] then [] else ClassBlock(paths, kprops, ts[0], f) + Classes(paths, kprops, ts[1..], f)
  }

  function PackageBlock(paths: map<string, string>, kprops: string -> seq<Prop>, s: Schema, f: Flags): seq<string>
  {
    ["package " + s.name + " <<Folder>> {"] + Classes(paths, kprops, s.tables, f) + ["}"]
  }

  function Packages(paths: map<string, string>, kprops: string -> seq<Prop>, ss: seq<Schema>, f: Flags): seq<string>
  {
    if ss == [] then [] else PackageBlock(paths, kprops, ss[0], f) + Packages(paths, kprops, ss[1..], f)
  }

  function Relationship(paths: map<string, string>, e: Edge): string
    requires e.target in paths
  {
    e.from + " -down-> " + paths[e.target] + ": " + e.fk.name
  }

  /** The relationship lines, failing at the first target that is not
      registered. */
  function Relationships(paths: map<string, string>, es: seq<Edge>): (r: Result<seq<string>, DbError>)
    ensures r.Success? <==> forall i :: 0 <= i < |es| ==> es[i].target in paths
    ensures r.Failure? ==> r.error == NullPointer
    ensures r.Success? ==> |r.value| == |es| && forall i :: 0 <= i < |es| ==> r.value[i] == Relationship(paths, es[i])
  {
    if es == [] then Success([])
    else if es[0].target !in paths then Failure(NullPointer)
    else
      var rest :- Relationships(paths, es[1..]);
      Success([Relationship(paths, es[0])] + rest)
  }

  function PlantUmlLines(ss: seq<Schema>, kprops: string -> seq<Prop>, f: Flags): Result<seq<string>, DbError>
  {
    var es := Registered(ss);
    var paths := Register(es, PathOf);
    var relationships :- Relationships(paths, Edges(es));
    Success(Header + [""] + Packages(paths, kprops, ss, f) + [""] + relationships + ["", "@enduml"])
  }

  /** `plantUML`. */
  function PlantUml(ss: seq<Schema>, kprops: string -> seq<Prop>, f: Flags): Result<string, DbError>
  {
    var lines :- PlantUmlLines(ss, kprops, f);
    Success(Join(lines, "\n"))
  }

  // dbdiagram.io.

  function Reference(keys: map<string, string>, fk: (Prop, string)): string
    requires fk.1 in keys
  {
    "\t" + fk.0.name + " " + fk.1 + " [ref: > " + keys[fk.1] + "]"
  }

  /** The reference lines of one table, failing at the first target that
      is not registered. */
  function References(keys: map<string, string>, fks: seq<(Prop, string)>): (r: Result<seq<string>, DbError>)
    ensures r.Success? <==> forall i :: 0 <= i < |fks| ==> fks[i].1 in keys
    ensures r.Failure? ==> r.error == NullPointer
    ensures r.Success? ==> |r.value| == |fks| && forall i :: 0 <= i < |fks| ==> r.value[i] == Reference(keys, fks[i])
  {
    if fks == [] then Success([])
    else if fks[0].1 !in keys then Failure(NullPointer)
    else
      var rest :- References(keys, fks[1..]);
      Success([Reference(keys, fks[0])] + rest)
  }

  function TableBlock(paths: map<string, string>, keys: map<string, string>, kprops: string -> seq<Prop>, t: Table, withOtherColumns: bool): Result<seq<string>, DbError>
  {
    var refs :- References(keys, t.foreignKeys);
    Success(["Table " + ClassName(paths, t) + " {", "\t" + t.primaryKey.name + " " + t.primaryKey.typeName + " [primary key]"]
      + refs
      + (if withOtherColumns then PropLines(kprops(Kclass(t)), "\t", " ") else [])
      + ["}"])
  }

  function TableBlocks(paths: map<string, string>, keys: map<string, string>, kprops: string -> seq<Prop>, es: seq<(Schema, Table)>, withOtherColumns: bool): Result<seq<string>, DbError>
  {
    if es == [] then Success([])
    else
      var first :- TableBlock(paths, keys, kprops, es[0].1, withOtherColumns);
      var rest :- TableBlocks(paths, keys, kprops, es[1..], withOtherColumns);
      Success(first + rest)
  }

  function GroupMembers(paths: map<string, string>, ts: seq<Table>): (ls: seq<string>)
    ensures |ls| == |ts|
    ensures forall i :: 0 <= i < |ts| ==> ls[i] == "\t" + ClassName(paths, ts[i])
  {
    if ts == [] then [] else ["\t" + ClassName(paths, ts[0])] + GroupMembers(paths, ts[1..])
  }

  function GroupBlock(paths: map<string, string>, s: Schema): seq<string>
  {
    ["TableGroup " + s.name + " {"] + GroupMembers(paths, s.tables) + ["}"]
  }

  function Groups(paths: map<string, string>, ss: seq<Schema>): seq<string>
  {
    if ss == [] then [] else GroupBlock(paths, ss[0]) + Groups(paths, ss[1..])
  }

  function DbDiagramLines(ss: seq<Schema>, kprops: string -> seq<Prop>, withOtherColumns: bool): Result<seq<string>, DbError>
  {
    var es := Registered(ss);
    var paths := Register(es, PathOf);
    var keys := Register(es, KeyPathOf);
    var tables :- TableBlocks(paths, keys, kprops, es, withOtherColumns);
    Success(tables + [""] + Groups(paths, ss))
  }

  /** `dbDiagramIO`. */
  function DbDiagramIO(ss: seq<Schema>, kprops: string -> seq<Prop>, withOtherColumns: bool): Result<string, DbError>
  {
    var lines :- DbDiagramLines(ss, kprops, withOtherColumns);
    Success(Join(lines, "\n"))
  }

  // Properties shared by both exporters.

  lemma {:induction false} EdgesAppend(a: seq<(Schema, Table)>, b: seq<(Schema, Table)>)
    ensures Edges(a + b) == Edges(a) + Edges(b)
  {
    if a != [] {
      assert (a + b)[1..] == a[1..] + b;
      assert (a + b)[0] == a[0];
      EdgesAppend(a[1..], b);
    } else {
      assert a + b == b;
    }
  }

  /** One more registered table adds exactly its own foreign keys, in
      their order, at the end of the edge list. */
  lemma EdgesTable(es: seq<(Schema, Table)>, s: Schema, t: Table)
    ensures Edges(es + [(s, t)]) == Edges(es) + TableEdges(s, t, t.foreignKeys)
    ensures |Edges(es + [(s, t)])| == |Edges(es)| + |t.foreignKeys|
  {
    EdgesAppend(es, [(s, t)]);
    assert Edges([(s, t)]) == TableEdges(s, t, t.foreignKeys) + Edges([]);
  }

  /** Every edge is a foreign key of a registered table, starting at that
      table's path. */
  lemma {:induction false} EdgeOrigin(es: seq<(Schema, Table)>, i: nat)
    requires i < |Edges(es)|
    ensures exists k, j :: (0 <= k < |es| && 0 <= j < |es[k].1.foreignKeys|
      && Edges(es)[i] == Edge(PathOf(es[k].0, es[k].1), es[k].1.foreignKeys[j].0, es[k].1.foreignKeys[j].1))
  {
    var own := TableEdges(es[0].0, es[0].1, es[0].1.foreignKeys);
    assert Edges(es) == own + Edges(es[1..]);
    if i < |own| {
      assert Edges(es)[i] == own[i];
      assert 0 <= 0 < |es| && 0 <= i < |es[0].1.foreignKeys|;
    } else {
      EdgeOrigin(es[1..], i - |own|);
      var k, j :| 0 <= k < |es[1..]| && 0 <= j < |es[1..][k].1.foreignKeys|
        && Edges(es[1..])[i - |own|] == Edge(PathOf(es[1..][k].0, es[1..][k].1), es[1..][k].1.foreignKeys[j].0, es[1..][k].1.foreignKeys[j].1);
      assert es[1..][k] == es[k + 1];
      assert Edges(es)[i] == Edges(es[1..])[i - |own|];
    }
  }

  /** Whatever the map's values, its keys are the registered classes, so
      every target is a key exactly when every target is registered. */
  lemma TargetsKnown(ss: seq<Schema>, f: (Schema, Table) -> string)
    ensures EdgesIn(Edges(Registered(ss)), Register(Registered(ss), f)) <==> TargetsRegistered(ss)
  {
    var es := Registered(ss);
    var edges := Edges(es);
    forall i | 0 <= i < |edges|
      ensures edges[i].target in Register(es, f) <==> Known(es, edges[i].target)
    {
      RegisterKeys(es, f, edges[i].target);
    }
  }

  // PlantUML.

  /** The diagram fails, with a `NullPointer`, exactly when some foreign
      key points at a class no schema registers; the flags play no part. */
  lemma PlantUmlFails(ss: seq<Schema>, kprops: string -> seq<Prop>, f: Flags)
    ensures PlantUml(ss, kprops, f).Failure? <==> !TargetsRegistered(ss)
    ensures PlantUml(ss, kprops, f).Failure? ==> PlantUml(ss, kprops, f).error == NullPointer
  {
    TargetsKnown(ss, PathOf);
  }

  /** A diagram opens with the three header lines and a blank line, closes
      with a blank line and `@enduml`, and just before that lists one
      relationship per foreign key, in registration order, whichever
      columns the flags show. */
  lemma PlantUmlFrame(ss: seq<Schema>, kprops: string -> seq<Prop>, f: Flags)
    requires TargetsRegistered(ss)
    ensures PlantUmlLines(ss, kprops, f).Success?
    ensures FramedBy(PlantUmlLines(ss, kprops, f).value, Edges(Registered(ss)), Register(Registered(ss), PathOf))
  {
    var es := Registered(ss);
    var paths := Register(es, PathOf);
    var edges := Edges(es);
    TargetsKnown(ss, PathOf);
    var r := Relationships(paths, edges);
    assert r.Success?;
    var packages := Packages(paths, kprops, ss, f);
    assert PlantUmlLines(ss, kprops, f) == Success(Header + [""] + packages + [""] + r.value + ["", "@enduml"]);
    Framed(packages, r.value, edges, paths);
  }

  /** `lines` open with the header and a blank line, and close with one
      relationship per edge, in order, a blank line and `@enduml`. */
  predicate FramedBy(lines: seq<string>, edges: seq<Edge>, paths: map<string, string>)
  {
    var n := |lines|;
    n >= 6 + |edges|
    && lines[..4] == Header + [""]
    && lines[n - 2..] == ["", "@enduml"]
    && forall i :: 0 <= i < |edges| ==>
         edges[i].target in paths && lines[n - 2 - |edges| + i] == Relationship(paths, edges[i])
  }

  lemma Framed(packages: seq<string>, rels: seq<string>, edges: seq<Edge>, paths: map<string, string>)
    requires |rels| == |edges|
    requires forall i :: 0 <= i < |edges| ==> edges[i].target in paths && rels[i] == Relationship(paths, edges[i])
    ensures FramedBy(Header + [""] + packages + [""] + rels + ["", "@enduml"], edges, paths)
  {
    FrameSlots(packages, rels);
  }

  /** Where the header, the relationships and the closing lines sit. */
  lemma FrameSlots(packages: seq<string>, rels: seq<string>)
    ensures var lines := Header + [""] + packages + [""] + rels + ["", "@enduml"];
      var n := |lines|;
      n >= 6 + |rels|
      && lines[..4] == Header + [""]
      && lines[n - 2..] == ["", "@enduml"]
      && forall i :: 0 <= i < |rels| ==> lines[n - 2 - |rels| + i] == rels[i]
  {
    var lines := Header + [""] + packages + [""] + rels + ["", "@enduml"];
    assert lines == (Header + [""]) + (packages + [""] + rels + ["", "@enduml"]);
  }

  /** A relationship starts at the path of the table declaring the
      foreign key and ends at the path `schema.Table` of the last table
      registered for the target class. */
  lemma RelationshipTarget(ss: seq<Schema>, e: Edge)
    requires e.target in Register(Registered(ss), PathOf)
    ensures var es := Registered(ss);
      exists i :: (0 <= i < |es| && Kclass(es[i].1) == e.target
        && (forall j :: i < j < |es| ==> Kclass(es[j].1) != e.target)
        && Relationship(Register(es, PathOf), e) == e.from + " -down-> " + PathOf(es[i].0, es[i].1) + ": " + e.fk.name)
  {
    RegisterValue(Registered(ss), PathOf, e.target);
  }

  /** Lines inserted between `a` and `b`. */
  lemma Inserted(a: seq<string>, x: seq<string>, b: seq<string>)
    ensures |a| <= |a + b| && a + x + b == (a + b)[..|a|] + x + (a + b)[|a|..]
  {
    assert (a + b)[..|a|] == a && (a + b)[|a|..] == b;
  }

  /** Showing the primary key inserts exactly its line after the class
      header. */
  lemma ClassBlockPrimaryKey(paths: map<string, string>, kprops: string -> seq<Prop>, t: Table, f: Flags)
    ensures var off := ClassBlock(paths, kprops, t, f.(withPrimaryKey := false));
      ClassBlock(paths, kprops, t, f.(withPrimaryKey := true)) == off[..1] + [PkLine(t)] + off[1..]
  {
    var h, fk, other := [ClassHead(paths, t)], FkPart(t, f.withForeignKeys), OtherPart(kprops, t, f.withOtherColumns);
    var rest := fk + other + ["\t}"];
    assert ClassBlock(paths, kprops, t, f.(withPrimaryKey := false)) == h + [] + fk + other + ["\t}"];
    RegroupTail(h, [], fk, other, ["\t}"]);
    assert h + [] == h;
    assert ClassBlock(paths, kprops, t, f.(withPrimaryKey := true)) == h + [PkLine(t)] + fk + other + ["\t}"];
    RegroupTail(h, [PkLine(t)], fk, other, ["\t}"]);
    Inserted(h, [PkLine(t)], rest);
  }

  lemma RegroupTail(a: seq<string>, b: seq<string>, c: seq<string>, d: seq<string>, e: seq<string>)
    ensures a + b + c + d + e == (a + b) + (c + d + e)
  {
  }

  /** Showing the foreign keys inserts exactly their lines, in their order,
      after the header and the primary key line. */
  lemma ClassBlockForeignKeys(paths: map<string, string>, kprops: string -> seq<Prop>, t: Table, f: Flags)
    ensures var off := ClassBlock(paths, kprops, t, f.(withForeignKeys := false));
      var k := if f.withPrimaryKey then 2 else 1;
      k <= |off| && ClassBlock(paths, kprops, t, f.(withForeignKeys := true)) == off[..k] + FkLines(t.foreignKeys) + off[k..]
  {
    var head := [ClassHead(paths, t)] + PkPart(t, f.withPrimaryKey);
    var other := OtherPart(kprops, t, f.withOtherColumns);
    var tail := other + ["\t}"];
    var fks := FkLines(t.foreignKeys);
    assert |head| == if f.withPrimaryKey then 2 else 1;
    assert ClassBlock(paths, kprops, t, f.(withForeignKeys := false)) == head + [] + other + ["\t}"];
    assert head + [] == head;
    Assoc(head, other, ["\t}"]);
    assert ClassBlock(paths, kprops, t, f.(withForeignKeys := true)) == head + fks + other + ["\t}"];
    Assoc(head + fks, other, ["\t}"]);
    Inserted(head, fks, tail);
  }

  /** Showing the other columns inserts exactly their lines just before the
      closing line. */
  lemma ClassBlockOtherColumns(paths: map<string, string>, kprops: string -> seq<Prop>, t: Table, f: Flags)
    ensures var off := ClassBlock(paths, kprops, t, f.(withOtherColumns := false));
      |off| >= 2 && off[|off| - 1] == "\t}"
      && ClassBlock(paths, kprops, t, f.(withOtherColumns := true)) == off[..|off| - 1] + PropLines(kprops(Kclass(t)), "\t\t", ": ") + ["\t}"]
  {
    var head := [ClassHead(paths, t)] + PkPart(t, f.withPrimaryKey) + FkPart(t, f.withForeignKeys);
    var props := PropLines(kprops(Kclass(t)), "\t\t", ": ");
    var off := ClassBlock(paths, kprops, t, f.(withOtherColumns := false));
    assert off == head + [] + ["\t}"];
    assert head + [] == head;
    ClosedBy(head);
    assert ClassBlock(paths, kprops, t, f.(withOtherColumns := true)) == head + props + ["\t}"];
  }

  /** A block closed by `\t}` has that line last and the rest before it. */
  lemma ClosedBy(head: seq<string>)
    requires |head| >= 1
    ensures var off := head + ["\t}"];
      |off| >= 2 && off[|off| - 1] == "\t}" && off[..|off| - 1] == head
  {
    var off := head + ["\t}"];
    assert off[..|off| - 1] == head;
  }

  lemma {:induction false} PackagesAppend(paths: map<string, string>, kprops: string -> seq<Prop>, a: seq<Schema>, b: seq<Schema>, f: Flags)
    ensures Packages(paths, kprops, a + b, f) == Packages(paths, kprops, a, f) + Packages(paths, kprops, b, f)
  {
    if a != [] {
      assert (a + b)[1..] == a[1..] + b;
      assert (a + b)[0] == a[0];
      var head := PackageBlock(paths, kprops, a[0], f);
      PackagesAppend(paths, kprops, a[1..], b, f);
      calc {
        Packages(paths, kprops, a + b, f);
        head + Packages(paths, kprops, a[1..] + b, f);
        head + (Packages(paths, kprops, a[1..], f) + Packages(paths, kprops, b, f));
        { Assoc(head, Packages(paths, kprops, a[1..], f), Packages(paths, kprops, b, f)); }
        (head + Packages(paths, kprops, a[1..], f)) + Packages(paths, kprops, b, f);
        Packages(paths, kprops, a, f) + Packages(paths, kprops, b, f);
      }
    } else {
      assert a + b == b;
    }
  }

  /** Each schema adds one `package` block, after those of the schemas
      registered before it. */
  lemma PackagesSchema(paths: map<string, string>, kprops: string -> seq<Prop>, ss: seq<Schema>, s: Schema, f: Flags)
    ensures Packages(paths, kprops, ss + [s], f)
         == Packages(paths, kprops, ss, f) + ["package " + s.name + " <<Folder>> {"] + Classes(paths, kprops, s.tables, f) + ["}"]
  {
    var open, classes, close := ["package " + s.name + " <<Folder>> {"], Classes(paths, kprops, s.tables, f), ["}"];
    PackagesAppend(paths, kprops, ss, [s], f);
    PackagesOne(paths, kprops, s, f);
    assert Packages(paths, kprops, [s], f) == open + classes + close;
    ConcatFour(Packages(paths, kprops, ss, f), open, classes, close);
  }

  lemma PackagesOne(paths: map<string, string>, kprops: string -> seq<Prop>, s: Schema, f: Flags)
    ensures Packages(paths, kprops, [s], f) == PackageBlock(paths, kprops, s, f)
  {
    assert [s][1..] == [];
  }

  // dbdiagram.io.

  /** One table's block fails exactly when one of its foreign keys has no
      key path. */
  lemma TableBlockFails(paths: map<string, string>, keys: map<string, string>, kprops: string -> seq<Prop>, s: Schema, t: Table, w: bool)
    ensures TableBlock(paths, keys, kprops, t, w).Success? <==> EdgesIn(TableEdges(s, t, t.foreignKeys), keys)
    ensures TableBlock(paths, keys, kprops, t, w).Failure? ==> TableBlock(paths, keys, kprops, t, w).error == NullPointer
  {
    var own := TableEdges(s, t, t.foreignKeys);
    assert forall i :: 0 <= i < |own| ==> own[i].target == t.foreignKeys[i].1;
  }

  /** The table blocks fail exactly when a foreign key of some table has no
      key path. */
  lemma {:induction false} TableBlocksFail(paths: map<string, string>, keys: map<string, string>, kprops: string -> seq<Prop>, es: seq<(Schema, Table)>, w: bool)
    ensures TableBlocks(paths, keys, kprops, es, w).Success? <==> EdgesIn(Edges(es), keys)
    ensures TableBlocks(paths, keys, kprops, es, w).Failure? ==> TableBlocks(paths, keys, kprops, es, w).error == NullPointer
  {
    if es != [] {
      TableBlocksFail(paths, keys, kprops, es[1..], w);
      TableBlockFails(paths, keys, kprops, es[0].0, es[0].1, w);
      InConcat(TableEdges(es[0].0, es[0].1, es[0].1.foreignKeys), Edges(es[1..]), keys);
    }
  }

  lemma InConcat(a: seq<Edge>, b: seq<Edge>, m: map<string, string>)
    ensures EdgesIn(a + b, m) <==> EdgesIn(a, m) && EdgesIn(b, m)
  {
    if EdgesIn(a, m) && EdgesIn(b, m) {
      forall i | 0 <= i < |a + b|
        ensures (a + b)[i].target in m
      {
        if i >= |a| {
          assert (a + b)[i] == b[i - |a|];
        }
      }
    }
    if EdgesIn(a + b, m) {
      forall i | 0 <= i < |a|
        ensures a[i].target in m
      {
        assert (a + b)[i] == a[i];
      }
      forall i | 0 <= i < |b|
        ensures b[i].target in m
      {
        assert (a + b)[|a| + i] == b[i];
      }
    }
  }

  /** The dbdiagram.io text fails, with a `NullPointer`, exactly when some
      foreign key points at a class no schema registers. */
  lemma DbDiagramFails(ss: seq<Schema>, kprops: string -> seq<Prop>, w: bool)
    ensures DbDiagramIO(ss, kprops, w).Failure? <==> !TargetsRegistered(ss)
    ensures DbDiagramIO(ss, kprops, w).Failure? ==> DbDiagramIO(ss, kprops, w).error == NullPointer
  {
    var es := Registered(ss);
    TargetsKnown(ss, KeyPathOf);
    TableBlocksFail(Register(es, PathOf), Register(es, KeyPathOf), kprops, es, w);
  }

  /** A reference names the key's path `schema.Table.pk` of the last table
      registered for the target class. */
  lemma ReferenceTarget(ss: seq<Schema>, fk: (Prop, string))
    requires fk.1 in Register(Registered(ss), KeyPathOf)
    ensures var es := Registered(ss);
      exists i :: (0 <= i < |es| && Kclass(es[i].1) == fk.1
        && (forall j :: i < j < |es| ==> Kclass(es[j].1) != fk.1)
        && Reference(Register(es, KeyPathOf), fk) == "\t" + fk.0.name + " " + fk.1 + " [ref: > " + KeyPathOf(es[i].0, es[i].1) + "]")
  {
    RegisterValue(Registered(ss), KeyPathOf, fk.1);
  }

  lemma {:induction false} GroupsAppend(paths: map<string, string>, a: seq<Schema>, b: seq<Schema>)
    ensures Groups(paths, a + b) == Groups(paths, a) + Groups(paths, b)
  {
    if a != [] {
      assert (a + b)[1..] == a[1..] + b;
      assert (a + b)[0] == a[0];
      var head := GroupBlock(paths, a[0]);
      GroupsAppend(paths, a[1..], b);
      calc {
        Groups(paths, a + b);
        head + Groups(paths, a[1..] + b);
        head + (Groups(paths, a[1..]) + Groups(paths, b));
        { Assoc(head, Groups(paths, a[1..]), Groups(paths, b)); }
        (head + Groups(paths, a[1..])) + Groups(paths, b);
        Groups(paths, a) + Groups(paths, b);
      }
    } else {
      assert a + b == b;
    }
  }

  /** Each schema adds one `TableGroup` listing its tables' paths, after
      the groups of the schemas registered before it; there are two lines
      per schema and one per table. */
  lemma GroupsSchema(paths: map<string, string>, ss: seq<Schema>, s: Schema)
    ensures Groups(paths, ss + [s]) == Groups(paths, ss) + ["TableGroup " + s.name + " {"] + GroupMembers(paths, s.tables) + ["}"]
    ensures |Groups(paths, ss + [s])| == |Groups(paths, ss)| + 2 + |s.tables|
  {
    var open, members, close := ["TableGroup " + s.name + " {"], GroupMembers(paths, s.tables), ["}"];
    GroupsAppend(paths, ss, [s]);
    GroupsOne(paths, s);
    assert Groups(paths, [s]) == open + members + close;
    ConcatFour(Groups(paths, ss), open, members, close);
  }

  lemma GroupsOne(paths: map<string, string>, s: Schema)
    ensures Groups(paths, [s]) == GroupBlock(paths, s)
  {
    assert [s][1..] == [];
  }

  lemma ConcatFour(w: seq<string>, x: seq<string>, y: seq<string>, z: seq<string>)
    ensures w + (x + y + z) == w + x + y + z
    ensures |w + x + y + z| == |w| + |x| + |y| + |z|
  {
  }

  /** Every table block comes before the blank line, and the groups after
      it. */
  lemma DbDiagramLayout(ss: seq<Schema>, kprops: string -> seq<Prop>, w: bool)
    requires TargetsRegistered(ss)
    ensures var es := Registered(ss);
      var paths := Register(es, PathOf);
      var tables := TableBlocks(paths, Register(es, KeyPathOf), kprops, es, w);
      var r := DbDiagramLines(ss, kprops, w);
      tables.Success? && r.Success?
      && r.value[..|tables.value|] == tables.value
      && r.value[|tables.value|] == ""
      && r.value[|tables.value| + 1..] == Groups(paths, ss)
  {
    var es := Registered(ss);
    var paths := Register(es, PathOf);
    var tables := TableBlocks(paths, Register(es, KeyPathOf), kprops, es, w);
    DbDiagramFails(ss, kprops, w);
    assert tables.Success?;
    assert DbDiagramLines(ss, kprops, w).value == tables.value + [""] + Groups(paths, ss);
    SplitAtBlank(tables.value, Groups(paths, ss));
  }

  lemma SplitAtBlank(a: seq<string>, b: seq<string>)
    ensures var r := a + [""] + b;
      r[..|a|] == a && r[|a|] == "" && r[|a| + 1..] == b
  {
  }
}
