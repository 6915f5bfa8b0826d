/** `SerializerTests`: the checks a serializer runs over its configuration
    before it touches a database. Each check walks the schemas and their
    tables in registration order and throws a `SerializerTestsException` at
    the first offence; here a check is an `Outcome` that passes or fails
    with the offence it met first. `kprops` and `kparams` stand for the
    reflective `ext_kprops` and `ext_kparams` of a class: its properties,
    and its constructor parameters (`None` when they cannot be read, a
    `None` name for a parameter without one). */
module SerializerChecks {
  import opened Wrappers
  import opened DbData
  import opened Columns
  import opened Tables
  import opened Schemas
  import Exporters
  import PgSerializers
  import Db2Serializers

  datatype TestError =
    | NoTable
    | InvalidName(group: string, name: string)
    | UnnamedParameter(kclass: string)
    | MissingParameters(kclass: string)
    | AutoUuidKey(pk: Prop)
    | OptionalImmutableKey(pk: Prop)
    | MutableRequiredKey(pk: Prop)
    | KeyType(pk: Prop)
    | ForeignKeyIsPrimary(pk: Prop)
    | UnregisteredTarget(fk: Prop, target: string)
    | TargetKeyType(fk: Prop, pk: Prop)
    | KeyConstraint(pk: Prop, c: C)

  /** `a`, then `b` if `a` passed: two checks run one after the other. */
  function AndThen(a: Outcome<TestError>, b: Outcome<TestError>): (r: Outcome<TestError>)
    ensures r.Pass? <==> a.Pass? && b.Pass?
    ensures a.Fail? ==> r == a
  {
    if a.Fail? then a else b
  }

  /** `forEach` over a check that throws: the first element that fails
      decides the outcome. */
  function Each<T>(xs: seq<T>, check: T -> Outcome<TestError>): (r: Outcome<TestError>)
    ensures r.Pass? <==> forall i :: 0 <= i < |xs| ==> check(xs[i]).Pass?
    ensures r.Fail? ==> exists i :: 0 <= i < |xs| && r == check(xs[i]) && forall j :: 0 <= j < i ==> check(xs[j]).Pass?
  {
    if xs == [] then Pass
    else if check(xs[0]).Fail? then check(xs[0])
    else
      var r := Each(xs[1..], check);
      if r.Fail? then
        var i :| 0 <= i < |xs[1..]| && r == check(xs[1..][i]) && forall j :: 0 <= j < i ==> check(xs[1..][j]).Pass?;
        assert r == check(xs[i + 1]);
        assert forall j :: 1 <= j < i + 1 ==> xs[j] == xs[1..][j - 1];
        r
      else r
  }

  // Emptiness.

  /** The first schema exists and has a table. */
  function AtLeastOneTable(ss: seq<Schema>): (r: Outcome<TestError>)
    ensures r.Pass? <==> |ss| > 0 && |ss[0].tables| > 0
    ensures r.Fail? ==> r.error == NoTable
  {
    if |ss| > 0 && |ss[0].tables| > 0 then Pass else Fail(NoTable)
  }

  // Names.

  predicate IsLetter(c: char)
  {
    'a' <= c <= 'z' || 'A' <= c <= 'Z'
  }

  predicate IsDigit(c: char)
  {
    '0' <= c <= '9'
  }

  /** A name is a C identifier: the whole of it matches
      `[a-zA-Z_][a-zA-Z0-9_]*`. */
  predicate ValidName(s: string)
  {
    |s| > 0 && (IsLetter(s[0]) || s[0] == '_')
    && forall i :: 1 <= i < |s| ==> IsLetter(s[i]) || IsDigit(s[i]) || s[i] == '_'
  }

  /** The states of the pattern's automaton: nothing read yet, a name read
      so far, and a character the pattern cannot take. */
  datatype MatchState = Start | InName | Dead

  function Step(q: MatchState, c: char): MatchState
  {
    match q
    case Start => if IsLetter(c) || c == '_' then InName else Dead
    case InName => if IsLetter(c) || IsDigit(c) || c == '_' then InName else Dead
    case Dead => Dead
  }

  /** `matchEntire`: run the automaton over the whole name and accept when
      it ends inside a name. */
  method MatchEntire(name: string) returns (ok: bool)
    ensures ok <==> ValidName(name)
  {
    var q := Start;
    var i := 0;
    while i < |name|
      invariant 0 <= i <= |name|
      invariant q == Start <==> i == 0
      invariant q == InName <==> i > 0 && ValidName(name[..i])
      invariant q == Dead <==> i > 0 && !ValidName(name[..i])
    {
      assert name[..i + 1][..i] == name[..i];
      q := Step(q, name[i]);
      i := i + 1;
    }
    assert name[..i] == name;
    ok := q == InName;
  }

  /** `assertValidName`. */
  function AssertValidName(group: string, name: string): (r: Outcome<TestError>)
    ensures r.Pass? <==> ValidName(name)
    ensures r.Fail? ==> r.error == InvalidName(group, name)
  {
    if ValidName(name) then Pass else Fail(InvalidName(group, name))
  }

  /** Every parameter has a name and the name is valid. */
  predicate ParamsValid(ps: seq<Option<string>>)
  {
    forall i :: 0 <= i < |ps| ==> ps[i].Some? && ValidName(ps[i].value)
  }

  predicate PropsValid(ps: seq<Prop>)
  {
    forall i :: 0 <= i < |ps| ==> ValidName(ps[i].name)
  }

  /** A class's properties and readable parameters all have valid names. */
  predicate MembersValid(kclass: string, kprops: string -> seq<Prop>, kparams: string -> Option<seq<Option<string>>>)
  {
    PropsValid(kprops(kclass)) && kparams(kclass).Some? && ParamsValid(kparams(kclass).value)
  }

  function ParamName(kclass: string, p: Option<string>): Outcome<TestError>
  {
    if p.None? then Fail(UnnamedParameter(kclass)) else AssertValidName("Parameter", p.value)
  }

  /** The property names, then the parameter names; parameters that cannot
      be read at all are an offence of their own. */
  function MemberNames(kclass: string, kprops: string -> seq<Prop>, kparams: string -> Option<seq<Option<string>>>): (r: Outcome<TestError>)
    ensures r.Pass? <==> MembersValid(kclass, kprops, kparams)
  {
    var props := Each(kprops(kclass), (p: Prop) => AssertValidName("Property", p.name));
    var params := if kparams(kclass).None? then Fail(MissingParameters(kclass))
      else Each(kparams(kclass).value, (p: Option<string>) => ParamName(kclass, p));
    AndThen(props, params)
  }

  /** `assertValidKClass`: the class's simple name, then its members. */
  function ClassNames(group: string, kclass: string, kprops: string -> seq<Prop>, kparams: string -> Option<seq<Option<string>>>): (r: Outcome<TestError>)
    ensures r.Pass? <==> ValidName(kclass) && MembersValid(kclass, kprops, kparams)
    ensures !ValidName(kclass) ==> r == Fail(InvalidName(group, kclass))
  {
    AndThen(AssertValidName(group, kclass), MemberNames(kclass, kprops, kparams))
  }

  /** The global inputs, outputs and procedures, and the table classes of
      every schema: each class checked in turn. */
  function ClassesNames(group: string, classes: seq<string>, kprops: string -> seq<Prop>, kparams: string -> Option<seq<Option<string>>>): (r: Outcome<TestError>)
    ensures r.Pass? <==> forall i :: 0 <= i < |classes| ==> ValidName(classes[i]) && MembersValid(classes[i], kprops, kparams)
  {
    Each(classes, (k: string) => ClassNames(group, k, kprops, kparams))
  }

  /** A table's name, then the members of its class. */
  function TableNames(t: Table, kprops: string -> seq<Prop>, kparams: string -> Option<seq<Option<string>>>): Outcome<TestError>
  {
    AndThen(AssertValidName("Table", Name(t)), MemberNames(Kclass(t), kprops, kparams))
  }

  predicate SchemaValid(s: Schema, kprops: string -> seq<Prop>, kparams: string -> Option<seq<Option<string>>>)
  {
    ValidName(s.name)
    && forall i :: 0 <= i < |s.tables| ==> ValidName(Name(s.tables[i])) && MembersValid(Kclass(s.tables[i]), kprops, kparams)
  }

  /** `Schema must have valid name`: every schema's name, then every table
      of it. */
  function SchemaNames(ss: seq<Schema>, kprops: string -> seq<Prop>, kparams: string -> Option<seq<Option<string>>>): (r: Outcome<TestError>)
    ensures r.Pass? <==> forall i :: 0 <= i < |ss| ==> SchemaValid(ss[i], kprops, kparams)
  {
    Each(ss, (s: Schema) => AndThen(AssertValidName("Schema", s.name), Each(s.tables, (t: Table) => TableNames(t, kprops, kparams))))
  }

  /** As written, a class whose parameters cannot be read builds an
      exception without throwing it, and is then checked as if it had no
      parameters. */
  function ParamsAsWritten(kparams: string -> Option<seq<Option<string>>>): string -> Option<seq<Option<string>>>
  {
    (k: string) => if kparams(k).None? then Some([]) else kparams(k)
  }

  function SchemaNamesAsWritten(ss: seq<Schema>, kprops: string -> seq<Prop>, kparams: string -> Option<seq<Option<string>>>): Outcome<TestError>
  {
    SchemaNames(ss, kprops, ParamsAsWritten(kparams))
  }

  /** A table class whose parameters cannot be read passes the check as
      written, while the intended check rejects it. */
  lemma UnreadableParametersPass()
    ensures var pk := Prop("Parent", "pk", "Int", true, true, true, false, false, false);
      var ss := [Schema("main", [MakeTable(pk, [], [])])];
      var kprops := (k: string) => [pk];
      var kparams := (k: string) => None;
      SchemaNamesAsWritten(ss, kprops, kparams) == Pass
      && SchemaNames(ss, kprops, kparams).Fail?
  {
    var pk := Prop("Parent", "pk", "Int", true, true, true, false, false, false);
    var t := MakeTable(pk, [], []);
    var ss := [Schema("main", [t])];
    var kprops := (k: string) => [pk];
    var kparams: string -> Option<seq<Option<string>>> := (k: string) => None;
    assert Name(t) == "Parent" && ValidName("Parent") && ValidName("main") && ValidName("pk");
    assert MembersValid(Kclass(t), kprops, ParamsAsWritten(kparams));
    assert SchemaValid(ss[0], kprops, ParamsAsWritten(kparams));
    assert !MembersValid(Kclass(t), kprops, kparams);
  }

  /** As written the check asks less of the parameters and nothing else:
      it passes exactly when every name it can read is valid. */
  lemma SchemaNamesAsWrittenSpec(ss: seq<Schema>, kprops: string -> seq<Prop>, kparams: string -> Option<seq<Option<string>>>)
    ensures SchemaNamesAsWritten(ss, kprops, kparams).Pass?
        <==> forall i :: 0 <= i < |ss| ==> SchemaValid(ss[i], kprops, ParamsAsWritten(kparams))
    ensures SchemaNames(ss, kprops, kparams).Pass? ==> SchemaNamesAsWritten(ss, kprops, kparams).Pass?
  {
    if SchemaNames(ss, kprops, kparams).Pass? {
      forall i, j | 0 <= i < |ss| && 0 <= j < |ss[i].tables|
        ensures MembersValid(Kclass(ss[i].tables[j]), kprops, ParamsAsWritten(kparams))
      {
        assert SchemaValid(ss[i], kprops, kparams);
      }
    }
  }

  /** `assertValidKClass` as written drops the same `throw`: the global
      and schema class checks treat unreadable parameters as none. */
  function ClassesNamesAsWritten(group: string, classes: seq<string>, kprops: string -> seq<Prop>, kparams: string -> Option<seq<Option<string>>>): Outcome<TestError>
  {
    ClassesNames(group, classes, kprops, ParamsAsWritten(kparams))
  }

  /** A class whose parameters cannot be read passes the class check as
      written, while the intended check fails it with `MissingParameters`. */
  lemma UnreadableClassPasses()
    ensures var pk := Prop("Proc", "value", "Int", true, true, true, false, false, false);
      var kprops := (k: string) => [pk];
      var kparams := (k: string) => None;
      ClassesNamesAsWritten("Global procedure", ["Proc"], kprops, kparams) == Pass
      && ClassesNames("Global procedure", ["Proc"], kprops, kparams) == Fail(MissingParameters("Proc"))
  {
    var pk := Prop("Proc", "value", "Int", true, true, true, false, false, false);
    var kprops := (k: string) => [pk];
    var kparams: string -> Option<seq<Option<string>>> := (k: string) => None;
    assert ValidName("Proc") && ValidName("value");
    assert MembersValid("Proc", kprops, ParamsAsWritten(kparams));
  }

  /** As written the class check passes whenever the intended one does, and
      differs only in the classes whose parameters cannot be read. */
  lemma ClassesNamesAsWrittenSpec(group: string, classes: seq<string>, kprops: string -> seq<Prop>, kparams: string -> Option<seq<Option<string>>>)
    ensures ClassesNames(group, classes, kprops, kparams).Pass? ==> ClassesNamesAsWritten(group, classes, kprops, kparams).Pass?
    ensures (forall i :: 0 <= i < |classes| ==> kparams(classes[i]).Some?)
      ==> (ClassesNamesAsWritten(group, classes, kprops, kparams).Pass? <==> ClassesNames(group, classes, kprops, kparams).Pass?)
  {
    forall i | 0 <= i < |classes|
      ensures MembersValid(classes[i], kprops, kparams) ==> MembersValid(classes[i], kprops, ParamsAsWritten(kparams))
      ensures kparams(classes[i]).Some? ==> (MembersValid(classes[i], kprops, kparams) <==> MembersValid(classes[i], kprops, ParamsAsWritten(kparams)))
    {
      assert ParamsAsWritten(kparams)(classes[i]) == if kparams(classes[i]).None? then Some([]) else kparams(classes[i]);
    }
  }

  // Primary keys.

  function AutoUuidCheck(t: Table): (r: Outcome<TestError>)
    ensures r.Pass? <==> !AutoUUID(t.primaryKey)
  {
    if AutoUUID(t.primaryKey) then Fail(AutoUuidKey(t.primaryKey)) else Pass
  }

  /** `Tables primary keys can be AUTO_UUID if database allows it`. */
  function AutoUuidAllowed(allowAutoUUID: bool, ss: seq<Schema>): (r: Outcome<TestError>)
    ensures r.Pass? <==> allowAutoUUID || forall t :: t in TablesOf(ss) ==> !AutoUUID(t.primaryKey)
  {
    if allowAutoUUID then Pass else Each(TablesOf(ss), AutoUuidCheck)
  }

  /** PostgreSQL accepts auto-generated UUID keys; Db2 rejects a
      configuration exactly when one of its keys is one. */
  lemma DialectAutoUuid(ss: seq<Schema>)
    ensures AutoUuidAllowed(PgSerializers.AllowAutoUUID, ss) == Pass
    ensures AutoUuidAllowed(Db2Serializers.AllowAutoUUID, ss).Fail?
        <==> exists t :: t in TablesOf(ss) && AutoUUID(t.primaryKey)
  {
  }

  function OptionalImmutableCheck(t: Table): (r: Outcome<TestError>)
    ensures r.Pass? <==> !t.primaryKey.nullable || t.primaryKey.mutable
  {
    if t.primaryKey.nullable && !t.primaryKey.mutable then Fail(OptionalImmutableKey(t.primaryKey)) else Pass
  }

  /** `Tables primary keys must not be imutable and optional at the same
      time`. */
  function NotOptionalImmutable(ss: seq<Schema>): (r: Outcome<TestError>)
    ensures r.Pass? <==> forall t :: t in TablesOf(ss) ==> t.primaryKey.nullable ==> t.primaryKey.mutable
  {
    Each(TablesOf(ss), OptionalImmutableCheck)
  }

  function MutableRequiredCheck(t: Table): (r: Outcome<TestError>)
    ensures r.Pass? <==> t.primaryKey.nullable || !t.primaryKey.mutable
  {
    if !t.primaryKey.nullable && t.primaryKey.mutable then Fail(MutableRequiredKey(t.primaryKey)) else Pass
  }

  /** `Tables primary keys must not be mutable and not optional at the same
      time`. */
  function NotMutableRequired(ss: seq<Schema>): (r: Outcome<TestError>)
    ensures r.Pass? <==> forall t :: t in TablesOf(ss) ==> t.primaryKey.mutable ==> t.primaryKey.nullable
  {
    Each(TablesOf(ss), MutableRequiredCheck)
  }

  /** The two rules together accept a key exactly when it is optional if
      and only if it is mutable: either the database fills it in, or the
      user does and never changes it. */
  lemma KeyMutability(ss: seq<Schema>)
    ensures NotOptionalImmutable(ss).Pass? && NotMutableRequired(ss).Pass?
        <==> forall t :: t in TablesOf(ss) ==> (t.primaryKey.nullable <==> t.primaryKey.mutable)
  {
  }

  /** A whole-number key that passes both rules is auto-incremented
      exactly when it is optional, and a UUID key is generated exactly
      when it is optional. */
  lemma KeyMutabilityGenerated(pk: Prop)
    requires pk.nullable <==> pk.mutable
    ensures (pk.wholeNumber || pk.inlineWholeNumber) ==> (AutoInc(pk) <==> pk.nullable)
    ensures (pk.uuid || pk.inlineUUID) ==> (AutoUUID(pk) <==> pk.nullable)
  {
  }

  predicate KeyTyped(pk: Prop)
  {
    pk.wholeNumber || pk.inlineWholeNumber || pk.uuid || pk.inlineUUID
  }

  /** One of the four flags must be set. */
  function KeyTypeCheck(t: Table): (r: Outcome<TestError>)
    ensures r.Pass? <==> KeyTyped(t.primaryKey)
  {
    var pk := t.primaryKey;
    var flags := [pk.wholeNumber, pk.inlineWholeNumber, pk.uuid, pk.inlineUUID];
    if true !in flags then Fail(KeyType(pk)) else Pass
  }

  /** `Tables primary keys can be only be whole number or UUID`. */
  function KeyTypes(ss: seq<Schema>): (r: Outcome<TestError>)
    ensures r.Pass? <==> forall t :: t in TablesOf(ss) ==> KeyTyped(t.primaryKey)
  {
    Each(TablesOf(ss), KeyTypeCheck)
  }

  predicate KeyIsForeign(t: Table)
  {
    exists i :: 0 <= i < |t.foreignKeys| && t.foreignKeys[i].0 == t.primaryKey
  }

  function ForeignKeyCheck(t: Table): (r: Outcome<TestError>)
  {
    if KeyIsForeign(t) then Fail(ForeignKeyIsPrimary(t.primaryKey)) else Pass
  }

  /** `Tables foreign keys must not contain primary key`. */
  function ForeignKeysWithoutKey(ss: seq<Schema>): (r: Outcome<TestError>)
    ensures r.Pass? <==> forall t :: t in TablesOf(ss) ==> !KeyIsForeign(t)
  {
    Each(TablesOf(ss), ForeignKeyCheck)
  }

  // Foreign keys.

  /** The foreign key's target is registered, and the first table
      registered for it has a key of the foreign key's type. */
  predicate TargetMatches(es: seq<(Schema, Table)>, fk: (Prop, string))
  {
    var j := FirstOf(es, fk.1);
    j < |es| && es[j].1.primaryKey.typeName == fk.0.typeName
  }

  function Target(es: seq<(Schema, Table)>, fk: (Prop, string)): (r: Outcome<TestError>)
    ensures r.Pass? <==> TargetMatches(es, fk)
    ensures r.Fail? && !Known(es, fk.1) ==> r.error == UnregisteredTarget(fk.0, fk.1)
  {
    FirstOfKnown(es, fk.1);
    var j := FirstOf(es, fk.1);
    if j == |es| then Fail(UnregisteredTarget(fk.0, fk.1))
    else if es[j].1.primaryKey.typeName != fk.0.typeName then Fail(TargetKeyType(fk.0, es[j].1.primaryKey))
    else Pass
  }

  predicate TargetsMatch(es: seq<(Schema, Table)>, t: Table)
  {
    forall k :: 0 <= k < |t.foreignKeys| ==> TargetMatches(es, t.foreignKeys[k])
  }

  function TableTargets(es: seq<(Schema, Table)>, t: Table): (r: Outcome<TestError>)
    ensures r.Pass? <==> TargetsMatch(es, t)
  {
    Each(t.foreignKeys, (fk: (Prop, string)) => Target(es, fk))
  }

  /** The foreign keys of each table in turn. */
  function TablesTargets(es: seq<(Schema, Table)>, ts: seq<Table>): (r: Outcome<TestError>)
    ensures r.Pass? <==> forall t :: t in ts ==> TargetsMatch(es, t)
  {
    if ts == [] then Pass
    else
      assert forall t :: t in ts <==> t == ts[0] || t in ts[1..];
      AndThen(TableTargets(es, ts[0]), TablesTargets(es, ts[1..]))
  }

  /** `Tables foreign keys must point to registered table with primary key
      of same type`. */
  function ForeignTargets(ss: seq<Schema>): (r: Outcome<TestError>)
    ensures r.Pass? <==> forall t :: t in TablesOf(ss) ==> TargetsMatch(Registered(ss), t)
  {
    TablesTargets(Registered(ss), TablesOf(ss))
  }

  /** A configuration whose foreign keys pass this check exports: both
      diagrams find every target. */
  lemma ForeignTargetsExport(ss: seq<Schema>, kprops: string -> seq<Prop>, f: Exporters.Flags, w: bool)
    requires ForeignTargets(ss).Pass?
    ensures Exporters.TargetsRegistered(ss)
    ensures Exporters.PlantUml(ss, kprops, f).Success? && Exporters.DbDiagramIO(ss, kprops, w).Success?
  {
    var es := Registered(ss);
    var edges := Exporters.Edges(es);
    forall i | 0 <= i < |edges|
      ensures Known(es, edges[i].target)
    {
      Exporters.EdgeOrigin(es, i);
      var k, j :| 0 <= k < |es| && 0 <= j < |es[k].1.foreignKeys|
        && edges[i] == Exporters.Edge(Exporters.PathOf(es[k].0, es[k].1), es[k].1.foreignKeys[j].0, es[k].1.foreignKeys[j].1);
      TablesOfRegistered(ss);
      assert TablesOf(ss)[k] == es[k].1;
      assert es[k].1 in TablesOf(ss);
      assert TargetsMatch(es, es[k].1);
      assert TargetMatches(es, es[k].1.foreignKeys[j]);
      FirstOfKnown(es, edges[i].target);
    }
    Exporters.PlantUmlFails(ss, kprops, f);
    Exporters.DbDiagramFails(ss, kprops, w);
  }

  // Constraints.

  predicate Forbidden(c: C)
  {
    c == UNIQUE || c == CASCADE_UPDATE || c == CASCADE_DELETE
  }

  /** The primary key carries no `UNIQUE`, `CASCADE_UPDATE` or
      `CASCADE_DELETE` in any of its constraint entries. */
  predicate KeyConstraintsValid(t: Table)
  {
    forall i, k :: 0 <= i < |t.constraints| && t.constraints[i].0 == t.primaryKey && 0 <= k < |t.constraints[i].1|
      ==> !Forbidden(t.constraints[i].1[k])
  }

  function ConstraintCheck(pk: Prop, c: C): (r: Outcome<TestError>)
    ensures r.Pass? <==> !Forbidden(c)
  {
    match c
    case UNIQUE => Fail(KeyConstraint(pk, c))
    case CASCADE_UPDATE => Fail(KeyConstraint(pk, c))
    case CASCADE_DELETE => Fail(KeyConstraint(pk, c))
    case _ => Pass
  }

  /** Only the primary key's entries are looked at. */
  function EntryCheck(pk: Prop, entry: (Prop, seq<C>)): (r: Outcome<TestError>)
    ensures r.Pass? <==> entry.0 != pk || forall k :: 0 <= k < |entry.1| ==> !Forbidden(entry.1[k])
  {
    if entry.0 != pk then Pass
    else Each(entry.1, (c: C) => ConstraintCheck(pk, c))
  }

  function KeyConstraintCheck(t: Table): (r: Outcome<TestError>)
    ensures r.Pass? <==> KeyConstraintsValid(t)
  {
    Each(t.constraints, (entry: (Prop, seq<C>)) => EntryCheck(t.primaryKey, entry))
  }

  /** `Tables constraints must be valid for specific column`. */
  function KeyConstraints(ss: seq<Schema>): (r: Outcome<TestError>)
    ensures r.Pass? <==> forall t :: t in TablesOf(ss) ==> KeyConstraintsValid(t)
  {
    Each(TablesOf(ss), KeyConstraintCheck)
  }

  /** A table whose user gave no entry for the key gets `[AUTO_INC]` and
      passes, whatever the other columns carry. */
  lemma DefaultKeyConstraintsValid(pk: Prop, fks: seq<(Prop, string)>, cs: seq<(Prop, seq<C>)>)
    requires !HasEntry(cs, pk)
    ensures KeyConstraintsValid(MakeTable(pk, fks, cs))
  {
    var t := MakeTable(pk, fks, cs);
    forall i | 0 <= i < |cs|
      ensures t.constraints[i] == cs[i]
    {
    }
  }
}
