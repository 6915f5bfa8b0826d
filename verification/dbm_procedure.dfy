/** `Procedure`: a stored procedure, given by an optional schema, the class
    that represents it and its arguments. */
module Procedures {
  import opened Wrappers
  import opened Strings
  import opened DbData

  /** The procedure an argument belongs to. */
  datatype ProcedureRef = ProcedureRef(schema: Option<string>, name: string)

  /** An argument. `procedure` is the `lateinit` back-link to its owner:
      `None` until the procedure's constructor sets it. */
  datatype ProcedureArg = ProcedureArg(value: DbValue, procedure: Option<ProcedureRef>)
  {
    function Name(): string
    {
      value.prop.name
    }

    /** The simple name of the argument's type. */
    function TypeName(): string
    {
      value.prop.typeName
    }
  }

  datatype Procedure = Procedure(schema: Option<string>, kclass: string, args: seq<ProcedureArg>)
  {
    function Name(): string
    {
      kclass
    }

    function Ref(): ProcedureRef
    {
      ProcedureRef(schema, kclass)
    }
  }

  /** The schema, when there is one, and the name, joined by dots. */
  function Path(p: Procedure): string
  {
    Join(Present([p.schema, Some(p.Name())]), ".")
  }

  /** Without a schema the path is the bare name; with one it is
      `schema.name`. */
  lemma PathCases(p: Procedure)
    ensures p.schema.None? ==> Path(p) == p.Name()
    ensures p.schema.Some? ==> Path(p) == p.schema.value + "." + p.Name()
  {
    PresentPair(p.schema, p.Name());
    if p.schema.Some? {
      var xs := [p.schema.value, p.Name()];
      assert xs[1..] == [p.Name()];
      assert Join(xs, ".") == xs[0] + "." + Join([p.Name()], ".");
    }
  }

  /** Every argument names this procedure as its owner. */
  predicate Linked(p: Procedure)
  {
    forall a :: a in p.args ==> a.procedure == Some(p.Ref())
  }

  function LinkArgs(args: seq<ProcedureArg>, r: ProcedureRef): (ls: seq<ProcedureArg>)
    ensures |ls| == |args|
    ensures forall i :: 0 <= i < |args| ==> ls[i] == args[i].(procedure := Some(r))
  {
    if args == [] then [] else [args[0].(procedure := Some(r))] + LinkArgs(args[1..], r)
  }

  /** The constructor: its `init` block makes this procedure the owner of
      every argument, and changes nothing else. */
  function MakeProcedure(schema: Option<string>, kclass: string, args: seq<ProcedureArg>): (p: Procedure)
    ensures p.schema == schema && p.kclass == kclass
    ensures Linked(p)
    ensures |p.args| == |args| && forall i :: 0 <= i < |args| ==> p.args[i].value == args[i].value
  {
    Procedure(schema, kclass, LinkArgs(args, ProcedureRef(schema, kclass)))
  }

  /** One `?` per argument, joined by `separator`. */
  function SqlArguments(p: Procedure, separator: string): (r: string)
    ensures '?' !in separator ==> Count(r, '?') == |p.args|
    ensures p.args == [] ==> r == ""
  {
    Placeholders(|p.args|, separator)
  }

  function ArgValues(args: seq<ProcedureArg>): (ds: seq<DbValue>)
    ensures |ds| == |args|
    ensures forall i :: 0 <= i < |args| ==> ds[i] == args[i].value
  {
    if args == [] then [] else [args[0].value] + ArgValues(args[1..])
  }

  /** The value of every argument read from `obj`, in argument order. */
  function QueryValues(p: Procedure, obj: Obj): (qs: seq<QueryValue>)
    ensures |qs| == |p.args|
    ensures forall i :: 0 <= i < |qs| ==>
      qs[i].name == p.args[i].Name() && qs[i].value == obj.get(p.args[i].value.prop)
      && qs[i].jdbcType == p.args[i].value.jdbcType && qs[i].encoder == p.args[i].value.encoder
  {
    QueryValuesOf(ArgValues(p.args), obj)
  }

  /** Every placeholder of the argument list has its bound value. */
  lemma ArgumentAlignment(p: Procedure, obj: Obj)
    ensures Count(SqlArguments(p, ", "), '?') == |QueryValues(p, obj)| == |p.args|
  {
  }

  /** Procedures are equal when their paths are. */
  predicate Equals(a: Procedure, b: Procedure)
  {
    Path(a) == Path(b)
  }

  function HashCode(p: Procedure): int
  {
    JavaHash(Path(p))
  }

  lemma EqualsHashCode(a: Procedure, b: Procedure)
    requires Equals(a, b)
    ensures HashCode(a) == HashCode(b)
  {
  }

  /** When no name holds a dot, two procedures are equal exactly when they
      have the same schema (or both none) and the same class name. */
  lemma EqualsIff(a: Procedure, b: Procedure)
    requires a.schema.Some? ==> '.' !in a.schema.value
    requires b.schema.Some? ==> '.' !in b.schema.value
    requires '.' !in a.kclass && '.' !in b.kclass
    ensures Equals(a, b) <==> a.schema == b.schema && a.kclass == b.kclass
  {
    var xs := if a.schema.Some? then [a.schema.value, a.kclass] else [a.kclass];
    var ys := if b.schema.Some? then [b.schema.value, b.kclass] else [b.kclass];
    PresentPair(a.schema, a.kclass);
    PresentPair(b.schema, b.kclass);
    DottedPathsEqual(xs, ys);
    if Equals(a, b) {
      assert xs == ys;
      assert |xs| == |ys|;
      assert xs[|xs| - 1] == ys[|ys| - 1];
      if a.schema.Some? {
        assert xs[0] == ys[0];
      }
    }
  }

  lemma PresentPair(schema: Option<string>, name: string)
    ensures Present([schema, Some(name)]) == if schema.Some? then [schema.value, name] else [name]
  {
    assert [schema, Some(name)][1..] == [Some(name)];
    assert [Some(name)][1..] == [];
  }

  /** `name: Type` for one argument. */
  function ArgText(a: ProcedureArg): string
  {
    a.Name() + ": " + a.TypeName()
  }

  function ArgTexts(args: seq<ProcedureArg>): (ts: seq<string>)
    ensures |ts| == |args|
    ensures forall i :: 0 <= i < |args| ==> ts[i] == ArgText(args[i])
  {
    if args == [] then [] else [ArgText(args[0])] + ArgTexts(args[1..])
  }

  /** `Name(arg: Type, ...)`. */
  function ToString(p: Procedure): (r: string)
    ensures |r| >= |p.Name()| + 2 && r[..|p.Name()|] == p.Name() && r[|p.Name()|] == '(' && r[|r| - 1] == ')'
  {
    p.Name() + "(" + Join(ArgTexts(p.args), ", ") + ")"
  }

  /** Reading the text between the parentheses back at its commas gives one
      `name: Type` per argument, in argument order; without arguments the
      parentheses are empty. */
  lemma ToStringArgs(p: Procedure)
    requires forall i :: 0 <= i < |p.args| ==> ',' !in ArgText(p.args[i])
    ensures p.args == [] ==> ToString(p) == p.Name() + "()"
    ensures p.args != [] ==> Unjoin(ToString(p)[|p.Name()| + 1..|ToString(p)| - 1], ", ") == ArgTexts(p.args)
  {
    var inner := Join(ArgTexts(p.args), ", ");
    assert ToString(p)[|p.Name()| + 1..|ToString(p)| - 1] == inner;
    if p.args != [] {
      UnjoinJoin(ArgTexts(p.args), ", ");
    }
  }
}
