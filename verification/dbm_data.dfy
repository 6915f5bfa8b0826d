/** The records of db-messiah's `data` package, with reflection abstracted
    away. A Kotlin property becomes a `Prop`: its owning class, its name and
    the facts the library reads off its declared type. A class becomes its
    simple name. An object becomes its class and a function from properties
    to values. JDBC types and encoders are kept as names. */
module DbData {
  import opened Wrappers
  import opened Strings

  /** The exceptions the modelled code throws. */
  datatype DbError =
    | MappingException          // an input class the mapper does not know
    | QueryException            // a property that is not a column of its table
    | SerializerException       // a table or procedure class that is not registered
    | MapperException           // a property without a type serializer
    | UninitializedProperty     // a `lateinit` back-link read before it was set
    | NotImplemented            // Kotlin's `TODO()`
    | NullPointer               // Kotlin's `!!` on null
    | SerializerTestsException  // a configuration check that failed

  datatype Value = IntValue(i: int) | TextValue(s: string) | UuidValue(u: string) | NullValue

  /** The property `owner::name`. `typeName` is the simple name of its type's
      classifier; the flags are what the `ext_…` extensions compute. */
  datatype Prop = Prop(
    owner: string,
    name: string,
    typeName: string,
    nullable: bool,
    mutable: bool,
    wholeNumber: bool,
    inlineWholeNumber: bool,
    uuid: bool,
    inlineUUID: bool)

  /** An instance of class `kclass`; `get` reads a property from it. */
  datatype Obj = Obj(kclass: string, get: Prop -> Value)

  datatype QueryValue = QueryValue(name: string, value: Value, jdbcType: string, encoder: string)

  /** An SQL text with the values bound to its `?` placeholders, in order. */
  datatype Query = Query(sql: string, values: seq<QueryValue>)

  /** What a table column and a procedure argument have in common. */
  datatype DbValue = DbValue(prop: Prop, dbType: string, jdbcType: string, encoder: string)

  /** The bound value that reads `d`'s property from `obj`. */
  function QueryValueOf(d: DbValue, obj: Obj): QueryValue
  {
    QueryValue(d.prop.name, obj.get(d.prop), d.jdbcType, d.encoder)
  }

  /** One bound value per element of `ds`, in order. */
  function QueryValuesOf(ds: seq<DbValue>, obj: Obj): (qs: seq<QueryValue>)
    ensures |qs| == |ds|
    ensures forall i :: 0 <= i < |ds| ==> qs[i] == QueryValueOf(ds[i], obj)
  {
    if ds == [] then [] else [QueryValueOf(ds[0], obj)] + QueryValuesOf(ds[1..], obj)
  }

  lemma {:induction false} QueryValuesOfConcat(a: seq<DbValue>, b: seq<DbValue>, obj: Obj)
    ensures QueryValuesOf(a + b, obj) == QueryValuesOf(a, obj) + QueryValuesOf(b, obj)
  {
    var l := QueryValuesOf(a + b, obj);
    var r := QueryValuesOf(a, obj) + QueryValuesOf(b, obj);
    assert |l| == |r|;
    forall i | 0 <= i < |l|
      ensures l[i] == r[i]
    {
      if i < |a| {
        assert (a + b)[i] == a[i];
      } else {
        assert (a + b)[i] == b[i - |a|];
      }
    }
  }

  /** Kotlin's `filterNotNull` on a list of nullable strings. */
  function Present(xs: seq<Option<string>>): (r: seq<string>)
    ensures |r| <= |xs|
  {
    if xs == [] then []
    else (if xs[0].Some? then [xs[0].value] else []) + Present(xs[1..])
  }

  /** `xs` with `f` applied to every element. */
  function MapStrings(f: string -> string, xs: seq<string>): (r: seq<string>)
    ensures |r| == |xs|
    ensures forall i :: 0 <= i < |xs| ==> r[i] == f(xs[i])
  {
    if xs == [] then [] else [f(xs[0])] + MapStrings(f, xs[1..])
  }

  /** Java's `String.hashCode`: `h = 31 * h + c` over the characters, in
      32-bit two's complement arithmetic. */
  function JavaHash(s: string): (h: int)
    ensures -0x8000_0000 <= h < 0x8000_0000
  {
    if s == [] then 0 else Wrap32(31 * JavaHash(s[..|s| - 1]) + s[|s| - 1] as int)
  }

  /** Reduction of an integer to a signed 32-bit value, as JVM `int`
      arithmetic wraps around. */
  function Wrap32(x: int): (r: int)
    ensures -0x8000_0000 <= r < 0x8000_0000
    ensures (r - x) % 0x1_0000_0000 == 0
  {
    (x + 0x8000_0000) % 0x1_0000_0000 - 0x8000_0000
  }

  /** Splitting a dotted path whose segments hold no dot gives back its
      segments, so two such paths are equal exactly when their segments are. */
  lemma DottedPathsEqual(xs: seq<string>, ys: seq<string>)
    requires |xs| > 0 && |ys| > 0
    requires forall k :: 0 <= k < |xs| ==> '.' !in xs[k]
    requires forall k :: 0 <= k < |ys| ==> '.' !in ys[k]
    ensures Join(xs, ".") == Join(ys, ".") <==> xs == ys
  {
    SplitOnJoin(xs, '.');
    SplitOnJoin(ys, '.');
  }
}
