/** `QueryBuilder`: a user-written SQL text whose `?` placeholders are
    produced by `input` calls, each of which binds one property of the input
    object. The user's template is a list of pieces: literal text and
    `input(property)` calls, evaluated left to right as Kotlin evaluates a
    string template. */
module QueryBuilders {
  import opened Wrappers
  import opened Strings
  import opened DbData
  import opened Mappers

  /** The input object and the values bound so far. */
  datatype QueryBuilder = QueryBuilder(input: Obj, values: seq<QueryValue>)

  /** What an `input` call or a template evaluation returns: its text, and
      the builder afterwards. */
  datatype Step = Step(text: string, builder: QueryBuilder)

  datatype Piece = Text(s: string) | InputOf(kp: Prop)

  /** The constructor: the input's class must be registered. */
  function NewQueryBuilder(m: Mapper, input: Obj): (r: Result<QueryBuilder, DbError>)
    ensures r.Success? <==> IsRegistered(m, input.kclass)
    ensures r.Success? ==> r.value.input == input && r.value.values == []
    ensures r.Failure? ==> r.error == MappingException
  {
    if IsRegistered(m, input.kclass) then Success(QueryBuilder(input, [])) else Failure(MappingException)
  }

  /** The value `input(kp)` binds. */
  function BoundValue(ts: TypeSer, kp: Prop, obj: Obj): QueryValue
  {
    QueryValue(kp.name, obj.get(kp), ts.jdbcType, ts.encoder)
  }

  /** `input(kp)`: binds the property's value at the end of the list and
      stands for it with a `?`. */
  function Input(m: Mapper, qb: QueryBuilder, kp: Prop): (r: Result<Step, DbError>)
    ensures r.Success? <==> kp in m.serializers
    ensures r.Success? ==> (r.value.text == "?" && r.value.builder.input == qb.input
                            && r.value.builder.values == qb.values + [BoundValue(m.serializers[kp], kp, qb.input)])
    ensures r.Failure? ==> r.error == MapperException
  {
    var ts :- GetSerializer(m, kp);
    Success(Step("?", qb.(values := qb.values + [BoundValue(ts, kp, qb.input)])))
  }

  /** The query: the SQL text and every value bound so far. */
  function Build(qb: QueryBuilder, sql: string): Query
  {
    Query(sql, qb.values)
  }

  /** Evaluates a template left to right. */
  function Render(m: Mapper, qb: QueryBuilder, ps: seq<Piece>): Result<Step, DbError>
    decreases |ps|
  {
    if ps == [] then Success(Step("", qb))
    else match ps[0]
      case Text(s) =>
        var rest :- Render(m, qb, ps[1..]);
        Success(Step(s + rest.text, rest.builder))
      case InputOf(kp) =>
        var first :- Input(m, qb, kp);
        var rest :- Render(m, first.builder, ps[1..]);
        Success(Step(first.text + rest.text, rest.builder))
  }

  /** `queryWithInput`: builds the query from the input object and the
      template. */
  function QueryWithInput(m: Mapper, input: Obj, ps: seq<Piece>): Result<Query, DbError>
  {
    var qb :- NewQueryBuilder(m, input);
    var st :- Render(m, qb, ps);
    Success(Build(st.builder, st.text))
  }

  // Independent description of a template's outcome.

  /** Every property the template reads has a serializer. */
  predicate Serializable(m: Mapper, ps: seq<Piece>)
  {
    forall i :: 0 <= i < |ps| && ps[i].InputOf? ==> ps[i].kp in m.serializers
  }

  /** The template's text with a `?` for every input call. */
  function Flatten(ps: seq<Piece>): string
  {
    if ps == [] then ""
    else (if ps[0].Text? then ps[0].s else "?") + Flatten(ps[1..])
  }

  /** The values of the template's input calls, in template order. */
  function Bound(m: Mapper, obj: Obj, ps: seq<Piece>): seq<QueryValue>
    requires Serializable(m, ps)
  {
    if ps == [] then []
    else
      var head := if ps[0].InputOf? then [BoundValue(m.serializers[ps[0].kp], ps[0].kp, obj)] else [];
      head + Bound(m, obj, ps[1..])
  }

  /** The number of input calls. */
  function Inputs(ps: seq<Piece>): nat
  {
    if ps == [] then 0 else (if ps[0].InputOf? then 1 else 0) + Inputs(ps[1..])
  }

  /** No literal text holds a `?`. */
  predicate PlainTexts(ps: seq<Piece>)
  {
    forall i :: 0 <= i < |ps| && ps[i].Text? ==> '?' !in ps[i].s
  }

  /** Evaluating a template succeeds exactly when every property it reads
      has a serializer; it then keeps the values bound before, appends the
      template's values in order, and produces the flattened text. */
  lemma {:induction false} RenderSpec(m: Mapper, qb: QueryBuilder, ps: seq<Piece>)
    ensures Render(m, qb, ps).Success? <==> Serializable(m, ps)
    ensures Render(m, qb, ps).Failure? ==> Render(m, qb, ps).error == MapperException
    ensures Render(m, qb, ps).Success? ==>
      var st := Render(m, qb, ps).value;
      st.text == Flatten(ps) && st.builder.input == qb.input
      && st.builder.values == qb.values + Bound(m, qb.input, ps)
    decreases |ps|
  {
    if ps != [] {
      var tail := ps[1..];
      assert Serializable(m, ps) <==> (ps[0].InputOf? ==> ps[0].kp in m.serializers) && Serializable(m, tail) by {
        if Serializable(m, ps) {
          forall i | 0 <= i < |tail| && tail[i].InputOf?
            ensures tail[i].kp in m.serializers
          {
            assert tail[i] == ps[i + 1];
          }
        }
      }
      match ps[0]
      case Text(s) =>
        RenderSpec(m, qb, tail);
      case InputOf(kp) =>
        if kp in m.serializers {
          var first := Input(m, qb, kp).value;
          RenderSpec(m, first.builder, tail);
        }
    }
  }

  /** The number of `?` in the flattened text is the number of input calls
      when no literal text holds one. */
  lemma {:induction false} FlattenMarks(ps: seq<Piece>)
    requires PlainTexts(ps)
    ensures Count(Flatten(ps), '?') == Inputs(ps)
  {
    if ps != [] {
      var head := if ps[0].Text? then ps[0].s else "?";
      CountConcat(head, Flatten(ps[1..]), '?');
      if ps[0].Text? {
        CountAbsent(head, '?');
      } else {
        assert Count(head, '?') == 1 by {
          assert head == [] + ['?'];
        }
      }
      assert PlainTexts(ps[1..]) by {
        forall i | 0 <= i < |ps[1..]| && ps[1..][i].Text?
          ensures '?' !in ps[1..][i].s
        {
          assert ps[1..][i] == ps[i + 1];
        }
      }
      FlattenMarks(ps[1..]);
    }
  }

  lemma {:induction false} BoundLength(m: Mapper, obj: Obj, ps: seq<Piece>)
    requires Serializable(m, ps)
    ensures |Bound(m, obj, ps)| == Inputs(ps)
  {
    if ps != [] {
      assert Serializable(m, ps[1..]) by {
        forall i | 0 <= i < |ps[1..]| && ps[1..][i].InputOf?
          ensures ps[1..][i].kp in m.serializers
        {
          assert ps[1..][i] == ps[i + 1];
        }
      }
      BoundLength(m, obj, ps[1..]);
    }
  }

  /** `queryWithInput` fails with `MappingException` for an unregistered
      input, with `MapperException` for a property without serializer, and
      otherwise binds exactly the template's values, in template order, one
      per `?` of the SQL text. */
  lemma QueryWithInputSpec(m: Mapper, input: Obj, ps: seq<Piece>)
    ensures !IsRegistered(m, input.kclass) ==> QueryWithInput(m, input, ps) == Failure(MappingException)
    ensures IsRegistered(m, input.kclass) && !Serializable(m, ps) ==> QueryWithInput(m, input, ps) == Failure(MapperException)
    ensures IsRegistered(m, input.kclass) && Serializable(m, ps) ==>
      QueryWithInput(m, input, ps) == Success(Query(Flatten(ps), Bound(m, input, ps)))
    ensures IsRegistered(m, input.kclass) && Serializable(m, ps) && PlainTexts(ps) ==>
      Count(QueryWithInput(m, input, ps).value.sql, '?') == |QueryWithInput(m, input, ps).value.values|
  {
    if IsRegistered(m, input.kclass) {
      RenderSpec(m, QueryBuilder(input, []), ps);
      if Serializable(m, ps) {
        assert [] + Bound(m, input, ps) == Bound(m, input, ps);
        BoundLength(m, input, ps);
        if PlainTexts(ps) {
          FlattenMarks(ps);
        }
      }
    }
  }

  /** `build` does not clear the bound values: evaluating a second template
      on the builder a first one left behind yields a query whose values
      start with every value of the first query. */
  lemma BuildKeepsInputs(m: Mapper, qb: QueryBuilder, first: seq<Piece>, second: seq<Piece>)
    requires Serializable(m, first) && Serializable(m, second)
    ensures Render(m, qb, first).Success?
    ensures Render(m, Render(m, qb, first).value.builder, second).Success?
    ensures var q1 := Build(Render(m, qb, first).value.builder, Flatten(first));
      var q2 := Build(Render(m, Render(m, qb, first).value.builder, second).value.builder, Flatten(second));
      q2.values == q1.values + Bound(m, qb.input, second)
  {
    RenderSpec(m, qb, first);
    RenderSpec(m, Render(m, qb, first).value.builder, second);
  }
}
