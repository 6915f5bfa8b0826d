/** The lookups the serializers make on the `Mapper`. The mapper fills its
    tables by reflection; here it is the outcome of that work: which input
    classes are registered, the table and procedure of each class, and the
    type serializer of each property. */
module Mappers {
  import opened Wrappers
  import opened DbData
  import opened TableInfos
  import opened Procedures

  /** What a type serializer contributes to a bound value. */
  datatype TypeSer = TypeSer(jdbcType: string, encoder: string)

  /** `registered` holds the classes found in all three of the mapper's
      constructor, constructor-parameter and property maps. */
  datatype Mapper = Mapper(
    registered: set<string>,
    tables: map<string, TableInfo>,
    procedures: map<string, Procedure>,
    serializers: map<Prop, TypeSer>)

  /** `isRegistered`: a class the mapper knows how to construct and read. */
  predicate IsRegistered(m: Mapper, kclass: string)
  {
    kclass in m.registered
  }

  function GetTableInfo(m: Mapper, kclass: string): (r: Result<TableInfo, DbError>)
    ensures r.Success? <==> kclass in m.tables
    ensures r.Success? ==> r.value == m.tables[kclass]
    ensures r.Failure? ==> r.error == SerializerException
  {
    if kclass in m.tables then Success(m.tables[kclass]) else Failure(SerializerException)
  }

  function GetProcedure(m: Mapper, kclass: string): (r: Result<Procedure, DbError>)
    ensures r.Success? <==> kclass in m.procedures
    ensures r.Success? ==> r.value == m.procedures[kclass]
    ensures r.Failure? ==> r.error == SerializerException
  {
    if kclass in m.procedures then Success(m.procedures[kclass]) else Failure(SerializerException)
  }

  function GetSerializer(m: Mapper, kprop: Prop): (r: Result<TypeSer, DbError>)
    ensures r.Success? <==> kprop in m.serializers
    ensures r.Success? ==> r.value == m.serializers[kprop]
    ensures r.Failure? ==> r.error == MapperException
  {
    if kprop in m.serializers then Success(m.serializers[kprop]) else Failure(MapperException)
  }
}
