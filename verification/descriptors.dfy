/** The metadata the codec consumes (type, field, struct and method
    descriptors) and the native values it produces. Descriptors are built and
    validated elsewhere; here they are immutable inputs. */
module Descriptors {
  import opened Wire
  import opened ThriftErrors

  /** A native value. Arrays, lists and sets are kept as sequences in wire
      order and maps as sequences of entries in wire order; a struct instance
      maps field ids to the values of their properties (a property that was
      never assigned is absent from the map). */
  datatype Value =
    | Prim(x: Scalar)
    | Str(bytes: seq<byte>)
    | EnumValue(i: int)
    | Wrapped(inner: Value)
    | Items(elems: seq<Value>)
    | Entries(pairs: seq<(Value, Value)>)
    | Instance(fields: map<int, Value>)
    | Null

  /** The shape of a value. */
  datatype ThriftType =
    | PrimitiveType(kind: PrimitiveId)
    | StringType
    | EnumType(nullable: bool)
    | NullableType(underlying: PrimitiveId)
    | ArrayType(elem: ThriftType)
    | ListType(elem: ThriftType)
    | SetType(elem: ThriftType)
    | MapType(key: ThriftType, value: ThriftType)
    | StructType(desc: StructDesc)
  {
    /** The wire tag of a value of this type. */
    function Id(): TypeId {
      match this
      case PrimitiveType(k) => k
      case StringType => Binary
      case EnumType(_) => Int32
      case NullableType(k) => k
      case ArrayType(_) => List
      case ListType(_) => List
      case SetType(_) => Set
      case MapType(_, _) => Map
      case StructType(_) => Struct
    }

    /** True when the native type is a nullable wrapper. */
    predicate IsNullable() {
      NullableType? || (EnumType? && nullable)
    }
  }

  /** A struct field or a method parameter. The converter maps a decoded wire
      value to the native value stored in the property; it is user code and
      may throw. */
  datatype FieldDesc = FieldDesc(
    id: int,
    name: string,
    ty: ThriftType,
    required: bool,
    defaultValue: Option<Value>,
    converter: Option<Value -> Result<Value>>)

  /** A struct: its fields in declared order and the property values of a
      freshly constructed instance. */
  datatype StructDesc = StructDesc(name: string, fields: seq<FieldDesc>, blank: map<int, Value>)

  /** An RPC method: its name, one-way flag and parameters in order. */
  datatype MethodDesc = MethodDesc(name: string, isOneWay: bool, params: seq<FieldDesc>)

  /** The first declared field with id `id`, if any. */
  function FindField(fields: seq<FieldDesc>, id: int): (r: Option<nat>)
    ensures r.Some? ==> r.value < |fields| && fields[r.value].id == id
    ensures r.Some? ==> forall j :: 0 <= j < r.value ==> fields[j].id != id
    ensures r.None? ==> forall j :: 0 <= j < |fields| ==> fields[j].id != id
  {
    if fields == [] then None
    else if fields[0].id == id then Some(0)
    else match FindField(fields[1..], id)
      case None => None
      case Some(k) => Some(k + 1)
  }

  /** Field ids are unique within one struct. */
  predicate UniqueIds(fields: seq<FieldDesc>) {
    forall i, j :: 0 <= i < j < |fields| ==> fields[i].id != fields[j].id
  }

  /** The value has the shape a decode of `t` produces (before any field
      converter runs). */
  predicate Conforms(v: Value, t: ThriftType) {
    match t
    case PrimitiveType(k) => v.Prim? && v.x.Id() == k
    case StringType => v.Str?
    case EnumType(nullable) =>
      if nullable then v.Wrapped? && v.inner.EnumValue? else v.EnumValue?
    case NullableType(k) => v.Wrapped? && v.inner.Prim? && v.inner.x.Id() == k
    case ArrayType(e) => v.Items? && forall i :: 0 <= i < |v.elems| ==> Conforms(v.elems[i], e)
    case ListType(e) => v.Items? && forall i :: 0 <= i < |v.elems| ==> Conforms(v.elems[i], e)
    case SetType(e) => v.Items? && forall i :: 0 <= i < |v.elems| ==> Conforms(v.elems[i], e)
    case MapType(k, w) =>
      v.Entries? && forall i :: 0 <= i < |v.pairs| ==> Conforms(v.pairs[i].0, k) && Conforms(v.pairs[i].1, w)
    case StructType(_) => v.Instance?
  }
}
