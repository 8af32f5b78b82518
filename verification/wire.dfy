/** Wire-level vocabulary shared by the reader and the writer: the Thrift type
    tags, the scalar payloads and the abstract protocol tokens.

    A protocol instance is modelled as the finite sequence of tokens it would
    hand out (when reading) or receive (when writing); one protocol call is one
    token. The concrete encodings behind the protocol are not modelled. */
module Wire {

  /** The wire type tag. The twelve named members are those of the source's
      enumeration; `Unnamed` stands for any other value of the enumeration,
      which a protocol can produce by casting a wire byte. */
  datatype TypeId =
    | Empty
    | Boolean
    | SByte
    | Double
    | Int16
    | Int32
    | Int64
    | Binary
    | List
    | Set
    | Map
    | Struct
    | Unnamed(code: int)
  {
    /** Tags whose values are read by a single scalar protocol call. */
    predicate IsPrimitive() {
      Boolean? || SByte? || Double? || Int16? || Int32? || Int64? || Binary?
    }

    /** Tags that the skipping switch has a case for. */
    predicate IsSkippable() {
      IsPrimitive() || List? || Set? || Map? || Struct?
    }
  }

  type PrimitiveId = t: TypeId | t.IsPrimitive() witness Boolean

  newtype byte = x: int | 0 <= x < 256

  /** The payload of a scalar protocol read. Integer payloads are kept
      unbounded (their width is the protocol's concern); a double is an opaque
      bit pattern on which nothing computes. */
  datatype Scalar =
    | BoolValue(b: bool)
    | SByteValue(i: int)
    | DoubleValue(bits: int)
    | Int16Value(i: int)
    | Int32Value(i: int)
    | Int64Value(i: int)
    | BinaryValue(bytes: seq<byte>)
  {
    /** The tag of the protocol call that produces this payload. */
    function Id(): (t: PrimitiveId) {
      match this
      case BoolValue(_) => Boolean
      case SByteValue(_) => SByte
      case DoubleValue(_) => Double
      case Int16Value(_) => Int16
      case Int32Value(_) => Int32
      case Int64Value(_) => Int64
      case BinaryValue(_) => Binary
    }
  }

  datatype MessageKind = Call | Reply | Exception | OneWay

  /** One protocol call. Collection counts are non-negative here. For a
      negative count the source's skip loops read no element; an array decode
      fails when it allocates the array; the list, set and map decode loops,
      which stop when the index equals the count, are not stopped by it. */
  datatype Token =
    | ScalarToken(x: Scalar)
    | MessageHeader(name: string, kind: MessageKind)
    | MessageEnd
    | StructHeader(name: string)
    | StructEnd
    | FieldHeader(id: int, tag: TypeId)
    | FieldEnd
    | ListHeader(count: nat, elem: TypeId)
    | ListEnd
    | SetHeader(count: nat, elem: TypeId)
    | SetEnd
    | MapHeader(count: nat, key: TypeId, value: TypeId)
    | MapEnd

  /** The field-stop marker: a field header whose tag is `Empty`. */
  const FieldStop: Token := FieldHeader(0, Empty)

  // ---------------------------------------------------------------------
  // Token sequence steps, stated once so that proofs rewrite with them
  // instead of reasoning about sequence equality element by element
  // ---------------------------------------------------------------------

  lemma Assoc(a: seq<Token>, b: seq<Token>, c: seq<Token>)
    ensures (a + b) + c == a + (b + c)
  {
  }

  lemma HeadTail(s: seq<Token>)
    requires s != []
    ensures [s[0]] + s[1..] == s
  {
  }

  lemma Push(x: Token, s: seq<Token>)
    ensures ([x] + s)[0] == x && ([x] + s)[1..] == s
  {
  }

  lemma EmptyLeft(s: seq<Token>)
    ensures [] + s == s
  {
  }
}
