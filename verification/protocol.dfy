/** The reading half of the protocol capability over a token stream. Every read
    takes exactly one token off the front of the stream; an empty stream or a
    token of the wrong kind is an I/O failure. */
module Protocol {
  import opened Wire
  import opened ThriftErrors

  /** The envelope reads of the protocol. */
  datatype ReadOp =
    | ReadMessageHeader | ReadMessageEnd
    | ReadStructHeader | ReadStructEnd
    | ReadFieldHeader | ReadFieldEnd
    | ReadListHeader | ReadListEnd
    | ReadSetHeader | ReadSetEnd
    | ReadMapHeader | ReadMapEnd
  {
    /** The token kind this read expects. */
    predicate Accepts(t: Token) {
      match this
      case ReadMessageHeader => t.MessageHeader?
      case ReadMessageEnd => t.MessageEnd?
      case ReadStructHeader => t.StructHeader?
      case ReadStructEnd => t.StructEnd?
      case ReadFieldHeader => t.FieldHeader?
      case ReadFieldEnd => t.FieldEnd?
      case ReadListHeader => t.ListHeader?
      case ReadListEnd => t.ListEnd?
      case ReadSetHeader => t.SetHeader?
      case ReadSetEnd => t.SetEnd?
      case ReadMapHeader => t.MapHeader?
      case ReadMapEnd => t.MapEnd?
    }
  }

  /** The failure a read reports when it cannot accept the front of `s`. */
  function Failure(s: seq<Token>): Error {
    if s == [] then Io(EndOfInput) else Io(UnexpectedToken(s[0]))
  }

  /** Performs one envelope read. */
  function ReadEnvelope(op: ReadOp, s: seq<Token>): (r: Result<(Token, seq<Token>)>)
    ensures r.Ok? <==> s != [] && op.Accepts(s[0])
    ensures r.Ok? ==> r.value.0 == s[0] && r.value.1 == s[1..]
    ensures r.Err? ==> r.error.Io?
  {
    if s != [] && op.Accepts(s[0]) then Ok((s[0], s[1..])) else Err(Failure(s))
  }

  /** Performs the scalar read of the primitive tag `tag` (ReadBoolean,
      ReadSByte, ..., ReadBinary). */
  function ReadScalar(tag: PrimitiveId, s: seq<Token>): (r: Result<(Scalar, seq<Token>)>)
    ensures r.Ok? <==> s != [] && s[0].ScalarToken? && s[0].x.Id() == tag
    ensures r.Ok? ==> s[0] == ScalarToken(r.value.0) && r.value.1 == s[1..]
    ensures r.Err? ==> r.error.Io?
  {
    if s != [] && s[0].ScalarToken? && s[0].x.Id() == tag then Ok((s[0].x, s[1..]))
    else Err(Failure(s))
  }
}
