/** Reading Thrift structs (ThriftStructReader.cs): the skipping of unknown
    values, the type-directed value decoder, the struct field loop with its
    required-field and default-value pass, and the memoised per-struct reader.

    The source compiles an expression tree per struct; this module is the
    interpreter that performs the same protocol reads in the same order. Each
    decoding function takes the remaining token stream and returns the decoded
    result together with the stream left after it. */
module StructReader {
  import opened Wire
  import opened ThriftErrors
  import opened Protocol
  import opened Descriptors

  // ---------------------------------------------------------------------
  // Skipping
  // ---------------------------------------------------------------------

  /** Consumes and discards one value of wire tag `tag`. The switch of the
      source has no default case: any other tag reads nothing. */
  function Skip(tag: TypeId, s: seq<Token>): (r: Result<seq<Token>>)
    decreases |s|, 0, 0
    ensures r.Ok? ==> |r.value| <= |s|
    ensures r.Ok? && tag.IsSkippable() ==> |r.value| < |s|
    ensures !tag.IsSkippable() ==> r == Ok(s)
    ensures r.Err? ==> r.error.Io?
  {
    if tag.IsPrimitive() then
      var x :- ReadScalar(tag, s);
      Ok(x.1)
    else if tag.List? then
      var h :- ReadEnvelope(ReadListHeader, s);
      var body :- SkipElems(h.0.elem, h.0.count, h.1);
      var end :- ReadEnvelope(ReadListEnd, body);
      Ok(end.1)
    else if tag.Set? then
      var h :- ReadEnvelope(ReadSetHeader, s);
      var body :- SkipElems(h.0.elem, h.0.count, h.1);
      var end :- ReadEnvelope(ReadSetEnd, body);
      Ok(end.1)
    else if tag.Map? then
      var h :- ReadEnvelope(ReadMapHeader, s);
      var body :- SkipEntries(h.0.key, h.0.value, h.0.count, h.1);
      var end :- ReadEnvelope(ReadMapEnd, body);
      Ok(end.1)
    else if tag.Struct? then
      var h :- ReadEnvelope(ReadStructHeader, s);
      var body :- SkipFields(h.1);
      var end :- ReadEnvelope(ReadStructEnd, body);
      Ok(end.1)
    else
      Ok(s)
  }

  /** Skips `n` values of tag `tag`, one after the other. */
  function SkipElems(tag: TypeId, n: nat, s: seq<Token>): (r: Result<seq<Token>>)
    decreases |s|, 1, n
    ensures r.Ok? ==> |r.value| <= |s|
    ensures r.Err? ==> r.error.Io?
    ensures n == 0 ==> r == Ok(s)
  {
    if n == 0 then Ok(s)
    else
      var s1 :- Skip(tag, s);
      SkipElems(tag, n - 1, s1)
  }

  /** Skips `n` map entries. */
  function SkipEntries(key: TypeId, value: TypeId, n: nat, s: seq<Token>): (r: Result<seq<Token>>)
    decreases |s|, 1, n
    ensures r.Ok? ==> |r.value| <= |s|
    ensures r.Err? ==> r.error.Io?
    ensures n == 0 ==> r == Ok(s)
  {
    if n == 0 then Ok(s)
    else
      var s1 :- SkipEntry(key, value, s);
      SkipEntries(key, value, n - 1, s1)
  }

  /** Skips one map entry: a key of tag `key`, then a value of tag `value`. */
  function SkipEntry(key: TypeId, value: TypeId, s: seq<Token>): (r: Result<seq<Token>>)
    decreases |s|, 0, 1
    ensures r.Ok? ==> |r.value| <= |s|
    ensures r.Err? ==> r.error.Io?
  {
    var s1 :- Skip(key, s);
    Skip(value, s1)
  }

  /** The field loop of a skipped struct: field header, value skipped by the
      header's tag, field end, until a header tagged `Empty`, after which no
      field end is read. */
  function SkipFields(s: seq<Token>): (r: Result<seq<Token>>)
    decreases |s|, 1, 0
    ensures r.Ok? ==> |r.value| <= |s| && |r.value| < |s|
    ensures r.Err? ==> r.error.Io?
  {
    var h :- ReadEnvelope(ReadFieldHeader, s);
    if h.0.tag == Empty then Ok(h.1)
    else
      var s2 :- Skip(h.0.tag, h.1);
      var end :- ReadEnvelope(ReadFieldEnd, s2);
      SkipFields(end.1)
  }

  // ---------------------------------------------------------------------
  // Decoding
  // ---------------------------------------------------------------------

  /** The wire-tag assertion the compiled reader performs. */
  function CheckTypeId(expected: TypeId, actual: TypeId): (r: Result<()>)
    ensures r.Ok? <==> expected == actual
    ensures r.Err? ==> r.error == TypeIdMismatch(expected, actual)
  {
    if expected != actual then Err(TypeIdMismatch(expected, actual)) else Ok(())
  }

  predicate IsSequenceType(t: ThriftType) {
    t.ArrayType? || t.ListType? || t.SetType?
  }

  /** The header read of an array, list or set (arrays use the list calls). */
  function HeaderRead(t: ThriftType): ReadOp
    requires IsSequenceType(t)
  {
    if t.SetType? then ReadSetHeader else ReadListHeader
  }

  function EndRead(t: ThriftType): ReadOp
    requires IsSequenceType(t)
  {
    if t.SetType? then ReadSetEnd else ReadListEnd
  }

  /** Decodes one value of type `t`. */
  function ForType(t: ThriftType, s: seq<Token>): (r: Result<(Value, seq<Token>)>)
    decreases |s|, 2, 0
    ensures r.Ok? ==> |r.value.1| <= |s| && |r.value.1| < |s|
    ensures t.StructType? && r.Ok? ==> s[0].StructHeader? && r.value.0.Instance?
    ensures t.StructType? && r.Ok? ==>
      forall i :: 0 <= i < |t.desc.fields| && (t.desc.fields[i].required || t.desc.fields[i].defaultValue.Some?) ==>
        t.desc.fields[i].id in r.value.0.fields
  {
    if IsSequenceType(t) then ForSequence(t, s)
    else if t.MapType? then ForMap(t, s)
    else if t.StructType? then
      var body :- ForFields(t.desc.fields, t.desc.blank, s);
      Ok((Instance(body.0), body.1))
    else ForScalar(t, s)
  }

  /** Decodes a value read by a single scalar call: a primitive, a string, an
      enumeration (read as Int32) or a nullable primitive. */
  function ForScalar(t: ThriftType, s: seq<Token>): (r: Result<(Value, seq<Token>)>)
    requires t.PrimitiveType? || t.StringType? || t.EnumType? || t.NullableType?
    ensures r.Ok? <==> s != [] && s[0].ScalarToken? && s[0].x.Id() == t.Id()
    ensures r.Ok? ==> r.value.1 == s[1..] && Conforms(r.value.0, t)
  {
    match t
    case StringType =>
      var x :- ReadScalar(Binary, s);
      Ok((Str(x.0.bytes), x.1))
    case EnumType(nullable) =>
      var x :- ReadScalar(Int32, s);
      var e := EnumValue(x.0.i);
      Ok((if nullable then Wrapped(e) else e, x.1))
    case NullableType(k) =>
      var x :- ReadScalar(k, s);
      Ok((Wrapped(Prim(x.0)), x.1))
    case PrimitiveType(k) =>
      var x :- ReadScalar(k, s);
      Ok((Prim(x.0), x.1))
  }

  /** Decodes a map: header, key-tag assertion, then value-tag assertion,
      `count` entries, end. */
  function ForMap(t: ThriftType, s: seq<Token>): (r: Result<(Value, seq<Token>)>)
    requires t.MapType?
    decreases |s|, 1, 0
    ensures r.Ok? ==> |r.value.1| <= |s| && |r.value.1| < |s|
    ensures r.Ok? ==> r.value.0.Entries?
    ensures r.Ok? ==>
      s[0].MapHeader? && s[0].key == t.key.Id() && s[0].value == t.value.Id() && |r.value.0.pairs| == s[0].count
    ensures s != [] && s[0].MapHeader? && s[0].key != t.key.Id() ==>
      r == Err(TypeIdMismatch(t.key.Id(), s[0].key))
    ensures s != [] && s[0].MapHeader? && s[0].key == t.key.Id() && s[0].value != t.value.Id() ==>
      r == Err(TypeIdMismatch(t.value.Id(), s[0].value))
  {
    var h :- ReadEnvelope(ReadMapHeader, s);
    var _ :- CheckTypeId(t.key.Id(), h.0.key);
    var _ :- CheckTypeId(t.value.Id(), h.0.value);
    var body :- ForEntries(t.key, t.value, h.0.count, h.1);
    var end :- ReadEnvelope(ReadMapEnd, body.1);
    Ok((Entries(body.0), end.1))
  }

  /** Decodes an array, list or set: header, element-tag assertion before any
      element is read, `count` elements, end. */
  function ForSequence(t: ThriftType, s: seq<Token>): (r: Result<(Value, seq<Token>)>)
    requires IsSequenceType(t)
    decreases |s|, 1, 0
    ensures r.Ok? ==> |r.value.1| <= |s| && |r.value.1| < |s|
    ensures r.Ok? ==> r.value.0.Items?
    ensures r.Ok? ==>
      HeaderRead(t).Accepts(s[0]) && s[0].elem == t.elem.Id() && |r.value.0.elems| == s[0].count
    ensures s != [] && HeaderRead(t).Accepts(s[0]) && s[0].elem != t.elem.Id() ==>
      r == Err(TypeIdMismatch(t.elem.Id(), s[0].elem))
  {
    var h :- ReadEnvelope(HeaderRead(t), s);
    var _ :- CheckTypeId(t.elem.Id(), h.0.elem);
    var body :- ForElems(t.elem, h.0.count, h.1);
    var end :- ReadEnvelope(EndRead(t), body.1);
    Ok((Items(body.0), end.1))
  }

  /** Decodes `n` values of type `elem` in wire order. */
  function ForElems(elem: ThriftType, n: nat, s: seq<Token>): (r: Result<(seq<Value>, seq<Token>)>)
    decreases |s|, 3, n
    ensures r.Ok? ==> |r.value.1| <= |s| && |r.value.0| == n
  {
    if n == 0 then Ok(([], s))
    else
      var x :- ForType(elem, s);
      var xs :- ForElems(elem, n - 1, x.1);
      Ok(([x.0] + xs.0, xs.1))
  }

  /** Decodes `n` map entries in wire order. */
  function ForEntries(key: ThriftType, value: ThriftType, n: nat, s: seq<Token>): (r: Result<(seq<(Value, Value)>, seq<Token>)>)
    decreases |s|, 3, n
    ensures r.Ok? ==> |r.value.1| <= |s| && |r.value.0| == n
  {
    if n == 0 then Ok(([], s))
    else
      var x :- ForEntry(key, value, s);
      var xs :- ForEntries(key, value, n - 1, x.1);
      Ok(([x.0] + xs.0, xs.1))
  }

  /** Decodes one map entry: the key, then the value. */
  function ForEntry(key: ThriftType, value: ThriftType, s: seq<Token>): (r: Result<((Value, Value), seq<Token>)>)
    decreases |s|, 2, 1
    ensures r.Ok? ==> |r.value.1| < |s|
  {
    var k :- ForType(key, s);
    var v :- ForType(value, k.1);
    Ok(((k.0, v.0), v.1))
  }

  // ---------------------------------------------------------------------
  // Struct fields
  // ---------------------------------------------------------------------

  /** Strips a nullable wrapper. */
  function Unwrap(v: Value): Value {
    if v.Wrapped? then v.inner else v
  }

  /** The value the setter of a known field stores: the decoded value passed
      through the field's converter when it has one. For a nullable field the
      converter sees the underlying value and its result is wrapped again. A
      converter that throws aborts the read with its exception. */
  function Converted(f: FieldDesc, v: Value): (r: Result<Value>)
    ensures f.converter.None? ==> r == Ok(v)
    ensures f.converter.Some? && !f.ty.IsNullable() ==> r == f.converter.value(v)
    ensures f.converter.Some? && f.ty.IsNullable() ==>
      && (r.Ok? <==> f.converter.value(Unwrap(v)).Ok?)
      && (r.Ok? ==> r.value == Wrapped(f.converter.value(Unwrap(v)).value))
      && (r.Err? ==> r.error == f.converter.value(Unwrap(v)).error)
  {
    match f.converter
    case None => Ok(v)
    case Some(c) =>
      if f.ty.IsNullable() then
        var x :- c(Unwrap(v));
        Ok(Wrapped(x))
      else c(v)
  }

  /** The struct reader proper: struct header, field loop, struct end, then
      the pass over unseen fields. Returns the property values of the
      instance that started as `blank`. */
  function ForFields(fields: seq<FieldDesc>, blank: map<int, Value>, s: seq<Token>): (r: Result<(map<int, Value>, seq<Token>)>)
    decreases |s|, 1, 0
    ensures r.Ok? ==> |r.value.1| <= |s| && |r.value.1| < |s| && s[0].StructHeader?
    ensures r.Ok? ==> forall i :: 0 <= i < |fields| && (fields[i].required || fields[i].defaultValue.Some?) ==>
      fields[i].id in r.value.0
  {
    var h :- ReadEnvelope(ReadStructHeader, s);
    var loop :- FieldLoop(fields, blank, {}, h.1);
    var end :- ReadEnvelope(ReadStructEnd, loop.2);
    var inst :- ApplyAbsent(fields, loop.0, loop.1);
    Ok((inst, end.1))
  }

  /** The field loop: `inst` holds the property values so far and `seen` the
      ids of the known fields assigned so far. */
  function FieldLoop(fields: seq<FieldDesc>, inst: map<int, Value>, seen: set<int>, s: seq<Token>)
    : (r: Result<(map<int, Value>, set<int>, seq<Token>)>)
    decreases |s|, 0, 0
    ensures r.Ok? ==> |r.value.2| <= |s| && |r.value.2| < |s|
    ensures r.Ok? ==> seen <= r.value.1
    ensures r.Ok? ==> forall k :: k in r.value.1 && k !in seen ==> FindField(fields, k).Some?
    ensures r.Ok? ==> inst.Keys <= r.value.0.Keys && r.value.1 - seen <= r.value.0.Keys
    ensures r.Ok? ==> forall k :: k !in r.value.1 ==>
      (k in r.value.0 <==> k in inst) && (k in inst ==> r.value.0[k] == inst[k])
    ensures s != [] && s[0].FieldHeader? && s[0].tag == Empty ==> r == Ok((inst, seen, s[1..]))
    ensures s != [] && s[0].FieldHeader? && s[0].tag != Empty && FindField(fields, s[0].id).Some? ==>
      var expected := fields[FindField(fields, s[0].id).value].ty.Id();
      expected != s[0].tag ==> r == Err(TypeIdMismatch(expected, s[0].tag))
  {
    var h :- ReadEnvelope(ReadFieldHeader, s);
    if h.0.tag == Empty then Ok((inst, seen, h.1))
    else match FindField(fields, h.0.id)
      case None =>
        var s2 :- Skip(h.0.tag, h.1);
        var end :- ReadEnvelope(ReadFieldEnd, s2);
        FieldLoop(fields, inst, seen, end.1)
      case Some(i) =>
        var f := fields[i];
        var _ :- CheckTypeId(f.ty.Id(), h.0.tag);
        var v :- ForType(f.ty, h.1);
        var stored :- Converted(f, v.0);
        var end :- ReadEnvelope(ReadFieldEnd, v.1);
        FieldLoop(fields, inst[f.id := stored], seen + {f.id}, end.1)
  }

  /** The pass after the struct end, in declared order: an unseen required
      field aborts with MissingRequiredField; an unseen optional field with a
      default gets the default through the plain setter; anything else is
      left as it is. */
  function ApplyAbsent(fields: seq<FieldDesc>, inst: map<int, Value>, seen: set<int>): (r: Result<map<int, Value>>)
    ensures r.Err? ==> r.error.MissingRequiredField?
    ensures r.Ok? ==> forall i :: 0 <= i < |fields| ==> !(fields[i].required && fields[i].id !in seen)
    ensures r.Ok? ==> forall k :: k in inst ==> k in r.value
    ensures r.Ok? ==> forall i :: 0 <= i < |fields| && fields[i].defaultValue.Some? && fields[i].id !in seen ==>
      fields[i].id in r.value
  {
    if fields == [] then Ok(inst)
    else
      var f := fields[0];
      if f.required then
        if f.id !in seen then Err(MissingRequiredField(f.name))
        else ApplyAbsent(fields[1..], inst, seen)
      else if f.defaultValue.Some? && f.id !in seen then
        ApplyAbsent(fields[1..], inst[f.id := f.defaultValue.value], seen)
      else
        ApplyAbsent(fields[1..], inst, seen)
  }

  // ---------------------------------------------------------------------
  // Per-struct readers and their cache
  // ---------------------------------------------------------------------

  /** A compiled reader: reads one value from a token stream. */
  type Reader = seq<Token> -> Result<(Value, seq<Token>)>

  /** The reader built for a struct: a fresh instance, then the struct reader
      proper. */
  function ForStruct(d: StructDesc): (reader: Reader)
    ensures forall s: seq<Token> :: reader(s).Ok? ==>
      && |reader(s).value.1| <= |s|
      && |reader(s).value.1| < |s|
      && s[0].StructHeader?
      && reader(s).value.0.Instance?
      && forall i :: 0 <= i < |d.fields| && (d.fields[i].required || d.fields[i].defaultValue.Some?) ==>
           d.fields[i].id in reader(s).value.0.fields
  {
    s => ForType(StructType(d), s)
  }

  /** Every cached reader is the one `ForStruct` builds for its key. */
  ghost predicate CacheSound(cache: map<StructDesc, Reader>) {
    forall d :: d in cache ==> cache[d] == ForStruct(d)
  }

  /** Reads a struct through the process-wide reader cache: the reader is
      built and added on first use and reused afterwards. Returns the read
      result and the cache after the call. */
  ghost function Read(cache: map<StructDesc, Reader>, d: StructDesc, s: seq<Token>)
    : (r: (Result<(Value, seq<Token>)>, map<StructDesc, Reader>))
    requires CacheSound(cache)
    ensures r.0 == ForType(StructType(d), s)
    ensures CacheSound(r.1) && d in r.1 && r.1.Keys == cache.Keys + {d}
    ensures d in cache ==> r.1 == cache
    ensures d !in cache ==> r.1 == cache[d := ForStruct(d)]
  {
    var known := if d in cache then cache else cache[d := ForStruct(d)];
    (known[d](s), known)
  }
}
