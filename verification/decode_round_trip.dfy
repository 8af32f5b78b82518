/** A reference encoder for values of struct-free types, and the round trip
    it completes with the type-directed decoder: every value of the shape of
    such a type is decoded back, unchanged, from its canonical wire form, and
    exactly that wire form is consumed. */
module DecodeRoundTrip {
  import opened Wire
  import opened ThriftErrors
  import opened Protocol
  import opened Descriptors
  import opened StructReader
  import opened WireValues

  /** A type with no struct anywhere inside it. */
  predicate Flat(t: ThriftType) {
    match t
    case ArrayType(e) => Flat(e)
    case ListType(e) => Flat(e)
    case SetType(e) => Flat(e)
    case MapType(k, w) => Flat(k) && Flat(w)
    case StructType(_) => false
    case _ => true
  }

  /** The canonical wire form of a value of type `t`: a scalar for the scalar
      types (an enumeration as its Int32, a nullable as its underlying
      scalar), arrays and lists as lists, sets as sets, maps as maps, in the
      order the value holds its elements. A value that does not have the
      shape of `t` has no wire form and is given an empty one of the tag of
      `t`. */
  function Encode(t: ThriftType, v: Value): (w: WireValue)
    decreases v
    ensures Tag(w) == t.Id()
  {
    match t
    case PrimitiveType(k) =>
      if v.Prim? && v.x.Id() == k then ScalarWire(v.x) else NoWire(k)
    case StringType =>
      if v.Str? then ScalarWire(BinaryValue(v.bytes)) else NoWire(Binary)
    case EnumType(nullable) =>
      if !nullable && v.EnumValue? then ScalarWire(Int32Value(v.i))
      else if nullable && v.Wrapped? && v.inner.EnumValue? then ScalarWire(Int32Value(v.inner.i))
      else NoWire(Int32)
    case NullableType(k) =>
      if v.Wrapped? && v.inner.Prim? && v.inner.x.Id() == k then ScalarWire(v.inner.x) else NoWire(k)
    case ArrayType(e) =>
      if v.Items? then ListWire(e.Id(), EncodeAll(e, v.elems)) else NoWire(List)
    case ListType(e) =>
      if v.Items? then ListWire(e.Id(), EncodeAll(e, v.elems)) else NoWire(List)
    case SetType(e) =>
      if v.Items? then SetWire(e.Id(), EncodeAll(e, v.elems)) else NoWire(Set)
    case MapType(k, x) =>
      if v.Entries? then MapWire(k.Id(), x.Id(), EncodePairs(k, x, v.pairs)) else NoWire(Map)
    case StructType(_) => NoWire(Struct)
  }

  /** The wire forms of a sequence of elements, one per element. */
  function EncodeAll(e: ThriftType, vs: seq<Value>): (ws: seq<WireValue>)
    decreases vs
    ensures |ws| == |vs|
  {
    if vs == [] then [] else [Encode(e, vs[0])] + EncodeAll(e, vs[1..])
  }

  /** The wire forms of a sequence of map entries, key then value. */
  function EncodePairs(k: ThriftType, x: ThriftType, ps: seq<(Value, Value)>): (ws: seq<(WireValue, WireValue)>)
    decreases ps
    ensures |ws| == |ps|
  {
    if ps == [] then []
    else
      var p := ps[0];
      assert p.0 < p && p.1 < p;
      [(Encode(k, p.0), Encode(x, p.1))] + EncodePairs(k, x, ps[1..])
  }

  /** Every element has the shape of `e`. */
  predicate AllConform(vs: seq<Value>, e: ThriftType) {
    forall i :: 0 <= i < |vs| ==> Conforms(vs[i], e)
  }

  /** Every entry has a key of the shape of `k` and a value of the shape of
      `x`. */
  predicate PairsConform(ps: seq<(Value, Value)>, k: ThriftType, x: ThriftType) {
    forall i :: 0 <= i < |ps| ==> Conforms(ps[i].0, k) && Conforms(ps[i].1, x)
  }

  // ---------------------------------------------------------------------
  // The canonical wire form is a well-formed wire value
  // ---------------------------------------------------------------------

  /** A value of the shape of a struct-free type has a well-formed wire
      form: collection items carry the tag of their header. */
  lemma {:induction false} EncodeWellFormed(t: ThriftType, v: Value)
    requires Flat(t) && Conforms(v, t)
    decreases v, 1
    ensures WellFormed(Encode(t, v))
  {
    match t
    case ArrayType(e) => EncodeAllWellFormed(e, v.elems);
    case ListType(e) => EncodeAllWellFormed(e, v.elems);
    case SetType(e) => EncodeAllWellFormed(e, v.elems);
    case MapType(k, x) => EncodePairsWellFormed(k, x, v.pairs);
    case _ =>
  }

  lemma {:induction false} EncodeAllWellFormed(e: ThriftType, vs: seq<Value>)
    requires Flat(e) && AllConform(vs, e)
    decreases vs
    ensures forall i :: 0 <= i < |vs| ==> Tag(EncodeAll(e, vs)[i]) == e.Id() && WellFormed(EncodeAll(e, vs)[i])
  {
    if vs != [] {
      AllConformSplit(vs, e);
      EncodeWellFormed(e, vs[0]);
      EncodeAllWellFormed(e, vs[1..]);
      var ws := EncodeAll(e, vs);
      assert ws[0] == Encode(e, vs[0]) && ws[1..] == EncodeAll(e, vs[1..]);
      assert forall i :: 1 <= i < |ws| ==> ws[i] == ws[1..][i - 1];
    }
  }

  lemma {:induction false} EncodePairsWellFormed(k: ThriftType, x: ThriftType, ps: seq<(Value, Value)>)
    requires Flat(k) && Flat(x) && PairsConform(ps, k, x)
    decreases ps
    ensures forall i :: 0 <= i < |ps| ==>
      && Tag(EncodePairs(k, x, ps)[i].0) == k.Id() && WellFormed(EncodePairs(k, x, ps)[i].0)
      && Tag(EncodePairs(k, x, ps)[i].1) == x.Id() && WellFormed(EncodePairs(k, x, ps)[i].1)
  {
    if ps != [] {
      var p := ps[0];
      assert p.0 < p && p.1 < p;
      PairsConformSplit(ps, k, x);
      EncodeWellFormed(k, p.0);
      EncodeWellFormed(x, p.1);
      EncodePairsWellFormed(k, x, ps[1..]);
      var ws := EncodePairs(k, x, ps);
      assert ws[0] == (Encode(k, p.0), Encode(x, p.1)) && ws[1..] == EncodePairs(k, x, ps[1..]);
      assert forall i :: 1 <= i < |ws| ==> ws[i] == ws[1..][i - 1];
    }
  }

  // ---------------------------------------------------------------------
  // Decoding the canonical wire form gives the value back
  // ---------------------------------------------------------------------

  /** Decoding `t` from the canonical wire form of `v`, followed by anything,
      returns `v` and leaves exactly what followed. */
  lemma {:induction false} DecodeEncoded(t: ThriftType, v: Value, rest: seq<Token>)
    requires Flat(t) && Conforms(v, t)
    decreases v, 1
    ensures ForType(t, Tokens(Encode(t, v)) + rest) == Ok((v, rest))
  {
    if IsSequenceType(t) {
      DecodeEncodedSequence(t, v, rest);
    } else if t.MapType? {
      DecodeEncodedMap(t, v, rest);
    } else {
      DecodeEncodedScalar(t, v, rest);
    }
  }

  /** A scalar-read value is read back from its one scalar token: an
      enumeration from its Int32, a nullable from its underlying scalar. */
  lemma DecodeEncodedScalar(t: ThriftType, v: Value, rest: seq<Token>)
    requires t.PrimitiveType? || t.StringType? || t.EnumType? || t.NullableType?
    requires Conforms(v, t)
    ensures ForType(t, Tokens(Encode(t, v)) + rest) == Ok((v, rest))
  {
    var x := Encode(t, v).x;
    var s := [ScalarToken(x)] + rest;
    Push(ScalarToken(x), rest);
    assert ForType(t, s) == ForScalar(t, s);
  }

  /** An array, list or set is read back from a header tagged with its
      element type, its elements, and the end. */
  lemma {:induction false} DecodeEncodedSequence(t: ThriftType, v: Value, rest: seq<Token>)
    requires IsSequenceType(t) && Flat(t) && Conforms(v, t)
    decreases v, 0
    ensures ForType(t, Tokens(Encode(t, v)) + rest) == Ok((v, rest))
  {
    var ws := EncodeAll(t.elem, v.elems);
    var h := if t.SetType? then SetHeader(|ws|, t.elem.Id()) else ListHeader(|ws|, t.elem.Id());
    var end := if t.SetType? then SetEnd else ListEnd;
    var s := [h] + (ItemTokens(ws) + ([end] + rest));
    FrameTokens(h, ItemTokens(ws), end, rest, Tokens(Encode(t, v)));
    DecodeEncodedElems(t.elem, v.elems, [end] + rest);
    ForSequenceFold(t, s, [end] + rest, v.elems);
  }

  /** A map is read back from a header tagged with its key and value types,
      its entries, and the end. */
  lemma {:induction false} DecodeEncodedMap(t: ThriftType, v: Value, rest: seq<Token>)
    requires t.MapType? && Flat(t) && Conforms(v, t)
    decreases v, 0
    ensures ForType(t, Tokens(Encode(t, v)) + rest) == Ok((v, rest))
  {
    var ws := EncodePairs(t.key, t.value, v.pairs);
    var h := MapHeader(|ws|, t.key.Id(), t.value.Id());
    var s := [h] + (EntryTokens(ws) + ([MapEnd] + rest));
    FrameTokens(h, EntryTokens(ws), MapEnd, rest, Tokens(Encode(t, v)));
    DecodeEncodedPairs(t.key, t.value, v.pairs, [MapEnd] + rest);
    ForMapFold(t, s, [MapEnd] + rest, v.pairs);
  }

  /** Decoding `|vs|` elements from their canonical wire forms gives `vs`. */
  lemma {:induction false} DecodeEncodedElems(e: ThriftType, vs: seq<Value>, rest: seq<Token>)
    requires Flat(e) && AllConform(vs, e)
    decreases vs
    ensures ForElems(e, |vs|, ItemTokens(EncodeAll(e, vs)) + rest) == Ok((vs, rest))
  {
    if vs == [] {
      EmptyLeft(rest);
    } else {
      var tailRest := ItemTokens(EncodeAll(e, vs[1..])) + rest;
      AllConformSplit(vs, e);
      DecodeEncoded(e, vs[0], tailRest);
      DecodeEncodedElems(e, vs[1..], rest);
      ElemsConsRoundTrip(e, vs, rest);
    }
  }

  /** Decoding `|ps|` entries from their canonical wire forms gives `ps`. */
  lemma {:induction false} DecodeEncodedPairs(k: ThriftType, x: ThriftType, ps: seq<(Value, Value)>, rest: seq<Token>)
    requires Flat(k) && Flat(x) && PairsConform(ps, k, x)
    decreases ps
    ensures ForEntries(k, x, |ps|, EntryTokens(EncodePairs(k, x, ps)) + rest) == Ok((ps, rest))
  {
    if ps == [] {
      EmptyLeft(rest);
    } else {
      var tailRest := EntryTokens(EncodePairs(k, x, ps[1..])) + rest;
      PairsConformSplit(ps, k, x);
      DecodeEncodedPair(k, x, ps[0], tailRest);
      DecodeEncodedPairs(k, x, ps[1..], rest);
      PairsConsRoundTrip(k, x, ps, rest);
    }
  }

  /** Decoding one entry from the canonical wire forms of its key and value
      gives the entry. */
  lemma {:induction false} DecodeEncodedPair(k: ThriftType, x: ThriftType, p: (Value, Value), rest: seq<Token>)
    requires Flat(k) && Flat(x) && Conforms(p.0, k) && Conforms(p.1, x)
    decreases p
    ensures ForEntry(k, x, Tokens(Encode(k, p.0)) + (Tokens(Encode(x, p.1)) + rest)) == Ok((p, rest))
  {
    var vt := Tokens(Encode(x, p.1)) + rest;
    DecodeEncoded(k, p.0, vt);
    DecodeEncoded(x, p.1, rest);
    ForEntryFold(k, x, Tokens(Encode(k, p.0)) + vt, p, vt, rest);
  }

  lemma AllConformSplit(vs: seq<Value>, e: ThriftType)
    requires vs != [] && AllConform(vs, e)
    ensures Conforms(vs[0], e) && AllConform(vs[1..], e)
  {
    assert forall i :: 0 <= i < |vs[1..]| ==> vs[1..][i] == vs[i + 1];
  }

  lemma PairsConformSplit(ps: seq<(Value, Value)>, k: ThriftType, x: ThriftType)
    requires ps != [] && PairsConform(ps, k, x)
    ensures Conforms(ps[0].0, k) && Conforms(ps[0].1, x) && PairsConform(ps[1..], k, x)
  {
    assert forall i :: 0 <= i < |ps[1..]| ==> ps[1..][i] == ps[i + 1];
  }

  /** The elements decode as the first one, then the rest. */
  lemma ElemsConsRoundTrip(e: ThriftType, vs: seq<Value>, rest: seq<Token>)
    requires vs != []
    requires ForType(e, Tokens(Encode(e, vs[0])) + (ItemTokens(EncodeAll(e, vs[1..])) + rest)) ==
      Ok((vs[0], ItemTokens(EncodeAll(e, vs[1..])) + rest))
    requires ForElems(e, |vs| - 1, ItemTokens(EncodeAll(e, vs[1..])) + rest) == Ok((vs[1..], rest))
    ensures ForElems(e, |vs|, ItemTokens(EncodeAll(e, vs)) + rest) == Ok((vs, rest))
  {
    var tailRest := ItemTokens(EncodeAll(e, vs[1..])) + rest;
    ItemTokensCons(e, vs, rest);
    ForElemsJoin(e, Tokens(Encode(e, vs[0])) + tailRest, tailRest, vs, rest);
  }

  /** The entries decode as the first one, then the rest. */
  lemma PairsConsRoundTrip(k: ThriftType, x: ThriftType, ps: seq<(Value, Value)>, rest: seq<Token>)
    requires ps != []
    requires ForEntry(k, x, Tokens(Encode(k, ps[0].0)) + (Tokens(Encode(x, ps[0].1)) + (EntryTokens(EncodePairs(k, x, ps[1..])) + rest))) ==
      Ok((ps[0], EntryTokens(EncodePairs(k, x, ps[1..])) + rest))
    requires ForEntries(k, x, |ps| - 1, EntryTokens(EncodePairs(k, x, ps[1..])) + rest) == Ok((ps[1..], rest))
    ensures ForEntries(k, x, |ps|, EntryTokens(EncodePairs(k, x, ps)) + rest) == Ok((ps, rest))
  {
    var tailRest := EntryTokens(EncodePairs(k, x, ps[1..])) + rest;
    EntryTokensCons(k, x, ps, rest);
    ForEntriesJoin(k, x, Tokens(Encode(k, ps[0].0)) + (Tokens(Encode(x, ps[0].1)) + tailRest), tailRest, ps, rest);
  }

  // ---------------------------------------------------------------------
  // Token regroupings of the canonical wire forms
  // ---------------------------------------------------------------------

  /** A container's tokens followed by `rest`, as header then body then end
      then rest. */
  lemma FrameTokens(h: Token, body: seq<Token>, end: Token, rest: seq<Token>, tokens: seq<Token>)
    requires tokens == [h] + (body + [end])
    ensures tokens + rest == [h] + (body + ([end] + rest))
    ensures (tokens + rest)[0] == h && (tokens + rest)[1..] == body + ([end] + rest)
    ensures ([end] + rest)[0] == end && ([end] + rest)[1..] == rest
  {
    Regroup(h, body, [end], rest);
    Push(h, body + ([end] + rest));
    Push(end, rest);
  }

  lemma ItemTokensCons(e: ThriftType, vs: seq<Value>, rest: seq<Token>)
    requires vs != []
    ensures ItemTokens(EncodeAll(e, vs)) + rest == Tokens(Encode(e, vs[0])) + (ItemTokens(EncodeAll(e, vs[1..])) + rest)
  {
    var ws := EncodeAll(e, vs);
    assert ws[0] == Encode(e, vs[0]) && ws[1..] == EncodeAll(e, vs[1..]);
    Assoc(Tokens(ws[0]), ItemTokens(ws[1..]), rest);
  }

  lemma EntryTokensCons(k: ThriftType, x: ThriftType, ps: seq<(Value, Value)>, rest: seq<Token>)
    requires ps != []
    ensures EntryTokens(EncodePairs(k, x, ps)) + rest ==
      Tokens(Encode(k, ps[0].0)) + (Tokens(Encode(x, ps[0].1)) + (EntryTokens(EncodePairs(k, x, ps[1..])) + rest))
  {
    var ws := EncodePairs(k, x, ps);
    var tailRest := EntryTokens(EncodePairs(k, x, ps[1..])) + rest;
    assert ws[0] == (Encode(k, ps[0].0), Encode(x, ps[0].1)) && ws[1..] == EncodePairs(k, x, ps[1..]);
    Assoc(PairTokens(ws[0]), EntryTokens(ws[1..]), rest);
    Assoc(Tokens(ws[0].0), Tokens(ws[0].1), tailRest);
  }

  // ---------------------------------------------------------------------
  // One-step foldings of the decoder
  // ---------------------------------------------------------------------

  /** An array, list or set decode from its header, elements and end. */
  lemma ForSequenceFold(t: ThriftType, s: seq<Token>, after: seq<Token>, vs: seq<Value>)
    requires IsSequenceType(t)
    requires s != [] && HeaderRead(t).Accepts(s[0]) && s[0].elem == t.elem.Id()
    requires ForElems(t.elem, s[0].count, s[1..]) == Ok((vs, after))
    requires after != [] && EndRead(t).Accepts(after[0])
    ensures ForType(t, s) == Ok((Items(vs), after[1..]))
  {
    assert ForType(t, s) == ForSequence(t, s);
  }

  /** A map decode from its header, entries and end. */
  lemma ForMapFold(t: ThriftType, s: seq<Token>, after: seq<Token>, ps: seq<(Value, Value)>)
    requires t.MapType?
    requires s != [] && s[0].MapHeader? && s[0].key == t.key.Id() && s[0].value == t.value.Id()
    requires ForEntries(t.key, t.value, s[0].count, s[1..]) == Ok((ps, after))
    requires after != [] && after[0].MapEnd?
    ensures ForType(t, s) == Ok((Entries(ps), after[1..]))
  {
    assert ForType(t, s) == ForMap(t, s);
  }

  /** Elements decode as a first element followed by the others. */
  lemma ForElemsJoin(e: ThriftType, s: seq<Token>, mid: seq<Token>, vs: seq<Value>, after: seq<Token>)
    requires vs != []
    requires ForType(e, s) == Ok((vs[0], mid))
    requires ForElems(e, |vs| - 1, mid) == Ok((vs[1..], after))
    ensures ForElems(e, |vs|, s) == Ok((vs, after))
  {
    assert [vs[0]] + vs[1..] == vs;
  }

  /** Entries decode as a first entry followed by the others. */
  lemma ForEntriesJoin(k: ThriftType, x: ThriftType, s: seq<Token>, mid: seq<Token>, ps: seq<(Value, Value)>, after: seq<Token>)
    requires ps != []
    requires ForEntry(k, x, s) == Ok((ps[0], mid))
    requires ForEntries(k, x, |ps| - 1, mid) == Ok((ps[1..], after))
    ensures ForEntries(k, x, |ps|, s) == Ok((ps, after))
  {
    assert [ps[0]] + ps[1..] == ps;
  }

  /** An entry decodes as its key, then its value. */
  lemma ForEntryFold(k: ThriftType, x: ThriftType, s: seq<Token>, p: (Value, Value), mid: seq<Token>, after: seq<Token>)
    requires ForType(k, s) == Ok((p.0, mid))
    requires ForType(x, mid) == Ok((p.1, after))
    ensures ForEntry(k, x, s) == Ok((p, after))
  {
  }
}
