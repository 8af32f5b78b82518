/** An independent description of what one value occupies on the wire, used as
    the reference against which skipping is checked: `Tokens(w)` is the token
    sequence of the wire value `w`, and the skipper consumes exactly the tokens
    of one well-formed wire value of the requested tag. */
module WireValues {
  import opened Wire
  import opened ThriftErrors
  import opened Protocol
  import opened StructReader

  /** A value as it appears on the wire, without any schema. */
  datatype WireValue =
    | ScalarWire(x: Scalar)
    | NoWire(tag: TypeId)
    | ListWire(elem: TypeId, items: seq<WireValue>)
    | SetWire(elem: TypeId, items: seq<WireValue>)
    | MapWire(key: TypeId, value: TypeId, entries: seq<(WireValue, WireValue)>)
    | StructWire(name: string, fields: seq<WireField>, stopId: int)

  /** One field of a struct on the wire; its header carries the tag of its
      value. */
  datatype WireField = WireField(id: int, value: WireValue)

  /** The tag a wire value is read under. */
  function Tag(w: WireValue): TypeId {
    match w
    case ScalarWire(x) => x.Id()
    case NoWire(t) => t
    case ListWire(_, _) => List
    case SetWire(_, _) => Set
    case MapWire(_, _, _) => Map
    case StructWire(_, _, _) => Struct
  }

  /** Collection items carry the tag of their header, a tag without a
      skipping case occupies nothing, and no field of a struct is tagged
      `Empty` (that header is the field stop). */
  predicate WellFormed(w: WireValue) {
    match w
    case ScalarWire(_) => true
    case NoWire(t) => !t.IsSkippable()
    case ListWire(e, items) => forall i :: 0 <= i < |items| ==> Tag(items[i]) == e && WellFormed(items[i])
    case SetWire(e, items) => forall i :: 0 <= i < |items| ==> Tag(items[i]) == e && WellFormed(items[i])
    case MapWire(k, v, entries) =>
      forall i :: 0 <= i < |entries| ==>
        Tag(entries[i].0) == k && WellFormed(entries[i].0) && Tag(entries[i].1) == v && WellFormed(entries[i].1)
    case StructWire(_, fields, _) =>
      forall i :: 0 <= i < |fields| ==> Tag(fields[i].value) != Empty && WellFormed(fields[i].value)
  }

  /** The tokens of a wire value, in order. */
  function Tokens(w: WireValue): seq<Token> {
    match w
    case ScalarWire(x) => [ScalarToken(x)]
    case NoWire(_) => []
    case ListWire(e, items) => [ListHeader(|items|, e)] + (ItemTokens(items) + [ListEnd])
    case SetWire(e, items) => [SetHeader(|items|, e)] + (ItemTokens(items) + [SetEnd])
    case MapWire(k, v, entries) => [MapHeader(|entries|, k, v)] + (EntryTokens(entries) + [MapEnd])
    case StructWire(name, fields, stopId) =>
      [StructHeader(name)] + (FieldTokens(fields) + ([FieldHeader(stopId, Empty)] + [StructEnd]))
  }

  function ItemTokens(items: seq<WireValue>): seq<Token> {
    if items == [] then [] else Tokens(items[0]) + ItemTokens(items[1..])
  }

  function EntryTokens(entries: seq<(WireValue, WireValue)>): seq<Token> {
    if entries == [] then [] else PairTokens(entries[0]) + EntryTokens(entries[1..])
  }

  function PairTokens(entry: (WireValue, WireValue)): seq<Token> {
    Tokens(entry.0) + Tokens(entry.1)
  }

  function FieldTokens(fields: seq<WireField>): seq<Token> {
    if fields == [] then [] else OneFieldTokens(fields[0]) + FieldTokens(fields[1..])
  }

  /** Field header, value, field end. */
  function OneFieldTokens(f: WireField): seq<Token> {
    [FieldHeader(f.id, Tag(f.value))] + (Tokens(f.value) + [FieldEnd])
  }


  // ---------------------------------------------------------------------
  // Skipping consumes exactly one well-formed wire value
  // ---------------------------------------------------------------------

  /** The tokens of a container with its end token(s) `end`, followed by
      `rest`, regrouped as header, body, then end and rest. */
  lemma Regroup(h: Token, body: seq<Token>, end: seq<Token>, rest: seq<Token>)
    ensures ([h] + (body + end)) + rest == [h] + (body + (end + rest))
  {
    Assoc([h], body + end, rest);
    Assoc(body, end, rest);
  }

  /** Skipping the tag of a well-formed wire value consumes exactly its
      tokens, whatever follows them. */
  lemma {:induction false} SkipConsumesWireValue(w: WireValue, rest: seq<Token>)
    requires WellFormed(w)
    decreases w
    ensures Skip(Tag(w), Tokens(w) + rest) == Ok(rest)
  {
    match w
    case ScalarWire(x) =>
      Push(ScalarToken(x), rest);
    case NoWire(_) =>
      EmptyLeft(rest);
    case ListWire(e, items) =>
      ItemsSkip(e, items, [ListEnd] + rest);
      SkipListFrame(e, items, rest);
    case SetWire(e, items) =>
      ItemsSkip(e, items, [SetEnd] + rest);
      SkipSetFrame(e, items, rest);
    case MapWire(k, v, entries) =>
      EntriesSkip(k, v, entries, [MapEnd] + rest);
      SkipMapFrame(k, v, entries, rest);
    case StructWire(name, fields, stopId) =>
      FieldsSkip(fields, stopId, [StructEnd] + rest);
      SkipStructFrame(name, fields, stopId, rest);
  }

  lemma SkipListFrame(e: TypeId, items: seq<WireValue>, rest: seq<Token>)
    requires SkipElems(e, |items|, ItemTokens(items) + ([ListEnd] + rest)) == Ok([ListEnd] + rest)
    ensures Skip(List, Tokens(ListWire(e, items)) + rest) == Ok(rest)
  {
    Regroup(ListHeader(|items|, e), ItemTokens(items), [ListEnd], rest);
    Push(ListHeader(|items|, e), ItemTokens(items) + ([ListEnd] + rest));
    Push(ListEnd, rest);
    SkipSequenceStep(List, Tokens(ListWire(e, items)) + rest, [ListEnd] + rest);
  }

  lemma SkipSetFrame(e: TypeId, items: seq<WireValue>, rest: seq<Token>)
    requires SkipElems(e, |items|, ItemTokens(items) + ([SetEnd] + rest)) == Ok([SetEnd] + rest)
    ensures Skip(Set, Tokens(SetWire(e, items)) + rest) == Ok(rest)
  {
    Regroup(SetHeader(|items|, e), ItemTokens(items), [SetEnd], rest);
    Push(SetHeader(|items|, e), ItemTokens(items) + ([SetEnd] + rest));
    Push(SetEnd, rest);
    SkipSequenceStep(Set, Tokens(SetWire(e, items)) + rest, [SetEnd] + rest);
  }

  lemma SkipMapFrame(k: TypeId, v: TypeId, entries: seq<(WireValue, WireValue)>, rest: seq<Token>)
    requires SkipEntries(k, v, |entries|, EntryTokens(entries) + ([MapEnd] + rest)) == Ok([MapEnd] + rest)
    ensures Skip(Map, Tokens(MapWire(k, v, entries)) + rest) == Ok(rest)
  {
    var s := Tokens(MapWire(k, v, entries)) + rest;
    Regroup(MapHeader(|entries|, k, v), EntryTokens(entries), [MapEnd], rest);
    Push(MapHeader(|entries|, k, v), EntryTokens(entries) + ([MapEnd] + rest));
    Push(MapEnd, rest);
    SkipMapStep(s, [MapEnd] + rest);
  }

  /** One unrolling of skipping a map. */
  lemma SkipMapStep(s: seq<Token>, after: seq<Token>)
    requires s != [] && s[0].MapHeader?
    requires SkipEntries(s[0].key, s[0].value, s[0].count, s[1..]) == Ok(after)
    requires after != [] && after[0] == MapEnd
    ensures Skip(Map, s) == Ok(after[1..])
  {
  }

  lemma SkipStructFrame(name: string, fields: seq<WireField>, stopId: int, rest: seq<Token>)
    requires SkipFields(FieldTokens(fields) + ([FieldHeader(stopId, Empty)] + ([StructEnd] + rest))) == Ok([StructEnd] + rest)
    ensures Skip(Struct, Tokens(StructWire(name, fields, stopId)) + rest) == Ok(rest)
  {
    var stop := [FieldHeader(stopId, Empty)];
    Regroup(StructHeader(name), FieldTokens(fields), stop + [StructEnd], rest);
    Assoc(stop, [StructEnd], rest);
    Push(StructHeader(name), FieldTokens(fields) + (stop + ([StructEnd] + rest)));
    Push(StructEnd, rest);
    SkipStructStep(Tokens(StructWire(name, fields, stopId)) + rest, [StructEnd] + rest);
  }

  /** One unrolling of skipping a list or set. */
  lemma SkipSequenceStep(tag: TypeId, s: seq<Token>, after: seq<Token>)
    requires tag == List || tag == Set
    requires s != [] && (if tag == List then s[0].ListHeader? else s[0].SetHeader?)
    requires SkipElems(s[0].elem, s[0].count, s[1..]) == Ok(after)
    requires after != [] && after[0] == (if tag == List then ListEnd else SetEnd)
    ensures Skip(tag, s) == Ok(after[1..])
  {
  }

  /** One unrolling of skipping a struct. */
  lemma SkipStructStep(s: seq<Token>, after: seq<Token>)
    requires s != [] && s[0].StructHeader?
    requires SkipFields(s[1..]) == Ok(after)
    requires after != [] && after[0] == StructEnd
    ensures Skip(Struct, s) == Ok(after[1..])
  {
  }

  lemma {:induction false} ItemsSkip(e: TypeId, items: seq<WireValue>, rest: seq<Token>)
    requires forall i :: 0 <= i < |items| ==> Tag(items[i]) == e && WellFormed(items[i])
    decreases items
    ensures SkipElems(e, |items|, ItemTokens(items) + rest) == Ok(rest)
  {
    if items == [] {
      EmptyLeft(rest);
    } else {
      var tail := ItemTokens(items[1..]) + rest;
      SkipConsumesWireValue(items[0], tail);
      assert forall i :: 0 <= i < |items[1..]| ==> items[1..][i] == items[i + 1];
      ItemsSkip(e, items[1..], rest);
      Assoc(Tokens(items[0]), ItemTokens(items[1..]), rest);
    }
  }

  lemma {:induction false} EntriesSkip(k: TypeId, v: TypeId, entries: seq<(WireValue, WireValue)>, rest: seq<Token>)
    requires forall i :: 0 <= i < |entries| ==>
      Tag(entries[i].0) == k && WellFormed(entries[i].0) && Tag(entries[i].1) == v && WellFormed(entries[i].1)
    decreases entries
    ensures SkipEntries(k, v, |entries|, EntryTokens(entries) + rest) == Ok(rest)
  {
    if entries == [] {
      EmptyLeft(rest);
    } else {
      var tail := EntryTokens(entries[1..]) + rest;
      PairSkip(entries[0], tail);
      assert forall i :: 0 <= i < |entries[1..]| ==> entries[1..][i] == entries[i + 1];
      EntriesSkip(k, v, entries[1..], rest);
      Assoc(PairTokens(entries[0]), EntryTokens(entries[1..]), rest);
    }
  }

  lemma {:induction false} PairSkip(entry: (WireValue, WireValue), rest: seq<Token>)
    requires WellFormed(entry.0) && WellFormed(entry.1)
    decreases entry
    ensures SkipEntry(Tag(entry.0), Tag(entry.1), PairTokens(entry) + rest) == Ok(rest)
  {
    SkipConsumesWireValue(entry.0, Tokens(entry.1) + rest);
    SkipConsumesWireValue(entry.1, rest);
    Assoc(Tokens(entry.0), Tokens(entry.1), rest);
  }

  lemma {:induction false} FieldsSkip(fields: seq<WireField>, stopId: int, rest: seq<Token>)
    requires forall i :: 0 <= i < |fields| ==> Tag(fields[i].value) != Empty && WellFormed(fields[i].value)
    decreases fields
    ensures SkipFields(FieldTokens(fields) + ([FieldHeader(stopId, Empty)] + rest)) == Ok(rest)
  {
    var stop := [FieldHeader(stopId, Empty)] + rest;
    if fields == [] {
      EmptyLeft(stop);
      Push(FieldHeader(stopId, Empty), rest);
    } else {
      var tail := FieldTokens(fields[1..]) + stop;
      assert forall i :: 0 <= i < |fields[1..]| ==> fields[1..][i] == fields[i + 1];
      FieldsSkip(fields[1..], stopId, rest);
      OneFieldSkip(fields[0], tail);
      Assoc(OneFieldTokens(fields[0]), FieldTokens(fields[1..]), stop);
    }
  }

  /** A field that is not the stop: header, value skipped by the header's
      tag, field end, then the loop goes on. */
  lemma {:induction false} OneFieldSkip(f: WireField, rest: seq<Token>)
    requires Tag(f.value) != Empty && WellFormed(f.value)
    decreases f
    ensures SkipFields(OneFieldTokens(f) + rest) == SkipFields(rest)
  {
    var h := FieldHeader(f.id, Tag(f.value));
    var after := [FieldEnd] + rest;
    SkipConsumesWireValue(f.value, after);
    Regroup(h, Tokens(f.value), [FieldEnd], rest);
    Push(h, Tokens(f.value) + after);
    Push(FieldEnd, rest);
    SkipFieldsStep(OneFieldTokens(f) + rest, after);
  }

  /** One unrolling of the skipped field loop on a non-stop field. */
  lemma SkipFieldsStep(s: seq<Token>, after: seq<Token>)
    requires s != [] && s[0].FieldHeader? && s[0].tag != Empty
    requires Skip(s[0].tag, s[1..]) == Ok(after)
    requires after != [] && after[0] == FieldEnd
    ensures SkipFields(s) == SkipFields(after[1..])
  {
  }

  // ---------------------------------------------------------------------
  // Conversely, whatever the skipper consumes is one well-formed wire value
  // ---------------------------------------------------------------------

  /** A successful skip consumed the tokens of exactly one well-formed wire
      value of the skipped tag. */
  lemma SkipReadsWireValue(tag: TypeId, s: seq<Token>)
    requires Skip(tag, s).Ok?
    ensures exists w :: WellFormed(w) && Tag(w) == tag && Tokens(w) + Skip(tag, s).value == s
  {
    var w := ParseSkipped(tag, s);
  }

  /** The wire value a successful skip went over. */
  lemma {:induction false} ParseSkipped(tag: TypeId, s: seq<Token>) returns (w: WireValue)
    requires Skip(tag, s).Ok?
    decreases |s|, 0, 0
    ensures WellFormed(w) && Tag(w) == tag && Tokens(w) + Skip(tag, s).value == s
  {
    if tag.IsPrimitive() {
      w := ScalarWire(s[0].x);
      HeadTail(s);
    } else if tag == List || tag == Set {
      SkipSequenceUnfold(tag, s);
      var items := ParseSkippedElems(s[0].elem, s[0].count, s[1..]);
      w := SequenceWireOf(tag, s, items);
    } else if tag == Map {
      SkipMapUnfold(s);
      var entries := ParseSkippedEntries(s[0].key, s[0].value, s[0].count, s[1..]);
      w := MapWireOf(s, entries);
    } else if tag == Struct {
      SkipStructUnfold(s);
      var fields, stopId := ParseSkippedFields(s[1..]);
      w := StructWireOf(s, fields, stopId);
    } else {
      w := NoWire(tag);
      EmptyLeft(s);
    }
  }

  /** What a successful skip of a list or set went over. */
  lemma SkipSequenceUnfold(tag: TypeId, s: seq<Token>)
    requires tag == List || tag == Set
    requires Skip(tag, s).Ok?
    ensures s != [] && (if tag == List then s[0].ListHeader? else s[0].SetHeader?)
    ensures SkipElems(s[0].elem, s[0].count, s[1..]).Ok?
    ensures SkipElems(s[0].elem, s[0].count, s[1..]).value == [if tag == List then ListEnd else SetEnd] + Skip(tag, s).value
  {
    HeadTail(SkipElems(s[0].elem, s[0].count, s[1..]).value);
  }

  lemma SkipMapUnfold(s: seq<Token>)
    requires Skip(Map, s).Ok?
    ensures s != [] && s[0].MapHeader?
    ensures SkipEntries(s[0].key, s[0].value, s[0].count, s[1..]).Ok?
    ensures SkipEntries(s[0].key, s[0].value, s[0].count, s[1..]).value == [MapEnd] + Skip(Map, s).value
  {
    HeadTail(SkipEntries(s[0].key, s[0].value, s[0].count, s[1..]).value);
  }

  lemma SkipStructUnfold(s: seq<Token>)
    requires Skip(Struct, s).Ok?
    ensures s != [] && s[0].StructHeader?
    ensures SkipFields(s[1..]).Ok?
    ensures SkipFields(s[1..]).value == [StructEnd] + Skip(Struct, s).value
  {
    HeadTail(SkipFields(s[1..]).value);
  }

  lemma SequenceWireOf(tag: TypeId, s: seq<Token>, items: seq<WireValue>) returns (w: WireValue)
    requires tag == List || tag == Set
    requires s != [] && (if tag == List then s[0].ListHeader? else s[0].SetHeader?)
    requires |items| == s[0].count
    requires forall i :: 0 <= i < |items| ==> Tag(items[i]) == s[0].elem && WellFormed(items[i])
    requires Skip(tag, s).Ok?
    requires ItemTokens(items) + ([if tag == List then ListEnd else SetEnd] + Skip(tag, s).value) == s[1..]
    ensures WellFormed(w) && Tag(w) == tag && Tokens(w) + Skip(tag, s).value == s
  {
    var end := if tag == List then ListEnd else SetEnd;
    w := if tag == List then ListWire(s[0].elem, items) else SetWire(s[0].elem, items);
    Regroup(s[0], ItemTokens(items), [end], Skip(tag, s).value);
    HeadTail(s);
  }

  lemma MapWireOf(s: seq<Token>, entries: seq<(WireValue, WireValue)>) returns (w: WireValue)
    requires s != [] && s[0].MapHeader?
    requires |entries| == s[0].count
    requires forall i :: 0 <= i < |entries| ==>
      Tag(entries[i].0) == s[0].key && WellFormed(entries[i].0) && Tag(entries[i].1) == s[0].value && WellFormed(entries[i].1)
    requires Skip(Map, s).Ok?
    requires EntryTokens(entries) + ([MapEnd] + Skip(Map, s).value) == s[1..]
    ensures WellFormed(w) && Tag(w) == Map && Tokens(w) + Skip(Map, s).value == s
  {
    w := MapWire(s[0].key, s[0].value, entries);
    Regroup(s[0], EntryTokens(entries), [MapEnd], Skip(Map, s).value);
    HeadTail(s);
  }

  lemma StructWireOf(s: seq<Token>, fields: seq<WireField>, stopId: int) returns (w: WireValue)
    requires s != [] && s[0].StructHeader?
    requires forall i :: 0 <= i < |fields| ==> Tag(fields[i].value) != Empty && WellFormed(fields[i].value)
    requires Skip(Struct, s).Ok?
    requires FieldTokens(fields) + ([FieldHeader(stopId, Empty)] + ([StructEnd] + Skip(Struct, s).value)) == s[1..]
    ensures WellFormed(w) && Tag(w) == Struct && Tokens(w) + Skip(Struct, s).value == s
  {
    var rest := Skip(Struct, s).value;
    var stop := [FieldHeader(stopId, Empty)];
    w := StructWire(s[0].name, fields, stopId);
    Regroup(s[0], FieldTokens(fields), stop + [StructEnd], rest);
    Assoc(stop, [StructEnd], rest);
    HeadTail(s);
  }

  lemma {:induction false} ParseSkippedElems(e: TypeId, n: nat, s: seq<Token>) returns (items: seq<WireValue>)
    requires SkipElems(e, n, s).Ok?
    decreases |s|, 1, n
    ensures |items| == n
    ensures forall i :: 0 <= i < |items| ==> Tag(items[i]) == e && WellFormed(items[i])
    ensures ItemTokens(items) + SkipElems(e, n, s).value == s
  {
    if n == 0 {
      items := [];
      EmptyLeft(s);
    } else {
      SkipElemsStep(e, n, s);
      var w := ParseSkipped(e, s);
      var s1 := Skip(e, s).value;
      var more := ParseSkippedElems(e, n - 1, s1);
      items := [w] + more;
      assert items[0] == w && items[1..] == more;
      Assoc(Tokens(w), ItemTokens(more), SkipElems(e, n - 1, s1).value);
    }
  }

  /** One unrolling of a successful skip of `n` values. */
  lemma SkipElemsStep(e: TypeId, n: nat, s: seq<Token>)
    requires n > 0 && SkipElems(e, n, s).Ok?
    ensures Skip(e, s).Ok? && SkipElems(e, n - 1, Skip(e, s).value) == SkipElems(e, n, s)
  {
  }

  lemma {:induction false} ParseSkippedEntries(k: TypeId, v: TypeId, n: nat, s: seq<Token>)
    returns (entries: seq<(WireValue, WireValue)>)
    requires SkipEntries(k, v, n, s).Ok?
    decreases |s|, 1, n
    ensures |entries| == n
    ensures forall i :: 0 <= i < |entries| ==>
      Tag(entries[i].0) == k && WellFormed(entries[i].0) && Tag(entries[i].1) == v && WellFormed(entries[i].1)
    ensures EntryTokens(entries) + SkipEntries(k, v, n, s).value == s
  {
    if n == 0 {
      entries := [];
      EmptyLeft(s);
    } else {
      var entry := ParseSkippedEntry(k, v, s);
      var s1 := SkipEntry(k, v, s).value;
      var more := ParseSkippedEntries(k, v, n - 1, s1);
      entries := [entry] + more;
      assert entries[0] == entry && entries[1..] == more;
      Assoc(PairTokens(entry), EntryTokens(more), SkipEntries(k, v, n - 1, s1).value);
    }
  }

  lemma {:induction false} ParseSkippedEntry(k: TypeId, v: TypeId, s: seq<Token>) returns (entry: (WireValue, WireValue))
    requires SkipEntry(k, v, s).Ok?
    decreases |s|, 0, 1
    ensures Tag(entry.0) == k && WellFormed(entry.0) && Tag(entry.1) == v && WellFormed(entry.1)
    ensures PairTokens(entry) + SkipEntry(k, v, s).value == s
  {
    var key := ParseSkipped(k, s);
    var s1 := Skip(k, s).value;
    var value := ParseSkipped(v, s1);
    entry := (key, value);
    Assoc(Tokens(key), Tokens(value), Skip(v, s1).value);
  }

  lemma {:induction false} ParseSkippedFields(s: seq<Token>) returns (fields: seq<WireField>, stopId: int)
    requires SkipFields(s).Ok?
    decreases |s|, 1, 0
    ensures forall i :: 0 <= i < |fields| ==> Tag(fields[i].value) != Empty && WellFormed(fields[i].value)
    ensures FieldTokens(fields) + ([FieldHeader(stopId, Empty)] + SkipFields(s).value) == s
  {
    SkipFieldsUnfold(s);
    if s[0].tag == Empty {
      fields, stopId := [], s[0].id;
      HeadTail(s);
      EmptyLeft(s);
    } else {
      var w := ParseSkipped(s[0].tag, s[1..]);
      var s2 := Skip(s[0].tag, s[1..]).value;
      var f := WireField(s[0].id, w);
      var more;
      more, stopId := ParseSkippedFields(s2[1..]);
      fields := [f] + more;
      assert fields[0] == f && fields[1..] == more;
      OneFieldRead(s, f, s2);
      Assoc(OneFieldTokens(f), FieldTokens(more), [FieldHeader(stopId, Empty)] + SkipFields(s).value);
    }
  }

  /** What a successful skip of the field loop read first. */
  lemma SkipFieldsUnfold(s: seq<Token>)
    requires SkipFields(s).Ok?
    ensures s != [] && s[0].FieldHeader?
    ensures s[0].tag == Empty ==> SkipFields(s).value == s[1..]
    ensures s[0].tag != Empty ==>
      Skip(s[0].tag, s[1..]).Ok? && Skip(s[0].tag, s[1..]).value != [] &&
      Skip(s[0].tag, s[1..]).value[0] == FieldEnd &&
      SkipFields(Skip(s[0].tag, s[1..]).value[1..]) == SkipFields(s)
  {
  }

  /** The tokens of one non-stop field the skipper went over. */
  lemma OneFieldRead(s: seq<Token>, f: WireField, s2: seq<Token>)
    requires s != [] && s[0] == FieldHeader(f.id, Tag(f.value))
    requires Tokens(f.value) + s2 == s[1..]
    requires s2 != [] && s2[0] == FieldEnd
    ensures OneFieldTokens(f) + s2[1..] == s
  {
    Regroup(s[0], Tokens(f.value), [FieldEnd], s2[1..]);
    HeadTail(s2);
    HeadTail(s);
  }
}
