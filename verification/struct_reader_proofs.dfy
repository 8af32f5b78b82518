/** Properties of the struct reader that relate several of its operations:
    decoding and skipping consume the same tokens, decoded values have the
    shape of their type, unknown fields are skipped whole and known ones are
    decoded and converted, a struct without declared fields skips every
    field, and the pass over unseen fields reports the first missing required
    field, applies defaults and leaves undeclared properties alone. */
module StructReaderProofs {
  import opened Wire
  import opened ThriftErrors
  import opened Protocol
  import opened Descriptors
  import opened StructReader
  import opened WireValues

  // ---------------------------------------------------------------------
  // Decoding a type consumes exactly what skipping its tag consumes
  // ---------------------------------------------------------------------

  /** Whenever decoding `t` succeeds, skipping the tag of `t` on the same
      stream succeeds and leaves the same rest. */
  lemma {:induction false} ForTypeAgreesWithSkip(t: ThriftType, s: seq<Token>)
    decreases |s|, 2, 0
    ensures ForType(t, s).Ok? ==> Skip(t.Id(), s) == Ok(ForType(t, s).value.1)
  {
    if IsSequenceType(t) {
      ForSequenceAgreesWithSkip(t, s);
    } else if t.MapType? {
      if ForMap(t, s).Ok? {
        var h := ReadEnvelope(ReadMapHeader, s).value;
        ForEntriesAgreesWithSkip(t.key, t.value, h.0.count, h.1);
      }
    } else if t.StructType? {
      ForFieldsAgreesWithSkip(t.desc.fields, t.desc.blank, s);
    }
  }

  lemma {:induction false} ForSequenceAgreesWithSkip(t: ThriftType, s: seq<Token>)
    requires IsSequenceType(t)
    decreases |s|, 1, 0
    ensures ForSequence(t, s).Ok? ==> Skip(t.Id(), s) == Ok(ForSequence(t, s).value.1)
  {
    if ForSequence(t, s).Ok? {
      var h := ReadEnvelope(HeaderRead(t), s).value;
      ForElemsAgreesWithSkip(t.elem, h.0.count, h.1);
    }
  }

  lemma {:induction false} ForElemsAgreesWithSkip(elem: ThriftType, n: nat, s: seq<Token>)
    decreases |s|, 3, n
    ensures ForElems(elem, n, s).Ok? ==> SkipElems(elem.Id(), n, s) == Ok(ForElems(elem, n, s).value.1)
  {
    if n > 0 && ForElems(elem, n, s).Ok? {
      var x := ForType(elem, s).value;
      ForTypeAgreesWithSkip(elem, s);
      ForElemsAgreesWithSkip(elem, n - 1, x.1);
    }
  }

  lemma {:induction false} ForEntriesAgreesWithSkip(key: ThriftType, value: ThriftType, n: nat, s: seq<Token>)
    decreases |s|, 3, n
    ensures ForEntries(key, value, n, s).Ok? ==>
      SkipEntries(key.Id(), value.Id(), n, s) == Ok(ForEntries(key, value, n, s).value.1)
  {
    if n > 0 && ForEntries(key, value, n, s).Ok? {
      ForEntriesStep(key, value, n, s);
      var x := ForEntry(key, value, s).value;
      ForEntryAgreesWithSkip(key, value, s);
      ForEntriesAgreesWithSkip(key, value, n - 1, x.1);
      SkipEntriesStep(key.Id(), value.Id(), n, s);
    }
  }

  /** One unrolling of a successful decode of `n` entries. */
  lemma ForEntriesStep(key: ThriftType, value: ThriftType, n: nat, s: seq<Token>)
    requires n > 0 && ForEntries(key, value, n, s).Ok?
    ensures ForEntry(key, value, s).Ok?
    ensures ForEntries(key, value, n - 1, ForEntry(key, value, s).value.1).Ok?
    ensures ForEntries(key, value, n, s).value.1 == ForEntries(key, value, n - 1, ForEntry(key, value, s).value.1).value.1
    ensures ForEntries(key, value, n, s).value.0 ==
      [ForEntry(key, value, s).value.0] + ForEntries(key, value, n - 1, ForEntry(key, value, s).value.1).value.0
  {
  }

  /** One unrolling of skipping `n` entries after a successful first one. */
  lemma SkipEntriesStep(key: TypeId, value: TypeId, n: nat, s: seq<Token>)
    requires n > 0 && SkipEntry(key, value, s).Ok?
    ensures SkipEntries(key, value, n, s) == SkipEntries(key, value, n - 1, SkipEntry(key, value, s).value)
  {
  }

  lemma {:induction false} ForEntryAgreesWithSkip(key: ThriftType, value: ThriftType, s: seq<Token>)
    decreases |s|, 2, 1
    ensures ForEntry(key, value, s).Ok? ==>
      SkipEntry(key.Id(), value.Id(), s) == Ok(ForEntry(key, value, s).value.1)
  {
    if ForEntry(key, value, s).Ok? {
      ForTypeAgreesWithSkip(key, s);
      var k := ForType(key, s).value;
      ForTypeAgreesWithSkip(value, k.1);
    }
  }

  lemma {:induction false} ForFieldsAgreesWithSkip(fields: seq<FieldDesc>, blank: map<int, Value>, s: seq<Token>)
    decreases |s|, 1, 0
    ensures ForFields(fields, blank, s).Ok? ==> Skip(Struct, s) == Ok(ForFields(fields, blank, s).value.1)
  {
    if ForFields(fields, blank, s).Ok? {
      var h := ReadEnvelope(ReadStructHeader, s).value;
      FieldLoopAgreesWithSkip(fields, blank, {}, h.1);
    }
  }

  /** A successful struct read consumed exactly the tokens of one
      well-formed struct on the wire: struct header, fields, field stop and
      struct end, and nothing after the struct end. */
  lemma ForFieldsReadsWholeStruct(fields: seq<FieldDesc>, blank: map<int, Value>, s: seq<Token>)
    requires ForFields(fields, blank, s).Ok?
    ensures exists w :: WellFormed(w) && w.StructWire? && Tokens(w) + ForFields(fields, blank, s).value.1 == s
  {
    ForFieldsAgreesWithSkip(fields, blank, s);
    SkipReadsWireValue(Struct, s);
  }

  lemma {:induction false} FieldLoopAgreesWithSkip(fields: seq<FieldDesc>, inst: map<int, Value>, seen: set<int>, s: seq<Token>)
    decreases |s|, 0, 0
    ensures FieldLoop(fields, inst, seen, s).Ok? ==> SkipFields(s) == Ok(FieldLoop(fields, inst, seen, s).value.2)
  {
    if FieldLoop(fields, inst, seen, s).Ok? {
      var h := ReadEnvelope(ReadFieldHeader, s).value;
      if h.0.tag != Empty {
        match FindField(fields, h.0.id)
        case None =>
          var s2 := Skip(h.0.tag, h.1).value;
          var end := ReadEnvelope(ReadFieldEnd, s2).value;
          FieldLoopAgreesWithSkip(fields, inst, seen, end.1);
        case Some(i) =>
          var f := fields[i];
          ForTypeAgreesWithSkip(f.ty, h.1);
          var v := ForType(f.ty, h.1).value;
          var stored := Converted(f, v.0).value;
          var end := ReadEnvelope(ReadFieldEnd, v.1).value;
          FieldLoopAgreesWithSkip(fields, inst[f.id := stored], seen + {f.id}, end.1);
      }
    }
  }

  // ---------------------------------------------------------------------
  // Decoded values have the shape of their type
  // ---------------------------------------------------------------------

  /** A successful decode of `t` produces a value of the shape of `t`:
      collections hold values of their element types, structs are
      instances. */
  lemma {:induction false} ForTypeConforms(t: ThriftType, s: seq<Token>)
    decreases |s|, 2, 0
    ensures ForType(t, s).Ok? ==> Conforms(ForType(t, s).value.0, t)
  {
    if ForType(t, s).Ok? {
      if IsSequenceType(t) {
        ForSequenceUnfold(t, s);
        ForElemsConforms(t.elem, s[0].count, s[1..]);
      } else if t.MapType? {
        ForMapUnfold(t, s);
        ForEntriesConforms(t.key, t.value, s[0].count, s[1..]);
      }
    }
  }

  /** What a successful decode of an array, list or set read. */
  lemma ForSequenceUnfold(t: ThriftType, s: seq<Token>)
    requires IsSequenceType(t) && ForType(t, s).Ok?
    ensures s != [] && HeaderRead(t).Accepts(s[0])
    ensures ForElems(t.elem, s[0].count, s[1..]).Ok?
    ensures ForType(t, s).value.0 == Items(ForElems(t.elem, s[0].count, s[1..]).value.0)
  {
    assert ForType(t, s) == ForSequence(t, s);
  }

  /** What a successful decode of a map read. */
  lemma ForMapUnfold(t: ThriftType, s: seq<Token>)
    requires t.MapType? && ForType(t, s).Ok?
    ensures s != [] && s[0].MapHeader?
    ensures ForEntries(t.key, t.value, s[0].count, s[1..]).Ok?
    ensures ForType(t, s).value.0 == Entries(ForEntries(t.key, t.value, s[0].count, s[1..]).value.0)
  {
    assert ForType(t, s) == ForMap(t, s);
  }

  lemma {:induction false} ForElemsConforms(elem: ThriftType, n: nat, s: seq<Token>)
    decreases |s|, 3, n
    ensures ForElems(elem, n, s).Ok? ==>
      forall i :: 0 <= i < n ==> Conforms(ForElems(elem, n, s).value.0[i], elem)
  {
    if n > 0 && ForElems(elem, n, s).Ok? {
      var x := ForType(elem, s).value;
      ForTypeConforms(elem, s);
      ForElemsConforms(elem, n - 1, x.1);
    }
  }

  lemma {:induction false} ForEntriesConforms(key: ThriftType, value: ThriftType, n: nat, s: seq<Token>)
    decreases |s|, 3, n
    ensures ForEntries(key, value, n, s).Ok? ==>
      forall i :: 0 <= i < n ==>
        Conforms(ForEntries(key, value, n, s).value.0[i].0, key) &&
        Conforms(ForEntries(key, value, n, s).value.0[i].1, value)
  {
    if n > 0 && ForEntries(key, value, n, s).Ok? {
      ForEntriesStep(key, value, n, s);
      var x := ForEntry(key, value, s).value;
      ForEntryConforms(key, value, s);
      ForEntriesConforms(key, value, n - 1, x.1);
    }
  }

  lemma {:induction false} ForEntryConforms(key: ThriftType, value: ThriftType, s: seq<Token>)
    decreases |s|, 2, 1
    ensures ForEntry(key, value, s).Ok? ==>
      Conforms(ForEntry(key, value, s).value.0.0, key) && Conforms(ForEntry(key, value, s).value.0.1, value)
  {
    if ForEntry(key, value, s).Ok? {
      ForTypeConforms(key, s);
      ForTypeConforms(value, ForType(key, s).value.1);
    }
  }

  // ---------------------------------------------------------------------
  // A struct without declared fields skips every field
  // ---------------------------------------------------------------------

  /** With no declared fields the field loop reads exactly what the skipping
      field loop reads, fails exactly when it fails, and assigns nothing. */
  lemma {:induction false} FieldLoopWithoutFieldsSkips(inst: map<int, Value>, seen: set<int>, s: seq<Token>)
    decreases |s|
    ensures FieldLoop([], inst, seen, s) ==
      match SkipFields(s)
      case Ok(rest) => Ok((inst, seen, rest))
      case Err(e) => Err(e)
  {
    var h := ReadEnvelope(ReadFieldHeader, s);
    if h.Ok? && h.value.0.tag != Empty {
      var s2 := Skip(h.value.0.tag, h.value.1);
      if s2.Ok? {
        var end := ReadEnvelope(ReadFieldEnd, s2.value);
        if end.Ok? {
          FieldLoopWithoutFieldsSkips(inst, seen, end.value.1);
        }
      }
    }
  }

  // ---------------------------------------------------------------------
  // What a successful decode consumed, and forward compatibility
  // ---------------------------------------------------------------------

  /** A successful decode of `t` consumed exactly the tokens of one
      well-formed wire value tagged like `t`. */
  lemma ForTypeReadsWireValue(t: ThriftType, s: seq<Token>)
    requires ForType(t, s).Ok?
    ensures exists w :: WellFormed(w) && Tag(w) == t.Id() && Tokens(w) + ForType(t, s).value.1 == s
  {
    ForTypeAgreesWithSkip(t, s);
    SkipReadsWireValue(t.Id(), s);
  }

  /** A field whose id the struct does not declare is skipped whole and
      changes nothing: neither the instance nor the set of fields seen. */
  lemma UnknownFieldIgnored(fields: seq<FieldDesc>, inst: map<int, Value>, seen: set<int>, f: WireField, s: seq<Token>)
    requires FindField(fields, f.id).None?
    requires Tag(f.value) != Empty && WellFormed(f.value)
    ensures FieldLoop(fields, inst, seen, OneFieldTokens(f) + s) == FieldLoop(fields, inst, seen, s)
  {
    var h := FieldHeader(f.id, Tag(f.value));
    var after := [FieldEnd] + s;
    SkipConsumesWireValue(f.value, after);
    Regroup(h, Tokens(f.value), [FieldEnd], s);
    Push(h, Tokens(f.value) + after);
    Push(FieldEnd, s);
    UnknownFieldStep(fields, inst, seen, OneFieldTokens(f) + s, after);
  }

  /** One unrolling of the field loop on an undeclared field id. */
  lemma UnknownFieldStep(fields: seq<FieldDesc>, inst: map<int, Value>, seen: set<int>, s: seq<Token>, after: seq<Token>)
    requires s != [] && s[0].FieldHeader? && s[0].tag != Empty && FindField(fields, s[0].id).None?
    requires Skip(s[0].tag, s[1..]) == Ok(after)
    requires after != [] && after[0] == FieldEnd
    ensures FieldLoop(fields, inst, seen, s) == FieldLoop(fields, inst, seen, after[1..])
  {
  }

  /** A whole field with a declared id whose wire value carries the declared
      tag: if the value decodes and its converter accepts it, the converted
      value is stored under the id, the id is recorded as seen, and the loop
      goes on right after the field end; otherwise the loop stops with the
      decoder's error, or with the converter's, before the field end is
      read. */
  lemma KnownFieldDecoded(fields: seq<FieldDesc>, inst: map<int, Value>, seen: set<int>, f: WireField, s: seq<Token>)
    requires FindField(fields, f.id).Some?
    requires WellFormed(f.value) && Tag(f.value) == fields[FindField(fields, f.id).value].ty.Id()
    ensures var fd := fields[FindField(fields, f.id).value];
      var d := ForType(fd.ty, Tokens(f.value) + ([FieldEnd] + s));
      FieldLoop(fields, inst, seen, OneFieldTokens(f) + s) ==
        if d.Err? then Err(d.error)
        else if Converted(fd, d.value.0).Err? then Err(Converted(fd, d.value.0).error)
        else FieldLoop(fields, inst[f.id := Converted(fd, d.value.0).value], seen + {f.id}, s)
  {
    var fd := fields[FindField(fields, f.id).value];
    var h := FieldHeader(f.id, Tag(f.value));
    var after := [FieldEnd] + s;
    Regroup(h, Tokens(f.value), [FieldEnd], s);
    Push(h, Tokens(f.value) + after);
    var d := ForType(fd.ty, Tokens(f.value) + after);
    if d.Err? {
      KnownFieldFails(fields, inst, seen, [h] + (Tokens(f.value) + after));
    } else if Converted(fd, d.value.0).Err? {
      KnownFieldRejected(fields, inst, seen, [h] + (Tokens(f.value) + after));
    } else {
      KnownFieldStep(fields, inst, seen, [h] + (Tokens(f.value) + after));
      ForTypeAgreesWithSkip(fd.ty, Tokens(f.value) + after);
      SkipConsumesWireValue(f.value, after);
      Push(FieldEnd, s);
    }
  }

  /** One unrolling of the field loop on a declared id whose header carries
      the declared tag, whose value decodes and whose converter accepts it. */
  lemma KnownFieldStep(fields: seq<FieldDesc>, inst: map<int, Value>, seen: set<int>, s: seq<Token>)
    requires s != [] && s[0].FieldHeader? && s[0].tag != Empty
    requires FindField(fields, s[0].id).Some?
    requires fields[FindField(fields, s[0].id).value].ty.Id() == s[0].tag
    requires ForType(fields[FindField(fields, s[0].id).value].ty, s[1..]).Ok?
    requires Converted(fields[FindField(fields, s[0].id).value], ForType(fields[FindField(fields, s[0].id).value].ty, s[1..]).value.0).Ok?
    ensures var f := fields[FindField(fields, s[0].id).value];
      var v := ForType(f.ty, s[1..]).value;
      FieldLoop(fields, inst, seen, s) ==
        if v.1 != [] && v.1[0] == FieldEnd
        then FieldLoop(fields, inst[s[0].id := Converted(f, v.0).value], seen + {s[0].id}, v.1[1..])
        else Err(Io(if v.1 == [] then EndOfInput else UnexpectedToken(v.1[0])))
  {
  }

  /** One unrolling of the field loop on a declared id whose header carries
      the declared tag and whose value does not decode. */
  lemma KnownFieldFails(fields: seq<FieldDesc>, inst: map<int, Value>, seen: set<int>, s: seq<Token>)
    requires s != [] && s[0].FieldHeader? && s[0].tag != Empty
    requires FindField(fields, s[0].id).Some?
    requires fields[FindField(fields, s[0].id).value].ty.Id() == s[0].tag
    requires ForType(fields[FindField(fields, s[0].id).value].ty, s[1..]).Err?
    ensures FieldLoop(fields, inst, seen, s) == Err(ForType(fields[FindField(fields, s[0].id).value].ty, s[1..]).error)
  {
  }

  /** One unrolling of the field loop on a declared id whose value decodes
      but whose converter throws. */
  lemma KnownFieldRejected(fields: seq<FieldDesc>, inst: map<int, Value>, seen: set<int>, s: seq<Token>)
    requires s != [] && s[0].FieldHeader? && s[0].tag != Empty
    requires FindField(fields, s[0].id).Some?
    requires fields[FindField(fields, s[0].id).value].ty.Id() == s[0].tag
    requires ForType(fields[FindField(fields, s[0].id).value].ty, s[1..]).Ok?
    requires Converted(fields[FindField(fields, s[0].id).value], ForType(fields[FindField(fields, s[0].id).value].ty, s[1..]).value.0).Err?
    ensures FieldLoop(fields, inst, seen, s) ==
      Err(Converted(fields[FindField(fields, s[0].id).value], ForType(fields[FindField(fields, s[0].id).value].ty, s[1..]).value.0).error)
  {
  }

  // ---------------------------------------------------------------------
  // The pass over unseen fields
  // ---------------------------------------------------------------------

  predicate MissingRequired(f: FieldDesc, seen: set<int>) {
    f.required && f.id !in seen
  }

  predicate DefaultApplies(f: FieldDesc, seen: set<int>) {
    !f.required && f.defaultValue.Some? && f.id !in seen
  }

  /** The pass fails exactly when some required field was not seen, and then
      it names the first such field in declared order. */
  lemma {:induction false} ApplyAbsentReportsFirstMissing(fields: seq<FieldDesc>, inst: map<int, Value>, seen: set<int>)
    ensures ApplyAbsent(fields, inst, seen).Err? <==> exists i :: 0 <= i < |fields| && MissingRequired(fields[i], seen)
    ensures ApplyAbsent(fields, inst, seen).Err? ==>
      exists i :: 0 <= i < |fields| && MissingRequired(fields[i], seen) &&
        (forall j :: 0 <= j < i ==> !MissingRequired(fields[j], seen)) &&
        ApplyAbsent(fields, inst, seen).error == MissingRequiredField(fields[i].name)
  {
    if fields != [] {
      var f := fields[0];
      var inst' := if DefaultApplies(f, seen) then inst[f.id := f.defaultValue.value] else inst;
      ApplyAbsentReportsFirstMissing(fields[1..], inst', seen);
      assert forall i :: 1 <= i < |fields| ==> fields[i] == fields[1..][i - 1];
      if !MissingRequired(f, seen) && ApplyAbsent(fields, inst, seen).Err? {
        var i :| 0 <= i < |fields[1..]| && MissingRequired(fields[1..][i], seen) &&
          (forall j :: 0 <= j < i ==> !MissingRequired(fields[1..][j], seen)) &&
          ApplyAbsent(fields[1..], inst', seen).error == MissingRequiredField(fields[1..][i].name);
        assert MissingRequired(fields[i + 1], seen);
      }
    }
  }

  /** After a successful pass, the instance holds exactly its earlier
      properties plus the defaults of the unseen optional fields that have
      one; the defaults are stored as declared, and every other property
      keeps its value. */
  lemma {:induction false} ApplyAbsentAssignsDefaults(fields: seq<FieldDesc>, inst: map<int, Value>, seen: set<int>)
    requires UniqueIds(fields)
    requires ApplyAbsent(fields, inst, seen).Ok?
    ensures forall k :: k in ApplyAbsent(fields, inst, seen).value <==>
      k in inst || (FindField(fields, k).Some? && DefaultApplies(fields[FindField(fields, k).value], seen))
    ensures forall k :: k in ApplyAbsent(fields, inst, seen).value ==>
      ApplyAbsent(fields, inst, seen).value[k] ==
        if FindField(fields, k).Some? && DefaultApplies(fields[FindField(fields, k).value], seen)
        then fields[FindField(fields, k).value].defaultValue.value
        else inst[k]
  {
    if fields != [] {
      var f := fields[0];
      var inst' := if DefaultApplies(f, seen) then inst[f.id := f.defaultValue.value] else inst;
      assert UniqueIds(fields[1..]);
      ApplyAbsentAssignsDefaults(fields[1..], inst', seen);
      assert FindField(fields[1..], f.id).None?;
    }
  }

  /** The pass never touches a property that no field declares. */
  lemma {:induction false} ApplyAbsentKeepsUndeclared(fields: seq<FieldDesc>, inst: map<int, Value>, seen: set<int>, k: int)
    requires FindField(fields, k).None?
    requires ApplyAbsent(fields, inst, seen).Ok?
    ensures k in ApplyAbsent(fields, inst, seen).value <==> k in inst
    ensures k in inst ==> ApplyAbsent(fields, inst, seen).value[k] == inst[k]
  {
    if fields != [] {
      var f := fields[0];
      var inst' := if DefaultApplies(f, seen) then inst[f.id := f.defaultValue.value] else inst;
      assert FindField(fields[1..], k).None?;
      ApplyAbsentKeepsUndeclared(fields[1..], inst', seen, k);
    }
  }

  /** A struct read leaves every property that no field declares as the
      freshly constructed instance had it. */
  lemma ForFieldsKeepsUndeclared(fields: seq<FieldDesc>, blank: map<int, Value>, s: seq<Token>, k: int)
    requires FindField(fields, k).None?
    requires ForFields(fields, blank, s).Ok?
    ensures k in ForFields(fields, blank, s).value.0 <==> k in blank
    ensures k in blank ==> ForFields(fields, blank, s).value.0[k] == blank[k]
  {
    var h := ReadEnvelope(ReadStructHeader, s).value;
    var loop := FieldLoop(fields, blank, {}, h.1).value;
    ApplyAbsentKeepsUndeclared(fields, loop.0, loop.1, k);
  }
}
