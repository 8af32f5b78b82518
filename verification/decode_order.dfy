/** Collections are decoded in wire order: element `i` of a decoded array,
    list or set, and entry `i` of a decoded map, is what one decode reads
    right after the first `i` of them. */
module DecodeOrder {
  import opened Wire
  import opened ThriftErrors
  import opened Descriptors
  import opened StructReader
  import opened StructReaderProofs

  /** Element `i` of a decoded sequence is the value one decode of the
      element type reads right after the first `i` elements. */
  lemma {:induction false} ForElemsInWireOrder(elem: ThriftType, n: nat, s: seq<Token>)
    requires ForElems(elem, n, s).Ok?
    ensures forall i :: 0 <= i < n ==>
      && ForElems(elem, i, s).Ok?
      && ForType(elem, ForElems(elem, i, s).value.1).Ok?
      && ForElems(elem, n, s).value.0[i] == ForType(elem, ForElems(elem, i, s).value.1).value.0
  {
    forall i | 0 <= i < n
      ensures ForElems(elem, i, s).Ok?
      ensures ForType(elem, ForElems(elem, i, s).value.1).Ok?
      ensures ForElems(elem, n, s).value.0[i] == ForType(elem, ForElems(elem, i, s).value.1).value.0
    {
      ForElemAt(elem, n, s, i);
    }
  }

  lemma {:induction false} ForElemAt(elem: ThriftType, n: nat, s: seq<Token>, i: nat)
    requires ForElems(elem, n, s).Ok? && i < n
    decreases i, 1
    ensures ForElems(elem, i, s).Ok?
    ensures ForType(elem, ForElems(elem, i, s).value.1).Ok?
    ensures ForElems(elem, n, s).value.0[i] == ForType(elem, ForElems(elem, i, s).value.1).value.0
  {
    if i == 0 {
      ForElemsStep(elem, n, s);
      ForElemAtHead(elem, n, s);
    } else {
      ForElemAtSucc(elem, n, s, i);
    }
  }

  lemma {:induction false} ForElemAtSucc(elem: ThriftType, n: nat, s: seq<Token>, i: nat)
    requires ForElems(elem, n, s).Ok? && 0 < i < n
    decreases i, 0
    ensures ForElems(elem, i, s).Ok?
    ensures ForType(elem, ForElems(elem, i, s).value.1).Ok?
    ensures ForElems(elem, n, s).value.0[i] == ForType(elem, ForElems(elem, i, s).value.1).value.0
  {
    ForElemsStep(elem, n, s);
    ForElemAt(elem, n - 1, ForType(elem, s).value.1, i - 1);
    ForElemAtNext(elem, n, s, i);
  }

  /** The first element is the first value read. */
  lemma ForElemAtHead(elem: ThriftType, n: nat, s: seq<Token>)
    requires n > 0 && ForType(elem, s).Ok?
    requires ForElems(elem, n, s).Ok?
    requires ForElems(elem, n, s).value.0 ==
      [ForType(elem, s).value.0] + ForElems(elem, n - 1, ForType(elem, s).value.1).value.0
    ensures ForElems(elem, 0, s) == Ok(([], s))
    ensures ForElems(elem, n, s).value.0[0] == ForType(elem, s).value.0
  {
  }

  /** Element `i` of `n` is element `i - 1` of the `n - 1` after the first. */
  lemma ForElemAtNext(elem: ThriftType, n: nat, s: seq<Token>, i: nat)
    requires 0 < i < n && ForType(elem, s).Ok?
    requires ForElems(elem, n, s).Ok?
    requires ForElems(elem, n - 1, ForType(elem, s).value.1).Ok?
    requires ForElems(elem, n, s).value.0 ==
      [ForType(elem, s).value.0] + ForElems(elem, n - 1, ForType(elem, s).value.1).value.0
    requires ForElems(elem, i - 1, ForType(elem, s).value.1).Ok?
    ensures ForElems(elem, i, s) ==
      Ok(([ForType(elem, s).value.0] + ForElems(elem, i - 1, ForType(elem, s).value.1).value.0,
          ForElems(elem, i - 1, ForType(elem, s).value.1).value.1))
    ensures ForElems(elem, n, s).value.0[i] == ForElems(elem, n - 1, ForType(elem, s).value.1).value.0[i - 1]
  {
    ForElemsCons(elem, i, s);
  }

  /** One unrolling of a successful decode of `n` elements. */
  lemma ForElemsStep(elem: ThriftType, n: nat, s: seq<Token>)
    requires n > 0 && ForElems(elem, n, s).Ok?
    ensures ForType(elem, s).Ok?
    ensures ForElems(elem, n - 1, ForType(elem, s).value.1).Ok?
    ensures ForElems(elem, n, s).value.1 == ForElems(elem, n - 1, ForType(elem, s).value.1).value.1
    ensures ForElems(elem, n, s).value.0 ==
      [ForType(elem, s).value.0] + ForElems(elem, n - 1, ForType(elem, s).value.1).value.0
  {
  }

  /** A decode of `n` elements whose first element and remaining `n - 1`
      elements decode. */
  lemma ForElemsCons(elem: ThriftType, n: nat, s: seq<Token>)
    requires n > 0 && ForType(elem, s).Ok? && ForElems(elem, n - 1, ForType(elem, s).value.1).Ok?
    ensures ForElems(elem, n, s) ==
      Ok(([ForType(elem, s).value.0] + ForElems(elem, n - 1, ForType(elem, s).value.1).value.0,
          ForElems(elem, n - 1, ForType(elem, s).value.1).value.1))
  {
  }

  /** Entry `i` of a decoded map is the key/value pair one entry decode
      reads right after the first `i` entries. */
  lemma {:induction false} ForEntriesInWireOrder(key: ThriftType, value: ThriftType, n: nat, s: seq<Token>)
    requires ForEntries(key, value, n, s).Ok?
    ensures forall i :: 0 <= i < n ==>
      && ForEntries(key, value, i, s).Ok?
      && ForEntry(key, value, ForEntries(key, value, i, s).value.1).Ok?
      && ForEntries(key, value, n, s).value.0[i] == ForEntry(key, value, ForEntries(key, value, i, s).value.1).value.0
  {
    forall i | 0 <= i < n
      ensures ForEntries(key, value, i, s).Ok?
      ensures ForEntry(key, value, ForEntries(key, value, i, s).value.1).Ok?
      ensures ForEntries(key, value, n, s).value.0[i] == ForEntry(key, value, ForEntries(key, value, i, s).value.1).value.0
    {
      ForEntryAt(key, value, n, s, i);
    }
  }

  lemma {:induction false} ForEntryAt(key: ThriftType, value: ThriftType, n: nat, s: seq<Token>, i: nat)
    requires ForEntries(key, value, n, s).Ok? && i < n
    decreases i, 1
    ensures ForEntries(key, value, i, s).Ok?
    ensures ForEntry(key, value, ForEntries(key, value, i, s).value.1).Ok?
    ensures ForEntries(key, value, n, s).value.0[i] == ForEntry(key, value, ForEntries(key, value, i, s).value.1).value.0
  {
    if i == 0 {
      ForEntriesStep(key, value, n, s);
      ForEntryAtHead(key, value, n, s);
    } else {
      ForEntryAtSucc(key, value, n, s, i);
    }
  }

  lemma {:induction false} ForEntryAtSucc(key: ThriftType, value: ThriftType, n: nat, s: seq<Token>, i: nat)
    requires ForEntries(key, value, n, s).Ok? && 0 < i < n
    decreases i, 0
    ensures ForEntries(key, value, i, s).Ok?
    ensures ForEntry(key, value, ForEntries(key, value, i, s).value.1).Ok?
    ensures ForEntries(key, value, n, s).value.0[i] == ForEntry(key, value, ForEntries(key, value, i, s).value.1).value.0
  {
    ForEntriesStep(key, value, n, s);
    ForEntryAt(key, value, n - 1, ForEntry(key, value, s).value.1, i - 1);
    ForEntryAtNext(key, value, n, s, i);
  }

  /** The first entry is the first pair read. */
  lemma ForEntryAtHead(key: ThriftType, value: ThriftType, n: nat, s: seq<Token>)
    requires n > 0 && ForEntry(key, value, s).Ok?
    requires ForEntries(key, value, n, s).Ok?
    requires ForEntries(key, value, n, s).value.0 ==
      [ForEntry(key, value, s).value.0] + ForEntries(key, value, n - 1, ForEntry(key, value, s).value.1).value.0
    ensures ForEntries(key, value, 0, s) == Ok(([], s))
    ensures ForEntries(key, value, n, s).value.0[0] == ForEntry(key, value, s).value.0
  {
  }

  /** Entry `i` of `n` is entry `i - 1` of the `n - 1` after the first. */
  lemma ForEntryAtNext(key: ThriftType, value: ThriftType, n: nat, s: seq<Token>, i: nat)
    requires 0 < i < n && ForEntry(key, value, s).Ok?
    requires ForEntries(key, value, n, s).Ok?
    requires ForEntries(key, value, n - 1, ForEntry(key, value, s).value.1).Ok?
    requires ForEntries(key, value, n, s).value.0 ==
      [ForEntry(key, value, s).value.0] + ForEntries(key, value, n - 1, ForEntry(key, value, s).value.1).value.0
    requires ForEntries(key, value, i - 1, ForEntry(key, value, s).value.1).Ok?
    ensures ForEntries(key, value, i, s) ==
      Ok(([ForEntry(key, value, s).value.0] + ForEntries(key, value, i - 1, ForEntry(key, value, s).value.1).value.0,
          ForEntries(key, value, i - 1, ForEntry(key, value, s).value.1).value.1))
    ensures ForEntries(key, value, n, s).value.0[i] ==
      ForEntries(key, value, n - 1, ForEntry(key, value, s).value.1).value.0[i - 1]
  {
    ForEntriesCons(key, value, i, s);
  }

  /** A decode of `n` entries whose first entry and remaining `n - 1`
      entries decode. */
  lemma ForEntriesCons(key: ThriftType, value: ThriftType, n: nat, s: seq<Token>)
    requires n > 0 && ForEntry(key, value, s).Ok?
    requires ForEntries(key, value, n - 1, ForEntry(key, value, s).value.1).Ok?
    ensures ForEntries(key, value, n, s) ==
      Ok(([ForEntry(key, value, s).value.0] + ForEntries(key, value, n - 1, ForEntry(key, value, s).value.1).value.0,
          ForEntries(key, value, n - 1, ForEntry(key, value, s).value.1).value.1))
  {
  }
}
