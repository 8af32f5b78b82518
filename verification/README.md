# ThriftSharp struct reading and call framing, in Dafny

This project models two pieces of ThriftSharp, a .NET Thrift client.

1. **The struct reader** (`ThriftStructReader`). It reads tagged values from a
   protocol into typed values. It:
   - decodes each value type (primitives, strings, enums, nullables, arrays,
     lists, sets, maps, structs);
   - checks each wire type tag against the declared type;
   - skips values it does not know, including whole unknown fields;
   - after the struct end, reports the first missing required field and
     assigns defaults to the optional fields that were not seen.
2. **The client message writer** (`ThriftClientMessageWriter`). It turns a
   method descriptor and an argument array into a fixed sequence of protocol
   writes.

The source compiles an expression tree per struct and per method, and keeps
it in a process-wide cache. The model is the interpreter that performs the
same protocol calls in the same order:

- The protocol is a finite sequence of `Token`s, one per protocol call.
- Every read takes one token off the front.
- An empty stream, or a token of the wrong kind, is an I/O failure, which
  propagates unchanged.
- Every decoding function returns `Result<(value, rest)>`.
- The caches are ghost functions over maps. They are proved to return exactly
  what a freshly built reader or writer returns.

Modules:

- `Wire`: type ids, scalars, tokens, and the field-stop marker.
- `ThriftErrors`: the serialization errors of `ThriftExceptions.cs`, I/O
  failures, exceptions thrown by user code, and `Result`.
- `Protocol`: the envelope reads and scalar reads.
- `Descriptors`: Thrift types, field, struct and method descriptors,
  decoded values, and field lookup.
- `StructReader`: skipping, decoding, the field loop, the pass over absent
  fields, and the reader cache.
- `WireValues`: an independent, schema-free description of one value on the
  wire. It is the reference for what skipping consumes.
- `StructReaderProofs`: properties relating the reader's operations.
- `DecodeOrder`: collections are decoded in wire order.
- `DecodeRoundTrip`: a reference encoder for struct-free types. The decoder
  reads every value of such a type back from its canonical wire form.
- `ClientMessageWriter`: the writer program for a method, its interpreter,
  the writer cache, and the framing properties.

An unseen optional field's default is assigned through the plain property
setter, without the field's converter
(`ThriftSharp/Internals/ThriftStructReader.cs:545-550`).
`StructReader.ApplyAbsent` stores the declared default unchanged.

## Model

| member | source | states |
|---|---|---|
| `StructReader.Skip` | ThriftSharp/Internals/ThriftStructReader.cs:24-98 | A tag outside the switch (`Empty` or an unnamed id) reads nothing and does not fail. A skippable tag consumes at least one token. Skipping only ever fails with an I/O failure, never a type mismatch. |
| `StructReader.SkipElems` | ThriftSharp/Internals/ThriftStructReader.cs:57-61 | Skipping `n` list or set elements reads nothing when `n` is 0, never grows the stream, and fails only on I/O. |
| `StructReader.SkipEntries` | ThriftSharp/Internals/ThriftStructReader.cs:76-80 | Skipping `n` map entries reads nothing when `n` is 0, never grows the stream, and fails only on I/O. |
| `StructReader.SkipEntry` | ThriftSharp/Internals/ThriftStructReader.cs:78-79 | One skipped entry, key and then value, never grows the stream and fails only on I/O. |
| `StructReader.SkipFields` | ThriftSharp/Internals/ThriftStructReader.cs:84-97 | The field loop of a skipped struct consumes at least the stop header. It fails only on I/O. |
| `StructReader.CheckTypeId` | ThriftSharp/Internals/ThriftStructReader.cs:105-122 | Passes exactly when the two tags are equal. Otherwise it fails with `TypeIdMismatch(expected, actual)`, in that order. |
| `StructReader.ForType` | ThriftSharp/Internals/ThriftStructReader.cs:128-333 | A successful decode consumes at least one token. A struct decode starts at a struct header and yields an instance. Every required field, and every field with a default, is present in that instance. |
| `StructReader.ForScalar` | ThriftSharp/Internals/ThriftStructReader.cs:130-148 | Succeeds exactly when the next token is a scalar of the type's wire id. Strings use the Binary read, enums the Int32 read. It consumes that one token and yields a value of the type's shape. |
| `StructReader.ForSequence` | ThriftSharp/Internals/ThriftStructReader.cs:150-262 | Arrays and lists read a list header, sets a set header. A header with the wrong element tag fails with `TypeIdMismatch(declared, read)` before any element is read. On success it yields exactly `count` items. |
| `StructReader.ForMap` | ThriftSharp/Internals/ThriftStructReader.cs:263-322 | A wrong key tag fails with the key mismatch, even when the value tag is also wrong. A right key tag with a wrong value tag fails with the value mismatch. On success it yields exactly `count` entries. |
| `StructReader.ForElems` | ThriftSharp/Internals/ThriftStructReader.cs:239-257 | Decodes exactly `n` values and never grows the stream. |
| `StructReader.ForEntries` | ThriftSharp/Internals/ThriftStructReader.cs:295-317 | Decodes exactly `n` key/value pairs and never grows the stream. |
| `StructReader.ForEntry` | ThriftSharp/Internals/ThriftStructReader.cs:306-312 | One entry, key first and then value, consumes at least one token. |
| `StructReader.ForFields` | ThriftSharp/Internals/ThriftStructReader.cs:383-559 | A successful struct read starts at a struct header and consumes at least one token. Every required or defaulted field is present afterwards. |
| `StructReaderProofs.ForFieldsReadsWholeStruct` | ThriftSharp/Internals/ThriftStructReader.cs:383-559 | A successful struct read consumed exactly one well-formed struct on the wire: struct header, fields, field stop and struct end. It reads nothing after the struct end. |
| `Descriptors.FindField` | ThriftSharp/Internals/ThriftStructReader.cs:458-465 | The switch on a field id selects the first declared field with that id, and none exactly when no field declares the id. |
| `StructReader.Converted` | ThriftSharp/Internals/ThriftStructReader.cs:394-424 | Without a converter, the decoded value is stored as is. A converter's result is stored, and its exception aborts the read unchanged. For a nullable field, the converter sees the underlying value and its result is wrapped again. |
| `StructReader.FieldLoop` | ThriftSharp/Internals/ThriftStructReader.cs:426-502 | An `Empty` header ends the loop whatever its id, and no field end is read after it. A declared id with the wrong tag fails with `TypeIdMismatch(declared, read)`. Only declared ids become seen. A property that was not seen keeps its presence and value. Properties present before stay present. |
| `StructReader.ApplyAbsent` | ThriftSharp/Internals/ThriftStructReader.cs:507-554 | Its only failure is `MissingRequiredField`. On success no required field is unseen, earlier properties stay, and every unseen field with a default is present. |
| `StructReader.ForStruct` | ThriftSharp/Internals/ThriftStructReader.cs:338-377 | The built reader, on any stream where it succeeds, starts at a struct header, consumes tokens, and yields an instance holding every required or defaulted field. |
| `StructReader.Read` | ThriftSharp/Internals/ThriftStructReader.cs:565-573 | Reading through the cache gives exactly what a freshly built reader gives. The cache stays sound and gains only this struct. A reader already cached is reused, and a missing one is added once. |
| `WireValues.SkipConsumesWireValue` | ThriftSharp/Internals/ThriftStructReader.cs:24-98 | Skipping the tag of any well-formed wire value consumes exactly its tokens, whatever follows. Collections contribute header, `count` items and end. A struct contributes fields up to the stop header and then the struct end. |
| `WireValues.SkipReadsWireValue` | ThriftSharp/Internals/ThriftStructReader.cs:24-98 | Conversely, whatever a successful skip consumed is the token sequence of one well-formed wire value of that tag. |
| `StructReaderProofs.ForTypeAgreesWithSkip` | ThriftSharp/Internals/ThriftStructReader.cs:128-333 | Whenever decoding a type succeeds, skipping its wire tag on the same stream succeeds and leaves the same rest. |
| `StructReaderProofs.FieldLoopAgreesWithSkip` | ThriftSharp/Internals/ThriftStructReader.cs:482-502 | A successful field loop stops exactly where the skipping field loop stops. |
| `DecodeOrder.ForElemsInWireOrder` | ThriftSharp/Internals/ThriftStructReader.cs:239-257 | Element `i` of a decoded array, list or set is the value that one decode of the element type reads right after the first `i` elements. So the elements are in wire order. |
| `DecodeOrder.ForEntriesInWireOrder` | ThriftSharp/Internals/ThriftStructReader.cs:295-317 | Entry `i` of a decoded map is the key/value pair that one entry decode (key, then value) reads right after the first `i` entries. |
| `DecodeRoundTrip.DecodeEncoded` | ThriftSharp/Internals/ThriftStructReader.cs:128-333 | Take any struct-free type and any value of its shape. Decoding the value's canonical wire form, followed by anything, returns exactly that value and leaves exactly what followed. |
| `DecodeRoundTrip.DecodeEncodedScalar` | ThriftSharp/Internals/ThriftStructReader.cs:130-148 | A primitive, string, enumeration or nullable value is read back from its single scalar token. An enumeration travels as its Int32 and a nullable as its underlying scalar. |
| `DecodeRoundTrip.DecodeEncodedSequence` | ThriftSharp/Internals/ThriftStructReader.cs:150-262 | An array or list is read back from a list header tagged with its element type, its elements and a list end. A set is read back the same way from set tokens. |
| `DecodeRoundTrip.DecodeEncodedMap` | ThriftSharp/Internals/ThriftStructReader.cs:263-322 | A map is read back from a map header tagged with its key and value types, its entries and a map end. |
| `DecodeRoundTrip.DecodeEncodedElems` | ThriftSharp/Internals/ThriftStructReader.cs:239-257 | Decoding as many elements as a sequence holds, from their canonical forms one after another, returns the sequence in its order. |
| `DecodeRoundTrip.DecodeEncodedPairs` | ThriftSharp/Internals/ThriftStructReader.cs:295-317 | Decoding as many entries as a sequence of pairs holds, each key followed by its value, returns the pairs in their order. |
| `StructReaderProofs.ForTypeConforms` | ThriftSharp/Internals/ThriftStructReader.cs:128-333 | A decoded value has the shape of its type, down to every element and entry. |
| `StructReaderProofs.ForTypeReadsWireValue` | ThriftSharp/Internals/ThriftStructReader.cs:128-333 | A successful decode consumed exactly the tokens of one well-formed wire value carrying the type's tag. |
| `StructReaderProofs.FieldLoopWithoutFieldsSkips` | ThriftSharp/Internals/ThriftStructReader.cs:457-469 | A struct with no declared fields skips every field. It fails exactly when skipping fails and assigns nothing. |
| `StructReaderProofs.UnknownFieldIgnored` | ThriftSharp/Internals/ThriftStructReader.cs:449-464 | A whole field with an undeclared id is skipped and changes neither the instance nor the seen set. |
| `StructReaderProofs.KnownFieldDecoded` | ThriftSharp/Internals/ThriftStructReader.cs:426-447 | Consider a whole field with a declared id whose well-formed value carries the declared tag. If the value decodes and its converter accepts it, the converted value is stored under the id, the id is marked seen, and the loop continues right after the field end. If the decode fails, the loop stops with the decoder's error. If the converter throws, it stops with the converter's exception, before the field end is read. |
| `StructReaderProofs.ApplyAbsentReportsFirstMissing` | ThriftSharp/Internals/ThriftStructReader.cs:507-532 | The pass fails exactly when some required field is unseen. It then names the first such field in declared order. |
| `StructReaderProofs.ApplyAbsentAssignsDefaults` | ThriftSharp/Internals/ThriftStructReader.cs:533-553 | Afterwards the instance holds exactly its earlier properties plus the defaults of the unseen optional fields that have one. Defaults are stored as declared, without the converter, and every other property keeps its value. |
| `StructReaderProofs.ApplyAbsentKeepsUndeclared` | ThriftSharp/Internals/ThriftStructReader.cs:507-554 | The pass never adds, removes or changes a property that no field declares. |
| `StructReaderProofs.ForFieldsKeepsUndeclared` | ThriftSharp/Internals/ThriftStructReader.cs:362-374 | After a struct read, a property that no field declares is present, and holds its value, exactly as in the freshly constructed instance. |
| `ClientMessageWriter.CallKind` | ThriftSharp/Internals/ThriftClientMessageWriter.cs:36 | The message kind is `OneWay` exactly when the method is one-way, and `Call` otherwise. |
| `ClientMessageWriter.CreateCompiledWriterForMethod` | ThriftSharp/Internals/ThriftClientMessageWriter.cs:23-68 | The program is: the message header with the method name and call kind; a struct header named `""`; parameter `n` written from argument `n`, for `n` in index order; then field stop, struct end, message end. That is `Count + 5` steps. |
| `ClientMessageWriter.Arg` | ThriftSharp/Internals/ThriftClientMessageWriter.cs:52-55 | The argument expression of parameter `n` has a value exactly when the argument array has an element `n`, and then it is that element. |
| `ClientMessageWriter.WriteArg` | ThriftSharp/Internals/ThriftClientMessageWriter.cs:50-58 | Parameter `n` is written by the field writer, given the parameter and argument `n`, or no argument when the array is too short. The step's outcome is the field writer's. |
| `ClientMessageWriter.Exec` | ThriftSharp/Internals/ThriftClientMessageWriter.cs:28-67 | A fixed write of the compiled block always completes, having written exactly its one token. A parameter step is that parameter's field write. |
| `ClientMessageWriter.RunStopsAtFirstFailure` | ThriftSharp/Internals/ThriftClientMessageWriter.cs:62-67 | Running the compiled block completes exactly when every step completes. Otherwise it stops with the error of a failing step, and every step before that one has completed. |
| `ClientMessageWriter.CallCompletes` | ThriftSharp/Internals/ThriftClientMessageWriter.cs:28-67 | The call completes exactly when every parameter is written. It then writes the prefix, each parameter's tokens in index order, and the suffix, with nothing in between. |
| `ClientMessageWriter.CallAborts` | ThriftSharp/Internals/ThriftClientMessageWriter.cs:50-58 | When parameter `j` is the first that fails, the call writes the prefix, the tokens of parameters `0..j-1`, and the partial writes of `j`. It then stops with `j`'s error, so no later parameter and no suffix is written. |
| `ClientMessageWriter.ZeroParamsWritesFive` | ThriftSharp/Internals/ThriftClientMessageWriter.cs:28-62 | A method without parameters writes exactly five tokens: message header, struct header, field stop, struct end, message end. |
| `ClientMessageWriter.Write` | ThriftSharp/Internals/ThriftClientMessageWriter.cs:73-81 | Writing through the cache gives exactly what a freshly built writer gives. The writer is added on first use and reused unchanged afterwards. |

## Left out

- Expression-tree construction and compilation. The model is an interpreter
  of the same protocol calls.
- Thread safety of the two unsynchronised static dictionaries. They are
  modelled as sequential memoisation.
- Concrete protocol encodings (binary, compact, JSON) and writes failing
  inside the protocol. Every write is assumed to succeed.
- The per-field writer `ThriftStructWriter.CreateWriterForField`. It is not
  part of this model, so it is a parameter (`FieldWriter`). Its null checks
  (`NullParameter`, `RequiredFieldIsNull`) and the cast of an argument to its
  wire type belong to it. So does the evaluation of the argument expression:
  when the argument array is too short, the writer receives no value, and
  where the runtime's index exception surfaces among its writes is its
  concern.
- Field converters. A converter is user code, modelled as an arbitrary
  function that returns a value or an exception (`Thrown`). Which exceptions
  a converter raises is not modelled.
- Floating point. A `Double` scalar carries its raw bits as an integer.
- Integer widths. Ids, counts and integers are unbounded. A field id is a
  `short` in the source, and nothing here wraps.
- Negative collection counts. Counts are `nat`. For a negative count the
  source's skip loops read no element. An array decode fails when it
  allocates the array. The list, set and map decode loops are not stopped by
  the count.
- String text encoding. Strings and binary share the Binary token, and a
  decoded string keeps its bytes.
- Collection semantics. Lists, sets and maps are decoded into whatever
  collection `KnownCollections.GetInstantiableVersion` picks, which is not
  part of this model, and each element or entry goes through that
  collection's `Add`. The model keeps every element and every pair in wire
  order. It does not model what that `Add` does with a duplicate set element
  or map key.
- Enum and nullable conversions. These are modelled as tag-preserving
  wrappers. A converter is an opaque function on values.
- `StructReader.ForStruct`: struct descriptors are inductive values, so a
  struct type that contains itself, directly or through other structs, cannot
  be expressed. Its nested reads go straight to the interpreter, which `Read`
  is proved equal to.
- `StructReaderProofs.ApplyAbsentAssignsDefaults`: requires the struct's field
  ids to be distinct. The source's metadata gives every field of a struct its
  own id, and with duplicate ids the later default would overwrite the earlier
  one.
- `DecodeRoundTrip.DecodeEncoded`: covers struct-free types only. A decoded
  struct depends on the blank instance, the field converters and the
  defaults, so there is no single canonical value to round-trip.
- Cache identity. Descriptors are compared structurally, where .NET compares
  references.
- `ThriftParsingException` and the reflection-based descriptor building that
  raises it.
