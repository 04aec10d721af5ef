# Mapper and InterchangeData in Dafny

This project models the core of the Zewo Mapper library, written in Swift. The library turns a
structured-data value (`InterchangeData`: null, boolean, number, string, array or string-keyed
object) into typed Swift values. It also ships a small byte buffer, a hex renderer and a drain
stream. The project proves properties of each part.

- `Interchange` (interchange.dfy) is the value type. It covers the variant predicates, the
  typed and throwing accessors, the runtime-cast `get`, the index and key subscripts,
  structural `==` and the literal initialisers.
- `Escaping` (escape.dfy) is the string escaper, and `KeyOrder` (keyorder.dfy) is the order
  in which keys are printed.
- `Describing` (describe.dfy) is the indented pretty-printer `description`, as a class
  holding the current indent level. `Layout` (layout.dfy) holds the layout properties proved
  about it.
- `Sequences` (sequences.dfy) holds Swift's `flatMap` with an optional closure and `map` /
  `flatMap` with a throwing closure.
- `Mapping` (mapper.dfy) is the extraction engine: `from`, `fromArray`, `optionalFrom` and
  `optionalFromArray`, each in its plain, `Convertible`, `RawRepresentable` and `Mappable`
  flavours, plus `Mappable.from`. `MapperExamples` (mapper_examples.dfy) replays the
  library's own test scenarios against the model.
- `Conversions` (conversions.dfy) is the integer conversion of the three protocol files.
- `Through` (through.dfy) holds `mapThrough`, `flatMapThrough` and the `mapper` property.
- `OutMapping` (outmap.dfy) holds the default members of the outbound map protocols.
- `ByteData` (data.dfy) is the in-place byte buffer `Data`.
- `HexData` (zdata.dfy) is its hexadecimal rendering.
- `Draining` (drain.dfy) is the `Drain` stream.

How Swift features are modelled:
- A Swift `Double` is a `real`, and `Int(Double)` is truncation toward zero. Rounding,
  NaN and the infinities are therefore not modelled (see "## Left out").
- The runtime cast `as? T` is a request for one of a closed set of target shapes.
- A protocol requirement supplied by the conforming type is a function parameter. This covers
  `fromCustomInterchangeData`, `T(rawValue:)`, `T(map:)`, an out-map's `blank` and its
  single-segment `set`, and the text of a non-integral number.
- A thrown error is an `Err` of a `Result`.
- Swift traps are `requires` clauses: an index out of range, a negative count, `removeFirst`
  on an empty buffer.

## Model

| member | source | states |
|---|---|---|
| Interchange.Truncate | Resources/InterchangeData.swift:124-136 | `Int(Double)` rounds toward zero: the result lies within one of the number, on the zero side |
| Interchange.Int | Resources/InterchangeData.swift:124-129 | `int` is present exactly for a Number, and is then its truncation |
| Interchange.UInt | Resources/InterchangeData.swift:131-136 | `uint` is present exactly for a Number, and is then its truncation; a number that truncates below zero traps |
| Interchange.AccessorsAgree | Resources/InterchangeData.swift:75-157 | each `isX` holds exactly when its accessor is present, an accessor returns its own variant's payload, and each `asX` throws IncompatibleType exactly when its accessor is nil (lines 228-275) |
| Interchange.Get | Resources/InterchangeData.swift:184-226 | the throwing `get<T>()` succeeds exactly when the value carries a payload of the requested type, returns that payload, and otherwise throws IncompatibleType |
| Interchange.GetOptional | Resources/InterchangeData.swift:159-174 | the optional `get<T>()` is nil exactly when the throwing form throws, and otherwise yields the same payload |
| Interchange.GetEmbed | Resources/InterchangeData.swift:184-226 | a payload cast at its own type gives back that payload |
| Interchange.GetNeverYields | Resources/InterchangeData.swift:184-226 | `NullValue` never yields a value, and no number casts to `Int` (the Int branch is commented out) |
| Interchange.GetKey | Resources/InterchangeData.swift:176-182 | `get(key)` succeeds exactly when the receiver is an Object holding the key with a payload of the requested type; otherwise it throws IncompatibleType |
| Interchange.IndexGet | Resources/InterchangeData.swift:293-298 | the index getter returns element `index` exactly for an Array with `index < count`, and nil otherwise, whatever the index on any other variant; on an Array a negative index traps |
| Interchange.IndexSet | Resources/InterchangeData.swift:278-291 | the index setter on an in-range Array replaces only that slot, stores nil as NullValue and keeps the length; any other receiver, with any index, or an index past the end leaves the value unchanged; on an Array a negative index traps |
| Interchange.KeyGet | Resources/InterchangeData.swift:302-309 | the key getter is the entry for an Object holding the key, and nil otherwise |
| Interchange.KeySet | Resources/InterchangeData.swift:311-318 | the key setter on an Object sets the key, or removes it for nil, and keeps every other entry; on any other variant it is a no-op |
| Interchange.IndexGetAfterSet | Resources/InterchangeData.swift:278-298 | reading a slot after setting it gives the stored value when the set took effect, and the old element otherwise |
| Interchange.KeyGetAfterSet | Resources/InterchangeData.swift:302-318 | reading a key after setting it gives the new value on an Object, and other keys read as before |
| Interchange.EqualsIsStructural | Resources/InterchangeData.swift:324-357 | `==` holds exactly for equal values: same variant, arrays element by element, objects key by key, never across variants; strings are equal when their scalars are, and canonical equivalence is left out |
| Interchange.FromInt | Resources/InterchangeData.swift:59-61 | `from(value: Int)` (and the integer literal, lines 371-375) stores a number whose `int` is the same integer |
| Interchange.StoredLastWins | Resources/InterchangeData.swift:419-429 | in a dictionary literal a key is present exactly when some pair names it, and its value is that of the last such pair |
| Interchange.DictionaryLiteral | Resources/InterchangeData.swift:419-429 | the loop storing the pairs one by one builds exactly that dictionary |
| Escaping.Escape | Resources/InterchangeData.swift:506-520 | `escape` wraps the text in double quotes and replaces each character by its `escapeMapping` entry, copying all others in order |
| Escaping.EscapeRoundTrip | Resources/InterchangeData.swift:506-533 | escaping loses nothing: the escaped body reads back as the original string |
| Escaping.UnescapeInverts | Resources/InterchangeData.swift:506-533 | every body that reads back is the escape of what it reads back as, so escaping is a bijection onto well-formed bodies |
| Escaping.UnescapeHead | Resources/InterchangeData.swift:506-533 | a well-formed body starts with the escape of its first decoded character, and the rest decodes to the remaining characters |
| Escaping.EscapeBodyIsOneLine | Resources/InterchangeData.swift:522-533 | an escaped string holds no raw line break, tab, U+2028 or U+2029 |
| Escaping.PlainTextUnchanged | Resources/InterchangeData.swift:506-520 | text with no character listed in the mapping is copied unchanged |
| Escaping.CrLfEntryAgrees | Resources/InterchangeData.swift:522-533 | the CR-LF entry of the mapping is the escape of CR followed by the escape of LF |
| Escaping.ClustersAgreeOnSimpleText | Resources/InterchangeData.swift:506-520 | the per-Character loop as written equals the per-scalar model whenever every Character is a single scalar or CR-LF |
| Escaping.QuoteWithCombiningMarkLeaks | Resources/InterchangeData.swift:506-520 | a quote followed by a combining mark is copied raw by the loop as written, and the result does not read back |
| KeyOrder.SortedKeysAreTheKeys | Resources/InterchangeData.swift:472-490 | the keys an object is printed with are exactly its keys |
| KeyOrder.SortedKeysAscend | Resources/InterchangeData.swift:472-490 | each key is printed once, in ascending order |
| KeyOrder.OrderedKeys | Resources/InterchangeData.swift:472-490 | repeatedly taking the least remaining key yields the keys in that order |
| Describing.IndentText | Resources/InterchangeData.swift:492-500 | `indent()` is four spaces per level |
| Describing.NumberText | Resources/InterchangeData.swift:446-452 | `serializeNumber` writes an integral number as a decimal integer with a minus sign exactly when it is negative, and any other number as its floating-point text |
| Describing.IntTextReadsBack | Resources/InterchangeData.swift:448 | `Int64(n).description` has a minus sign exactly when `n` is negative, followed by decimal digits whose value is the magnitude of `n` |
| Describing.NumberTextReadsBack | Resources/InterchangeData.swift:446-452 | the text of an integral number reads back as the number: its digits after any minus sign have the number's magnitude as their decimal value |
| Describing.DigitsRoundTrip | Resources/InterchangeData.swift:446-452 | an integral number's decimal digits read back as the number |
| Describing.Describer.Indent | Resources/InterchangeData.swift:492-500 | the indent loop produces the indent of the current level |
| Describing.Describer.Serialize | Resources/InterchangeData.swift:435-444 | `serialize` renders the value at the current depth and restores the depth |
| Describing.Describer.SerializeArray | Resources/InterchangeData.swift:454-470 | `serializeArray` renders each element on its own line one level deeper, a comma after all but the last, then the closing bracket at the array's indent |
| Describing.Describer.SerializeObject | Resources/InterchangeData.swift:472-490 | `serializeObject` writes one member per line one level deeper, in ascending key order, a comma after all but the last, closes with `}` at the object's indent, and restores the depth |
| Describing.Describer.SerializeMember | Resources/InterchangeData.swift:480 | the text of one member: the escaped key, a colon, a space and the value rendered one level deeper |
| Describing.Description | Resources/InterchangeData.swift:432-503 | `description` is the rendering of the whole value at depth zero |
| Layout.EntriesAreCommaSeparated | Resources/InterchangeData.swift:454-490 | the loop's "comma unless last" puts a comma between each two lines |
| Layout.ArrayLayout | Resources/InterchangeData.swift:454-470 | an array is `[`, its elements' lines joined by commas one level deeper, a line break, its own indent and `]` |
| Layout.ObjectLayout | Resources/InterchangeData.swift:472-490 | an object is `{`, its members' lines (escaped key, colon, space, value) joined by commas one level deeper in key order, then `}` on its own line at its indent |
| Layout.EmptyContainers | Resources/InterchangeData.swift:454-490 | empty containers still close on a line of their own |
| Layout.RenderBreaksIndented | Resources/InterchangeData.swift:432-503 | in a value rendered at depth `level`, every line break is followed by at least `4·level` spaces |
| Layout.ArrayBreaksIndented | Resources/InterchangeData.swift:454-470 | the same for an array: its element lines are indented one level deeper and its closing bracket at its own level |
| Layout.ObjectBreaksIndented | Resources/InterchangeData.swift:472-490 | the same for an object and its member lines |
| Layout.MemberBreaksIndented | Resources/InterchangeData.swift:480 | a member's line breaks, which all come from its value, are indented at least as deep as the member |
| Sequences.FilterMap | Sources/Mapper.swift:77-87 | `flatMap` with an optional closure never yields more elements than it is given |
| Sequences.FilterMapSelects | Sources/Mapper.swift:77-87 | it keeps exactly the elements whose conversion succeeds, in their original order |
| Sequences.KeptSelects | Sources/Mapper.swift:77-87 | the results are the conversions at strictly increasing positions, and every position whose conversion succeeds is among them |
| Sequences.FilterMapAllSome | Sources/Mapper.swift:77-87 | when every conversion succeeds, nothing is dropped |
| Sequences.FilterMapAllNone | Sources/Mapper.swift:77-87 | when every conversion fails, everything is dropped |
| Sequences.MapAll | Sources/InterchangeData.swift:13-18 | `map` with a throwing closure succeeds exactly when every element converts, one result per element, and otherwise throws the first element's error |
| Sequences.FlatMapAll | Sources/InterchangeData.swift:34-39 | `flatMap` with a throwing optional closure keeps the non-nil results in order, or throws the first error |
| Mapping.Unwrap | Sources/Mapper.swift:208-219 | `unwrap` returns the wrapped value, and throws `tryingToUnwrapNil` exactly for nil |
| Mapping.From | Sources/Mapper.swift:33-36 | plain `from(key)` is exactly the value type's `get(key)`; it throws when the key is missing or the payload has the wrong type |
| Mapping.FromConvertible | Sources/Mapper.swift:38-43 | a missing key throws `noInterchangeData(key)` carrying the key; a converter answering nil throws `tryingToUnwrapNil` |
| Mapping.FromRaw | Sources/Mapper.swift:45-54 | the raw value comes from `get(key)`; a raw value with no matching case throws `cantInitFromRawValue` |
| Mapping.FromMappable | Sources/Mapper.swift:64-69 | a missing key throws `noInterchangeData(key)`; otherwise the result is `T(map:)` over a Mapper of exactly the sub-value |
| Mapping.MappableFrom | Sources/Mappable.swift:19-24 | `Mappable.from` never throws: the built value, or nil when building throws |
| Mapping.ArrayAt | Sources/Mapper.swift:77-87 | the outer array lookup succeeds exactly when the key holds an Array |
| Mapping.FromArray | Sources/Mapper.swift:77-87 | plain `fromArray` throws only when the outer lookup fails, and keeps exactly the elements that cast, in order, never more than the array holds |
| Mapping.FromArrayConvertible | Sources/Mapper.swift:89-92 | the same with the converter per element |
| Mapping.FromArrayRaw | Sources/Mapper.swift:94-104 | the same with the raw cast and the case lookup per element |
| Mapping.FromArrayMappable | Sources/Mapper.swift:106-109 | the same with `Mappable.from` per element |
| Mapping.OptionalFrom | Sources/Mapper.swift:117-123 | plain `optionalFrom` is nil exactly when `from` throws, and otherwise the same value |
| Mapping.OptionalFromConvertible | Sources/Mapper.swift:125-130 | nil exactly when the required form throws, and otherwise the same value |
| Mapping.OptionalFromRaw | Sources/Mapper.swift:132-138 | nil exactly when the required form throws, and otherwise the same value |
| Mapping.OptionalFromMappable | Sources/Mapper.swift:140-146 | nil exactly when the required form throws, and otherwise the same value |
| Mapping.OptionalFromArray | Sources/Mapper.swift:154-168 | nil exactly when the outer lookup fails, and otherwise what `fromArray` returns |
| Mapping.OptionalFromArrayConvertible | Sources/Mapper.swift:170-177 | nil exactly when the outer lookup fails, and otherwise what the array form returns |
| Mapping.OptionalFromArrayRaw | Sources/Mapper.swift:179-193 | nil exactly when the outer lookup fails, and otherwise what the array form returns |
| Mapping.OptionalFromArrayMappable | Sources/Mapper.swift:195-202 | nil exactly when the outer lookup fails, and otherwise what the array form returns |
| Mapping.RawIntGuardIsDead | Sources/Mapper.swift:45-54 | `rawIntNotSupported` is never thrown, and an Int-backed enumeration always fails, because a number never casts to Int |
| Mapping.MissingKey | Sources/Mapper.swift:33-146 | with the key missing, every required form throws, every optional form is nil, and the array forms throw |
| Mapping.NestedAllOrNothing | Sources/Mapper.swift:64-69 | a nested Mappable's error reaches the caller unchanged; the optional form yields the same value or nil |
| MapperExamples.PartiallyInvalidArray | TopoTests/NormalValueTests.swift:71-80 | `["first", "second", 3]` as strings gives `["first", "second"]` |
| MapperExamples.MissingKeyExample | TopoTests/NormalValueTests.swift:36-58 | a missing key throws, and the optional form falls back to nil |
| MapperExamples.OptionalExistingArray | TopoTests/OptionalValueTests.swift:47-56 | `optionalFromArray("whiskey")` gives `["lera", "lynn"]` |
| MapperExamples.RawPartialArray | TopoTests/RawRepresentableValueTests.swift:124-137 | an unknown raw value is dropped from an array of enumeration cases |
| MapperExamples.RawNumberExamples | TopoTests/RawRepresentableValueTests.swift:39-107 | a Double-backed case is found from `1.0`; a missing key or a string in its place fails |
| MapperExamples.IntArray | TopoTests/TopoTests.swift:29-43 | `[1, 5, 7, 9, 11]` maps to the same ints through the Convertible conversion |
| MapperExamples.NestedExamples | Tests/InterchangeDataMapper/MappableValueTests.swift:25-45 | a nested Mappable builds from `["string": "hello"]` and fails as a whole without that key |
| Conversions.IntFromCustom | Resources/Convertible.swift:25-33 | the Convertible conversion is the truncated number, and nil exactly for other variants |
| Conversions.IntInit | Sources/Initializable.swift:21-29 | the throwing initialiser succeeds exactly for Numbers, otherwise throws `cantBindToNeededType`, and agrees with the Convertible conversion (Sources/Convertible.swift:22-31) |
| Conversions.IntegralNumbersUnchanged | Sources/Convertible.swift:22-31 | an integral number converts back to the same integer |
| Through.MapperOf | Sources/StructuredData.swift:5-7 | `mapper` wraps exactly the value |
| Through.MapThrough | Sources/InterchangeData.swift:13-18 | on an Array, the transform of every element in order with the same length, or the first error; on anything else, IncompatibleType (also Sources/StructuredData.swift:13-18) |
| Through.MapThroughKey | Sources/InterchangeData.swift:20-25 | throws when the key is absent or the receiver is not an Object, and otherwise is the unkeyed form on the value at the key (also Sources/StructuredData.swift:20-25) |
| Through.FlatMapThrough | Sources/InterchangeData.swift:34-39 | on an Array, the non-nil results in order, never longer than the array, or the first error; on anything else, IncompatibleType (also Sources/StructuredData.swift:34-39) |
| Through.FlatMapThroughKey | Sources/InterchangeData.swift:41-46 | the keyed form delegates to the unkeyed one, or throws when the key is absent (also Sources/StructuredData.swift:41-46) |
| Through.TransformErrorsPropagate | Sources/InterchangeData.swift:13-39 | a transform error is propagated, not skipped: both forms throw the error of the first failing element |
| OutMapping.SetAtPath | Sources/Mapper/OutMapper/OutMap.swift:112-122 | an empty path resets the map to blank without throwing; a path of two or more segments throws `deepSetIsNotImplementedYet` and leaves the map as it was |
| OutMapping.SingleSegmentDelegates | Sources/Mapper/OutMapper/OutMap.swift:117-118 | a one-segment path gives the same new map as the single-segment `set`, and throws exactly when it throws, with its error |
| OutMapping.PathSetFacts | Sources/Mapper/OutMapper/OutMap.swift:112-122 | the empty path ignores the value passed, nil included; the default member never raises `tryingToSetNilAtTheTopLevel` itself, so any such error comes from the conformer's single-segment `set`; a failed deep set is a no-op |
| OutMapping.OutMap.Set | Sources/Mapper/OutMapper/OutMap.swift:112-122 | the in-place `set` leaves the map and the thrown error as `SetAtPath` says |
| OutMapping.OutMap.Setup | Sources/Mapper/OutMapper/OutMap.swift:74-76 | the default `setup` leaves the child unchanged |
| OutMapping.Applied | Sources/Mapper/OutMapper/OutMap.swift:92-94 | the options after `applyOptions` hold the old and the given options and nothing else |
| OutMapping.AppliedFacts | Sources/Mapper/OutMapper/OutMap.swift:92-94 | applying is idempotent and order-independent, and never removes an option |
| OutMapping.OptionedOutMap.ApplyOptions | Sources/Mapper/OutMapper/OutMap.swift:92-94 | the options become the union of the old and the given ones |
| OutMapping.OptionedOutMap.Adopt | Sources/Mapper/OutMapper/OutMap.swift:100-102 | the child's options gain the parent's, and the parent is unchanged |
| ByteData.Replaced | Resources/Data.swift:58-60 | replacing a range keeps the bytes before it, puts the new bytes next and shifts the rest after them |
| ByteData.Repeated | Resources/Data.swift:54-56 | `count` copies of the byte |
| ByteData.SameBytes | Resources/Data.swift:175-177 | `==` holds exactly when the counts agree and every byte is equal |
| ByteData.InsertThenRemove | Resources/Data.swift:79-90 | removing the byte just inserted at `i` restores the buffer |
| ByteData.RemoveThenInsert | Resources/Data.swift:79-90 | re-inserting the byte removed at `i` restores the buffer |
| ByteData.RangeGetSet | Resources/Data.swift:136-144 | writing a range back with its own bytes changes nothing, and reading a range just written gives what was written |
| ByteData.EndsAreRanges | Resources/Data.swift:58-98 | appending replaces the empty range at the end, and `removeFirst(n)` replaces the first `n` bytes by nothing |
| ByteData.Data.constructor | Resources/Data.swift:25-31 | `init(_ bytes:)` and the array literal (lines 153-157) hold exactly the given bytes |
| ByteData.Data.Empty | Resources/Data.swift:50-52 | `init()` and the nil literal (lines 147-151) hold no bytes |
| ByteData.Data.Repeating | Resources/Data.swift:54-56 | `init(repeating:count:)` holds `count` copies of the byte |
| ByteData.Data.Count | Resources/Data.swift:122-124 | `count` is the number of bytes |
| ByteData.Data.At | Resources/Data.swift:126-129 | the subscript getter reads the byte at the index |
| ByteData.Data.Slice | Resources/Data.swift:136-139 | the range getter gives the bytes of the range, in order |
| ByteData.Data.SetAt | Resources/Data.swift:131-133 | the subscript setter changes only position `i`, and keeps the count |
| ByteData.Data.ReplaceSubrange | Resources/Data.swift:58-60 | `replaceSubrange` gives the bytes `Replaced` describes |
| ByteData.Data.SetSlice | Resources/Data.swift:141-143 | the range setter replaces the range by the slice |
| ByteData.Data.ReserveCapacity | Resources/Data.swift:62-64 | `reserveCapacity` leaves the bytes unchanged |
| ByteData.Data.Append | Resources/Data.swift:70-72 | `append` puts the byte at the end, adds one to the count and keeps the earlier bytes |
| ByteData.Data.AppendContents | Resources/Data.swift:74-76 | `append(contentsOf:)` adds the bytes at the end, in order |
| ByteData.Data.Insert | Resources/Data.swift:79-81 | `insert` puts the byte at `i` and shifts the later bytes one to the right |
| ByteData.Data.InsertContents | Resources/Data.swift:83-86 | `insert(contentsOf:at:)` puts the bytes at `i` and shifts the later bytes after them |
| ByteData.Data.RemoveAt | Resources/Data.swift:88-90 | `remove(at:)` returns the old byte at `i` and removes it |
| ByteData.Data.RemoveFirst | Resources/Data.swift:92-94 | `removeFirst()` returns the first byte and drops it |
| ByteData.Data.RemoveFirstN | Resources/Data.swift:96-98 | `removeFirst(n)` drops exactly the first `n` bytes |
| ByteData.Data.RemoveSubrange | Resources/Data.swift:100-102 | `removeSubrange` drops the bytes of the range and closes the gap |
| ByteData.Data.RemoveAll | Resources/Data.swift:104-106 | `removeAll` leaves no bytes |
| ByteData.Data.PlusAssign | Resources/Data.swift:183-185 | `+=` appends the other buffer's bytes in place |
| ByteData.Equal | Resources/Data.swift:175-177 | two buffers are `==` exactly when they hold the same bytes |
| ByteData.Plus | Resources/Data.swift:191-194 | `+` gives a new buffer holding the left bytes followed by the right bytes |
| ByteData.BufferWithSize | Resources/Data.swift:238-240 | `bufferWithSize(n)` is a new buffer of `n` zero bytes |
| HexData.HexByteDigits | Resources/ZData.swift:44 | each byte is two lowercase hex digits, high digit first, with a leading "0" below 16 |
| HexData.HexString | Resources/ZData.swift:38-47 | the loop writes each byte's digits in order, with one space before byte `i` exactly when the delimiter is non-zero, `i > 0` and `i` is a multiple of the delimiter |
| HexData.HexConcat | Resources/ZData.swift:38-47 | without a delimiter, the text of two byte runs put together is the text of the first followed by the text of the second |
| HexData.HexDescription | Resources/ZData.swift:49-51 | `hexDescription` is the rendering in groups of two bytes |
| HexData.DebugDescription | Resources/ZData.swift:65-67 | `debugDescription` is the same text as `hexDescription` |
| HexData.UndelimitedLayout | Resources/ZData.swift:38-47 | with delimiter 0 the text has length `2·count`, and byte `i` sits at positions `2i` and `2i+1` |
| HexData.DelimitedLength | Resources/ZData.swift:41-43 | with a positive delimiter `d`, non-empty data renders as `2·count + (count - 1) / d` characters: two digits per byte and one space per completed group after the first byte |
| HexData.SpacesOnlyBetweenBytes | Resources/ZData.swift:41-43 | there is never a leading or a trailing space, and never two spaces in a row |
| HexData.EmptyData | Resources/ZData.swift:39-46 | empty data renders as the empty string |
| HexData.SpacesOnlyDelimit | Resources/ZData.swift:41-43 | removing the spaces gives the undelimited text |
| HexData.HexRoundTrip | Resources/ZData.swift:38-47 | the undelimited text reads back as the bytes it came from |
| HexData.DelimitedRoundTrip | Resources/ZData.swift:38-47 | any delimited text, without its spaces, reads back as the bytes |
| Draining.Visible | Resources/Drain.swift:29-34 | `data` is the buffer while open, and empty once closed |
| Draining.Initial | Resources/Drain.swift:58-63 | `init(buffer)` keeps the buffer and is closed exactly when the buffer is empty |
| Draining.CloseOnce | Resources/Drain.swift:69-75 | `close` answers true exactly when the drain was open and leaves it closed; a second `close` answers false and changes nothing |
| Draining.ReceiveOnce | Resources/Drain.swift:77-81 | `receive` returns what `data` held and closes the drain, so a second `receive` returns nothing |
| Draining.SendAndFlushUnsupported | Resources/Drain.swift:83-95 | `send` and `flush` always throw and change no state |
| Draining.BufferNeverChanges | Resources/Drain.swift:25-95 | no sequence of operations, assignments to the public `closed` included, changes the buffer; a closed drain stays closed as long as nothing assigns false to `closed` |
| Draining.ClosedGivesNothing | Resources/Drain.swift:29-81 | from a closed drain that nothing reopens by assigning false to `closed`, every `receive` returns nothing and every `close` answers false |
| Draining.HandedOutAtMostOnce | Resources/Drain.swift:29-81 | over any sequence of operations that never assigns false to `closed`, the buffer is handed out by at most one `receive`, and at most one `close` answers true |
| Draining.ReopenHandsOutAgain | Resources/Drain.swift:27-81 | assigning false to the public `closed` after a `receive` reopens the drain, and the next `receive` hands the same bytes out a second time |
| Draining.Drain.constructor | Resources/Drain.swift:58-63 | `init(_ buffer:)` holds the buffer's bytes and closes itself when there are none |
| Draining.Drain.Empty | Resources/Drain.swift:36-38 | `init()` starts closed with an empty buffer |
| Draining.Drain.Data | Resources/Drain.swift:29-34 | the `data` property follows `Visible` |
| Draining.Drain.Close | Resources/Drain.swift:69-75 | `close()` takes the step `CloseOnce` describes |
| Draining.Drain.Receive | Resources/Drain.swift:77-81 | `receive()` takes the step `ReceiveOnce` describes |
| Draining.Drain.SetClosed | Resources/Drain.swift:27 | assigning to the public `closed` changes only the flag and leaves the buffer as it was |
| Draining.Drain.Send | Resources/Drain.swift:83-88 | `send` throws `sendUnsupported` and changes nothing |
| Draining.Drain.Flush | Resources/Drain.swift:90-95 | `flush` throws `flushUnsupported` and changes nothing |

## Left out

- Number rendering: for a number that is not integral, `n.description` is floating-point
  formatting. The model takes that text as a parameter and writes integral numbers as
  decimal integers. The `Int64` conversion that traps outside 64 bits is not modelled
  (Resources/InterchangeData.swift:446-452).
- Interchange.Truncate: models `Int(Double)` only for finite numbers in range. The model
  leaves out NaN, infinities, 64-bit overflow and the traps they cause.
- Interchange.FromInt: `Double(value)` is exact only up to 2^53 in magnitude. Beyond that
  Swift rounds, so `int` need not give the integer back, and for `Int.max` the rounded
  Double is out of range and `Int(Double)` traps. The model's real is exact for every
  integer.
- Interchange.EqualsIsStructural, Interchange.KeyGet, Interchange.KeySet, Interchange.GetKey,
  Interchange.StoredLastWins: Swift compares strings, and looks up dictionary keys, by
  canonical equivalence, so `"\u{E9}"` and `"e\u{301}"` are equal strings and name the same
  key. The model does not model canonical equivalence: two strings or keys are equal only
  when their Unicode scalars are equal.
- Interchange.EqualsIsStructural: `==` compares numbers with Double's `==`, under which NaN
  is not equal to itself, so `.NumberValue(.nan) == .NumberValue(.nan)` is false in Swift and
  `==` is not reflexive there. The model has no NaN.
- Draining.ClosedGivesNothing and Draining.HandedOutAtMostOnce hold only for traces that
  never assign false to the public `closed`; Draining.ReopenHandsOutAgain shows the buffer
  handed out twice when one does.
- Interchange.UInt: a number that truncates below zero traps in Swift, and the model
  requires that this does not happen.
- The `print(T)` inside the throwing `get` is a side effect and is not modelled.
- The string-interpolation initialiser is not modelled. It relies on `String(expr)`
  reflection and a force-unwrap.
- The nil, boolean, float, string and array literal initialisers are the datatype's own
  constructors, so they have no member of their own.
- The runtime cast `as? T` is modelled only for the six payload types and `Int`, as a
  `Shape`; other target types are not modelled. In Swift a cast to a concrete type other
  than the payload's own fails (so `Int` from a Double never succeeds, in the model or in
  the source), while a cast to `Any` or to a protocol the payload conforms to succeeds.
- The parser and serializer protocols (`InterchangeDataParser`,
  `InterchangeDataSerializer`) declare no behaviour and are not modelled.
- Swift leaves a dictionary's iteration order unspecified. `description` in the model lists
  keys in ascending code-point order. Any fixed order gives the same layout properties.
- Swift's `String` is a sequence of grapheme clusters. The model's strings are sequences of
  Unicode scalars, and it escapes per scalar (see Findings). String equality and key lookup
  therefore compare scalars, not canonical equivalence (see the Interchange lines above). There is no UTF-8 encoding or
  decoding, so `Data(String)`, `String(data:)` and `Data.description` (which tries UTF-8
  first) are not modelled.
- `Data` is a struct with value semantics. The model makes it a class, and `+` and
  `bufferWithSize` return fresh objects. Copy-on-assignment is not modelled.
- ByteData.Data.Slice: returns the bytes of the range re-indexed from zero. Swift's
  `ArraySlice` keeps the original indices.
- ByteData.Data.ReserveCapacity: capacity is not modelled. Neither is the capacity kept by
  `removeAll(keepingCapacity:)`.
- The generic `+=` and `+` overloads that take any byte sequence or a `DataConvertible` are
  covered by `AppendContents` and `PlusAssign`. The conversion `.data` itself is UTF-8 and is
  not modelled.
- The unsafe-pointer members are not modelled: `init(pointer:length:)`, `convert`,
  `init(value:)` and `withUnsafe(Mutable)BufferPointer`. They copy raw memory.
- `Drain.init(_ stream:)` is not modelled. It loops over another stream's `receive` and is
  I/O. So is `init(_ buffer: DataRepresentable)`, which reads `.data`.
- `IndexPathValue` is declared outside these files. The model gives it an index case and a
  key case.
- A conformer's single-segment `set`, its `blank` and its `options` type are parameters. The
  union rule is modelled for option sets only.
- The stray test function at the end of Sources/Mapper.swift is not part of the model.
- Also not part of this model: Sources/Mapper/OutMapper/OutMappable.swift,
  Resources/URI.swift and Resources/Examples.swift.

## Findings

| source | as written | input that shows it | evidently intended | confidence | as-written member | corrected member |
|---|---|---|---|---|---|---|
| Resources/InterchangeData.swift:506-520 | `escape` looks up each Swift Character, an extended grapheme cluster, in `escapeMapping`. A quote or backslash followed by a combining mark forms one Character that is not a key, so it is copied raw. | the string U+0022 U+0301 (a quote with a combining acute accent) becomes `"`, U+0022, U+0301, `"`, and the quote closes the string early | every quote and backslash is escaped, so that the output reads back as the input | not executed | Escaping.QuoteWithCombiningMarkLeaks | Escaping.EscapeRoundTrip |
