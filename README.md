# ANR viewer: Java stream decoder and report extraction

This project models the two library files behind the ANR viewer. The viewer is a web page that reads the ANR
reports (Application Not Responding reports) written by the BlockMoonlightTreasureBox Android library.

- `javaDeserialization.ts` decodes the subset of the Java Object Serialization Stream Protocol that those reports
  use. That protocol is chapter 6 of the Java Object Serialization Specification. The file turns the stream into
  JavaScript values. A few known Java classes are reshaped into plain objects.
- `anrParser.ts` takes the five text fields and the two keyed sample caches out of the decoded `AnrInfo` root,
  filling in defaults. It also turns message-type codes into labels and colours.

The model has these layers:

- `Bytes` (bytes.dfy) defines the big-endian fixed-width reads as functions over `seq<byte>`. It proves that
  the 64-bit read, a signed high word times 2^32 plus an unsigned low word, is the two's-complement value of the
  eight bytes.
- `Values` (values.dfy) defines the values the decoder builds, shaped like their JavaScript counterparts. It also
  defines the JavaScript coercions the code relies on: `!v`, `v ?? d`, `Number(v)` and `obj.key`. Strings are
  sequences of UTF-16 code units.
- `ModifiedUtf8` (modified_utf8.dfy) has `decodeModifiedUtf8` as a function. It proves a round trip against an
  encoder and a loop method that is proved equal to the function.
- `Materialize` (materialize.dfy) models the materialisers that reshape known classes (`AnrInfo`, `TimeLruCache`,
  `MessageInfo`, `ArrayList`, `LinkedHashMap`, `StringBuilder` and others). Each loop is a method proved against a
  function.
- `Grammar` (grammar.dfy) is a functional reference definition of the whole decoder. It works over a state made
  of the offset, the handle table and the next handle number. Each reader is a function that returns a value and
  the next state, or an error.
  - `GrammarFacts` (grammar_facts.dfy) proves what the decoder promises about that definition: handles, back
    references, field order, annotation segments, arrays, error cases and the finding below.
  - `GrammarSteps` (grammar_steps.dfy) holds one-step unfoldings of the definition that the methods use.
- `Reader` (byte_reader.dfy) has the `ByteReader` class: a buffer and an offset that every read moves.
- `Deserializer` (deserializer.dfy) has the `JavaDeserializer` class.
  - Its state is a reader, a handle table and a handle counter, as in the source.
  - Every method updates that state in place. Each method is proved to return what the matching `Grammar`
    function returns and to leave the state that function computes.
  - Its loops carry that equation as an invariant.
- `AnrParser` (anr_parser.dfy) has `parseAnr` and its helpers as functions over the decoded value.

The code differs from chapter 6 of the Java Object Serialization Specification in several places. The model
follows the code in each of them:

- The class name of an `L` or `[` field is read as a bare length-prefixed string. It is not read as a
  `TC_STRING` element, and it takes no handle.
- A new class descriptor gets its handle only after its superclass descriptor has been read.
- An array gets its handle only after its elements have been read.
- A descriptor back-reference to an unbound handle is not an error. It reads as `undefined`.

## Model

| member | source | states |
|---|---|---|
| Bytes.I64 | anr-viewer/src/lib/javaDeserialization.ts:106-111 | a 64-bit read lies in the signed 64-bit range |
| Bytes.Int64IsSignedWord | anr-viewer/src/lib/javaDeserialization.ts:106-111 | high word times 2^32 plus low word equals the two's-complement reading of the eight big-endian bytes |
| Bytes.U32IsBigEndian | anr-viewer/src/lib/javaDeserialization.ts:88-92 | the unsigned 32-bit read is the big-endian number of its four bytes |
| Bytes.Int32RoundTrip | anr-viewer/src/lib/javaDeserialization.ts:82-86 | reading the four bytes of any 32-bit integer gives that integer back |
| Bytes.BigEndianConcat | anr-viewer/src/lib/javaDeserialization.ts:106-111 | the big-endian value of two byte runs joined is the first shifted by the second's width plus the second |
| Reader.ByteReader.constructor | anr-viewer/src/lib/javaDeserialization.ts:53-56 | a new reader is at offset 0 of its buffer |
| Reader.ByteReader.ReadUint8 | anr-viewer/src/lib/javaDeserialization.ts:58-62 | succeeds exactly when a byte is left; returns it and moves by one; otherwise fails with OutOfRange and stays put |
| Reader.ByteReader.ReadInt8 | anr-viewer/src/lib/javaDeserialization.ts:64-68 | the signed byte, moving by one; OutOfRange at the end |
| Reader.ByteReader.ReadUint16 | anr-viewer/src/lib/javaDeserialization.ts:70-74 | the unsigned big-endian 16-bit value, moving by two; OutOfRange when short |
| Reader.ByteReader.ReadInt16 | anr-viewer/src/lib/javaDeserialization.ts:76-80 | the signed 16-bit value, moving by two; OutOfRange when short |
| Reader.ByteReader.ReadInt32 | anr-viewer/src/lib/javaDeserialization.ts:82-86 | the signed 32-bit value, moving by four; OutOfRange when short |
| Reader.ByteReader.ReadUint32 | anr-viewer/src/lib/javaDeserialization.ts:88-92 | the unsigned 32-bit value, moving by four; OutOfRange when short |
| Reader.ByteReader.ReadFloat32 | anr-viewer/src/lib/javaDeserialization.ts:94-98 | the four raw bytes of the float, moving by four; OutOfRange when short |
| Reader.ByteReader.ReadFloat64 | anr-viewer/src/lib/javaDeserialization.ts:100-104 | the eight raw bytes of the double, moving by eight; OutOfRange when short |
| Reader.ByteReader.ReadInt64 | anr-viewer/src/lib/javaDeserialization.ts:106-111 | the signed 64-bit value (`Bytes.I64`), moving by eight; OutOfRange when short |
| Reader.ByteReader.ReadBytes | anr-viewer/src/lib/javaDeserialization.ts:113-117 | a copy of exactly the next `length` bytes, moving past them; a negative or too large length fails and does not move |
| Reader.ByteReader.Skip | anr-viewer/src/lib/javaDeserialization.ts:119-121 | moves forward by exactly `length`; a negative length or one past the end fails (the corrected behaviour, see Findings) |
| ModifiedUtf8.Decode | anr-viewer/src/lib/javaDeserialization.ts:124-148 | the decoded text has at most as many code units as there are input bytes |
| ModifiedUtf8.DecodeModifiedUtf8 | anr-viewer/src/lib/javaDeserialization.ts:124-148 | the byte-by-byte loop computes `Decode` of its input |
| ModifiedUtf8.DecodeEncode | anr-viewer/src/lib/javaDeserialization.ts:124-148 | every UTF-16 text survives encoding as modified UTF-8 and decoding back |
| ModifiedUtf8.AsciiDecodesToItself | anr-viewer/src/lib/javaDeserialization.ts:128-133 | bytes below 0x80 decode one unit each, unchanged |
| ModifiedUtf8.BadLeadFails | anr-viewer/src/lib/javaDeserialization.ts:143-145 | a lead byte 10xxxxxx or 1111xxxx rejects the whole text |
| ModifiedUtf8.DecodeSplits | anr-viewer/src/lib/javaDeserialization.ts:126-146 | a complete one-, two- or three-byte form decodes to one unit followed by the decoding of the rest |
| ModifiedUtf8.LeadWidth | anr-viewer/src/lib/javaDeserialization.ts:128-143 | the lead byte's pattern picks a width of 1 (0xxxxxxx), 2 (110xxxxx), 3 (1110xxxx) or none |
| Grammar.Start | anr-viewer/src/lib/javaDeserialization.ts:155-158 | decoding starts with an empty handle table |
| Grammar.Assign | anr-viewer/src/lib/javaDeserialization.ts:167-171 | binds the current counter, which was free, to the value and increments the counter by one; no other handle appears |
| Grammar.Rebind | anr-viewer/src/lib/javaDeserialization.ts:173-175 | the handle now holds the new value; every other binding, the counter and the offset are unchanged |
| Grammar.Deserialize | anr-viewer/src/lib/javaDeserialization.ts:155-165 | wrong magic fails with InvalidMagic; a stream shorter than the header fails |
| Grammar.ReadPrimitive | anr-viewer/src/lib/javaDeserialization.ts:307-324 | a primitive field succeeds exactly when its width is left, and consumes exactly that width |
| Grammar.ReadUtf | anr-viewer/src/lib/javaDeserialization.ts:409-413 | on success the text is the decoding of exactly the length-prefixed bytes, and the offset moves past them |
| Grammar.FieldDescAt | anr-viewer/src/lib/javaDeserialization.ts:236-242 | the type code is the first byte; a class name is present exactly for `L` and `[`; no handle is taken |
| Grammar.FieldDescs | anr-viewer/src/lib/javaDeserialization.ts:234-243 | exactly `fieldCount` field descriptors, taking no handle |
| Grammar.BlockSpan | anr-viewer/src/lib/javaDeserialization.ts:263-268 | a block's bytes lie strictly after its tag and inside the stream |
| Grammar.Reference | anr-viewer/src/lib/javaDeserialization.ts:182-188 | a reference consumes exactly its four handle bytes |
| Grammar.NewString | anr-viewer/src/lib/javaDeserialization.ts:391-397 | a new string is text and is bound to the next handle |
| Grammar.NewLongString | anr-viewer/src/lib/javaDeserialization.ts:399-407 | a long string is text and is bound to the next handle |
| Grammar.ComponentOf | anr-viewer/src/lib/javaDeserialization.ts:358-385 | element reads exactly when the descriptor's name starts with `[L` or `[[`; otherwise the primitive reader of the name's second character exactly when that is I, J, F, D, B or S (never C or Z); no component in every other case, a non-descriptor or a name shorter than two included |
| Grammar.PrimitiveElements | anr-viewer/src/lib/javaDeserialization.ts:364-382 | `count` primitives succeed exactly when count times the width is left, and consume exactly that |
| Grammar.Element | anr-viewer/src/lib/javaDeserialization.ts:177-204 | a decoded element always consumes input and never changes a handle bound before it |
| Grammar.ReadClassDesc | anr-viewer/src/lib/javaDeserialization.ts:212-215 | a descriptor read always consumes input and never changes a handle bound before it |
| Grammar.NewClassDesc | anr-viewer/src/lib/javaDeserialization.ts:228-254 | a new descriptor is a descriptor value bound to the last handle taken |
| Grammar.ClassDescRest | anr-viewer/src/lib/javaDeserialization.ts:234-254 | after the fixed part: fields, skipped annotations, superclass, then the descriptor bound to the last handle |
| Grammar.SkipClassAnnotations | anr-viewer/src/lib/javaDeserialization.ts:257-273 | a successful skip moves forward and never changes a handle bound before it |
| Grammar.AnnotationSegments | anr-viewer/src/lib/javaDeserialization.ts:333-352 | a successful read moves forward and never changes a handle bound before it |
| Grammar.FieldValues | anr-viewer/src/lib/javaDeserialization.ts:299-301 | one value per declared field |
| Grammar.ArrayElements | anr-viewer/src/lib/javaDeserialization.ts:359-361 | exactly `count` elements |
| GrammarFacts.HeaderThenOneElement | anr-viewer/src/lib/javaDeserialization.ts:155-165 | after 0xACED and any two version bytes, the result is exactly one content element read from offset 4 with an empty table |
| GrammarFacts.WrongMagicFails | anr-viewer/src/lib/javaDeserialization.ts:159-162 | any other first two bytes fail with InvalidMagic |
| GrammarFacts.BackReference | anr-viewer/src/lib/javaDeserialization.ts:182-188 | a reference to a handle already taken returns exactly its bound value and changes nothing but the offset |
| GrammarFacts.ForwardReferenceFails | anr-viewer/src/lib/javaDeserialization.ts:184-186 | a reference to a handle not yet taken fails naming that handle |
| GrammarFacts.ReferenceElement | anr-viewer/src/lib/javaDeserialization.ts:182-188 | a reference element is a lookup in the table, or UnknownHandle |
| GrammarFacts.UnboundDescriptorReference | anr-viewer/src/lib/javaDeserialization.ts:217-279 | a descriptor reference to an unbound handle reads as undefined, so the object fails with MissingClassDescriptor |
| GrammarFacts.UnboundReference | anr-viewer/src/lib/javaDeserialization.ts:221-224 | the descriptor reader does not check the handle it looks up |
| GrammarFacts.FalsyDescriptorFails | anr-viewer/src/lib/javaDeserialization.ts:276-279 | a new object with a falsy descriptor fails before taking a handle |
| GrammarFacts.NullDescriptorFails | anr-viewer/src/lib/javaDeserialization.ts:218-279 | `TC_OBJECT TC_NULL` fails with MissingClassDescriptor |
| GrammarFacts.NewObjectRebinds | anr-viewer/src/lib/javaDeserialization.ts:275-290 | a new object takes the next handle after its descriptor, and that handle ends up holding the returned value |
| GrammarFacts.StoreLastWins | anr-viewer/src/lib/javaDeserialization.ts:299-301 | among fields with the same name, the one read last is the stored one |
| GrammarFacts.StoreKeeps | anr-viewer/src/lib/javaDeserialization.ts:299-301 | storing fields leaves every other name's value as it was |
| GrammarFacts.DerivedFieldWins | anr-viewer/src/lib/javaDeserialization.ts:296-301 | superclass fields are read first, so a class's own field overwrites an inherited one of the same name |
| GrammarFacts.InheritedFieldKept | anr-viewer/src/lib/javaDeserialization.ts:296-301 | an inherited field the class does not redeclare keeps the superclass's value |
| GrammarFacts.AnnotationsOnlyWithWriteMethod | anr-viewer/src/lib/javaDeserialization.ts:302-304 | annotations are recorded under the class name exactly when flag 0x01 is set |
| GrammarFacts.PrimitiveFieldsConsume | anr-viewer/src/lib/javaDeserialization.ts:299-324 | primitive-only fields succeed exactly when the sum of their widths is left, and consume exactly that |
| GrammarFacts.SkipIsDiscard | anr-viewer/src/lib/javaDeserialization.ts:257-352 | class annotations use the same grammar as object annotations, and the segments are dropped |
| GrammarFacts.FirstBlock | anr-viewer/src/lib/javaDeserialization.ts:340-345 | a written short or long block is recognised and spans exactly its data bytes |
| GrammarFacts.BlockThenRest | anr-viewer/src/lib/javaDeserialization.ts:340-345 | a block segment comes first, followed by the segments after it, in stream order |
| GrammarFacts.EndTagOnly | anr-viewer/src/lib/javaDeserialization.ts:337-339 | 0x78 alone is an empty segment list |
| GrammarFacts.NestedThenRest | anr-viewer/src/lib/javaDeserialization.ts:346-349 | any other tag is a nested element, followed by the rest in order |
| GrammarFacts.NestedFails | anr-viewer/src/lib/javaDeserialization.ts:346-349 | a failing nested element fails the whole segment list |
| GrammarFacts.ArrayShape | anr-viewer/src/lib/javaDeserialization.ts:354-389 | an array has a non-negative length, exactly that many elements and a supported component, and it is bound to the last handle |
| GrammarFacts.PrimitiveArrayBytes | anr-viewer/src/lib/javaDeserialization.ts:362-382 | a primitive array consumes its length times the component width |
| GrammarFacts.NegativeArrayLengthFails | anr-viewer/src/lib/javaDeserialization.ts:356-357 | a negative length is a range error |
| GrammarFacts.CharAndBooleanArraysUnsupported | anr-viewer/src/lib/javaDeserialization.ts:363-385 | `[C` and `[Z` have no supported component |
| GrammarFacts.NoDescriptorNoComponent | anr-viewer/src/lib/javaDeserialization.ts:358-385 | an array whose descriptor is not a descriptor fails as an unsupported component |
| GrammarFacts.UnsupportedTags | anr-viewer/src/lib/javaDeserialization.ts:201-203 | TC_RESET, TC_EXCEPTION and block tags are unsupported as content elements |
| GrammarFacts.UnexpectedDescriptorTag | anr-viewer/src/lib/javaDeserialization.ts:225-227 | a descriptor slot holding anything but null, reference or descriptor fails naming the tag |
| GrammarFacts.NullDescriptor | anr-viewer/src/lib/javaDeserialization.ts:218-220 | a null descriptor is null and consumes one byte |
| GrammarFacts.BackwardBlockNeverEnds | anr-viewer/src/lib/javaDeserialization.ts:266-268 | as written, `7A FF FF FF FB` returns the offset to its own tag on every pass |
| GrammarFacts.BackwardBlockFails | anr-viewer/src/lib/javaDeserialization.ts:266-268 | in the model the same bytes fail with OutOfRange |
| GrammarFacts.AsWrittenStopAgrees | anr-viewer/src/lib/javaDeserialization.ts:257-273 | one pass of the skip loop as written and the modelled skip stop alike: both end after the end tag and both fail on a stream that is too short |
| GrammarFacts.AsWrittenShortBlockAgrees | anr-viewer/src/lib/javaDeserialization.ts:263-265 | for a short block that ends inside the stream, the loop as written and the modelled skip both go on just past its bytes |
| GrammarFacts.AsWrittenLongBlockAgrees | anr-viewer/src/lib/javaDeserialization.ts:266-268 | likewise for a long block whose length is not negative |
| GrammarFacts.NullStream | anr-viewer/src/lib/javaDeserialization.ts:155-181 | a header and TC_NULL decode to null |
| GrammarFacts.StringStream | anr-viewer/src/lib/javaDeserialization.ts:191-397 | a header and a two-letter TC_STRING decode to that text |
| Deserializer.JavaDeserializer.constructor | anr-viewer/src/lib/javaDeserialization.ts:150-153 | an empty handle table and the counter at 0x7E0000 |
| Deserializer.JavaDeserializer.Deserialize | anr-viewer/src/lib/javaDeserialization.ts:155-165 | returns exactly `Grammar.Deserialize` of the buffer |
| Deserializer.JavaDeserializer.AssignHandle | anr-viewer/src/lib/javaDeserialization.ts:167-171 | returns the old counter; the new state is `Grammar.Assign` of the old |
| Deserializer.JavaDeserializer.SetHandle | anr-viewer/src/lib/javaDeserialization.ts:173-175 | the new state is `Grammar.Rebind` of the old |
| Deserializer.JavaDeserializer.ReadContentElement | anr-viewer/src/lib/javaDeserialization.ts:177-204 | returns `Grammar.Element` and leaves its state (offset, table, counter) |
| Deserializer.JavaDeserializer.ReadContentElementForTag | anr-viewer/src/lib/javaDeserialization.ts:179-203 | with the tag given, returns `Grammar.ElementForTag` and leaves its state |
| Deserializer.JavaDeserializer.ReadClass | anr-viewer/src/lib/javaDeserialization.ts:206-210 | returns `Grammar.ReadClass` and leaves its state |
| Deserializer.JavaDeserializer.ReadClassDesc | anr-viewer/src/lib/javaDeserialization.ts:212-215 | returns `Grammar.ReadClassDesc` and leaves its state |
| Deserializer.JavaDeserializer.ReadClassDescForTag | anr-viewer/src/lib/javaDeserialization.ts:217-227 | returns `Grammar.ClassDescForTag` and leaves its state |
| Deserializer.JavaDeserializer.ReadNewClassDesc | anr-viewer/src/lib/javaDeserialization.ts:228-233 | returns `Grammar.NewClassDesc` and leaves its state |
| Deserializer.JavaDeserializer.ReadClassDescRest | anr-viewer/src/lib/javaDeserialization.ts:234-254 | returns `Grammar.ClassDescRest` and leaves its state |
| Deserializer.JavaDeserializer.ReadFieldDescs | anr-viewer/src/lib/javaDeserialization.ts:234-243 | the field loop returns `Grammar.FieldDescs` and leaves its offset |
| Deserializer.JavaDeserializer.ReadFieldDesc | anr-viewer/src/lib/javaDeserialization.ts:236-242 | one pass of the field loop returns `Grammar.FieldDescAt` |
| Deserializer.JavaDeserializer.SkipClassAnnotations | anr-viewer/src/lib/javaDeserialization.ts:257-273 | returns `Grammar.SkipClassAnnotations` and leaves its state |
| Deserializer.JavaDeserializer.SkipSegment | anr-viewer/src/lib/javaDeserialization.ts:259-271 | one pass of the skip loop: ends exactly where `Grammar.SegmentAt` ends, true exactly at the end tag |
| Deserializer.JavaDeserializer.ReadNewObject | anr-viewer/src/lib/javaDeserialization.ts:275-290 | returns `Grammar.NewObject` and leaves its state |
| Deserializer.JavaDeserializer.ReadClassData | anr-viewer/src/lib/javaDeserialization.ts:292-305 | returns `Grammar.ClassData` and leaves its state |
| Deserializer.JavaDeserializer.ReadFields | anr-viewer/src/lib/javaDeserialization.ts:299-301 | the storage after the loop is the storage given with `Grammar.FieldValues` stored in order |
| Deserializer.JavaDeserializer.ReadFieldValue | anr-viewer/src/lib/javaDeserialization.ts:307-331 | returns `Grammar.FieldValue` and leaves its state |
| Deserializer.JavaDeserializer.ReadPrimitive | anr-viewer/src/lib/javaDeserialization.ts:309-324 | returns `Grammar.ReadPrimitive` and leaves its offset |
| Deserializer.JavaDeserializer.ReadAnnotationSegments | anr-viewer/src/lib/javaDeserialization.ts:333-352 | returns `Grammar.AnnotationSegments` and leaves its state |
| Deserializer.JavaDeserializer.ReadSegment | anr-viewer/src/lib/javaDeserialization.ts:336-349 | one pass of the segment loop returns `Grammar.SegmentAt` |
| Deserializer.JavaDeserializer.ReadNewArray | anr-viewer/src/lib/javaDeserialization.ts:354-389 | returns `Grammar.NewArray` and leaves its state |
| Deserializer.JavaDeserializer.ReadElements | anr-viewer/src/lib/javaDeserialization.ts:359-361 | returns `Grammar.ArrayElements` and leaves its state |
| Deserializer.JavaDeserializer.ReadPrimitives | anr-viewer/src/lib/javaDeserialization.ts:364-382 | returns `Grammar.PrimitiveElements` and leaves its offset |
| Deserializer.JavaDeserializer.ReadNewString | anr-viewer/src/lib/javaDeserialization.ts:391-397 | returns `Grammar.NewString` and leaves its state |
| Deserializer.JavaDeserializer.ReadNewLongString | anr-viewer/src/lib/javaDeserialization.ts:399-407 | returns `Grammar.NewLongString` and leaves its state |
| Deserializer.JavaDeserializer.ReadUtfString | anr-viewer/src/lib/javaDeserialization.ts:409-413 | returns `Grammar.ReadUtf` and leaves its offset |
| Materialize.ObjectValue | anr-viewer/src/lib/javaDeserialization.ts:415-476 | each registered name gets its converter: the five application classes their shapes, `ArrayList` its list, the two map classes their entries, `StringBuilder` its text, `Long` and `Integer` `Number(fields.value)`, `Boolean` the truthiness of `fields.value`; an unregistered class becomes `{__className, fields}` |
| Materialize.AnrInfoValue | anr-viewer/src/lib/javaDeserialization.ts:420-429 | the five texts are their fields or `''`, the two caches their fields or null |
| Materialize.TimeLruCacheValue | anr-viewer/src/lib/javaDeserialization.ts:430-436 | `offsetTime` and `lastPutTime` are numbers, 0 when absent and kept when numeric; `lastValue` and `linkedHashMap` are their fields or null |
| Materialize.MessageInfoValue | anr-viewer/src/lib/javaDeserialization.ts:437-445 | `msgType`, `count`, `wallTime`, `cpuTime` and `messageCreateTime` are their fields; `boxMessages` is its field or `{items: []}` |
| Materialize.BoxMessageValue | anr-viewer/src/lib/javaDeserialization.ts:446-453 | the five fields passed through under their own names |
| Materialize.ScheduledInfoValue | anr-viewer/src/lib/javaDeserialization.ts:454-459 | `dealt`, `msgId` and `start` passed through |
| Materialize.MaterializeObject | anr-viewer/src/lib/javaDeserialization.ts:415-476 | returns `ObjectValue` of the class name, fields and annotations |
| Materialize.ArrayListItems | anr-viewer/src/lib/javaDeserialization.ts:478-496 | the nested values in order, truncated to a positive declared count |
| Materialize.MaterializeArrayList | anr-viewer/src/lib/javaDeserialization.ts:478-496 | the loop returns `{items}` built from `ArrayListItems` |
| Materialize.LinkedHashMapEntries | anr-viewer/src/lib/javaDeserialization.ts:498-519 | exactly the declared number of entries (none when not positive); entry i pairs nested values 2i and 2i+1, with null for each missing one |
| Materialize.MaterializeLinkedHashMap | anr-viewer/src/lib/javaDeserialization.ts:498-519 | the loops return `{entries}` built from `LinkedHashMapEntries` |
| Materialize.FirstText | anr-viewer/src/lib/javaDeserialization.ts:525-530 | the result is empty or a nested text of the annotations |
| Materialize.MaterializeStringBuilder | anr-viewer/src/lib/javaDeserialization.ts:521-531 | the loop returns the first nested text, or empty |
| Materialize.DeclaredCount | anr-viewer/src/lib/javaDeserialization.ts:484-491 | the count is a signed 32-bit value, and 0 when no block has four bytes |
| Materialize.NestedValues | anr-viewer/src/lib/javaDeserialization.ts:488-490 | only nested values are collected |
| Materialize.ListConventionRoundTrip | anr-viewer/src/lib/javaDeserialization.ts:478-496 | annotations written in the ArrayList style (size block, then items) give back exactly the items |
| Materialize.MapConventionRoundTrip | anr-viewer/src/lib/javaDeserialization.ts:498-519 | annotations written in the map style give back one entry per pair, in order |
| Materialize.FirstTextWins | anr-viewer/src/lib/javaDeserialization.ts:525-530 | the first nested text is the one returned, whatever follows |
| Materialize.NestedValuesAppend | anr-viewer/src/lib/javaDeserialization.ts:484-491 | collecting keeps segment order across any split |
| Materialize.CountBlockThenNested | anr-viewer/src/lib/javaDeserialization.ts:485-487 | a leading block of at least four bytes declares the count as its first signed 32-bit word |
| AnrParser.ParseAnr | anr-viewer/src/lib/anrParser.ts:38-55 | a decoding failure is passed on; otherwise the result is `ReadRoot` of the decoded root |
| AnrParser.ReadRoot | anr-viewer/src/lib/anrParser.ts:40-55 | a falsy root fails with NotParsable; success exactly when the root is truthy and both caches' entries are lists; then each of `markTime`, `cpuInfo`, `systemLoad`, `mainThreadStack` and `messageQueueSample` is the root's field, or `''` when that field is absent or null, and messages and scheduling are one node per entry |
| AnrParser.EntryValue | anr-viewer/src/lib/anrParser.ts:61-61 | an entry's value, or `{}` when it is absent or null |
| AnrParser.TextField | anr-viewer/src/lib/anrParser.ts:47-51 | `root[key] ?? ''`: an absent or null field becomes `''`, any other value is kept |
| AnrParser.CacheEntries | anr-viewer/src/lib/anrParser.ts:57-86 | an absent or null `linkedHashMap` gives no entries and an array one fails; otherwise an array `entries` gives its items, an absent or null `entries` gives none, and any other `entries` fails; every failure is EntriesNotAList |
| AnrParser.MessageNodeOf | anr-viewer/src/lib/anrParser.ts:59-72 | with `value` as `entry.value ?? {}`: `key` (from the entry) and `msgType`, `wallTime`, `cpuTime`, `count`, `createdAt` (from `messageCreateTime`) are each a number, 0 when the field is absent or null and the field itself when it is a number; `boxMessages` is `value.boxMessages.items`, or `[]` when that is absent or null; without a value every number is 0 |
| AnrParser.SchedulingNodeOf | anr-viewer/src/lib/anrParser.ts:77-85 | with `value` as `entry.value ?? {}`: `key` and `dealt` are numbers, 0 when absent or null and kept when numeric; `msgId` is `value.msgId`; `start` is the truthiness of `value.start`; without a value `dealt` is 0, `msgId` undefined and `start` false |
| AnrParser.ExtractMessageNodes | anr-viewer/src/lib/anrParser.ts:57-73 | one node per entry, in entry order, or EntriesNotAList |
| AnrParser.ExtractSchedulingNodes | anr-viewer/src/lib/anrParser.ts:75-86 | one node per entry, in entry order, or EntriesNotAList |
| AnrParser.Map | anr-viewer/src/lib/anrParser.ts:57-86 | `entries.map(f)` has one result per entry, each f of the entry at the same index |
| AnrParser.MapAppend | anr-viewer/src/lib/anrParser.ts:57-86 | mapping commutes with concatenation |
| AnrParser.NodesAppend | anr-viewer/src/lib/anrParser.ts:57-86 | node lists of joined entry lists are the joined node lists |
| AnrParser.MissingKeysDefault | anr-viewer/src/lib/anrParser.ts:44-53 | a truthy root whose seven keys are absent or null gives five empty texts and no nodes |
| AnrParser.EmptyTextsNullCaches | anr-viewer/src/lib/anrParser.ts:44-53 | empty texts and null caches give the empty report |
| AnrParser.EmptyAnrInfo | anr-viewer/src/lib/javaDeserialization.ts:420-429 | an `AnrInfo` with no fields set materialises to five empty texts and two null caches |
| AnrParser.EmptyAnrInfoReport | anr-viewer/src/lib/anrParser.ts:38-55 | such an `AnrInfo` reads as the empty report |
| AnrParser.MapCacheNodes | anr-viewer/src/lib/anrParser.ts:57-86 | a cache holding a materialised map yields one message node and one scheduling node per map entry |
| AnrParser.EntryKeyKept | anr-viewer/src/lib/anrParser.ts:57-86 | an integer key of a materialised entry comes through unchanged |
| AnrParser.NumberOr0 | anr-viewer/src/lib/anrParser.ts:60-69 | always a number: 0 for a missing value, a number unchanged |
| AnrParser.Hex | anr-viewer/src/lib/anrParser.ts:105 | `toString(16)` gives lower-case hex digits with no leading zero |
| AnrParser.SignedHex | anr-viewer/src/lib/anrParser.ts:105 | a minus sign exactly for negative codes, then the digits of the magnitude |
| AnrParser.HexRoundTrip | anr-viewer/src/lib/anrParser.ts:105 | the digits denote the number they were made from |
| AnrParser.SignedHexInjective | anr-viewer/src/lib/anrParser.ts:105 | different codes have different hex strings |
| AnrParser.MessageTypeToLabel | anr-viewer/src/lib/anrParser.ts:88-107 | 0x00 is NONE, 0x01 INFO, 0x02 WARN, 0x04 ANR, 0x08 JANK, 0x10 GAP and 0x20 ACTIVITY; only these seven get a name (none starts with `0`); every other code is `0x` and its hex string |
| AnrParser.LabelInjective | anr-viewer/src/lib/anrParser.ts:88-107 | no two codes share a label |
| AnrParser.MessageTypeToColor | anr-viewer/src/lib/anrParser.ts:109-124 | 0x04 is `#222`, 0x02 `#f79e1b`, 0x10 `#7dc4ff`, 0x08 `#bc80ea` and 0x20 `#4db6ac`; every other code, NONE and INFO included, is `#f06292` |
| AnrParser.ColorSeparatesHighlighted | anr-viewer/src/lib/anrParser.ts:109-124 | `#f06292` exactly for codes other than 2, 4, 8, 0x10 and 0x20; those five are named and have pairwise distinct colours |

## Left out

- Floating point: float and double values are kept as their raw bytes. Their truthiness (`!v`) is decided from the IEEE-754 bit pattern. The numeric value is not computed.
- Precision: `Number(...)` of a 64-bit value above 2^53 loses precision in JavaScript. This affects `readInt64` and the long-string length. The model keeps exact integers.
- AnrParser.MessageNodeOf: `Number(...)` of a text, array or object is modelled as NaN. JavaScript parses some of them, for example `Number("12")` is 12 and `Number([])` is 0. `AnrParser.SchedulingNodeOf` and the `Long`/`Integer` materialisers share this simplification.
- AnrParser.MessageTypeToLabel: only integer codes are modelled. A fractional or NaN `msgType` is not.
- Reader.ByteReader.Skip: fails at once on a skip past the end. The source moves the offset there, and its next read throws a range error. Every caller of skip reads next, so the outcome is the same error.
- Grammar.SkipClassAnnotations: rejects every negative TC_BLOCKDATALONG length at once with OutOfRange. The source adds the length to the offset and moves backwards. A length of -1 to -4 lands on one of the length's own 0xFF bytes, which is then read as an unknown tag. A length of -5 loops forever (see the finding). Longer jumps re-read earlier bytes of the stream.
- Aliasing: `readNewObject` binds a placeholder object, and later fields and annotations are written into it in place. In the model the handle holds `Pending(className)` until the object is finished. So a back-reference made while the object is still being read sees only the placeholder, not its later fields.
- Errors: JavaScript `Error`, `RangeError` and `TypeError` exceptions become values of the `Error` datatype. The message texts are not modelled.
- A truthy descriptor slot that holds something other than a descriptor makes `readClassData` throw a TypeError. The model fails with NotAClassDescriptor.
- Input: the `ArrayBuffer` and `DataView` are modelled as a sequence of bytes. File selection, the React interface (`App.tsx`) and the native signal-hook code of the Android library are not part of this model.
- `readContentElement(forcedTag?)` is modelled as two methods, one that reads the tag and one that takes it.
- The loop bodies of `readClassDescForTag`, `skipClassAnnotations`, `readAnnotationSegments`, `readClassData` and `readNewArray` are separate methods, each with its own contract.

## Findings

| source | as written | input that shows it | evidently intended | confidence | as-written member | corrected member |
|---|---|---|---|---|---|---|
| anr-viewer/src/lib/javaDeserialization.ts:266-268 | after `TC_BLOCKDATALONG` in class annotations, the signed 32-bit length is passed to `skip` whatever its sign, and `skip` adds it to the offset | the class-annotation bytes `7A FF FF FF FB` (length -5) move the offset back onto the `7A` tag, so the loop never ends | a negative length is rejected, as `readBytes` rejects it in `readAnnotationSegments` | not executed | GrammarFacts.BackwardBlockNeverEnds | GrammarFacts.BackwardBlockFails |
