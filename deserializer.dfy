/**
 * The decoder as the object it is: a byte reader, a handle table and the
 * next handle to hand out, all updated as the stream is read. Every reading
 * method is proved to return what the matching `Grammar` reader returns
 * from the state the method starts in, and to leave the decoder in the
 * state that reader ends in.
 */
module Deserializer {
  import opened Bytes
  import opened Values
  import opened Grammar
  import opened Reader
  import opened GrammarSteps
  import ModifiedUtf8
  import Materialize

  class JavaDeserializer {
    var reader: ByteReader
    var handles: map<int, Value>
    var nextHandle: int

    /** The decoding state the grammar speaks of. */
    ghost function State(): St
      reads this, reader
    {
      St(reader.offset, handles, nextHandle)
    }

    ghost predicate Valid()
      reads this, reader
    {
      Grammar.Valid(reader.data, State())
    }

    /**
     * `r` is what the grammar's reading `p` yields, and after a success the
     * decoder is in the state `p` ends in.
     */
    ghost predicate Yields<T>(r: Result<T>, p: Parsed<T>)
      reads this, reader
    {
      r == Outcome(p) && (p.Ok? ==> State() == p.st)
    }

    constructor()
      ensures handles == map[] && nextHandle == BASE_HANDLE
    {
      reader := new ByteReader([]);
      handles := map[];
      nextHandle := BASE_HANDLE;
    }

    /**
     * `deserialize`: a fresh reader and an empty table, the magic, the
     * version word, then one element.
     */
    method Deserialize(buffer: seq<byte>) returns (r: Result<Value>)
      modifies this
      ensures r == Grammar.Deserialize(buffer)
    {
      reader := new ByteReader(buffer);
      handles := map[];
      nextHandle := BASE_HANDLE;
      var magic := reader.ReadUint16();
      if magic.Failure? {
        return Failure(magic.error);
      }
      if magic.value != STREAM_MAGIC {
        return Failure(InvalidMagic);
      }
      var version := reader.ReadUint16();
      if version.Failure? {
        return Failure(version.error);
      }
      assert State() == Start(4);
      r := ReadContentElement();
    }

    /** `assignHandle`: the next handle is bound to `value` and returned. */
    method AssignHandle(value: Value) returns (handle: int)
      requires Valid()
      modifies this
      ensures reader == old(reader) && Valid()
      ensures handle == old(nextHandle) && State() == Assign(old(State()), value)
    {
      handle := nextHandle;
      nextHandle := nextHandle + 1;
      handles := handles[handle := value];
    }

    /** `setHandle`: a handle already handed out is bound to `value`. */
    method SetHandle(handle: int, value: Value)
      requires Valid() && handle in handles
      modifies this
      ensures reader == old(reader) && Valid()
      ensures State() == Rebind(old(State()), handle, value)
    {
      handles := handles[handle := value];
    }

    /** `readUtfString`: a 16-bit length, then that many bytes of modified UTF-8. */
    method ReadUtfString() returns (r: Result<JString>)
      requires Valid()
      modifies reader
      ensures Yields(r, ReadUtf(reader.data, old(State())))
    {
      ghost var st0 := State();
      var length := reader.ReadUint16();
      if length.Failure? {
        return Failure(length.error);
      }
      var bytes := reader.ReadBytes(length.value);
      if bytes.Failure? {
        return Failure(bytes.error);
      }
      assert bytes.value == reader.data[st0.pos + 2..st0.pos + 2 + U16(reader.data, st0.pos)];
      UtfRead(reader.data, st0, bytes.value);
      var s := ModifiedUtf8.DecodeModifiedUtf8(bytes.value);
      if s.None? {
        return Failure(InvalidText);
      }
      r := Success(s.value);
    }

    /** `readNewString` */
    method ReadNewString() returns (r: Result<Value>)
      requires Valid()
      modifies this, reader
      ensures reader == old(reader) && Yields(r, NewString(reader.data, old(State())))
    {
      var s := ReadUtfString();
      if s.Failure? {
        return Failure(s.error);
      }
      var _ := AssignHandle(Text(s.value));
      r := Success(Text(s.value));
    }

    /** `readNewLongString`: the length is the 64-bit composition of two words. */
    method ReadNewLongString() returns (r: Result<Value>)
      requires Valid()
      modifies this, reader
      ensures reader == old(reader) && Yields(r, NewLongString(reader.data, old(State())))
    {
      ghost var st0 := State();
      var high := reader.ReadInt32();
      if high.Failure? {
        return Failure(high.error);
      }
      var low := reader.ReadUint32();
      if low.Failure? {
        return Failure(low.error);
      }
      var length := high.value * TWO_32 + low.value;
      assert length == I64(reader.data, st0.pos);
      var bytes := reader.ReadBytes(length);
      if bytes.Failure? {
        return Failure(bytes.error);
      }
      assert bytes.value == reader.data[st0.pos + 8..st0.pos + 8 + I64(reader.data, st0.pos)];
      LongStringRead(reader.data, st0, bytes.value);
      var s := ModifiedUtf8.DecodeModifiedUtf8(bytes.value);
      if s.None? {
        return Failure(InvalidText);
      }
      var _ := AssignHandle(Text(s.value));
      r := Success(Text(s.value));
    }

    /**
     * The primitive reads `readFieldValue` and `readNewArray` make for one
     * type code.
     */
    method ReadPrimitive(code: byte) returns (r: Result<Value>)
      requires Valid() && IsPrimitive(code)
      modifies reader
      ensures Yields(r, Grammar.ReadPrimitive(reader.data, old(State()), code))
    {
      if code == CODE_BYTE {
        var v := reader.ReadInt8();
        r := if v.Success? then Success(Int(v.value)) else Failure(v.error);
      } else if code == CODE_CHAR {
        var v := reader.ReadUint16();
        r := if v.Success? then Success(Text([v.value])) else Failure(v.error);
      } else if code == CODE_DOUBLE {
        var v := reader.ReadFloat64();
        r := if v.Success? then Success(Float(v.value)) else Failure(v.error);
      } else if code == CODE_FLOAT {
        var v := reader.ReadFloat32();
        r := if v.Success? then Success(Float(v.value)) else Failure(v.error);
      } else if code == CODE_INT {
        var v := reader.ReadInt32();
        r := if v.Success? then Success(Int(v.value)) else Failure(v.error);
      } else if code == CODE_LONG {
        var v := reader.ReadInt64();
        r := if v.Success? then Success(Int(v.value)) else Failure(v.error);
      } else if code == CODE_SHORT {
        var v := reader.ReadInt16();
        r := if v.Success? then Success(Int(v.value)) else Failure(v.error);
      } else {
        var v := reader.ReadUint8();
        r := if v.Success? then Success(Bool(v.value != 0)) else Failure(v.error);
      }
    }

    /** `readContentElement()`: reads the tag, then what it announces. */
    method ReadContentElement() returns (r: Result<Value>)
      requires Valid()
      modifies this, reader
      ensures reader == old(reader) && Yields(r, Element(reader.data, old(State())))
      decreases |reader.data| - reader.offset, 0, 0
    {
      var tag := reader.ReadUint8();
      if tag.Failure? {
        return Failure(tag.error);
      }
      r := ReadContentElementForTag(tag.value);
    }

    /** `readContentElement(tag)`: what `tag`, already read, announces. */
    method ReadContentElementForTag(tag: byte) returns (r: Result<Value>)
      requires Valid()
      modifies this, reader
      ensures reader == old(reader) && Yields(r, ElementForTag(reader.data, old(State()), tag))
      decreases |reader.data| - reader.offset, 4, 0
    {
      if tag == TC_NULL {
        r := Success(Null);
      } else if tag == TC_REFERENCE {
        var handle := reader.ReadInt32();
        if handle.Failure? {
          return Failure(handle.error);
        }
        if handle.value !in handles {
          return Failure(UnknownHandle(handle.value));
        }
        r := Success(handles[handle.value]);
      } else if tag == TC_OBJECT {
        r := ReadNewObject();
      } else if tag == TC_STRING {
        r := ReadNewString();
      } else if tag == TC_LONGSTRING {
        r := ReadNewLongString();
      } else if tag == TC_ARRAY {
        r := ReadNewArray();
      } else if tag == TC_CLASSDESC {
        r := ReadClassDescForTag(tag);
      } else if tag == TC_CLASS {
        r := ReadClass();
      } else {
        r := Failure(UnsupportedTag(tag));
      }
    }

    /** `readClass`: the descriptor is returned; its handle holds `{classDesc}`. */
    method ReadClass() returns (r: Result<Value>)
      requires Valid()
      modifies this, reader
      ensures reader == old(reader) && Yields(r, Grammar.ReadClass(reader.data, old(State())))
      decreases |reader.data| - reader.offset, 1, 0
    {
      var desc := ReadClassDesc();
      if desc.Failure? {
        return Failure(desc.error);
      }
      var _ := AssignHandle(Obj(map[Lit("classDesc") := desc.value]));
      r := desc;
    }

    /** `readClassDesc` */
    method ReadClassDesc() returns (r: Result<Value>)
      requires Valid()
      modifies this, reader
      ensures reader == old(reader) && Yields(r, Grammar.ReadClassDesc(reader.data, old(State())))
      decreases |reader.data| - reader.offset, 0, 0
    {
      var tag := reader.ReadUint8();
      if tag.Failure? {
        return Failure(tag.error);
      }
      r := ReadClassDescForTag(tag.value);
    }

    /**
     * `readClassDescForTag`: null, an unchecked back-reference, or a new
     * descriptor whose handle is handed out after its superclass is read.
     */
    method ReadClassDescForTag(tag: byte) returns (r: Result<Value>)
      requires Valid()
      modifies this, reader
      ensures reader == old(reader) && Yields(r, ClassDescForTag(reader.data, old(State()), tag))
      decreases |reader.data| - reader.offset, 1, 0
    {
      if tag == TC_NULL {
        return Success(Null);
      }
      if tag == TC_REFERENCE {
        var handle := reader.ReadInt32();
        if handle.Failure? {
          return Failure(handle.error);
        }
        return Success(if handle.value in handles then handles[handle.value] else Undefined);
      }
      if tag != TC_CLASSDESC {
        return Failure(UnexpectedClassDescTag(tag));
      }
      r := ReadNewClassDesc();
    }

    /**
     * The new-descriptor part of `readClassDescForTag`: name, version id,
     * flags, field descriptors, class annotations, superclass, and only then
     * a handle.
     */
    method ReadNewClassDesc() returns (r: Result<Value>)
      requires Valid()
      modifies this, reader
      ensures reader == old(reader) && Yields(r, NewClassDesc(reader.data, old(State())))
      decreases |reader.data| - reader.offset, 0, 0
    {
      ghost var st0 := State();
      var name := ReadUtfString();
      if name.Failure? {
        NewClassDescNoName(reader.data, st0);
        return Failure(name.error);
      }
      ghost var nameEnd := State();
      var serialHigh := reader.ReadInt32();
      if serialHigh.Failure? {
        NewClassDescShort(reader.data, st0, name.value, nameEnd);
        return Failure(serialHigh.error);
      }
      var serialLow := reader.ReadUint32();
      if serialLow.Failure? {
        NewClassDescShort(reader.data, st0, name.value, nameEnd);
        return Failure(serialLow.error);
      }
      var flags := reader.ReadUint8();
      if flags.Failure? {
        NewClassDescShort(reader.data, st0, name.value, nameEnd);
        return Failure(flags.error);
      }
      var fieldCount := reader.ReadUint16();
      if fieldCount.Failure? {
        NewClassDescShort(reader.data, st0, name.value, nameEnd);
        return Failure(fieldCount.error);
      }
      var serialVersionUID := serialHigh.value * TWO_32 + serialLow.value;
      assert serialVersionUID == I64(reader.data, nameEnd.pos);
      assert State() == Advance(nameEnd, 11);
      NewClassDescHeader(reader.data, st0, name.value, nameEnd, serialVersionUID, flags.value, fieldCount.value);
      r := ReadClassDescRest(name.value, serialVersionUID, flags.value, fieldCount.value);
    }

    /** The rest of a new descriptor, once its name, version id, flags and field count are read. */
    method ReadClassDescRest(name: JString, serialVersionUID: int, flags: byte, fieldCount: nat) returns (r: Result<Value>)
      requires Valid()
      modifies this, reader
      ensures reader == old(reader)
      ensures Yields(r, ClassDescRest(reader.data, old(State()), name, serialVersionUID, flags, fieldCount))
      decreases |reader.data| - reader.offset, 2, 0
    {
      var fields := ReadFieldDescs(fieldCount);
      if fields.Failure? {
        return Failure(fields.error);
      }
      var skipped := SkipClassAnnotations();
      if skipped.Failure? {
        return Failure(skipped.error);
      }
      var superClass := ReadClassDesc();
      if superClass.Failure? {
        return Failure(superClass.error);
      }
      var desc := Desc(ClassDesc(name, serialVersionUID, flags, fields.value, superClass.value));
      var _ := AssignHandle(desc);
      r := Success(desc);
    }

    /** The field-descriptor loop of `readClassDescForTag`. */
    method ReadFieldDescs(count: nat) returns (r: Result<seq<FieldDesc>>)
      requires Valid()
      modifies reader
      ensures Yields(r, FieldDescs(reader.data, old(State()), count))
    {
      ghost var st0 := State();
      var fields: seq<FieldDesc> := [];
      ThenNothing(FieldDescs(reader.data, st0, count));
      for i := 0 to count
        invariant Valid()
        invariant FieldDescs(reader.data, st0, count) == Then(fields, FieldDescs(reader.data, State(), count - i))
      {
        FieldDescsStep(reader.data, State(), count - i);
        var field := ReadFieldDesc();
        if field.Failure? {
          return Failure(field.error);
        }
        ThenThen(fields, [field.value], FieldDescs(reader.data, State(), count - i - 1));
        fields := fields + [field.value];
      }
      ThenAll(fields, State());
      r := Success(fields);
    }

    /** One pass of that loop: a type code, a name and, for references, a type name. */
    method ReadFieldDesc() returns (r: Result<FieldDesc>)
      requires Valid()
      modifies reader
      ensures Yields(r, FieldDescAt(reader.data, old(State())))
    {
      ghost var st0 := State();
      var typeCode := reader.ReadUint8();
      if typeCode.Failure? {
        FieldDescNoCode(reader.data, st0);
        return Failure(typeCode.error);
      }
      var fieldName := ReadUtfString();
      if fieldName.Failure? {
        FieldDescNoName(reader.data, st0);
        return Failure(fieldName.error);
      }
      FieldDescNamed(reader.data, st0, fieldName.value, State());
      var className := None;
      if typeCode.value == CODE_OBJECT || typeCode.value == CODE_ARRAY {
        var c := ReadUtfString();
        if c.Failure? {
          return Failure(c.error);
        }
        className := Some(c.value);
      }
      r := Success(FieldDesc(typeCode.value, fieldName.value, className));
    }

    /**
     * `skipClassAnnotations`: blocks are skipped, nested elements read and
     * dropped, up to the end tag. A block of negative length fails here.
     */
    method SkipClassAnnotations() returns (r: Result<()>)
      requires Valid()
      modifies this, reader
      ensures reader == old(reader) && Yields(r, Grammar.SkipClassAnnotations(reader.data, old(State())))
      decreases |reader.data| - reader.offset, 1, 0
    {
      ghost var st0 := State();
      while true
        invariant reader == old(reader) && Valid() && st0.pos <= reader.offset
        invariant Grammar.SkipClassAnnotations(reader.data, st0) == Grammar.SkipClassAnnotations(reader.data, State())
        decreases |reader.data| - reader.offset
      {
        SkipBySegment(reader.data, State());
        var ended := SkipSegment();
        if ended.Failure? {
          return Failure(ended.error);
        }
        if ended.value {
          return Success(());
        }
      }
    }

    /**
     * One pass of that loop: true at the end tag; a block is skipped, an
     * element read and dropped.
     */
    method SkipSegment() returns (r: Result<bool>)
      requires Valid()
      modifies this, reader
      ensures reader == old(reader)
      ensures var p := SegmentAt(reader.data, old(State()));
        (r.Success? <==> p.Ok?) && (p.Fail? ==> r.error == p.err) &&
        (p.Ok? ==> r.value == p.value.None? && State() == p.st)
      decreases |reader.data| - reader.offset, 0, 0
    {
      ghost var st := State();
      var tag := reader.ReadUint8();
      if tag.Failure? {
        SkipNoTag(reader.data, st);
        return Failure(tag.error);
      }
      if tag.value == TC_ENDBLOCKDATA {
        SkipEnd(reader.data, st);
        return Success(true);
      }
      if tag.value == TC_BLOCKDATA {
        var length := reader.ReadUint8();
        if length.Failure? {
          SkipNoLength(reader.data, st);
          return Failure(length.error);
        }
        SegmentBlock(reader.data, st, st.pos + 2, length.value);
        var skipped := reader.Skip(length.value);
        if skipped.Failure? {
          return Failure(skipped.error);
        }
      } else if tag.value == TC_BLOCKDATALONG {
        var length := reader.ReadInt32();
        if length.Failure? {
          SkipNoLength(reader.data, st);
          return Failure(length.error);
        }
        SegmentBlock(reader.data, st, st.pos + 5, length.value);
        var skipped := reader.Skip(length.value);
        if skipped.Failure? {
          return Failure(skipped.error);
        }
      } else {
        assert State() == Advance(st, 1);
        SegmentNested(reader.data, st);
        var e := ReadContentElementForTag(tag.value);
        if e.Failure? {
          return Failure(e.error);
        }
      }
      r := Success(false);
    }

    /**
     * `readNewObject`: a truthy descriptor, a placeholder under the next
     * handle, the class data, then the materialised value under that same
     * handle.
     */
    method ReadNewObject() returns (r: Result<Value>)
      requires Valid()
      modifies this, reader
      ensures reader == old(reader) && Yields(r, NewObject(reader.data, old(State())))
      decreases |reader.data| - reader.offset, 1, 0
    {
      var classDesc := ReadClassDesc();
      if classDesc.Failure? {
        return Failure(classDesc.error);
      }
      if !Truthy(classDesc.value) {
        return Failure(MissingClassDescriptor);
      }
      var name := PlaceholderName(classDesc.value);
      var handle := AssignHandle(Pending(name));
      var filled := ReadClassData(classDesc.value, Filled(map[], map[]));
      if filled.Failure? {
        return Failure(filled.error);
      }
      var value := Materialize.MaterializeObject(name, filled.value.fields, filled.value.annotations);
      SetHandle(handle, value);
      r := Success(value);
    }

    /**
     * `readClassData`: the superclass's data first, then this class's
     * fields, then its annotation segments when it has a write hook.
     */
    method ReadClassData(desc: Value, f: Filled) returns (r: Result<Filled>)
      requires Valid()
      modifies this, reader
      ensures reader == old(reader) && Yields(r, ClassData(reader.data, old(State()), desc, f))
      decreases |reader.data| - reader.offset, 3, Depth(desc)
    {
      if !Truthy(desc) {
        return Success(f);
      }
      if !desc.Desc? {
        return Failure(NotAClassDescriptor);
      }
      var acc := f;
      if Truthy(desc.desc.superClass) {
        var sup := ReadClassData(desc.desc.superClass, f);
        if sup.Failure? {
          return Failure(sup.error);
        }
        acc := sup.value;
      }
      var storage := ReadFields(desc.desc.fields, acc.fields);
      if storage.Failure? {
        return Failure(storage.error);
      }
      var annotations := acc.annotations;
      if desc.desc.flags % 2 == SC_WRITE_METHOD {
        var segments := ReadAnnotationSegments();
        if segments.Failure? {
          return Failure(segments.error);
        }
        annotations := annotations[desc.desc.name := segments.value];
      }
      r := Success(Filled(storage.value, annotations));
    }

    /** The field loop of `readClassData`: each value is stored under its field's name. */
    method ReadFields(fs: seq<FieldDesc>, storage: map<JString, Value>) returns (r: Result<map<JString, Value>>)
      requires Valid()
      modifies this, reader
      ensures reader == old(reader)
      ensures var p := FieldValues(reader.data, old(State()), fs);
        r == (if p.Ok? then Success(Store(storage, fs, p.value)) else Failure(p.err)) &&
        (p.Ok? ==> State() == p.st)
      decreases |reader.data| - reader.offset, 2, 0
    {
      ghost var st0 := State();
      ghost var values: seq<Value> := [];
      var fields := storage;
      ThenNothing(FieldValues(reader.data, st0, fs));
      assert fs[0..] == fs;
      for i := 0 to |fs|
        invariant reader == old(reader) && Valid() && st0.pos <= reader.offset
        invariant |values| == i && fields == Store(storage, fs[..i], values)
        invariant FieldValues(reader.data, st0, fs) == Then(values, FieldValues(reader.data, State(), fs[i..]))
      {
        ghost var st := State();
        FieldValuesStep(reader.data, st, fs, i);
        var v := ReadFieldValue(fs[i]);
        if v.Failure? {
          return Failure(v.error);
        }
        ThenThen(values, [v.value], FieldValues(reader.data, State(), fs[i + 1..]));
        StoreStep(storage, fs, values, i, v.value);
        fields := fields[fs[i].name := v.value];
        values := values + [v.value];
      }
      assert fs[..|fs|] == fs && fs[|fs|..] == [];
      ThenAll(values, State());
      r := Success(fields);
    }

    /** `readFieldValue`: the type code decides what is read. */
    method ReadFieldValue(field: FieldDesc) returns (r: Result<Value>)
      requires Valid()
      modifies this, reader
      ensures reader == old(reader) && Yields(r, FieldValue(reader.data, old(State()), field))
      decreases |reader.data| - reader.offset, 1, 0
    {
      if IsPrimitive(field.typeCode) {
        r := ReadPrimitive(field.typeCode);
      } else if field.typeCode == CODE_OBJECT || field.typeCode == CODE_ARRAY {
        r := ReadContentElement();
      } else {
        r := Failure(UnsupportedFieldType(field.typeCode));
      }
    }

    /** `readAnnotationSegments`: blocks and nested elements in order, up to the end tag. */
    method ReadAnnotationSegments() returns (r: Result<seq<Segment>>)
      requires Valid()
      modifies this, reader
      ensures reader == old(reader) && Yields(r, AnnotationSegments(reader.data, old(State())))
      decreases |reader.data| - reader.offset, 1, 0
    {
      ghost var st0 := State();
      var segments: seq<Segment> := [];
      ThenNothing(AnnotationSegments(reader.data, st0));
      while true
        invariant reader == old(reader) && Valid() && st0.pos <= reader.offset
        invariant AnnotationSegments(reader.data, st0) == Then(segments, AnnotationSegments(reader.data, State()))
        decreases |reader.data| - reader.offset
      {
        SegmentsStep(reader.data, State());
        var segment := ReadSegment();
        if segment.Failure? {
          return Failure(segment.error);
        }
        if segment.value.None? {
          break;
        }
        ThenThen(segments, [segment.value.value], AnnotationSegments(reader.data, State()));
        segments := segments + [segment.value.value];
      }
      ThenAll(segments, State());
      r := Success(segments);
    }

    /**
     * One pass of that loop: None at the end tag, else a block's bytes or
     * the element the tag announces.
     */
    method ReadSegment() returns (r: Result<Option<Segment>>)
      requires Valid()
      modifies this, reader
      ensures reader == old(reader) && Yields(r, SegmentAt(reader.data, old(State())))
      decreases |reader.data| - reader.offset, 0, 0
    {
      ghost var st := State();
      var tag := reader.ReadUint8();
      if tag.Failure? {
        SkipNoTag(reader.data, st);
        return Failure(tag.error);
      }
      if tag.value == TC_ENDBLOCKDATA {
        SkipEnd(reader.data, st);
        return Success(None);
      }
      if tag.value == TC_BLOCKDATA {
        var length := reader.ReadUint8();
        if length.Failure? {
          SkipNoLength(reader.data, st);
          return Failure(length.error);
        }
        SegmentBlock(reader.data, st, st.pos + 2, length.value);
        var bytes := reader.ReadBytes(length.value);
        if bytes.Failure? {
          return Failure(bytes.error);
        }
        r := Success(Some(Block(bytes.value)));
      } else if tag.value == TC_BLOCKDATALONG {
        var length := reader.ReadInt32();
        if length.Failure? {
          SkipNoLength(reader.data, st);
          return Failure(length.error);
        }
        SegmentBlock(reader.data, st, st.pos + 5, length.value);
        var bytes := reader.ReadBytes(length.value);
        if bytes.Failure? {
          return Failure(bytes.error);
        }
        r := Success(Some(Block(bytes.value)));
      } else {
        assert State() == Advance(st, 1);
        SegmentNested(reader.data, st);
        var value := ReadContentElementForTag(tag.value);
        if value.Failure? {
          return Failure(value.error);
        }
        r := Success(Some(Nested(value.value)));
      }
    }

    /**
     * `readNewArray`: a descriptor, a signed 32-bit length, the elements as
     * the descriptor's name says, then a handle for the array.
     */
    method ReadNewArray() returns (r: Result<Value>)
      requires Valid()
      modifies this, reader
      ensures reader == old(reader) && Yields(r, NewArray(reader.data, old(State())))
      decreases |reader.data| - reader.offset, 2, 0
    {
      var classDesc := ReadClassDesc();
      if classDesc.Failure? {
        return Failure(classDesc.error);
      }
      var length := reader.ReadInt32();
      if length.Failure? {
        return Failure(length.error);
      }
      if length.value < 0 {
        // `new Array(length)` throws a RangeError
        return Failure(OutOfRange);
      }
      var values;
      match ComponentOf(classDesc.value) {
        case Elements =>
          values := ReadElements(length.value);
        case Primitive(code) =>
          values := ReadPrimitives(code, length.value);
        case NoComponent =>
          return Failure(UnsupportedArrayComponent);
      }
      if values.Failure? {
        return Failure(values.error);
      }
      var _ := AssignHandle(Seq(values.value));
      r := Success(Seq(values.value));
    }

    /** The reference-element loop of `readNewArray`. */
    method ReadElements(count: nat) returns (r: Result<seq<Value>>)
      requires Valid()
      modifies this, reader
      ensures reader == old(reader) && Yields(r, ArrayElements(reader.data, old(State()), count))
      decreases |reader.data| - reader.offset, 1, 0
    {
      ghost var st0 := State();
      var values: seq<Value> := [];
      ThenNothing(ArrayElements(reader.data, st0, count));
      for i := 0 to count
        invariant reader == old(reader) && Valid() && st0.pos <= reader.offset
        invariant ArrayElements(reader.data, st0, count) == Then(values, ArrayElements(reader.data, State(), count - i))
      {
        ElementsStep(reader.data, State(), count - i);
        var v := ReadContentElement();
        if v.Failure? {
          return Failure(v.error);
        }
        ThenThen(values, [v.value], ArrayElements(reader.data, State(), count - i - 1));
        values := values + [v.value];
      }
      ThenAll(values, State());
      r := Success(values);
    }

    /** The primitive loops of `readNewArray`, one per component type. */
    method ReadPrimitives(code: byte, count: nat) returns (r: Result<seq<Value>>)
      requires Valid() && IsPrimitive(code)
      modifies reader
      ensures Yields(r, PrimitiveElements(reader.data, old(State()), code, count))
    {
      ghost var st0 := State();
      var values: seq<Value> := [];
      ThenNothing(PrimitiveElements(reader.data, st0, code, count));
      for i := 0 to count
        invariant Valid()
        invariant PrimitiveElements(reader.data, st0, code, count) ==
          Then(values, PrimitiveElements(reader.data, State(), code, count - i))
      {
        PrimitivesStep(reader.data, State(), code, count - i);
        var v := ReadPrimitive(code);
        if v.Failure? {
          return Failure(v.error);
        }
        ThenThen(values, [v.value], PrimitiveElements(reader.data, State(), code, count - i - 1));
        values := values + [v.value];
      }
      ThenAll(values, State());
      r := Success(values);
    }
  }
}
