/**
 * The object-stream grammar the decoder accepts, as functions over the
 * input bytes and a decoding state: the read position, the handle table and
 * the next handle to hand out. Every reader returns the value it read and
 * the state after it, or the error that ends the whole decoding.
 *
 * Termination: every reader is measured by the bytes still unread, then by
 * a rank that orders the readers calling each other at the same position,
 * then by what is left of a descriptor chain, a field list or an array.
 */
module Grammar {
  import opened Bytes
  import opened Values
  import ModifiedUtf8
  import Materialize

  const STREAM_MAGIC := 0xACED
  const BASE_HANDLE := 0x7E_0000

  const TC_NULL: byte := 0x70
  const TC_REFERENCE: byte := 0x71
  const TC_CLASSDESC: byte := 0x72
  const TC_OBJECT: byte := 0x73
  const TC_STRING: byte := 0x74
  const TC_ARRAY: byte := 0x75
  const TC_CLASS: byte := 0x76
  const TC_BLOCKDATA: byte := 0x77
  const TC_ENDBLOCKDATA: byte := 0x78
  const TC_RESET: byte := 0x79
  const TC_BLOCKDATALONG: byte := 0x7A
  const TC_EXCEPTION: byte := 0x7B
  const TC_LONGSTRING: byte := 0x7C

  /** The class flag saying its write hook appended data after the fields. */
  const SC_WRITE_METHOD: byte := 0x01

  // Field type codes, as the ASCII letters of the stream.
  const CODE_BYTE: byte := 0x42      // 'B'
  const CODE_CHAR: byte := 0x43      // 'C'
  const CODE_DOUBLE: byte := 0x44    // 'D'
  const CODE_FLOAT: byte := 0x46     // 'F'
  const CODE_INT: byte := 0x49       // 'I'
  const CODE_LONG: byte := 0x4A      // 'J'
  const CODE_OBJECT: byte := 0x4C    // 'L'
  const CODE_SHORT: byte := 0x53     // 'S'
  const CODE_BOOLEAN: byte := 0x5A   // 'Z'
  const CODE_ARRAY: byte := 0x5B     // '['

  /** Read position, handle table, next handle. */
  datatype St = St(pos: nat, handles: map<int, Value>, next: int)

  datatype Parsed<+T> = Ok(value: T, st: St) | Fail(err: Error)

  /** An object's field values and its classes' annotation segments, keyed by class name. */
  datatype Filled = Filled(fields: map<JString, Value>, annotations: map<JString, seq<Segment>>)

  /** The handles bound are exactly the ones handed out so far, from the base on. */
  ghost predicate Numbered(st: St)
  {
    BASE_HANDLE <= st.next && forall h :: h in st.handles <==> BASE_HANDLE <= h < st.next
  }

  ghost predicate Valid(data: seq<byte>, st: St)
  {
    st.pos <= |data| && Numbered(st)
  }

  /**
   * `st'` comes after `st`: the position and the counter only grow, and
   * every handle bound in `st` keeps its value.
   */
  ghost predicate Extends(st: St, st': St)
  {
    st.pos <= st'.pos && st.next <= st'.next &&
    forall h :: h in st.handles ==> h in st'.handles && st'.handles[h] == st.handles[h]
  }

  /** The state a decoding starts from: an empty table and the base handle. */
  function Start(pos: nat): (st: St)
    ensures Numbered(st) && st.handles == map[]
  {
    St(pos, map[], BASE_HANDLE)
  }

  function Advance(st: St, n: nat): St
  {
    st.(pos := st.pos + n)
  }

  /** `assignHandle`: binds the next handle to `v` and moves the counter on by one. */
  function Assign(st: St, v: Value): (r: St)
    requires Numbered(st)
    ensures Numbered(r) && Extends(st, r) && r.pos == st.pos
    ensures st.next !in st.handles && st.next in r.handles && r.handles[st.next] == v && r.next == st.next + 1
    ensures forall h :: h in r.handles && h != st.next ==> h in st.handles
  {
    st.(handles := st.handles[st.next := v], next := st.next + 1)
  }

  /** `setHandle`: rebinds a handle already handed out. */
  function Rebind(st: St, h: int, v: Value): (r: St)
    requires Numbered(st) && h in st.handles
    ensures Numbered(r) && h in r.handles && r.handles[h] == v && r.pos == st.pos && r.next == st.next
    ensures forall k :: k in st.handles && k != h ==> r.handles[k] == st.handles[k]
  {
    st.(handles := st.handles[h := v])
  }

  function Outcome<T>(p: Parsed<T>): Result<T>
  {
    match p
    case Ok(v, _) => Success(v)
    case Fail(e) => Failure(e)
  }

  // ---------------------------------------------------------------------
  // Fixed-width reads

  predicate IsPrimitive(code: int)
  {
    code == CODE_BYTE || code == CODE_CHAR || code == CODE_DOUBLE || code == CODE_FLOAT ||
    code == CODE_INT || code == CODE_LONG || code == CODE_SHORT || code == CODE_BOOLEAN
  }

  /** Bytes a primitive of each type code takes in the stream. */
  function PrimitiveWidth(code: byte): (w: nat)
    ensures IsPrimitive(code) <==> w > 0
    ensures w <= 8
  {
    if code == CODE_BYTE || code == CODE_BOOLEAN then 1
    else if code == CODE_CHAR || code == CODE_SHORT then 2
    else if code == CODE_INT || code == CODE_FLOAT then 4
    else if code == CODE_LONG || code == CODE_DOUBLE then 8
    else 0
  }

  /**
   * The value of a primitive at `pos`. Floating-point values are kept as
   * their raw big-endian bytes.
   */
  function PrimitiveAt(data: seq<byte>, pos: nat, code: byte): Value
    requires IsPrimitive(code) && Has(data, pos, PrimitiveWidth(code))
  {
    if code == CODE_BYTE then Int(I8(data, pos))
    else if code == CODE_CHAR then Text([U16(data, pos)])
    else if code == CODE_DOUBLE then Float(data[pos..pos + 8])
    else if code == CODE_FLOAT then Float(data[pos..pos + 4])
    else if code == CODE_INT then Int(I32(data, pos))
    else if code == CODE_LONG then Int(I64(data, pos))
    else if code == CODE_SHORT then Int(I16(data, pos))
    else Bool(data[pos] != 0)
  }

  function ReadPrimitive(data: seq<byte>, st: St, code: byte): (r: Parsed<Value>)
    requires Valid(data, st) && IsPrimitive(code)
    ensures r.Ok? <==> Has(data, st.pos, PrimitiveWidth(code))
    ensures r.Ok? ==> r.st == Advance(st, PrimitiveWidth(code)) && Valid(data, r.st)
    ensures r.Fail? ==> r.err == OutOfRange
  {
    if Has(data, st.pos, PrimitiveWidth(code)) then
      Ok(PrimitiveAt(data, st.pos, code), Advance(st, PrimitiveWidth(code)))
    else Fail(OutOfRange)
  }

  /** `readUtfString`: a 16-bit length, then that many bytes of modified UTF-8. */
  function ReadUtf(data: seq<byte>, st: St): (r: Parsed<JString>)
    requires Valid(data, st)
    ensures r.Ok? ==> (Has(data, st.pos, 2) &&
      r.st == Advance(st, 2 + U16(data, st.pos)) && Valid(data, r.st) &&
      ModifiedUtf8.Decode(data[st.pos + 2..r.st.pos]) == Some(r.value))
    ensures r.Fail? ==> r.err == OutOfRange || r.err == InvalidText
  {
    if !Has(data, st.pos, 2) then Fail(OutOfRange)
    else
      var len := U16(data, st.pos);
      if !Has(data, st.pos + 2, len) then Fail(OutOfRange)
      else
        match ModifiedUtf8.Decode(data[st.pos + 2..st.pos + 2 + len])
        case None => Fail(InvalidText)
        case Some(s) => Ok(s, Advance(st, 2 + len))
  }

  /** One field descriptor: a type code, a name and, for references, a type name. */
  function FieldDescAt(data: seq<byte>, st: St): (r: Parsed<FieldDesc>)
    requires Valid(data, st)
    ensures r.Ok? ==> (Valid(data, r.st) && r.st.pos >= st.pos + 3 &&
      r.st.handles == st.handles && r.st.next == st.next)
    ensures r.Ok? ==> (r.value.typeCode == data[st.pos] &&
      (r.value.className.Some? <==> r.value.typeCode == CODE_OBJECT || r.value.typeCode == CODE_ARRAY))
  {
    if !Has(data, st.pos, 1) then Fail(OutOfRange)
    else
      var code := data[st.pos];
      var name := ReadUtf(data, Advance(st, 1));
      if name.Fail? then Fail(name.err)
      else if code == CODE_OBJECT || code == CODE_ARRAY then
        var cls := ReadUtf(data, name.st);
        if cls.Fail? then Fail(cls.err)
        else Ok(FieldDesc(code, name.value, Some(cls.value)), cls.st)
      else Ok(FieldDesc(code, name.value, None), name.st)
  }

  function FieldDescs(data: seq<byte>, st: St, count: nat): (r: Parsed<seq<FieldDesc>>)
    requires Valid(data, st)
    ensures r.Ok? ==> (Valid(data, r.st) && r.st.pos >= st.pos &&
      r.st.handles == st.handles && r.st.next == st.next)
    ensures r.Ok? ==> |r.value| == count
    decreases count
  {
    if count == 0 then Ok([], st)
    else
      var f := FieldDescAt(data, st);
      if f.Fail? then Fail(f.err)
      else
        var rest := FieldDescs(data, f.st, count - 1);
        if rest.Fail? then Fail(rest.err)
        else Ok([f.value] + rest.value, rest.st)
  }

  /**
   * The bytes of a block segment whose tag was just read: a one-byte length
   * after TC_BLOCKDATA, a signed four-byte length after TC_BLOCKDATALONG.
   * None when the length or the bytes are not all there, or the length is
   * negative.
   */
  function BlockSpan(data: seq<byte>, pos: nat, tag: byte): (r: Option<(nat, nat)>)
    requires tag == TC_BLOCKDATA || tag == TC_BLOCKDATALONG
    ensures r.Some? ==> pos < r.value.0 <= r.value.1 <= |data|
  {
    if tag == TC_BLOCKDATA then
      if !Has(data, pos, 1) || !Has(data, pos + 1, data[pos]) then None
      else Some((pos + 1, pos + 1 + data[pos]))
    else
      if !Has(data, pos, 4) || !Has(data, pos + 4, I32(data, pos)) then None
      else Some((pos + 4, pos + 4 + I32(data, pos)))
  }

  /** A back-reference whose tag was just read: the handle must be bound. */
  function Reference(data: seq<byte>, st: St): (r: Parsed<Value>)
    requires Valid(data, st)
    ensures r.Ok? ==> r.st == Advance(st, 4) && Valid(data, r.st)
  {
    if !Has(data, st.pos, 4) then Fail(OutOfRange)
    else
      var h := I32(data, st.pos);
      if h in st.handles then Ok(st.handles[h], Advance(st, 4))
      else Fail(UnknownHandle(h))
  }

  /** A string of at most 65535 bytes; it takes a handle. */
  function NewString(data: seq<byte>, st: St): (r: Parsed<Value>)
    requires Valid(data, st)
    ensures r.Ok? ==> (Valid(data, r.st) && Extends(st, r.st) && r.value.Text? &&
      r.st.next == st.next + 1 && st.next in r.st.handles && r.st.handles[st.next] == r.value)
  {
    var s := ReadUtf(data, st);
    if s.Fail? then Fail(s.err)
    else Ok(Text(s.value), Assign(s.st, Text(s.value)))
  }

  /** A string with a 64-bit length; it takes a handle. */
  function NewLongString(data: seq<byte>, st: St): (r: Parsed<Value>)
    requires Valid(data, st)
    ensures r.Ok? ==> (Valid(data, r.st) && Extends(st, r.st) && r.value.Text? &&
      r.st.next == st.next + 1 && st.next in r.st.handles && r.st.handles[st.next] == r.value)
  {
    if !Has(data, st.pos, 8) then Fail(OutOfRange)
    else
      var len := I64(data, st.pos);
      if !Has(data, st.pos + 8, len) then Fail(OutOfRange)
      else
        match ModifiedUtf8.Decode(data[st.pos + 8..st.pos + 8 + len])
        case None => Fail(InvalidText)
        case Some(s) => Ok(Text(s), Assign(Advance(st, 8 + len), Text(s)))
  }

  /** How a `[`-class descriptor says its elements are read. */
  datatype Component = Elements | Primitive(code: byte) | NoComponent

  /**
   * A name starting with `[L` or `[[` holds references; otherwise the second
   * character picks one of six primitive readers. A value that is not a
   * descriptor has no name and picks nothing.
   */
  /** `classDesc?.name?.startsWith('[L') || classDesc?.name?.startsWith('[[')` */
  predicate NamesReferenceArray(v: Value)
  {
    v.Desc? && |v.desc.name| >= 2 && v.desc.name[0] == CODE_ARRAY &&
    (v.desc.name[1] == CODE_OBJECT || v.desc.name[1] == CODE_ARRAY)
  }

  /** The six component letters the primitive-array switch has a reader for: I, J, F, D, B and S. */
  predicate HasArrayReader(unit: int)
  {
    unit == CODE_INT || unit == CODE_LONG || unit == CODE_FLOAT ||
    unit == CODE_DOUBLE || unit == CODE_BYTE || unit == CODE_SHORT
  }

  function ComponentOf(v: Value): (c: Component)
    ensures c == Elements <==> NamesReferenceArray(v)
    ensures c.Primitive? <==>
      !NamesReferenceArray(v) && v.Desc? && |v.desc.name| >= 2 && HasArrayReader(v.desc.name[1])
    ensures c.Primitive? ==> c.code == v.desc.name[1]
    ensures c == NoComponent <==>
      !NamesReferenceArray(v) && !(v.Desc? && |v.desc.name| >= 2 && HasArrayReader(v.desc.name[1]))
    ensures c.Primitive? ==> IsPrimitive(c.code) && c.code != CODE_CHAR && c.code != CODE_BOOLEAN
  {
    if !v.Desc? || |v.desc.name| < 2 then NoComponent
    else
      var n := v.desc.name;
      if n[0] == CODE_ARRAY && (n[1] == CODE_OBJECT || n[1] == CODE_ARRAY) then Elements
      else if n[1] == CODE_INT || n[1] == CODE_LONG || n[1] == CODE_FLOAT ||
              n[1] == CODE_DOUBLE || n[1] == CODE_BYTE || n[1] == CODE_SHORT then Primitive(n[1] as byte)
      else NoComponent
  }

  function PrimitiveElements(data: seq<byte>, st: St, code: byte, count: nat): (r: Parsed<seq<Value>>)
    requires Valid(data, st) && IsPrimitive(code)
    ensures r.Ok? <==> Has(data, st.pos, count * PrimitiveWidth(code))
    ensures r.Ok? ==> |r.value| == count && r.st == Advance(st, count * PrimitiveWidth(code))
    ensures r.Fail? ==> r.err == OutOfRange
    decreases count
  {
    if count == 0 then Ok([], st)
    else
      var v := ReadPrimitive(data, st, code);
      if v.Fail? then Fail(v.err)
      else
        var rest := PrimitiveElements(data, v.st, code, count - 1);
        if rest.Fail? then Fail(rest.err)
        else Ok([v.value] + rest.value, rest.st)
  }

  /** How many descriptors a superclass chain holds. */
  function Depth(v: Value): nat
  {
    if v.Desc? then 1 + Depth(v.desc.superClass) else 0
  }

  /** Field values in declaration order; a later field of the same name wins. */
  function Store(m: map<JString, Value>, fs: seq<FieldDesc>, vs: seq<Value>): map<JString, Value>
    requires |fs| == |vs|
  {
    if fs == [] then m
    else Store(m, fs[..|fs| - 1], vs[..|vs| - 1])[fs[|fs| - 1].name := vs[|vs| - 1]]
  }

  // ---------------------------------------------------------------------
  // The recursive readers

  /** `readContentElement()`: a tag, then what it announces. */
  function Element(data: seq<byte>, st: St): (r: Parsed<Value>)
    requires Valid(data, st)
    ensures r.Ok? ==> Valid(data, r.st) && Extends(st, r.st) && r.st.pos > st.pos
    decreases |data| - st.pos, 0, 0
  {
    if !Has(data, st.pos, 1) then Fail(OutOfRange)
    else ElementForTag(data, Advance(st, 1), data[st.pos])
  }

  /** `readContentElement(tag)`: what `tag` announces, the tag already read. */
  function ElementForTag(data: seq<byte>, st: St, tag: byte): (r: Parsed<Value>)
    requires Valid(data, st)
    ensures r.Ok? ==> Valid(data, r.st) && Extends(st, r.st)
    decreases |data| - st.pos, 4, 0
  {
    if tag == TC_NULL then Ok(Null, st)
    else if tag == TC_REFERENCE then Reference(data, st)
    else if tag == TC_OBJECT then NewObject(data, st)
    else if tag == TC_STRING then NewString(data, st)
    else if tag == TC_LONGSTRING then NewLongString(data, st)
    else if tag == TC_ARRAY then NewArray(data, st)
    else if tag == TC_CLASSDESC then ClassDescForTag(data, st, tag)
    else if tag == TC_CLASS then ReadClass(data, st)
    else Fail(UnsupportedTag(tag))
  }

  /** `readClassDesc`: a tag, then the descriptor it announces. */
  function ReadClassDesc(data: seq<byte>, st: St): (r: Parsed<Value>)
    requires Valid(data, st)
    ensures r.Ok? ==> Valid(data, r.st) && Extends(st, r.st) && r.st.pos > st.pos
    decreases |data| - st.pos, 0, 0
  {
    if !Has(data, st.pos, 1) then Fail(OutOfRange)
    else ClassDescForTag(data, Advance(st, 1), data[st.pos])
  }

  /**
   * `readClassDescForTag`: null, a back-reference (unchecked: an unbound
   * handle gives undefined), or a new descriptor.
   */
  function ClassDescForTag(data: seq<byte>, st: St, tag: byte): (r: Parsed<Value>)
    requires Valid(data, st)
    ensures r.Ok? ==> Valid(data, r.st) && Extends(st, r.st)
    decreases |data| - st.pos, 1, 0
  {
    if tag == TC_NULL then Ok(Null, st)
    else if tag == TC_REFERENCE then
      if !Has(data, st.pos, 4) then Fail(OutOfRange)
      else
        var h := I32(data, st.pos);
        Ok(if h in st.handles then st.handles[h] else Undefined, Advance(st, 4))
    else if tag != TC_CLASSDESC then Fail(UnexpectedClassDescTag(tag))
    else NewClassDesc(data, st)
  }

  /**
   * A new descriptor: name, then the fixed-width part (64-bit version id,
   * flags, field count), then the rest.
   */
  function NewClassDesc(data: seq<byte>, st: St): (r: Parsed<Value>)
    requires Valid(data, st)
    ensures r.Ok? ==> (Valid(data, r.st) && Extends(st, r.st) && r.value.Desc? &&
      r.st.next - 1 in r.st.handles && r.st.handles[r.st.next - 1] == r.value)
    decreases |data| - st.pos, 0, 0
  {
    var name := ReadUtf(data, st);
    if name.Fail? then Fail(name.err)
    else
      var p := name.st.pos;
      if !Has(data, p, 11) then Fail(OutOfRange)
      else ClassDescRest(data, Advance(name.st, 11), name.value, I64(data, p), data[p + 8], U16(data, p + 9))
  }

  /**
   * The rest of a new descriptor: field descriptors, class annotations
   * (skipped), superclass. Its handle is handed out only after the
   * superclass is read.
   */
  function ClassDescRest(data: seq<byte>, st: St, name: JString, uid: int, flags: byte, count: nat): (r: Parsed<Value>)
    requires Valid(data, st)
    ensures r.Ok? ==> (Valid(data, r.st) && Extends(st, r.st) && r.value.Desc? &&
      r.st.next - 1 in r.st.handles && r.st.handles[r.st.next - 1] == r.value)
    decreases |data| - st.pos, 1, 0
  {
    var fields := FieldDescs(data, st, count);
    if fields.Fail? then Fail(fields.err)
    else
      var skipped := SkipClassAnnotations(data, fields.st);
      if skipped.Fail? then Fail(skipped.err)
      else
        var sup := ReadClassDesc(data, skipped.st);
        if sup.Fail? then Fail(sup.err)
        else
          var d := Desc(ClassDesc(name, uid, flags, fields.value, sup.value));
          Ok(d, Assign(sup.st, d))
  }

  /** The class annotations of a descriptor, read and thrown away. */
  function SkipClassAnnotations(data: seq<byte>, st: St): (r: Parsed<()>)
    requires Valid(data, st)
    ensures r.Ok? ==> Valid(data, r.st) && Extends(st, r.st) && r.st.pos > st.pos
    decreases |data| - st.pos, 0, 0
  {
    if !Has(data, st.pos, 1) then Fail(OutOfRange)
    else
      var tag := data[st.pos];
      if tag == TC_ENDBLOCKDATA then Ok((), Advance(st, 1))
      else if tag == TC_BLOCKDATA || tag == TC_BLOCKDATALONG then
        match BlockSpan(data, st.pos + 1, tag)
        case None => Fail(OutOfRange)
        case Some(span) => SkipClassAnnotations(data, st.(pos := span.1))
      else
        var e := ElementForTag(data, Advance(st, 1), tag);
        if e.Fail? then Fail(e.err)
        else SkipClassAnnotations(data, e.st)
  }

  /**
   * One pass of `readAnnotationSegments`'s loop: the end tag (None), a block
   * of bytes, or a nested element announced by the tag just read.
   */
  function SegmentAt(data: seq<byte>, st: St): (r: Parsed<Option<Segment>>)
    requires Valid(data, st)
    ensures r.Ok? ==> Valid(data, r.st) && Extends(st, r.st) && r.st.pos > st.pos
    decreases |data| - st.pos, 0, 0
  {
    if !Has(data, st.pos, 1) then Fail(OutOfRange)
    else
      var tag := data[st.pos];
      if tag == TC_ENDBLOCKDATA then Ok(None, Advance(st, 1))
      else if tag == TC_BLOCKDATA || tag == TC_BLOCKDATALONG then
        match BlockSpan(data, st.pos + 1, tag)
        case None => Fail(OutOfRange)
        case Some(span) => Ok(Some(Block(data[span.0..span.1])), st.(pos := span.1))
      else
        var e := ElementForTag(data, Advance(st, 1), tag);
        if e.Fail? then Fail(e.err)
        else Ok(Some(Nested(e.value)), e.st)
  }

  /** `readAnnotationSegments`: blocks and nested elements in stream order, up to the end tag. */
  function AnnotationSegments(data: seq<byte>, st: St): (r: Parsed<seq<Segment>>)
    requires Valid(data, st)
    ensures r.Ok? ==> Valid(data, r.st) && Extends(st, r.st) && r.st.pos > st.pos
    decreases |data| - st.pos, 1, 0
  {
    var s := SegmentAt(data, st);
    if s.Fail? then Fail(s.err)
    else if s.value.None? then Ok([], s.st)
    else
      var rest := AnnotationSegments(data, s.st);
      if rest.Fail? then Fail(rest.err)
      else Ok([s.value.value] + rest.value, rest.st)
  }

  /** TC_CLASS: a descriptor; the handle holds `{classDesc}`, the caller gets the descriptor. */
  function ReadClass(data: seq<byte>, st: St): (r: Parsed<Value>)
    requires Valid(data, st)
    ensures r.Ok? ==> Valid(data, r.st) && Extends(st, r.st)
    decreases |data| - st.pos, 1, 0
  {
    var d := ReadClassDesc(data, st);
    if d.Fail? then Fail(d.err)
    else Ok(d.value, Assign(d.st, Obj(map[Lit("classDesc") := d.value])))
  }

  /** The placeholder's class name: the descriptor's name, or `unknown`. */
  function PlaceholderName(v: Value): JString
  {
    if v.Desc? then v.desc.name else Lit("unknown")
  }

  /**
   * `readNewObject`: a descriptor, which must be truthy; a placeholder takes
   * the next handle while the class data is read; the materialised value
   * then replaces it under the same handle.
   */
  function NewObject(data: seq<byte>, st: St): (r: Parsed<Value>)
    requires Valid(data, st)
    ensures r.Ok? ==> Valid(data, r.st) && Extends(st, r.st)
    decreases |data| - st.pos, 1, 0
  {
    var c := ReadClassDesc(data, st);
    if c.Fail? then Fail(c.err)
    else if !Truthy(c.value) then Fail(MissingClassDescriptor)
    else
      var name := PlaceholderName(c.value);
      var h := c.st.next;
      var filled := ClassData(data, Assign(c.st, Pending(name)), c.value, Filled(map[], map[]));
      if filled.Fail? then Fail(filled.err)
      else
        var value := Materialize.ObjectValue(name, filled.value.fields, filled.value.annotations);
        Ok(value, Rebind(filled.st, h, value))
  }

  /**
   * `readClassData`: nothing for a falsy descriptor; the superclass's data
   * (when the superclass is truthy) before the class's own; a truthy value
   * that is not a descriptor has no field list and fails.
   */
  function ClassData(data: seq<byte>, st: St, v: Value, f: Filled): (r: Parsed<Filled>)
    requires Valid(data, st)
    ensures r.Ok? ==> Valid(data, r.st) && Extends(st, r.st)
    decreases |data| - st.pos, 3, Depth(v)
  {
    if !Truthy(v) then Ok(f, st)
    else if !v.Desc? then Fail(NotAClassDescriptor)
    else
      var sup := if Truthy(v.desc.superClass) then ClassData(data, st, v.desc.superClass, f) else Ok(f, st);
      if sup.Fail? then Fail(sup.err)
      else OwnClassData(data, sup.st, v.desc, sup.value)
  }

  /** One class's own part: its fields in order, then its annotations when it has a write hook. */
  function OwnClassData(data: seq<byte>, st: St, d: ClassDesc, f: Filled): (r: Parsed<Filled>)
    requires Valid(data, st)
    ensures r.Ok? ==> Valid(data, r.st) && Extends(st, r.st)
    decreases |data| - st.pos, 3, 0
  {
    var vals := FieldValues(data, st, d.fields);
    if vals.Fail? then Fail(vals.err)
    else
      var fields := Store(f.fields, d.fields, vals.value);
      if d.flags % 2 == SC_WRITE_METHOD then
        var segs := AnnotationSegments(data, vals.st);
        if segs.Fail? then Fail(segs.err)
        else Ok(Filled(fields, f.annotations[d.name := segs.value]), segs.st)
      else Ok(Filled(fields, f.annotations), vals.st)
  }

  /** The values of the fields `fs`, read one after the other. */
  function FieldValues(data: seq<byte>, st: St, fs: seq<FieldDesc>): (r: Parsed<seq<Value>>)
    requires Valid(data, st)
    ensures r.Ok? ==> Valid(data, r.st) && Extends(st, r.st) && |r.value| == |fs|
    decreases |data| - st.pos, 2, |fs|
  {
    if fs == [] then Ok([], st)
    else
      var v := FieldValue(data, st, fs[0]);
      if v.Fail? then Fail(v.err)
      else
        var rest := FieldValues(data, v.st, fs[1..]);
        if rest.Fail? then Fail(rest.err)
        else Ok([v.value] + rest.value, rest.st)
  }

  /** `readFieldValue`: the type code decides what is read. */
  function FieldValue(data: seq<byte>, st: St, field: FieldDesc): (r: Parsed<Value>)
    requires Valid(data, st)
    ensures r.Ok? ==> Valid(data, r.st) && Extends(st, r.st) && r.st.pos > st.pos
    decreases |data| - st.pos, 1, 0
  {
    if IsPrimitive(field.typeCode) then ReadPrimitive(data, st, field.typeCode)
    else if field.typeCode == CODE_OBJECT || field.typeCode == CODE_ARRAY then Element(data, st)
    else Fail(UnsupportedFieldType(field.typeCode))
  }

  /**
   * `readNewArray`: a descriptor, a signed 32-bit length (negative fails),
   * the elements, and only then a handle for the array.
   */
  function NewArray(data: seq<byte>, st: St): (r: Parsed<Value>)
    requires Valid(data, st)
    ensures r.Ok? ==> Valid(data, r.st) && Extends(st, r.st)
    decreases |data| - st.pos, 2, 0
  {
    var c := ReadClassDesc(data, st);
    if c.Fail? then Fail(c.err)
    else if !Has(data, c.st.pos, 4) then Fail(OutOfRange)
    else
      var length := I32(data, c.st.pos);
      var st1 := Advance(c.st, 4);
      if length < 0 then Fail(OutOfRange)
      else
        var items :=
          match ComponentOf(c.value)
          case Elements => ArrayElements(data, st1, length)
          case Primitive(code) => PrimitiveElements(data, st1, code, length)
          case NoComponent => Fail(UnsupportedArrayComponent);
        if items.Fail? then Fail(items.err)
        else Ok(Seq(items.value), Assign(items.st, Seq(items.value)))
  }

  /** `count` elements, read one after the other. */
  function ArrayElements(data: seq<byte>, st: St, count: nat): (r: Parsed<seq<Value>>)
    requires Valid(data, st)
    ensures r.Ok? ==> Valid(data, r.st) && Extends(st, r.st) && |r.value| == count
    decreases |data| - st.pos, 1, count
  {
    if count == 0 then Ok([], st)
    else
      var v := Element(data, st);
      if v.Fail? then Fail(v.err)
      else
        var rest := ArrayElements(data, v.st, count - 1);
        if rest.Fail? then Fail(rest.err)
        else Ok([v.value] + rest.value, rest.st)
  }

  /**
   * `deserialize`: the magic 0xACED, a version word that is not examined,
   * then exactly one element, with a fresh handle table. Bytes after the
   * element are ignored.
   */
  function Deserialize(data: seq<byte>): (r: Result<Value>)
    ensures Has(data, 0, 2) && U16(data, 0) != STREAM_MAGIC ==> r == Failure(InvalidMagic)
    ensures |data| < 4 ==> r.Failure?
  {
    if !Has(data, 0, 2) then Failure(OutOfRange)
    else if U16(data, 0) != STREAM_MAGIC then Failure(InvalidMagic)
    else if !Has(data, 2, 2) then Failure(OutOfRange)
    else Outcome(Element(data, Start(4)))
  }
}
