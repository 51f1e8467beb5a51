/**
 * The grammar's readers taken one step at a time, in the shape the
 * decoder's loops and straight-line code take them: a list read is its
 * first item put in front of the rest, a new descriptor is its name and
 * fixed-width part followed by the rest, a string is its bytes decoded.
 */
module GrammarSteps {
  import opened Bytes
  import opened Values
  import opened Grammar
  import ModifiedUtf8

  /** `xs` put in front of what a successful list read returns. */
  function Then<T>(xs: seq<T>, p: Parsed<seq<T>>): (r: Parsed<seq<T>>)
    ensures p.Ok? <==> r.Ok?
    ensures p.Ok? ==> r.value == xs + p.value && r.st == p.st
    ensures p.Fail? ==> r.err == p.err
  {
    match p
    case Ok(v, st) => Ok(xs + v, st)
    case Fail(e) => Fail(e)
  }

  lemma ThenNothing<T>(p: Parsed<seq<T>>)
    ensures Then([], p) == p
  {
    if p.Ok? {
      assert [] + p.value == p.value;
    }
  }

  lemma ThenAll<T>(xs: seq<T>, st: St)
    ensures Then(xs, Ok([], st)) == Ok(xs, st)
  {
    assert xs + [] == xs;
  }

  lemma ThenThen<T>(xs: seq<T>, ys: seq<T>, p: Parsed<seq<T>>)
    ensures Then(xs, Then(ys, p)) == Then(xs + ys, p)
  {
    if p.Ok? {
      assert xs + (ys + p.value) == (xs + ys) + p.value;
    }
  }

  // ---------------------------------------------------------------------
  // One pass of each list reader, in the form its loop takes it

  lemma FieldDescsStep(data: seq<byte>, st: St, count: nat)
    requires Valid(data, st) && count > 0
    ensures var f := FieldDescAt(data, st);
      FieldDescs(data, st, count) ==
        if f.Fail? then Fail(f.err) else Then([f.value], FieldDescs(data, f.st, count - 1))
  {
  }

  lemma PrimitivesStep(data: seq<byte>, st: St, code: byte, count: nat)
    requires Valid(data, st) && IsPrimitive(code) && count > 0
    ensures var v := Grammar.ReadPrimitive(data, st, code);
      PrimitiveElements(data, st, code, count) ==
        if v.Fail? then Fail(v.err) else Then([v.value], PrimitiveElements(data, v.st, code, count - 1))
  {
  }

  lemma ElementsStep(data: seq<byte>, st: St, count: nat)
    requires Valid(data, st) && count > 0
    ensures var v := Element(data, st);
      ArrayElements(data, st, count) ==
        if v.Fail? then Fail(v.err) else Then([v.value], ArrayElements(data, v.st, count - 1))
  {
  }

  lemma FieldValuesStep(data: seq<byte>, st: St, fs: seq<FieldDesc>, i: nat)
    requires Valid(data, st) && i < |fs|
    ensures var v := FieldValue(data, st, fs[i]);
      FieldValues(data, st, fs[i..]) ==
        if v.Fail? then Fail(v.err) else Then([v.value], FieldValues(data, v.st, fs[i + 1..]))
  {
    assert fs[i..][0] == fs[i] && fs[i..][1..] == fs[i + 1..];
  }

  lemma SegmentsStep(data: seq<byte>, st: St)
    requires Valid(data, st)
    ensures var s := SegmentAt(data, st);
      AnnotationSegments(data, st) ==
        if s.Fail? then Fail(s.err)
        else if s.value.None? then Ok([], s.st)
        else Then([s.value.value], AnnotationSegments(data, s.st))
  {
  }

  /** A string whose bytes are all there: its text, or InvalidText. */
  lemma UtfRead(data: seq<byte>, st: St, bytes: seq<byte>)
    requires Valid(data, st) && Has(data, st.pos, 2) && Has(data, st.pos + 2, U16(data, st.pos))
    requires bytes == data[st.pos + 2..st.pos + 2 + U16(data, st.pos)]
    ensures ReadUtf(data, st) ==
      match ModifiedUtf8.Decode(bytes)
      case None => Fail(InvalidText)
      case Some(text) => Ok(text, Advance(st, 2 + U16(data, st.pos)))
  {
  }

  /** A long string whose bytes are all there: its text, or InvalidText. */
  lemma LongStringRead(data: seq<byte>, st: St, bytes: seq<byte>)
    requires Valid(data, st) && Has(data, st.pos, 8) && Has(data, st.pos + 8, I64(data, st.pos))
    requires bytes == data[st.pos + 8..st.pos + 8 + I64(data, st.pos)]
    ensures NewLongString(data, st) ==
      match ModifiedUtf8.Decode(bytes)
      case None => Fail(InvalidText)
      case Some(text) => Ok(Text(text), Assign(Advance(st, 8 + I64(data, st.pos)), Text(text)))
  {
  }

  lemma NewClassDescNoName(data: seq<byte>, st: St)
    requires Valid(data, st) && ReadUtf(data, st).Fail?
    ensures NewClassDesc(data, st) == Fail(ReadUtf(data, st).err)
  {
  }

  lemma NewClassDescShort(data: seq<byte>, st: St, name: JString, nameEnd: St)
    requires Valid(data, st) && ReadUtf(data, st) == Ok(name, nameEnd) && !Has(data, nameEnd.pos, 11)
    ensures NewClassDesc(data, st) == Fail(OutOfRange)
  {
  }

  lemma NewClassDescHeader(data: seq<byte>, st: St, name: JString, nameEnd: St, uid: int, flags: byte, count: nat)
    requires Valid(data, st) && ReadUtf(data, st) == Ok(name, nameEnd) && Has(data, nameEnd.pos, 11)
    requires uid == I64(data, nameEnd.pos) && flags == data[nameEnd.pos + 8] && count == U16(data, nameEnd.pos + 9)
    ensures NewClassDesc(data, st) == ClassDescRest(data, Advance(nameEnd, 11), name, uid, flags, count)
  {
    var n := ReadUtf(data, st);
    assert n.st == nameEnd && n.value == name;
    var p := n.st.pos;
    assert NewClassDesc(data, st) == ClassDescRest(data, Advance(n.st, 11), n.value, I64(data, p), data[p + 8], U16(data, p + 9));
  }

  lemma StoreStep(m: map<JString, Value>, fs: seq<FieldDesc>, vs: seq<Value>, i: nat, v: Value)
    requires i < |fs| && |vs| == i
    ensures Store(m, fs[..i + 1], vs + [v]) == Store(m, fs[..i], vs)[fs[i].name := v]
  {
    assert fs[..i + 1][..i] == fs[..i];
    assert (vs + [v])[..i] == vs;
  }

  // ---------------------------------------------------------------------
  // Field descriptors

  lemma FieldDescNoCode(data: seq<byte>, st: St)
    requires Valid(data, st) && !Has(data, st.pos, 1)
    ensures FieldDescAt(data, st) == Fail(OutOfRange)
  {
  }

  lemma FieldDescNoName(data: seq<byte>, st: St)
    requires Valid(data, st) && Has(data, st.pos, 1) && ReadUtf(data, Advance(st, 1)).Fail?
    ensures FieldDescAt(data, st) == Fail(ReadUtf(data, Advance(st, 1)).err)
  {
  }

  /** After the name, only a reference type reads a type name. */
  lemma FieldDescNamed(data: seq<byte>, st: St, name: JString, nameEnd: St)
    requires Valid(data, st) && Has(data, st.pos, 1) && ReadUtf(data, Advance(st, 1)) == Ok(name, nameEnd)
    ensures data[st.pos] != CODE_OBJECT && data[st.pos] != CODE_ARRAY ==>
      FieldDescAt(data, st) == Ok(FieldDesc(data[st.pos], name, None), nameEnd)
    ensures data[st.pos] == CODE_OBJECT || data[st.pos] == CODE_ARRAY ==>
      FieldDescAt(data, st) ==
        match ReadUtf(data, nameEnd)
        case Fail(e) => Fail(e)
        case Ok(c, end) => Ok(FieldDesc(data[st.pos], name, Some(c)), end)
  {
  }

  // ---------------------------------------------------------------------
  // One pass of the annotation loops

  lemma SkipNoTag(data: seq<byte>, st: St)
    requires Valid(data, st) && !Has(data, st.pos, 1)
    ensures SkipClassAnnotations(data, st) == Fail(OutOfRange)
    ensures SegmentAt(data, st) == Fail(OutOfRange)
  {
  }

  lemma SkipEnd(data: seq<byte>, st: St)
    requires Valid(data, st) && Has(data, st.pos, 1) && data[st.pos] == TC_ENDBLOCKDATA
    ensures SkipClassAnnotations(data, st) == Ok((), Advance(st, 1))
    ensures SegmentAt(data, st) == Ok(None, Advance(st, 1))
  {
  }

  /** A block tag whose length is not all there. */
  predicate LengthMissing(data: seq<byte>, pos: nat)
    requires pos < |data|
  {
    (data[pos] == TC_BLOCKDATA && !Has(data, pos + 1, 1)) ||
    (data[pos] == TC_BLOCKDATALONG && !Has(data, pos + 1, 4))
  }

  lemma SkipNoLength(data: seq<byte>, st: St)
    requires Valid(data, st) && Has(data, st.pos, 1) && LengthMissing(data, st.pos)
    ensures SkipClassAnnotations(data, st) == Fail(OutOfRange)
    ensures SegmentAt(data, st) == Fail(OutOfRange)
  {
  }

  /** A block's bytes start at `start` and number `len`, as its tag and length say. */
  predicate BlockAt(data: seq<byte>, pos: nat, start: int, len: int)
    requires pos < |data|
  {
    (data[pos] == TC_BLOCKDATA && Has(data, pos + 1, 1) && start == pos + 2 && len == data[pos + 1]) ||
    (data[pos] == TC_BLOCKDATALONG && Has(data, pos + 1, 4) && start == pos + 5 && len == I32(data, pos + 1))
  }

  lemma SegmentBlock(data: seq<byte>, st: St, start: int, len: int)
    requires Valid(data, st) && Has(data, st.pos, 1) && BlockAt(data, st.pos, start, len)
    ensures !Has(data, start, len) ==> SegmentAt(data, st) == Fail(OutOfRange)
    ensures Has(data, start, len) ==>
      SegmentAt(data, st) == Ok(Some(Block(data[start..start + len])), st.(pos := start + len))
  {
  }

  /** Any other tag announces an element. */
  lemma SegmentNested(data: seq<byte>, st: St)
    requires Valid(data, st) && Has(data, st.pos, 1)
    requires data[st.pos] != TC_ENDBLOCKDATA && data[st.pos] != TC_BLOCKDATA && data[st.pos] != TC_BLOCKDATALONG
    ensures var e := ElementForTag(data, Advance(st, 1), data[st.pos]);
      SegmentAt(data, st) == if e.Fail? then Fail(e.err) else Ok(Some(Nested(e.value)), e.st)
  {
  }

  /** Skipping is reading segments one pass at a time and keeping none. */
  lemma SkipBySegment(data: seq<byte>, st: St)
    requires Valid(data, st)
    ensures var s := SegmentAt(data, st);
      SkipClassAnnotations(data, st) ==
        if s.Fail? then Fail(s.err)
        else if s.value.None? then Ok((), s.st)
        else SkipClassAnnotations(data, s.st)
  {
  }
}
