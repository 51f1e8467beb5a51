/**
 * What the stream grammar guarantees: how handles are numbered and
 * resolved, which field value an object keeps, when annotations are read,
 * what an array holds, how block segments are laid out, and that skipping a
 * descriptor's annotations is reading them and throwing them away.
 */
module GrammarFacts {
  import opened Bytes
  import opened Values
  import opened Grammar
  import GrammarSteps
  import Materialize
  import ModifiedUtf8

  // ---------------------------------------------------------------------
  // Header

  /**
   * With the magic in place and a version word present, the result is the
   * one element read from position 4 with an empty handle table; the
   * version word itself is never examined.
   */
  lemma HeaderThenOneElement(data: seq<byte>)
    requires |data| >= 4 && data[0] == 0xAC && data[1] == 0xED
    ensures Deserialize(data) == Outcome(Element(data, Start(4)))
  {
  }

  /** Any other first two bytes fail with the magic error, whatever follows. */
  lemma WrongMagicFails(data: seq<byte>)
    requires |data| >= 2 && (data[0] != 0xAC || data[1] != 0xED)
    ensures Deserialize(data) == Failure(InvalidMagic)
  {
    assert U16(data, 0) / TWO_8 == data[0] && U16(data, 0) % TWO_8 == data[1];
  }

  // ---------------------------------------------------------------------
  // Handles

  /** Four bytes read the same wherever they sit. */
  lemma I32Window(data: seq<byte>, pos: nat, w: seq<byte>)
    requires Has(data, pos, 4) && |w| == 4
    requires forall i :: 0 <= i < 4 ==> data[pos + i] == w[i]
    ensures I32(data, pos) == I32(w, 0)
  {
    assert data[pos] == w[0] && data[pos + 1] == w[1] && data[pos + 2] == w[2] && data[pos + 3] == w[3];
  }

  /**
   * The k-th handle handed out (counting from 0x7E0000) resolves to the
   * value bound to it; the reference takes five bytes and changes nothing
   * else in the state.
   */
  lemma BackReference(data: seq<byte>, st: St, k: nat)
    requires Valid(data, st) && BASE_HANDLE + k < st.next && st.next < 0x8000_0000
    requires st.pos + 5 <= |data| && data[st.pos..st.pos + 5] == [TC_REFERENCE] + Int32Bytes(BASE_HANDLE + k)
    ensures BASE_HANDLE + k in st.handles
    ensures Element(data, st) == Ok(st.handles[BASE_HANDLE + k], Advance(st, 5))
  {
    ReferenceWindow(data, st.pos, BASE_HANDLE + k);
    ReferenceElement(data, st);
  }

  /** A reference to a handle not yet handed out fails with that handle. */
  lemma ForwardReferenceFails(data: seq<byte>, st: St, h: int)
    requires Valid(data, st) && st.next <= h < 0x8000_0000
    requires st.pos + 5 <= |data| && data[st.pos..st.pos + 5] == [TC_REFERENCE] + Int32Bytes(h)
    ensures Element(data, st) == Fail(UnknownHandle(h))
  {
    ReferenceWindow(data, st.pos, h);
    ReferenceElement(data, st);
  }

  /** The five bytes of a reference carry its tag and its handle. */
  lemma ReferenceWindow(data: seq<byte>, pos: nat, h: int)
    requires -0x8000_0000 <= h < 0x8000_0000
    requires pos + 5 <= |data| && data[pos..pos + 5] == [TC_REFERENCE] + Int32Bytes(h)
    ensures data[pos] == TC_REFERENCE && I32(data, pos + 1) == h
  {
    var window := data[pos..pos + 5];
    assert data[pos] == window[0];
    assert forall i :: 0 <= i < 4 ==> data[pos + 1 + i] == window[1 + i] == Int32Bytes(h)[i];
    I32Window(data, pos + 1, Int32Bytes(h));
    Int32RoundTrip(h);
  }

  /** A reference element resolves its handle in the table, or fails naming it. */
  lemma ReferenceElement(data: seq<byte>, st: St)
    requires Valid(data, st) && Has(data, st.pos, 5) && data[st.pos] == TC_REFERENCE
    ensures var h := I32(data, st.pos + 1);
      Element(data, st) == if h in st.handles then Ok(st.handles[h], Advance(st, 5)) else Fail(UnknownHandle(h))
  {
    assert Element(data, st) == Reference(data, Advance(st, 1));
  }

  /**
   * A descriptor reference is not checked: one to an unbound handle reads
   * as undefined, and an object announced with it fails for want of a
   * descriptor.
   */
  lemma UnboundDescriptorReference(data: seq<byte>, st: St, h: int)
    requires Valid(data, st) && st.next <= h < 0x8000_0000
    requires st.pos + 6 <= |data| && data[st.pos..st.pos + 6] == [TC_OBJECT, TC_REFERENCE] + Int32Bytes(h)
    ensures ReadClassDesc(data, Advance(st, 1)) == Ok(Undefined, Advance(st, 6))
    ensures Element(data, st) == Fail(MissingClassDescriptor)
  {
    assert data[st.pos] == TC_OBJECT && data[st.pos + 1..st.pos + 6] == [TC_REFERENCE] + Int32Bytes(h) by {
      var window := data[st.pos..st.pos + 6];
      assert data[st.pos] == window[0];
      assert data[st.pos + 1..st.pos + 6] == window[1..];
    }
    ReferenceWindow(data, st.pos + 1, h);
    UnboundDescriptorObject(data, st, h);
  }

  lemma UnboundDescriptorObject(data: seq<byte>, st: St, h: int)
    requires Valid(data, st) && st.next <= h && st.pos + 6 <= |data|
    requires data[st.pos] == TC_OBJECT && data[st.pos + 1] == TC_REFERENCE && I32(data, st.pos + 2) == h
    ensures ReadClassDesc(data, Advance(st, 1)) == Ok(Undefined, Advance(st, 6))
    ensures Element(data, st) == Fail(MissingClassDescriptor)
  {
    UnboundReference(data, Advance(st, 1), h);
    FalsyDescriptorFails(data, Advance(st, 1));
    ObjectElement(data, st);
  }

  lemma UnboundReference(data: seq<byte>, st: St, h: int)
    requires Valid(data, st) && st.next <= h && st.pos + 5 <= |data|
    requires data[st.pos] == TC_REFERENCE && I32(data, st.pos + 1) == h
    ensures ReadClassDesc(data, st) == Ok(Undefined, Advance(st, 5))
  {
    assert h !in st.handles;
    assert ClassDescForTag(data, Advance(st, 1), TC_REFERENCE) == Ok(Undefined, Advance(st, 5));
  }

  /** `readNewObject` refuses a falsy descriptor before taking any handle. */
  lemma FalsyDescriptorFails(data: seq<byte>, st: St)
    requires Valid(data, st) && ReadClassDesc(data, st).Ok? && !Truthy(ReadClassDesc(data, st).value)
    ensures NewObject(data, st) == Fail(MissingClassDescriptor)
  {
  }

  lemma ObjectElement(data: seq<byte>, st: St)
    requires Valid(data, st) && st.pos < |data| && data[st.pos] == TC_OBJECT
    ensures Element(data, st) == NewObject(data, Advance(st, 1))
  {
    assert Element(data, st) == ElementForTag(data, Advance(st, 1), TC_OBJECT);
  }

  /**
   * `readNewObject` rebinds the handle its placeholder took, the first one
   * handed out after the descriptor, to the materialised value.
   */
  lemma NewObjectRebinds(data: seq<byte>, st: St)
    requires Valid(data, st) && NewObject(data, st).Ok?
    ensures var c := ReadClassDesc(data, st);
      var r := NewObject(data, st);
      c.Ok? && Truthy(c.value) && Extends(c.st, r.st) &&
      st.next <= c.st.next < r.st.next &&
      c.st.next in r.st.handles && r.st.handles[c.st.next] == r.value
  {
  }

  // ---------------------------------------------------------------------
  // Field values of an object

  /** Among fields of the same name, the last one read decides the stored value. */
  lemma {:induction false} StoreLastWins(m: map<JString, Value>, fs: seq<FieldDesc>, vs: seq<Value>, k: nat)
    requires |fs| == |vs| && k < |fs|
    requires forall j :: k < j < |fs| ==> fs[j].name != fs[k].name
    ensures fs[k].name in Store(m, fs, vs) && Store(m, fs, vs)[fs[k].name] == vs[k]
  {
    var n := |fs|;
    if k < n - 1 {
      StoreLastWins(m, fs[..n - 1], vs[..n - 1], k);
    }
  }

  /** A name no field carries keeps whatever it had before. */
  lemma {:induction false} StoreKeeps(m: map<JString, Value>, fs: seq<FieldDesc>, vs: seq<Value>, name: JString)
    requires |fs| == |vs|
    requires forall j :: 0 <= j < |fs| ==> fs[j].name != name
    ensures name in Store(m, fs, vs) <==> name in m
    ensures name in m ==> Store(m, fs, vs)[name] == m[name]
  {
    var n := |fs|;
    if n > 0 {
      StoreKeeps(m, fs[..n - 1], vs[..n - 1], name);
    }
  }

  /** The superclass part of `readClassData`, read before the class's own fields. */
  ghost function SuperPart(data: seq<byte>, st: St, d: ClassDesc, f: Filled): Parsed<Filled>
    requires Valid(data, st)
  {
    if Truthy(d.superClass) then ClassData(data, st, d.superClass, f) else Ok(f, st)
  }

  /**
   * A class's own field overrides a superclass field of the same name: the
   * stored value is the one read for the class's last field of that name,
   * after all superclass data.
   */
  lemma DerivedFieldWins(data: seq<byte>, st: St, d: ClassDesc, f: Filled, k: nat)
    requires Valid(data, st) && ClassData(data, st, Desc(d), f).Ok?
    requires k < |d.fields| && forall j :: k < j < |d.fields| ==> d.fields[j].name != d.fields[k].name
    ensures var sup := SuperPart(data, st, d, f);
      sup.Ok? && FieldValues(data, sup.st, d.fields).Ok? &&
      var vals := FieldValues(data, sup.st, d.fields).value;
      var stored := ClassData(data, st, Desc(d), f).value.fields;
      k < |vals| && d.fields[k].name in stored && stored[d.fields[k].name] == vals[k]
  {
    var sup := SuperPart(data, st, d, f);
    var vals := FieldValues(data, sup.st, d.fields);
    StoreLastWins(sup.value.fields, d.fields, vals.value, k);
  }

  /** A superclass field the class does not redeclare keeps its superclass value. */
  lemma InheritedFieldKept(data: seq<byte>, st: St, d: ClassDesc, f: Filled, name: JString)
    requires Valid(data, st) && ClassData(data, st, Desc(d), f).Ok?
    requires forall j :: 0 <= j < |d.fields| ==> d.fields[j].name != name
    ensures var sup := SuperPart(data, st, d, f);
      var stored := ClassData(data, st, Desc(d), f).value.fields;
      sup.Ok? && (name in stored <==> name in sup.value.fields) &&
      (name in stored ==> stored[name] == sup.value.fields[name])
  {
    var sup := SuperPart(data, st, d, f);
    var vals := FieldValues(data, sup.st, d.fields);
    StoreKeeps(sup.value.fields, d.fields, vals.value, name);
  }

  /**
   * Annotations are read for a class exactly when its write-hook flag is
   * set, and are filed under the class's name.
   */
  lemma AnnotationsOnlyWithWriteMethod(data: seq<byte>, st: St, d: ClassDesc, f: Filled)
    requires Valid(data, st) && ClassData(data, st, Desc(d), f).Ok?
    ensures var sup := SuperPart(data, st, d, f);
      var anns := ClassData(data, st, Desc(d), f).value.annotations;
      sup.Ok? &&
      (d.flags % 2 == 0 ==> anns == sup.value.annotations) &&
      (d.flags % 2 == 1 ==> anns.Keys == sup.value.annotations.Keys + {d.name})
  {
  }

  /** Values read for primitive fields only; they bind no handle. */
  predicate AllPrimitive(fs: seq<FieldDesc>)
  {
    forall j :: 0 <= j < |fs| ==> IsPrimitive(fs[j].typeCode)
  }

  /** Total width of a list of primitive fields. */
  function Widths(fs: seq<FieldDesc>): nat
  {
    if fs == [] then 0 else PrimitiveWidth(fs[0].typeCode) + Widths(fs[1..])
  }

  /**
   * A run of primitive fields consumes exactly the sum of the type codes'
   * widths, fails only when those bytes are missing, and leaves the handle
   * table alone.
   */
  lemma {:induction false} PrimitiveFieldsConsume(data: seq<byte>, st: St, fs: seq<FieldDesc>)
    requires Valid(data, st) && AllPrimitive(fs)
    ensures FieldValues(data, st, fs).Ok? <==> Has(data, st.pos, Widths(fs))
    ensures FieldValues(data, st, fs).Ok? ==> FieldValues(data, st, fs).st == Advance(st, Widths(fs))
    decreases |fs|
  {
    if fs != [] {
      var code := fs[0].typeCode;
      var v := FieldValue(data, st, fs[0]);
      assert v == ReadPrimitive(data, st, code);
      if v.Ok? {
        assert AllPrimitive(fs[1..]) by {
          forall j | 0 <= j < |fs[1..]| ensures IsPrimitive(fs[1..][j].typeCode) {
            assert fs[1..][j] == fs[j + 1];
          }
        }
        PrimitiveFieldsConsume(data, v.st, fs[1..]);
      }
    }
  }

  // ---------------------------------------------------------------------
  // Annotation segments

  function Discard<T>(p: Parsed<T>): Parsed<()>
  {
    match p
    case Ok(_, st) => Ok((), st)
    case Fail(e) => Fail(e)
  }

  /**
   * Skipping a descriptor's class annotations reads exactly what an
   * object's annotation segments would and fails the same way; only the
   * segments are dropped.
   */
  lemma {:induction false} SkipIsDiscard(data: seq<byte>, st: St)
    requires Valid(data, st)
    ensures SkipClassAnnotations(data, st) == Discard(AnnotationSegments(data, st))
    decreases |data| - st.pos
  {
    if Has(data, st.pos, 1) {
      var tag := data[st.pos];
      if tag == TC_ENDBLOCKDATA {
      } else if tag == TC_BLOCKDATA || tag == TC_BLOCKDATALONG {
        match BlockSpan(data, st.pos + 1, tag)
        case None =>
        case Some(span) => SkipIsDiscard(data, st.(pos := span.1));
      } else {
        var e := ElementForTag(data, Advance(st, 1), tag);
        if e.Ok? {
          SkipIsDiscard(data, e.st);
        }
      }
    }
  }

  /** A block as a write hook emits it: a short block up to 255 bytes, a long one beyond. */
  function BlockBytes(b: seq<byte>): (r: seq<byte>)
    requires |b| < 0x8000_0000
    ensures |r| > |b|
  {
    if |b| < 256 then [TC_BLOCKDATA, |b|] + b
    else [TC_BLOCKDATALONG] + Int32Bytes(|b|) + b
  }

  /** The first block of an encoded run is read back as itself. */
  lemma FirstBlock(data: seq<byte>, pos: nat, b: seq<byte>)
    requires |b| < 0x8000_0000 && pos + |BlockBytes(b)| <= |data|
    requires data[pos..pos + |BlockBytes(b)|] == BlockBytes(b)
    ensures data[pos] == TC_BLOCKDATA || data[pos] == TC_BLOCKDATALONG
    ensures BlockSpan(data, pos + 1, data[pos]) == Some((pos + |BlockBytes(b)| - |b|, pos + |BlockBytes(b)|))
    ensures data[pos + |BlockBytes(b)| - |b|..pos + |BlockBytes(b)|] == b
  {
    var e := BlockBytes(b);
    var window := data[pos..pos + |e|];
    assert data[pos] == window[0] == e[0];
    if |b| < 256 {
      assert e == [TC_BLOCKDATA, |b|] + b;
      assert data[pos + 1] == window[1] == |b|;
      assert data[pos + 2..pos + |e|] == window[2..] == b;
    } else {
      var w := Int32Bytes(|b|);
      assert e == [TC_BLOCKDATALONG] + w + b;
      assert forall i :: 0 <= i < 4 ==> data[pos + 1 + i] == window[1 + i] == w[i];
      I32Window(data, pos + 1, w);
      Int32RoundTrip(|b|);
      assert data[pos + 5..pos + |e|] == window[5..] == b;
    }
  }

  /** A block segment is kept as read, and reading goes on after it. */
  lemma BlockThenRest(data: seq<byte>, st: St, span: (nat, nat), next: St, segs: seq<Segment>, end: St)
    requires Valid(data, st) && st.pos < |data|
    requires data[st.pos] == TC_BLOCKDATA || data[st.pos] == TC_BLOCKDATALONG
    requires BlockSpan(data, st.pos + 1, data[st.pos]) == Some(span)
    requires next == st.(pos := span.1) && Valid(data, next)
    requires AnnotationSegments(data, next) == Ok(segs, end)
    ensures AnnotationSegments(data, st) == Ok([Block(data[span.0..span.1])] + segs, end)
  {
    assert SegmentAt(data, st) == Ok(Some(Block(data[span.0..span.1])), st.(pos := span.1));
  }

  /** The end tag closes the sequence at once: no segment, one byte consumed. */
  lemma EndTagOnly(data: seq<byte>, st: St)
    requires Valid(data, st) && st.pos < |data| && data[st.pos] == TC_ENDBLOCKDATA
    ensures AnnotationSegments(data, st) == Ok([], Advance(st, 1))
  {
  }

  /**
   * Any other tag starts a nested element, kept as a segment ahead of the
   * ones read after it; a failing element fails the whole sequence.
   */
  lemma NestedThenRest(data: seq<byte>, st: St, next: St, v: Value, segs: seq<Segment>, end: St)
    requires Valid(data, st) && st.pos < |data|
    requires data[st.pos] !in {TC_ENDBLOCKDATA, TC_BLOCKDATA, TC_BLOCKDATALONG}
    requires ElementForTag(data, Advance(st, 1), data[st.pos]) == Ok(v, next) && Valid(data, next)
    requires AnnotationSegments(data, next) == Ok(segs, end)
    ensures AnnotationSegments(data, st) == Ok([Nested(v)] + segs, end)
  {
    assert SegmentAt(data, st) == Ok(Some(Nested(v)), next);
  }

  /** A nested element that fails ends the sequence with its error. */
  lemma NestedFails(data: seq<byte>, st: St, e: Error)
    requires Valid(data, st) && st.pos < |data|
    requires data[st.pos] !in {TC_ENDBLOCKDATA, TC_BLOCKDATA, TC_BLOCKDATALONG}
    requires ElementForTag(data, Advance(st, 1), data[st.pos]) == Fail(e)
    ensures AnnotationSegments(data, st) == Fail(e)
  {
    assert SegmentAt(data, st) == Fail(e);
  }

  // ---------------------------------------------------------------------
  // Arrays

  /**
   * A decoded array holds exactly as many elements as its non-negative
   * length says, and takes the last handle handed out, after every handle
   * its elements took.
   */
  lemma ArrayShape(data: seq<byte>, st: St)
    requires Valid(data, st) && NewArray(data, st).Ok?
    ensures var c := ReadClassDesc(data, st);
      var r := NewArray(data, st);
      c.Ok? && Has(data, c.st.pos, 4) && I32(data, c.st.pos) >= 0 &&
      ComponentOf(c.value) != NoComponent &&
      r.value.Seq? && |r.value.items| == I32(data, c.st.pos) &&
      r.st.next - 1 in r.st.handles && r.st.handles[r.st.next - 1] == r.value
  {
  }

  /** A primitive array consumes its length word plus length times the component's width. */
  lemma PrimitiveArrayBytes(data: seq<byte>, st: St)
    requires Valid(data, st) && NewArray(data, st).Ok?
    requires ReadClassDesc(data, st).Ok? && ComponentOf(ReadClassDesc(data, st).value).Primitive?
    ensures var c := ReadClassDesc(data, st);
      NewArray(data, st).st.pos ==
        c.st.pos + 4 + I32(data, c.st.pos) * PrimitiveWidth(ComponentOf(c.value).code)
  {
  }

  /** A negative length fails, whatever the component. */
  lemma NegativeArrayLengthFails(data: seq<byte>, st: St)
    requires Valid(data, st)
    requires var c := ReadClassDesc(data, st); c.Ok? && Has(data, c.st.pos, 4) && I32(data, c.st.pos) < 0
    ensures NewArray(data, st) == Fail(OutOfRange)
  {
  }

  /** `char[]` and `boolean[]` have no component reader. */
  lemma CharAndBooleanArraysUnsupported(d: ClassDesc)
    requires d.name == Lit("[C") || d.name == Lit("[Z")
    ensures ComponentOf(Desc(d)) == NoComponent
  {
    assert d.name[0] == CODE_ARRAY;
    assert d.name[1] == CODE_CHAR || d.name[1] == CODE_BOOLEAN;
  }

  /** Only a descriptor names a component; any other value read in its place fails the array. */
  lemma NoDescriptorNoComponent(data: seq<byte>, st: St)
    requires Valid(data, st)
    requires var c := ReadClassDesc(data, st); c.Ok? && !c.value.Desc? && Has(data, c.st.pos, 4) && I32(data, c.st.pos) >= 0
    ensures NewArray(data, st) == Fail(UnsupportedArrayComponent)
  {
  }

  // ---------------------------------------------------------------------
  // Tags

  /** Reset, exception and block tags are not elements. */
  lemma UnsupportedTags(data: seq<byte>, st: St)
    requires Valid(data, st) && st.pos < |data|
    requires data[st.pos] in {TC_RESET, TC_EXCEPTION, TC_BLOCKDATA, TC_BLOCKDATALONG, TC_ENDBLOCKDATA}
    ensures Element(data, st) == Fail(UnsupportedTag(data[st.pos]))
  {
  }

  /** An element tag in place of a descriptor tag fails. */
  lemma UnexpectedDescriptorTag(data: seq<byte>, st: St)
    requires Valid(data, st) && st.pos < |data|
    requires data[st.pos] !in {TC_NULL, TC_REFERENCE, TC_CLASSDESC}
    ensures ReadClassDesc(data, st) == Fail(UnexpectedClassDescTag(data[st.pos]))
  {
  }

  /** `TC_OBJECT TC_NULL` is an object without a descriptor. */
  lemma NullDescriptorFails(data: seq<byte>, st: St)
    requires Valid(data, st) && st.pos + 2 <= |data|
    requires data[st.pos] == TC_OBJECT && data[st.pos + 1] == TC_NULL
    ensures Element(data, st) == Fail(MissingClassDescriptor)
  {
    NullDescriptor(data, Advance(st, 1));
    FalsyDescriptorFails(data, Advance(st, 1));
    ObjectElement(data, st);
  }

  lemma NullDescriptor(data: seq<byte>, st: St)
    requires Valid(data, st) && st.pos < |data| && data[st.pos] == TC_NULL
    ensures ReadClassDesc(data, st) == Ok(Null, Advance(st, 1))
  {
    assert ReadClassDesc(data, st) == ClassDescForTag(data, Advance(st, 1), TC_NULL);
  }

  // ---------------------------------------------------------------------
  // The negative block length in class annotations

  /** The outcome of one pass of the skipping loop as written, over an unbounded offset. */
  datatype SkipStep = Done(offset: int) | Again(offset: int) | ElementAt(offset: int) | RangeError

  /**
   * One pass of `skipClassAnnotations` as the source writes it: the length
   * after TC_BLOCKDATALONG is added to the offset whatever its sign, and a
   * skip past the end is noticed only by the next read.
   */
  function SkipStepAsWritten(data: seq<byte>, offset: int): SkipStep
  {
    if !(0 <= offset < |data|) then RangeError
    else
      var tag := data[offset];
      if tag == TC_ENDBLOCKDATA then Done(offset + 1)
      else if tag == TC_BLOCKDATA then
        if offset + 1 < |data| then Again(offset + 2 + data[offset + 1]) else RangeError
      else if tag == TC_BLOCKDATALONG then
        if Has(data, offset + 1, 4) then Again(offset + 5 + I32(data, offset + 1)) else RangeError
      else ElementAt(offset + 1)
  }

  /** `n` passes of the loop, as long as each pass asks for another. */
  function SkipLoopAsWritten(data: seq<byte>, offset: int, n: nat): SkipStep
    decreases n
  {
    if n == 0 then Again(offset)
    else
      match SkipStepAsWritten(data, offset)
      case Again(o) => SkipLoopAsWritten(data, o, n - 1)
      case other => other
  }

  const BACKWARD_BLOCK: seq<byte> := [TC_BLOCKDATALONG, 0xFF, 0xFF, 0xFF, 0xFB]

  /** A long block of length -5 sends the offset back onto its own tag. */
  lemma BackwardBlockReturns()
    ensures SkipStepAsWritten(BACKWARD_BLOCK, 0) == Again(0)
  {
    assert I32(BACKWARD_BLOCK, 1) == -5;
  }

  /** So the loop as written never finishes on these five bytes: every number of passes asks for another. */
  lemma {:induction false} BackwardBlockNeverEnds(n: nat)
    ensures SkipLoopAsWritten(BACKWARD_BLOCK, 0, n) == Again(0)
  {
    if n > 0 {
      BackwardBlockReturns();
      BackwardBlockNeverEnds(n - 1);
    }
  }

  /** The model rejects a negative length instead, so the same bytes fail. */
  lemma BackwardBlockFails(st: St)
    requires Valid(BACKWARD_BLOCK, st) && st.pos == 0
    ensures SkipClassAnnotations(BACKWARD_BLOCK, st) == Fail(OutOfRange)
  {
    assert I32(BACKWARD_BLOCK, 1) == -5;
  }

  /**
   * One pass of the loop as written and the modelled skip agree on how
   * they stop: both end after the end tag, and both fail on a stream
   * that is too short.
   */
  lemma AsWrittenStopAgrees(data: seq<byte>, st: St)
    requires Valid(data, st)
    ensures SkipStepAsWritten(data, st.pos).Done? ==>
      SkipClassAnnotations(data, st) == Ok((), st.(pos := SkipStepAsWritten(data, st.pos).offset))
    ensures SkipStepAsWritten(data, st.pos).RangeError? ==>
      SkipClassAnnotations(data, st) == Fail(OutOfRange)
  {
    if st.pos < |data| && (data[st.pos] == TC_BLOCKDATA || data[st.pos] == TC_BLOCKDATALONG) {
      assert BlockSpan(data, st.pos + 1, data[st.pos]).None? || SkipStepAsWritten(data, st.pos).Again?;
    }
  }

  /**
   * A short block that ends inside the stream: the loop as written and the
   * modelled skip both go on from the offset just past its bytes.
   */
  lemma AsWrittenShortBlockAgrees(data: seq<byte>, st: St)
    requires Valid(data, st) && Has(data, st.pos, 2) && data[st.pos] == TC_BLOCKDATA
    requires st.pos + 2 + data[st.pos + 1] <= |data|
    ensures SkipStepAsWritten(data, st.pos) == Again(st.pos + 2 + data[st.pos + 1])
    ensures SkipClassAnnotations(data, st) == SkipClassAnnotations(data, st.(pos := st.pos + 2 + data[st.pos + 1]))
  {
    assert SkipStepAsWritten(data, st.pos) == Again(st.pos + 2 + data[st.pos + 1]);
    GrammarSteps.SegmentBlock(data, st, st.pos + 2, data[st.pos + 1]);
    GrammarSteps.SkipBySegment(data, st);
  }

  /**
   * Likewise for a long block whose length is not negative. A negative
   * length is where the two part: see BackwardBlockNeverEnds.
   */
  lemma AsWrittenLongBlockAgrees(data: seq<byte>, st: St)
    requires Valid(data, st) && Has(data, st.pos, 5) && data[st.pos] == TC_BLOCKDATALONG
    requires 0 <= I32(data, st.pos + 1) && st.pos + 5 + I32(data, st.pos + 1) <= |data|
    ensures SkipStepAsWritten(data, st.pos) == Again(st.pos + 5 + I32(data, st.pos + 1))
    ensures SkipClassAnnotations(data, st) == SkipClassAnnotations(data, st.(pos := st.pos + 5 + I32(data, st.pos + 1)))
  {
    assert SkipStepAsWritten(data, st.pos) == Again(st.pos + 5 + I32(data, st.pos + 1));
    GrammarSteps.SegmentBlock(data, st, st.pos + 5, I32(data, st.pos + 1));
    GrammarSteps.SkipBySegment(data, st);
  }

  // ---------------------------------------------------------------------
  // Small streams

  /** `TC_NULL` after the header decodes to null. */
  lemma NullStream()
    ensures Deserialize([0xAC, 0xED, 0x00, 0x05, TC_NULL]) == Success(Null)
  {
    var data: seq<byte> := [0xAC, 0xED, 0x00, 0x05, TC_NULL];
    assert U16(data, 0) == STREAM_MAGIC;
    assert Element(data, Start(4)) == Ok(Null, Start(5));
  }

  /** A two-letter string after the header decodes to its text. */
  lemma StringStream()
    ensures Deserialize([0xAC, 0xED, 0x00, 0x05, TC_STRING, 0x00, 0x02, 0x68, 0x69]) == Success(Text([0x68, 0x69]))
  {
    var data: seq<byte> := [0xAC, 0xED, 0x00, 0x05, TC_STRING, 0x00, 0x02, 0x68, 0x69];
    assert U16(data, 0) == STREAM_MAGIC;
    assert U16(data, 5) == 2;
    assert data[7..9] == [0x68, 0x69];
    ModifiedUtf8.AsciiDecodesToItself([0x68, 0x69]);
    assert ReadUtf(data, Start(5)).value == [0x68, 0x69];
    assert Element(data, Start(4)) == NewString(data, Start(5));
  }
}
