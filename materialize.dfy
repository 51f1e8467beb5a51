/**
 * Turning an object's field map and per-class annotation segments into the
 * value the decoder returns for it: a handful of application classes become
 * plain objects with defaults, the list, map and string-builder conventions
 * are read from the write-hook segments, boxed scalars become numbers or
 * booleans, and every other class becomes `{__className, fields}`.
 */
module Materialize {
  import opened Bytes
  import opened Values

  const ANR_INFO := Lit("com.txl.blockmoonlighttreasurebox.info.AnrInfo")
  const TIME_LRU_CACHE := Lit("com.txl.blockmoonlighttreasurebox.cache.TimeLruCache")
  const MESSAGE_INFO := Lit("com.txl.blockmoonlighttreasurebox.info.MessageInfo")
  const BOX_MESSAGE := Lit("com.txl.blockmoonlighttreasurebox.info.BoxMessage")
  const SCHEDULED_INFO := Lit("com.txl.blockmoonlighttreasurebox.info.ScheduledInfo")
  const ARRAY_LIST := Lit("java.util.ArrayList")
  const LINKED_HASH_MAP := Lit("java.util.LinkedHashMap")
  const TIME_LINKED_HASH_MAP := Lit("com.txl.blockmoonlighttreasurebox.cache.TimeLruCache$TimeLinkedHashMap")
  const STRING_BUILDER := Lit("java.lang.StringBuilder")
  const LONG := Lit("java.lang.Long")
  const INTEGER := Lit("java.lang.Integer")
  const BOOLEAN := Lit("java.lang.Boolean")

  /** The class names with a converter of their own. */
  predicate Registered(name: JString)
  {
    name in {ANR_INFO, TIME_LRU_CACHE, MESSAGE_INFO, BOX_MESSAGE, SCHEDULED_INFO, ARRAY_LIST,
             LINKED_HASH_MAP, TIME_LINKED_HASH_MAP, STRING_BUILDER, LONG, INTEGER, BOOLEAN}
  }

  /** `fields[key]` */
  function Field(fields: map<JString, Value>, key: string): Value
  {
    if Lit(key) in fields then fields[Lit(key)] else Undefined
  }

  /**
   * The count a list or map convention declares: the signed 32-bit
   * big-endian number opening the last block of at least four bytes, or 0.
   */
  function DeclaredCount(segs: seq<Segment>): (r: int)
    ensures -0x8000_0000 <= r < 0x8000_0000
    ensures (forall k :: 0 <= k < |segs| ==> !(segs[k].Block? && |segs[k].data| >= 4)) ==> r == 0
  {
    if segs == [] then 0
    else
      var last := segs[|segs| - 1];
      if last.Block? && |last.data| >= 4 then I32(last.data, 0)
      else DeclaredCount(segs[..|segs| - 1])
  }

  /** The values of the nested-element segments, in stream order. */
  function NestedValues(segs: seq<Segment>): (r: seq<Value>)
    ensures |r| <= |segs|
    ensures forall v :: v in r ==> Nested(v) in segs
  {
    if segs == [] then []
    else
      var last := segs[|segs| - 1];
      NestedValues(segs[..|segs| - 1]) + (if last.Nested? then [last.value] else [])
  }

  /**
   * ArrayList: the nested values in order, cut to the declared count when
   * that count is positive and smaller than the number of values.
   */
  function ArrayListItems(segments: Option<seq<Segment>>): (r: seq<Value>)
    ensures segments.None? ==> r == []
    ensures segments.Some? ==>
      var values, expected := NestedValues(segments.value), DeclaredCount(segments.value);
      |r| == (if 0 < expected < |values| then expected else |values|) &&
      r == values[..|r|]
  {
    match segments
    case None => []
    case Some(segs) =>
      var values, expected := NestedValues(segs), DeclaredCount(segs);
      if expected > 0 && |values| > expected then values[..expected] else values
  }

  /** One `{key, value}` entry of a materialised map. */
  function Entry(key: Value, value: Value): Value
  {
    Obj(map[Lit("key") := key, Lit("value") := value])
  }

  /**
   * LinkedHashMap: exactly as many entries as the declared count says (none
   * when it is not positive), pairing the nested values two by two; a
   * missing or nullish value becomes null.
   */
  function LinkedHashMapEntries(segments: Option<seq<Segment>>): (r: seq<Value>)
    ensures segments.None? ==> r == []
    ensures segments.Some? ==> |r| == Max0(DeclaredCount(segments.value))
    ensures segments.Some? ==> forall i :: 0 <= i < |r| ==>
      var collected := NestedValues(segments.value);
      r[i] == Entry(Coalesce(At(collected, 2 * i), Null), Coalesce(At(collected, 2 * i + 1), Null))
  {
    match segments
    case None => []
    case Some(segs) =>
      var count, collected := DeclaredCount(segs), NestedValues(segs);
      seq(Max0(count), i requires 0 <= i < Max0(count) =>
        Entry(Coalesce(At(collected, 2 * i), Null), Coalesce(At(collected, 2 * i + 1), Null)))
  }

  function Max0(n: int): nat { if n > 0 then n else 0 }

  /** StringBuilder: the first nested text, or the empty text. */
  function FirstText(segs: seq<Segment>): (r: JString)
    ensures r == [] || Nested(Text(r)) in segs
  {
    if segs == [] then []
    else if segs[0].Nested? && segs[0].value.Text? then segs[0].value.s
    else FirstText(segs[1..])
  }

  function StringBuilderText(segments: Option<seq<Segment>>): JString
  {
    match segments
    case None => []
    case Some(segs) => FirstText(segs)
  }

  /** `annotations.get(a) ?? annotations.get(b)` */
  function SegmentsFor(annotations: map<JString, seq<Segment>>, a: JString, b: JString): Option<seq<Segment>>
  {
    if a in annotations then Some(annotations[a])
    else if b in annotations then Some(annotations[b])
    else None
  }

  function ListValue(items: seq<Value>): Value
  {
    Obj(map[Lit("items") := Seq(items)])
  }

  function MapValue(entries: seq<Value>): Value
  {
    Obj(map[Lit("entries") := Seq(entries)])
  }

  /** The twelve registered class names are pairwise distinct. */
  lemma ClassNamesDistinct()
    ensures |ANR_INFO| == 46 && |BOX_MESSAGE| == 49 && |MESSAGE_INFO| == 50 && |TIME_LRU_CACHE| == 52
    ensures |SCHEDULED_INFO| == 52 && |TIME_LINKED_HASH_MAP| == 70 && |ARRAY_LIST| == 19
    ensures |LINKED_HASH_MAP| == 23 && |STRING_BUILDER| == 23 && |LONG| == 14 && |INTEGER| == 17 && |BOOLEAN| == 17
    ensures TIME_LRU_CACHE != SCHEDULED_INFO && LINKED_HASH_MAP != STRING_BUILDER && INTEGER != BOOLEAN
  {
    assert TIME_LRU_CACHE[34] != SCHEDULED_INFO[34];
    assert LINKED_HASH_MAP[5] != STRING_BUILDER[5];
    assert INTEGER[10] != BOOLEAN[10];
  }

  /** `AnrInfo`: the five texts default to `''` and the two caches to null. */
  function AnrInfoValue(fields: map<JString, Value>): (r: Value)
    ensures r.Obj?
    ensures Defaulted(Prop(r, Lit("cpuInfo")), Field(fields, "cpuInfo"), Text([]))
    ensures Defaulted(Prop(r, Lit("mainThreadStack")), Field(fields, "mainThreadStack"), Text([]))
    ensures Defaulted(Prop(r, Lit("markTime")), Field(fields, "markTime"), Text([]))
    ensures Defaulted(Prop(r, Lit("messageQueueSample")), Field(fields, "messageQueueSample"), Text([]))
    ensures Defaulted(Prop(r, Lit("messageSamplerCache")), Field(fields, "messageSamplerCache"), Null)
    ensures Defaulted(Prop(r, Lit("scheduledSamplerCache")), Field(fields, "scheduledSamplerCache"), Null)
    ensures Defaulted(Prop(r, Lit("systemLoad")), Field(fields, "systemLoad"), Text([]))
  {
    Obj(map[
      Lit("cpuInfo") := Coalesce(Field(fields, "cpuInfo"), Text([])),
      Lit("mainThreadStack") := Coalesce(Field(fields, "mainThreadStack"), Text([])),
      Lit("markTime") := Coalesce(Field(fields, "markTime"), Text([])),
      Lit("messageQueueSample") := Coalesce(Field(fields, "messageQueueSample"), Text([])),
      Lit("messageSamplerCache") := Coalesce(Field(fields, "messageSamplerCache"), Null),
      Lit("scheduledSamplerCache") := Coalesce(Field(fields, "scheduledSamplerCache"), Null),
      Lit("systemLoad") := Coalesce(Field(fields, "systemLoad"), Text([]))])
  }

  /** `TimeLruCache`: the two times as numbers defaulting to 0, the last value and the table to null. */
  function TimeLruCacheValue(fields: map<JString, Value>): (r: Value)
    ensures r.Obj?
    ensures NumberDefaulted(Prop(r, Lit("offsetTime")), Field(fields, "offsetTime"))
    ensures NumberDefaulted(Prop(r, Lit("lastPutTime")), Field(fields, "lastPutTime"))
    ensures Defaulted(Prop(r, Lit("lastValue")), Field(fields, "lastValue"), Null)
    ensures Defaulted(Prop(r, Lit("linkedHashMap")), Field(fields, "linkedHashMap"), Null)
  {
    Obj(map[
      Lit("offsetTime") := NumberOf(Coalesce(Field(fields, "offsetTime"), Int(0))),
      Lit("lastPutTime") := NumberOf(Coalesce(Field(fields, "lastPutTime"), Int(0))),
      Lit("lastValue") := Coalesce(Field(fields, "lastValue"), Null),
      Lit("linkedHashMap") := Coalesce(Field(fields, "linkedHashMap"), Null)])
  }

  /** `MessageInfo`: five fields passed through, `boxMessages` defaulting to an empty list. */
  function MessageInfoValue(fields: map<JString, Value>): (r: Value)
    ensures r.Obj?
    ensures Prop(r, Lit("msgType")) == Field(fields, "msgType")
    ensures Prop(r, Lit("count")) == Field(fields, "count")
    ensures Prop(r, Lit("wallTime")) == Field(fields, "wallTime")
    ensures Prop(r, Lit("cpuTime")) == Field(fields, "cpuTime")
    ensures Defaulted(Prop(r, Lit("boxMessages")), Field(fields, "boxMessages"), ListValue([]))
    ensures Prop(r, Lit("messageCreateTime")) == Field(fields, "messageCreateTime")
  {
    Obj(map[
      Lit("msgType") := Field(fields, "msgType"),
      Lit("count") := Field(fields, "count"),
      Lit("wallTime") := Field(fields, "wallTime"),
      Lit("cpuTime") := Field(fields, "cpuTime"),
      Lit("boxMessages") := Coalesce(Field(fields, "boxMessages"), ListValue([])),
      Lit("messageCreateTime") := Field(fields, "messageCreateTime")])
  }

  /** `BoxMessage`: five fields passed through. */
  function BoxMessageValue(fields: map<JString, Value>): (r: Value)
    ensures r.Obj?
    ensures Prop(r, Lit("handleName")) == Field(fields, "handleName")
    ensures Prop(r, Lit("handlerAddress")) == Field(fields, "handlerAddress")
    ensures Prop(r, Lit("callbackName")) == Field(fields, "callbackName")
    ensures Prop(r, Lit("messageWhat")) == Field(fields, "messageWhat")
    ensures Prop(r, Lit("msgId")) == Field(fields, "msgId")
  {
    Obj(map[
      Lit("handleName") := Field(fields, "handleName"),
      Lit("handlerAddress") := Field(fields, "handlerAddress"),
      Lit("callbackName") := Field(fields, "callbackName"),
      Lit("messageWhat") := Field(fields, "messageWhat"),
      Lit("msgId") := Field(fields, "msgId")])
  }

  /** `ScheduledInfo`: three fields passed through. */
  function ScheduledInfoValue(fields: map<JString, Value>): (r: Value)
    ensures r.Obj?
    ensures Prop(r, Lit("dealt")) == Field(fields, "dealt")
    ensures Prop(r, Lit("msgId")) == Field(fields, "msgId")
    ensures Prop(r, Lit("start")) == Field(fields, "start")
  {
    Obj(map[
      Lit("dealt") := Field(fields, "dealt"),
      Lit("msgId") := Field(fields, "msgId"),
      Lit("start") := Field(fields, "start")])
  }

  /** The value an object of class `name` becomes once its fields and annotations are read. */
  function ObjectValue(name: JString, fields: map<JString, Value>, annotations: map<JString, seq<Segment>>): (r: Value)
    ensures name == ANR_INFO ==> r == AnrInfoValue(fields)
    ensures name == TIME_LRU_CACHE ==> r == TimeLruCacheValue(fields)
    ensures name == MESSAGE_INFO ==> r == MessageInfoValue(fields)
    ensures name == BOX_MESSAGE ==> r == BoxMessageValue(fields)
    ensures name == SCHEDULED_INFO ==> r == ScheduledInfoValue(fields)
    ensures name == ARRAY_LIST ==>
      r == ListValue(ArrayListItems(SegmentsFor(annotations, ARRAY_LIST, name)))
    ensures name == LINKED_HASH_MAP || name == TIME_LINKED_HASH_MAP ==>
      r == MapValue(LinkedHashMapEntries(SegmentsFor(annotations, LINKED_HASH_MAP, name)))
    ensures name == STRING_BUILDER ==>
      r == Text(StringBuilderText(SegmentsFor(annotations, STRING_BUILDER, name)))
    ensures name == LONG || name == INTEGER ==> r == NumberOf(Field(fields, "value"))
    ensures name == BOOLEAN ==> r == Bool(Truthy(Field(fields, "value")))
    ensures !Registered(name) ==>
      r == Obj(map[Lit("__className") := Text(name), Lit("fields") := Obj(fields)])
  {
    ClassNamesDistinct();
    if name == ANR_INFO then AnrInfoValue(fields)
    else if name == TIME_LRU_CACHE then TimeLruCacheValue(fields)
    else if name == MESSAGE_INFO then MessageInfoValue(fields)
    else if name == BOX_MESSAGE then BoxMessageValue(fields)
    else if name == SCHEDULED_INFO then ScheduledInfoValue(fields)
    else if name == ARRAY_LIST then
      ListValue(ArrayListItems(SegmentsFor(annotations, ARRAY_LIST, name)))
    else if name == LINKED_HASH_MAP || name == TIME_LINKED_HASH_MAP then
      MapValue(LinkedHashMapEntries(SegmentsFor(annotations, LINKED_HASH_MAP, name)))
    else if name == STRING_BUILDER then
      Text(StringBuilderText(SegmentsFor(annotations, STRING_BUILDER, name)))
    else if name == LONG || name == INTEGER then
      NumberOf(Field(fields, "value"))
    else if name == BOOLEAN then
      Bool(Truthy(Field(fields, "value")))
    else
      Obj(map[Lit("__className") := Text(name), Lit("fields") := Obj(fields)])
  }

  // ---------------------------------------------------------------------
  // The list convention as ArrayList.writeObject lays it out, and the map
  // convention as a count followed by keys and values.

  function NestedAll(vs: seq<Value>): (r: seq<Segment>)
    ensures |r| == |vs| && forall i :: 0 <= i < |vs| ==> r[i] == Nested(vs[i])
  {
    seq(|vs|, i requires 0 <= i < |vs| => Nested(vs[i]))
  }

  /** A count block followed by one nested element per value. */
  function ListSegments(vs: seq<Value>): seq<Segment>
    requires |vs| < 0x8000_0000
  {
    [Block(Int32Bytes(|vs|))] + NestedAll(vs)
  }

  lemma {:induction false} NestedAllValues(vs: seq<Value>)
    ensures NestedValues(NestedAll(vs)) == vs
    ensures DeclaredCount(NestedAll(vs)) == 0
  {
    if vs != [] {
      var n := |vs|;
      assert NestedAll(vs)[..n - 1] == NestedAll(vs[..n - 1]);
      NestedAllValues(vs[..n - 1]);
      assert vs[..n - 1] + [vs[n - 1]] == vs;
    }
  }

  lemma {:induction false} NestedValuesAppend(a: seq<Segment>, b: seq<Segment>)
    ensures NestedValues(a + b) == NestedValues(a) + NestedValues(b)
  {
    if b == [] {
      assert a + b == a;
    } else {
      var n := |b|;
      assert (a + b)[..|a + b| - 1] == a + b[..n - 1];
      NestedValuesAppend(a, b[..n - 1]);
    }
  }

  /** Segments without a count block leave the count where it was. */
  lemma {:induction false} DeclaredCountAppend(a: seq<Segment>, b: seq<Segment>)
    requires forall k :: 0 <= k < |b| ==> !b[k].Block?
    ensures DeclaredCount(a + b) == DeclaredCount(a)
  {
    if b == [] {
      assert a + b == a;
    } else {
      var n := |b|;
      assert (a + b)[..|a + b| - 1] == a + b[..n - 1];
      DeclaredCountAppend(a, b[..n - 1]);
    }
  }

  lemma CountBlockThenNested(b: seq<byte>, vs: seq<Value>)
    requires |b| >= 4
    ensures NestedValues([Block(b)] + NestedAll(vs)) == vs
    ensures DeclaredCount([Block(b)] + NestedAll(vs)) == I32(b, 0)
  {
    NestedValuesAppend([Block(b)], NestedAll(vs));
    NestedAllValues(vs);
    assert [Block(b)][..0] == [];
    DeclaredCountAppend([Block(b)], NestedAll(vs));
  }

  /** An ArrayList written as the list convention gives back exactly its elements, in order. */
  lemma ListConventionRoundTrip(vs: seq<Value>)
    requires |vs| < 0x8000_0000
    ensures ArrayListItems(Some(ListSegments(vs))) == vs
  {
    CountBlockThenNested(Int32Bytes(|vs|), vs);
    Int32RoundTrip(|vs|);
  }

  /** Keys and values interleaved, as a map's write hook emits them. */
  function Interleave(pairs: seq<(Value, Value)>): (r: seq<Value>)
    ensures |r| == 2 * |pairs|
    ensures forall i :: 0 <= i < |pairs| ==> r[2 * i] == pairs[i].0 && r[2 * i + 1] == pairs[i].1
  {
    if pairs == [] then [] else [pairs[0].0, pairs[0].1] + Interleave(pairs[1..])
  }

  function MapSegments(pairs: seq<(Value, Value)>): seq<Segment>
    requires |pairs| < 0x8000_0000
  {
    [Block(Int32Bytes(|pairs|))] + NestedAll(Interleave(pairs))
  }

  /**
   * A map written as the map convention gives back its pairs in insertion
   * order; a nullish key or value comes back as null.
   */
  lemma MapConventionRoundTrip(pairs: seq<(Value, Value)>)
    requires |pairs| < 0x8000_0000
    ensures var entries := LinkedHashMapEntries(Some(MapSegments(pairs)));
      |entries| == |pairs| &&
      forall i :: 0 <= i < |pairs| ==>
        entries[i] == Entry(Coalesce(pairs[i].0, Null), Coalesce(pairs[i].1, Null))
  {
    CountBlockThenNested(Int32Bytes(|pairs|), Interleave(pairs));
    Int32RoundTrip(|pairs|);
  }

  /** The string builder takes the first nested text, whatever follows it. */
  lemma {:induction false} FirstTextWins(before: seq<Segment>, s: JString, after: seq<Segment>)
    requires forall k :: 0 <= k < |before| ==> !(before[k].Nested? && before[k].value.Text?)
    ensures FirstText(before + [Nested(Text(s))] + after) == s
  {
    if before != [] {
      assert (before + [Nested(Text(s))] + after)[1..] == before[1..] + [Nested(Text(s))] + after;
      FirstTextWins(before[1..], s, after);
    }
  }

  // ---------------------------------------------------------------------
  // The converters' own loops.

  method MaterializeArrayList(segments: Option<seq<Segment>>) returns (r: Value)
    ensures r == ListValue(ArrayListItems(segments))
  {
    if segments.None? {
      return ListValue([]);
    }
    var segs := segments.value;
    var values: seq<Value> := [];
    var expected := 0;
    for k := 0 to |segs|
      invariant values == NestedValues(segs[..k])
      invariant expected == DeclaredCount(segs[..k])
    {
      assert segs[..k + 1][..k] == segs[..k];
      var seg := segs[k];
      if seg.Block? && |seg.data| >= 4 {
        expected := I32(seg.data, 0);
      } else if seg.Nested? {
        values := values + [seg.value];
      }
    }
    assert segs[..|segs|] == segs;
    if expected > 0 && |values| > expected {
      values := values[..expected];
    }
    r := ListValue(values);
  }

  method MaterializeLinkedHashMap(segments: Option<seq<Segment>>) returns (r: Value)
    ensures r == MapValue(LinkedHashMapEntries(segments))
  {
    if segments.None? {
      return MapValue([]);
    }
    var segs := segments.value;
    var count := 0;
    var collected: seq<Value> := [];
    for k := 0 to |segs|
      invariant collected == NestedValues(segs[..k])
      invariant count == DeclaredCount(segs[..k])
    {
      assert segs[..k + 1][..k] == segs[..k];
      var seg := segs[k];
      if seg.Block? && |seg.data| >= 4 {
        count := I32(seg.data, 0);
      } else if seg.Nested? {
        collected := collected + [seg.value];
      }
    }
    assert segs[..|segs|] == segs;
    var entries: seq<Value> := [];
    var i := 0;
    while i < count
      invariant 0 <= i <= Max0(count)
      invariant entries == LinkedHashMapEntries(segments)[..i]
    {
      var key := Coalesce(At(collected, i * 2), Null);
      var value := Coalesce(At(collected, i * 2 + 1), Null);
      entries := entries + [Entry(key, value)];
      i := i + 1;
    }
    assert entries == LinkedHashMapEntries(segments);
    r := MapValue(entries);
  }

  method MaterializeStringBuilder(segments: Option<seq<Segment>>) returns (r: JString)
    ensures r == StringBuilderText(segments)
  {
    if segments.None? {
      return [];
    }
    var segs := segments.value;
    for k := 0 to |segs|
      invariant FirstText(segs[k..]) == FirstText(segs)
    {
      var seg := segs[k];
      if seg.Nested? && seg.value.Text? {
        return seg.value.s;
      }
      assert segs[k..][1..] == segs[k + 1..];
    }
    r := [];
  }

  method MaterializeObject(name: JString, fields: map<JString, Value>, annotations: map<JString, seq<Segment>>)
    returns (r: Value)
    ensures r == ObjectValue(name, fields, annotations)
  {
    if name == ARRAY_LIST {
      r := MaterializeArrayList(SegmentsFor(annotations, ARRAY_LIST, name));
    } else if name == LINKED_HASH_MAP || name == TIME_LINKED_HASH_MAP {
      r := MaterializeLinkedHashMap(SegmentsFor(annotations, LINKED_HASH_MAP, name));
    } else if name == STRING_BUILDER {
      var s := MaterializeStringBuilder(SegmentsFor(annotations, STRING_BUILDER, name));
      r := Text(s);
    } else {
      r := ObjectValue(name, fields, annotations);
    }
  }
}
