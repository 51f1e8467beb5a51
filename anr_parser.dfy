/**
 * The ANR report reader: decodes an `AnrInfo` stream, pulls its five text
 * fields and its two keyed sample caches out of the root value with
 * defaults, and names and colours message-type codes for the timeline.
 */
module AnrParser {
  import opened Bytes
  import opened Values
  import Grammar
  import Materialize

  /** One sampled message: every number defaults to 0, the box list to `[]`. */
  datatype MessageNode = MessageNode(
    key: Value,
    msgType: Value,
    wallTime: Value,
    cpuTime: Value,
    count: Value,
    createdAt: Value,
    boxMessages: Value)

  /** One scheduling sample; `msgId` is passed through as found, possibly undefined. */
  datatype SchedulingNode = SchedulingNode(key: Value, dealt: Value, msgId: Value, start: bool)

  datatype AnrData = AnrData(
    markTime: Value,
    cpuInfo: Value,
    systemLoad: Value,
    mainThreadStack: Value,
    messageQueueSample: Value,
    messages: seq<MessageNode>,
    scheduling: seq<SchedulingNode>)

  /** `Number(v ?? 0)` */
  function NumberOr0(v: Value): (r: Value)
    ensures IsNumber(r)
    ensures Nullish(v) ==> r == Int(0)
    ensures IsNumber(v) ==> r == v
  {
    NumberOf(Coalesce(v, Int(0)))
  }

  // ---------------------------------------------------------------------
  // Cache entries

  /**
   * `cache?.linkedHashMap?.entries ?? []`, which is then mapped over. A
   * JavaScript array has an `entries` method, so when `linkedHashMap` is an
   * array the mapped value is that method and the map fails; any other
   * non-list value fails the same way.
   */
  function CacheEntries(cache: Value): (r: Result<seq<Value>>)
    ensures Nullish(Prop(cache, Lit("linkedHashMap"))) ==> r == Success([])
    ensures Prop(cache, Lit("linkedHashMap")).Seq? ==> r == Failure(EntriesNotAList)
    ensures var table := Prop(cache, Lit("linkedHashMap"));
      var entries := Prop(table, Lit("entries"));
      !table.Seq? ==>
        (entries.Seq? ==> r == Success(entries.items)) &&
        (Nullish(entries) ==> r == Success([])) &&
        (!entries.Seq? && !Nullish(entries) ==> r == Failure(EntriesNotAList))
    ensures r.Failure? ==> r.error == EntriesNotAList
  {
    var table := Prop(cache, Lit("linkedHashMap"));
    if table.Seq? then Failure(EntriesNotAList)
    else
      var entries := Coalesce(Prop(table, Lit("entries")), Seq([]));
      if entries.Seq? then Success(entries.items) else Failure(EntriesNotAList)
  }

  /** `entry?.value ?? {}` */
  function EntryValue(entry: Value): (r: Value)
    ensures Defaulted(r, Prop(entry, Lit("value")), Obj(map[]))
  {
    Coalesce(Prop(entry, Lit("value")), Obj(map[]))
  }

  /** The node one entry of the message cache becomes. */
  function MessageNodeOf(entry: Value): (r: MessageNode)
    ensures var value := EntryValue(entry);
      NumberDefaulted(r.key, Prop(entry, Lit("key"))) &&
      NumberDefaulted(r.msgType, Prop(value, Lit("msgType"))) &&
      NumberDefaulted(r.wallTime, Prop(value, Lit("wallTime"))) &&
      NumberDefaulted(r.cpuTime, Prop(value, Lit("cpuTime"))) &&
      NumberDefaulted(r.count, Prop(value, Lit("count"))) &&
      NumberDefaulted(r.createdAt, Prop(value, Lit("messageCreateTime"))) &&
      Defaulted(r.boxMessages, Prop(Prop(value, Lit("boxMessages")), Lit("items")), Seq([]))
    ensures Nullish(Prop(entry, Lit("value"))) ==>
      r.msgType == r.wallTime == r.cpuTime == r.count == r.createdAt == Int(0) &&
      r.boxMessages == Seq([])
  {
    var value := EntryValue(entry);
    MessageNode(
      NumberOr0(Prop(entry, Lit("key"))),
      NumberOr0(Prop(value, Lit("msgType"))),
      NumberOr0(Prop(value, Lit("wallTime"))),
      NumberOr0(Prop(value, Lit("cpuTime"))),
      NumberOr0(Prop(value, Lit("count"))),
      NumberOr0(Prop(value, Lit("messageCreateTime"))),
      Coalesce(Prop(Prop(value, Lit("boxMessages")), Lit("items")), Seq([])))
  }

  /** The node one entry of the scheduling cache becomes. */
  function SchedulingNodeOf(entry: Value): (r: SchedulingNode)
    ensures var value := EntryValue(entry);
      NumberDefaulted(r.key, Prop(entry, Lit("key"))) &&
      NumberDefaulted(r.dealt, Prop(value, Lit("dealt"))) &&
      r.msgId == Prop(value, Lit("msgId")) &&
      (r.start <==> Truthy(Prop(value, Lit("start"))))
    ensures Nullish(Prop(entry, Lit("value"))) ==> r.dealt == Int(0) && r.msgId == Undefined && !r.start
  {
    var value := EntryValue(entry);
    SchedulingNode(
      NumberOr0(Prop(entry, Lit("key"))),
      NumberOr0(Prop(value, Lit("dealt"))),
      Prop(value, Lit("msgId")),
      Truthy(Prop(value, Lit("start"))))
  }

  /** `entries.map(f)` */
  function Map<A, B>(f: A -> B, entries: seq<A>): (r: seq<B>)
    ensures |r| == |entries|
    ensures forall i :: 0 <= i < |entries| ==> r[i] == f(entries[i])
  {
    seq(|entries|, i requires 0 <= i < |entries| => f(entries[i]))
  }

  function MessageNodesOf(entries: seq<Value>): seq<MessageNode>
  {
    Map(MessageNodeOf, entries)
  }

  function SchedulingNodesOf(entries: seq<Value>): seq<SchedulingNode>
  {
    Map(SchedulingNodeOf, entries)
  }

  /** One message node per cache entry, in entry order. */
  function ExtractMessageNodes(cache: Value): (r: Result<seq<MessageNode>>)
    ensures CacheEntries(cache).Failure? ==> r == Failure(EntriesNotAList)
    ensures CacheEntries(cache).Success? ==>
      r.Success? && |r.value| == |CacheEntries(cache).value| &&
      forall i :: 0 <= i < |r.value| ==> r.value[i] == MessageNodeOf(CacheEntries(cache).value[i])
  {
    var entries := CacheEntries(cache);
    if entries.Failure? then Failure(entries.error) else Success(MessageNodesOf(entries.value))
  }

  /** One scheduling node per cache entry, in entry order. */
  function ExtractSchedulingNodes(cache: Value): (r: Result<seq<SchedulingNode>>)
    ensures CacheEntries(cache).Failure? ==> r == Failure(EntriesNotAList)
    ensures CacheEntries(cache).Success? ==>
      r.Success? && |r.value| == |CacheEntries(cache).value| &&
      forall i :: 0 <= i < |r.value| ==> r.value[i] == SchedulingNodeOf(CacheEntries(cache).value[i])
  {
    var entries := CacheEntries(cache);
    if entries.Failure? then Failure(entries.error) else Success(SchedulingNodesOf(entries.value))
  }

  // ---------------------------------------------------------------------
  // The report

  /** `raw.key ?? ''` */
  function TextField(root: Value, key: string): (r: Value)
    ensures Defaulted(r, Prop(root, Lit(key)), Text([]))
  {
    Coalesce(Prop(root, Lit(key)), Text([]))
  }

  /** `raw.key ?? {}` */
  function CacheOf(root: Value, key: string): Value
  {
    Coalesce(Prop(root, Lit(key)), Obj(map[]))
  }

  /** Everything `parseAnr` does once the stream has been decoded to `root`. */
  function ReadRoot(root: Value): (r: Result<AnrData>)
    ensures !Truthy(root) ==> r == Failure(NotParsable)
    ensures r.Success? <==> (Truthy(root) &&
      CacheEntries(CacheOf(root, "messageSamplerCache")).Success? &&
      CacheEntries(CacheOf(root, "scheduledSamplerCache")).Success?)
    ensures r.Success? ==>
      Defaulted(r.value.markTime, Prop(root, Lit("markTime")), Text([])) &&
      Defaulted(r.value.cpuInfo, Prop(root, Lit("cpuInfo")), Text([])) &&
      Defaulted(r.value.systemLoad, Prop(root, Lit("systemLoad")), Text([])) &&
      Defaulted(r.value.mainThreadStack, Prop(root, Lit("mainThreadStack")), Text([])) &&
      Defaulted(r.value.messageQueueSample, Prop(root, Lit("messageQueueSample")), Text([]))
    ensures r.Success? ==>
      r.value.messages == MessageNodesOf(CacheEntries(CacheOf(root, "messageSamplerCache")).value) &&
      r.value.scheduling == SchedulingNodesOf(CacheEntries(CacheOf(root, "scheduledSamplerCache")).value)
  {
    if !Truthy(root) then Failure(NotParsable)
    else
      var messages := ExtractMessageNodes(CacheOf(root, "messageSamplerCache"));
      if messages.Failure? then Failure(messages.error)
      else
        var scheduling := ExtractSchedulingNodes(CacheOf(root, "scheduledSamplerCache"));
        if scheduling.Failure? then Failure(scheduling.error)
        else Success(AnrData(
          TextField(root, "markTime"),
          TextField(root, "cpuInfo"),
          TextField(root, "systemLoad"),
          TextField(root, "mainThreadStack"),
          TextField(root, "messageQueueSample"),
          messages.value,
          scheduling.value))
  }

  /** `parseAnr`: a decoding failure, a falsy root, or the extracted report. */
  function ParseAnr(buffer: seq<byte>): (r: Result<AnrData>)
    ensures Grammar.Deserialize(buffer).Failure? ==> r == Failure(Grammar.Deserialize(buffer).error)
    ensures Grammar.Deserialize(buffer).Success? ==> r == ReadRoot(Grammar.Deserialize(buffer).value)
    ensures r.Success? ==> Grammar.Deserialize(buffer).Success? && Truthy(Grammar.Deserialize(buffer).value)
  {
    var root := Grammar.Deserialize(buffer);
    if root.Failure? then Failure(root.error) else ReadRoot(root.value)
  }

  /** A truthy root whose seven keys are all absent or null reads as an empty report. */
  lemma MissingKeysDefault(root: Value)
    requires Truthy(root)
    requires Nullish(Prop(root, Lit("markTime"))) && Nullish(Prop(root, Lit("cpuInfo")))
    requires Nullish(Prop(root, Lit("systemLoad"))) && Nullish(Prop(root, Lit("mainThreadStack")))
    requires Nullish(Prop(root, Lit("messageQueueSample")))
    requires Nullish(Prop(root, Lit("messageSamplerCache"))) && Nullish(Prop(root, Lit("scheduledSamplerCache")))
    ensures ReadRoot(root) == Success(AnrData(Text([]), Text([]), Text([]), Text([]), Text([]), [], []))
  {
  }

  /**
   * A decoded `AnrInfo` whose fields were all left null reads as the empty
   * report: the materialiser's null caches become `{}`, whose entries are `[]`.
   */
  lemma EmptyAnrInfoReport()
    ensures ReadRoot(Materialize.ObjectValue(Materialize.ANR_INFO, map[], map[])) ==
      Success(AnrData(Text([]), Text([]), Text([]), Text([]), Text([]), [], []))
  {
    EmptyAnrInfo();
    var root := Materialize.ObjectValue(Materialize.ANR_INFO, map[], map[]);
    assert Prop(root, Lit("markTime")) == Text([]);
    assert Prop(root, Lit("cpuInfo")) == Text([]);
    assert Prop(root, Lit("systemLoad")) == Text([]);
    assert Prop(root, Lit("mainThreadStack")) == Text([]);
    assert Prop(root, Lit("messageQueueSample")) == Text([]);
    EmptyTextsNullCaches(root);
  }

  lemma EmptyTextsNullCaches(root: Value)
    requires Truthy(root)
    requires Prop(root, Lit("markTime")) == Prop(root, Lit("cpuInfo")) == Prop(root, Lit("systemLoad")) ==
      Prop(root, Lit("mainThreadStack")) == Prop(root, Lit("messageQueueSample")) == Text([])
    requires Prop(root, Lit("messageSamplerCache")) == Null && Prop(root, Lit("scheduledSamplerCache")) == Null
    ensures ReadRoot(root) == Success(AnrData(Text([]), Text([]), Text([]), Text([]), Text([]), [], []))
  {
  }

  /** The materialised `AnrInfo` with no fields: five empty texts and two null caches. */
  lemma EmptyAnrInfo()
    ensures Materialize.ObjectValue(Materialize.ANR_INFO, map[], map[]) == Obj(map[
      Lit("cpuInfo") := Text([]),
      Lit("mainThreadStack") := Text([]),
      Lit("markTime") := Text([]),
      Lit("messageQueueSample") := Text([]),
      Lit("messageSamplerCache") := Null,
      Lit("scheduledSamplerCache") := Null,
      Lit("systemLoad") := Text([])])
  {
  }

  /**
   * A cache whose `linkedHashMap` is a materialised map yields one node per
   * entry, and an entry's key and message fields come through as numbers.
   */
  lemma MapCacheNodes(cache: Value, entries: seq<Value>)
    requires Prop(cache, Lit("linkedHashMap")) == Materialize.MapValue(entries)
    ensures ExtractMessageNodes(cache) == Success(MessageNodesOf(entries))
    ensures ExtractSchedulingNodes(cache) == Success(SchedulingNodesOf(entries))
  {
    assert Prop(Materialize.MapValue(entries), Lit("entries")) == Seq(entries);
  }

  /** An entry built by the map materialiser keeps its numeric key. */
  lemma EntryKeyKept(key: int, value: Value)
    ensures MessageNodeOf(Materialize.Entry(Int(key), value)).key == Int(key)
    ensures SchedulingNodeOf(Materialize.Entry(Int(key), value)).key == Int(key)
  {
    assert Prop(Materialize.Entry(Int(key), value), Lit("key")) == Int(key);
  }

  /** Mapping commutes with concatenation: entry order is kept across any split. */
  lemma MapAppend<A, B>(f: A -> B, a: seq<A>, b: seq<A>)
    ensures Map(f, a + b) == Map(f, a) + Map(f, b)
  {
    var joined, parts := Map(f, a + b), Map(f, a) + Map(f, b);
    forall i | 0 <= i < |a + b|
      ensures joined[i] == parts[i]
    {
      if i < |a| {
        assert (a + b)[i] == a[i];
      } else {
        assert (a + b)[i] == b[i - |a|];
      }
    }
  }

  lemma NodesAppend(a: seq<Value>, b: seq<Value>)
    ensures MessageNodesOf(a + b) == MessageNodesOf(a) + MessageNodesOf(b)
    ensures SchedulingNodesOf(a + b) == SchedulingNodesOf(a) + SchedulingNodesOf(b)
  {
    MapAppend(MessageNodeOf, a, b);
    MapAppend(SchedulingNodeOf, a, b);
  }

  // ---------------------------------------------------------------------
  // Message types

  function HexDigit(d: nat): (c: char)
    requires d < 16
  {
    if d < 10 then ('0' as int + d) as char else ('a' as int + d - 10) as char
  }

  predicate IsHexDigit(c: char)
  {
    '0' <= c <= '9' || 'a' <= c <= 'f'
  }

  function DigitValue(c: char): nat
  {
    if '0' <= c <= '9' then c as int - '0' as int
    else if 'a' <= c <= 'f' then c as int - 'a' as int + 10
    else 0
  }

  /** `n.toString(16)` for a non-negative integer: lower-case digits, no leading zero. */
  function Hex(n: nat): (r: string)
    ensures |r| >= 1 && IsHexDigit(r[0]) && (n > 0 ==> r[0] != '0')
    ensures forall i :: 0 <= i < |r| ==> IsHexDigit(r[i])
  {
    if n < 16 then [HexDigit(n)] else Hex(n / 16) + [HexDigit(n % 16)]
  }

  /** `msgType.toString(16)` for an integer code: a minus sign, then the digits. */
  function SignedHex(n: int): (r: string)
    ensures |r| >= 1 && (r[0] == '-' <==> n < 0)
    ensures n < 0 ==> r[1..] == Hex(-n)
    ensures n >= 0 ==> r == Hex(n)
  {
    if n < 0 then ['-'] + Hex(-n) else Hex(n)
  }

  /** The number a string of hex digits denotes, most significant first. */
  function HexValue(s: string): nat
  {
    if s == [] then 0 else HexValue(s[..|s| - 1]) * 16 + DigitValue(s[|s| - 1])
  }

  lemma {:induction false} HexRoundTrip(n: nat)
    ensures HexValue(Hex(n)) == n
    decreases n
  {
    var h := Hex(n);
    if n >= 16 {
      HexRoundTrip(n / 16);
      assert h[..|h| - 1] == Hex(n / 16);
    }
  }

  lemma SignedHexInjective(a: int, b: int)
    requires SignedHex(a) == SignedHex(b)
    ensures a == b
  {
    var m, k := if a < 0 then -a else a, if b < 0 then -b else b;
    assert (a < 0 <==> b < 0) && Hex(m) == Hex(k);
    HexRoundTrip(m);
    HexRoundTrip(k);
    assert m == HexValue(Hex(m)) == HexValue(Hex(k)) == k;
  }

  predicate NamedType(t: int)
  {
    t == 0x00 || t == 0x01 || t == 0x02 || t == 0x04 || t == 0x08 || t == 0x10 || t == 0x20
  }

  /** `messageTypeToLabel`: the seven known codes by name, any other as `0x` and its hex digits. */
  function MessageTypeToLabel(msgType: int): (r: string)
    ensures |r| >= 3
    ensures msgType == 0x00 ==> r == "NONE"
    ensures msgType == 0x01 ==> r == "INFO"
    ensures msgType == 0x02 ==> r == "WARN"
    ensures msgType == 0x04 ==> r == "ANR"
    ensures msgType == 0x08 ==> r == "JANK"
    ensures msgType == 0x10 ==> r == "GAP"
    ensures msgType == 0x20 ==> r == "ACTIVITY"
    ensures NamedType(msgType) <==> r[0] != '0'
    ensures !NamedType(msgType) ==> r == "0x" + SignedHex(msgType)
  {
    match msgType
    case 0x00 => "NONE"
    case 0x01 => "INFO"
    case 0x02 => "WARN"
    case 0x04 => "ANR"
    case 0x08 => "JANK"
    case 0x10 => "GAP"
    case 0x20 => "ACTIVITY"
    case _ => "0x" + SignedHex(msgType)
  }

  /** No two codes share a label, so the label identifies the code. */
  lemma LabelInjective(a: int, b: int)
    requires MessageTypeToLabel(a) == MessageTypeToLabel(b)
    ensures a == b
  {
    if !NamedType(a) && !NamedType(b) {
      var la, lb := MessageTypeToLabel(a), MessageTypeToLabel(b);
      assert SignedHex(a) == la[2..] == lb[2..] == SignedHex(b);
      SignedHexInjective(a, b);
    }
  }

  /** `messageTypeToColor`: five highlighted codes; every other code, NONE and INFO included, shares one colour. */
  function MessageTypeToColor(msgType: int): (r: string)
    ensures |r| >= 4 && r[0] == '#'
    ensures msgType == 0x04 ==> r == "#222"
    ensures msgType == 0x02 ==> r == "#f79e1b"
    ensures msgType == 0x10 ==> r == "#7dc4ff"
    ensures msgType == 0x08 ==> r == "#bc80ea"
    ensures msgType == 0x20 ==> r == "#4db6ac"
    ensures !Highlighted(msgType) ==> r == "#f06292"
  {
    match msgType
    case 0x04 => "#222"
    case 0x02 => "#f79e1b"
    case 0x10 => "#7dc4ff"
    case 0x08 => "#bc80ea"
    case 0x20 => "#4db6ac"
    case _ => "#f06292"
  }

  predicate Highlighted(t: int)
  {
    t == 0x02 || t == 0x04 || t == 0x08 || t == 0x10 || t == 0x20
  }

  /**
   * The default colour marks exactly the unhighlighted codes, and the
   * highlighted codes (all of them named) have pairwise distinct colours.
   */
  lemma ColorSeparatesHighlighted(a: int, b: int)
    ensures MessageTypeToColor(a) == "#f06292" <==> !Highlighted(a)
    ensures Highlighted(a) ==> NamedType(a)
    ensures Highlighted(a) && Highlighted(b) && MessageTypeToColor(a) == MessageTypeToColor(b) ==> a == b
  {
  }
}
