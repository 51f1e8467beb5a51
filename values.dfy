/**
 * The values the decoder hands back, shaped as the JavaScript values it
 * builds, and the few JavaScript coercions that the decoder and the ANR
 * extraction apply to them (`!v`, `v ?? d`, `Number(v)`, `obj.key`).
 */
module Values {
  import opened Bytes

  datatype Option<+T> = None | Some(value: T)

  /** A UTF-16 code unit: JavaScript strings are sequences of these. */
  type CodeUnit = x: int | 0 <= x < 0x1_0000

  type JString = seq<CodeUnit>

  /** The code units of an ASCII literal. */
  function Lit(s: string): (r: JString)
    ensures |r| == |s|
    ensures forall i :: 0 <= i < |s| ==> r[i] == (s[i] as int) % 0x1_0000
  {
    seq(|s|, i requires 0 <= i < |s| => (s[i] as int) % 0x1_0000)
  }

  /** One declared field of a class descriptor. */
  datatype FieldDesc = FieldDesc(typeCode: byte, name: JString, className: Option<JString>)

  /**
   * A class descriptor as read from the stream. The superclass is whatever
   * the stream put there: null, a new descriptor, or the value bound to a
   * back-referenced handle (not necessarily a descriptor).
   */
  datatype ClassDesc = ClassDesc(
    name: JString,
    serialVersionUID: int,
    flags: byte,
    fields: seq<FieldDesc>,
    superClass: Value)

  datatype Value =
    | Undefined                            // a missing property or handle
    | Null
    | Bool(b: bool)
    | Int(i: int)                          // a number holding an integer
    | Float(raw: seq<byte>)                // an IEEE-754 number, kept as its 4 or 8 bytes
    | NaN
    | Text(s: JString)
    | Seq(items: seq<Value>)               // a JavaScript array
    | Obj(props: map<JString, Value>)      // a plain object; an absent key reads as undefined
    | Desc(desc: ClassDesc)
    | Pending(className: JString)          // the placeholder bound while an object is read

  /** A piece of the data a class's own write hook put after its fields. */
  datatype Segment = Block(data: seq<byte>) | Nested(value: Value)

  /** Why decoding stops; every failure ends the whole decode. */
  datatype Error =
    | InvalidMagic                         // the stream does not start with 0xACED
    | OutOfRange                           // a read past the end or with a negative length
    | UnknownHandle(handle: int)
    | UnsupportedTag(tag: byte)
    | UnexpectedClassDescTag(tag: byte)
    | MissingClassDescriptor
    | NotAClassDescriptor                  // a truthy descriptor that has no field list
    | UnsupportedFieldType(code: byte)
    | UnsupportedArrayComponent
    | InvalidText                          // a modified UTF-8 lead byte of no known form
    | NotParsable                          // the decoded root is falsy
    | EntriesNotAList                      // a cache's entries cannot be mapped over

  datatype Result<+T> = Success(value: T) | Failure(error: Error)

  /** An IEEE-754 number is +0, -0 or NaN, judged from its big-endian bytes. */
  predicate FloatIsZeroOrNaN(raw: seq<byte>)
  {
    if |raw| == 4 then
      var exponent: int := ((raw[0] as int) % 0x80) * 2 + raw[1] / 0x80;
      var mantissaZero := raw[1] % 0x80 == 0 && raw[2] == 0 && raw[3] == 0;
      (exponent == 0 && mantissaZero) || (exponent == 0xFF && !mantissaZero)
    else if |raw| == 8 then
      var exponent: int := ((raw[0] as int) % 0x80) * 0x10 + raw[1] / 0x10;
      var mantissaZero := raw[1] % 0x10 == 0 && forall k :: 2 <= k < 8 ==> raw[k] == 0;
      (exponent == 0 && mantissaZero) || (exponent == 0x7FF && !mantissaZero)
    else
      false
  }

  /** JavaScript truthiness (`!!v`). */
  predicate Truthy(v: Value)
  {
    match v
    case Undefined => false
    case Null => false
    case NaN => false
    case Bool(b) => b
    case Int(i) => i != 0
    case Float(raw) => !FloatIsZeroOrNaN(raw)
    case Text(s) => s != []
    case _ => true
  }

  predicate Nullish(v: Value)
  {
    v.Undefined? || v.Null?
  }

  /** A JavaScript number: what `Number(...)` returns. */
  predicate IsNumber(v: Value)
  {
    v.Int? || v.Float? || v.NaN?
  }

  /** `r` is `v ?? d`: the default when `v` is null or undefined, else `v` itself. */
  predicate Defaulted(r: Value, v: Value, d: Value)
  {
    (Nullish(v) ==> r == d) && (!Nullish(v) ==> r == v)
  }

  /** `r` is `Number(v ?? 0)` as far as it is modelled: 0 for a missing `v`, a number kept. */
  predicate NumberDefaulted(r: Value, v: Value)
  {
    IsNumber(r) && (Nullish(v) ==> r == Int(0)) && (IsNumber(v) ==> r == v)
  }

  /** `v ?? d` */
  function Coalesce(v: Value, d: Value): (r: Value)
    ensures !Nullish(v) ==> r == v
    ensures Nullish(v) ==> r == d
  {
    if Nullish(v) then d else v
  }

  /**
   * `Number(v)`. Text, arrays and objects convert to NaN here; see the
   * README for the cases where JavaScript parses them instead.
   */
  function NumberOf(v: Value): (r: Value)
    ensures r.Int? || r.Float? || r.NaN?
    ensures v.Int? || v.Float? || v.NaN? ==> r == v
  {
    match v
    case Null => Int(0)
    case Bool(b) => Int(if b then 1 else 0)
    case Int(_) => v
    case Float(_) => v
    case _ => NaN
  }

  /** `v.key` and `v?.key` on a plain object; anything else has no such property. */
  function Prop(v: Value, key: JString): (r: Value)
    ensures v.Obj? && key in v.props ==> r == v.props[key]
    ensures !(v.Obj? && key in v.props) ==> r == Undefined
  {
    if v.Obj? && key in v.props then v.props[key] else Undefined
  }

  /** `arr[i]`, undefined past the end. */
  function At(s: seq<Value>, i: int): (r: Value)
    ensures 0 <= i < |s| ==> r == s[i]
    ensures !(0 <= i < |s|) ==> r == Undefined
  {
    if 0 <= i < |s| then s[i] else Undefined
  }
}
