/**
 * Player protocol messages, as generated from a field list by `message_generator.hpp`. A message
 * is a sequence of fields: signed and unsigned variable-length integers, length-prefixed strings,
 * fixed-size byte blocks, and count-prefixed arrays whose elements have fields of their own.
 *
 * The generator expands one serialiser and one parser per message; here the field list is a value
 * (`Field`), a message's contents are a matching list of `Value`s, and one generic encoder and one
 * generic decoder follow the list. The varint codec (`vint50`/`vuint50`) is not part of this
 * model: it is a parameter, and what the round trip needs of it is stated as `RoundTrips`.
 */
module PlayerMessage {
  import opened Common

  /** The ranges the 50-bit varints carry: 0 to 2^50 - 1 unsigned, -2^49 to 2^49 - 1 signed. */
  const MAX_VUINT50: nat := 0x3_FFFF_FFFF_FFFF
  const MIN_VINT50: int := -0x2_0000_0000_0000
  const MAX_VINT50: int := 0x1_FFFF_FFFF_FFFF

  /** `FIELD_VINT`, `FIELD_VUINT`, `FIELD_STRING`, `FIELD_BYTES(size)` and `FIELD_ARRAY(fields)`. */
  datatype Field = VInt | VUInt | Str | FixedBytes(size: nat) | Array(fields: seq<Field>)

  /** A field's contents; an array holds elements, each with the values of the array's own fields. */
  datatype Value = IntV(i: int) | UIntV(u: nat) | StrV(s: Bytes) | BytesV(b: Bytes) | ArrayV(elements: seq<Element>)
  datatype Element = Element(values: seq<Value>)

  /** The varint codec: encoders, and decoders yielding the value and the number of bytes read. */
  datatype Varint = Varint(
    encodeSigned: int -> Bytes,
    decodeSigned: Bytes -> Option<(int, nat)>,
    encodeUnsigned: nat -> Bytes,
    decodeUnsigned: Bytes -> Option<(nat, nat)>)

  /** The decoders are handed the remaining buffer size as their limit, and read no further. */
  ghost predicate Bounded(c: Varint)
  {
    && (forall input :: c.decodeSigned(input).Some? ==> c.decodeSigned(input).value.1 <= |input|)
    && (forall input :: c.decodeUnsigned(input).Some? ==> c.decodeUnsigned(input).value.1 <= |input|)
  }

  /** Decoding input that starts with an encoding yields the encoded value and reads exactly that encoding. */
  ghost predicate RoundTrips(c: Varint)
  {
    && (forall v, input {:trigger c.encodeSigned(v), c.decodeSigned(input)} ::
          MIN_VINT50 <= v <= MAX_VINT50 && c.encodeSigned(v) <= input ==>
          c.decodeSigned(input) == Some((v, |c.encodeSigned(v)|)))
    && (forall v: nat, input {:trigger c.encodeUnsigned(v), c.decodeUnsigned(input)} ::
          v <= MAX_VUINT50 && c.encodeUnsigned(v) <= input ==>
          c.decodeUnsigned(input) == Some((v, |c.encodeUnsigned(v)|)))
  }

  /** Size measures that make the recursion over nested field lists well founded. */
  function FieldSize(f: Field): (n: nat)
    ensures n >= 1
  {
    match f
    case Array(fs) => 1 + SchemaSize(fs)
    case _ => 1
  }

  function SchemaSize(fs: seq<Field>): nat
  {
    if fs == [] then 0 else FieldSize(fs[0]) + SchemaSize(fs[1..])
  }

  lemma {:induction false} FieldSizeBound(fs: seq<Field>, i: nat)
    requires i < |fs|
    ensures FieldSize(fs[i]) <= SchemaSize(fs[i..]) <= SchemaSize(fs)
    decreases i
  {
    if i > 0 {
      assert fs[1..][i - 1..] == fs[i..] && fs[1..][i - 1] == fs[i];
      FieldSizeBound(fs[1..], i - 1);
    }
  }

  /** A value of the kind its field declares; a byte block has exactly the declared size. */
  ghost predicate FieldConforms(f: Field, v: Value)
    decreases FieldSize(f), 0
  {
    match f
    case VInt => v.IntV?
    case VUInt => v.UIntV?
    case Str => v.StrV?
    case FixedBytes(size) => v.BytesV? && |v.b| == size
    case Array(fs) => v.ArrayV? && forall e :: e in v.elements ==> Conforms(fs, e.values)
  }

  ghost predicate Conforms(fs: seq<Field>, vs: seq<Value>)
    decreases SchemaSize(fs), 1
  {
    |fs| == |vs| && (fs != [] ==> FieldConforms(fs[0], vs[0]) && Conforms(fs[1..], vs[1..]))
  }

  lemma {:induction false} ConformsAt(fs: seq<Field>, vs: seq<Value>, i: nat)
    requires Conforms(fs, vs) && i <= |fs|
    ensures Conforms(fs[i..], vs[i..])
    ensures i < |fs| ==> FieldConforms(fs[i], vs[i])
    decreases i
  {
    if i > 0 {
      assert fs[1..][i - 1..] == fs[i..] && vs[1..][i - 1..] == vs[i..];
      ConformsAt(fs[1..], vs[1..], i - 1);
    }
  }

  /** Every value is within what its varint can carry: integers, string lengths and array counts. */
  ghost predicate Fits(v: Value)
  {
    match v
    case IntV(i) => MIN_VINT50 <= i <= MAX_VINT50
    case UIntV(u) => u <= MAX_VUINT50
    case StrV(s) => |s| <= MAX_VUINT50
    case BytesV(_) => true
    case ArrayV(es) => |es| <= MAX_VUINT50 && forall e :: e in es ==> AllFit(e.values)
  }

  ghost predicate AllFit(vs: seq<Value>)
  {
    forall v :: v in vs ==> Fits(v)
  }

  /** The value a field holds after value-initialisation: zero, empty, zero bytes, no elements. */
  function DefaultValue(f: Field): (v: Value)
    ensures FieldConforms(f, v)
  {
    match f
    case VInt => IntV(0)
    case VUInt => UIntV(0)
    case Str => StrV([])
    case FixedBytes(size) => BytesV(seq(size, _ => 0))
    case Array(_) => ArrayV([])
  }

  /** A default-constructed message (or array element): every field value-initialised. */
  function Defaults(fs: seq<Field>): (vs: seq<Value>)
    ensures Conforms(fs, vs)
    decreases |fs|
  {
    if fs == [] then [] else [DefaultValue(fs[0])] + Defaults(fs[1..])
  }

  /* ---------------------------------------------------------------- serialisation */

  /** One field as `operator>>` writes it. */
  function EncodeField(c: Varint, f: Field, v: Value): Bytes
    requires FieldConforms(f, v)
    decreases FieldSize(f), 0
  {
    match f
    case VInt => c.encodeSigned(v.i)
    case VUInt => c.encodeUnsigned(v.u)
    case Str => c.encodeUnsigned(|v.s|) + v.s
    case FixedBytes(_) => v.b
    case Array(fs) => c.encodeUnsigned(|v.elements|) + EncodeElements(c, fs, v.elements)
  }

  /** Fields in declaration order. */
  function EncodeFields(c: Varint, fs: seq<Field>, vs: seq<Value>): Bytes
    requires Conforms(fs, vs)
    decreases SchemaSize(fs), 1
  {
    if fs == [] then [] else EncodeField(c, fs[0], vs[0]) + EncodeFields(c, fs[1..], vs[1..])
  }

  /** Array elements in index order, each as its fields. */
  function EncodeElements(c: Varint, fs: seq<Field>, es: seq<Element>): Bytes
    requires forall e :: e in es ==> Conforms(fs, e.values)
    decreases SchemaSize(fs), 2, |es|
  {
    if es == [] then [] else EncodeFields(c, fs, es[0].values) + EncodeElements(c, fs, es[1..])
  }

  /** A string is its length as a `vuint50` followed by its bytes, with nothing else. */
  lemma StringLayout(c: Varint, s: Bytes)
    ensures EncodeField(c, Str, StrV(s)) == c.encodeUnsigned(|s|) + s
    ensures EncodeField(c, Str, StrV(s))[|c.encodeUnsigned(|s|)|..] == s
  {
  }

  /** A byte block is its bytes with no prefix: exactly the declared number of bytes. */
  lemma BytesLayout(c: Varint, size: nat, b: Bytes)
    requires |b| == size
    ensures |EncodeField(c, FixedBytes(size), BytesV(b))| == size
  {
  }

  /* ---------------------------------------------------------------- parsing */

  datatype ParseError = EndOfStream | JunkAfterPacket

  /** A partial parse: the value read and the input left, or the error thrown. */
  datatype Parsed<T> = Parsed(value: T, rest: Bytes) | Failed(error: ParseError)

  /** A parse's own result after values already read; a failure stays the same failure. */
  function Prepend<T>(acc: seq<T>, p: Parsed<seq<T>>): Parsed<seq<T>>
  {
    match p
    case Parsed(vs, rest) => Parsed(acc + vs, rest)
    case Failed(e) => Failed(e)
  }

  lemma PrependNothing<T>(p: Parsed<seq<T>>)
    ensures Prepend([], p) == p
  {
    if p.Parsed? {
      assert [] + p.value == p.value;
    }
  }

  lemma PrependTwice<T>(acc: seq<T>, v: T, p: Parsed<seq<T>>)
    ensures Prepend(acc, Prepend([v], p)) == Prepend(acc + [v], p)
  {
    if p.Parsed? {
      assert acc + ([v] + p.value) == (acc + [v]) + p.value;
    }
  }

  /** `rest` is what remains of `input` after reading some of its bytes. */
  predicate SuffixOf(rest: Bytes, input: Bytes)
  {
    |rest| <= |input| && rest == input[|input| - |rest|..]
  }

  lemma SuffixTransitive(a: Bytes, b: Bytes, c: Bytes)
    requires SuffixOf(a, b) && SuffixOf(b, c)
    ensures SuffixOf(a, c)
  {
    assert c[|c| - |b|..][|b| - |a|..] == c[|c| - |a|..];
  }

  /** What a string read appends to: a top-level string keeps what it held, a fresh element's string is empty. */
  function Refill(cur: Value, v: Value): Value
  {
    if cur.StrV? && v.StrV? then StrV(cur.s + v.s) else v
  }

  /**
   * One field as `operator<<` reads it. A failing varint, a string longer than what remains and
   * a byte block larger than what remains are each the end of the stream.
   */
  function DecodeField(c: Varint, f: Field, input: Bytes, cur: Value): (r: Parsed<Value>)
    requires Bounded(c) && FieldConforms(f, cur)
    decreases FieldSize(f), 0
  {
    match f
    case VInt =>
      (match c.decodeSigned(input)
       case None => Failed(EndOfStream)
       case Some((v, n)) => Parsed(IntV(v), input[n..]))
    case VUInt =>
      (match c.decodeUnsigned(input)
       case None => Failed(EndOfStream)
       case Some((v, n)) => Parsed(UIntV(v), input[n..]))
    case Str =>
      (match c.decodeUnsigned(input)
       case None => Failed(EndOfStream)
       case Some((count, n)) =>
         var rest := input[n..];
         if |rest| < count then Failed(EndOfStream)
         else Parsed(StrV(cur.s + rest[..count]), rest[count..]))
    case FixedBytes(size) =>
      if |input| < size then Failed(EndOfStream) else Parsed(BytesV(input[..size]), input[size..])
    case Array(fs) =>
      (match c.decodeUnsigned(input)
       case None => Failed(EndOfStream)
       case Some((count, n)) =>
         match DecodeElements(c, fs, count, input[n..])
         case Failed(e) => Failed(e)
         case Parsed(es, rest) => Parsed(ArrayV(es), rest))
  }

  /** Fields in declaration order, each read over what it held before (`cur`). */
  function DecodeFields(c: Varint, fs: seq<Field>, input: Bytes, cur: seq<Value>): (r: Parsed<seq<Value>>)
    requires Bounded(c) && Conforms(fs, cur)
    decreases SchemaSize(fs), 1
  {
    if fs == [] then Parsed([], input)
    else
      match DecodeField(c, fs[0], input, cur[0])
      case Failed(e) => Failed(e)
      case Parsed(v, rest) =>
        match DecodeFields(c, fs[1..], rest, cur[1..])
        case Failed(e) => Failed(e)
        case Parsed(vs, rest') => Parsed([v] + vs, rest')
  }

  /** `count` array elements, each a fresh element whose fields are then read. */
  function DecodeElements(c: Varint, fs: seq<Field>, count: nat, input: Bytes): (r: Parsed<seq<Element>>)
    requires Bounded(c)
    decreases SchemaSize(fs), 2, count
  {
    if count == 0 then Parsed([], input)
    else
      match DecodeFields(c, fs, input, Defaults(fs))
      case Failed(e) => Failed(e)
      case Parsed(vs, rest) =>
        match DecodeElements(c, fs, count - 1, rest)
        case Failed(e) => Failed(e)
        case Parsed(es, rest') => Parsed([Element(vs)] + es, rest')
  }

  /** A parse either read part of its input or ran out of it: it never reports junk. */
  ghost predicate WellRead<T>(r: Parsed<T>, input: Bytes)
  {
    && (r.Parsed? ==> SuffixOf(r.rest, input))
    && (r.Failed? ==> r.error == EndOfStream)
  }

  /** Reading a field consumes a prefix of the input and yields a value of the field's kind. */
  lemma {:induction false} FieldReadWell(c: Varint, f: Field, input: Bytes, cur: Value)
    requires Bounded(c) && FieldConforms(f, cur)
    ensures WellRead(DecodeField(c, f, input, cur), input)
    ensures DecodeField(c, f, input, cur).Parsed? ==> FieldConforms(f, DecodeField(c, f, input, cur).value)
    decreases FieldSize(f), 0
  {
    match f
    case Array(fs) =>
      var d := c.decodeUnsigned(input);
      if d.Some? {
        var rest := input[d.value.1..];
        ElementsReadWell(c, fs, d.value.0, rest);
        var es := DecodeElements(c, fs, d.value.0, rest);
        if es.Parsed? {
          SuffixTransitive(es.rest, rest, input);
        }
      }
    case Str =>
      var d := c.decodeUnsigned(input);
      if d.Some? && d.value.0 <= |input| - d.value.1 {
        SuffixTransitive(input[d.value.1..][d.value.0..], input[d.value.1..], input);
      }
    case _ =>
  }

  /** Reading a field list consumes a prefix of the input and yields values matching the list. */
  lemma {:induction false} FieldsReadWell(c: Varint, fs: seq<Field>, input: Bytes, cur: seq<Value>)
    requires Bounded(c) && Conforms(fs, cur)
    ensures WellRead(DecodeFields(c, fs, input, cur), input)
    ensures DecodeFields(c, fs, input, cur).Parsed? ==> Conforms(fs, DecodeFields(c, fs, input, cur).value)
    decreases SchemaSize(fs), 1
  {
    if fs != [] {
      FieldReadWell(c, fs[0], input, cur[0]);
      var p := DecodeField(c, fs[0], input, cur[0]);
      if p.Parsed? {
        FieldsReadWell(c, fs[1..], p.rest, cur[1..]);
        var q := DecodeFields(c, fs[1..], p.rest, cur[1..]);
        if q.Parsed? {
          SuffixTransitive(q.rest, p.rest, input);
          assert ([p.value] + q.value)[1..] == q.value;
        }
      }
    }
  }

  /** Reading `count` elements consumes a prefix of the input and yields exactly `count` matching elements. */
  lemma {:induction false} ElementsReadWell(c: Varint, fs: seq<Field>, count: nat, input: Bytes)
    requires Bounded(c)
    ensures WellRead(DecodeElements(c, fs, count, input), input)
    ensures DecodeElements(c, fs, count, input).Parsed? ==>
      && |DecodeElements(c, fs, count, input).value| == count
      && forall e :: e in DecodeElements(c, fs, count, input).value ==> Conforms(fs, e.values)
    decreases SchemaSize(fs), 2, count
  {
    if count > 0 {
      FieldsReadWell(c, fs, input, Defaults(fs));
      var p := DecodeFields(c, fs, input, Defaults(fs));
      if p.Parsed? {
        ElementsReadWell(c, fs, count - 1, p.rest);
        var q := DecodeElements(c, fs, count - 1, p.rest);
        if q.Parsed? {
          SuffixTransitive(q.rest, p.rest, input);
        }
      }
    }
  }

  /** Reading a non-empty field list is reading its first field, then the others after it. */
  lemma {:induction false} DecodeFieldsStep(c: Varint, fs: seq<Field>, input: Bytes, cur: seq<Value>, v: Value, rest: Bytes)
    requires Bounded(c) && Conforms(fs, cur) && fs != []
    requires DecodeField(c, fs[0], input, cur[0]) == Parsed(v, rest)
    ensures DecodeFields(c, fs, input, cur) == Prepend([v], DecodeFields(c, fs[1..], rest, cur[1..]))
  {
  }

  /** Reading a positive number of elements is reading one fresh element, then the others after it. */
  lemma {:induction false} DecodeElementsStep(c: Varint, fs: seq<Field>, count: nat, input: Bytes, vs: seq<Value>, rest: Bytes)
    requires Bounded(c) && count > 0
    requires DecodeFields(c, fs, input, Defaults(fs)) == Parsed(vs, rest)
    ensures DecodeElements(c, fs, count, input) == Prepend([Element(vs)], DecodeElements(c, fs, count - 1, rest))
  {
  }

  /** The outcome of reading a whole message. */
  datatype Result<T> = Ok(value: T) | Err(error: ParseError)

  /** `operator<<`: all fields, then the buffer must be used up. */
  function Parse(c: Varint, fs: seq<Field>, input: Bytes, cur: seq<Value>): (r: Result<seq<Value>>)
    requires Bounded(c) && Conforms(fs, cur)
    ensures r.Ok? ==> Conforms(fs, r.value)
    ensures r == Err(JunkAfterPacket) <==> DecodeFields(c, fs, input, cur).Parsed? && DecodeFields(c, fs, input, cur).rest != []
    ensures r == Err(EndOfStream) <==> DecodeFields(c, fs, input, cur).Failed?
  {
    FieldsReadWell(c, fs, input, cur);
    match DecodeFields(c, fs, input, cur)
    case Failed(e) => Err(e)
    case Parsed(vs, rest) => if rest != [] then Err(JunkAfterPacket) else Ok(vs)
  }

  /* ---------------------------------------------------------------- round trip */

  function RefillAll(cur: seq<Value>, vs: seq<Value>): (r: seq<Value>)
    requires |cur| == |vs|
    ensures |r| == |vs|
  {
    if vs == [] then [] else [Refill(cur[0], vs[0])] + RefillAll(cur[1..], vs[1..])
  }

  /** Over a default-constructed message, reading back overwrites every field with what was read. */
  lemma {:induction false} RefillDefaults(fs: seq<Field>, vs: seq<Value>)
    requires Conforms(fs, vs)
    ensures RefillAll(Defaults(fs), vs) == vs
    decreases |fs|
  {
    if fs != [] {
      RefillDefaults(fs[1..], vs[1..]);
      assert Refill(DefaultValue(fs[0]), vs[0]) == vs[0] by {
        if fs[0].Str? {
          assert DefaultValue(fs[0]).s == [];
        }
      }
    }
  }

  lemma SignedRoundTrip(c: Varint, v: Value, rest: Bytes, cur: Value)
    requires Bounded(c) && RoundTrips(c)
    requires v.IntV? && Fits(v) && cur.IntV?
    ensures DecodeField(c, VInt, EncodeField(c, VInt, v) + rest, cur) == Parsed(v, rest)
  {
    var input := c.encodeSigned(v.i) + rest;
    assert c.encodeSigned(v.i) <= input;
    assert input[|c.encodeSigned(v.i)|..] == rest;
  }

  lemma UnsignedRoundTrip(c: Varint, v: Value, rest: Bytes, cur: Value)
    requires Bounded(c) && RoundTrips(c)
    requires v.UIntV? && Fits(v) && cur.UIntV?
    ensures DecodeField(c, VUInt, EncodeField(c, VUInt, v) + rest, cur) == Parsed(v, rest)
  {
    var input := c.encodeUnsigned(v.u) + rest;
    assert c.encodeUnsigned(v.u) <= input;
    assert input[|c.encodeUnsigned(v.u)|..] == rest;
  }

  lemma StringRoundTrip(c: Varint, v: Value, rest: Bytes, cur: Value)
    requires Bounded(c) && RoundTrips(c)
    requires v.StrV? && Fits(v) && cur.StrV?
    ensures DecodeField(c, Str, EncodeField(c, Str, v) + rest, cur) == Parsed(StrV(cur.s + v.s), rest)
  {
    var prefix := c.encodeUnsigned(|v.s|);
    var input := prefix + v.s + rest;
    assert input == prefix + (v.s + rest);
    assert prefix <= input;
    assert input[|prefix|..] == v.s + rest;
    assert (v.s + rest)[..|v.s|] == v.s && (v.s + rest)[|v.s|..] == rest;
  }

  lemma BytesRoundTrip(c: Varint, size: nat, v: Value, rest: Bytes, cur: Value)
    requires Bounded(c)
    requires v.BytesV? && |v.b| == size && cur.BytesV? && |cur.b| == size
    ensures DecodeField(c, FixedBytes(size), EncodeField(c, FixedBytes(size), v) + rest, cur) == Parsed(v, rest)
  {
    var input := v.b + rest;
    assert input[..size] == v.b && input[size..] == rest;
  }

  lemma {:induction false} FieldRoundTrip(c: Varint, f: Field, v: Value, rest: Bytes, cur: Value)
    requires Bounded(c) && RoundTrips(c)
    requires FieldConforms(f, v) && Fits(v) && FieldConforms(f, cur)
    ensures DecodeField(c, f, EncodeField(c, f, v) + rest, cur) == Parsed(Refill(cur, v), rest)
    decreases FieldSize(f), 0
  {
    match f
    case VInt => SignedRoundTrip(c, v, rest, cur);
    case VUInt => UnsignedRoundTrip(c, v, rest, cur);
    case Str => StringRoundTrip(c, v, rest, cur);
    case FixedBytes(size) => BytesRoundTrip(c, size, v, rest, cur);
    case Array(fs) => ArrayRoundTrip(c, fs, v, rest, cur);
  }

  lemma {:induction false} ArrayRoundTrip(c: Varint, fs: seq<Field>, v: Value, rest: Bytes, cur: Value)
    requires Bounded(c) && RoundTrips(c)
    requires FieldConforms(Array(fs), v) && Fits(v) && FieldConforms(Array(fs), cur)
    ensures DecodeField(c, Array(fs), EncodeField(c, Array(fs), v) + rest, cur) == Parsed(v, rest)
    decreases SchemaSize(fs), 3, 0, 0
  {
    var prefix := c.encodeUnsigned(|v.elements|);
    var body := EncodeElements(c, fs, v.elements);
    var input := EncodeField(c, Array(fs), v) + rest;
    assert input == prefix + (body + rest);
    assert prefix <= input;
    assert input[|prefix|..] == body + rest;
    ElementsRoundTrip(c, fs, v.elements, rest);
  }

  lemma {:induction false} FieldsRoundTrip(c: Varint, fs: seq<Field>, vs: seq<Value>, rest: Bytes, cur: seq<Value>)
    requires Bounded(c) && RoundTrips(c)
    requires Conforms(fs, vs) && AllFit(vs) && Conforms(fs, cur)
    ensures DecodeFields(c, fs, EncodeFields(c, fs, vs) + rest, cur) == Parsed(RefillAll(cur, vs), rest)
    decreases SchemaSize(fs), 1
  {
    if fs != [] {
      var tail := EncodeFields(c, fs[1..], vs[1..]) + rest;
      assert EncodeFields(c, fs, vs) + rest == EncodeField(c, fs[0], vs[0]) + tail;
      FieldRoundTrip(c, fs[0], vs[0], tail, cur[0]);
      assert AllFit(vs[1..]) by {
        forall v | v in vs[1..] ensures Fits(v) {
          assert v in vs;
        }
      }
      FieldsRoundTrip(c, fs[1..], vs[1..], rest, cur[1..]);
    }
  }

  lemma {:induction false} ElementsRoundTrip(c: Varint, fs: seq<Field>, es: seq<Element>, rest: Bytes)
    requires Bounded(c) && RoundTrips(c)
    requires forall e :: e in es ==> Conforms(fs, e.values) && AllFit(e.values)
    ensures DecodeElements(c, fs, |es|, EncodeElements(c, fs, es) + rest) == Parsed(es, rest)
    decreases SchemaSize(fs), 2, |es|, 1
  {
    if es != [] {
      FirstElementRoundTrip(c, fs, es, rest);
      var others := es[1..];
      assert forall e :: e in others ==> e in es;
      ElementsRoundTrip(c, fs, others, rest);
      ElementsCons(c, fs, es, rest);
    }
  }

  /** The first element of an encoded array reads back as itself, leaving the others' encoding. */
  lemma {:induction false} FirstElementRoundTrip(c: Varint, fs: seq<Field>, es: seq<Element>, rest: Bytes)
    requires Bounded(c) && RoundTrips(c) && es != []
    requires forall e :: e in es ==> Conforms(fs, e.values) && AllFit(e.values)
    ensures DecodeFields(c, fs, EncodeElements(c, fs, es) + rest, Defaults(fs))
         == Parsed(es[0].values, EncodeElements(c, fs, es[1..]) + rest)
    decreases SchemaSize(fs), 2, |es|, 0
  {
    var first := es[0].values;
    var tail := EncodeElements(c, fs, es[1..]) + rest;
    assert es[0] in es;
    assert EncodeElements(c, fs, es) + rest == EncodeFields(c, fs, first) + tail;
    FieldsRoundTrip(c, fs, first, tail, Defaults(fs));
    RefillDefaults(fs, first);
  }

  /** Reading the first element back and then the others reads all of them back. */
  lemma {:induction false} ElementsCons(c: Varint, fs: seq<Field>, es: seq<Element>, rest: Bytes)
    requires Bounded(c) && es != []
    requires forall e :: e in es ==> Conforms(fs, e.values)
    requires DecodeFields(c, fs, EncodeElements(c, fs, es) + rest, Defaults(fs))
          == Parsed(es[0].values, EncodeElements(c, fs, es[1..]) + rest)
    requires DecodeElements(c, fs, |es[1..]|, EncodeElements(c, fs, es[1..]) + rest) == Parsed(es[1..], rest)
    ensures DecodeElements(c, fs, |es|, EncodeElements(c, fs, es) + rest) == Parsed(es, rest)
  {
    var tail := es[1..];
    ReadOneMore(c, fs, EncodeElements(c, fs, es) + rest, es[0].values, EncodeElements(c, fs, tail) + rest, tail, rest);
    assert [Element(es[0].values)] + tail == es;
  }

  /** A fresh element read in front of `n` elements read gives `n + 1` elements. */
  lemma {:induction false} ReadOneMore(c: Varint, fs: seq<Field>, input: Bytes, head: seq<Value>, mid: Bytes, tail: seq<Element>, rest: Bytes)
    requires Bounded(c)
    requires DecodeFields(c, fs, input, Defaults(fs)) == Parsed(head, mid)
    requires DecodeElements(c, fs, |tail|, mid) == Parsed(tail, rest)
    ensures DecodeElements(c, fs, |tail| + 1, input) == Parsed([Element(head)] + tail, rest)
  {
    DecodeElementsStep(c, fs, |tail| + 1, input, head, mid);
  }

  /**
   * Reading the serialisation of a message into a default-constructed message, as the
   * constructor from a buffer does, reproduces the message, provided the varint codec round-trips.
   */
  lemma {:induction false} ParseSerialized(c: Varint, fs: seq<Field>, vs: seq<Value>)
    requires Bounded(c) && RoundTrips(c)
    requires Conforms(fs, vs) && AllFit(vs)
    ensures Parse(c, fs, EncodeFields(c, fs, vs), Defaults(fs)) == Ok(vs)
  {
    FieldsRoundTrip(c, fs, vs, [], Defaults(fs));
    RefillDefaults(fs, vs);
    assert EncodeFields(c, fs, vs) + [] == EncodeFields(c, fs, vs);
  }

  /** Any bytes after a complete message are junk. */
  lemma {:induction false} TrailingBytesAreJunk(c: Varint, fs: seq<Field>, vs: seq<Value>, junk: Bytes)
    requires Bounded(c) && RoundTrips(c)
    requires Conforms(fs, vs) && AllFit(vs) && junk != []
    ensures Parse(c, fs, EncodeFields(c, fs, vs) + junk, Defaults(fs)) == Err(JunkAfterPacket)
  {
    FieldsRoundTrip(c, fs, vs, junk, Defaults(fs));
  }

  /* ---------------------------------------------------------------- field-wise construction */

  /** The fields the field-wise constructor takes an argument for: integers and strings. */
  predicate Scalar(f: Field)
  {
    f.VInt? || f.VUInt? || f.Str?
  }

  /** The arguments of the field-wise constructor: one per scalar field, in order, of that field's kind. */
  ghost predicate ArgsConform(fs: seq<Field>, args: seq<Value>)
    decreases |fs|
  {
    if fs == [] then args == []
    else if Scalar(fs[0]) then args != [] && FieldConforms(fs[0], args[0]) && ArgsConform(fs[1..], args[1..])
    else ArgsConform(fs[1..], args)
  }

  /** The field-wise constructor: scalar fields from the arguments, byte blocks and arrays value-initialised. */
  function FieldWise(fs: seq<Field>, args: seq<Value>): (vs: seq<Value>)
    requires ArgsConform(fs, args)
    ensures Conforms(fs, vs)
    decreases |fs|
  {
    if fs == [] then []
    else if Scalar(fs[0]) then [args[0]] + FieldWise(fs[1..], args[1..])
    else [DefaultValue(fs[0])] + FieldWise(fs[1..], args)
  }

  /** The values of the scalar fields, in order. */
  function Scalars(fs: seq<Field>, vs: seq<Value>): seq<Value>
    requires |fs| == |vs|
    decreases |fs|
  {
    if fs == [] then [] else (if Scalar(fs[0]) then [vs[0]] else []) + Scalars(fs[1..], vs[1..])
  }

  /** The field-wise constructor stores every argument in its field and value-initialises the others. */
  lemma {:induction false} FieldWiseStoresArgs(fs: seq<Field>, args: seq<Value>)
    requires ArgsConform(fs, args)
    ensures Scalars(fs, FieldWise(fs, args)) == args
    ensures forall i :: 0 <= i < |fs| && !Scalar(fs[i]) ==> FieldWise(fs, args)[i] == DefaultValue(fs[i])
    decreases |fs|
  {
    if fs != [] {
      if Scalar(fs[0]) {
        FieldWiseStoresArgs(fs[1..], args[1..]);
        assert [args[0]] + args[1..] == args;
      } else {
        FieldWiseStoresArgs(fs[1..], args);
      }
      var vs := FieldWise(fs, args);
      forall i | 1 <= i < |fs| && !Scalar(fs[i])
        ensures vs[i] == DefaultValue(fs[i])
      {
        assert fs[1..][i - 1] == fs[i];
      }
    }
  }

  /* ---------------------------------------------------------------- the generated code */

  /** One field written through the output iterator. */
  method WriteField(c: Varint, f: Field, v: Value, buf: Bytes) returns (out: Bytes)
    requires FieldConforms(f, v)
    ensures out == buf + EncodeField(c, f, v)
    decreases FieldSize(f), 0
  {
    match f
    case VInt => out := buf + c.encodeSigned(v.i);
    case VUInt => out := buf + c.encodeUnsigned(v.u);
    case Str => out := buf + c.encodeUnsigned(|v.s|) + v.s;
    case FixedBytes(_) => out := buf + v.b;
    case Array(fs) =>
      out := buf + c.encodeUnsigned(|v.elements|);
      out := WriteElements(c, fs, v.elements, out);
  }

  /** Array elements written in index order. */
  method WriteElements(c: Varint, fs: seq<Field>, es: seq<Element>, buf: Bytes) returns (out: Bytes)
    requires forall e :: e in es ==> Conforms(fs, e.values)
    ensures out == buf + EncodeElements(c, fs, es)
    decreases SchemaSize(fs), 2
  {
    out := buf;
    var k := 0;
    while k < |es|
      invariant 0 <= k <= |es|
      invariant out + EncodeElements(c, fs, es[k..]) == buf + EncodeElements(c, fs, es)
    {
      assert es[k..][1..] == es[k + 1..];
      assert es[k] in es;
      out := WriteFields(c, fs, es[k].values, out);
      k := k + 1;
    }
  }

  /** Fields written in declaration order. */
  method WriteFields(c: Varint, fs: seq<Field>, vs: seq<Value>, buf: Bytes) returns (out: Bytes)
    requires Conforms(fs, vs)
    ensures out == buf + EncodeFields(c, fs, vs)
    decreases SchemaSize(fs), 1
  {
    out := buf;
    var i := 0;
    while i < |fs|
      invariant 0 <= i <= |fs|
      invariant Conforms(fs[i..], vs[i..])
      invariant out + EncodeFields(c, fs[i..], vs[i..]) == buf + EncodeFields(c, fs, vs)
    {
      FieldSizeBound(fs, i);
      assert fs[i..][1..] == fs[i + 1..] && vs[i..][1..] == vs[i + 1..];
      out := WriteField(c, fs[i], vs[i], out);
      i := i + 1;
    }
  }

  /** One field read through the input iterator; a string's bytes are pushed one at a time. */
  method ReadField(c: Varint, f: Field, input: Bytes, cur: Value) returns (r: Parsed<Value>)
    requires Bounded(c) && FieldConforms(f, cur)
    ensures r == DecodeField(c, f, input, cur)
    decreases FieldSize(f), 0
  {
    match f
    case VInt =>
      var d := c.decodeSigned(input);
      if d.None? {
        return Failed(EndOfStream);
      }
      r := Parsed(IntV(d.value.0), input[d.value.1..]);
    case VUInt =>
      var d := c.decodeUnsigned(input);
      if d.None? {
        return Failed(EndOfStream);
      }
      r := Parsed(UIntV(d.value.0), input[d.value.1..]);
    case Str =>
      var d := c.decodeUnsigned(input);
      if d.None? {
        return Failed(EndOfStream);
      }
      var count, rest := d.value.0, input[d.value.1..];
      if |rest| < count {
        return Failed(EndOfStream);
      }
      var s := cur.s;
      var k := 0;
      while k < count
        invariant 0 <= k <= count
        invariant s == cur.s + rest[..k]
      {
        assert rest[..k + 1] == rest[..k] + [rest[k]];
        s := s + [rest[k]];
        k := k + 1;
      }
      r := Parsed(StrV(s), rest[count..]);
    case FixedBytes(size) =>
      if |input| < size {
        return Failed(EndOfStream);
      }
      var b := [];
      var k := 0;
      while k < size
        invariant 0 <= k <= size
        invariant b == input[..k]
      {
        assert input[..k + 1] == input[..k] + [input[k]];
        b := b + [input[k]];
        k := k + 1;
      }
      r := Parsed(BytesV(b), input[size..]);
    case Array(fs) =>
      var d := c.decodeUnsigned(input);
      if d.None? {
        return Failed(EndOfStream);
      }
      var es := ReadElements(c, fs, d.value.0, input[d.value.1..]);
      match es
      case Failed(e) => r := Failed(e);
      case Parsed(elements, rest) => r := Parsed(ArrayV(elements), rest);
  }

  /** Fields read in declaration order; the first failure is thrown. */
  method ReadFields(c: Varint, fs: seq<Field>, input: Bytes, cur: seq<Value>) returns (r: Parsed<seq<Value>>)
    requires Bounded(c) && Conforms(fs, cur)
    ensures r == DecodeFields(c, fs, input, cur)
    decreases SchemaSize(fs), 1
  {
    var acc: seq<Value> := [];
    var rest := input;
    var i := 0;
    assert fs[i..] == fs && cur[i..] == cur;
    PrependNothing(DecodeFields(c, fs, input, cur));
    while i < |fs|
      invariant 0 <= i <= |fs|
      invariant Conforms(fs[i..], cur[i..])
      invariant DecodeFields(c, fs, input, cur) == Prepend(acc, DecodeFields(c, fs[i..], rest, cur[i..]))
    {
      FieldSizeBound(fs, i);
      assert fs[i..][0] == fs[i] && cur[i..][0] == cur[i];
      assert fs[i..][1..] == fs[i + 1..] && cur[i..][1..] == cur[i + 1..];
      var p := ReadField(c, fs[i], rest, cur[i]);
      if p.Failed? {
        return Failed(p.error);
      }
      DecodeFieldsStep(c, fs[i..], rest, cur[i..], p.value, p.rest);
      PrependTwice(acc, p.value, DecodeFields(c, fs[i + 1..], p.rest, cur[i + 1..]));
      acc, rest := acc + [p.value], p.rest;
      i := i + 1;
    }
    assert acc + [] == acc;
    r := Parsed(acc, rest);
  }

  /** `count` elements read in index order, each pushed as a fresh element and then filled. */
  method ReadElements(c: Varint, fs: seq<Field>, count: nat, input: Bytes) returns (r: Parsed<seq<Element>>)
    requires Bounded(c)
    ensures r == DecodeElements(c, fs, count, input)
    decreases SchemaSize(fs), 2, count
  {
    var acc: seq<Element> := [];
    var rest := input;
    var left := count;
    PrependNothing(DecodeElements(c, fs, count, input));
    while left > 0
      invariant DecodeElements(c, fs, count, input) == Prepend(acc, DecodeElements(c, fs, left, rest))
    {
      var p := ReadFields(c, fs, rest, Defaults(fs));
      if p.Failed? {
        ElementsFail(c, fs, left, rest, acc);
        return Failed(p.error);
      }
      assert DecodeElements(c, fs, count, input) == Prepend(acc + [Element(p.value)], DecodeElements(c, fs, left - 1, p.rest)) by {
        ElementsAdvance(c, fs, left, rest, acc, p.value, p.rest);
      }
      acc, rest, left := acc + [Element(p.value)], p.rest, left - 1;
    }
    assert acc + [] == acc;
    r := Parsed(acc, rest);
  }

  lemma {:induction false} ElementsFail(c: Varint, fs: seq<Field>, n: nat, rest: Bytes, acc: seq<Element>)
    requires Bounded(c) && n > 0 && DecodeFields(c, fs, rest, Defaults(fs)).Failed?
    ensures Prepend(acc, DecodeElements(c, fs, n, rest)) == Failed(DecodeFields(c, fs, rest, Defaults(fs)).error)
  {
  }

  lemma {:induction false} ElementsAdvance(c: Varint, fs: seq<Field>, n: nat, rest: Bytes, acc: seq<Element>, vs: seq<Value>, rest': Bytes)
    requires Bounded(c) && n > 0 && DecodeFields(c, fs, rest, Defaults(fs)) == Parsed(vs, rest')
    ensures Prepend(acc, DecodeElements(c, fs, n, rest)) == Prepend(acc + [Element(vs)], DecodeElements(c, fs, n - 1, rest'))
  {
    DecodeElementsStep(c, fs, n, rest, vs, rest');
    PrependTwice(acc, Element(vs), DecodeElements(c, fs, n - 1, rest'));
  }

  /** A generated message class: its field list and the current field values. */
  class Message {
    const schema: seq<Field>
    var values: seq<Value>

    ghost predicate Valid()
      reads this
    {
      Conforms(schema, values)
    }

    /** The default constructor: every field value-initialised. */
    constructor (fs: seq<Field>)
      ensures schema == fs && values == Defaults(fs) && Valid()
    {
      schema, values := fs, Defaults(fs);
    }

    /** The field-wise constructor: one argument per integer or string field, in order. */
    constructor FromFields(fs: seq<Field>, args: seq<Value>)
      requires ArgsConform(fs, args)
      ensures schema == fs && values == FieldWise(fs, args) && Valid()
    {
      schema, values := fs, FieldWise(fs, args);
    }

    /** `set_<name>(val)`: an integer or string field takes the new value; the others keep theirs. */
    method SetField(i: nat, v: Value)
      requires Valid() && i < |schema| && Scalar(schema[i]) && FieldConforms(schema[i], v)
      modifies this
      ensures Valid() && values == old(values)[i := v]
    {
      assert Conforms(schema, values[i := v]) by {
        SetConforms(schema, values, i, v);
      }
      values := values[i := v];
    }

    /** `operator>>`: the serialisation is appended to the buffer; the message is unchanged. */
    method WriteTo(c: Varint, buf: Bytes) returns (out: Bytes)
      requires Valid()
      ensures out == buf + EncodeFields(c, schema, values)
    {
      out := WriteFields(c, schema, values, buf);
    }

    /**
     * `operator<<`: reads every field over its current value, draining the caller's buffer, then
     * insists that the buffer is used up. On success the message holds what `Parse` yields and
     * the buffer is empty; after junk the unread bytes stay in the buffer. `left` is the buffer
     * afterwards.
     */
    method ReadFrom(c: Varint, input: Bytes) returns (err: Option<ParseError>, left: Bytes)
      requires Bounded(c) && Valid()
      modifies this
      ensures Valid()
      ensures err.None? <==> Parse(c, schema, input, old(values)).Ok?
      ensures err.None? ==> values == Parse(c, schema, input, old(values)).value && left == []
      ensures err.Some? ==> Parse(c, schema, input, old(values)) == Err(err.value)
      ensures err == Some(JunkAfterPacket) ==>
        left != [] && SuffixOf(left, input) && left == DecodeFields(c, schema, input, old(values)).rest
    {
      var p := ReadFields(c, schema, input, values);
      FieldsReadWell(c, schema, input, values);
      match p
      case Failed(e) =>
        err, left := Some(e), input;
      case Parsed(vs, rest) =>
        if rest != [] {
          err, left := Some(JunkAfterPacket), rest;
        } else {
          values, err, left := vs, None, [];
        }
    }
  }

  lemma {:induction false} SetConforms(fs: seq<Field>, vs: seq<Value>, i: nat, v: Value)
    requires Conforms(fs, vs) && i < |fs| && FieldConforms(fs[i], v)
    ensures Conforms(fs, vs[i := v])
    decreases i
  {
    if i == 0 {
      assert vs[i := v][1..] == vs[1..];
    } else {
      assert vs[i := v][1..] == vs[1..][i - 1 := v];
      SetConforms(fs[1..], vs[1..], i - 1, v);
    }
  }
}
