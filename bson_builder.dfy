/**
 * `MongoDb::BsonBuilder`: a queue of named, tagged elements that the `append_*` operations fill
 * and that `build` hands, in queue order, to the BSON library. The library itself is not part of
 * this model: whether each of its calls succeeds and the bytes it finally produces are the
 * functions of a `Libbson` value.
 */
module MongoBson {
  import opened Common
  import MongoOid

  const INT32_MAX: nat := 0x7FFF_FFFF
  const INT64_MAX: nat := 0x7FFF_FFFF_FFFF_FFFF
  const TWO_64: nat := 0x1_0000_0000_0000_0000

  /** `BSON_BINARY_SUBTYPE_USER_DEFINED`, the subtype blobs are stored with. */
  const SUBTYPE_USER_DEFINED: byte := 0x80

  type Int64 = x: int | -(INT64_MAX + 1) <= x <= INT64_MAX
  type Word64 = x: int | 0 <= x < TWO_64

  /** The 36 characters `Uuid::to_string` writes. */
  type UuidText = s: Bytes | |s| == 36 witness seq(36, _ => 48)

  /** The element tags (`T_OID` ... `T_ARRAY`). */
  datatype Tag = TOid | TBoolean | TSigned | TUnsigned | TDouble | TString
               | TDatetime | TUuid | TBlob | TRegex | TObject | TArray

  /**
   * The fixed-size `small` buffer of an element, seen as what was stored into it: the twelve
   * object id bytes, a `bool`, a 64-bit pattern (signed, unsigned and `double` values are all
   * stored by bit copy), or uuid text. Elements whose payload is in `large` leave it unset.
   */
  datatype Small = Unset | OidBytes(oid: MongoOid.OidBytes) | Flag(b: bool) | Bits(w: Word64) | Text(t: UuidText)

  datatype Element = Element(tag: Tag, name: string, small: Small, large: Bytes)

  /** What each tag's `build` branch loads from `small` was stored there by the matching append. */
  ghost predicate Consistent(e: Element)
  {
    match e.tag
    case TOid => e.small.OidBytes?
    case TBoolean => e.small.Flag?
    case TSigned | TUnsigned | TDouble | TDatetime => e.small.Bits?
    case TUuid => e.small.Text?
    case _ => true
  }

  /* ---------------------------------------------------------------- integer conversions */

  /** Storing a signed 64-bit integer by bit copy: its two's-complement pattern. */
  function ToBits(v: Int64): Word64
  {
    v % TWO_64
  }

  /** Loading a 64-bit pattern as `int64` (also `static_cast<gint64>` of a `uint64`). */
  function Signed64(w: Word64): (v: Int64)
    ensures v % TWO_64 == w
    ensures v == w <==> w <= INT64_MAX
  {
    if w <= INT64_MAX then w else w - TWO_64
  }

  /** A signed value survives the store and the load unchanged. */
  lemma SignedBitsRoundTrip(v: Int64)
    ensures Signed64(ToBits(v)) == v
  {
    if v < 0 {
      assert ToBits(v) == v + TWO_64;
    }
  }

  datatype BuildError =
    | CreateFailed        // bson_new() or bson_new_from_data() returned null
    | AppendFailed(tag: Tag)
    | DoesNotFitInt32     // narrowing_cast_int32
    | SizeTooLarge        // the size check of the array branch
    | FinishFailed

  datatype Result<T> = Ok(value: T) | Err(error: BuildError)

  /** `narrowing_cast_int32` of a size: refused above 0x7FFFFFFF, otherwise the same value. */
  function NarrowingCastInt32(value: nat): (r: Result<int>)
    ensures r.Ok? <==> value <= INT32_MAX
    ensures r.Ok? ==> r.value == value && -(INT32_MAX + 1) <= r.value <= INT32_MAX
    ensures r.Err? ==> r.error == DoesNotFitInt32
  {
    if value > INT32_MAX then Err(DoesNotFitInt32) else Ok(value)
  }

  /* ---------------------------------------------------------------- what the library receives */

  /** One call of a `bson_append_*` function, with the arguments it is given. */
  datatype BsonItem =
    | OidItem(name: string, oid: MongoOid.OidBytes)
    | BooleanItem(name: string, b: bool)
    | Int64Item(name: string, i: Int64)
    | DoubleItem(name: string, bits: Word64)
    | StringItem(name: string, s: Bytes)
    | DatetimeItem(name: string, ms: Int64)
    | BinaryItem(name: string, subtype: byte, data: Bytes)
    | RegexItem(name: string, pattern: Bytes, options: Bytes)
    | DocumentItem(name: string, data: Bytes)
    | ArrayItem(name: string, data: Bytes)

  /** The BSON library: whether `bson_new`, `bson_new_from_data` and `bson_append_*` succeed, and what `bson_finish` yields. */
  datatype Libbson = Libbson(
    created: bool,
    fromData: Bytes -> bool,
    append: (seq<BsonItem>, BsonItem) -> bool,
    finish: seq<BsonItem> -> Option<Bytes>)

  /** A NUL-terminated string read from `c_str()`: the bytes before the first zero byte. */
  function CString(s: Bytes): (r: Bytes)
    ensures r <= s
    ensures forall i :: 0 <= i < |r| ==> r[i] != 0
    ensures |r| < |s| ==> s[|r|] == 0
  {
    if s == [] || s[0] == 0 then [] else [s[0]] + CString(s[1..])
  }

  /** `std::max<std::size_t>(size, 1) - 1`: every byte but the last one, and nothing of nothing. */
  function DropLast(s: Bytes): (r: Bytes)
    ensures s != [] ==> r + [s[|s| - 1]] == s
    ensures s == [] ==> r == []
  {
    if s == [] then [] else s[..|s| - 1]
  }

  /**
   * The arguments one element of the queue is appended with. The size conversions and the size
   * check of the array branch come first; for a nested document or array, the data handed to
   * `bson_new_from_data` is the item's data.
   */
  function Convert(e: Element): (r: Result<BsonItem>)
    requires Consistent(e)
    ensures r.Err? <==> (e.tag == TString || e.tag == TBlob || e.tag == TObject || e.tag == TArray) && |e.large| > INT32_MAX
    ensures r.Err? ==> r.error == (if e.tag == TArray then SizeTooLarge else DoesNotFitInt32)
    ensures r.Ok? ==> r.value.name == e.name
  {
    match e.tag
    case TOid => Ok(OidItem(e.name, e.small.oid))
    case TBoolean => Ok(BooleanItem(e.name, e.small.b))
    case TSigned => Ok(Int64Item(e.name, Signed64(e.small.w)))
    case TUnsigned => Ok(Int64Item(e.name, Signed64(e.small.w)))
    case TDouble => Ok(DoubleItem(e.name, e.small.w))
    case TString =>
      (match NarrowingCastInt32(|e.large|)
       case Err(err) => Err(err)
       case Ok(_) => Ok(StringItem(e.name, e.large)))
    case TDatetime => Ok(DatetimeItem(e.name, Signed64(e.small.w)))
    case TUuid => Ok(StringItem(e.name, e.small.t))
    case TBlob =>
      (match NarrowingCastInt32(|e.large|)
       case Err(err) => Err(err)
       case Ok(_) => Ok(BinaryItem(e.name, SUBTYPE_USER_DEFINED, e.large)))
    case TRegex => Ok(RegexItem(e.name, CString(e.large), []))
    case TObject =>
      (match NarrowingCastInt32(|e.large|)
       case Err(err) => Err(err)
       case Ok(_) => Ok(DocumentItem(e.name, e.large)))
    case TArray =>
      if |e.large| > INT32_MAX then Err(SizeTooLarge) else Ok(ArrayItem(e.name, DropLast(e.large)))
  }

  /** One iteration of the `build` loop, over the items appended so far. */
  function Step(lib: Libbson, done: seq<BsonItem>, e: Element): (r: Result<BsonItem>)
    requires Consistent(e)
    ensures r.Ok? ==> Convert(e) == r && lib.append(done, r.value)
    ensures Convert(e).Err? ==> r == Convert(e)
    ensures r.Err? && Convert(e).Ok? ==> r.error == CreateFailed || r.error == AppendFailed(e.tag)
  {
    match Convert(e)
    case Err(err) => Err(err)
    case Ok(item) =>
      if (item.DocumentItem? || item.ArrayItem?) && !lib.fromData(item.data) then Err(CreateFailed)
      else if !lib.append(done, item) then Err(AppendFailed(e.tag))
      else Ok(item)
  }

  /** The loop of `build` from `done` onwards: the first failure ends it. */
  function AppendAll(lib: Libbson, done: seq<BsonItem>, q: seq<Element>): Result<seq<BsonItem>>
    requires forall i :: 0 <= i < |q| ==> Consistent(q[i])
    decreases |q|
  {
    if q == [] then Ok(done)
    else
      match Step(lib, done, q[0])
      case Err(err) => Err(err)
      case Ok(item) => AppendAll(lib, done + [item], q[1..])
  }

  /** `build`: create the document, append every element in queue order, finish it. */
  function Built(lib: Libbson, q: seq<Element>): Result<Bytes>
    requires forall i :: 0 <= i < |q| ==> Consistent(q[i])
  {
    if !lib.created then Err(CreateFailed)
    else
      match AppendAll(lib, [], q)
      case Err(err) => Err(err)
      case Ok(items) =>
        match lib.finish(items)
        case None => Err(FinishFailed)
        case Some(data) => Ok(data)
  }

  /* ---------------------------------------------------------------- properties of build */

  /** Appending a queue in two halves is appending the first half, then the second after it. */
  lemma {:induction false} AppendAllConcat(lib: Libbson, done: seq<BsonItem>, q1: seq<Element>, q2: seq<Element>)
    requires forall i :: 0 <= i < |q1| ==> Consistent(q1[i])
    requires forall i :: 0 <= i < |q2| ==> Consistent(q2[i])
    ensures forall i :: 0 <= i < |q1 + q2| ==> Consistent((q1 + q2)[i])
    ensures AppendAll(lib, done, q1 + q2) ==
      match AppendAll(lib, done, q1)
      case Err(err) => Err(err)
      case Ok(items) => AppendAll(lib, items, q2)
    decreases |q1|
  {
    assert forall i :: 0 <= i < |q1 + q2| ==> Consistent((q1 + q2)[i]) by {
      forall i | 0 <= i < |q1 + q2| ensures Consistent((q1 + q2)[i]) {
        if i < |q1| { assert (q1 + q2)[i] == q1[i]; } else { assert (q1 + q2)[i] == q2[i - |q1|]; }
      }
    }
    if q1 != [] {
      assert (q1 + q2)[0] == q1[0] && (q1 + q2)[1..] == q1[1..] + q2;
      match Step(lib, done, q1[0])
      case Err(_) =>
      case Ok(item) => AppendAllConcat(lib, done + [item], q1[1..], q2);
    } else {
      assert q1 + q2 == q2;
    }
  }

  /**
   * On success the library received one item per element, in queue order, each converted from its
   * element, after what it had received before.
   */
  lemma {:induction false} AppendAllInOrder(lib: Libbson, done: seq<BsonItem>, q: seq<Element>, items: seq<BsonItem>)
    requires forall i :: 0 <= i < |q| ==> Consistent(q[i])
    requires AppendAll(lib, done, q) == Ok(items)
    ensures |items| == |done| + |q| && items[..|done|] == done
    ensures forall i :: 0 <= i < |q| ==> Convert(q[i]) == Ok(items[|done| + i])
    decreases |q|
  {
    if q != [] {
      var item := Step(lib, done, q[0]).value;
      AppendAllInOrder(lib, done + [item], q[1..], items);
      forall i | 0 <= i < |q| ensures Convert(q[i]) == Ok(items[|done| + i]) {
        if i > 0 {
          assert q[1..][i - 1] == q[i];
        }
      }
      assert items[..|done|] == (items[..|done| + 1])[..|done|];
    }
  }

  /**
   * `build` fails with the error of the first element that fails, whatever follows it: the
   * elements after it are never handed to the library.
   */
  lemma FirstFailureWins(lib: Libbson, q1: seq<Element>, e: Element, q2: seq<Element>, items: seq<BsonItem>)
    requires forall i :: 0 <= i < |q1| ==> Consistent(q1[i])
    requires Consistent(e) && forall i :: 0 <= i < |q2| ==> Consistent(q2[i])
    requires lib.created && AppendAll(lib, [], q1) == Ok(items) && Step(lib, items, e).Err?
    ensures forall i :: 0 <= i < |q1 + [e] + q2| ==> Consistent((q1 + [e] + q2)[i])
    ensures Built(lib, q1 + [e] + q2) == Err(Step(lib, items, e).error)
  {
    assert forall i :: 0 <= i < |[e] + q2| ==> Consistent(([e] + q2)[i]) by {
      forall i | 0 <= i < |[e] + q2| ensures Consistent(([e] + q2)[i]) {
        if i > 0 { assert ([e] + q2)[i] == q2[i - 1]; }
      }
    }
    AppendAllConcat(lib, [], q1, [e] + q2);
    assert q1 + [e] + q2 == q1 + ([e] + q2);
    assert ([e] + q2)[0] == e;
  }

  /** `build` of an empty queue is the finished empty document. */
  lemma BuildEmpty(lib: Libbson)
    ensures Built(lib, []) == if !lib.created then Err(CreateFailed)
                              else if lib.finish([]).None? then Err(FinishFailed)
                              else Ok(lib.finish([]).value)
  {
  }

  /* ---------------------------------------------------------------- the elements the appends push */

  /** `append_oid`: always named `_id`, tagged as an object id, the twelve bytes copied. */
  function OidElement(oid: MongoOid.Oid): (e: Element)
    ensures Consistent(e) && e.tag == TOid && e.name == "_id"
    ensures Convert(e) == Ok(OidItem("_id", oid.bytes))
  {
    Element(TOid, "_id", OidBytes(oid.bytes), [])
  }

  function BooleanElement(name: string, value: bool): (e: Element)
    ensures Consistent(e) && Convert(e) == Ok(BooleanItem(name, value))
  {
    Element(TBoolean, name, Flag(value), [])
  }

  /** `append_signed`: the stored bit pattern loads back as the same 64-bit integer. */
  function SignedElement(name: string, value: Int64): (e: Element)
    ensures Consistent(e) && Convert(e) == Ok(Int64Item(name, value))
  {
    SignedBitsRoundTrip(value);
    Element(TSigned, name, Bits(ToBits(value)), [])
  }

  /** `append_unsigned`: appended as a signed 64-bit integer, so values above INT64_MAX wrap to negative. */
  function UnsignedElement(name: string, value: Word64): (e: Element)
    ensures Consistent(e)
    ensures value <= INT64_MAX ==> Convert(e) == Ok(Int64Item(name, value))
    ensures value > INT64_MAX ==> Convert(e) == Ok(Int64Item(name, value - TWO_64))
  {
    Element(TUnsigned, name, Bits(value), [])
  }

  /** `append_double`: the value is carried as its 64-bit pattern. */
  function DoubleElement(name: string, bits: Word64): (e: Element)
    ensures Consistent(e) && Convert(e) == Ok(DoubleItem(name, bits))
  {
    Element(TDouble, name, Bits(bits), [])
  }

  /** `append_string`: a string longer than INT32_MAX bytes cannot be appended. */
  function StringElement(name: string, value: Bytes): (e: Element)
    ensures Consistent(e)
    ensures Convert(e).Ok? <==> |value| <= INT32_MAX
    ensures Convert(e).Ok? ==> Convert(e).value == StringItem(name, value)
  {
    Element(TString, name, Unset, value)
  }

  /** `append_datetime` with the datetime tag: the value reaches `bson_append_utc_datetime`, as a signed 64-bit integer. */
  function DatetimeElement(name: string, value: Word64): (e: Element)
    ensures Consistent(e) && Convert(e) == Ok(DatetimeItem(name, Signed64(value)))
  {
    Element(TDatetime, name, Bits(value), [])
  }

  /** `append_uuid` with the uuid tag: the 36 characters of the uuid text become the string. */
  function UuidElement(name: string, text: UuidText): (e: Element)
    ensures Consistent(e) && Convert(e) == Ok(StringItem(name, text))
  {
    Element(TUuid, name, Text(text), [])
  }

  /** `append_blob`: user-defined binary data, refused above INT32_MAX bytes. */
  function BlobElement(name: string, value: Bytes): (e: Element)
    ensures Consistent(e)
    ensures Convert(e).Ok? <==> |value| <= INT32_MAX
    ensures Convert(e).Ok? ==> Convert(e).value == BinaryItem(name, SUBTYPE_USER_DEFINED, value)
  {
    Element(TBlob, name, Unset, value)
  }

  /** `append_regex`: the pattern is read as a C string, so it ends at its first zero byte; no options. */
  function RegexElement(name: string, value: Bytes): (e: Element)
    ensures Consistent(e) && Convert(e).Ok? && Convert(e).value.RegexItem?
    ensures Convert(e).value.pattern <= value && Convert(e).value.options == []
    ensures (forall i :: 0 <= i < |value| ==> value[i] != 0) ==> Convert(e).value.pattern == value
  {
    Element(TRegex, name, Unset, value)
  }

  /** `append_object`: the nested builder's output without its last byte (its terminating zero). */
  function ObjectElement(name: string, built: Bytes): (e: Element)
    ensures Consistent(e) && e.tag == TObject
    ensures built != [] ==> e.large + [built[|built| - 1]] == built
    ensures built == [] ==> e.large == []
  {
    Element(TObject, name, Unset, DropLast(built))
  }

  /** `append_array`: stored like a nested object. */
  function ArrayElement(name: string, built: Bytes): (e: Element)
    ensures Consistent(e) && e.tag == TArray
    ensures built != [] ==> e.large + [built[|built| - 1]] == built
    ensures built == [] ==> e.large == []
  {
    Element(TArray, name, Unset, DropLast(built))
  }

  /** A nested object reaches the library as the nested output without its last byte. */
  lemma ObjectData(name: string, built: Bytes)
    requires 0 < |built| <= INT32_MAX + 1
    ensures Convert(ObjectElement(name, built)) == Ok(DocumentItem(name, built[..|built| - 1]))
  {
  }

  /** A nested array reaches the library without the last two bytes of the nested output. */
  lemma ArrayDataTrimmedTwice(name: string, built: Bytes)
    requires 2 <= |built| <= INT32_MAX + 1
    ensures Convert(ArrayElement(name, built)) == Ok(ArrayItem(name, built[..|built| - 2]))
  {
    assert DropLast(built) == built[..|built| - 1];
    assert DropLast(built[..|built| - 1]) == built[..|built| - 2];
  }

  /** The datetime payload is kept: distinct times become distinct items. */
  lemma DatetimeKeepsValue(name: string, v1: Word64, v2: Word64)
    requires v1 != v2
    ensures Convert(DatetimeElement(name, v1)) != Convert(DatetimeElement(name, v2))
  {
    assert Signed64(v1) % TWO_64 != Signed64(v2) % TWO_64;
  }

  /* ---------------------------------------------------------------- the datetime and uuid appends as written */

  /** `append_datetime` as written: tagged as a string while the value goes into `small`. */
  function DatetimeElementAsWritten(name: string, value: Word64): (e: Element)
    ensures Consistent(e) && e.tag == TString && e.large == []
  {
    Element(TString, name, Bits(value), [])
  }

  /** `append_uuid` as written: tagged as a string while the text goes into `small`. */
  function UuidElementAsWritten(name: string, text: UuidText): (e: Element)
    ensures Consistent(e) && e.tag == TString && e.large == []
  {
    Element(TString, name, Text(text), [])
  }

  /**
   * As written, the string branch appends the empty `large`: every datetime and every uuid
   * becomes the same empty string, and the datetime and uuid branches of `build` are never reached.
   */
  lemma AsWrittenPayloadIsLost(name: string, value: Word64, text: UuidText)
    ensures Convert(DatetimeElementAsWritten(name, value)) == Ok(StringItem(name, []))
    ensures Convert(UuidElementAsWritten(name, text)) == Ok(StringItem(name, []))
    ensures Convert(DatetimeElementAsWritten(name, 0)) == Convert(DatetimeElementAsWritten(name, 1))
  {
  }

  /* ---------------------------------------------------------------- the builder */

  class BsonBuilder {
    var queue: seq<Element>

    ghost predicate Valid()
      reads this
    {
      forall i :: 0 <= i < |queue| ==> Consistent(queue[i])
    }

    constructor()
      ensures Valid() && queue == []
    {
      queue := [];
    }

    /** Every append pushes exactly one element at the back and keeps the earlier ones. */
    method AppendOid(oid: MongoOid.Oid)
      requires Valid()
      modifies this
      ensures Valid() && queue == old(queue) + [OidElement(oid)]
    {
      queue := queue + [OidElement(oid)];
    }

    method AppendBoolean(name: string, value: bool)
      requires Valid()
      modifies this
      ensures Valid() && queue == old(queue) + [BooleanElement(name, value)]
    {
      queue := queue + [BooleanElement(name, value)];
    }

    method AppendSigned(name: string, value: Int64)
      requires Valid()
      modifies this
      ensures Valid() && queue == old(queue) + [SignedElement(name, value)]
    {
      queue := queue + [SignedElement(name, value)];
    }

    method AppendUnsigned(name: string, value: Word64)
      requires Valid()
      modifies this
      ensures Valid() && queue == old(queue) + [UnsignedElement(name, value)]
    {
      queue := queue + [UnsignedElement(name, value)];
    }

    method AppendDouble(name: string, bits: Word64)
      requires Valid()
      modifies this
      ensures Valid() && queue == old(queue) + [DoubleElement(name, bits)]
    {
      queue := queue + [DoubleElement(name, bits)];
    }

    method AppendString(name: string, value: Bytes)
      requires Valid()
      modifies this
      ensures Valid() && queue == old(queue) + [StringElement(name, value)]
    {
      queue := queue + [StringElement(name, value)];
    }

    method AppendDatetime(name: string, value: Word64)
      requires Valid()
      modifies this
      ensures Valid() && queue == old(queue) + [DatetimeElement(name, value)]
    {
      queue := queue + [DatetimeElement(name, value)];
    }

    method AppendUuid(name: string, text: UuidText)
      requires Valid()
      modifies this
      ensures Valid() && queue == old(queue) + [UuidElement(name, text)]
    {
      queue := queue + [UuidElement(name, text)];
    }

    method AppendBlob(name: string, value: Bytes)
      requires Valid()
      modifies this
      ensures Valid() && queue == old(queue) + [BlobElement(name, value)]
    {
      queue := queue + [BlobElement(name, value)];
    }

    method AppendRegex(name: string, value: Bytes)
      requires Valid()
      modifies this
      ensures Valid() && queue == old(queue) + [RegexElement(name, value)]
    {
      queue := queue + [RegexElement(name, value)];
    }

    /** Builds `value` first; if that throws, nothing is pushed. `value` may be this builder. */
    method AppendObject(name: string, value: BsonBuilder, lib: Libbson) returns (err: Option<BuildError>)
      requires Valid() && value.Valid()
      modifies this
      ensures Valid()
      ensures Built(lib, old(value.queue)).Err? ==>
        err == Some(Built(lib, old(value.queue)).error) && queue == old(queue)
      ensures Built(lib, old(value.queue)).Ok? ==>
        err == None && queue == old(queue) + [ObjectElement(name, Built(lib, old(value.queue)).value)]
    {
      var built := value.Build(lib);
      if built.Err? {
        return Some(built.error);
      }
      queue := queue + [ObjectElement(name, built.value)];
      err := None;
    }

    method AppendArray(name: string, value: BsonBuilder, lib: Libbson) returns (err: Option<BuildError>)
      requires Valid() && value.Valid()
      modifies this
      ensures Valid()
      ensures Built(lib, old(value.queue)).Err? ==>
        err == Some(Built(lib, old(value.queue)).error) && queue == old(queue)
      ensures Built(lib, old(value.queue)).Ok? ==>
        err == None && queue == old(queue) + [ArrayElement(name, Built(lib, old(value.queue)).value)]
    {
      var built := value.Build(lib);
      if built.Err? {
        return Some(built.error);
      }
      queue := queue + [ArrayElement(name, built.value)];
      err := None;
    }

    /** `build`: the elements are appended in queue order; the first failure is thrown. */
    method Build(lib: Libbson) returns (r: Result<Bytes>)
      requires Valid()
      ensures r == Built(lib, queue)
    {
      if !lib.created {
        return Err(CreateFailed);
      }
      var items: seq<BsonItem> := [];
      var i := 0;
      while i < |queue|
        invariant 0 <= i <= |queue|
        invariant AppendAll(lib, [], queue) == AppendAll(lib, items, queue[i..])
      {
        assert queue[i..][0] == queue[i] && queue[i..][1..] == queue[i + 1..];
        var e := queue[i];
        var item: BsonItem;
        match e.tag {
          case TString =>
            var n := NarrowingCastInt32(|e.large|);
            if n.Err? {
              return Err(n.error);
            }
            item := StringItem(e.name, e.large);
          case TBlob =>
            var n := NarrowingCastInt32(|e.large|);
            if n.Err? {
              return Err(n.error);
            }
            item := BinaryItem(e.name, SUBTYPE_USER_DEFINED, e.large);
          case TObject =>
            var n := NarrowingCastInt32(|e.large|);
            if n.Err? {
              return Err(n.error);
            }
            item := DocumentItem(e.name, e.large);
            if !lib.fromData(item.data) {
              return Err(CreateFailed);
            }
          case TArray =>
            if |e.large| > INT32_MAX {
              return Err(SizeTooLarge);
            }
            item := ArrayItem(e.name, DropLast(e.large));
            if !lib.fromData(item.data) {
              return Err(CreateFailed);
            }
          case _ =>
            item := Convert(e).value;
        }
        if !lib.append(items, item) {
          return Err(AppendFailed(e.tag));
        }
        items := items + [item];
        i := i + 1;
      }
      assert queue[i..] == [];
      match lib.finish(items)
      case None => r := Err(FinishFailed);
      case Some(data) => r := Ok(data);
    }
  }
}
