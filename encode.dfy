/**
 * The custom-section encoder of crates/backend/src/encode.rs.
 *
 * The encoder's output is a list of chunks: runs of bytes, and string
 * expressions spliced in later.  Its flattened view is a sequence of items,
 * each a byte or an expression.  The `Encode` impls are the function
 * `Encode` over a value datatype (bool, u32, usize, byte slices, strings,
 * vectors, options, structs as their fields, enums as a tag byte and a
 * payload, and `LitOrExpr`); `Decode`, driven by a schema, is its
 * independent partner.  `Encoder` is the class whose methods emit the same
 * items chunk by chunk.  `Interner.ResolveImportModule` is the memoised
 * classifier of import module paths.
 */
module Encoding {
  import opened Wrappers
  import opened Ints

  // ---- bytes and items ----

  /** A `syn::Expr` evaluating to a string; only its identity matters here. */
  datatype Expr = Expr(id: nat)

  /** One element of the flattened output. */
  datatype Item = B(byte: uint8) | E(expr: Expr)

  function Bytes(bs: seq<uint8>): (r: seq<Item>)
    ensures |r| == |bs|
  {
    seq(|bs|, k requires 0 <= k < |bs| => B(bs[k]))
  }

  lemma BytesAppend(a: seq<uint8>, b: seq<uint8>)
    ensures Bytes(a + b) == Bytes(a) + Bytes(b)
  {
    assert forall k :: 0 <= k < |a + b| ==> Bytes(a + b)[k] == (Bytes(a) + Bytes(b))[k];
  }

  // ---- LEB128 ----

  /**
   * Unsigned LEB128 as in section 5.2.2 (Integers) of the WebAssembly Core
   * Specification: 7-bit groups, least significant first, 0x80 set on every
   * byte but the last.
   */
  function Leb128(v: nat): (r: seq<uint8>)
    requires v < U32_LIMIT
    ensures |r| >= 1
    decreases v
  {
    if v < 0x80 then [v as uint8] else [(v % 0x80 + 0x80) as uint8] + Leb128(v / 0x80)
  }

  function Pow128(k: nat): nat
  {
    if k == 0 then 1 else 0x80 * Pow128(k - 1)
  }

  lemma {:induction false} Leb128LengthBound(v: nat, k: nat)
    requires v < U32_LIMIT && 1 <= k && v < Pow128(k)
    ensures |Leb128(v)| <= k
    decreases k
  {
    if v >= 0x80 {
      assert Pow128(1) == 0x80;
      assert k >= 2;
      assert v / 0x80 < Pow128(k - 1);
      Leb128LengthBound(v / 0x80, k - 1);
    }
  }

  /** A u32 takes one to five bytes; every byte but the last has the high bit set. */
  lemma {:induction false} Leb128Shape(v: nat)
    requires v < U32_LIMIT
    ensures 1 <= |Leb128(v)| <= 5
    ensures Leb128(v)[|Leb128(v)| - 1] < 0x80
    ensures forall k :: 0 <= k < |Leb128(v)| - 1 ==> Leb128(v)[k] >= 0x80
    ensures v < 0x80 <==> |Leb128(v)| == 1
    decreases v
  {
    assert Pow128(5) == 0x8_0000_0000;
    Leb128LengthBound(v, 5);
    if v >= 0x80 {
      Leb128Shape(v / 0x80);
      var r := Leb128(v);
      assert forall k :: 1 <= k < |r| ==> r[k] == Leb128(v / 0x80)[k - 1];
    }
  }

  lemma Leb128Examples()
    ensures Leb128(0) == [0]
    ensures Leb128(0x7f) == [0x7f]
    ensures Leb128(0x80) == [0x80, 0x01]
    ensures Leb128(624485) == [0xe5, 0x8e, 0x26]
  {
  }

  /** Reads one unsigned LEB128 number off the front of the items. */
  function DecodeLeb(items: seq<Item>): (r: Option<(nat, seq<Item>)>)
    ensures r.Some? ==> |r.value.1| < |items|
    decreases |items|
  {
    if items == [] || !items[0].B? then None
    else if items[0].byte < 0x80 then Some((items[0].byte as nat, items[1..]))
    else
      match DecodeLeb(items[1..])
      case None => None
      case Some((hi, rest)) => Some(((items[0].byte as nat - 0x80) + 0x80 * hi, rest))
  }

  lemma {:induction false} Leb128RoundTrip(v: nat, rest: seq<Item>)
    requires v < U32_LIMIT
    ensures DecodeLeb(Bytes(Leb128(v)) + rest) == Some((v, rest))
    decreases v
  {
    var items := Bytes(Leb128(v)) + rest;
    if v >= 0x80 {
      BytesAppend([(v % 0x80 + 0x80) as uint8], Leb128(v / 0x80));
      assert items[1..] == Bytes(Leb128(v / 0x80)) + rest;
      Leb128RoundTrip(v / 0x80, rest);
    } else {
      assert items[1..] == rest;
    }
  }

  /**
   * `(val as u8) | 0x80`: truncation to a byte, then the continuation bit.
   * On a byte, or-ing in 0x80 is adding 0x80 to its low seven bits
   * (`OrSetsHighBit`), which is how it is written here.
   */
  function LowGroup(val: nat): (r: uint8)
    ensures r as int == val % 0x80 + 0x80
  {
    ModMod(val);
    ((val % 0x100) % 0x80 + 0x80) as uint8
  }

  lemma OrSetsHighBit(b: bv8)
    ensures b | 0x80 == b % 0x80 + 0x80
  {
  }

  lemma ModMod(val: nat)
    ensures (val % 0x100) % 0x80 == val % 0x80
  {
    var q := val / 0x100;
    assert val == 0x100 * q + val % 0x100;
    assert val == 0x80 * (2 * q) + val % 0x100;
  }

  /** One turn of the encoding loop: the low group, then the rest of the number. */
  lemma Leb128Step(val: nat)
    requires 0x80 <= val < U32_LIMIT
    ensures Bytes(Leb128(val)) == [B(LowGroup(val))] + Bytes(Leb128(val / 0x80))
  {
    assert Leb128(val) == [LowGroup(val)] + Leb128(val / 0x80);
    BytesAppend([LowGroup(val)], Leb128(val / 0x80));
  }

  // ---- values and their encoding ----

  /** The one-of of `LitOrExpr`: a literal string, or an expression spliced in. */
  datatype LitOrExpr = Lit(s: seq<uint8>) | ExprChunk(e: Expr)

  /**
   * A value of the shared API: `&str` and `String` are their UTF-8 bytes;
   * a struct is its field values in declaration order; an enum value is the
   * index of its variant and the payload, if that variant has one.
   */
  datatype Value =
    | VBool(b: bool)
    | VU32(n: nat)
    | VUsize(n: nat)
    | VBytes(bytes: seq<uint8>)
    | VStr(utf8: seq<uint8>)
    | VVec(items: seq<Value>)
    | VOption(opt: Option<Value>)
    | VStruct(fields: seq<Value>)
    | VEnum(index: nat, payload: Option<Value>)
    | VLitOrExpr(either: LitOrExpr)

  /** The type of a value, as the decoder needs it. */
  datatype Schema =
    | SBool | SU32 | SUsize | SBytes | SStr
    | SVec(elem: Schema)
    | SOption(inner: Schema)
    | SStruct(fieldTypes: seq<Schema>)
    | SEnum(variants: seq<Option<Schema>>)
    | SLitOrExpr

  predicate HasSchema(v: Value, s: Schema)
    decreases v
  {
    match (v, s)
    case (VBool(_), SBool) => true
    case (VU32(_), SU32) => true
    case (VUsize(_), SUsize) => true
    case (VBytes(_), SBytes) => true
    case (VStr(_), SStr) => true
    case (VVec(items), SVec(e)) => forall k :: 0 <= k < |items| ==> HasSchema(items[k], e)
    case (VOption(None), SOption(_)) => true
    case (VOption(Some(x)), SOption(t)) => HasSchema(x, t)
    case (VStruct(fields), SStruct(ts)) => |fields| == |ts| && forall k :: 0 <= k < |fields| ==> HasSchema(fields[k], ts[k])
    case (VEnum(i, p), SEnum(vs)) =>
      i < |vs| && (match (p, vs[i])
        case (None, None) => true
        case (Some(x), Some(t)) => HasSchema(x, t)
        case _ => false)
    case (VLitOrExpr(_), SLitOrExpr) => true
    case _ => false
  }

  /**
   * What the encoder handles: u32 values in range and lengths and usizes at
   * most `u32::MAX` (beyond that `usize::encode` panics), and variant indices
   * below 256 (the index is a `u8` literal, so a larger enum does not build).
   */
  predicate Encodable(v: Value)
    decreases v
  {
    match v
    case VBool(_) => true
    case VU32(n) => n < U32_LIMIT
    case VUsize(n) => n <= U32_MAX
    case VBytes(bs) => |bs| <= U32_MAX
    case VStr(bs) => |bs| <= U32_MAX
    case VVec(items) => |items| <= U32_MAX && forall k :: 0 <= k < |items| ==> Encodable(items[k])
    case VOption(None) => true
    case VOption(Some(x)) => Encodable(x)
    case VStruct(fields) => forall k :: 0 <= k < |fields| ==> Encodable(fields[k])
    case VEnum(i, p) => i < U8_LIMIT && (p.Some? ==> Encodable(p.value))
    case VLitOrExpr(Lit(bs)) => |bs| <= U32_MAX
    case VLitOrExpr(ExprChunk(_)) => true
  }

  /** A length-prefixed byte string: `&[u8]`, `&str`, `String`. */
  function LengthPrefixed(bs: seq<uint8>): seq<Item>
    requires |bs| <= U32_MAX
  {
    Bytes(Leb128(|bs|)) + Bytes(bs)
  }

  /** The `Encode` impls. */
  function Encode(v: Value): (r: seq<Item>)
    requires Encodable(v)
    decreases v
  {
    match v
    case VBool(b) => [B(if b then 1 else 0)]
    case VU32(n) => Bytes(Leb128(n))
    case VUsize(n) => Bytes(Leb128(n))
    case VBytes(bs) => LengthPrefixed(bs)
    case VStr(bs) => LengthPrefixed(bs)
    case VVec(items) => Bytes(Leb128(|items|)) + EncodeAll(items)
    case VOption(None) => [B(0)]
    case VOption(Some(x)) => [B(1)] + Encode(x)
    case VStruct(fields) => EncodeAll(fields)
    case VEnum(i, p) => [B(i as uint8)] + (if p.Some? then Encode(p.value) else [])
    case VLitOrExpr(Lit(bs)) => LengthPrefixed(bs)
    case VLitOrExpr(ExprChunk(e)) => [E(e)]
  }

  /** Each value in order, with nothing in between. */
  function EncodeAll(vs: seq<Value>): seq<Item>
    requires forall k :: 0 <= k < |vs| ==> Encodable(vs[k])
    decreases vs
  {
    if vs == [] then [] else Encode(vs[0]) + EncodeAll(vs[1..])
  }

  /**
   * The encoding as the encoder runs it, part by part: None where the source
   * panics (a length or usize over `u32::MAX`) or does not build (a variant
   * index of 256 or more), and a None in any element, field or payload is
   * the None of the whole value.
   */
  function EncodeChecked(v: Value): (r: Option<seq<Item>>)
    ensures r.Some? <==> Encodable(v)
    ensures r.Some? ==> r.value == Encode(v)
    decreases v
  {
    match v
    case VBool(b) => Some([B(if b then 1 else 0)])
    case VU32(n) => if n < U32_LIMIT then Some(Bytes(Leb128(n))) else None
    case VUsize(n) => ThenBytes(UsizeEncode(n), [])
    case VBytes(bs) => ThenBytes(UsizeEncode(|bs|), Bytes(bs))
    case VStr(bs) => ThenBytes(UsizeEncode(|bs|), Bytes(bs))
    case VVec(items) =>
      (match (UsizeEncode(|items|), EncodeAllChecked(items))
       case (Some(len), Some(rest)) => Some(Bytes(len) + rest)
       case _ => None)
    case VOption(None) => Some([B(0)])
    case VOption(Some(x)) =>
      (match EncodeChecked(x)
       case Some(inner) => Some([B(1)] + inner)
       case None => None)
    case VStruct(fields) => EncodeAllChecked(fields)
    case VEnum(i, p) =>
      if i >= U8_LIMIT then None
      else if p.None? then Some([B(i as uint8)])
      else (match EncodeChecked(p.value)
        case Some(inner) => Some([B(i as uint8)] + inner)
        case None => None)
    case VLitOrExpr(Lit(bs)) => ThenBytes(UsizeEncode(|bs|), Bytes(bs))
    case VLitOrExpr(ExprChunk(e)) => Some([E(e)])
  }

  /** The checked length prefix, then `tail`. */
  function ThenBytes(len: Option<seq<uint8>>, tail: seq<Item>): Option<seq<Item>>
  {
    if len.Some? then Some(Bytes(len.value) + tail) else None
  }

  /** Each value's checked encoding in order; None from the first value that fails. */
  function EncodeAllChecked(vs: seq<Value>): (r: Option<seq<Item>>)
    ensures r.Some? <==> forall k :: 0 <= k < |vs| ==> Encodable(vs[k])
    ensures r.Some? ==> r.value == EncodeAll(vs)
    decreases vs
  {
    if vs == [] then Some([])
    else
      match EncodeChecked(vs[0])
      case None => None
      case Some(first) =>
        match EncodeAllChecked(vs[1..])
        case None => None
        case Some(rest) => Some(first + rest)
  }

  /** `usize::encode`: the u32 encoding, once the value is checked to fit. */
  function UsizeEncode(n: nat): (r: Option<seq<uint8>>)
    ensures r.Some? <==> n <= U32_MAX
    ensures r.Some? ==> r.value == Leb128(n) && 1 <= |r.value| <= 5
  {
    if n <= U32_MAX then Leb128Shape(n); Some(Leb128(n)) else None
  }

  /** Takes `n` bytes off the front. */
  function DecodeBytes(n: nat, items: seq<Item>): (r: Option<(seq<uint8>, seq<Item>)>)
    ensures r.Some? ==> |r.value.0| == n && |r.value.1| == |items| - n
    decreases n
  {
    if n == 0 then Some(([], items))
    else if items == [] || !items[0].B? then None
    else
      match DecodeBytes(n - 1, items[1..])
      case None => None
      case Some((bs, rest)) => Some(([items[0].byte] + bs, rest))
  }

  /** The reader the custom section is written for, guided by the type. */
  function Decode(s: Schema, items: seq<Item>): (r: Option<(Value, seq<Item>)>)
    decreases s, 0, 0
  {
    match s
    case SBool => DecodeBool(items)
    case SU32 => (match DecodeU32(items) case Some((n, rest)) => Some((VU32(n), rest)) case None => None)
    case SUsize => (match DecodeU32(items) case Some((n, rest)) => Some((VUsize(n), rest)) case None => None)
    case SBytes => (match DecodeBlob(items) case Some((bs, rest)) => Some((VBytes(bs), rest)) case None => None)
    case SStr => (match DecodeBlob(items) case Some((bs, rest)) => Some((VStr(bs), rest)) case None => None)
    case SVec(e) => DecodeVec(e, items)
    case SOption(t) => DecodeOption(t, items)
    case SStruct(ts) => (match DecodeFields(ts, items) case Some((vs, rest)) => Some((VStruct(vs), rest)) case None => None)
    case SEnum(vs) =>
      if items == [] || !items[0].B? || items[0].byte as int >= |vs| then None
      else
        assert vs[items[0].byte] in vs;
        DecodeVariant(items[0].byte as nat, vs[items[0].byte], items[1..])
    case SLitOrExpr => DecodeLitOrExpr(items)
  }

  function DecodeBool(items: seq<Item>): Option<(Value, seq<Item>)>
  {
    if items != [] && items[0].B? && items[0].byte <= 1 then Some((VBool(items[0].byte == 1), items[1..])) else None
  }

  /** A LEB128 number that fits in a u32. */
  function DecodeU32(items: seq<Item>): Option<(nat, seq<Item>)>
  {
    match DecodeLeb(items)
    case Some((n, rest)) => if n < U32_LIMIT then Some((n, rest)) else None
    case None => None
  }

  /** A length, then that many bytes. */
  function DecodeBlob(items: seq<Item>): Option<(seq<uint8>, seq<Item>)>
  {
    match DecodeU32(items)
    case Some((n, rest)) => DecodeBytes(n, rest)
    case None => None
  }

  function DecodeVec(e: Schema, items: seq<Item>): Option<(Value, seq<Item>)>
    decreases e, 2, 0
  {
    match DecodeU32(items)
    case Some((n, rest)) =>
      (match DecodeN(e, n, rest) case Some((vs, rest')) => Some((VVec(vs), rest')) case None => None)
    case None => None
  }

  function DecodeOption(t: Schema, items: seq<Item>): Option<(Value, seq<Item>)>
    decreases t, 2, 0
  {
    if items == [] || !items[0].B? then None
    else if items[0].byte == 0 then Some((VOption(None), items[1..]))
    else if items[0].byte == 1 then
      (match Decode(t, items[1..]) case Some((x, rest)) => Some((VOption(Some(x)), rest)) case None => None)
    else None
  }

  /** The payload of the variant whose index was read. */
  function DecodeVariant(i: nat, variant: Option<Schema>, items: seq<Item>): Option<(Value, seq<Item>)>
    decreases variant, 1, 0
  {
    match variant
    case None => Some((VEnum(i, None), items))
    case Some(t) =>
      (match Decode(t, items) case Some((x, rest)) => Some((VEnum(i, Some(x)), rest)) case None => None)
  }

  /** An expression item stands for itself; otherwise a literal string follows. */
  function DecodeLitOrExpr(items: seq<Item>): Option<(Value, seq<Item>)>
  {
    if items != [] && items[0].E? then Some((VLitOrExpr(ExprChunk(items[0].expr)), items[1..]))
    else
      match DecodeBlob(items)
      case Some((bs, rest)) => Some((VLitOrExpr(Lit(bs)), rest))
      case None => None
  }

  /** `n` values of one type. */
  function DecodeN(e: Schema, n: nat, items: seq<Item>): Option<(seq<Value>, seq<Item>)>
    decreases e, 1, n
  {
    if n == 0 then Some(([], items))
    else
      match Decode(e, items)
      case None => None
      case Some((x, rest)) =>
        (match DecodeN(e, n - 1, rest) case Some((xs, rest')) => Some(([x] + xs, rest')) case None => None)
  }

  /** One value per field type, in order. */
  function DecodeFields(ts: seq<Schema>, items: seq<Item>): Option<(seq<Value>, seq<Item>)>
    decreases ts, 0, 0
  {
    if ts == [] then Some(([], items))
    else
      match Decode(ts[0], items)
      case None => None
      case Some((x, rest)) =>
        (match DecodeFields(ts[1..], rest) case Some((xs, rest')) => Some(([x] + xs, rest')) case None => None)
  }

  lemma {:induction false} DecodeBytesRoundTrip(bs: seq<uint8>, rest: seq<Item>)
    ensures DecodeBytes(|bs|, Bytes(bs) + rest) == Some((bs, rest))
    decreases bs
  {
    if bs != [] {
      var items := Bytes(bs) + rest;
      assert items[0] == B(bs[0]);
      assert items[1..] == Bytes(bs[1..]) + rest;
      DecodeBytesRoundTrip(bs[1..], rest);
      assert DecodeBytes(|bs| - 1, items[1..]) == Some((bs[1..], rest));
      assert DecodeBytes(|bs|, items) == Some(([bs[0]] + bs[1..], rest));
      assert [bs[0]] + bs[1..] == bs;
    } else {
      assert Bytes(bs) + rest == rest;
    }
  }

  lemma LengthPrefixedRoundTrip(bs: seq<uint8>, rest: seq<Item>)
    requires |bs| <= U32_MAX
    ensures DecodeLeb(LengthPrefixed(bs) + rest) == Some((|bs|, Bytes(bs) + rest))
    ensures DecodeBytes(|bs|, Bytes(bs) + rest) == Some((bs, rest))
  {
    assert LengthPrefixed(bs) + rest == Bytes(Leb128(|bs|)) + (Bytes(bs) + rest);
    Leb128RoundTrip(|bs|, Bytes(bs) + rest);
    DecodeBytesRoundTrip(bs, rest);
  }

  /** Decoding what was encoded gives the value back and leaves what follows. */
  lemma {:induction false} RoundTrip(v: Value, s: Schema, rest: seq<Item>)
    requires HasSchema(v, s) && Encodable(v)
    ensures Decode(s, Encode(v) + rest) == Some((v, rest))
    decreases v, 1
  {
    match v
    case VBool(b) =>
      assert s == SBool;
      assert (Encode(v) + rest)[1..] == rest;
    case VU32(n) =>
      assert s == SU32;
      Leb128RoundTrip(n, rest);
    case VUsize(n) =>
      assert s == SUsize;
      Leb128RoundTrip(n, rest);
    case VBytes(bs) =>
      assert s == SBytes;
      LengthPrefixedRoundTrip(bs, rest);
    case VStr(bs) =>
      assert s == SStr;
      LengthPrefixedRoundTrip(bs, rest);
    case VLitOrExpr(x) =>
      assert s == SLitOrExpr;
      RoundTripLitOrExpr(x, rest);
    case VVec(items) =>
      assert s == SVec(s.elem);
      RoundTripVec(items, s.elem, rest);
    case VOption(o) =>
      assert s == SOption(s.inner);
      RoundTripOption(o, s.inner, rest);
    case VStruct(fields) =>
      assert s == SStruct(s.fieldTypes);
      RoundTripFields(fields, s.fieldTypes, rest);
      assert Encode(v) == EncodeAll(fields);
    case VEnum(i, p) =>
      assert s == SEnum(s.variants);
      RoundTripEnum(i, p, s.variants, rest);
  }

  lemma RoundTripLitOrExpr(x: LitOrExpr, rest: seq<Item>)
    requires Encodable(VLitOrExpr(x))
    ensures Decode(SLitOrExpr, Encode(VLitOrExpr(x)) + rest) == Some((VLitOrExpr(x), rest))
  {
    match x
    case Lit(bs) =>
      LengthPrefixedRoundTrip(bs, rest);
      Leb128Shape(|bs|);
      assert (LengthPrefixed(bs) + rest)[0] == B(Leb128(|bs|)[0]);
    case ExprChunk(e) =>
      assert (Encode(VLitOrExpr(x)) + rest)[1..] == rest;
  }

  lemma {:induction false} RoundTripVec(items: seq<Value>, e: Schema, rest: seq<Item>)
    requires HasSchema(VVec(items), SVec(e)) && Encodable(VVec(items))
    ensures Decode(SVec(e), Encode(VVec(items)) + rest) == Some((VVec(items), rest))
    decreases items, 2
  {
    assert Encode(VVec(items)) + rest == Bytes(Leb128(|items|)) + (EncodeAll(items) + rest);
    Leb128RoundTrip(|items|, EncodeAll(items) + rest);
    RoundTripN(items, e, rest);
  }

  lemma {:induction false} RoundTripOption(o: Option<Value>, t: Schema, rest: seq<Item>)
    requires HasSchema(VOption(o), SOption(t)) && Encodable(VOption(o))
    ensures Decode(SOption(t), Encode(VOption(o)) + rest) == Some((VOption(o), rest))
    decreases o, 2
  {
    var items := Encode(VOption(o)) + rest;
    match o
    case None =>
      assert items[0] == B(0);
      assert items[1..] == rest;
    case Some(x) =>
      assert items[0] == B(1);
      assert items[1..] == Encode(x) + rest;
      RoundTrip(x, t, rest);
      assert Decode(t, items[1..]) == Some((x, rest));
  }

  lemma {:induction false} RoundTripEnum(i: nat, p: Option<Value>, vs: seq<Option<Schema>>, rest: seq<Item>)
    requires HasSchema(VEnum(i, p), SEnum(vs)) && Encodable(VEnum(i, p))
    ensures Decode(SEnum(vs), Encode(VEnum(i, p)) + rest) == Some((VEnum(i, p), rest))
    decreases p, 2
  {
    var items := Encode(VEnum(i, p)) + rest;
    assert items[0] == B(i as uint8);
    match p
    case None =>
      assert vs[i] == None;
      assert items[1..] == rest;
    case Some(x) =>
      assert vs[i] == Some(vs[i].value);
      assert items[1..] == Encode(x) + rest;
      RoundTrip(x, vs[i].value, rest);
  }

  lemma {:induction false} RoundTripN(vs: seq<Value>, e: Schema, rest: seq<Item>)
    requires forall k :: 0 <= k < |vs| ==> HasSchema(vs[k], e) && Encodable(vs[k])
    ensures DecodeN(e, |vs|, EncodeAll(vs) + rest) == Some((vs, rest))
    decreases vs, 0
  {
    if vs != [] {
      assert EncodeAll(vs) + rest == Encode(vs[0]) + (EncodeAll(vs[1..]) + rest);
      RoundTrip(vs[0], e, EncodeAll(vs[1..]) + rest);
      RoundTripN(vs[1..], e, rest);
      assert DecodeN(e, |vs| - 1, EncodeAll(vs[1..]) + rest) == Some((vs[1..], rest));
      assert [vs[0]] + vs[1..] == vs;
    } else {
      assert EncodeAll(vs) + rest == rest;
    }
  }

  lemma {:induction false} RoundTripFields(vs: seq<Value>, ts: seq<Schema>, rest: seq<Item>)
    requires |vs| == |ts|
    requires forall k :: 0 <= k < |vs| ==> HasSchema(vs[k], ts[k]) && Encodable(vs[k])
    ensures DecodeFields(ts, EncodeAll(vs) + rest) == Some((vs, rest))
    decreases vs, 0
  {
    if vs != [] {
      assert EncodeAll(vs) + rest == Encode(vs[0]) + (EncodeAll(vs[1..]) + rest);
      RoundTrip(vs[0], ts[0], EncodeAll(vs[1..]) + rest);
      RoundTripFields(vs[1..], ts[1..], rest);
      assert DecodeFields(ts[1..], EncodeAll(vs[1..]) + rest) == Some((vs[1..], rest));
      assert [vs[0]] + vs[1..] == vs;
    } else {
      assert EncodeAll(vs) + rest == rest;
    }
  }

  /** Values of one type with equal encodings are equal. */
  lemma EncodeInjective(v1: Value, v2: Value, s: Schema)
    requires HasSchema(v1, s) && Encodable(v1) && HasSchema(v2, s) && Encodable(v2)
    requires Encode(v1) == Encode(v2)
    ensures v1 == v2
  {
    RoundTrip(v1, s, []);
    RoundTrip(v2, s, []);
    assert Encode(v1) + [] == Encode(v2) + [];
  }

  // ---- the encoder ----

  datatype EncodeChunk = EncodedBuf(buf: seq<uint8>) | StrExpr(expr: Expr)

  function ChunkItems(c: EncodeChunk): seq<Item>
  {
    match c
    case EncodedBuf(buf) => Bytes(buf)
    case StrExpr(e) => [E(e)]
  }

  /** The items of a chunk list, front to back. */
  function Flatten(chunks: seq<EncodeChunk>): seq<Item>
  {
    if chunks == [] then [] else Flatten(chunks[..|chunks| - 1]) + ChunkItems(chunks[|chunks| - 1])
  }

  lemma FlattenSnoc(chunks: seq<EncodeChunk>, c: EncodeChunk)
    ensures Flatten(chunks + [c]) == Flatten(chunks) + ChunkItems(c)
  {
    assert (chunks + [c])[..|chunks|] == chunks;
  }

  /** Chunks `k` and `k + 1` are both byte chunks. */
  predicate BufPair(chunks: seq<EncodeChunk>, k: nat)
    requires k + 1 < |chunks|
  {
    chunks[k].EncodedBuf? && chunks[k + 1].EncodedBuf?
  }

  /** Byte runs are always coalesced: no two byte chunks are adjacent. */
  predicate Coalesced(chunks: seq<EncodeChunk>)
  {
    forall k: nat :: k + 1 < |chunks| ==> !BufPair(chunks, k)
  }

  function LastIsBuf(chunks: seq<EncodeChunk>): bool
  {
    chunks != [] && chunks[|chunks| - 1].EncodedBuf?
  }

  lemma CoalescedSnoc(chunks: seq<EncodeChunk>, c: EncodeChunk)
    requires Coalesced(chunks) && !(LastIsBuf(chunks) && c.EncodedBuf?)
    ensures Coalesced(chunks + [c])
  {
    var d := chunks + [c];
    forall k: nat | k + 1 < |d|
      ensures !BufPair(d, k)
    {
      if k + 1 < |chunks| {
        assert !BufPair(chunks, k);
      }
    }
  }

  lemma CoalescedReplaceLast(prefix: seq<EncodeChunk>, buf: seq<uint8>, buf': seq<uint8>)
    requires Coalesced(prefix + [EncodedBuf(buf)])
    ensures Coalesced(prefix + [EncodedBuf(buf')])
  {
    var d, d' := prefix + [EncodedBuf(buf)], prefix + [EncodedBuf(buf')];
    forall k: nat | k + 1 < |d'|
      ensures !BufPair(d', k)
    {
      assert !BufPair(d, k);
    }
  }

  class Encoder {
    var dst: seq<EncodeChunk>
    /** The flattened view of `dst`. */
    ghost var items: seq<Item>

    ghost predicate Valid()
      reads this
    {
      Coalesced(dst) && items == Flatten(dst)
    }

    constructor ()
      ensures Valid() && dst == [] && items == []
    {
      dst := [];
      items := [];
    }

    /** Append bytes to the last chunk if it is a byte chunk, else as a new one. */
    method Append(bs: seq<uint8>)
      requires Valid()
      modifies this
      ensures Valid()
      ensures items == old(items) + Bytes(bs)
      ensures LastIsBuf(old(dst)) ==>
        dst == old(dst)[..|old(dst)| - 1] + [EncodedBuf(old(dst)[|old(dst)| - 1].buf + bs)]
      ensures !LastIsBuf(old(dst)) ==> dst == old(dst) + [EncodedBuf(bs)]
      ensures LastIsBuf(dst)
      ensures |dst| == |old(dst)| + (if LastIsBuf(old(dst)) then 0 else 1)
    {
      if LastIsBuf(dst) {
        var n := |dst| - 1;
        var prefix := dst[..n];
        var buf := dst[n].buf;
        assert dst == prefix + [EncodedBuf(buf)];
        CoalescedReplaceLast(prefix, buf, buf + bs);
        FlattenSnoc(prefix, EncodedBuf(buf));
        dst := prefix + [EncodedBuf(buf + bs)];
        FlattenSnoc(prefix, EncodedBuf(buf + bs));
        BytesAppend(buf, bs);
      } else {
        FlattenSnoc(dst, EncodedBuf(bs));
        CoalescedSnoc(dst, EncodedBuf(bs));
        dst := dst + [EncodedBuf(bs)];
      }
      items := items + Bytes(bs);
    }

    /** `byte`. */
    method Byte(b: uint8)
      requires Valid()
      modifies this
      ensures Valid()
      ensures items == old(items) + [B(b)]
      ensures LastIsBuf(old(dst)) ==>
        dst == old(dst)[..|old(dst)| - 1] + [EncodedBuf(old(dst)[|old(dst)| - 1].buf + [b])]
      ensures !LastIsBuf(old(dst)) ==> dst == old(dst) + [EncodedBuf([b])]
      ensures |dst| == |old(dst)| + (if LastIsBuf(old(dst)) then 0 else 1)
    {
      Append([b]);
    }

    /** `extend_from_slice`. */
    method ExtendFromSlice(slice: seq<uint8>)
      requires Valid()
      modifies this
      ensures Valid()
      ensures items == old(items) + Bytes(slice)
      ensures LastIsBuf(old(dst)) ==>
        dst == old(dst)[..|old(dst)| - 1] + [EncodedBuf(old(dst)[|old(dst)| - 1].buf + slice)]
      ensures !LastIsBuf(old(dst)) ==> dst == old(dst) + [EncodedBuf(slice)]
      ensures |dst| == |old(dst)| + (if LastIsBuf(old(dst)) then 0 else 1)
    {
      Append(slice);
    }

    /** `LitOrExpr::Expr`: the expression becomes a chunk of its own, breaking the byte run. */
    method PushExpr(e: Expr)
      requires Valid()
      modifies this
      ensures Valid()
      ensures dst == old(dst) + [StrExpr(e)]
      ensures items == old(items) + [E(e)]
    {
      FlattenSnoc(dst, StrExpr(e));
      CoalescedSnoc(dst, StrExpr(e));
      dst := dst + [StrExpr(e)];
      items := items + [E(e)];
    }

    /** `u32::encode`: low groups with the continuation bit while more than seven bits remain. */
    method EncodeU32(v: nat)
      requires Valid() && v < U32_LIMIT
      modifies this
      ensures Valid()
      ensures items == old(items) + Bytes(Leb128(v))
    {
      var val: nat := v;
      ghost var start := items;
      while val >= 0x80
        invariant Valid() && val < U32_LIMIT
        invariant start + Bytes(Leb128(v)) == items + Bytes(Leb128(val))
        decreases val
      {
        ghost var before := items;
        ghost var tail := Bytes(Leb128(val / 0x80));
        Leb128Step(val);
        Byte(LowGroup(val));
        val := val / 0x80;
      }
      assert Bytes(Leb128(val)) == [B(val as uint8)];
      Byte(val as uint8);
    }

    /** `&[u8]::encode`, and through it `&str` and `String`. */
    method EncodeBytes(bs: seq<uint8>)
      requires Valid() && |bs| <= U32_MAX
      modifies this
      ensures Valid()
      ensures items == old(items) + LengthPrefixed(bs)
    {
      ghost var before := items;
      EncodeU32(|bs|);
      ExtendFromSlice(bs);
      assert items == before + Bytes(Leb128(|bs|)) + Bytes(bs);
    }

    /** Any value: the `Encode` impl of its type. */
    method EncodeValue(v: Value)
      requires Valid() && Encodable(v)
      modifies this
      ensures Valid()
      ensures items == old(items) + Encode(v)
      decreases v, 1
    {
      match v
      case VBool(b) => Byte(if b then 1 else 0);
      case VU32(n) => EncodeU32(n);
      case VUsize(n) => EncodeU32(n);
      case VBytes(bs) => EncodeBytes(bs);
      case VStr(bs) => EncodeBytes(bs);
      case VVec(elems) => EncodeVec(elems);
      case VOption(None) => Byte(0);
      case VOption(Some(x)) => EncodeSome(x);
      case VStruct(fields) => EncodeAllValues(fields);
      case VEnum(i, p) => EncodeEnum(i, p);
      case VLitOrExpr(Lit(bs)) => EncodeBytes(bs);
      case VLitOrExpr(ExprChunk(e)) => PushExpr(e);
    }

    /** `Vec<T>::encode`: the length, then each element. */
    method EncodeVec(elems: seq<Value>)
      requires Valid() && Encodable(VVec(elems))
      modifies this
      ensures Valid()
      ensures items == old(items) + Encode(VVec(elems))
      decreases elems, 2
    {
      ghost var before := items;
      EncodeU32(|elems|);
      EncodeAllValues(elems);
      assert items == before + Bytes(Leb128(|elems|)) + EncodeAll(elems);
    }

    /** `Option<T>::encode` of `Some`: 1, then the value. */
    method EncodeSome(x: Value)
      requires Valid() && Encodable(x)
      modifies this
      ensures Valid()
      ensures items == old(items) + [B(1)] + Encode(x)
      decreases x, 2
    {
      Byte(1);
      EncodeValue(x);
    }

    /** An `encode_enum!` variant: its index as a byte, then its payload if it has one. */
    method EncodeEnum(i: nat, p: Option<Value>)
      requires Valid() && Encodable(VEnum(i, p))
      modifies this
      ensures Valid()
      ensures items == old(items) + Encode(VEnum(i, p))
      decreases p, 2
    {
      ghost var before := items;
      Byte(i as uint8);
      match p
      case None =>
        assert items == before + [B(i as uint8)] + [];
      case Some(x) =>
        EncodeValue(x);
        assert items == before + [B(i as uint8)] + Encode(x);
    }

    /** The `for item in self` loop of `Vec<T>::encode`, and the field list of a struct. */
    method EncodeAllValues(vs: seq<Value>)
      requires Valid() && forall k :: 0 <= k < |vs| ==> Encodable(vs[k])
      modifies this
      ensures Valid()
      ensures items == old(items) + EncodeAll(vs)
      decreases vs, 0
    {
      var i := 0;
      ghost var start := items;
      while i < |vs|
        invariant 0 <= i <= |vs| && Valid()
        invariant start + EncodeAll(vs) == items + EncodeAll(vs[i..])
      {
        ghost var before := items;
        ghost var later := EncodeAll(vs[i + 1..]);
        assert vs[i..][1..] == vs[i + 1..];
        assert EncodeAll(vs[i..]) == Encode(vs[i]) + later;
        EncodeValue(vs[i]);
        assert items + later == before + (Encode(vs[i]) + later);
        i := i + 1;
      }
      assert vs[i..] == [];
    }

    /** `finish`: the chunk list. */
    method Finish() returns (chunks: seq<EncodeChunk>)
      ensures chunks == dst
    {
      chunks := dst;
    }
  }

  /** What `encode` does with a fresh encoder: the chunks spell out exactly the value's encoding. */
  method EncodeToChunks(v: Value) returns (chunks: seq<EncodeChunk>)
    requires Encodable(v)
    ensures Flatten(chunks) == Encode(v)
    ensures Coalesced(chunks)
  {
    var e := new Encoder();
    e.EncodeValue(v);
    chunks := e.Finish();
    assert [] + Encode(v) == Encode(v);
  }

  // ---- import module resolution ----

  datatype ImportModule = Named(name: string) | RawNamed(name: string)

  /** `root.join(rest)`; path joining itself is not modelled. */
  datatype Path = Joined(root: string, rest: string)

  datatype LocalFile = LocalFile(path: Path, newIdentifier: string, linkedModule: bool)

  const RELATIVE_PATHS_UNSUPPORTED: string := "relative module paths aren't supported yet"

  predicate StartsWith(s: string, prefix: string)
  {
    |prefix| <= |s| && s[..|prefix|] == prefix
  }

  /** How an import id that was not seen before is treated. */
  datatype ImportClass = LocalPath | RelativePath | RawName

  /** A leading `/` marks a local file, a leading `./` or `../` a relative path, anything else a raw module name. */
  function Classify(id: string): ImportClass
  {
    if StartsWith(id, "/") then LocalPath
    else if StartsWith(id, "./") || StartsWith(id, "../") then RelativePath
    else RawName
  }

  class Interner {
    const root: string
    const crateName: string
    /** The rendering of `ShortHash(0)`; the hash is not part of this model. */
    const shortHash: string
    var files: map<string, LocalFile>
    var hasPackageJson: bool

    /** Every memoised id is a local path, filed under its own name. */
    ghost predicate Valid()
      reads this
    {
      forall id :: id in files ==> Classify(id) == LocalPath && files[id].newIdentifier == UniqueCrateIdentifier() + id
    }

    constructor (root: string, crateName: string, shortHash: string)
      ensures Valid()
      ensures this.root == root && this.crateName == crateName && this.shortHash == shortHash
      ensures files == map[] && !hasPackageJson
    {
      this.root := root;
      this.crateName := crateName;
      this.shortHash := shortHash;
      files := map[];
      hasPackageJson := false;
    }

    /** `unique_crate_identifier`. */
    function UniqueCrateIdentifier(): (r: string)
    {
      crateName + "-" + shortHash
    }

    /** `check_for_package_json`; whether the file exists is the input. */
    method CheckForPackageJson(exists_: bool)
      modifies this`hasPackageJson
      ensures hasPackageJson == (old(hasPackageJson) || exists_)
    {
      if hasPackageJson {
        return;
      }
      if exists_ {
        hasPackageJson := true;
      }
    }

    /**
     * `resolve_import_module`: a memoised id gives its recorded identifier;
     * otherwise a leading `/` files the id and resolves again, `./` and
     * `../` are refused, and anything else is a raw module name.
     */
    method ResolveImportModule(id: string, linkedModule: bool, packageJsonExists: bool) returns (r: Result<ImportModule, string>)
      requires Valid()
      modifies this
      ensures Valid()
      ensures id in old(files) ==>
        r == Ok(Named(old(files)[id].newIdentifier)) && files == old(files) && hasPackageJson == old(hasPackageJson)
      ensures id !in old(files) ==> hasPackageJson == (old(hasPackageJson) || packageJsonExists)
      ensures id !in old(files) && Classify(id) == LocalPath ==>
        && files == old(files)[id := LocalFile(Joined(root, id[1..]), UniqueCrateIdentifier() + id, linkedModule)]
        && r == Ok(Named(UniqueCrateIdentifier() + id))
      ensures id !in old(files) && Classify(id) == RelativePath ==> r == Err(RELATIVE_PATHS_UNSUPPORTED) && files == old(files)
      ensures id !in old(files) && Classify(id) == RawName ==> r == Ok(RawNamed(id)) && files == old(files)
      decreases if id in files then 0 else 1
    {
      if id in files {
        return Ok(Named(files[id].newIdentifier));
      }
      CheckForPackageJson(packageJsonExists);
      var path;
      if StartsWith(id, "/") {
        path := Joined(root, id[1..]);
      } else if StartsWith(id, "./") || StartsWith(id, "../") {
        return Err(RELATIVE_PATHS_UNSUPPORTED);
      } else {
        return Ok(RawNamed(id));
      }
      var newIdentifier := UniqueCrateIdentifier() + id;
      files := files[id := LocalFile(path, newIdentifier, linkedModule)];
      r := ResolveImportModule(id, linkedModule, packageJsonExists);
    }
  }

  /** Resolving the same local path twice gives the same name and files it once. */
  method ResolveTwice(i: Interner, id: string, linked: bool, exists1: bool, exists2: bool)
    returns (r1: Result<ImportModule, string>, r2: Result<ImportModule, string>)
    requires i.Valid() && id !in i.files && Classify(id) == LocalPath
    modifies i
    ensures r1 == r2 && r1.Ok? && r1.value.Named?
    ensures i.files.Keys == old(i.files.Keys) + {id}
  {
    r1 := i.ResolveImportModule(id, linked, exists1);
    r2 := i.ResolveImportModule(id, linked, exists2);
  }
}
