/** The metadata section of a GGUF file: abstract content, its byte encoding, and a parser that
    accepts exactly the encodings. */
module GgufFormat {
  import opened Bytes

  const MAGIC: nat := 0x46554747
  const MAX_NAME: nat := 0x10_0000
  const STRING_TYPE: nat := 8
  const ARRAY_TYPE: nat := 9
  const UINT32_TYPE: nat := 4

  datatype Option<+T> = None | Some(value: T)

  /** Scalars are kept as raw bytes; an array carries the type of its elements. */
  datatype Value = Scalar(raw: seq<byte>) | Text(body: seq<byte>) | Array(elem: nat, items: seq<Value>)

  datatype Kv = Kv(key: seq<byte>, vtype: nat, value: Value)

  datatype Tensor = Tensor(name: seq<byte>, dims: seq<nat>, ggmlType: nat, relOffset: nat)

  datatype Meta = Meta(version: nat, kvs: seq<Kv>, tensors: seq<Tensor>)

  // ---------------------------------------------------------------- little-endian numbers

  function Pow256(n: nat): nat {
    if n == 0 then 1 else 256 * Pow256(n - 1)
  }

  function ToLE(v: nat, n: nat): (s: seq<byte>)
    ensures |s| == n
    decreases n, v
  {
    if n == 0 then [] else [v % 256] + ToLE(v / 256, n - 1)
  }

  function FromLE(s: seq<byte>): (v: nat)
    decreases |s|
  {
    if s == [] then 0 else s[0] + 256 * FromLE(s[1..])
  }

  lemma {:induction false} FromToLE(v: nat, n: nat)
    requires v < Pow256(n)
    ensures FromLE(ToLE(v, n)) == v
    decreases n
  {
    if n > 0 {
      FromToLE(v / 256, n - 1);
      assert ToLE(v, n)[1..] == ToLE(v / 256, n - 1);
    }
  }

  lemma {:induction false} ToFromLE(s: seq<byte>)
    ensures ToLE(FromLE(s), |s|) == s && FromLE(s) < Pow256(|s|)
    decreases |s|
  {
    if s != [] {
      ToFromLE(s[1..]);
      assert s == [s[0]] + s[1..];
    }
  }

  lemma {:induction false} Widths()
    ensures Pow256(4) == 0x1_0000_0000 && Pow256(8) == 0x1_0000_0000_0000_0000
  {
    assert Pow256(2) == 65536;
    assert Pow256(6) == 65536 * Pow256(4);
  }

  // ---------------------------------------------------------------- encoding

  function ScalarSize(t: nat): nat {
    match t
    case 0 => 1
    case 1 => 1
    case 7 => 1
    case 2 => 2
    case 3 => 2
    case 4 => 4
    case 5 => 4
    case 6 => 4
    case 10 => 8
    case 11 => 8
    case 12 => 8
    case _ => 0
  }

  ghost predicate WellTyped(t: nat, v: Value)
    decreases v, 0
  {
    match v
    case Scalar(raw) => |raw| == ScalarSize(t) > 0
    case Text(body) => t == STRING_TYPE && |body| <= MAX_NAME
    case Array(elem, items) => t == ARRAY_TYPE && elem < Pow256(4) && |items| < Pow256(8) && AllTyped(elem, items)
  }

  ghost predicate AllTyped(t: nat, items: seq<Value>)
    decreases items, 0
  {
    items != [] ==> WellTyped(t, items[0]) && AllTyped(t, items[1..])
  }

  function EncStr(body: seq<byte>): seq<byte> {
    ToLE(|body|, 8) + body
  }

  function EncValue(v: Value): seq<byte>
    decreases v, 0
  {
    match v
    case Scalar(raw) => raw
    case Text(body) => EncStr(body)
    case Array(elem, items) => ToLE(elem, 4) + ToLE(|items|, 8) + EncItems(items)
  }

  function EncItems(items: seq<Value>): seq<byte>
    decreases items, 0
  {
    if items == [] then [] else EncValue(items[0]) + EncItems(items[1..])
  }

  function EncKv(kv: Kv): seq<byte> {
    EncStr(kv.key) + ToLE(kv.vtype, 4) + EncValue(kv.value)
  }

  /** Consecutive encodings of the elements of a list. */
  function EncList<T>(enc: T -> seq<byte>, xs: seq<T>): seq<byte> {
    if xs == [] then [] else enc(xs[0]) + EncList(enc, xs[1..])
  }

  function EncKvs(kvs: seq<Kv>): seq<byte> {
    EncList(EncKv, kvs)
  }

  function EncU64(v: nat): seq<byte> {
    ToLE(v, 8)
  }

  function EncDims(dims: seq<nat>): seq<byte> {
    EncList(EncU64, dims)
  }

  function EncTensor(t: Tensor): seq<byte> {
    EncStr(t.name) + ToLE(|t.dims|, 4) + EncDims(t.dims) + ToLE(t.ggmlType, 4) + ToLE(t.relOffset, 8)
  }

  function EncTensors(ts: seq<Tensor>): seq<byte> {
    EncList(EncTensor, ts)
  }

  function EncHeader(m: Meta): seq<byte> {
    ToLE(MAGIC, 4) + ToLE(m.version, 4) + ToLE(|m.tensors|, 8) + ToLE(|m.kvs|, 8)
  }

  function EncMeta(m: Meta): seq<byte> {
    EncHeader(m) + EncKvs(m.kvs) + EncTensors(m.tensors)
  }

  ghost predicate KvOk(kv: Kv) {
    |kv.key| <= MAX_NAME && kv.vtype < Pow256(4) && WellTyped(kv.vtype, kv.value)
  }

  ghost predicate AllOk<T>(ok: T -> bool, xs: seq<T>) {
    xs != [] ==> ok(xs[0]) && AllOk(ok, xs[1..])
  }

  ghost predicate U64Ok(v: nat) {
    v < Pow256(8)
  }

  ghost predicate TensorOk(t: Tensor) {
    |t.name| <= MAX_NAME && |t.dims| <= 4 && AllOk(U64Ok, t.dims) && t.ggmlType < Pow256(4) && t.relOffset < Pow256(8)
  }

  ghost predicate MetaOk(m: Meta) {
    2 <= m.version <= 3 && |m.kvs| < Pow256(8) && |m.tensors| < Pow256(8) 
    && AllOk(KvOk, m.kvs) && AllOk(TensorOk, m.tensors)
  }

  // ---------------------------------------------------------------- parsing

  /** The little-endian number at `pos`. */
  function NumAt(f: seq<byte>, pos: nat, n: nat): nat
    requires pos + n <= |f|
    decreases n, |f|
  {
    if n == 0 then 0 else f[pos] + 256 * NumAt(f, pos + 1, n - 1)
  }

  lemma {:induction false} NumAtSlice(f: seq<byte>, pos: nat, n: nat, s: seq<byte>)
    requires pos + n <= |f| && s == f[pos..pos + n]
    ensures NumAt(f, pos, n) == FromLE(s)
    decreases n
  {
    if n > 0 {
      NumAtSlice(f, pos + 1, n - 1, f[pos + 1..pos + n]);
      assert s[1..] == f[pos + 1..pos + n];
    }
  }

  function ParseNum(f: seq<byte>, pos: nat, n: nat): Option<nat> {
    if pos + n > |f| then None else Some(NumAt(f, pos, n))
  }

  function ParseStr(f: seq<byte>, pos: nat): (r: Option<(seq<byte>, nat)>)
    ensures r.Some? ==> pos < r.value.1 <= |f|
  {
    var len := ParseNum(f, pos, 8);
    if len.None? || len.value > MAX_NAME || pos + 8 + len.value > |f| then None
    else Some((f[pos + 8..pos + 8 + len.value], pos + 8 + len.value))
  }

  function ParseValue(f: seq<byte>, pos: nat, t: nat): (r: Option<(Value, nat)>)
    requires pos <= |f|
    ensures r.Some? ==> pos < r.value.1 <= |f|
    decreases |f| - pos, 0, 0
  {
    if t == STRING_TYPE then
      var s := ParseStr(f, pos);
      if s.None? then None else Some((Text(s.value.0), s.value.1))
    else if t == ARRAY_TYPE then
      var elem, count := ParseNum(f, pos, 4), ParseNum(f, pos + 4, 8);
      if elem.None? || count.None? then None
      else
        var items := ParseItems(f, pos + 12, elem.value, count.value);
        if items.None? then None else Some((Array(elem.value, items.value.0), items.value.1))
    else if ScalarSize(t) == 0 || pos + ScalarSize(t) > |f| then None
    else Some((Scalar(f[pos..pos + ScalarSize(t)]), pos + ScalarSize(t)))
  }

  function ParseItems(f: seq<byte>, pos: nat, t: nat, count: nat): (r: Option<(seq<Value>, nat)>)
    requires pos <= |f|
    ensures r.Some? ==> pos <= r.value.1 <= |f| && |r.value.0| == count
    decreases |f| - pos, 1, count
  {
    if count == 0 then Some(([], pos))
    else
      var first := ParseValue(f, pos, t);
      if first.None? then None
      else
        var rest := ParseItems(f, first.value.1, t, count - 1);
        if rest.None? then None else Some(([first.value.0] + rest.value.0, rest.value.1))
  }

  function ParseKv(f: seq<byte>, pos: nat): (r: Option<(Kv, nat)>)
    ensures r.Some? ==> pos < r.value.1 <= |f|
  {
    var key := ParseStr(f, pos);
    if key.None? then None
    else
      var t := ParseNum(f, key.value.1, 4);
      if t.None? then None
      else
        var v := ParseValue(f, key.value.1 + 4, t.value);
        if v.None? then None else Some((Kv(key.value.0, t.value, v.value.0), v.value.1))
  }

  function ParseU64(f: seq<byte>, pos: nat): (r: Option<(nat, nat)>)
    ensures r.Some? ==> pos < r.value.1 <= |f|
  {
    var v := ParseNum(f, pos, 8);
    if v.None? then None else Some((v.value, pos + 8))
  }

  type Parser<T> = (seq<byte>, nat) -> Option<(T, nat)>

  /** `count` elements in a row. */
  function ParseList<T>(parse: Parser<T>, f: seq<byte>, pos: nat, count: nat): (r: Option<(seq<T>, nat)>)
    ensures r.Some? ==> |r.value.0| == count
    decreases count
  {
    if count == 0 then Some(([], pos))
    else
      var first := parse(f, pos);
      if first.None? then None
      else
        var rest := ParseList(parse, f, first.value.1, count - 1);
        if rest.None? then None else Some(([first.value.0] + rest.value.0, rest.value.1))
  }

  function ParseTensor(f: seq<byte>, pos: nat): (r: Option<(Tensor, nat)>)
    ensures r.Some? ==> pos + 8 <= r.value.1 <= |f|
  {
    var name := ParseStr(f, pos);
    if name.None? then None
    else
      var n := ParseNum(f, name.value.1, 4);
      if n.None? || n.value > 4 then None
      else
        var dims := ParseList(ParseU64, f, name.value.1 + 4, n.value);
        if dims.None? then None
        else
          var t := ParseNum(f, dims.value.1, 4);
          var off := ParseNum(f, dims.value.1 + 4, 8);
          if t.None? || off.None? then None
          else
            ListEnd(ParseU64, f, name.value.1 + 4, n.value);
            Some((Tensor(name.value.0, dims.value.0, t.value, off.value), dims.value.1 + 12))
  }

  /** Elements that each move forward inside the file leave the list's end inside the file. */
  lemma {:induction false} ListEnd<T(!new)>(parse: Parser<T>, f: seq<byte>, pos: nat, count: nat)
    requires ParseList(parse, f, pos, count).Some? && pos <= |f|
    requires forall p: nat :: parse(f, p).Some? ==> p < parse(f, p).value.1 <= |f|
    ensures pos <= ParseList(parse, f, pos, count).value.1 <= |f|
    decreases count
  {
    if count > 0 { ListEnd(parse, f, parse(f, pos).value.1, count - 1); }
  }

  function ParseMeta(f: seq<byte>): Option<(Meta, nat)> {
    var magic, version := ParseNum(f, 0, 4), ParseNum(f, 4, 4);
    var nTensors, nKv := ParseNum(f, 8, 8), ParseNum(f, 16, 8);
    if magic.None? || magic.value != MAGIC || version.None? || version.value < 2 || version.value > 3
       || nTensors.None? || nKv.None? then None
    else
      var kvs := ParseList(ParseKv, f, 24, nKv.value);
      if kvs.None? then None
      else
        var ts := ParseList(ParseTensor, f, kvs.value.1, nTensors.value);
        if ts.None? then None else Some((Meta(version.value, kvs.value.0, ts.value.0), ts.value.1))
  }
}
