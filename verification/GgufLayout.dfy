/** The format field by field: which bytes of an encoding hold what. */
module GgufLayout {
  import opened Bytes
  import opened GgufFormat
  import opened GgufRoundTrip

  /** `n` bytes of `s` from `at` on, as a little-endian number. */
  ghost predicate Field(s: seq<byte>, at: nat, n: nat, v: nat) {
    at + n <= |s| && FromLE(s[at..at + n]) == v
  }

  /** The first byte counts least. */
  lemma {:induction false} LittleEndian(a: byte, b: byte, c: byte, d: byte)
    ensures FromLE([a, b, c, d]) == a + 0x100 * b + 0x1_0000 * c + 0x100_0000 * d
  {
    assert [a, b, c, d][1..] == [b, c, d] && [b, c, d][1..] == [c, d] && [c, d][1..] == [d] && [d][1..] == [];
    assert FromLE([d]) == d;
    assert FromLE([c, d]) == c + 0x100 * d;
    assert FromLE([b, c, d]) == b + 0x100 * FromLE([c, d]);
  }

  /** A number stored between `before` and `after`. */
  lemma {:induction false} FieldIn(before: seq<byte>, v: nat, n: nat, after: seq<byte>, whole: seq<byte>, at: nat)
    requires v < Pow256(n) && whole == before + ToLE(v, n) + after && at == |before|
    ensures Field(whole, at, n, v)
  {
    assert whole[at..at + n] == ToLE(v, n);
    FromToLE(v, n);
  }

  /** A string: its length in eight bytes, at most a mebibyte, and its bytes. */
  lemma {:induction false} StringLayout(body: seq<byte>)
    requires |body| <= 0x10_0000
    ensures var s := EncStr(body); Field(s, 0, 8, |body|) && s[8..] == body
  {
    Widths();
    FieldIn([], |body|, 8, body, EncStr(body), 0);
  }

  /** A pair: key, type in four bytes, value. */
  lemma {:induction false} PairLayout(kv: Kv)
    requires KvOk(kv)
    ensures var s, k := EncKv(kv), |EncStr(kv.key)|;
      k + 4 <= |s| && s[..k] == EncStr(kv.key) && Field(s, k, 4, kv.vtype) && s[k + 4..] == EncValue(kv.value)
  {
    FieldIn(EncStr(kv.key), kv.vtype, 4, EncValue(kv.value), EncKv(kv), |EncStr(kv.key)|);
  }

  /** A value: a scalar as many bytes as its type says; a text a string; an array its element type in four
      bytes, its length in eight, and its elements. */
  lemma {:induction false} ValueLayout(t: nat, v: Value)
    requires WellTyped(t, v)
    ensures match v
      case Scalar(raw) =>
        EncValue(v) == raw
        && |raw| == (if t in {0, 1, 7} then 1 else if t in {2, 3} then 2 else if t in {4, 5, 6} then 4 else 8)
        && t in {0, 1, 2, 3, 4, 5, 6, 7, 10, 11, 12}
      case Text(body) => t == 8 && |body| <= 0x10_0000 && EncValue(v) == EncStr(body)
      case Array(elem, items) =>
        t == 9 && Field(EncValue(v), 0, 4, elem) && Field(EncValue(v), 4, 8, |items|)
        && EncValue(v)[12..] == EncItems(items)
  {
    match v
    case Scalar(raw) =>
    case Text(body) =>
    case Array(elem, items) =>
      var s := EncValue(v);
      FieldIn([], elem, 4, ToLE(|items|, 8) + EncItems(items), s, 0);
      FieldIn(ToLE(elem, 4), |items|, 8, EncItems(items), s, 4);
  }

  /** The header: magic, version, number of tensors and of pairs; pairs and directory follow. */
  lemma {:induction false} HeaderLayout(m: Meta)
    requires MetaOk(m)
    ensures var s := EncMeta(m);
      && |s| >= 24 && s[..4] == ['G' as int, 'G' as int, 'U' as int, 'F' as int] && 2 <= m.version <= 3
      && Field(s, 4, 4, m.version) && Field(s, 8, 8, |m.tensors|) && Field(s, 16, 8, |m.kvs|)
      && s[24..] == EncKvs(m.kvs) + EncTensors(m.tensors)
  {
    var s, rest := EncMeta(m), EncKvs(m.kvs) + EncTensors(m.tensors);
    var a, b, c, d := ToLE(MAGIC, 4), ToLE(m.version, 4), ToLE(|m.tensors|, 8), ToLE(|m.kvs|, 8);
    Widths();
    assert s == a + b + c + d + rest;
    MagicBytes();
    FourParts(a, b, c, d, rest, s);
    FieldIn(a, m.version, 4, c + d + rest, s, 4);
    FieldIn(a + b, |m.tensors|, 8, d + rest, s, 8);
    FieldIn(a + b + c, |m.kvs|, 8, rest, s, 16);
  }

  lemma {:induction false} FourParts(a: seq<byte>, b: seq<byte>, c: seq<byte>, d: seq<byte>, rest: seq<byte>, s: seq<byte>)
    requires s == a + b + c + d + rest
    ensures s[..|a|] == a && s[|a + b + c + d|..] == rest
    ensures s == a + b + (c + d + rest) == a + b + c + (d + rest)
  {
  }

  lemma {:induction false} MagicBytes()
    ensures ToLE(MAGIC, 4) == ['G' as int, 'G' as int, 'U' as int, 'F' as int]
  {
    LittleEndian(0x47, 0x47, 0x55, 0x46);
    ToFromLE([0x47, 0x47, 0x55, 0x46]);
  }

  /** A directory entry: name, number of dimensions (at most four), dimensions, type, and the relative offset
      in its last eight bytes. */
  lemma {:induction false} EntryLayout(t: Tensor)
    requires TensorOk(t)
    ensures var s, n, d := EncTensor(t), |EncStr(t.name)|, |t.dims|;
      && d <= 4 && |s| == n + 4 + 8 * d + 4 + 8 && s[..n] == EncStr(t.name) && Field(s, n, 4, d)
      && (forall i :: 0 <= i < d ==> Field(s, n + 4 + 8 * i, 8, t.dims[i]))
      && Field(s, n + 4 + 8 * d, 4, t.ggmlType) && Field(s, n + 8 + 8 * d, 8, t.relOffset)
  {
    var s, n, d := EncTensor(t), |EncStr(t.name)|, |t.dims|;
    var a, c, dims, y, o := EncStr(t.name), ToLE(d, 4), EncDims(t.dims), ToLE(t.ggmlType, 4), ToLE(t.relOffset, 8);
    Widths();
    assert s == a + c + dims + y + o;
    FourParts(a, c, dims, y, o, s);
    DimsLayout(t.dims, a + c, y + o, s);
    FieldIn(a, d, 4, dims + y + o, s, n);
    FieldIn(a + c + dims, t.ggmlType, 4, o, s, n + 4 + 8 * d);
    LastField(a + c + dims + y, t.relOffset, 8, s, n + 8 + 8 * d);
  }

  lemma {:induction false} LastField(before: seq<byte>, v: nat, n: nat, whole: seq<byte>, at: nat)
    requires v < Pow256(n) && whole == before + ToLE(v, n) && at == |before|
    ensures Field(whole, at, n, v)
  {
    assert whole == before + ToLE(v, n) + [];
    FieldIn(before, v, n, [], whole, at);
  }

  lemma {:induction false} DimsLayout(dims: seq<nat>, before: seq<byte>, after: seq<byte>, whole: seq<byte>)
    requires AllOk(U64Ok, dims) && whole == before + EncDims(dims) + after
    ensures |EncDims(dims)| == 8 * |dims|
    ensures forall i :: 0 <= i < |dims| ==> Field(whole, |before| + 8 * i, 8, dims[i])
    decreases |dims|
  {
    if dims != [] {
      var first, rest := ToLE(dims[0], 8), dims[1..];
      assert EncDims(dims) == first + EncDims(rest);
      assert whole == (before + first) + EncDims(rest) + after;
      DimsLayout(rest, before + first, after, whole);
      FieldIn(before, dims[0], 8, EncDims(rest) + after, whole, |before|);
      forall i | 0 < i < |dims| ensures Field(whole, |before| + 8 * i, 8, dims[i]) {
        assert Field(whole, |before + first| + 8 * (i - 1), 8, rest[i - 1]);
      }
    }
  }
}
