/** The parser accepts exactly the encodings: parsing an encoding gives the content back, and whatever
    parses is the encoding of what it parsed to. */
module GgufRoundTrip {
  import opened Bytes
  import opened GgufFormat

  /** `s` stands in `f` at `pos`. */
  ghost predicate At(f: seq<byte>, pos: nat, s: seq<byte>)
    decreases |s|
  {
    pos <= |f| && (s != [] ==> pos < |f| && f[pos] == s[0] && At(f, pos + 1, s[1..]))
  }

  lemma {:induction false} AtSlice(f: seq<byte>, pos: nat, s: seq<byte>)
    ensures At(f, pos, s) <==> pos + |s| <= |f| && f[pos..pos + |s|] == s
    decreases |s|
  {
    if s != [] {
      AtSlice(f, pos + 1, s[1..]);
      if pos + |s| <= |f| {
        assert f[pos..pos + |s|] == [f[pos]] + f[pos + 1..pos + |s|];
        assert s == [s[0]] + s[1..];
      }
    }
  }

  lemma {:induction false} AtConcat(f: seq<byte>, pos: nat, a: seq<byte>, b: seq<byte>)
    ensures At(f, pos, a + b) <==> At(f, pos, a) && At(f, pos + |a|, b)
  {
    AtSlice(f, pos, a + b);
    AtSlice(f, pos, a);
    AtSlice(f, pos + |a|, b);
    if pos + |a| + |b| <= |f| {
      var whole := f[pos..pos + |a| + |b|];
      assert whole[..|a|] == f[pos..pos + |a|] && whole[|a|..] == f[pos + |a|..pos + |a| + |b|];
      assert whole == whole[..|a|] + whole[|a|..];
      assert (a + b)[..|a|] == a && (a + b)[|a|..] == b;
    }
  }

  lemma {:induction false} NumComplete(f: seq<byte>, pos: nat, v: nat, n: nat)
    requires v < Pow256(n) && At(f, pos, ToLE(v, n))
    ensures ParseNum(f, pos, n) == Some(v)
  {
    AtSlice(f, pos, ToLE(v, n));
    FromToLE(v, n);
    NumAtSlice(f, pos, n, ToLE(v, n));
  }

  lemma {:induction false} NumSound(f: seq<byte>, pos: nat, n: nat)
    requires ParseNum(f, pos, n).Some?
    ensures ParseNum(f, pos, n).value < Pow256(n) && At(f, pos, ToLE(ParseNum(f, pos, n).value, n))
  {
    ToFromLE(f[pos..pos + n]);
    AtSlice(f, pos, f[pos..pos + n]);
    NumAtSlice(f, pos, n, f[pos..pos + n]);
  }

  lemma {:induction false} NumIs(f: seq<byte>, pos: nat, n: nat, v: nat)
    requires ParseNum(f, pos, n) == Some(v)
    ensures v < Pow256(n) && At(f, pos, ToLE(v, n))
  {
    NumSound(f, pos, n);
  }

  lemma {:induction false} StrComplete(f: seq<byte>, pos: nat, body: seq<byte>)
    requires |body| <= MAX_NAME && At(f, pos, EncStr(body))
    ensures ParseStr(f, pos) == Some((body, pos + |EncStr(body)|))
  {
    AtConcat(f, pos, ToLE(|body|, 8), body);
    Widths();
    NumComplete(f, pos, |body|, 8);
    AtSlice(f, pos + 8, body);
  }

  lemma {:induction false} StrSound(f: seq<byte>, pos: nat)
    requires ParseStr(f, pos).Some?
    ensures var (body, p) := ParseStr(f, pos).value;
      |body| <= MAX_NAME && At(f, pos, EncStr(body)) && p == pos + |EncStr(body)|
  {
    var (body, p) := ParseStr(f, pos).value;
    NumSound(f, pos, 8);
    AtSlice(f, pos + 8, body);
    AtConcat(f, pos, ToLE(|body|, 8), body);
  }

  // ---------------------------------------------------------------- values

  lemma {:induction false} ValueComplete(f: seq<byte>, pos: nat, t: nat, v: Value)
    requires pos <= |f| && WellTyped(t, v) && At(f, pos, EncValue(v))
    ensures ParseValue(f, pos, t) == Some((v, pos + |EncValue(v)|))
    decreases v, 0
  {
    match v
    case Scalar(raw) => AtSlice(f, pos, raw);
    case Text(body) => StrComplete(f, pos, body);
    case Array(elem, items) =>
      AtConcat(f, pos, ToLE(elem, 4) + ToLE(|items|, 8), EncItems(items));
      AtConcat(f, pos, ToLE(elem, 4), ToLE(|items|, 8));
      NumComplete(f, pos, elem, 4);
      NumComplete(f, pos + 4, |items|, 8);
      ItemsComplete(f, pos + 12, elem, items);
  }

  lemma {:induction false} ItemsComplete(f: seq<byte>, pos: nat, t: nat, items: seq<Value>)
    requires pos <= |f| && AllTyped(t, items) && At(f, pos, EncItems(items))
    ensures ParseItems(f, pos, t, |items|) == Some((items, pos + |EncItems(items)|))
    decreases items, 0
  {
    if items != [] {
      var first, rest := EncValue(items[0]), EncItems(items[1..]);
      AtConcat(f, pos, first, rest);
      ValueComplete(f, pos, t, items[0]);
      ItemsComplete(f, pos + |first|, t, items[1..]);
      assert items == [items[0]] + items[1..];
    }
  }

  lemma {:induction false} ValueSound(f: seq<byte>, pos: nat, t: nat)
    requires pos <= |f| && ParseValue(f, pos, t).Some?
    ensures var (v, p) := ParseValue(f, pos, t).value;
      WellTyped(t, v) && At(f, pos, EncValue(v)) && p == pos + |EncValue(v)|
    decreases |f| - pos, 0, 0
  {
    var (v, p) := ParseValue(f, pos, t).value;
    if t == STRING_TYPE {
      StrSound(f, pos);
    } else if t == ARRAY_TYPE {
      NumSound(f, pos, 4);
      NumSound(f, pos + 4, 8);
      ItemsSound(f, pos + 12, v.elem, |v.items|);
      AtConcat(f, pos, ToLE(v.elem, 4), ToLE(|v.items|, 8));
      AtConcat(f, pos, ToLE(v.elem, 4) + ToLE(|v.items|, 8), EncItems(v.items));
    } else {
      AtSlice(f, pos, v.raw);
    }
  }

  lemma {:induction false} ItemsSound(f: seq<byte>, pos: nat, t: nat, count: nat)
    requires pos <= |f| && ParseItems(f, pos, t, count).Some?
    ensures var (items, p) := ParseItems(f, pos, t, count).value;
      AllTyped(t, items) && At(f, pos, EncItems(items)) && p == pos + |EncItems(items)|
    decreases |f| - pos, 1, count
  {
    if count > 0 {
      var (first, next) := ParseValue(f, pos, t).value;
      var (rest, p) := ParseItems(f, next, t, count - 1).value;
      ValueSound(f, pos, t);
      ItemsSound(f, next, t, count - 1);
      var items := [first] + rest;
      assert items[1..] == rest;
      AtConcat(f, pos, EncValue(first), EncItems(rest));
    }
  }

  // ---------------------------------------------------------------- key-value pairs

  lemma {:induction false} KvComplete(f: seq<byte>, pos: nat, kv: Kv)
    requires KvOk(kv) && At(f, pos, EncKv(kv))
    ensures ParseKv(f, pos) == Some((kv, pos + |EncKv(kv)|))
  {
    AtConcat(f, pos, EncStr(kv.key) + ToLE(kv.vtype, 4), EncValue(kv.value));
    AtConcat(f, pos, EncStr(kv.key), ToLE(kv.vtype, 4));
    StrComplete(f, pos, kv.key);
    NumComplete(f, pos + |EncStr(kv.key)|, kv.vtype, 4);
    ValueComplete(f, pos + |EncStr(kv.key)| + 4, kv.vtype, kv.value);
  }

  lemma {:induction false} KvSound(f: seq<byte>, pos: nat)
    requires ParseKv(f, pos).Some?
    ensures var (kv, p) := ParseKv(f, pos).value;
      KvOk(kv) && At(f, pos, EncKv(kv)) && p == pos + |EncKv(kv)|
  {
    var (kv, p) := ParseKv(f, pos).value;
    StrSound(f, pos);
    var k := ParseStr(f, pos).value.1;
    NumSound(f, k, 4);
    ValueSound(f, k + 4, kv.vtype);
    AtConcat(f, pos, EncStr(kv.key), ToLE(kv.vtype, 4));
    AtConcat(f, pos, EncStr(kv.key) + ToLE(kv.vtype, 4), EncValue(kv.value));
  }

  // ---------------------------------------------------------------- lists

  /** `parse` reads back what `enc` writes, for elements that are `ok`. */
  ghost predicate Reads<T(!new)>(enc: T -> seq<byte>, parse: Parser<T>, ok: T -> bool, f: seq<byte>) {
    forall pos: nat, x {:trigger At(f, pos, enc(x))} ::
      ok(x) && At(f, pos, enc(x)) ==> parse(f, pos) == Some((x, pos + |enc(x)|))
  }

  /** Whatever `parse` reads is the encoding of what it returns. */
  ghost predicate Trusts<T(!new)>(enc: T -> seq<byte>, parse: Parser<T>, ok: T -> bool, f: seq<byte>) {
    forall pos: nat {:trigger parse(f, pos)} :: parse(f, pos).Some? ==>
      var (x, p) := parse(f, pos).value; ok(x) && At(f, pos, enc(x)) && p == pos + |enc(x)|
  }

  lemma {:induction false} ListComplete<T(!new)>(enc: T -> seq<byte>, parse: Parser<T>, ok: T -> bool,
                                                 f: seq<byte>, pos: nat, xs: seq<T>)
    requires Reads(enc, parse, ok, f) && AllOk(ok, xs) && At(f, pos, EncList(enc, xs))
    ensures ParseList(parse, f, pos, |xs|) == Some((xs, pos + |EncList(enc, xs)|))
    decreases |xs|
  {
    if xs != [] {
      AtConcat(f, pos, enc(xs[0]), EncList(enc, xs[1..]));
      ListComplete(enc, parse, ok, f, pos + |enc(xs[0])|, xs[1..]);
      assert xs == [xs[0]] + xs[1..];
    }
  }

  lemma {:induction false} ListSound<T(!new)>(enc: T -> seq<byte>, parse: Parser<T>, ok: T -> bool,
                                              f: seq<byte>, pos: nat, count: nat)
    requires Trusts(enc, parse, ok, f) && pos <= |f| && ParseList(parse, f, pos, count).Some?
    ensures var (xs, p) := ParseList(parse, f, pos, count).value;
      AllOk(ok, xs) && At(f, pos, EncList(enc, xs)) && p == pos + |EncList(enc, xs)| && |xs| == count
    decreases count
  {
    if count > 0 {
      var (first, next) := parse(f, pos).value;
      var (rest, p) := ParseList(parse, f, next, count - 1).value;
      AtSlice(f, pos, enc(first));
      ListSound(enc, parse, ok, f, next, count - 1);
      var xs := [first] + rest;
      assert xs[1..] == rest;
      AtConcat(f, pos, enc(first), EncList(enc, rest));
    }
  }

  lemma {:induction false} KvReads(f: seq<byte>)
    ensures Reads(EncKv, ParseKv, KvOk, f)
  {
    forall p: nat, kv ensures KvOk(kv) && At(f, p, EncKv(kv)) ==> ParseKv(f, p) == Some((kv, p + |EncKv(kv)|)) {
      KvRead(f, p, kv);
    }
  }

  lemma {:induction false} KvRead(f: seq<byte>, pos: nat, kv: Kv)
    ensures KvOk(kv) && At(f, pos, EncKv(kv)) ==> ParseKv(f, pos) == Some((kv, pos + |EncKv(kv)|))
  {
    if KvOk(kv) && At(f, pos, EncKv(kv)) { KvComplete(f, pos, kv); }
  }

  lemma {:induction false} KvsComplete(f: seq<byte>, pos: nat, kvs: seq<Kv>)
    requires AllOk(KvOk, kvs) && At(f, pos, EncKvs(kvs))
    ensures ParseList(ParseKv, f, pos, |kvs|) == Some((kvs, pos + |EncKvs(kvs)|))
  {
    KvReads(f);
    ListComplete(EncKv, ParseKv, KvOk, f, pos, kvs);
  }

  lemma {:induction false} KvsSound(f: seq<byte>, pos: nat, count: nat)
    requires pos <= |f| && ParseList(ParseKv, f, pos, count).Some?
    ensures var (kvs, p) := ParseList(ParseKv, f, pos, count).value;
      AllOk(KvOk, kvs) && At(f, pos, EncKvs(kvs)) && p == pos + |EncKvs(kvs)| && |kvs| == count
  {
    forall p: nat | ParseKv(f, p).Some?
      ensures var (kv, q) := ParseKv(f, p).value; KvOk(kv) && At(f, p, EncKv(kv)) && q == p + |EncKv(kv)|
    {
      KvSound(f, p);
    }
    ListSound(EncKv, ParseKv, KvOk, f, pos, count);
  }

  lemma {:induction false} DimsComplete(f: seq<byte>, pos: nat, dims: seq<nat>)
    requires AllOk(U64Ok, dims) && At(f, pos, EncDims(dims))
    ensures ParseList(ParseU64, f, pos, |dims|) == Some((dims, pos + |EncDims(dims)|))
  {
    forall p: nat, v: nat | U64Ok(v) && At(f, p, EncU64(v)) ensures ParseU64(f, p) == Some((v, p + |EncU64(v)|)) {
      NumComplete(f, p, v, 8);
    }
    ListComplete(EncU64, ParseU64, U64Ok, f, pos, dims);
  }

  lemma {:induction false} DimsSound(f: seq<byte>, pos: nat, count: nat)
    requires pos <= |f| && ParseList(ParseU64, f, pos, count).Some?
    ensures var (dims, p) := ParseList(ParseU64, f, pos, count).value;
      AllOk(U64Ok, dims) && At(f, pos, EncDims(dims)) && p == pos + |EncDims(dims)| && |dims| == count
  {
    forall p: nat | ParseU64(f, p).Some?
      ensures var (v, q) := ParseU64(f, p).value; U64Ok(v) && At(f, p, EncU64(v)) && q == p + |EncU64(v)|
    {
      NumSound(f, p, 8);
    }
    ListSound(EncU64, ParseU64, U64Ok, f, pos, count);
  }

  // ---------------------------------------------------------------- tensors

  lemma {:induction false} TensorComplete(f: seq<byte>, pos: nat, t: Tensor)
    requires TensorOk(t) && At(f, pos, EncTensor(t))
    ensures ParseTensor(f, pos) == Some((t, pos + |EncTensor(t)|))
  {
    var n := pos + |EncStr(t.name)|;
    var q := n + 4 + |EncDims(t.dims)|;
    TensorParts(f, pos, t);
    Widths();
    assert ParseStr(f, pos) == Some((t.name, n)) by { StrComplete(f, pos, t.name); }
    assert ParseNum(f, n, 4) == Some(|t.dims|) by { NumComplete(f, n, |t.dims|, 4); }
    assert ParseList(ParseU64, f, n + 4, |t.dims|) == Some((t.dims, q)) by { DimsComplete(f, n + 4, t.dims); }
    assert ParseNum(f, q, 4) == Some(t.ggmlType) by { NumComplete(f, q, t.ggmlType, 4); }
    assert ParseNum(f, q + 4, 8) == Some(t.relOffset) by { NumComplete(f, q + 4, t.relOffset, 8); }
    TensorParsed(f, pos, t, n, q);
  }

  lemma {:induction false} TensorParsed(f: seq<byte>, pos: nat, t: Tensor, n: nat, q: nat)
    requires ParseStr(f, pos) == Some((t.name, n)) && ParseNum(f, n, 4) == Some(|t.dims|) && |t.dims| <= 4
    requires ParseList(ParseU64, f, n + 4, |t.dims|) == Some((t.dims, q))
    requires ParseNum(f, q, 4) == Some(t.ggmlType) && ParseNum(f, q + 4, 8) == Some(t.relOffset)
    ensures ParseTensor(f, pos) == Some((t, q + 12))
  {
  }

  /** The fields of a directory entry, each at its place. */
  lemma {:induction false} TensorParts(f: seq<byte>, pos: nat, t: Tensor)
    ensures var a, dims := EncStr(t.name), EncDims(t.dims);
      && |EncTensor(t)| == |a| + 16 + |dims|
      && (At(f, pos, EncTensor(t)) <==>
            && At(f, pos, a) && At(f, pos + |a|, ToLE(|t.dims|, 4)) && At(f, pos + |a| + 4, dims)
            && At(f, pos + |a| + 4 + |dims|, ToLE(t.ggmlType, 4)) && At(f, pos + |a| + 8 + |dims|, ToLE(t.relOffset, 8)))
  {
    var a := EncStr(t.name);
    var b := a + ToLE(|t.dims|, 4);
    var c := b + EncDims(t.dims);
    var d := c + ToLE(t.ggmlType, 4);
    AtConcat(f, pos, a, ToLE(|t.dims|, 4));
    AtConcat(f, pos, b, EncDims(t.dims));
    AtConcat(f, pos, c, ToLE(t.ggmlType, 4));
    AtConcat(f, pos, d, ToLE(t.relOffset, 8));
  }

  lemma {:induction false} TensorSound(f: seq<byte>, pos: nat)
    requires ParseTensor(f, pos).Some?
    ensures var (t, p) := ParseTensor(f, pos).value;
      TensorOk(t) && At(f, pos, EncTensor(t)) && p == pos + |EncTensor(t)|
  {
    var t, n, q := TensorFields(f, pos);
    assert |t.name| <= MAX_NAME && At(f, pos, EncStr(t.name)) && n == pos + |EncStr(t.name)| by { StrSound(f, pos); }
    NumIs(f, n, 4, |t.dims|);
    assert AllOk(U64Ok, t.dims) && At(f, n + 4, EncDims(t.dims)) && q == n + 4 + |EncDims(t.dims)| by {
      DimsSound(f, n + 4, |t.dims|);
    }
    NumIs(f, q, 4, t.ggmlType);
    NumIs(f, q + 4, 8, t.relOffset);
    TensorAssembled(f, pos, t, n, q);
  }

  lemma {:induction false} TensorFields(f: seq<byte>, pos: nat) returns (t: Tensor, n: nat, q: nat)
    requires ParseTensor(f, pos).Some?
    ensures ParseTensor(f, pos) == Some((t, q + 12)) && n + 4 <= |f|
    ensures ParseStr(f, pos) == Some((t.name, n)) && ParseNum(f, n, 4) == Some(|t.dims|) && |t.dims| <= 4
    ensures ParseList(ParseU64, f, n + 4, |t.dims|) == Some((t.dims, q))
    ensures ParseNum(f, q, 4) == Some(t.ggmlType) && ParseNum(f, q + 4, 8) == Some(t.relOffset)
  {
    t := ParseTensor(f, pos).value.0;
    n := ParseStr(f, pos).value.1;
    q := ParseList(ParseU64, f, n + 4, |t.dims|).value.1;
  }

  lemma {:induction false} TensorAssembled(f: seq<byte>, pos: nat, t: Tensor, n: nat, q: nat)
    requires At(f, pos, EncStr(t.name)) && n == pos + |EncStr(t.name)| && At(f, n, ToLE(|t.dims|, 4))
    requires At(f, n + 4, EncDims(t.dims)) && q == n + 4 + |EncDims(t.dims)|
    requires At(f, q, ToLE(t.ggmlType, 4)) && At(f, q + 4, ToLE(t.relOffset, 8))
    ensures At(f, pos, EncTensor(t)) && q + 12 == pos + |EncTensor(t)|
  {
    TensorParts(f, pos, t);
  }

  lemma {:induction false} TensorReads(f: seq<byte>)
    ensures Reads(EncTensor, ParseTensor, TensorOk, f)
  {
    forall p: nat, t | TensorOk(t) && At(f, p, EncTensor(t)) ensures ParseTensor(f, p) == Some((t, p + |EncTensor(t)|)) {
      TensorComplete(f, p, t);
    }
  }

  lemma {:induction false} TensorsComplete(f: seq<byte>, pos: nat, ts: seq<Tensor>)
    requires AllOk(TensorOk, ts) && At(f, pos, EncTensors(ts))
    ensures ParseList(ParseTensor, f, pos, |ts|) == Some((ts, pos + |EncTensors(ts)|))
  {
    TensorReads(f);
    ListComplete(EncTensor, ParseTensor, TensorOk, f, pos, ts);
  }

  lemma {:induction false} TensorsSound(f: seq<byte>, pos: nat, count: nat)
    requires pos <= |f| && ParseList(ParseTensor, f, pos, count).Some?
    ensures var (ts, p) := ParseList(ParseTensor, f, pos, count).value;
      AllOk(TensorOk, ts) && At(f, pos, EncTensors(ts)) && p == pos + |EncTensors(ts)| && |ts| == count
  {
    forall p: nat | ParseTensor(f, p).Some?
      ensures var (t, q) := ParseTensor(f, p).value; TensorOk(t) && At(f, p, EncTensor(t)) && q == p + |EncTensor(t)|
    {
      TensorSound(f, p);
    }
    ListSound(EncTensor, ParseTensor, TensorOk, f, pos, count);
  }

  // ---------------------------------------------------------------- the whole section

  lemma {:induction false} HeaderParts(f: seq<byte>, m: Meta)
    ensures |EncHeader(m)| == 24
    ensures At(f, 0, EncHeader(m)) <==>
      At(f, 0, ToLE(MAGIC, 4)) && At(f, 4, ToLE(m.version, 4)) && At(f, 8, ToLE(|m.tensors|, 8)) && At(f, 16, ToLE(|m.kvs|, 8))
  {
    var a := ToLE(MAGIC, 4);
    var b := a + ToLE(m.version, 4);
    var c := b + ToLE(|m.tensors|, 8);
    AtConcat(f, 0, a, ToLE(m.version, 4));
    AtConcat(f, 0, b, ToLE(|m.tensors|, 8));
    AtConcat(f, 0, c, ToLE(|m.kvs|, 8));
  }

  lemma {:induction false} MetaParts(f: seq<byte>, m: Meta)
    ensures |EncMeta(m)| == 24 + |EncKvs(m.kvs)| + |EncTensors(m.tensors)|
    ensures At(f, 0, EncMeta(m)) <==>
      At(f, 0, EncHeader(m)) && At(f, 24, EncKvs(m.kvs)) && At(f, 24 + |EncKvs(m.kvs)|, EncTensors(m.tensors))
  {
    HeaderParts(f, m);
    AtConcat(f, 0, EncHeader(m) + EncKvs(m.kvs), EncTensors(m.tensors));
    AtConcat(f, 0, EncHeader(m), EncKvs(m.kvs));
  }

  lemma {:induction false} HeaderComplete(f: seq<byte>, m: Meta)
    requires MetaOk(m) && At(f, 0, EncHeader(m))
    ensures ParseNum(f, 0, 4) == Some(MAGIC) && ParseNum(f, 4, 4) == Some(m.version)
    ensures ParseNum(f, 8, 8) == Some(|m.tensors|) && ParseNum(f, 16, 8) == Some(|m.kvs|)
  {
    HeaderParts(f, m);
    Widths();
    NumComplete(f, 0, MAGIC, 4);
    NumComplete(f, 4, m.version, 4);
    NumComplete(f, 8, |m.tensors|, 8);
    NumComplete(f, 16, |m.kvs|, 8);
  }

  lemma {:induction false} HeaderSound(f: seq<byte>)
    requires ParseMeta(f).Some?
    ensures var (m, p) := ParseMeta(f).value;
      |m.tensors| < Pow256(8) && |m.kvs| < Pow256(8) && At(f, 0, EncHeader(m))
  {
    var (m, p) := ParseMeta(f).value;
    NumSound(f, 0, 4);
    NumSound(f, 4, 4);
    NumSound(f, 8, 8);
    NumSound(f, 16, 8);
    HeaderParts(f, m);
  }

  lemma {:induction false} MetaComplete(f: seq<byte>, m: Meta)
    requires MetaOk(m) && At(f, 0, EncMeta(m))
    ensures ParseMeta(f) == Some((m, |EncMeta(m)|))
  {
    MetaParts(f, m);
    HeaderComplete(f, m);
    var k, end := 24 + |EncKvs(m.kvs)|, |EncMeta(m)|;
    KvsAt(f, 24, m.kvs, k);
    TensorsAt(f, k, m.tensors, end);
    MetaParsed(f, m, k, end);
  }

  lemma {:induction false} KvsAt(f: seq<byte>, pos: nat, kvs: seq<Kv>, end: nat)
    requires AllOk(KvOk, kvs) && At(f, pos, EncKvs(kvs)) && end == pos + |EncKvs(kvs)|
    ensures ParseList(ParseKv, f, pos, |kvs|) == Some((kvs, end))
  {
    KvsComplete(f, pos, kvs);
  }

  lemma {:induction false} TensorsAt(f: seq<byte>, pos: nat, ts: seq<Tensor>, end: nat)
    requires AllOk(TensorOk, ts) && At(f, pos, EncTensors(ts)) && end == pos + |EncTensors(ts)|
    ensures ParseList(ParseTensor, f, pos, |ts|) == Some((ts, end))
  {
    TensorsComplete(f, pos, ts);
  }

  lemma {:induction false} MetaParsed(f: seq<byte>, m: Meta, k: nat, end: nat)
    requires ParseNum(f, 0, 4) == Some(MAGIC) && ParseNum(f, 4, 4) == Some(m.version) && 2 <= m.version <= 3
    requires ParseNum(f, 8, 8) == Some(|m.tensors|) && ParseNum(f, 16, 8) == Some(|m.kvs|)
    requires ParseList(ParseKv, f, 24, |m.kvs|) == Some((m.kvs, k))
    requires ParseList(ParseTensor, f, k, |m.tensors|) == Some((m.tensors, end))
    ensures ParseMeta(f) == Some((m, end))
  {
  }

  lemma {:induction false} MetaSound(f: seq<byte>)
    requires ParseMeta(f).Some?
    ensures var (m, p) := ParseMeta(f).value;
      MetaOk(m) && At(f, 0, EncMeta(m)) && p == |EncMeta(m)|
  {
    var (m, p) := ParseMeta(f).value;
    var k := ParseList(ParseKv, f, 24, |m.kvs|).value.1;
    HeaderSound(f);
    KvsSound(f, 24, |m.kvs|);
    AtSlice(f, 24, EncKvs(m.kvs));
    TensorsSound(f, k, |m.tensors|);
    MetaAssembled(f, m, k, p);
  }

  lemma {:induction false} MetaAssembled(f: seq<byte>, m: Meta, k: nat, p: nat)
    requires At(f, 0, EncHeader(m)) && At(f, 24, EncKvs(m.kvs)) && k == 24 + |EncKvs(m.kvs)|
    requires At(f, k, EncTensors(m.tensors)) && p == k + |EncTensors(m.tensors)|
    ensures At(f, 0, EncMeta(m)) && p == |EncMeta(m)|
  {
    MetaParts(f, m);
  }

  /** A file parses to `m` if and only if it starts with the encoding of `m`. */
  lemma {:induction false} ParseIffEncoded(f: seq<byte>, m: Meta)
    ensures ParseMeta(f) == Some((m, |EncMeta(m)|)) <==> MetaOk(m) && At(f, 0, EncMeta(m))
  {
    if ParseMeta(f) == Some((m, |EncMeta(m)|)) { MetaSound(f); }
    if MetaOk(m) && At(f, 0, EncMeta(m)) { MetaComplete(f, m); }
  }
}
