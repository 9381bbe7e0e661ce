/** The metadata reader: a file cursor advanced by reads and seeks, filling key tables and the tensor
    directory, proved against the parser of module `GgufFormat`. */
module GgufReader {
  import opened Bytes
  import opened GgufFormat
  import opened GgufRoundTrip

  /** A key, as the tables index it. */
  datatype Name = Name(text: seq<byte>)

  /** A directory entry and the file position of its offset field. */
  datatype RawTensor = RawTensor(t: Tensor, fieldPos: nat)

  /** Everything the reader keeps of the key-value section. */
  datatype Tables = Tables(u: map<Name, nat>, i: map<Name, nat>, f: map<Name, seq<byte>>, s: map<Name, seq<byte>>,
                           pos: map<Name, nat>)

  const NO_TABLES := Tables(map[], map[], map[], map[], map[])

  predicate IsUnsigned(t: nat) {
    t == 0 || t == 2 || t == 4 || t == 10 || t == 7
  }

  predicate IsSigned(t: nat) {
    t == 1 || t == 3 || t == 5 || t == 11
  }

  /** Records one pair whose value starts at `vpos`; later pairs win. Integers are kept as their raw
      little-endian bits (narrow signed ones are not sign extended), floats as bytes; arrays are skipped. */
  function Record(tab: Tables, kv: Kv, vpos: nat): Tables {
    var k := Name(kv.key);
    match kv.value
    case Scalar(raw) =>
      if IsUnsigned(kv.vtype) then tab.(u := tab.u[k := FromLE(raw)], pos := tab.pos[k := vpos])
      else if IsSigned(kv.vtype) then tab.(i := tab.i[k := FromLE(raw)], pos := tab.pos[k := vpos])
      else tab.(f := tab.f[k := raw])
    case Text(body) => tab.(s := tab.s[k := body])
    case Array(_, _) => tab
  }

  /** The tables after all of `kvs`, which start at file position `start`. */
  function TablesOf(kvs: seq<Kv>, start: nat): Tables {
    if kvs == [] then NO_TABLES
    else
      var n := |kvs| - 1;
      Record(TablesOf(kvs[..n], start), kvs[n], start + |EncKvs(kvs[..n])| + |EncStr(kvs[n].key)| + 4)
  }

  function RawTensors(ts: seq<Tensor>, start: nat): (r: seq<RawTensor>)
    ensures |r| == |ts|
  {
    if ts == [] then []
    else
      var n := |ts| - 1;
      RawTensors(ts[..n], start) + [RawTensor(ts[n], start + |EncTensors(ts[..n])| + |EncTensor(ts[n])| - 8)]
  }

  /** The bytes of an ASCII literal. */
  function Ascii(text: string): (s: seq<byte>)
    ensures |s| == |text|
  {
    seq(|text|, i requires 0 <= i < |text| => text[i] as int % 256)
  }

  const ALIGNMENT_KEY: Name := Name(Ascii("general.alignment"))

  predicate PowerOfTwo(a: nat) {
    a == 1 || (a > 1 && a % 2 == 0 && PowerOfTwo(a / 2))
  }

  function AlignmentOf(tab: Tables): nat {
    if ALIGNMENT_KEY in tab.u then tab.u[ALIGNMENT_KEY] else 32
  }

  function AlignUp(v: nat, a: nat): nat {
    if a == 0 then v else (v + a - 1) / a * a
  }

  /** The least multiple of `a` that is not below `v`. */
  lemma {:induction false} AlignUpIs(v: nat, a: nat, r: nat)
    requires a > 0 && r == AlignUp(v, a)
    ensures r % a == 0 && v <= r < v + a
  {
    var q := (v + a - 1) / a;
    assert v + a - 1 == q * a + (v + a - 1) % a;
    MultipleOf(q, a);
  }

  lemma {:induction false} MultipleOf(q: nat, a: nat)
    requires a > 0
    ensures q * a >= 0 && (q * a) % a == 0
  {
    var v := q * a;
    var p, r := v / a, v % a;
    assert v == p * a + r && (q - p) * a == r;
    if q > p { AtLeastOnce(q - p, a); }
    if q < p { AtLeastOnce(p - q, a); }
  }

  lemma {:induction false} AtLeastOnce(d: nat, a: nat)
    requires d > 0
    ensures d * a >= a
  {
    assert d * a == (d - 1) * a + a && (d - 1) * a >= 0;
  }

  lemma {:induction false} AlignUpAbove(v: nat, a: nat)
    ensures v <= AlignUp(v, a)
  {
    if a > 0 { AlignUpIs(v, a, AlignUp(v, a)); }
  }

  /** Two to the power `k`. */
  function Pow2(k: nat): (r: nat)
    ensures r > 0
  {
    if k == 0 then 1 else 2 * Pow2(k - 1)
  }

  lemma {:induction false} PowerOfTwoIff(a: nat)
    ensures PowerOfTwo(a) <==> exists k: nat :: a == Pow2(k)
    decreases a
  {
    if a == 1 {
      assert Pow2(0) == 1;
    } else if a > 1 && a % 2 == 0 {
      PowerOfTwoIff(a / 2);
      if PowerOfTwo(a / 2) {
        var k: nat :| a / 2 == Pow2(k);
        assert a == Pow2(k + 1);
      }
      forall k: nat | a == Pow2(k) ensures PowerOfTwo(a) { assert a / 2 == Pow2(k - 1); }
    } else {
      forall k: nat ensures a != Pow2(k) { }
    }
  }

  lemma {:induction false} EncListSnoc<T>(enc: T -> seq<byte>, xs: seq<T>, x: T)
    ensures EncList(enc, xs + [x]) == EncList(enc, xs) + enc(x)
    decreases |xs|
  {
    if xs == [] {
      assert ([] + [x])[1..] == [];
      assert EncList(enc, [x]) == enc(x) + [];
    } else {
      assert (xs + [x])[1..] == xs[1..] + [x];
      EncListSnoc(enc, xs[1..], x);
    }
  }

  lemma {:induction false} TablesSnoc(kvs: seq<Kv>, start: nat, kv: Kv, tab: Tables, at: nat)
    requires tab == TablesOf(kvs, start) && at == start + |EncKvs(kvs)|
    ensures TablesOf(kvs + [kv], start) == Record(tab, kv, at + |EncStr(kv.key)| + 4)
  {
    assert (kvs + [kv])[..|kvs|] == kvs;
  }

  /** From `start` to `at` stand the pairs `kvs`, which fill the tables `tab`. */
  ghost predicate PairsRead(f: seq<byte>, start: nat, kvs: seq<Kv>, at: nat, tab: Tables) {
    && at <= |f| && ParseList(ParseKv, f, start, |kvs|) == Some((kvs, at))
    && tab == TablesOf(kvs, start) && at == start + |EncKvs(kvs)|
  }

  /** One more pair was skipped, and it ends at `end`, behind the file. */
  ghost predicate PairsPast(f: seq<byte>, start: nat, kvs: seq<Kv>, end: nat, tab: Tables) {
    end > |f| && KvsRunOut(f, start, |kvs| + 1) == Some((kvs, end)) && tab == TablesOf(kvs, start)
  }

  lemma {:induction false} PairsEnd(f: seq<byte>, start: nat, kvs: seq<Kv>, at: nat, tab: Tables, end: nat)
    requires PairsRead(f, start, kvs, at, tab) && RunOut(f, at) == Some(end) && end > |f|
    ensures PairsPast(f, start, kvs, end, tab)
  {
  }

  lemma {:induction false} PairsGrow(f: seq<byte>, start: nat, kvs: seq<Kv>, at: nat, tab: Tables,
                                     kv: Kv, kvs': seq<Kv>, next: nat, tab': Tables)
    requires PairsRead(f, start, kvs, at, tab) && ParseKv(f, at) == Some((kv, next)) && next <= |f|
    requires kvs' == kvs + [kv] && tab' == Record(tab, kv, at + |EncStr(kv.key)| + 4)
    ensures PairsRead(f, start, kvs', next, tab')
  {
    ListMore(ParseKv, f, start, kvs, at, kv, next);
    KvsGrow(f, kvs, start, kv, tab, at, next);
  }

  lemma {:induction false} KvsGrow(f: seq<byte>, kvs: seq<Kv>, start: nat, kv: Kv, tab: Tables, at: nat, next: nat)
    requires tab == TablesOf(kvs, start) && at == start + |EncKvs(kvs)| && ParseKv(f, at) == Some((kv, next))
    ensures next == start + |EncKvs(kvs + [kv])|
    ensures TablesOf(kvs + [kv], start) == Record(tab, kv, at + |EncStr(kv.key)| + 4)
  {
    assert next == at + |EncKv(kv)| by { KvSound(f, at); }
    assert |EncKvs(kvs + [kv])| == |EncKvs(kvs)| + |EncKv(kv)| by { EncListSnoc(EncKv, kvs, kv); }
    TablesSnoc(kvs, start, kv, tab, at);
  }

  lemma {:induction false} RawSnoc(ts: seq<Tensor>, start: nat, t: Tensor)
    ensures RawTensors(ts + [t], start) ==
      RawTensors(ts, start) + [RawTensor(t, start + |EncTensors(ts)| + |EncTensor(t)| - 8)]
  {
    assert (ts + [t])[..|ts|] == ts;
  }

  lemma {:induction false} TensorsGrow(f: seq<byte>, ts: seq<Tensor>, more: seq<Tensor>, start: nat, at: nat, raw: RawTensor, next: nat)
    requires at == start + |EncTensors(ts)| && ParseTensor(f, at) == Some((raw.t, next)) && more == ts + [raw.t]
    requires raw.fieldPos == next - 8
    ensures next == start + |EncTensors(more)| && RawTensors(more, start) == RawTensors(ts, start) + [raw]
  {
    var n := |EncTensor(raw.t)|;
    assert next == at + n by { TensorSound(f, at); }
    assert |EncTensors(more)| == |EncTensors(ts)| + n by { EncListSnoc(EncTensor, ts, raw.t); }
    RawSnoc(ts, start, raw.t);
  }

  /** From `start` to `at` stand the directory entries `ts`, recorded as `raws`. */
  ghost predicate EntriesRead(f: seq<byte>, start: nat, ts: seq<Tensor>, at: nat, raws: seq<RawTensor>) {
    && at <= |f| && ParseList(ParseTensor, f, start, |ts|) == Some((ts, at))
    && raws == RawTensors(ts, start) && at == start + |EncTensors(ts)|
  }

  lemma {:induction false} EntriesGrow(f: seq<byte>, start: nat, ts: seq<Tensor>, at: nat, raws: seq<RawTensor>,
                                       raw: RawTensor, ts': seq<Tensor>, next: nat, raws': seq<RawTensor>)
    requires EntriesRead(f, start, ts, at, raws)
    requires ParseTensor(f, at) == Some((raw.t, next)) && raw.fieldPos == next - 8 && next <= |f|
    requires ts' == ts + [raw.t] && raws' == raws + [raw]
    ensures EntriesRead(f, start, ts', next, raws')
  {
    assert ParseList(ParseTensor, f, start, |ts'|) == Some((ts', next)) by {
      ListMore(ParseTensor, f, start, ts, at, raw.t, next);
    }
    TensorsGrow(f, ts, ts', start, at, raw, next);
  }

  // ---------------------------------------------------------------- values that end behind the file

  /** Where the cursor stands after skipping a value: seeking over a scalar may leave the file behind. */
  function SkipEnd(f: seq<byte>, pos: nat, t: nat): (r: Option<nat>)
    ensures r.Some? ==> pos < r.value
    decreases if pos <= |f| then |f| - pos else 0, 0, 0
  {
    if t == STRING_TYPE then
      var s := ParseStr(f, pos);
      if s.None? then None else Some(s.value.1)
    else if t == ARRAY_TYPE then
      var elem, count := ParseNum(f, pos, 4), ParseNum(f, pos + 4, 8);
      if elem.None? || count.None? then None else SkipEnds(f, pos + 12, elem.value, count.value)
    else if ScalarSize(t) == 0 then None
    else Some(pos + ScalarSize(t))
  }

  function SkipEnds(f: seq<byte>, pos: nat, t: nat, count: nat): (r: Option<nat>)
    ensures r.Some? ==> pos <= r.value
    decreases if pos <= |f| then |f| - pos else 0, 1, count
  {
    if count == 0 then Some(pos)
    else
      var first := SkipEnd(f, pos, t);
      if first.None? then None else SkipEnds(f, first.value, t, count - 1)
  }

  /** Where the cursor stands after the pair at `pos`, if that pair is an array that reaches behind the file. */
  function RunOut(f: seq<byte>, pos: nat): Option<nat> {
    var key := ParseStr(f, pos);
    if key.None? || ParseNum(f, key.value.1, 4) != Some(ARRAY_TYPE) then None
    else
      var end := SkipEnd(f, key.value.1 + 4, ARRAY_TYPE);
      if end.None? || end.value <= |f| then None else end
  }

  /** All pairs but the last parse, and the last is an array that reaches behind the file: the pairs that
      parse, and where the cursor stands. */
  function KvsRunOut(f: seq<byte>, pos: nat, count: nat): Option<(seq<Kv>, nat)> {
    if count == 0 then None
    else
      var init := ParseList(ParseKv, f, pos, count - 1);
      if init.None? then None
      else
        var end := RunOut(f, init.value.1);
        if end.None? then None else Some((init.value.0, end.value))
  }

  /** The same for a file that announces no tensors. */
  function OutsideKvs(f: seq<byte>): Option<(seq<Kv>, nat)> {
    var version, nKv := ParseNum(f, 4, 4), ParseNum(f, 16, 8);
    if ParseNum(f, 0, 4) != Some(MAGIC) || version.None? || version.value < 2 || version.value > 3
       || ParseNum(f, 8, 8) != Some(0) || nKv.None? then None
    else KvsRunOut(f, 24, nKv.value)
  }

  /** There are pairs, and the alignment they set is a power of two. */
  predicate Aligns(kvs: Option<(seq<Kv>, nat)>) {
    kvs.Some? && PowerOfTwo(AlignmentOf(TablesOf(kvs.value.0, 24)))
  }

  function Joined<T>(xs: seq<T>, rest: Option<(seq<T>, nat)>): Option<(seq<T>, nat)> {
    if rest.None? then None else Some((xs + rest.value.0, rest.value.1))
  }

  /** A list splits behind the elements read so far. */
  lemma {:induction false} ListSplit<T>(parse: Parser<T>, f: seq<byte>, start: nat, n: nat, count: nat, xs: seq<T>, at: nat)
    requires ParseList(parse, f, start, n) == Some((xs, at)) && n <= count
    ensures ParseList(parse, f, start, count) == Joined(xs, ParseList(parse, f, at, count - n))
    decreases n
  {
    if n == 0 {
      var rest := ParseList(parse, f, at, count);
      if rest.Some? { assert [] + rest.value.0 == rest.value.0; }
    } else {
      var (x, next) := parse(f, start).value;
      var tail := ParseList(parse, f, next, n - 1).value.0;
      ListSplit(parse, f, next, n - 1, count - 1, tail, at);
      var rest := ParseList(parse, f, at, count - n);
      if rest.Some? { assert [x] + (tail + rest.value.0) == [x] + tail + rest.value.0; }
    }
  }

  /** One more element is read. */
  lemma {:induction false} ListMore<T>(parse: Parser<T>, f: seq<byte>, start: nat, xs: seq<T>, at: nat, x: T, next: nat)
    requires ParseList(parse, f, start, |xs|) == Some((xs, at)) && parse(f, at) == Some((x, next))
    ensures ParseList(parse, f, start, |xs| + 1) == Some((xs + [x], next))
    decreases |xs|
  {
    if xs == [] {
      assert start == at;
      var rest := ParseList(parse, f, next, 0);
      assert rest == Some(([], next)) && rest.value.0 == [];
      assert [x] + rest.value.0 == xs + [x];
    } else {
      var (first, second) := parse(f, start).value;
      assert ParseList(parse, f, second, |xs[1..]|) == Some((xs[1..], at));
      ListMore(parse, f, second, xs[1..], at, x, next);
      assert [first] + (xs[1..] + [x]) == xs + [x];
    }
  }

  /** An element cannot be read: no longer list parses. */
  lemma {:induction false} ListStops<T>(parse: Parser<T>, f: seq<byte>, start: nat, xs: seq<T>, at: nat, count: nat)
    requires ParseList(parse, f, start, |xs|) == Some((xs, at)) && parse(f, at).None? && |xs| < count
    ensures ParseList(parse, f, start, count).None?
  {
    ListSplit(parse, f, start, |xs|, count, xs, at);
  }

  /** Skipping a value and parsing it agree, unless the value reaches behind the file. */
  lemma {:induction false} SkipAgrees(f: seq<byte>, pos: nat, t: nat)
    requires pos <= |f|
    ensures var v, end := ParseValue(f, pos, t), SkipEnd(f, pos, t);
      && (v.Some? <==> end.Some? && end.value <= |f|)
      && (v.Some? ==> v.value.1 == end.value)
    decreases |f| - pos, 0, 0
  {
    if t == ARRAY_TYPE {
      var elem, count := ParseNum(f, pos, 4), ParseNum(f, pos + 4, 8);
      if elem.Some? && count.Some? { SkipsAgree(f, pos + 12, elem.value, count.value); }
    }
  }

  lemma {:induction false} SkipsAgree(f: seq<byte>, pos: nat, t: nat, count: nat)
    requires pos <= |f|
    ensures var v, end := ParseItems(f, pos, t, count), SkipEnds(f, pos, t, count);
      && (v.Some? <==> end.Some? && end.value <= |f|)
      && (v.Some? ==> v.value.1 == end.value)
    decreases |f| - pos, 1, count
  {
    if count > 0 {
      SkipAgrees(f, pos, t);
      var first := SkipEnd(f, pos, t);
      if first.Some? && first.value <= |f| { SkipsAgree(f, first.value, t, count - 1); }
    }
  }

  lemma {:induction false} RunOutFails(f: seq<byte>, pos: nat)
    ensures RunOut(f, pos).Some? ==> ParseKv(f, pos).None?
  {
    var key := ParseStr(f, pos);
    if key.Some? && key.value.1 + 4 <= |f| { SkipAgrees(f, key.value.1 + 4, ARRAY_TYPE); }
  }

  /** A pair can neither be read nor be the last one to reach behind the file. */
  lemma {:induction false} PairFails(f: seq<byte>, start: nat, kvs: seq<Kv>, at: nat, count: nat)
    requires ParseList(ParseKv, f, start, |kvs|) == Some((kvs, at)) && ParseKv(f, at).None? && |kvs| < count
    requires RunOut(f, at).None? || |kvs| + 1 < count
    ensures ParseList(ParseKv, f, start, count).None? && KvsRunOut(f, start, count).None?
  {
    ListStops(ParseKv, f, start, kvs, at, count);
    if |kvs| < count - 1 { ListStops(ParseKv, f, start, kvs, at, count - 1); }
  }

  lemma {:induction false} PastFails(f: seq<byte>, start: nat, kvs: seq<Kv>, count: nat)
    requires KvsRunOut(f, start, |kvs| + 1).Some? && KvsRunOut(f, start, |kvs| + 1).value.0 == kvs && |kvs| + 1 < count
    ensures ParseList(ParseKv, f, start, count).None? && KvsRunOut(f, start, count).None?
  {
    var at := ParseList(ParseKv, f, start, |kvs|).value.1;
    RunOutFails(f, at);
    PairFails(f, start, kvs, at, count);
  }

  lemma {:induction false} PastNotRead(f: seq<byte>, start: nat, kvs: seq<Kv>)
    requires KvsRunOut(f, start, |kvs| + 1).Some? && KvsRunOut(f, start, |kvs| + 1).value.0 == kvs
    ensures ParseList(ParseKv, f, start, |kvs| + 1).None?
  {
    var at := ParseList(ParseKv, f, start, |kvs|).value.1;
    RunOutFails(f, at);
    ListStops(ParseKv, f, start, kvs, at, |kvs| + 1);
  }

  /** A file whose pairs run out does not parse. */
  lemma {:induction false} OutsideNotParsed(f: seq<byte>)
    ensures OutsideKvs(f).Some? ==> ParseMeta(f).None?
  {
    if OutsideKvs(f).Some? { PastNotRead(f, 24, OutsideKvs(f).value.0); }
  }

  lemma {:induction false} ReadNotPast(f: seq<byte>, start: nat, kvs: seq<Kv>, at: nat)
    requires ParseList(ParseKv, f, start, |kvs|) == Some((kvs, at))
    ensures KvsRunOut(f, start, |kvs|).None?
  {
    if KvsRunOut(f, start, |kvs|).Some? {
      PastNotRead(f, start, KvsRunOut(f, start, |kvs|).value.0);
    }
  }

  class Reader {
    const file: seq<byte>
    var pos: nat
    var tables: Tables
    var tensors: seq<RawTensor>
    var version: nat
    var kvEnd: nat
    var metaEnd: nat
    var alignment: nat
    var dataOffset: nat
    /** What the bytes read so far encode. */
    ghost var meta: Meta

    constructor (file: seq<byte>)
      ensures this.file == file && pos == 0 && tables == NO_TABLES && tensors == []
    {
      this.file := file;
      pos, tables, tensors, version, kvEnd, metaEnd, alignment, dataOffset := 0, NO_TABLES, [], 0, 0, 0, 32, 0;
      meta := Meta(0, [], []);
    }

    method ReadNum(n: nat) returns (ok: bool, v: nat)
      modifies this`pos
      ensures ok <==> ParseNum(file, old(pos), n).Some?
      ensures ok ==> v == ParseNum(file, old(pos), n).value && pos == old(pos) + n <= |file|
    {
      v := 0;
      ok := pos + n <= |file|;
      if ok {
        v := NumAt(file, pos, n);
        pos := pos + n;
      }
    }

    method ReadString() returns (ok: bool, body: seq<byte>)
      modifies this`pos
      ensures ok <==> ParseStr(file, old(pos)).Some?
      ensures ok ==> (body, pos) == ParseStr(file, old(pos)).value
    {
      var len;
      body := [];
      ok, len := ReadNum(8);
      if !ok { return; }
      if len > MAX_NAME { return false, body; }
      if pos + len > |file| { return false, body; }
      body := file[pos..pos + len];
      pos := pos + len;
    }

    /** Skips a value. Scalars are skipped by seeking, which may run past the end of the file without
        failing; the cursor then stays past the end and nothing was parsed. */
    method SkipValue(t: nat) returns (ok: bool)
      modifies this`pos
      ensures ok && pos <= |file| ==>
        old(pos) <= |file| && ParseValue(file, old(pos), t).Some? && ParseValue(file, old(pos), t).value.1 == pos
      ensures !(ok && pos <= |file|) && old(pos) <= |file| ==> ParseValue(file, old(pos), t).None?
      ensures ok <==> SkipEnd(file, old(pos), t).Some?
      ensures ok ==> SkipEnd(file, old(pos), t) == Some(pos)
      decreases if pos <= |file| then |file| - pos else 0, 0
    {
      if t == STRING_TYPE {
        var body;
        ok, body := ReadString();
        return;
      }
      if t == ARRAY_TYPE {
        var elem, count;
        ok, elem := ReadNum(4);
        if !ok { return; }
        ok, count := ReadNum(8);
        if !ok { return; }
        ok := SkipItems(elem, count);
        return;
      }
      var sz := ScalarSize(t);
      if sz == 0 { return false; }
      pos := pos + sz;
      return true;
    }

    method SkipItems(elem: nat, count: nat) returns (ok: bool)
      requires pos <= |file|
      modifies this`pos
      ensures ok && pos <= |file| ==>
        ParseItems(file, old(pos), elem, count).Some? && ParseItems(file, old(pos), elem, count).value.1 == pos
      ensures !(ok && pos <= |file|) ==> ParseItems(file, old(pos), elem, count).None?
      ensures ok <==> SkipEnds(file, old(pos), elem, count).Some?
      ensures ok ==> SkipEnds(file, old(pos), elem, count) == Some(pos)
      decreases |file| - pos, 1
    {
      ghost var start := pos;
      ok := true;
      var i := 0;
      while i < count
        invariant i <= count && pos >= start
        invariant SkipEnds(file, start, elem, count) == SkipEnds(file, pos, elem, count - i)
        invariant pos <= |file| ==>
          (ParseItems(file, start, elem, count).Some? <==> ParseItems(file, pos, elem, count - i).Some?)
        invariant pos <= |file| && ParseItems(file, pos, elem, count - i).Some? ==>
          ParseItems(file, start, elem, count).value.1 == ParseItems(file, pos, elem, count - i).value.1
        invariant pos > |file| ==> ParseItems(file, start, elem, count).None?
      {
        var good := SkipValue(elem);
        if !good { return false; }
        i := i + 1;
      }
    }

    /** One key-value pair, recorded in the tables. */
    method ReadKv() returns (ok: bool, ghost kv: Kv)
      requires pos <= |file|
      modifies this`pos, this`tables
      ensures ok && pos <= |file| ==> ParseKv(file, old(pos)) == Some((kv, pos))
                                      && tables == Record(old(tables), kv, old(pos) + |EncStr(kv.key)| + 4)
      ensures !(ok && pos <= |file|) ==> ParseKv(file, old(pos)).None?
      ensures ok && pos > |file| <==> RunOut(file, old(pos)).Some?
      ensures ok && pos > |file| ==> RunOut(file, old(pos)) == Some(pos) && tables == old(tables)
    {
      kv := Kv([], 0, Text([]));
      var key, t, v, body;
      ok, key := ReadString();
      if !ok { return; }
      ok, t := ReadNum(4);
      if !ok { return; }
      var vpos := pos;
      var k := Name(key);
      if t != STRING_TYPE && t != ARRAY_TYPE && ScalarSize(t) == 0 {
        ok := false;
      } else if t == STRING_TYPE {
        ok, body := ReadString();
        if ok {
          kv := Kv(key, t, Text(body));
          tables := tables.(s := tables.s[k := body]);
        }
      } else if t == ARRAY_TYPE {
        ok := SkipValue(ARRAY_TYPE);
        if ok && pos <= |file| { kv := Kv(key, t, ParseValue(file, vpos, ARRAY_TYPE).value.0); }
      } else {
        ok, v := ReadNum(ScalarSize(t));
        if ok {
          var raw := file[vpos..pos];
          NumAtSlice(file, vpos, ScalarSize(t), raw);
          kv := Kv(key, t, Scalar(raw));
          if IsUnsigned(t) {
            tables := tables.(u := tables.u[k := v], pos := tables.pos[k := vpos]);
          } else if IsSigned(t) {
            tables := tables.(i := tables.i[k := v], pos := tables.pos[k := vpos]);
          } else {
            tables := tables.(f := tables.f[k := raw]);
          }
        }
      }
    }

    method ReadKvs(count: nat) returns (ok: bool, ghost kvs: seq<Kv>)
      requires pos <= |file| && tables == NO_TABLES
      modifies this`pos, this`tables
      ensures ok && pos <= |file| ==> ParseList(ParseKv, file, old(pos), count) == Some((kvs, pos))
                                      && pos == old(pos) + |EncKvs(kvs)|
      ensures !(ok && pos <= |file|) ==> ParseList(ParseKv, file, old(pos), count).None?
      ensures ok && pos > |file| ==> KvsRunOut(file, old(pos), count) == Some((kvs, pos))
      ensures !(ok && pos > |file|) ==> KvsRunOut(file, old(pos), count).None?
      ensures ok ==> tables == TablesOf(kvs, old(pos))
    {
      ghost var start := pos;
      kvs := [];
      for i := 0 to count
        invariant if pos <= |file| then |kvs| == i && KvsRead(start, kvs) else |kvs| + 1 == i && KvsPast(start, kvs)
      {
        if pos > |file| {
          // the next key's length cannot be read any more
          var key;
          ok, key := ReadString();
          PastFails(file, start, kvs, count);
          return false, kvs;
        }
        ghost var at := pos;
        ok, kvs := ReadNextKv(start, kvs);
        if !ok {
          PairFails(file, start, kvs, at, count);
          return;
        }
      }
      ok := true;
      if pos <= |file| { ReadNotPast(file, start, kvs, pos); } else { PastNotRead(file, start, kvs); }
    }

    /** The cursor stands behind pairs that parsed. */
    ghost predicate KvsRead(start: nat, kvs: seq<Kv>)
      reads this
    {
      PairsRead(file, start, kvs, pos, tables)
    }

    /** One more pair was skipped, and it reaches behind the file. */
    ghost predicate KvsPast(start: nat, kvs: seq<Kv>)
      reads this
    {
      PairsPast(file, start, kvs, pos, tables)
    }

    method ReadNextKv(ghost start: nat, ghost kvs: seq<Kv>) returns (ok: bool, ghost kvs': seq<Kv>)
      requires KvsRead(start, kvs)
      modifies this`pos, this`tables
      ensures ok && pos <= |file| ==> |kvs'| == |kvs| + 1 && KvsRead(start, kvs')
      ensures ok && pos > |file| ==> kvs' == kvs && KvsPast(start, kvs)
      ensures !ok ==> kvs' == kvs && ParseKv(file, old(pos)).None? && RunOut(file, old(pos)).None?
    {
      ghost var kv;
      ok, kv := ReadKv();
      kvs' := kvs;
      if ok && pos <= |file| {
        kvs' := kvs + [kv];
        PairsGrow(file, start, kvs, old(pos), old(tables), kv, kvs', pos, tables);
      } else if ok {
        PairsEnd(file, start, kvs, old(pos), tables, pos);
      }
    }

    /** One directory entry, with the position of its offset field. */
    method ReadTensor() returns (ok: bool, raw: RawTensor)
      requires pos <= |file|
      modifies this`pos
      ensures ok <==> ParseTensor(file, old(pos)).Some?
      ensures ok ==> ParseTensor(file, old(pos)) == Some((raw.t, pos)) && pos <= |file| && raw.fieldPos == pos - 8
    {
      raw := RawTensor(Tensor([], [], 0, 0), 0);
      var name, nDims, t, off;
      ok, name := ReadString();
      if !ok { return; }
      ok, nDims := ReadNum(4);
      if !ok { return; }
      if nDims > 4 { return false, raw; }
      var dims;
      ok, dims := ReadDims(nDims);
      if !ok { return; }
      ok, t := ReadNum(4);
      if !ok { return; }
      var fieldPos := pos;
      ok, off := ReadNum(8);
      if !ok { return; }
      raw := RawTensor(Tensor(name, dims, t, off), fieldPos);
    }

    method ReadDims(count: nat) returns (ok: bool, dims: seq<nat>)
      requires pos <= |file|
      modifies this`pos
      ensures ok <==> ParseList(ParseU64, file, old(pos), count).Some?
      ensures ok ==> ParseList(ParseU64, file, old(pos), count) == Some((dims, pos)) && pos <= |file|
    {
      ghost var start := pos;
      dims := [];
      while |dims| < count
        invariant |dims| <= count && pos <= |file|
        invariant ParseList(ParseU64, file, start, |dims|) == Some((dims, pos))
      {
        ghost var at := pos;
        var d;
        ok, d := ReadNum(8);
        if !ok {
          ListStops(ParseU64, file, start, dims, at, count);
          return;
        }
        ListMore(ParseU64, file, start, dims, at, d, pos);
        dims := dims + [d];
      }
      ok := true;
    }

    method ReadTensors(count: nat) returns (ok: bool, ghost ts: seq<Tensor>)
      requires pos <= |file| && tensors == []
      modifies this`pos, this`tensors
      ensures ok <==> ParseList(ParseTensor, file, old(pos), count).Some?
      ensures ok ==> ParseList(ParseTensor, file, old(pos), count) == Some((ts, pos)) && pos <= |file|
                     && tensors == RawTensors(ts, old(pos)) && pos == old(pos) + |EncTensors(ts)|
    {
      ghost var start := pos;
      ts := [];
      for i := 0 to count
        invariant |ts| == i && DirectoryRead(start, ts)
      {
        ghost var at := pos;
        ok, ts := ReadNextTensor(start, ts);
        if !ok {
          ListStops(ParseTensor, file, start, ts, at, count);
          return;
        }
      }
      ok := true;
    }

    /** The directory entries `ts` have been read and recorded. */
    ghost predicate DirectoryRead(start: nat, ts: seq<Tensor>)
      reads this
    {
      EntriesRead(file, start, ts, pos, tensors)
    }

    method ReadNextTensor(ghost start: nat, ghost ts: seq<Tensor>) returns (ok: bool, ghost ts': seq<Tensor>)
      requires DirectoryRead(start, ts)
      modifies this`pos, this`tensors
      ensures ok ==> |ts'| == |ts| + 1 && DirectoryRead(start, ts')
      ensures !ok ==> ts' == ts && ParseTensor(file, old(pos)).None?
    {
      ghost var at := pos;
      var raw;
      ok, raw := ReadTensor();
      ts' := ts;
      if ok {
        ts' := ts + [raw.t];
        tensors := tensors + [raw];
        EntriesGrow(file, start, ts, at, old(tensors), raw, ts', pos, tensors);
      }
    }

    method ReadHeader() returns (ok: bool, nTensors: nat, nKv: nat)
      requires pos == 0
      modifies this`pos, this`version
      ensures ok <==> ParseNum(file, 0, 4) == Some(MAGIC) && ParseNum(file, 4, 4).Some? && 2 <= ParseNum(file, 4, 4).value <= 3
                      && ParseNum(file, 8, 8).Some? && ParseNum(file, 16, 8).Some?
      ensures ok ==> pos == 24 <= |file| && ParseNum(file, 4, 4) == Some(version)
                     && ParseNum(file, 8, 8) == Some(nTensors) && ParseNum(file, 16, 8) == Some(nKv)
    {
      nTensors, nKv := 0, 0;
      var magic;
      ok, magic := ReadNum(4);
      if !ok || magic != MAGIC { return false, 0, 0; }
      ok, version := ReadNum(4);
      if !ok || version < 2 || version > 3 { return false, 0, 0; }
      ok, nTensors := ReadNum(8);
      if !ok { return; }
      ok, nKv := ReadNum(8);
    }

    /** The key-value section and the alignment it sets. */
    method ReadKvSection(nKv: nat) returns (ok: bool, ghost kvs: seq<Kv>)
      requires pos == 24 <= |file| && tables == NO_TABLES
      modifies this`pos, this`tables, this`kvEnd, this`alignment
      ensures ok && pos <= |file| ==> ParseList(ParseKv, file, 24, nKv) == Some((kvs, pos)) && pos == 24 + |EncKvs(kvs)|
      ensures ok && pos <= |file| <==> Aligns(ParseList(ParseKv, file, 24, nKv))
      ensures ok && pos > |file| ==> KvsRunOut(file, 24, nKv) == Some((kvs, pos))
      ensures ok && pos > |file| <==> Aligns(KvsRunOut(file, 24, nKv))
      ensures ok ==> kvEnd == pos && tables == TablesOf(kvs, 24) && alignment == AlignmentOf(tables)
    {
      ok, kvs := ReadKvs(nKv);
      if !ok { return; }
      kvEnd := pos;
      alignment := AlignmentOf(tables);
      ok := PowerOfTwo(alignment);
    }

    /** The tensor directory and the data section's start. */
    method ReadDirectory(nTensors: nat) returns (ok: bool, ghost ts: seq<Tensor>)
      requires tensors == []
      modifies this`pos, this`tensors, this`metaEnd, this`dataOffset
      ensures old(pos) <= |file| ==> (ok <==> ParseList(ParseTensor, file, old(pos), nTensors).Some?)
      ensures old(pos) <= |file| && ok ==>
        ParseList(ParseTensor, file, old(pos), nTensors) == Some((ts, metaEnd)) && metaEnd <= |file|
        && tensors == RawTensors(ts, old(pos))
      ensures old(pos) > |file| ==> ok == (nTensors == 0) && (ok ==> metaEnd == old(pos) && tensors == [])
      ensures ok ==> dataOffset == AlignUp(metaEnd, alignment)
    {
      ts := [];
      if pos <= |file| {
        ok, ts := ReadTensors(nTensors);
      } else {
        // the cursor was seeked past the end: no directory entry can be read any more
        ok := nTensors == 0;
      }
      if !ok { return; }
      metaEnd := pos;
      dataOffset := AlignUp(pos, alignment);
    }

    /** Pairs and directory parse one behind the other, and the alignment is a power of two. */
    ghost predicate SectionsParse(nTensors: nat, nKv: nat) {
      var k := ParseList(ParseKv, file, 24, nKv);
      Aligns(k) && ParseList(ParseTensor, file, k.value.1, nTensors).Some?
    }

    method ReadSections(nTensors: nat, nKv: nat) returns (ok: bool, ghost kvs: seq<Kv>, ghost ts: seq<Tensor>)
      requires pos == 24 <= |file| && tables == NO_TABLES && tensors == []
      modifies this
      ensures version == old(version)
      ensures ok && metaEnd <= |file| <==> SectionsParse(nTensors, nKv)
      ensures ok && metaEnd <= |file| ==>
        && ParseList(ParseKv, file, 24, nKv) == Some((kvs, kvEnd))
        && ParseList(ParseTensor, file, kvEnd, nTensors) == Some((ts, metaEnd))
        && kvEnd == 24 + |EncKvs(kvs)| && tensors == RawTensors(ts, kvEnd)
      ensures ok && metaEnd > |file| <==> nTensors == 0 && Aligns(KvsRunOut(file, 24, nKv))
      ensures ok && metaEnd > |file| ==> KvsRunOut(file, 24, nKv) == Some((kvs, metaEnd)) && kvEnd == metaEnd && tensors == []
      ensures ok ==> dataOffset == AlignUp(metaEnd, alignment) && alignment == AlignmentOf(tables) && tables == TablesOf(kvs, 24)
    {
      ts := [];
      ok, kvs := ReadKvSection(nKv);
      if !ok { return; }
      ok, ts := ReadDirectory(nTensors);
    }

    /** Reads the whole metadata section. It succeeds exactly on well-formed metadata whose alignment is a
        power of two and, for files that announce no tensors, also if the last value reaches behind the file. */
    method Open() returns (ok: bool)
      requires pos == 0 && tables == NO_TABLES && tensors == []
      modifies this
      ensures ok && metaEnd <= |file| <==>
        ParseMeta(file).Some? && PowerOfTwo(AlignmentOf(TablesOf(ParseMeta(file).value.0.kvs, 24)))
      ensures ok && metaEnd <= |file| ==>
        && ParseMeta(file) == Some((meta, metaEnd)) && version == meta.version
        && tensors == RawTensors(meta.tensors, kvEnd) && kvEnd == 24 + |EncKvs(meta.kvs)|
      ensures ok && metaEnd > |file| <==> Aligns(OutsideKvs(file))
      ensures ok && metaEnd > |file| ==>
        OutsideKvs(file) == Some((meta.kvs, metaEnd)) && tensors == [] && kvEnd == metaEnd
      ensures ok ==> tables == TablesOf(meta.kvs, 24) && alignment == AlignmentOf(tables)
                     && dataOffset == AlignUp(metaEnd, alignment)
      ensures ok ==> alignment > 0 && dataOffset % alignment == 0 && metaEnd <= dataOffset < metaEnd + alignment
    {
      var nTensors, nKv;
      ok, nTensors, nKv := ReadHeader();
      if !ok { return; }
      ghost var kvs, ts;
      ok, kvs, ts := ReadSections(nTensors, nKv);
      meta := Meta(version, kvs, ts);
      if ok { AlignUpIs(metaEnd, alignment, dataOffset); }
    }
  }
}
