/** Rewriting a metadata section in place: the alignment pair is patched or inserted, and every tensor
    offset is replaced. The patched bytes are the encoding of the rewritten content. */
module MetaPatch {
  import opened Bytes
  import opened GgufFormat
  import opened GgufRoundTrip
  import opened GgufReader

  /** `general.alignment` = 4096 as a UINT32. */
  function AlignKv(): (kv: Kv)
    ensures KvOk(kv) && |EncStr(kv.key)| == 25
  {
    Widths();
    Kv(ALIGNMENT_KEY.text, UINT32_TYPE, Scalar(ToLE(PAGE, 4)))
  }

  /** A pair whose value position the reader records under the alignment key. */
  predicate IsAlignment(kv: Kv) {
    kv.key == ALIGNMENT_KEY.text && kv.value.Scalar? && (IsUnsigned(kv.vtype) || IsSigned(kv.vtype))
  }

  /** Index of the last such pair, or -1. */
  function AlignIndex(kvs: seq<Kv>): (k: int)
    ensures -1 <= k < |kvs| && (k >= 0 ==> IsAlignment(kvs[k]))
  {
    if kvs == [] then -1
    else if IsAlignment(kvs[|kvs| - 1]) then |kvs| - 1
    else AlignIndex(kvs[..|kvs| - 1])
  }

  /** Four stored bytes stay inside the alignment pair, or there is none. */
  predicate Wide(kvs: seq<Kv>) {
    AlignIndex(kvs) >= 0 ==> |kvs[AlignIndex(kvs)].value.raw| >= 4
  }

  /** The source's alignment ends up as 4096: it is absent; or unsigned, with nothing but zeros above its
      four lowest bytes; or signed, and the reader, which looks at unsigned pairs only, finds 4096 already. */
  predicate Patchable(kvs: seq<Kv>) {
    Wide(kvs) && (AlignIndex(kvs) >= 0 ==>
      var kv := kvs[AlignIndex(kvs)];
      if IsUnsigned(kv.vtype) then FromLE(kv.value.raw[4..]) == 0 else AlignmentOf(TablesOf(kvs, 24)) == PAGE)
  }

  /** The pair with 4096 stored in its four lowest bytes. */
  function PatchedKv(kv: Kv): Kv {
    if kv.value.Scalar? && |kv.value.raw| >= 4 then kv.(value := Scalar(ToLE(PAGE, 4) + kv.value.raw[4..])) else kv
  }

  function AlignedKvs(kvs: seq<Kv>): seq<Kv> {
    var k := AlignIndex(kvs);
    if k < 0 then kvs + [AlignKv()] else kvs[k := PatchedKv(kvs[k])]
  }

  function Moved(ts: seq<Tensor>, rel: seq<nat>, n: nat): (r: seq<Tensor>)
    requires n <= |rel| == |ts|
    ensures |r| == |ts|
  {
    seq(|ts|, i requires 0 <= i < |ts| => if i < n then ts[i].(relOffset := rel[i]) else ts[i])
  }

  function Rewritten(m: Meta, rel: seq<nat>): Meta
    requires |rel| == |m.tensors|
  {
    Meta(m.version, AlignedKvs(m.kvs), Moved(m.tensors, rel, |rel|))
  }

  // ---------------------------------------------------------------- the rewritten key-value pairs

  /** What recording one integer does to the entries of a key. */
  lemma {:induction false} KeyRecorded(tab: Tables, kv: Kv, p: nat, r: Tables, name: Name)
    requires r == Record(tab, kv, p)
    ensures var here := kv.key == name.text && kv.value.Scalar?; var t := kv.vtype;
      && Find(r.pos, name) == (if here && (IsUnsigned(t) || IsSigned(t)) then Some(p) else Find(tab.pos, name))
      && Find(r.u, name) == (if here && IsUnsigned(t) then Some(FromLE(kv.value.raw)) else Find(tab.u, name))
  {
    if kv.value.Scalar? {
      FindUpdated(tab.pos, Name(kv.key), p, name);
      FindUpdated(tab.u, Name(kv.key), FromLE(kv.value.raw), name);
    }
  }

  lemma {:induction false} AlignPosition(kvs: seq<Kv>, start: nat)
    ensures ALIGNMENT_KEY in TablesOf(kvs, start).pos <==> AlignIndex(kvs) >= 0
    ensures var k := AlignIndex(kvs); k >= 0 ==>
      IsAlignment(kvs[k]) &&
      TablesOf(kvs, start).pos[ALIGNMENT_KEY] == start + |EncKvs(kvs[..k])| + |EncStr(kvs[k].key)| + 4
  {
    if kvs != [] {
      var n := |kvs| - 1;
      AlignPosition(kvs[..n], start);
      var p := LastRecorded(kvs, start, TablesOf(kvs[..n], start));
      KeyRecorded(TablesOf(kvs[..n], start), kvs[n], p, TablesOf(kvs, start), ALIGNMENT_KEY);
      var k := AlignIndex(kvs[..n]);
      if !IsAlignment(kvs[n]) && k >= 0 { assert kvs[..n][..k] == kvs[..k]; }
    }
  }

  /** If the last integer under the key is unsigned, it is the file's alignment. */
  lemma {:induction false} LastAlignmentWins(kvs: seq<Kv>, start: nat)
    requires AlignIndex(kvs) >= 0 && IsUnsigned(kvs[AlignIndex(kvs)].vtype)
    ensures AlignmentOf(TablesOf(kvs, start)) == FromLE(kvs[AlignIndex(kvs)].value.raw)
    ensures ALIGNMENT_KEY in TablesOf(kvs, start).u
  {
    var n := |kvs| - 1;
    var p := LastRecorded(kvs, start, TablesOf(kvs[..n], start));
    KeyRecorded(TablesOf(kvs[..n], start), kvs[n], p, TablesOf(kvs, start), ALIGNMENT_KEY);
    if !IsAlignment(kvs[n]) { LastAlignmentWins(kvs[..n], start); }
  }

  /** The alignment does not depend on where the pairs stand. */
  lemma {:induction false} AlignmentAnywhere(kvs: seq<Kv>, start: nat, start': nat)
    ensures TablesOf(kvs, start).u == TablesOf(kvs, start').u
  {
    if kvs != [] {
      var n := |kvs| - 1;
      AlignmentAnywhere(kvs[..n], start, start');
      var a, b := TablesOf(kvs[..n], start), TablesOf(kvs[..n], start');
      var p := LastRecorded(kvs, start, a);
      var q := LastRecorded(kvs, start', b);
      RecordUnsigned(a, b, kvs[n], p, q);
    }
  }

  lemma {:induction false} IndexAfterUpdate(kvs: seq<Kv>, kv: Kv)
    requires AlignIndex(kvs) >= 0 && IsAlignment(kv)
    ensures AlignIndex(kvs[AlignIndex(kvs) := kv]) == AlignIndex(kvs)
  {
    var n, k := |kvs| - 1, AlignIndex(kvs);
    if !IsAlignment(kvs[n]) {
      IndexAfterUpdate(kvs[..n], kv);
      assert kvs[k := kv][..n] == kvs[..n][k := kv];
    }
  }

  /** The number that the patched bytes read as. */
  lemma {:induction false} PatchedValue(raw: seq<byte>)
    requires |raw| >= 4
    ensures FromLE(ToLE(PAGE, 4) + raw[4..]) == PAGE <==> FromLE(raw[4..]) == 0
  {
    var high := FromLE(raw[4..]);
    assert FromLE(ToLE(PAGE, 4) + raw[4..]) == PAGE + Pow256(4) * high by {
      FromLEConcat(ToLE(PAGE, 4), raw[4..]);
      Widths();
      FromToLE(PAGE, 4);
    }
    assert Pow256(4) * high == 0 <==> high == 0 by { Widths(); }
  }

  lemma {:induction false} FromLEConcat(a: seq<byte>, b: seq<byte>)
    ensures FromLE(a + b) == FromLE(a) + Pow256(|a|) * FromLE(b)
  {
    if a == [] {
      assert a + b == b;
    } else {
      assert (a + b)[1..] == a[1..] + b;
      FromLEConcat(a[1..], b);
    }
  }

  lemma {:induction false} PatchedTwice(kv: Kv)
    ensures PatchedKv(PatchedKv(kv)) == PatchedKv(kv) && (IsAlignment(kv) ==> IsAlignment(PatchedKv(kv)))
    ensures kv.value.Scalar? && |kv.value.raw| >= 4 ==> PatchedKv(kv).value.raw[4..] == kv.value.raw[4..]
  {
    if kv.value.Scalar? && |kv.value.raw| >= 4 {
      assert (ToLE(PAGE, 4) + kv.value.raw[4..])[4..] == kv.value.raw[4..];
    }
  }

  /** The rewritten pairs have their alignment pair at `k`. */
  lemma {:induction false} AlignedAt(kvs: seq<Kv>) returns (k: nat)
    requires Wide(kvs)
    ensures k < |AlignedKvs(kvs)| && k == AlignIndex(AlignedKvs(kvs)) && AlignedKvs(AlignedKvs(kvs)) == AlignedKvs(kvs)
    ensures if AlignIndex(kvs) < 0 then AlignedKvs(kvs)[k] == AlignKv() else k == AlignIndex(kvs) && AlignedKvs(kvs)[k] == PatchedKv(kvs[k])
  {
    var kvs' := AlignedKvs(kvs);
    if AlignIndex(kvs) < 0 {
      k := |kvs|;
      assert PatchedKv(AlignKv()) == AlignKv();
    } else {
      k := AlignIndex(kvs);
      PatchedTwice(kvs[k]);
      IndexAfterUpdate(kvs, PatchedKv(kvs[k]));
    }
    assert kvs'[k := kvs'[k]] == kvs';
  }

  /** The alignment of the rewritten pairs. */
  lemma {:induction false} AlignedReads(kvs: seq<Kv>, start: nat)
    requires Wide(kvs)
    ensures AlignmentOf(TablesOf(AlignedKvs(kvs), start)) == PAGE <==> Patchable(kvs)
  {
    var k := AlignedAt(kvs);
    var kvs' := AlignedKvs(kvs);
    AlignmentAnywhere(kvs', start, 24);
    if AlignIndex(kvs) < 0 {
      LastAlignmentWins(kvs', start);
      assert FromLE(AlignKv().value.raw) == PAGE by { Widths(); FromToLE(PAGE, 4); }
    } else if IsUnsigned(kvs[k].vtype) {
      LastAlignmentWins(kvs', start);
      PatchedValue(kvs[k].value.raw);
      Widths();
    } else {
      SignedPatchHasNoEffect(kvs, k, PatchedKv(kvs[k]).value.raw, 24);
    }
  }

  /** After the rewrite the alignment is 4096 exactly if the pairs are patchable, and rewriting again changes
      nothing. */
  lemma {:induction false} AlignedKvsFacts(kvs: seq<Kv>, start: nat)
    requires Wide(kvs)
    ensures AlignmentOf(TablesOf(AlignedKvs(kvs), start)) == PAGE <==> Patchable(kvs)
    ensures Wide(AlignedKvs(kvs)) && AlignIndex(AlignedKvs(kvs)) >= 0 && AlignedKvs(AlignedKvs(kvs)) == AlignedKvs(kvs)
    ensures Patchable(kvs) ==> Patchable(AlignedKvs(kvs))
  {
    AlignedReads(kvs, start);
    var k := AlignedAt(kvs);
    if AlignIndex(kvs) >= 0 { PatchedTwice(kvs[k]); }
    AlignedReads(kvs, 24);
    AlignedReads(AlignedKvs(kvs), 24);
  }

  function Find<V>(m: map<Name, V>, name: Name): Option<V> {
    if name in m then Some(m[name]) else None
  }

  /** All that the tables say about one key. */
  datatype Entry = Entry(u: Option<nat>, i: Option<nat>, f: Option<seq<byte>>, s: Option<seq<byte>>)

  function Lookup(tab: Tables, name: Name): Entry {
    Entry(Find(tab.u, name), Find(tab.i, name), Find(tab.f, name), Find(tab.s, name))
  }

  function Put(e: Entry, kv: Kv): Entry {
    match kv.value
    case Scalar(raw) =>
      if IsUnsigned(kv.vtype) then e.(u := Some(FromLE(raw)))
      else if IsSigned(kv.vtype) then e.(i := Some(FromLE(raw)))
      else e.(f := Some(raw))
    case Text(body) => e.(s := Some(body))
    case Array(_, _) => e
  }

  lemma {:induction false} LookupRecord(tab: Tables, kv: Kv, p: nat, name: Name)
    ensures Lookup(Record(tab, kv, p), name) ==
      if name == Name(kv.key) then Put(Lookup(tab, name), kv) else Lookup(tab, name)
  {
    var k := Name(kv.key);
    match kv.value
    case Scalar(raw) =>
      if IsUnsigned(kv.vtype) {
        FindUpdated(tab.u, k, FromLE(raw), name);
      } else if IsSigned(kv.vtype) {
        FindUpdated(tab.i, k, FromLE(raw), name);
      } else {
        FindUpdated(tab.f, k, raw, name);
      }
    case Text(body) => FindUpdated(tab.s, k, body, name);
    case Array(_, _) =>
  }

  lemma {:induction false} FindUpdated<V>(m: map<Name, V>, k: Name, v: V, name: Name)
    ensures Find(m[k := v], name) == if name == k then Some(v) else Find(m, name)
  {
  }

  // ---------------------------------------------------------------- what the tables hold

  /** Index of the last pair under a key that is of a given sort, or -1. */
  ghost function LastOf(kvs: seq<Kv>, name: Name, sort: Kv -> bool): (k: int)
    ensures -1 <= k < |kvs| && (k >= 0 ==> kvs[k].key == name.text && sort(kvs[k]))
    ensures forall i :: k < i < |kvs| ==> !(kvs[i].key == name.text && sort(kvs[i]))
  {
    if kvs == [] then -1
    else
      var n := |kvs| - 1;
      if kvs[n].key == name.text && sort(kvs[n]) then n else LastOf(kvs[..n], name, sort)
  }

  ghost predicate UnsignedPair(kv: Kv) {
    kv.value.Scalar? && kv.vtype in {0, 2, 4, 7, 10}
  }

  ghost predicate SignedPair(kv: Kv) {
    kv.value.Scalar? && kv.vtype in {1, 3, 5, 11}
  }

  ghost predicate FloatPair(kv: Kv) {
    kv.value.Scalar? && kv.vtype !in {0, 1, 2, 3, 4, 5, 7, 10, 11}
  }

  ghost predicate TextPair(kv: Kv) {
    kv.value.Text?
  }

  /** The last pair of a sort under a key, if there is one. */
  ghost function LastPair(kvs: seq<Kv>, name: Name, sort: Kv -> bool): (r: Option<Kv>)
    ensures r.Some? ==> sort(r.value)
  {
    var k := LastOf(kvs, name, sort);
    if k < 0 then None else Some(kvs[k])
  }

  lemma {:induction false} LastPairStep(kvs: seq<Kv>, name: Name, sort: Kv -> bool, n: nat)
    requires |kvs| == n + 1
    ensures LastPair(kvs, name, sort) ==
      if kvs[n].key == name.text && sort(kvs[n]) then Some(kvs[n]) else LastPair(kvs[..n], name, sort)
  {
  }

  /** What an entry says if `u`, `i`, `f` and `s` are the last pairs of the four sorts. */
  ghost predicate Says(e: Entry, u: Option<Kv>, i: Option<Kv>, f: Option<Kv>, s: Option<Kv>)
    requires (u.Some? ==> UnsignedPair(u.value)) && (i.Some? ==> SignedPair(i.value))
    requires (f.Some? ==> FloatPair(f.value)) && (s.Some? ==> TextPair(s.value))
  {
    && e.u == (if u.None? then None else Some(FromLE(u.value.value.raw)))
    && e.i == (if i.None? then None else Some(FromLE(i.value.value.raw)))
    && e.f == (if f.None? then None else Some(f.value.value.raw))
    && e.s == (if s.None? then None else Some(s.value.value.body))
  }

  /** Each table holds, for a key, the value of the last pair of its sort under that key. */
  lemma {:induction false} TablesMean(kvs: seq<Kv>, start: nat, name: Name)
    ensures Says(Lookup(TablesOf(kvs, start), name), LastPair(kvs, name, UnsignedPair), LastPair(kvs, name, SignedPair),
                 LastPair(kvs, name, FloatPair), LastPair(kvs, name, TextPair))
  {
    if kvs != [] {
      var n := |kvs| - 1;
      TablesMean(kvs[..n], start, name);
      var p := LastRecorded(kvs, start, TablesOf(kvs[..n], start));
      LookupRecord(TablesOf(kvs[..n], start), kvs[n], p, name);
      LastPairStep(kvs, name, UnsignedPair, n);
      LastPairStep(kvs, name, SignedPair, n);
      LastPairStep(kvs, name, FloatPair, n);
      LastPairStep(kvs, name, TextPair, n);
    }
  }

  /** The rewritten pairs are the old ones with 4096, 0x1000, in the four lowest bytes of the last integer
      under `general.alignment`, or with such a pair of type UINT32 behind them if there is none. */
  lemma {:induction false} PairsMean(kvs: seq<Kv>, r: seq<Kv>, k: int)
    requires k == LastOf(kvs, ALIGNMENT_KEY, kv => UnsignedPair(kv) || SignedPair(kv))
    requires (k >= 0 ==> |kvs[k].value.raw| >= 4) && r == AlignedKvs(kvs)
    ensures if k < 0 then
        r == kvs + [Kv(ALIGNMENT_KEY.text, 4, Scalar([0x00, 0x10, 0x00, 0x00]))]
      else
        |r| == |kvs| && r[k] == kvs[k].(value := r[k].value) && r[k].value.Scalar?
        && r[k].value.raw == [0x00, 0x10, 0x00, 0x00] + kvs[k].value.raw[4..]
        && forall i :: 0 <= i < |kvs| && i != k ==> r[i] == kvs[i]
  {
    IndexIs(kvs, k);
    assert ToLE(PAGE, 4) == [0x00, 0x10, 0x00, 0x00] by {
      assert ToLE(0, 1) == [0] + ToLE(0, 0) && ToLE(0, 2) == [0] + ToLE(0, 1) && ToLE(16, 3) == [16] + ToLE(0, 2);
    }
  }

  lemma {:induction false} IndexIs(kvs: seq<Kv>, k: int)
    requires k == LastOf(kvs, ALIGNMENT_KEY, kv => UnsignedPair(kv) || SignedPair(kv))
    ensures AlignIndex(kvs) == k
  {
    if kvs != [] && !IsAlignment(kvs[|kvs| - 1]) {
      var n := |kvs| - 1;
      IndexIs(kvs[..n], LastOf(kvs[..n], ALIGNMENT_KEY, kv => UnsignedPair(kv) || SignedPair(kv)));
    }
  }

  /** Every key but the alignment reads the same in both tables. */
  ghost predicate SameKeys(a: Tables, b: Tables) {
    forall name :: name != ALIGNMENT_KEY ==> Lookup(a, name) == Lookup(b, name)
  }

  lemma {:induction false} RecordSame(a: Tables, b: Tables, kv: Kv, p: nat, q: nat)
    requires SameKeys(a, b)
    ensures SameKeys(Record(a, kv, p), Record(b, kv, q))
  {
    forall name | name != ALIGNMENT_KEY ensures Lookup(Record(a, kv, p), name) == Lookup(Record(b, kv, q), name) {
      LookupRecord(a, kv, p, name);
      LookupRecord(b, kv, q, name);
    }
  }

  lemma {:induction false} RecordAlignment(a: Tables, kv: Kv, p: nat)
    requires kv.key == ALIGNMENT_KEY.text
    ensures SameKeys(a, Record(a, kv, p))
  {
    forall name | name != ALIGNMENT_KEY ensures Lookup(Record(a, kv, p), name) == Lookup(a, name) {
      LookupRecord(a, kv, p, name);
    }
  }

  lemma {:induction false} UpdateKeepsKeys(kvs: seq<Kv>, k: nat, kv: Kv, start: nat)
    requires k < |kvs| && IsAlignment(kvs[k]) && IsAlignment(kv)
    ensures SameKeys(TablesOf(kvs, start), TablesOf(kvs[k := kv], start))
  {
    var n := |kvs| - 1;
    var kvs' := kvs[k := kv];
    var a, b := TablesOf(kvs[..n], start), TablesOf(kvs'[..n], start);
    var p := LastRecorded(kvs, start, a);
    var q := LastRecorded(kvs', start, b);
    if k < n {
      assert kvs'[..n] == kvs[..n][k := kv];
      UpdateKeepsKeys(kvs[..n], k, kv, start);
      RecordSame(a, b, kvs[n], p, q);
    } else {
      assert kvs'[..n] == kvs[..n];
      RecordAlignment(a, kvs[n], p);
      RecordAlignment(a, kv, q);
    }
  }

  lemma {:induction false} LastRecorded(kvs: seq<Kv>, start: nat, before: Tables) returns (p: nat)
    requires kvs != [] && before == TablesOf(kvs[..|kvs| - 1], start)
    ensures TablesOf(kvs, start) == Record(before, kvs[|kvs| - 1], p)
    ensures p == start + |EncKvs(kvs[..|kvs| - 1])| + |EncStr(kvs[|kvs| - 1].key)| + 4
  {
    p := start + |EncKvs(kvs[..|kvs| - 1])| + |EncStr(kvs[|kvs| - 1].key)| + 4;
  }

  lemma {:induction false} RewriteKeepsKeys(kvs: seq<Kv>, start: nat)
    ensures SameKeys(TablesOf(kvs, start), TablesOf(AlignedKvs(kvs), start))
  {
    if AlignIndex(kvs) < 0 {
      var tab, p := TablesOf(kvs, start), start + |EncKvs(kvs)| + 29;
      assert (kvs + [AlignKv()])[..|kvs|] == kvs;
      assert TablesOf(kvs + [AlignKv()], start) == Record(tab, AlignKv(), p);
      RecordAlignment(tab, AlignKv(), p);
    } else {
      AlignPosition(kvs, start);
      UpdateKeepsKeys(kvs, AlignIndex(kvs), PatchedKv(kvs[AlignIndex(kvs)]), start);
    }
  }

  /** Patching a signed pair leaves the unsigned table, and with it the alignment the reader uses, as it was. */
  lemma {:induction false} SignedPatchHasNoEffect(kvs: seq<Kv>, k: nat, raw: seq<byte>, start: nat)
    requires k < |kvs| && kvs[k].value.Scalar? && IsSigned(kvs[k].vtype)
    ensures var patched := TablesOf(kvs[k := kvs[k].(value := Scalar(raw))], start);
      patched.u == TablesOf(kvs, start).u && AlignmentOf(patched) == AlignmentOf(TablesOf(kvs, start))
  {
    SameUnsigned(kvs, kvs[k := kvs[k].(value := Scalar(raw))], k, raw, start);
  }

  lemma {:induction false} SameUnsigned(kvs: seq<Kv>, kvs': seq<Kv>, k: nat, raw: seq<byte>, start: nat)
    requires k < |kvs| && kvs[k].value.Scalar? && IsSigned(kvs[k].vtype) && kvs' == kvs[k := kvs[k].(value := Scalar(raw))]
    ensures TablesOf(kvs', start).u == TablesOf(kvs, start).u
  {
    var n := |kvs| - 1;
    var a, b := TablesOf(kvs[..n], start), TablesOf(kvs'[..n], start);
    var p := LastRecorded(kvs, start, a);
    var q := LastRecorded(kvs', start, b);
    if k < n {
      SameUnsigned(kvs[..n], kvs'[..n], k, raw, start);
      RecordUnsigned(a, b, kvs[n], p, q);
    } else {
      assert kvs'[..n] == kvs[..n];
      UnsignedPart(a, kvs[n], p);
      UnsignedPart(b, kvs'[n], q);
    }
  }

  lemma {:induction false} RecordUnsigned(a: Tables, b: Tables, kv: Kv, p: nat, q: nat)
    requires a.u == b.u
    ensures Record(a, kv, p).u == Record(b, kv, q).u
  {
    UnsignedPart(a, kv, p);
    UnsignedPart(b, kv, q);
  }

  lemma {:induction false} UnsignedPart(a: Tables, kv: Kv, p: nat)
    ensures Record(a, kv, p).u ==
      if kv.value.Scalar? && IsUnsigned(kv.vtype) then a.u[Name(kv.key) := FromLE(kv.value.raw)] else a.u
  {
  }

  // ---------------------------------------------------------------- well-formedness of the rewrite

  lemma {:induction false} AllOkIff<T>(ok: T -> bool, xs: seq<T>)
    ensures AllOk(ok, xs) <==> forall i :: 0 <= i < |xs| ==> ok(xs[i])
    decreases |xs|
  {
    if xs != [] {
      AllOkIff(ok, xs[1..]);
      assert forall i :: 1 <= i < |xs| ==> xs[i] == xs[1..][i - 1];
      if forall i :: 0 <= i < |xs| ==> ok(xs[i]) {
        assert forall i :: 0 <= i < |xs[1..]| ==> xs[1..][i] == xs[i + 1];
      }
    }
  }

  lemma {:induction false} PairsTakeSpace(kvs: seq<Kv>)
    ensures |kvs| <= |EncKvs(kvs)|
    decreases |kvs|
  {
    if kvs != [] { PairsTakeSpace(kvs[1..]); }
  }

  /** Rewriting well-formed metadata with 64-bit offsets gives well-formed metadata. */
  lemma {:induction false} RewrittenOk(m: Meta, rel: seq<nat>)
    requires MetaOk(m) && |m.kvs| + 1 < Pow256(8) && |rel| == |m.tensors|
    requires forall i :: 0 <= i < |rel| ==> rel[i] < Pow256(8)
    ensures MetaOk(Rewritten(m, rel))
  {
    AllOkIff(KvOk, m.kvs);
    AllOkIff(KvOk, AlignedKvs(m.kvs));
    AllOkIff(TensorOk, m.tensors);
    AllOkIff(TensorOk, Moved(m.tensors, rel, |rel|));
  }

  // ---------------------------------------------------------------- patches inside an encoding

  lemma {:induction false} StoreMiddle(a: seq<byte>, b: seq<byte>, b': seq<byte>, c: seq<byte>)
    requires |b| == |b'|
    ensures Store(a + b + c, |a|, b') == a + b' + c
  {
  }

  lemma {:induction false} EncListConcat<T>(enc: T -> seq<byte>, xs: seq<T>, ys: seq<T>)
    ensures EncList(enc, xs + ys) == EncList(enc, xs) + EncList(enc, ys)
    decreases |xs|
  {
    if xs == [] {
      assert xs + ys == ys;
    } else {
      assert (xs + ys)[1..] == xs[1..] + ys;
      EncListConcat(enc, xs[1..], ys);
    }
  }

  /** An encoded list around its element `k`. */
  lemma {:induction false} EncListAround<T>(enc: T -> seq<byte>, xs: seq<T>, k: nat)
    requires k < |xs|
    ensures EncList(enc, xs) == EncList(enc, xs[..k]) + enc(xs[k]) + EncList(enc, xs[k + 1..])
  {
    assert xs == xs[..k] + xs[k..];
    EncListConcat(enc, xs[..k], xs[k..]);
    assert xs[k..][1..] == xs[k + 1..];
  }

  /** Replacing one element replaces its bytes. */
  lemma {:induction false} EncListUpdate<T>(enc: T -> seq<byte>, xs: seq<T>, k: nat, x: T)
    requires k < |xs|
    ensures EncList(enc, xs[k := x]) == EncList(enc, xs[..k]) + enc(x) + EncList(enc, xs[k + 1..])
  {
    EncListAround(enc, xs[k := x], k);
    assert xs[k := x][..k] == xs[..k] && xs[k := x][k + 1..] == xs[k + 1..];
  }

  /** A patch inside one element of an encoded list standing between `before` and `after`. */
  lemma {:induction false} PatchInside<T>(enc: T -> seq<byte>, xs: seq<T>, xs': seq<T>, k: nat, x: T,
                     head: seq<byte>, mid: seq<byte>, mid': seq<byte>, tail: seq<byte>, before: seq<byte>, after: seq<byte>,
                     whole: seq<byte>, at: int, next: seq<byte>)
    requires k < |xs| && enc(xs[k]) == head + mid + tail && enc(x) == head + mid' + tail && |mid| == |mid'|
    requires whole == before + EncList(enc, xs) + after && at == |before| + |EncList(enc, xs[..k])| + |head|
    requires xs' == xs[k := x] && next == before + EncList(enc, xs') + after
    ensures |before| <= at && at + |mid| <= |whole| && Store(whole, at, mid') == next
  {
    EncListAround(enc, xs, k);
    EncListUpdate(enc, xs, k, x);
    var l, r := EncList(enc, xs[..k]), EncList(enc, xs[k + 1..]);
    Regroup(before, l, head, mid, tail, r, after);
    Regroup(before, l, head, mid', tail, r, after);
    StoreMiddle(before + l + head, mid, mid', tail + r + after);
  }

  lemma {:induction false} Regroup(before: seq<byte>, l: seq<byte>, head: seq<byte>, mid: seq<byte>, tail: seq<byte>,
                                   r: seq<byte>, after: seq<byte>)
    ensures before + (l + (head + mid + tail) + r) + after == (before + l + head) + mid + (tail + r + after)
  {
  }

  /** Where the reader found the value of the alignment pair. */
  function AlignPos(kvs: seq<Kv>): nat
    requires AlignIndex(kvs) >= 0
  {
    24 + |EncKvs(kvs[..AlignIndex(kvs)])| + |EncStr(kvs[AlignIndex(kvs)].key)| + 4
  }

  /** Four bytes stored at the recorded position change the value of the alignment pair and nothing else. */
  lemma {:induction false} AlignPatched(m: Meta)
    requires AlignIndex(m.kvs) >= 0 && Wide(m.kvs)
    ensures ALIGNMENT_KEY in TablesOf(m.kvs, 24).pos
    ensures var at := TablesOf(m.kvs, 24).pos[ALIGNMENT_KEY];
      at + 4 <= |EncMeta(m)| && Store(EncMeta(m), at, ToLE(PAGE, 4)) == EncMeta(m.(kvs := AlignedKvs(m.kvs)))
  {
    var k := AlignIndex(m.kvs);
    var kv, kv' := m.kvs[k], PatchedKv(m.kvs[k]);
    AlignPosition(m.kvs, 24);
    var head, raw := EncStr(kv.key) + ToLE(kv.vtype, 4), kv.value.raw;
    assert EncKv(kv) == head + raw[..4] + raw[4..] by { assert raw == raw[..4] + raw[4..]; }
    assert EncKv(kv') == head + ToLE(PAGE, 4) + raw[4..];
    PatchInside(EncKv, m.kvs, AlignedKvs(m.kvs), k, kv', head, raw[..4], ToLE(PAGE, 4), raw[4..], EncHeader(m),
      EncTensors(m.tensors), EncMeta(m), TablesOf(m.kvs, 24).pos[ALIGNMENT_KEY], EncMeta(m.(kvs := AlignedKvs(m.kvs))));
  }

  /** A value narrower than four bytes is patched together with what follows it: the result is an encoding of
      the same content, with the low bytes of 4096 as that value, exactly if what follows agrees already. */
  lemma {:induction false} NarrowIff(m: Meta, k: nat, raw: seq<byte>, n: nat, at: nat, low: seq<byte>)
    requires k == AlignIndex(m.kvs) && raw == m.kvs[k].value.raw && 0 < n == |raw| < 4
    requires at == AlignPos(m.kvs) && at + 4 <= |EncMeta(m)| && low == ToLE(PAGE, 4)
    ensures Store(EncMeta(m), at, low) == EncMeta(m.(kvs := m.kvs[k := m.kvs[k].(value := Scalar(low[..n]))])) <==>
      EncMeta(m)[at + n..at + 4] == low[n..]
  {
    var kv, kv' := m.kvs[k], m.kvs[k].(value := Scalar(low[..n]));
    var whole, next := EncMeta(m), EncMeta(m.(kvs := m.kvs[k := kv']));
    var head := EncStr(kv.key) + ToLE(kv.vtype, 4);
    assert EncKv(kv) == head + raw + [] && EncKv(kv') == head + low[..n] + [];
    PatchInside(EncKv, m.kvs, m.kvs[k := kv'], k, kv', head, raw, low[..n], [], EncHeader(m), EncTensors(m.tensors), whole, at, next);
    StoreMore(whole, at, low, n);
  }

  /** Storing all of `data` is storing its first `n` bytes exactly if the others are there already. */
  lemma {:induction false} StoreMore(mem: seq<byte>, at: nat, data: seq<byte>, n: nat)
    requires n <= |data| && at + |data| <= |mem|
    ensures Store(mem, at, data) == Store(mem, at, data[..n]) <==> mem[at + n..at + |data|] == data[n..]
  {
    var all, some := Store(mem, at, data), Store(mem, at, data[..n]);
    var there, rest := mem[at + n..at + |data|], data[n..];
    forall i | 0 <= i < |data| - n ensures there[i] == some[at + n + i] && rest[i] == all[at + n + i] { }
    forall i | at + n <= i < at + |data| ensures some[i] == there[i - at - n] && all[i] == rest[i - at - n] { }
  }

  lemma {:induction false} InsertMiddle(a: seq<byte>, b: seq<byte>, add: seq<byte>)
    ensures (a + b)[..|a|] + add + (a + b)[|a|..] == a + add + b
  {
    assert (a + b)[..|a|] == a && (a + b)[|a|..] == b;
  }

  lemma {:induction false} Reassociate(h: seq<byte>, k: seq<byte>, add: seq<byte>, t: seq<byte>)
    ensures (h + k) + add + t == h + (k + add) + t
  {
  }

  /** A header with the given pair count. */
  function HeaderWith(m: Meta, count: nat): (h: seq<byte>)
    ensures |h| == 24
  {
    ToLE(MAGIC, 4) + ToLE(m.version, 4) + ToLE(|m.tensors|, 8) + ToLE(count, 8)
  }

  lemma {:induction false} CountBumped(m: Meta)
    ensures |EncMeta(m)| >= 24 && EncMeta(m)[16..24] == ToLE(|m.kvs|, 8)
    ensures Store(EncMeta(m), 16, ToLE(|m.kvs| + 1, 8)) ==
      HeaderWith(m, |m.kvs| + 1) + EncKvs(m.kvs) + EncTensors(m.tensors)
  {
    var h := ToLE(MAGIC, 4) + ToLE(m.version, 4) + ToLE(|m.tensors|, 8);
    var rest := EncKvs(m.kvs) + EncTensors(m.tensors);
    assert EncMeta(m) == h + ToLE(|m.kvs|, 8) + rest;
    StoreMiddle(h, ToLE(|m.kvs|, 8), ToLE(|m.kvs| + 1, 8), rest);
  }

  lemma {:induction false} InsertedParts(m: Meta, k: seq<byte>, t: seq<byte>)
    requires AlignIndex(m.kvs) < 0 && k == EncKvs(m.kvs) && t == EncTensors(m.tensors)
    ensures EncMeta(m.(kvs := AlignedKvs(m.kvs))) == HeaderWith(m, |m.kvs| + 1) + (k + EncKv(AlignKv())) + t
  {
    EncListSnoc(EncKv, m.kvs, AlignKv());
  }

  /** The bumped pair count and the pair inserted in front of the tensor directory. */
  lemma {:induction false} AlignInserted(m: Meta, bumped: seq<byte>, kvEnd: nat)
    requires AlignIndex(m.kvs) < 0 && kvEnd == 24 + |EncKvs(m.kvs)|
    requires bumped == HeaderWith(m, |m.kvs| + 1) + EncKvs(m.kvs) + EncTensors(m.tensors)
    ensures kvEnd <= |bumped|
    ensures bumped[..kvEnd] + EncKv(AlignKv()) + bumped[kvEnd..] == EncMeta(m.(kvs := AlignedKvs(m.kvs)))
  {
    var h, k, t, add := HeaderWith(m, |m.kvs| + 1), EncKvs(m.kvs), EncTensors(m.tensors), EncKv(AlignKv());
    assert bumped[..kvEnd] + add + bumped[kvEnd..] == (h + k) + add + t by { InsertMiddle(h + k, t, add); }
    assert (h + k) + add + t == h + (k + add) + t by { Reassociate(h, k, add, t); }
    InsertedParts(m, k, t);
  }

  /** The directory's size does not depend on the offsets in it. */
  lemma {:induction false} MovedSize(ts: seq<Tensor>, us: seq<Tensor>)
    requires |ts| == |us| && forall i :: 0 <= i < |ts| ==> us[i] == ts[i].(relOffset := us[i].relOffset)
    ensures |EncTensors(ts)| == |EncTensors(us)|
    decreases |ts|
  {
    if ts != [] { MovedSize(ts[1..], us[1..]); }
  }

  lemma {:induction false} FieldPosition(ts: seq<Tensor>, start: nat, i: nat)
    requires i < |ts|
    ensures var raw := RawTensors(ts, start);
      raw[i] == RawTensor(ts[i], start + |EncTensors(ts[..i])| + |EncTensor(ts[i])| - 8)
  {
    var n := |ts| - 1;
    if i < n {
      FieldPosition(ts[..n], start, i);
      assert ts[..n][..i] == ts[..i];
    }
  }

  /** The content with only the first `n` tensors moved. */
  function Halfway(m: Meta, rel: seq<nat>, n: nat): Meta
    requires n <= |rel| == |m.tensors|
  {
    m.(tensors := Moved(m.tensors, rel, n))
  }

  lemma {:induction false} HalfwayParts(m: Meta, rel: seq<nat>, n: nat, before: seq<byte>)
    requires n <= |rel| == |m.tensors| && before == EncHeader(m) + EncKvs(m.kvs)
    ensures EncMeta(Halfway(m, rel, n)) == before + EncTensors(Moved(m.tensors, rel, n))
    ensures |before| == 24 + |EncKvs(m.kvs)|
  {
  }

  lemma {:induction false} DirectoryPatched(us: seq<Tensor>, us': seq<Tensor>, i: nat, v: nat, before: seq<byte>,
                                            whole: seq<byte>, at: int, next: seq<byte>)
    requires i < |us| && us' == us[i := us[i].(relOffset := v)]
    requires whole == before + EncTensors(us) && next == before + EncTensors(us')
    requires at == |before| + |EncTensors(us[..i])| + |EncTensor(us[i])| - 8
    ensures |before| + 16 <= at && at + 8 <= |whole| && Store(whole, at, ToLE(v, 8)) == next
  {
    var t := us[i];
    var head := EncStr(t.name) + ToLE(|t.dims|, 4) + EncDims(t.dims) + ToLE(t.ggmlType, 4);
    assert whole + [] == whole && next + [] == next;
    assert EncTensor(t) == head + ToLE(t.relOffset, 8) + [] && EncTensor(t.(relOffset := v)) == head + ToLE(v, 8) + [];
    PatchInside(EncTensor, us, us', i, t.(relOffset := v), head, ToLE(t.relOffset, 8), ToLE(v, 8), [], before, [], whole, at, next);
  }

  lemma {:induction false} MovedOne(ts: seq<Tensor>, rel: seq<nat>, i: nat)
    requires i < |rel| == |ts|
    ensures Moved(ts, rel, i)[i := Moved(ts, rel, i)[i].(relOffset := rel[i])] == Moved(ts, rel, i + 1)
  {
  }

  /** Patching the offset field of tensor `i` moves tensor `i`. */
  lemma {:induction false} OffsetPatched(m: Meta, rel: seq<nat>, i: nat, start: nat, pos: int, now: seq<byte>, next: seq<byte>)
    requires i < |rel| == |m.tensors| && start == 24 + |EncKvs(m.kvs)|
    requires pos == start + |EncTensors(m.tensors[..i])| + |EncTensor(m.tensors[i])| - 8
    requires now == EncMeta(Halfway(m, rel, i)) && next == EncMeta(Halfway(m, rel, i + 1))
    ensures start + 16 <= pos && pos + 8 <= |now| && Store(now, pos, ToLE(rel[i], 8)) == next
  {
    var before := EncHeader(m) + EncKvs(m.kvs);
    HalfwayParts(m, rel, i, before);
    HalfwayParts(m, rel, i + 1, before);
    EntryPatched(m.tensors, rel, i, before, now, pos, next);
  }

  lemma {:induction false} EntryPatched(ts: seq<Tensor>, rel: seq<nat>, i: nat, before: seq<byte>, now: seq<byte>, at: int,
                                        next: seq<byte>)
    requires i < |rel| == |ts| && now == before + EncTensors(Moved(ts, rel, i))
    requires next == before + EncTensors(Moved(ts, rel, i + 1))
    requires at == |before| + |EncTensors(ts[..i])| + |EncTensor(ts[i])| - 8
    ensures |before| + 16 <= at && at + 8 <= |now|
    ensures Store(now, at, ToLE(rel[i], 8)) == next
  {
    var us, us' := Moved(ts, rel, i), Moved(ts, rel, i + 1);
    assert us[i] == ts[i] && |EncTensors(us[..i])| == |EncTensors(ts[..i])| by { MovedSize(ts[..i], us[..i]); }
    MovedOne(ts, rel, i);
    DirectoryPatched(us, us', i, rel[i], before, now, at, next);
  }

  /** Sections of equal total size around the same directory have equally long pairs. */
  lemma {:induction false} MetaSizes(m: Meta, kvs: seq<Kv>)
    requires |EncMeta(m.(kvs := kvs))| == |EncMeta(m)|
    ensures |EncKvs(kvs)| == |EncKvs(m.kvs)|
  {
    MetaParts([], m);
    MetaParts([], m.(kvs := kvs));
  }

  /** The rewrite adds the 33 bytes of the alignment pair, or nothing. */
  lemma {:induction false} RewrittenSize(m: Meta, rel: seq<nat>)
    requires Wide(m.kvs) && |rel| == |m.tensors|
    ensures |EncMeta(Rewritten(m, rel))| == |EncMeta(m)| + (if AlignIndex(m.kvs) < 0 then 33 else 0)
  {
    MetaParts([], m);
    MetaParts([], Rewritten(m, rel));
    MovedSize(m.tensors, Moved(m.tensors, rel, |rel|));
    if AlignIndex(m.kvs) < 0 {
      EncListSnoc(EncKv, m.kvs, AlignKv());
    } else {
      AlignPatched(m);
      MetaSizes(m, AlignedKvs(m.kvs));
    }
  }

  // ---------------------------------------------------------------- the patched section

  /** The pairs in front of the directory when the offsets are patched: one more if there was no alignment. */
  function Extended(m: Meta): Meta {
    if AlignIndex(m.kvs) < 0 then m.(kvs := AlignedKvs(m.kvs)) else m
  }

  function Over(mem: seq<byte>, at: nat, data: seq<byte>): (r: seq<byte>)
    ensures |r| == |mem|
  {
    if at + |data| <= |mem| then Store(mem, at, data) else mem
  }

  /** `whole` with 4096 stored where the source's alignment value stood. */
  function Overlaid(kvs: seq<Kv>, whole: seq<byte>): (r: seq<byte>)
    ensures |r| == |whole|
  {
    if AlignIndex(kvs) < 0 then whole else Over(whole, AlignPos(kvs), ToLE(PAGE, 4))
  }

  /** The patched section: the encoding of the rewritten content, unless the alignment value is narrower than
      the four bytes stored over it. */
  function PatchedMeta(m: Meta, rel: seq<nat>): seq<byte>
    requires |rel| == |m.tensors|
  {
    if Wide(m.kvs) then EncMeta(Rewritten(m, rel)) else Overlaid(m.kvs, EncMeta(Halfway(m, rel, |rel|)))
  }

  lemma {:induction false} OverlaidIsPatched(m: Meta, rel: seq<nat>)
    requires |rel| == |m.tensors|
    ensures Overlaid(m.kvs, EncMeta(Halfway(Extended(m), rel, |rel|))) == PatchedMeta(m, rel)
  {
    var n := Halfway(m, rel, |rel|);
    if Wide(m.kvs) && AlignIndex(m.kvs) >= 0 {
      AlignPatched(n);
      AlignPosition(n.kvs, 24);
    }
  }

  /** The four bytes end in front of the first offset field. */
  lemma {:induction false} AlignInside(kvs: seq<Kv>)
    requires AlignIndex(kvs) >= 0 && |kvs[AlignIndex(kvs)].value.raw| > 0
    ensures AlignPos(kvs) < 24 + |EncKvs(kvs)|
  {
    EncListAround(EncKv, kvs, AlignIndex(kvs));
  }

  /** Patching an offset field and storing the alignment do not interfere. */
  lemma {:induction false} OverlaidStep(kvs: seq<Kv>, now: seq<byte>, pos: nat, data: seq<byte>, next: seq<byte>)
    requires AlignIndex(kvs) >= 0 ==> AlignPos(kvs) + 4 <= pos
    requires pos + |data| <= |now| && Store(now, pos, data) == next
    ensures Store(Overlaid(kvs, now), pos, data) == Overlaid(kvs, next)
  {
    if AlignIndex(kvs) >= 0 { StoreCommutes(now, AlignPos(kvs), ToLE(PAGE, 4), pos, data); }
  }

  // ---------------------------------------------------------------- the patcher

  /** The four bytes of the alignment stay inside the section, as they do in front of any directory entry. */
  predicate AlignFits(m: Meta) {
    AlignIndex(m.kvs) >= 0 ==> AlignPos(m.kvs) + 4 <= |EncMeta(m)|
  }

  /** Sets or inserts the alignment pair. `shift` is the number of inserted bytes. */
  method PatchAlignment(bytes: seq<byte>, tables: Tables, kvEnd: nat, ghost m: Meta)
    returns (patched: seq<byte>, shift: nat, appended: bool)
    requires bytes == EncMeta(m) && MetaOk(m) && AlignFits(m)
    requires tables == TablesOf(m.kvs, 24) && kvEnd == 24 + |EncKvs(m.kvs)|
    ensures patched == Overlaid(m.kvs, EncMeta(Extended(m)))
    ensures kvEnd + shift == 24 + |EncKvs(Extended(m).kvs)| && (shift > 0 <==> appended)
  {
    AlignPosition(m.kvs, 24);
    var value := ToLE(PAGE, 4);
    if ALIGNMENT_KEY in tables.pos {
      patched := Store(bytes, tables.pos[ALIGNMENT_KEY], value);
      return patched, 0, false;
    }
    patched, shift := InsertAlignment(bytes, value, kvEnd, m);
    appended := true;
  }

  method InsertAlignment(bytes: seq<byte>, value: seq<byte>, kvEnd: nat, ghost m: Meta) returns (patched: seq<byte>, shift: nat)
    requires bytes == EncMeta(m) && MetaOk(m) && AlignIndex(m.kvs) < 0 && value == ToLE(PAGE, 4)
    requires kvEnd == 24 + |EncKvs(m.kvs)|
    ensures patched == EncMeta(m.(kvs := AlignedKvs(m.kvs)))
    ensures kvEnd + shift == 24 + |EncKvs(AlignedKvs(m.kvs))| && shift > 0
  {
    CountBumped(m);
    var add := ToLE(|ALIGNMENT_KEY.text|, 8) + ALIGNMENT_KEY.text + ToLE(UINT32_TYPE, 4) + value;
    var nKv := FromLE(bytes[16..24]);
    assert nKv == |m.kvs| by { FromToLE(|m.kvs|, 8); }
    patched := Store(bytes, 16, ToLE(nKv + 1, 8));
    assert add == EncKv(AlignKv());
    AlignInserted(m, patched, kvEnd);
    patched := patched[..kvEnd] + add + patched[kvEnd..];
    shift := |add|;
    assert |EncKvs(AlignedKvs(m.kvs))| == |EncKvs(m.kvs)| + shift by { EncListSnoc(EncKv, m.kvs, AlignKv()); }
  }

  /** The reader's record of where each offset field lies. */
  ghost predicate FieldsAt(raw: seq<RawTensor>, ts: seq<Tensor>, start: nat) {
    |raw| == |ts| && forall i {:trigger raw[i]} :: 0 <= i < |raw| ==>
      raw[i].fieldPos == start + |EncTensors(ts[..i])| + |EncTensor(ts[i])| - 8
  }

  lemma {:induction false} FieldPositions(ts: seq<Tensor>, start: nat, raw: seq<RawTensor>)
    requires raw == RawTensors(ts, start)
    ensures FieldsAt(raw, ts, start)
  {
    forall i {:trigger raw[i]} | 0 <= i < |raw|
      ensures raw[i].fieldPos == start + |EncTensors(ts[..i])| + |EncTensor(ts[i])| - 8
    {
      FieldPosition(ts, start, i);
    }
  }

  method PatchOffset(bytes: seq<byte>, kvEnd: nat, shift: nat, appended: bool, fieldPos: nat, offset: nat,
                     ghost target: nat)
    returns (patched: seq<byte>)
    requires kvEnd <= fieldPos && target == fieldPos + shift && target + 8 <= |bytes|
    ensures patched == Store(bytes, target, ToLE(offset, 8))
  {
    var pos := fieldPos;
    if !appended || pos >= kvEnd { pos := pos + shift; }
    patched := Store(bytes, pos, ToLE(offset, 8));
  }

  /** `m` is the content whose offsets are patched, `kvs` are the source's pairs. */
  method PatchOffsets(bytes: seq<byte>, kvEnd: nat, shift: nat, appended: bool, raw: seq<RawTensor>, rel: seq<nat>,
                      ghost m: Meta, ghost kvs: seq<Kv>)
    returns (patched: seq<byte>)
    requires FieldsAt(raw, m.tensors, kvEnd) && |rel| == |raw| && bytes == Overlaid(kvs, EncMeta(Halfway(m, rel, 0)))
    requires kvEnd + shift == 24 + |EncKvs(m.kvs)| && (AlignIndex(kvs) >= 0 ==> AlignPos(kvs) < kvEnd + shift)
    ensures patched == Overlaid(kvs, EncMeta(Halfway(m, rel, |rel|)))
  {
    patched := bytes;
    for i := 0 to |raw|
      invariant patched == Overlaid(kvs, EncMeta(Halfway(m, rel, i)))
    {
      ghost var now, next := EncMeta(Halfway(m, rel, i)), EncMeta(Halfway(m, rel, i + 1));
      var at, offset := raw[i].fieldPos, rel[i];
      ghost var pos := at + shift;
      OffsetPatched(m, rel, i, kvEnd + shift, pos, now, next);
      OverlaidStep(kvs, now, pos, ToLE(offset, 8), next);
      patched := PatchOffset(patched, kvEnd, shift, appended, at, offset, pos);
    }
  }

  /** The whole patch: alignment first, then the offset field of every tensor. */
  method PatchMeta(bytes: seq<byte>, tables: Tables, kvEnd: nat, raw: seq<RawTensor>, rel: seq<nat>, ghost m: Meta)
    returns (patched: seq<byte>)
    requires bytes == EncMeta(m) && MetaOk(m) && AlignFits(m)
    requires tables == TablesOf(m.kvs, 24) && kvEnd == 24 + |EncKvs(m.kvs)|
    requires raw == RawTensors(m.tensors, kvEnd) && |rel| == |raw|
    ensures patched == PatchedMeta(m, rel)
  {
    var shift, appended;
    patched, shift, appended := PatchAlignment(bytes, tables, kvEnd, m);
    ghost var e := Extended(m);
    assert Moved(m.tensors, rel, 0) == m.tensors;
    FieldPositions(m.tensors, kvEnd, raw);
    if AlignIndex(m.kvs) >= 0 {
      AllOkIff(KvOk, m.kvs);
      AlignInside(m.kvs);
    }
    patched := PatchOffsets(patched, kvEnd, shift, appended, raw, rel, e, m.kvs);
    OverlaidIsPatched(m, rel);
  }
}
