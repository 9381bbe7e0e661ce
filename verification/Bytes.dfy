/** Byte sequences, pages and in-place writes. */
module Bytes {

  type byte = x: int | 0 <= x < 256

  /** Bytes per page. The functions below spell the number out, which keeps their arithmetic linear. */
  const PAGE: nat := 4096

  predicate Aligned(v: int) {
    v % 4096 == 0
  }

  /** `v` rounded up to a page. */
  function Padded(v: nat): nat {
    (v + 4095) / 4096 * 4096
  }

  lemma {:induction false} PaddedAbove(v: nat)
    ensures v <= Padded(v) < v + 4096 && Aligned(Padded(v))
  {
  }

  /** `mem` with `data` stored at `at`. */
  function Store(mem: seq<byte>, at: nat, data: seq<byte>): (r: seq<byte>)
    requires at + |data| <= |mem|
    ensures |r| == |mem|
  {
    seq(|mem|, i requires 0 <= i < |mem| => if at <= i < at + |data| then data[i - at] else mem[i])
  }

  lemma {:induction false} StoreAt(mem: seq<byte>, at: nat, data: seq<byte>)
    requires at + |data| <= |mem|
    ensures Store(mem, at, data)[at..at + |data|] == data
    ensures forall i :: 0 <= i < |mem| && !(at <= i < at + |data|) ==> Store(mem, at, data)[i] == mem[i]
  {
  }

  function Zeros(n: nat): (z: seq<byte>)
    ensures |z| == n && forall i :: 0 <= i < n ==> z[i] == 0
  {
    seq(n, _ => 0)
  }

  /** Writes to disjoint ranges commute. */
  lemma {:induction false} StoreCommutes(mem: seq<byte>, at: nat, data: seq<byte>, at': nat, data': seq<byte>)
    requires at + |data| <= at' && at' + |data'| <= |mem|
    ensures Store(Store(mem, at, data), at', data') == Store(Store(mem, at', data'), at, data)
  {
  }

  /** `after` differs from `before` at most inside `[at, at + n)`. */
  ghost predicate OnlyWithin(before: seq<byte>, after: seq<byte>, at: nat, n: nat)
    requires at + n <= |before|
  {
    |after| == |before| && after[..at] == before[..at] && after[at + n..] == before[at + n..]
  }

  lemma {:induction false} StoreOnlyWithin(before: seq<byte>, at: nat, part: seq<byte>, n: nat)
    requires |part| <= n && at + n <= |before|
    ensures OnlyWithin(before, Store(before, at, part), at, n)
  {
  }

  lemma {:induction false} SubSlice(s: seq<byte>, lo: nat, hi: nat, a: nat, b: nat)
    requires a <= b <= hi - lo && lo <= hi <= |s|
    ensures s[lo..hi][a..b] == s[lo + a..lo + b]
  {
    var whole := s[lo..hi];
    assert forall k :: a <= k < b ==> whole[k] == s[lo + k];
  }

  /** A write inside a range changes just that part of it. */
  lemma {:induction false} StoreInRange(mem: seq<byte>, at: nat, size: nat, skip: nat, data: seq<byte>)
    requires skip + |data| <= size && at + size <= |mem|
    ensures var now := Store(mem, at + skip, data);
      && now[at..at + size] == mem[at..at + size][..skip] + data + mem[at..at + size][skip + |data|..]
      && OnlyWithin(mem, now, at, size)
  {
  }

  /** A range that does not meet the written one keeps its bytes. */
  lemma {:induction false} RangeSpared(before: seq<byte>, after: seq<byte>, at: nat, n: nat, lo: nat, hi: nat)
    requires at + n <= |before| == |after| && OnlyWithin(before, after, at, n)
    requires lo <= hi <= |before| && (hi <= at || at + n <= lo)
    ensures after[lo..hi] == before[lo..hi]
  {
    if hi <= at {
      SubSlice(before, 0, at, lo, hi);
      SubSlice(after, 0, at, lo, hi);
      assert before[0..at] == before[..at] && after[0..at] == after[..at];
    } else {
      var m, end := at + n, |before|;
      SubSlice(before, m, end, lo - m, hi - m);
      SubSlice(after, m, end, lo - m, hi - m);
      assert before[m..end] == before[m..] && after[m..end] == after[m..];
    }
  }

  /** `n` bytes of `f` from `at` on. */
  function Slice(f: seq<byte>, at: nat, n: nat): (s: seq<byte>)
    requires n == 0 || at + n <= |f|
    ensures |s| == n
  {
    if n == 0 then [] else f[at..at + n]
  }

  // ---------------------------------------------------------------- page arithmetic

  lemma {:induction false} AlignedSum(a: nat, b: nat)
    requires Aligned(a) && Aligned(b)
    ensures Aligned(a + b)
  {
  }

  lemma {:induction false} AlignedMultiple(e: nat, slice: nat)
    requires Aligned(slice)
    ensures e * slice >= 0 && Aligned(e * slice)
    decreases e
  {
    if e > 0 {
      AlignedMultiple(e - 1, slice);
      AlignedSum((e - 1) * slice, slice);
      assert (e - 1) * slice + slice == e * slice;
    }
  }

  lemma {:induction false} MulStep(e: nat, n: nat, slice: nat)
    requires e < n
    ensures e * slice + slice <= n * slice
    decreases n
  {
    assert n * slice == (n - 1) * slice + slice;
    if e < n - 1 { MulStep(e, n - 1, slice); }
  }
}
