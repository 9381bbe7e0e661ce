/** The slice cache itself: a key table, an LRU list, a recency shield, counters and a byte window,
    all updated in place, each operation proved against the value-level steps. */
module SliceCache {
  import opened Bytes
  import opened Lru
  import opened Residency
  import opened Batches
  import opened DirectIo

  datatype Entry = Entry(addr: nat, bytes: nat)

  /** Where a miss copies its bytes from: a mapping of the model file, or direct reads. */
  datatype Backend = Mapped | Direct

  /** The table holds exactly the listed keys, each with its place and size. */
  ghost predicate Agrees(setup: Setup, table: map<Key, Entry>, lru: seq<Key>) {
    && (forall k :: k in table <==> k in lru)
    && (forall k :: k in table ==> setup.HasKey(k) && table[k] == Entry(setup.Addr(k), setup.Size(k)))
  }

  lemma {:induction false} HitAgrees(setup: Setup, table: map<Key, Entry>, lru: seq<Key>, k: Key)
    requires Agrees(setup, table, lru) && Distinct(lru) && k in table
    ensures Agrees(setup, table, [k] + Without(lru, k))
  {
    WithoutFacts(lru, k, setup.Sizes());
  }

  lemma {:induction false} CommitAgrees(setup: Setup, table: map<Key, Entry>, lru: seq<Key>, k: Key)
    requires Agrees(setup, table, lru) && setup.HasKey(k)
    ensures Agrees(setup, table[k := Entry(setup.Addr(k), setup.Size(k))], [k] + lru)
  {
  }

  class Cache {
    const setup: Setup
    const file: DirectFile
    const window: array<byte>
    var table: map<Key, Entry>
    var lru: seq<Key>
    var shield: set<Key>
    var used: int
    var hits: nat
    var misses: nat
    var bytesLoaded: nat
    var evictions: nat
    var deduped: nat
    var prefetched: nat

    ghost function View(): View
      reads this, window
    {
      Residency.View.View(State(lru, used, hits, misses, bytesLoaded, evictions), shield, window[..], deduped, prefetched)
    }

    /** The table and the list agree, and the value they denote is sound. */
    ghost predicate Valid()
      reads this, window
    {
      && file.content == setup.content
      && window.Length == setup.windowLen
      && Sound(setup, View())
      && Agrees(setup, table, lru)
    }

    constructor (setup: Setup, file: DirectFile, window: array<byte>)
      requires setup.Valid() && window.Length == setup.windowLen && file.content == setup.content
      ensures Valid() && IsFresh(setup, View())
      ensures this.setup == setup && this.file == file && this.window == window
    {
      this.setup, this.file, this.window := setup, file, window;
      table, lru, shield, used := map[], [], {}, 0;
      hits, misses, bytesLoaded, evictions, deduped, prefetched := 0, 0, 0, 0, 0, 0;
    }

    /** Scans from the LRU end for an unshielded key and falls back to plain LRU.
        The scan never skips anything: the victim is always the last key of the list. */
    method FindVictim() returns (found: bool, victim: Key)
      requires Valid()
      ensures found <==> lru != []
      ensures found ==> victim == lru[|lru| - 1]
    {
      found, victim := false, Key(0, 0);
      var i := |lru|;
      while i > 0 && !found
        invariant 0 <= i <= |lru|
        invariant !found ==> forall j :: i <= j < |lru| ==> lru[j] in shield
        invariant found ==> i < |lru| && victim == lru[i] && lru[i] !in shield
        invariant found ==> forall j :: i < j < |lru| ==> lru[j] in shield
      {
        i := i - 1;
        if lru[i] !in shield { found, victim := true, lru[i]; }
      }
      if !found && lru != [] {
        found, victim := true, lru[|lru| - 1];
      }
    }

    /** The operating system takes the pages back: they read as zeros from now on. */
    method ReleasePages(from: nat, n: nat)
      requires from + n <= window.Length
      modifies window
      ensures window[..] == Store(old(window[..]), from, Zeros(n))
    {
      for i := 0 to n
        invariant window[..] == Store(old(window[..]), from, Zeros(i))
      {
        window[from + i] := 0;
      }
    }

    method EvictLru()
      requires Valid() && lru != []
      modifies this, window
      ensures Valid() && View() == EvictLast(setup, old(View())) && misses == old(misses)
      ensures var victim := old(lru)[|old(lru)| - 1];
        && lru == old(lru)[..|old(lru)| - 1] && table == old(table) - {victim} && setup.HasKey(victim)
        && var g := setup.tensors[victim.tensor];
           var at := g.window + victim.expert * g.slice;
           && used == old(used) - g.slice
           && forall i :: 0 <= i < window.Length ==> window[i] == if at <= i < at + g.slice then 0 else old(window[i])
    {
      var found, victim := FindVictim();
      ghost var before := window[..];
      SliceBounds(setup, victim);
      DropMeans(setup, before, victim, setup.Addr(victim));
      DropVictim(victim);
      assert window[..] == Drop(setup, before, victim);
    }

    method DropVictim(victim: Key)
      requires Valid() && lru != [] && victim == lru[|lru| - 1]
      modifies this, window
      ensures Valid() && View() == EvictLast(setup, old(View())) && misses == old(misses)
      ensures setup.HasKey(victim) && table == old(table) - {victim}
    {
      ghost var before, win := View(), window[..];
      var e := Unlist(victim);
      SliceBounds(setup, victim);
      ReleasePages(PageFloor(e.addr), SpanPages(e.addr, e.bytes));
      assert window[..] == Drop(setup, win, victim);
      ghost var left := before.lru.(order := before.lru.order[..|before.lru.order| - 1],
                                    used := before.lru.used - setup.Size(victim), evictions := before.lru.evictions + 1);
      assert View().lru == left;
      assert View() == before.(lru := left, win := Drop(setup, win, victim));
      assert View() == EvictLast(setup, before) by { EvictLastIs(setup, before, victim); }
      assert Sound(setup, View()) by { EvictLastKeepsSound(setup, before); }
    }

    /** Takes the last key off the list, the table and the byte counter. */
    method Unlist(victim: Key) returns (e: Entry)
      requires Agrees(setup, table, lru) && Distinct(lru) && lru != [] && victim == lru[|lru| - 1]
      modifies this`lru, this`table, this`used, this`evictions
      ensures setup.HasKey(victim) && e == Entry(setup.Addr(victim), setup.Size(victim))
      ensures Agrees(setup, table, lru) && table == old(table) - {victim}
      ensures lru == old(lru)[..|old(lru)| - 1] && used == old(used) - setup.Size(victim) && evictions == old(evictions) + 1
    {
      WithoutLast(lru, victim);
      WithoutFacts(lru, victim, setup.Sizes());
      assert victim in lru;
      e := table[victim];
      lru := Without(lru, victim);
      used := used - e.bytes;
      evictions := evictions + 1;
      table := table - {victim};
    }

    method MakeRoomLocked(bytes: nat)
      requires Valid()
      modifies this, window
      ensures Valid() && View() == MakeRoomFor(setup, old(View()), bytes) && misses == old(misses)
    {
      while used + bytes > setup.cap && lru != []
        invariant Valid() && misses == old(misses)
        invariant MakeRoomFor(setup, View(), bytes) == MakeRoomFor(setup, old(View()), bytes)
        decreases |lru|
      {
        EvictLru();
      }
    }

    /** Drops shield entries from the LRU end once the shield has outgrown its capacity. */
    method TrimShieldLocked()
      modifies this`shield
      ensures shield == TrimShield(lru, old(shield))
    {
      var i := |lru|;
      assert lru[..i] == lru;
      while i > 0 && |shield| > SHIELD_ENTRIES / 2
        invariant 0 <= i <= |lru|
        invariant TrimShield(lru[..i], shield) == TrimShield(lru, old(shield))
      {
        assert lru[..i][..i - 1] == lru[..i - 1];
        i := i - 1;
        shield := shield - {lru[i]};
      }
    }

    /** Puts the slice on record unless it is larger than the whole budget. */
    method Record(k: Key, addr: nat, bytes: nat)
      requires Agrees(setup, table, lru) && setup.HasKey(k) && addr == setup.Addr(k) && bytes == setup.Size(k)
      modifies this`lru, this`table, this`used
      ensures Agrees(setup, table, lru)
      ensures lru == (if bytes <= setup.cap then [k] + old(lru) else old(lru))
      ensures used == (if bytes <= setup.cap then old(used) + bytes else old(used))
    {
      CommitAgrees(setup, table, lru, k);
      if bytes <= setup.cap {
        lru := [k] + lru;
        table := table[k := Entry(addr, bytes)];
        used := used + bytes;
      }
    }

    method CommitLocked(k: Key, addr: nat, bytes: nat)
      requires Valid() && setup.HasKey(k) && k !in table && Served(setup, window[..], k)
      requires addr == setup.Addr(k) && bytes == setup.Size(k)
      modifies this
      ensures Valid() && View() == Commit(setup, old(View()), k) && shield == ShieldWith(lru, old(shield), k)
    {
      ghost var before := View();
      Record(k, addr, bytes);
      shield := shield + {k};
      if |shield| > SHIELD_ENTRIES {
        TrimShieldLocked();
      }
      assert View() == Commit(setup, before, k);
      assert Sound(setup, View()) by { CommitKeepsSound(setup, before, k); }
    }

    method HitLocked(k: Key)
      requires Valid() && k in table
      modifies this
      ensures Valid() && View() == Hit(setup, old(View()), k)
      ensures shield == old(shield) + {k} && lru[0] == k && hits == old(hits) + 1 && window[..] == old(window[..])
    {
      ghost var before := View();
      HitAgrees(setup, table, lru, k);
      lru := [k] + Without(lru, k);
      shield := shield + {k};
      hits := hits + 1;
      assert View() == Hit(setup, before, k);
      assert Sound(setup, View()) by { HitKeepsSound(setup, before, k); }
    }

    /** Copies the slice from the mapped file. */
    method CopyMapped(at: nat, off: nat, bytes: nat)
      requires at + bytes <= window.Length && off + bytes <= |setup.content|
      modifies window
      ensures window[..] == Store(old(window[..]), at, setup.content[off..off + bytes])
    {
      for i := 0 to bytes
        invariant window[..] == Store(old(window[..]), at, setup.content[off..off + i])
      {
        window[at + i] := setup.content[off + i];
      }
    }

    /** The direct backend can read this tensor: the file is open and the tensor starts on a page. */
    predicate CanRead(t: nat)
      reads file
    {
      file.isOpen && t < |setup.tensors| && Aligned(setup.tensors[t].source)
    }

    /** Fills an absent slice. A failed fill may leave junk behind, but only where nothing is resident.
        `hardError` says that the device failed the read. */
    method FillSlice(k: Key, backend: Backend, interrupts: nat) returns (ok: bool, ghost hardError: bool)
      requires Valid() && setup.HasKey(k) && k !in table
      modifies window
      ensures Valid()
      ensures ok ==> window[..] == Fill(setup, old(window[..]), k)
      ensures ok ==>
        var g := setup.tensors[k.tensor];
        var at, from := g.window + k.expert * g.slice, g.source + k.expert * g.slice;
        0 <= at && at + g.slice <= window.Length && 0 <= from && from + g.slice <= |setup.content|
        && window[at..at + g.slice] == setup.content[from..from + g.slice]
      ensures ok <==> backend == Mapped || (CanRead(k.tensor) && !hardError)
      ensures forall x :: setup.HasKey(x) && x != k && Served(setup, old(window[..]), x) ==> Served(setup, window[..], x)
    {
      ghost var before := window[..];
      ok, hardError := FillFrom(k, backend, interrupts);
      if ok {
        FillServes(setup, before, k);
        ServedHere(k);
      }
    }

    method FillFrom(k: Key, backend: Backend, interrupts: nat) returns (ok: bool, ghost hardError: bool)
      requires Valid() && setup.HasKey(k) && k !in table
      modifies window
      ensures Valid()
      ensures ok ==> window[..] == Fill(setup, old(window[..]), k)
      ensures ok <==> backend == Mapped || (CanRead(k.tensor) && !hardError)
      ensures forall x :: setup.HasKey(x) && x != k && Served(setup, old(window[..]), x) ==> Served(setup, window[..], x)
    {
      SliceBounds(setup, k);
      ghost var before := View();
      var at, off, bytes := setup.Addr(k), setup.Off(k), setup.Size(k);
      match backend {
        case Mapped =>
          CopyMapped(at, off, bytes);
          StoreOnlyWithin(before.win, at, setup.Data(k), bytes);
          ok, hardError := true, false;
        case Direct =>
          OffAlignedIff(setup, k);
          ok, hardError := file.ReadAligned(window, at, bytes, off, interrupts);
          assert ok ==> Slice(file.content, off, bytes) == setup.Data(k);
      }
      JunkKeepsSound(setup, before, window[..], k);
      assert View() == before.(win := window[..]);
    }

    /** What it means, in terms of window and file, that a slice is served. */
    lemma {:induction false} ServedHere(k: Key)
      requires Valid() && setup.HasKey(k) && Served(setup, window[..], k)
      ensures
        var g := setup.tensors[k.tensor];
        var at, from := g.window + k.expert * g.slice, g.source + k.expert * g.slice;
        0 <= at && at + g.slice <= window.Length && 0 <= from && from + g.slice <= |setup.content|
        && window[at..at + g.slice] == setup.content[from..from + g.slice]
    {
      var g := setup.tensors[k.tensor];
      var at, from := g.window + k.expert * g.slice, g.source + k.expert * g.slice;
      ServedMeans(setup, window[..], k, g, at, from);
      assert window[..][at..at + g.slice] == window[at..at + g.slice];
    }

    /** One request. `aborted` stands for the process ending because a fill failed. */
    method TouchLocked(k: Key, backend: Backend, interrupts: nat)
      returns (hit: bool, aborted: bool, ghost hardError: bool)
      requires Valid() && setup.HasKey(k)
      modifies this, window
      ensures Valid()
      ensures !aborted ==> View() == TouchOne(setup, old(View()), k)
      ensures !aborted ==>
        var g := setup.tensors[k.tensor];
        var at, from := g.window + k.expert * g.slice, g.source + k.expert * g.slice;
        0 <= at && at + g.slice <= window.Length && 0 <= from && from + g.slice <= |setup.content|
        && window[at..at + g.slice] == setup.content[from..from + g.slice]
      ensures hit <==> k in old(table)
      ensures !aborted ==> hits == old(hits) + (if hit then 1 else 0) && misses == old(misses) + (if hit then 0 else 1)
      ensures !aborted ==> bytesLoaded == old(bytesLoaded) + (if hit then 0 else setup.tensors[k.tensor].slice)
      ensures aborted <==> !hit && backend == Direct && !(CanRead(k.tensor) && !hardError)
      ensures aborted ==> k !in table
    {
      ghost var before := View();
      hit, aborted, hardError := HitOrMiss(k, backend, interrupts);
      if !aborted {
        TouchOneCounts(setup, before, k, hit, View());
        ServedHere(k);
      }
    }

    method HitOrMiss(k: Key, backend: Backend, interrupts: nat) returns (hit: bool, aborted: bool, ghost hardError: bool)
      requires Valid() && setup.HasKey(k)
      modifies this, window
      ensures Valid()
      ensures !aborted ==> View() == TouchOne(setup, old(View()), k)
      ensures hit <==> k in old(table)
      ensures aborted <==> !hit && backend == Direct && !(CanRead(k.tensor) && !hardError)
      ensures aborted ==> k !in table
    {
      hit, aborted, hardError := k in table, false, false;
      if hit { HitLocked(k); } else { aborted, hardError := MissLocked(k, backend, interrupts); }
    }

    method MissLocked(k: Key, backend: Backend, interrupts: nat) returns (aborted: bool, ghost hardError: bool)
      requires Valid() && setup.HasKey(k) && k !in table
      modifies this, window
      ensures Valid()
      ensures !aborted ==> View() == TouchOne(setup, old(View()), k)
      ensures aborted <==> backend == Direct && !(CanRead(k.tensor) && !hardError)
      ensures aborted ==> k !in table
    {
      ghost var before := View();
      TouchOneFacts(setup, before, k);
      MakeRoomForFacts(setup, before, setup.Size(k));
      MakeRoomLocked(setup.Size(k));
      ghost var room := View();
      var ok;
      ok, hardError := FillFrom(k, backend, interrupts);
      if !ok { return true, hardError; }
      FillServes(setup, room.win, k);
      misses := misses + 1;
      bytesLoaded := bytesLoaded + setup.Size(k);
      ghost var filled := View();
      assert filled == room.(lru := CountMiss(room.lru, setup.Size(k)), win := Fill(setup, room.win, k));
      CommitLocked(k, setup.Addr(k), setup.Size(k));
      aborted := false;
    }

    ghost predicate ValidRequest(t: nat, ids: seq<int>) {
      t < |setup.tensors| && forall e :: e in ids ==> 0 <= e < setup.tensors[t].experts
    }

    /** Some element, as a hash set's iterator yields it. */
    static method Pick(s: set<int>) returns (e: int)
      requires s != {}
      ensures e in s
    {
      assert (forall x :: x !in s) ==> s == {};
      assert exists x :: x in s;
      e :| e in s;
    }

    /** Deduplicates a request through a hash set, whose iteration order is arbitrary. */
    method Dedup(t: nat, ids: seq<int>) returns (ks: seq<Key>)
      requires ValidRequest(t, ids)
      ensures Enumerates(ks, t, ids) && AllKeys(setup, ks) && |ks| <= |ids|
    {
      var uniq: set<int> := {};
      for i := 0 to |ids|
        invariant |uniq| <= i && forall e :: e in uniq <==> e in ids[..i]
      {
        assert ids[..i + 1] == ids[..i] + [ids[i]];
        uniq := uniq + {ids[i]};
      }
      assert ids[..|ids|] == ids;
      ks := [];
      var rest := uniq;
      while rest != {}
        invariant rest <= uniq && |ks| + |rest| == |uniq| && Distinct(ks)
        invariant forall k :: k in ks <==> k.tensor == t && k.expert in uniq - rest
        decreases rest
      {
        var e := Pick(rest);
        rest := rest - {e};
        ks := ks + [Key(t, e)];
      }
    }

    method CountMisses(n: nat, bytes: nat)
      requires Valid()
      modifies this`misses, this`bytesLoaded
      ensures Valid()
      ensures var lru := old(View()).lru;
        View() == old(View()).(lru := lru.(misses := lru.misses + n, missBytes := lru.missBytes + bytes))
    {
      ghost var before := View();
      misses := misses + n;
      bytesLoaded := bytesLoaded + bytes;
      assert View() == before.(lru := before.lru.(misses := before.lru.misses + n, missBytes := before.lru.missBytes + bytes));
    }

    /** Serves the distinct keys of a request one by one. */
    method TouchEach(ks: seq<Key>, duplicates: nat, ghost start: View) returns (missed: nat)
      requires Valid() && AllKeys(setup, ks) && start == View().(deduped := deduped + duplicates)
      modifies this, window
      ensures Valid() && Sound(setup, start) && View() == TouchMany(setup, start, ks)
      ensures missed == misses - old(misses)
    {
      deduped := deduped + duplicates;
      missed := 0;
      for i := 0 to |ks|
        invariant Valid() && Sound(setup, start) && View() == TouchMany(setup, start, ks[..i])
        invariant missed == misses - old(misses)
      {
        assert ks[..i + 1][..i] == ks[..i];
        ghost var hardError;
        var hit, aborted;
        hit, aborted, hardError := TouchLocked(ks[i], Mapped, 0);
        missed := missed + (if hit then 0 else 1);
      }
      assert ks[..|ks|] == ks;
    }

    /** Deduplicated batch served from the mapped file. `ks` is the order in which it was visited. */
    method TouchBatch(t: nat, ids: seq<int>) returns (missed: nat, ghost ks: seq<Key>)
      requires Valid() && ValidRequest(t, ids)
      modifies this, window
      ensures Valid() && Enumerates(ks, t, ids) && |ks| <= |ids| && AllKeys(setup, ks)
      ensures var start := old(View()).(deduped := |ids| - |ks| + old(deduped));
        Sound(setup, start) && View() == TouchMany(setup, start, ks)
      ensures missed == misses - old(misses)
      ensures Requests(View()) == old(Requests(View())) + |ids|
      ensures |Ids(ids)| * setup.tensors[t].slice <= setup.cap ==> forall e :: e in ids ==> Key(t, e) in table
      ensures |Ids(ids)| * setup.tensors[t].slice <= setup.cap ==> forall e :: e in ids ==>
        var g := setup.tensors[t];
        var at, from := g.window + e * g.slice, g.source + e * g.slice;
        0 <= at && at + g.slice <= window.Length && 0 <= from && from + g.slice <= |setup.content|
        && window[at..at + g.slice] == setup.content[from..from + g.slice]
    {
      ghost var before := View();
      var order := Dedup(t, ids);
      ks := order;
      ghost var start := before.(deduped := |ids| - |ks| + before.deduped);
      assert Requests(start) == Requests(before) + |ids| - |ks|;
      missed := TouchEach(order, |ids| - |order|, start);
      BatchOutcome(setup, start, ks, t, ids, View());
      EnumeratesCount(ks, t, ids);
      ServedIfFits(t, ids, |ks|);
    }

    /** Every requested slice is on record and in its place, provided that they all fit. */
    lemma {:induction false} ServedIfFits(t: nat, ids: seq<int>, n: nat)
      requires Valid() && ValidRequest(t, ids)
      requires Bulk(n, setup.tensors[t].slice) <= setup.cap ==> ServesAll(setup, View(), t, ids)
      ensures n * setup.tensors[t].slice <= setup.cap ==> forall e :: e in ids ==> Key(t, e) in table
      ensures n * setup.tensors[t].slice <= setup.cap ==> forall e :: e in ids ==>
        var g := setup.tensors[t];
        var at, from := g.window + e * g.slice, g.source + e * g.slice;
        0 <= at && at + g.slice <= window.Length && 0 <= from && from + g.slice <= |setup.content|
        && window[at..at + g.slice] == setup.content[from..from + g.slice]
    {
      BulkIsProduct(n, setup.tensors[t].slice);
      if n * setup.tensors[t].slice <= setup.cap {
        forall e | e in ids
          ensures Key(t, e) in table
          ensures
            var g := setup.tensors[t];
            var at, from := g.window + e * g.slice, g.source + e * g.slice;
            0 <= at && at + g.slice <= window.Length && 0 <= from && from + g.slice <= |setup.content|
            && window[at..at + g.slice] == setup.content[from..from + g.slice]
        {
          ServedHere(Key(t, e));
        }
      }
    }

    /** First phase of the offset-source batch: refresh hits, make room for misses. */
    method ClassifyLocked(ks: seq<Key>) returns (missed: seq<Key>)
      requires Valid() && AllKeys(setup, ks)
      modifies this, window
      ensures Valid() && (View(), missed) == Classify(setup, old(View()), ks)
    {
      missed := [];
      for i := 0 to |ks|
        invariant Valid() && (View(), missed) == Classify(setup, old(View()), ks[..i])
      {
        assert ks[..i + 1][..i] == ks[..i];
        if ks[i] in table {
          HitLocked(ks[i]);
        } else {
          MakeRoomLocked(setup.Size(ks[i]));
          missed := missed + [ks[i]];
        }
      }
      assert ks[..|ks|] == ks;
    }

    /** Fills in list order on the calling thread. */
    method FillInline(missed: seq<Key>, ghost t: nat) returns (ok: bool, ghost hardError: bool)
      requires Valid() && AllKeys(setup, missed) && Distinct(missed)
      requires forall k :: k in missed ==> k !in table && k.tensor == t
      modifies window
      ensures Valid()
      ensures ok ==> window[..] == FillAll(setup, old(window[..]), missed)
      ensures missed != [] ==> (ok <==> CanRead(t) && !hardError)
    {
      hardError := false;
      for i := 0 to |missed|
        invariant Valid() && window[..] == FillAll(setup, old(window[..]), missed[..i])
        invariant !hardError && (i > 0 ==> CanRead(t))
      {
        var patience: nat := *;
        assert missed[..i + 1][..i] == missed[..i];
        ok, hardError := FillSlice(missed[i], Direct, patience);
        if !ok { return; }
      }
      assert missed[..|missed|] == missed;
      ok := true;
    }

    /** Fills across lanes: every job runs, in whatever order the lanes reach it. */
    method FillAcrossLanes(missed: seq<Key>, ghost t: nat) returns (ok: bool, ghost hardError: bool)
      requires Valid() && AllKeys(setup, missed) && Distinct(missed)
      requires forall k :: k in missed ==> k !in table && k.tensor == t
      modifies window
      ensures Valid()
      ensures ok ==> window[..] == FillAll(setup, old(window[..]), missed)
      ensures missed != [] ==> (ok <==> CanRead(t) && !hardError)
    {
      ok, hardError := true, false;
      var jobs := Elements(missed);
      DistinctCount(missed);
      ghost var done: seq<Key> := [];
      while jobs != {}
        invariant Valid() && |done| + |jobs| == |missed| && Distinct(done) && AllKeys(setup, done)
        invariant forall k :: k in missed <==> k in jobs || k in done
        invariant forall k :: k in done ==> k !in jobs
        invariant ok ==> window[..] == FillAll(setup, old(window[..]), done)
        invariant ok <==> done == [] || (CanRead(t) && !hardError)
        invariant done == [] ==> !hardError
        decreases jobs
      {
        var k :| k in jobs;
        jobs := jobs - {k};
        var patience: nat := *;
        var good;
        ghost var failed;
        good, failed := FillSlice(k, Direct, patience);
        ok := ok && good;
        hardError := hardError || failed;
        assert (done + [k])[..|done|] == done;
        done := done + [k];
      }
      FillOrderIrrelevant(setup, old(window[..]), missed, done);
    }

    /** Records every filled slice. */
    method CommitFilled(missed: seq<Key>)
      requires Valid() && AllKeys(setup, missed) && Distinct(missed)
      requires forall k :: k in missed ==> k !in table && Served(setup, window[..], k)
      modifies this
      ensures Valid() && View() == CommitAll(setup, old(View()), missed)
    {
      assert missed[..0] == [];
      for i := 0 to |missed|
        invariant Valid() && View() == CommitAll(setup, old(View()), missed[..i])
        invariant forall j :: i <= j < |missed| ==> missed[j] !in table
      {
        assert missed[..i + 1][..i] == missed[..i];
        InsertWf(View().lru, missed[i], setup.Size(missed[i]), setup.cap, setup.Sizes());
        CommitLocked(missed[i], setup.Addr(missed[i]), setup.Size(missed[i]));
      }
      assert missed[..|missed|] == missed;
    }

    /** Second and third phase: fill every missed slice, then record them all. */
    method FillAndCommit(missed: seq<Key>, lanes: bool, ghost t: nat) returns (ok: bool, ghost hardError: bool)
      requires Valid() && AllKeys(setup, missed) && Distinct(missed) && missed != []
      requires forall k :: k in missed ==> k !in table && k.tensor == t
      modifies this, window
      ensures Valid()
      ensures ok <==> CanRead(t) && !hardError
      ensures ok ==> View() == CommitAll(setup, old(View()).(win := FillAll(setup, old(window[..]), missed)), missed)
    {
      ghost var before := View();
      if lanes { ok, hardError := FillAcrossLanes(missed, t); } else { ok, hardError := FillInline(missed, t); }
      if !ok { return; }
      forall k | k in missed ensures Served(setup, window[..], k) {
        FillAllServes(setup, before.win, missed, k);
      }
      assert View() == before.(win := FillAll(setup, before.win, missed));
      CommitFilled(missed);
    }

    /** Offset-source batch: all evictions first, then all fills, then all commits.
        `aborted` stands for the process ending because a fill failed. */
    method TouchBatchAt(t: nat, ids: seq<int>, lanes: bool)
      returns (count: nat, aborted: bool, ghost ks: seq<Key>, ghost hardError: bool, ghost start: View)
      requires Valid() && ValidRequest(t, ids)
      modifies this, window
      ensures Valid() && Enumerates(ks, t, ids) && |ks| <= |ids| && AllKeys(setup, ks)
      ensures start == old(View()).(deduped := |ids| - |ks| + old(deduped))
      ensures aborted <==> Misses(setup, start, ks) && !(CanRead(t) && !hardError)
      ensures !aborted ==> BatchDone(setup, start, ks, t, ids, View(), count)
      ensures !aborted ==> Requests(View()) == old(Requests(View())) + |ids|
      ensures !aborted && count > 0 ==> used <= setup.cap + (count - 1) * setup.tensors[t].slice
      ensures !aborted && |Ids(ids)| * setup.tensors[t].slice <= setup.cap ==> forall e :: e in ids ==> Key(t, e) in table
      ensures !aborted && |Ids(ids)| * setup.tensors[t].slice <= setup.cap ==> forall e :: e in ids ==>
        var g := setup.tensors[t];
        var at, from := g.window + e * g.slice, g.source + e * g.slice;
        0 <= at && at + g.slice <= window.Length && 0 <= from && from + g.slice <= |setup.content|
        && window[at..at + g.slice] == setup.content[from..from + g.slice]
    {
      ghost var before := View();
      var order := Dedup(t, ids);
      ks := order;
      start := before.(deduped := |ids| - |ks| + before.deduped);
      assert Requests(start) == Requests(before) + |ids| - |ks|;
      count, aborted, hardError := ServeDistinct(t, ids, order, |ids| - |order|, lanes, start);
      if !aborted {
        EnumeratesCount(ks, t, ids);
        ServedIfFits(t, ids, |ks|);
        if count > 0 { BulkIsProduct(count - 1, setup.tensors[t].slice); }
      }
    }

    method ServeDistinct(t: nat, ghost ids: seq<int>, ks: seq<Key>, duplicates: nat, lanes: bool, ghost start: View)
      returns (count: nat, aborted: bool, ghost hardError: bool)
      requires Valid() && AllKeys(setup, ks) && Enumerates(ks, t, ids) && t < |setup.tensors|
      requires start == View().(deduped := duplicates + deduped)
      modifies this, window
      ensures Valid()
      ensures aborted <==> Misses(setup, start, ks) && !(CanRead(t) && !hardError)
      ensures !aborted ==> BatchDone(setup, start, ks, t, ids, View(), count) && Requests(View()) == Requests(start) + |ks|
    {
      deduped := duplicates + deduped;
      assert View() == start;
      count, aborted, hardError := ThreePhases(ks, setup.tensors[t].slice, lanes, t);
      if !aborted {
        BatchAtOutcome(setup, start, ks, t, ids, View(), count);
      }
    }

    method ThreePhases(ks: seq<Key>, slice: nat, lanes: bool, ghost t: nat)
      returns (count: nat, aborted: bool, ghost hardError: bool)
      requires Valid() && AllKeys(setup, ks) && Distinct(ks) && t < |setup.tensors| && forall k :: k in ks ==> k.tensor == t
      modifies this, window
      ensures Valid()
      ensures aborted <==> Misses(setup, old(View()), ks) && !(CanRead(t) && !hardError)
      ensures !aborted ==> View() == Batches.TouchBatchAt(setup, old(View()), ks, slice)
      ensures !aborted ==> count == |Classify(setup, old(View()), ks).1|
    {
      ghost var start := View();
      var missed := ClassifyLocked(ks);
      assert Distinct(missed) && forall k :: k in missed ==> k in ks && k !in lru by { ClassifyFacts(setup, start, ks); }
      assert forall k :: k in missed ==> k !in table && k.tensor == t;
      count, aborted, hardError := FinishBatch(missed, slice, lanes, t);
    }

    method FinishBatch(missed: seq<Key>, slice: nat, lanes: bool, ghost t: nat)
      returns (count: nat, aborted: bool, ghost hardError: bool)
      requires Valid() && AllKeys(setup, missed) && Distinct(missed)
      requires forall k :: k in missed ==> k !in table && k.tensor == t
      modifies this, window
      ensures Valid()
      ensures aborted <==> missed != [] && !(CanRead(t) && !hardError)
      ensures !aborted ==> View() == Finish(setup, old(View()), missed, slice) && count == |missed|
    {
      ghost var start := View();
      if missed == [] {
        assert View() == Finish(setup, start, missed, slice);
        return 0, false, false;
      }
      var ok;
      ok, hardError := FillAndCommit(missed, lanes, t);
      if !ok { return 0, true, hardError; }
      CountMisses(|missed|, Bulk(|missed|, slice));
      return |missed|, false, hardError;
    }
  }

  lemma {:induction false} WithoutLast(order: seq<Key>, k: Key)
    requires Distinct(order) && order != [] && order[|order| - 1] == k
    ensures Without(order, k) == order[..|order| - 1]
  {
    var i := WithoutSplit(order, k);
    assert i == |order| - 1;
  }
}
