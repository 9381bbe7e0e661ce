/** What the conversation store does, on values: slots that hold exclusive lanes, and the evictions
    that make place for a new conversation. */
module Lanes {
  import opened Sets
  import opened Decoding
  import opened Sessions

  type Slots = map<Id, Slot>

  /** Slots by conversation id, which lanes are free, what every lane holds, and the use counter. */
  datatype View = View(slots: Slots, free: seq<bool>, kv: seq<seq<Token>>, tick: int)

  function CountFree(free: seq<bool>): nat {
    if free == [] then 0 else CountFree(free[..|free| - 1]) + (if free[|free| - 1] then 1 else 0)
  }

  lemma {:induction false} CountFreeUpdate(free: seq<bool>, l: nat, b: bool)
    requires l < |free|
    ensures CountFree(free[l := b]) == CountFree(free) - (if free[l] then 1 else 0) + (if b then 1 else 0)
  {
    var n := |free| - 1;
    if l == n {
      assert free[l := b][..n] == free[..n];
    } else {
      assert free[l := b][..n] == free[..n][l := b];
      CountFreeUpdate(free[..n], l, b);
    }
  }

  lemma {:induction false} CountFreeZero(free: seq<bool>)
    ensures CountFree(free) == 0 <==> forall l :: 0 <= l < |free| ==> !free[l]
    ensures CountFree(free) <= |free|
  {
    if free != [] {
      CountFreeZero(free[..|free| - 1]);
      assert forall l :: 0 <= l < |free| - 1 ==> free[..|free| - 1][l] == free[l];
    }
  }

  lemma {:induction false} CountAllFree(free: seq<bool>)
    requires forall l :: 0 <= l < |free| ==> free[l]
    ensures CountFree(free) == |free|
  {
    if free != [] { CountAllFree(free[..|free| - 1]); }
  }

  ghost predicate SlotOk(v: View, id: Id) {
    id in v.slots && v.slots[id].id == id && 0 <= v.slots[id].lane < |v.free| == |v.kv|
    && !v.free[v.slots[id].lane] && v.slots[id].lastTick <= v.tick
  }

  /** Two conversations share neither a lane nor a use stamp. */
  ghost predicate Apart(v: View, id: Id, other: Id)
    requires id in v.slots && other in v.slots
  {
    v.slots[id].lane != v.slots[other].lane && v.slots[id].lastTick != v.slots[other].lastTick
  }

  ghost predicate HolderOf(v: View, l: nat, id: Id) {
    id in v.slots && v.slots[id].lane == l
  }

  /** A free lane is empty; any other lane is held by a slot. */
  ghost predicate LaneOk(v: View, l: nat)
    requires l < |v.free| == |v.kv|
  {
    if v.free[l] then v.kv[l] == [] else exists id :: HolderOf(v, l, id)
  }

  /** Live slots hold distinct lanes, a lane is free iff no slot holds it, free lanes are empty, and
      use stamps are distinct. */
  ghost predicate Sound(v: View) {
    && |v.free| == |v.kv|
    && |v.slots| + CountFree(v.free) == |v.free|
    && (forall id {:trigger SlotOk(v, id)} :: id in v.slots ==> SlotOk(v, id))
    && (forall id, other {:trigger Apart(v, id, other)} ::
          id in v.slots && other in v.slots && id != other ==> Apart(v, id, other))
    && (forall l: nat {:trigger LaneOk(v, l)} :: l < |v.free| ==> LaneOk(v, l))
  }

  /** Every ledger as long as its lane is its lane. */
  ghost predicate LedgersSynced(v: View) {
    forall id {:trigger LedgerOk(v, id)} :: id in v.slots ==> LedgerOk(v, id)
  }

  ghost predicate LedgerOk(v: View, id: Id) {
    SlotOk(v, id) && Synced(v.slots[id].ledger, v.kv[v.slots[id].lane])
  }

  function OwnedBy(slots: Slots, owner: Owner): set<Id> {
    set id | id in slots && slots[id].owner == owner
  }

  /** No named owner holds more slots than the per-user cap; a cap of 0 is none. */
  ghost predicate WithinCap(slots: Slots, cap: nat) {
    cap > 0 ==> forall owner :: owner != Nobody ==> |OwnedBy(slots, owner)| <= cap
  }

  ghost predicate AllOwned(slots: Slots) {
    forall id :: id in slots ==> slots[id].owner != Nobody
  }

  /** The request adopts an anonymous slot for an owner that is at the cap already. */
  ghost predicate AdoptsAtCap(slots: Slots, id: Id, owner: Owner, cap: nat) {
    && id in slots && slots[id].owner == Nobody && owner != Nobody
    && cap > 0 && |OwnedBy(slots, owner)| == cap
  }

  // ---------------------------------------------------------------- who was used last

  /** Position of the last request for `id`, or -1. */
  ghost function LastUse(history: seq<Id>, id: Id): (k: int)
    ensures -1 <= k < |history| && (k >= 0 ==> history[k] == id)
    ensures forall i :: k < i < |history| ==> history[i] != id
  {
    if history == [] then -1
    else
      var n := |history| - 1;
      if history[n] == id then n else LastUse(history[..n], id)
  }

  ghost predicate SameOrder(slots: Slots, history: seq<Id>, a: Id, b: Id)
    requires a in slots && b in slots
  {
    slots[a].lastTick < slots[b].lastTick <==> LastUse(history, a) < LastUse(history, b)
  }

  /** Use stamps order the slots as the granted requests `history` did. */
  ghost predicate Ordered(slots: Slots, history: seq<Id>) {
    && (forall id :: id in slots ==> LastUse(history, id) >= 0)
    && forall a, b {:trigger SameOrder(slots, history, a, b)} :: a in slots && b in slots ==> SameOrder(slots, history, a, b)
  }

  lemma {:induction false} LastUseAfter(history: seq<Id>, id: Id, x: Id)
    ensures LastUse(history + [id], x) == if x == id then |history| else LastUse(history, x)
  {
    assert (history + [id])[..|history|] == history;
  }

  /** The slot of `id` was used later than any other. */
  ghost predicate MostRecent(slots: Slots, id: Id) {
    id in slots && forall x :: x in slots && x != id ==> slots[x].lastTick < slots[id].lastTick
  }

  /** Removing slots or changing anything but their stamps keeps the order; so does a use that gives the latest
      stamp. */
  lemma {:induction false} OrderKept(before: Slots, after: Slots, history: seq<Id>)
    requires Ordered(before, history)
    requires forall x :: x in after ==> x in before && after[x].lastTick == before[x].lastTick
    ensures Ordered(after, history)
  {
    forall a, b | a in after && b in after ensures SameOrder(after, history, a, b) { assert SameOrder(before, history, a, b); }
  }

  lemma {:induction false} OrderExtended(before: Slots, after: Slots, history: seq<Id>, id: Id)
    requires Ordered(before, history) && MostRecent(after, id)
    requires forall x :: x in after && x != id ==> x in before && after[x].lastTick == before[x].lastTick
    ensures Ordered(after, history + [id])
  {
    forall x ensures LastUse(history + [id], x) == if x == id then |history| else LastUse(history, x) {
      LastUseAfter(history, id, x);
    }
    forall a, b | a in after && b in after ensures SameOrder(after, history + [id], a, b) {
      if a != id && b != id { assert SameOrder(before, history, a, b); }
    }
  }

  /** Conversations other than `id` that are still there are as they were, and so are their lanes. */
  ghost predicate OthersKept(v: View, r: View, id: Id) {
    |r.kv| == |v.kv| && forall x :: x in r.slots && x != id ==>
      x in v.slots && r.slots[x] == v.slots[x] && 0 <= r.slots[x].lane < |v.kv| && r.kv[r.slots[x].lane] == v.kv[r.slots[x].lane]
  }

  /** Who had to go for the new slot of `id`. An owner that holds as many slots as it may, or more, loses those of
      its own whose last requests lie furthest back, and keeps one less than it may hold. Otherwise, if the store is
      full or no lane is free, the one of all conversations goes whose last request lies furthest back, and if
      neither is the case nobody goes. */
  ghost predicate MadePlace(before: Slots, after: Slots, id: Id, owner: Owner, cap: nat, maxSlots: nat, lanes: nat,
                            history: seq<Id>)
  {
    var own := OwnedBy(before, owner);
    if owner != Nobody && cap > 0 && |own| >= cap then
      Displaced(before.Keys, after.Keys, id, own, |own| - cap + 1, history)
    else
      Displaced(before.Keys, after.Keys, id, before.Keys, if |before| == maxSlots || |before| == lanes then 1 else 0, history)
  }

  lemma {:induction false} OwnedByMeans(slots: Slots, owner: Owner, id: Id)
    ensures id in OwnedBy(slots, owner) <==> id in slots && slots[id].owner == owner
  {
  }

  /** `id` has come, and those `n` of `scope` have gone whose last requests lie furthest back. */
  ghost predicate Displaced(before: set<Id>, after: set<Id>, id: Id, scope: set<Id>, n: nat, history: seq<Id>) {
    var gone := before - after;
    LongestUnused(scope, history, gone) && |gone| == n && after == before - gone + {id}
  }

  /** The last requests of all of `gone` lie further back than those of the rest of `scope`. */
  ghost predicate LongestUnused(scope: set<Id>, history: seq<Id>, gone: set<Id>) {
    gone <= scope && forall x, y :: x in gone && y in scope && y !in gone ==> LastUse(history, x) < LastUse(history, y)
  }

  /** The same in terms of use stamps. */
  ghost predicate LeastStamps(slots: Slots, scope: set<Id>, gone: set<Id>)
    requires scope <= slots.Keys
  {
    gone <= scope && forall x, y :: x in gone && y in scope && y !in gone ==> slots[x].lastTick <= slots[y].lastTick
  }

  lemma {:induction false} StampsAreUses(slots: Slots, history: seq<Id>, scope: set<Id>, gone: set<Id>)
    requires Ordered(slots, history) && scope <= slots.Keys && LeastStamps(slots, scope, gone)
    ensures LongestUnused(scope, history, gone)
  {
    forall x, y | x in gone && y in scope && y !in gone ensures LastUse(history, x) < LastUse(history, y) {
      assert SameOrder(slots, history, y, x);
    }
  }

  // ---------------------------------------------------------------- single changes

  /** The slot is gone; its lane is emptied and free again. */
  function Evict(v: View, id: Id): View
    requires SlotOk(v, id)
  {
    var lane := v.slots[id].lane;
    v.(slots := v.slots - {id}, free := v.free[lane := true], kv := v.kv[lane := []])
  }

  /** A new slot on a free lane, stamped as most recently used. */
  function Create(v: View, id: Id, owner: Owner, lane: nat): View
    requires lane < |v.free|
  {
    v.(slots := v.slots[id := Slot(id, owner, [], lane, v.tick + 1)], free := v.free[lane := false], tick := v.tick + 1)
  }

  /** An existing slot is used again, and adopted if nobody owned it. */
  function Reuse(v: View, id: Id, owner: Owner): View
    requires id in v.slots
  {
    var s := v.slots[id];
    v.(slots := v.slots[id := s.(owner := if owner != Nobody && s.owner == Nobody then owner else s.owner, lastTick := v.tick + 1)],
       tick := v.tick + 1)
  }

  lemma {:induction false} EvictSound(v: View, id: Id)
    requires Sound(v) && id in v.slots
    ensures SlotOk(v, id) && Sound(Evict(v, id))
    ensures |Evict(v, id).slots| == |v.slots| - 1 && CountFree(Evict(v, id).free) == CountFree(v.free) + 1
    ensures LedgersSynced(v) ==> LedgersSynced(Evict(v, id))
  {
    assert SlotOk(v, id);
    var r := Evict(v, id);
    CountFreeUpdate(v.free, v.slots[id].lane, true);
    forall other | other in r.slots ensures SlotOk(r, other) && (LedgerOk(v, other) ==> LedgerOk(r, other)) {
      assert SlotOk(v, other) && Apart(v, id, other);
    }
    forall a, b | a in r.slots && b in r.slots && a != b ensures Apart(r, a, b) { assert Apart(v, a, b); }
    forall l: nat | l < |r.free| ensures LaneOk(r, l) {
      assert LaneOk(v, l);
      if !r.free[l] {
        var other :| HolderOf(v, l, other);
        assert HolderOf(r, l, other);
      }
    }
  }

  lemma {:induction false} CreateSound(v: View, id: Id, owner: Owner, lane: nat)
    requires Sound(v) && id !in v.slots && lane < |v.free| && v.free[lane]
    ensures Sound(Create(v, id, owner, lane))
    ensures |Create(v, id, owner, lane).slots| == |v.slots| + 1
    ensures LedgersSynced(v) ==> LedgersSynced(Create(v, id, owner, lane))
  {
    var r := Create(v, id, owner, lane);
    CountFreeUpdate(v.free, lane, false);
    assert LaneOk(v, lane);
    forall other | other in r.slots
      ensures SlotOk(r, other) && (other != id ==> LedgerOk(v, other) ==> LedgerOk(r, other))
    {
      if other != id { assert SlotOk(v, other); }
    }
    forall a, b | a in r.slots && b in r.slots && a != b ensures Apart(r, a, b) {
      if a != id { assert SlotOk(v, a); }
      if b != id { assert SlotOk(v, b); }
      if a != id && b != id { assert Apart(v, a, b); }
    }
    forall l: nat | l < |r.free| ensures LaneOk(r, l) {
      assert LaneOk(v, l);
      if l == lane {
        assert HolderOf(r, l, id);
      } else if !r.free[l] {
        var other :| HolderOf(v, l, other);
        assert HolderOf(r, l, other);
      }
    }
  }

  /** Changing the ledger, owner or stamp of one slot, and the lane it holds, keeps the store sound. */
  lemma {:induction false} ChangeSound(v: View, r: View, id: Id, s: Slot)
    requires Sound(v) && SlotOk(v, id) && s.id == id && s.lane == v.slots[id].lane
    requires s.lastTick <= r.tick && v.tick <= r.tick && (s.lastTick == v.slots[id].lastTick || v.tick < s.lastTick)
    requires r.slots == v.slots[id := s] && r.free == v.free
    requires |r.kv| == |v.kv| && r.kv == v.kv[s.lane := r.kv[s.lane]]
    ensures Sound(r) && |r.slots| == |v.slots|
    ensures LedgersSynced(v) && Synced(s.ledger, r.kv[s.lane]) ==> LedgersSynced(r)
  {
    assert r.slots.Keys == v.slots.Keys;
    forall other | other in r.slots
      ensures SlotOk(r, other) && (other != id ==> LedgerOk(v, other) ==> LedgerOk(r, other))
    {
      assert SlotOk(v, other);
      if other != id { assert Apart(v, other, id); }
    }
    forall a, b | a in r.slots && b in r.slots && a != b ensures Apart(r, a, b) {
      assert Apart(v, a, b) && SlotOk(v, a) && SlotOk(v, b);
    }
    forall l: nat | l < |r.free| ensures LaneOk(r, l) {
      assert LaneOk(v, l);
      if !r.free[l] {
        var other :| HolderOf(v, l, other);
        assert HolderOf(r, l, other);
      }
    }
  }

  lemma {:induction false} ReuseSound(v: View, id: Id, owner: Owner)
    requires Sound(v) && id in v.slots
    ensures Sound(Reuse(v, id, owner)) && |Reuse(v, id, owner).slots| == |v.slots|
    ensures LedgersSynced(v) ==> LedgersSynced(Reuse(v, id, owner))
  {
    assert SlotOk(v, id);
    if LedgersSynced(v) { assert LedgerOk(v, id); }
    ChangeSound(v, Reuse(v, id, owner), id, Reuse(v, id, owner).slots[id]);
  }

  /** Adoption ignores the per-user cap: the new owner's count grows by one whatever it was. */
  lemma {:induction false} AdoptionCounts(v: View, id: Id, owner: Owner)
    requires id in v.slots && owner != Nobody && v.slots[id].owner == Nobody
    ensures |OwnedBy(Reuse(v, id, owner).slots, owner)| == |OwnedBy(v.slots, owner)| + 1
  {
    assert OwnedBy(Reuse(v, id, owner).slots, owner) == OwnedBy(v.slots, owner) + {id};
  }

  // ---------------------------------------------------------------- who is evicted

  /** `id` was used least recently among `scope`. */
  ghost predicate IsOldest(slots: Slots, scope: set<Id>, id: Id) {
    id in scope && scope <= slots.Keys && forall other :: other in scope ==> slots[id].lastTick <= slots[other].lastTick
  }

  lemma {:induction false} OldestExists(slots: Slots, scope: set<Id>)
    requires scope != {} && scope <= slots.Keys
    ensures exists id :: IsOldest(slots, scope, id)
    decreases scope
  {
    var some :| some in scope;
    if scope == {some} {
      assert IsOldest(slots, scope, some);
    } else {
      OldestExists(slots, scope - {some});
      var id :| IsOldest(slots, scope - {some}, id);
      assert IsOldest(slots, scope, if slots[some].lastTick < slots[id].lastTick then some else id);
    }
  }

  ghost function Oldest(slots: Slots, scope: set<Id>): (id: Id)
    requires scope != {} && scope <= slots.Keys
    ensures IsOldest(slots, scope, id)
  {
    OldestExists(slots, scope);
    var id :| IsOldest(slots, scope, id);
    id
  }

  /** Use stamps are distinct, so whatever order a scan takes it finds the same victim. */
  lemma {:induction false} OldestUnique(v: View, scope: set<Id>, id: Id)
    requires Sound(v) && IsOldest(v.slots, scope, id)
    ensures id == Oldest(v.slots, scope)
  {
    var oldest := Oldest(v.slots, scope);
    assert id != oldest ==> Apart(v, id, oldest);
  }

  ghost function EvictOldest(v: View, scope: set<Id>): (r: View)
    requires Sound(v) && scope != {} && scope <= v.slots.Keys
    ensures Sound(r) && |r.slots| == |v.slots| - 1 && |r.free| == |v.free|
  {
    var id := Oldest(v.slots, scope);
    EvictSound(v, id);
    Evict(v, id)
  }

  /** First the owner's own slots, for as long as the owner is at its cap. */
  ghost function EvictForOwner(v: View, owner: Owner, cap: nat): (r: View)
    requires Sound(v)
    ensures Sound(r) && |r.slots| <= |v.slots| && |r.free| == |v.free|
    decreases |v.slots|
  {
    if owner != Nobody && cap > 0 && |OwnedBy(v.slots, owner)| >= cap then
      EvictForOwner(EvictOldest(v, OwnedBy(v.slots, owner)), owner, cap)
    else v
  }

  /** Then anybody's, for as long as the store is full. */
  ghost function EvictForSpace(v: View, maxSlots: nat): (r: View)
    requires Sound(v) && maxSlots > 0
    ensures Sound(r) && |r.slots| < maxSlots && |r.slots| <= |v.slots| && |r.free| == |v.free|
    decreases |v.slots|
  {
    if |v.slots| >= maxSlots then EvictForSpace(EvictOldest(v, v.slots.Keys), maxSlots) else v
  }

  /** Finally one more if no lane is free. */
  ghost function EvictForLane(v: View): (r: View)
    requires Sound(v) && |v.free| > 0
    ensures Sound(r) && CountFree(r.free) > 0 && |r.slots| <= |v.slots| && |r.free| == |v.free|
  {
    if CountFree(v.free) == 0 then
      EvictSound(v, Oldest(v.slots, v.slots.Keys));
      EvictOldest(v, v.slots.Keys)
    else v
  }

  ghost function MakePlace(v: View, owner: Owner, cap: nat, maxSlots: nat): (r: View)
    requires Sound(v) && maxSlots > 0 && |v.free| > 0
    ensures Sound(r) && |r.slots| < maxSlots && CountFree(r.free) > 0 && |r.free| == |v.free|
  {
    EvictForLane(EvictForSpace(EvictForOwner(v, owner, cap), maxSlots))
  }

  /** `r` is `v` after removing slots; the others are untouched. */
  ghost predicate Shrunk(v: View, r: View) {
    r.slots.Keys <= v.slots.Keys && (forall id :: id in r.slots ==> r.slots[id] == v.slots[id]) && r.tick == v.tick
    && |r.kv| == |v.kv|
    && (forall id :: id in r.slots ==> 0 <= r.slots[id].lane < |v.kv| && r.kv[r.slots[id].lane] == v.kv[r.slots[id].lane])
    && (LedgersSynced(v) ==> LedgersSynced(r))
  }

  lemma {:induction false} EvictShrinks(v: View, id: Id)
    requires Sound(v) && id in v.slots
    ensures SlotOk(v, id) && Shrunk(v, Evict(v, id))
  {
    EvictSound(v, id);
    forall x | x in v.slots && x != id ensures 0 <= v.slots[x].lane < |v.kv| && v.slots[x].lane != v.slots[id].lane {
      assert SlotOk(v, x) && Apart(v, x, id);
    }
  }

  /** The slot of `id` is gone, its lane is empty and free, and nothing else has changed. */
  ghost predicate SlotGone(v: View, r: View, id: Id) {
    && r.slots == v.slots - {id} && r.tick == v.tick && |r.free| == |v.free| == |v.kv| == |r.kv|
    && forall l :: 0 <= l < |r.free| ==>
      var gone := id in v.slots && v.slots[id].lane == l;
      r.free[l] == (v.free[l] || gone) && r.kv[l] == if gone then [] else v.kv[l]
  }

  /** The change keeps what all ledgers, caps and owners promise. */
  ghost predicate KeepsAll(v: View, r: View, cap: nat) {
    && (LedgersSynced(v) ==> LedgersSynced(r)) && (WithinCap(v.slots, cap) ==> WithinCap(r.slots, cap))
    && (AllOwned(v.slots) ==> AllOwned(r.slots))
  }

  lemma {:induction false} EvictMeans(v: View, id: Id, cap: nat)
    requires Sound(v) && id in v.slots
    ensures SlotOk(v, id) && SlotGone(v, Evict(v, id), id) && KeepsAll(v, Evict(v, id), cap)
  {
    var r := Evict(v, id);
    EvictShrinks(v, id);
    forall o ensures |OwnedBy(r.slots, o)| <= |OwnedBy(v.slots, o)| { OwnedShrinks(v, r, o); }
  }

  lemma {:induction false} NothingShrinks(v: View)
    requires Sound(v)
    ensures Shrunk(v, v)
  {
    forall x | x in v.slots ensures 0 <= v.slots[x].lane < |v.kv| { assert SlotOk(v, x); }
  }

  lemma {:induction false} EvictForOwnerShrinks(v: View, owner: Owner, cap: nat)
    requires Sound(v)
    ensures Shrunk(v, EvictForOwner(v, owner, cap))
    decreases |v.slots|
  {
    if owner != Nobody && cap > 0 && |OwnedBy(v.slots, owner)| >= cap {
      EvictShrinks(v, Oldest(v.slots, OwnedBy(v.slots, owner)));
      EvictForOwnerShrinks(EvictOldest(v, OwnedBy(v.slots, owner)), owner, cap);
    } else {
      NothingShrinks(v);
    }
  }

  lemma {:induction false} EvictForSpaceShrinks(v: View, maxSlots: nat)
    requires Sound(v) && maxSlots > 0
    ensures Shrunk(v, EvictForSpace(v, maxSlots))
    decreases |v.slots|
  {
    if |v.slots| >= maxSlots {
      EvictShrinks(v, Oldest(v.slots, v.slots.Keys));
      EvictForSpaceShrinks(EvictOldest(v, v.slots.Keys), maxSlots);
    } else {
      NothingShrinks(v);
    }
  }

  lemma {:induction false} MakePlaceShrinks(v: View, owner: Owner, cap: nat, maxSlots: nat)
    requires Sound(v) && maxSlots > 0 && |v.free| > 0
    ensures Shrunk(v, MakePlace(v, owner, cap, maxSlots))
  {
    var a := EvictForOwner(v, owner, cap);
    var b := EvictForSpace(a, maxSlots);
    EvictForOwnerShrinks(v, owner, cap);
    EvictForSpaceShrinks(a, maxSlots);
    if CountFree(b.free) == 0 { EvictShrinks(b, Oldest(b.slots, b.slots.Keys)); }
  }

  /** Evictions are fair. When the caps hold, making place evicts at most one slot. If the requesting
      owner is at its cap, the victim is that owner's least recently used slot and nobody else loses
      one; otherwise it is the least recently used slot of the whole store. */
  lemma {:induction false} EvictionIsFair(v: View, owner: Owner, cap: nat, maxSlots: nat)
    requires Sound(v) && |v.free| > 0 && 0 < maxSlots && |v.slots| <= maxSlots && WithinCap(v.slots, cap)
    ensures var r := MakePlace(v, owner, cap, maxSlots);
      var atCap := owner != Nobody && cap > 0 && |OwnedBy(v.slots, owner)| == cap;
      if atCap then r == EvictOldest(v, OwnedBy(v.slots, owner))
      else if |v.slots| == maxSlots || CountFree(v.free) == 0 then v.slots != map[] && r == EvictOldest(v, v.slots.Keys)
      else r == v
  {
    var own := OwnedBy(v.slots, owner);
    if owner != Nobody && cap > 0 && |own| == cap {
      var u := EvictOldest(v, own);
      EvictSound(v, Oldest(v.slots, own));
      assert OwnedBy(u.slots, owner) == own - {Oldest(v.slots, own)};
      assert EvictForOwner(u, owner, cap) == u;
    } else if |v.slots| == maxSlots {
      EvictSound(v, Oldest(v.slots, v.slots.Keys));
      assert EvictForOwner(v, owner, cap) == v;
      var u := EvictOldest(v, v.slots.Keys);
      assert EvictForSpace(u, maxSlots) == u;
    }
  }

  /** A granted request gives its slot the latest stamp, and leaves all other slots and their lanes alone. */
  lemma {:induction false} ReuseSpares(v: View, id: Id, owner: Owner)
    requires Sound(v) && id in v.slots
    ensures var r := Reuse(v, id, owner); MostRecent(r.slots, id) && OthersKept(v, r, id)
  {
    forall x | x in v.slots ensures SlotOk(v, x) { }
  }

  lemma {:induction false} CreateSpares(v: View, room: View, r: View, id: Id, owner: Owner, lane: nat)
    requires Shrunk(v, room) && Sound(room) && lane < |room.free| && room.free[lane] && r == Create(room, id, owner, lane)
    ensures |room.free| == |v.free| ==> Added(v, r, id, owner)
    ensures MostRecent(r.slots, id) && r.slots.Keys == room.slots.Keys + {id}
    ensures forall x :: x in r.slots && x != id ==> x in v.slots && r.slots[x].lastTick == v.slots[x].lastTick
  {
    assert MostRecent(r.slots, id) by {
      forall x | x in room.slots ensures room.slots[x].lastTick <= room.tick { assert SlotOk(room, x); }
    }
    assert LaneOk(room, lane);
    assert OthersKept(v, room, id);
  }

  /** Everything a request for an existing conversation changes. */
  ghost predicate Reused(v: View, r: View, id: Id, owner: Owner) {
    && id in v.slots && r.slots.Keys == v.slots.Keys && MostRecent(r.slots, id) && OthersKept(v, r, id)
    && r.free == v.free && r.kv == v.kv
    && r.slots[id].ledger == v.slots[id].ledger && r.slots[id].lane == v.slots[id].lane
    && r.slots[id].owner == if v.slots[id].owner == Nobody then owner else v.slots[id].owner
  }

  ghost predicate Added(v: View, r: View, id: Id, owner: Owner) {
    && MostRecent(r.slots, id) && OthersKept(v, r, id) && |r.free| == |v.free|
    && r.slots[id].ledger == [] && r.slots[id].owner == owner && 0 <= r.slots[id].lane < |r.kv| && r.kv[r.slots[id].lane] == []
  }

  /** Everything the request that creates a conversation changes. */
  ghost predicate Created(v: View, r: View, id: Id, owner: Owner, cap: nat, maxSlots: nat, history: seq<Id>) {
    && Added(v, r, id, owner)
    && MadePlace(v.slots, r.slots, id, owner, cap, maxSlots, |v.free|, history)
  }

  /** What a granted request leaves of a store: its conversation is the latest, and all others are spared, except
      that a new or restarted conversation may take the place of the longest unused. */
  ghost predicate Bound(v: View, r: View, id: Id, owner: Owner, restart: bool, cap: nat, maxSlots: nat, history: seq<Id>) {
    && MostRecent(r.slots, id) && OthersKept(v, r, id) && |r.free| == |v.free|
    && (if id in v.slots && !restart then
          && r.slots.Keys == v.slots.Keys && r.free == v.free && r.slots[id].lane == v.slots[id].lane
          && r.slots[id].owner == if v.slots[id].owner == Nobody then owner else v.slots[id].owner
        else
          && r.slots[id].owner == owner
          && MadePlace(v.slots - {id}, r.slots, id, owner, cap, maxSlots, |v.free|, history))
  }

  /** Everything a granted request changes. */
  ghost predicate Took(v: View, r: View, id: Id, owner: Owner, cap: nat, maxSlots: nat, history: seq<Id>) {
    if id in v.slots then Reused(v, r, id, owner) else Created(v, r, id, owner, cap, maxSlots, history)
  }

  /** What it keeps: ledgers in step with their lanes, slots owned, and owners within the cap, except when it adopts
      a slot for an owner that is at the cap. A new slot never takes its owner above it. */
  ghost predicate TookKeeps(v: View, r: View, id: Id, owner: Owner, cap: nat) {
    && (LedgersSynced(v) ==> LedgersSynced(r))
    && (WithinCap(v.slots, cap) ==> (WithinCap(r.slots, cap) <==> !AdoptsAtCap(v.slots, id, owner, cap)))
    && (owner != Nobody && AllOwned(v.slots) ==> AllOwned(r.slots))
    && (owner != Nobody && cap > 0 && id !in v.slots ==> |OwnedBy(r.slots, owner)| <= cap)
  }

  /** How a granted request does it. */
  ghost predicate Taken(v: View, r: View, id: Id, owner: Owner, cap: nat, maxSlots: nat)
    requires Sound(v) && maxSlots > 0 && |v.free| > 0
  {
    if id in v.slots then
      r == Reuse(v, id, owner) && (owner == Nobody || v.slots[id].owner == Nobody || v.slots[id].owner == owner)
    else exists lane: nat :: MadeOn(MakePlace(v, owner, cap, maxSlots), r, id, owner, lane)
  }

  ghost predicate MadeOn(room: View, r: View, id: Id, owner: Owner, lane: nat) {
    lane < |room.free| && room.free[lane] && id !in room.slots && r == Create(room, id, owner, lane)
  }

  lemma {:induction false} TookMeans(v: View, r: View, id: Id, owner: Owner, cap: nat, maxSlots: nat, history: seq<Id>)
    requires Sound(v) && |v.free| > 0 && 0 < maxSlots && |v.slots| <= maxSlots && Ordered(v.slots, history)
    requires Taken(v, r, id, owner, cap, maxSlots)
    ensures Took(v, r, id, owner, cap, maxSlots, history) && TookKeeps(v, r, id, owner, cap)
  {
    if id in v.slots {
      ReuseMeans(v, r, id, owner, history);
      ReuseSound(v, id, owner);
      if WithinCap(v.slots, cap) { ReuseKeepsCapsIff(v, id, owner, cap); }
      if AllOwned(v.slots) { ReuseKeepsOwners(v, r, id, owner); }
    } else {
      var room := MakePlace(v, owner, cap, maxSlots);
      var lane: nat :| MadeOn(room, r, id, owner, lane);
      CreateMeans(v, room, r, id, owner, cap, maxSlots, lane, history);
      CreateKeeps(v, room, r, id, owner, cap, maxSlots, lane);
    }
  }

  lemma {:induction false} ReuseKeepsOwners(v: View, r: View, id: Id, owner: Owner)
    requires id in v.slots && AllOwned(v.slots) && r == Reuse(v, id, owner)
    ensures AllOwned(r.slots)
  {
  }

  lemma {:induction false} CreateKeeps(v: View, room: View, r: View, id: Id, owner: Owner, cap: nat, maxSlots: nat, lane: nat)
    requires Sound(v) && |v.free| > 0 && 0 < maxSlots && |v.slots| <= maxSlots && id !in v.slots
    requires room == MakePlace(v, owner, cap, maxSlots) && MadeOn(room, r, id, owner, lane)
    ensures TookKeeps(v, r, id, owner, cap)
  {
    MakePlaceShrinks(v, owner, cap, maxSlots);
    CreateSound(room, id, owner, lane);
    CreationKeepsCaps(v, id, owner, cap, maxSlots, lane);
  }

  lemma {:induction false} ReuseMeans(v: View, r: View, id: Id, owner: Owner, history: seq<Id>)
    requires Sound(v) && Ordered(v.slots, history) && id in v.slots && r == Reuse(v, id, owner)
    requires owner == Nobody || v.slots[id].owner == Nobody || v.slots[id].owner == owner
    ensures Reused(v, r, id, owner) && Ordered(r.slots, history + [id])
  {
    ReuseSpares(v, id, owner);
    OrderExtended(v.slots, r.slots, history, id);
  }

  lemma {:induction false} CreateMeans(v: View, room: View, r: View, id: Id, owner: Owner, cap: nat, maxSlots: nat, lane: nat,
                                       history: seq<Id>)
    requires Sound(v) && |v.free| > 0 && 0 < maxSlots && |v.slots| <= maxSlots && id !in v.slots && Ordered(v.slots, history)
    requires room == MakePlace(v, owner, cap, maxSlots) && lane < |room.free| && room.free[lane]
    requires r == Create(room, id, owner, lane)
    ensures Created(v, r, id, owner, cap, maxSlots, history) && Ordered(r.slots, history + [id])
  {
    MakePlaceShrinks(v, owner, cap, maxSlots);
    CreatedOrdered(v, room, r, id, owner, lane, history);
    PlaceMade(v, room, r.slots, id, owner, cap, maxSlots, history);
  }

  lemma {:induction false} CreatedOrdered(v: View, room: View, r: View, id: Id, owner: Owner, lane: nat, history: seq<Id>)
    requires Shrunk(v, room) && Sound(room) && lane < |room.free| && room.free[lane] && r == Create(room, id, owner, lane)
    requires Ordered(v.slots, history)
    ensures (|room.free| == |v.free| ==> Added(v, r, id, owner)) && r.slots.Keys == room.slots.Keys + {id}
    ensures Ordered(r.slots, history + [id])
  {
    CreateSpares(v, room, r, id, owner, lane);
    OrderExtended(v.slots, r.slots, history, id);
  }

  /** Place is made at the expense of the right conversations, and of no more than needed. */
  lemma {:induction false} PlaceMade(v: View, room: View, after: Slots, id: Id, owner: Owner, cap: nat, maxSlots: nat,
                                     history: seq<Id>)
    requires Sound(v) && |v.free| > 0 && 0 < maxSlots && |v.slots| <= maxSlots && Ordered(v.slots, history) && id !in v.slots
    requires room == MakePlace(v, owner, cap, maxSlots) && after.Keys == room.slots.Keys + {id}
    ensures MadePlace(v.slots, after, id, owner, cap, maxSlots, |v.free|, history)
  {
    var own := OwnedBy(v.slots, owner);
    var over := owner != Nobody && cap > 0 && |own| >= cap;
    var scope := if over then own else v.slots.Keys;
    var gone;
    if over { gone := OwnGone(v, room, owner, cap, maxSlots); } else { gone := OneGone(v, room, owner, cap, maxSlots); }
    StampsAreUses(v.slots, history, scope, gone);
    GoneMadePlace(v.slots, room.slots, after, id, owner, cap, maxSlots, |v.free|, history, over, gone, scope);
  }

  lemma {:induction false} GoneMadePlace(before: Slots, room: Slots, after: Slots, id: Id, owner: Owner, cap: nat, maxSlots: nat,
                                         lanes: nat, history: seq<Id>, over: bool, gone: set<Id>, scope: set<Id>)
    requires id !in before && after.Keys == room.Keys + {id} && room.Keys == before.Keys - gone
    requires over <==> owner != Nobody && cap > 0 && |OwnedBy(before, owner)| >= cap
    requires scope == if over then OwnedBy(before, owner) else before.Keys
    requires LongestUnused(scope, history, gone)
    requires |gone| == if over then |OwnedBy(before, owner)| - cap + 1 else if |before| == maxSlots || |before| == lanes then 1 else 0
    ensures MadePlace(before, after, id, owner, cap, maxSlots, lanes, history)
  {
    assert before.Keys - after.Keys == gone;
  }

  /** An owner at its cap or above it loses its own oldest slots, down to one below the cap. */
  lemma {:induction false} EvictedOwn(v: View, owner: Owner, cap: nat) returns (gone: set<Id>)
    requires Sound(v) && owner != Nobody && cap > 0
    ensures var own := OwnedBy(v.slots, owner);
      && LeastStamps(v.slots, own, gone) && |gone| == (if |own| >= cap then |own| - cap + 1 else 0)
      && EvictForOwner(v, owner, cap).slots == v.slots - gone
    decreases |v.slots|
  {
    var own := OwnedBy(v.slots, owner);
    gone := {};
    if |own| >= cap {
      var oldest := Oldest(v.slots, own);
      EvictSound(v, oldest);
      var rest := EvictOldest(v, own);
      assert OwnedBy(rest.slots, owner) == own - {oldest};
      var others := EvictedOwn(rest, owner, cap);
      gone := others + {oldest};
      OneMoreGone(v.slots, own, oldest, rest.slots, others, gone);
    } else {
      assert v.slots - gone == v.slots;
    }
  }

  lemma {:induction false} OneMoreGone(slots: Slots, own: set<Id>, oldest: Id, rest: Slots, others: set<Id>, gone: set<Id>)
    requires IsOldest(slots, own, oldest) && rest == slots - {oldest} && own - {oldest} <= rest.Keys
    requires LeastStamps(rest, own - {oldest}, others) && gone == others + {oldest}
    ensures LeastStamps(slots, own, gone) && |gone| == |others| + 1 && rest - others == slots - gone
  {
  }

  /** After that the store has a slot and a lane to spare. */
  lemma {:induction false} OwnGone(v: View, room: View, owner: Owner, cap: nat, maxSlots: nat) returns (gone: set<Id>)
    requires Sound(v) && |v.free| > 0 && 0 < maxSlots && |v.slots| <= maxSlots && room == MakePlace(v, owner, cap, maxSlots)
    requires owner != Nobody && cap > 0 && |OwnedBy(v.slots, owner)| >= cap
    ensures LeastStamps(v.slots, OwnedBy(v.slots, owner), gone) && |gone| == |OwnedBy(v.slots, owner)| - cap + 1
    ensures room.slots.Keys == v.slots.Keys - gone
  {
    gone := EvictedOwn(v, owner, cap);
    var a := EvictForOwner(v, owner, cap);
    assert a.slots.Keys == v.slots.Keys - gone && |v.slots.Keys - gone| == |v.slots| - |gone|;
    assert |a.slots.Keys| == |a.slots|;
    assert EvictForSpace(a, maxSlots) == a;
  }

  /** Everybody else makes place by at most one eviction. */
  lemma {:induction false} OneGone(v: View, room: View, owner: Owner, cap: nat, maxSlots: nat) returns (gone: set<Id>)
    requires Sound(v) && |v.free| > 0 && 0 < maxSlots && |v.slots| <= maxSlots && room == MakePlace(v, owner, cap, maxSlots)
    requires !(owner != Nobody && cap > 0 && |OwnedBy(v.slots, owner)| >= cap)
    ensures LeastStamps(v.slots, v.slots.Keys, gone)
    ensures |gone| == if |v.slots| == maxSlots || |v.slots| == |v.free| then 1 else 0
    ensures room.slots.Keys == v.slots.Keys - gone
  {
    gone := {};
    if |v.slots| == maxSlots || |v.slots| == |v.free| {
      var oldest := Oldest(v.slots, v.slots.Keys);
      EvictSound(v, oldest);
      gone := {oldest};
      if |v.slots| == maxSlots { assert EvictForSpace(EvictOldest(v, v.slots.Keys), maxSlots) == EvictOldest(v, v.slots.Keys); }
    }
  }

  lemma {:induction false} CreateCounts(v: View, id: Id, owner: Owner, lane: nat, o: Owner)
    requires id !in v.slots && lane < |v.free|
    ensures |OwnedBy(Create(v, id, owner, lane).slots, o)| == |OwnedBy(v.slots, o)| + (if o == owner then 1 else 0)
  {
    var r := Create(v, id, owner, lane);
    OwnedInsert(v.slots, id, r.slots[id], o);
    assert r.slots == v.slots[id := r.slots[id]];
  }

  lemma {:induction false} OwnedInsert(slots: Slots, id: Id, slot: Slot, o: Owner)
    requires id !in slots
    ensures |OwnedBy(slots[id := slot], o)| == |OwnedBy(slots, o)| + (if slot.owner == o then 1 else 0)
  {
    var before, after := OwnedBy(slots, o), OwnedBy(slots[id := slot], o);
    assert after == before + (if slot.owner == o then {id} else {});
  }

  /** However many slots an owner holds, making place for one more leaves it below the cap. */
  lemma {:induction false} PlaceBelowCap(v: View, owner: Owner, cap: nat, maxSlots: nat)
    requires Sound(v) && |v.free| > 0 && 0 < maxSlots && owner != Nobody && cap > 0
    ensures |OwnedBy(MakePlace(v, owner, cap, maxSlots).slots, owner)| < cap
  {
    var a := EvictForOwner(v, owner, cap);
    var b := EvictForSpace(a, maxSlots);
    OwnerBelowCap(v, owner, cap);
    EvictForSpaceShrinks(a, maxSlots);
    OwnedShrinks(a, b, owner);
    if CountFree(b.free) == 0 {
      EvictShrinks(b, Oldest(b.slots, b.slots.Keys));
      OwnedShrinks(b, EvictForLane(b), owner);
    }
  }

  lemma {:induction false} OwnerBelowCap(v: View, owner: Owner, cap: nat)
    requires Sound(v) && owner != Nobody && cap > 0
    ensures |OwnedBy(EvictForOwner(v, owner, cap).slots, owner)| < cap
    decreases |v.slots|
  {
    var own := OwnedBy(v.slots, owner);
    if |own| >= cap { OwnerBelowCap(EvictOldest(v, own), owner, cap); }
  }

  /** From any sound store, a creation leaves the owner it is for within the cap, and all others where they
      were or below. */
  lemma {:induction false} CreationKeepsCaps(v: View, id: Id, owner: Owner, cap: nat, maxSlots: nat, lane: nat)
    requires Sound(v) && |v.free| > 0 && 0 < maxSlots && id !in v.slots && lane < |v.free|
    ensures var r := Create(MakePlace(v, owner, cap, maxSlots), id, owner, lane);
      && (owner != Nobody && cap > 0 ==> |OwnedBy(r.slots, owner)| <= cap)
      && (forall o :: o != owner ==> |OwnedBy(r.slots, o)| <= |OwnedBy(v.slots, o)|)
      && (WithinCap(v.slots, cap) ==> WithinCap(r.slots, cap))
      && (AllOwned(v.slots) && owner != Nobody ==> AllOwned(r.slots))
  {
    var u := MakePlace(v, owner, cap, maxSlots);
    MakePlaceShrinks(v, owner, cap, maxSlots);
    forall o
      ensures |OwnedBy(Create(u, id, owner, lane).slots, o)| <= |OwnedBy(v.slots, o)| + (if o == owner then 1 else 0)
    {
      OwnedShrinks(v, u, o);
      CreateCounts(u, id, owner, lane, o);
    }
    if owner != Nobody && cap > 0 {
      PlaceBelowCap(v, owner, cap, maxSlots);
      CreateCounts(u, id, owner, lane, owner);
    }
  }

  /** Using a slot again keeps every owner within the cap, except when it adopts the slot for an owner that is
      at the cap. */
  lemma {:induction false} ReuseKeepsCapsIff(v: View, id: Id, owner: Owner, cap: nat)
    requires id in v.slots && WithinCap(v.slots, cap)
    ensures WithinCap(Reuse(v, id, owner).slots, cap) <==> !AdoptsAtCap(v.slots, id, owner, cap)
    ensures AllOwned(v.slots) ==> AllOwned(Reuse(v, id, owner).slots)
  {
    var r := Reuse(v, id, owner).slots;
    if owner != Nobody && v.slots[id].owner == Nobody {
      AdoptionCounts(v, id, owner);
      forall o | o != owner && o != Nobody ensures OwnedBy(r, o) == OwnedBy(v.slots, o) { }
    } else {
      forall o ensures OwnedBy(r, o) == OwnedBy(v.slots, o) { }
    }
  }

  lemma {:induction false} OwnedShrinks(v: View, u: View, owner: Owner)
    requires Shrunk(v, u)
    ensures OwnedBy(u.slots, owner) <= OwnedBy(v.slots, owner)
    ensures |OwnedBy(u.slots, owner)| <= |OwnedBy(v.slots, owner)|
  {
    SubsetCount(OwnedBy(u.slots, owner), OwnedBy(v.slots, owner));
  }
}
