/** The conversation store, updated in place and proved against the value-level steps, and the two
    kinds of request that use it. */
module SessionStore {
  import opened Decoding
  import opened Sessions
  import opened Lanes

  datatype Access = Granted | OwnerMismatch

  class Store {
    const maxSlots: nat
    var maxPerUser: nat
    var seqFree: seq<bool>
    var tick: int
    var slots: Slots
    /** The conversations of all granted requests so far. */
    ghost var history: seq<Id>

    ghost function View(ctx: LlamaContext): View
      reads this, ctx
    {
      Lanes.View.View(slots, seqFree, ctx.kv, tick)
    }

    ghost predicate Valid(ctx: LlamaContext)
      reads this, ctx
    {
      && Sound(View(ctx)) && 0 < maxSlots && |slots| <= maxSlots && |seqFree| > 0 && ctx.nBatch > 0
      && Ordered(slots, history)
    }

    constructor (maxSlots: nat)
      ensures slots == map[] && seqFree == [true] && tick == 0 && maxPerUser == 0 && history == []
      ensures this.maxSlots == if maxSlots > 0 then maxSlots else 1
    {
      this.maxSlots := if maxSlots > 0 then maxSlots else 1;
      maxPerUser, tick, slots, seqFree, history := 0, 0, map[], [true], [];
    }

    method SetMaxSlotsPerUser(n: nat)
      modifies this`maxPerUser
      ensures maxPerUser == n
    {
      maxPerUser := n;
    }

    /** Sizes the lane table: afterwards a lane is free iff no slot holds it. A store that is sized to
        its still empty context before it holds any slot is valid. */
    method SetSeqCapacity(lanes: nat, ghost ctx: LlamaContext)
      modifies this`seqFree
      ensures |seqFree| == if lanes < 1 then 1 else lanes
      ensures forall l :: 0 <= l < |seqFree| ==> (seqFree[l] <==> forall id :: id in slots ==> slots[id].lane != l)
      ensures slots == map[] && 0 < maxSlots && |ctx.kv| == |seqFree| && ctx.nBatch > 0
              && (forall l :: 0 <= l < |ctx.kv| ==> ctx.kv[l] == [])
              ==> Valid(ctx)
    {
      seqFree := seq(if lanes < 1 then 1 else lanes, _ => true);
      CountAllFree(seqFree);
      var rest := slots.Keys;
      while rest != {}
        invariant rest <= slots.Keys && |seqFree| == if lanes < 1 then 1 else lanes
        invariant forall l :: 0 <= l < |seqFree| ==>
          (seqFree[l] <==> forall id :: id in slots.Keys - rest ==> slots[id].lane != l)
        invariant slots == map[] ==> CountFree(seqFree) == |seqFree|
        decreases rest
      {
        var id :| id in rest;
        rest := rest - {id};
        ghost var before := seqFree;
        if 0 <= slots[id].lane < |seqFree| { seqFree := seqFree[slots[id].lane := false]; }
        forall l | 0 <= l < |seqFree|
          ensures seqFree[l] <==> forall x :: x in slots.Keys - rest ==> slots[x].lane != l
        {
          assert slots.Keys - rest == (slots.Keys - (rest + {id})) + {id};
        }
      }
    }

    /** The lowest free lane, or -1. */
    method AllocSeq() returns (lane: int)
      modifies this`seqFree
      ensures lane == -1 <==> CountFree(old(seqFree)) == 0
      ensures lane == -1 ==> seqFree == old(seqFree)
      ensures lane != -1 ==> 0 <= lane < |old(seqFree)| && old(seqFree)[lane] && seqFree == old(seqFree)[lane := false]
      ensures forall l :: 0 <= l < lane ==> !old(seqFree)[l]
      ensures unchanged(this`history)
    {
      CountFreeZero(seqFree);
      for i := 0 to |seqFree|
        invariant seqFree == old(seqFree) && forall l :: 0 <= l < i ==> !seqFree[l]
      {
        if seqFree[i] {
          seqFree := seqFree[i := false];
          return i;
        }
      }
      return -1;
    }

    method CountForOwner(owner: Owner) returns (n: nat)
      ensures n == if owner == Nobody then 0 else |OwnedBy(slots, owner)|
    {
      if owner == Nobody { return 0; }
      n := 0;
      var rest := slots.Keys;
      ghost var seen: set<Id> := {};
      while rest != {}
        invariant rest <= slots.Keys && seen == slots.Keys - rest
        invariant n == |set id | id in seen && slots[id].owner == owner|
        decreases rest
      {
        var id :| id in rest;
        rest := rest - {id};
        ghost var before := set x | x in seen && slots[x].owner == owner;
        seen := seen + {id};
        ghost var after := set x | x in seen && slots[x].owner == owner;
        if slots[id].owner == owner {
          assert after == before + {id};
          n := n + 1;
        } else {
          assert after == before;
        }
      }
      assert OwnedBy(slots, owner) == set id | id in seen && slots[id].owner == owner;
    }

    /** Removes the least recently used slot of a scope, found by a scan in arbitrary order. */
    method EvictLru(ghost scope: set<Id>, owner: Owner, anyOwner: bool, ctx: LlamaContext)
      requires Valid(ctx) && scope != {} && scope == if anyOwner then slots.Keys else OwnedBy(slots, owner)
      modifies this`slots, this`seqFree, ctx`kv, ctx`removals
      ensures Valid(ctx) && View(ctx) == EvictOldest(old(View(ctx)), scope)
      ensures unchanged(ctx`decodes, ctx`logits, this`history)
    {
      var found, oldest := false, Id("");
      var rest := slots.Keys;
      while rest != {}
        invariant rest <= slots.Keys && (found ==> oldest in scope)
        invariant forall id :: id in scope - rest ==> found && slots[oldest].lastTick <= slots[id].lastTick
        decreases rest
      {
        var id :| id in rest;
        rest := rest - {id};
        if anyOwner || slots[id].owner == owner {
          if !found || slots[id].lastTick < slots[oldest].lastTick { found, oldest := true, id; }
        }
      }
      assert IsOldest(slots, scope, oldest);
      OldestUnique(View(ctx), scope, oldest);
      DropSlot(oldest, ctx);
    }

    method DropSlot(id: Id, ctx: LlamaContext)
      requires Valid(ctx) && id in slots
      modifies this`slots, this`seqFree, ctx`kv, ctx`removals
      ensures SlotOk(old(View(ctx)), id) && View(ctx) == Evict(old(View(ctx)), id) && Valid(ctx)
      ensures unchanged(ctx`decodes, ctx`logits, this`history)
    {
      EvictSound(View(ctx), id);
      assert SlotOk(View(ctx), id);
      OrderKept(slots, slots - {id}, history);
      var doomed := slots[id];
      slots := slots - {id};
      doomed := ResetKv(ctx, doomed);
      seqFree := seqFree[doomed.lane := true];
    }

    method EvictAtCap(owner: Owner, ctx: LlamaContext)
      requires Valid(ctx)
      modifies this`slots, this`seqFree, ctx`kv, ctx`removals
      ensures Valid(ctx) && View(ctx) == EvictForOwner(old(View(ctx)), owner, maxPerUser)
      ensures unchanged(ctx`decodes, ctx`logits, this`history)
    {
      if owner != Nobody && maxPerUser > 0 {
        var n := CountForOwner(owner);
        while n >= maxPerUser
          invariant unchanged(ctx`decodes, ctx`logits, this`history)
          invariant Valid(ctx) && n == |OwnedBy(slots, owner)|
          invariant EvictForOwner(View(ctx), owner, maxPerUser) == EvictForOwner(old(View(ctx)), owner, maxPerUser)
          decreases |slots|
        {
          EvictLru(OwnedBy(slots, owner), owner, false, ctx);
          n := CountForOwner(owner);
        }
      }
    }

    method EvictWhenFull(ctx: LlamaContext)
      requires Valid(ctx)
      modifies this`slots, this`seqFree, ctx`kv, ctx`removals
      ensures Valid(ctx) && View(ctx) == EvictForSpace(old(View(ctx)), maxSlots)
      ensures unchanged(ctx`decodes, ctx`logits, this`history)
    {
      while |slots| >= maxSlots
        invariant unchanged(ctx`decodes, ctx`logits, this`history)
        invariant Valid(ctx) && EvictForSpace(View(ctx), maxSlots) == EvictForSpace(old(View(ctx)), maxSlots)
        decreases |slots|
      {
        EvictLru(slots.Keys, Nobody, true, ctx);
      }
    }

    method UseSlot(id: Id, owner: Owner, ctx: LlamaContext)
      requires Valid(ctx) && id in slots
      requires owner == Nobody || slots[id].owner == Nobody || slots[id].owner == owner
      modifies this`slots, this`tick, this`history
      ensures Valid(ctx) && View(ctx) == Reuse(old(View(ctx)), id, owner)
      ensures history == old(history) + [id]
    {
      ghost var after := Reuse(View(ctx), id, owner);
      ReuseSound(View(ctx), id, owner);
      ReuseMeans(View(ctx), after, id, owner, history);
      StampSlot(id, owner, ctx, after);
    }

    method StampSlot(id: Id, owner: Owner, ctx: LlamaContext, ghost after: View)
      requires id in slots && after == Reuse(View(ctx), id, owner)
      requires Sound(after) && Ordered(after.slots, history + [id])
      requires 0 < maxSlots && |after.slots| <= maxSlots && |seqFree| > 0 && ctx.nBatch > 0
      modifies this`slots, this`tick, this`history
      ensures Valid(ctx) && View(ctx) == after && history == old(history) + [id]
    {
      history := history + [id];
      var s := slots[id];
      tick := tick + 1;
      slots := slots[id := s.(owner := if owner != Nobody && s.owner == Nobody then owner else s.owner, lastTick := tick)];
      assert slots == after.slots && tick == after.tick;
    }

    /** A free lane, evicting one more slot if there is none. */
    method ClaimLane(ctx: LlamaContext) returns (lane: nat)
      requires Valid(ctx)
      modifies this`slots, this`seqFree, ctx`kv, ctx`removals
      ensures var room := EvictForLane(old(View(ctx)));
        lane < |room.free| && room.free[lane] && View(ctx) == room.(free := room.free[lane := false])
      ensures unchanged(ctx`decodes, ctx`logits, this`history)
    {
      var got := AllocSeq();
      if got < 0 {
        EvictSound(View(ctx), Oldest(slots, slots.Keys));
        EvictLru(slots.Keys, Nobody, true, ctx);
        got := AllocSeq();
      }
      lane := got;
    }

    method NewSlot(id: Id, owner: Owner, ctx: LlamaContext) returns (lane: nat)
      requires Valid(ctx) && id !in slots
      modifies this`slots, this`seqFree, this`tick, this`history, ctx`kv, ctx`removals
      ensures var room := MakePlace(old(View(ctx)), owner, maxPerUser, maxSlots);
        lane < |room.free| && room.free[lane] && id !in room.slots && View(ctx) == Create(room, id, owner, lane)
      ensures Valid(ctx)
      ensures history == old(history) + [id]
      ensures unchanged(ctx`decodes, ctx`logits)
    {
      ghost var start := View(ctx);
      ghost var room := MakePlace(start, owner, maxPerUser, maxSlots);
      assert id !in room.slots by { MakePlaceShrinks(start, owner, maxPerUser, maxSlots); }
      EvictAtCap(owner, ctx);
      EvictWhenFull(ctx);
      lane := ClaimLane(ctx);
      CreateMeans(start, room, Create(room, id, owner, lane), id, owner, maxPerUser, maxSlots, lane, history);
      InstallSlot(id, owner, lane, ctx, room);
    }

    method InstallSlot(id: Id, owner: Owner, lane: nat, ctx: LlamaContext, ghost room: View)
      requires Sound(room) && id !in room.slots && lane < |room.free| && room.free[lane]
      requires View(ctx) == room.(free := room.free[lane := false])
      requires 0 < maxSlots && |room.slots| < maxSlots && ctx.nBatch > 0
      requires Ordered(Create(room, id, owner, lane).slots, history + [id])
      modifies this`slots, this`tick, this`history
      ensures View(ctx) == Create(room, id, owner, lane) && Valid(ctx) && history == old(history) + [id]
      ensures unchanged(ctx`decodes, ctx`logits)
    {
      CreateSound(room, id, owner, lane);
      history := history + [id];
      tick := tick + 1;
      slots := slots[id := Slot(id, owner, [], lane, tick)];
      ghost var after := Create(room, id, owner, lane);
      assert slots == after.slots && tick == after.tick && seqFree == after.free;
      assert View(ctx) == after;
    }

    /** The slot of a conversation: reused, adopted, refused, or created on a lane of its own. A granted request
        makes its conversation the most recently used one and spares all others, except that a new one may take
        the place of the longest unused. */
    method GetOrCreate(id: Id, owner: Owner, ctx: LlamaContext) returns (access: Access)
      requires Valid(ctx)
      modifies this`slots, this`seqFree, this`tick, this`history, ctx`kv, ctx`removals
      ensures Valid(ctx)
      ensures access == OwnerMismatch <==>
        id in old(slots) && owner != Nobody && old(slots)[id].owner != Nobody && old(slots)[id].owner != owner
      ensures access == OwnerMismatch ==> View(ctx) == old(View(ctx)) && history == old(history)
      ensures access == Granted ==> history == old(history) + [id]
      ensures access == Granted ==> Took(old(View(ctx)), View(ctx), id, owner, maxPerUser, maxSlots, old(history))
      ensures access == Granted ==> TookKeeps(old(View(ctx)), View(ctx), id, owner, maxPerUser)
      ensures id in old(slots) ==> ctx.removals == old(ctx.removals)
      ensures unchanged(ctx`decodes, ctx`logits)
    {
      ghost var start, used := View(ctx), history;
      access := FindOrMake(id, owner, ctx);
      if access == Granted { TookMeans(start, View(ctx), id, owner, maxPerUser, maxSlots, used); }
    }

    method FindOrMake(id: Id, owner: Owner, ctx: LlamaContext) returns (access: Access)
      requires Valid(ctx)
      modifies this`slots, this`seqFree, this`tick, this`history, ctx`kv, ctx`removals
      ensures Valid(ctx)
      ensures access == OwnerMismatch <==>
        id in old(slots) && owner != Nobody && old(slots)[id].owner != Nobody && old(slots)[id].owner != owner
      ensures access == OwnerMismatch ==> View(ctx) == old(View(ctx)) && history == old(history)
      ensures access == Granted ==> history == old(history) + [id]
      ensures access == Granted ==> Taken(old(View(ctx)), View(ctx), id, owner, maxPerUser, maxSlots)
      ensures id in old(slots) ==> ctx.removals == old(ctx.removals)
      ensures unchanged(ctx`decodes, ctx`logits)
    {
      if id in slots {
        if owner != Nobody && slots[id].owner != Nobody && slots[id].owner != owner { return OwnerMismatch; }
        UseSlot(id, owner, ctx);
      } else {
        ghost var room := MakePlace(View(ctx), owner, maxPerUser, maxSlots);
        var lane := NewSlot(id, owner, ctx);
        assert MadeOn(room, View(ctx), id, owner, lane);
      }
      return Granted;
    }

    method Remove(id: Id, ctx: LlamaContext)
      requires Valid(ctx)
      modifies this`slots, this`seqFree, ctx`kv, ctx`removals
      ensures Valid(ctx)
      ensures if id in old(slots) then SlotOk(old(View(ctx)), id) && View(ctx) == Evict(old(View(ctx)), id)
              else View(ctx) == old(View(ctx))
      ensures SlotGone(old(View(ctx)), View(ctx), id) && KeepsAll(old(View(ctx)), View(ctx), maxPerUser)
      ensures unchanged(ctx`decodes, ctx`logits)
    {
      ghost var before := View(ctx);
      if id in slots {
        EvictMeans(before, id, maxPerUser);
        DropSlot(id, ctx);
      } else {
        assert slots - {id} == slots;
      }
    }

    method ResetAll(ctx: LlamaContext)
      requires Valid(ctx)
      modifies ctx`kv, ctx`removals
      ensures |ctx.kv| == |old(ctx.kv)| && forall l :: 0 <= l < |ctx.kv| ==> ctx.kv[l] == []
    {
      var rest := slots.Keys;
      ghost var start := View(ctx);
      while rest != {}
        invariant rest <= slots.Keys && |ctx.kv| == |start.kv|
        invariant forall l :: 0 <= l < |ctx.kv| && start.kv[l] == [] ==> ctx.kv[l] == []
        invariant forall id :: id in slots.Keys - rest ==> SlotOk(start, id) && ctx.kv[slots[id].lane] == []
        decreases rest
      {
        var id :| id in rest;
        rest := rest - {id};
        assert SlotOk(start, id);
        var cleared := ResetKv(ctx, slots[id]);
      }
      forall l | 0 <= l < |ctx.kv| ensures ctx.kv[l] == [] {
        assert LaneOk(start, l);
        if !start.free[l] {
          var id :| HolderOf(start, l, id);
          assert id in slots.Keys;
        }
      }
    }

    method Clear(ctx: LlamaContext)
      requires Valid(ctx)
      modifies this`slots, this`seqFree, ctx`kv, ctx`removals
      ensures Valid(ctx) && slots == map[] && |seqFree| == old(|seqFree|)
      ensures forall l :: 0 <= l < |seqFree| ==> seqFree[l] && ctx.kv[l] == []
    {
      ResetAll(ctx);
      slots := map[];
      seqFree := seq(|seqFree|, _ => true);
      CountAllFree(seqFree);
    }
  }

  /** A conversation that exists and is not restarted keeps its ledger and lane, any other starts with nothing. */
  ghost predicate Carried(v: View, r: View, id: Id, restart: bool) {
    && id in r.slots && 0 <= r.slots[id].lane < |r.kv|
    && if id in v.slots && !restart then
         SlotOk(v, id) && r.slots[id].ledger == v.slots[id].ledger && r.kv[r.slots[id].lane] == v.kv[v.slots[id].lane]
       else r.slots[id].ledger == [] && r.kv[r.slots[id].lane] == []
  }

  /** How much of the prompt is not decoded again. */
  ghost predicate ReusesFor(v: View, id: Id, restart: bool, prompt: seq<Token>, refused: bool, reused: nat) {
    if id in v.slots && !restart then
      SlotOk(v, id) && Saves(v.kv[v.slots[id].lane], v.slots[id].ledger, prompt, refused, reused)
    else reused == 0
  }

  /** A request is granted unless the conversation exists, is not restarted and has another owner. */
  ghost predicate Grants(slots: Slots, id: Id, owner: Owner, restart: bool) {
    restart || id !in slots || owner == Nobody || slots[id].owner == Nobody || slots[id].owner == owner
  }

  /** Binds a request to its conversation, restarting it first if asked to. A new or restarted
      conversation has nothing cached. */
  method BindConversation(store: Store, ctx: LlamaContext, id: Id, owner: Owner, restart: bool)
    returns (access: Access)
    requires store.Valid(ctx)
    modifies store`slots, store`seqFree, store`tick, store`history, ctx`kv, ctx`removals
    ensures store.Valid(ctx)
    ensures access == Granted <==> Grants(old(store.slots), id, owner, restart)
    ensures access == OwnerMismatch ==> store.View(ctx) == old(store.View(ctx)) && store.history == old(store.history)
    ensures access == Granted ==> store.history == old(store.history) + [id] 
    ensures access == Granted ==>
      Bound(old(store.View(ctx)), store.View(ctx), id, owner, restart, store.maxPerUser, store.maxSlots, old(store.history))
    ensures old(LedgersSynced(store.View(ctx))) ==> LedgersSynced(store.View(ctx))
    ensures access == Granted ==> Carried(old(store.View(ctx)), store.View(ctx), id, restart)
    ensures access == Granted && id in old(store.slots) && !restart ==> ctx.removals == old(ctx.removals)
    ensures unchanged(ctx`decodes, ctx`logits)
  {
    ghost var before := store.View(ctx);
    if restart { store.Remove(id, ctx); }
    ghost var mid := store.View(ctx);
    access := store.GetOrCreate(id, owner, ctx);
    if access == Granted {
      BoundMeans(before, mid, store.View(ctx), id, owner, restart, store.maxPerUser, store.maxSlots, old(store.history));
    }
  }

  lemma {:induction false} BoundMeans(v: View, mid: View, r: View, id: Id, owner: Owner, restart: bool, cap: nat, maxSlots: nat,
                                      history: seq<Id>)
    requires Sound(v)
    requires if restart && id in v.slots then SlotOk(v, id) && mid == Evict(v, id) else mid == v
    requires Took(mid, r, id, owner, cap, maxSlots, history)
    ensures Bound(v, r, id, owner, restart, cap, maxSlots, history)
    ensures Carried(v, r, id, restart)
  {
    if restart && id in v.slots {
      EvictShrinks(v, id);
      assert mid.slots == v.slots - {id};
    } else if id in v.slots {
      assert SlotOk(v, id);
    } else {
      assert v.slots - {id} == v.slots;
    }
  }

  /** Generates on the lane of a bound conversation. */
  method RunConversation(store: Store, m: Model, ctx: LlamaContext, id: Id, prompt: seq<Token>, nGen: int, polls: Faults)
    returns (outcome: Outcome, emitted: seq<Token>, stats: PrefillStats)
    requires store.Valid(ctx) && id in store.slots && prompt != []
    modifies store`slots, ctx
    ensures store.Valid(ctx)
    ensures Answered(old(store.View(ctx)), store.View(ctx), id)
    ensures old(LedgersSynced(store.View(ctx))) && (outcome != PrefillFailed || |prompt| <= ctx.nBatch) ==>
      LedgersSynced(store.View(ctx))
    ensures old(LedgersSynced(store.View(ctx))) && outcome != PrefillFailed ==>
      Gives(if stats.prefilled > 0 then Answer(m, prompt, nGen) else Resumed(m, old(ctx.logits), prompt, nGen), outcome, emitted)
    ensures outcome != PrefillFailed ==>
      && stats.reused + stats.prefilled == |prompt|
      && ReusesFor(old(store.View(ctx)), id, false, prompt, ctx.refuses(old(ctx.removals)), stats.reused)
    ensures Ends(outcome, |emitted|, nGen, ctx.fails, old(ctx.decodes), ctx.decodes, polls)
  {
    ghost var before := store.View(ctx);
    assert SlotOk(before, id);
    FirstTokenDecides(m, prompt, prompt, nGen);
    if LedgersSynced(before) { assert LedgerOk(before, id); }
    var slot := store.slots[id];
    var slot';
    outcome, emitted, slot', stats := GenerateInSession(m, ctx, slot, prompt, nGen, polls);
    OrderKept(store.slots, store.slots[id := slot'], store.history);
    store.slots := store.slots[id := slot'];
    if outcome == PrefillFailed && Synced(slot.ledger, before.kv[slot.lane]) {
      AbandonedKeepsSynced(before.kv[slot.lane], slot.ledger, prompt, slot'.ledger, ctx.kv[slot.lane], ctx.nBatch);
    }
    ChangeSound(before, store.View(ctx), id, slot');
  }

  /** The emitted tokens begin `answer`, and are all of it if the run completed. */
  ghost predicate Gives(answer: seq<Token>, outcome: Outcome, emitted: seq<Token>) {
    emitted <= answer && (outcome == Completed ==> emitted == answer)
  }

  /** Answering on the lane of `id` changes nothing but that lane and the ledger. */
  ghost predicate Answered(v: View, r: View, id: Id) {
    && id in v.slots && 0 <= v.slots[id].lane < |v.kv| && |r.kv| == |v.kv| && r.free == v.free && r.tick == v.tick
    && id in r.slots && r.slots == v.slots[id := v.slots[id].(ledger := r.slots[id].ledger)]
    && r.kv == v.kv[v.slots[id].lane := r.kv[v.slots[id].lane]]
  }

  lemma {:induction false} BoundAndAnswered(v: View, mid: View, r: View, id: Id, owner: Owner, restart: bool, cap: nat,
                                            maxSlots: nat, history: seq<Id>)
    requires Sound(mid) && Bound(v, mid, id, owner, restart, cap, maxSlots, history) && Answered(mid, r, id)
    ensures Bound(v, r, id, owner, restart, cap, maxSlots, history)
  {
    AnswerSpares(v, mid, r, id);
    if id !in v.slots || restart { SameKeys(v.slots - {id}, mid.slots, r.slots, id, owner, cap, maxSlots, |v.free|, history); }
  }

  lemma {:induction false} AnswerSpares(v: View, mid: View, r: View, id: Id)
    requires Sound(mid) && MostRecent(mid.slots, id) && OthersKept(v, mid, id) && Answered(mid, r, id)
    ensures MostRecent(r.slots, id) && OthersKept(v, r, id) && r.slots.Keys == mid.slots.Keys
  {
    forall x | x in mid.slots && x != id ensures mid.slots[x].lane != mid.slots[id].lane { assert Apart(mid, x, id); }
    assert r.slots.Keys == mid.slots.Keys;
  }

  lemma {:induction false} SameKeys(before: Slots, a: Slots, b: Slots, id: Id, owner: Owner, cap: nat, maxSlots: nat, lanes: nat,
                                    history: seq<Id>)
    requires a.Keys == b.Keys
    ensures MadePlace(before, a, id, owner, cap, maxSlots, lanes, history) <==>
            MadePlace(before, b, id, owner, cap, maxSlots, lanes, history)
  {
  }

  lemma {:induction false} CarriedReuses(v: View, mid: View, id: Id, restart: bool, prompt: seq<Token>, now: bool, refused: bool,
                                         stats: PrefillStats)
    requires Carried(v, mid, id, restart) && ReusesFor(mid, id, false, prompt, now, stats.reused) && prompt != []
    requires id in v.slots && !restart ==> refused == now
    ensures ReusesFor(v, id, restart, prompt, refused, stats.reused)
  {
  }

  /** Nothing is decoded before the first token exactly if the conversation goes on and had the whole prompt cached. */
  lemma {:induction false} WhollyReused(v: View, id: Id, restart: bool, prompt: seq<Token>, refused: bool, stats: PrefillStats)
    requires ReusesFor(v, id, restart, prompt, refused, stats.reused) && stats.reused + stats.prefilled == |prompt| > 0
    requires id in v.slots ==> SlotOk(v, id)
    ensures stats.prefilled == 0 ==>
      !restart && id in v.slots && WhollyCached(v.kv[v.slots[id].lane], v.slots[id].ledger, prompt)
    ensures !restart && id in v.slots && WhollyCached(v.kv[v.slots[id].lane], v.slots[id].ledger, prompt) && !refused ==>
      stats.prefilled == 0
  {
    if id in v.slots && !restart {
      var ledger := v.slots[id].ledger;
      CommonPrefixAgrees(ledger, prompt);
      if prompt <= ledger { CommonPrefixIs(ledger, prompt, |prompt|); }
    }
  }

  method RunBound(store: Store, m: Model, ctx: LlamaContext, id: Id, ghost owner: Owner, ghost restart: bool,
                  prompt: seq<Token>, nGen: int, polls: Faults, ghost before: View, ghost history: seq<Id>, ghost refused: bool,
                  ghost synced: bool, ghost from: nat)
    returns (outcome: Outcome, emitted: seq<Token>, stats: PrefillStats)
    requires store.Valid(ctx) && prompt != []
    requires store.history == history + [id] && Carried(before, store.View(ctx), id, restart)
    requires id in before.slots && !restart ==> refused == ctx.refuses(ctx.removals)
    requires from == ctx.decodes && (synced ==> LedgersSynced(store.View(ctx)))
    requires Bound(before, store.View(ctx), id, owner, restart, store.maxPerUser, store.maxSlots, history)
    modifies store`slots, ctx
    ensures store.Valid(ctx) && store.history == history + [id]
    ensures Bound(before, store.View(ctx), id, owner, restart, store.maxPerUser, store.maxSlots, history)
    ensures synced && (outcome != PrefillFailed || |prompt| <= ctx.nBatch) ==> LedgersSynced(store.View(ctx))
    ensures synced && outcome != PrefillFailed ==>
      Gives(if stats.prefilled > 0 then Answer(m, prompt, nGen) else Resumed(m, old(ctx.logits), prompt, nGen), outcome, emitted)
    ensures outcome != PrefillFailed ==>
      stats.reused + stats.prefilled == |prompt| && ReusesFor(before, id, restart, prompt, refused, stats.reused)
    ensures Ends(outcome, |emitted|, nGen, ctx.fails, from, ctx.decodes, polls)
  {
    ghost var mid := store.View(ctx);
    outcome, emitted, stats := RunConversation(store, m, ctx, id, prompt, nGen, polls);
    BoundAndAnswered(before, mid, store.View(ctx), id, owner, restart, store.maxPerUser, store.maxSlots, history);
    if outcome != PrefillFailed { CarriedReuses(before, mid, id, restart, prompt, old(ctx.refuses(ctx.removals)), refused, stats); }
  }

  /** A request that belongs to a conversation. Its answer is the greedy one, except that a prompt which
      the conversation had wholly cached may start from the logits of another context. */
  method ServeConversation(store: Store, m: Model, ctx: LlamaContext, id: Id, owner: Owner, restart: bool,
                           prompt: seq<Token>, nGen: int, polls: Faults)
    returns (access: Access, outcome: Outcome, emitted: seq<Token>, stats: PrefillStats)
    requires store.Valid(ctx) && prompt != []
    modifies store`slots, store`seqFree, store`tick, store`history, ctx
    ensures store.Valid(ctx)
    ensures access == Granted <==> Grants(old(store.slots), id, owner, restart)
    ensures access == Granted ==> Ends(outcome, |emitted|, nGen, ctx.fails, old(ctx.decodes), ctx.decodes, polls)
    ensures access == OwnerMismatch ==> outcome == Refused && emitted == [] && ctx.decodes == old(ctx.decodes)
    // what becomes of the store: a refused request changes nothing, and a granted one spares all other conversations,
    // except that a new or restarted one may take the place of the longest unused
    ensures access == OwnerMismatch ==> store.View(ctx) == old(store.View(ctx)) && store.history == old(store.history)
    ensures access == Granted ==> store.history == old(store.history) + [id] 
    ensures access == Granted ==>
      Bound(old(store.View(ctx)), store.View(ctx), id, owner, restart, store.maxPerUser, store.maxSlots, old(store.history))
    ensures old(LedgersSynced(store.View(ctx))) && (outcome != PrefillFailed || |prompt| <= ctx.nBatch) ==>
      LedgersSynced(store.View(ctx))
    ensures old(LedgersSynced(store.View(ctx))) && access == Granted && outcome != PrefillFailed ==>
      Gives(if stats.prefilled > 0 then Answer(m, prompt, nGen) else Resumed(m, old(ctx.logits), prompt, nGen), outcome, emitted)
    ensures access == Granted && outcome != PrefillFailed ==>
      && stats.reused + stats.prefilled == |prompt|
      && ReusesFor(old(store.View(ctx)), id, restart, prompt, ctx.refuses(old(ctx.removals)), stats.reused)
  {
    outcome, emitted, stats := Refused, [], PrefillStats(0, 0);
    ghost var synced := LedgersSynced(store.View(ctx));
    access := BindConversation(store, ctx, id, owner, restart);
    if access == Granted {
      outcome, emitted, stats := RunBound(store, m, ctx, id, owner, restart, prompt, nGen, polls,
                                          old(store.View(ctx)), old(store.history), ctx.refuses(old(ctx.removals)), synced, old(ctx.decodes));
    }
  }

  /** A request without a conversation borrows lane 0 and leaves it empty, whoever holds it. */
  method ServeStateless(store: Store, m: Model, ctx: LlamaContext, prompt: seq<Token>, nGen: int, polls: Faults)
    returns (outcome: Outcome, emitted: seq<Token>)
    requires store.Valid(ctx) && prompt != []
    modifies ctx
    ensures store.Valid(ctx) && ctx.kv == old(ctx.kv)[0 := []]
    ensures old(LedgersSynced(store.View(ctx))) ==> LedgersSynced(store.View(ctx))
    ensures emitted <= Answer(m, prompt, nGen) && (outcome == Completed ==> emitted == Answer(m, prompt, nGen))
    ensures Ends(outcome, |emitted|, nGen, ctx.fails, old(ctx.decodes), ctx.decodes, polls)
  {
    ghost var before := store.View(ctx);
    outcome, emitted := GenerateStateless(m, ctx, prompt, nGen, polls);
    ghost var after := store.View(ctx);
    LaneEmptied(before, after, 0);
  }

  lemma {:induction false} LaneEmptied(v: View, r: View, lane: nat)
    requires Sound(v) && lane < |v.kv| && r == v.(kv := v.kv[lane := []])
    ensures Sound(r) && (LedgersSynced(v) ==> LedgersSynced(r))
  {
    forall id | id in r.slots ensures SlotOk(r, id) && (LedgerOk(v, id) ==> LedgerOk(r, id)) { assert SlotOk(v, id); }
    forall a, b | a in r.slots && b in r.slots && a != b ensures Apart(r, a, b) { assert Apart(v, a, b); }
    forall l: nat | l < |r.free| ensures LaneOk(r, l) {
      assert LaneOk(v, l);
      if !r.free[l] {
        var other :| HolderOf(v, l, other);
        assert HolderOf(r, l, other);
      }
    }
  }

  /** A store of two lanes and one slot per user, holding an anonymous conversation and one of `user`. */
  method TwoConversations(first: Id, second: Id, user: Owner) returns (s: Store, ctx: LlamaContext)
    requires first != second && user != Nobody
    ensures fresh(s) && fresh(ctx) && s.Valid(ctx) && s.maxPerUser == 1 && s.slots.Keys == {first, second}
    ensures s.slots[first].owner == Nobody && s.slots[second].owner == user
  {
    ctx := new LlamaContext(2, 8, k => false, k => false);
    s := new Store(8);
    s.SetMaxSlotsPerUser(1);
    s.SetSeqCapacity(2, ctx);
    CountAllFree(s.seqFree);
    AddSlot(s, ctx, first, Nobody);
    AddSlot(s, ctx, second, user);
  }

  /** A new conversation in a store with room and a free lane. */
  method AddSlot(s: Store, ctx: LlamaContext, id: Id, owner: Owner)
    requires s.Valid(ctx) && id !in s.slots && WithinCap(s.slots, s.maxPerUser) && s.maxPerUser > 0
    requires |s.slots| < s.maxSlots && CountFree(s.seqFree) > 0 && OwnedBy(s.slots, owner) == {}
    modifies s`slots, s`seqFree, s`tick, s`history, ctx`kv, ctx`removals
    ensures s.Valid(ctx) && WithinCap(s.slots, s.maxPerUser)
    ensures s.slots.Keys == old(s.slots.Keys) + {id} && |s.slots| == old(|s.slots|) + 1
    ensures s.slots[id].owner == owner && forall o :: o in old(s.slots) ==> s.slots[o] == old(s.slots)[o]
    ensures CountFree(s.seqFree) == old(CountFree(s.seqFree)) - 1
  {
    ghost var before := s.View(ctx);
    var access := s.GetOrCreate(id, owner, ctx);
    NothingDisplaced(before, s.View(ctx), id, owner, s.maxPerUser, s.maxSlots, old(s.history));
  }

  /** A run above the cap of one slot per user: the user adopts the anonymous conversation. */
  method AboveCap() returns (held: nat, ghost store: Store)
    ensures held == 2 && store.maxPerUser == 1 && held == |OwnedBy(store.slots, User("u"))|
  {
    var first, second, user := Id("a"), Id("b"), User("u");
    var s, ctx := TwoConversations(first, second, user);
    ghost var before := s.slots;
    var access := s.GetOrCreate(first, user, ctx);
    BothOwned(before, s.slots, first, second, user);
    held := s.CountForOwner(user);
    store := s;
  }

  lemma {:induction false} BothOwned(before: Slots, after: Slots, first: Id, second: Id, user: Owner)
    requires before.Keys == after.Keys == {first, second} && first != second
    requires after[first].owner == user && after[second] == before[second] && before[second].owner == user
    ensures OwnedBy(after, user) == {first, second} && |OwnedBy(after, user)| == 2
  {
    assert OwnedBy(after, user) == {first, second};
  }

  /** A new conversation for which there is room. */
  lemma {:induction false} NothingDisplaced(v: View, r: View, id: Id, owner: Owner, cap: nat, maxSlots: nat, history: seq<Id>)
    requires Sound(v) && Sound(r) && id !in v.slots && Took(v, r, id, owner, cap, maxSlots, history)
    requires OwnedBy(v.slots, owner) == {} && |v.slots| < maxSlots && CountFree(v.free) > 0
    ensures r.slots.Keys == v.slots.Keys + {id} && |r.slots| == |v.slots| + 1 && CountFree(r.free) == CountFree(v.free) - 1
    ensures forall o :: o in v.slots ==> r.slots[o] == v.slots[o]
  {
    assert v.slots.Keys - r.slots.Keys == {};
    assert |r.slots.Keys| == |r.slots| && |v.slots.Keys| == |v.slots|;
  }
}
