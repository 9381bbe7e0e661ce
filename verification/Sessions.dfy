/** Prefix reuse on one conversation lane: a context that holds several token lanes, the ledger a
    slot keeps of its lane, and generation on top of it. */
module Sessions {
  import opened Decoding

  /** Conversation ids, and tenants; requests outside API mode belong to nobody. */
  datatype Id = Id(text: string)
  datatype Owner = Nobody | User(name: string)

  /** A conversation: the tokens it believes its lane holds, its lane, and when it was last used. */
  datatype Slot = Slot(id: Id, owner: Owner, ledger: seq<Token>, lane: int, lastTick: int)

  /** The inference context: the tokens of each lane, and the context that the most recent logits,
      shared by all lanes, were computed for. Any set of decode calls may fail, and any set of partial
      removals may be refused. */
  class LlamaContext {
    const nBatch: nat
    const fails: Faults
    const refuses: Faults
    var kv: seq<seq<Token>>
    var logits: seq<Token>
    var decodes: nat
    var removals: nat

    constructor (lanes: nat, nBatch: nat, fails: Faults, refuses: Faults)
      requires nBatch > 0
      ensures this.nBatch == nBatch && this.fails == fails && this.refuses == refuses && decodes == removals == 0
      ensures |kv| == lanes && forall l :: 0 <= l < lanes ==> kv[l] == []
    {
      this.nBatch, this.fails, this.refuses := nBatch, fails, refuses;
      kv, logits, decodes, removals := seq(lanes, _ => []), [], 0, 0;
    }

    /** Appends a batch of a size the context takes to a lane; a failed decode changes nothing. */
    method Decode(lane: nat, batch: seq<Token>, wantLogits: bool) returns (ok: bool)
      requires lane < |kv| && 0 < |batch| <= nBatch
      modifies this`kv, this`logits, this`decodes
      ensures ok == !fails(old(decodes)) && decodes == old(decodes) + 1
      ensures if ok then kv == old(kv)[lane := old(kv)[lane] + batch] else kv == old(kv)
      ensures logits == if ok && wantLogits then old(kv)[lane] + batch else old(logits)
    {
      ok := !fails(decodes);
      decodes := decodes + 1;
      if ok {
        kv := kv[lane := kv[lane] + batch];
        if wantLogits { logits := kv[lane]; }
      }
    }

    /** Removing a whole lane always succeeds; removing a tail may be refused. */
    method SeqRm(lane: nat, from: nat) returns (ok: bool)
      requires lane < |kv| && from <= |kv[lane]|
      modifies this`kv, this`removals
      ensures ok == (from == 0 || !refuses(old(removals))) && removals == old(removals) + 1
      ensures kv == if ok then old(kv)[lane := old(kv)[lane][..from]] else old(kv)
      ensures unchanged(this`decodes, this`logits)
    {
      ok := from == 0 || !refuses(removals);
      removals := removals + 1;
      if ok { kv := kv[lane := kv[lane][..from]]; }
    }
  }

  /** The token-level longest common prefix. */
  method TokenCommonPrefix(a: seq<Token>, b: seq<Token>) returns (i: nat)
    ensures i <= |a| && i <= |b| && a[..i] == b[..i]
    ensures i < |a| && i < |b| ==> a[i] != b[i]
  {
    i := 0;
    while i < |a| && i < |b| && a[i] == b[i]
      invariant i <= |a| && i <= |b| && a[..i] == b[..i]
    {
      i := i + 1;
    }
  }

  /** A ledger of the same length as its lane is the lane. */
  ghost predicate Synced(ledger: seq<Token>, lane: seq<Token>) {
    |ledger| == |lane| ==> ledger == lane
  }

  function Times(q: nat, n: nat): int {
    q * n
  }

  /** `j` tokens make a whole number of batches. */
  ghost predicate WholeBatches(j: nat, nBatch: nat) {
    exists q: nat :: j == Times(q, nBatch)
  }

  /** How many of `n` tokens get decoded when batches go out from decode call `from` on until one fails,
      and the number of the decode call that comes next. */
  function Progress(fails: Faults, from: nat, n: nat, nBatch: nat): (r: (nat, nat))
    requires nBatch > 0
    ensures r.0 <= n && from <= r.1
    decreases n
  {
    if n == 0 then (0, from)
    else if fails(from) then (0, from + 1)
    else if n <= nBatch then (n, from + 1)
    else
      var (done, next) := Progress(fails, from + 1, n - nBatch, nBatch);
      (nBatch + done, next)
  }

  /** Decoding stops short only between batches, and never without a fault. */
  lemma {:induction false} ProgressFacts(fails: Faults, from: nat, n: nat, nBatch: nat)
    requires nBatch > 0
    ensures var (done, next) := Progress(fails, from, n, nBatch);
      && (done < n ==> WholeBatches(done, nBatch) && next > from && fails(next - 1))
      && (done == n ==> NoneFailed(fails, from, next))
      && (Never(fails) ==> done == n)
    decreases n
  {
    assert Times(0, nBatch) == 0;
    if n > nBatch && !fails(from) {
      ProgressFacts(fails, from + 1, n - nBatch, nBatch);
      var done := Progress(fails, from + 1, n - nBatch, nBatch).0;
      if done < n - nBatch {
        var q: nat :| done == Times(q, nBatch);
        assert Times(q + 1, nBatch) == nBatch + done;
      }
    }
  }

  /** Any number of whole batches below the total can be where decoding stops. */
  lemma {:induction false} StopsAfter(from: nat, n: nat, nBatch: nat, q: nat)
    requires nBatch > 0 && Times(q, nBatch) < n
    ensures Progress(k => k == from + q, from, n, nBatch).0 == Times(q, nBatch)
    decreases q
  {
    if q > 0 {
      assert Times(q, nBatch) == Times(q - 1, nBatch) + nBatch;
      TimesAtLeast(q, nBatch);
      StopsAfter(from + 1, n - nBatch, nBatch, q - 1);
      SameFaults(k => k == from + 1 + (q - 1), k => k == from + q, from + 1, n - nBatch, nBatch);
    }
  }

  lemma {:induction false} SameFaults(f: Faults, g: Faults, from: nat, n: nat, nBatch: nat)
    requires nBatch > 0 && forall k: nat :: f(k) == g(k)
    ensures Progress(f, from, n, nBatch) == Progress(g, from, n, nBatch)
    decreases n
  {
    if n > nBatch { SameFaults(f, g, from + 1, n - nBatch, nBatch); }
  }

  /** The lanes after `n` of the tokens have been appended to one of them. */
  function Filled(kv: seq<seq<Token>>, lane: nat, tokens: seq<Token>, n: nat): (r: seq<seq<Token>>)
    requires lane < |kv| && n <= |tokens|
    ensures |r| == |kv|
  {
    kv[lane := kv[lane] + tokens[..n]]
  }

  lemma {:induction false} AppendMore(kv: seq<seq<Token>>, lane: nat, tokens: seq<Token>, off: nat, len: nat)
    requires lane < |kv| && off + len <= |tokens|
    ensures var now := Filled(kv, lane, tokens, off);
      now[lane := now[lane] + tokens[off..off + len]] == Filled(kv, lane, tokens, off + len)
    ensures off + len == |tokens| ==> Filled(kv, lane, tokens, off + len)[lane] == kv[lane] + tokens
  {
    assert kv[lane] + tokens[..off] + tokens[off..off + len] == kv[lane] + tokens[..off + len];
  }

  /** With `done` tokens decoded and `left` to go, the whole prefill will end as `all` says. */
  ghost predicate Ahead(ctx: LlamaContext, now: nat, left: nat, all: (nat, nat), done: nat)
    requires ctx.nBatch > 0
  {
    var rest := Progress(ctx.fails, now, left, ctx.nBatch);
    all == (done + rest.0, rest.1)
  }

  /** Decodes the batch that starts at `off`; logits are asked for on the last token only. */
  method PrefillBatch(ctx: LlamaContext, lane: nat, tokens: seq<Token>, off: nat, ghost before: seq<seq<Token>>,
                      ghost all: (nat, nat))
    returns (ok: bool, len: nat)
    requires ctx.nBatch > 0 && lane < |before| && off < |tokens| && Ahead(ctx, ctx.decodes, |tokens| - off, all, off)
    requires ctx.kv == Filled(before, lane, tokens, off)
    modifies ctx
    ensures len == if ctx.nBatch < |tokens| - off then ctx.nBatch else |tokens| - off
    ensures ctx.kv == Filled(before, lane, tokens, if ok then off + len else off)
    ensures ctx.logits == (if ok && off + len == |tokens| then before[lane] + tokens else old(ctx.logits))
    ensures ctx.removals == old(ctx.removals)
    ensures if ok then Ahead(ctx, ctx.decodes, |tokens| - off - len, all, off + len) else all == (off, ctx.decodes)
  {
    len := if ctx.nBatch < |tokens| - off then ctx.nBatch else |tokens| - off;
    AppendMore(before, lane, tokens, off, len);
    ok := ctx.Decode(lane, tokens[off..off + len], off + len == |tokens|);
  }

  /** Appends `tokens` to a lane in batches until one fails. */
  method PrefillChunked(ctx: LlamaContext, lane: nat, tokens: seq<Token>) returns (ok: bool, ghost done: nat)
    requires ctx.nBatch > 0 && lane < |ctx.kv|
    modifies ctx
    ensures (done, ctx.decodes) == Progress(ctx.fails, old(ctx.decodes), |tokens|, ctx.nBatch)
    ensures ok == (done == |tokens|)
    ensures ctx.kv == old(ctx.kv)[lane := old(ctx.kv)[lane] + tokens[..done]]
    ensures ctx.logits == (if ok && tokens != [] then old(ctx.kv)[lane] + tokens else old(ctx.logits))
    ensures ctx.removals == old(ctx.removals)
  {
    done := 0;
    var off := 0;
    ghost var before := ctx.kv;
    ghost var all := Progress(ctx.fails, ctx.decodes, |tokens|, ctx.nBatch);
    assert before[lane] + tokens[..0] == before[lane];
    assert Filled(before, lane, tokens, 0) == before;
    while off < |tokens|
      invariant 0 <= off && done == (if off <= |tokens| then off else |tokens|)
      invariant ctx.kv == Filled(before, lane, tokens, done) && ctx.removals == old(ctx.removals)
      invariant Ahead(ctx, ctx.decodes, |tokens| - done, all, done)
      invariant ctx.logits == if 0 < |tokens| <= off then before[lane] + tokens else old(ctx.logits)
    {
      var good, len := PrefillBatch(ctx, lane, tokens, off, before, all);
      if !good { return false, done; }
      off := off + ctx.nBatch;
      done := done + len;
    }
    return true, done;
  }

  datatype PrefillStats = PrefillStats(reused: nat, prefilled: nat)

  function CommonPrefix(a: seq<Token>, b: seq<Token>): (n: nat)
    ensures n <= |a| && n <= |b|
  {
    if a == [] || b == [] || a[0] != b[0] then 0 else 1 + CommonPrefix(a[1..], b[1..])
  }

  /** Agreement up to `i` and disagreement (or an end) at `i` pin the common prefix down. */
  lemma {:induction false} CommonPrefixIs(a: seq<Token>, b: seq<Token>, i: nat)
    requires i <= |a| && i <= |b| && a[..i] == b[..i] && (i < |a| && i < |b| ==> a[i] != b[i])
    ensures CommonPrefix(a, b) == i
  {
    if i > 0 {
      assert a[0] == a[..i][0] && b[0] == b[..i][0];
      assert a[1..][..i - 1] == a[..i][1..] && b[1..][..i - 1] == b[..i][1..];
      CommonPrefixIs(a[1..], b[1..], i - 1);
    }
  }

  lemma {:induction false} CommonPrefixAgrees(a: seq<Token>, b: seq<Token>)
    ensures a[..CommonPrefix(a, b)] == b[..CommonPrefix(a, b)]
  {
    if a != [] && b != [] && a[0] == b[0] {
      CommonPrefixAgrees(a[1..], b[1..]);
      var n := CommonPrefix(a[1..], b[1..]);
      assert a[..n + 1] == [a[0]] + a[1..][..n] && b[..n + 1] == [b[0]] + b[1..][..n];
    }
  }

  /** Empties the slot's lane and its ledger. */
  method ResetKv(ctx: LlamaContext, slot: Slot) returns (slot': Slot)
    requires 0 <= slot.lane < |ctx.kv|
    modifies ctx`kv, ctx`removals
    ensures slot' == slot.(ledger := []) && ctx.kv == old(ctx.kv)[slot.lane := []]
    ensures unchanged(ctx`decodes, ctx`logits)
  {
    var ok := ctx.SeqRm(slot.lane, 0);
    slot' := slot.(ledger := []);
  }

  /** What a successful prefill leaves in the lane. A lane whose length the ledger does not explain is
      rebuilt; otherwise the part common to ledger and prompt is kept and the rest decoded. */
  ghost predicate Prefilled(before: seq<Token>, ledger: seq<Token>, prompt: seq<Token>, after: seq<Token>) {
    || after == prompt
    || (before != [] && |ledger| == |before|
        && var n := CommonPrefix(ledger, prompt); after == before[..n] + prompt[n..])
  }

  /** What a failed prefill leaves: some whole batches, on top of the kept part or of an empty lane. */
  ghost predicate Abandoned(before: seq<Token>, ledger: seq<Token>, prompt: seq<Token>,
                            ledger': seq<Token>, after: seq<Token>, nBatch: nat)
    requires nBatch > 0
  {
    || (before == [] && ledger' == ledger && Partial(prompt, after, 0, [], nBatch))
    || (before != [] && ledger' == [] && Partial(prompt, after, 0, [], nBatch))
    || (before != [] && |ledger| == |before|
        && var n := CommonPrefix(ledger, prompt);
           ledger' == prompt[..n] && Partial(prompt, after, n, before[..n], nBatch))
  }

  /** The lane is empty, or the ledger explains its length and the prompt continues the ledger:
      nothing has to be removed. */
  ghost predicate OnlyGrows(before: seq<Token>, ledger: seq<Token>, prompt: seq<Token>) {
    before == [] || (|ledger| == |before| && ledger <= prompt)
  }

  /** The ledger already covers the whole prompt. */
  ghost predicate WhollyCached(before: seq<Token>, ledger: seq<Token>, prompt: seq<Token>) {
    before != [] && |ledger| == |before| && prompt <= ledger
  }

  /** What may be reported as reused: nothing, or the part common to prompt and ledger. */
  ghost predicate Reuses(before: seq<Token>, ledger: seq<Token>, prompt: seq<Token>, reused: nat) {
    && (reused > 0 ==> before != [] && |ledger| == |before| && reused == CommonPrefix(ledger, prompt))
    && (reused == |prompt| > 0 ==> WhollyCached(before, ledger, prompt))
  }

  /** What is reused: all of the part common to prompt and ledger, unless the ledger does not explain the lane or the
      removal of what is behind that part is refused. */
  ghost predicate Saves(before: seq<Token>, ledger: seq<Token>, prompt: seq<Token>, refused: bool, reused: nat) {
    var n := CommonPrefix(ledger, prompt);
    reused == if before != [] && |ledger| == |before| && (n == |ledger| || n == 0 || !refused) then n else 0
  }

  ghost predicate Partial(prompt: seq<Token>, after: seq<Token>, n: nat, kept: seq<Token>, nBatch: nat)
    requires n <= |prompt| && nBatch > 0
  {
    exists j: nat :: n + j < |prompt| && WholeBatches(j, nBatch) && after == kept + prompt[n..n + j]
  }

  /** All decode calls from `from` up to `to` succeeded, or all but the last one did. */
  ghost predicate Decoded(ok: bool, fails: Faults, from: nat, to: nat) {
    from <= to && if ok then NoneFailed(fails, from, to) else from < to && fails(to - 1)
  }

  /** Decodes the rest of the prompt behind a lane that holds its first `n` tokens. */
  method ExtendLane(ctx: LlamaContext, slot: Slot, prompt: seq<Token>, n: nat)
    returns (ok: bool, slot': Slot, stats: PrefillStats)
    requires ctx.nBatch > 0 && 0 <= slot.lane < |ctx.kv| && n == |ctx.kv[slot.lane]| <= |prompt|
    modifies ctx
    ensures |ctx.kv| == |old(ctx.kv)| && ctx.kv == old(ctx.kv)[slot.lane := ctx.kv[slot.lane]]
    ensures var (done, next) := Progress(ctx.fails, old(ctx.decodes), |prompt| - n, ctx.nBatch);
      && ok == (n + done == |prompt|) && ctx.decodes == next
      && ctx.kv[slot.lane] == old(ctx.kv)[slot.lane] + prompt[n..n + done]
    ensures slot' == (if ok then slot.(ledger := prompt) else slot) && (ok ==> stats == PrefillStats(n, |prompt| - n))
    ensures ctx.logits == if ok && n < |prompt| then ctx.kv[slot.lane] else old(ctx.logits)
    ensures !ok ==> Partial(prompt, ctx.kv[slot.lane], n, old(ctx.kv)[slot.lane], ctx.nBatch)
    ensures Decoded(ok, ctx.fails, old(ctx.decodes), ctx.decodes)
  {
    var lane: nat := slot.lane;
    slot', stats := slot, PrefillStats(n, 0);
    ghost var before, done := ctx.kv[lane], 0;
    assert before + prompt[n..n] == before;
    if n < |prompt| {
      ProgressFacts(ctx.fails, ctx.decodes, |prompt| - n, ctx.nBatch);
      ok, done := PrefillChunked(ctx, lane, prompt[n..]);
      assert prompt[n..][..done] == prompt[n..n + done];
      if !ok { return; }
      stats := stats.(prefilled := |prompt| - n);
    }
    ok := true;
    slot' := slot.(ledger := prompt);
  }

  /** Makes the lane of `slot` hold exactly the prompt, decoding only what is not already there. */
  method SessionPrefill(ctx: LlamaContext, slot: Slot, prompt: seq<Token>)
    returns (ok: bool, slot': Slot, stats: PrefillStats)
    requires ctx.nBatch > 0 && slot.lane < |ctx.kv|
    modifies ctx
    ensures slot' == slot.(ledger := slot'.ledger)
    ensures prompt == [] || slot.lane < 0 ==> ok == (prompt == []) && slot' == slot && ctx.kv == old(ctx.kv) && ctx.logits == old(ctx.logits)
    ensures 0 <= slot.lane ==> |ctx.kv| == |old(ctx.kv)| && ctx.kv == old(ctx.kv)[slot.lane := ctx.kv[slot.lane]]
    ensures ok && prompt != [] ==>
      && 0 <= slot.lane && slot'.ledger == prompt && stats.reused + stats.prefilled == |prompt|
      && Prefilled(old(ctx.kv)[slot.lane], slot.ledger, prompt, ctx.kv[slot.lane])
      && ctx.logits == (if stats.prefilled > 0 then ctx.kv[slot.lane] else old(ctx.logits))
      && Reuses(old(ctx.kv)[slot.lane], slot.ledger, prompt, stats.reused)
    ensures 0 <= slot.lane && prompt != [] && OnlyGrows(old(ctx.kv)[slot.lane], slot.ledger, prompt) ==>
      var before := old(ctx.kv)[slot.lane]; var n := |before|;
      var (done, next) := Progress(ctx.fails, old(ctx.decodes), |prompt| - n, ctx.nBatch);
      && ok == (n + done == |prompt|) && ctx.decodes == next && ctx.kv[slot.lane] == before + prompt[n..n + done]
      && slot'.ledger == (if ok then prompt else slot.ledger) && (ok ==> stats == PrefillStats(n, |prompt| - n))
    ensures 0 <= slot.lane ==> Decoded(ok, ctx.fails, old(ctx.decodes), ctx.decodes)
    // the common prefix is kept unless the removal of what is behind it is refused
    ensures ok && prompt != [] ==>
      var before, n := old(ctx.kv)[slot.lane], CommonPrefix(slot.ledger, prompt);
      stats.reused == if before != [] && |slot.ledger| == |before| && (n == |slot.ledger| || n == 0 || !ctx.refuses(old(ctx.removals)))
                      then n else 0
    ensures !ok && 0 <= slot.lane ==>
      Abandoned(old(ctx.kv)[slot.lane], slot.ledger, prompt, slot'.ledger, ctx.kv[slot.lane], ctx.nBatch)
    decreases if 0 <= slot.lane < |ctx.kv| then |ctx.kv[slot.lane]| else 0, 2
  {
    slot', stats := slot, PrefillStats(0, 0);
    if prompt == [] { return true, slot', stats; }
    if slot.lane < 0 { return false, slot', stats; }
    if |ctx.kv[slot.lane]| == 0 {
      ok, slot', stats := ExtendLane(ctx, slot, prompt, 0);
      assert prompt[0..|prompt|] == prompt;
    } else if |slot.ledger| != |ctx.kv[slot.lane]| {
      ok, slot', stats := Rebuild(ctx, slot, prompt);
    } else {
      ok, slot', stats := KeepCommon(ctx, slot, prompt);
      if ok { ReusesIf(old(ctx.kv)[slot.lane], slot.ledger, prompt, stats.reused); }
    }
  }

  lemma {:induction false} ReusesIf(before: seq<Token>, ledger: seq<Token>, prompt: seq<Token>, reused: nat)
    requires before != [] && |ledger| == |before| && (reused == 0 || reused == CommonPrefix(ledger, prompt))
    ensures Reuses(before, ledger, prompt, reused)
  {
    CommonPrefixAgrees(ledger, prompt);
    if reused == |prompt| { assert prompt[..|prompt|] == prompt; }
  }

  /** Empties the lane and starts over. */
  method Rebuild(ctx: LlamaContext, slot: Slot, prompt: seq<Token>)
    returns (ok: bool, slot': Slot, stats: PrefillStats)
    requires ctx.nBatch > 0 && 0 <= slot.lane < |ctx.kv| && prompt != [] && ctx.kv[slot.lane] != []
    modifies ctx
    ensures |ctx.kv| == |old(ctx.kv)| && ctx.kv == old(ctx.kv)[slot.lane := ctx.kv[slot.lane]]
    ensures slot' == slot.(ledger := if ok then prompt else []) && (ok ==> stats == PrefillStats(0, |prompt|))
    ensures ok ==> ctx.kv[slot.lane] == prompt && ctx.logits == prompt
    ensures !ok ==> Partial(prompt, ctx.kv[slot.lane], 0, [], ctx.nBatch)
    ensures Decoded(ok, ctx.fails, old(ctx.decodes), ctx.decodes)
    decreases |ctx.kv[slot.lane]|, 0
  {
    slot' := ResetKv(ctx, slot);
    ok, slot', stats := SessionPrefill(ctx, slot', prompt);
    assert prompt[0..|prompt|] == prompt;
  }

  /** Removes what the prompt does not share with the ledger and decodes the rest of the prompt. */
  method KeepCommon(ctx: LlamaContext, slot: Slot, prompt: seq<Token>)
    returns (ok: bool, slot': Slot, stats: PrefillStats)
    requires ctx.nBatch > 0 && 0 <= slot.lane < |ctx.kv| && prompt != []
    requires ctx.kv[slot.lane] != [] && |slot.ledger| == |ctx.kv[slot.lane]|
    modifies ctx
    ensures slot' == slot.(ledger := slot'.ledger)
    ensures |ctx.kv| == |old(ctx.kv)| && ctx.kv == old(ctx.kv)[slot.lane := ctx.kv[slot.lane]]
    ensures ok ==>
      && slot'.ledger == prompt && stats.reused + stats.prefilled == |prompt|
      && Prefilled(old(ctx.kv)[slot.lane], slot.ledger, prompt, ctx.kv[slot.lane])
      && ctx.logits == (if stats.prefilled > 0 then ctx.kv[slot.lane] else old(ctx.logits))
    ensures slot.ledger <= prompt ==>
      var before := old(ctx.kv)[slot.lane]; var n := |before|;
      var (done, next) := Progress(ctx.fails, old(ctx.decodes), |prompt| - n, ctx.nBatch);
      && ok == (n + done == |prompt|) && ctx.decodes == next && ctx.kv[slot.lane] == before + prompt[n..n + done]
      && slot'.ledger == (if ok then prompt else slot.ledger) && (ok ==> stats == PrefillStats(n, |prompt| - n))
    ensures Decoded(ok, ctx.fails, old(ctx.decodes), ctx.decodes)
    ensures ok ==>
      var n := CommonPrefix(slot.ledger, prompt);
      stats.reused == if n == |slot.ledger| || n == 0 || !ctx.refuses(old(ctx.removals)) then n else 0
    ensures !ok ==>
      Abandoned(old(ctx.kv)[slot.lane], slot.ledger, prompt, slot'.ledger, ctx.kv[slot.lane], ctx.nBatch)
    decreases |ctx.kv[slot.lane]|, 1
  {
    var lane: nat := slot.lane;
    ghost var before := ctx.kv[lane];
    slot' := slot;
    var n := TokenCommonPrefix(slot.ledger, prompt);
    CommonPrefixIs(slot.ledger, prompt, n);
    assert slot.ledger <= prompt ==> n == |slot.ledger|;
    if n < |slot.ledger| {
      var removed := ctx.SeqRm(lane, n);
      if !removed {
        ok, slot', stats := Rebuild(ctx, slot, prompt);
        return;
      }
      slot' := slot.(ledger := slot.ledger[..n]);
    }
    assert slot'.ledger == prompt[..n] && ctx.kv[lane] == before[..n];
    ok, slot', stats := ExtendLane(ctx, slot', prompt, n);
    assert prompt[n..|prompt|] == prompt[n..];
  }

  // ---------------------------------------------------------------- when reuse is sound

  /** With a synced ledger a successful prefill leaves exactly the prompt, as a stateless one would. */
  lemma {:induction false} SyncedPrefillIsPrompt(before: seq<Token>, ledger: seq<Token>, prompt: seq<Token>, after: seq<Token>)
    requires Synced(ledger, before) && Prefilled(before, ledger, prompt, after)
    ensures after == prompt
  {
    CommonPrefixAgrees(ledger, prompt);
    var n := CommonPrefix(ledger, prompt);
    assert prompt == prompt[..n] + prompt[n..];
  }

  /** When the kept part is reused, the result is the prompt if and only if the lane really held what
      the ledger says over the common prefix. */
  lemma {:induction false} ReuseIsSoundIff(before: seq<Token>, ledger: seq<Token>, prompt: seq<Token>)
    requires |ledger| == |before|
    ensures var n := CommonPrefix(ledger, prompt);
      before[..n] + prompt[n..] == prompt <==> before[..n] == ledger[..n]
  {
    CommonPrefixAgrees(ledger, prompt);
    var n := CommonPrefix(ledger, prompt);
    assert prompt == prompt[..n] + prompt[n..];
    if before[..n] + prompt[n..] == prompt {
      assert (before[..n] + prompt[n..])[..n] == before[..n];
    }
  }

  lemma {:induction false} TimesAtLeast(q: nat, n: nat)
    ensures q > 0 ==> Times(q, n) >= n
  {
    if q > 1 { TimesAtLeast(q - 1, n); }
  }

  /** Before the call: the lane was emptied behind the ledger's back, and the ledger is some whole batches
      long, shorter than the prompt and no prefix of it. */
  ghost predicate MayGoStale(before: seq<Token>, ledger: seq<Token>, prompt: seq<Token>, nBatch: nat) {
    && before == [] && 0 < |ledger| < |prompt| && WholeBatches(|ledger|, nBatch)
    && ledger != prompt[..|ledger|]
  }

  /** A failed prefill keeps the ledger synced, unless the ledger may go stale and decoding stopped
      exactly at its length. */
  lemma {:induction false} AbandonedKeepsSynced(before: seq<Token>, ledger: seq<Token>, prompt: seq<Token>,
                             ledger': seq<Token>, after: seq<Token>, nBatch: nat)
    requires nBatch > 0 && Synced(ledger, before) && Abandoned(before, ledger, prompt, ledger', after, nBatch)
    ensures Synced(ledger', after) <==> !(MayGoStale(before, ledger, prompt, nBatch) && |after| == |ledger|)
    ensures |prompt| <= nBatch ==> Synced(ledger', after)
  {
    CommonPrefixAgrees(ledger, prompt);
    if before == [] {
      var j: nat :| j < |prompt| && WholeBatches(j, nBatch) && after == [] + prompt[0..0 + j];
      var q: nat :| j == Times(q, nBatch);
      TimesAtLeast(q, nBatch);
    }
  }

  /** What a prefill on an emptied lane leaves when it fails, as `SessionPrefill` states it. */
  ghost predicate GoesStale(ledger: seq<Token>, prompt: seq<Token>, fails: Faults, from: nat, nBatch: nat)
    requires nBatch > 0
  {
    var done := Progress(fails, from, |prompt|, nBatch).0;
    done < |prompt| && !Synced(ledger, prompt[..done])
  }

  /** Some pattern of decode failures makes the ledger stale if and only if it may go stale. */
  lemma {:induction false} StaleIff(ledger: seq<Token>, prompt: seq<Token>, from: nat, nBatch: nat)
    requires nBatch > 0 && Synced(ledger, [])
    ensures (exists fails: Faults :: GoesStale(ledger, prompt, fails, from, nBatch)) <==> MayGoStale([], ledger, prompt, nBatch)
  {
    if MayGoStale([], ledger, prompt, nBatch) {
      var q: nat :| |ledger| == Times(q, nBatch);
      StopsAfter(from, |prompt|, nBatch, q);
      assert GoesStale(ledger, prompt, k => k == from + q, from, nBatch);
    }
    forall fails: Faults | GoesStale(ledger, prompt, fails, from, nBatch) ensures MayGoStale([], ledger, prompt, nBatch) {
      ProgressFacts(fails, from, |prompt|, nBatch);
    }
  }

  /** A run into the exception: the ledger says `a`, a stateless request empties the lane, a two-batch
      prefill fails after its first batch, and the next prefill succeeds with a lane that is not its
      prompt. */
  method StaleLedger(a: Token, b: Token, c: Token) returns (ok: bool, ledger: seq<Token>, lane: seq<Token>)
    requires a != b
    ensures ok && ledger == [a, c] && lane == [b, c] && lane != ledger
  {
    var ctx := new LlamaContext(1, 1, k => k == 2, k => false);
    var slot := Slot(Id(""), Nobody, [], 0, 0);
    var stats;
    assert WholeBatches(0, 1) by { assert Times(0, 1) == 0; }
    ok, slot, stats := SessionPrefill(ctx, slot, [a]);
    assert ok && ctx.kv[0] == [a] && ctx.decodes == 1;
    ok := ctx.SeqRm(0, 0);
    ok, slot, stats := SessionPrefill(ctx, slot, [b, c]);
    assert Progress(ctx.fails, 2, 1, 1) == (0, 3);
    assert !ok && ctx.kv[0] == [b] && slot.ledger == [a] && ctx.decodes == 3;
    ghost var before := ctx.kv[0];
    assert [a, c][0..1] == [a];
    ok, slot, stats := SessionPrefill(ctx, slot, [a, c]);
    assert Progress(ctx.fails, 3, 1, 1) == (1, 4);
    return ok, slot.ledger, ctx.kv[0];
  }

  // ---------------------------------------------------------------- generation on a lane

  /** The greedy answer to `prompt` when its first token is drawn from the logits of another context. */
  function Resumed(m: Model, start: seq<Token>, prompt: seq<Token>, n: int): seq<Token> {
    if n <= 0 || m.eog(m.greedy(start)) then []
    else [m.greedy(start)] + Answer(m, prompt + [m.greedy(start)], n - 1)
  }

  /** Logits of another context give the right answer if and only if they give the right first token. */
  lemma {:induction false} FirstTokenDecides(m: Model, start: seq<Token>, prompt: seq<Token>, n: int)
    ensures Resumed(m, start, prompt, n) == Answer(m, prompt, n) <==>
      n <= 0 || m.greedy(start) == m.greedy(prompt) || (m.eog(m.greedy(start)) && m.eog(m.greedy(prompt)))
  {
    if n > 0 && m.greedy(start) != m.greedy(prompt) && !m.eog(m.greedy(start)) && !m.eog(m.greedy(prompt)) {
      assert Resumed(m, start, prompt, n)[0] != Answer(m, prompt, n)[0];
    }
  }

  /** The context of the logits that give the token after `emitted`. */
  function LogitsAt(start: seq<Token>, prompt: seq<Token>, emitted: seq<Token>): seq<Token> {
    if emitted == [] then start else prompt + emitted
  }

  /** Greedy tokens without a marker, the first of them drawn from the logits of `start`. */
  ghost predicate Resumes(m: Model, start: seq<Token>, prompt: seq<Token>, emitted: seq<Token>) {
    && (forall i :: 0 <= i < |emitted| ==> !m.eog(emitted[i]))
    && (emitted != [] ==>
          emitted[0] == m.greedy(start) && emitted[1..] == Continue(m, prompt + [emitted[0]], |emitted| - 1))
  }

  lemma {:induction false} ResumesMore(m: Model, start: seq<Token>, prompt: seq<Token>, emitted: seq<Token>, id: Token)
    requires Resumes(m, start, prompt, emitted) && !m.eog(id) && id == m.greedy(LogitsAt(start, prompt, emitted))
    ensures Resumes(m, start, prompt, emitted + [id]) && prompt + (emitted + [id]) == prompt + emitted + [id]
  {
    var more := emitted + [id];
    if emitted == [] {
      assert more[1..] == [];
    } else {
      assert more[1..] == emitted[1..] + [id] && more[0] == emitted[0];
      assert prompt + emitted == prompt + [emitted[0]] + emitted[1..];
    }
  }

  lemma {:induction false} ResumesUpTo(m: Model, start: seq<Token>, prompt: seq<Token>, emitted: seq<Token>, n: int)
    requires Resumes(m, start, prompt, emitted) && |emitted| <= n
    ensures emitted <= Resumed(m, start, prompt, n)
    ensures |emitted| == n || m.eog(m.greedy(LogitsAt(start, prompt, emitted))) ==> emitted == Resumed(m, start, prompt, n)
  {
    if emitted != [] {
      var first, rest := emitted[0], emitted[1..];
      assert emitted == [first] + rest && prompt + emitted == prompt + [first] + rest;
      AnswerFromContinue(m, prompt + [first], |rest|, n - 1);
    }
  }

  /** Prefill with reuse, then decode token by token, keeping the ledger in step. When nothing had to be
      prefilled, the first token comes from whatever logits the context last computed. */
  method GenerateInSession(m: Model, ctx: LlamaContext, slot: Slot, prompt: seq<Token>, nGen: int, polls: Faults)
    returns (outcome: Outcome, emitted: seq<Token>, slot': Slot, stats: PrefillStats)
    requires ctx.nBatch > 0 && 0 <= slot.lane < |ctx.kv| && prompt != []
    modifies ctx
    ensures slot' == slot.(ledger := slot'.ledger)
    ensures |ctx.kv| == |old(ctx.kv)| && ctx.kv == old(ctx.kv)[slot.lane := ctx.kv[slot.lane]]
    ensures outcome == PrefillFailed ==>
      Abandoned(old(ctx.kv)[slot.lane], slot.ledger, prompt, slot'.ledger, ctx.kv[slot.lane], ctx.nBatch)
    ensures outcome != PrefillFailed ==>
      && slot'.ledger == prompt + emitted && stats.reused + stats.prefilled == |prompt|
      && Reuses(old(ctx.kv)[slot.lane], slot.ledger, prompt, stats.reused)
    ensures outcome != PrefillFailed && Synced(slot.ledger, old(ctx.kv)[slot.lane]) ==>
      var start := if stats.prefilled > 0 then prompt else old(ctx.logits);
      && emitted <= Resumed(m, start, prompt, nGen) && Synced(slot'.ledger, ctx.kv[slot.lane])
      && (outcome == Completed ==>
            && emitted == Resumed(m, start, prompt, nGen)
            && ctx.kv[slot.lane] == prompt + emitted && ctx.logits == LogitsAt(start, prompt, emitted))
    ensures outcome != PrefillFailed && Synced(slot.ledger, old(ctx.kv)[slot.lane]) ==>
      WhollyCached(old(ctx.kv)[slot.lane], slot.ledger, prompt) ||
      (emitted <= Answer(m, prompt, nGen) && (outcome == Completed ==> emitted == Answer(m, prompt, nGen)))
    ensures outcome != PrefillFailed && OnlyGrows(old(ctx.kv)[slot.lane], slot.ledger, prompt) ==>
      stats == PrefillStats(|old(ctx.kv)[slot.lane]|, |prompt| - |old(ctx.kv)[slot.lane]|)
    ensures outcome != PrefillFailed ==>
      Saves(old(ctx.kv)[slot.lane], slot.ledger, prompt, ctx.refuses(old(ctx.removals)), stats.reused)
    ensures Ends(outcome, |emitted|, nGen, ctx.fails, old(ctx.decodes), ctx.decodes, polls)
  {
    var ok;
    emitted := [];
    ok, slot', stats := SessionPrefill(ctx, slot, prompt);
    if !ok { return PrefillFailed, emitted, slot', stats; }
    var lane: nat := slot.lane;
    ghost var sound := Synced(slot.ledger, old(ctx.kv)[lane]);
    ghost var start := if stats.prefilled > 0 then prompt else old(ctx.logits);
    if sound { SyncedPrefillIsPrompt(old(ctx.kv)[lane], slot.ledger, prompt, ctx.kv[lane]); }
    outcome, emitted := TokenByToken(m, ctx, lane, prompt, nGen, polls, sound, start, old(ctx.decodes));
    slot' := slot'.(ledger := slot'.ledger + emitted);
  }

  /** Samples, emits and decodes one token after the other, asking a poll before each. `start` is the context that
      the first logits belong to, if the lane is `sound`, that is, holds the prompt. */
  method TokenByToken(m: Model, ctx: LlamaContext, lane: nat, ghost prompt: seq<Token>, nGen: int, polls: Faults,
                      ghost sound: bool, ghost start: seq<Token>, ghost from: nat)
    returns (outcome: Outcome, emitted: seq<Token>)
    requires ctx.nBatch > 0 && lane < |ctx.kv| && (sound ==> ctx.kv[lane] == prompt && ctx.logits == start)
    requires Asked(0, ctx.fails, from, ctx.decodes, polls)
    modifies ctx`kv, ctx`logits, ctx`decodes
    ensures |ctx.kv| == |old(ctx.kv)| && ctx.kv == old(ctx.kv)[lane := ctx.kv[lane]]
    ensures outcome == Completed || outcome == Stopped || outcome == DecodeFailed
    ensures Ends(outcome, |emitted|, nGen, ctx.fails, from, ctx.decodes, polls)
    ensures sound ==> emitted <= Resumed(m, start, prompt, nGen) && Synced(prompt + emitted, ctx.kv[lane])
    ensures sound && outcome == Completed ==>
      emitted == Resumed(m, start, prompt, nGen)
      && ctx.kv[lane] == prompt + emitted && ctx.logits == LogitsAt(start, prompt, emitted)
  {
    emitted := [];
    assert prompt + emitted == prompt;
    var i: nat := 0;
    while i < nGen
      invariant i == |emitted| && (i <= nGen || i == 0)
      invariant Asked(i, ctx.fails, from, ctx.decodes, polls)
      invariant |ctx.kv| == |old(ctx.kv)| && ctx.kv == old(ctx.kv)[lane := ctx.kv[lane]]
      invariant sound ==> ctx.kv[lane] == prompt + emitted && ctx.logits == LogitsAt(start, prompt, emitted)
                          && Resumes(m, start, prompt, emitted)
    {
      if sound { ResumesUpTo(m, start, prompt, emitted, nGen); }
      AskedOne(i, nGen, ctx.fails, from, ctx.decodes, polls);
      if polls(i) { return Stopped, emitted; }
      var id := m.greedy(ctx.logits);
      if m.eog(id) { return Completed, emitted; }
      if sound { ResumesMore(m, start, prompt, emitted, id); }
      emitted := emitted + [id];
      var ok := ctx.Decode(lane, [id], true);
      if !ok {
        if sound { ResumesUpTo(m, start, prompt, emitted, nGen); }
        return DecodeFailed, emitted;
      }
      i := i + 1;
    }
    AskedOne(i, nGen, ctx.fails, from, ctx.decodes, polls);
    if sound && nGen > 0 { ResumesUpTo(m, start, prompt, emitted, nGen); }
    outcome := Completed;
  }

  /** A run into stale logits: another conversation is served between two requests of the first, and
      the second request, wholly cached, is answered from the other conversation's logits. The model of
      this run answers the length of its context. */
  method StaleLogits() returns (emitted: seq<Token>, ghost m: Model)
    ensures emitted == [5] && Answer(m, [7, 2], 1) == [3]
  {
    var model := Model(context => |context| + 1, id => false);
    var ctx := new LlamaContext(2, 8, k => false, k => false);
    var a, b := Slot(Id("a"), Nobody, [], 0, 0), Slot(Id("b"), Nobody, [], 1, 0);
    var outcome, stats;
    m := model;
    outcome, emitted, a, stats := GenerateInSession(model, ctx, a, [7], 1, k => false);
    assert emitted == [2] && ctx.kv[0] == [7, 2];
    outcome, emitted, b, stats := GenerateInSession(model, ctx, b, [9, 9, 9], 1, k => false);
    assert emitted == [4] && ctx.logits == [9, 9, 9, 4];
    outcome, emitted, a, stats := GenerateInSession(model, ctx, a, [7, 2], 1, k => false);
    assert stats.prefilled == 0;
  }

  /** `n` polls said to go on, and no decode call from `from` up to `to` failed. */
  ghost predicate Asked(n: nat, fails: Faults, from: nat, to: nat, polls: Faults) {
    from <= to && NoneFailed(fails, from, to) && forall k :: 0 <= k < n ==> !polls(k)
  }

  /** Why a generation of `n` tokens ended. One poll is asked before each token and obeyed, and every decode call
      that fails ends it. */
  ghost predicate Ends(outcome: Outcome, n: nat, nGen: int, fails: Faults, from: nat, to: nat, polls: Faults) {
    && (forall k :: 0 <= k < n ==> !polls(k))
    && match outcome
       case Completed => from <= to && NoneFailed(fails, from, to) && (n < nGen ==> !polls(n))
       case Stopped => from <= to && NoneFailed(fails, from, to) && n < nGen && polls(n)
       case PrefillFailed => n == 0 && from < to && fails(to - 1)
       case DecodeFailed => n > 0 && from < to && fails(to - 1)
       case _ => false
  }

  /** What one more poll and one more decode call make of it. */
  lemma {:induction false} AskedOne(n: nat, nGen: int, fails: Faults, from: nat, to: nat, polls: Faults)
    requires Asked(n, fails, from, to, polls)
    ensures n < nGen && polls(n) ==> Ends(Stopped, n, nGen, fails, from, to, polls)
    ensures n >= nGen || !polls(n) ==> Ends(Completed, n, nGen, fails, from, to, polls)
    ensures !polls(n) ==> if fails(to) then Ends(DecodeFailed, n + 1, nGen, fails, from, to + 1, polls)
                          else Asked(n + 1, fails, from, to + 1, polls)
  {
  }

  /** A request without a conversation: lane 0 is cleared before and after. */
  method GenerateStateless(m: Model, ctx: LlamaContext, prompt: seq<Token>, nGen: int, polls: Faults)
    returns (outcome: Outcome, emitted: seq<Token>)
    requires ctx.nBatch > 0 && 0 < |ctx.kv| && prompt != []
    modifies ctx
    ensures ctx.kv == old(ctx.kv)[0 := []]
    ensures emitted <= Answer(m, prompt, nGen) && (outcome == Completed ==> emitted == Answer(m, prompt, nGen))
    ensures Ends(outcome, |emitted|, nGen, ctx.fails, old(ctx.decodes), ctx.decodes, polls)
  {
    outcome, emitted := GenerateOnLaneZero(m, ctx, prompt, nGen, polls);
    var ok := ctx.SeqRm(0, 0);
  }

  method PrefillLaneZero(ctx: LlamaContext, prompt: seq<Token>) returns (ok: bool)
    requires ctx.nBatch > 0 && 0 < |ctx.kv| && prompt != [] && ctx.kv[0] == []
    modifies ctx
    ensures |ctx.kv| == |old(ctx.kv)| && ctx.kv[1..] == old(ctx.kv)[1..]
    ensures ok ==> ctx.kv[0] == prompt && ctx.logits == prompt
    ensures Decoded(ok, ctx.fails, old(ctx.decodes), ctx.decodes)
  {
    var off := 0;
    while off < |prompt|
      invariant 0 <= off && |ctx.kv| == |old(ctx.kv)| && ctx.kv[1..] == old(ctx.kv)[1..]
      invariant ctx.kv[0] == prompt[..if off <= |prompt| then off else |prompt|]
      invariant off > 0 ==> ctx.logits == ctx.kv[0]
      invariant Decoded(true, ctx.fails, old(ctx.decodes), ctx.decodes)
    {
      var len := if ctx.nBatch < |prompt| - off then ctx.nBatch else |prompt| - off;
      ok := ctx.Decode(0, prompt[off..off + len], true);
      if !ok { return; }
      assert prompt[..off] + prompt[off..off + len] == prompt[..off + len];
      off := off + ctx.nBatch;
    }
    ok := true;
  }

  method GenerateOnLaneZero(m: Model, ctx: LlamaContext, prompt: seq<Token>, nGen: int, polls: Faults)
    returns (outcome: Outcome, emitted: seq<Token>)
    requires ctx.nBatch > 0 && 0 < |ctx.kv| && prompt != []
    modifies ctx
    ensures |ctx.kv| == |old(ctx.kv)| && ctx.kv[1..] == old(ctx.kv)[1..]
    ensures emitted <= Answer(m, prompt, nGen) && (outcome == Completed ==> emitted == Answer(m, prompt, nGen))
    ensures Ends(outcome, |emitted|, nGen, ctx.fails, old(ctx.decodes), ctx.decodes, polls)
  {
    emitted := [];
    var ok := ctx.SeqRm(0, 0);
    ok := PrefillLaneZero(ctx, prompt);
    if !ok { return PrefillFailed, emitted; }
    outcome, emitted := TokenByToken(m, ctx, 0, prompt, nGen, polls, true, prompt, old(ctx.decodes));
  }
}
