/** Greedy decoding, one token at a time and with verified drafts.
    The model is a function from a context to its next greedy token; drafters, polling and decode
    failures are arbitrary. */
module Decoding {

  type Token = int

  datatype Model = Model(greedy: seq<Token> -> Token, eog: Token -> bool)

  /** The next `n` greedy tokens, end-of-generation markers included. */
  function Continue(m: Model, context: seq<Token>, n: nat): (r: seq<Token>)
    ensures |r| == n
  {
    if n == 0 then []
    else
      var prefix := Continue(m, context, n - 1);
      prefix + [m.greedy(context + prefix)]
  }

  /** What a client should see: greedy tokens up to the budget, cut before the first marker. */
  function Answer(m: Model, context: seq<Token>, n: int): seq<Token>
    decreases if n < 0 then 0 else n
  {
    if n <= 0 then []
    else
      var id := m.greedy(context);
      if m.eog(id) then [] else [id] + Answer(m, context + [id], n - 1)
  }

  // ---------------------------------------------------------------- facts about continuations

  /** Every token of a continuation is the greedy one behind those before it. */
  lemma {:induction false} ContinueMeans(m: Model, context: seq<Token>, n: nat, i: nat)
    requires i < n
    ensures Continue(m, context, n)[i] == m.greedy(context + Continue(m, context, n)[..i])
  {
    if i < n - 1 {
      ContinueMeans(m, context, n - 1, i);
      assert Continue(m, context, n)[..i] == Continue(m, context, n - 1)[..i];
    } else {
      assert Continue(m, context, n)[..i] == Continue(m, context, n - 1);
    }
  }

  /** The answer holds greedy tokens only, no marker, and at most `n` of them; it is shorter only if a marker
      comes next. */
  lemma {:induction false} AnswerMeans(m: Model, context: seq<Token>, n: int)
    ensures var r := Answer(m, context, n);
      && |r| <= (if n < 0 then 0 else n)
      && (forall i :: 0 <= i < |r| ==> r[i] == m.greedy(context + r[..i]) && !m.eog(r[i]))
      && (|r| < n ==> m.eog(m.greedy(context + r)))
    decreases if n < 0 then 0 else n
  {
    assert context + [] == context;
    if n > 0 && !m.eog(m.greedy(context)) {
      var id := m.greedy(context);
      var r, rest := Answer(m, context, n), Answer(m, context + [id], n - 1);
      AnswerMeans(m, context + [id], n - 1);
      assert r == [id] + rest && context + r == context + [id] + rest;
      forall i | 0 <= i < |r| ensures r[i] == m.greedy(context + r[..i]) && !m.eog(r[i]) {
        if i > 0 { assert r[i] == rest[i - 1] && context + r[..i] == context + [id] + rest[..i - 1]; }
      }
    }
  }

  lemma {:induction false} ContinueSplit(m: Model, context: seq<Token>, a: nat, b: nat)
    ensures Continue(m, context, a + b) == Continue(m, context, a) + Continue(m, context + Continue(m, context, a), b)
  {
    var front := Continue(m, context, a);
    if b == 0 {
      assert front + [] == front;
    } else {
      ContinueSplit(m, context, a, b - 1);
      var rest := Continue(m, context + front, b - 1);
      assert context + (front + rest) == context + front + rest;
    }
  }

  lemma {:induction false} ContinuePrefix(m: Model, context: seq<Token>, a: nat, n: nat)
    requires a <= n
    ensures Continue(m, context, n)[..a] == Continue(m, context, a)
  {
    ContinueSplit(m, context, a, n - a);
  }

  lemma {:induction false} ContinueCons(m: Model, context: seq<Token>, n: nat)
    ensures Continue(m, context, n + 1) == [m.greedy(context)] + Continue(m, context + [m.greedy(context)], n)
  {
    assert context + [] == context;
    assert Continue(m, context, 1) == [m.greedy(context)];
    ContinueSplit(m, context, 1, n);
  }

  /** Marker-free greedy tokens within the budget are a prefix of the answer, and the answer is all
      of them once the budget is spent or the next greedy token is a marker. */
  lemma {:induction false} AnswerFromContinue(m: Model, context: seq<Token>, k: nat, n: int)
    requires k <= n
    requires forall i :: 0 <= i < k ==> !m.eog(Continue(m, context, k)[i])
    ensures Continue(m, context, k) <= Answer(m, context, n)
    ensures k == n || m.eog(m.greedy(context + Continue(m, context, k))) ==> Answer(m, context, n) == Continue(m, context, k)
    decreases k
  {
    if k == 0 {
      assert context + [] == context;
    } else {
      ContinueCons(m, context, k - 1);
      var id := m.greedy(context);
      var rest := Continue(m, context + [id], k - 1);
      assert Continue(m, context, k)[0] == id;
      forall i | 0 <= i < k - 1 ensures !m.eog(rest[i]) {
        assert rest[i] == Continue(m, context, k)[i + 1];
      }
      AnswerFromContinue(m, context + [id], k - 1, n - 1);
      assert context + [id] + rest == context + ([id] + rest);
    }
  }

  // ---------------------------------------------------------------- sampling against a draft

  /** The target's sampler: greedy tokens for as long as they agree with the draft, plus one. */
  function Accept(m: Model, context: seq<Token>, draft: seq<Token>): (ids: seq<Token>)
    ensures 1 <= |ids| <= |draft| + 1
    decreases |draft|
  {
    var id := m.greedy(context);
    if draft == [] || draft[0] != id then [id] else [id] + Accept(m, context + [id], draft[1..])
  }

  /** Whatever was drafted, the accepted tokens are the greedy continuation. */
  lemma {:induction false} AcceptIsGreedy(m: Model, context: seq<Token>, draft: seq<Token>)
    ensures Accept(m, context, draft) == Continue(m, context, |Accept(m, context, draft)|)
    decreases |draft|
  {
    var id := m.greedy(context);
    if draft == [] || draft[0] != id {
      ContinueCons(m, context, 0);
    } else {
      AcceptIsGreedy(m, context + [id], draft[1..]);
      ContinueCons(m, context, |Accept(m, context + [id], draft[1..])|);
    }
  }

  /** All accepted tokens but the last agree with the draft. */
  lemma {:induction false} AcceptAgrees(m: Model, context: seq<Token>, draft: seq<Token>, i: nat)
    requires i + 1 < |Accept(m, context, draft)|
    ensures Accept(m, context, draft)[i] == draft[i]
    decreases |draft|
  {
    if i > 0 { AcceptAgrees(m, context + [m.greedy(context)], draft[1..], i - 1); }
  }

  /** Acceptance stops before the end of the draft only at a token that the draft does not have. */
  lemma {:induction false} AcceptStops(m: Model, context: seq<Token>, draft: seq<Token>)
    ensures var ids := Accept(m, context, draft); |ids| <= |draft| ==> ids[|ids| - 1] != draft[|ids| - 1]
    decreases |draft|
  {
    if draft != [] && draft[0] == m.greedy(context) {
      AcceptStops(m, context + [m.greedy(context)], draft[1..]);
    }
  }

  /** A draft that is the greedy continuation is accepted whole, with one token more. */
  lemma {:induction false} AcceptWhole(m: Model, context: seq<Token>, draft: seq<Token>)
    requires draft == Continue(m, context, |draft|)
    ensures |Accept(m, context, draft)| == |draft| + 1
    decreases |draft|
  {
    if draft != [] {
      var id := m.greedy(context);
      ContinueCons(m, context, |draft| - 1);
      assert draft[1..] == Continue(m, context + [id], |draft| - 1);
      AcceptWhole(m, context + [id], draft[1..]);
    }
  }

  // ---------------------------------------------------------------- memories

  /** What removing all positions from `p` on leaves. A memory with recurrent layers can only be
      removed whole: a partial removal of existing positions is refused. */
  function Removed(tokens: seq<Token>, trimmable: bool, p: nat): seq<Token> {
    if p >= |tokens| then tokens else if trimmable || p == 0 then tokens[..p] else tokens
  }

  /** Which events of an unbounded series go wrong. */
  type Faults = nat -> bool

  ghost predicate Never(f: Faults) {
    forall k: nat :: !f(k)
  }

  /** None of the events from `from` up to `to` goes wrong. */
  ghost predicate NoneFailed(f: Faults, from: nat, to: nat) {
    forall k :: from <= k < to ==> !f(k)
  }

  /** The KV memory of one context: the tokens at positions 0, 1, 2, ... Any set of calls that extend it may
      fail. It counts those calls, the tokens they brought in, and the checkpoints restored. */
  class Memory {
    const trimmable: bool
    const fails: Faults
    var tokens: seq<Token>
    var calls: nat
    var fed: nat
    var loads: nat

    constructor (trimmable: bool, fails: Faults)
      ensures this.trimmable == trimmable && this.fails == fails && tokens == [] && calls == fed == loads == 0
    {
      this.trimmable, this.fails, tokens, calls, fed, loads := trimmable, fails, [], 0, 0, 0;
    }

    /** Decodes a batch whose positions continue the memory; a failed decode changes nothing. */
    method Decode(batch: seq<Token>, pos: int) returns (ok: bool)
      requires pos == |tokens|
      modifies this`tokens, this`calls, this`fed
      ensures ok == !fails(old(calls)) && calls == old(calls) + 1
      ensures tokens == (if ok then old(tokens) + batch else old(tokens)) && fed == old(fed) + (if ok then |batch| else 0)
    {
      ok := Process(batch);
    }

    /** A drafter takes over what the target decoded, wherever it stands itself. */
    method Process(batch: seq<Token>) returns (ok: bool)
      modifies this`tokens, this`calls, this`fed
      ensures ok == !fails(old(calls)) && calls == old(calls) + 1
      ensures tokens == (if ok then old(tokens) + batch else old(tokens)) && fed == old(fed) + (if ok then |batch| else 0)
    {
      ok := !fails(calls);
      calls := calls + 1;
      if ok { tokens, fed := tokens + batch, fed + |batch|; }
    }

    method SeqRm(p: nat)
      modifies this`tokens
      ensures tokens == Removed(old(tokens), trimmable, p)
    {
      tokens := Removed(tokens, trimmable, p);
    }

    method Load(saved: seq<Token>)
      modifies this`tokens, this`loads
      ensures tokens == saved && loads == old(loads) + 1
    {
      tokens, loads := saved, loads + 1;
    }
  }

  datatype Outcome = Refused | Completed | Stopped | PrefillFailed | DecodeFailed | ProcessFailed

  datatype SpecStats = SpecStats(drafted: nat, accepted: nat, produced: nat, iterations: nat)

  // ---------------------------------------------------------------- speculative decoding

  /** What holds at the head of every round: the target memory is exactly the committed prefix, the
      output is greedy and marker free, and a draft kept for replay is already a greedy continuation
      that fits the budget. */
  ghost predicate RoundInv(m: Model, prompt: seq<Token>, nGen: int, committed: seq<Token>, idLast: Token,
                           emitted: seq<Token>, draft: seq<Token>, target: seq<Token>, nPast: int)
  {
    && committed + [idLast] == prompt + emitted
    && |emitted| <= nGen
    && emitted == Continue(m, prompt, |emitted|)
    && (forall i :: 0 <= i < |emitted| ==> !m.eog(emitted[i]))
    && emitted <= Answer(m, prompt, nGen) && (|emitted| == nGen ==> emitted == Answer(m, prompt, nGen))
    && target == committed && nPast == |committed|
    && (draft != [] ==> draft == Continue(m, prompt + emitted, |draft|) && |emitted| + |draft| < nGen)
  }

  lemma {:induction false} AcceptedToken(m: Model, prompt: seq<Token>, emitted: seq<Token>, ids: seq<Token>, i: nat)
    requires emitted == Continue(m, prompt, |emitted|) && ids == Continue(m, prompt + emitted, |ids|) && i < |ids|
    ensures ids[..i + 1] == ids[..i] + [ids[i]]
    ensures ids[i] == m.greedy(prompt + (emitted + ids[..i]))
    ensures emitted + ids[..i] + [ids[i]] == Continue(m, prompt, |emitted| + i + 1)
  {
    ContinuePrefix(m, prompt + emitted, i, |ids|);
    ContinuePrefix(m, prompt + emitted, i + 1, |ids|);
    ContinueSplit(m, prompt, |emitted|, i + 1);
    assert ids[..i + 1] == ids[..i] + [ids[i]];
    assert prompt + emitted + ids[..i] == prompt + (emitted + ids[..i]);
    assert emitted + ids[..i + 1] == emitted + ids[..i] + [ids[i]];
  }

  /** Commits the accepted tokens one by one and stops at a marker. */
  method EmitAccepted(m: Model, prompt: seq<Token>, nGen: int, ids: seq<Token>,
                      committed: seq<Token>, idLast: Token, emitted: seq<Token>)
    returns (committed': seq<Token>, idLast': Token, emitted': seq<Token>, stop: bool)
    requires committed + [idLast] == prompt + emitted && emitted == Continue(m, prompt, |emitted|)
    requires forall i :: 0 <= i < |emitted| ==> !m.eog(emitted[i])
    requires ids == Continue(m, prompt + emitted, |ids|) && |emitted| + |ids| <= nGen
    ensures emitted' == Continue(m, prompt, |emitted'|) && |emitted'| <= nGen
    ensures forall i :: 0 <= i < |emitted'| ==> !m.eog(emitted'[i])
    ensures emitted' <= Answer(m, prompt, nGen)
    ensures stop || |emitted'| == nGen ==> emitted' == Answer(m, prompt, nGen)
    ensures stop ==> |emitted'| < |emitted| + |ids|
    ensures !stop ==> |emitted'| == |emitted| + |ids| && committed' + [idLast'] == prompt + emitted'
    ensures !stop ==> committed' + [idLast'] == committed + [idLast] + ids
  {
    committed', idLast', emitted', stop := committed, idLast, emitted, false;
    for i := 0 to |ids|
      invariant emitted' == emitted + ids[..i] && committed' + [idLast'] == committed + [idLast] + ids[..i]
      invariant emitted' == Continue(m, prompt, |emitted| + i)
      invariant forall j :: 0 <= j < |emitted'| ==> !m.eog(emitted'[j])
    {
      AcceptedToken(m, prompt, emitted, ids, i);
      committed' := committed' + [idLast'];
      idLast' := ids[i];
      if m.eog(idLast') {
        AnswerFromContinue(m, prompt, |emitted'|, nGen);
        stop := true;
        return;
      }
      emitted' := emitted' + [idLast'];
    }
    assert ids[..|ids|] == ids;
    assert prompt + emitted + ids == prompt + (emitted + ids);
    AnswerFromContinue(m, prompt, |emitted'|, nGen);
  }

  /** `n` tokens take `chunks` batches of at most `nBatch`. */
  ghost predicate Chunked(n: nat, chunks: int, nBatch: nat) {
    n <= chunks * nBatch < n + nBatch
  }

  /** Prompt through the target in chunks, all but its last token; the drafter processes each chunk. */
  method PrefillBoth(ctx: Memory, dft: Memory, prompt: seq<Token>, nBatch: nat) returns (outcome: Outcome)
    requires nBatch > 0 && prompt != [] && ctx != dft && ctx.tokens == [] && dft.tokens == []
    modifies ctx, dft
    ensures outcome == Completed || outcome == PrefillFailed || outcome == ProcessFailed
    ensures outcome == PrefillFailed ==> ctx.calls > old(ctx.calls) && ctx.fails(ctx.calls - 1)
    ensures outcome == ProcessFailed ==> dft.calls > old(dft.calls) && dft.fails(dft.calls - 1)
    ensures dft.calls >= old(dft.calls)
    ensures outcome == Completed ==>
      NoneFailed(ctx.fails, old(ctx.calls), ctx.calls) && NoneFailed(dft.fails, old(dft.calls), dft.calls)
    ensures outcome == Completed ==> ctx.tokens == prompt[..|prompt| - 1] && dft.tokens == ctx.tokens
    ensures ctx.loads == old(ctx.loads) && ctx.calls >= old(ctx.calls)
    ensures outcome == Completed ==> ctx.fed == old(ctx.fed) + |prompt| - 1
    ensures outcome == Completed ==> Chunked(|prompt| - 1, ctx.calls - old(ctx.calls), nBatch)
  {
    var last := |prompt| - 1;
    var off := 0;
    while off < last
      invariant 0 <= off && ctx.tokens == prompt[..if off <= last then off else last] && dft.tokens == ctx.tokens
      invariant ctx.loads == old(ctx.loads) && ctx.calls >= old(ctx.calls) && dft.calls >= old(dft.calls)
      invariant NoneFailed(ctx.fails, old(ctx.calls), ctx.calls) && NoneFailed(dft.fails, old(dft.calls), dft.calls)
      invariant ctx.fed == old(ctx.fed) + (if off <= last then off else last)
      invariant off == (ctx.calls - old(ctx.calls)) * nBatch && off < last + nBatch
    {
      var len := if nBatch < last - off then nBatch else last - off;
      var chunk := prompt[off..off + len];
      var ok := ctx.Decode(chunk, off);
      if !ok { return PrefillFailed; }
      ok := dft.Process(chunk);
      if !ok { return ProcessFailed; }
      assert prompt[..off] + chunk == prompt[..off + len];
      assert (ctx.calls - old(ctx.calls)) * nBatch == off + nBatch;
      off := off + nBatch;
    }
    return Completed;
  }

  /** The drafter proposes at most `limit` tokens and may leave anything behind in its own memory,
      which is then rolled back to where the round started. */
  method DraftTokens(dft: Memory, limit: nat, start: nat) returns (draft: seq<Token>)
    modifies dft`tokens, dft`loads
    ensures |draft| <= limit
    ensures start == |old(dft.tokens)| ==> dft.tokens == old(dft.tokens)
  {
    var saved := dft.tokens;
    var scribbles: seq<Token>, proposal: seq<Token> := *, *;
    draft := if |proposal| <= limit then proposal else proposal[..limit];
    dft.tokens := dft.tokens + scribbles;
    if !dft.trimmable { dft.Load(saved); }
    dft.SeqRm(start);
    assert start == |saved| ==> (saved + scribbles)[..start] == saved;
  }

  /** After a verified round, dropping everything past the accepted tokens leaves exactly the newly
      committed prefix, in a memory that can be trimmed or when the whole draft was accepted. */
  lemma {:induction false} TrimLeavesCommitted(m: Model, before: seq<Token>, id: Token, draft: seq<Token>, trimmable: bool,
                            committed: seq<Token>, idLast: Token)
    requires var ids := Accept(m, before + [id], draft);
      committed + [idLast] == before + [id] + ids && (trimmable || |ids| == |draft| + 1)
    ensures |committed| == |before| + |Accept(m, before + [id], draft)|
    ensures Removed(before + ([id] + draft), trimmable, |committed|) == committed
  {
    var ids := Accept(m, before + [id], draft);
    var n := |ids| - 1;
    forall i | 0 <= i < n ensures ids[i] == draft[i] {
      AcceptAgrees(m, before + [id], draft, i);
    }
    assert ids[..n] == draft[..n];
    assert committed == (committed + [idLast])[..|committed|];
    assert committed == before + [id] + ids[..n];
    assert (before + ([id] + draft))[..|committed|] == committed;
  }

  /** In a memory that cannot be trimmed, the drafter keeps rejected tokens exactly when the round
      rejected some: a drafter of that kind stays in step only behind a target of that kind. */
  lemma {:induction false} StaleDrafter(m: Model, before: seq<Token>, id: Token, draft: seq<Token>)
    ensures var ids := Accept(m, before + [id], draft);
      Removed(before + ([id] + draft), false, |before| + |ids|) == before + ([id] + ids[..|ids| - 1])
      <==> |ids| == |draft| + 1
  {
    var ids := Accept(m, before + [id], draft);
    var n := |ids| - 1;
    forall i | 0 <= i < n ensures ids[i] == draft[i] {
      AcceptAgrees(m, before + [id], draft, i);
    }
    assert ids[..n] == draft[..n];
    if n == |draft| { assert draft[..n] == draft; }
  }

  /** One batched forward over `[idLast] + draft`, shown to the drafter too, and greedy acceptance. */
  method VerifyBatch(m: Model, ctx: Memory, dft: Memory, idLast: Token, draft: seq<Token>, nPast: int)
    returns (outcome: Outcome, ids: seq<Token>)
    requires ctx != dft && nPast == |ctx.tokens|
    modifies ctx`tokens, ctx`calls, ctx`fed, dft
    ensures ctx.calls == old(ctx.calls) + 1 && dft.calls == old(dft.calls) + (if outcome == DecodeFailed then 0 else 1)
    ensures ctx.fed == old(ctx.fed) + (if outcome == DecodeFailed then 0 else 1 + |draft|)
    ensures outcome == if ctx.fails(old(ctx.calls)) then DecodeFailed
                       else if dft.fails(old(dft.calls)) then ProcessFailed else Completed
    ensures outcome == Completed ==>
      && ctx.tokens == old(ctx.tokens) + ([idLast] + draft)
      && dft.tokens == old(dft.tokens) + ([idLast] + draft)
      && ids == Accept(m, old(ctx.tokens) + [idLast], draft)
      && ids == Continue(m, old(ctx.tokens) + [idLast], |ids|)
    ensures draft == Continue(m, old(ctx.tokens) + [idLast], |draft|) && outcome == Completed ==> |ids| == |draft| + 1
  {
    var context := ctx.tokens + [idLast];
    var batch := [idLast] + draft;
    ids := [];
    var ok := ctx.Decode(batch, nPast);
    if !ok { return DecodeFailed, ids; }
    ok := dft.Process(batch);
    if !ok { return ProcessFailed, ids; }
    ids := Accept(m, context, draft);
    AcceptIsGreedy(m, context, draft);
    if draft == Continue(m, context, |draft|) { AcceptWhole(m, context, draft); }
    outcome := Completed;
  }

  /** Restores both memories to where the round started. */
  method RollBack(ctx: Memory, dft: Memory, savedTarget: seq<Token>, savedDrafter: seq<Token>)
    requires ctx != dft && !ctx.trimmable
    modifies ctx`tokens, ctx`loads, dft`tokens, dft`loads
    ensures ctx.tokens == savedTarget && ctx.loads == old(ctx.loads) + 1
    ensures dft.tokens == Removed(if dft.trimmable then old(dft.tokens) else savedDrafter, dft.trimmable, |savedTarget|)
  {
    ctx.Load(savedTarget);
    ctx.SeqRm(|savedTarget|);
    if !dft.trimmable { dft.Load(savedDrafter); }
    dft.SeqRm(|savedTarget|);
  }

  /** Drops rejected draft tokens from both memories after a round that verified `[id] + draft`. */
  method TrimBoth(m: Model, ctx: Memory, dft: Memory, nPast: nat, ghost before: seq<Token>, ghost id: Token,
                  ghost draft: seq<Token>, ghost committed: seq<Token>, ghost idLast: Token)
    requires ctx != dft && nPast == |committed|
    requires var ids := Accept(m, before + [id], draft);
      committed + [idLast] == before + [id] + ids && (ctx.trimmable || |ids| == |draft| + 1)
    requires ctx.tokens == before + ([id] + draft)
    modifies ctx`tokens, dft`tokens
    ensures ctx.tokens == committed
    ensures (dft.trimmable || !ctx.trimmable) && old(dft.tokens) == before + ([id] + draft) ==> dft.tokens == committed
  {
    TrimLeavesCommitted(m, before, id, draft, ctx.trimmable, committed, idLast);
    if dft.trimmable || !ctx.trimmable {
      TrimLeavesCommitted(m, before, id, draft, dft.trimmable, committed, idLast);
    }
    ctx.SeqRm(nPast);
    dft.SeqRm(nPast);
  }

  /** Commits and emits the accepted tokens, then trims both memories unless a marker ended it all. */
  method CommitRound(m: Model, ctx: Memory, dft: Memory, prompt: seq<Token>, nGen: int, draft: seq<Token>,
                     ids: seq<Token>, committed: seq<Token>, idLast: Token, emitted: seq<Token>)
    returns (committed': seq<Token>, idLast': Token, emitted': seq<Token>, stop: bool)
    requires ctx != dft && RoundInv(m, prompt, nGen, committed, idLast, emitted, [], committed, |committed|)
    requires ids == Accept(m, committed + [idLast], draft) && ids == Continue(m, committed + [idLast], |ids|)
    requires |emitted| + |ids| <= nGen && (ctx.trimmable || |ids| == |draft| + 1)
    requires ctx.tokens == committed + ([idLast] + draft)
    modifies ctx`tokens, dft`tokens
    ensures |emitted'| <= nGen && emitted' <= Answer(m, prompt, nGen)
    ensures stop ==> emitted' == Answer(m, prompt, nGen) && |emitted'| < |emitted| + |ids| <= nGen
    ensures !stop ==> |emitted'| == |emitted| + |ids| && |committed'| == |committed| + |ids|
    ensures !stop ==> RoundInv(m, prompt, nGen, committed', idLast', emitted', [], ctx.tokens, |committed'|)
    ensures !stop && (dft.trimmable || !ctx.trimmable) && old(dft.tokens) == old(ctx.tokens) ==> dft.tokens == committed'
  {
    committed', idLast', emitted', stop := EmitAccepted(m, prompt, nGen, ids, committed, idLast, emitted);
    if stop { return; }
    TrimBoth(m, ctx, dft, |committed'|, committed, idLast, draft, committed', idLast');
  }

  /** How many tokens may be drafted with `room` positions left and `left` tokens still to produce. */
  function DraftLimit(room: int, left: int): (n: nat)
    requires left > 0
    ensures n <= left - 1 && (room >= 2 ==> n <= room - 2) && (n == left - 1 || n == room - 2 || (n == 0 && room < 2))
  {
    var limit := if left - 1 < room - 2 then left - 1 else room - 2;
    if limit < 0 then 0 else limit
  }

  /** What is carried from round to round. */
  datatype RoundState = RoundState(committed: seq<Token>, idLast: Token, emitted: seq<Token>, draft: seq<Token>, nPast: int,
                               savedTarget: seq<Token>, savedDrafter: seq<Token>, stats: SpecStats)

  /** What holds of it, and of both memories, at the head of every round. */
  ghost predicate Underway(m: Model, prompt: seq<Token>, nGen: int, s: RoundState, ctx: Memory, dft: Memory)
    reads ctx, dft
  {
    && RoundInv(m, prompt, nGen, s.committed, s.idLast, s.emitted, s.draft, ctx.tokens, s.nPast)
    && (s.draft != [] ==> s.savedTarget == s.committed && (!dft.trimmable ==> s.savedDrafter == dft.tokens))
    && (dft.trimmable || !ctx.trimmable ==> dft.tokens == s.committed)
  }

  /** The statistics agree with each other and with what was emitted. */
  ghost predicate StatsOk(s: RoundState, trimmable: bool) {
    && s.stats.produced == |s.emitted|
    && s.stats.accepted <= s.stats.drafted && (!trimmable ==> s.stats.accepted == s.stats.drafted)
  }

  /** How a round that verified its draft moves the counters, with `loads` checkpoints restored and `fed` tokens
      decoded in it: it either commits what was accepted or, if the target cannot be trimmed, goes back. */
  ghost predicate Stepped(s: RoundState, s': RoundState, trimmable: bool, stop: bool, loads: int, fed: int) {
    && s'.stats.iterations == s.stats.iterations + 1 && s'.stats.accepted >= s.stats.accepted
    && if loads > 0 then
         && !trimmable && loads == 1 && s.draft == [] && s'.draft != [] && !stop
         && s'.emitted == s.emitted && s'.stats == s.stats.(iterations := s.stats.iterations + 1)
       else
         && loads == 0 && s'.draft == [] && fed == 1 + s'.stats.drafted - s.stats.drafted
         && (if stop then |s'.emitted| < |s.emitted| + 1 + s'.stats.accepted - s.stats.accepted
             else |s'.emitted| == |s.emitted| + 1 + s'.stats.accepted - s.stats.accepted)
  }

  /** At the head of a round: no poll so far said stop, and the statistics are those of the `calls` decode calls,
      `fed` tokens decoded and `loads` checkpoints restored in the rounds before. */
  ghost predicate Counted(s: RoundState, trimmable: bool, calls: int, fed: int, loads: int, polls: Faults) {
    && calls == s.stats.iterations && (forall k :: 0 <= k < s.stats.iterations ==> !polls(k))
    && |s.emitted| == s.stats.accepted + s.stats.iterations - loads
    && 0 <= 2 * loads <= s.stats.iterations + (if s.draft == [] then 0 else 1)
    && (trimmable ==> loads == 0 && s.draft == [] && fed == s.stats.iterations + s.stats.drafted)
    && (s.stats.iterations == 0 ==> s.emitted == [])
  }

  lemma {:induction false} CountedStep(s: RoundState, s': RoundState, trimmable: bool, stop: bool, calls: int, fed: int, loads: int,
                                       more: int, again: int, polls: Faults)
    requires Counted(s, trimmable, calls, fed, loads, polls) && !polls(s.stats.iterations)
    requires Stepped(s, s', trimmable, stop, again, more)
    ensures !stop ==> Counted(s', trimmable, calls + 1, fed + more, loads + again, polls)
    ensures stop ==> Tallied(s'.emitted, s'.stats, trimmable, true, calls + 1, fed + more, loads + again, polls)
  {
  }

  /** The same at the end of a run, when the last round may have met a marker. */
  ghost predicate Tallied(emitted: seq<Token>, stats: SpecStats, trimmable: bool, marker: bool, calls: int, fed: int,
                          loads: int, polls: Faults)
  {
    && calls == stats.iterations && (forall k :: 0 <= k < stats.iterations ==> !polls(k))
    && (if marker then |emitted| < stats.accepted + stats.iterations - loads
        else |emitted| == stats.accepted + stats.iterations - loads)
    && 0 <= 2 * loads <= stats.iterations + 1
    && (trimmable ==> loads == 0 && fed == stats.iterations + stats.drafted)
    && (stats.iterations == 0 ==> emitted == [])
  }

  /** One round: draft unless an earlier draft is replayed, verify, then commit or go back. */
  method Round(m: Model, ctx: Memory, dft: Memory, prompt: seq<Token>, nGen: int, nCtx: int, s: RoundState)
    returns (outcome: Outcome, s': RoundState, stop: bool)
    requires ctx != dft && Underway(m, prompt, nGen, s, ctx, dft) && StatsOk(s, ctx.trimmable) && |s.emitted| < nGen
    modifies ctx, dft
    ensures ctx.calls == old(ctx.calls) + 1 && dft.calls == old(dft.calls) + (if outcome == DecodeFailed then 0 else 1)
    ensures outcome == if ctx.fails(old(ctx.calls)) then DecodeFailed
                       else if dft.fails(old(dft.calls)) then ProcessFailed else Completed
    ensures outcome == DecodeFailed ==> s' == s
    ensures outcome == ProcessFailed ==> s'.emitted == s.emitted
    ensures outcome == ProcessFailed ==> s'.stats == s.stats.(iterations := s.stats.iterations + 1)
    ensures outcome != Completed ==> ctx.loads == old(ctx.loads)
    ensures outcome == Completed ==> Stepped(s, s', ctx.trimmable, stop, ctx.loads - old(ctx.loads), ctx.fed - old(ctx.fed))
    ensures outcome == Completed && !stop ==> Underway(m, prompt, nGen, s', ctx, dft)
    ensures outcome == Completed && stop ==> s'.emitted == Answer(m, prompt, nGen) && |s'.emitted| < nGen
    ensures |s'.emitted| <= nGen && s'.emitted <= Answer(m, prompt, nGen) && StatsOk(s', ctx.trimmable)
  {
    s', stop := s, false;
    var draft := s.draft;
    if draft == [] {
      s' := s.(savedDrafter := dft.tokens, savedTarget := ctx.tokens);
      draft := DraftTokens(dft, DraftLimit(nCtx - s.nPast, nGen - s.stats.produced), |ctx.tokens|);
    }
    var ids;
    outcome, ids := VerifyBatch(m, ctx, dft, s.idLast, draft, s.nPast);
    if outcome == DecodeFailed { return outcome, s, false; }
    s' := s'.(stats := s.stats.(iterations := s.stats.iterations + 1));
    if outcome == ProcessFailed { return; }
    if !ctx.trimmable && |ids| - 1 < |draft| {
      RollBack(ctx, dft, s'.savedTarget, s'.savedDrafter);
      var back := s.committed[..|s'.savedTarget|];
      s' := s'.(draft := ids, committed := back, nPast := |back|);
      return;
    }
    var stats := s'.stats.(drafted := s.stats.drafted + |draft|, accepted := s.stats.accepted + |ids| - 1);
    var committed, idLast, emitted;
    committed, idLast, emitted, stop := CommitRound(m, ctx, dft, prompt, nGen, draft, ids, s.committed, s.idLast, s.emitted);
    s' := RoundState(committed, idLast, emitted, [], s.nPast + |ids|, s'.savedTarget, s'.savedDrafter,
                   stats.(produced := |emitted|));
  }

  /** Greedy generation with drafts verified in batches. Memories that cannot drop a tail are rolled
      back from a checkpoint and the accepted tokens replayed as the next round's draft. */
  method GenerateSpeculative(m: Model, ctx: Memory, dft: Memory, prompt: seq<Token>, nGen: int, nBatch: nat, nCtx: int,
                             polls: Faults)
    returns (outcome: Outcome, emitted: seq<Token>, stats: SpecStats)
    requires nBatch > 0 && ctx != dft && ctx.tokens == [] && dft.tokens == []
    modifies ctx, dft
    ensures outcome == Refused <==> prompt == [] || nGen <= 0
    ensures emitted <= Answer(m, prompt, nGen)
    ensures outcome == Completed ==> emitted == Answer(m, prompt, nGen)
    // a run that ends with its answer or a stop met no failing call, and any other end is the last call's failure
    ensures outcome == Completed || outcome == Stopped ==>
      NoneFailed(ctx.fails, old(ctx.calls), ctx.calls) && NoneFailed(dft.fails, old(dft.calls), dft.calls)
    ensures outcome == PrefillFailed || outcome == DecodeFailed ==> ctx.calls > old(ctx.calls) && ctx.fails(ctx.calls - 1)
    ensures outcome == ProcessFailed ==> dft.calls > old(dft.calls) && dft.fails(dft.calls - 1)
    ensures prompt != [] && nGen > 0 && Never(ctx.fails) && Never(dft.fails) && Never(polls) ==> outcome == Completed
    ensures stats.produced == |emitted| && (nGen > 0 ==> |emitted| <= nGen)
    ensures stats.accepted <= stats.drafted && (!ctx.trimmable ==> stats.accepted == stats.drafted)
    // every round asks one poll, and goes on exactly if it says no
    ensures forall k :: 0 <= k < stats.iterations ==> !polls(k)
    ensures outcome == Stopped ==> polls(stats.iterations) && |emitted| < nGen
    ensures outcome == Completed ==> stats.iterations > 0
    ensures Never(ctx.fails) && Never(dft.fails) && prompt != [] && nGen > 0 && polls(0) ==> outcome == Stopped && emitted == []
    // the counters are those of the decode calls made, the tokens decoded and the checkpoints restored
    ensures outcome == Completed || outcome == Stopped ==>
      var chunks, loads := ctx.calls - old(ctx.calls) - stats.iterations, ctx.loads - old(ctx.loads);
      && Chunked(|prompt| - 1, chunks, nBatch)
      && (if outcome == Completed && |emitted| < nGen then |emitted| < stats.accepted + stats.iterations - loads
          else |emitted| == stats.accepted + stats.iterations - loads)
      && 0 <= 2 * loads <= stats.iterations + 1
      && (ctx.trimmable ==> loads == 0 && ctx.fed == old(ctx.fed) + |prompt| - 1 + stats.iterations + stats.drafted)
  {
    emitted, stats := [], SpecStats(0, 0, 0, 0);
    if prompt == [] || nGen <= 0 { return Refused, emitted, stats; }
    outcome := PrefillBoth(ctx, dft, prompt, nBatch);
    if outcome != Completed { return; }
    var last := |prompt| - 1;
    var s := RoundState(prompt[..last], prompt[last], [], [], last, ctx.tokens, dft.tokens, stats);
    outcome, s := RunRounds(m, ctx, dft, prompt, nGen, nCtx, polls, s);
    emitted, stats := s.emitted, s.stats;
  }

  /** A run that ends with its answer or a stop met no failing call; any other end is the last call's failure. */
  ghost predicate Explained(outcome: Outcome, fails: Faults, from: nat, to: nat, dftFails: Faults, dftFrom: nat, dftTo: nat) {
    && from <= to && dftFrom <= dftTo
    && if outcome == PrefillFailed || outcome == DecodeFailed then from < to && fails(to - 1)
       else if outcome == ProcessFailed then dftFrom < dftTo && dftFails(dftTo - 1)
       else NoneFailed(fails, from, to) && NoneFailed(dftFails, dftFrom, dftTo)
  }

  lemma {:induction false} ExplainedStep(outcome: Outcome, fails: Faults, from: nat, to: nat, to': nat,
                                         dftFails: Faults, dftFrom: nat, dftTo: nat, dftTo': nat)
    requires Explained(Completed, fails, from, to, dftFails, dftFrom, dftTo) && to' == to + 1
    requires outcome == if fails(to) then DecodeFailed else if dftFails(dftTo) then ProcessFailed else Completed
    requires dftTo' == dftTo + (if outcome == DecodeFailed then 0 else 1)
    ensures Explained(outcome, fails, from, to', dftFails, dftFrom, dftTo')
  {
  }

  /** Rounds until the budget is spent, a marker is met, a call fails or a poll says stop. */
  method RunRounds(m: Model, ctx: Memory, dft: Memory, prompt: seq<Token>, nGen: int, nCtx: int, polls: Faults, start: RoundState)
    returns (outcome: Outcome, s: RoundState)
    requires ctx != dft && Underway(m, prompt, nGen, start, ctx, dft) && nGen > 0
    requires start.emitted == [] && start.draft == [] && start.stats == SpecStats(0, 0, 0, 0)
    modifies ctx, dft
    ensures outcome !in {Refused, PrefillFailed} && s.emitted <= Answer(m, prompt, nGen) && |s.emitted| <= nGen
    ensures StatsOk(s, ctx.trimmable)
    ensures Explained(outcome, ctx.fails, old(ctx.calls), ctx.calls, dft.fails, old(dft.calls), dft.calls)
    ensures outcome == Completed ==> s.emitted == Answer(m, prompt, nGen) && s.stats.iterations > 0
    ensures outcome == Stopped ==> polls(s.stats.iterations) && |s.emitted| < nGen
    ensures forall k :: 0 <= k < s.stats.iterations ==> !polls(k)
    ensures outcome == Completed || outcome == Stopped ==>
      Tallied(s.emitted, s.stats, ctx.trimmable, outcome == Completed && |s.emitted| < nGen, ctx.calls - old(ctx.calls),
              ctx.fed - old(ctx.fed), ctx.loads - old(ctx.loads), polls)
  {
    s := start;
    while s.stats.produced < nGen
      invariant Underway(m, prompt, nGen, s, ctx, dft) && StatsOk(s, ctx.trimmable)
      invariant Explained(Completed, ctx.fails, old(ctx.calls), ctx.calls, dft.fails, old(dft.calls), dft.calls)
      invariant Counted(s, ctx.trimmable, ctx.calls - old(ctx.calls), ctx.fed - old(ctx.fed), ctx.loads - old(ctx.loads), polls)
      decreases nGen - s.stats.produced, if s.draft == [] then 1 else 0
    {
      if polls(s.stats.iterations) { return Stopped, s; }
      var stop;
      outcome, s, stop := CountedRound(m, ctx, dft, prompt, nGen, nCtx, s, polls, old(ctx.calls), old(ctx.fed), old(ctx.loads),
                                       old(dft.calls));
      if outcome != Completed || stop { return; }
    }
    outcome := Completed;
  }

  /** A round and what it adds to the counters since the rounds began. */
  method CountedRound(m: Model, ctx: Memory, dft: Memory, prompt: seq<Token>, nGen: int, nCtx: int, s: RoundState,
                      ghost polls: Faults, ghost calls: nat, ghost fed: nat, ghost loads: nat, ghost dftCalls: nat)
    returns (outcome: Outcome, s': RoundState, stop: bool)
    requires ctx != dft && Underway(m, prompt, nGen, s, ctx, dft) && StatsOk(s, ctx.trimmable) && |s.emitted| < nGen
    requires Explained(Completed, ctx.fails, calls, ctx.calls, dft.fails, dftCalls, dft.calls) && !polls(s.stats.iterations)
    requires Counted(s, ctx.trimmable, ctx.calls - calls, ctx.fed - fed, ctx.loads - loads, polls)
    modifies ctx, dft
    ensures outcome == Completed || outcome == DecodeFailed || outcome == ProcessFailed
    ensures Explained(outcome, ctx.fails, calls, ctx.calls, dft.fails, dftCalls, dft.calls)
    ensures forall k :: 0 <= k < s'.stats.iterations ==> !polls(k)
    ensures |s'.emitted| <= nGen && s'.emitted <= Answer(m, prompt, nGen) && StatsOk(s', ctx.trimmable)
    ensures outcome == Completed && stop ==>
      && s'.emitted == Answer(m, prompt, nGen) && |s'.emitted| < nGen && s'.stats.iterations > 0
      && Tallied(s'.emitted, s'.stats, ctx.trimmable, true, ctx.calls - calls, ctx.fed - fed, ctx.loads - loads, polls)
    ensures outcome == Completed && !stop ==>
      && Underway(m, prompt, nGen, s', ctx, dft)
      && Counted(s', ctx.trimmable, ctx.calls - calls, ctx.fed - fed, ctx.loads - loads, polls)
      && (|s'.emitted| > |s.emitted| || (|s'.emitted| == |s.emitted| && s.draft == [] && s'.draft != []))
  {
    ghost var c: int, f: int, l: int, d: nat := ctx.calls, ctx.fed, ctx.loads, dft.calls;
    outcome, s', stop := Round(m, ctx, dft, prompt, nGen, nCtx, s);
    ExplainedStep(outcome, ctx.fails, calls, c, ctx.calls, dft.fails, dftCalls, d, dft.calls);
    if outcome == Completed {
      CountedStep(s, s', ctx.trimmable, stop, c - calls, f - fed, l - loads, ctx.fed - f, ctx.loads - l, polls);
    }
  }
}
