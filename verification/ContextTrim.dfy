/** Dropping the oldest messages of a conversation until its rendered prompt fits the token budget. */
module ContextTrim {
  datatype Message = Message(system: bool, body: string)

  /** Renders and counts; nothing is assumed about it. */
  type Counter = seq<Message> -> int

  function NonSystem(ms: seq<Message>): nat {
    if ms == [] then 0 else (if ms[0].system then 0 else 1) + NonSystem(ms[1..])
  }

  /** `ms` without its first `k` messages that are not system messages. */
  function Pruned(ms: seq<Message>, k: nat): seq<Message> {
    if ms == [] || k == 0 then ms
    else if ms[0].system then [ms[0]] + Pruned(ms[1..], k)
    else Pruned(ms[1..], k - 1)
  }

  /** The messages of one kind, in order. */
  function Select(ms: seq<Message>, system: bool): seq<Message> {
    if ms == [] then []
    else (if ms[0].system == system then [ms[0]] else []) + Select(ms[1..], system)
  }

  /** System messages and their order survive, and of the others exactly the oldest `k` are gone. */
  lemma {:induction false} PrunedKeeps(ms: seq<Message>, k: nat)
    requires k <= NonSystem(ms)
    ensures Select(Pruned(ms, k), true) == Select(ms, true)
    ensures |Select(ms, false)| == NonSystem(ms) && Select(Pruned(ms, k), false) == Select(ms, false)[k..]
    ensures NonSystem(Pruned(ms, k)) == NonSystem(ms) - k
    decreases |ms|
  {
    if ms != [] {
      var rest := ms[1..];
      if ms[0].system {
        PrunedKeeps(rest, k);
        if k > 0 { assert Pruned(ms, k)[1..] == Pruned(rest, k); }
      } else {
        PrunedKeeps(rest, if k > 0 then k - 1 else 0);
        assert Select(ms, false) == [ms[0]] + Select(rest, false);
      }
    }
  }

  /** What is kept is kept in place: every remaining message comes from the input, in the input's order. */
  ghost predicate Subsequence(a: seq<Message>, b: seq<Message>) {
    a == [] || (b != [] && (if a[0] == b[0] then Subsequence(a[1..], b[1..]) else Subsequence(a, b[1..])))
  }

  lemma {:induction false} Reflexive(ms: seq<Message>)
    ensures Subsequence(ms, ms)
  {
    if ms != [] { Reflexive(ms[1..]); }
  }

  lemma {:induction false} TailSubsequence(a: seq<Message>, b: seq<Message>)
    requires a != [] && Subsequence(a, b)
    ensures Subsequence(a[1..], b)
    decreases |b|
  {
    if a[0] == b[0] {
      if |a| > 1 {
        if a[1] == b[0] { TailSubsequence(a[1..], b[1..]); }
      }
    } else {
      TailSubsequence(a, b[1..]);
      if |a| > 1 && a[1] == b[0] { TailSubsequence(a[1..], b[1..]); }
    }
  }

  lemma {:induction false} PrunedInOrder(ms: seq<Message>, k: nat)
    ensures Subsequence(Pruned(ms, k), ms)
    decreases |ms|
  {
    if ms == [] || k == 0 {
      Reflexive(ms);
    } else if ms[0].system {
      PrunedInOrder(ms[1..], k);
      assert Pruned(ms, k)[1..] == Pruned(ms[1..], k);
    } else {
      var a := Pruned(ms[1..], k - 1);
      PrunedInOrder(ms[1..], k - 1);
      if a != [] && a[0] == ms[0] { TailSubsequence(a, ms[1..]); }
    }
  }

  /** Dropping the first droppable message of what is left drops one more of the whole. */
  lemma {:induction false} PruneMore(ms: seq<Message>, k: nat, at: nat)
    requires var now := Pruned(ms, k);
      at < |now| && !now[at].system && forall i :: 0 <= i < at ==> now[i].system
    requires k < NonSystem(ms)
    ensures var now := Pruned(ms, k); now[..at] + now[at + 1..] == Pruned(ms, k + 1)
    decreases |ms|
  {
    var now, rest := Pruned(ms, k), ms[1..];
    if ms[0].system {
      assert now[0] == ms[0] && at > 0;
      assert Pruned(rest, k) == now[1..];
      PruneMore(rest, k, at - 1);
      assert now[..at] + now[at + 1..] == [ms[0]] + (now[1..][..at - 1] + now[1..][at..]);
    } else if k == 0 {
      assert at == 0;
      assert Pruned(rest, 0) == rest;
    } else {
      PruneMore(rest, k - 1, at);
    }
  }

  lemma {:induction false} NoneLeft(ms: seq<Message>)
    ensures NonSystem(ms) == 0 <==> forall i :: 0 <= i < |ms| ==> ms[i].system
  {
    if ms != [] {
      NoneLeft(ms[1..]);
      assert forall i :: 1 <= i < |ms| ==> ms[i] == ms[1..][i - 1];
      if forall i :: 0 <= i < |ms| ==> ms[i].system {
        assert forall i :: 0 <= i < |ms[1..]| ==> ms[1..][i] == ms[i + 1];
      }
    }
  }

  class Conversation {
    var messages: seq<Message>

    constructor (messages: seq<Message>)
      ensures this.messages == messages
    {
      this.messages := messages;
    }

    method FirstDroppable() returns (at: nat)
      ensures at <= |messages| && forall i :: 0 <= i < at ==> messages[i].system
      ensures at < |messages| ==> !messages[at].system
      ensures at == |messages| <==> NonSystem(messages) == 0
    {
      at := 0;
      while at < |messages| && messages[at].system
        invariant at <= |messages| && forall i :: 0 <= i < at ==> messages[i].system
      {
        at := at + 1;
      }
      NoneLeft(messages);
    }

    /** Removes exactly the oldest `dropped` non-system messages, with `dropped` the least number at which
        the loop can stop. */
    method TrimForContext(count: Counter, budget: int) returns (dropped: nat)
      modifies this
      ensures dropped <= NonSystem(old(messages)) && messages == Pruned(old(messages), dropped)
      ensures messages == [] || count(messages) <= 0 || count(messages) <= budget
              || forall i :: 0 <= i < |messages| ==> messages[i].system
      ensures forall k: nat :: k < dropped ==>
        count(Pruned(old(messages), k)) > 0 && count(Pruned(old(messages), k)) > budget
    {
      dropped := 0;
      ghost var all := messages;
      NoneLeft(messages);
      while messages != []
        invariant dropped <= NonSystem(all) && messages == Pruned(all, dropped)
        invariant forall k: nat :: k < dropped ==> count(Pruned(all, k)) > 0 && count(Pruned(all, k)) > budget
        decreases NonSystem(all) - dropped
      {
        var n := count(messages);
        if n <= 0 { break; }
        if n <= budget { return dropped; }
        var at := FirstDroppable();
        if at >= |messages| { break; }
        PrunedKeeps(all, dropped);
        PruneMore(all, dropped, at);
        messages := messages[..at] + messages[at + 1..];
        dropped := dropped + 1;
      }
    }
  }
}
