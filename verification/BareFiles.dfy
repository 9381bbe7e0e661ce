/** Preparing a file that declares no tensors: what is written, when it succeeds, and that it can be
    done again. */
module BareFiles {
  import opened Bytes
  import opened GgufFormat
  import opened GgufRoundTrip
  import opened GgufReader
  import opened MetaPatch
  import opened Registry
  import opened Repack
  import opened Prepare
  import opened PreparedFile
  import opened PreparedAgain

  /** An accepted file without tensors, with room for the four bytes in its alignment pair if it has one. */
  ghost predicate Bare(file: seq<byte>, kind: Classifier, j: Job) {
    JobOf(file, kind) == Some(j) && j.meta.tensors == [] && Wide(j.meta.kvs) && HeadLen(j) + 4096 <= U64
  }

  /** Only metadata is written: whatever follows it in the source is dropped. */
  lemma {:induction false} BareOutput(file: seq<byte>, kind: Classifier, j: Job)
    requires Bare(file, kind, j)
    ensures Matching(j) && Readable(file, Pieces(j)) && Output(file, j) == EncMeta(NewMeta(j)) == Head(j)
    ensures |Head(j)| == HeadLen(j) <= NewSize(j) == Padded(HeadLen(j))
  {
    JobProper(file, kind, j);
    HeadIs(j);
    HeadSize(j);
    PageUpPlain(HeadLen(j));
    assert Rel(Spans(j.m.tensors), 0) == 0;
  }

  lemma {:induction false} BareParses(file: seq<byte>, kind: Classifier, j: Job, out: seq<byte>)
    requires Bare(file, kind, j) && Matching(j) && out == EncMeta(NewMeta(j))
    ensures ParseMeta(out) == Some((NewMeta(j), |out|))
  {
    JobProper(file, kind, j);
    NewMetaOk(j);
    HeadParses(out, NewMeta(j));
  }

  /** Without tensors only a model without experts is accepted. */
  lemma {:induction false} BareConfig(meta: Meta, end: nat, size: nat, kind: Classifier)
    requires meta.tensors == []
    ensures BuildOf(meta, end, size, kind).Some? <==> ExpertConfig(TablesOf(meta.kvs, 24)) == Some((false, 0))
    ensures BuildOf(meta, end, size, kind).Some? ==>
      var a := AlignmentOf(TablesOf(meta.kvs, 24));
      BuildOf(meta, end, size, kind) == Some(Manifest(size, AlignUp(end, a), a, 0, [], Counts(0, 0, 0, 0, 0)))
  {
    assert SortByOffset([]) == [];
  }

  /** The job of the prepared file. */
  ghost function BareJob(j: Job): Job
    requires Matching(j)
  {
    var n := HeadLen(j);
    Job(NewMeta(j), n, Manifest(n, Padded(n), PAGE, 0, [], Counts(0, 0, 0, 0, 0)))
  }

  lemma {:induction false} BareRegistered(file: seq<byte>, kind: Classifier, j: Job, out: seq<byte>)
    requires Bare(file, kind, j) && Matching(j) && Patchable(j.meta.kvs) && out == EncMeta(NewMeta(j)) && |out| == HeadLen(j)
    ensures JobOf(out, kind) == Some(BareJob(j))
  {
    BareParses(file, kind, j, out);
    BareConfig(j.meta, j.metaEnd, |file|, kind);
    MetaKept(j, NewMeta(j));
    ConfigKept(TablesOf(j.meta.kvs, 24), TablesOf(NewMeta(j).kvs, 24));
    BareConfig(NewMeta(j), |out|, |out|, kind);
    AlignUpPage(|out|);
    PageIsPower();
    JobFrom(out, kind, NewMeta(j), |out|, BareJob(j).m);
  }

  lemma {:induction false} BareValid(file: seq<byte>, kind: Classifier, j: Job, out: seq<byte>)
    requires Bare(file, kind, j) && Matching(j) && out == EncMeta(NewMeta(j)) && |out| == HeadLen(j)
    ensures Valid(out, kind, j.m) <==> Patchable(j.meta.kvs)
  {
    if Patchable(j.meta.kvs) {
      BareRegistered(file, kind, j, out);
      BareConfig(j.meta, j.metaEnd, |file|, kind);
    } else {
      BareParses(file, kind, j, out);
      MetaKept(j, NewMeta(j));
      FoundOrInvalid(out, kind, j.m, NewMeta(j), |out|);
    }
  }

  /** The outcome is decided by the sizes and by the alignment pair. */
  lemma {:induction false} BareOutcome(file: seq<byte>, kind: Classifier, available: nat, j: Job)
    requires Bare(file, kind, j)
    ensures Expected(file, kind, available, true) ==
      if Padded(HeadLen(j)) < |file| then TooSmall
      else if available < Padded(HeadLen(j)) then NoSpace
      else if Patchable(j.meta.kvs) then Prepared else Invalid
  {
    BareOutput(file, kind, j);
    BareValid(file, kind, j, Output(file, j));
    assert Ascending(j.meta.tensors);
  }

  /** A successful run can be repeated, and changes nothing then. */
  lemma {:induction false} BareTwice(file: seq<byte>, kind: Classifier, available: nat, j: Job)
    requires Bare(file, kind, j) && Expected(file, kind, available, true) == Prepared
    ensures Matching(j) && Readable(file, Pieces(j))
    ensures var out, again := Output(file, j), BareJob(j);
      && JobOf(out, kind) == Some(again) && Readable(out, Pieces(again)) && Output(out, again) == out
      && Expected(out, kind, available, true) == Prepared
  {
    BareOutcome(file, kind, available, j);
    BareOutput(file, kind, j);
    var out, again := Output(file, j), BareJob(j);
    BareRegistered(file, kind, j, out);
    BareAgain(file, kind, j, again);
    BareOutcome(out, kind, available, again);
    BareOutput(out, kind, again);
  }

  lemma {:induction false} BareAgain(file: seq<byte>, kind: Classifier, j: Job, again: Job)
    requires Bare(file, kind, j) && Matching(j) && Patchable(j.meta.kvs) && again == BareJob(j)
    ensures Matching(again) && again.meta.tensors == [] && Patchable(again.meta.kvs)
    ensures EncMeta(NewMeta(again)) == EncMeta(NewMeta(j)) && HeadLen(again) == HeadLen(j)
  {
    JobProper(file, kind, j);
    SameHead(j, again);
    AlignedKvsFacts(j.meta.kvs, 24);
  }
}
