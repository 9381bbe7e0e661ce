/** Aligned full reads over a file descriptor that may be interrupted, fail or read short. */
module DirectIo {
  import opened Bytes

  /** What one `pread` reports. */
  datatype ReadResult = Got(n: nat) | Interrupted | Failed

  class DirectFile {
    /** Bytes of the file behind the descriptor. */
    const content: seq<byte>
    var isOpen: bool

    constructor (content: seq<byte>, success: bool)
      ensures this.content == content && isOpen == success
    {
      this.content := content;
      isOpen := success;
    }

    /** The system call: at most `want` bytes, none only at or past the end of the file.
        `patience` bounds how often the kernel may still answer EINTR. */
    method Pread(buffer: array<byte>, at: nat, want: nat, offset: nat, patience: nat) returns (r: ReadResult)
      requires 0 < want && at + want <= buffer.Length
      modifies buffer
      ensures r == Interrupted ==> patience > 0
      ensures r.Got? ==> r.n <= want && (r.n == 0 <==> offset >= |content|)
      ensures r.Got? && r.n > 0 ==> offset + r.n <= |content|
                                    && buffer[..] == Store(old(buffer[..]), at, Slice(content, offset, r.n))
      ensures (r.Got? ==> r.n == 0) ==> buffer[..] == old(buffer[..])
    {
      var interrupted, failed := *, *;
      if interrupted && patience > 0 { return Interrupted; }
      if failed { return Failed; }
      if offset >= |content| { return Got(0); }
      var n :| 0 < n <= want && offset + n <= |content|;
      ghost var before := buffer[..];
      for i := 0 to n
        invariant buffer[..] == Store(before, at, content[offset..offset + i])
      {
        buffer[at + i] := content[offset + i];
      }
      return Got(n);
    }

    /** Reads exactly `bytes` bytes at `offset`, or reports failure.
        `hardError` records whether the operating system failed the read. */
    method ReadAligned(buffer: array<byte>, at: nat, bytes: nat, offset: nat, interrupts: nat)
      returns (ok: bool, ghost hardError: bool)
      requires at + bytes <= buffer.Length
      modifies buffer
      ensures ok <==> isOpen && Aligned(offset) && Aligned(bytes) && Aligned(at) && !hardError
                      && (bytes == 0 || offset + bytes <= |content|)
      ensures ok ==> buffer[..] == Store(old(buffer[..]), at, Slice(content, offset, bytes))
      ensures !(isOpen && Aligned(offset) && Aligned(bytes) && Aligned(at)) ==> buffer[..] == old(buffer[..])
      ensures OnlyWithin(old(buffer[..]), buffer[..], at, bytes)
    {
      hardError := false;
      if !isOpen { return false, false; }
      if !Aligned(offset) || !Aligned(bytes) || !Aligned(at) { return false, false; }
      var done := 0;
      var patience := interrupts;
      ghost var before := buffer[..];
      assert Store(before, at, []) == before;
      while done < bytes
        invariant done <= bytes && (done == 0 || offset + done <= |content|)
        invariant buffer[..] == Store(before, at, Slice(content, offset, done))
        decreases bytes - done, patience
      {
        var r := Pread(buffer, at + done, bytes - done, offset + done, patience);
        if r.Interrupted? {
          patience := patience - 1;
        } else if r.Failed? || r.n == 0 {
          StoreOnlyWithin(before, at, Slice(content, offset, done), bytes);
          hardError := r.Failed?;
          return false, r.Failed?;
        } else {
          AppendChunk(before, buffer[..], at, offset, done, r.n);
          done := done + r.n;
        }
      }
      StoreOnlyWithin(before, at, Slice(content, offset, bytes), bytes);
      return true, false;
    }

    /** Two adjacent partial reads make one longer read. */
    lemma {:induction false} AppendChunk(mem: seq<byte>, next: seq<byte>, at: nat, offset: nat, done: nat, n: nat)
      requires offset + done + n <= |content| && at + done + n <= |mem|
      requires next == Store(Store(mem, at, Slice(content, offset, done)), at + done, Slice(content, offset + done, n))
      ensures next == Store(mem, at, Slice(content, offset, done + n))
    {
      assert Slice(content, offset, done + n) == Slice(content, offset, done) + Slice(content, offset + done, n);
    }
  }
}
