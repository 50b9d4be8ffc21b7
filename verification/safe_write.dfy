/**
 * The full-write loop `safe_write` of ind.c, against an abstract `write`.
 *
 * A `Writer` answers the k-th `write` call that asks for `n` bytes with the
 * value that call returns once interrupted calls have been retried: a
 * negative error code, 0, or the count of bytes the sink accepted. The sink
 * always takes the leading bytes of what it is offered.
 */
module SafeWrite {
  import opened Bytes

  type Writer = (nat, nat) -> int

  /** What POSIX promises of `write`: it never reports more bytes than were asked for. */
  ghost predicate Honest(w: Writer) {
    forall k: nat, n: nat :: w(k, n) <= n
  }

  /** A writer that never returns an error or 0 when asked to write something. */
  ghost predicate Reliable(w: Writer) {
    Honest(w) && forall k: nat, n: nat :: 0 < n ==> 0 < w(k, n)
  }

  /** A writer that may fail but never returns 0 for a non-empty request. */
  ghost predicate NoStall(w: Writer) {
    Honest(w) && forall k: nat, n: nat :: 0 < n ==> w(k, n) != 0
  }

  /**
   * Result of one `safe_write`: the value it returns, the bytes the sink
   * received, and the index of the next unused `write` call.
   */
  datatype Written = Written(ret: int, sent: seq<byte>, next: nat)

  /** `safe_write` resumed at `offset`, with `|buf| - offset` bytes still to send. */
  function WriteFrom(buf: seq<byte>, offset: nat, w: Writer, k: nat): (r: Written)
    requires offset <= |buf| && Honest(w)
    ensures IsPrefix(r.sent, buf) && offset <= |r.sent|
    ensures r.ret >= 0 ==> r.ret == |r.sent|
    ensures r.ret < 0 ==> |r.sent| < |buf|
    ensures r.next >= k
    decreases |buf| - offset
  {
    if offset == |buf| then Written(offset, buf, k)
    else
      var n := w(k, |buf| - offset);
      if n < 0 then Written(n, buf[..offset], k + 1)
      else if n == 0 then Written(offset, buf[..offset], k + 1)
      else WriteFrom(buf, offset + n, w, k + 1)
  }

  /** `safe_write(fd, buf, len)`: the reference definition of the loop. */
  function WriteAll(buf: seq<byte>, w: Writer, k: nat): (r: Written)
    requires Honest(w)
    ensures IsPrefix(r.sent, buf)
    ensures r.ret >= 0 ==> r.ret == |r.sent| <= |buf|
    ensures r.ret < 0 ==> |r.sent| < |buf|
    ensures |buf| == 0 ==> r == Written(0, [], k)
    ensures r.next >= k
  {
    WriteFrom(buf, 0, w, k)
  }

  /**
   * The loop as written: `offset` and `len` move together, the bytes the sink
   * has seen are always `buf[..offset]`, an error is returned as it came and
   * a 0 from `write` returns the count sent so far.
   */
  method SafeWriteLoop(buf: seq<byte>, w: Writer, k0: nat) returns (ret: int, sent: seq<byte>, k: nat)
    requires Honest(w)
    ensures Written(ret, sent, k) == WriteAll(buf, w, k0)
    ensures ret >= 0 ==> ret <= |buf| && sent == buf[..ret]
    ensures ret < 0 ==> k > k0 && ret == w(k - 1, |buf| - |sent|)
    ensures 0 <= ret < |buf| ==> k > k0 && w(k - 1, |buf| - ret) == 0
  {
    var offset: nat := 0;
    var len: nat := |buf|;
    sent := [];
    k := k0;
    while len > 0
      invariant offset + len == |buf|
      invariant sent == buf[..offset]
      invariant k >= k0 && (k == k0 ==> offset == 0)
      invariant WriteFrom(buf, offset, w, k) == WriteAll(buf, w, k0)
      decreases len
    {
      var n := w(k, len);
      k := k + 1;
      if n < 0 {
        return n, sent, k;
      } else if n == 0 {
        return offset, sent, k;
      }
      sent := sent + buf[offset..offset + n];
      offset := offset + n;
      len := len - n;
    }
    assert buf[..offset] == buf;
    ret := offset;
  }

  lemma {:induction false} ReliableFrom(buf: seq<byte>, offset: nat, w: Writer, k: nat)
    requires offset <= |buf| && Reliable(w)
    ensures WriteFrom(buf, offset, w, k).ret == |buf|
    ensures WriteFrom(buf, offset, w, k).sent == buf
    decreases |buf| - offset
  {
    if offset < |buf| {
      ReliableFrom(buf, offset + w(k, |buf| - offset), w, k + 1);
    }
  }

  /** If no `write` returns 0 or less, `safe_write` returns `len` and sends all of `buf`. */
  lemma ReliableWriteAll(buf: seq<byte>, w: Writer, k: nat)
    requires Reliable(w)
    ensures WriteAll(buf, w, k).ret == |buf|
    ensures WriteAll(buf, w, k).sent == buf
  {
    ReliableFrom(buf, 0, w, k);
  }

  lemma {:induction false} NoStallFrom(buf: seq<byte>, offset: nat, w: Writer, k: nat)
    requires offset <= |buf| && NoStall(w)
    ensures WriteFrom(buf, offset, w, k).ret >= 0 ==> WriteFrom(buf, offset, w, k).sent == buf
    decreases |buf| - offset
  {
    if offset < |buf| {
      var n := w(k, |buf| - offset);
      if n > 0 {
        NoStallFrom(buf, offset + n, w, k + 1);
      }
    }
  }

  /** A `safe_write` that does not fail, against a writer that never stalls, sends everything. */
  lemma NoStallWriteAll(buf: seq<byte>, w: Writer, k: nat)
    requires NoStall(w)
    ensures WriteAll(buf, w, k).ret >= 0 ==> WriteAll(buf, w, k).sent == buf
  {
    NoStallFrom(buf, 0, w, k);
  }

  /**
   * Outcome of a run of `safe_write` calls that stops at the first negative
   * return: bytes sent, how many calls returned a non-negative value, whether
   * one failed, and the next `write` call index.
   */
  datatype Batch = Batch(sent: seq<byte>, done: nat, failed: bool, next: nat)

  /** `safe_write` each of `parts` in order, giving up at the first negative return. */
  function WriteEach(parts: seq<seq<byte>>, w: Writer, k: nat): (b: Batch)
    requires Honest(w)
    ensures b.done <= |parts|
    ensures !b.failed ==> b.done == |parts|
    ensures b.failed ==> b.done < |parts|
    ensures b.next >= k
    decreases |parts|
  {
    if |parts| == 0 then Batch([], 0, false, k)
    else
      var t := WriteAll(parts[0], w, k);
      if t.ret < 0 then Batch(t.sent, 0, true, t.next)
      else
        var b := WriteEach(parts[1..], w, t.next);
        Batch(t.sent + b.sent, b.done + 1, b.failed, b.next)
  }

  /** With a writer that never fails, the batch sends every part, in order. */
  lemma {:induction false} ReliableWriteEach(parts: seq<seq<byte>>, w: Writer, k: nat)
    requires Reliable(w)
    ensures WriteEach(parts, w, k).sent == Concat(parts)
    ensures !WriteEach(parts, w, k).failed
  {
    if |parts| > 0 {
      ReliableWriteAll(parts[0], w, k);
      ReliableWriteEach(parts[1..], w, WriteAll(parts[0], w, k).next);
    }
  }

  /**
   * With a writer that never stalls, a batch sends a prefix of the parts'
   * concatenation, and all of it when no call failed.
   */
  lemma {:induction false} NoStallWriteEach(parts: seq<seq<byte>>, w: Writer, k: nat)
    requires NoStall(w)
    ensures IsPrefix(WriteEach(parts, w, k).sent, Concat(parts))
    ensures !WriteEach(parts, w, k).failed ==> WriteEach(parts, w, k).sent == Concat(parts)
  {
    if |parts| > 0 {
      var t := WriteAll(parts[0], w, k);
      NoStallWriteAll(parts[0], w, k);
      if t.ret >= 0 {
        NoStallWriteEach(parts[1..], w, t.next);
        var b := WriteEach(parts[1..], w, t.next);
        assert Concat(parts) == parts[0] + Concat(parts[1..]);
        assert (t.sent + b.sent) == Concat(parts)[..|t.sent + b.sent|];
      }
    }
  }
}
