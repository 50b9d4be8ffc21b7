/**
 * `process` of ind.c with its writes going through `safe_write` to a real
 * sink: a write that returns a negative value stops the call and retires the
 * channel, a write that returns 0 loses the rest of that write and is not
 * noticed.
 */
module Relay {
  import opened Bytes
  import opened SafeWrite
  import opened LineEngine

  /** What the scan loop sent, the flag it left, whether a write failed, and the next `write` call index. */
  datatype Pass = Pass(out: seq<byte>, empty: bool, failed: bool, next: nat)

  /** The writes one complete line costs: prefix if the flag is set, the line, the postfix, the newline. */
  function LineParts(line: seq<byte>, pre: seq<byte>, post: seq<byte>, empty: bool): seq<seq<byte>> {
    (if empty then [pre] else []) + [line, post, [NL]]
  }

  /** The scan loop of `process` with every write through `safe_write`. */
  function ScanWith(d: seq<byte>, pre: seq<byte>, post: seq<byte>, empty: bool, w: Writer, k: nat): (p: Pass)
    requires Honest(w)
    ensures !p.failed ==> p.empty == (empty || NL in d)
    ensures p.next >= k
    decreases |d|
  {
    var i := FirstNewline(d);
    if i == |d| then
      assert d[..i] == d;
      if |d| == 0 then Pass([], empty, false, k)
      else
        var t := WriteAll(d, w, k);
        Pass(t.sent, empty, t.ret < 0, t.next)
    else
      var b := WriteEach(LineParts(d[..i], pre, post, empty), w, k);
      if b.failed then
        // the flag was cleared once the prefix went out
        Pass(b.sent, empty && b.done == 0, true, b.next)
      else
        var rest := ScanWith(d[i + 1..], pre, post, true, w, b.next);
        Pass(b.sent + rest.out, rest.empty, rest.failed, rest.next)
  }

  /** The result of a `process` call: sent bytes, flag, return value, next `write` call index. */
  datatype Relayed = Relayed(out: seq<byte>, empty: bool, status: Status, next: nat)

  /** `process(fdin, fdout, pre, prelen, post, postlen, &emptyline)` against the writer `w`. */
  function ProcessWith(r: ReadResult, pre: seq<byte>, post: seq<byte>, empty: bool, w: Writer, k: nat): (o: Relayed)
    requires ValidRead(r) && Honest(w)
    ensures r.Eof? ==> o == Relayed([], empty, Closed, k)
    ensures r.Failed? ==> o == Relayed([], empty, Continue, k)
  {
    match r
    case Eof => Relayed([], empty, Closed, k)
    case Failed => Relayed([], empty, Continue, k)
    case Chunk(d) =>
      var p := ScanWith(d, pre, post, empty, w, k);
      Relayed(p.out, p.empty, if p.failed then Closed else Continue, p.next)
  }

  lemma ScanWithLine(l: seq<byte>, rest: seq<byte>, pre: seq<byte>, post: seq<byte>, empty: bool, w: Writer, k: nat)
    requires NoNewline(l) && Honest(w)
    ensures var b := WriteEach(LineParts(l, pre, post, empty), w, k);
      ScanWith(l + [NL] + rest, pre, post, empty, w, k)
      == if b.failed then Pass(b.sent, empty && b.done == 0, true, b.next)
         else var p := ScanWith(rest, pre, post, true, w, b.next);
              Pass(b.sent + p.out, p.empty, p.failed, p.next)
  {
    FirstNewlineOfLine(l, rest);
  }

  lemma ScanWithTail(tail: seq<byte>, pre: seq<byte>, post: seq<byte>, empty: bool, w: Writer, k: nat)
    requires NoNewline(tail) && Honest(w)
    ensures var t := WriteAll(tail, w, k);
      ScanWith(tail, pre, post, empty, w, k) == Pass(t.sent, empty, t.ret < 0, t.next)
  {
    assert tail[..|tail|] == tail;
  }

  lemma LinePartsConcat(l: seq<byte>, pre: seq<byte>, post: seq<byte>, empty: bool)
    ensures Concat(LineParts(l, pre, post, empty)) == Lead(pre, empty) + l + post + [NL]
  {
    var nl: seq<seq<byte>> := [[NL]];
    assert Concat(nl) == [NL] by { assert nl[1..] == []; }
    var pn: seq<seq<byte>> := [post, [NL]];
    assert Concat(pn) == post + [NL] by { assert pn[1..] == nl; }
    var lpn: seq<seq<byte>> := [l, post, [NL]];
    assert Concat(lpn) == l + post + [NL] by { assert lpn[1..] == pn; }
    if empty {
      var parts := [pre] + lpn;
      assert parts[1..] == lpn;
    } else {
      assert LineParts(l, pre, post, empty) == lpn;
    }
  }

  lemma {:induction false} ReliableLines(ls: seq<seq<byte>>, tail: seq<byte>, pre: seq<byte>, post: seq<byte>, empty: bool, w: Writer, k: nat)
    requires Lines(ls) && NoNewline(tail) && Reliable(w)
    ensures var p := ScanWith(Join(ls) + tail, pre, post, empty, w, k);
      var s := Scan(Join(ls) + tail, pre, post, empty);
      p.out == s.out && p.empty == s.empty && !p.failed
    decreases |ls|, 1
  {
    if |ls| == 0 {
      assert Join(ls) + tail == tail;
      ScanRendersLines(ls, tail, pre, post, empty);
      ScanWithTail(tail, pre, post, empty, w, k);
      ReliableWriteAll(tail, w, k);
    } else {
      var rest := Join(ls[1..]) + tail;
      assert Join(ls) + tail == ls[0] + [NL] + rest;
      ReliableLine(ls[0], rest, ls[1..], tail, pre, post, empty, w, k);
    }
  }

  /** One step of `ReliableLines`: the first complete line, then the rest by induction. */
  lemma {:induction false} ReliableLine(l: seq<byte>, rest: seq<byte>, ls: seq<seq<byte>>, tail: seq<byte>, pre: seq<byte>, post: seq<byte>, empty: bool, w: Writer, k: nat)
    requires NoNewline(l) && Lines(ls) && NoNewline(tail) && Reliable(w) && rest == Join(ls) + tail
    ensures var p := ScanWith(l + [NL] + rest, pre, post, empty, w, k);
      var s := Scan(l + [NL] + rest, pre, post, empty);
      p.out == s.out && p.empty == s.empty && !p.failed
    decreases |ls| + 1, 0
  {
    var whole := l + [NL] + rest;
    var parts := LineParts(l, pre, post, empty);
    var b := WriteEach(parts, w, k);
    var sr := Scan(rest, pre, post, true);
    var line := Lead(pre, empty) + l + post + [NL];
    assert Scan(whole, pre, post, empty) == Scanned(line + sr.out, sr.empty) by {
      FirstNewlineOfLine(l, rest);
    }
    assert b.sent == line && !b.failed by {
      ReliableWriteEach(parts, w, k);
      LinePartsConcat(l, pre, post, empty);
    }
    var p := ScanWith(rest, pre, post, true, w, b.next);
    assert ScanWith(whole, pre, post, empty, w, k) == Pass(line + p.out, p.empty, p.failed, p.next) by {
      ScanWithLine(l, rest, pre, post, empty, w, k);
    }
    ReliableLines(ls, tail, pre, post, true, w, b.next);
  }

  /** If no write returns 0 or less, `process` writes exactly what the pure engine describes. */
  lemma ReliableProcess(r: ReadResult, pre: seq<byte>, post: seq<byte>, empty: bool, w: Writer, k: nat)
    requires ValidRead(r) && Reliable(w)
    ensures var o := ProcessWith(r, pre, post, empty, w, k);
      var p := Process(r, pre, post, empty);
      o.out == p.out && o.empty == p.empty && o.status == p.status
  {
    if r.Chunk? {
      var (ls, tail) := SplitLines(r.data);
      ReliableLines(ls, tail, pre, post, empty, w, k);
    }
  }

  lemma {:induction false} NoStallLines(ls: seq<seq<byte>>, tail: seq<byte>, pre: seq<byte>, post: seq<byte>, empty: bool, w: Writer, k: nat)
    requires Lines(ls) && NoNewline(tail) && NoStall(w)
    ensures var p := ScanWith(Join(ls) + tail, pre, post, empty, w, k);
      var s := Scan(Join(ls) + tail, pre, post, empty);
      IsPrefix(p.out, s.out) && (!p.failed ==> p.out == s.out && p.empty == s.empty)
    decreases |ls|, 1
  {
    if |ls| == 0 {
      assert Join(ls) + tail == tail;
      ScanRendersLines(ls, tail, pre, post, empty);
      ScanWithTail(tail, pre, post, empty, w, k);
      NoStallWriteAll(tail, w, k);
    } else {
      var rest := Join(ls[1..]) + tail;
      assert Join(ls) + tail == ls[0] + [NL] + rest;
      NoStallLine(ls[0], rest, ls[1..], tail, pre, post, empty, w, k);
    }
  }

  /** One step of `NoStallLines`: the first complete line, then the rest by induction. */
  lemma {:induction false} NoStallLine(l: seq<byte>, rest: seq<byte>, ls: seq<seq<byte>>, tail: seq<byte>, pre: seq<byte>, post: seq<byte>, empty: bool, w: Writer, k: nat)
    requires NoNewline(l) && Lines(ls) && NoNewline(tail) && NoStall(w) && rest == Join(ls) + tail
    ensures var p := ScanWith(l + [NL] + rest, pre, post, empty, w, k);
      var s := Scan(l + [NL] + rest, pre, post, empty);
      IsPrefix(p.out, s.out) && (!p.failed ==> p.out == s.out && p.empty == s.empty)
    decreases |ls| + 1, 0
  {
    var whole := l + [NL] + rest;
    var parts := LineParts(l, pre, post, empty);
    var b := WriteEach(parts, w, k);
    var sr := Scan(rest, pre, post, true);
    var line := Lead(pre, empty) + l + post + [NL];
    assert Scan(whole, pre, post, empty) == Scanned(line + sr.out, sr.empty) by {
      FirstNewlineOfLine(l, rest);
    }
    assert IsPrefix(b.sent, line) && (!b.failed ==> b.sent == line) by {
      NoStallWriteEach(parts, w, k);
      LinePartsConcat(l, pre, post, empty);
    }
    if b.failed {
      assert ScanWith(whole, pre, post, empty, w, k) == Pass(b.sent, empty && b.done == 0, true, b.next) by {
        ScanWithLine(l, rest, pre, post, empty, w, k);
      }
      PrefixExtend(b.sent, line, sr.out);
    } else {
      var p := ScanWith(rest, pre, post, true, w, b.next);
      assert ScanWith(whole, pre, post, empty, w, k) == Pass(line + p.out, p.empty, p.failed, p.next) by {
        ScanWithLine(l, rest, pre, post, empty, w, k);
      }
      NoStallLines(ls, tail, pre, post, true, w, b.next);
      PrefixBoth(line, p.out, sr.out);
    }
  }

  /**
   * When writes may fail but never return 0, `process` writes a prefix of what
   * the pure engine describes, and all of it whenever it returns 0.
   */
  lemma NoStallProcess(r: ReadResult, pre: seq<byte>, post: seq<byte>, empty: bool, w: Writer, k: nat)
    requires ValidRead(r) && NoStall(w)
    ensures var o := ProcessWith(r, pre, post, empty, w, k);
      var p := Process(r, pre, post, empty);
      IsPrefix(o.out, p.out) && (o.status == Continue ==> o.out == p.out && o.empty == p.empty)
  {
    if r.Chunk? {
      var (ls, tail) := SplitLines(r.data);
      NoStallLines(ls, tail, pre, post, empty, w, k);
    }
  }

  /** A sink that accepts nothing and reports 0 each time. */
  ghost predicate Stalled(w: Writer) {
    forall k: nat, n: nat :: w(k, n) == 0
  }

  lemma StalledWriteEach(parts: seq<seq<byte>>, w: Writer, k: nat)
    requires Stalled(w)
    ensures Honest(w)
    ensures WriteEach(parts, w, k).sent == [] && !WriteEach(parts, w, k).failed
    decreases |parts|
  {
    if |parts| > 0 {
      var t := WriteAll(parts[0], w, k);
      assert t.ret >= 0 && t.sent == [] by {
        if |parts[0]| > 0 { assert w(k, |parts[0]|) == 0; }
      }
      StalledWriteEach(parts[1..], w, t.next);
    }
  }

  lemma {:induction false} StalledLines(ls: seq<seq<byte>>, tail: seq<byte>, pre: seq<byte>, post: seq<byte>, empty: bool, w: Writer, k: nat)
    requires Lines(ls) && NoNewline(tail) && Stalled(w)
    ensures Honest(w)
    ensures var p := ScanWith(Join(ls) + tail, pre, post, empty, w, k);
      p.out == [] && !p.failed
    decreases |ls|
  {
    if |ls| == 0 {
      assert Join(ls) + tail == tail;
      ScanWithTail(tail, pre, post, empty, w, k);
      if |tail| > 0 { assert w(k, |tail|) == 0; }
    } else {
      var rest := Join(ls[1..]) + tail;
      assert Join(ls) + tail == ls[0] + [NL] + rest;
      ScanWithLine(ls[0], rest, pre, post, empty, w, k);
      var parts := LineParts(ls[0], pre, post, empty);
      StalledWriteEach(parts, w, k);
      StalledLines(ls[1..], tail, pre, post, true, w, WriteEach(parts, w, k).next);
    }
  }

  /**
   * A sink whose `write` keeps returning 0 loses every byte, yet `process`
   * still returns 0: `safe_write` reports the short count, which is never
   * negative, so the channel stays open.
   */
  lemma StalledSinkDropsSilently(r: ReadResult, pre: seq<byte>, post: seq<byte>, empty: bool, w: Writer, k: nat)
    requires ValidRead(r) && Stalled(w) && !r.Eof?
    ensures Honest(w)
    ensures ProcessWith(r, pre, post, empty, w, k).out == []
    ensures ProcessWith(r, pre, post, empty, w, k).status == Continue
  {
    if r.Chunk? {
      var (ls, tail) := SplitLines(r.data);
      StalledLines(ls, tail, pre, post, empty, w, k);
    }
  }

  /** A sink whose every non-empty `write` fails. */
  ghost predicate Broken(w: Writer) {
    Honest(w) && forall k: nat, n: nat :: 0 < n ==> w(k, n) < 0
  }

  lemma BrokenWriteAll(buf: seq<byte>, w: Writer, k: nat)
    requires Broken(w)
    ensures WriteAll(buf, w, k).sent == []
    ensures |buf| > 0 <==> WriteAll(buf, w, k).ret < 0
  {
    if |buf| > 0 { assert w(k, |buf|) < 0; }
  }

  lemma BrokenWriteEach(parts: seq<seq<byte>>, w: Writer, k: nat)
    requires Broken(w) && |parts| > 0 && |parts[|parts| - 1]| > 0
    ensures WriteEach(parts, w, k).sent == [] && WriteEach(parts, w, k).failed
    decreases |parts|
  {
    BrokenWriteAll(parts[0], w, k);
    var t := WriteAll(parts[0], w, k);
    if t.ret >= 0 {
      BrokenWriteEach(parts[1..], w, t.next);
    }
  }

  /**
   * A chunk sent to a sink that rejects every write retires the channel at
   * once, and nothing reaches the sink.
   */
  lemma BrokenSinkCloses(r: ReadResult, pre: seq<byte>, post: seq<byte>, empty: bool, w: Writer, k: nat)
    requires ValidRead(r) && Broken(w) && r.Chunk?
    ensures ProcessWith(r, pre, post, empty, w, k).out == []
    ensures ProcessWith(r, pre, post, empty, w, k).status == Closed
  {
    var (ls, tail) := SplitLines(r.data);
    if |ls| == 0 {
      assert r.data == tail;
      ScanWithTail(tail, pre, post, empty, w, k);
      BrokenWriteAll(tail, w, k);
    } else {
      var rest := Join(ls[1..]) + tail;
      assert r.data == ls[0] + [NL] + rest;
      ScanWithLine(ls[0], rest, pre, post, empty, w, k);
      BrokenWriteEach(LineParts(ls[0], pre, post, empty), w, k);
    }
  }

  /** Against a broken sink, a run of writes fails at once exactly when its first part is non-empty. */
  lemma BrokenWriteEachFirst(parts: seq<seq<byte>>, w: Writer, k: nat)
    requires Broken(w) && |parts| > 0
    ensures WriteEach(parts, w, k).done == 0 <==> |parts[0]| > 0
  {
    BrokenWriteAll(parts[0], w, k);
  }

  /**
   * The flag a failing `process` leaves behind. When the chunk holds a line
   * and the flag is set, the prefix write comes first: if it fails the flag
   * stays set, but an empty prefix "succeeds" and clears the flag although
   * the line never goes out. A chunk without a newline keeps the flag.
   */
  lemma BrokenSinkFlag(r: ReadResult, pre: seq<byte>, post: seq<byte>, empty: bool, w: Writer, k: nat)
    requires ValidRead(r) && Broken(w) && r.Chunk?
    ensures NL in r.data ==> ProcessWith(r, pre, post, empty, w, k).empty == (empty && |pre| > 0)
    ensures NL !in r.data ==> ProcessWith(r, pre, post, empty, w, k).empty == empty
  {
    var (ls, tail) := SplitLines(r.data);
    if |ls| == 0 {
      assert r.data == tail;
      ScanWithTail(tail, pre, post, empty, w, k);
    } else {
      var rest := Join(ls[1..]) + tail;
      assert r.data == ls[0] + [NL] + rest;
      assert r.data[|ls[0]|] == NL;
      ScanWithLine(ls[0], rest, pre, post, empty, w, k);
      var parts := LineParts(ls[0], pre, post, empty);
      BrokenWriteEach(parts, w, k);
      BrokenWriteEachFirst(parts, w, k);
      if empty {
        assert parts[0] == pre;
      }
    }
  }
}
