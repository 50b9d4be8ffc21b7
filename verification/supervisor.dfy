/**
 * The retirement bookkeeping of `main`'s loop in ind.c.
 *
 * The parent keeps the read ends of the child's stdout and stderr pipes and an
 * `emptyline` flag for each, both starting at 1. Every pass of the loop calls
 * `process` once on each descriptor that is still live, stdout first; the
 * first time `process` returns 1 the descriptor is set to -1 and `nclosed`
 * goes up. The loop leaves when `nclosed > 1`.
 *
 * The loop only looks at what `process` returns, so it is stated over any
 * per-descriptor step `Proc`; `Relaying` is the step ind.c actually uses.
 */
module Supervisor {
  import opened Bytes
  import opened SafeWrite
  import opened LineEngine
  import opened Relay

  /** Prefix and postfix strings for the two streams (`-p`, `-a`, `-P`, `-A`). */
  datatype Config = Config(prefix: seq<byte>, postfix: seq<byte>, eprefix: seq<byte>, epostfix: seq<byte>)

  /** The defaults: two spaces before stdout lines, ">>" before stderr lines, no postfixes. */
  const Defaults: Config := Config([32, 32], [], [62, 62], [])

  /**
   * One relayed stream: `open` is `s[0] != -1`, `empty` is its `emptyline`,
   * `out` is what reached the destination, `next` is the next `write` call
   * index on the destination.
   */
  datatype Channel = Channel(open: bool, empty: bool, out: seq<byte>, next: nat)

  /** Loop state: the stdout and stderr channels and the `nclosed` counter. */
  datatype Loop = Loop(stdout: Channel, stderr: Channel, nclosed: nat)

  function Retired(c: Channel): nat {
    if c.open then 0 else 1
  }

  /** `nclosed` counts exactly the descriptors set to -1. */
  predicate Inv(s: Loop) {
    s.nclosed == Retired(s.stdout) + Retired(s.stderr)
  }

  /** The test at the top of the loop. */
  predicate Done(s: Loop) {
    s.nclosed > 1
  }

  /** The state on entry to the loop: both descriptors live, both flags set, nothing closed. */
  function Start(): (s: Loop)
    ensures Inv(s) && !Done(s)
    ensures s.stdout.open && s.stderr.open && s.stdout.empty && s.stderr.empty
    ensures s.stdout.out == [] && s.stderr.out == []
  {
    Loop(Channel(true, true, [], 0), Channel(true, true, [], 0), 0)
  }

  /**
   * One `process` call on a live descriptor: from the `emptyline` flag, the
   * next `write` call index and the read, what it wrote, the new flag, its
   * return value and the next `write` call index.
   */
  type Proc = (bool, nat, Read) -> Relayed

  /** `process` with the prefix `pre` and postfix `post`, writing through `w`. */
  function Relaying(pre: seq<byte>, post: seq<byte>, w: Writer): Proc
    requires Honest(w)
  {
    (empty: bool, k: nat, r: Read) => ProcessWith(r, pre, post, empty, w, k)
  }

  /**
   * `if (-1 != fd && process(...)) { nclosed++; fd = -1; }` for one channel:
   * a retired channel is not read; a live one takes the next read.
   */
  function Service(c: Channel, r: Read, proc: Proc): (c': Channel)
    ensures !c.open ==> c' == c
    ensures IsPrefix(c.out, c'.out)
    ensures c'.open ==> c.open
  {
    if !c.open then c
    else
      var o := proc(c.empty, c.next, r);
      assert (c.out + o.out)[..|c.out|] == c.out;
      Channel(o.status == Continue, o.empty, c.out + o.out, o.next)
  }

  /**
   * With `process` as the step, end-of-file retires a live channel and
   * leaves its output and flag alone, and a failed read changes nothing.
   */
  lemma ServiceRelaying(c: Channel, r: Read, pre: seq<byte>, post: seq<byte>, w: Writer)
    requires Honest(w) && c.open
    ensures r.Eof? ==> var c' := Service(c, r, Relaying(pre, post, w));
      !c'.open && c'.out == c.out && c'.empty == c.empty
    ensures r.Failed? ==> Service(c, r, Relaying(pre, post, w)) == c
  {
    if r.Failed? {
      assert c.out + [] == c.out;
    }
  }

  /** A channel's history: `Service` over its reads in order. */
  function Drain(c: Channel, rs: seq<Read>, proc: Proc): (d: Channel)
    ensures IsPrefix(c.out, d.out)
    ensures d.open ==> c.open
    decreases |rs|
  {
    if |rs| == 0 then c
    else Drain(Service(c, rs[0], proc), rs[1..], proc)
  }

  /** One pass of the loop body, stdout then stderr, with how many reads each channel used. */
  datatype Pass1 = Pass1(state: Loop, usedOut: nat, usedErr: nat)

  function Iterate(s: Loop, outs: seq<Read>, errs: seq<Read>, pOut: Proc, pErr: Proc): (p: Pass1)
    requires Inv(s) && !Done(s)
    requires s.stdout.open ==> |outs| > 0
    requires s.stderr.open ==> |errs| > 0
    ensures Inv(p.state) && p.state.nclosed <= 2
    ensures p.usedOut == (if s.stdout.open then 1 else 0)
    ensures p.usedErr == (if s.stderr.open then 1 else 0)
    ensures p.usedOut + p.usedErr > 0
    ensures s.stdout.open ==> p.state.stdout == Service(s.stdout, outs[0], pOut)
    ensures s.stderr.open ==> p.state.stderr == Service(s.stderr, errs[0], pErr)
    ensures !s.stdout.open ==> p.state.stdout == s.stdout
    ensures !s.stderr.open ==> p.state.stderr == s.stderr
    ensures p.state.nclosed >= s.nclosed
  {
    if s.stdout.open && s.stderr.open then
      var o := Service(s.stdout, outs[0], pOut);
      var e := Service(s.stderr, errs[0], pErr);
      Pass1(Loop(o, e, Retired(o) + Retired(e)), 1, 1)
    else if s.stdout.open then
      var o := Service(s.stdout, outs[0], pOut);
      Pass1(Loop(o, s.stderr, s.nclosed + Retired(o)), 1, 0)
    else
      var e := Service(s.stderr, errs[0], pErr);
      Pass1(Loop(s.stdout, e, s.nclosed + Retired(e)), 0, 1)
  }

  /** Where the loop stopped and how many reads of each stream it used. */
  datatype Finish = Finish(state: Loop, usedOut: nat, usedErr: nat)

  /**
   * The loop run against the reads each descriptor will deliver. It stops when
   * `nclosed > 1`, or when a live descriptor has no read left to give (the
   * program would block there).
   */
  function Run(s: Loop, outs: seq<Read>, errs: seq<Read>, pOut: Proc, pErr: Proc): (f: Finish)
    requires Inv(s)
    ensures Inv(f.state) && f.state.nclosed <= 2
    ensures f.usedOut <= |outs| && f.usedErr <= |errs|
    ensures Done(f.state) <==> !f.state.stdout.open && !f.state.stderr.open
    ensures Done(f.state) || (f.state.stdout.open && f.usedOut == |outs|) || (f.state.stderr.open && f.usedErr == |errs|)
    decreases |outs| + |errs|
  {
    if Done(s) then Finish(s, 0, 0)
    else if (s.stdout.open && |outs| == 0) || (s.stderr.open && |errs| == 0) then Finish(s, 0, 0)
    else
      var p := Iterate(s, outs, errs, pOut, pErr);
      var f := Run(p.state, outs[p.usedOut..], errs[p.usedErr..], pOut, pErr);
      Finish(f.state, p.usedOut + f.usedOut, p.usedErr + f.usedErr)
  }

  /** The whole of `main` after the fork: the loop from `Start` with `process` on both streams. */
  function Supervise(cfg: Config, outs: seq<Read>, errs: seq<Read>, wOut: Writer, wErr: Writer): (f: Finish)
    requires Honest(wOut) && Honest(wErr)
    ensures Inv(f.state) && f.state.nclosed <= 2
    ensures f.usedOut <= |outs| && f.usedErr <= |errs|
    ensures Done(f.state) <==> !f.state.stdout.open && !f.state.stderr.open
    ensures Done(f.state) || (f.state.stdout.open && f.usedOut == |outs|) || (f.state.stderr.open && f.usedErr == |errs|)
  {
    Run(Start(), outs, errs, Relaying(cfg.prefix, cfg.postfix, wOut), Relaying(cfg.eprefix, cfg.epostfix, wErr))
  }

  lemma {:induction false} DrainRetired(c: Channel, rs: seq<Read>, proc: Proc)
    requires !c.open
    ensures Drain(c, rs, proc) == c
    decreases |rs|
  {
    if |rs| > 0 {
      DrainRetired(c, rs[1..], proc);
    }
  }

  lemma DrainStep(c: Channel, r: Read, rs: seq<Read>, proc: Proc)
    ensures Drain(c, [r] + rs, proc) == Drain(Service(c, r, proc), rs, proc)
  {
    assert ([r] + rs)[1..] == rs;
  }

  /** Unfolds `Run` by one iteration. */
  lemma RunStep(s: Loop, outs: seq<Read>, errs: seq<Read>, pOut: Proc, pErr: Proc)
    requires Inv(s) && !Done(s) && (s.stdout.open ==> |outs| > 0) && (s.stderr.open ==> |errs| > 0)
    ensures var p := Iterate(s, outs, errs, pOut, pErr);
      var g := Run(p.state, outs[p.usedOut..], errs[p.usedErr..], pOut, pErr);
      Run(s, outs, errs, pOut, pErr) == Finish(g.state, p.usedOut + g.usedOut, p.usedErr + g.usedErr)
  {
  }

  /**
   * The streams do not interfere: whatever the interleaving, each channel ends
   * as its own reads alone would leave it.
   */
  lemma {:induction false} RunProjects(s: Loop, outs: seq<Read>, errs: seq<Read>, pOut: Proc, pErr: Proc)
    requires Inv(s)
    ensures var f := Run(s, outs, errs, pOut, pErr);
      && f.state.stdout == Drain(s.stdout, outs[..f.usedOut], pOut)
      && f.state.stderr == Drain(s.stderr, errs[..f.usedErr], pErr)
    decreases |outs| + |errs|
  {
    if Done(s) || (s.stdout.open && |outs| == 0) || (s.stderr.open && |errs| == 0) {
      assert Run(s, outs, errs, pOut, pErr) == Finish(s, 0, 0);
      assert outs[..0] == [] && errs[..0] == [];
    } else {
      var p := Iterate(s, outs, errs, pOut, pErr);
      var outs', errs' := outs[p.usedOut..], errs[p.usedErr..];
      var g := Run(p.state, outs', errs', pOut, pErr);
      assert Run(s, outs, errs, pOut, pErr) == Finish(g.state, p.usedOut + g.usedOut, p.usedErr + g.usedErr) by {
        RunStep(s, outs, errs, pOut, pErr);
      }
      RunProjects(p.state, outs', errs', pOut, pErr);
      assert Drain(p.state.stdout, outs'[..g.usedOut], pOut) == Drain(s.stdout, outs[..p.usedOut + g.usedOut], pOut) by {
        ProjectOne(s.stdout, p.state.stdout, p.usedOut, outs, g.usedOut, pOut);
      }
      assert Drain(p.state.stderr, errs'[..g.usedErr], pErr) == Drain(s.stderr, errs[..p.usedErr + g.usedErr], pErr) by {
        ProjectOne(s.stderr, p.state.stderr, p.usedErr, errs, g.usedErr, pErr);
      }
    }
  }

  /** One channel's share of an iteration followed by the rest of the run. */
  lemma ProjectOne(c: Channel, c1: Channel, used: nat, rs: seq<Read>, rest: nat, proc: Proc)
    requires used <= 1 && used <= |rs| && rest <= |rs| - used
    requires used == 1 ==> c1 == Service(c, rs[0], proc)
    requires used == 0 ==> c1 == c && !c.open
    ensures Drain(c1, rs[used..][..rest], proc) == Drain(c, rs[..used + rest], proc)
  {
    if used == 1 {
      assert rs[..1 + rest] == [rs[0]] + rs[1..][..rest];
      DrainStep(c, rs[0], rs[1..][..rest], proc);
    } else {
      DrainRetired(c, rs[..rest], proc);
      DrainRetired(c, rs[0..][..rest], proc);
    }
  }

  /** A step that returns 1 whenever its read hits end-of-file. */
  ghost predicate ClosesAtEof(proc: Proc) {
    forall empty: bool, k: nat :: proc(empty, k, Eof).status == Closed
  }

  /** `process` returns 1 at end-of-file, whatever the writer does. */
  lemma RelayingClosesAtEof(pre: seq<byte>, post: seq<byte>, w: Writer)
    requires Honest(w)
    ensures ClosesAtEof(Relaying(pre, post, w))
  {
    forall empty: bool, k: nat
      ensures Relaying(pre, post, w)(empty, k, Eof).status == Closed
    {
      assert ProcessWith(Eof, pre, post, empty, w, k).status == Closed;
    }
  }

  /**
   * The loop always ends once both descriptors will deliver end-of-file: the
   * run stops with both channels retired.
   */
  lemma {:induction false} RunReachesDone(s: Loop, outs: seq<Read>, errs: seq<Read>, pOut: Proc, pErr: Proc)
    requires Inv(s) && ClosesAtEof(pOut) && ClosesAtEof(pErr)
    requires s.stdout.open ==> Eof in outs
    requires s.stderr.open ==> Eof in errs
    ensures Done(Run(s, outs, errs, pOut, pErr).state)
    decreases |outs| + |errs|
  {
    if !Done(s) {
      var p := Iterate(s, outs, errs, pOut, pErr);
      var outs', errs' := outs[p.usedOut..], errs[p.usedErr..];
      if p.state.stdout.open {
        assert outs[0] != Eof;
        assert outs == [outs[0]] + outs';
      }
      if p.state.stderr.open {
        assert errs[0] != Eof;
        assert errs == [errs[0]] + errs';
      }
      RunReachesDone(p.state, outs', errs', pOut, pErr);
    }
  }

  /** `ind` leaves its loop, both pipes retired, once both streams reach end-of-file. */
  lemma SuperviseEnds(cfg: Config, outs: seq<Read>, errs: seq<Read>, wOut: Writer, wErr: Writer)
    requires Honest(wOut) && Honest(wErr) && Eof in outs && Eof in errs
    ensures var f := Supervise(cfg, outs, errs, wOut, wErr);
      Done(f.state) && !f.state.stdout.open && !f.state.stderr.open
  {
    RelayingClosesAtEof(cfg.prefix, cfg.postfix, wOut);
    RelayingClosesAtEof(cfg.eprefix, cfg.epostfix, wErr);
    RunReachesDone(Start(), outs, errs, Relaying(cfg.prefix, cfg.postfix, wOut), Relaying(cfg.eprefix, cfg.epostfix, wErr));
  }

  /** None of the reads is end-of-file. */
  predicate NoEof(rs: seq<Read>) {
    forall j :: 0 <= j < |rs| ==> !rs[j].Eof?
  }

  /** The data of the reads that delivered bytes, in order. */
  function Chunks(rs: seq<Read>): seq<seq<byte>> {
    if |rs| == 0 then []
    else if rs[0].Chunk? then [rs[0].data] + Chunks(rs[1..])
    else Chunks(rs[1..])
  }

  /**
   * With a destination that takes every write, a live channel fed reads that
   * are not end-of-file stays live, and what it writes is the pure engine
   * folded over the chunks read; failed reads contribute nothing.
   */
  lemma {:induction false} ReliableDrain(c: Channel, rs: seq<Read>, pre: seq<byte>, post: seq<byte>, w: Writer)
    requires Reliable(w) && c.open && NoEof(rs)
    ensures var d := Drain(c, rs, Relaying(pre, post, w));
      var f := Feed(Chunks(rs), pre, post, c.empty);
      d.open && d.out == c.out + f.out && d.empty == f.empty
    decreases |rs|
  {
    if |rs| > 0 {
      var proc := Relaying(pre, post, w);
      var r := rs[0];
      var c1 := Service(c, r, proc);
      var p := Process(r, pre, post, c.empty);
      var f1 := Feed(Chunks(rs[1..]), pre, post, p.empty);
      var d1 := Drain(c1, rs[1..], proc);
      assert c1.open && c1.out == c.out + p.out && c1.empty == p.empty by {
        assert proc(c.empty, c.next, r) == ProcessWith(r, pre, post, c.empty, w, c.next);
        ReliableProcess(r, pre, post, c.empty, w, c.next);
      }
      assert d1.open && d1.out == c1.out + f1.out && d1.empty == f1.empty by {
        ReliableDrain(c1, rs[1..], pre, post, w);
      }
      assert Drain(c, rs, proc) == d1;
      assert Feed(Chunks(rs), pre, post, c.empty) == Scanned(p.out + f1.out, f1.empty) by {
        ChunksStep(rs, pre, post, c.empty);
      }
      AppendAssoc(c.out, p.out, f1.out);
    }
  }

  /** The pure fold over `Chunks(rs)` takes one `Process` step per read. */
  lemma ChunksStep(rs: seq<Read>, pre: seq<byte>, post: seq<byte>, empty: bool)
    requires |rs| > 0 && !rs[0].Eof?
    ensures var p := Process(rs[0], pre, post, empty);
      var f := Feed(Chunks(rs[1..]), pre, post, p.empty);
      Feed(Chunks(rs), pre, post, empty) == Scanned(p.out + f.out, f.empty)
  {
    if rs[0].Chunk? {
      var chunks := Chunks(rs);
      assert chunks == [rs[0].data] + Chunks(rs[1..]);
      assert chunks[1..] == Chunks(rs[1..]);
    }
  }

  /**
   * With empty prefix and postfix and a destination that takes every write,
   * the relayed stream is the child's output byte for byte.
   */
  lemma TransparentWithoutDecoration(c: Channel, rs: seq<Read>, w: Writer)
    requires Reliable(w) && c.open && NoEof(rs)
    ensures Drain(c, rs, Relaying([], [], w)).out == c.out + Concat(Chunks(rs))
  {
    ReliableDrain(c, rs, [], [], w);
    FeedIdentity(Chunks(rs), c.empty);
  }

  /**
   * End to end, with destinations that take every write and streams that do
   * not end: each destination receives its own stream's chunks decorated by
   * the pure engine from a fresh line, however the two streams interleave.
   */
  lemma SuperviseReliable(cfg: Config, outs: seq<Read>, errs: seq<Read>, wOut: Writer, wErr: Writer)
    requires Reliable(wOut) && Reliable(wErr) && NoEof(outs) && NoEof(errs)
    ensures var f := Supervise(cfg, outs, errs, wOut, wErr);
      && f.state.stdout.out == Feed(Chunks(outs[..f.usedOut]), cfg.prefix, cfg.postfix, true).out
      && f.state.stderr.out == Feed(Chunks(errs[..f.usedErr]), cfg.eprefix, cfg.epostfix, true).out
  {
    var s := Start();
    var pOut, pErr := Relaying(cfg.prefix, cfg.postfix, wOut), Relaying(cfg.eprefix, cfg.epostfix, wErr);
    var f := Run(s, outs, errs, pOut, pErr);
    RunProjects(s, outs, errs, pOut, pErr);
    ReliableDrain(s.stdout, outs[..f.usedOut], cfg.prefix, cfg.postfix, wOut);
    ReliableDrain(s.stderr, errs[..f.usedErr], cfg.eprefix, cfg.epostfix, wErr);
  }

  /** A destination that takes every byte it is offered. */
  function Sink(): Writer {
    (k: nat, n: nat) => n
  }

  lemma SinkReliable()
    ensures Reliable(Sink())
  {
  }

  /**
   * `ind` with its default configuration: "a\n" on stdout and "e\n" on stderr,
   * each followed by end-of-file, come out as "  a\n" and ">>e\n", and the
   * loop ends with both descriptors retired.
   */
  lemma DefaultsExample()
    ensures var f := Supervise(Defaults, [Chunk([97, 10]), Eof], [Chunk([101, 10]), Eof], Sink(), Sink());
      f.state.stdout.out == [32, 32, 97, 10] && f.state.stderr.out == [62, 62, 101, 10] && Done(f.state)
  {
    ExampleBytes();
    SinkReliable();
    OneLineEach(Defaults, [97], [101], Sink(), Sink());
  }

  /**
   * Each stream sends one complete line and then end-of-file: over writers
   * that never fall short, each line comes out once with its stream's prefix
   * and postfix, and the loop ends with both descriptors retired.
   */
  lemma OneLineEach(cfg: Config, a: seq<byte>, e: seq<byte>, wOut: Writer, wErr: Writer)
    requires Reliable(wOut) && Reliable(wErr)
    requires NoNewline(a) && NoNewline(e) && |a| < MaxRead && |e| < MaxRead
    ensures var f := Supervise(cfg, [Chunk(a + [NL]), Eof], [Chunk(e + [NL]), Eof], wOut, wErr);
      Done(f.state) && f.state.stdout.out == cfg.prefix + a + cfg.postfix + [NL] &&
      f.state.stderr.out == cfg.eprefix + e + cfg.epostfix + [NL]
  {
    var outs: seq<Read> := [Chunk(a + [NL]), Eof];
    var errs: seq<Read> := [Chunk(e + [NL]), Eof];
    var pOut := Relaying(cfg.prefix, cfg.postfix, wOut);
    var pErr := Relaying(cfg.eprefix, cfg.epostfix, wErr);
    var s := Start();
    var p := Iterate(s, outs, errs, pOut, pErr);
    LineRelayed(s.stdout, a, cfg.prefix, cfg.postfix, wOut);
    LineRelayed(s.stderr, e, cfg.eprefix, cfg.epostfix, wErr);
    assert outs[p.usedOut..] == [Eof] && errs[p.usedErr..] == [Eof];
    RunStep(s, outs, errs, pOut, pErr);
    EofEnds(p.state, cfg.prefix, cfg.postfix, cfg.eprefix, cfg.epostfix, wOut, wErr);
  }

  /** With both descriptors live and only end-of-file left on each, the loop retires both in one pass and keeps their output. */
  lemma EofEnds(s: Loop, pre: seq<byte>, post: seq<byte>, epre: seq<byte>, epost: seq<byte>, wOut: Writer, wErr: Writer)
    requires Honest(wOut) && Honest(wErr)
    requires Inv(s) && s.stdout.open && s.stderr.open
    ensures var f := Run(s, [Eof], [Eof], Relaying(pre, post, wOut), Relaying(epre, epost, wErr));
      Done(f.state) && f.state.stdout.out == s.stdout.out && f.state.stderr.out == s.stderr.out
  {
    var pOut := Relaying(pre, post, wOut);
    var pErr := Relaying(epre, epost, wErr);
    var p := Iterate(s, [Eof], [Eof], pOut, pErr);
    ServiceRelaying(s.stdout, Eof, pre, post, wOut);
    ServiceRelaying(s.stderr, Eof, epre, epost, wErr);
    assert [Eof][p.usedOut..] == [] && [Eof][p.usedErr..] == [];
    RunStep(s, [Eof], [Eof], pOut, pErr);
  }

  /** A live channel with its flag set and nothing written yet relays a read holding one line `l` as one decorated line. */
  lemma LineRelayed(c: Channel, l: seq<byte>, pre: seq<byte>, post: seq<byte>, w: Writer)
    requires Reliable(w) && c.open && c.empty && c.out == [] && NoNewline(l) && |l| < MaxRead
    ensures var c' := Service(c, Chunk(l + [NL]), Relaying(pre, post, w));
      c'.open && c'.empty && c'.out == pre + l + post + [NL]
  {
    ReliableProcess(Chunk(l + [NL]), pre, post, true, w, c.next);
    OneLine(l, pre, post, true);
  }

  /** The byte strings of the example above, spelled both ways. */
  lemma ExampleBytes()
    ensures [97] + [NL] == [97, 10] && [101] + [NL] == [101, 10]
    ensures NoNewline([97]) && NoNewline([101])
    ensures Defaults.prefix + [97] + Defaults.postfix + [NL] == [32, 32, 97, 10]
    ensures Defaults.eprefix + [101] + Defaults.epostfix + [NL] == [62, 62, 101, 10]
  {
  }
}
