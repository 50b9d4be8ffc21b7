/**
 * The line-prefixing engine `process` of ind.c, with every `write` succeeding.
 *
 * One call does one read of at most 127 bytes. For each '\n' in the chunk it
 * writes the prefix (only if the caller's `emptyline` flag is set), the bytes
 * before the newline, the postfix and the newline, and sets the flag. Bytes
 * after the last newline are written as they are: no prefix, no postfix, and
 * the flag is left alone.
 */
module LineEngine {
  import opened Bytes

  /** `process` reads into `char buf[128]` asking for `sizeof(buf) - 1` bytes. */
  const BufSize: nat := 128
  const MaxRead: nat := BufSize - 1

  /** What one `read(fdin, buf, 127)` produced. */
  datatype ReadResult =
    | Chunk(data: seq<byte>)  // n > 0 bytes
    | Eof                     // n == 0
    | Failed                  // n < 0, whatever the error

  /** What `read` guarantees for a request of `MaxRead` bytes. */
  predicate ValidRead(r: ReadResult) {
    r.Chunk? ==> 1 <= |r.data| <= MaxRead
  }

  /** A read `read` can actually deliver. */
  type Read = r: ReadResult | ValidRead(r) witness Eof

  /** The return value of `process`: 0 to keep the channel, 1 to retire it. */
  datatype Status = Continue | Closed

  /** Bytes written to `fdout`, the `*emptyline` flag afterwards, and the return value. */
  datatype Outcome = Outcome(out: seq<byte>, empty: bool, status: Status)

  /** What the scan loop wrote and the flag it left. */
  datatype Scanned = Scanned(out: seq<byte>, empty: bool)

  /** Prefix text when the flag is set, nothing otherwise. */
  function Lead(pre: seq<byte>, empty: bool): seq<byte> {
    if empty then pre else []
  }

  /** The `memchr` loop and the trailing write of `process`, over the bytes read. */
  function Scan(d: seq<byte>, pre: seq<byte>, post: seq<byte>, empty: bool): (s: Scanned)
    ensures s.empty == (empty || NL in d)
    ensures NL !in d ==> s.out == d
    decreases |d|
  {
    var i := FirstNewline(d);
    if i == |d| then
      assert d[..i] == d;
      Scanned(d, empty)
    else
      var rest := Scan(d[i + 1..], pre, post, true);
      Scanned(Lead(pre, empty) + d[..i] + post + [NL] + rest.out, rest.empty)
  }

  /** `process(fdin, fdout, pre, prelen, post, postlen, &emptyline)` when every write succeeds. */
  function Process(r: ReadResult, pre: seq<byte>, post: seq<byte>, empty: bool): (o: Outcome)
    requires ValidRead(r)
    ensures r.Eof? ==> o == Outcome([], empty, Closed)
    ensures r.Failed? ==> o == Outcome([], empty, Continue)
    ensures r.Chunk? ==> o.status == Continue
    ensures r.Chunk? && Newlines(r.data) == 0 ==> o.out == r.data && o.empty == empty
    ensures r.Chunk? && Newlines(r.data) > 0 ==> o.empty
  {
    match r
    case Eof => Outcome([], empty, Closed)
    case Failed => Outcome([], empty, Continue)
    case Chunk(d) =>
      ScanFlag(d, pre, post, empty);
      NoNewlineCount(d);
      var s := Scan(d, pre, post, empty);
      Outcome(s.out, s.empty, Continue)
  }

  /** Complete lines, each without its newline. */
  predicate Lines(ls: seq<seq<byte>>) {
    forall j :: 0 <= j < |ls| ==> NoNewline(ls[j])
  }

  /** Complete lines, each followed by its newline. */
  function Join(ls: seq<seq<byte>>): seq<byte> {
    if |ls| == 0 then [] else ls[0] + [NL] + Join(ls[1..])
  }

  /**
   * The output pictured line by line: each complete line gets the prefix
   * (the first one only if the flag was set), its bytes, the postfix and the
   * newline; the unterminated tail is appended bare.
   */
  function Render(ls: seq<seq<byte>>, tail: seq<byte>, pre: seq<byte>, post: seq<byte>, empty: bool): seq<byte> {
    if |ls| == 0 then tail
    else Lead(pre, empty) + ls[0] + post + [NL] + Render(ls[1..], tail, pre, post, true)
  }

  /** Splits any input into its complete lines and its unterminated tail. */
  function SplitLines(d: seq<byte>): (r: (seq<seq<byte>>, seq<byte>))
    ensures Lines(r.0) && NoNewline(r.1)
    ensures Join(r.0) + r.1 == d
    ensures |r.0| == Newlines(d)
    decreases |d|
  {
    var i := FirstNewline(d);
    if i == |d| then
      SplitNone(d);
      ([], d)
    else
      var r := SplitLines(d[i + 1..]);
      SplitCons(d, i, r.0, r.1);
      ([d[..i]] + r.0, r.1)
  }

  lemma SplitNone(d: seq<byte>)
    requires FirstNewline(d) == |d|
    ensures NoNewline(d) && Join([]) + d == d && Newlines(d) == 0
  {
    assert d[..|d|] == d;
    NoNewlineCount(d);
  }

  /** The first line of `d`, ending at the newline at `i`, in front of a split of the rest. */
  lemma SplitCons(d: seq<byte>, i: nat, ls: seq<seq<byte>>, tail: seq<byte>)
    requires i < |d| && d[i] == NL && NoNewline(d[..i])
    requires Lines(ls) && Join(ls) + tail == d[i + 1..] && |ls| == Newlines(d[i + 1..])
    ensures Lines([d[..i]] + ls)
    ensures Join([d[..i]] + ls) + tail == d
    ensures |[d[..i]] + ls| == Newlines(d)
  {
    var l := d[..i];
    SplitAtNewline(d, i);
    JoinCons(l, ls);
    assert Join([l] + ls) + tail == l + [NL] + (Join(ls) + tail);
  }

  lemma JoinCons(l: seq<byte>, ls: seq<seq<byte>>)
    ensures Join([l] + ls) == l + [NL] + Join(ls)
  {
    assert ([l] + ls)[1..] == ls;
  }

  /** First-newline split: `d` is the line, the newline and the rest. */
  lemma SplitAtNewline(d: seq<byte>, i: nat)
    requires i < |d| && d[i] == NL && NoNewline(d[..i])
    ensures d == d[..i] + [NL] + d[i + 1..]
    ensures Newlines(d) == 1 + Newlines(d[i + 1..])
  {
    assert d == d[..i] + ([NL] + d[i + 1..]);
    NewlinesAppend(d[..i], [NL] + d[i + 1..]);
    NoNewlineCount(d[..i]);
    assert ([NL] + d[i + 1..])[1..] == d[i + 1..];
  }

  lemma FirstNewlineOfLine(l: seq<byte>, rest: seq<byte>)
    requires NoNewline(l)
    ensures FirstNewline(l + [NL] + rest) == |l|
    ensures (l + [NL] + rest)[..|l|] == l
    ensures (l + [NL] + rest)[|l| + 1..] == rest
  {
    var d := l + [NL] + rest;
    assert d[|l|] == NL;
    assert d[..|l|] == l;
  }

  /** A read holding exactly one complete line gets one prefix (if the flag is set), the line, one postfix and its newline. */
  lemma OneLine(l: seq<byte>, pre: seq<byte>, post: seq<byte>, empty: bool)
    requires NoNewline(l)
    ensures Scan(l + [NL], pre, post, empty) == Scanned(Lead(pre, empty) + l + post + [NL], true)
  {
    FirstNewlineOfLine(l, []);
    assert l + [NL] + [] == l + [NL];
    assert Scan([], pre, post, true) == Scanned([], true);
  }

  /** The scan renders the input line by line, whatever lines and tail it is made of. */
  lemma {:induction false} ScanRendersLines(ls: seq<seq<byte>>, tail: seq<byte>, pre: seq<byte>, post: seq<byte>, empty: bool)
    requires Lines(ls) && NoNewline(tail)
    ensures Scan(Join(ls) + tail, pre, post, empty) == Scanned(Render(ls, tail, pre, post, empty), |ls| > 0 || empty)
    decreases |ls|
  {
    if |ls| == 0 {
      assert Join(ls) + tail == tail;
      assert tail[..|tail|] == tail;
    } else {
      var d := Join(ls) + tail;
      var rest := Join(ls[1..]) + tail;
      assert d == ls[0] + [NL] + rest;
      FirstNewlineOfLine(ls[0], rest);
      ScanRendersLines(ls[1..], tail, pre, post, true);
    }
  }

  /** Every chunk is written as `Render` of its own lines. */
  lemma ScanIsRender(d: seq<byte>, pre: seq<byte>, post: seq<byte>, empty: bool)
    ensures var (ls, tail) := SplitLines(d);
      Scan(d, pre, post, empty) == Scanned(Render(ls, tail, pre, post, empty), |ls| > 0 || empty)
  {
    var (ls, tail) := SplitLines(d);
    ScanRendersLines(ls, tail, pre, post, empty);
  }

  /** The flag after a scan: set if the chunk held a newline, unchanged otherwise. */
  lemma ScanFlag(d: seq<byte>, pre: seq<byte>, post: seq<byte>, empty: bool)
    ensures Scan(d, pre, post, empty).empty == (Newlines(d) > 0 || empty)
  {
    ScanIsRender(d, pre, post, empty);
  }

  lemma {:induction false} RenderIdentity(ls: seq<seq<byte>>, tail: seq<byte>, empty: bool)
    ensures Render(ls, tail, [], [], empty) == Join(ls) + tail
    decreases |ls|
  {
    if |ls| > 0 {
      RenderIdentity(ls[1..], tail, true);
      assert Lead([], empty) == [];
    }
  }

  /** With empty prefix and postfix the engine copies its input unchanged. */
  lemma ScanIdentity(d: seq<byte>, empty: bool)
    ensures Scan(d, [], [], empty).out == d
  {
    var (ls, tail) := SplitLines(d);
    ScanIsRender(d, [], [], empty);
    RenderIdentity(ls, tail, empty);
  }

  /** How many prefixes `n` complete lines get: all of them, or all but the first when the line was already started. */
  function Prefixes(n: nat, empty: bool): nat {
    if n == 0 then 0 else if empty then n else n - 1
  }

  lemma {:induction false} RenderLength(ls: seq<seq<byte>>, tail: seq<byte>, pre: seq<byte>, post: seq<byte>, empty: bool)
    ensures |Render(ls, tail, pre, post, empty)|
         == |Join(ls)| + |tail| + |ls| * |post| + Prefixes(|ls|, empty) * |pre|
    decreases |ls|
  {
    if |ls| > 0 {
      var m := |ls| - 1;
      RenderLength(ls[1..], tail, pre, post, true);
      assert |Join(ls)| == |ls[0]| + 1 + |Join(ls[1..])|;
      assert |ls| * |post| == m * |post| + |post|;
      assert Prefixes(|ls|, empty) * |pre| == |Lead(pre, empty)| + m * |pre| by {
        assert (m + 1) * |pre| == m * |pre| + |pre|;
      }
    }
  }

  /**
   * Output length: every input byte once, one postfix per newline, and one
   * prefix per newline except the first when the line was already started.
   */
  lemma ScanLength(d: seq<byte>, pre: seq<byte>, post: seq<byte>, empty: bool)
    ensures |Scan(d, pre, post, empty).out|
         == |d| + Newlines(d) * |post| + Prefixes(Newlines(d), empty) * |pre|
  {
    var (ls, tail) := SplitLines(d);
    ScanIsRender(d, pre, post, empty);
    RenderLength(ls, tail, pre, post, empty);
  }

  lemma {:induction false} RenderEndsWithTail(ls: seq<seq<byte>>, tail: seq<byte>, pre: seq<byte>, post: seq<byte>, empty: bool)
    ensures var out := Render(ls, tail, pre, post, empty);
      |tail| <= |out| && out[|out| - |tail|..] == tail
    decreases |ls|
  {
    if |ls| > 0 {
      RenderEndsWithTail(ls[1..], tail, pre, post, true);
    }
  }

  /** The bytes after the last newline come out verbatim, at the very end. */
  lemma ScanEndsWithTail(d: seq<byte>, pre: seq<byte>, post: seq<byte>, empty: bool)
    ensures var (ls, tail) := SplitLines(d);
      var out := Scan(d, pre, post, empty).out;
      |tail| <= |out| && out[|out| - |tail|..] == tail
  {
    var (ls, tail) := SplitLines(d);
    ScanIsRender(d, pre, post, empty);
    RenderEndsWithTail(ls, tail, pre, post, empty);
  }

  lemma {:induction false} JoinAppend(ls: seq<seq<byte>>, ms: seq<seq<byte>>)
    ensures Join(ls + ms) == Join(ls) + Join(ms)
    decreases |ls|
  {
    if |ls| == 0 {
      assert ls + ms == ms;
    } else {
      assert (ls + ms)[1..] == ls[1..] + ms;
      JoinAppend(ls[1..], ms);
    }
  }

  lemma {:induction false} RenderAppend(ls: seq<seq<byte>>, ms: seq<seq<byte>>, tail: seq<byte>, pre: seq<byte>, post: seq<byte>, empty: bool)
    requires |ls| > 0
    ensures Render(ls + ms, tail, pre, post, empty)
         == Render(ls, [], pre, post, empty) + Render(ms, tail, pre, post, true)
    decreases |ls|
  {
    assert (ls + ms)[1..] == ls[1..] + ms;
    if |ls| == 1 {
      assert ls[1..] + ms == ms;
    } else {
      RenderAppend(ls[1..], ms, tail, pre, post, true);
    }
  }

  /** An input whose last byte is a newline has no tail. */
  lemma EndsWithNewlineNoTail(a: seq<byte>)
    requires |a| > 0 && a[|a| - 1] == NL
    ensures SplitLines(a).1 == [] && |SplitLines(a).0| > 0
  {
    var (ls, tail) := SplitLines(a);
  }

  lemma LinesAppend(ls: seq<seq<byte>>, ms: seq<seq<byte>>)
    requires Lines(ls) && Lines(ms)
    ensures Lines(ls + ms)
  {
    forall j | 0 <= j < |ls + ms| ensures NoNewline((ls + ms)[j]) {
      if j < |ls| { assert (ls + ms)[j] == ls[j]; } else { assert (ls + ms)[j] == ms[j - |ls|]; }
    }
  }

  /** The line-view form of `ScanAppendAfterNewline`. */
  lemma ScanAppendLines(ls: seq<seq<byte>>, ms: seq<seq<byte>>, tb: seq<byte>, pre: seq<byte>, post: seq<byte>, empty: bool)
    requires |ls| > 0 && Lines(ls) && Lines(ms) && NoNewline(tb)
    ensures Scan(Join(ls) + (Join(ms) + tb), pre, post, empty)
         == Scanned(Scan(Join(ls), pre, post, empty).out + Scan(Join(ms) + tb, pre, post, true).out,
                    Scan(Join(ms) + tb, pre, post, true).empty)
  {
    var whole := Join(ls) + (Join(ms) + tb);
    assert whole == Join(ls + ms) + tb by {
      JoinAppend(ls, ms);
    }
    calc {
      Scan(whole, pre, post, empty);
      { LinesAppend(ls, ms);
        ScanRendersLines(ls + ms, tb, pre, post, empty); }
      Scanned(Render(ls + ms, tb, pre, post, empty), true);
      { RenderAppend(ls, ms, tb, pre, post, empty); }
      Scanned(Render(ls, [], pre, post, empty) + Render(ms, tb, pre, post, true), true);
      { ScanRendersLines(ls, [], pre, post, empty);
        assert Join(ls) + [] == Join(ls);
        ScanRendersLines(ms, tb, pre, post, true); }
      Scanned(Scan(Join(ls), pre, post, empty).out + Scan(Join(ms) + tb, pre, post, true).out,
              Scan(Join(ms) + tb, pre, post, true).empty);
    }
  }

  /**
   * A chunk boundary right after a newline is invisible: scanning `a + b` is
   * scanning `a`, then `b` with the flag `a` left.
   */
  lemma ScanAppendAfterNewline(a: seq<byte>, b: seq<byte>, pre: seq<byte>, post: seq<byte>, empty: bool)
    requires |a| > 0 && a[|a| - 1] == NL
    ensures Scan(a + b, pre, post, empty)
         == Scanned(Scan(a, pre, post, empty).out + Scan(b, pre, post, true).out, Scan(b, pre, post, true).empty)
  {
    var (ls, ta) := SplitLines(a);
    var (ms, tb) := SplitLines(b);
    EndsWithNewlineNoTail(a);
    assert a == Join(ls);
    ScanAppendLines(ls, ms, tb, pre, post, empty);
  }

  /** The pure engine folded over consecutive reads of one channel. */
  function Feed(chunks: seq<seq<byte>>, pre: seq<byte>, post: seq<byte>, empty: bool): (f: Scanned)
    ensures f.empty == (empty || NL in Concat(chunks))
    decreases |chunks|
  {
    if |chunks| == 0 then Scanned([], empty)
    else
      var s := Scan(chunks[0], pre, post, empty);
      var rest := Feed(chunks[1..], pre, post, s.empty);
      Scanned(s.out + rest.out, rest.empty)
  }

  /** With empty prefix and postfix the stream is copied unchanged, however it is chunked. */
  lemma {:induction false} FeedIdentity(chunks: seq<seq<byte>>, empty: bool)
    ensures Feed(chunks, [], [], empty).out == Concat(chunks)
    decreases |chunks|
  {
    if |chunks| > 0 {
      ScanIdentity(chunks[0], empty);
      FeedIdentity(chunks[1..], Scan(chunks[0], [], [], empty).empty);
    }
  }

  /** Every chunk ends a line. */
  predicate LineAligned(chunks: seq<seq<byte>>) {
    forall j :: 0 <= j < |chunks| ==> |chunks[j]| > 0 && chunks[j][|chunks[j]| - 1] == NL
  }

  /**
   * When each read ends on a newline, the output is what one read of the whole
   * stream would give.
   */
  lemma {:induction false} FeedLineAligned(chunks: seq<seq<byte>>, pre: seq<byte>, post: seq<byte>, empty: bool)
    requires LineAligned(chunks)
    ensures Feed(chunks, pre, post, empty) == Scan(Concat(chunks), pre, post, empty)
    decreases |chunks|
  {
    if |chunks| > 0 {
      var c := chunks[0];
      assert Scan(c, pre, post, empty).empty by {
        assert c[|c| - 1] == NL;
      }
      FeedLineAligned(chunks[1..], pre, post, true);
      ScanAppendAfterNewline(c, Concat(chunks[1..]), pre, post, empty);
      if |chunks| == 1 {
        assert Concat(chunks[1..]) == [];
        assert Concat(chunks) == c;
        assert Scan([], pre, post, true) == Scanned([], true);
      }
    }
  }

  /**
   * Chunking is visible otherwise: "a" then "\n" with prefix ">" gives "a>\n",
   * while "a\n" in one read gives ">a\n".
   */
  lemma SplitReadMovesPrefix()
    ensures Feed([[97], [10]], [62], [], true).out == [97, 62, 10]
    ensures Scan([97, 10], [62], [], true).out == [62, 97, 10]
  {
    assert FirstNewline([97]) == 1;
    assert FirstNewline([10]) == 0;
    assert FirstNewline([97, 10]) == 1;
    var ab: seq<byte> := [97, 10];
    var nl: seq<byte> := [10];
    assert ab[2..] == [];
    assert nl[1..] == [];
  }

  /**
   * The unterminated tail is not prefixed: "a\nb" with prefix "# " comes out
   * as "# a\nb", and the flag stays set for the next read.
   */
  lemma TailGetsNoPrefix()
    ensures Process(Chunk([97, 10, 98]), [35, 32], [], true) == Outcome([35, 32, 97, 10, 98], true, Continue)
  {
    var d: seq<byte> := [97, 10, 98];
    var b: seq<byte> := [98];
    assert FirstNewline(d) == 1;
    assert d[2..] == b;
    assert FirstNewline(b) == 1;
  }
}
