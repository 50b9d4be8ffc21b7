/** Bytes, the newline byte, and the few sequence facts the line engine needs. */
module Bytes {

  type byte = bv8

  /** The only line terminator the engine recognises: '\n' (0x0A). */
  const NL: byte := 10

  predicate NoNewline(s: seq<byte>) {
    NL !in s
  }

  /** Index of the first '\n' in `s`, or `|s|` when there is none (the role of `memchr`). */
  function FirstNewline(s: seq<byte>): (i: nat)
    ensures i <= |s|
    ensures i < |s| ==> s[i] == NL
    ensures NoNewline(s[..i])
  {
    if |s| == 0 then 0
    else if s[0] == NL then 0
    else
      var j := FirstNewline(s[1..]);
      assert s[1..][..j] == s[1..j + 1];
      1 + j
  }

  /** Number of '\n' bytes in `s`. */
  function Newlines(s: seq<byte>): nat {
    if |s| == 0 then 0
    else (if s[0] == NL then 1 else 0) + Newlines(s[1..])
  }

  lemma {:induction false} NewlinesAppend(a: seq<byte>, b: seq<byte>)
    ensures Newlines(a + b) == Newlines(a) + Newlines(b)
  {
    if |a| == 0 {
      assert a + b == b;
    } else {
      assert (a + b)[1..] == a[1..] + b;
      NewlinesAppend(a[1..], b);
    }
  }

  lemma {:induction false} NoNewlineCount(s: seq<byte>)
    ensures NoNewline(s) <==> Newlines(s) == 0
  {
    if |s| > 0 {
      NoNewlineCount(s[1..]);
      assert s == [s[0]] + s[1..];
    }
  }

  /** Concatenation of a sequence of byte strings. */
  function Concat(parts: seq<seq<byte>>): seq<byte> {
    if |parts| == 0 then [] else parts[0] + Concat(parts[1..])
  }

  lemma {:induction false} ConcatAppend(a: seq<seq<byte>>, b: seq<seq<byte>>)
    ensures Concat(a + b) == Concat(a) + Concat(b)
  {
    if |a| == 0 {
      assert a + b == b;
    } else {
      assert (a + b)[1..] == a[1..] + b;
      ConcatAppend(a[1..], b);
    }
  }

  /** `p` is a prefix of `s`. */
  predicate IsPrefix(p: seq<byte>, s: seq<byte>) {
    |p| <= |s| && p == s[..|p|]
  }

  lemma PrefixExtend(p: seq<byte>, s: seq<byte>, t: seq<byte>)
    requires IsPrefix(p, s)
    ensures IsPrefix(p, s + t)
  {
    assert (s + t)[..|p|] == s[..|p|];
  }

  lemma AppendAssoc(a: seq<byte>, b: seq<byte>, c: seq<byte>)
    ensures a + b + c == a + (b + c)
  {
  }

  lemma PrefixBoth(a: seq<byte>, p: seq<byte>, s: seq<byte>)
    requires IsPrefix(p, s)
    ensures IsPrefix(a + p, a + s)
  {
    assert (a + s)[..|a + p|] == a + s[..|p|];
  }
}
