/** A byte buffer used in a circle: the bytes from one offset up to another, wrapping at the end. */
module CircularBuffer {
  import opened Bytes
  import opened Common

  function Content(buf: seq<byte>, from: nat, to: nat): seq<byte>
    requires from < |buf| && to < |buf|
  {
    if from <= to then buf[from..to] else buf[from..] + buf[..to]
  }

  function Wrap(i: nat, size: nat): nat { if i == size then 0 else i }

  /** The buffer with some bytes overwritten. */
  function Splice(buf: seq<byte>, at: nat, data: seq<byte>): seq<byte>
    requires at + |data| <= |buf|
  {
    buf[..at] + data + buf[at + |data|..]
  }

  lemma ContentLength(buf: seq<byte>, from: nat, to: nat)
    requires from < |buf| && to < |buf|
    ensures |Content(buf, from, to)| == if from <= to then to - from else |buf| - (from - to)
  {
  }

  lemma TakeFirst(buf: seq<byte>, from: nat, to: nat, n: nat)
    requires from < |buf| && to < |buf| && from + n <= |buf| && n <= |Content(buf, from, to)|
    ensures buf[from..from + n] == Content(buf, from, to)[..n]
  {
  }

  /** Taking bytes from the front leaves the others. */
  lemma TakeLeavesRest(buf: seq<byte>, from: nat, to: nat, n: nat)
    requires from < |buf| && to < |buf| && from + n <= |buf| && n <= |Content(buf, from, to)| && from != to
    ensures Content(buf, Wrap(from + n, |buf|), to) == Content(buf, from, to)[n..]
  {
    if from < to {
      assert buf[from + n..to] == Content(buf, from, to)[n..];
    } else if from + n < |buf| {
      assert buf[from + n..] == buf[from..][n..];
    } else {
      assert buf[..to] == Content(buf, from, to)[n..];
    }
  }

  /** What overwriting part of a buffer leaves. */
  lemma Spliced(b: seq<byte>, w: nat, d: seq<byte>, k: nat)
    requires w + |d| <= |b|
    ensures var t := Splice(b, w, d);
            && |t| == |b| && t[..w + |d|] == b[..w] + d
            && (w + |d| <= k <= |b| ==> t[k..] == b[k..])
            && (k <= w ==> t[k..w + |d|] == b[k..w] + d)
  {
  }

  /** The new bytes leave at least one free, so that a full buffer does not look empty. */
  predicate Fits(size: nat, from: nat, to: nat, n: nat) {
    if to < from then to + n < from else to + n <= size && (to + n == size ==> from > 0)
  }

  /** Bytes written behind the last are added to the content. */
  lemma AddBehind(buf: seq<byte>, from: nat, to: nat, data: seq<byte>)
    requires from < |buf| && to < |buf| && Fits(|buf|, from, to, |data|)
    ensures Content(Splice(buf, to, data), from, Wrap(to + |data|, |buf|)) == Content(buf, from, to) + data
  {
    var t := Splice(buf, to, data);
    Spliced(buf, to, data, from);
    if to < from {
      Associative(buf[from..], buf[..to], data);
    } else if to + |data| == |buf| {
      assert t[from..] + t[..0] == t[from..to + |data|];
    }
  }

  lemma CutPrefix(a: seq<byte>, c: seq<byte>, n: nat)
    requires n <= |c|
    ensures a + c == (a + c[..n]) + c[n..]
  {
  }
}
