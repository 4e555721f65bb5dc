/** capped.go: a buffer that keeps both ends of a stream and counts the middle away. */
module CappedBuffers {
  import Decimals

  /** A stream is bytes; one char stands for one byte. */
  type Bytes = string

  /** The line String prints in place of what was dropped. */
  function Notice(n: nat): Bytes {
    "\n... " + Decimals.Print(n) + " bytes elided ...\n"
  }

  /** What String shows of a stream, as a function of the whole stream. */
  function Shown(stream: Bytes, h: nat, t: nat): Bytes {
    if |stream| <= h + t then stream
    else stream[..h] + Notice(|stream| - h - t) + stream[|stream| - t..]
  }

  function ElidedOf(stream: Bytes, h: nat, t: nat): nat {
    if |stream| <= h + t then 0 else |stream| - h - t
  }

  function Min(a: nat, b: nat): nat {
    if a <= b then a else b
  }

  /** How much of a chunk the head has no room for. */
  function Overflow(head: nat, headLimit: nat, chunk: nat): nat {
    chunk - Min(if headLimit > head then headLimit - head else 0, chunk)
  }

  /** The head takes what it has room for, and the tail the rest. */
  lemma AppendToEnds(was: Bytes, p: Bytes, h: nat, k: nat)
    requires k <= |was| && (|was| < h ==> k == 0)
    ensures
      var take := Min(if h > |was| then h - |was| else 0, |p|);
      && was[..Min(h, |was|)] + p[..take] == (was + p)[..Min(h, |was + p|)]
      && was[|was| - k..] + p[take..] == (was + p)[|was + p| - k - (|p| - take)..]
  {
    var take := Min(if h > |was| then h - |was| else 0, |p|);
    if |was| >= h {
      assert p[take..] == p;
    }
  }

  class CappedBuffer {
    const headLimit: nat
    const tailLimit: nat
    var head: Bytes
    var tail: Bytes
    var elided: nat

    /** Everything ever written. */
    ghost var stream: Bytes
    /** Bytes moved, and bytes dropped, by the compactions that Write triggered. */
    ghost var copiedByWrite: nat
    ghost var droppedByWrite: nat

    ghost predicate Consistent()
      reads this
    {
      && headLimit >= 1 && tailLimit >= 1
      && head == stream[..Min(headLimit, |stream|)]
      && |head| + elided + |tail| == |stream|
      && tail == stream[|stream| - |tail|..]
      && (elided > 0 ==> |tail| >= tailLimit)
      && copiedByWrite <= droppedByWrite <= elided
    }

    /** Between calls the buffer also holds no more than its slack allows. */
    ghost predicate Valid()
      reads this
    {
      Consistent() && |tail| <= 2 * tailLimit
    }

    constructor (limit: int)
      ensures Valid() && stream == "" && copiedByWrite == droppedByWrite == 0
      ensures headLimit + tailLimit == (if limit < 2 then 2 else limit)
      ensures headLimit <= tailLimit <= headLimit + 1
    {
      var l := if limit < 2 then 2 else limit;
      headLimit, tailLimit := l / 2, l - l / 2;
      head, tail, elided := "", "", 0;
      stream, copiedByWrite, droppedByWrite := "", 0, 0;
    }

    /** Never refuses or shortens a write. */
    method Write(p: Bytes) returns (n: nat)
      requires Valid()
      modifies this
      ensures Valid() && stream == old(stream) + p && n == |p|
      ensures |head| + |tail| <= headLimit + 2 * tailLimit
      ensures
        var late := old(|tail|) + Overflow(old(|head|), headLimit, |p|);
        if late <= 2 * tailLimit then |tail| == late && elided == old(elided) else |tail| == tailLimit
      ensures copiedByWrite <= droppedByWrite
    {
      hide Overflow;
      n := |p|;
      var rest := FillHead(p);
      if |rest| > 0 {
        WriteTail(rest);
      }
    }

    /** Between the two halves of Write: the head has taken what it had room for and rest is still to go
        into the tail. */
    ghost predicate Receiving(rest: Bytes)
      reads this
    {
      && headLimit >= 1 && tailLimit >= 1 && |tail| <= 2 * tailLimit
      && head == stream[..Min(headLimit, |stream|)]
      && |head| + elided + |tail| + |rest| == |stream|
      && tail + rest == stream[|stream| - |tail| - |rest|..]
      && (elided > 0 ==> |tail| >= tailLimit)
      && copiedByWrite <= droppedByWrite <= elided
    }

    /** The first half of Write. */
    method FillHead(p: Bytes) returns (rest: Bytes)
      requires Valid()
      modifies this`head, this`stream
      ensures Receiving(rest) && (rest == "" ==> Valid())
      ensures stream == old(stream) + p && |rest| == Overflow(old(|head|), headLimit, |p|)
    {
      rest := p;
      AppendToEnds(stream, p, headLimit, |tail|);
      if headLimit - |head| > 0 {
        var take := Min(headLimit - |head|, |rest|);
        head := head + rest[..take];
        rest := rest[take..];
      }
      stream := stream + p;
      assert head == stream[..Min(headLimit, |stream|)];
      assert tail + rest == stream[|stream| - |tail| - |rest|..];
    }

    /** The second half of Write: what the head had no room for. The tail is compacted only once it
        has grown to twice what is kept. */
    method WriteTail(rest: Bytes)
      requires Receiving(rest)
      modifies this`tail, this`elided, this`copiedByWrite, this`droppedByWrite
      ensures Valid()
      ensures
        var late := old(|tail|) + |rest|;
        if late <= 2 * tailLimit then |tail| == late && elided == old(elided) else |tail| == tailLimit
    {
      tail := tail + rest;
      if |tail| > 2 * tailLimit {
        ghost var before := |tail|;
        Trim();
        copiedByWrite := copiedByWrite + |tail|;
        droppedByWrite := droppedByWrite + (before - |tail|);
      }
    }

    /** Drops the oldest bytes of the tail beyond what is kept. */
    method Trim()
      requires Consistent()
      modifies this`tail, this`elided
      ensures Consistent()
      ensures |tail| == Min(old(|tail|), tailLimit)
      ensures elided == old(elided) + old(|tail|) - |tail|
    {
      if |tail| <= tailLimit {
        return;
      }
      var drop := |tail| - tailLimit;
      elided := elided + drop;
      tail := tail[drop..];
    }

    method String() returns (s: Bytes)
      requires Valid()
      modifies this`tail, this`elided
      ensures Valid()
      ensures s == Shown(stream, headLimit, tailLimit)
    {
      hide Notice;
      Trim();
      if elided == 0 {
        s := head + tail;
      } else {
        s := head + Notice(elided) + tail;
      }
    }

    method Elided() returns (n: nat)
      requires Valid()
      modifies this`tail, this`elided
      ensures Valid()
      ensures n == ElidedOf(stream, headLimit, tailLimit)
    {
      Trim();
      n := elided;
    }
  }

  /** Nothing of either end is lost, and the count is exact: the two ends and the count account for
      every byte. */
  lemma ShownKeepsBothEnds(stream: Bytes, h: nat, t: nat)
    ensures stream[..Min(h, |stream|)] <= Shown(stream, h, t)
    ensures |stream| > h + t ==>
              && ElidedOf(stream, h, t) == |stream| - h - t
              && Shown(stream, h, t)
                 == stream[..h] + ("\n... " + Decimals.Print(|stream| - h - t) + " bytes elided ...\n")
                    + stream[|stream| - t..]
              && |Shown(stream, h, t)| == h + t + |Notice(ElidedOf(stream, h, t))|
              && Shown(stream, h, t)[|Shown(stream, h, t)| - t..] == stream[|stream| - t..]
    ensures |stream| == Min(h + t, |stream|) + ElidedOf(stream, h, t)
  {}

  /** One chunk can fill a buffer to headLimit plus twice tailLimit, the most any buffer ever holds. That
      is within the one and a half times the limit the comment on Write promises exactly when the limit
      is even; for an odd limit it is half a byte over. */
  method FillTheSlack(limit: nat, chunk: Bytes) returns (b: CappedBuffer)
    requires limit >= 2 && |chunk| == limit + (limit - limit / 2)
    ensures fresh(b) && b.Valid() && b.stream == chunk && b.elided == 0
    ensures |b.head| + |b.tail| == |chunk| == b.headLimit + 2 * b.tailLimit
    ensures 2 * (|b.head| + |b.tail|) <= 3 * limit <==> limit % 2 == 0
  {
    b := new CappedBuffer(limit);
    var n := b.Write(chunk);
    assert b.stream == "" + chunk;
  }
}
