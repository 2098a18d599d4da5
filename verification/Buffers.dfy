/** Scanning and comparing byte buffers (xemu/qemu-img.c:1127-1149, 1256-1291). */
module Buffers {

  import opened IntMath

  newtype byte = x: int | 0 <= x < 256

  const SECTOR_SIZE: nat := 512
  const IO_BUF_SIZE: nat := 2 * 1024 * 1024

  predicate IsZero(buf: seq<byte>) {
    forall j :: 0 <= j < |buf| ==> buf[j] == 0
  }

  // Images read as zeroes beyond their end.
  function ByteAt(data: seq<byte>, i: nat): byte {
    if i < |data| then data[i] else 0
  }

  // find_nonzero: the first sector boundary whose sector is not zero.
  method FindNonzero(buf: seq<byte>) returns (r: int)
    ensures r == -1 <==> IsZero(buf)
    ensures r != -1 ==>
      && 0 <= r < |buf| && r % SECTOR_SIZE == 0
      && IsZero(buf[..r]) && !IsZero(buf[r..Min(r + SECTOR_SIZE, |buf|)])
  {
    var n := |buf|;
    var end := n - n % SECTOR_SIZE;
    var i := 0;
    while i < end
      invariant 0 <= i <= end && i % SECTOR_SIZE == 0
      invariant IsZero(buf[..i])
    {
      if !IsZero(buf[i..i + SECTOR_SIZE]) {
        PartNotZero(buf, i, i + SECTOR_SIZE);
        return i;
      }
      assert buf[..i + SECTOR_SIZE] == buf[..i] + buf[i..i + SECTOR_SIZE];
      i := i + SECTOR_SIZE;
    }
    assert buf == buf[..i] + buf[i..n];
    if i < n && !IsZero(buf[i..n]) {
      PartNotZero(buf, i, n);
      return i;
    }
    return -1;
  }

  lemma PartNotZero(buf: seq<byte>, lo: nat, hi: nat)
    requires lo <= hi <= |buf| && !IsZero(buf[lo..hi])
    ensures !IsZero(buf)
  {
  }

  // Whether the chunk of size chsize that starts at j differs.
  predicate ChunkDiffers(a: seq<byte>, b: seq<byte>, chsize: nat, j: nat)
    requires |a| == |b| && j <= |a|
  {
    a[j..Min(j + chsize, |a|)] != b[j..Min(j + chsize, |a|)]
  }

  // The chunks that start in [0, n) all differ, or all match.
  ghost predicate ChunksAlike(a: seq<byte>, b: seq<byte>, chsize: nat, n: nat, differ: bool)
    requires |a| == |b| && n <= |a| && chsize > 0
  {
    forall j: nat :: j < n && j % chsize == 0 ==> ChunkDiffers(a, b, chsize, j) == differ
  }

  // compare_buffers: pnum bytes match, or differ chunk by chunk, like the first chunk.
  method CompareBuffers(a: seq<byte>, b: seq<byte>, chunkSize: nat) returns (differ: bool, pnum: nat)
    requires |a| == |b| > 0
    ensures 0 < pnum <= |a|
    ensures var chsize := if chunkSize == 0 then SECTOR_SIZE else chunkSize;
      && ChunksAlike(a, b, chsize, pnum, differ)
      && (pnum < |a| ==> pnum % chsize == 0 && ChunkDiffers(a, b, chsize, pnum) != differ)
    ensures !differ ==> a[..pnum] == b[..pnum]
    ensures differ ==> a[..pnum] != b[..pnum]
  {
    var chsize := if chunkSize == 0 then SECTOR_SIZE else chunkSize;
    var i: nat := Min(|a|, chsize);
    differ := a[..i] != b[..i];
    OneChunk(a, b, chsize);
    DivModIs(chsize, chsize, 1, 0);
    while i < |a|
      invariant 0 < i <= |a| && (i < |a| ==> i % chsize == 0)
      invariant ChunksAlike(a, b, chsize, i, differ)
      invariant !differ ==> a[..i] == b[..i]
      invariant differ ==> a[..i] != b[..i]
    {
      var len := Min(|a| - i, chsize);
      if (a[i..i + len] != b[i..i + len]) != differ {
        break;
      }
      NextChunk(a, b, chsize, i, differ);
      assert a[..i + len] == a[..i] + a[i..i + len] && b[..i + len] == b[..i] + b[i..i + len];
      i := i + len;
    }
    pnum := i;
  }

  lemma OneChunk(a: seq<byte>, b: seq<byte>, chsize: nat)
    requires |a| == |b| > 0 && chsize > 0
    ensures var i := Min(|a|, chsize); ChunksAlike(a, b, chsize, i, a[..i] != b[..i])
  {
    forall j: nat | j < Min(|a|, chsize) && j % chsize == 0
      ensures j == 0
    {
      DivModIs(j, chsize, 0, j);
    }
  }

  // The next multiple of the chunk size after i is i plus the chunk size.
  lemma NextMultiple(i: nat, j: nat, chsize: nat)
    requires chsize > 0 && i % chsize == 0 && i < j < i + chsize
    ensures j % chsize != 0
  {
    DivModIs(j, chsize, i / chsize, j - i);
  }

  lemma NextChunk(a: seq<byte>, b: seq<byte>, chsize: nat, i: nat, differ: bool)
    requires |a| == |b| && i < |a| && chsize > 0 && i % chsize == 0
    requires ChunksAlike(a, b, chsize, i, differ) && ChunkDiffers(a, b, chsize, i) == differ
    ensures ChunksAlike(a, b, chsize, Min(i + chsize, |a|), differ)
    ensures (i + chsize) % chsize == 0
  {
    DivModIs(i + chsize, chsize, i / chsize + 1, 0);
    forall j: nat | j < Min(i + chsize, |a|) && j % chsize == 0
      ensures ChunkDiffers(a, b, chsize, j) == differ
    {
      if j > i {
        NextMultiple(i, j, chsize);
      }
    }
  }
}
