/**
 Safe rebasing of an overlay onto another backing file
 (xemu/qemu-img.c:4026-4161).  Absent backing files are empty.
 */
module Rebase {

  import opened Wrappers
  import opened IntMath
  import opened Buffers

  datatype Overlay = Overlay(data: seq<byte>, isAllocated: seq<bool>)

  ghost predicate ValidOverlay(ov: Overlay) {
    |ov.data| == |ov.isAllocated|
  }

  function ReadAt(ov: Overlay, backing: seq<byte>, i: nat): byte
    requires i < |ov.data| == |ov.isAllocated|
  {
    if ov.isAllocated[i] then ov.data[i] else ByteAt(backing, i)
  }

  // The first n bytes read the same.
  ghost predicate SameRead(ov: Overlay, backing: seq<byte>, ov': Overlay, backing': seq<byte>, n: nat) {
    && ValidOverlay(ov) && ValidOverlay(ov') && n <= |ov.data| == |ov'.data|
    && forall i :: 0 <= i < n ==> ReadAt(ov, backing, i) == ReadAt(ov', backing', i)
  }

  ghost predicate Unallocated(ov: Overlay, lo: nat, hi: nat) {
    ValidOverlay(ov) && hi <= |ov.data| && forall i :: lo <= i < hi ==> !ov.isAllocated[i]
  }

  function AlignDown(x: nat, align: nat): nat
    requires align > 0
  {
    x - x % align
  }

  function AlignUp(x: nat, align: nat): nat
    requires align > 0
  {
    AlignDown(x + align - 1, align)
  }

  // Allocation does not change within an aligned block.
  ghost predicate BlockAllocated(ov: Overlay, align: nat) {
    && ValidOverlay(ov) && align > 0
    && forall i: nat :: i < |ov.data| ==> ov.isAllocated[i] == ov.isAllocated[AlignDown(i, align)]
  }

  // A boundary between blocks, or the end of the image.
  predicate IsBoundary(x: nat, align: nat, size: nat)
    requires align > 0
  {
    x % align == 0 || x == size
  }

  // ----------------------------------------------------------------- writing

  function Written(ov: Overlay, lo: nat, buf: seq<byte>): Overlay
    requires |ov.data| == |ov.isAllocated| && lo + |buf| <= |ov.data|
  {
    Overlay(ov.data[..lo] + buf + ov.data[lo + |buf|..],
            ov.isAllocated[..lo] + seq(|buf|, _ => true) + ov.isAllocated[lo + |buf|..])
  }

  lemma WrittenAt(ov: Overlay, lo: nat, buf: seq<byte>, i: nat)
    requires ValidOverlay(ov) && lo + |buf| <= |ov.data| && i < |ov.data|
    ensures var w := Written(ov, lo, buf);
      && |w.data| == |w.isAllocated| == |ov.data|
      && (lo <= i < lo + |buf| ==> w.isAllocated[i] && w.data[i] == buf[i - lo])
      && (!(lo <= i < lo + |buf|) ==> w.isAllocated[i] == ov.isAllocated[i] && w.data[i] == ov.data[i])
  {
  }

  ghost predicate HoldsBacking(buf: seq<byte>, backing: seq<byte>, lo: nat) {
    forall j :: 0 <= j < |buf| ==> buf[j] == ByteAt(backing, lo + j)
  }

  // Copying up from the backing file does not change what is read.
  lemma CopyUpKeepsRead(ov: Overlay, oldBase: seq<byte>, lo: nat, buf: seq<byte>)
    requires Unallocated(ov, lo, lo + |buf|) && HoldsBacking(buf, oldBase, lo)
    ensures SameRead(Written(ov, lo, buf), oldBase, ov, oldBase, |ov.data|)
  {
  }

  // A written range reads the same over every backing file.
  lemma CopiedReadsAlike(ov: Overlay, oldBase: seq<byte>, newBase: seq<byte>, lo: nat, buf: seq<byte>, orig: Overlay)
    requires Unallocated(ov, lo, lo + |buf|) && HoldsBacking(buf, oldBase, lo)
    requires SameRead(ov, oldBase, orig, oldBase, |ov.data|) && SameRead(ov, newBase, orig, oldBase, lo)
    ensures SameRead(Written(ov, lo, buf), newBase, orig, oldBase, lo + |buf|)
  {
  }

  lemma AlignDownIs(x: nat, align: nat, b: nat)
    requires align > 0 && b % align == 0 && b <= x < b + align
    ensures AlignDown(x, align) == b
  {
    DivModIs(x, align, b / align, x - b);
  }

  lemma AlignDownStays(x: nat, align: nat, b: nat)
    requires align > 0 && b % align == 0 && b <= x
    ensures b <= AlignDown(x, align) <= x
  {
    var d := x / align - b / align;
    assert d * align == AlignDown(x, align) - b;
    if d < 0 {
      MulAtLeast(-d, align);
    }
  }

  // Writing whole blocks keeps allocation constant on blocks.
  lemma WriteKeepsBlocks(ov: Overlay, lo: nat, buf: seq<byte>, align: nat)
    requires BlockAllocated(ov, align) && lo + |buf| <= |ov.data|
    requires lo % align == 0 && IsBoundary(lo + |buf|, align, |ov.data|)
    ensures BlockAllocated(Written(ov, lo, buf), align)
  {
    var w := Written(ov, lo, buf);
    assert |w.data| == |w.isAllocated| == |ov.data|;
    forall i: nat | i < |w.data|
      ensures w.isAllocated[i] == w.isAllocated[AlignDown(i, align)]
    {
      WrittenAt(ov, lo, buf, i);
      WrittenAt(ov, lo, buf, AlignDown(i, align));
      if lo <= i {
        AlignDownStays(i, align, lo);
      }
      if lo + |buf| <= i {
        AlignDownStays(i, align, lo + |buf|);
      }
    }
  }

  // ---------------------------------------------------------- what is left alone

  // Some byte of the block at b is not the same in the two backing files.
  ghost predicate BlockDiffers(oldBase: seq<byte>, newBase: seq<byte>, b: nat, align: nat) {
    exists k: nat :: b <= k < b + align && ByteAt(oldBase, k) != ByteAt(newBase, k)
  }

  ghost predicate AllDiffer(oldBase: seq<byte>, newBase: seq<byte>, lo: nat, hi: nat, align: nat)
    requires align > 0
  {
    forall i: nat :: lo <= i < hi ==> BlockDiffers(oldBase, newBase, AlignDown(i, align), align)
  }

  // Allocated bytes are as they were, and only blocks that differ have been copied up.
  ghost predicate CopiesOnlyDifferences(ov: Overlay, orig: Overlay, oldBase: seq<byte>, newBase: seq<byte>, align: nat)
    requires align > 0
  {
    && ValidOverlay(ov) && ValidOverlay(orig) && |ov.data| == |orig.data|
    && (forall i: nat :: i < |ov.data| && orig.isAllocated[i] ==> ov.isAllocated[i] && ov.data[i] == orig.data[i])
    && (forall i: nat :: i < |ov.data| && ov.isAllocated[i] && !orig.isAllocated[i] ==>
          BlockDiffers(oldBase, newBase, AlignDown(i, align), align))
  }

  lemma WriteCopiesDifferences(ov: Overlay, orig: Overlay, oldBase: seq<byte>, newBase: seq<byte>, align: nat, lo: nat, buf: seq<byte>)
    requires align > 0 && CopiesOnlyDifferences(ov, orig, oldBase, newBase, align)
    requires Unallocated(ov, lo, lo + |buf|) && AllDiffer(oldBase, newBase, lo, lo + |buf|, align)
    ensures CopiesOnlyDifferences(Written(ov, lo, buf), orig, oldBase, newBase, align)
  {
    forall i: nat | i < |ov.data|
      ensures var w := Written(ov, lo, buf); |w.data| == |w.isAllocated| == |ov.data|
      ensures var w := Written(ov, lo, buf);
        !(lo <= i < lo + |buf|) ==> w.isAllocated[i] == ov.isAllocated[i] && w.data[i] == ov.data[i]
    {
      WrittenAt(ov, lo, buf, i);
    }
  }

  // Chunks that differ are blocks that differ.
  lemma ChunksAreBlocks(oldBase: seq<byte>, newBase: seq<byte>, lo: nat, bufOld: seq<byte>, bufNew: seq<byte>, pnum: nat, align: nat)
    requires align > 0 && lo % align == 0 && |bufOld| == |bufNew| && pnum <= |bufOld|
    requires HoldsBacking(bufOld, oldBase, lo) && HoldsBacking(bufNew, newBase, lo)
    requires ChunksAlike(bufOld, bufNew, align, pnum, true)
    ensures AllDiffer(oldBase, newBase, lo, lo + pnum, align)
  {
    forall i: nat | lo <= i < lo + pnum
      ensures BlockDiffers(oldBase, newBase, AlignDown(i, align), align)
    {
      ChunkIsBlock(oldBase, newBase, lo, bufOld, bufNew, i, align);
    }
  }

  lemma ChunkIsBlock(oldBase: seq<byte>, newBase: seq<byte>, lo: nat, bufOld: seq<byte>, bufNew: seq<byte>, i: nat, align: nat)
    requires align > 0 && lo % align == 0 && |bufOld| == |bufNew| && lo <= i < lo + |bufOld|
    requires HoldsBacking(bufOld, oldBase, lo) && HoldsBacking(bufNew, newBase, lo)
    requires var j := AlignDown(i - lo, align); j % align == 0 ==> ChunkDiffers(bufOld, bufNew, align, j)
    ensures BlockDiffers(oldBase, newBase, AlignDown(i, align), align)
  {
    var j := AlignDown(i - lo, align);
    RoundedIsMultiple(i - lo, align);
    SumIsMultiple(lo, j, align);
    AlignDownIs(i, align, lo + j);
    var e := Min(j + align, |bufOld|);
    var k :| 0 <= k < e - j && bufOld[j..e][k] != bufNew[j..e][k];
    assert bufOld[j + k] == ByteAt(oldBase, lo + (j + k)) && bufNew[j + k] == ByteAt(newBase, lo + (j + k));
    assert ByteAt(oldBase, lo + j + k) != ByteAt(newBase, lo + j + k);
  }

  // --------------------------------------------------------------- the region

  // The aligned start, and the length, of the region to compare.
  function Region(offset: nat, n: nat, align: nat, size: nat): (nat, int)
    requires align > 0
  {
    var start := AlignDown(offset, align);
    var n1 := n + (offset - start);
    var n2 := n1 + (AlignUp(start + n1, align) - (start + n1));
    (start, Min(n2, Min(size - start, IO_BUF_SIZE)))
  }

  lemma AlignUpIs(x: nat, align: nat)
    requires align > 0
    ensures x <= AlignUp(x, align) < x + align && AlignUp(x, align) % align == 0
  {
    RoundedIsMultiple(x + align - 1, align);
  }

  lemma SumIsMultiple(x: nat, y: nat, align: nat)
    requires align > 0 && x % align == 0 && y % align == 0
    ensures (x + y) % align == 0
  {
    assert x == (x / align) * align && y == (y / align) * align;
    assert (x / align + y / align) * align == x + y;
    DivModIs(x + y, align, x / align + y / align, 0);
  }

  // The region is aligned, ends after offset, and is unallocated like [offset, offset + n).
  lemma RegionIsAligned(offset: nat, n: nat, align: nat, size: nat)
    requires align > 0 && IO_BUF_SIZE % align == 0 && 0 < n && offset + n <= size
    ensures var (start, len) := Region(offset, n, align, size);
      && start <= offset < start + len <= size && 0 < len <= IO_BUF_SIZE
      && start % align == 0 && IsBoundary(start + len, align, size)
  {
    var (start, len) := Region(offset, n, align, size);
    RoundedIsMultiple(offset, align);
    AlignUpIs(offset + n, align);
    SumIsMultiple(start, IO_BUF_SIZE, align);
    if IO_BUF_SIZE < align {
      DivModIs(IO_BUF_SIZE, align, 0, IO_BUF_SIZE);
    }
  }

  lemma RegionIsUnallocated(ov: Overlay, offset: nat, n: nat, align: nat)
    requires BlockAllocated(ov, align) && IO_BUF_SIZE % align == 0
    requires 0 < n && offset + n <= |ov.data| && Unallocated(ov, offset, offset + n)
    ensures var (start, len) := Region(offset, n, align, |ov.data|);
      0 <= len && Unallocated(ov, start, start + len)
  {
    var (start, len) := Region(offset, n, align, |ov.data|);
    RegionIsAligned(offset, n, align, |ov.data|);
    AlignUpIs(offset + n, align);
    var last := offset + n - 1;
    var up := AlignUp(offset + n, align);
    forall i | start <= i < start + len
      ensures !ov.isAllocated[i]
    {
      if i < offset {
        AlignDownIs(i, align, start);
        assert ov.isAllocated[offset] == ov.isAllocated[AlignDown(offset, align)];
      } else if i > last {
        AlignDownOfUp(last, align);
        AlignDownIs(i, align, AlignDown(last, align));
        assert ov.isAllocated[last] == ov.isAllocated[AlignDown(last, align)];
      }
    }
  }

  lemma AlignDownOfUp(last: nat, align: nat)
    requires align > 0
    ensures AlignUp(last + 1, align) == AlignDown(last, align) + align
    ensures AlignDown(last, align) % align == 0
  {
    RoundedIsMultiple(last, align);
    var d := AlignDown(last, align);
    assert last + 1 + align - 1 == last + align;
    DivModIs(last, align, last / align, last % align);
    assert (last / align + 1) * align == (last / align) * align + align;
    DivModIs(last + align, align, last / align + 1, last % align);
  }

  // ------------------------------------------------------------------- queries

  // Queries, reads and writes may fail at any time if there are faults.

  // bdrv_is_allocated: any run from offset on which the answer is the same.
  method IsAllocated(ov: Overlay, offset: nat, n: nat, faults: bool) returns (r: Option<bool>, count: nat)
    requires ValidOverlay(ov) && 0 < n && offset + n <= |ov.data|
    ensures 0 < count <= n && (r.None? ==> faults)
    ensures r == Some(false) ==> Unallocated(ov, offset, offset + count)
    ensures r == Some(true) ==> forall i :: offset <= i < offset + count ==> ov.isAllocated[i]
  {
    count :| 0 < count <= n && Uniform(ov.isAllocated, offset, count);
    var failed: bool := *;
    var first := ov.isAllocated[offset];
    assert Uniform(ov.isAllocated, offset, count);
    r := if failed && faults then None else Some(first);
  }

  predicate Uniform(s: seq<bool>, offset: nat, count: nat)
    requires offset + count <= |s|
  {
    forall i :: offset <= i < offset + count ==> s[i] == s[offset]
  }

  // What the old backing chain holds above the new backing file, if that is one
  // of its layers: elsewhere the two read the same.
  ghost predicate IsPrefix(oldBase: seq<byte>, newBase: seq<byte>, above: seq<bool>) {
    && |above| == |oldBase|
    && forall i :: 0 <= i < |oldBase| && !above[i] ==> oldBase[i] == ByteAt(newBase, i)
  }

  // bdrv_is_allocated_above: a count of zero means the end of the old backing file.
  method IsAllocatedAbove(above: seq<bool>, offset: nat, n: nat, faults: bool) returns (r: Option<bool>, count: nat)
    requires 0 < n
    ensures r.None? ==> faults
    ensures count <= n && (count == 0 ==> offset >= |above| && r != Some(true))
    ensures r == Some(false) && count > 0 ==>
      offset + count <= |above| && forall i :: offset <= i < offset + count ==> !above[i]
  {
    var failed: bool := *;
    if offset >= |above| {
      return if failed && faults then None else Some(false), 0;
    }
    count :| 0 < count <= n && offset + count <= |above| && Uniform(above, offset, count);
    var first := above[offset];
    assert Uniform(above, offset, count);
    r := if failed && faults then None else Some(first);
  }

  // Read a backing file into a buffer of n bytes; short files read as zeroes.
  method ReadBacking(base: seq<byte>, offset: nat, n: nat, faults: bool) returns (buf: Option<seq<byte>>)
    ensures buf.None? ==> faults
    ensures buf.Some? ==> |buf.value| == n && HoldsBacking(buf.value, base, offset)
  {
    var got := Min(n, if |base| > offset then |base| - offset else 0);
    var failed: bool := *;
    if got != 0 && failed && faults {
      return None;
    }
    var data := if got != 0 then base[offset..offset + got] else [];
    return Some(data + seq(n - got, _ => 0 as byte));
  }

  // ------------------------------------------------------------------ the loop

  class Cow {
    var overlay: Overlay
    ghost var history: seq<Overlay>        // the overlay after every change of it

    // What a crash could leave behind still reads as before.
    ghost predicate Unharmed(orig: Overlay, oldBase: seq<byte>)
      reads this
    {
      && SameRead(overlay, oldBase, orig, oldBase, |orig.data|)
      && overlay == (if history == [] then orig else history[|history| - 1])
      && forall ov :: ov in history ==> SameRead(ov, oldBase, orig, oldBase, |orig.data|)
    }

    // blk_pwrite; a failed write may have written a part.
    method Pwrite(lo: nat, buf: seq<byte>, faults: bool, ghost orig: Overlay, ghost oldBase: seq<byte>, ghost newBase: seq<byte>,
                  ghost align: nat)
      returns (ok: bool)
      requires Unharmed(orig, oldBase) && Unallocated(overlay, lo, lo + |buf|) && HoldsBacking(buf, oldBase, lo)
      requires align > 0 && CopiesOnlyDifferences(overlay, orig, oldBase, newBase, align)
      requires AllDiffer(oldBase, newBase, lo, lo + |buf|, align)
      modifies this
      ensures Unharmed(orig, oldBase) && (ok || faults)
      ensures CopiesOnlyDifferences(overlay, orig, oldBase, newBase, align)
      ensures ok ==> overlay == Written(old(overlay), lo, buf)
    {
      var failed: bool := *;
      ok := !(failed && faults);
      var count := |buf|;
      if !ok {
        count :| 0 <= count <= |buf|;
      }
      assert HoldsBacking(buf[..count], oldBase, lo);
      CopyUpKeepsRead(overlay, oldBase, lo, buf[..count]);
      WriteCopiesDifferences(overlay, orig, oldBase, newBase, align, lo, buf[..count]);
      assert ok ==> buf[..count] == buf;
      overlay := Written(overlay, lo, buf[..count]);
      history := history + [overlay];
    }

    // One comparison of what is left of the buffers, and the write if they differ.
    method CopyChunk(lo: nat, bufOld: seq<byte>, bufNew: seq<byte>, eof: bool, align: nat, faults: bool,
                     ghost orig: Overlay, ghost oldBase: seq<byte>, ghost newBase: seq<byte>)
      returns (ok: bool, pnum: nat)
      requires Unharmed(orig, oldBase) && |bufOld| == |bufNew| > 0 && (eof ==> lo >= |oldBase|)
      requires HoldsBacking(bufOld, oldBase, lo) && HoldsBacking(bufNew, newBase, lo)
      requires BlockAllocated(overlay, align) && Unallocated(overlay, lo, lo + |bufOld|)
      requires lo % align == 0 && IsBoundary(lo + |bufOld|, align, |orig.data|)
      requires SameRead(overlay, newBase, orig, oldBase, lo) && CopiesOnlyDifferences(overlay, orig, oldBase, newBase, align)
      modifies this
      ensures CopiesOnlyDifferences(overlay, orig, oldBase, newBase, align)
      ensures Unharmed(orig, oldBase) && 0 < pnum <= |bufOld| && (ok || faults)
      ensures pnum < |bufOld| ==> (lo + pnum) % align == 0
      ensures ok ==> BlockAllocated(overlay, align) && Unallocated(overlay, lo + pnum, lo + |bufOld|)
      ensures ok ==> SameRead(overlay, newBase, orig, oldBase, lo + pnum)
    {
      var differ;
      differ, pnum := CompareBuffers(bufOld, bufNew, align);
      if pnum < |bufOld| {
        SumIsMultiple(lo, pnum, align);
      }
      if differ {
        var buf := if eof then seq(pnum, _ => 0 as byte) else bufOld[..pnum];
        WriteKeepsBlocks(overlay, lo, buf, align);
        CopiedReadsAlike(overlay, oldBase, newBase, lo, buf, orig);
        RestStaysUnallocated(overlay, lo, buf, lo + |bufOld|);
        ChunksAreBlocks(oldBase, newBase, lo, bufOld, bufNew, pnum, align);
        ok := Pwrite(lo, buf, faults, orig, oldBase, newBase, align);
      } else {
        MatchReadsAlike(overlay, oldBase, newBase, lo, bufOld, bufNew, pnum, orig);
        ok := true;
      }
    }

    // Compare the two buffers and copy up the chunks that differ.
    method CopyDifferences(start: nat, bufOld: seq<byte>, bufNew: seq<byte>, oldSize: nat, align: nat, faults: bool,
                           ghost orig: Overlay, ghost oldBase: seq<byte>, ghost newBase: seq<byte>) returns (ok: bool)
      requires Unharmed(orig, oldBase) && oldSize == |oldBase| && |bufOld| == |bufNew| > 0
      requires HoldsBacking(bufOld, oldBase, start) && HoldsBacking(bufNew, newBase, start)
      requires BlockAllocated(overlay, align) && Unallocated(overlay, start, start + |bufOld|)
      requires start % align == 0 && IsBoundary(start + |bufOld|, align, |orig.data|)
      requires SameRead(overlay, newBase, orig, oldBase, start) && CopiesOnlyDifferences(overlay, orig, oldBase, newBase, align)
      modifies this
      ensures CopiesOnlyDifferences(overlay, orig, oldBase, newBase, align)
      ensures Unharmed(orig, oldBase) && (ok || faults)
      ensures ok ==> BlockAllocated(overlay, align) && SameRead(overlay, newBase, orig, oldBase, start + |bufOld|)
    {
      var n := |bufOld|;
      var eof := start >= oldSize;
      var written := 0;
      while written < n
        invariant written <= n && Unharmed(orig, oldBase) && BlockAllocated(overlay, align)
        invariant CopiesOnlyDifferences(overlay, orig, oldBase, newBase, align)
        invariant Unallocated(overlay, start + written, start + n)
        invariant written < n ==> (start + written) % align == 0
        invariant SameRead(overlay, newBase, orig, oldBase, start + written)
        invariant eof ==> start + written >= oldSize
      {
        HoldsRest(bufOld, oldBase, start, written);
        HoldsRest(bufNew, newBase, start, written);
        var pnum;
        ok, pnum := CopyChunk(start + written, bufOld[written..], bufNew[written..], eof, align, faults, orig, oldBase, newBase);
        if !ok {
          return;
        }
        written := written + pnum;
        eof := eof || start + written >= oldSize;
      }
      return true;
    }

    // The safe part of img_rebase.
    // It succeeds unless an operation it needs fails.
    method SafeRebase(oldBase: seq<byte>, newBase: seq<byte>, prefix: Option<seq<bool>>, align: nat, faults: bool)
      returns (ok: bool)
      requires align > 0 && IO_BUF_SIZE % align == 0 && BlockAllocated(overlay, align)
      requires prefix.Some? ==> IsPrefix(oldBase, newBase, prefix.value)
      modifies this
      ensures |overlay.data| == |overlay.isAllocated| == |old(overlay).data|
      ensures Unharmed(old(overlay), oldBase) && (ok || faults)
      ensures CopiesOnlyDifferences(overlay, old(overlay), oldBase, newBase, align)
      ensures ok ==> SameRead(overlay, newBase, old(overlay), oldBase, |overlay.data|)
    {
      ghost var orig := overlay;
      history := [];
      var size := |overlay.data|;
      var offset: nat := 0;
      while offset < size
        invariant offset <= size && size == |orig.data|
        invariant Unharmed(orig, oldBase) && BlockAllocated(overlay, align)
        invariant CopiesOnlyDifferences(overlay, orig, oldBase, newBase, align)
        invariant SameRead(overlay, newBase, orig, oldBase, offset)
        decreases size - offset
      {
        ok, offset := Step(offset, oldBase, newBase, prefix, align, faults, orig);
        if !ok {
          return;
        }
      }
      return true;
    }

    // One round of the loop: the new offset lies behind the old one.
    method Step(offset: nat, oldBase: seq<byte>, newBase: seq<byte>, prefix: Option<seq<bool>>, align: nat, faults: bool,
                ghost orig: Overlay)
      returns (ok: bool, next: nat)
      requires align > 0 && IO_BUF_SIZE % align == 0 && BlockAllocated(overlay, align)
      requires prefix.Some? ==> IsPrefix(oldBase, newBase, prefix.value)
      requires Unharmed(orig, oldBase) && offset < |overlay.data| && SameRead(overlay, newBase, orig, oldBase, offset)
      requires CopiesOnlyDifferences(overlay, orig, oldBase, newBase, align)
      modifies this
      ensures CopiesOnlyDifferences(overlay, orig, oldBase, newBase, align)
      ensures Unharmed(orig, oldBase) && (ok || faults)
      ensures ok ==> BlockAllocated(overlay, align) && offset < next <= |overlay.data|
      ensures ok ==> SameRead(overlay, newBase, orig, oldBase, next)
    {
      next := offset;
      var size := |overlay.data|;
      var n := Min(IO_BUF_SIZE, size - offset);
      var r;
      r, n := IsAllocated(overlay, offset, n, faults);
      if r.None? {
        return false, offset;
      }
      if r.value {
        AllocatedReadsAlike(overlay, oldBase, newBase, offset, n, orig);
        return true, offset + n;
      }
      if prefix.Some? {
        var bytes := n;
        r, n := IsAllocatedAbove(prefix.value, offset, n, faults);
        if r.None? {
          return false, offset;
        }
        if !r.value && n != 0 {
          PrefixReadsAlike(overlay, oldBase, newBase, prefix.value, offset, n, orig);
          return true, offset + n;
        }
        if n == 0 {
          n := bytes;
        }
      }
      RegionIsAligned(offset, n, align, size);
      RegionIsUnallocated(overlay, offset, n, align);
      var (start, len) := Region(offset, n, align, size);
      assert Unallocated(overlay, start, start + len);
      var bufOld := ReadBacking(oldBase, start, len, faults);
      if bufOld.None? {
        return false, offset;
      }
      var bufNew := ReadBacking(newBase, start, len, faults);
      if bufNew.None? {
        return false, offset;
      }
      ok := CopyDifferences(start, bufOld.value, bufNew.value, |oldBase|, align, faults, orig, oldBase, newBase);
      next := start + len;
    }
  }

  // ------------------------------------------------- why each branch reads alike

  lemma HoldsRest(buf: seq<byte>, base: seq<byte>, lo: nat, k: nat)
    requires HoldsBacking(buf, base, lo) && k <= |buf|
    ensures HoldsBacking(buf[k..], base, lo + k)
  {
  }

  lemma RestStaysUnallocated(ov: Overlay, lo: nat, buf: seq<byte>, hi: nat)
    requires Unallocated(ov, lo, hi) && lo + |buf| <= hi
    ensures Unallocated(Written(ov, lo, buf), lo + |buf|, hi)
  {
  }

  lemma MatchReadsAlike(ov: Overlay, oldBase: seq<byte>, newBase: seq<byte>, lo: nat, bufOld: seq<byte>, bufNew: seq<byte>,
                        pnum: nat, orig: Overlay)
    requires Unallocated(ov, lo, lo + |bufOld|) && |bufOld| == |bufNew| && pnum <= |bufOld|
    requires HoldsBacking(bufOld, oldBase, lo) && HoldsBacking(bufNew, newBase, lo)
    requires bufOld[..pnum] == bufNew[..pnum]
    requires SameRead(ov, oldBase, orig, oldBase, |ov.data|) && SameRead(ov, newBase, orig, oldBase, lo)
    ensures SameRead(ov, newBase, orig, oldBase, lo + pnum)
  {
    forall i: nat | lo <= i < lo + pnum
      ensures ReadAt(ov, newBase, i) == ReadAt(orig, oldBase, i)
    {
      assert bufOld[..pnum][i - lo] == bufNew[..pnum][i - lo];
      assert bufOld[i - lo] == ByteAt(oldBase, lo + (i - lo)) && bufNew[i - lo] == ByteAt(newBase, lo + (i - lo));
      assert ReadAt(ov, oldBase, i) == ReadAt(orig, oldBase, i);
    }
  }

  lemma AllocatedReadsAlike(ov: Overlay, oldBase: seq<byte>, newBase: seq<byte>, offset: nat, n: nat, orig: Overlay)
    requires ValidOverlay(ov) && offset + n <= |ov.data|
    requires forall i :: offset <= i < offset + n ==> ov.isAllocated[i]
    requires SameRead(ov, oldBase, orig, oldBase, |ov.data|) && SameRead(ov, newBase, orig, oldBase, offset)
    ensures SameRead(ov, newBase, orig, oldBase, offset + n)
  {
  }

  lemma PrefixReadsAlike(ov: Overlay, oldBase: seq<byte>, newBase: seq<byte>, above: seq<bool>, offset: nat, n: nat, orig: Overlay)
    requires IsPrefix(oldBase, newBase, above) && offset + n <= |above|
    requires forall i :: offset <= i < offset + n ==> !above[i]
    requires Unallocated(ov, offset, offset + n)
    requires SameRead(ov, oldBase, orig, oldBase, |ov.data|) && SameRead(ov, newBase, orig, oldBase, offset)
    ensures SameRead(ov, newBase, orig, oldBase, offset + n)
  {
  }
}
