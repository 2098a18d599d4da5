/**
 Comparing two images (xemu/qemu-img.c:1293-1329, 1496-1627).
 */
module Compare {

  import opened Wrappers
  import opened IntMath
  import opened Sequences
  import opened Buffers

  // The answer of a block status query: the flags hold for count bytes.
  datatype Status = Status(zero: bool, isAllocated: bool, otherFlags: nat, count: nat)

  datatype Image = Image(
    data: seq<byte>,
    status: seq<Option<Status>>,   // the answer for each offset, None if the query fails
    unreadable: set<nat>)          // bytes that make a read fail

  // What a block status query over the whole chain promises.
  ghost predicate Truthful(im: Image) {
    && |im.status| == |im.data|
    && forall o :: 0 <= o < |im.data| && im.status[o].Some? ==>
         var st := im.status[o].value;
         && 0 < st.count <= |im.data| - o
         && (st.zero || !st.isAllocated ==> IsZero(im.data[o..o + st.count]))
  }

  // Equal once the shorter image is extended with zeroes.
  ghost predicate SameContent(a: seq<byte>, b: seq<byte>) {
    forall i: nat :: ByteAt(a, i) == ByteAt(b, i)
  }

  predicate SameFlags(a: Status, b: Status) {
    a.zero == b.zero && a.isAllocated == b.isAllocated && a.otherFlags == b.otherFlags
  }

  // The bytes that one step of the loop over the common part covers.
  function ChunkAt(st1: Status, st2: Status): nat {
    var chunk := Min(st1.count, st2.count);
    if (st1.zero && st2.zero) || (!st1.isAllocated && !st2.isAllocated) then chunk else Min(chunk, IO_BUF_SIZE)
  }

  // Strict mode: the flags agree at the start of every chunk.
  ghost predicate FlagsAgree(a: Image, b: Image, offset: nat)
    requires Truthful(a) && Truthful(b)
    decreases |a.data| - offset
  {
    offset < |a.data| && offset < |b.data| ==>
      && a.status[offset].Some? && b.status[offset].Some?
      && a.status[offset].value.(count := 0) == b.status[offset].value.(count := 0)
      && FlagsAgree(a, b, offset + ChunkAt(a.status[offset].value, b.status[offset].value))
  }

  // A step covers what both answers cover, as far as the buffer reaches if there is
  // something to read.
  lemma ChunkIsMaximal(st1: Status, st2: Status)
    ensures var chunk := ChunkAt(st1, st2); var needed := NeedsRead(st1, st2) || NeedsRead(st2, st1);
      && chunk <= st1.count && chunk <= st2.count && (needed ==> chunk <= IO_BUF_SIZE)
      && (chunk == st1.count || chunk == st2.count || (needed && chunk == IO_BUF_SIZE))
  {
  }

  // ------------------------------------------------------------- where the loops look

  // The loop over the common part, at from, comes to offset o.
  ghost predicate Visits(a: Image, b: Image, from: nat, o: nat)
    requires Truthful(a) && Truthful(b)
    decreases |a.data| - from
  {
    || o == from
    || (&& from < |a.data| && from < |b.data| && a.status[from].Some? && b.status[from].Some?
        && Visits(a, b, from + ChunkAt(a.status[from].value, b.status[from].value), o))
  }

  lemma {:induction false} VisitsNext(a: Image, b: Image, from: nat, o: nat)
    requires Truthful(a) && Truthful(b) && Visits(a, b, from, o)
    requires o < |a.data| && o < |b.data| && a.status[o].Some? && b.status[o].Some?
    ensures Visits(a, b, from, o + ChunkAt(a.status[o].value, b.status[o].value))
    decreases |a.data| - from
  {
    if o == from {
      var next := o + ChunkAt(a.status[o].value, b.status[o].value);
      assert Visits(a, b, next, next);
    } else {
      VisitsNext(a, b, from + ChunkAt(a.status[from].value, b.status[from].value), o);
    }
  }

  // Data that is allocated is read, unless both images are known to be zero.
  predicate NeedsRead(st: Status, other: Status) {
    st.isAllocated && !(st.zero && other.zero)
  }

  predicate HasUnreadable(im: Image, lo: nat, hi: nat) {
    exists o :: o in im.unreadable && lo <= o < hi
  }

  // At offset o of the common part, a query fails,
  ghost predicate QueryFails(a: Image, b: Image, o: nat)
    requires Truthful(a) && Truthful(b)
  {
    o < |a.data| && o < |b.data| && (a.status[o].None? || b.status[o].None?)
  }

  // or a byte that must be read cannot be.
  ghost predicate NeededReadFails(a: Image, b: Image, o: nat)
    requires Truthful(a) && Truthful(b)
  {
    && o < |a.data| && o < |b.data| && a.status[o].Some? && b.status[o].Some?
    && var st1, st2 := a.status[o].value, b.status[o].value;
       var end := o + ChunkAt(st1, st2);
       || (NeedsRead(st1, st2) && HasUnreadable(a, o, end))
       || (NeedsRead(st2, st1) && HasUnreadable(b, o, end))
  }

  // The bytes that one step of the loop over the rest of the longer image covers.
  function RestChunk(st: Status): nat {
    if st.isAllocated && !st.zero then Min(st.count, IO_BUF_SIZE) else st.count
  }

  ghost predicate RestVisits(over: Image, from: nat, o: nat)
    requires Truthful(over)
    decreases |over.data| - from
  {
    o == from || (from < |over.data| && over.status[from].Some? && RestVisits(over, from + RestChunk(over.status[from].value), o))
  }

  lemma {:induction false} RestVisitsNext(over: Image, from: nat, o: nat)
    requires Truthful(over) && RestVisits(over, from, o) && o < |over.data| && over.status[o].Some?
    ensures RestVisits(over, from, o + RestChunk(over.status[o].value))
    decreases |over.data| - from
  {
    if o == from {
      var next := o + RestChunk(over.status[o].value);
      assert RestVisits(over, next, next);
    } else {
      RestVisitsNext(over, from + RestChunk(over.status[from].value), o);
    }
  }

  ghost predicate RestQueryFails(over: Image, o: nat)
    requires Truthful(over)
  {
    o < |over.data| && over.status[o].None?
  }

  ghost predicate RestReadFails(over: Image, o: nat)
    requires Truthful(over)
  {
    && o < |over.data| && over.status[o].Some? && over.status[o].value.isAllocated && !over.status[o].value.zero
    && HasUnreadable(over, o, o + RestChunk(over.status[o].value))
  }

  // The first thing that ends the loop over the common part, from offset on.
  ghost function CommonVerdict(a: Image, b: Image, strict: bool, offset: nat): Exit
    requires Truthful(a) && Truthful(b)
    decreases |a.data| - offset
  {
    if offset >= |a.data| || offset >= |b.data| then Identical
    else if a.status[offset].None? || b.status[offset].None? then StatusFailed
    else
      var st1, st2 := a.status[offset].value, b.status[offset].value;
      var next := offset + ChunkAt(st1, st2);
      if strict && st1.(count := 0) != st2.(count := 0) then Different
      else if NeededReadFails(a, b, offset) then ReadFailed
      else if a.data[offset..next] != b.data[offset..next] then Different
      else CommonVerdict(a, b, strict, next)
  }

  // The same for the rest of the longer image.
  ghost function RestVerdict(over: Image, offset: nat): Exit
    requires Truthful(over)
    decreases |over.data| - offset
  {
    if offset >= |over.data| then Identical
    else if over.status[offset].None? then StatusFailed
    else
      var next := offset + RestChunk(over.status[offset].value);
      if RestReadFails(over, offset) then ReadFailed
      else if !IsZero(over.data[offset..next]) then Different
      else RestVerdict(over, next)
  }

  // The first reason to stop decides.
  ghost function Verdict(a: Image, b: Image, strict: bool): Exit
    requires Truthful(a) && Truthful(b)
  {
    if strict && |a.data| != |b.data| then Different
    else if CommonVerdict(a, b, strict, 0) != Identical then CommonVerdict(a, b, strict, 0)
    else if |a.data| > |b.data| then RestVerdict(a, |b.data|)
    else RestVerdict(b, |a.data|)
  }

  // Where a failure of the whole comparison comes from.
  ghost predicate FailsAt(a: Image, b: Image, exit: Exit)
    requires Truthful(a) && Truthful(b)
  {
    match exit
    case StatusFailed =>
      || (exists o: nat :: Visits(a, b, 0, o) && QueryFails(a, b, o))
      || (exists o: nat :: RestVisits(a, |b.data|, o) && RestQueryFails(a, o))
      || (exists o: nat :: RestVisits(b, |a.data|, o) && RestQueryFails(b, o))
    case ReadFailed =>
      || (exists o: nat :: Visits(a, b, 0, o) && NeededReadFails(a, b, o))
      || (exists o: nat :: RestVisits(a, |b.data|, o) && RestReadFails(a, o))
      || (exists o: nat :: RestVisits(b, |a.data|, o) && RestReadFails(b, o))
    case _ => true
  }

  // ------------------------------------------------------------------------- meaning

  // The exit statuses 0, 1, 3 and 4.
  datatype Exit = Identical | Different | StatusFailed | ReadFailed

  // What each exit status means.
  ghost predicate Explained(a: Image, b: Image, strict: bool, exit: Exit)
    requires Truthful(a) && Truthful(b)
  {
    match exit
    case Identical => SameContent(a.data, b.data) && (strict ==> |a.data| == |b.data| && FlagsAgree(a, b, 0))
    case Different => !SameContent(a.data, b.data) || (strict && (|a.data| != |b.data| || !FlagsAgree(a, b, 0)))
    case _ => FailsAt(a, b, exit)
  }

  // blk_pread.
  method Pread(im: Image, offset: nat, bytes: nat) returns (buf: Option<seq<byte>>)
    requires offset + bytes <= |im.data|
    ensures buf.Some? ==> buf.value == im.data[offset..offset + bytes]
    ensures buf.None? <==> HasUnreadable(im, offset, offset + bytes)
  {
    if HasUnreadable(im, offset, offset + bytes) {
      return None;
    }
    return Some(im.data[offset..offset + bytes]);
  }

  // check_empty_sectors.
  method CheckEmptySectors(im: Image, offset: nat, bytes: nat) returns (exit: Exit)
    requires offset + bytes <= |im.data| && bytes <= IO_BUF_SIZE
    ensures exit == Identical ==> IsZero(im.data[offset..offset + bytes])
    ensures exit == Different ==> !IsZero(im.data[offset..offset + bytes])
    ensures exit == ReadFailed <==> HasUnreadable(im, offset, offset + bytes)
    ensures exit != StatusFailed
  {
    var buf := Pread(im, offset, bytes);
    if buf.None? {
      return ReadFailed;
    }
    var idx := FindNonzero(buf.value);
    return if idx >= 0 then Different else Identical;
  }

  // The content part of one step: compare the bytes at offset as far as the
  // two answers reach, in pieces of the buffer's size where data must be read.
  method CompareContent(a: Image, b: Image, offset: nat, st1: Status, st2: Status) returns (exit: Exit, chunk: nat)
    requires Truthful(a) && Truthful(b) && offset < |a.data| && offset < |b.data|
    requires a.status[offset] == Some(st1) && b.status[offset] == Some(st2)
    ensures chunk == ChunkAt(st1, st2) > 0 && offset + chunk <= |a.data| && offset + chunk <= |b.data|
    ensures exit == Identical ==> a.data[offset..offset + chunk] == b.data[offset..offset + chunk]
    ensures exit == Different ==> a.data[offset..offset + chunk] != b.data[offset..offset + chunk]
    ensures exit == ReadFailed <==> NeededReadFails(a, b, offset)
    ensures exit != StatusFailed
  {
    exit, chunk := Identical, ChunkAt(st1, st2);
    ZeroPart(a, offset, chunk);
    ZeroPart(b, offset, chunk);
    if st1.zero && st2.zero {
      // nothing to do
    } else if st1.isAllocated == st2.isAllocated {
      if st1.isAllocated {
        exit := CompareRead(a, b, offset, chunk);
      }
    } else if st1.isAllocated {
      exit := CheckEmptySectors(a, offset, chunk);
    } else {
      exit := CheckEmptySectors(b, offset, chunk);
    }
  }

  lemma ZeroPart(im: Image, offset: nat, n: nat)
    requires Truthful(im) && offset < |im.data| && im.status[offset].Some? && n <= im.status[offset].value.count
    ensures im.status[offset].value.zero || !im.status[offset].value.isAllocated ==> IsZero(im.data[offset..offset + n])
  {
    SliceOfSlice(im.data, offset, im.status[offset].value.count, 0, n);
  }

  method CompareRead(a: Image, b: Image, offset: nat, chunk: nat) returns (exit: Exit)
    requires 0 < chunk <= IO_BUF_SIZE && offset + chunk <= |a.data| && offset + chunk <= |b.data|
    ensures exit == Identical ==> a.data[offset..offset + chunk] == b.data[offset..offset + chunk]
    ensures exit == Different ==> a.data[offset..offset + chunk] != b.data[offset..offset + chunk]
    ensures exit == ReadFailed <==> HasUnreadable(a, offset, offset + chunk) || HasUnreadable(b, offset, offset + chunk)
    ensures exit != StatusFailed
  {
    var buf1 := Pread(a, offset, chunk);
    if buf1.None? {
      return ReadFailed;
    }
    var buf2 := Pread(b, offset, chunk);
    if buf2.None? {
      return ReadFailed;
    }
    var differ, pnum := CompareBuffers(buf1.value, buf2.value, 0);
    if differ || pnum != chunk {
      ChunkNotEqual(buf1.value, buf2.value, differ, pnum);
      return Different;
    }
    return Identical;
  }

  lemma ChunkNotEqual(a: seq<byte>, b: seq<byte>, differ: bool, pnum: nat)
    requires |a| == |b| && 0 < pnum <= |a|
    requires differ ==> a[..pnum] != b[..pnum]
    requires !differ ==> pnum < |a| && ChunkDiffers(a, b, SECTOR_SIZE, pnum)
    ensures a != b
  {
  }

  // The loop over the part that both images have.
  method CompareCommon(a: Image, b: Image, strict: bool) returns (exit: Exit)
    requires Truthful(a) && Truthful(b)
    ensures exit == CommonVerdict(a, b, strict, 0)
  {
    var totalSize := Min(|a.data|, |b.data|);
    var offset: nat := 0;
    while offset < totalSize
      invariant offset <= totalSize && CommonVerdict(a, b, strict, 0) == CommonVerdict(a, b, strict, offset)
    {
      if a.status[offset].None? || b.status[offset].None? {
        return StatusFailed;
      }
      var st1, st2 := a.status[offset].value, b.status[offset].value;
      if strict && !SameFlags(st1, st2) {
        return Different;
      }
      var chunk;
      exit, chunk := CompareContent(a, b, offset, st1, st2);
      if exit != Identical {
        return;
      }
      offset := offset + chunk;
    }
    return Identical;
  }

  // What the verdict on the common part means; the loop has come to offset.
  lemma {:induction false} CommonMeaning(a: Image, b: Image, strict: bool, offset: nat)
    requires Truthful(a) && Truthful(b) && offset <= Min(|a.data|, |b.data|)
    requires SameUpTo(a.data, b.data, offset) && Visits(a, b, 0, offset)
    ensures var exit := CommonVerdict(a, b, strict, offset);
      && (exit == Identical ==> SameUpTo(a.data, b.data, Min(|a.data|, |b.data|)) && (strict ==> FlagsAgree(a, b, offset)))
      && (exit == Different ==> !SameContent(a.data, b.data) || (strict && !FlagsAgree(a, b, offset)))
      && (exit == StatusFailed ==> exists o: nat :: Visits(a, b, 0, o) && QueryFails(a, b, o))
      && (exit == ReadFailed ==> exists o: nat :: Visits(a, b, 0, o) && NeededReadFails(a, b, o))
    decreases |a.data| - offset
  {
    if offset < |a.data| && offset < |b.data| {
      if a.status[offset].None? || b.status[offset].None? {
        assert QueryFails(a, b, offset);
      } else {
        var next := offset + ChunkAt(a.status[offset].value, b.status[offset].value);
        if a.data[offset..next] != b.data[offset..next] {
          PartDiffers(a.data, b.data, offset, next);
        } else {
          PartSame(a.data, b.data, offset, next);
          VisitsNext(a, b, 0, offset);
          CommonMeaning(a, b, strict, next);
        }
      }
    }
  }

  ghost predicate SameUpTo(a: seq<byte>, b: seq<byte>, n: nat) {
    forall i: nat :: i < n ==> ByteAt(a, i) == ByteAt(b, i)
  }

  lemma PartSame(a: seq<byte>, b: seq<byte>, lo: nat, hi: nat)
    requires lo <= hi <= |a| && hi <= |b| && a[lo..hi] == b[lo..hi] && SameUpTo(a, b, lo)
    ensures SameUpTo(a, b, hi)
  {
  }

  lemma PartDiffers(a: seq<byte>, b: seq<byte>, lo: nat, hi: nat)
    requires lo <= hi <= |a| && hi <= |b| && a[lo..hi] != b[lo..hi]
    ensures !SameContent(a, b)
  {
    var i :| 0 <= i < hi - lo && a[lo..hi][i] != b[lo..hi][i];
    assert ByteAt(a, lo + i) != ByteAt(b, lo + i);
  }

  // The loop over the part that only the longer image has.
  method CheckRest(over: Image, start: nat) returns (exit: Exit)
    requires Truthful(over) && start <= |over.data|
    ensures exit == RestVerdict(over, start)
  {
    var offset := start;
    while offset < |over.data|
      invariant start <= offset <= |over.data| && RestVerdict(over, start) == RestVerdict(over, offset)
    {
      if over.status[offset].None? {
        return StatusFailed;
      }
      var st := over.status[offset].value;
      var chunk := st.count;
      if st.isAllocated && !st.zero {
        chunk := Min(chunk, IO_BUF_SIZE);
        exit := CheckEmptySectors(over, offset, chunk);
        if exit != Identical {
          return;
        }
      }
      ZeroPart(over, offset, chunk);
      offset := offset + chunk;
    }
    return Identical;
  }

  // What the verdict on the rest means; the loop has come to offset.
  lemma {:induction false} RestMeaning(over: Image, start: nat, offset: nat)
    requires Truthful(over) && start <= offset <= |over.data| && IsZero(over.data[start..offset]) && RestVisits(over, start, offset)
    ensures var exit := RestVerdict(over, offset);
      && (exit == Identical ==> IsZero(over.data[start..]))
      && (exit == Different ==> !IsZero(over.data[start..]))
      && (exit == StatusFailed ==> exists o: nat :: RestVisits(over, start, o) && RestQueryFails(over, o))
      && (exit == ReadFailed ==> exists o: nat :: RestVisits(over, start, o) && RestReadFails(over, o))
    decreases |over.data| - offset
  {
    if offset == |over.data| {
      assert over.data[start..offset] == over.data[start..];
    } else if over.status[offset].None? {
      assert RestQueryFails(over, offset);
    } else {
      var chunk := RestChunk(over.status[offset].value);
      if !IsZero(over.data[offset..offset + chunk]) {
        RestNotZero(over.data, start, offset, chunk);
      } else {
        SliceSplits(over.data, start, offset, offset + chunk);
        RestVisitsNext(over, start, offset);
        RestMeaning(over, start, offset + chunk);
      }
    }
  }

  lemma RestNotZero(data: seq<byte>, start: nat, offset: nat, chunk: nat)
    requires start <= offset && offset + chunk <= |data| && !IsZero(data[offset..offset + chunk])
    ensures !IsZero(data[start..])
  {
    var j :| 0 <= j < chunk && data[offset..offset + chunk][j] != 0;
    assert data[start..][offset - start + j] == data[offset + j];
  }

  lemma RestDecides(a: seq<byte>, b: seq<byte>)
    requires |a| <= |b| && SameUpTo(a, b, |a|)
    ensures SameContent(a, b) <==> IsZero(b[|a|..])
    ensures SameContent(b, a) <==> IsZero(b[|a|..])
  {
    if IsZero(b[|a|..]) {
      forall i: nat
        ensures ByteAt(a, i) == ByteAt(b, i)
      {
        if |a| <= i < |b| {
          assert b[|a|..][i - |a|] == b[i];
        }
      }
    } else {
      var j :| 0 <= j < |b| - |a| && b[|a|..][j] != 0;
      assert ByteAt(a, |a| + j) != ByteAt(b, |a| + j);
    }
  }

  // img_compare.
  method CompareImages(a: Image, b: Image, strict: bool) returns (exit: Exit)
    requires Truthful(a) && Truthful(b)
    ensures Explained(a, b, strict, exit) && exit == Verdict(a, b, strict)
  {
    if strict && |a.data| != |b.data| {
      return Different;
    }
    exit := CompareCommon(a, b, strict);
    CommonMeaning(a, b, strict, 0);
    if exit != Identical {
      return;
    }
    if |a.data| > |b.data| {
      RestDecides(b.data, a.data);
      RestMeaning(a, |b.data|, |b.data|);
      exit := CheckRest(a, |b.data|);
    } else {
      RestDecides(a.data, b.data);
      if |a.data| != |b.data| {
        RestMeaning(b, |a.data|, |a.data|);
        exit := CheckRest(b, |a.data|);
      }
    }
  }
}
