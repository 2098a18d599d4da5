/**
 Splitting a buffer into parts to write and parts to leave out as zeroes
 (xemu/qemu-img.c:1149-1254).  A sector is one value; the zero sector is ZERO.
 */
module SparseScan {

  import opened IntMath

  type Sector = nat

  const ZERO: Sector := 0

  predicate AllZero(buf: seq<Sector>) {
    forall j :: 0 <= j < |buf| ==> buf[j] == ZERO
  }

  // The number of leading sectors that are zero, or not, like the first one.
  function RunLength(buf: seq<Sector>): (k: nat)
    ensures k <= |buf|
    ensures buf != [] ==> k > 0
  {
    if |buf| <= 1 then |buf|
    else if (buf[0] == ZERO) != (buf[1] == ZERO) then 1
    else 1 + RunLength(buf[1..])
  }

  lemma {:induction false} RunLengthMeaning(buf: seq<Sector>)
    ensures var k := RunLength(buf);
      && (forall j :: 0 <= j < k ==> (buf[j] == ZERO <==> buf[0] == ZERO))
      && (k < |buf| ==> (buf[k] == ZERO <==> buf[0] != ZERO))
  {
    if |buf| > 1 {
      RunLengthMeaning(buf[1..]);
      forall j | 0 < j < RunLength(buf)
        ensures buf[j] == ZERO <==> buf[0] == ZERO
      {
        assert buf[j] == buf[1..][j - 1];
      }
    }
  }

  lemma RunLengthIs(buf: seq<Sector>, k: nat)
    requires 0 < k <= |buf|
    requires forall j :: 0 <= j < k ==> (buf[j] == ZERO <==> buf[0] == ZERO)
    requires k < |buf| ==> (buf[k] == ZERO <==> buf[0] != ZERO)
    ensures RunLength(buf) == k
  {
    RunLengthMeaning(buf);
  }

  // Whether to write the buffer's first sectors, and how many of them.
  function Allocated(buf: seq<Sector>, sectorNum: nat, alignment: nat): (r: (bool, nat))
    requires alignment > 0
    ensures buf != [] ==> 0 < r.1 <= |buf|
  {
    if buf == [] then (false, 0) else AllocatedFor(buf, Mod(sectorNum + RunLength(buf), alignment), alignment)
  }

  // The same, where the first run ends tail sectors into an aligned block.
  function AllocatedFor(buf: seq<Sector>, tail: nat, alignment: nat): (r: (bool, nat))
    requires tail < alignment && buf != []
    ensures 0 < r.1 <= |buf|
  {
    var run := RunLength(buf);
    if run == |buf| || tail == 0 then (buf[0] != ZERO, run)
    else if buf[0] == ZERO && run > tail then (false, run - tail)
    else (true, Min(run + alignment - tail, |buf|))
  }

  method IsAllocatedSectors(buf: seq<Sector>, n: int, sectorNum: nat, alignment: nat)
    returns (isUsed: bool, pnum: nat)
    requires n <= |buf| && alignment > 0
    ensures (isUsed, pnum) == Allocated(if n > 0 then buf[..n] else [], sectorNum, alignment)
  {
    if n <= 0 {
      return false, 0;
    }
    var isZero := buf[0] == ZERO;
    var i := 1;
    while i < n
      invariant 1 <= i <= n
      invariant forall j :: 0 <= j < i ==> (buf[j] == ZERO) == isZero
    {
      if isZero != (buf[i] == ZERO) {
        break;
      }
      i := i + 1;
    }
    RunLengthIs(buf[..n], i);
    ModIs(sectorNum + i, alignment);
    if i == n {
      return !isZero, i;
    }
    var tail := (sectorNum + i) % alignment;
    if tail != 0 {
      if isZero && i <= tail {
        isZero := false;
      }
      if !isZero {
        i := i + alignment - tail;
        i := Min(i, n);
      } else {
        i := i - tail;
      }
    }
    return !isZero, i;
  }

  // Sectors that are left out are zero, parts to write hold a non-zero sector,
  // and the part ends where the buffer or an aligned block of the target ends.
  lemma AllocatedMeaning(buf: seq<Sector>, sectorNum: nat, alignment: nat)
    requires alignment > 0 && buf != []
    ensures var (isUsed, pnum) := Allocated(buf, sectorNum, alignment);
      && 0 < pnum <= |buf|
      && (isUsed <==> !AllZero(buf[..pnum]))
      && (pnum < |buf| ==> (sectorNum + pnum) % alignment == 0)
  {
    var run := RunLength(buf);
    var tail := (sectorNum + run) % alignment;
    RoundedIsMultiple(sectorNum + run, alignment);
    ModIs(sectorNum + run, alignment);
    RunLengthMeaning(buf);
    var (isUsed, pnum) := Allocated(buf, sectorNum, alignment);
    if run == |buf| || tail == 0 {
      assert buf[..pnum][0] == buf[0];
    } else if buf[0] == ZERO && run > tail {
      assert (sectorNum + pnum) % alignment == 0;
    } else if buf[0] == ZERO {
      assert buf[..pnum][run] == buf[run];
    } else {
      assert buf[..pnum][0] == buf[0];
    }
  }

  // The first sector alone does not decide: a zero run that ends in the middle of
  // the aligned block it starts in is written together with what follows it.
  lemma AllocatedIffFirstSectorUsed(buf: seq<Sector>, sectorNum: nat, alignment: nat)
    requires alignment > 0 && buf != []
    ensures var run := RunLength(buf);
      var tail := (sectorNum + run) % alignment;
      (Allocated(buf, sectorNum, alignment).0 <==> buf[0] != ZERO) <==>
      !(buf[0] == ZERO && run < |buf| && run <= tail)
  {
    ModIs(sectorNum + RunLength(buf), alignment);
    FirstSectorDecidesFor(buf, Mod(sectorNum + RunLength(buf), alignment), alignment);
  }

  lemma FirstSectorDecidesFor(buf: seq<Sector>, tail: nat, alignment: nat)
    requires tail < alignment && buf != []
    ensures (AllocatedFor(buf, tail, alignment).0 <==> buf[0] != ZERO) <==>
      !(buf[0] == ZERO && RunLength(buf) < |buf| && RunLength(buf) <= tail)
  {
  }

  lemma ZeroFirstSectorReportedAllocated()
    ensures Allocated([ZERO, 1], 2, 4) == (true, 2)
  {
  }

  // The answers for the sectors from each position of the buffer on.
  ghost function PartAt(buf: seq<Sector>, sectorNum: nat, alignment: nat): (part: nat -> (bool, nat))
    requires alignment > 0
    ensures Covers(part, |buf|)
  {
    (c: nat) => if c < |buf| then Allocated(buf[c..], sectorNum + c, alignment) else (false, 0)
  }

  ghost predicate Covers(part: nat -> (bool, nat), n: nat) {
    forall c :: 0 <= c < n ==> 0 < part(c).1 <= n - c
  }

  // How much of n sectors is used, when the first checked sectors have been looked
  // at and the first used of them are to be written.
  ghost function UsedPrefix(part: nat -> (bool, nat), n: nat, checked: nat, used: nat, min: nat): nat
    requires Covers(part, n) && used <= checked <= n
    decreases n - checked
  {
    if checked == n then used else
    var (isUsed, pnum) := part(checked);
    if isUsed then UsedPrefix(part, n, checked + pnum, checked + pnum, min)
    else if pnum >= min then used
    else UsedPrefix(part, n, checked + pnum, used, min)
  }

  ghost function AllocatedMin(buf: seq<Sector>, min: nat, sectorNum: nat, alignment: nat): (r: (bool, nat))
    requires alignment > 0
    ensures buf != [] ==> 0 < r.1 <= |buf| && (r.0 <==> !AllZero(buf[..r.1]))
  {
    if buf == [] then (false, 0)
    else
      AllocatedMeaning(buf, sectorNum, alignment);
      var (isUsed, pnum) := Allocated(buf, sectorNum, alignment);
      if !isUsed then (isUsed, pnum)
      else
        PrefixMeaning(buf, pnum, Min(min, |buf|), sectorNum, alignment);
        var p := UsedPrefix(PartAt(buf, sectorNum, alignment), |buf|, pnum, pnum, Min(min, |buf|));
        LongerNotZero(buf, pnum, p);
        (true, p)
  }

  lemma LongerNotZero(buf: seq<Sector>, m: nat, n: nat)
    requires m <= n <= |buf| && !AllZero(buf[..m])
    ensures !AllZero(buf[..n])
  {
    var j :| 0 <= j < m && buf[..m][j] != ZERO;
    assert buf[..n][j] != ZERO;
  }

  // The loop of is_allocated_sectors_min, entered after the first used sectors.
  method FindUsedPrefix(buf: seq<Sector>, used: nat, min: nat, sectorNum: nat, alignment: nat)
    returns (pnum: nat)
    requires alignment > 0 && 0 < used <= |buf|
    ensures pnum == UsedPrefix(PartAt(buf, sectorNum, alignment), |buf|, used, used, min)
  {
    var numUsed := used;
    var numChecked := used;
    ghost var part := PartAt(buf, sectorNum, alignment);
    while numChecked < |buf|
      invariant 0 < numUsed <= numChecked <= |buf|
      invariant UsedPrefix(part, |buf|, numChecked, numUsed, min) == UsedPrefix(part, |buf|, used, used, min)
      decreases |buf| - numChecked
    {
      var isUsed, n := NextPart(buf, numChecked, sectorNum, alignment);
      if !isUsed && n >= min {
        break;
      }
      numChecked := numChecked + n;
      if isUsed {
        numUsed := numChecked;
      }
    }
    return numUsed;
  }

  method NextPart(buf: seq<Sector>, checked: nat, sectorNum: nat, alignment: nat) returns (isUsed: bool, n: nat)
    requires alignment > 0 && checked < |buf|
    ensures (isUsed, n) == PartAt(buf, sectorNum, alignment)(checked)
  {
    var rest := buf[checked..];
    assert rest[..|rest|] == rest;
    isUsed, n := IsAllocatedSectors(rest, |rest|, sectorNum + checked, alignment);
  }

  method IsAllocatedSectorsMin(buf: seq<Sector>, n: int, min: nat, sectorNum: nat, alignment: nat)
    returns (isUsed: bool, pnum: nat)
    requires n <= |buf| && alignment > 0
    ensures (isUsed, pnum) == AllocatedMin(if n > 0 then buf[..n] else [], min, sectorNum, alignment)
  {
    isUsed, pnum := IsAllocatedSectors(buf, n, sectorNum, alignment);
    if isUsed {
      AllocatedMeaning(buf[..n], sectorNum, alignment);
      pnum := FindUsedPrefix(buf[..n], pnum, Min(min, n), sectorNum, alignment);
    }
  }

  // The sectors from p on are zero, up to the end or for at least min sectors.
  ghost predicate ZeroesFollow(buf: seq<Sector>, p: nat, min: nat) {
    exists e :: p <= e <= |buf| && (e == |buf| || e >= p + min) && AllZero(buf[p..e])
  }

  lemma {:induction false} UsedPrefixMeaning(buf: seq<Sector>, part: nat -> (bool, nat), checked: nat, used: nat, min: nat)
    requires Covers(part, |buf|) && used <= checked <= |buf| && AllZero(buf[used..checked])
    requires forall c :: 0 <= c < |buf| && !part(c).0 ==> AllZero(buf[c..c + part(c).1])
    ensures var p := UsedPrefix(part, |buf|, checked, used, min); used <= p <= |buf| && ZeroesFollow(buf, p, min)
    decreases |buf| - checked
  {
    if checked < |buf| {
      var (isUsed, pnum) := part(checked);
      var next := checked + pnum;
      if isUsed {
        UsedPrefixMeaning(buf, part, next, next, min);
      } else {
        assert buf[used..next] == buf[used..checked] + buf[checked..next];
        if pnum < min {
          UsedPrefixMeaning(buf, part, next, used, min);
        }
      }
    }
  }

  // Whatever holds at the end of every used part, and of the first one, holds at the end.
  lemma {:induction false} UsedPrefixEnds(part: nat -> (bool, nat), n: nat, checked: nat, used: nat, min: nat, mayEnd: nat -> bool)
    requires Covers(part, n) && used <= checked <= n && mayEnd(used)
    requires forall c :: 0 <= c < n && part(c).0 ==> mayEnd(c + part(c).1)
    ensures mayEnd(UsedPrefix(part, n, checked, used, min))
    decreases n - checked
  {
    if checked < n {
      var (isUsed, pnum) := part(checked);
      if isUsed {
        UsedPrefixEnds(part, n, checked + pnum, checked + pnum, min, mayEnd);
      } else if pnum < min {
        UsedPrefixEnds(part, n, checked + pnum, used, min, mayEnd);
      }
    }
  }

  // The search for the end of the used part, begun at from, looks at position c.
  ghost predicate LooksAt(part: nat -> (bool, nat), n: nat, from: nat, c: nat)
    requires Covers(part, n)
    decreases n - from
  {
    from < n && (c == from || LooksAt(part, n, from + part(from).1, c))
  }

  lemma {:induction false} LooksAhead(part: nat -> (bool, nat), n: nat, from: nat, c: nat)
    requires Covers(part, n) && LooksAt(part, n, from, c)
    ensures from <= c < n
    decreases n - from
  {
    if c != from {
      LooksAhead(part, n, from + part(from).1, c);
    }
  }

  // It stops at the first zero part of at least min sectors: none begins before the end.
  lemma {:induction false} StopsAtFirstGap(part: nat -> (bool, nat), n: nat, checked: nat, used: nat, min: nat, c: nat)
    requires Covers(part, n) && used <= checked <= n && LooksAt(part, n, checked, c)
    requires c < UsedPrefix(part, n, checked, used, min)
    ensures part(c).0 || part(c).1 < min
    decreases n - checked
  {
    LooksAhead(part, n, checked, c);
    if c != checked {
      var (isUsed, pnum) := part(checked);
      if isUsed {
        StopsAtFirstGap(part, n, checked + pnum, checked + pnum, min, c);
      } else if pnum < min {
        StopsAtFirstGap(part, n, checked + pnum, used, min, c);
      }
    }
  }

  lemma PartMeaning(buf: seq<Sector>, sectorNum: nat, alignment: nat, c: nat)
    requires alignment > 0 && c < |buf|
    ensures var (isUsed, pnum) := PartAt(buf, sectorNum, alignment)(c);
      && 0 < pnum <= |buf| - c
      && (!isUsed ==> AllZero(buf[c..c + pnum]))
      && (c + pnum < |buf| ==> (sectorNum + (c + pnum)) % alignment == 0)
  {
    AllocatedMeaning(buf[c..], sectorNum + c, alignment);
    var (isUsed, pnum) := Allocated(buf[c..], sectorNum + c, alignment);
    assert buf[c..][..pnum] == buf[c..c + pnum];
    assert sectorNum + c + pnum == sectorNum + (c + pnum);
  }

  lemma PrefixMeaning(buf: seq<Sector>, used: nat, min: nat, sectorNum: nat, alignment: nat)
    requires alignment > 0 && used <= |buf|
    ensures var p := UsedPrefix(PartAt(buf, sectorNum, alignment), |buf|, used, used, min);
      used <= p <= |buf| && ZeroesFollow(buf, p, min)
  {
    var part := PartAt(buf, sectorNum, alignment);
    forall c | 0 <= c < |buf| && !part(c).0
      ensures AllZero(buf[c..c + part(c).1])
    {
      PartMeaning(buf, sectorNum, alignment, c);
    }
    UsedPrefixMeaning(buf, part, used, used, min);
  }

  lemma PrefixEnds(buf: seq<Sector>, used: nat, min: nat, sectorNum: nat, alignment: nat)
    requires alignment > 0 && used <= |buf| && (used < |buf| ==> (sectorNum + used) % alignment == 0)
    ensures var p := UsedPrefix(PartAt(buf, sectorNum, alignment), |buf|, used, used, min);
      p < |buf| ==> (sectorNum + p) % alignment == 0
  {
    var part := PartAt(buf, sectorNum, alignment);
    var mayEnd := (p: nat) => p < |buf| ==> (sectorNum + p) % alignment == 0;
    forall c | 0 <= c < |buf| && part(c).0
      ensures mayEnd(c + part(c).1)
    {
      PartMeaning(buf, sectorNum, alignment, c);
    }
    UsedPrefixEnds(part, |buf|, used, used, min, mayEnd);
    assert mayEnd(UsedPrefix(part, |buf|, used, used, min));
  }

  // Every zero part of at least min sectors that the search meets begins at the end
  // of the part to write, or behind it.
  ghost predicate NoGapBefore(buf: seq<Sector>, first: nat, pnum: nat, min: nat, sectorNum: nat, alignment: nat)
    requires alignment > 0
  {
    var part := PartAt(buf, sectorNum, alignment);
    forall c: nat :: LooksAt(part, |buf|, first, c) && c < pnum ==> part(c).0 || part(c).1 < min
  }

  // Like AllocatedMeaning; moreover a part to write ends only at a run of at
  // least min zero sectors, or at zeroes that reach to the end, and contains none.
  lemma AllocatedMinMeaning(buf: seq<Sector>, min: nat, sectorNum: nat, alignment: nat)
    requires alignment > 0 && buf != []
    ensures var (isUsed, pnum) := AllocatedMin(buf, min, sectorNum, alignment);
      && 0 < pnum <= |buf|
      && (isUsed <==> !AllZero(buf[..pnum]))
      && (pnum < |buf| ==> (sectorNum + pnum) % alignment == 0)
      && (isUsed ==> ZeroesFollow(buf, pnum, Min(min, |buf|)))
      && (isUsed ==> NoGapBefore(buf, Allocated(buf, sectorNum, alignment).1, pnum, Min(min, |buf|), sectorNum, alignment))
  {
    AllocatedMeaning(buf, sectorNum, alignment);
    var (isUsed, first) := Allocated(buf, sectorNum, alignment);
    if isUsed {
      PrefixMeaning(buf, first, Min(min, |buf|), sectorNum, alignment);
      PrefixEnds(buf, first, Min(min, |buf|), sectorNum, alignment);
      PrefixHasNoGap(buf, first, Min(min, |buf|), sectorNum, alignment);
    }
  }

  lemma PrefixHasNoGap(buf: seq<Sector>, first: nat, min: nat, sectorNum: nat, alignment: nat)
    requires alignment > 0 && first <= |buf|
    ensures NoGapBefore(buf, first, UsedPrefix(PartAt(buf, sectorNum, alignment), |buf|, first, first, min), min, sectorNum, alignment)
  {
    var part := PartAt(buf, sectorNum, alignment);
    forall c: nat | LooksAt(part, |buf|, first, c) && c < UsedPrefix(part, |buf|, first, first, min)
      ensures part(c).0 || part(c).1 < min
    {
      StopsAtFirstGap(part, |buf|, first, first, min, c);
    }
  }
}
