/** On success the target of a conversion reads as the concatenated sources. */
module ConvertContent {

  import opened Sequences
  import opened Wrappers
  import opened SparseScan
  import opened Convert

  // ---------------------------------------------------------------- invariant

  ghost predicate RangeOk(cfg: Config, s: State, r: Range)
    requires ValidConfig(cfg)
  {
    && 0 < r.n
    && r.start + r.n <= s.sectorNum
    && DescribesAll(cfg, r.status, r.start, r.start + r.n)
    && (r.status.Data? || (cfg.minSparse == 0 && r.status.Zero?) ==> r.n <= cfg.bufSectors)
  }

  ghost predicate BufferOk(cfg: Config, r: Range, buf: seq<Sector>)
    requires r.start + r.n <= Total(cfg)
  {
    r.status.Data? ==> buf == Source(cfg)[r.start..r.start + r.n]
  }

  ghost predicate PointOk(cfg: Config, s: State, r: Range, at: Point)
    requires r.start + r.n <= Total(cfg)
  {
    match at
    case Retrying => true
    case Ordering(copying, buf) => s.ret.InProgress? && !copying ==> BufferOk(cfg, r, buf)
    case Waiting(copying, buf) => cfg.wrInOrder && (s.ret.InProgress? && !copying ==> BufferOk(cfg, r, buf))
    case Writing(buf, done) => done < r.n && BufferOk(cfg, r, buf)
    case Copying(done) => done < r.n
    case Advancing => true
  }

  predicate Active(c: Coroutine) {
    !c.NotStarted? && !c.Finished?
  }

  // What holds of coroutine k.
  ghost predicate CoInv(cfg: Config, s: State, k: nat)
    requires ValidConfig(cfg) && k < |s.co| == |s.waitSectorNum| && s.sectorNum <= Total(cfg)
  {
    var c := s.co[k];
    && (c.Owner? ==> RangeOk(cfg, s, c.range) && PointOk(cfg, s, c.range, c.at))
    && (c.Querying? <==> s.lock == Some(k))
    && (c.Querying? ==> s.sectorNum < Total(cfg))
    && (s.ret.Done? ==> !c.Owner? && !c.Querying?)
    && (!c.NotStarted? ==>
          s.waitSectorNum[k] == if c.Owner? && c.at.Waiting? then c.range.start else -1)
  }

  ghost predicate TargetOk(cfg: Config, target: seq<Sector>)
    requires ValidConfig(cfg)
  {
    && |target| == |cfg.before|
    && (forall j :: 0 <= j < Total(cfg) ==> target[j] == cfg.before[j] || target[j] == Source(cfg)[j])
    && (forall j :: Total(cfg) <= j < |target| ==> target[j] == cfg.before[j])
  }

  function ActiveSet(s: State): set<nat> {
    set k: nat | k < |s.co| && Active(s.co[k])
  }

  ghost predicate Shape(cfg: Config, s: State)
    requires ValidConfig(cfg)
  {
    && |s.co| == |s.waitSectorNum|
    && s.sectorNum <= Total(cfg)
    && DescribesAll(cfg, s.cache.status, s.sectorNum, s.cache.next)
    && TargetOk(cfg, s.target)
    && s.running == |ActiveSet(s)|
    && (s.lock.Some? ==> s.lock.value < |s.co|)
    && (s.ret.Done? ==> s.sectorNum == Total(cfg))
    && (s.ret.InProgress? && s.running == 0 ==> forall k :: 0 <= k < |s.co| ==> s.co[k].NotStarted?)
  }

  // Coroutine c still has to take care of sector j.
  predicate Pending(c: Coroutine, j: nat) {
    && c.Owner?
    && c.range.start <= j < c.range.start + c.range.n
    && match c.at
       case Writing(_, done) => c.range.start + done <= j
       case Copying(done) => c.range.start + done <= j
       case Advancing => false
       case _ => true
  }

  ghost predicate Covered(s: State, j: nat) {
    exists k :: 0 <= k < |s.co| && Pending(s.co[k], j)
  }

  // Every sector handed out is copied, or some coroutine will copy it.
  ghost predicate Copied(cfg: Config, s: State)
    requires ValidConfig(cfg) && s.sectorNum <= Total(cfg) <= |s.target|
  {
    !s.ret.Failed? ==>
      forall j: nat :: j < s.sectorNum ==> s.target[j] == Source(cfg)[j] || Covered(s, j)
  }

  ghost predicate Inv(cfg: Config, s: State)
    requires ValidConfig(cfg)
  {
    && Shape(cfg, s)
    && Copied(cfg, s)
    && forall k: nat :: k < |s.co| ==> CoInv(cfg, s, k)
  }

  // -------------------------------------------------------------- preservation

  // A range [lo, hi) may be overwritten with source data, in whole or in part.
  lemma WrittenTargetOk(cfg: Config, target: seq<Sector>, start: nat, data: seq<Sector>, t: seq<Sector>)
    requires ValidConfig(cfg) && TargetOk(cfg, target)
    requires start + |data| <= Total(cfg) && data == Source(cfg)[start..start + |data|]
    requires Torn(target, start, data, t)
    ensures TargetOk(cfg, t)
    ensures forall j :: 0 <= j < Total(cfg) && target[j] == Source(cfg)[j] ==> t[j] == Source(cfg)[j]
  {
  }

  // Source data written in whole.
  lemma SourceWritten(cfg: Config, target: seq<Sector>, start: nat, data: seq<Sector>)
    requires ValidConfig(cfg) && TargetOk(cfg, target)
    requires start + |data| <= Total(cfg) && data == Source(cfg)[start..start + |data|]
    ensures TargetOk(cfg, WriteAt(target, start, data))
    ensures forall j :: 0 <= j < Total(cfg) && (target[j] == Source(cfg)[j] || start <= j < start + |data|) ==>
              WriteAt(target, start, data)[j] == Source(cfg)[j]
  {
  }

  // Sectors that a turn does not take from the buffer.
  lemma UnwrittenIsKnown(cfg: Config, s: State, i: nat, p: Part, j: nat)
    requires ValidConfig(cfg) && Shape(cfg, s) && i < |s.co| && CoInv(cfg, s, i)
    requires HandlesPart(cfg, s, i, p) && !p.kind.WriteBuffer?
    requires s.co[i].range.start + s.co[i].at.done <= j < s.co[i].range.start + s.co[i].at.done + p.n
    ensures j < Total(cfg) && Source(cfg)[j] == if s.co[i].range.status.BackingFile? then s.target[j] else ZERO
  {
    var c := s.co[i];
    var r := c.range;
    assert RangeOk(cfg, s, r) && PointOk(cfg, s, r, c.at);
    assert Describes(cfg, r.status, j);
    assert s.target[j] == cfg.before[j] || s.target[j] == Source(cfg)[j];
    if r.status.Data? {
      var part := c.at.buf[c.at.done..c.at.done + p.n];
      SliceOfSlice(Source(cfg), r.start, r.n, c.at.done, p.n);
      assert part[j - r.start - c.at.done] == ZERO;
    }
  }

  // A turn of convert_co_write writes source data, and leaves out only sectors
  // that read correctly already.
  lemma PartDataIsSource(cfg: Config, s: State, i: nat, p: Part)
    requires ValidConfig(cfg) && Shape(cfg, s) && i < |s.co| && CoInv(cfg, s, i)
    requires HandlesPart(cfg, s, i, p)
    ensures var data := PartData(p, s.co[i].at.buf, s.co[i].at.done);
      var lo := s.co[i].range.start + s.co[i].at.done;
      && lo + p.n <= Total(cfg)
      && data == Source(cfg)[lo..lo + |data|]
      && (p.kind.Skip? ==> forall j :: lo <= j < lo + p.n ==> s.target[j] == Source(cfg)[j])
  {
    var c := s.co[i];
    var r := c.range;
    var lo := r.start + c.at.done;
    assert RangeOk(cfg, s, r) && PointOk(cfg, s, r, c.at);
    if p.kind.WriteBuffer? {
      SliceOfSlice(Source(cfg), r.start, r.n, c.at.done, p.n);
    } else {
      forall j | lo <= j < lo + p.n
        ensures Source(cfg)[j] == if r.status.BackingFile? then s.target[j] else ZERO
      {
        UnwrittenIsKnown(cfg, s, i, p, j);
      }
      SkippedIsSource(cfg, s, i, p);
    }
  }

  // What is skipped without a backing file is zero in the target too.
  lemma SkippedIsSource(cfg: Config, s: State, i: nat, p: Part)
    requires ValidConfig(cfg) && Shape(cfg, s) && i < |s.co| && CoInv(cfg, s, i)
    requires HandlesPart(cfg, s, i, p) && !p.kind.WriteBuffer?
    ensures var lo := s.co[i].range.start + s.co[i].at.done;
      && lo + p.n <= Total(cfg)
      && (p.kind.Skip? ==> forall j :: lo <= j < lo + p.n ==> s.target[j] == Source(cfg)[j])
  {
    var lo := s.co[i].range.start + s.co[i].at.done;
    assert RangeOk(cfg, s, s.co[i].range);
    forall j | lo <= j < lo + p.n && p.kind.Skip?
      ensures s.target[j] == Source(cfg)[j]
    {
      UnwrittenIsKnown(cfg, s, i, p, j);
      assert s.target[j] == cfg.before[j] || s.target[j] == Source(cfg)[j];
    }
  }

  // A coroutine that a step of another one leaves alone.
  lemma BystanderKeepsCoInv(cfg: Config, s: State, t: State, k: nat)
    requires ValidConfig(cfg) && |s.co| == |s.waitSectorNum| == |t.co| == |t.waitSectorNum| && k < |s.co|
    requires s.sectorNum <= t.sectorNum <= Total(cfg)
    requires CoInv(cfg, s, k)
    requires t.co[k] == s.co[k] && t.waitSectorNum[k] == s.waitSectorNum[k]
    requires t.lock == Some(k) <==> s.lock == Some(k)
    requires t.lock == Some(k) ==> t.sectorNum == s.sectorNum
    requires t.ret.InProgress? ==> s.ret.InProgress?
    requires t.ret.Done? ==> s.ret.Done? || !Active(t.co[k])
    ensures CoInv(cfg, t, k)
  {
  }

  // Sectors stay copied or covered when only coroutine i gives up pending ones.
  lemma StepKeepsCopied(cfg: Config, s: State, t: State, i: nat)
    requires ValidConfig(cfg) && |s.co| == |t.co| && i < |s.co|
    requires s.sectorNum <= t.sectorNum <= Total(cfg) <= |s.target| == |t.target|
    requires Copied(cfg, s)
    requires s.ret.Failed? ==> t.ret.Failed?
    requires forall k, j: nat :: 0 <= k < |s.co| && k != i && Pending(s.co[k], j) ==> Pending(t.co[k], j)
    requires forall j: nat :: j < s.sectorNum && Pending(s.co[i], j) ==>
               Pending(t.co[i], j) || t.target[j] == Source(cfg)[j]
    requires forall j: nat :: j < s.sectorNum && s.target[j] == Source(cfg)[j] ==> t.target[j] == Source(cfg)[j]
    requires forall j: nat :: s.sectorNum <= j < t.sectorNum ==> Pending(t.co[i], j)
    ensures Copied(cfg, t)
  {
    if !t.ret.Failed? {
      forall j: nat | j < t.sectorNum
        ensures t.target[j] == Source(cfg)[j] || Covered(t, j)
      {
        if j >= s.sectorNum {
          assert Pending(t.co[i], j);
        } else if s.target[j] != Source(cfg)[j] {
          assert Covered(s, j);
          var k :| 0 <= k < |s.co| && Pending(s.co[k], j);
          assert k != i ==> Pending(t.co[k], j);
        }
      }
    }
  }

  // Everybody but i is a bystander.
  ghost predicate OnlyTouches(s: State, t: State, i: nat) {
    && |s.co| == |s.waitSectorNum| == |t.co| == |t.waitSectorNum|
    && i < |s.co|
    && forall k :: 0 <= k < |s.co| && k != i ==> t.co[k] == s.co[k] && t.waitSectorNum[k] == s.waitSectorNum[k]
  }

  lemma OthersKeepCoInv(cfg: Config, s: State, t: State, i: nat)
    requires ValidConfig(cfg) && Inv(cfg, s) && OnlyTouches(s, t, i)
    requires s.sectorNum <= t.sectorNum <= Total(cfg)
    requires t.sectorNum == s.sectorNum || s.lock == Some(i)
    requires t.lock == s.lock || (t.lock == None && s.lock == Some(i)) || (t.lock == Some(i) && s.lock == None)
    requires t.ret.InProgress? ==> s.ret.InProgress?
    requires t.ret.Done? && !s.ret.Done? ==> forall k: nat :: k < |t.co| && k != i ==> !Active(t.co[k])
    ensures forall k: nat :: k < |t.co| && k != i ==> CoInv(cfg, t, k)
  {
    forall k: nat | k < |t.co| && k != i
      ensures CoInv(cfg, t, k)
    {
      BystanderKeepsCoInv(cfg, s, t, k);
    }
  }

  lemma SameActiveSet(s: State, t: State, i: nat)
    requires OnlyTouches(s, t, i) && Active(s.co[i]) == Active(t.co[i])
    ensures ActiveSet(t) == ActiveSet(s)
  {
  }

  // ---- the steps, event by event

  lemma BeginKeepsInv(cfg: Config, s: State, i: nat)
    requires ValidConfig(cfg) && Inv(cfg, s) && Enabled(cfg, s, i, Begin)
    ensures Inv(cfg, Next(cfg, s, i, Begin))
  {
    var t := Next(cfg, s, i, Begin);
    assert CoInv(cfg, s, i);
    OthersKeepCoInv(cfg, s, t, i);
    assert ActiveSet(t) == ActiveSet(s) + {i};
    StepKeepsCopied(cfg, s, t, i);
  }

  // The last active coroutine finds all sectors handed out, or an error.
  lemma FinishKeepsInv(cfg: Config, s: State, s': State, i: nat)
    requires ValidConfig(cfg) && Inv(cfg, s) && i < |s.co|
    requires (s.co[i].AtLoop? && s' == s && (!s.ret.InProgress? || s.sectorNum >= Total(cfg))) ||
             (s.co[i].Querying? && s'.ret.Failed? && s' == s.(lock := None, ret := s'.ret))
    ensures Inv(cfg, Finish(s', i))
  {
    var t := Finish(s', i);
    assert CoInv(cfg, s, i);
    assert OnlyTouches(s, t, i);
    assert i in ActiveSet(s);
    assert ActiveSet(t) == ActiveSet(s) - {i};
    if t.ret.Done? && !s.ret.Done? {
      assert ActiveSet(t) == {};
      forall k: nat | k < |t.co|
        ensures !Active(t.co[k])
      {
        assert k !in ActiveSet(t);
      }
    }
    OthersKeepCoInv(cfg, s, t, i);
    StepKeepsCopied(cfg, s, t, i);
  }

  lemma EnterLoopKeepsInv(cfg: Config, s: State, i: nat)
    requires ValidConfig(cfg) && Inv(cfg, s) && Enabled(cfg, s, i, EnterLoop)
    ensures Inv(cfg, Next(cfg, s, i, EnterLoop))
  {
    if !s.ret.InProgress? || s.sectorNum >= Total(cfg) {
      FinishKeepsInv(cfg, s, s, i);
    } else {
      var t := Next(cfg, s, i, EnterLoop);
      assert CoInv(cfg, s, i);
      OthersKeepCoInv(cfg, s, t, i);
      SameActiveSet(s, t, i);
      StepKeepsCopied(cfg, s, t, i);
    }
  }

  lemma HandOutKeepsInv(cfg: Config, s: State, i: nat, r: Response)
    requires ValidConfig(cfg) && Inv(cfg, s) && Enabled(cfg, s, i, Status(r))
    ensures Inv(cfg, HandOut(cfg, s, i, r))
  {
    var t := HandOut(cfg, s, i, r);
    assert CoInv(cfg, s, i);
    OthersKeepCoInv(cfg, s, t, i);
    SameActiveSet(s, t, i);
    StepKeepsCopied(cfg, s, t, i);
  }

  lemma FillKeepsInv(cfg: Config, s: State, i: nat)
    requires ValidConfig(cfg) && Inv(cfg, s) && Enabled(cfg, s, i, Read)
    ensures Inv(cfg, Put(s, i, Fill(cfg, s, s.co[i].range)))
  {
    var r := s.co[i].range;
    var t := Put(s, i, Fill(cfg, s, r));
    assert CoInv(cfg, s, i) && RangeOk(cfg, s, r);
    if cfg.minSparse == 0 && r.status.Zero? {
      forall j | r.start <= j < r.start + r.n
        ensures Source(cfg)[j] == ZERO
      {
        assert Describes(cfg, r.status, j);
      }
      assert t.co[i].at.buf == Source(cfg)[r.start..r.start + r.n];
    }
    OthersKeepCoInv(cfg, s, t, i);
    SameActiveSet(s, t, i);
    StepKeepsCopied(cfg, s, t, i);
  }

  lemma ReadFailsKeepsInv(cfg: Config, s: State, i: nat, error: int)
    requires ValidConfig(cfg) && Inv(cfg, s) && Enabled(cfg, s, i, ReadFails(error))
    ensures Inv(cfg, Next(cfg, s, i, ReadFails(error)))
  {
    var t := Next(cfg, s, i, ReadFails(error));
    assert CoInv(cfg, s, i);
    OthersKeepCoInv(cfg, s, t, i);
    SameActiveSet(s, t, i);
  }

  lemma ProceedKeepsInv(cfg: Config, s: State, i: nat)
    requires ValidConfig(cfg) && Inv(cfg, s) && Enabled(cfg, s, i, Order)
    ensures Inv(cfg, Proceed(cfg, s, i))
  {
    var t := Proceed(cfg, s, i);
    assert CoInv(cfg, s, i);
    OthersKeepCoInv(cfg, s, t, i);
    SameActiveSet(s, t, i);
    if s.ret.InProgress? {
      StepKeepsCopied(cfg, s, t, i);
    }
  }

  // Writing source data to the part of i's range from lo on, or leaving out
  // sectors that read correctly.
  lemma TargetWriteKeepsInv(cfg: Config, s: State, i: nat, c: Coroutine, target: seq<Sector>, ret: Ret, copyRange: bool)
    requires ValidConfig(cfg) && Inv(cfg, s) && i < |s.co| && s.co[i].Owner? && !s.co[i].at.Waiting?
    requires c.Owner? && c.range == s.co[i].range && !c.at.Waiting?
    requires c.range.start + c.range.n <= Total(cfg) && PointOk(cfg, s.(ret := ret), c.range, c.at)
    requires ret == s.ret || ret.Failed?
    requires TargetOk(cfg, target)
    requires forall j :: 0 <= j < Total(cfg) && s.target[j] == Source(cfg)[j] ==> target[j] == Source(cfg)[j]
    requires !ret.Failed? ==>
      forall j: nat :: j < Total(cfg) && Pending(s.co[i], j) ==> Pending(c, j) || target[j] == Source(cfg)[j]
    ensures Inv(cfg, Put(s, i, c).(target := target, ret := ret, copyRange := copyRange))
  {
    var t := Put(s, i, c).(target := target, ret := ret, copyRange := copyRange);
    assert CoInv(cfg, s, i);
    OthersKeepCoInv(cfg, s, t, i);
    SameActiveSet(s, t, i);
    if !ret.Failed? {
      StepKeepsCopied(cfg, s, t, i);
    }
  }

  // A turn writes source data only.
  lemma PartWritten(cfg: Config, s: State, i: nat, p: Part)
    requires ValidConfig(cfg) && Inv(cfg, s) && Enabled(cfg, s, i, Write(p))
    ensures var n := Next(cfg, s, i, Write(p)); var lo := s.co[i].range.start + s.co[i].at.done;
      && TargetOk(cfg, n.target) && lo + p.n <= Total(cfg)
      && (forall j :: 0 <= j < Total(cfg) && (s.target[j] == Source(cfg)[j] || lo <= j < lo + p.n) ==> n.target[j] == Source(cfg)[j])
  {
    var c := s.co[i];
    assert CoInv(cfg, s, i);
    PartDataIsSource(cfg, s, i, p);
    SourceWritten(cfg, s.target, c.range.start + c.at.done, PartData(p, c.at.buf, c.at.done));
  }

  lemma WriteKeepsInv(cfg: Config, s: State, i: nat, p: Part)
    requires ValidConfig(cfg) && Inv(cfg, s) && Enabled(cfg, s, i, Write(p))
    ensures Inv(cfg, Next(cfg, s, i, Write(p)))
  {
    PartWritten(cfg, s, i, p);
    assert CoInv(cfg, s, i);
    var n := Next(cfg, s, i, Write(p));
    TargetWriteKeepsInv(cfg, s, i, n.co[i], n.target, s.ret, s.copyRange);
  }

  lemma WriteFailsKeepsInv(cfg: Config, s: State, i: nat, p: Part, error: int, torn: seq<Sector>)
    requires ValidConfig(cfg) && Inv(cfg, s) && Enabled(cfg, s, i, WriteFails(p, error, torn))
    ensures Inv(cfg, Next(cfg, s, i, WriteFails(p, error, torn)))
  {
    var c := s.co[i];
    assert CoInv(cfg, s, i);
    PartDataIsSource(cfg, s, i, p);
    WrittenTargetOk(cfg, s.target, c.range.start + c.at.done, PartData(p, c.at.buf, c.at.done), torn);
    TargetWriteKeepsInv(cfg, s, i, Owner(c.range, Advancing), torn, Failed(error), s.copyRange);
  }

  lemma CopyKeepsInv(cfg: Config, s: State, i: nat)
    requires ValidConfig(cfg) && Inv(cfg, s) && Enabled(cfg, s, i, Copy)
    ensures Inv(cfg, Next(cfg, s, i, Copy))
  {
    var c := s.co[i];
    var lo := c.range.start + c.at.done;
    var data := CopierData(cfg, s, i);
    assert CoInv(cfg, s, i);
    assert data == Source(cfg)[lo..lo + |data|];
    SourceWritten(cfg, s.target, lo, data);
    var target := WriteAt(s.target, lo, data);
    var done := c.at.done + |data|;
    var after := AfterPart(c.range, Copying(done), done);
    assert Next(cfg, s, i, Copy) == Put(s, i, after).(target := target, ret := s.ret, copyRange := s.copyRange);
    TargetWriteKeepsInv(cfg, s, i, after, target, s.ret, s.copyRange);
  }

  lemma CopyFailsKeepsInv(cfg: Config, s: State, i: nat, torn: seq<Sector>)
    requires ValidConfig(cfg) && Inv(cfg, s) && Enabled(cfg, s, i, CopyFails(torn))
    ensures Inv(cfg, Next(cfg, s, i, CopyFails(torn)))
  {
    var c := s.co[i];
    var lo := c.range.start + c.at.done;
    var data := CopierData(cfg, s, i);
    assert CoInv(cfg, s, i);
    assert data == Source(cfg)[lo..lo + |data|];
    WrittenTargetOk(cfg, s.target, lo, data, torn);
    TargetWriteKeepsInv(cfg, s, i, Owner(c.range, Retrying), torn, s.ret, false);
  }

  lemma WakeKeepsInv(cfg: Config, s: State, w: nat)
    requires ValidConfig(cfg) && Inv(cfg, s) && w < |s.co|
    ensures Inv(cfg, Wake(s, w))
  {
    var t := Wake(s, w);
    assert CoInv(cfg, s, w);
    OthersKeepCoInv(cfg, s, t, w);
    SameActiveSet(s, t, w);
    StepKeepsCopied(cfg, s, t, w);
  }

  lemma LeaveRangeKeepsInv(cfg: Config, s: State, i: nat)
    requires ValidConfig(cfg) && Inv(cfg, s) && i < |s.co| && s.co[i].Owner? && s.co[i].at.Advancing?
    ensures Inv(cfg, Put(s, i, AtLoop))
  {
    var t := Put(s, i, AtLoop);
    assert CoInv(cfg, s, i);
    OthersKeepCoInv(cfg, s, t, i);
    SameActiveSet(s, t, i);
    StepKeepsCopied(cfg, s, t, i);
  }

  lemma AdvanceKeepsInv(cfg: Config, s: State, i: nat)
    requires ValidConfig(cfg) && Inv(cfg, s) && Enabled(cfg, s, i, Advance)
    ensures Inv(cfg, AdvanceOffset(cfg, s, i))
  {
    if !cfg.wrInOrder {
      LeaveRangeKeepsInv(cfg, s, i);
    } else {
      var t := s.(wrOffs := s.co[i].range.start + s.co[i].range.n);
      OffsetIsFree(cfg, s, t);
      var w := Waiter(t, t.wrOffs, 0);
      if w.Some? {
        WakeKeepsInv(cfg, t, w.value);
        LeaveRangeKeepsInv(cfg, Wake(t, w.value), i);
      } else {
        LeaveRangeKeepsInv(cfg, t, i);
      }
    }
  }

  // The content does not depend on wr_offs.
  lemma OffsetIsFree(cfg: Config, s: State, t: State)
    requires ValidConfig(cfg) && Inv(cfg, s) && t == s.(wrOffs := t.wrOffs)
    ensures Inv(cfg, t)
  {
    forall k: nat | k < |t.co|
      ensures CoInv(cfg, t, k)
    {
      BystanderKeepsCoInv(cfg, s, t, k);
    }
    assert forall j :: Covered(s, j) ==> Covered(t, j);
  }

  lemma StepKeepsInv(cfg: Config, s: State, i: nat, e: Event)
    requires ValidConfig(cfg) && Inv(cfg, s) && Enabled(cfg, s, i, e)
    ensures Inv(cfg, Next(cfg, s, i, e))
  {
    match e
    case Begin => BeginKeepsInv(cfg, s, i);
    case EnterLoop => EnterLoopKeepsInv(cfg, s, i);
    case Status(r) => HandOutKeepsInv(cfg, s, i, r);
    case StatusFails(error) => FinishKeepsInv(cfg, s, s.(lock := None, ret := Failed(error)), i);
    case Read => FillKeepsInv(cfg, s, i);
    case ReadFails(error) => ReadFailsKeepsInv(cfg, s, i, error);
    case Order => ProceedKeepsInv(cfg, s, i);
    case Write(p) => WriteKeepsInv(cfg, s, i, p);
    case WriteFails(p, error, torn) => WriteFailsKeepsInv(cfg, s, i, p, error, torn);
    case Copy => CopyKeepsInv(cfg, s, i);
    case CopyFails(torn) => CopyFailsKeepsInv(cfg, s, i, torn);
    case Advance => AdvanceKeepsInv(cfg, s, i);
  }

  lemma {:induction false} RunKeepsInv(cfg: Config, run: seq<State>, k: nat)
    requires ValidConfig(cfg) && IsRun(cfg, run) && k < |run|
    ensures Inv(cfg, run[k])
  {
    if k == 0 {
      assert ActiveSet(run[0]) == {};
    } else {
      RunKeepsInv(cfg, run, k - 1);
      assert Step(cfg, run[k - 1], run[k - 1 + 1]);
      var i, e :| Enabled(cfg, run[k - 1], i, e) && run[k] == Next(cfg, run[k - 1], i, e);
      StepKeepsInv(cfg, run[k - 1], i, e);
    }
  }

  // ------------------------------------------------------------------ theorems

  // A conversion that ends successfully has copied the concatenated sources, and
  // changed nothing behind them.
  lemma SuccessCopiesSources(cfg: Config, run: seq<State>, k: nat)
    requires ValidConfig(cfg) && IsRun(cfg, run) && k < |run| && run[k].ret.Done?
    ensures run[k].target == Source(cfg) + cfg.before[Total(cfg)..]
  {
    RunKeepsInv(cfg, run, k);
    var s := run[k];
    forall j: nat | j < Total(cfg)
      ensures s.target[j] == Source(cfg)[j]
    {
      forall i | 0 <= i < |s.co|
        ensures !Pending(s.co[i], j)
      {
        assert CoInv(cfg, s, i);
      }
    }
  }

  // At every moment, even after an error, every sector reads as it did before or
  // as the source does.
  lemma SectorsAreOldOrCopied(cfg: Config, run: seq<State>, k: nat)
    requires ValidConfig(cfg) && IsRun(cfg, run) && k < |run|
    ensures TargetOk(cfg, run[k].target)
  {
    RunKeepsInv(cfg, run, k);
  }

  // What convert_co_read and convert_co_write assert: ranges that go through the
  // buffer fit it, and backing file ranges occur only with a backing file.
  lemma RangesSuitTheirUse(cfg: Config, run: seq<State>, k: nat, i: nat)
    requires ValidConfig(cfg) && IsRun(cfg, run) && k < |run| && i < |run[k].co| && run[k].co[i].Owner?
    ensures var r := run[k].co[i].range;
      && (r.status.Data? || (cfg.minSparse == 0 && r.status.Zero?) ==> r.n <= cfg.bufSectors)
      && (r.status.BackingFile? ==> cfg.targetHasBacking)
  {
    RunKeepsInv(cfg, run, k);
    assert CoInv(cfg, run[k], i);
    assert Describes(cfg, run[k].co[i].range.status, run[k].co[i].range.start);
  }
}
