/**
 Ordered conversion: writes happen range by range in ascending order, and no
 coroutine is left waiting (xemu/qemu-img.c:2036-2081).
 */
module ConvertOrder {

  import opened IntMath
  import opened Wrappers
  import opened ConvertSource
  import opened Convert
  import opened ConvertContent

  // ------------------------------------------------------------ handed-out ranges

  // The ranges follow each other without gap or overlap and end at sector hi.
  ghost predicate Tiles(ranges: seq<Range>, hi: nat) {
    && (ranges == [] ==> hi == 0)
    && (forall m :: 0 <= m < |ranges| ==>
          && ranges[m].n > 0
          && ranges[m].start == (if m == 0 then 0 else ranges[m - 1].start + ranges[m - 1].n))
    && (ranges != [] ==> ranges[|ranges| - 1].start + ranges[|ranges| - 1].n == hi)
  }

  lemma StepKeepsTiles(cfg: Config, s: State, i: nat, e: Event)
    requires ValidConfig(cfg) && Enabled(cfg, s, i, e) && Tiles(s.handedOut, s.sectorNum)
    ensures Tiles(Next(cfg, s, i, e).handedOut, Next(cfg, s, i, e).sectorNum)
  {
  }

  lemma {:induction false} RangesTile(cfg: Config, run: seq<State>, k: nat)
    requires ValidConfig(cfg) && IsRun(cfg, run) && k < |run|
    ensures Tiles(run[k].handedOut, run[k].sectorNum)
    ensures run[k].ret.Done? ==> run[k].sectorNum == Total(cfg)
  {
    if k > 0 {
      RangesTile(cfg, run, k - 1);
      assert Step(cfg, run[k - 1], run[k - 1 + 1]);
      var i, e :| Enabled(cfg, run[k - 1], i, e) && run[k] == Next(cfg, run[k - 1], i, e);
      StepKeepsTiles(cfg, run[k - 1], i, e);
    }
    RunKeepsInv(cfg, run, k);
  }

  // -------------------------------------------------------------- whole clusters

  // The range begins at a cluster, and ends at one or with the last sector.
  predicate WholeClusters(cfg: Config, r: Range)
    requires cfg.clusterSectors > 0
  {
    && r.start % cfg.clusterSectors == 0
    && (r.n % cfg.clusterSectors == 0 || r.start + r.n == Total(cfg))
  }

  // The next range begins where a cluster does, unless all sectors are handed out.
  predicate AtCluster(cfg: Config, sectorNum: nat)
    requires cfg.clusterSectors > 0
  {
    sectorNum == Total(cfg) || sectorNum % cfg.clusterSectors == 0
  }

  lemma MultiplesAdd(a: nat, b: nat, m: nat)
    requires m > 0 && a % m == 0 && b % m == 0
    ensures (a + b) % m == 0
  {
    assert (a / m + b / m) * m == (a / m) * m + (b / m) * m;
    DivModIs(a + b, m, a / m + b / m, 0);
  }

  lemma IterateIsWhole(cfg: Config, sectorNum: nat, c: Cache)
    requires ValidConfig(cfg) && cfg.compressed && sectorNum < Total(cfg) && sectorNum < c.next
    requires DescribesAll(cfg, c.status, sectorNum, c.next) && sectorNum % cfg.clusterSectors == 0
    ensures var (status, n) := Iterate(cfg, sectorNum, c); WholeClusters(cfg, Range(sectorNum, n, status))
  {
    var limit := Min(RequestLimit(cfg, sectorNum), c.next - sectorNum);
    var n := if c.status.Data? then Min(limit, cfg.bufSectors) else limit;
    if n < cfg.clusterSectors {
      DivModIs(cfg.clusterSectors, cfg.clusterSectors, 1, 0);
    } else {
      RoundedIsMultiple(n, cfg.clusterSectors);
    }
  }

  // Shortening the range to the buffer keeps it whole: the buffer is one cluster.
  lemma ShortenedIsWhole(cfg: Config, r: Range, n: nat)
    requires ValidConfig(cfg) && cfg.compressed && WholeClusters(cfg, r) && n == Min(r.n, cfg.bufSectors)
    ensures WholeClusters(cfg, r.(n := n))
  {
    DivModIs(cfg.clusterSectors, cfg.clusterSectors, 1, 0);
  }

  lemma HandsOutWhole(cfg: Config, s: State, i: nat, r: Response)
    requires ValidConfig(cfg) && cfg.compressed && Enabled(cfg, s, i, Status(r)) && AtCluster(cfg, s.sectorNum)
    ensures var t := HandOut(cfg, s, i, r);
      WholeClusters(cfg, t.co[i].range) && t.handedOut == s.handedOut + [t.co[i].range] && AtCluster(cfg, t.sectorNum)
  {
    var c := if s.cache.next <= s.sectorNum then Refresh(cfg, s.sectorNum, r) else s.cache;
    IterateIsWhole(cfg, s.sectorNum, c);
    var (status, n) := Iterate(cfg, s.sectorNum, c);
    ShortenedIsWhole(cfg, Range(s.sectorNum, n, status), Min(n, cfg.bufSectors));
    var range := HandOut(cfg, s, i, r).co[i].range;
    if range.n % cfg.clusterSectors == 0 {
      MultiplesAdd(s.sectorNum, range.n, cfg.clusterSectors);
    }
  }

  // Every range is whole, and no range is partly written.
  ghost predicate CompressedInv(cfg: Config, s: State)
    requires ValidConfig(cfg) && cfg.compressed
  {
    && AtCluster(cfg, s.sectorNum) && !s.copyRange
    && (forall m :: 0 <= m < |s.handedOut| ==> WholeClusters(cfg, s.handedOut[m]))
    && (forall k :: 0 <= k < |s.co| && s.co[k].Owner? ==> CompressedOwner(cfg, s.co[k]))
  }

  predicate CompressedOwner(cfg: Config, c: Coroutine)
    requires cfg.clusterSectors > 0 && c.Owner?
  {
    WholeClusters(cfg, c.range) && (c.at.Writing? ==> c.at.done == 0) && !c.at.Copying?
    && (c.at.Ordering? || c.at.Waiting? ==> !c.at.copying)
  }

  lemma StepKeepsCompressed(cfg: Config, s: State, i: nat, e: Event)
    requires ValidConfig(cfg) && cfg.compressed && Enabled(cfg, s, i, e) && CompressedInv(cfg, s)
    ensures CompressedInv(cfg, Next(cfg, s, i, e))
  {
    match e
    case Status(r) => HandsOutWhole(cfg, s, i, r);
    case _ =>
  }

  // A compressed conversion hands out whole clusters only.
  lemma {:induction false} CompressedRangesAreWhole(cfg: Config, run: seq<State>, k: nat)
    requires ValidConfig(cfg) && cfg.compressed && IsRun(cfg, run) && k < |run|
    ensures CompressedInv(cfg, run[k])
  {
    if k == 0 {
      DivModIs(0, cfg.clusterSectors, 0, 0);
    } else {
      CompressedRangesAreWhole(cfg, run, k - 1);
      assert Step(cfg, run[k - 1], run[k - 1 + 1]);
      var i, e :| Enabled(cfg, run[k - 1], i, e) && run[k] == Next(cfg, run[k - 1], i, e);
      StepKeepsCompressed(cfg, run[k - 1], i, e);
    }
  }

  // And it writes each range at once, so that no cluster is ever written in parts.
  lemma CompressedWritesAreWhole(cfg: Config, run: seq<State>, k: nat, i: nat, p: Part)
    requires ValidConfig(cfg) && cfg.compressed && IsRun(cfg, run) && k < |run| && Enabled(cfg, run[k], i, Write(p))
    ensures var c := run[k].co[i]; c.at.done == 0 && p.n == c.range.n && WholeClusters(cfg, c.range)
  {
    CompressedRangesAreWhole(cfg, run, k);
  }

  // ------------------------------------------------------------------- invariant

  predicate EndsAt(c: Coroutine, x: nat) {
    c.Owner? && c.range.start + c.range.n == x
  }

  // Some coroutine owns the range that ends at x and has not advanced wr_offs.
  ghost predicate HasPredecessor(s: State, x: nat) {
    exists p :: 0 <= p < |s.co| && EndsAt(s.co[p], x)
  }

  predicate Disjoint(c: Coroutine, d: Coroutine) {
    c.Owner? && d.Owner? ==>
      c.range.start + c.range.n <= d.range.start || d.range.start + d.range.n <= c.range.start
  }

  // The coroutine is past the wait loop.
  predicate Working(c: Coroutine) {
    c.Owner? && (c.at.Writing? || c.at.Copying? || c.at.Advancing?)
  }

  ghost predicate OwnerOrder(s: State, k: nat)
    requires k < |s.co|
  {
    var c := s.co[k];
    c.Owner? ==>
      && (s.ret.InProgress? ==> c.range.start >= s.wrOffs)
      && (s.ret.InProgress? && Working(c) ==> c.range.start == s.wrOffs)
      && (c.at.Waiting? || (s.ret.InProgress? && c.range.start > s.wrOffs) ==> HasPredecessor(s, c.range.start))
  }

  ghost predicate OrderInv(cfg: Config, s: State)
    requires ValidConfig(cfg)
  {
    && Inv(cfg, s)
    && (s.ret.InProgress? ==> s.wrOffs <= s.sectorNum)
    && (s.ret.InProgress? && s.wrOffs < s.sectorNum ==> HasPredecessor(s, s.sectorNum))
    && (forall k, m :: 0 <= k < |s.co| && 0 <= m < |s.co| && k != m ==> Disjoint(s.co[k], s.co[m]))
    && (forall k: nat :: k < |s.co| ==> OwnerOrder(s, k))
  }

  // Everybody owns the range they owned, if any.
  ghost predicate SameRanges(s: State, t: State) {
    && |s.co| == |t.co|
    && s.sectorNum == t.sectorNum
    && forall k :: 0 <= k < |s.co| ==>
         && (t.co[k].Owner? <==> s.co[k].Owner?)
         && (s.co[k].Owner? ==> t.co[k].range.start == s.co[k].range.start && t.co[k].range.n == s.co[k].range.n)
  }

  lemma SamePredecessors(s: State, t: State, x: nat)
    requires SameRanges(s, t) && HasPredecessor(s, x)
    ensures HasPredecessor(t, x)
  {
  }

  lemma SameRangesKeepOrder(cfg: Config, s: State, t: State)
    requires ValidConfig(cfg) && OrderInv(cfg, s) && Inv(cfg, t) && SameRanges(s, t)
    requires t.wrOffs == s.wrOffs && (t.ret.InProgress? ==> s.ret.InProgress?)
    requires forall k: nat :: k < |t.co| && t.co[k].Owner? ==>
               && (t.co[k].at.Waiting? ==> s.co[k].at.Waiting? || HasPredecessor(s, s.co[k].range.start))
               && (t.ret.InProgress? && Working(t.co[k]) ==> s.co[k].range.start == s.wrOffs)
    ensures OrderInv(cfg, t)
  {
    if t.ret.InProgress? && t.wrOffs < t.sectorNum {
      SamePredecessors(s, t, s.sectorNum);
    }
    forall k: nat | k < |t.co|
      ensures OwnerOrder(t, k)
    {
      assert OwnerOrder(s, k);
      if t.co[k].Owner? && HasPredecessor(s, s.co[k].range.start) {
        SamePredecessors(s, t, s.co[k].range.start);
      }
    }
    forall k, m | 0 <= k < |t.co| && 0 <= m < |t.co| && k != m
      ensures Disjoint(t.co[k], t.co[m])
    {
      assert Disjoint(s.co[k], s.co[m]);
    }
  }

  predicate Simple(e: Event) {
    !e.Status? && !e.Order? && !e.Advance?
  }

  lemma SimpleStepKeepsRanges(cfg: Config, s: State, i: nat, e: Event)
    requires ValidConfig(cfg) && Enabled(cfg, s, i, e) && Simple(e)
    ensures var t := Next(cfg, s, i, e);
      && SameRanges(s, t) && t.wrOffs == s.wrOffs
      && (t.ret.InProgress? ==> s.ret.InProgress?)
      && (forall k :: 0 <= k < |s.co| && t.co[k].Owner? ==>
            && (t.co[k].at.Waiting? ==> s.co[k].at.Waiting?)
            && (Working(t.co[k]) ==> Working(s.co[k])))
  {
  }

  lemma SimpleStepKeepsOrder(cfg: Config, s: State, i: nat, e: Event)
    requires ValidConfig(cfg) && OrderInv(cfg, s) && Enabled(cfg, s, i, e) && Simple(e)
    ensures OrderInv(cfg, Next(cfg, s, i, e))
  {
    var t := Next(cfg, s, i, e);
    StepKeepsInv(cfg, s, i, e);
    SimpleStepKeepsRanges(cfg, s, i, e);
    forall k: nat | k < |t.co| && t.co[k].Owner?
      ensures t.ret.InProgress? && Working(t.co[k]) ==> s.co[k].range.start == s.wrOffs
    {
      assert OwnerOrder(s, k);
    }
    SameRangesKeepOrder(cfg, s, t);
  }

  lemma ProceedKeepsOrder(cfg: Config, s: State, i: nat)
    requires ValidConfig(cfg) && cfg.wrInOrder && OrderInv(cfg, s) && Enabled(cfg, s, i, Order)
    ensures OrderInv(cfg, Proceed(cfg, s, i))
  {
    var t := Proceed(cfg, s, i);
    StepKeepsInv(cfg, s, i, Order);
    assert SameRanges(s, t);
    forall k: nat | k < |t.co| && t.co[k].Owner?
      ensures t.co[k].at.Waiting? ==> s.co[k].at.Waiting? || HasPredecessor(s, s.co[k].range.start)
      ensures t.ret.InProgress? && Working(t.co[k]) ==> s.co[k].range.start == s.wrOffs
    {
      assert OwnerOrder(s, k);
    }
    SameRangesKeepOrder(cfg, s, t);
  }

  // Predecessors other than i's range survive a step of i.
  lemma OtherPredecessor(s: State, t: State, i: nat, x: nat)
    requires |s.co| == |t.co| && i < |s.co| && HasPredecessor(s, x) && !EndsAt(s.co[i], x)
    requires forall k, y :: 0 <= k < |s.co| && k != i && EndsAt(s.co[k], y) ==> EndsAt(t.co[k], y)
    ensures HasPredecessor(t, x)
  {
  }

  lemma HandOutKeepsOrder(cfg: Config, s: State, i: nat, r: Response)
    requires ValidConfig(cfg) && OrderInv(cfg, s) && Enabled(cfg, s, i, Status(r))
    ensures OrderInv(cfg, HandOut(cfg, s, i, r))
  {
    var t := HandOut(cfg, s, i, r);
    HandOutKeepsInv(cfg, s, i, r);
    assert EndsAt(t.co[i], t.sectorNum);
    forall k: nat | k < |t.co|
      ensures OwnerOrder(t, k)
    {
      assert OwnerOrder(s, k);
      var x := if k == i then s.sectorNum else if s.co[k].Owner? then s.co[k].range.start else 0;
      if HasPredecessor(s, x) {
        OtherPredecessor(s, t, i, x);
      }
    }
    forall k, m | 0 <= k < |t.co| && 0 <= m < |t.co| && k != m
      ensures Disjoint(t.co[k], t.co[m])
    {
      assert Disjoint(s.co[k], s.co[m]) && CoInv(cfg, s, k) && CoInv(cfg, s, m);
    }
  }

  // The state in which i has advanced wr_offs and woken w, if anybody waited.
  lemma AdvanceKeepsDisjoint(cfg: Config, s: State, i: nat)
    requires ValidConfig(cfg) && OrderInv(cfg, s) && Enabled(cfg, s, i, Advance)
    ensures var t := AdvanceOffset(cfg, s, i);
      && |t.co| == |s.co| && t.co[i] == AtLoop
      && (forall k :: 0 <= k < |s.co| && k != i ==>
            && (t.co[k].Owner? <==> s.co[k].Owner?)
            && (s.co[k].Owner? ==>
                  && t.co[k].range == s.co[k].range
                  && (t.co[k].at == s.co[k].at || (s.co[k].at.Waiting? && t.co[k].at.Ordering?))))
      && (forall k, m :: 0 <= k < |t.co| && 0 <= m < |t.co| && k != m ==> Disjoint(t.co[k], t.co[m]))
  {
  }

  // Whoever waits for the end of i's range is woken, and nobody else is.
  lemma AdvanceWakesWaiter(cfg: Config, s: State, i: nat, k: nat)
    requires ValidConfig(cfg) && cfg.wrInOrder && OrderInv(cfg, s) && Enabled(cfg, s, i, Advance)
    requires k < |s.co| && s.co[k].Owner? && s.co[k].at.Waiting? && EndsAt(s.co[i], s.co[k].range.start)
    ensures k != i && AdvanceOffset(cfg, s, i).co[k] ==
      Owner(s.co[k].range, Ordering(s.co[k].at.copying, s.co[k].at.buf))
    ensures forall m :: 0 <= m < |s.co| && m != i && m != k ==> AdvanceOffset(cfg, s, i).co[m] == s.co[m]
  {
    assert CoInv(cfg, s, i) && CoInv(cfg, s, k);
    var t := s.(wrOffs := s.co[k].range.start);
    var w := Waiter(t, t.wrOffs, 0);
    assert w.Some?;
    assert CoInv(cfg, s, w.value);
    assert w.value != k ==> Disjoint(s.co[w.value], s.co[k]);
  }

  lemma AdvanceKeepsOrder(cfg: Config, s: State, i: nat)
    requires ValidConfig(cfg) && cfg.wrInOrder && OrderInv(cfg, s) && Enabled(cfg, s, i, Advance)
    ensures OrderInv(cfg, AdvanceOffset(cfg, s, i))
  {
    var t := AdvanceOffset(cfg, s, i);
    var end := s.co[i].range.start + s.co[i].range.n;
    AdvanceKeepsInv(cfg, s, i);
    AdvanceKeepsDisjoint(cfg, s, i);
    assert OwnerOrder(s, i) && CoInv(cfg, s, i);
    forall k: nat | k < |t.co|
      ensures OwnerOrder(t, k)
    {
      assert OwnerOrder(s, k) && CoInv(cfg, s, k);
      if t.co[k].Owner? {
        assert Disjoint(s.co[i], s.co[k]);
        var x := s.co[k].range.start;
        if x == end {
          if s.co[k].at.Waiting? {
            AdvanceWakesWaiter(cfg, s, i, k);
          }
        } else if HasPredecessor(s, x) {
          OtherPredecessor(s, t, i, x);
        }
      }
    }
    if t.ret.InProgress? && end < s.sectorNum {
      OtherPredecessor(s, t, i, s.sectorNum);
    }
  }

  lemma StepKeepsOrder(cfg: Config, s: State, i: nat, e: Event)
    requires ValidConfig(cfg) && cfg.wrInOrder && OrderInv(cfg, s) && Enabled(cfg, s, i, e)
    ensures OrderInv(cfg, Next(cfg, s, i, e))
  {
    if e.Order? {
      ProceedKeepsOrder(cfg, s, i);
    } else if e.Status? {
      HandOutKeepsOrder(cfg, s, i, e.r);
    } else if e.Advance? {
      AdvanceKeepsOrder(cfg, s, i);
    } else {
      SimpleStepKeepsOrder(cfg, s, i, e);
    }
  }

  lemma {:induction false} RunKeepsOrder(cfg: Config, run: seq<State>, k: nat)
    requires ValidConfig(cfg) && cfg.wrInOrder && IsRun(cfg, run) && k < |run|
    ensures OrderInv(cfg, run[k])
  {
    if k == 0 {
      RunKeepsInv(cfg, run, 0);
    } else {
      RunKeepsOrder(cfg, run, k - 1);
      assert Step(cfg, run[k - 1], run[k - 1 + 1]);
      var i, e :| Enabled(cfg, run[k - 1], i, e) && run[k] == Next(cfg, run[k - 1], i, e);
      StepKeepsOrder(cfg, run[k - 1], i, e);
    }
  }

  // -------------------------------------------------------------------- theorems

  // While an ordered conversion has met no error, everything below wr_offs is
  // copied, whoever may write owns the range at wr_offs, and nobody else does.
  lemma OrderedPrefixIsCopied(cfg: Config, run: seq<State>, k: nat)
    requires ValidConfig(cfg) && cfg.wrInOrder && IsRun(cfg, run) && k < |run| && run[k].ret.InProgress?
    ensures var s := run[k];
      && s.wrOffs <= Total(cfg) <= |s.target|
      && s.target[..s.wrOffs] == Source(cfg)[..s.wrOffs]
      && (forall i, m :: 0 <= i < |s.co| && 0 <= m < |s.co| && Working(s.co[i]) && Working(s.co[m]) ==> i == m)
      && (forall i :: 0 <= i < |s.co| && Working(s.co[i]) ==> s.co[i].range.start == s.wrOffs)
  {
    RunKeepsOrder(cfg, run, k);
    var s := run[k];
    forall j: nat | j < s.wrOffs
      ensures s.target[j] == Source(cfg)[j]
    {
      forall i | 0 <= i < |s.co|
        ensures !Pending(s.co[i], j)
      {
        assert OwnerOrder(s, i);
      }
    }
    forall i, m | 0 <= i < |s.co| && 0 <= m < |s.co| && Working(s.co[i]) && Working(s.co[m])
      ensures i == m && s.co[i].range.start == s.wrOffs
    {
      assert OwnerOrder(s, i) && OwnerOrder(s, m) && CoInv(cfg, s, i) && CoInv(cfg, s, m);
      assert Disjoint(s.co[i], s.co[m]) || i == m;
    }
  }

  // A step writes only to the range of a coroutine that is past the wait loop.
  lemma StepWritesOwnRange(cfg: Config, s: State, i: nat, e: Event)
    requires ValidConfig(cfg) && Enabled(cfg, s, i, e)
    ensures var t := Next(cfg, s, i, e);
      && |t.target| == |s.target|
      && (t.target == s.target ||
          (Working(s.co[i]) && forall j :: 0 <= j < |s.target| && j < s.co[i].range.start ==> t.target[j] == s.target[j]))
      && t.wrOffs == if e.Advance? && cfg.wrInOrder then s.co[i].range.start + s.co[i].range.n else s.wrOffs
  {
  }

  // Ordered writes ascend: without an error, no step writes below wr_offs, and
  // wr_offs never moves back.
  lemma OrderedWritesAscend(cfg: Config, run: seq<State>, k: nat)
    requires ValidConfig(cfg) && cfg.wrInOrder && IsRun(cfg, run) && k + 1 < |run| && run[k].ret.InProgress?
    ensures var (s, t) := (run[k], run[k + 1]);
      && s.wrOffs <= t.wrOffs
      && s.wrOffs <= |s.target| == |t.target|
      && t.target[..s.wrOffs] == s.target[..s.wrOffs]
  {
    RunKeepsOrder(cfg, run, k);
    var s := run[k];
    assert Step(cfg, s, run[k + 1]);
    var i, e :| Enabled(cfg, s, i, e) && run[k + 1] == Next(cfg, s, i, e);
    assert OwnerOrder(s, i) && s.wrOffs <= |s.target|;
    StepWritesOwnRange(cfg, s, i, e);
  }

  // ------------------------------------------------------- no coroutine is stranded

  ghost predicate CanStep(cfg: Config, s: State)
    requires ValidConfig(cfg)
  {
    exists i, e :: Enabled(cfg, s, i, e)
  }

  // Reporting one sector as data is always truthful, so a query can be answered.
  lemma QueryingCanStep(cfg: Config, s: State, i: nat)
    requires ValidConfig(cfg) && Inv(cfg, s) && i < |s.co| && s.co[i].Querying?
    ensures CanStep(cfg, s)
  {
    assert CoInv(cfg, s, i);
    var r := Response(false, true, 1);
    PartHoldsSector(cfg.srcs, s.sectorNum);
    assert Truthful(cfg, s.sectorNum, RequestLimit(cfg, s.sectorNum), r);
    assert Enabled(cfg, s, i, Status(r));
  }

  lemma OwnerCanStep(cfg: Config, s: State, i: nat)
    requires ValidConfig(cfg) && Inv(cfg, s) && i < |s.co| && s.co[i].Owner? && !s.co[i].at.Waiting?
    ensures CanStep(cfg, s)
  {
    var c := s.co[i];
    assert CoInv(cfg, s, i) && OwnerAt(cfg, s, i);
    match c.at
    case Retrying => assert Enabled(cfg, s, i, Read);
    case Ordering(_, _) => assert Enabled(cfg, s, i, Order);
    case Writing(buf, done) =>
      CodeMayHandle(cfg, c.range, buf, done);
      assert Enabled(cfg, s, i, Write(WritePart(cfg, c.range, buf, done)));
    case Copying(_) => assert Enabled(cfg, s, i, Copy);
    case Advancing => assert Enabled(cfg, s, i, Advance);
  }

  lemma AwakeCanStep(cfg: Config, s: State, i: nat)
    requires ValidConfig(cfg) && Inv(cfg, s) && i < |s.co| && !s.co[i].Finished?
    requires s.co[i].Owner? ==> !s.co[i].at.Waiting?
    ensures CanStep(cfg, s)
  {
    match s.co[i]
    case NotStarted => assert Enabled(cfg, s, i, Begin);
    case AtLoop =>
      if s.lock.None? {
        assert Enabled(cfg, s, i, EnterLoop);
      } else {
        LockIsHeld(cfg, s);
        QueryingCanStep(cfg, s, s.lock.value);
      }
    case Querying => QueryingCanStep(cfg, s, i);
    case Owner(_, _) => OwnerCanStep(cfg, s, i);
  }

  lemma LockIsHeld(cfg: Config, s: State)
    requires ValidConfig(cfg) && Inv(cfg, s) && s.lock.Some?
    ensures s.lock.value < |s.co| && s.co[s.lock.value].Querying?
  {
    assert CoInv(cfg, s, s.lock.value);
  }

  // Waiting coroutines wait for each other in the order of their ranges, and the
  // first of them waits for one that runs.
  lemma {:induction false} ChainCanStep(cfg: Config, s: State, i: nat)
    requires ValidConfig(cfg) && cfg.wrInOrder && OrderInv(cfg, s) && i < |s.co| && s.co[i].Owner?
    ensures CanStep(cfg, s)
    decreases s.co[i].range.start
  {
    if s.co[i].at.Waiting? {
      assert OwnerOrder(s, i);
      var p :| 0 <= p < |s.co| && EndsAt(s.co[p], s.co[i].range.start);
      assert CoInv(cfg, s, p);
      ChainCanStep(cfg, s, p);
    } else {
      OwnerCanStep(cfg, s, i);
    }
  }

  // As long as a coroutine has not finished, some coroutine can run, whatever
  // errors have occurred.
  lemma NoCoroutineStranded(cfg: Config, run: seq<State>, k: nat, i: nat)
    requires ValidConfig(cfg) && IsRun(cfg, run) && k < |run| && i < |run[k].co| && !run[k].co[i].Finished?
    ensures CanStep(cfg, run[k])
  {
    RunKeepsInv(cfg, run, k);
    assert CoInv(cfg, run[k], i);
    if run[k].co[i].Owner? && run[k].co[i].at.Waiting? {
      RunKeepsOrder(cfg, run, k);
      ChainCanStep(cfg, run[k], i);
    } else {
      AwakeCanStep(cfg, run[k], i);
    }
  }

  // ------------------------------------------------------------------ termination

  // A bound on the steps a coroutine takes before it is back at the loop's head.
  function Weight(c: Coroutine, copyRange: bool): nat {
    match c
    case NotStarted => 3
    case AtLoop => 2
    case Querying => 1
    case Finished => 0
    case Owner(r, at) =>
      match at
      case Retrying => if copyRange then 12 + 2 * r.n else 8 + r.n
      case Ordering(copying, _) => if copying then 11 + 2 * r.n else 7 + r.n
      case Waiting(copying, _) => if copying then 10 + 2 * r.n else 6 + r.n
      case Writing(_, done) => 5 + if done <= r.n then r.n - done else 0
      case Copying(done) => 9 + r.n + if done <= r.n then r.n - done else 0
      case Advancing => 5
  }

  function Weights(s: State): (ws: seq<nat>)
    ensures |ws| == |s.co|
  {
    seq(|s.co|, k requires 0 <= k < |s.co| => Weight(s.co[k], s.copyRange))
  }

  function Rank(cfg: Config, s: State): nat {
    Sum(Weights(s)) + if s.sectorNum <= Total(cfg) then 14 * (Total(cfg) - s.sectorNum) else 0
  }

  lemma SimpleStepLowersRank(cfg: Config, s: State, i: nat, e: Event)
    requires ValidConfig(cfg) && Enabled(cfg, s, i, e) && Simple(e)
    ensures Rank(cfg, Next(cfg, s, i, e)) < Rank(cfg, s)
  {
    var t := Next(cfg, s, i, e);
    assert t.sectorNum == s.sectorNum;
    SumLess(Weights(t), Weights(s), i);
  }

  lemma ProceedLowersRank(cfg: Config, s: State, i: nat)
    requires ValidConfig(cfg) && Enabled(cfg, s, i, Order)
    ensures Rank(cfg, Proceed(cfg, s, i)) < Rank(cfg, s)
  {
    SumLess(Weights(Proceed(cfg, s, i)), Weights(s), i);
  }

  lemma HandOutLowersRank(cfg: Config, s: State, i: nat, r: Response)
    requires ValidConfig(cfg) && Enabled(cfg, s, i, Status(r))
    ensures Rank(cfg, HandOut(cfg, s, i, r)) < Rank(cfg, s)
  {
    var t := HandOut(cfg, s, i, r);
    assert Weights(t) == Weights(s)[i := Weights(t)[i]];
    SumUpdate(Weights(s), i, Weights(t)[i]);
    assert t.sectorNum == s.sectorNum + t.co[i].range.n;
  }

  lemma WakeCostsOne(s: State, w: nat)
    requires w < |s.co| == |s.waitSectorNum|
    ensures Sum(Weights(Wake(s, w))) <= Sum(Weights(s)) + 1
  {
    var t := Wake(s, w);
    assert Weights(t) == Weights(s)[w := Weights(t)[w]];
    SumUpdate(Weights(s), w, Weights(t)[w]);
  }

  lemma LeavingPaysThree(s: State, i: nat)
    requires i < |s.co| && s.co[i].Owner? && s.co[i].at.Advancing?
    ensures Sum(Weights(Put(s, i, AtLoop))) == Sum(Weights(s)) - 3
  {
    assert Weights(Put(s, i, AtLoop)) == Weights(s)[i := 2];
    SumUpdate(Weights(s), i, 2);
  }

  lemma AdvanceLowersRank(cfg: Config, s: State, i: nat)
    requires ValidConfig(cfg) && Enabled(cfg, s, i, Advance)
    ensures Rank(cfg, AdvanceOffset(cfg, s, i)) < Rank(cfg, s)
  {
    if !cfg.wrInOrder {
      LeavingPaysThree(s, i);
    } else {
      var t := s.(wrOffs := s.co[i].range.start + s.co[i].range.n);
      assert Weights(t) == Weights(s);
      var w := Waiter(t, t.wrOffs, 0);
      if w.Some? {
        WakeCostsOne(t, w.value);
        LeavingPaysThree(Wake(t, w.value), i);
      } else {
        LeavingPaysThree(t, i);
      }
    }
  }

  lemma StepLowersRank(cfg: Config, s: State, i: nat, e: Event)
    requires ValidConfig(cfg) && Enabled(cfg, s, i, e)
    ensures Rank(cfg, Next(cfg, s, i, e)) < Rank(cfg, s)
  {
    if e.Order? {
      ProceedLowersRank(cfg, s, i);
    } else if e.Status? {
      HandOutLowersRank(cfg, s, i, e.r);
    } else if e.Advance? {
      AdvanceLowersRank(cfg, s, i);
    } else {
      SimpleStepLowersRank(cfg, s, i, e);
    }
  }

  lemma {:induction false} InitialRank(s: State, n: nat)
    requires n <= |s.co| && forall k :: 0 <= k < |s.co| ==> s.co[k].NotStarted?
    ensures Sum(Weights(s)[|s.co| - n..]) == 3 * n
  {
    if n > 0 {
      InitialRank(s, n - 1);
      assert Weights(s)[|s.co| - n..][1..] == Weights(s)[|s.co| - (n - 1)..];
    }
  }

  lemma {:induction false} RunLowersRank(cfg: Config, run: seq<State>, k: nat)
    requires ValidConfig(cfg) && IsRun(cfg, run) && k < |run|
    ensures Rank(cfg, run[k]) + k <= Rank(cfg, run[0])
  {
    if k > 0 {
      RunLowersRank(cfg, run, k - 1);
      assert Step(cfg, run[k - 1], run[k - 1 + 1]);
      var i, e :| Enabled(cfg, run[k - 1], i, e) && run[k] == Next(cfg, run[k - 1], i, e);
      StepLowersRank(cfg, run[k - 1], i, e);
    }
  }

  // Every conversion ends, within a number of steps linear in the number of
  // sectors and coroutines.
  lemma ConversionEnds(cfg: Config, run: seq<State>)
    requires ValidConfig(cfg) && IsRun(cfg, run)
    ensures |run| <= 14 * Total(cfg) + 3 * |run[0].co| + 1
  {
    RunLowersRank(cfg, run, |run| - 1);
    InitialRank(run[0], |run[0].co|);
    assert Weights(run[0])[0..] == Weights(run[0]);
  }

  // A run that cannot go on has a verdict: the target is a faithful copy, or an
  // error is reported.
  lemma FinalStateHasVerdict(cfg: Config, run: seq<State>, k: nat)
    requires ValidConfig(cfg) && IsRun(cfg, run) && k < |run| && |run[k].co| > 0 && !CanStep(cfg, run[k])
    ensures run[k].ret.Failed? || (run[k].ret.Done? && run[k].target == Source(cfg) + cfg.before[Total(cfg)..])
  {
    RunKeepsInv(cfg, run, k);
    var s := run[k];
    forall i: nat | i < |s.co|
      ensures s.co[i].Finished?
    {
      if !s.co[i].Finished? {
        NoCoroutineStranded(cfg, run, k, i);
      }
    }
    assert ActiveSet(s) == {};
    assert s.co[0].Finished?;
    if s.ret.Done? {
      SuccessCopiesSources(cfg, run, k);
    }
  }
}
