/**
 What the converter asks for and in which portions, and which error it reports
 (xemu/qemu-img.c:1713-1816, 1873-2087).
 */
module ConvertRequests {

  import opened Wrappers
  import opened IntMath
  import opened SparseScan
  import opened ConvertSource
  import opened Convert

  // ------------------------------------------------------------------ status queries

  // A query reaches as far as it may.
  lemma RequestIsMaximal(cfg: Config, sectorNum: nat)
    requires sectorNum < Total(cfg)
    ensures var n := RequestLimit(cfg, sectorNum);
      && n <= REQUEST_MAX_SECTORS
      && (n == REQUEST_MAX_SECTORS || sectorNum + n == Total(cfg) || sectorNum + n == cfg.targetBackingSectors)
  {
  }

  // Sector x is the start of a request the source image likes.
  predicate SourceAligned(cfg: Config, sectorNum: nat, x: nat)
    requires |cfg.srcAlignment| == |cfg.srcs| && sectorNum < Total(cfg)
  {
    var (cur, offset) := SelectPart(cfg.srcs, sectorNum);
    cfg.srcAlignment[cur] > 0 && x >= offset && (x - offset) % cfg.srcAlignment[cur] == 0
  }

  lemma MultipleBelow(y: nat, z: nat, a: nat)
    requires a > 0 && y % a == 0 && y <= z
    ensures y <= z - z % a
  {
    var d := y / a - z / a;
    assert d * a == y - (z - z % a);
    if d >= 1 {
      MulAtLeast(d, a);
    }
  }

  // What is remembered of an answer ends at the last aligned sector that it covers,
  // or with the answer if it covers none.
  lemma CacheEndsAligned(cfg: Config, sectorNum: nat, r: Response, x: nat)
    requires ValidConfig(cfg) && sectorNum < Total(cfg)
    requires Truthful(cfg, sectorNum, RequestLimit(cfg, sectorNum), r)
    requires sectorNum < x <= sectorNum + r.count && SourceAligned(cfg, sectorNum, x)
    ensures var c := Refresh(cfg, sectorNum, r); x <= c.next <= sectorNum + r.count && SourceAligned(cfg, sectorNum, c.next)
  {
    var (cur, offset) := SelectPart(cfg.srcs, sectorNum);
    var end := sectorNum - offset + r.count;
    MultipleBelow(x - offset, end, cfg.srcAlignment[cur]);
    RoundedIsMultiple(end, cfg.srcAlignment[cur]);
  }

  lemma ShortAnswerIsKept(cfg: Config, sectorNum: nat, r: Response)
    requires ValidConfig(cfg) && sectorNum < Total(cfg)
    requires Truthful(cfg, sectorNum, RequestLimit(cfg, sectorNum), r)
    requires forall x :: sectorNum < x <= sectorNum + r.count ==> !SourceAligned(cfg, sectorNum, x)
    ensures Refresh(cfg, sectorNum, r).next == sectorNum + r.count
  {
    var (cur, offset) := SelectPart(cfg.srcs, sectorNum);
    var end := sectorNum - offset + r.count;
    RoundedIsMultiple(end, cfg.srcAlignment[cur]);
    var x := sectorNum + r.count - end % cfg.srcAlignment[cur];
    assert x > sectorNum ==> !SourceAligned(cfg, sectorNum, x);
  }

  // Data is read only where the source has it, or where nothing else provides it;
  // the target's backing file shows through where the source has nothing, and behind
  // its end where the source is zero.
  lemma StatusIsExact(cfg: Config, sectorNum: nat, r: Response)
    requires ValidConfig(cfg) && sectorNum < Total(cfg)
    requires Truthful(cfg, sectorNum, RequestLimit(cfg, sectorNum), r)
    ensures var status := Refresh(cfg, sectorNum, r).status; var behind := 0 <= cfg.targetBackingSectors <= sectorNum;
      && (status.Data? <==> !r.zero && (r.data || !cfg.targetHasBacking))
      && (status.Zero? <==> r.zero && !behind)
      && (status.BackingFile? <==> (r.zero && behind) || (!r.zero && !r.data && cfg.targetHasBacking))
  {
  }

  // ------------------------------------------------------------------ handing out

  // The cache that a range is cut from.
  ghost function CacheFor(cfg: Config, s: State, i: nat, r: Response): Cache
    requires ValidConfig(cfg) && Enabled(cfg, s, i, Status(r))
  {
    if s.cache.next <= s.sectorNum then Refresh(cfg, s.sectorNum, r) else s.cache
  }

  // Whether a range goes through the buffer.
  predicate IsBuffered(cfg: Config, status: BlockStatus) {
    status.Data? || (cfg.minSparse == 0 && status.Zero?)
  }

  // Without compression, a range has the status that was answered and ends where the
  // answer, the request or the buffer does.
  lemma RangeIsMaximal(cfg: Config, s: State, i: nat, r: Response)
    requires ValidConfig(cfg) && !cfg.compressed && Enabled(cfg, s, i, Status(r))
    ensures var c := CacheFor(cfg, s, i, r); var range := HandOut(cfg, s, i, r).co[i].range;
      && range.start == s.sectorNum && range.status == c.status
      && (|| range.start + range.n == c.next
          || range.n == RequestLimit(cfg, s.sectorNum)
          || (IsBuffered(cfg, range.status) && range.n == cfg.bufSectors))
  {
  }

  // With compression, only what is shorter than a cluster is turned into data.
  lemma CompressedStatus(cfg: Config, s: State, i: nat, r: Response)
    requires ValidConfig(cfg) && cfg.compressed && Enabled(cfg, s, i, Status(r))
    ensures var c := CacheFor(cfg, s, i, r); var range := HandOut(cfg, s, i, r).co[i].range;
      range.status == c.status || (range.status.Data? && Min(RequestLimit(cfg, s.sectorNum), c.next - s.sectorNum) < cfg.clusterSectors)
  {
  }

  // The remembered status is that of the range handed out last.
  ghost predicate HoldsLastStatus(s: State) {
    s.handedOut != [] ==> s.cache.status == s.handedOut[|s.handedOut| - 1].status
  }

  lemma EventHoldsLastStatus(cfg: Config, s: State, i: nat, e: Event)
    requires ValidConfig(cfg) && Enabled(cfg, s, i, e) && HoldsLastStatus(s)
    ensures HoldsLastStatus(Next(cfg, s, i, e))
  {
  }

  lemma StepHoldsLastStatus(cfg: Config, s: State, t: State)
    requires ValidConfig(cfg) && Step(cfg, s, t) && HoldsLastStatus(s)
    ensures HoldsLastStatus(t)
  {
    var i, e :| Enabled(cfg, s, i, e) && t == Next(cfg, s, i, e);
    EventHoldsLastStatus(cfg, s, i, e);
  }

  lemma {:induction false} CacheHoldsLastStatus(cfg: Config, run: seq<State>, k: nat)
    requires ValidConfig(cfg) && IsRun(cfg, run) && k < |run|
    ensures HoldsLastStatus(run[k])
  {
    if k > 0 {
      CacheHoldsLastStatus(cfg, run, k - 1);
      assert Step(cfg, run[k - 1], run[k - 1 + 1]);
      StepHoldsLastStatus(cfg, run[k - 1], run[k]);
    }
  }

  // ------------------------------------------------------------- copying and writing

  // A range is copied without a buffer exactly while that works and the last range
  // handed out is data.
  lemma CopiesOnlyWhileData(cfg: Config, s: State, i: nat)
    requires ValidConfig(cfg) && Enabled(cfg, s, i, Read)
    ensures var c := Next(cfg, s, i, Read).co[i];
      c.Owner? && c.at.Ordering? && (c.at.copying <==> s.copyRange && s.cache.status.Data?)
  {
  }

  // A copy request ends with the range or with the source image.
  lemma CopiedPieceIsMaximal(cfg: Config, r: Range, done: nat)
    requires done < r.n && r.start + r.n <= Total(cfg)
    ensures var m := CopyLength(cfg, r, done); var (cur, offset) := SelectPart(cfg.srcs, r.start + done);
      done + m == r.n || r.start + done + m == offset + |cfg.srcs[cur]|
  {
  }

  // Zeroes are written exactly to targets that may hold something else.
  lemma ZeroesAreWrittenIff(cfg: Config, r: Range, buf: seq<Sector>, done: nat, p: Part)
    requires done < r.n && (r.status.Data? ==> |buf| == r.n) && cfg.alignment > 0 && MayHandle(cfg, r, buf, done, p)
    ensures p.kind.WriteZeroes? ==> !cfg.hasZeroInit
    ensures p.kind.Skip? ==> cfg.hasZeroInit || r.status.BackingFile?
  {
  }

  // -------------------------------------------------------------------- errors

  datatype Entry = Entry(i: nat, e: Event)

  // A run with its log.
  ghost predicate IsLog(cfg: Config, run: seq<State>, log: seq<Entry>)
    requires ValidConfig(cfg)
  {
    && |run| == |log| + 1 && Init(cfg, run[0])
    && forall k :: 0 <= k < |log| ==> HasHappened(cfg, run[k], run[k + 1], log[k])
  }

  ghost predicate HasHappened(cfg: Config, s: State, t: State, entry: Entry)
    requires ValidConfig(cfg)
  {
    Enabled(cfg, s, entry.i, entry.e) && t == Next(cfg, s, entry.i, entry.e)
  }

  // A status query or a read that is made may fail, with any error, and no other.
  lemma RequestsMayFail(cfg: Config, s: State, i: nat, error: int)
    requires ValidConfig(cfg) && i < |s.co| == |s.waitSectorNum|
    ensures Enabled(cfg, s, i, StatusFails(error)) <==> s.co[i].Querying? && s.cache.next <= s.sectorNum
    ensures Enabled(cfg, s, i, ReadFails(error)) <==>
      && OwnerAt(cfg, s, i) && s.co[i].at.Retrying? && s.co[i].range.status.Data?
      && !(s.copyRange && s.cache.status.Data?)
  {
  }

  // A write may fail whatever it writes, and copying may fail.
  lemma WritesMayFail(cfg: Config, s: State, i: nat, p: Part, error: int)
    requires ValidConfig(cfg) && i < |s.co| == |s.waitSectorNum|
    ensures Enabled(cfg, s, i, Write(p)) ==> Enabled(cfg, s, i, WriteFails(p, error, s.target))
    ensures Enabled(cfg, s, i, Copy) ==> Enabled(cfg, s, i, CopyFails(s.target))
  {
  }

  // A failed copy request is tried again by reading and writing, and is no error.
  function ErrorOf(e: Event): Option<int> {
    match e
    case StatusFails(error) => Some(error)
    case ReadFails(error) => Some(error)
    case WriteFails(_, error, _) => Some(error)
    case _ => None
  }

  function LastError(log: seq<Entry>): Option<int> {
    if log == [] then None
    else if ErrorOf(log[|log| - 1].e).Some? then ErrorOf(log[|log| - 1].e)
    else LastError(log[..|log| - 1])
  }

  lemma StepError(cfg: Config, s: State, i: nat, e: Event)
    requires ValidConfig(cfg) && Enabled(cfg, s, i, e)
    ensures var ret := Next(cfg, s, i, e).ret;
      if ErrorOf(e).Some? then ret == Failed(ErrorOf(e).value)
      else if s.ret.Failed? then ret == s.ret
      else !ret.Failed?
  {
  }

  // The conversion fails exactly if some request has failed, and with the error of
  // the last one that has.
  lemma {:induction false} LastErrorIsReturned(cfg: Config, run: seq<State>, log: seq<Entry>, k: nat)
    requires ValidConfig(cfg) && IsLog(cfg, run, log) && k <= |log|
    ensures var error := LastError(log[..k]);
      if error.Some? then run[k].ret == Failed(error.value) else !run[k].ret.Failed?
  {
    if k > 0 {
      LastErrorIsReturned(cfg, run, log, k - 1);
      assert HasHappened(cfg, run[k - 1], run[k - 1 + 1], log[k - 1]);
      StepError(cfg, run[k - 1], log[k - 1].i, log[k - 1].e);
      assert log[..k][..k - 1] == log[..k - 1];
    }
  }
}
