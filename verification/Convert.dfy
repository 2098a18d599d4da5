/**
 The multi-coroutine image converter (xemu/qemu-img.c:1657-2152).

 The coroutines are an interleaving step system over the shared conversion
 state.  A step runs a coroutine from one point where it may yield to the next;
 the outcome of block-status, read, write and copy requests is part of the event.
 Salvage mode is not part of this step system.
 */
module Convert {

  import opened Wrappers
  import opened IntMath
  import opened SparseScan
  import opened ConvertSource

  const REQUEST_MAX_SECTORS: nat := 4194303

  datatype BlockStatus = Data | Zero | BackingFile

  datatype Config = Config(
    srcs: seq<seq<Sector>>,
    srcAlignment: seq<nat>,
    before: seq<Sector>,          // what the target reads as before the conversion
    hasZeroInit: bool,
    compressed: bool,
    targetHasBacking: bool,
    targetBackingSectors: int,    // negative if unknown
    wrInOrder: bool,
    minSparse: nat,
    alignment: nat,
    clusterSectors: nat,
    bufSectors: nat)

  function Source(cfg: Config): seq<Sector> {
    Flatten(cfg.srcs)
  }

  function Total(cfg: Config): nat {
    |Source(cfg)|
  }

  // What the set-up code establishes (xemu/qemu-img.c:2594, 2675, 2820-2836,
  // 2839-2850, 2106-2112), and what it assumes of a target it calls zero
  // initialised and of a target backing file of known length.
  ghost predicate ValidConfig(cfg: Config) {
    && |cfg.srcAlignment| == |cfg.srcs|
    && (forall i :: 0 <= i < |cfg.srcAlignment| ==> cfg.srcAlignment[i] > 0)
    && |cfg.before| >= Total(cfg)
    && cfg.alignment > 0
    && cfg.bufSectors > 0
    && (cfg.compressed ==> cfg.clusterSectors == cfg.bufSectors)
    && (cfg.hasZeroInit ==> !cfg.targetHasBacking && AllZero(cfg.before))
    && (cfg.targetBackingSectors >= 0 ==>
          && cfg.targetHasBacking
          && forall j :: cfg.targetBackingSectors <= j < |cfg.before| ==> cfg.before[j] == ZERO)
  }

  // The answer of bdrv_block_status_above.
  datatype Response = Response(zero: bool, data: bool, count: nat)

  // A truthful answer about sectors of the source from sectorNum on.  Sectors
  // unallocated above the source's base read as that base; a target that is given a
  // backing file is assumed to read the same there.
  ghost predicate Truthful(cfg: Config, sectorNum: nat, limit: nat, r: Response)
    requires sectorNum < Total(cfg) <= |cfg.before|
  {
    var (cur, offset) := SelectPart(cfg.srcs, sectorNum);
    && 0 < r.count <= limit
    && sectorNum + r.count <= offset + |cfg.srcs[cur]|
    && sectorNum + r.count <= Total(cfg)
    && (forall j :: sectorNum <= j < sectorNum + r.count ==>
          && (r.zero ==> Source(cfg)[j] == ZERO)
          && (!r.zero && !r.data && cfg.targetHasBacking ==> Source(cfg)[j] == cfg.before[j]))
  }

  // What a status says about sector j.
  ghost predicate Describes(cfg: Config, status: BlockStatus, j: nat)
    requires j < Total(cfg) <= |cfg.before|
  {
    match status
    case Data => true
    case Zero => Source(cfg)[j] == ZERO
    case BackingFile => cfg.targetHasBacking && Source(cfg)[j] == cfg.before[j]
  }

  ghost predicate DescribesAll(cfg: Config, status: BlockStatus, lo: nat, hi: nat)
    requires Total(cfg) <= |cfg.before|
  {
    hi <= Total(cfg) && forall j :: lo <= j < hi ==> Describes(cfg, status, j)
  }

  // The request size of convert_iteration_sectors before the status is known.
  function RequestLimit(cfg: Config, sectorNum: nat): (n: nat)
    requires sectorNum < Total(cfg)
    ensures 0 < n <= Total(cfg) - sectorNum
    ensures 0 <= sectorNum < cfg.targetBackingSectors ==> sectorNum + n <= cfg.targetBackingSectors
  {
    var n := Min(Total(cfg) - sectorNum, REQUEST_MAX_SECTORS);
    if 0 <= sectorNum < cfg.targetBackingSectors && sectorNum + n > cfg.targetBackingSectors
    then cfg.targetBackingSectors - sectorNum
    else n
  }

  // The cached status: it holds up to sector next.
  datatype Cache = Cache(status: BlockStatus, next: nat)

  // The status cache after a query (1733-1797).
  function Refresh(cfg: Config, sectorNum: nat, r: Response): (c: Cache)
    requires ValidConfig(cfg) && sectorNum < Total(cfg)
    requires Truthful(cfg, sectorNum, RequestLimit(cfg, sectorNum), r)
    ensures sectorNum < c.next <= sectorNum + RequestLimit(cfg, sectorNum)
    ensures DescribesAll(cfg, c.status, sectorNum, c.next)
  {
    var (cur, offset) := SelectPart(cfg.srcs, sectorNum);
    var tail := (sectorNum - offset + r.count) % cfg.srcAlignment[cur];
    var n := if r.count > tail then r.count - tail else r.count;
    var postBackingZero := cfg.targetBackingSectors >= 0 && sectorNum >= cfg.targetBackingSectors;
    var status :=
      if r.zero then (if postBackingZero then BackingFile else Zero)
      else if r.data then Data
      else if cfg.targetHasBacking then BackingFile else Data;
    Cache(status, sectorNum + n)
  }

  // convert_iteration_sectors, given the cache after a query if one was needed:
  // the status and length of the next range.
  function Iterate(cfg: Config, sectorNum: nat, c: Cache): (r: (BlockStatus, nat))
    requires ValidConfig(cfg) && sectorNum < Total(cfg) && sectorNum < c.next
    requires DescribesAll(cfg, c.status, sectorNum, c.next)
    ensures var (status, n) := r;
      && 0 < n <= Total(cfg) - sectorNum
      && DescribesAll(cfg, status, sectorNum, sectorNum + n)
      && (status.Data? ==> n <= cfg.bufSectors)
      && DescribesAll(cfg, status, sectorNum, c.next)
  {
    var n := Min(RequestLimit(cfg, sectorNum), c.next - sectorNum);
    var n := if c.status.Data? then Min(n, cfg.bufSectors) else n;
    if !cfg.compressed then (c.status, n)
    else if n < cfg.clusterSectors then (Data, Min(cfg.clusterSectors, Total(cfg) - sectorNum))
    else (c.status, n - n % cfg.clusterSectors)
  }

  // ------------------------------------------------------------- step system

  // A range handed out to a coroutine.
  datatype Range = Range(start: nat, n: nat, status: BlockStatus)

  // Where a coroutine stands that owns a range.
  datatype Point =
    | Retrying                                       // 2022, the label retry
    | Ordering(copying: bool, buf: seq<Sector>)      // 2036, before the wait loop's test
    | Waiting(copying: bool, buf: seq<Sector>)       // 2040, yielded
    | Writing(buf: seq<Sector>, done: nat)           // in convert_co_write
    | Copying(done: nat)                             // in convert_co_copy_range
    | Advancing                                      // 2064

  datatype Coroutine =
    | NotStarted
    | AtLoop                                         // 1992
    | Querying                                       // 1998, holds the lock
    | Owner(range: Range, at: Point)
    | Finished

  datatype Ret = InProgress | Done | Failed(error: int)

  datatype State = State(
    co: seq<Coroutine>,
    waitSectorNum: seq<int>,
    sectorNum: nat,
    cache: Cache,                  // s->status and s->sector_next_status
    copyRange: bool,
    wrOffs: nat,
    running: int,
    lock: Option<nat>,
    ret: Ret,
    target: seq<Sector>,
    handedOut: seq<Range>)         // history: every range handed out, in order

  datatype Event =
    | Begin
    | EnterLoop
    | Status(r: Response)
    | StatusFails(error: int)
    | Read
    | ReadFails(error: int)
    | Order
    | Write(part: Part)
    | WriteFails(part: Part, werror: int, torn: seq<Sector>)
    | Copy
    | CopyFails(torn: seq<Sector>)
    | Advance

  function WriteAt(target: seq<Sector>, start: nat, data: seq<Sector>): (t: seq<Sector>)
    requires start + |data| <= |target|
    ensures |t| == |target|
    ensures forall j :: 0 <= j < |target| ==>
      t[j] == if start <= j < start + |data| then data[j - start] else target[j]
  {
    target[..start] + data + target[start + |data|..]
  }

  // A failed request may have written any part of its data.
  ghost predicate Torn(target: seq<Sector>, start: nat, data: seq<Sector>, t: seq<Sector>)
    requires start + |data| <= |target|
  {
    && |t| == |target|
    && forall j :: 0 <= j < |target| ==>
         t[j] == target[j] || (start <= j < start + |data| && t[j] == data[j - start])
  }

  // One turn of the loop of convert_co_write: how many sectors it handles, and
  // whether it writes the buffer, writes zeroes, or writes nothing.
  datatype Part = Part(n: nat, kind: PartKind)
  datatype PartKind = WriteBuffer | WriteZeroes | Skip

  function ZeroKind(cfg: Config): PartKind {
    if cfg.hasZeroInit then Skip else WriteZeroes
  }

  // The answer of is_allocated_sectors_min for the rest of the buffer.
  ghost function SparseAnswer(cfg: Config, rest: seq<Sector>, sector: nat): (answer: (bool, nat))
    requires cfg.alignment > 0 && rest != []
    ensures 0 < answer.1 <= |rest| && (answer.0 <==> !AllZero(rest[..answer.1]))
    ensures answer.1 < |rest| ==> EndsAligned(cfg, sector + answer.1)
  {
    AllocatedMinMeaning(rest, cfg.minSparse, sector, cfg.alignment);
    AllocatedMin(rest, cfg.minSparse, sector, cfg.alignment)
  }

  // The part of the buffer, after the first done sectors, that the code picks.
  ghost function WritePart(cfg: Config, r: Range, buf: seq<Sector>, done: nat): (p: Part)
    requires cfg.alignment > 0 && done < r.n
    requires r.status.Data? ==> |buf| == r.n
  {
    if r.status.Data? && cfg.minSparse > 0 && !cfg.compressed then
      SparsePart(cfg, SparseAnswer(cfg, buf[done..], r.start + done))
    else
      Part(r.n - done, WholeKind(cfg, r.status, if r.status.Data? then buf[done..] else []))
  }

  // Data that may be treated as zeroes.
  predicate IsZeroData(cfg: Config, data: seq<Sector>) {
    cfg.minSparse > 0 && AllZero(data)
  }

  // What happens to a part that is not searched for zeroes.
  function WholeKind(cfg: Config, status: BlockStatus, data: seq<Sector>): PartKind {
    match status
    case BackingFile => Skip
    case Zero => ZeroKind(cfg)
    case Data => if IsZeroData(cfg, data) then ZeroKind(cfg) else WriteBuffer
  }

  // The part to handle when is_allocated_sectors_min has answered.
  function SparsePart(cfg: Config, answer: (bool, nat)): Part {
    Part(answer.1, if answer.0 then WriteBuffer else ZeroKind(cfg))
  }

  predicate EndsAligned(cfg: Config, sector: nat)
    requires cfg.alignment > 0
  {
    sector % cfg.alignment == 0
  }

  // The parts a turn may handle.  Only data that is searched for zeroes is split,
  // at aligned sectors of the target, and compressed data never is.
  ghost predicate MayHandle(cfg: Config, r: Range, buf: seq<Sector>, done: nat, p: Part)
    requires done < r.n && (r.status.Data? ==> |buf| == r.n) && cfg.alignment > 0
  {
    && 0 < p.n <= r.n - done
    && (p.n < r.n - done ==> r.status.Data? && cfg.minSparse > 0 && !cfg.compressed && EndsAligned(cfg, r.start + done + p.n))
    && match r.status
       case BackingFile => p.kind.Skip?
       case Zero => p.kind == ZeroKind(cfg)
       case Data => p.kind == if IsZeroData(cfg, buf[done..done + p.n]) then ZeroKind(cfg) else WriteBuffer
  }

  lemma RestOfBuffer(buf: seq<Sector>, done: nat, n: nat)
    requires done + n <= |buf|
    ensures buf[done..][..n] == buf[done..done + n]
  {
  }

  lemma SparseMayHandle(cfg: Config, r: Range, buf: seq<Sector>, done: nat, answer: (bool, nat))
    requires done < r.n == |buf| && r.status.Data? && cfg.minSparse > 0 && !cfg.compressed && cfg.alignment > 0
    requires 0 < answer.1 <= r.n - done && (answer.0 <==> !AllZero(buf[done..][..answer.1]))
    requires answer.1 < r.n - done ==> EndsAligned(cfg, r.start + done + answer.1)
    ensures MayHandle(cfg, r, buf, done, SparsePart(cfg, answer))
  {
    RestOfBuffer(buf, done, answer.1);
  }

  lemma WholeMayHandle(cfg: Config, r: Range, buf: seq<Sector>, done: nat, data: seq<Sector>)
    requires done < r.n && cfg.alignment > 0 && (r.status.Data? ==> |buf| == r.n && data == buf[done..])
    ensures MayHandle(cfg, r, buf, done, Part(r.n - done, WholeKind(cfg, r.status, data)))
  {
    if r.status.Data? {
      assert data == buf[done..done + (r.n - done)];
    }
  }

  lemma SparseCodeMayHandle(cfg: Config, r: Range, buf: seq<Sector>, done: nat)
    requires cfg.alignment > 0 && done < r.n == |buf| && r.status.Data? && cfg.minSparse > 0 && !cfg.compressed
    ensures MayHandle(cfg, r, buf, done, SparsePart(cfg, SparseAnswer(cfg, buf[done..], r.start + done)))
  {
    SparseMayHandle(cfg, r, buf, done, SparseAnswer(cfg, buf[done..], r.start + done));
  }

  // The parts the code picks are among them.
  lemma CodeMayHandle(cfg: Config, r: Range, buf: seq<Sector>, done: nat)
    requires cfg.alignment > 0 && done < r.n && (r.status.Data? ==> |buf| == r.n)
    ensures MayHandle(cfg, r, buf, done, WritePart(cfg, r, buf, done))
  {
    if r.status.Data? && cfg.minSparse > 0 && !cfg.compressed {
      SparseCodeMayHandle(cfg, r, buf, done);
    } else {
      WholeMayHandle(cfg, r, buf, done, if r.status.Data? then buf[done..] else []);
    }
  }

  // What a turn writes, if it writes at all.
  function PartData(p: Part, buf: seq<Sector>, done: nat): (data: seq<Sector>)
    requires p.kind.WriteBuffer? ==> done + p.n <= |buf|
    ensures |data| == if p.kind.Skip? then 0 else p.n
  {
    match p.kind
    case WriteBuffer => buf[done..done + p.n]
    case WriteZeroes => seq(p.n, _ => ZERO)
    case Skip => []
  }

  // One turn of the loop of convert_co_copy_range: it stays within one image.
  function CopyLength(cfg: Config, r: Range, done: nat): (m: nat)
    requires done < r.n && r.start + r.n <= Total(cfg)
    ensures 0 < m <= r.n - done
  {
    var (cur, offset) := SelectPart(cfg.srcs, r.start + done);
    Min(r.n - done, |cfg.srcs[cur]| - (r.start + done - offset))
  }

  // The first coroutine, from i on, that waits for offset offs.
  function Waiter(s: State, offs: nat, i: nat): (w: Option<nat>)
    requires i <= |s.co| == |s.waitSectorNum|
    ensures w.Some? ==> w.value < |s.co| && s.waitSectorNum[w.value] == offs
    ensures w.Some? ==> !s.co[w.value].NotStarted? && !s.co[w.value].Finished?
    ensures w.None? ==> forall j :: i <= j < |s.co| && s.waitSectorNum[j] == offs ==>
                          s.co[j].NotStarted? || s.co[j].Finished?
    decreases |s.co| - i
  {
    if i == |s.co| then None
    else if !s.co[i].NotStarted? && !s.co[i].Finished? && s.waitSectorNum[i] == offs then Some(i)
    else Waiter(s, offs, i + 1)
  }

  ghost predicate OwnerAt(cfg: Config, s: State, i: nat)
    requires i < |s.co|
  {
    s.co[i].Owner? && s.co[i].range.start + s.co[i].range.n <= Total(cfg) <= |s.target|
  }

  ghost predicate WriterAt(cfg: Config, s: State, i: nat)
    requires i < |s.co|
  {
    && OwnerAt(cfg, s, i)
    && s.co[i].at.Writing?
    && s.co[i].at.done < s.co[i].range.n
    && (s.co[i].range.status.Data? ==> |s.co[i].at.buf| == s.co[i].range.n)
  }

  ghost predicate CopierAt(cfg: Config, s: State, i: nat)
    requires i < |s.co|
  {
    OwnerAt(cfg, s, i) && s.co[i].at.Copying? && s.co[i].at.done < s.co[i].range.n
  }

  ghost predicate HandlesPart(cfg: Config, s: State, i: nat, p: Part)
    requires i < |s.co| && cfg.alignment > 0
  {
    WriterAt(cfg, s, i) && MayHandle(cfg, s.co[i].range, s.co[i].at.buf, s.co[i].at.done, p)
  }

  ghost function CopierData(cfg: Config, s: State, i: nat): (data: seq<Sector>)
    requires i < |s.co| && CopierAt(cfg, s, i)
    ensures 0 < |data| <= s.co[i].range.n - s.co[i].at.done
    ensures data == Source(cfg)[s.co[i].range.start + s.co[i].at.done..][..|data|]
  {
    var c := s.co[i];
    Source(cfg)[c.range.start + c.at.done..][..CopyLength(cfg, c.range, c.at.done)]
  }

  function CopiesRange(s: State): bool {
    s.copyRange && s.cache.status.Data?
  }

  ghost predicate Enabled(cfg: Config, s: State, i: nat, e: Event)
    requires ValidConfig(cfg)
  {
    && i < |s.co| == |s.waitSectorNum|
    && var c := s.co[i];
    match e
    case Begin => c.NotStarted?
    case EnterLoop => c.AtLoop? && s.lock.None?
    case Status(r) =>
      && c.Querying? && s.sectorNum < Total(cfg)
      && (s.cache.next <= s.sectorNum ==> Truthful(cfg, s.sectorNum, RequestLimit(cfg, s.sectorNum), r))
      && (s.cache.next > s.sectorNum ==> DescribesAll(cfg, s.cache.status, s.sectorNum, s.cache.next))
    case StatusFails(_) => c.Querying? && s.cache.next <= s.sectorNum
    case Read => OwnerAt(cfg, s, i) && c.at.Retrying?
    case ReadFails(_) => OwnerAt(cfg, s, i) && c.at.Retrying? && c.range.status.Data? && !CopiesRange(s)
    case Order => OwnerAt(cfg, s, i) && c.at.Ordering?
    case Write(p) => HandlesPart(cfg, s, i, p)
    case WriteFails(p, _, torn) =>
      && HandlesPart(cfg, s, i, p)
      && Torn(s.target, c.range.start + c.at.done, PartData(p, c.at.buf, c.at.done), torn)
    case Copy => CopierAt(cfg, s, i)
    case CopyFails(torn) =>
      && CopierAt(cfg, s, i)
      && Torn(s.target, c.range.start + c.at.done, CopierData(cfg, s, i), torn)
    case Advance => OwnerAt(cfg, s, i) && c.at.Advancing?
  }

  function Put(s: State, i: nat, c: Coroutine): State
    requires i < |s.co|
  {
    s.(co := s.co[i := c])
  }

  // Leaving the loop: the last coroutine turns a conversion in progress into a
  // successful one (2084-2087).
  function Finish(s: State, i: nat): State
    requires i < |s.co|
  {
    var running := s.running - 1;
    Put(s, i, Finished).(running := running,
                         ret := if running == 0 && s.ret.InProgress? then Done else s.ret)
  }

  // Handing out the next range (1998-2014).
  ghost function HandOut(cfg: Config, s: State, i: nat, r: Response): State
    requires ValidConfig(cfg) && Enabled(cfg, s, i, Status(r))
  {
    var c := if s.cache.next <= s.sectorNum then Refresh(cfg, s.sectorNum, r) else s.cache;
    var (status, n) := Iterate(cfg, s.sectorNum, c);
    var n := if cfg.minSparse == 0 && status.Zero? then Min(n, cfg.bufSectors) else n;
    var range := Range(s.sectorNum, n, status);
    Put(s, i, Owner(range, Retrying)).(
      lock := None,
      sectorNum := s.sectorNum + n,
      cache := Cache(status, c.next),
      handedOut := s.handedOut + [range])
  }

  // Filling the buffer (2023-2034).
  function Fill(cfg: Config, s: State, r: Range): Coroutine
    requires r.start + r.n <= Total(cfg)
  {
    if r.status.Data? && !CopiesRange(s) then
      Owner(r, Ordering(false, Source(cfg)[r.start..r.start + r.n]))
    else if cfg.minSparse == 0 && r.status.Zero? then
      Owner(r.(status := Data), Ordering(CopiesRange(s), seq(r.n, _ => ZERO)))
    else
      Owner(r, Ordering(CopiesRange(s), []))
  }

  // The wait loop's test and the test of s->ret behind it (2036-2046).
  function Proceed(cfg: Config, s: State, i: nat): State
    requires i < |s.co| == |s.waitSectorNum| && s.co[i].Owner? && s.co[i].at.Ordering?
  {
    var r := s.co[i].range;
    var (copying, buf) := (s.co[i].at.copying, s.co[i].at.buf);
    if cfg.wrInOrder && s.wrOffs != r.start && s.ret.InProgress? then
      Put(s, i, Owner(r, Waiting(copying, buf))).(waitSectorNum := s.waitSectorNum[i := r.start])
    else
      var next := if !s.ret.InProgress? then Advancing
                  else if copying then Copying(0)
                  else Writing(buf, 0);
      var t := Put(s, i, Owner(r, next));
      if cfg.wrInOrder then t.(waitSectorNum := s.waitSectorNum[i := -1]) else t
  }

  // Entering a waiting coroutine: it leaves its wait loop at once.
  function Wake(s: State, w: nat): State
    requires w < |s.co| == |s.waitSectorNum|
  {
    var c := s.co[w];
    if c.Owner? && c.at.Waiting? then
      Put(s, w, Owner(c.range, Ordering(c.at.copying, c.at.buf))).(waitSectorNum := s.waitSectorNum[w := -1])
    else s
  }

  // The end of an iteration (2064-2081).
  function AdvanceOffset(cfg: Config, s: State, i: nat): State
    requires i < |s.co| == |s.waitSectorNum| && s.co[i].Owner?
  {
    var r := s.co[i].range;
    if !cfg.wrInOrder then Put(s, i, AtLoop)
    else
      var t := s.(wrOffs := r.start + r.n);
      var w := Waiter(t, t.wrOffs, 0);
      Put(if w.Some? then Wake(t, w.value) else t, i, AtLoop)
  }

  function AfterPart(r: Range, at: Point, done: nat): Coroutine {
    Owner(r, if done == r.n then Advancing else at)
  }

  ghost function Next(cfg: Config, s: State, i: nat, e: Event): State
    requires ValidConfig(cfg) && Enabled(cfg, s, i, e)
  {
    var c := s.co[i];
    match e
    case Begin => Put(s, i, AtLoop).(waitSectorNum := s.waitSectorNum[i := -1], running := s.running + 1)
    case EnterLoop =>
      if !s.ret.InProgress? || s.sectorNum >= Total(cfg) then Finish(s, i)
      else Put(s, i, Querying).(lock := Some(i))
    case Status(r) => HandOut(cfg, s, i, r)
    case StatusFails(error) => Finish(s.(lock := None, ret := Failed(error)), i)
    case Read => Put(s, i, Fill(cfg, s, c.range))
    case ReadFails(error) => Put(s, i, Owner(c.range, Ordering(false, []))).(ret := Failed(error))
    case Order => Proceed(cfg, s, i)
    case Write(p) =>
      var data := PartData(p, c.at.buf, c.at.done);
      var done := c.at.done + p.n;
      Put(s, i, AfterPart(c.range, Writing(c.at.buf, done), done))
        .(target := WriteAt(s.target, c.range.start + c.at.done, data))
    case WriteFails(_, error, torn) =>
      Put(s, i, Owner(c.range, Advancing)).(ret := Failed(error), target := torn)
    case Copy =>
      var data := CopierData(cfg, s, i);
      var done := c.at.done + |data|;
      Put(s, i, AfterPart(c.range, Copying(done), done))
        .(target := WriteAt(s.target, c.range.start + c.at.done, data))
    case CopyFails(torn) =>
      Put(s, i, Owner(c.range, Retrying)).(copyRange := false, target := torn)
    case Advance => AdvanceOffset(cfg, s, i)
  }

  ghost predicate Init(cfg: Config, s: State) {
    && |s.co| == |s.waitSectorNum|
    && (forall i :: 0 <= i < |s.co| ==> s.co[i].NotStarted?)
    && s.sectorNum == 0 && s.cache.next == 0 && s.wrOffs == 0 && s.running == 0
    && s.lock == None && s.ret == InProgress && s.target == cfg.before && s.handedOut == []
    && (cfg.compressed ==> !s.copyRange)      // 2505
  }

  ghost predicate IsRun(cfg: Config, run: seq<State>)
    requires ValidConfig(cfg)
  {
    && |run| > 0
    && Init(cfg, run[0])
    && forall k :: 0 <= k < |run| - 1 ==> Step(cfg, run[k], run[k + 1])
  }

  ghost predicate Step(cfg: Config, s: State, t: State)
    requires ValidConfig(cfg)
  {
    exists i, e :: Enabled(cfg, s, i, e) && t == Next(cfg, s, i, e)
  }
}
