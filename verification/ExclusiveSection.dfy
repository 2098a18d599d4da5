/**
 The exclusive-section protocol of the vCPU threads (xemu/cpu-common.c:183-325).

 Every CPU is driven by its own thread.  A thread alternates between running
 guest code, bracketed by cpu_exec_start and cpu_exec_end, and being outside,
 where it may call start_exclusive and end_exclusive.  The protocol is modelled
 as an interleaving step system: one step performs one access to a shared
 variable, one lock or condition-variable operation, or one call.  The full
 barriers of the source make sequential consistency the right memory model.
 */
module ExclusiveSection {

  import opened Wrappers
  import opened IntMath

  // The next statement of a thread.  The comments give the source lines.
  datatype Pc =
    | Outside
    | Start(start: StartPc)       // in start_exclusive
    | Exclusive                   // start_exclusive has returned
    | End(end: EndPc)             // in the outermost end_exclusive
    | Exec(exec: ExecPc)          // in cpu_exec_start
    | Executing                   // cpu_exec_start has returned
    | Leave(leave: LeavePc)       // in cpu_exec_end

  datatype StartPc =
    | StartLock                                // 205
    | StartIdle                                // 185, called from 206
    | StartIdleAsleep                          // 186, on exclusive_resume
    | StartIdleWoken                           // 186, reacquiring the lock
    | StartAnnounce                            // 209
    | StartScan(next: nat, runningCpus: nat)   // 214-220
    | StartPublish(runningCpus: nat)           // 222
    | StartTest                                // 223
    | StartAsleep                              // 224, on exclusive_cond
    | StartWoken                               // 224, reacquiring the lock
    | StartUnlock                              // 230-232

  datatype EndPc =
    | EndLock                                  // 243
    | EndReset                                 // 244
    | EndBroadcast                             // 245
    | EndUnlock                                // 246

  datatype ExecPc =
    | ExecSet                                  // 254
    | ExecRead                                 // 272
    | ExecLock                                 // 273
    | ExecTest                                 // 274
    | ExecClear                                // 279
    | ExecIdle                                 // 185, called from 280
    | ExecIdleAsleep                           // 186, on exclusive_resume
    | ExecIdleWoken                            // 186, reacquiring the lock
    | ExecSetAgain                             // 282
    | ExecUnlock                               // end of the lock guard

  datatype LeavePc =
    | LeaveRead                                // 314
    | LeaveLock                                // 315
    | LeaveTest                                // 316-317
    | LeaveDecrement                           // 318
    | LeaveSignal                              // 319-320
    | LeaveUnlock                              // end of the lock guard

  datatype State = State(
    pc: seq<Pc>,
    running: set<nat>,         // the CPUs whose running flag is set
    hasWaiter: set<nat>,       // the CPUs whose has_waiter flag is set
    contextCount: seq<nat>,    // exclusive_context_count of each CPU
    pendingCpus: int,
    lock: Option<nat>)         // holder of qemu_cpu_list_lock

  datatype Action =
    | StartExclusive           // call start_exclusive
    | EndExclusive             // call end_exclusive
    | ExecStart                // call cpu_exec_start
    | ExecEnd                  // call cpu_exec_end, clearing running (294)
    | Continue                 // perform the next statement of the current call
    | Wake(sleeper: nat)       // 320: signal exclusive_cond, waking sleeper
    | Spurious                 // a condition wait returns without a signal

  predicate WantsLock(p: Pc) {
    match p
    case Start(q) => q.StartLock? || q.StartIdleWoken? || q.StartWoken?
    case End(q) => q.EndLock?
    case Exec(q) => q.ExecLock? || q.ExecIdleWoken?
    case Leave(q) => q.LeaveLock?
    case _ => false
  }

  // Waiting on exclusive_resume.
  predicate AwaitsResume(p: Pc) {
    p == Start(StartIdleAsleep) || p == Exec(ExecIdleAsleep)
  }

  predicate Asleep(p: Pc) {
    AwaitsResume(p) || p == Start(StartAsleep)
  }

  predicate Idle(p: Pc) {
    p.Outside? || p.Exclusive? || p.Executing?
  }

  predicate IsCpu(s: State, c: nat) {
    c < |s.pc| == |s.contextCount|
  }

  predicate Enabled(s: State, c: nat, a: Action)
  {
    && IsCpu(s, c)
    && var p := s.pc[c];
    match a
    case StartExclusive => p.Outside? || p.Exclusive?
    case EndExclusive => p.Exclusive? && s.contextCount[c] > 0
    case ExecStart => p.Outside?
    case ExecEnd => p.Executing?
    case Spurious => Asleep(p)
    case Wake(w) => p == Leave(LeaveSignal) && s.pendingCpus == 1 && w < |s.pc| && s.pc[w] == Start(StartAsleep)
    case Continue =>
      && !Idle(p)
      && !Asleep(p)
      && (WantsLock(p) ==> s.lock.None?)
      // A signal is lost only when nobody sleeps.
      && (p == Leave(LeaveSignal) && s.pendingCpus == 1 ==>
            forall w :: 0 <= w < |s.pc| ==> s.pc[w] != Start(StartAsleep))
  }

  function At(s: State, c: nat, p: Pc): (t: State)
    requires c < |s.pc|
  {
    s.(pc := s.pc[c := p])
  }

  function WokenUp(p: Pc): Pc {
    match p
    case Start(StartIdleAsleep) => Start(StartIdleWoken)
    case Start(StartAsleep) => Start(StartWoken)
    case Exec(ExecIdleAsleep) => Exec(ExecIdleWoken)
    case _ => p
  }

  // Wakes every thread that waits on exclusive_resume.
  function BroadcastResume(pc: seq<Pc>): (r: seq<Pc>)
    ensures |r| == |pc|
    ensures forall i :: 0 <= i < |pc| ==> r[i] == if AwaitsResume(pc[i]) then WokenUp(pc[i]) else pc[i]
  {
    seq(|pc|, i requires 0 <= i < |pc| => if AwaitsResume(pc[i]) then WokenUp(pc[i]) else pc[i])
  }

  // A step of c adds no CPU to the machine, sets no running flag but its own, sets
  // has_waiter only of existing CPUs, and takes the lock only for itself.
  ghost predicate SameCpus(s: State, t: State, c: nat) {
    && |t.pc| == |s.pc| && |t.contextCount| == |s.contextCount|
    && t.running <= s.running + {c}
    && (forall d :: d in t.hasWaiter ==> d in s.hasWaiter || d < |s.pc|)
    && (t.lock == s.lock || t.lock == None || t.lock == Some(c))
  }

  // The next statement of start_exclusive.
  function ExecuteStart(s: State, c: nat): (t: State)
    requires Enabled(s, c, Continue) && s.pc[c].Start?
    ensures SameCpus(s, t, c)
  {
    match s.pc[c].start
    case StartLock => At(s, c, Start(StartIdle)).(lock := Some(c))
    case StartIdle =>
      if s.pendingCpus != 0 then At(s, c, Start(StartIdleAsleep)).(lock := None)
      else At(s, c, Start(StartAnnounce))
    case StartIdleWoken => At(s, c, Start(StartIdle)).(lock := Some(c))
    case StartAnnounce => At(s, c, Start(StartScan(0, 0))).(pendingCpus := 1)
    case StartScan(next, running) =>
      if next >= |s.pc| then At(s, c, Start(StartPublish(running)))
      else if next in s.running then
        At(s, c, Start(StartScan(next + 1, running + 1))).(hasWaiter := s.hasWaiter + {next})
      else At(s, c, Start(StartScan(next + 1, running)))
    case StartPublish(running) => At(s, c, Start(StartTest)).(pendingCpus := running + 1)
    case StartTest =>
      if s.pendingCpus > 1 then At(s, c, Start(StartAsleep)).(lock := None)
      else At(s, c, Start(StartUnlock))
    case StartWoken => At(s, c, Start(StartTest)).(lock := Some(c))
    case StartUnlock => At(s, c, Exclusive).(lock := None, contextCount := s.contextCount[c := 1])
  }

  // The next statement of the outermost end_exclusive.
  function ExecuteEnd(s: State, c: nat): (t: State)
    requires Enabled(s, c, Continue) && s.pc[c].End?
    ensures SameCpus(s, t, c)
  {
    match s.pc[c].end
    case EndLock => At(s, c, End(EndReset)).(lock := Some(c))
    case EndReset => At(s, c, End(EndBroadcast)).(pendingCpus := 0)
    case EndBroadcast => s.(pc := BroadcastResume(s.pc)[c := End(EndUnlock)])
    case EndUnlock => At(s, c, Outside).(lock := None)
  }

  // The next statement of cpu_exec_start.
  function ExecuteExec(s: State, c: nat): (t: State)
    requires Enabled(s, c, Continue) && s.pc[c].Exec?
    ensures SameCpus(s, t, c)
  {
    match s.pc[c].exec
    case ExecSet => At(s, c, Exec(ExecRead)).(running := s.running + {c})
    case ExecRead => if s.pendingCpus != 0 then At(s, c, Exec(ExecLock)) else At(s, c, Executing)
    case ExecLock => At(s, c, Exec(ExecTest)).(lock := Some(c))
    case ExecTest => At(s, c, Exec(if c in s.hasWaiter then ExecUnlock else ExecClear))
    case ExecClear => At(s, c, Exec(ExecIdle)).(running := s.running - {c})
    case ExecIdle =>
      if s.pendingCpus != 0 then At(s, c, Exec(ExecIdleAsleep)).(lock := None)
      else At(s, c, Exec(ExecSetAgain))
    case ExecIdleWoken => At(s, c, Exec(ExecIdle)).(lock := Some(c))
    case ExecSetAgain => At(s, c, Exec(ExecUnlock)).(running := s.running + {c})
    case ExecUnlock => At(s, c, Executing).(lock := None)
  }

  // The next statement of cpu_exec_end.
  function ExecuteLeave(s: State, c: nat): (t: State)
    requires Enabled(s, c, Continue) && s.pc[c].Leave?
    ensures SameCpus(s, t, c)
  {
    match s.pc[c].leave
    case LeaveRead => if s.pendingCpus != 0 then At(s, c, Leave(LeaveLock)) else At(s, c, Outside)
    case LeaveLock => At(s, c, Leave(LeaveTest)).(lock := Some(c))
    case LeaveTest =>
      if c in s.hasWaiter then At(s, c, Leave(LeaveDecrement)).(hasWaiter := s.hasWaiter - {c})
      else At(s, c, Leave(LeaveUnlock))
    case LeaveDecrement => At(s, c, Leave(LeaveSignal)).(pendingCpus := s.pendingCpus - 1)
    case LeaveSignal => At(s, c, Leave(LeaveUnlock))
    case LeaveUnlock => At(s, c, Outside).(lock := None)
  }

  function Do(s: State, c: nat, a: Action): (t: State)
    requires Enabled(s, c, a)
    ensures SameCpus(s, t, c)
  {
    match a
    case StartExclusive =>
      if s.contextCount[c] > 0 then s.(contextCount := s.contextCount[c := s.contextCount[c] + 1])
      else At(s, c, Start(StartLock))
    case EndExclusive =>
      var t := s.(contextCount := s.contextCount[c := s.contextCount[c] - 1]);
      if s.contextCount[c] > 1 then t else At(t, c, End(EndLock))
    case ExecStart => At(s, c, Exec(ExecSet))
    case ExecEnd => At(s, c, Leave(LeaveRead)).(running := s.running - {c})
    case Spurious => At(s, c, WokenUp(s.pc[c]))
    case Wake(w) => At(At(s, w, Start(StartWoken)), c, Leave(LeaveUnlock))
    case Continue =>
      match s.pc[c]
      case Start(_) => ExecuteStart(s, c)
      case End(_) => ExecuteEnd(s, c)
      case Exec(_) => ExecuteExec(s, c)
      case Leave(_) => ExecuteLeave(s, c)
  }

  ghost predicate Init(s: State) {
    && |s.pc| == |s.contextCount|
    && (forall c :: 0 <= c < |s.pc| ==> s.pc[c] == Outside)
    && (forall c :: 0 <= c < |s.contextCount| ==> s.contextCount[c] == 0)
    && s.running == {} && s.hasWaiter == {} && s.pendingCpus == 0 && s.lock == None
  }

  ghost predicate Step(s: State, t: State) {
    exists c, a :: Enabled(s, c, a) && t == Do(s, c, a)
  }

  ghost predicate IsRun(run: seq<State>) {
    && |run| > 0
    && Init(run[0])
    && forall i :: 0 <= i < |run| - 1 ==> Step(run[i], run[i + 1])
  }

  // ---------------------------------------------------------------- invariant

  // The thread for which pending_cpus is non-zero.
  predicate Owns(p: Pc) {
    match p
    case Start(q) => q.StartScan? || q.StartPublish? || WaitsForCpus(q) || q.StartUnlock?
    case Exclusive => true
    case End(q) => q.EndLock? || q.EndReset?
    case _ => false
  }

  // In the wait loop of start_exclusive.
  predicate WaitsForCpus(q: StartPc) {
    q.StartTest? || q.StartAsleep? || q.StartWoken?
  }

  // The wait loop of start_exclusive is over, and pending_cpus not yet reset.
  predicate Entered(p: Pc) {
    p == Start(StartUnlock) || p.Exclusive? || p == End(EndLock) || p == End(EndReset)
  }

  predicate HoldsLock(p: Pc) {
    match p
    case Start(q) =>
      q.StartIdle? || q.StartAnnounce? || q.StartScan? || q.StartPublish? || q.StartTest? || q.StartUnlock?
    case End(q) => !q.EndLock?
    case Exec(q) => q.ExecTest? || q.ExecClear? || q.ExecIdle? || q.ExecSetAgain? || q.ExecUnlock?
    case Leave(q) => q.LeaveTest? || q.LeaveDecrement? || q.LeaveSignal? || q.LeaveUnlock?
    case _ => false
  }

  // The program points at which the running flag is set.  It is set while a
  // thread is merely trying to start executing, so it does not tell who executes.
  predicate RunningAt(p: Pc) {
    match p
    case Exec(q) => q.ExecRead? || q.ExecLock? || q.ExecTest? || q.ExecClear? || q.ExecUnlock?
    case Executing => true
    case _ => false
  }

  // The program points at which has_waiter may be set.
  predicate CountableAt(p: Pc) {
    match p
    case Exec(q) => q.ExecRead? || q.ExecLock? || q.ExecTest? || q.ExecUnlock?
    case Executing => true
    case Leave(q) => q.LeaveRead? || q.LeaveLock? || q.LeaveTest?
    case _ => false
  }

  predicate HolderAt(s: State, p: Pc) {
    s.lock.Some? && s.lock.value < |s.pc| && s.pc[s.lock.value] == p
  }

  // start_exclusive, being at p, has looked at the running flag of CPU c.
  predicate Scanned(p: Pc, c: nat) {
    p.Start? && p.start.StartScan? ==> c < p.start.next
  }

  // What holds of every CPU d, given the owner of the exclusive section.
  ghost predicate CpuInv(s: State, owner: Option<nat>, d: nat)
    requires d < |s.pc| == |s.contextCount|
    requires owner.Some? ==> owner.value < |s.pc|
  {
    var p := s.pc[d];
    && (HoldsLock(p) <==> s.lock == Some(d))
    && (RunningAt(p) <==> d in s.running)
    && (p.Exclusive? <==> s.contextCount[d] > 0)
    && (d in s.hasWaiter ==> CountableAt(p))
    && (Owns(p) <==> owner == Some(d))
    && (p.Executing? && owner.Some? && Scanned(s.pc[owner.value], d) ==> d in s.hasWaiter)
    && (p == Exec(ExecUnlock) ==> owner.None? || d in s.hasWaiter)
    && (p == Exec(ExecSetAgain) || p == Start(StartAnnounce) ==> owner.None?)
    && (p == End(EndBroadcast) || p == End(EndUnlock) ==> owner.None?)
    && (p == Leave(LeaveDecrement) || p == Leave(LeaveSignal) ==>
          owner.Some? && (s.pc[owner.value] == Start(StartAsleep) || s.pc[owner.value] == Start(StartWoken)))
    && (AwaitsResume(p) ==> owner.Some? || HolderAt(s, End(EndBroadcast)))
  }

  // What pending_cpus and has_waiter say about the owner, and the owner about them.
  ghost predicate Counted(s: State, owner: Option<nat>)
    requires owner.Some? ==> owner.value < |s.pc|
  {
    match owner
    case None => s.pendingCpus == 0 && s.hasWaiter == {}
    case Some(k) =>
      && (Entered(s.pc[k]) ==> s.pendingCpus == 1 && s.hasWaiter == {})
      && (s.pc[k].Start? ==> CountedWhile(s, s.pc[k].start))
  }

  // The same while the owner is still in start_exclusive, at q.
  ghost predicate CountedWhile(s: State, q: StartPc) {
    && (q.StartScan? ==> s.pendingCpus == 1 && |s.hasWaiter| == q.runningCpus && q.next <= |s.pc|
                         && forall c :: c in s.hasWaiter ==> c < q.next)
    && (q.StartPublish? ==> s.pendingCpus == 1 && |s.hasWaiter| == q.runningCpus)
    && (WaitsForCpus(q) ==>
          s.pendingCpus == 1 + |s.hasWaiter| + if HolderAt(s, Leave(LeaveDecrement)) then 1 else 0)
    && (q.StartAsleep? ==> s.pendingCpus > 1 || HolderAt(s, Leave(LeaveSignal)))
  }

  ghost predicate InvFor(s: State, owner: Option<nat>) {
    && InRange(s, owner)
    && Counted(s, owner)
    && (forall d: nat :: d < |s.pc| ==> CpuInv(s, owner, d))
  }

  ghost predicate Inv(s: State) {
    exists owner :: InvFor(s, owner)
  }

  // The owner after CPU c takes its next step.
  function NextOwner(s: State, c: nat, a: Action, owner: Option<nat>): Option<nat>
    requires c < |s.pc|
  {
    if a.Continue? && s.pc[c] == Start(StartAnnounce) then Some(c)
    else if a.Continue? && s.pc[c] == End(EndReset) then None
    else owner
  }

  // The part of the invariant that a step of c needs to keep CpuInv for d.
  ghost predicate Relevant(s: State, owner: Option<nat>, c: nat, d: nat) {
    && c < |s.pc| == |s.contextCount|
    && d < |s.pc|
    && (s.lock.Some? ==> s.lock.value < |s.pc|)
    && (owner.Some? ==> owner.value < |s.pc|)
    && Counted(s, owner)
    && CpuInv(s, owner, c)
    && CpuInv(s, owner, d)
    && (owner.Some? ==> CpuInv(s, owner, owner.value))
    && (s.lock.Some? ==> CpuInv(s, owner, s.lock.value))
  }

  lemma StartSelf(s: State, c: nat, owner: Option<nat>)
    requires Relevant(s, owner, c, c) && Enabled(s, c, Continue) && s.pc[c].Start?
    ensures CpuInv(Do(s, c, Continue), NextOwner(s, c, Continue, owner), c)
  {
  }

  lemma ScanOther(s: State, c: nat, owner: Option<nat>, d: nat)
    requires Relevant(s, owner, c, d) && d != c && Enabled(s, c, Continue)
    requires s.pc[c].Start? && s.pc[c].start.StartScan?
    ensures CpuInv(Do(s, c, Continue), owner, d)
  {
  }

  lemma StartOther(s: State, c: nat, owner: Option<nat>, d: nat)
    requires Relevant(s, owner, c, d) && d != c && Enabled(s, c, Continue)
    requires s.pc[c].Start? && !s.pc[c].start.StartScan?
    ensures CpuInv(Do(s, c, Continue), NextOwner(s, c, Continue, owner), d)
  {
  }

  lemma EndSelf(s: State, c: nat, owner: Option<nat>)
    requires Relevant(s, owner, c, c) && Enabled(s, c, Continue) && s.pc[c].End?
    ensures CpuInv(Do(s, c, Continue), NextOwner(s, c, Continue, owner), c)
  {
  }

  lemma EndOther(s: State, c: nat, owner: Option<nat>, d: nat)
    requires Relevant(s, owner, c, d) && d != c && Enabled(s, c, Continue) && s.pc[c].End?
    ensures CpuInv(Do(s, c, Continue), NextOwner(s, c, Continue, owner), d)
  {
  }

  // The steps of cpu_exec_start that change the running flag.
  predicate SetsRunning(q: ExecPc) {
    q.ExecSet? || q.ExecClear? || q.ExecSetAgain?
  }

  lemma ExecFlagSelf(s: State, c: nat, owner: Option<nat>)
    requires Relevant(s, owner, c, c) && Enabled(s, c, Continue) && s.pc[c].Exec? && SetsRunning(s.pc[c].exec)
    ensures CpuInv(Do(s, c, Continue), owner, c)
  {
  }

  lemma ExecSelf(s: State, c: nat, owner: Option<nat>)
    requires Relevant(s, owner, c, c) && Enabled(s, c, Continue) && s.pc[c].Exec?
    ensures CpuInv(Do(s, c, Continue), NextOwner(s, c, Continue, owner), c)
  {
    if SetsRunning(s.pc[c].exec) {
      ExecFlagSelf(s, c, owner);
    }
  }

  lemma ExecOther(s: State, c: nat, owner: Option<nat>, d: nat)
    requires Relevant(s, owner, c, d) && d != c && Enabled(s, c, Continue) && s.pc[c].Exec?
    ensures CpuInv(Do(s, c, Continue), NextOwner(s, c, Continue, owner), d)
  {
  }

  lemma LeaveTestSelf(s: State, c: nat, owner: Option<nat>)
    requires Relevant(s, owner, c, c) && Enabled(s, c, Continue) && s.pc[c] == Leave(LeaveTest)
    ensures CpuInv(Do(s, c, Continue), owner, c)
  {
  }

  lemma LeaveDecrementSelf(s: State, c: nat, owner: Option<nat>)
    requires Relevant(s, owner, c, c) && Enabled(s, c, Continue) && s.pc[c] == Leave(LeaveDecrement)
    ensures CpuInv(Do(s, c, Continue), owner, c)
  {
  }

  lemma LeaveSelf(s: State, c: nat, owner: Option<nat>)
    requires Relevant(s, owner, c, c) && Enabled(s, c, Continue) && s.pc[c].Leave?
    ensures CpuInv(Do(s, c, Continue), NextOwner(s, c, Continue, owner), c)
  {
    match s.pc[c].leave
    case LeaveTest => LeaveTestSelf(s, c, owner);
    case LeaveDecrement => LeaveDecrementSelf(s, c, owner);
    case _ =>
  }

  lemma LeaveOther(s: State, c: nat, owner: Option<nat>, d: nat)
    requires Relevant(s, owner, c, d) && d != c && Enabled(s, c, Continue) && s.pc[c].Leave?
    ensures CpuInv(Do(s, c, Continue), NextOwner(s, c, Continue, owner), d)
  {
  }

  lemma CallSelf(s: State, c: nat, a: Action, owner: Option<nat>)
    requires Relevant(s, owner, c, c) && Enabled(s, c, a) && !a.Continue?
    ensures CpuInv(Do(s, c, a), owner, c)
  {
  }

  lemma CallOther(s: State, c: nat, a: Action, owner: Option<nat>, d: nat)
    requires Relevant(s, owner, c, d) && d != c && Enabled(s, c, a) && !a.Continue?
    ensures CpuInv(Do(s, c, a), owner, d)
  {
  }

  lemma StepKeepsCpuInv(s: State, c: nat, a: Action, owner: Option<nat>, d: nat)
    requires Relevant(s, owner, c, d) && Enabled(s, c, a)
    ensures CpuInv(Do(s, c, a), NextOwner(s, c, a, owner), d)
  {
    if !a.Continue? {
      if d == c { CallSelf(s, c, a, owner); } else { CallOther(s, c, a, owner, d); }
    } else {
      match s.pc[c]
      case Start(q) =>
        if d == c { StartSelf(s, c, owner); }
        else if q.StartScan? { ScanOther(s, c, owner, d); }
        else { StartOther(s, c, owner, d); }
      case End(_) => if d == c { EndSelf(s, c, owner); } else { EndOther(s, c, owner, d); }
      case Exec(_) => if d == c { ExecSelf(s, c, owner); } else { ExecOther(s, c, owner, d); }
      case Leave(_) => if d == c { LeaveSelf(s, c, owner); } else { LeaveOther(s, c, owner, d); }
    }
  }

  lemma ScanKeepsCounted(s: State, c: nat, owner: Option<nat>)
    requires Relevant(s, owner, c, c) && Enabled(s, c, Continue) && s.pc[c].Start? && s.pc[c].start.StartScan?
    ensures Counted(Do(s, c, Continue), owner)
  {
  }

  lemma StartKeepsCounted(s: State, c: nat, owner: Option<nat>)
    requires Relevant(s, owner, c, c) && Enabled(s, c, Continue) && s.pc[c].Start?
    ensures Counted(Do(s, c, Continue), NextOwner(s, c, Continue, owner))
  {
    if s.pc[c].start.StartScan? {
      ScanKeepsCounted(s, c, owner);
    }
  }

  lemma EndKeepsCounted(s: State, c: nat, owner: Option<nat>)
    requires Relevant(s, owner, c, c) && Enabled(s, c, Continue) && s.pc[c].End?
    ensures Counted(Do(s, c, Continue), NextOwner(s, c, Continue, owner))
  {
  }

  lemma ExecKeepsCounted(s: State, c: nat, owner: Option<nat>)
    requires Relevant(s, owner, c, c) && Enabled(s, c, Continue) && s.pc[c].Exec?
    ensures Counted(Do(s, c, Continue), NextOwner(s, c, Continue, owner))
  {
  }

  lemma LeaveKeepsCounted(s: State, c: nat, owner: Option<nat>)
    requires Relevant(s, owner, c, c) && Enabled(s, c, Continue) && s.pc[c].Leave?
    ensures Counted(Do(s, c, Continue), NextOwner(s, c, Continue, owner))
  {
    match s.pc[c].leave
    case LeaveRead =>
    case LeaveLock =>
    case LeaveTest =>
    case LeaveDecrement =>
    case LeaveSignal =>
    case LeaveUnlock =>
  }

  lemma CallKeepsCounted(s: State, c: nat, a: Action, owner: Option<nat>)
    requires InvFor(s, owner) && Relevant(s, owner, c, c) && Enabled(s, c, a) && !a.Continue?
    ensures Counted(Do(s, c, a), owner)
  {
    if a.Wake? { assert CpuInv(s, owner, a.sleeper); }
  }

  lemma StepKeepsCounted(s: State, c: nat, a: Action, owner: Option<nat>)
    requires InvFor(s, owner) && Relevant(s, owner, c, c) && Enabled(s, c, a)
    ensures Counted(Do(s, c, a), NextOwner(s, c, a, owner))
  {
    if !a.Continue? {
      CallKeepsCounted(s, c, a, owner);
    } else {
      match s.pc[c]
      case Start(_) => StartKeepsCounted(s, c, owner);
      case End(_) => EndKeepsCounted(s, c, owner);
      case Exec(_) => ExecKeepsCounted(s, c, owner);
      case Leave(_) => LeaveKeepsCounted(s, c, owner);
    }
  }

  // The flags and the lock keep naming existing CPUs.
  ghost predicate InRange(s: State, owner: Option<nat>) {
    && |s.pc| == |s.contextCount|
    && (s.lock.Some? ==> s.lock.value < |s.pc|)
    && (owner.Some? ==> owner.value < |s.pc|)
    && (forall d :: d in s.running ==> d < |s.pc|)
    && (forall d :: d in s.hasWaiter ==> d < |s.pc|)
  }

  lemma StepKeepsInvFor(s: State, c: nat, a: Action, owner: Option<nat>)
    requires InvFor(s, owner) && Enabled(s, c, a)
    ensures InvFor(Do(s, c, a), NextOwner(s, c, a, owner))
  {
    assert Relevant(s, owner, c, c);
    var t := Do(s, c, a);
    assert SameCpus(s, t, c);
    StepKeepsCounted(s, c, a, owner);
    forall d: nat | d < |s.pc|
      ensures CpuInv(Do(s, c, a), NextOwner(s, c, a, owner), d)
    {
      assert Relevant(s, owner, c, d);
      StepKeepsCpuInv(s, c, a, owner, d);
    }
  }

  lemma {:induction false} RunKeepsInv(run: seq<State>, i: nat)
    requires IsRun(run) && i < |run|
    ensures Inv(run[i])
  {
    if i == 0 {
      assert InvFor(run[0], None);
    } else {
      RunKeepsInv(run, i - 1);
      assert Step(run[i - 1], run[i - 1 + 1]);
      var c, a :| Enabled(run[i - 1], c, a) && run[i] == Do(run[i - 1], c, a);
      var owner :| InvFor(run[i - 1], owner);
      StepKeepsInvFor(run[i - 1], c, a, owner);
    }
  }

  // ------------------------------------------------------------------- safety

  // While a CPU is in an exclusive section, no CPU executes guest code and no
  // other CPU is in an exclusive section.
  ghost predicate MutuallyExclusive(s: State) {
    forall c, d :: 0 <= c < |s.pc| && 0 <= d < |s.pc| && Entered(s.pc[c]) ==>
      !s.pc[d].Executing? && (Entered(s.pc[d]) ==> d == c)
  }

  lemma ExclusiveSectionIsExclusive(run: seq<State>)
    requires IsRun(run)
    ensures forall i :: 0 <= i < |run| ==> MutuallyExclusive(run[i])
  {
    forall i | 0 <= i < |run|
      ensures MutuallyExclusive(run[i])
    {
      RunKeepsInv(run, i);
      var s := run[i];
      var owner :| InvFor(s, owner);
      forall c, d | 0 <= c < |s.pc| && 0 <= d < |s.pc| && Entered(s.pc[c])
        ensures !s.pc[d].Executing? && (Entered(s.pc[d]) ==> d == c)
      {
        assert CpuInv(s, owner, c) && CpuInv(s, owner, d);
      }
    }
  }

  // ------------------------------------------------------------------ nested calls

  datatype Event = Event(cpu: nat, action: Action)

  // A run with its log of who did what.
  ghost predicate IsLog(run: seq<State>, log: seq<Event>) {
    && |run| == |log| + 1 && Init(run[0])
    && forall i :: 0 <= i < |log| ==> HasHappened(run[i], run[i + 1], log[i])
  }

  ghost predicate HasHappened(s: State, t: State, e: Event) {
    Enabled(s, e.cpu, e.action) && t == Do(s, e.cpu, e.action)
  }

  lemma LoggedIsRun(run: seq<State>, log: seq<Event>)
    requires IsLog(run, log)
    ensures IsRun(run)
  {
    forall i | 0 <= i < |run| - 1
      ensures Step(run[i], run[i + 1])
    {
      assert HasHappened(run[i], run[i + 1], log[i]);
    }
  }

  // The calls of start_exclusive by CPU c that its calls of end_exclusive have not
  // yet undone, counted from the log alone.
  function Depth(log: seq<Event>, c: nat): int {
    if log == [] then 0
    else
      var e := log[|log| - 1];
      Depth(log[..|log| - 1], c) + if e.cpu != c then 0 else if e.action.StartExclusive? then 1 else if e.action.EndExclusive? then -1 else 0
  }

  // Whether start_exclusive, or a nested call of it, has returned.
  predicate HasReturned(p: Pc) {
    !p.Start?
  }

  // What the log says about where CPU c is: in the first start_exclusive, in the
  // section, or neither.
  ghost predicate DepthAgrees(s: State, c: nat, depth: int)
    requires IsCpu(s, c)
  {
    && depth >= 0
    && (s.pc[c].Start? ==> depth == 1)
    && (depth > 0 && HasReturned(s.pc[c]) ==> s.pc[c].Exclusive? && s.contextCount[c] == depth)
    && (depth == 0 ==> !s.pc[c].Start? && !s.pc[c].Exclusive? && s.contextCount[c] == 0)
  }

  lemma OwnStepAgrees(s: State, c: nat, a: Action, owner: Option<nat>, depth: int)
    requires InvFor(s, owner) && Enabled(s, c, a) && DepthAgrees(s, c, depth)
    ensures DepthAgrees(Do(s, c, a), c, depth + if a.StartExclusive? then 1 else if a.EndExclusive? then -1 else 0)
  {
    assert CpuInv(s, owner, c);
  }

  lemma OtherStepAgrees(s: State, d: nat, a: Action, c: nat, depth: int)
    requires IsCpu(s, c) && Enabled(s, d, a) && d != c && DepthAgrees(s, c, depth)
    ensures DepthAgrees(Do(s, d, a), c, depth)
  {
  }

  lemma {:induction false} LogAgrees(run: seq<State>, log: seq<Event>, i: nat, c: nat)
    requires IsLog(run, log) && i <= |log| && c < |run[0].pc|
    ensures IsCpu(run[i], c) && DepthAgrees(run[i], c, Depth(log[..i], c))
  {
    if i > 0 {
      LogAgrees(run, log, i - 1, c);
      LoggedIsRun(run, log);
      RunKeepsInv(run, i - 1);
      var s, e := run[i - 1], log[i - 1];
      assert HasHappened(s, run[i - 1 + 1], e);
      var owner :| InvFor(s, owner);
      if e.cpu == c {
        OwnStepAgrees(s, c, e.action, owner, Depth(log[..i - 1], c));
      } else {
        OtherStepAgrees(s, e.cpu, e.action, c, Depth(log[..i - 1], c));
      }
      assert log[..i][..i - 1] == log[..i - 1];
    }
  }

  // A nested section takes no lock, and leaving it restores the outer one exactly.
  lemma NestedSection(s: State, c: nat)
    requires IsCpu(s, c) && s.pc[c].Exclusive? && s.contextCount[c] > 0
    ensures Enabled(s, c, StartExclusive)
    ensures var t := Do(s, c, StartExclusive);
      t == s.(contextCount := t.contextCount) && Enabled(t, c, EndExclusive) && Do(t, c, EndExclusive) == s
  {
    var t := Do(s, c, StartExclusive);
    assert t.contextCount[c := s.contextCount[c]] == s.contextCount;
  }

  // From the return of the first start_exclusive until as many calls of end_exclusive
  // have been made, exclusive_context_count is the number of calls still open, no CPU
  // executes and no other CPU is in an exclusive section.
  lemma SectionLastsToOutermostEnd(run: seq<State>, log: seq<Event>, i: nat, j: nat, c: nat, d: nat)
    requires IsLog(run, log) && i <= j <= |log| && c < |run[0].pc| && d < |run[0].pc|
    requires c < |run[i].pc| && HasReturned(run[i].pc[c])
    requires forall k :: i <= k <= j ==> Depth(log[..k], c) > 0
    ensures IsCpu(run[j], c) && run[j].pc[c].Exclusive? && run[j].contextCount[c] == Depth(log[..j], c)
    ensures IsCpu(run[j], d) && !run[j].pc[d].Executing? && (d != c ==> !run[j].pc[d].Exclusive?)
    decreases j
  {
    LogAgrees(run, log, j, c);
    LogAgrees(run, log, j, d);
    LoggedIsRun(run, log);
    ExclusiveSectionIsExclusive(run);
    if i < j {
      SectionLastsToOutermostEnd(run, log, i, j - 1, c, d);
      LogAgrees(run, log, j - 1, c);
      assert HasHappened(run[j - 1], run[j - 1 + 1], log[j - 1]);
      StaysInSection(run[j - 1], run[j], log[j - 1], c);
    }
    assert MutuallyExclusive(run[j]);
  }

  lemma StaysInSection(s: State, t: State, e: Event, c: nat)
    requires IsCpu(s, c) && HasHappened(s, t, e) && s.pc[c].Exclusive? && s.contextCount[c] > 0
    ensures HasReturned(t.pc[c])
  {
  }

  // While nobody holds the lock, pending_cpus is exact and no wakeup is lost.
  ghost predicate WaitersAccountedFor(s: State) {
    s.lock.None? ==>
      && (s.pendingCpus == 0 ==> s.hasWaiter == {})
      && (s.pendingCpus != 0 ==> s.pendingCpus == 1 + |s.hasWaiter|)
      && (forall c :: 0 <= c < |s.pc| && s.pc[c] == Start(StartAsleep) ==> s.pendingCpus > 1)
      && (forall c :: 0 <= c < |s.pc| && AwaitsResume(s.pc[c]) ==> s.pendingCpus != 0)
  }

  lemma PendingCpusCountsWaiters(run: seq<State>)
    requires IsRun(run)
    ensures forall i :: 0 <= i < |run| ==> WaitersAccountedFor(run[i])
  {
    forall i | 0 <= i < |run|
      ensures WaitersAccountedFor(run[i])
    {
      RunKeepsInv(run, i);
      var s := run[i];
      var owner :| InvFor(s, owner);
      if s.lock.None? {
        if owner.Some? { assert CpuInv(s, owner, owner.value); }
        forall c | 0 <= c < |s.pc| && Asleep(s.pc[c])
          ensures s.pendingCpus != 0 && (s.pc[c] == Start(StartAsleep) ==> s.pendingCpus > 1)
        {
          assert CpuInv(s, owner, c);
        }
      }
    }
  }

  // The assertion of start_exclusive (198) never fails, nested calls included.
  lemma StartExclusiveFindsCallerStopped(run: seq<State>, i: nat, c: nat)
    requires IsRun(run) && i < |run| && Enabled(run[i], c, StartExclusive)
    ensures c !in run[i].running
  {
    RunKeepsInv(run, i);
    var owner :| InvFor(run[i], owner);
    assert CpuInv(run[i], owner, c);
  }

  // exclusive_cond is signalled only when the last counted CPU has left, and the
  // sleeper that is woken then finds nothing to wait for.
  lemma SignalMeansAllStopped(run: seq<State>, i: nat, c: nat, w: nat)
    requires IsRun(run) && i < |run| && Enabled(run[i], c, Wake(w))
    ensures run[i].hasWaiter == {} && run[i].pendingCpus == 1
    ensures forall d :: 0 <= d < |run[i].pc| ==> !run[i].pc[d].Executing?
    ensures WantsLock(Do(run[i], c, Wake(w)).pc[w])
  {
    RunKeepsInv(run, i);
    var s := run[i];
    var owner :| InvFor(s, owner);
    assert CpuInv(s, owner, c) && CpuInv(s, owner, w);
    forall d | 0 <= d < |s.pc|
      ensures !s.pc[d].Executing?
    {
      assert CpuInv(s, owner, d);
    }
  }

  // A condition wait that returns, signalled or not, tests its condition again.
  lemma WokenTestsAgain(s: State, c: nat)
    requires Enabled(s, c, Spurious)
    ensures Do(s, c, Spurious) == s.(pc := s.pc[c := WokenUp(s.pc[c])]) && WantsLock(WokenUp(s.pc[c]))
  {
  }

  // While nobody wants an exclusive section, a CPU enters and leaves guest code in
  // four steps, without the lock, and leaves nothing behind.
  lemma FastPath(s: State, c: nat)
    requires IsCpu(s, c) && s.pc[c].Outside? && c !in s.running && s.pendingCpus == 0
    ensures Enabled(s, c, ExecStart)
    ensures var s1 := Do(s, c, ExecStart); Enabled(s1, c, Continue)
    ensures var s2 := Do(Do(s, c, ExecStart), c, Continue); Enabled(s2, c, Continue)
    ensures var s3 := Do(Do(Do(s, c, ExecStart), c, Continue), c, Continue);
      && s3 == s.(pc := s.pc[c := Executing], running := s.running + {c})
      && Enabled(s3, c, ExecEnd)
      && var s4 := Do(s3, c, ExecEnd); Enabled(s4, c, Continue) && Do(s4, c, Continue) == s
  {
    assert s.pc[c := Executing][c := Outside] == s.pc;
    assert s.running + {c} - {c} == s.running;
  }

  // ----------------------------------------------------------------- progress

  // A step that neither starts a new call nor is a spurious wakeup: the calls
  // under way go on, and CPUs leave cpu_exec and exclusive sections.
  predicate Progress(a: Action) {
    a.Continue? || a.Wake? || a.ExecEnd? || a.EndExclusive?
  }

  ghost predicate CanProgress(s: State) {
    exists c, a :: Enabled(s, c, a) && Progress(a)
  }

  lemma MayContinue(s: State, c: nat)
    requires IsCpu(s, c) && !Idle(s.pc[c]) && !Asleep(s.pc[c])
    requires WantsLock(s.pc[c]) ==> s.lock.None?
    ensures CanProgress(s)
  {
    if s.pc[c] == Leave(LeaveSignal) && s.pendingCpus == 1 &&
       exists w :: 0 <= w < |s.pc| && s.pc[w] == Start(StartAsleep) {
      var w :| 0 <= w < |s.pc| && s.pc[w] == Start(StartAsleep);
      assert Enabled(s, c, Wake(w)) && Progress(Wake(w));
    } else {
      assert Enabled(s, c, Continue) && Progress(Continue);
    }
  }

  // A CPU that is not asleep can go on when the lock is free.
  lemma AwakeMayContinue(s: State, owner: Option<nat>, c: nat)
    requires InvFor(s, owner) && s.lock.None? && c < |s.pc|
    requires !s.pc[c].Outside? && !Asleep(s.pc[c])
    ensures CanProgress(s)
  {
    assert CpuInv(s, owner, c);
    if s.pc[c].Executing? {
      assert Enabled(s, c, ExecEnd) && Progress(ExecEnd);
    } else if s.pc[c].Exclusive? {
      assert Enabled(s, c, EndExclusive) && Progress(EndExclusive);
    } else {
      MayContinue(s, c);
    }
  }

  // The protocol never deadlocks: as long as some CPU is not outside, some call
  // can go on, or some CPU executes or is in an exclusive section and may leave.
  lemma NoDeadlock(run: seq<State>, i: nat, c: nat)
    requires IsRun(run) && i < |run| && c < |run[i].pc| && !run[i].pc[c].Outside?
    ensures CanProgress(run[i])
  {
    RunKeepsInv(run, i);
    var s := run[i];
    var owner :| InvFor(s, owner);
    assert CpuInv(s, owner, c);
    if s.lock.Some? {
      assert CpuInv(s, owner, s.lock.value);
      MayContinue(s, s.lock.value);
    } else if !Asleep(s.pc[c]) {
      AwakeMayContinue(s, owner, c);
    } else {
      var k := owner.value;
      assert CpuInv(s, owner, k);
      if s.pc[k] != Start(StartAsleep) {
        AwakeMayContinue(s, owner, k);
      } else {
        assert s.hasWaiter != {};
        var w :| w in s.hasWaiter;
        assert CpuInv(s, owner, w);
        AwakeMayContinue(s, owner, w);
      }
    }
  }

  // A bound on the steps a CPU takes before it is outside, as long as nobody
  // broadcasts exclusive_resume, on a machine with n CPUs.
  function Weight(p: Pc, count: nat, n: nat): nat {
    match p
    case Outside => 0
    case Start(q) =>
      (match q
       case StartLock => 13 + n
       case StartIdle => 12 + n
       case StartIdleAsleep => 11 + n
       case StartIdleWoken => 13 + n
       case StartAnnounce => 11 + n
       case StartScan(next, _) => 10 + if next < n then n - next else 0
       case StartPublish(_) => 9
       case StartTest => 8
       case StartAsleep => 7
       case StartWoken => 9
       case StartUnlock => 7)
    case Exclusive => 5 + count
    case End(q) =>
      (match q case EndLock => 4 case EndReset => 3 case EndBroadcast => 2 case EndUnlock => 1)
    case Exec(q) =>
      (match q
       case ExecSet => 17
       case ExecRead => 16
       case ExecLock => 15
       case ExecTest => 14
       case ExecClear => 13
       case ExecIdle => 12
       case ExecIdleAsleep => 11
       case ExecIdleWoken => 13
       case ExecSetAgain => 11
       case ExecUnlock => 10)
    case Executing => 9
    case Leave(q) =>
      (match q
       case LeaveRead => 8
       case LeaveLock => 7
       case LeaveTest => 6
       case LeaveDecrement => 5
       case LeaveSignal => 4
       case LeaveUnlock => 1)
  }

  function Weights(s: State): (ws: seq<nat>)
    requires |s.pc| == |s.contextCount|
    ensures |ws| == |s.pc|
  {
    seq(|s.pc|, i requires 0 <= i < |s.pc| => Weight(s.pc[i], s.contextCount[i], |s.pc|))
  }

  // Whether the calls under way at p still broadcast exclusive_resume.
  function Owed(p: Pc): nat {
    if p.Start? || p.Exclusive? || (p.End? && !p.end.EndUnlock?) then 1 else 0
  }

  function Broadcasts(s: State): (ws: seq<nat>)
    ensures |ws| == |s.pc|
  {
    seq(|s.pc|, i requires 0 <= i < |s.pc| => Owed(s.pc[i]))
  }

  lemma ProgressKeepsBroadcasts(s: State, c: nat, a: Action)
    requires Enabled(s, c, a) && Progress(a)
    requires a.Continue? ==> s.pc[c] != End(EndBroadcast)
    ensures Broadcasts(Do(s, c, a)) == Broadcasts(s)
  {
    var t := Do(s, c, a);
    forall d | 0 <= d < |s.pc|
      ensures Owed(t.pc[d]) == Owed(s.pc[d])
    {
    }
  }

  lemma ProgressLowersWeight(s: State, c: nat, a: Action)
    requires Enabled(s, c, a) && Progress(a) && !a.Wake?
    requires a.Continue? ==> s.pc[c] != End(EndBroadcast)
    ensures Weights(Do(s, c, a)) == Weights(s)[c := Weights(Do(s, c, a))[c]]
    ensures Weights(Do(s, c, a))[c] < Weights(s)[c]
  {
    ProgressLowersOwnWeight(s, c, a);
    OthersKeepWeight(s, c, a);
  }

  lemma OthersKeepWeight(s: State, c: nat, a: Action)
    requires Enabled(s, c, a) && Progress(a) && !a.Wake?
    requires a.Continue? ==> s.pc[c] != End(EndBroadcast)
    ensures var t := Do(s, c, a); forall d :: 0 <= d < |s.pc| && d != c ==> Weights(t)[d] == Weights(s)[d]
  {
    var t := Do(s, c, a);
    forall d | 0 <= d < |s.pc| && d != c
      ensures Weights(t)[d] == Weights(s)[d]
    {
      OtherStays(s, c, a, d);
    }
  }

  // A step of c moves no other thread, except by waking it.
  lemma OtherStays(s: State, c: nat, a: Action, d: nat)
    requires Enabled(s, c, a) && !a.Wake? && d < |s.pc| && d != c
    requires a.Continue? ==> s.pc[c] != End(EndBroadcast)
    ensures var t := Do(s, c, a); t.pc[d] == s.pc[d] && t.contextCount[d] == s.contextCount[d]
  {
  }

  lemma ProgressLowersOwnWeight(s: State, c: nat, a: Action)
    requires Enabled(s, c, a) && Progress(a) && !a.Wake?
    requires a.Continue? ==> s.pc[c] != End(EndBroadcast)
    ensures var t := Do(s, c, a); Weight(t.pc[c], t.contextCount[c], |t.pc|) < Weight(s.pc[c], s.contextCount[c], |s.pc|)
  {
    if a.Continue? {
      match s.pc[c]
      case Start(_) => StartLowersWeight(s, c);
      case _ =>
    }
  }

  lemma StartLowersWeight(s: State, c: nat)
    requires Enabled(s, c, Continue) && s.pc[c].Start?
    ensures var t := Do(s, c, Continue); Weight(t.pc[c], t.contextCount[c], |t.pc|) < Weight(s.pc[c], s.contextCount[c], |s.pc|)
  {
  }

  lemma WakeLowersWeight(s: State, c: nat, w: nat)
    requires Enabled(s, c, Wake(w))
    ensures Sum(Weights(Do(s, c, Wake(w)))) < Sum(Weights(s))
  {
    var t := Do(s, c, Wake(w));
    assert Weights(t) == Weights(s)[w := Weights(t)[w]][c := Weights(t)[c]];
    SumUpdate(Weights(s), w, Weights(t)[w]);
    SumUpdate(Weights(s)[w := Weights(t)[w]], c, Weights(t)[c]);
  }

  lemma BroadcastIsPaid(s: State, c: nat)
    requires Enabled(s, c, Continue) && s.pc[c] == End(EndBroadcast)
    ensures Sum(Broadcasts(Do(s, c, Continue))) < Sum(Broadcasts(s))
  {
    assert Broadcasts(Do(s, c, Continue)) == Broadcasts(s)[c := 0];
    SumUpdate(Broadcasts(s), c, 0);
  }

  // Every progress step lowers, lexicographically, the broadcasts still owed and
  // the steps left before the next one.
  lemma ProgressLowersRank(s: State, c: nat, a: Action)
    requires Enabled(s, c, a) && Progress(a)
    ensures var t := Do(s, c, a);
      || Sum(Broadcasts(t)) < Sum(Broadcasts(s))
      || (Sum(Broadcasts(t)) == Sum(Broadcasts(s)) && Sum(Weights(t)) < Sum(Weights(s)))
  {
    if a.Continue? && s.pc[c] == End(EndBroadcast) {
      BroadcastIsPaid(s, c);
    } else {
      ProgressKeepsBroadcasts(s, c, a);
      if a.Wake? {
        WakeLowersWeight(s, c, a.sleeper);
      } else {
        ProgressLowersWeight(s, c, a);
        SumUpdate(Weights(s), c, Weights(Do(s, c, a))[c]);
      }
    }
  }

  ghost predicate ProgressStep(s: State, t: State) {
    exists c, a :: Enabled(s, c, a) && Progress(a) && t == Do(s, c, a)
  }

  // No run makes progress steps forever.  With NoDeadlock: once no new call is
  // made, every start_exclusive enters, and every CPU ends up outside.
  lemma {:induction false} ProgressEnds(behaviour: nat -> State, i: nat)
    requires |behaviour(i).pc| == |behaviour(i).contextCount|
    ensures exists j: nat :: j >= i && !ProgressStep(behaviour(j), behaviour(j + 1))
    decreases Sum(Broadcasts(behaviour(i))), Sum(Weights(behaviour(i)))
  {
    if ProgressStep(behaviour(i), behaviour(i + 1)) {
      var c, a :| Enabled(behaviour(i), c, a) && Progress(a) && behaviour(i + 1) == Do(behaviour(i), c, a);
      ProgressLowersRank(behaviour(i), c, a);
      ProgressEnds(behaviour, i + 1);
    }
  }
}
