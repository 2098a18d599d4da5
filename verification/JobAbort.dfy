/**
 The abort loop of a group: when it ends, and what it leaves (xemu/job.c:929-968,
 996-1008, 1242-1271).
 */
module JobAbort {

  import opened Sequences
  import opened Wrappers
  import opened JobLife
  import opened JobGroup
  import opened JobOutcome

  // ------------------------------------------------------------- unstarted members

  // Only its own start, cancel or early failure takes a job out of the created state.
  predicate LeavesAlone(op: Op, j: nat) {
    op != LocalStep(j, StartOp) && op != EarlyFailOp(j) && !(op.CancelJob? && op.j == j)
  }

  predicate StillCreated(s: State, r: State, j: nat) {
    j in s.jobs && j in r.jobs && r.jobs[j].status.Created? && r.jobs[j].txn == s.jobs[j].txn
  }

  lemma AbortKeepsCreated(s: State, i: nat, j: nat)
    requires JobsOk(s) && i in s.jobs && s.jobs[i].txn.Some? && j in s.jobs && s.jobs[j].status.Created?
    ensures StillCreated(s, TxnAbort(s, i), j)
  {
    CancelAsyncOk(s.jobs[j], true);
  }

  lemma CompletedKeepsCreated(s: State, i: nat, results: map<nat, int>, j: nat)
    requires JobsOk(s) && i in s.jobs && MayComplete(s.jobs[i]) && TxnOk(s, s.jobs[i].txn.value)
    requires j in s.jobs && s.jobs[j].status.Created? && j != i
    ensures StillCreated(s, Completed(s, i, results), j)
  {
    AfterUpdateRc(s, i);
    var u := WithJob(s, i, UpdateRc(s.jobs[i]));
    if u.jobs[i].ret != 0 {
      AbortKeepsCreated(u, i, j);
    } else if s.jobs[j].txn == s.jobs[i].txn {
      AfterWaiting(u, i);
      assert j in u.txns[s.jobs[i].txn.value].members;
    } else {
      TxnSuccessOk(u, i, results);
    }
  }

  lemma CancelKeepsCreated(s: State, i: nat, force: bool, results: map<nat, int>, j: nat)
    requires Inv(s) && Enabled(s, CancelJob(i, force, results)) && j in s.jobs && s.jobs[j].status.Created? && j != i
    ensures StillCreated(s, CancelStep(s, i, force, results), j)
  {
    if !s.jobs[i].status.Concluded? {
      CancelAsyncOk(s.jobs[i], force);
      AfterCancel(s, i, force);
      var c := WithJob(s, i, CancelAsync(s.jobs[i], force));
      if !c.jobs[i].co.started {
        CompletedKeepsCreated(c, i, results, j);
      } else if c.jobs[i].co.deferred && c.jobs[i].cancel.forced {
        AbortKeepsCreated(c, i, j);
      }
    }
  }

  lemma FinalizeKeepsCreated(s: State, i: nat, results: map<nat, int>, j: nat)
    requires Inv(s) && Enabled(s, FinalizeOp(i, results)) && j in s.jobs && s.jobs[j].status.Created?
    ensures StillCreated(s, Next(s, FinalizeOp(i, results)), j)
  {
    var t := s.jobs[i].txn.value;
    PendingTogether(s, i);
    assert TxnOk(s, t) && i in s.txns[t].members;
    assert j in s.txns[t].members || s.jobs[j].txn != Some(t);
    DoFinalizeOk(s, i, results);
  }

  lemma StepKeepsCreated(s: State, op: Op, j: nat)
    requires Inv(s) && Enabled(s, op) && j in s.jobs && s.jobs[j].status.Created? && LeavesAlone(op, j)
    ensures StillCreated(s, Next(s, op), j)
  {
    match op
    case ExitOp(i, results) =>
      AfterIdle(s, i);
      CompletedKeepsCreated(WithJob(s, i, s.jobs[i].(co := s.jobs[i].co.(busy := false))), i, results, j);
    case CancelJob(i, force, results) => CancelKeepsCreated(s, i, force, results, j);
    case FinalizeOp(i, results) => FinalizeKeepsCreated(s, i, results, j);
    case AbortRound(t) => FirstIsFinalizable(s, t);
    case _ =>
  }

  // A member that nobody starts or cancels keeps the abort loop from ending.
  lemma {:induction false} UnstartedMemberBlocksLoop(s: State, ops: seq<Op>, t: nat, j: nat)
    requires Inv(s) && IsRun(s, ops) && t in s.txns && s.txns[t].aborting
    requires j in s.jobs && s.jobs[j].txn == Some(t) && s.jobs[j].status.Created?
    requires forall op :: op in ops ==> LeavesAlone(op, j)
    ensures t in After(s, ops).txns && j in After(s, ops).txns[t].members
    decreases |ops|
  {
    if ops != [] {
      assert ops[0] in ops && forall op :: op in ops[1..] ==> op in ops;
      StepKeepsCreated(s, ops[0], j);
      StepKeepsInv(s, ops[0]);
      AbortingStays(s, ops[0], t);
      UnstartedMemberBlocksLoop(Next(s, ops[0]), ops[1..], t, j);
    }
  }

  // ------------------------------------------------------------- waiting for a member

  // The operations of one job, as steps of the system.
  function Lift(m: nat, lops: seq<LocalOp>): (ops: seq<Op>)
    ensures |ops| == |lops| && forall i :: 0 <= i < |lops| ==> ops[i] == LocalStep(m, lops[i])
  {
    seq(|lops|, i requires 0 <= i < |lops| => LocalStep(m, lops[i]))
  }

  lemma {:induction false} LiftRun(s: State, m: nat, lops: seq<LocalOp>)
    requires Inv(s) && m in s.jobs && LocalRun(s.jobs[m], lops)
    ensures IsRun(s, Lift(m, lops)) && After(s, Lift(m, lops)) == WithJob(s, m, AfterRun(s.jobs[m], lops))
    decreases |lops|
  {
    var ops := Lift(m, lops);
    if lops == [] {
      assert ops == [] && s.jobs[m := s.jobs[m]] == s.jobs;
    } else {
      LocalKeepsOk(s.jobs[m], lops[0]);
      StepKeepsInv(s, ops[0]);
      assert ops[1..] == Lift(m, lops[1..]);
      LiftRun(Next(s, ops[0]), m, lops[1..]);
    }
  }

  // A started job that is entered leaves its pause, if it is in one, and returns.
  lemma JobReturns(j: Job) returns (lops: seq<LocalOp>)
    requires JobOk(j) && j.co.started && !IsCompleted(j.status)
    ensures LocalRun(j, lops) && AfterRun(j, lops).co.deferred
  {
    if j.co.deferred {
      return [];
    }
    var enter := Local(j, EnterOp);
    LocalKeepsOk(j, EnterOp);
    if j.saved.None? {
      var end := Local(enter, ReturnOp(0));
      LocalKeepsOk(enter, ReturnOp(0));
      lops := [EnterOp, ReturnOp(0)];
      assert lops[1..] == [ReturnOp(0)] && [ReturnOp(0)][1..] == [];
      assert AfterRun(enter, [ReturnOp(0)]) == AfterRun(end, []);
    } else {
      var leave := Local(enter, PauseLeaveOp);
      LocalKeepsOk(enter, PauseLeaveOp);
      var end := Local(leave, ReturnOp(0));
      LocalKeepsOk(leave, ReturnOp(0));
      lops := [EnterOp, PauseLeaveOp, ReturnOp(0)];
      assert lops[1..] == [PauseLeaveOp, ReturnOp(0)] && [PauseLeaveOp, ReturnOp(0)][1..] == [ReturnOp(0)];
      assert [ReturnOp(0)][1..] == [];
      assert AfterRun(leave, [ReturnOp(0)]) == AfterRun(end, []);
      assert AfterRun(enter, [PauseLeaveOp, ReturnOp(0)]) == AfterRun(leave, [ReturnOp(0)]);
    }
  }

  // Only job m differs, and the groups do not.
  ghost predicate OnlyJob(s: State, r: State, m: nat) {
    m in s.jobs && m in r.jobs && r == WithJob(s, m, r.jobs[m])
  }

  lemma OnlyJobTwice(s: State, r: State, w: State, m: nat)
    requires OnlyJob(s, r, m) && OnlyJob(r, w, m)
    ensures OnlyJob(s, w, m)
  {
    assert w.jobs == s.jobs[m := w.jobs[m]];
  }

  // The exit of a member of an aborting group changes nothing else.
  lemma ExitInAborting(s: State, t: nat, m: nat)
    requires Inv(s) && t in s.txns && s.txns[t].aborting && m in s.txns[t].members
    requires m in s.jobs && !IsCompleted(s.jobs[m].status) && s.jobs[m].co.deferred
    ensures Enabled(s, ExitOp(m, map[])) && OnlyJob(s, Next(s, ExitOp(m, map[])), m)
    ensures IsCompleted(Next(s, ExitOp(m, map[])).jobs[m].status)
  {
    assert TxnOk(s, t) && DoomedMember(s.jobs[m], s.txns[t].survivor == Some(m));
    AfterIdle(s, m);
    AfterUpdateRc(WithJob(s, m, s.jobs[m].(co := s.jobs[m].co.(busy := false))), m);
  }

  // What job_finish_sync_locked waits for: a started member can complete.
  lemma MemberCompletes(s: State, t: nat, m: nat) returns (ops: seq<Op>)
    requires Inv(s) && t in s.txns && s.txns[t].aborting && m in s.txns[t].members && m in s.jobs
    requires !s.jobs[m].status.Created? && !IsCompleted(s.jobs[m].status)
    ensures IsRun(s, ops) && OnlyJob(s, After(s, ops), m) && IsCompleted(After(s, ops).jobs[m].status)
  {
    assert JobOk(s.jobs[m]);
    var lops := JobReturns(s.jobs[m]);
    LiftRun(s, m, lops);
    var r := After(s, Lift(m, lops));
    ExitInAborting(r, t, m);
    OneStep(r, ExitOp(m, map[]));
    OnlyJobTwice(s, r, Next(r, ExitOp(m, map[])), m);
    RunConcat(s, Lift(m, lops), [ExitOp(m, map[])]);
    ops := Lift(m, lops) + [ExitOp(m, map[])];
  }

  // ------------------------------------------------------------------ the whole loop

  // The loop waits only for members that have been told to stop.
  lemma LoopWaitsForCancelled(s: State, t: nat)
    requires Inv(s) && t in s.txns && s.txns[t].aborting && s.txns[t].members != []
    ensures Enabled(s, AbortRound(t)) || s.jobs[s.txns[t].members[0]].cancel == Cancel(true, true)
  {
  }

  ghost predicate AllStarted(s: State, t: nat)
    requires t in s.txns
  {
    forall m :: m in s.txns[t].members ==> m in s.jobs && !s.jobs[m].status.Created?
  }

  // The first member completes, if it has not, and is finalized.
  lemma FirstLeaves(s: State, t: nat) returns (ops: seq<Op>)
    requires Inv(s) && t in s.txns && s.txns[t].aborting && s.txns[t].members != [] && AllStarted(s, t)
    ensures IsRun(s, ops) && t in After(s, ops).txns && AllStarted(After(s, ops), t)
    ensures After(s, ops).txns[t] == s.txns[t].(members := s.txns[t].members[1..])
  {
    var m := s.txns[t].members[0];
    assert TxnOk(s, t) && m in s.txns[t].members;
    ops := [];
    if !IsCompleted(s.jobs[m].status) {
      ops := MemberCompletes(s, t, m);
    }
    var r := After(s, ops);
    AbortRoundOutcome(r, t);
    OneStep(r, AbortRound(t));
    RunConcat(s, ops, [AbortRound(t)]);
    ops := ops + [AbortRound(t)];
    assert forall k :: k in s.txns[t].members[1..] ==> k in s.txns[t].members && k != m;
  }

  // If every member has been started, the loop can end.
  lemma {:induction false} AbortLoopEmpties(s: State, t: nat) returns (ops: seq<Op>)
    requires Inv(s) && t in s.txns && s.txns[t].aborting && AllStarted(s, t)
    ensures IsRun(s, ops) && t in After(s, ops).txns && After(s, ops).txns[t].members == []
    decreases |s.txns[t].members|
  {
    ops := [];
    if s.txns[t].members != [] {
      var first := FirstLeaves(s, t);
      var rest := AbortLoopEmpties(After(s, first), t);
      RunConcat(s, first, rest);
      ops := first + rest;
    }
  }

  // A run that empties the group and leaves its created members alone.
  ghost predicate Empties(s: State, ops: seq<Op>, t: nat)
    requires Inv(s) && t in s.txns
  {
    && IsRun(s, ops) && t in After(s, ops).txns && After(s, ops).txns[t].members == []
    && forall m, op :: m in s.txns[t].members && m in s.jobs && s.jobs[m].status.Created? && op in ops ==> LeavesAlone(op, m)
  }

  // The loop can end without outside help exactly if every member has been started.
  lemma AbortLoopEndsIff(s: State, t: nat)
    requires Inv(s) && t in s.txns && s.txns[t].aborting
    ensures (exists ops :: Empties(s, ops, t)) <==> AllStarted(s, t)
  {
    assert TxnOk(s, t);
    if AllStarted(s, t) {
      var ops := AbortLoopEmpties(s, t);
      assert Empties(s, ops, t);
    } else {
      var m :| m in s.txns[t].members && s.jobs[m].status.Created?;
      forall ops | IsRun(s, ops) && forall op :: op in ops ==> LeavesAlone(op, m)
        ensures t in After(s, ops).txns && After(s, ops).txns[t].members != []
      {
        UnstartedMemberBlocksLoop(s, ops, t, m);
      }
    }
  }

  // ------------------------------------------------------------- a mixed outcome

  function Rounds(t: nat, n: nat): seq<Op> {
    if n == 0 then [] else [AbortRound(t)] + Rounds(t, n - 1)
  }

  lemma RoundsUnfold(t: nat, n: nat, k: nat)
    requires n == k + 1
    ensures Rounds(t, n) == [AbortRound(t)] + Rounds(t, k)
  {
  }

  // The callback that the abort loop runs for member m.
  function LastCall(txn: Txn, m: nat, job: Job): Calls {
    if txn.survivor == Some(m) && !job.cancel.forced then Calls(1, 0) else Calls(0, 1)
  }

  // The members have been called back, and nothing else has changed.
  ghost predicate CalledBack(s: State, r: State, t: nat)
    requires t in s.txns
  {
    && r.txns == s.txns[t := s.txns[t].(members := [])] && r.jobs.Keys == s.jobs.Keys
    && forall k :: k in s.jobs ==>
         if k in s.txns[t].members then r.jobs[k].calls == LastCall(s.txns[t], k, s.jobs[k]) else r.jobs[k] == s.jobs[k]
  }

  lemma {:induction false} RoundsOutcome(s: State, t: nat)
    requires Inv(s) && t in s.txns && s.txns[t].aborting && AllCompleted(s, t)
    ensures var ops := Rounds(t, |s.txns[t].members|); IsRun(s, ops) && CalledBack(s, After(s, ops), t)
    decreases |s.txns[t].members|
  {
    var members := s.txns[t].members;
    if members != [] {
      var op := AbortRound(t);
      AbortRoundOutcome(s, t);
      OneStep(s, op);
      var n := Next(s, op);
      FirstRound(s, n, t);
      var rest := Rounds(t, |n.txns[t].members|);
      RoundsOutcome(n, t);
      OneMoreCalledBack(s, n, After(n, rest), t);
      RunConcat(s, [op], rest);
      RoundsUnfold(t, |members|, |n.txns[t].members|);
    }
  }

  // The first member has been finalized.
  ghost predicate FirstCalledBack(s: State, n: State, t: nat)
    requires t in s.txns && s.txns[t].members != []
  {
    var m := s.txns[t].members[0];
    && NoDuplicates(s.txns[t].members) && m in s.jobs
    && n.txns == s.txns[t := s.txns[t].(members := s.txns[t].members[1..])]
    && m in n.jobs && n.jobs == s.jobs[m := n.jobs[m]] && n.jobs[m].calls == LastCall(s.txns[t], m, s.jobs[m])
  }

  lemma FirstRound(s: State, n: State, t: nat)
    requires Inv(s) && Inv(n) && t in s.txns && s.txns[t].members != [] && AllCompleted(s, t) && FirstCalledBack(s, n, t)
    ensures AllCompleted(n, t)
  {
    forall k | k in n.txns[t].members
      ensures IsCompleted(n.jobs[k].status)
    {
      assert k in s.txns[t].members && n.jobs[k] == s.jobs[k];
    }
  }

  lemma OneMoreCalledBack(s: State, n: State, r: State, t: nat)
    requires t in s.txns && s.txns[t].members != [] && FirstCalledBack(s, n, t) && CalledBack(n, r, t)
    ensures CalledBack(s, r, t)
  {
    var members := s.txns[t].members;
    assert members[0] !in members[1..];
    assert forall k :: k in members <==> k == members[0] || k in members[1..];
  }

  // Some jobs of the group have committed and others have aborted.
  ghost predicate IsMixed(s: State, t: nat) {
    && t in s.txns
    && (exists k :: k in s.txns[t].joined && k in s.jobs && s.jobs[k].calls.commits > 0)
    && (exists k :: k in s.txns[t].joined && k in s.jobs && s.jobs[k].calls.aborts > 0)
  }

  // A user finalizes j, and the loop runs to its end.
  ghost function FinalizeRun(s: State, j: nat, results: map<nat, int>): seq<Op>
    requires Inv(s) && Enabled(s, FinalizeOp(j, results))
  {
    var t := s.jobs[j].txn.value;
    [FinalizeOp(j, results)] +
    Rounds(t, if FirstFailing(s.jobs, s.txns[t].members, results).None? then 0 else |s.txns[t].members|)
  }

  // Who has committed when the loop has ended.
  ghost predicate FinalVerdict(r: State, t: nat, joined: set<nat>, j: nat, f: Option<nat>) {
    && t in r.txns && r.txns[t].members == [] && r.txns[t].joined == joined
    && forall k :: k in joined ==>
         k in r.jobs && r.jobs[k].calls == if f.None? || (k == j && f != Some(j)) then Calls(1, 0) else Calls(0, 1)
  }

  // The outcome is mixed exactly if the first prepare callback that fails belongs to
  // another job than the finalized one; then that job commits and all others abort.
  lemma MixedOutcomeIff(s: State, j: nat, results: map<nat, int>)
    requires Inv(s) && Enabled(s, FinalizeOp(j, results))
    ensures var t := s.jobs[j].txn.value; var f := FirstFailing(s.jobs, s.txns[t].members, results);
      && IsRun(s, FinalizeRun(s, j, results))
      && var r := After(s, FinalizeRun(s, j, results));
      && FinalVerdict(r, t, s.txns[t].joined, j, f)
      && (IsMixed(r, t) <==> f.Some? && f != Some(j))
  {
    var t := s.jobs[j].txn.value;
    var f := FirstFailing(s.jobs, s.txns[t].members, results);
    var op := FinalizeOp(j, results);
    FinalizeStep(s, j, t, results);
    OneStep(s, op);
    var n := Next(s, op);
    var rounds := FinalizeRun(s, j, results)[1..];
    if f.Some? {
      assert TxnOk(n, t);
      RoundsOutcome(n, t);
    }
    RunConcat(s, [op], rounds);
    FinalCalls(s, n, After(n, rounds), j, results);
    FirstFailingIsMember(s.jobs, s.txns[t].members, results);
    VerdictIsMixed(After(n, rounds), t, s.txns[t].joined, j, f);
  }

  lemma FinalizeStep(s: State, j: nat, t: nat, results: map<nat, int>)
    requires Inv(s) && Enabled(s, FinalizeOp(j, results)) && s.jobs[j].txn == Some(t)
    ensures j in s.txns[t].members && s.txns[t].joined == Elems(s.txns[t].members)
    ensures FinalizeMeaning(s, Next(s, FinalizeOp(j, results)), j, results)
  {
    PendingTogether(s, j);
    assert TxnOk(s, t);
    FinalizeOutcome(s, j, results);
  }

  lemma VerdictIsMixed(r: State, t: nat, joined: set<nat>, j: nat, f: Option<nat>)
    requires FinalVerdict(r, t, joined, j, f) && j in joined && (f.Some? ==> f.value in joined)
    ensures IsMixed(r, t) <==> f.Some? && f != Some(j)
  {
  }

  lemma FinalCalls(s: State, n: State, r: State, j: nat, results: map<nat, int>)
    requires j in s.jobs && s.jobs[j].txn.Some? && s.jobs[j].txn.value in s.txns && FinalizeMeaning(s, n, j, results)
    requires var t := s.jobs[j].txn.value; s.txns[t].joined == Elems(s.txns[t].members) && j in s.txns[t].members
    requires var t := s.jobs[j].txn.value;
      if FirstFailing(s.jobs, s.txns[t].members, results).None? then r == n else CalledBack(n, r, t)
    ensures var t := s.jobs[j].txn.value;
      FinalVerdict(r, t, s.txns[t].joined, j, FirstFailing(s.jobs, s.txns[t].members, results))
  {
  }

  lemma {:induction false} FirstFailingIsMember(jobs: map<nat, Job>, members: seq<nat>, results: map<nat, int>)
    ensures var f := FirstFailing(jobs, members, results); f.Some? ==> f.value in members
  {
    if members != [] {
      FirstFailingIsMember(jobs, members[1..], results);
    }
  }

  // ---------------------------------------------------------- pending while aborting

  // No member is pending, or all members have completed.
  ghost predicate Together(s: State, t: nat)
    requires t in s.txns
  {
    || (forall m :: m in s.txns[t].members ==> m in s.jobs && !s.jobs[m].status.Pending?)
    || (forall m :: m in s.txns[t].members ==> m in s.jobs && IsCompleted(s.jobs[m].status))
  }

  ghost predicate AllTogether(s: State) {
    forall t :: t in s.txns ==> Together(s, t)
  }

  lemma JobStaysTogether(s: State, j: nat, job: Job, t: nat)
    requires t in s.txns && Together(s, t) && j in s.jobs
    requires (job.status.Pending? ==> s.jobs[j].status.Pending?) && (IsCompleted(s.jobs[j].status) ==> IsCompleted(job.status))
    ensures Together(WithJob(s, j, job), t)
  {
  }

  lemma QuietIsTogether(s: State, t: nat)
    requires Inv(s) && t in s.txns && !s.txns[t].aborting
    ensures Together(s, t)
  {
    assert TxnOk(s, t);
  }

  lemma AbortStaysTogether(s: State, j: nat, t: nat)
    requires JobsOk(s) && j in s.jobs && s.jobs[j].txn == Some(t) && Shape(s, t) && Together(s, t)
    ensures t in TxnAbort(s, j).txns && Together(TxnAbort(s, j), t)
  {
    var r := TxnAbort(s, j);
    forall m | m in s.txns[t].members
      ensures m in r.jobs && r.jobs[m].status == s.jobs[m].status
    {
    }
  }

  // A completion that leaves an aborting group.
  lemma CompletedTogether(s: State, j: nat, results: map<nat, int>, t: nat)
    requires JobsOk(s) && j in s.jobs && MayComplete(s.jobs[j]) && s.jobs[j].txn == Some(t) && TxnOk(s, t) && Together(s, t)
    requires t in Completed(s, j, results).txns && Completed(s, j, results).txns[t].aborting
    ensures Together(Completed(s, j, results), t)
  {
    AfterUpdateRc(s, j);
    var u := WithJob(s, j, UpdateRc(s.jobs[j]));
    if u.jobs[j].ret != 0 {
      JobStaysTogether(s, j, u.jobs[j], t);
      AbortStaysTogether(u, j, t);
    } else {
      SuccessOutcome(s, j, results);
      AbortedAtOnce(s, Completed(s, j, results), j, results, t);
    }
  }

  // A completion without an error aborts the group only by finalizing it.
  lemma AbortedAtOnce(s: State, r: State, j: nat, results: map<nat, int>, t: nat)
    requires j in s.jobs && s.jobs[j].txn == Some(t) && t in s.txns && !s.txns[t].aborting
    requires s.jobs[j].ret == 0 && !s.jobs[j].cancel.forced && CompletedMeaning(s, r, j, results)
    requires t in r.txns && r.txns[t].aborting
    ensures Together(r, t)
  {
  }

  lemma ExitTogether(s: State, j: nat, results: map<nat, int>, t: nat)
    requires Inv(s) && AllTogether(s) && Enabled(s, ExitOp(j, results)) && s.jobs[j].txn == Some(t)
    requires t in Next(s, ExitOp(j, results)).txns && Next(s, ExitOp(j, results)).txns[t].aborting
    ensures Together(Next(s, ExitOp(j, results)), t)
  {
    AfterIdle(s, j);
    var i := WithJob(s, j, s.jobs[j].(co := s.jobs[j].co.(busy := false)));
    JobStaysTogether(s, j, i.jobs[j], t);
    CompletedTogether(i, j, results, t);
  }

  lemma CancelTogether(s: State, j: nat, force: bool, results: map<nat, int>, t: nat)
    requires Inv(s) && AllTogether(s) && Enabled(s, CancelJob(j, force, results)) && s.jobs[j].txn == Some(t)
    requires t in CancelStep(s, j, force, results).txns && CancelStep(s, j, force, results).txns[t].aborting
    ensures Together(CancelStep(s, j, force, results), t)
  {
    CancelAsyncOk(s.jobs[j], force);
    AfterCancel(s, j, force);
    var c := WithJob(s, j, CancelAsync(s.jobs[j], force));
    JobStaysTogether(s, j, c.jobs[j], t);
    AsyncTogether(c, j, results, t);
  }

  lemma AsyncTogether(c: State, j: nat, results: map<nat, int>, t: nat)
    requires JobsOk(c) && j in c.jobs && c.jobs[j].txn == Some(t) && Shape(c, t) && Together(c, t)
    requires !c.jobs[j].co.started ==> MayComplete(c.jobs[j]) && TxnOk(c, t)
    requires t in AfterAsync(c, j, results).txns && AfterAsync(c, j, results).txns[t].aborting
    ensures Together(AfterAsync(c, j, results), t)
  {
    if !c.jobs[j].co.started {
      CompletedTogether(c, j, results, t);
    } else if c.jobs[j].co.deferred && c.jobs[j].cancel.forced {
      AbortStaysTogether(c, j, t);
    }
  }

  lemma FinalizeTogether(s: State, j: nat, results: map<nat, int>, t: nat)
    requires Inv(s) && Enabled(s, FinalizeOp(j, results)) && s.jobs[j].txn == Some(t)
    ensures var r := Next(s, FinalizeOp(j, results)); t in r.txns && (r.txns[t].aborting ==> Together(r, t))
  {
    FinalizeStep(s, j, t, results);
  }

  lemma EarlyFailTogether(s: State, j: nat, t: nat)
    requires JobsOk(s) && j in s.jobs && s.jobs[j].status.Created? && s.jobs[j].txn == Some(t) && Together(s, t)
    ensures Together(EarlyFailed(s, j), t)
  {
  }

  lemma RoundTogether(s: State, n: State, t: nat)
    requires t in s.txns && s.txns[t].members != [] && Together(s, t) && FirstCalledBack(s, n, t)
    ensures Together(n, t)
  {
    assert s.txns[t].members[0] !in s.txns[t].members[1..];
  }

  // The group of the job that a step is for.
  ghost function GroupOf(s: State, op: Op): Option<nat> {
    match op
    case CreateOp(_, t, _) => Some(t)
    case AbortRound(t) => Some(t)
    case _ => if op.j in s.jobs then s.jobs[op.j].txn else None
  }

  lemma StepTogether(s: State, op: Op, t: nat)
    requires Inv(s) && AllTogether(s) && Enabled(s, op) && t in Next(s, op).txns && Next(s, op).txns[t].aborting
    requires GroupOf(s, op) == Some(t)
    ensures Together(Next(s, op), t)
  {
    match op
    case LocalStep(j, lop) =>
      LocalKeepsOk(s.jobs[j], lop);
      JobStaysTogether(s, j, Local(s.jobs[j], lop), t);
    case ExitOp(j, results) => ExitTogether(s, j, results, t);
    case CancelJob(j, force, results) => CancelTogether(s, j, force, results, t);
    case FinalizeOp(j, results) => FinalizeTogether(s, j, results, t);
    case AbortRound(_) =>
      AbortRoundOutcome(s, t);
      RoundTogether(s, Next(s, op), t);
    case EarlyFailOp(j) => EarlyFailTogether(s, j, t);
    case _ =>
  }

  // Group t and its members are the same.
  ghost predicate SameGroup(s: State, r: State, t: nat) {
    && t in s.txns && t in r.txns && r.txns[t] == s.txns[t]
    && forall m :: m in s.txns[t].members ==> m in s.jobs && m in r.jobs && r.jobs[m] == s.jobs[m]
  }

  lemma ChangedSame(s: State, r: State, u: nat, t: nat)
    requires Inv(s) && ChangedGroup(s, r, u) && t in r.txns && t != u
    ensures SameGroup(s, r, t)
  {
    assert TxnOk(s, t);
  }

  lemma OtherGroupSame(s: State, op: Op, t: nat)
    requires Inv(s) && Enabled(s, op) && t in Next(s, op).txns && GroupOf(s, op) != Some(t)
    ensures SameGroup(s, Next(s, op), t)
  {
    match op
    case ExitOp(j, results) => OtherExits(s, j, results, t);
    case CancelJob(j, force, results) => OtherCancels(s, j, force, results, t);
    case FinalizeOp(j, results) => OtherFinalizes(s, j, results, t);
    case AbortRound(u) => OtherRound(s, u, t);
    case _ =>
      assert TxnOk(s, t);
  }

  lemma OtherCancels(s: State, j: nat, force: bool, results: map<nat, int>, t: nat)
    requires Inv(s) && Enabled(s, CancelJob(j, force, results)) && s.jobs[j].txn != Some(t)
    requires t in CancelStep(s, j, force, results).txns
    ensures SameGroup(s, CancelStep(s, j, force, results), t)
  {
    if s.jobs[j].status.Concluded? {
      assert TxnOk(s, t);
    } else {
      assert JobOk(s.jobs[j]) && s.jobs[j].txn.Some?;
      CancelledGroupOk(s, j, force, results);
      ChangedSame(s, CancelStep(s, j, force, results), s.jobs[j].txn.value, t);
    }
  }

  lemma OtherFinalizes(s: State, j: nat, results: map<nat, int>, t: nat)
    requires Inv(s) && Enabled(s, FinalizeOp(j, results)) && s.jobs[j].txn != Some(t) && t in Next(s, FinalizeOp(j, results)).txns
    ensures SameGroup(s, Next(s, FinalizeOp(j, results)), t)
  {
    PendingTogether(s, j);
    FinalizeStep(s, j, s.jobs[j].txn.value, results);
    assert TxnOk(s, s.jobs[j].txn.value);
    DoFinalizeOk(s, j, results);
    ChangedSame(s, Next(s, FinalizeOp(j, results)), s.jobs[j].txn.value, t);
  }

  lemma OtherRound(s: State, u: nat, t: nat)
    requires Inv(s) && Enabled(s, AbortRound(u)) && u != t && t in Next(s, AbortRound(u)).txns
    ensures SameGroup(s, Next(s, AbortRound(u)), t)
  {
    AbortRoundOutcome(s, u);
    assert TxnOk(s, t) && TxnOk(s, u);
  }

  lemma OtherExits(s: State, j: nat, results: map<nat, int>, t: nat)
    requires Inv(s) && Enabled(s, ExitOp(j, results)) && t in Next(s, ExitOp(j, results)).txns && s.jobs[j].txn != Some(t)
    ensures SameGroup(s, Next(s, ExitOp(j, results)), t)
  {
    AfterIdle(s, j);
    var i := WithJob(s, j, s.jobs[j].(co := s.jobs[j].co.(busy := false)));
    CompletedOk(i, j, results);
    assert TxnOk(s, t);
    forall m | m in s.txns[t].members
      ensures m in i.jobs && i.jobs[m] == s.jobs[m] && i.jobs[m].txn == Some(t)
    {
    }
  }

  lemma StepKeepsTogether(s: State, op: Op)
    requires Inv(s) && AllTogether(s) && Enabled(s, op)
    ensures AllTogether(Next(s, op))
  {
    var r := Next(s, op);
    StepKeepsInv(s, op);
    forall t | t in r.txns
      ensures Together(r, t)
    {
      if !r.txns[t].aborting {
        QuietIsTogether(r, t);
      } else if GroupOf(s, op) == Some(t) {
        StepTogether(s, op, t);
      } else {
        OtherGroupSame(s, op, t);
      }
    }
  }

  lemma {:induction false} RunKeepsTogether(s: State, ops: seq<Op>)
    requires Inv(s) && AllTogether(s) && IsRun(s, ops)
    ensures AllTogether(After(s, ops))
    decreases |ops|
  {
    if ops != [] {
      StepKeepsTogether(s, ops[0]);
      StepKeepsInv(s, ops[0]);
      RunKeepsTogether(Next(s, ops[0]), ops[1..]);
    }
  }

  // While an aborting group has a pending member, its loop never waits, so that no
  // command can reach that member before the group is empty.
  lemma PendingNeverWaits(ops: seq<Op>, t: nat, j: nat)
    requires IsRun(Start(), ops)
    requires var s := After(Start(), ops);
      t in s.txns && s.txns[t].aborting && j in s.txns[t].members && j in s.jobs && s.jobs[j].status.Pending?
    ensures var s := After(Start(), ops); var rounds := Rounds(t, |s.txns[t].members|);
      IsRun(s, rounds) && CalledBack(s, After(s, rounds), t)
  {
    RunKeepsTogether(Start(), ops);
    var s := After(Start(), ops);
    assert TxnOk(s, t) && Together(s, t);
    RoundsOutcome(s, t);
  }

  // ------------------------------------------------------- a run with such an outcome

  const MANUAL := Options(false, false, true)

  const ONE_GROUP := map[0 := Txn(false, [1, 0], {0, 1}, None)]

  // Two jobs of one group that only their user can finalize.
  lemma TwoCreated() returns (ops: seq<Op>)
    ensures IsRun(Start(), ops)
    ensures After(Start(), ops) == State(map[0 := NewJob(0, MANUAL), 1 := NewJob(0, MANUAL)], ONE_GROUP)
  {
    var first, second := CreateOp(0, 0, MANUAL), CreateOp(1, 0, MANUAL);
    OneStep(Start(), first);
    var s := After(Start(), [first]);
    assert s.jobs == map[0 := NewJob(0, MANUAL)] && 0 in s.txns;
    assert s.txns[0].members == [0] && s.txns[0].joined == {0};
    OneStep(s, second);
    var r := Next(s, second);
    assert r.jobs == map[0 := NewJob(0, MANUAL), 1 := NewJob(0, MANUAL)];
    assert r.txns[0].members == [1, 0] && r.txns[0].joined == {0, 1};
    assert r.txns == ONE_GROUP;
    RunConcat(Start(), [first], [second]);
    ops := [first] + [second];
  }

  // A job after it has been started and its run function has returned.
  ghost predicate HasReturned(j: Job) {
    JobOk(j) && j.status.Running? && j.co.deferred && j.ret == 0 && !j.cancel.forced && j.options == MANUAL && j.txn == Some(0)
  }

  lemma JobRuns() returns (lops: seq<LocalOp>)
    ensures JobOk(NewJob(0, MANUAL)) && LocalRun(NewJob(0, MANUAL), lops) && HasReturned(AfterRun(NewJob(0, MANUAL), lops))
  {
    var j := NewJob(0, MANUAL);
    var k := Local(j, StartOp);
    LocalKeepsOk(j, StartOp);
    LocalKeepsOk(k, ReturnOp(0));
    lops := [StartOp, ReturnOp(0)];
    assert lops[1..] == [ReturnOp(0)] && [ReturnOp(0)][1..] == [];
    assert AfterRun(k, [ReturnOp(0)]) == AfterRun(Local(k, ReturnOp(0)), []);
  }

  ghost predicate TwoJobs(s: State) {
    Inv(s) && 0 in s.jobs && 1 in s.jobs && s.txns == ONE_GROUP
  }

  lemma TwoReturned() returns (ops: seq<Op>)
    ensures IsRun(Start(), ops)
    ensures var s := After(Start(), ops); TwoJobs(s) && HasReturned(s.jobs[0]) && HasReturned(s.jobs[1])
  {
    ops := TwoCreated();
    var lops := JobRuns();
    var s := After(Start(), ops);
    LiftRun(s, 0, lops);
    RunConcat(Start(), ops, Lift(0, lops));
    ops := ops + Lift(0, lops);
    s := After(Start(), ops);
    LiftRun(s, 1, lops);
    RunConcat(Start(), ops, Lift(1, lops));
    ops := ops + Lift(1, lops);
  }

  lemma FirstExits(s: State)
    requires TwoJobs(s) && HasReturned(s.jobs[0]) && HasReturned(s.jobs[1])
    ensures Enabled(s, ExitOp(0, map[])) && Inv(Next(s, ExitOp(0, map[])))
    ensures var r := Next(s, ExitOp(0, map[]));
      TwoJobs(r) && r.jobs[1] == s.jobs[1] && r.jobs[0].status.Waiting? && r.jobs[0].options == MANUAL
  {
    StepKeepsInv(s, ExitOp(0, map[]));
    AfterIdle(s, 0);
    var i := WithJob(s, 0, s.jobs[0].(co := s.jobs[0].co.(busy := false)));
    CompletedOutcome(i, 0, map[]);
    assert 1 in i.txns[0].members && !IsCompleted(i.jobs[1].status);
  }

  lemma SecondExits(s: State)
    requires TwoJobs(s) && HasReturned(s.jobs[1]) && s.jobs[0].status.Waiting? && s.jobs[0].options == MANUAL
    ensures Enabled(s, ExitOp(1, map[])) && Inv(Next(s, ExitOp(1, map[])))
    ensures var r := Next(s, ExitOp(1, map[]));
      && TwoJobs(r) && r.jobs[0].status.Pending? && r.jobs[1].status.Pending?
      && r.jobs[0].options == r.jobs[1].options == MANUAL
  {
    StepKeepsInv(s, ExitOp(1, map[]));
    AfterIdle(s, 1);
    var i := WithJob(s, 1, s.jobs[1].(co := s.jobs[1].co.(busy := false)));
    CompletedOutcome(i, 1, map[]);
    assert 1 in i.txns[0].members && 0 in i.txns[0].members && !i.jobs[1].options.autoFinalize;
  }

  // Two jobs of one group complete without an error.  The first one is finalized,
  // and the prepare callback of the second fails: one commits and the other aborts.
  lemma FinalizeMayMixOutcomes() returns (ops: seq<Op>)
    ensures IsRun(Start(), ops)
    ensures var r := After(Start(), ops);
      && IsMixed(r, 0) && 0 in r.jobs && 1 in r.jobs && r.jobs[0].calls == Calls(1, 0) && r.jobs[1].calls == Calls(0, 1)
  {
    ops := TwoReturned();
    var s := After(Start(), ops);
    FirstExits(s);
    OneStep(s, ExitOp(0, map[]));
    RunConcat(Start(), ops, [ExitOp(0, map[])]);
    ops := ops + [ExitOp(0, map[])];
    s := After(Start(), ops);
    SecondExits(s);
    OneStep(s, ExitOp(1, map[]));
    RunConcat(Start(), ops, [ExitOp(1, map[])]);
    ops := ops + [ExitOp(1, map[])];
    s := After(Start(), ops);
    var results := map[1 := -5];
    MixedOutcomeIff(s, 0, results);
    assert FirstFailing(s.jobs, [1, 0], results) == Some(1);
    RunConcat(Start(), ops, FinalizeRun(s, 0, results));
    ops := ops + FinalizeRun(s, 0, results);
  }
}
