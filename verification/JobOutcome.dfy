/**
 What a group of jobs guarantees in every run (xemu/job.c:760-1113).
 */
module JobOutcome {

  import opened Sequences
  import opened Wrappers
  import opened JobLife
  import opened JobGroup

  ghost predicate IsRun(s: State, ops: seq<Op>)
    requires Inv(s)
    decreases |ops|
  {
    ops == [] || (Enabled(s, ops[0]) && (StepKeepsInv(s, ops[0]); IsRun(Next(s, ops[0]), ops[1..])))
  }

  // In every run all steps are free of assertion failures, and the invariant holds.
  ghost function After(s: State, ops: seq<Op>): (r: State)
    requires Inv(s) && IsRun(s, ops)
    ensures Inv(r)
    decreases |ops|
  {
    if ops == [] then s else (StepKeepsInv(s, ops[0]); After(Next(s, ops[0]), ops[1..]))
  }

  // No jobs and no groups.
  ghost function Start(): (s: State)
    ensures Inv(s)
  {
    State(map[], map[])
  }

  // The pause counter is the sum of its reasons, in every state of every run.
  lemma PauseCountIsExact(ops: seq<Op>, j: nat)
    requires IsRun(Start(), ops) && j in After(Start(), ops).jobs
    ensures var job := After(Start(), ops).jobs[j]; var p := job.pauses;
      && p.count == (if job.co.started then 0 else 1) + (if p.user then 1 else 0) + p.drains
      && (p.failedIo ==> p.user) && (p.user ==> p.count > 0)
  {
  }

  // ------------------------------------------------------------- all or nothing

  // Commits happen for all jobs of a group or for none; in an aborting group only
  // the survivor can commit; and an emptied group has called back everyone once.
  lemma AllOrNothing(ops: seq<Op>, t: nat)
    requires IsRun(Start(), ops) && t in After(Start(), ops).txns
    ensures var s := After(Start(), ops); var txn := s.txns[t];
      && (forall k :: k in txn.joined ==> k in s.jobs)
      && (!txn.aborting ==>
            || (forall k :: k in txn.joined ==> s.jobs[k].calls == Calls(0, 0))
            || (forall k :: k in txn.joined ==> s.jobs[k].calls == Calls(1, 0) && s.jobs[k].ret == 0))
      && (txn.aborting ==> forall k :: k in txn.joined && txn.survivor != Some(k) ==> s.jobs[k].calls.commits == 0)
      && (txn.members == [] ==> forall k :: k in txn.joined ==>
            s.jobs[k].calls != Calls(0, 0) && (txn.aborting && txn.survivor != Some(k) ==> s.jobs[k].calls == Calls(0, 1)))
  {
  }

  // ----------------------------------------------------------- completed is final

  lemma CompletedStays(s: State, op: Op)
    requires Inv(s) && Enabled(s, op)
    ensures StayCompleted(s, Next(s, op))
  {
    match op
    case LocalStep(j, lop) => LocalKeepsOk(s.jobs[j], lop);
    case ExitOp(j, results) => ExitStays(s, j, results);
    case CancelJob(j, force, results) => CancelStays(s, j, force, results);
    case FinalizeOp(j, results) => FinalizeStays(s, j, results);
    case AbortRound(t) =>
      FirstIsFinalizable(s, t);
      FinalizedOk(s.jobs[s.txns[t].members[0]]);
    case _ =>
  }

  lemma ExitStays(s: State, j: nat, results: map<nat, int>)
    requires Inv(s) && Enabled(s, ExitOp(j, results))
    ensures StayCompleted(s, Next(s, ExitOp(j, results)))
  {
    AfterIdle(s, j);
    CompletedOk(WithJob(s, j, s.jobs[j].(co := s.jobs[j].co.(busy := false))), j, results);
  }

  lemma CancelStays(s: State, j: nat, force: bool, results: map<nat, int>)
    requires Inv(s) && Enabled(s, CancelJob(j, force, results))
    ensures StayCompleted(s, CancelStep(s, j, force, results))
  {
    if !s.jobs[j].status.Concluded? {
      CancelledGroupOk(s, j, force, results);
    }
  }

  lemma FinalizeStays(s: State, j: nat, results: map<nat, int>)
    requires Inv(s) && Enabled(s, FinalizeOp(j, results))
    ensures StayCompleted(s, Next(s, FinalizeOp(j, results)))
  {
    PendingTogether(s, j);
    assert TxnOk(s, s.jobs[j].txn.value) && j in s.txns[s.jobs[j].txn.value].members;
    DoFinalizeOk(s, j, results);
  }

  // A completed job never becomes uncompleted.
  lemma {:induction false} CompletedForever(s: State, ops: seq<Op>, j: nat)
    requires Inv(s) && IsRun(s, ops) && j in s.jobs && IsCompleted(s.jobs[j].status)
    ensures j in After(s, ops).jobs && IsCompleted(After(s, ops).jobs[j].status)
    decreases |ops|
  {
    if ops != [] {
      CompletedStays(s, ops[0]);
      StepKeepsInv(s, ops[0]);
      CompletedForever(Next(s, ops[0]), ops[1..], j);
    }
  }

  // ---------------------------------------------------------------- finalization

  // The member whose prepare callback fails first.
  ghost function FirstFailing(jobs: map<nat, Job>, members: seq<nat>, results: map<nat, int>): Option<nat> {
    if members == [] then None
    else if members[0] in jobs && jobs[members[0]].options.hasPrepare && Result(results, members[0]) != 0 then Some(members[0])
    else FirstFailing(jobs, members[1..], results)
  }

  lemma {:induction false} FailingSame(jobs: map<nat, Job>, p: map<nat, Job>, members: seq<nat>, results: map<nat, int>)
    requires forall m :: m in members ==> m in jobs && m in p && p[m].options == jobs[m].options
    ensures FirstFailing(jobs, members, results) == FirstFailing(p, members, results)
  {
    if members != [] {
      assert members[0] in members && forall m :: m in members[1..] ==> m in members;
      FailingSame(jobs, p, members[1..], results);
    }
  }

  // Preparing marks the first failing member and no other.
  lemma {:induction false} PrepareStops(jobs: map<nat, Job>, members: seq<nat>, results: map<nat, int>)
    requires NoDuplicates(members)
    requires forall m :: m in members ==> m in jobs && jobs[m].status.Pending? && JobOk(jobs[m]) && !jobs[m].cancel.forced
    ensures var p := PrepareAll(jobs, members, results); var f := FirstFailing(jobs, members, results);
      && p.Keys == jobs.Keys
      && (f.Some? ==> f.value in members)
      && (forall m :: m in members ==> (p[m].ret == 0 <==> f != Some(m)))
    decreases |members|
  {
    PrepareAllOk(jobs, members, results);
    if members != [] {
      var m := members[0];
      var job := Prepared(jobs[m], Result(results, m));
      var rest := members[1..];
      assert forall k :: k in rest ==> k in members && k != m;
      if job.ret == 0 {
        FailingSame(jobs, jobs[m := job], rest, results);
        PrepareStops(jobs[m := job], rest, results);
        PrepareAllOk(jobs[m := job], rest, results);
      }
      assert forall k :: k in members ==> k == m || k in rest;
    }
  }

  // The group of j has begun to abort: its members are the same, and all but j are
  // cancelled by force.
  ghost predicate BeganAbort(s: State, r: State, t: nat, j: nat, survivor: Option<nat>) {
    && t in s.txns && t in r.txns && r.txns[t] == s.txns[t].(aborting := true, survivor := survivor)
    && j in r.jobs
    && forall m :: m in s.txns[t].members && m != j ==> m in r.jobs && r.jobs[m].cancel.forced
  }

  // What finalizing the group of j means.
  ghost predicate FinalizeMeaning(s: State, r: State, j: nat, results: map<nat, int>)
    requires j in s.jobs && s.jobs[j].txn.Some? && s.jobs[j].txn.value in s.txns
  {
    var t := s.jobs[j].txn.value;
    var f := FirstFailing(s.jobs, s.txns[t].members, results);
    if f.None? then
      && t in r.txns && r.txns[t] == s.txns[t].(members := [])
      && forall k :: k in s.txns[t].joined ==> k in r.jobs && r.jobs[k].calls == Calls(1, 0)
    else
      && BeganAbort(s, r, t, j, if f == Some(j) then None else Some(j))
      && !r.jobs[j].cancel.forced
      && (forall m :: m in s.txns[t].members ==> m in r.jobs && IsCompleted(r.jobs[m].status))
  }

  // Finalizing commits the whole group if no prepare callback fails.  Otherwise
  // the group aborts; the finalized job survives unless it is the one that failed.
  lemma FinalizeOutcome(s: State, j: nat, results: map<nat, int>)
    requires JobsOk(s) && j in s.jobs && s.jobs[j].txn.Some? && Whole(s, s.jobs[j].txn.value)
    requires AllPending(s, s.jobs[j].txn.value) && !s.txns[s.jobs[j].txn.value].aborting
    ensures FinalizeMeaning(s, DoFinalize(s, j, results), j, results)
  {
    var t := s.jobs[j].txn.value;
    var members := s.txns[t].members;
    PrepareAllOk(s.jobs, members, results);
    PrepareStops(s.jobs, members, results);
    var p := s.(jobs := PrepareAll(s.jobs, members, results));
    AfterPrepare(s, p, t);
    if FirstFailing(s.jobs, members, results).None? {
      FinalizeAllOk(p, t);
    } else {
      assert AnyFailed(p.jobs, members);
      assert j in members;
      AbortOutcome(p, j, t);
    }
  }

  lemma AbortOutcome(p: State, j: nat, t: nat)
    requires JobsOk(p) && j in p.jobs && p.jobs[j].txn == Some(t) && Shape(p, t) && !p.txns[t].aborting
    requires forall m :: m in p.txns[t].members ==> IsCompleted(p.jobs[m].status)
    ensures var r := TxnAbort(p, j);
      && BeganAbort(p, r, t, j, if p.jobs[j].ret == 0 && !p.jobs[j].cancel.forced then Some(j) else None)
      && r.jobs[j] == p.jobs[j]
      && forall m :: m in p.txns[t].members ==> m in r.jobs && IsCompleted(r.jobs[m].status)
  {
  }

  // What the completion of j means for its group.
  ghost predicate CompletedMeaning(s: State, r: State, j: nat, results: map<nat, int>)
    requires j in s.jobs && s.jobs[j].txn.Some? && s.jobs[j].txn.value in s.txns
  {
    var t := s.jobs[j].txn.value;
    if s.txns[t].aborting then
      r.txns == s.txns && j in r.jobs && r.jobs == s.jobs[j := r.jobs[j]] && r.jobs[j].status.Aborting? && r.jobs[j].ret != 0
    else if s.jobs[j].ret != 0 || s.jobs[j].cancel.forced then
      BeganAbort(s, r, t, j, None) && r.jobs[j].status.Aborting? && r.jobs[j].ret != 0
    else if exists m :: m in s.txns[t].members && m != j && m in s.jobs && !IsCompleted(s.jobs[m].status) then
      r == WithJob(s, j, s.jobs[j].(status := Waiting))
    else if exists m :: m in s.txns[t].members && m in s.jobs && !s.jobs[m].options.autoFinalize then
      && r.txns == s.txns
      && forall m :: m in s.txns[t].members ==> m in s.jobs && m in r.jobs && r.jobs[m] == s.jobs[m].(status := Pending)
    else
      FinalizeMeaning(s, r, j, results)
  }

  // An error or a forced cancel aborts the group.  Otherwise the last member to
  // complete makes all of them pending and, if none waits for its user, finalizes them.
  lemma CompletedOutcome(s: State, j: nat, results: map<nat, int>)
    requires JobsOk(s) && j in s.jobs && MayComplete(s.jobs[j]) && TxnOk(s, s.jobs[j].txn.value)
    ensures CompletedMeaning(s, Completed(s, j, results), j, results)
  {
    var t := s.jobs[j].txn.value;
    AfterUpdateRc(s, j);
    assert j in s.txns[t].members;
    if s.txns[t].aborting {
      assert DoomedMember(s.jobs[j], s.txns[t].survivor == Some(j));
    } else if s.jobs[j].ret == 0 && !s.jobs[j].cancel.forced {
      SuccessOutcome(s, j, results);
    }
  }

  lemma SuccessOutcome(s: State, j: nat, results: map<nat, int>)
    requires MaySucceed(s, j)
    ensures CompletedMeaning(s, TxnSuccess(s, j, results), j, results)
  {
    var t := s.jobs[j].txn.value;
    AfterWaiting(s, j);
    var w := WithJob(s, j, Transition(s.jobs[j], Waiting));
    if AllCompleted(w, t) {
      forall m | m in s.txns[t].members && m != j
        ensures IsCompleted(s.jobs[m].status)
      {
        assert w.jobs[m] == s.jobs[m];
      }
      PendingOutcome(s, w, j, t, results);
    } else {
      var m :| m in w.txns[t].members && !IsCompleted(w.jobs[m].status);
      assert m != j && m in s.txns[t].members && w.jobs[m] == s.jobs[m];
    }
  }

  // The members once they are pending.
  ghost predicate NowPending(s: State, p: State, j: nat, t: nat) {
    && j in s.jobs && s.jobs[j].txn == Some(t) && t in s.txns && j in p.jobs && p.jobs[j].txn == Some(t) && p.txns == s.txns
    && forall m :: m in s.txns[t].members ==> m in s.jobs && m in p.jobs && p.jobs[m] == s.jobs[m].(status := Pending)
  }

  lemma BecamePending(s: State, w: State, j: nat, t: nat)
    requires Shape(s, t) && j in s.jobs && s.jobs[j].txn == Some(t) && w == WithJob(s, j, s.jobs[j].(status := Waiting))
    requires Shape(w, t) && forall m :: m in w.txns[t].members ==> w.jobs[m].status.Waiting?
    ensures NowPending(s, AllToPending(w, t), j, t)
  {
  }

  lemma PendingOutcome(s: State, w: State, j: nat, t: nat, results: map<nat, int>)
    requires MaySucceed(s, j) && s.jobs[j].txn == Some(t) && w == WithJob(s, j, Transition(s.jobs[j], Waiting))
    requires JobsOk(w) && Shape(w, t) && Quiet(w, t) && forall m :: m in w.txns[t].members ==> w.jobs[m].status.Waiting?
    requires forall m :: m in s.txns[t].members && m != j ==> IsCompleted(s.jobs[m].status)
    ensures CompletedMeaning(s, BecomePending(w, j, results), j, results)
  {
    AfterPending(w, t);
    var p := AllToPending(w, t);
    BecamePending(s, w, j, t);
    if forall m :: m in p.txns[t].members ==> p.jobs[m].options.autoFinalize {
      FinalizeOutcome(p, j, results);
    }
    PendingMeaning(s, p, BecomePending(w, j, results), j, t, results);
  }

  lemma PendingMeaning(s: State, p: State, r: State, j: nat, t: nat, results: map<nat, int>)
    requires NowPending(s, p, j, t) && !s.txns[t].aborting && s.jobs[j].ret == 0 && !s.jobs[j].cancel.forced
    requires forall m :: m in s.txns[t].members && m != j ==> IsCompleted(s.jobs[m].status)
    requires if exists m :: m in p.txns[t].members && !p.jobs[m].options.autoFinalize then r == p
             else FinalizeMeaning(p, r, j, results)
    ensures CompletedMeaning(s, r, j, results)
  {
    FailingSame(s.jobs, p.jobs, s.txns[t].members, results);
  }

  // A round of the abort loop calls abort, except for the survivor, whose commit
  // callback runs unless it has been force-cancelled meanwhile.
  lemma AbortRoundOutcome(s: State, t: nat)
    requires Inv(s) && Enabled(s, AbortRound(t))
    ensures var m := s.txns[t].members[0]; var r := Next(s, AbortRound(t));
      && m in r.jobs && r.txns == s.txns[t := s.txns[t].(members := s.txns[t].members[1..])]
      && r.jobs == s.jobs[m := r.jobs[m]]
      && r.jobs[m].calls == if s.txns[t].survivor == Some(m) && !s.jobs[m].cancel.forced then Calls(1, 0) else Calls(0, 1)
  {
    FirstIsFinalizable(s, t);
    var m := s.txns[t].members[0];
    assert TxnOk(s, t) && m in s.txns[t].members;
    assert DoomedMember(s.jobs[m], s.txns[t].survivor == Some(m));
    FinalizedOk(s.jobs[m]);
    WithoutFirst(s.txns[t].members);
  }

  lemma WithoutAbsent(s: seq<nat>, j: nat)
    requires j !in s
    ensures Without(s, j) == s
  {
  }

  lemma WithoutFirst(s: seq<nat>)
    requires NoDuplicates(s) && s != []
    ensures Without(s, s[0]) == s[1..]
  {
    WithoutAbsent(s[1..], s[0]);
  }

  // --------------------------------------------------------------- failed groups

  // A group that aborts, with or without a survivor, stays so.
  ghost predicate SameVerdict(s: State, r: State, t: nat) {
    t in s.txns && t in r.txns && r.txns[t].aborting == s.txns[t].aborting && r.txns[t].survivor == s.txns[t].survivor
  }

  lemma CompletedSameVerdict(s: State, j: nat, results: map<nat, int>, t: nat)
    requires JobsOk(s) && j in s.jobs && MayComplete(s.jobs[j]) && TxnOk(s, s.jobs[j].txn.value)
    requires t in s.txns && s.txns[t].aborting
    ensures SameVerdict(s, Completed(s, j, results), t)
  {
    CompletedOk(s, j, results);
    if s.jobs[j].txn.value == t {
      assert j in s.txns[t].members && DoomedMember(s.jobs[j], s.txns[t].survivor == Some(j));
      AfterUpdateRc(s, j);
    }
  }

  lemma AfterAsyncSameVerdict(c: State, j: nat, results: map<nat, int>, t: nat)
    requires JobsOk(c) && j in c.jobs && c.jobs[j].txn.Some? && t in c.txns && c.txns[t].aborting
    requires !c.jobs[j].co.started ==> MayComplete(c.jobs[j]) && TxnOk(c, c.jobs[j].txn.value)
    ensures SameVerdict(c, AfterAsync(c, j, results), t)
  {
  }

  lemma CancelSameVerdict(s: State, j: nat, force: bool, results: map<nat, int>, t: nat)
    requires Inv(s) && Enabled(s, CancelJob(j, force, results)) && t in s.txns && s.txns[t].aborting
    ensures SameVerdict(s, CancelStep(s, j, force, results), t)
  {
    if !s.jobs[j].status.Concluded? {
      CancelAsyncOk(s.jobs[j], force);
      AfterCancel(s, j, force);
      AfterAsyncSameVerdict(WithJob(s, j, CancelAsync(s.jobs[j], force)), j, results, t);
    }
  }

  lemma ExitSameVerdict(s: State, j: nat, results: map<nat, int>, t: nat)
    requires Inv(s) && Enabled(s, ExitOp(j, results)) && t in s.txns && s.txns[t].aborting
    ensures SameVerdict(s, Next(s, ExitOp(j, results)), t)
  {
    AfterIdle(s, j);
    CompletedSameVerdict(WithJob(s, j, s.jobs[j].(co := s.jobs[j].co.(busy := false))), j, results, t);
  }

  lemma FinalizeSameVerdict(s: State, j: nat, results: map<nat, int>, t: nat)
    requires Inv(s) && Enabled(s, FinalizeOp(j, results)) && t in s.txns && s.txns[t].aborting
    ensures SameVerdict(s, Next(s, FinalizeOp(j, results)), t)
  {
    PendingTogether(s, j);
    assert TxnOk(s, s.jobs[j].txn.value) && j in s.txns[s.jobs[j].txn.value].members;
    DoFinalizeOk(s, j, results);
  }

  lemma AbortingStays(s: State, op: Op, t: nat)
    requires Inv(s) && Enabled(s, op) && t in s.txns && s.txns[t].aborting
    ensures SameVerdict(s, Next(s, op), t)
  {
    match op
    case ExitOp(j, results) => ExitSameVerdict(s, j, results, t);
    case CancelJob(j, force, results) => CancelSameVerdict(s, j, force, results, t);
    case FinalizeOp(j, results) => FinalizeSameVerdict(s, j, results, t);
    case AbortRound(u) => FirstIsFinalizable(s, u);
    case _ =>
  }

  // A member that ends with an error or after a forced cancel fails its group.
  lemma FailureAbortsGroup(s: State, j: nat, results: map<nat, int>)
    requires Inv(s) && Enabled(s, ExitOp(j, results)) && (s.jobs[j].ret != 0 || s.jobs[j].cancel.forced)
    requires !s.txns[s.jobs[j].txn.value].aborting
    ensures var t := s.jobs[j].txn.value; var r := Next(s, ExitOp(j, results));
      t in r.txns && r.txns[t].aborting && r.txns[t].survivor.None?
  {
  }

  // A job that has not completed, and can no longer do so without an error.
  predicate IsDoomed(j: Job) {
    j.co.started && !IsCompleted(j.status) && (j.cancel.forced || j.ret != 0)
  }

  // Group t has failed, or will when its member m ends.
  ghost predicate Failing(s: State, t: nat, m: nat) {
    && t in s.txns
    && if s.txns[t].aborting then s.txns[t].survivor.None?
       else m in s.jobs && s.jobs[m].txn == Some(t) && IsDoomed(s.jobs[m])
  }

  lemma LocalKeepsDoomed(j: Job, op: LocalOp)
    requires JobOk(j) && LocalEnabled(j, op) && IsDoomed(j)
    ensures IsDoomed(Local(j, op))
  {
  }

  lemma TxnAbortFails(s: State, i: nat, t: nat, m: nat)
    requires JobsOk(s) && i in s.jobs && s.jobs[i].txn.Some? && (s.jobs[i].ret != 0 || s.jobs[i].cancel.forced)
    requires Failing(s, t, m) || (t in s.txns && !s.txns[t].aborting && s.jobs[i].txn == Some(t))
    requires forall u :: u in s.txns ==> Shape(s, u)
    ensures Failing(TxnAbort(s, i), t, m)
  {
    if s.jobs[i].txn != Some(t) && !s.txns[t].aborting {
      assert m !in s.txns[s.jobs[i].txn.value].members;
    }
  }

  ghost predicate Shapes(s: State) {
    forall t :: t in s.txns ==> Shape(s, t)
  }

  lemma ShapesStay(s: State, j: nat, job: Job)
    requires Shapes(s) && j in s.jobs && job.txn == s.jobs[j].txn
    ensures Shapes(WithJob(s, j, job))
  {
  }

  lemma CompletedKeepsFailing(s: State, i: nat, results: map<nat, int>, t: nat, m: nat)
    requires JobsOk(s) && Shapes(s) && i in s.jobs && MayComplete(s.jobs[i]) && TxnOk(s, s.jobs[i].txn.value)
    requires Failing(s, t, m) && !s.txns[t].aborting
    ensures Failing(Completed(s, i, results), t, m)
  {
    AfterUpdateRc(s, i);
    var u := WithJob(s, i, UpdateRc(s.jobs[i]));
    if u.jobs[i].ret != 0 {
      ShapesStay(s, i, UpdateRc(s.jobs[i]));
      TxnAbortFails(u, i, t, m);
    } else if s.jobs[i].txn == Some(t) {
      AfterWaiting(u, i);
      assert m in u.txns[t].members;
    } else {
      TxnSuccessOk(u, i, results);
    }
  }

  lemma CancelKeepsFailing(s: State, i: nat, force: bool, results: map<nat, int>, t: nat, m: nat)
    requires Inv(s) && Enabled(s, CancelJob(i, force, results)) && Failing(s, t, m) && !s.txns[t].aborting
    ensures Failing(CancelStep(s, i, force, results), t, m)
  {
    if !s.jobs[i].status.Concluded? {
      CancelAsyncOk(s.jobs[i], force);
      AfterCancel(s, i, force);
      var c := WithJob(s, i, CancelAsync(s.jobs[i], force));
      ShapesStay(s, i, c.jobs[i]);
      AfterAsyncKeepsFailing(c, i, results, t, m);
    }
  }

  lemma AfterAsyncKeepsFailing(c: State, i: nat, results: map<nat, int>, t: nat, m: nat)
    requires JobsOk(c) && Shapes(c) && i in c.jobs && c.jobs[i].txn.Some? && Failing(c, t, m) && !c.txns[t].aborting
    requires !c.jobs[i].co.started ==> MayComplete(c.jobs[i]) && TxnOk(c, c.jobs[i].txn.value)
    ensures Failing(AfterAsync(c, i, results), t, m)
  {
    if !c.jobs[i].co.started {
      CompletedKeepsFailing(c, i, results, t, m);
    } else if c.jobs[i].co.deferred && c.jobs[i].cancel.forced {
      TxnAbortFails(c, i, t, m);
    }
  }

  lemma FinalizeKeepsFailing(s: State, i: nat, results: map<nat, int>, t: nat, m: nat)
    requires Inv(s) && Enabled(s, FinalizeOp(i, results)) && Failing(s, t, m) && !s.txns[t].aborting
    ensures Failing(Next(s, FinalizeOp(i, results)), t, m)
  {
    var u := s.jobs[i].txn.value;
    PendingTogether(s, i);
    assert TxnOk(s, u) && i in s.txns[u].members && m in s.txns[t].members;
    DoFinalizeOk(s, i, results);
  }

  lemma StepKeepsFailing(s: State, op: Op, t: nat, m: nat)
    requires Inv(s) && Enabled(s, op) && Failing(s, t, m)
    ensures Failing(Next(s, op), t, m)
  {
    if s.txns[t].aborting {
      AbortingStays(s, op, t);
    } else {
      match op
      case LocalStep(j, lop) => LocalStepKeepsFailing(s, j, lop, t, m);
      case ExitOp(i, results) => ExitKeepsFailing(s, i, results, t, m);
      case CancelJob(i, force, results) => CancelKeepsFailing(s, i, force, results, t, m);
      case FinalizeOp(i, results) => FinalizeKeepsFailing(s, i, results, t, m);
      case AbortRound(u) => FirstIsFinalizable(s, u);
      case _ =>
    }
  }

  lemma ExitKeepsFailing(s: State, i: nat, results: map<nat, int>, t: nat, m: nat)
    requires Inv(s) && Enabled(s, ExitOp(i, results)) && Failing(s, t, m) && !s.txns[t].aborting
    ensures Failing(Next(s, ExitOp(i, results)), t, m)
  {
    AfterIdle(s, i);
    var job := s.jobs[i].(co := s.jobs[i].co.(busy := false));
    ShapesStay(s, i, job);
    CompletedKeepsFailing(WithJob(s, i, job), i, results, t, m);
  }

  lemma LocalStepKeepsFailing(s: State, j: nat, lop: LocalOp, t: nat, m: nat)
    requires Inv(s) && Enabled(s, LocalStep(j, lop)) && Failing(s, t, m) && !s.txns[t].aborting
    ensures Failing(Next(s, LocalStep(j, lop)), t, m)
  {
    LocalKeepsOk(s.jobs[j], lop);
    if j == m {
      LocalKeepsDoomed(s.jobs[j], lop);
    }
  }

  // Once a group has failed, or one of its jobs is force-cancelled or has ended with
  // an error, no job of the group ever commits, and each that is finalized aborts once.
  lemma {:induction false} FailedGroupNeverCommits(s: State, ops: seq<Op>, t: nat, m: nat)
    requires Inv(s) && IsRun(s, ops) && Failing(s, t, m)
    ensures var r := After(s, ops);
      && t in r.txns
      && forall k :: k in r.txns[t].joined ==>
           k in r.jobs && r.jobs[k].calls == if k in r.txns[t].members then Calls(0, 0) else Calls(0, 1)
    decreases |ops|
  {
    if ops == [] {
      assert TxnOk(s, t);
      forall k | k in s.txns[t].joined
        ensures JobOk(s.jobs[k])
      {
      }
    } else {
      StepKeepsFailing(s, ops[0], t, m);
      StepKeepsInv(s, ops[0]);
      FailedGroupNeverCommits(Next(s, ops[0]), ops[1..], t, m);
    }
  }

  // A forced cancel of any member, running or not, fails its group; it does so at
  // once if the member has not started or has run to its end.
  lemma ForcedCancelFailsGroup(s: State, j: nat, results: map<nat, int>)
    requires Inv(s) && Enabled(s, CancelJob(j, true, results)) && s.jobs[j].txn.Some?
    requires s.txns[s.jobs[j].txn.value].aborting ==> s.txns[s.jobs[j].txn.value].survivor.None?
    ensures var t := s.jobs[j].txn.value; var r := Next(s, CancelJob(j, true, results));
      && Failing(r, t, j)
      && (s.jobs[j].co.deferred || !s.jobs[j].co.started ==> r.txns[t].aborting)
  {
    var t := s.jobs[j].txn.value;
    if s.txns[t].aborting {
      AbortingStays(s, CancelJob(j, true, results), t);
    } else {
      CancelAsyncOk(s.jobs[j], true);
      AfterCancel(s, j, true);
      ForcedJobFails(WithJob(s, j, CancelAsync(s.jobs[j], true)), j, t, results);
    }
  }

  lemma ForcedJobFails(c: State, j: nat, t: nat, results: map<nat, int>)
    requires JobsOk(c) && j in c.jobs && c.jobs[j].txn == Some(t) && !c.txns[t].aborting && c.jobs[j].cancel.forced
    requires !c.jobs[j].co.started ==> MayComplete(c.jobs[j]) && TxnOk(c, t)
    ensures var r := AfterAsync(c, j, results);
      && Failing(r, t, j)
      && (c.jobs[j].co.deferred || !c.jobs[j].co.started ==> r.txns[t].aborting)
  {
    if !c.jobs[j].co.started {
      AfterUpdateRc(c, j);
    }
  }

  // A run function that returns an error, or returns after a forced cancel, fails the
  // group of its job, and one that returns without an error does not.
  lemma ReturnFailsGroupIff(s: State, m: nat, ret: int, t: nat)
    requires Inv(s) && Enabled(s, LocalStep(m, ReturnOp(ret))) && s.jobs[m].txn == Some(t) && !s.txns[t].aborting
    ensures Failing(Next(s, LocalStep(m, ReturnOp(ret))), t, m) <==> ret != 0 || s.jobs[m].cancel.forced
  {
    LocalHasEffect(s.jobs[m], ReturnOp(ret));
    LocalKeepsOk(s.jobs[m], ReturnOp(ret));
  }

  // In a run in which the run function of a job returns an error, no job of its group
  // commits afterwards, and each that has left the group has aborted exactly once.
  lemma ErrorReturnNeverCommits(s: State, m: nat, ret: int, ops: seq<Op>, t: nat)
    requires Inv(s) && Enabled(s, LocalStep(m, ReturnOp(ret))) && ret != 0 && s.jobs[m].txn == Some(t)
    requires s.txns[t].aborting ==> s.txns[t].survivor.None?
    requires IsRun(s, [LocalStep(m, ReturnOp(ret))] + ops)
    ensures var r := After(s, [LocalStep(m, ReturnOp(ret))] + ops);
      && t in r.txns
      && forall k :: k in r.txns[t].joined ==>
           k in r.jobs && r.jobs[k].calls == if k in r.txns[t].members then Calls(0, 0) else Calls(0, 1)
  {
    var op := LocalStep(m, ReturnOp(ret));
    var all := [op] + ops;
    assert all[0] == op && all[1..] == ops;
    StepKeepsInv(s, op);
    if s.txns[t].aborting {
      AbortingStays(s, op, t);
    } else {
      ReturnFailsGroupIff(s, m, ret, t);
    }
    FailedGroupNeverCommits(Next(s, op), ops, t, m);
  }

  // -------------------------------------------------------------- composing runs

  lemma {:induction false} RunConcat(s: State, a: seq<Op>, b: seq<Op>)
    requires Inv(s) && IsRun(s, a) && IsRun(After(s, a), b)
    ensures IsRun(s, a + b) && After(s, a + b) == After(After(s, a), b)
    decreases |a|
  {
    if a == [] {
      assert a + b == b;
    } else {
      assert (a + b)[0] == a[0] && (a + b)[1..] == a[1..] + b;
      StepKeepsInv(s, a[0]);
      RunConcat(Next(s, a[0]), a[1..], b);
    }
  }

  lemma OneStep(s: State, op: Op)
    requires Inv(s) && Enabled(s, op)
    ensures IsRun(s, [op]) && After(s, [op]) == Next(s, op)
  {
    StepKeepsInv(s, op);
    assert [op][1..] == [];
    assert After(Next(s, op), []) == Next(s, op);
  }
}
