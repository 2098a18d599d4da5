/**
 The loops over the members of a group, in place (xemu/job.c:180-206, 915-1075).
 */
module JobManager {

  import opened Sequences
  import opened Wrappers
  import opened JobLife
  import opened JobGroup
  import opened JobOutcome
  import opened JobAbort

  class Manager {
    var state: State

    // job_completed_txn_abort_locked, up to the loop that empties the group.
    method CompletedTxnAbort(j: nat)
      requires JobsOk(state) && j in state.jobs && state.jobs[j].txn.Some? && Shape(state, state.jobs[j].txn.value)
      modifies this
      ensures state == TxnAbort(old(state), j)
    {
      var t := state.jobs[j].txn.value;
      var txn := state.txns[t];
      if txn.aborting {
        return;
      }
      var survivor := if state.jobs[j].ret == 0 && !state.jobs[j].cancel.forced then Some(j) else None;
      CancelMembers(txn.members, j);
      state := state.(txns := state.txns[t := txn.(aborting := true, survivor := survivor)]);
    }

    method CancelMembers(members: seq<nat>, j: nat)
      requires forall k :: k in state.jobs ==> JobOk(state.jobs[k])
      requires NoDuplicates(members) && forall m :: m in members ==> m in state.jobs
      modifies this
      ensures state == old(state).(jobs := CancelOthers(old(state).jobs, members, j))
    {
      ghost var jobs := state.jobs;
      for i := 0 to |members|
        invariant state == old(state).(jobs := CancelOthers(jobs, members[..i], j))
      {
        var m := members[i];
        CancelNext(jobs, members, j, i);
        if m != j {
          state := WithJob(state, m, CancelAsync(state.jobs[m], true));
        }
      }
      assert members[..|members|] == members;
    }

    // job_finalize_single_locked.
    method FinalizeSingle(j: nat)
      requires JobsOk(state) && j in state.jobs && state.jobs[j].txn.Some? && Finalizable(state.jobs[j])
      modifies this
      ensures state == FinalizeMember(old(state), j)
    {
      var t := state.jobs[j].txn.value;
      var txn := state.txns[t];
      state := State(state.jobs[j := Finalized(state.jobs[j])], state.txns[t := txn.(members := Without(txn.members, j))]);
    }

    // job_txn_apply_locked with job_prepare_locked: stop at the first failure.
    method PrepareMembers(members: seq<nat>, results: map<nat, int>) returns (rc: int)
      requires NoDuplicates(members) && forall m :: m in members ==> m in state.jobs && state.jobs[m].status.Pending?
      modifies this
      ensures state == old(state).(jobs := PrepareAll(old(state).jobs, members, results))
      ensures rc != 0 <==> AnyFailed(state.jobs, members)
    {
      ghost var jobs := state.jobs;
      rc := 0;
      var i := 0;
      while i < |members|
        invariant i <= |members| && rc == 0 && state == old(state).(jobs := state.jobs) && state.jobs.Keys == jobs.Keys
        invariant MayPrepare(state.jobs, members, i)
        invariant PrepareAll(jobs, members, results) == PrepareAll(state.jobs, members[i..], results)
      {
        var m := members[i];
        PrepareUnfolds(state.jobs, members, i, results);
        var job := Prepared(state.jobs[m], Result(results, m));
        state := WithJob(state, m, job);
        rc := job.ret;
        if rc != 0 {
          return;
        }
        i := i + 1;
      }
      assert members[..i] == members;
    }

    // job_txn_apply_locked with job_finalize_single_locked.
    method FinalizeMembers(t: nat)
      requires JobsOk(state) && Shape(state, t)
      requires forall m :: m in state.txns[t].members ==> Finalizable(state.jobs[m])
      modifies this
      ensures state == FinalizeAll(old(state), t)
    {
      var members := state.txns[t].members;
      ghost var before := state;
      for i := 0 to |members|
        invariant JobsOk(state) && state == FinalizedUpTo(before, t, members, i)
      {
        Splits(members, i);
        OneMoreFinalized(before, t, members, i);
        FinalizingKeepsJobsOk(state, members[i]);
        FinalizeSingle(members[i]);
      }
      assert members[..|members|] == members && members[|members|..] == [];
    }

    // job_do_finalize_locked.
    method FinalizeGroup(j: nat, results: map<nat, int>)
      requires JobsOk(state) && j in state.jobs && state.jobs[j].txn.Some? && Shape(state, state.jobs[j].txn.value)
      requires AllPending(state, state.jobs[j].txn.value)
      modifies this
      ensures state == DoFinalize(old(state), j, results)
      ensures var t := old(state).jobs[j].txn.value;
        Whole(old(state), t) && !old(state).txns[t].aborting ==> FinalizeMeaning(old(state), state, j, results)
    {
      var t := state.jobs[j].txn.value;
      if Whole(state, t) && !state.txns[t].aborting {
        FinalizeOutcome(state, j, results);
      }
      PrepareAllOk(state.jobs, state.txns[t].members, results);
      var rc := PrepareMembers(state.txns[t].members, results);
      AfterPrepare(old(state), state, t);
      if rc != 0 {
        CompletedTxnAbort(j);
      } else {
        FinalizeMembers(t);
      }
    }

    // job_completed_txn_success_locked.
    method CompletedTxnSuccess(j: nat, results: map<nat, int>)
      requires MaySucceed(state, j)
      modifies this
      ensures state == TxnSuccess(old(state), j, results)
    {
      var t := state.jobs[j].txn.value;
      AfterWaiting(state, j);
      state := WithJob(state, j, Transition(state.jobs[j], Waiting));
      ghost var w := state;
      var members := state.txns[t].members;
      for i := 0 to |members|
        invariant state == w && forall m :: m in members[..i] ==> IsCompleted(w.jobs[m].status)
      {
        if !IsCompleted(state.jobs[members[i]].status) {
          return;
        }
        assert state.jobs[members[i]].ret == 0;
      }
      assert members[..|members|] == members;
      AfterPending(w, t);
      PendMembers(t);
      var manual := NeedsFinalize(t);
      if !manual {
        FinalizeGroup(j, results);
      }
    }

    // job_txn_apply_locked with job_transition_to_pending_locked.
    method PendMembers(t: nat)
      requires Shape(state, t) && forall m :: m in state.txns[t].members ==> state.jobs[m].status.Waiting?
      modifies this
      ensures state == AllToPending(old(state), t)
    {
      var members := state.txns[t].members;
      ghost var jobs := state.jobs;
      for i := 0 to |members|
        invariant state == old(state).(jobs := state.jobs) && state.jobs.Keys == jobs.Keys
        invariant forall k :: k in jobs ==>
          state.jobs[k] == if k in members[..i] then jobs[k].(status := Pending) else jobs[k]
      {
        Splits(members, i);
        var m := members[i];
        state := WithJob(state, m, Transition(state.jobs[m], Pending));
      }
      assert members[..|members|] == members;
      assert state.jobs == AllToPending(old(state), t).jobs;
    }

    // job_txn_apply_locked with job_needs_finalize_locked.
    method NeedsFinalize(t: nat) returns (manual: bool)
      requires Shape(state, t)
      ensures manual <==> exists m :: m in state.txns[t].members && !state.jobs[m].options.autoFinalize
    {
      var members := state.txns[t].members;
      for i := 0 to |members|
        invariant forall m :: m in members[..i] ==> state.jobs[m].options.autoFinalize
      {
        if !state.jobs[members[i]].options.autoFinalize {
          return true;
        }
      }
      assert members[..|members|] == members;
      return false;
    }

    // job_completed_locked.
    method JobCompleted(j: nat, results: map<nat, int>)
      requires JobsOk(state) && j in state.jobs && MayComplete(state.jobs[j]) && TxnOk(state, state.jobs[j].txn.value)
      modifies this
      ensures state == Completed(old(state), j, results)
      ensures CompletedMeaning(old(state), state, j, results)
    {
      CompletedOutcome(state, j, results);
      AfterUpdateRc(state, j);
      state := WithJob(state, j, UpdateRc(state.jobs[j]));
      if state.jobs[j].ret != 0 {
        CompletedTxnAbort(j);
      } else {
        CompletedTxnSuccess(j, results);
      }
    }

    // -------------------------------------------------------- the steps of a run

    // Whatever the coroutine of a job, its user or a drained section does to it.
    method Call(j: nat, op: LocalOp)
      requires Inv(state) && Enabled(state, LocalStep(j, op))
      modifies this
      ensures Inv(state) && state == Next(old(state), LocalStep(j, op))
      ensures HasEffect(old(state).jobs[j], op, state.jobs[j])
    {
      LocalHasEffect(state.jobs[j], op);
      StepKeepsInv(state, LocalStep(j, op));
      state := WithJob(state, j, Local(state.jobs[j], op));
    }

    // job_exit.
    method Exit(j: nat, results: map<nat, int>)
      requires Inv(state) && Enabled(state, ExitOp(j, results))
      modifies this
      ensures Inv(state) && state == Next(old(state), ExitOp(j, results))
    {
      StepKeepsInv(state, ExitOp(j, results));
      AfterIdle(state, j);
      state := WithJob(state, j, state.jobs[j].(co := state.jobs[j].co.(busy := false)));
      JobCompleted(j, results);
    }

    // job_cancel_locked.
    method CancelLocked(j: nat, force: bool, results: map<nat, int>)
      requires Inv(state) && Enabled(state, CancelJob(j, force, results))
      modifies this
      ensures Inv(state) && state == Next(old(state), CancelJob(j, force, results))
    {
      StepKeepsInv(state, CancelJob(j, force, results));
      if state.jobs[j].status.Concluded? {
        state := WithJob(state, j, Dismissed(state.jobs[j]));
        return;
      }
      CancelAsyncOk(state.jobs[j], force);
      AfterCancel(state, j, force);
      state := WithJob(state, j, CancelAsync(state.jobs[j], force));
      if !state.jobs[j].co.started {
        JobCompleted(j, results);
      } else if state.jobs[j].co.deferred {
        if state.jobs[j].cancel.forced {
          CompletedTxnAbort(j);
        }
      } else {
        state := WithJob(state, j, state.jobs[j].(co := Entered(state.jobs[j].co)));
      }
    }

    // job_finalize_locked.
    method FinalizeLocked(j: nat, results: map<nat, int>)
      requires Inv(state) && Enabled(state, FinalizeOp(j, results))
      modifies this
      ensures Inv(state) && state == Next(old(state), FinalizeOp(j, results))
    {
      StepKeepsInv(state, FinalizeOp(j, results));
      PendingTogether(state, j);
      FinalizeGroup(j, results);
    }

    // ------------------------------------------------------------ the abort loop

    // The coroutine of a job is entered, leaves its pause and returns ret.
    method RunToEnd(m: nat, ret: int)
      requires Inv(state) && m in state.jobs && !state.jobs[m].status.Created?
      requires !IsCompleted(state.jobs[m].status) && !state.jobs[m].co.deferred
      modifies this
      ensures Inv(state) && OnlyJob(old(state), state, m)
      ensures state.jobs[m].co.deferred && !IsCompleted(state.jobs[m].status)
    {
      var job := Local(state.jobs[m], EnterOp);
      LocalKeepsOk(state.jobs[m], EnterOp);
      if job.saved.Some? {
        LocalKeepsOk(job, PauseLeaveOp);
        job := Local(job, PauseLeaveOp);
      }
      LocalKeepsOk(job, ReturnOp(ret));
      job := Local(job, ReturnOp(ret));
      OutsideSame(state, m, job);
      state := WithJob(state, m, job);
    }

    // job_finish_sync_locked without a callback.
    method FinishSync(t: nat, m: nat, ret: int)
      requires Inv(state) && t in state.txns && state.txns[t].aborting && m in state.txns[t].members && m in state.jobs
      requires !state.jobs[m].status.Created? && !IsCompleted(state.jobs[m].status)
      modifies this
      ensures Inv(state) && OnlyJob(old(state), state, m) && IsCompleted(state.jobs[m].status)
    {
      if !state.jobs[m].co.deferred {
        RunToEnd(m, ret);
      }
      ghost var r := state;
      ExitAborting(t, m);
      OnlyJobTwice(old(state), r, state, m);
    }

    // job_exit of a member of an aborting group.
    method ExitAborting(t: nat, m: nat)
      requires Inv(state) && t in state.txns && state.txns[t].aborting && m in state.txns[t].members && m in state.jobs
      requires !IsCompleted(state.jobs[m].status) && state.jobs[m].co.deferred
      modifies this
      ensures Inv(state) && OnlyJob(old(state), state, m) && IsCompleted(state.jobs[m].status)
    {
      ExitInAborting(state, t, m);
      Exit(m, map[]);
    }

    // The loop that empties the group, where the members return rets.
    method AbortLoop(t: nat, rets: map<nat, int>)
      requires Inv(state) && t in state.txns && state.txns[t].aborting && AllStarted(state, t)
      modifies this
      ensures Inv(state) && CalledBack(old(state), state, t)
    {
      ghost var before := state;
      while state.txns[t].members != []
        invariant Inv(state) && AllStarted(before, t) && InLoop(before, state, t)
        decreases |state.txns[t].members|
      {
        AbortOne(before, t, rets);
      }
    }

    // One round of the loop.
    method AbortOne(ghost before: State, t: nat, rets: map<nat, int>)
      requires Inv(before) && t in before.txns && before.txns[t].aborting && AllStarted(before, t)
      requires Inv(state) && InLoop(before, state, t) && state.txns[t].members != []
      modifies this
      ensures Inv(state) && InLoop(before, state, t) && |state.txns[t].members| < |old(state).txns[t].members|
    {
      var m := state.txns[t].members[0];
      ghost var s := state;
      assert TxnOk(s, t) && m in s.txns[t].members;
      if !IsCompleted(state.jobs[m].status) {
        FinishSync(t, m, Result(rets, m));
        WaitKeepsInLoop(before, s, state, t);
      }
      ghost var w := state;
      AbortRoundOutcome(state, t);
      AbortRoundKeepsInv(state, t);
      FirstIsFinalizable(state, t);
      FinalizeSingle(m);
      RoundKeepsInLoop(before, w, state, t);
    }
  }

  lemma Splits(members: seq<nat>, i: nat)
    requires NoDuplicates(members) && i < |members|
    ensures members[i..][0] == members[i] && members[i..][1..] == members[i + 1..]
    ensures members[..i + 1] == members[..i] + [members[i]]
    ensures members[i] !in members[..i] && members[i] !in members[i + 1..] && members[i] in members
    ensures NoDuplicates(members[i..]) && NoDuplicates(members[i + 1..])
    ensures forall k :: k in members[i + 1..] ==> k in members[i..]
  {
  }

  // The members before i are prepared, the others are still to come.
  ghost predicate MayPrepare(jobs: map<nat, Job>, members: seq<nat>, i: nat) {
    && i <= |members| && NoDuplicates(members[i..])
    && (forall m :: m in members[i..] ==> m in jobs && jobs[m].status.Pending?)
    && (forall m :: m in members[..i] ==> m in jobs && jobs[m].ret == 0)
  }

  lemma PrepareUnfolds(jobs: map<nat, Job>, members: seq<nat>, i: nat, results: map<nat, int>)
    requires NoDuplicates(members) && i < |members| && MayPrepare(jobs, members, i)
    ensures members[i] in members && members[i] in jobs && jobs[members[i]].status.Pending?
    ensures var job := Prepared(jobs[members[i]], Result(results, members[i])); var p := jobs[members[i] := job];
      && (job.ret == 0 ==> MayPrepare(p, members, i + 1))
      && PrepareAll(jobs, members[i..], results) == if job.ret != 0 then p else PrepareAll(p, members[i + 1..], results)
  {
  }

  // The group while its members are being finalized.
  ghost function FinalizedUpTo(s: State, t: nat, members: seq<nat>, i: nat): State
    requires t in s.txns && i <= |members| && forall m :: m in members ==> m in s.jobs && Finalizable(s.jobs[m])
  {
    State(map k | k in s.jobs :: if k in members[..i] then Finalized(s.jobs[k]) else s.jobs[k],
          s.txns[t := s.txns[t].(members := members[i..])])
  }

  lemma OneMoreFinalized(s: State, t: nat, members: seq<nat>, i: nat)
    requires JobsOk(s) && Shape(s, t) && members == s.txns[t].members && i < |members|
    requires forall m :: m in members ==> Finalizable(s.jobs[m])
    ensures var f := FinalizedUpTo(s, t, members, i); var m := members[i];
      && m in f.jobs && f.jobs[m] == s.jobs[m] && f.jobs[m].txn == Some(t)
      && State(f.jobs[m := Finalized(s.jobs[m])], f.txns[t := f.txns[t].(members := Without(f.txns[t].members, m))])
         == FinalizedUpTo(s, t, members, i + 1)
  {
    var f := FinalizedUpTo(s, t, members, i);
    var m := members[i];
    Splits(members, i);
    assert m in members;
    WithoutFirst(members[i..]);
    assert f.jobs[m := Finalized(s.jobs[m])] == FinalizedUpTo(s, t, members, i + 1).jobs;
  }

  lemma FinalizingKeepsJobsOk(s: State, m: nat)
    requires JobsOk(s) && m in s.jobs && s.jobs[m].txn.Some? && Finalizable(s.jobs[m])
    ensures JobsOk(FinalizeMember(s, m))
  {
    FinalizedOk(s.jobs[m]);
  }

  lemma CancelNext(jobs: map<nat, Job>, members: seq<nat>, j: nat, i: nat)
    requires NoDuplicates(members) && i < |members| && forall m :: m in members ==> m in jobs
    requires forall k :: k in jobs ==> JobOk(jobs[k])
    ensures var before := CancelOthers(jobs, members[..i], j); var m := members[i];
      && m in before && before[m] == jobs[m] && JobOk(before[m])
      && CancelOthers(jobs, members[..i + 1], j) == (if m == j then before else before[m := CancelAsync(jobs[m], true)])
  {
  }

  // The members that have left the group have been called back; the survivor has not
  // been touched before its turn.
  ghost predicate InLoop(s: State, r: State, t: nat)
    requires t in s.txns
  {
    && t in r.txns && r.txns == s.txns[t := s.txns[t].(members := r.txns[t].members)] && r.jobs.Keys == s.jobs.Keys
    && (forall k :: k in r.txns[t].members ==> k in s.txns[t].members)
    && forall k :: k in s.jobs ==> InLoopJob(s.txns[t], k, s.jobs[k], r.jobs[k], k in r.txns[t].members)
  }

  ghost predicate InLoopJob(txn: Txn, k: nat, was: Job, job: Job, remains: bool) {
    if remains then (txn.survivor == Some(k) ==> job == was) && !job.status.Created?
    else if k in txn.members then job.calls == LastCall(txn, k, was)
    else job == was
  }

  lemma WaitKeepsInLoop(s: State, r: State, w: State, t: nat)
    requires t in s.txns && InLoop(s, r, t) && r.txns[t].members != []
    requires OnlyJob(r, w, r.txns[t].members[0]) && IsCompleted(w.jobs[r.txns[t].members[0]].status)
    requires s.txns[t].survivor != Some(r.txns[t].members[0])
    ensures InLoop(s, w, t)
  {
  }

  lemma RoundKeepsInLoop(s: State, r: State, w: State, t: nat)
    requires t in s.txns && InLoop(s, r, t) && r.txns[t].members != [] && FirstCalledBack(r, w, t)
    requires s.txns[t].survivor == Some(r.txns[t].members[0]) ==>
      r.txns[t].members[0] in s.jobs && r.jobs[r.txns[t].members[0]] == s.jobs[r.txns[t].members[0]]
    ensures InLoop(s, w, t)
  {
    var members := r.txns[t].members;
    assert members[0] !in members[1..];
    assert forall k :: k in members <==> k == members[0] || k in members[1..];
  }
}
