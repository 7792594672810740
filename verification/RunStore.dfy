/**
 The run and mission tables as the code updates them, with the sessions and workers at work on them. Every method
 takes exactly one step of RunProtocol, or the steps it names, so what is proved about runs holds of it.
 */
module RunStore {
  import opened Wrappers
  import opened RunProtocol

  /** A run is queued for the mission with nothing done. */
  predicate IsFresh(r: Run, m: MissionId, job: bool) {
    r == Run(m, Status.Queued, None, None, 0, 0, "", "", job)
  }

  /** The lease is taken: token, end of lease, fencing number and status change, and nothing else. */
  predicate IsTaken(was: Run, r: Run, token: Token, now: Time) {
    r == was.(leaseToken := Some(token), leaseUntil := Some(now + 120), fencingToken := was.fencingToken + 1,
              status := Status.Running)
  }

  /** The outcome is stored: a step count of zero keeps the old one. */
  predicate IsFinished(was: Run, r: Run, out: Outcome) {
    && r == was.(status := out.runStatus, leaseToken := None, stepsUsed := r.stepsUsed, checkpoint := out.checkpoint, result := out.result)
    && r.stepsUsed == if out.stepsUsed == 0 then was.stepsUsed else out.stepsUsed
  }

  /** The run can still be claimed. */
  predicate IsOpen(s: Status) {
    !s.Open? && !s.NeedsInformation? && !s.Paused? && !s.Succeeded? && !s.Failed? && !s.Cancelled?
  }

  /** The mission is neither over nor about to run. */
  predicate IsIdle(s: Status) {
    !s.Queued? && !s.Running? && !s.Succeeded? && !s.Failed? && !s.Cancelled?
  }

  /** A finisher writes the mission unless it has loaded it cancelled, or has lost the lease of a run that is not over. */
  predicate Lands(w: Worker, r: Run, m: Mission) {
    if w.phase.WroteRun? then !w.loaded.Cancelled?
    else !m.status.Cancelled? && (r.status.Cancelled? || r.status.Succeeded? || r.status.Failed?)
  }

  class Store {
    var runs: map<RunId, Run>
    var missions: map<MissionId, Mission>
    var workers: map<Token, Worker>
    var sessions: map<Client, Session>
    var issued: set<Token>

    ghost function Value(): State
      reads this
    {
      State(runs, missions, workers, sessions, issued)
    }

    constructor ()
      ensures Value() == EMPTY && Inv(Value())
    {
      runs, missions, workers, sessions, issued := map[], map[], map[], map[], {};
    }

    /** start_run: queues a run whatever the status of the mission is; `loaded` is the status the caller has loaded. */
    method StartRun(run: RunId, m: MissionId, loaded: Status, enqueue: bool)
      requires run !in runs && m in missions
      modifies this`runs, this`missions
      ensures run in runs && IsFresh(runs[run], m, enqueue) && runs == old(runs)[run := runs[run]]
      ensures runs[run] == NewRun(m, enqueue)
      ensures missions == if enqueue && IsIdle(loaded) then old(missions)[m := old(missions)[m].(status := Status.Running)]
                          else old(missions)
    {
      runs := runs[run := Run(m, Status.Queued, None, None, 0, 0, "", "", enqueue)];
      if loaded.Open? || WaitingMission(loaded) {
        var status := if enqueue then Status.Running else loaded;
        if status != loaded {
          missions := missions[m := missions[m].(status := status)];
        }
      }
    }

    /** resume, on the status the session has loaded. */
    method Resume(c: Client, run: RunId) returns (started: bool)
      requires Inv(Value()) && Enabled(Value(), Act(c, run)) && sessions[c].intent.Resuming?
      modifies this`runs, this`missions, this`sessions
      ensures Value() == Next(old(Value()), Act(c, run)) && Inv(Value())
      ensures started == !(old(sessions)[c].status.Succeeded? || old(sessions)[c].status.Failed? || old(sessions)[c].status.Cancelled?)
      ensures !started ==> runs == old(runs) && missions == old(missions)
      ensures started ==> var m := old(sessions)[c].mission;
        && run in runs && IsFresh(runs[run], m, true) && runs == old(runs)[run := runs[run]]
        && missions == (if old(sessions)[c].status.Running? || old(sessions)[c].status.Queued? then old(missions)
                        else old(missions)[m := old(missions)[m].(status := Status.Running)])
      ensures sessions == old(sessions) - {c}
    {
      ghost var was := Value();
      var x := sessions[c];
      started := !TerminalMission(x.status);
      if started {
        StartRun(run, x.mission, x.status, true);
      }
      sessions := sessions - {c};
      NextKeepsInv(was, Act(c, run));
    }

    /** A client's reply: an unfinished mission is open again, and about to be run inline. */
    method Reply(c: Client, run: RunId) returns (accepted: bool)
      requires Inv(Value()) && Enabled(Value(), Act(c, run)) && sessions[c].intent.Replying?
      modifies this`missions, this`sessions
      ensures Value() == Next(old(Value()), Act(c, run)) && Inv(Value())
      ensures accepted == !(old(sessions)[c].status.Succeeded? || old(sessions)[c].status.Failed? || old(sessions)[c].status.Cancelled?)
      ensures !accepted ==> missions == old(missions) && sessions == old(sessions) - {c}
      ensures accepted ==> var m := old(sessions)[c].mission;
        && sessions == old(sessions)[c := Starting(m)]
        && missions == (if old(sessions)[c].status.Open? then old(missions)
                        else old(missions)[m := old(missions)[m].(status := Status.Open)])
    {
      ghost var was := Value();
      var x := sessions[c];
      accepted := !TerminalMission(x.status);
      if accepted {
        if !x.status.Open? {
          missions := missions[x.mission := missions[x.mission].(status := Status.Open)];
        }
        sessions := sessions[c := Starting(x.mission)];
      } else {
        sessions := sessions - {c};
      }
      NextKeepsInv(was, Act(c, run));
    }

    /** Revoking an access pauses the missions it has found unfinished. */
    method Pause(c: Client, run: RunId)
      requires Inv(Value()) && Enabled(Value(), Act(c, run)) && sessions[c].intent.Pausing?
      modifies this`missions, this`sessions
      ensures Value() == Next(old(Value()), Act(c, run)) && Inv(Value())
      ensures var x := old(sessions)[c]; var m := old(missions)[x.mission];
        missions == if x.status.Succeeded? || x.status.Failed? || x.status.Cancelled? || x.status.Paused? then old(missions)
                    else old(missions)[x.mission := m.(status := Status.Paused)]
    {
      ghost var was := Value();
      var x := sessions[c];
      if !TerminalMission(x.status) && !x.status.Paused? {
        missions := missions[x.mission := missions[x.mission].(status := Status.Paused)];
      }
      sessions := sessions - {c};
      NextKeepsInv(was, Act(c, run));
    }

    /** cancel_mission: a mission loaded as terminal is left as it is; otherwise it and all its claimable runs stop. */
    method CancelMission(c: Client, run: RunId) returns (already: Option<Status>)
      requires Inv(Value()) && Enabled(Value(), Act(c, run)) && sessions[c].intent.Cancelling?
      modifies this`runs, this`missions, this`sessions
      ensures Value() == Next(old(Value()), Act(c, run)) && Inv(Value())
      ensures var x := old(sessions)[c];
        already == if x.status.Succeeded? || x.status.Failed? || x.status.Cancelled? then Some(x.status) else None
      ensures already.Some? ==> missions == old(missions) && runs == old(runs)
      ensures already.None? ==> var m := old(sessions)[c].mission;
        missions == old(missions)[m := old(missions)[m].(status := Status.Cancelled)] && runs.Keys == old(runs).Keys
      ensures already.None? ==> forall r <- runs ::
        runs[r] == if old(runs)[r].mission == old(sessions)[c].mission && IsOpen(old(runs)[r].status)
                   then old(runs)[r].(status := Status.Cancelled, leaseToken := None) else old(runs)[r]
    {
      ghost var was := Value();
      var x := sessions[c];
      if TerminalMission(x.status) {
        already := Some(x.status);
      } else {
        already := None;
        missions := missions[x.mission := missions[x.mission].(status := Status.Cancelled)];
        runs := map id <- runs :: CancelledRun(runs[id], x.mission);
      }
      sessions := sessions - {c};
      NextKeepsInv(was, Act(c, run));
    }

    /** The first transaction of run_inline. */
    method StartInlineRun(c: Client, run: RunId)
      requires Inv(Value()) && Enabled(Value(), StartInline(c, run))
      modifies this`runs, this`missions, this`sessions
      ensures Value() == Next(old(Value()), StartInline(c, run)) && Inv(Value())
      ensures run in runs && IsFresh(runs[run], old(sessions)[c].mission, false) && runs == old(runs)[run := runs[run]]
      ensures missions == old(missions) && sessions == old(sessions)[c := Claiming(run, Status.Open)]
    {
      ghost var was := Value();
      assert SessionOk(was, sessions[c]);
      StartRun(run, sessions[c].mission, Status.Open, false);
      sessions := sessions[c := Claiming(run, Status.Open)];
      NextKeepsInv(was, StartInline(c, run));
    }

    /** The start of the mission.run job. */
    method LoadForJob(c: Client, run: RunId) returns (skipped: bool)
      requires Inv(Value()) && Enabled(Value(), LoadRun(c, run))
      modifies this`sessions
      ensures Value() == Next(old(Value()), LoadRun(c, run)) && Inv(Value())
      ensures skipped == (missions[runs[run].mission].status.Cancelled? || runs[run].status.Cancelled? ||
                          runs[run].status.Succeeded? || runs[run].status.Failed?)
      ensures sessions == if skipped then old(sessions)
                          else old(sessions)[c := Claiming(run, missions[runs[run].mission].status)]
    {
      ghost var was := Value();
      var status := missions[runs[run].mission].status;
      skipped := status.Cancelled? || runs[run].status.Cancelled? || runs[run].status.Succeeded? || runs[run].status.Failed?;
      if !skipped {
        sessions := sessions[c := Claiming(run, status)];
      }
      NextKeepsInv(was, LoadRun(c, run));
    }

    /** claim_run: the UPDATE matches only a claimable run whose lease is free. */
    method ClaimLease(c: Client, token: Token, now: Time) returns (claimed: bool)
      requires Inv(Value()) && Enabled(Value(), ClaimRun(c, token, now))
      modifies this`runs, this`workers, this`sessions, this`issued
      ensures Value() == Next(old(Value()), ClaimRun(c, token, now)) && Inv(Value())
      ensures var r := old(runs)[old(sessions)[c].run];
        claimed <==> IsOpen(r.status) && (r.leaseUntil.None? || r.leaseUntil.value < now)
      ensures claimed ==> var run := old(sessions)[c].run;
        && HoldsLease(Value(), token)
        && run in runs && IsTaken(old(runs)[run], runs[run], token, now) && runs == old(runs)[run := runs[run]]
        && workers == old(workers)[token := Worker(run, old(sessions)[c].status, Claimed)]
      ensures !claimed ==> runs == old(runs) && workers == old(workers)
      ensures missions == old(missions) && sessions == old(sessions) - {c}
    {
      ghost var was := Value();
      var run, loaded := sessions[c].run, sessions[c].status;
      var r := runs[run];
      claimed := Claimable(r.status) && LeaseFree(r, now);
      if claimed {
        r := r.(leaseToken := Some(token), leaseUntil := Some(now + LEASE_SECONDS));
        r := r.(fencingToken := r.fencingToken + 1, status := Status.Running);
        runs := runs[run := r];
        workers := workers[token := Worker(run, loaded, Claimed)];
      }
      issued := issued + {token};
      sessions := sessions - {c};
      NextKeepsInv(was, ClaimRun(c, token, now));
    }

    /** _refresh_status at the top of the loop: does the worker go on? */
    method CheckStatus(token: Token) returns (alive: bool)
      requires Inv(Value()) && Enabled(Value(), Check(token))
      modifies this`workers
      ensures Value() == Next(old(Value()), Check(token)) && Inv(Value())
      ensures alive == !missions[runs[old(workers)[token].run].mission].status.Cancelled?
      ensures workers == old(workers)[token := old(workers)[token].(phase := if alive then Checked else Stopping)]
    {
      ghost var was := Value();
      alive := !missions[runs[workers[token].run].mission].status.Cancelled?;
      workers := workers[token := workers[token].(phase := if alive then Checked else Stopping)];
      NextKeepsInv(was, Check(token));
    }

    /** fenced: writes the run only under the lease; false is StaleLease. */
    method Fenced(token: Token, r: Run) returns (written: bool)
      requires Inv(Value()) && token in workers
      modifies this`runs
      ensures written == old(HoldsLease(Value(), token))
      ensures runs == if written then old(runs)[workers[token].run := r] else old(runs)
    {
      assert WorkerOk(Value(), token);
      var run := workers[token].run;
      written := runs[run].leaseToken == Some(token);
      if written {
        runs := runs[run := r];
      }
    }

    /** The checkpoint written after every completed step of the loop. */
    method SaveCheckpoint(token: Token, checkpoint: Payload, stepsUsed: nat, now: Time) returns (kept: bool)
      requires Inv(Value()) && Enabled(Value(), Checkpoint(token, checkpoint, stepsUsed, now))
      modifies this`runs, this`workers
      ensures Value() == Next(old(Value()), Checkpoint(token, checkpoint, stepsUsed, now)) && Inv(Value())
      ensures kept == old(HoldsLease(Value(), token))
      ensures kept ==> workers == old(workers)
      ensures kept ==> var run := old(workers)[token].run;
        runs == old(runs)[run := old(runs)[run].(checkpoint := checkpoint, stepsUsed := stepsUsed, leaseUntil := Some(now + 120))]
      ensures !kept ==> runs == old(runs) && workers == old(workers) - {token}
    {
      ghost var was := Value();
      assert WorkerOk(was, token);
      var r := runs[workers[token].run];
      kept := Fenced(token, r.(checkpoint := checkpoint, stepsUsed := stepsUsed, leaseUntil := Some(now + LEASE_SECONDS)));
      if !kept {
        workers := workers - {token};
      }
      NextKeepsInv(was, Checkpoint(token, checkpoint, stepsUsed, now));
    }

    method Heartbeat(token: Token, until: Time) returns (kept: bool)
      requires Inv(Value()) && Enabled(Value(), Beat(token, until))
      modifies this`runs, this`workers
      ensures Value() == Next(old(Value()), Beat(token, until)) && Inv(Value())
      ensures kept == old(HoldsLease(Value(), token))
      ensures kept ==> var run := old(workers)[token].run;
        workers == old(workers) && runs == old(runs)[run := old(runs)[run].(leaseUntil := Some(until))]
      ensures !kept ==> runs == old(runs) && workers == old(workers) - {token}
    {
      ghost var was := Value();
      assert WorkerOk(was, token);
      var r := runs[workers[token].run];
      kept := Fenced(token, r.(leaseUntil := Some(until)));
      if !kept {
        workers := workers - {token};
      }
      NextKeepsInv(was, Beat(token, until));
    }

    /** First transaction of _finish. */
    method WriteRun(token: Token, out: Outcome) returns (kept: bool)
      requires Inv(Value()) && Enabled(Value(), FinishRun(token, out))
      modifies this`runs, this`workers
      ensures Value() == Next(old(Value()), FinishRun(token, out)) && Inv(Value())
      ensures kept == old(HoldsLease(Value(), token))
      ensures kept ==> var run := old(workers)[token].run;
        run in runs && IsFinished(old(runs)[run], runs[run], out) && runs == old(runs)[run := runs[run]]
      ensures !kept ==> runs == old(runs)
      ensures workers == old(workers)[token := old(workers)[token].(phase := if kept then WroteRun(out) else LostLease(out))]
    {
      ghost var was := Value();
      assert WorkerOk(was, token);
      var r := runs[workers[token].run];
      kept := Fenced(token, FinishedRun(r, out));
      workers := workers[token := workers[token].(phase := if kept then WroteRun(out) else LostLease(out))];
      NextKeepsInv(was, FinishRun(token, out));
    }

    /** Second transaction of _finish. */
    method WriteMission(token: Token)
      requires Inv(Value()) && Enabled(Value(), FinishMission(token))
      modifies this`missions, this`workers
      ensures Value() == Next(old(Value()), FinishMission(token)) && Inv(Value())
      ensures var w := old(workers)[token]; var r := runs[w.run]; var m := old(missions)[r.mission];
        missions == if Lands(w, r, m)
                    then old(missions)[r.mission := Mission(if w.phase.WroteRun? && w.phase.out.missionStatus == w.loaded then m.status
                                                            else w.phase.out.missionStatus, w.phase.out.result)]
                    else old(missions)
      ensures workers == old(workers) - {token}
    {
      ghost var was := Value();
      var w := workers[token];
      var r := runs[w.run];
      var m := missions[r.mission];
      var out := w.phase.out;
      var loaded := w.loaded;
      var leftAlone := false;
      if w.phase.LostLease? {
        leftAlone := !r.status.Cancelled? && !r.status.Succeeded? && !r.status.Failed?;
        loaded := m.status;       // the rollback has expired the session's rows
      }
      if !leftAlone && !loaded.Cancelled? {
        if out.missionStatus != loaded {
          m := m.(status := out.missionStatus);
        }
        missions := missions[r.mission := m.(result := out.result)];
      }
      workers := workers - {token};
      NextKeepsInv(was, FinishMission(token));
    }

    /** _finish that nothing interrupts: what the run and the mission are when the lease still holds, and when not. */
    method Finish(token: Token, out: Outcome) returns (kept: bool)
      requires Inv(Value()) && Enabled(Value(), FinishRun(token, out))
      modifies this`runs, this`missions, this`workers
      ensures Inv(Value())
      ensures kept == old(HoldsLease(Value(), token))
      ensures var w := old(workers)[token];
        var r := old(runs)[w.run];
        var m := old(missions)[r.mission];
        && (kept ==> w.run in runs && IsFinished(r, runs[w.run], out) && runs == old(runs)[w.run := runs[w.run]])
        && (!kept ==> runs == old(runs))
        && missions == if Lands(w.(phase := if kept then WroteRun(out) else LostLease(out)), r, m)
                       then old(missions)[r.mission := Mission(if kept && out.missionStatus == w.loaded then m.status
                                                               else out.missionStatus, out.result)]
                       else old(missions)
    {
      assert WorkerOk(Value(), token);
      assert RunOk(runs[workers[token].run], Value());
      kept := WriteRun(token, out);
      WriteMission(token);
    }
  }
}
