/** What holds of missions over whole runs: which cancellations last, and which finished missions stay as they are. */
module MissionProtocol {
  import opened Wrappers
  import opened RunProtocol

  /** The worker is on a run of the mission. */
  predicate WorksOn(s: State, t: Token, m: MissionId) { KnownWorker(s, t) && s.runs[s.workers[t].run].mission == m }

  // ---- continuations that write the mission ----------------------------------------------------

  lemma {:induction false} UnusedId(ids: set<int>) returns (x: int)
    ensures x !in ids && forall i <- ids :: i < x
    decreases |ids|
  {
    if i :| i in ids {
      var y := UnusedId(ids - {i});
      x := if i < y then y else i + 1;
      assert ids == ids - {i} + {i};
    } else {
      x := 0;
    }
  }

  /** The mission after these steps. */
  predicate Ends(s: State, steps: seq<Step>, m: MissionId, after: Mission) {
    Valid(s, steps) && m in Exec(s, steps).missions && Exec(s, steps).missions[m] == after
  }

  lemma EndsCons(s: State, step: Step, rest: seq<Step>, m: MissionId, after: Mission)
    requires Enabled(s, step) && Ends(Next(s, step), rest, m, after)
    ensures Ends(s, [step] + rest, m, after)
  {
    ExecCons(s, step, rest);
  }

  lemma EndsNow(s: State, step: Step, m: MissionId, after: Mission)
    requires Enabled(s, step) && m in Next(s, step).missions && Next(s, step).missions[m] == after
    ensures Ends(s, [step], m, after)
  {
    assert Ends(Next(s, step), [], m, after);
    EndsCons(s, step, [], m, after);
    assert [step] + [] == [step];
  }

  /** What a worker of a run of m makes of the mission with a failure outcome. */
  function Failure(result: Payload): Outcome { Outcome(Failed, Paused, 0, "", result) }

  function AfterFailure(loaded: Status, m: Mission, result: Payload): Mission {
    Mission(if loaded.Paused? then m.status else Paused, result)
  }

  lemma HolderCanWrite(s: State, t: Token, m: MissionId, result: Payload) returns (steps: seq<Step>)
    requires WorksOn(s, t, m) && HoldsLease(s, t) && !s.workers[t].loaded.Cancelled?
    requires s.workers[t].phase.Claimed? || s.workers[t].phase.Checked?
    ensures Ends(s, steps, m, AfterFailure(s.workers[t].loaded, s.missions[m], result))
  {
    var finish := FinishRun(t, Failure(result));
    var s1 := Next(s, finish);
    var w := s1.workers[t];
    assert w == Worker(s.workers[t].run, s.workers[t].loaded, WroteRun(Failure(result)));
    assert s1.runs[w.run].mission == m && s1.missions == s.missions;
    EndsNow(s1, FinishMission(t), m, Written(w, s.missions[m]));
    EndsCons(s, finish, [FinishMission(t)], m, Written(w, s.missions[m]));
    steps := [finish] + [FinishMission(t)];
  }

  /** The clock reads late enough for any lease that is set now. */
  function Later(r: Run): Time { if r.leaseUntil.Some? then r.leaseUntil.value + 1 else 0 }

  lemma ClaimerCanWrite(s: State, c: Client, m: MissionId, result: Payload) returns (steps: seq<Step>)
    requires Inv(s) && c in s.sessions && s.sessions[c].Claiming? && m in s.missions
    requires var r := s.sessions[c].run; r in s.runs && s.runs[r].mission == m && Claimable(s.runs[r].status)
    ensures Ends(s, steps, m, AfterFailure(s.sessions[c].status, s.missions[m], result))
  {
    var t := UnusedId(s.issued);
    var claim := ClaimRun(c, t, Later(s.runs[s.sessions[c].run]));
    assert SessionOk(s, s.sessions[c]);
    var s1 := Next(s, claim);
    assert s1.workers[t] == Worker(s.sessions[c].run, s.sessions[c].status, Claimed);
    var rest := HolderCanWrite(s1, t, m, result);
    EndsCons(s, claim, rest, m, AfterFailure(s.sessions[c].status, s.missions[m], result));
    steps := [claim] + rest;
  }

  lemma StarterCanWrite(s: State, c: Client, m: MissionId, result: Payload) returns (steps: seq<Step>)
    requires Inv(s) && c in s.sessions && s.sessions[c] == Starting(m) && m in s.missions
    ensures Ends(s, steps, m, Mission(Paused, result))
  {
    var r := UnusedId(s.runs.Keys);
    var start := StartInline(c, r);
    NextKeepsInv(s, start);
    var rest := ClaimerCanWrite(Next(s, start), c, m, result);
    EndsCons(s, start, rest, m, Mission(Paused, result));
    steps := [start] + rest;
  }

  // ---- cancellation ----------------------------------------------------------------------------

  /** A session that acts on the mission it has loaded takes the mission out of the cancelled state. */
  predicate Revives(loaded: Status, intent: Intent) {
    match intent
    case Resuming => Restarts(loaded)
    case Replying => !TerminalMission(loaded)
    case Pausing => !TerminalMission(loaded) && !loaded.Paused?
    case Cancelling => false
  }

  /** This session can undo a cancellation of m: it loaded m earlier, or is about to run it inline. */
  predicate CanRevive(x: Session, m: MissionId) {
    match x
    case Loaded(m', loaded, intent) => m' == m && Revives(loaded, intent)
    case Starting(m') => m' == m
    case Claiming(_, _) => false
  }

  /** This finisher has written its run and is about to overwrite the status of the mission it loaded before. */
  predicate Overwrites(w: Worker) {
    w.phase.WroteRun? && !w.loaded.Cancelled? && !w.phase.out.missionStatus.Cancelled? && w.phase.out.missionStatus != w.loaded
  }

  /** No session and no finisher is in a position to undo a cancellation of m. */
  predicate Quiet(s: State, m: MissionId) {
    && (forall c <- s.sessions :: !CanRevive(s.sessions[c], m))
    && (forall t <- s.workers :: WorksOn(s, t, m) ==> !Overwrites(s.workers[t]))
  }

  /** Cancelled, quiet, and no worker or claimer has a run of the mission that is still open. */
  predicate SafelyCancelled(s: State, m: MissionId) {
    && m in s.missions && s.missions[m].status.Cancelled? && Quiet(s, m)
    && (forall t <- s.workers :: WorksOn(s, t, m) ==> Closed(s.runs[s.workers[t].run].status))
    && (forall c <- s.sessions :: ClaimsOn(s, s.sessions[c], m) ==> Closed(s.runs[s.sessions[c].run].status))
  }

  predicate ClaimsOn(s: State, x: Session, m: MissionId) { x.Claiming? && x.run in s.runs && s.runs[x.run].mission == m }

  lemma SessionsStayQuiet(s: State, m: MissionId, step: Step, c: Client)
    requires Inv(s) && SafelyCancelled(s, m) && Enabled(s, step) && c in Next(s, step).sessions
    ensures !CanRevive(Next(s, step).sessions[c], m)
    ensures ClaimsOn(Next(s, step), Next(s, step).sessions[c], m) ==> Closed(Next(s, step).runs[Next(s, step).sessions[c].run].status)
  {
    var s' := Next(s, step);
    NextKeepsTables(s, step);
    if c in s.sessions {
      assert !CanRevive(s.sessions[c], m) && SessionOk(s, s.sessions[c]);
      if s'.sessions[c] == s.sessions[c] && ClaimsOn(s, s.sessions[c], m) {
        ClosedStays1(s, step, s.sessions[c].run);
      }
    }
  }

  lemma WorkersStayQuiet(s: State, m: MissionId, step: Step, t: Token)
    requires Inv(s) && SafelyCancelled(s, m) && Enabled(s, step) && WorksOn(Next(s, step), t, m)
    ensures !Overwrites(Next(s, step).workers[t]) && Closed(Next(s, step).runs[Next(s, step).workers[t].run].status)
  {
    NextKeepsTables(s, step);
    if t in s.workers {
      assert WorkerOk(s, t);
      var r := s.workers[t].run;
      assert RunOk(s.runs[r], s);
      assert WorksOn(s, t, m) && !Overwrites(s.workers[t]) && Closed(s.runs[r].status);
      ClosedStays1(s, step, r);
    }
  }

  lemma StaysCancelled1(s: State, m: MissionId, step: Step)
    requires Inv(s) && SafelyCancelled(s, m) && Enabled(s, step)
    ensures m in Next(s, step).missions && Next(s, step).missions[m].status.Cancelled?
  {
    NextKeepsTables(s, step);
    if step.FinishMission? {
      assert WorkerOk(s, step.token);
    } else if step.Act? {
      assert !CanRevive(s.sessions[step.client], m);
    }
  }

  lemma SafelyCancelledStays1(s: State, m: MissionId, step: Step)
    requires Inv(s) && SafelyCancelled(s, m) && Enabled(s, step)
    ensures SafelyCancelled(Next(s, step), m)
  {
    var s' := Next(s, step);
    StaysCancelled1(s, m, step);
    forall c <- s'.sessions
      ensures !CanRevive(s'.sessions[c], m)
      ensures ClaimsOn(s', s'.sessions[c], m) ==> Closed(s'.runs[s'.sessions[c].run].status)
    {
      SessionsStayQuiet(s, m, step, c);
    }
    forall t <- s'.workers | WorksOn(s', t, m)
      ensures !Overwrites(s'.workers[t]) && Closed(s'.runs[s'.workers[t].run].status)
    {
      WorkersStayQuiet(s, m, step, t);
    }
  }

  lemma {:induction false} SafelyCancelledStays(s: State, m: MissionId, steps: seq<Step>)
    requires Inv(s) && SafelyCancelled(s, m) && Valid(s, steps)
    ensures SafelyCancelled(Exec(s, steps), m)
    decreases |steps|
  {
    if steps != [] {
      NextKeepsInv(s, steps[0]);
      SafelyCancelledStays1(s, m, steps[0]);
      SafelyCancelledStays(Next(s, steps[0]), m, steps[1..]);
    }
  }

  /** In every continuation the mission stays cancelled. */
  ghost predicate StaysCancelled(s: State, m: MissionId) {
    forall steps :: Valid(s, steps) ==> m in Exec(s, steps).missions && Exec(s, steps).missions[m].status.Cancelled?
  }

  lemma ReviverRevives(s: State, m: MissionId, c: Client) returns (steps: seq<Step>, after: Mission)
    requires Inv(s) && m in s.missions && c in s.sessions && CanRevive(s.sessions[c], m)
    ensures Ends(s, steps, m, after) && !after.status.Cancelled?
  {
    if s.sessions[c].Starting? {
      steps := StarterCanWrite(s, c, m, "");
      after := Mission(Paused, "");
    } else {
      var r := UnusedId(s.runs.Keys);
      var act := Act(c, r);
      NextKeepsInv(s, act);
      if s.sessions[c].intent.Replying? {
        var rest := StarterCanWrite(Next(s, act), c, m, "");
        after := Mission(Paused, "");
        EndsCons(s, act, rest, m, after);
        steps := [act] + rest;
      } else {
        after := Next(s, act).missions[m];
        EndsNow(s, act, m, after);
        steps := [act];
      }
    }
  }

  lemma OverwriterRevives(s: State, m: MissionId, t: Token) returns (steps: seq<Step>, after: Mission)
    requires Inv(s) && WorksOn(s, t, m) && Overwrites(s.workers[t])
    ensures Ends(s, steps, m, after) && !after.status.Cancelled?
  {
    after := Written(s.workers[t], s.missions[m]);
    steps := [FinishMission(t)];
    EndsNow(s, steps[0], m, after);
  }

  lemma AfterCancelling(s: State, m: MissionId, c: Client, unused: RunId)
    requires Inv(s) && WillCancel(s, c, m) && Enabled(s, Act(c, unused))
    ensures var s' := AfterAct(s, c, unused);
      && Inv(s') && m in s'.missions && s'.missions[m].status.Cancelled?
      && s'.sessions == s.sessions - {c} && s'.workers == s.workers
      && (forall r <- s.runs :: r in s'.runs && s'.runs[r].mission == s.runs[r].mission)
      && (forall r <- s'.runs :: r in s.runs && (s'.runs[r].mission == m ==> Closed(s'.runs[r].status)))
  {
    NextKeepsInv(s, Act(c, unused));
    forall r <- s.runs ensures RunOk(s.runs[r], s) {}
  }

  lemma QuietAfterCancelling(s: State, m: MissionId, c: Client, unused: RunId)
    requires Inv(s) && WillCancel(s, c, m) && Enabled(s, Act(c, unused))
    ensures Quiet(AfterAct(s, c, unused), m) <==> Quiet(s, m)
  {
    AfterCancelling(s, m, c, unused);
    var s' := AfterAct(s, c, unused);
    assert forall t :: WorksOn(s', t, m) <==> WorksOn(s, t, m);
    assert !CanRevive(s.sessions[c], m);
    assert forall k :: k in s.sessions && k != c ==> k in s'.sessions && s'.sessions[k] == s.sessions[k];
  }

  /** A cancellation holds in every continuation exactly when, as it is written, no finisher of the mission is about to
      overwrite the status it has loaded, nobody is about to run the mission inline, and no session that loaded the
      mission earlier is about to resume, continue or pause it. */
  lemma CancellationHoldsExactlyWhenQuiet(s: State, m: MissionId, c: Client, unused: RunId)
    requires Inv(s) && WillCancel(s, c, m) && Enabled(s, Act(c, unused))
    ensures StaysCancelled(AfterAct(s, c, unused), m) <==> Quiet(s, m)
  {
    AfterCancelling(s, m, c, unused);
    QuietAfterCancelling(s, m, c, unused);
    var s' := AfterAct(s, c, unused);
    if Quiet(s', m) {
      assert SafelyCancelled(s', m);
      forall steps | Valid(s', steps) ensures m in Exec(s', steps).missions && Exec(s', steps).missions[m].status.Cancelled? {
        SafelyCancelledStays(s', m, steps);
      }
    } else {
      LoudIsRevived(s', m);
    }
  }

  lemma LoudIsRevived(s: State, m: MissionId)
    requires Inv(s) && m in s.missions && !Quiet(s, m)
    ensures !StaysCancelled(s, m)
  {
    var steps, after;
    if c :| c in s.sessions && CanRevive(s.sessions[c], m) {
      steps, after := ReviverRevives(s, m, c);
    } else {
      var t :| t in s.workers && WorksOn(s, t, m) && Overwrites(s.workers[t]);
      steps, after := OverwriterRevives(s, m, t);
    }
    assert Ends(s, steps, m, after);
  }

  // ---- finished missions -----------------------------------------------------------------------

  /** The run is over, or the worker that holds it will only ever write it as cancelled. */
  predicate Closing(s: State, r: RunId) {
    r in s.runs && (Over(s.runs[r].status) ||
      (s.runs[r].leaseToken.Some? && s.runs[r].leaseToken.value in s.workers &&
       s.workers[s.runs[r].leaseToken.value].run == r && s.workers[s.runs[r].leaseToken.value].phase.Stopping?))
  }

  /** This worker can change a finished mission. */
  predicate CanChange(s: State, t: Token, m: Mission)
    requires t in s.workers
  {
    var w := s.workers[t];
    match w.phase
    case Stopping => if HoldsLease(s, t) then !w.loaded.Cancelled? else Closing(s, w.run)
    case WroteRun(_) => Written(w, m) != m
    case LostLease(out) => Closing(s, w.run) && Mission(out.missionStatus, out.result) != m
    case _ => HoldsLease(s, t) || Closing(s, w.run)
  }

  /** This session can change a finished mission: it has loaded it unfinished, is about to run it inline, or is about to
      claim one of its open runs. */
  predicate CanReopen(s: State, x: Session, m: MissionId) {
    match x
    case Loaded(m', loaded, intent) => m' == m && !TerminalMission(loaded) && !(intent.Pausing? && loaded.Paused?)
    case Starting(m') => m' == m
    case Claiming(r, _) => r in s.runs && s.runs[r].mission == m && Claimable(s.runs[r].status)
  }

  /** No session, no job of an open run and no worker is in a position to change the mission. */
  predicate Settled(s: State, m: MissionId) {
    && m in s.missions
    && (forall c <- s.sessions :: !CanReopen(s, s.sessions[c], m))
    && (forall r <- s.runs :: s.runs[r].mission == m && Claimable(s.runs[r].status) ==> !s.runs[r].job)
    && (forall t <- s.workers :: WorksOn(s, t, m) ==> !CanChange(s, t, s.missions[m]))
  }

  predicate FinishedAs(s: State, m: MissionId, v: Mission) {
    m in s.missions && s.missions[m] == v && (v.status.Succeeded? || v.status.Failed?)
  }

  lemma FinishedStays1(s: State, m: MissionId, v: Mission, step: Step)
    requires Inv(s) && FinishedAs(s, m, v) && Settled(s, m) && Enabled(s, step)
    ensures FinishedAs(Next(s, step), m, v)
  {
    NextKeepsTables(s, step);
    if step.FinishMission? {
      assert WorkerOk(s, step.token);
    } else if step.Act? {
      assert !CanReopen(s, s.sessions[step.client], m);
    }
  }

  lemma SessionsStaySettled(s: State, m: MissionId, v: Mission, step: Step, c: Client)
    requires Inv(s) && FinishedAs(s, m, v) && Settled(s, m) && Enabled(s, step) && c in Next(s, step).sessions
    ensures !CanReopen(Next(s, step), Next(s, step).sessions[c], m)
  {
    var s' := Next(s, step);
    NextKeepsTables(s, step);
    if c in s.sessions {
      assert !CanReopen(s, s.sessions[c], m) && SessionOk(s, s.sessions[c]);
    }
    if s'.sessions[c].Claiming? && s'.sessions[c].run in s.runs && Closed(s.runs[s'.sessions[c].run].status) {
      ClosedStays1(s, step, s'.sessions[c].run);
    }
  }

  lemma RunsStaySettled(s: State, m: MissionId, v: Mission, step: Step, r: RunId)
    requires Inv(s) && FinishedAs(s, m, v) && Settled(s, m) && Enabled(s, step) && r in Next(s, step).runs
    requires Next(s, step).runs[r].mission == m && Claimable(Next(s, step).runs[r].status)
    ensures !Next(s, step).runs[r].job
  {
    NextKeepsTables(s, step);
    if step.Act? || step.StartInline? {
      assert !CanReopen(s, s.sessions[step.client], m) && SessionOk(s, s.sessions[step.client]);
    }
    if Actor(step).Some? {
      assert WorkerOk(s, Actor(step).value);
    }
    if r in s.runs {
      assert RunOk(s.runs[r], s);
      if Closed(s.runs[r].status) { ClosedStays1(s, step, r); }
    }
  }

  /** A run of the mission does not begin to close. */
  lemma ClosingIsOld(s: State, m: MissionId, v: Mission, step: Step, r: RunId)
    requires Inv(s) && FinishedAs(s, m, v) && Settled(s, m) && Enabled(s, step)
    requires r in s.runs && s.runs[r].mission == m && Closing(Next(s, step), r)
    ensures Closing(s, r)
  {
    if Actor(step).Some? {
      assert WorkerOk(s, Actor(step).value);
      assert WorksOn(s, Actor(step).value, m) ==> !CanChange(s, Actor(step).value, v);
    }
    if step.Act? || step.ClaimRun? {
      assert !CanReopen(s, s.sessions[step.client], m) && SessionOk(s, s.sessions[step.client]);
    }
    assert RunOk(s.runs[r], s);
  }

  /** What a worker that cannot change the mission does leaves it, or another one, unable to. */
  lemma ActorStaysSettled(s: State, m: MissionId, v: Mission, step: Step, t: Token)
    requires Inv(s) && FinishedAs(s, m, v) && Settled(s, m) && Enabled(s, step) && Actor(step) == Some(t)
    requires WorksOn(s, t, m) && WorksOn(Next(s, step), t, m)
    ensures !CanChange(Next(s, step), t, v)
  {
    assert WorkerOk(s, t) && !CanChange(s, t, v);
    var r := s.workers[t].run;
    if !HoldsLease(s, t) { LostStaysLost(s, step, t); }
    if Closing(Next(s, step), r) { ClosingIsOld(s, m, v, step, r); }
  }

  lemma BystanderStaysSettled(s: State, m: MissionId, v: Mission, step: Step, t: Token)
    requires Inv(s) && FinishedAs(s, m, v) && Settled(s, m) && Enabled(s, step) && Actor(step) != Some(t)
    requires WorksOn(s, t, m) && t in Next(s, step).workers && Next(s, step).workers[t] == s.workers[t]
    ensures !CanChange(Next(s, step), t, v)
  {
    assert WorkerOk(s, t) && !CanChange(s, t, v);
    var r := s.workers[t].run;
    if !HoldsLease(s, t) { LostStaysLost(s, step, t); }
    if Closing(Next(s, step), r) { ClosingIsOld(s, m, v, step, r); }
  }

  lemma WorkersStaySettled(s: State, m: MissionId, v: Mission, step: Step, t: Token)
    requires Inv(s) && FinishedAs(s, m, v) && Settled(s, m) && Enabled(s, step) && WorksOn(Next(s, step), t, m)
    ensures !CanChange(Next(s, step), t, v)
  {
    NextKeepsTables(s, step);
    if step.ClaimRun? {
      assert SessionOk(s, s.sessions[step.client]) && !CanReopen(s, s.sessions[step.client], m);
    }
    assert t in s.workers && WorkerOk(s, t);
    assert RunOk(s.runs[s.workers[t].run], s);
    if Actor(step) == Some(t) {
      ActorStaysSettled(s, m, v, step, t);
    } else {
      BystanderStaysSettled(s, m, v, step, t);
    }
  }

  lemma LostStaysLost(s: State, step: Step, t: Token)
    requires Inv(s) && Enabled(s, step) && t in s.workers && !HoldsLease(s, t)
    ensures !HoldsLease(Next(s, step), t)
  {
    assert WorkerOk(s, t);
    if t in Next(s, step).workers && Next(s, step).workers[t].run == s.workers[t].run {
      LostTokenStaysLost1(s, step, t, s.workers[t].run);
    }
  }

  lemma SettledStays1(s: State, m: MissionId, v: Mission, step: Step)
    requires Inv(s) && FinishedAs(s, m, v) && Settled(s, m) && Enabled(s, step)
    ensures FinishedAs(Next(s, step), m, v) && Settled(Next(s, step), m)
  {
    var s' := Next(s, step);
    FinishedStays1(s, m, v, step);
    forall c <- s'.sessions ensures !CanReopen(s', s'.sessions[c], m) {
      SessionsStaySettled(s, m, v, step, c);
    }
    forall r <- s'.runs | s'.runs[r].mission == m && Claimable(s'.runs[r].status) ensures !s'.runs[r].job {
      RunsStaySettled(s, m, v, step, r);
    }
    forall t <- s'.workers | WorksOn(s', t, m) ensures !CanChange(s', t, v) {
      WorkersStaySettled(s, m, v, step, t);
    }
  }

  lemma {:induction false} SettledStays(s: State, m: MissionId, v: Mission, steps: seq<Step>)
    requires Inv(s) && FinishedAs(s, m, v) && Settled(s, m) && Valid(s, steps)
    ensures FinishedAs(Exec(s, steps), m, v) && Settled(Exec(s, steps), m)
    decreases |steps|
  {
    if steps != [] {
      NextKeepsInv(s, steps[0]);
      SettledStays1(s, m, v, steps[0]);
      SettledStays(Next(s, steps[0]), m, v, steps[1..]);
    }
  }

  /** In every continuation the mission is as it is now. */
  ghost predicate StaysAs(s: State, m: MissionId, v: Mission) {
    forall steps :: Valid(s, steps) ==> m in Exec(s, steps).missions && Exec(s, steps).missions[m] == v
  }

  lemma JobCanWrite(s: State, m: MissionId, r: RunId, result: Payload) returns (steps: seq<Step>)
    requires Inv(s) && KnownRun(s, r) && s.runs[r].mission == m && s.runs[r].job && Claimable(s.runs[r].status)
    requires !s.missions[m].status.Cancelled?
    ensures Ends(s, steps, m, AfterFailure(s.missions[m].status, s.missions[m], result))
  {
    var c := UnusedId(s.sessions.Keys);
    var load := LoadRun(c, r);
    NextKeepsInv(s, load);
    var rest := ClaimerCanWrite(Next(s, load), c, m, result);
    EndsCons(s, load, rest, m, AfterFailure(s.missions[m].status, s.missions[m], result));
    steps := [load] + rest;
  }

  /** Another result than the mission has. */
  function Other(v: Mission): Payload { v.result + "!" }

  lemma OtherIsOther(v: Mission, loaded: Status)
    ensures AfterFailure(loaded, v, Other(v)) != v
  {
    assert |Other(v)| == |v.result| + 1;
  }

  lemma ReopenerChanges(s: State, m: MissionId, v: Mission, c: Client) returns (steps: seq<Step>, after: Mission)
    requires Inv(s) && FinishedAs(s, m, v) && c in s.sessions && CanReopen(s, s.sessions[c], m)
    ensures Ends(s, steps, m, after) && after != v
  {
    var x := s.sessions[c];
    if x.Starting? {
      after := Mission(Paused, "");
      steps := StarterCanWrite(s, c, m, "");
    } else if x.Claiming? {
      OtherIsOther(v, x.status);
      after := AfterFailure(x.status, v, Other(v));
      steps := ClaimerCanWrite(s, c, m, Other(v));
    } else {
      var r := UnusedId(s.runs.Keys);
      NextKeepsInv(s, Act(c, r));
      steps, after := ActorChanges(s, m, v, c, r, Next(s, Act(c, r)));
    }
  }

  lemma ActorChanges(s: State, m: MissionId, v: Mission, c: Client, r: RunId, s': State) returns (steps: seq<Step>, after: Mission)
    requires Inv(s) && FinishedAs(s, m, v) && c in s.sessions && s.sessions[c].Loaded? && CanReopen(s, s.sessions[c], m)
    requires Enabled(s, Act(c, r)) && s' == AfterAct(s, c, r) && Inv(s')
    ensures Ends(s, steps, m, after) && after != v
  {
    var x := s.sessions[c];
    if x.intent.Replying? {
      after := Mission(Paused, "");
      var rest := StarterCanWrite(s', c, m, "");
      EndsCons(s, Act(c, r), rest, m, after);
      steps := [Act(c, r)] + rest;
    } else if x.intent.Resuming? && !Restarts(x.status) {
      OtherIsOther(v, v.status);
      after := AfterFailure(v.status, v, Other(v));
      var rest := JobCanWrite(s', m, r, Other(v));
      EndsCons(s, Act(c, r), rest, m, after);
      steps := [Act(c, r)] + rest;
    } else {
      after := s'.missions[m];
      EndsNow(s, Act(c, r), m, after);
      steps := [Act(c, r)];
    }
  }

  lemma HolderChanges(s: State, m: MissionId, v: Mission, t: Token) returns (steps: seq<Step>, after: Mission)
    requires Inv(s) && FinishedAs(s, m, v) && WorksOn(s, t, m) && HoldsLease(s, t)
    requires s.workers[t].phase.Claimed? || s.workers[t].phase.Checked?
    ensures Ends(s, steps, m, after) && after != v
  {
    var loaded := s.workers[t].loaded;
    assert WorkerOk(s, t);
    if loaded.Cancelled? {
      var reload := Reload(t);
      var s1 := Next(s, reload);
      OtherIsOther(v, v.status);
      after := AfterFailure(v.status, v, Other(v));
      var rest := HolderCanWrite(s1, t, m, Other(v));
      EndsCons(s, reload, rest, m, after);
      steps := [reload] + rest;
    } else {
      OtherIsOther(v, loaded);
      after := AfterFailure(loaded, v, Other(v));
      steps := HolderCanWrite(s, t, m, Other(v));
    }
  }

  /** An outcome that a worker which is still in the loop can have, and that is not a success. */
  function BadEnd(phase: Phase): Outcome
    requires InLoop(phase)
  {
    if phase.Stopping? then Outcome(Cancelled, Cancelled, 0, "", "") else Failure("")
  }

  /** A worker that finishes its run and then its mission. */
  lemma FinisherChanges(s: State, m: MissionId, v: Mission, t: Token) returns (steps: seq<Step>, after: Mission)
    requires Inv(s) && FinishedAs(s, m, v) && WorksOn(s, t, m) && InLoop(s.workers[t].phase)
    requires if HoldsLease(s, t) then s.workers[t].phase.Stopping? && !s.workers[t].loaded.Cancelled?
             else Over(s.runs[s.workers[t].run].status)
    ensures Ends(s, steps, m, after) && after != v
  {
    var out := BadEnd(s.workers[t].phase);
    var finish := FinishRun(t, out);
    var s1 := Next(s, finish);
    assert s1.workers[t].run == s.workers[t].run && s1.workers[t].loaded == s.workers[t].loaded && s1.missions == s.missions;
    assert s1.runs[s1.workers[t].run].mission == m;
    after := Next(s1, FinishMission(t)).missions[m];
    EndsNow(s1, FinishMission(t), m, after);
    EndsCons(s, finish, [FinishMission(t)], m, after);
    steps := [finish] + [FinishMission(t)];
  }

  lemma WriterChanges(s: State, m: MissionId, v: Mission, t: Token) returns (steps: seq<Step>, after: Mission)
    requires Inv(s) && FinishedAs(s, m, v) && WorksOn(s, t, m)
    requires match s.workers[t].phase {
        case WroteRun(_) => Written(s.workers[t], v) != v
        case LostLease(out) => Over(s.runs[s.workers[t].run].status) && Mission(out.missionStatus, out.result) != v
        case _ => false
      }
    ensures Ends(s, steps, m, after) && after != v
  {
    after := Next(s, FinishMission(t)).missions[m];
    EndsNow(s, FinishMission(t), m, after);
    steps := [FinishMission(t)];
  }

  /** The worker that holds a closing run writes it as cancelled. */
  lemma HolderCloses(s: State, r: RunId) returns (step: Step)
    requires Inv(s) && Closing(s, r) && !Over(s.runs[r].status)
    ensures Enabled(s, step) && Next(s, step).missions == s.missions && Over(Next(s, step).runs[r].status)
    ensures Next(s, step).runs.Keys == s.runs.Keys && Next(s, step).runs[r].mission == s.runs[r].mission
    ensures forall t <- s.workers :: s.workers[t].run == r && !HoldsLease(s, t) ==>
      t in Next(s, step).workers && Next(s, step).workers[t] == s.workers[t] && !HoldsLease(Next(s, step), t)
  {
    var t := s.runs[r].leaseToken.value;
    assert WorkerOk(s, t);
    step := FinishRun(t, Outcome(Cancelled, Cancelled, 0, "", ""));
  }

  lemma StaleChanges(s: State, m: MissionId, v: Mission, t: Token) returns (steps: seq<Step>, after: Mission)
    requires Inv(s) && FinishedAs(s, m, v) && WorksOn(s, t, m) && !HoldsLease(s, t)
    requires CanChange(s, t, v) && !s.workers[t].phase.WroteRun? && Over(s.runs[s.workers[t].run].status)
    ensures Ends(s, steps, m, after) && after != v
  {
    if InLoop(s.workers[t].phase) {
      steps, after := FinisherChanges(s, m, v, t);
    } else {
      steps, after := WriterChanges(s, m, v, t);
    }
  }

  lemma WorkerChanges(s: State, m: MissionId, v: Mission, t: Token) returns (steps: seq<Step>, after: Mission)
    requires Inv(s) && FinishedAs(s, m, v) && WorksOn(s, t, m) && CanChange(s, t, v)
    ensures Ends(s, steps, m, after) && after != v
  {
    var w := s.workers[t];
    assert WorkerOk(s, t);
    if w.phase.WroteRun? {
      steps, after := WriterChanges(s, m, v, t);
    } else if HoldsLease(s, t) {
      if w.phase.Stopping? {
        steps, after := FinisherChanges(s, m, v, t);
      } else {
        steps, after := HolderChanges(s, m, v, t);
      }
    } else if Over(s.runs[w.run].status) {
      steps, after := StaleChanges(s, m, v, t);
    } else {
      var close := HolderCloses(s, w.run);
      NextKeepsInv(s, close);
      var rest;
      rest, after := StaleChanges(Next(s, close), m, v, t);
      EndsCons(s, close, rest, m, after);
      steps := [close] + rest;
    }
  }

  lemma UnsettledChanges(s: State, m: MissionId, v: Mission)
    requires Inv(s) && FinishedAs(s, m, v) && !Settled(s, m)
    ensures !StaysAs(s, m, v)
  {
    var steps, after;
    if c :| c in s.sessions && CanReopen(s, s.sessions[c], m) {
      steps, after := ReopenerChanges(s, m, v, c);
    } else if r :| r in s.runs && s.runs[r].mission == m && Claimable(s.runs[r].status) && s.runs[r].job {
      OtherIsOther(v, v.status);
      after := AfterFailure(v.status, v, Other(v));
      steps := JobCanWrite(s, m, r, Other(v));
    } else {
      var t :| t in s.workers && WorksOn(s, t, m) && CanChange(s, t, v);
      steps, after := WorkerChanges(s, m, v, t);
    }
    assert Ends(s, steps, m, after);
  }

  /** A succeeded or failed mission is as it is in every continuation exactly when no session, no job of an open run and
      no worker is in a position to change it. Fencing protects the run row: a superseded worker of a run that is over
      is in that position, one of a run that asks for information is not. */
  lemma FinishedHoldsExactlyWhenSettled(s: State, m: MissionId, v: Mission)
    requires Inv(s) && FinishedAs(s, m, v)
    ensures StaysAs(s, m, v) <==> Settled(s, m)
  {
    if Settled(s, m) {
      forall steps | Valid(s, steps) ensures m in Exec(s, steps).missions && Exec(s, steps).missions[m] == v {
        SettledStays(s, m, v, steps);
      }
    } else {
      UnsettledChanges(s, m, v);
    }
  }

  // ---- checkpoints -----------------------------------------------------------------------------

  /** What a run resumes from. */
  datatype Saved = Saved(checkpoint: Payload, stepsUsed: nat)

  /** What the run resumes from after a step: a checkpoint or an outcome counts when it is written under the run's lease, and
      an outcome that counts no steps leaves their number alone. */
  function SavedAfter(s: State, step: Step, r: RunId, saved: Saved): Saved
    requires r in s.runs
  {
    match step
    case Checkpoint(t, checkpoint, stepsUsed, _) => if s.runs[r].leaseToken == Some(t) then Saved(checkpoint, stepsUsed) else saved
    case FinishRun(t, out) =>
      if s.runs[r].leaseToken == Some(t) then Saved(out.checkpoint, if out.stepsUsed == 0 then saved.stepsUsed else out.stepsUsed) else saved
    case _ => saved
  }

  function LastSaved(s: State, steps: seq<Step>, r: RunId, saved: Saved): Saved
    requires Inv(s) && Valid(s, steps) && r in s.runs
    decreases |steps|
  {
    if steps == [] then saved
    else
      NextKeepsInv(s, steps[0]);
      LastSaved(Next(s, steps[0]), steps[1..], r, SavedAfter(s, steps[0], r, saved))
  }

  lemma NextKeepsSaved(s: State, step: Step, r: RunId)
    requires Inv(s) && Enabled(s, step) && r in s.runs
    ensures r in Next(s, step).runs
    ensures var after := SavedAfter(s, step, r, Saved(s.runs[r].checkpoint, s.runs[r].stepsUsed));
      Next(s, step).runs[r].checkpoint == after.checkpoint && Next(s, step).runs[r].stepsUsed == after.stepsUsed
  {
    NextKeepsTables(s, step);
    if Actor(step).Some? {
      assert WorkerOk(s, Actor(step).value);
    }
  }

  /** Over every run of the system a run carries the checkpoint and the steps that were last written under its lease, so
      whoever claims it next goes on from there: no claim, heartbeat, cancellation or stale worker loses them. */
  lemma {:induction false} LastCheckpointIsKept(s: State, steps: seq<Step>, r: RunId)
    requires Inv(s) && Valid(s, steps) && r in s.runs
    ensures r in Exec(s, steps).runs
    ensures Saved(Exec(s, steps).runs[r].checkpoint, Exec(s, steps).runs[r].stepsUsed) ==
      LastSaved(s, steps, r, Saved(s.runs[r].checkpoint, s.runs[r].stepsUsed))
    decreases |steps|
  {
    if steps != [] {
      NextKeepsInv(s, steps[0]);
      NextKeepsSaved(s, steps[0], r);
      LastCheckpointIsKept(Next(s, steps[0]), steps[1..], r);
    }
  }

  // ---- stranded runs ---------------------------------------------------------------------------

  /** An open run that nobody works on and nobody will: its job is over, nobody is about to claim it, and no live worker
      holds its lease. */
  predicate Abandoned(s: State, r: RunId) {
    && r in s.runs && Claimable(s.runs[r].status) && !s.runs[r].job
    && (forall c <- s.sessions :: !(s.sessions[c].Claiming? && s.sessions[c].run == r))
    && (forall t <- s.workers :: s.workers[t].run == r ==> !HoldsLease(s, t))
  }

  /** The run is as it was, but for its job. */
  predicate Unmoved(s: State, s': State, r: RunId) {
    r in s.runs && r in s'.runs && s'.runs[r] == s.runs[r].(job := s'.runs[r].job)
  }

  predicate Cancels(s: State, step: Step, m: MissionId) { step.Act? && WillCancel(s, step.client, m) }

  /** No step of this continuation cancels the mission. */
  predicate Uncancelled(s: State, steps: seq<Step>, m: MissionId)
    requires Valid(s, steps)
    decreases |steps|
  {
    steps == [] || (!Cancels(s, steps[0], m) && Uncancelled(Next(s, steps[0]), steps[1..], m))
  }

  lemma AbandonedStays1(s: State, step: Step, r: RunId)
    requires Inv(s) && Enabled(s, step) && Abandoned(s, r) && !Cancels(s, step, s.runs[r].mission)
    ensures Abandoned(Next(s, step), r) && Unmoved(s, Next(s, step), r)
  {
    var s' := Next(s, step);
    NextKeepsTables(s, step);
    if Actor(step).Some? {
      assert WorkerOk(s, Actor(step).value);
    }
    forall t <- s'.workers | s'.workers[t].run == r ensures !HoldsLease(s', t) {
      if t in s.workers {
        assert WorkerOk(s, t);
        if !HoldsLease(s, t) { LostStaysLost(s, step, t); }
      }
    }
  }

  lemma {:induction false} AbandonedStays(s: State, steps: seq<Step>, r: RunId)
    requires Inv(s) && Valid(s, steps) && Abandoned(s, r) && Uncancelled(s, steps, s.runs[r].mission)
    ensures Abandoned(Exec(s, steps), r) && Unmoved(s, Exec(s, steps), r)
    decreases |steps|
  {
    if steps != [] {
      AbandonedStays1(s, steps[0], r);
      NextKeepsInv(s, steps[0]);
      AbandonedStays(Next(s, steps[0]), steps[1..], r);
    }
  }

  /** Nothing but a cancellation of its mission will ever change the run again. */
  ghost predicate Stranded(s: State, r: RunId)
    requires r in s.runs
  {
    forall steps :: Valid(s, steps) && Uncancelled(s, steps, s.runs[r].mission) ==> Unmoved(s, Exec(s, steps), r)
  }

  /** One step of a worker or a claimer that moves the run. */
  lemma NextMover(s: State, r: RunId) returns (step: Step)
    requires Inv(s) && r in s.runs && Claimable(s.runs[r].status) && !Abandoned(s, r) && !s.runs[r].job
    ensures Enabled(s, step) && !step.Act? && !Unmoved(s, Next(s, step), r)
  {
    if c :| c in s.sessions && s.sessions[c].Claiming? && s.sessions[c].run == r {
      var t := UnusedId(s.issued);
      step := ClaimRun(c, t, Later(s.runs[r]));
      assert Next(s, step).runs[r].fencingToken == s.runs[r].fencingToken + 1;
    } else {
      var t :| t in s.workers && s.workers[t].run == r && HoldsLease(s, t);
      assert WorkerOk(s, t);
      step := FinishRun(t, BadEnd(s.workers[t].phase));
      assert Next(s, step).runs[r].leaseToken.None?;
    }
  }

  lemma JobMoves(s: State, r: RunId) returns (steps: seq<Step>)
    requires Inv(s) && KnownRun(s, r) && Claimable(s.runs[r].status) && s.runs[r].job
    requires !s.missions[s.runs[r].mission].status.Cancelled?
    ensures Valid(s, steps) && Uncancelled(s, steps, s.runs[r].mission) && !Unmoved(s, Exec(s, steps), r)
  {
    var c := UnusedId(s.sessions.Keys);
    var t := UnusedId(s.issued);
    var load, claim := LoadRun(c, r), ClaimRun(c, t, Later(s.runs[r]));
    var s1 := Next(s, load);
    var s2 := Next(s1, claim);
    assert s2.runs[r].fencingToken == s.runs[r].fencingToken + 1;
    ExecCons(s1, claim, []);
    ExecCons(s, load, [claim] + []);
    steps := [load] + ([claim] + []);
    assert steps[1..] == [claim] + [] && ([claim] + [])[1..] == [];
    assert Uncancelled(s1, [claim] + [], s.runs[r].mission);
  }

  /** An open run of a mission that is not cancelled is stranded exactly when its job is over, nobody is about to claim
      it and no live worker holds its lease. */
  lemma StrandedExactlyWhenAbandoned(s: State, r: RunId)
    requires Inv(s) && KnownRun(s, r) && Claimable(s.runs[r].status) && !s.missions[s.runs[r].mission].status.Cancelled?
    ensures Stranded(s, r) <==> Abandoned(s, r)
  {
    if Abandoned(s, r) {
      forall steps | Valid(s, steps) && Uncancelled(s, steps, s.runs[r].mission) ensures Unmoved(s, Exec(s, steps), r) {
        AbandonedStays(s, steps, r);
      }
    } else if s.runs[r].job {
      var steps := JobMoves(s, r);
    } else {
      var step := NextMover(s, r);
      assert [step][1..] == [];
      assert Valid(s, [step]) && Exec(s, [step]) == Next(s, step) && Uncancelled(s, [step], s.runs[r].mission);
    }
  }

  // ---- instances -------------------------------------------------------------------------------

  /** A mission is created to be run inline and cancelled before its run starts: its caller pauses it again. */
  lemma InlineStartUndoesCancellation() returns (before: seq<Step>, after: seq<Step>)
    ensures Valid(EMPTY, before) && "m" in Exec(EMPTY, before).missions && Exec(EMPTY, before).missions["m"].status.Cancelled?
    ensures Valid(Exec(EMPTY, before), after) && "m" in Exec(Exec(EMPTY, before), after).missions
    ensures Exec(Exec(EMPTY, before), after).missions["m"].status.Paused?
  {
    before := [CreateMission("m", Some(1)), Load(2, "m", Cancelling), Act(2, 0)];
    var s1 := Next(EMPTY, before[0]);
    var s2 := Next(s1, before[1]);
    var s3 := Next(s2, before[2]);
    NextKeepsInv(EMPTY, before[0]);
    NextKeepsInv(s1, before[1]);
    NextKeepsInv(s2, before[2]);
    assert before[1..][1..][1..] == [];
    assert Exec(s2, before[1..][1..]) == s3;
    assert Exec(s1, before[1..]) == s3;
    assert s3.sessions[1] == Starting("m");
    after := StarterCanWrite(s3, 1, "m", "");
  }

  /** A run of mission m is queued. */
  const QUEUED: State := State(map[0 := NewRun("m", true)], map["m" := Mission(Running, "")], map[], map[], {})

  lemma QueuesARun() returns (steps: seq<Step>)
    ensures Valid(EMPTY, steps) && Exec(EMPTY, steps) == QUEUED
  {
    var create, load, resume := CreateMission("m", None), Load(1, "m", Resuming), Act(1, 0);
    var s1 := Next(EMPTY, create);
    var s2 := Next(s1, load);
    var s3 := Next(s2, resume);
    assert s3.runs == QUEUED.runs && s3.missions == QUEUED.missions && s3.sessions == map[];
    assert s3 == QUEUED;
    ExecCons(s2, resume, []);
    ExecCons(s1, load, [resume] + []);
    ExecCons(EMPTY, create, [load] + ([resume] + []));
    steps := [create] + ([load] + ([resume] + []));
  }

  /** The worker with token 1 has claimed it at time 0. */
  const ONE_CLAIM: State := State(
    map[0 := Run("m", Running, Some(1), Some(120), 1, 0, "", "", true)], map["m" := Mission(Running, "")],
    map[1 := Worker(0, Running, Claimed)], map[], {1})

  lemma OneClaim() returns (steps: seq<Step>)
    ensures Valid(EMPTY, steps) && Exec(EMPTY, steps) == ONE_CLAIM
  {
    var queue := QueuesARun();
    var load, claim := LoadRun(2, 0), ClaimRun(2, 1, 0);
    var s1 := Next(QUEUED, load);
    var s2 := Next(s1, claim);
    assert s2.runs == ONE_CLAIM.runs && s2.workers == ONE_CLAIM.workers && s2.sessions == map[];
    assert s2 == ONE_CLAIM;
    ExecCons(s1, claim, []);
    ExecCons(QUEUED, load, [claim] + []);
    ExecAppend(EMPTY, queue, [load] + ([claim] + []));
    steps := queue + ([load] + ([claim] + []));
  }

  /** A second worker has claimed the run after the first one's lease has expired. */
  const TWO_CLAIMS: State := State(
    map[0 := Run("m", Running, Some(2), Some(241), 2, 0, "", "", true)], map["m" := Mission(Running, "")],
    map[1 := Worker(0, Running, Claimed), 2 := Worker(0, Running, Claimed)], map[], {1, 2})

  lemma SecondClaim() returns (steps: seq<Step>)
    ensures Valid(ONE_CLAIM, steps) && Exec(ONE_CLAIM, steps) == TWO_CLAIMS
  {
    var load, claim := LoadRun(3, 0), ClaimRun(3, 2, 121);
    var s1 := Next(ONE_CLAIM, load);
    var s2 := Next(s1, claim);
    assert s2.runs == TWO_CLAIMS.runs && s2.workers == TWO_CLAIMS.workers && s2.issued == {1, 2};
    assert s2 == TWO_CLAIMS;
    ExecCons(s1, claim, []);
    ExecCons(ONE_CLAIM, load, [claim] + []);
    steps := [load] + ([claim] + []);
  }

  /** The second worker has succeeded. */
  const SUCCEEDED: State := State(
    map[0 := Run("m", Succeeded, None, Some(241), 2, 1, "", "done", true)], map["m" := Mission(Succeeded, "done")],
    map[1 := Worker(0, Running, Claimed)], map[], {1, 2})

  lemma SecondSucceeds() returns (steps: seq<Step>)
    ensures Valid(TWO_CLAIMS, steps) && Exec(TWO_CLAIMS, steps) == SUCCEEDED
  {
    var out := Outcome(Succeeded, Succeeded, 1, "", "done");
    var s1 := Next(TWO_CLAIMS, Check(2));
    var s2 := Next(s1, FinishRun(2, out));
    var s3 := Next(s2, FinishMission(2));
    assert s3.runs == SUCCEEDED.runs && s3.missions == SUCCEEDED.missions && s3.workers == SUCCEEDED.workers;
    assert s3 == SUCCEEDED;
    ExecCons(s2, FinishMission(2), []);
    ExecCons(s1, FinishRun(2, out), [FinishMission(2)] + []);
    ExecCons(TWO_CLAIMS, Check(2), [FinishRun(2, out)] + ([FinishMission(2)] + []));
    steps := [Check(2)] + ([FinishRun(2, out)] + ([FinishMission(2)] + []));
  }

  lemma SucceededIsSound()
    ensures Inv(SUCCEEDED)
  {
  }

  lemma {:induction false} ExecAppend(s: State, a: seq<Step>, b: seq<Step>)
    requires Valid(s, a) && Valid(Exec(s, a), b)
    ensures Valid(s, a + b) && Exec(s, a + b) == Exec(Exec(s, a), b)
    decreases |a|
  {
    if a == [] {
      assert a + b == b;
    } else {
      ExecAppend(Next(s, a[0]), a[1..], b);
      assert (a + b)[1..] == a[1..] + b;
    }
  }

  /** The superseded first worker still overwrites the mission that the second one has finished. */
  lemma SucceededMissionCanBeOverwritten() returns (before: seq<Step>, after: seq<Step>)
    ensures Valid(EMPTY, before) && Exec(EMPTY, before) == SUCCEEDED
    ensures Valid(SUCCEEDED, after) && "m" in Exec(SUCCEEDED, after).missions
    ensures Exec(SUCCEEDED, after).missions["m"].status.Paused?
  {
    var claim := OneClaim();
    var again := SecondClaim();
    var succeed := SecondSucceeds();
    ExecAppend(EMPTY, claim, again);
    ExecAppend(EMPTY, claim + again, succeed);
    before := claim + again + succeed;
    SucceededIsSound();
    var finish := FinishRun(1, Failure(""));
    var s1 := Next(SUCCEEDED, finish);
    EndsNow(s1, FinishMission(1), "m", Mission(Paused, ""));
    EndsCons(SUCCEEDED, finish, [FinishMission(1)], "m", Mission(Paused, ""));
    after := [finish] + [FinishMission(1)];
  }

  /** The job of a run is recovered while the run's own lease is still live: the second execution is skipped and ends the
      job. When the first worker then dies, the run is stranded while it is running. */
  lemma SkippedJobStrandsARun() returns (steps: seq<Step>)
    ensures Valid(EMPTY, steps) && Abandoned(Exec(EMPTY, steps), 0) && Exec(EMPTY, steps).runs[0].status.Running?
  {
    var claim := OneClaim();
    var load, skipped := LoadRun(3, 0), ClaimRun(3, 2, 60);
    var s1 := Next(ONE_CLAIM, load);
    var s2 := Next(s1, skipped);
    assert s2.runs == ONE_CLAIM.runs && s2.workers == ONE_CLAIM.workers && s2.sessions == map[];
    var s3 := Next(s2, JobEnds(0));
    var s4 := Next(s3, Crash(1));
    ExecCons(s3, Crash(1), []);
    ExecCons(s2, JobEnds(0), [Crash(1)] + []);
    ExecCons(s1, skipped, [JobEnds(0)] + ([Crash(1)] + []));
    ExecCons(ONE_CLAIM, load, [skipped] + ([JobEnds(0)] + ([Crash(1)] + [])));
    var rest := [load] + ([skipped] + ([JobEnds(0)] + ([Crash(1)] + [])));
    ExecAppend(EMPTY, claim, rest);
    steps := claim + rest;
  }
}
