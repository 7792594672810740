/**
 Agent runs and their missions as a state machine: any number of sessions load missions and act on what they
 loaded, any number of workers claim runs, persist steps under a fencing lease and finish.

 Every committed transaction is one atomic step, and so is every read. Sessions keep loaded rows across commits,
 so whoever resumes, continues, pauses or cancels a mission acts on the status it loaded earlier, and so does the
 second transaction of a finisher, unless a rollback made its session load the mission again.
 */
module RunProtocol {
  import opened Wrappers

  type RunId = int          // what new_id() hands out: fresh, never reused
  type MissionId = string
  type Token = int
  type Client = int
  type Time = int
  type Payload = string     // a JSON column

  const LEASE_SECONDS: Time := 120

  /** The status values of runs and missions. */
  datatype Status =
    | Open | Queued | Running | WaitingApproval | WaitingExternal | WaitingUntil
    | NeedsInformation | Paused | Succeeded | Failed | Cancelled

  /** `job` says whether the mission.run job of the run is still queued or running; inline runs have none. */
  datatype Run = Run(
    mission: MissionId,
    status: Status,
    leaseToken: Option<Token>,
    leaseUntil: Option<Time>,
    fencingToken: nat,
    stepsUsed: nat,
    checkpoint: Payload,
    result: Payload,
    job: bool)

  datatype Mission = Mission(status: Status, result: Payload)

  datatype Outcome = Outcome(runStatus: Status, missionStatus: Status, stepsUsed: nat, checkpoint: Payload, result: Payload)

  /** Where a worker stands: it has claimed its run, has seen the mission alive in the loop, has seen it cancelled, or is
      between the two transactions of _finish. */
  datatype Phase = Claimed | Checked | Stopping | WroteRun(out: Outcome) | LostLease(out: Outcome)

  /** `loaded` is the mission status in the worker's session. */
  datatype Worker = Worker(run: RunId, loaded: Status, phase: Phase)

  /** What a session that has loaded a mission is about to do with it. */
  datatype Intent = Resuming | Replying | Pausing | Cancelling

  datatype Session =
    | Loaded(mission: MissionId, status: Status, intent: Intent)
    | Starting(mission: MissionId)              // about to run inline a mission it has just created or reopened
    | Claiming(run: RunId, status: Status)      // about to claim a run; the mission status it has loaded

  datatype State = State(
    runs: map<RunId, Run>,
    missions: map<MissionId, Mission>,
    workers: map<Token, Worker>,
    sessions: map<Client, Session>,
    issued: set<Token>)

  datatype Step =
    | CreateMission(mission: MissionId, inline: Option<Client>)
    | Load(client: Client, mission: MissionId, intent: Intent)
    | Act(client: Client, run: RunId)
    | StartInline(client: Client, run: RunId)
    | LoadRun(client: Client, run: RunId)
    | ClaimRun(client: Client, token: Token, now: Time)
    | Check(token: Token)
    | Reload(token: Token)
    | Checkpoint(token: Token, checkpoint: Payload, stepsUsed: nat, now: Time)
    | Beat(token: Token, until: Time)
    | FinishRun(token: Token, out: Outcome)
    | FinishMission(token: Token)
    | Crash(token: Token)
    | Leave(client: Client)
    | JobEnds(run: RunId)

  const EMPTY: State := State(map[], map[], map[], map[], {})

  predicate TerminalMission(s: Status) { s.Succeeded? || s.Failed? || s.Cancelled? }

  predicate WaitingMission(s: Status) {
    s.WaitingApproval? || s.WaitingExternal? || s.WaitingUntil? || s.NeedsInformation? || s.Paused?
  }

  /** start_run sets such a mission running. */
  predicate Restarts(s: Status) { s.Open? || WaitingMission(s) }

  /** The run statuses that claim_run and cancel_mission name. */
  predicate Claimable(s: Status) { s.Queued? || s.Running? || s.WaitingApproval? || s.WaitingExternal? || s.WaitingUntil? }

  /** A run that nobody can claim any more. */
  predicate Closed(s: Status) { s.Succeeded? || s.Failed? || s.Cancelled? || s.NeedsInformation? }

  /** The closed statuses that _finish and the mission.run job look for. */
  predicate Over(s: Status) { s.Succeeded? || s.Failed? || s.Cancelled? }

  /** The outcomes that execute_run builds, by what it knew when it built them. */
  predicate Possible(phase: Phase, out: Outcome) {
    match phase
    case Claimed => out.runStatus.Failed? && out.missionStatus.Paused?          // access was revoked
    case Checked =>
      || (out.runStatus.Failed? && (out.missionStatus.Paused? || out.missionStatus.NeedsInformation?))
      || (out.runStatus.NeedsInformation? && (out.missionStatus.Paused? || out.missionStatus.NeedsInformation?))
      || (out.runStatus.Succeeded? && (out.missionStatus.Succeeded? || out.missionStatus.WaitingApproval?))
      || (out.runStatus.WaitingUntil? && out.missionStatus.WaitingUntil?)
      || (out.runStatus.WaitingExternal? && out.missionStatus.WaitingExternal?)
    case Stopping => out.runStatus.Cancelled? && out.missionStatus.Cancelled?
    case _ => false
  }

  predicate InLoop(p: Phase) { p.Claimed? || p.Checked? || p.Stopping? }

  predicate LeaseFree(r: Run, now: Time) {
    r.leaseUntil.None? || r.leaseUntil.value < now
  }

  /** The row count of an UPDATE ... WHERE lease_token = token is one. */
  predicate HoldsLease(s: State, token: Token) {
    token in s.workers && s.workers[token].run in s.runs && s.runs[s.workers[token].run].leaseToken == Some(token)
  }

  function Held(s: State, token: Token): Run
    requires HoldsLease(s, token)
  {
    s.runs[s.workers[token].run]
  }

  /** The run and the mission of a run are in the tables. */
  predicate KnownRun(s: State, r: RunId) { r in s.runs && s.runs[r].mission in s.missions }

  predicate KnownWorker(s: State, t: Token) { t in s.workers && KnownRun(s, s.workers[t].run) }

  function Write(s: State, token: Token, r: Run): State
    requires token in s.workers
  {
    s.(runs := s.runs[s.workers[token].run := r])
  }

  function Drop(s: State, token: Token): State {
    s.(workers := s.workers - {token})
  }

  function EnterPhase(s: State, token: Token, phase: Phase): State
    requires token in s.workers
  {
    s.(workers := s.workers[token := s.workers[token].(phase := phase)])
  }

  function Close(s: State, c: Client): State {
    s.(sessions := s.sessions - {c})
  }

  function SetStatus(s: State, m: MissionId, status: Status): State
    requires m in s.missions
  {
    s.(missions := s.missions[m := s.missions[m].(status := status)])
  }

  function NewRun(m: MissionId, job: bool): Run { Run(m, Queued, None, None, 0, 0, "", "", job) }

  function FinishedRun(r: Run, out: Outcome): Run {
    r.(status := out.runStatus, leaseToken := None, stepsUsed := if out.stepsUsed != 0 then out.stepsUsed else r.stepsUsed,
       checkpoint := out.checkpoint, result := out.result)
  }

  function CancelledRun(r: Run, mission: MissionId): Run {
    if r.mission == mission && Claimable(r.status) then r.(status := Cancelled, leaseToken := None) else r
  }

  /** resume, reply, revocation and cancel_mission, each on the status it has loaded. A column whose value does not
      change in the session is not written. */
  function AfterAct(s: State, c: Client, run: RunId): State
    requires c in s.sessions && s.sessions[c].Loaded? && s.sessions[c].mission in s.missions
  {
    var m, loaded := s.sessions[c].mission, s.sessions[c].status;
    if TerminalMission(loaded) then Close(s, c)
    else
      match s.sessions[c].intent
      case Resuming =>
        var queued := s.(runs := s.runs[run := NewRun(m, true)]);
        Close(if Restarts(loaded) then SetStatus(queued, m, Running) else queued, c)
      case Replying =>
        var reopened := if loaded.Open? then s else SetStatus(s, m, Open);
        reopened.(sessions := s.sessions[c := Starting(m)])
      case Pausing => Close(if loaded.Paused? then s else SetStatus(s, m, Paused), c)
      case Cancelling => Close(SetStatus(s, m, Cancelled).(runs := map id <- s.runs :: CancelledRun(s.runs[id], m)), c)
  }

  /** claim_run: one UPDATE, then a look at its row count. */
  function AfterClaim(s: State, c: Client, t: Token, now: Time): State
    requires c in s.sessions && s.sessions[c].Claiming? && s.sessions[c].run in s.runs
  {
    var r := s.sessions[c].run;
    var was := s.runs[r];
    if Claimable(was.status) && LeaseFree(was, now) then
      State(s.runs[r := was.(leaseToken := Some(t), leaseUntil := Some(now + LEASE_SECONDS),
                             fencingToken := was.fencingToken + 1, status := Running)],
            s.missions, s.workers[t := Worker(r, s.sessions[c].status, Claimed)], s.sessions - {c}, s.issued + {t})
    else Close(s, c).(issued := s.issued + {t})
  }

  /** The mission row after the second transaction of a finisher that wrote its run. */
  function Written(w: Worker, m: Mission): Mission
    requires w.phase.WroteRun?
  {
    if w.loaded.Cancelled? then m
    else Mission(if w.phase.out.missionStatus == w.loaded then m.status else w.phase.out.missionStatus, w.phase.out.result)
  }

  /** The same for a finisher that lost its lease: it has loaded both rows again, and leaves a newer worker's live run alone. */
  function Rewritten(out: Outcome, r: Run, m: Mission): Mission {
    if Over(r.status) && !m.status.Cancelled? then Mission(out.missionStatus, out.result) else m
  }

  /** The second transaction of _finish. */
  function AfterFinishMission(s: State, token: Token): State
    requires KnownWorker(s, token) && !InLoop(s.workers[token].phase)
  {
    var w := s.workers[token];
    var r := s.runs[w.run];
    var m := s.missions[r.mission];
    var after := if w.phase.WroteRun? then Written(w, m) else Rewritten(w.phase.out, r, m);
    Drop(s.(missions := s.missions[r.mission := after]), token)
  }

  predicate Enabled(s: State, step: Step) {
    match step
    case CreateMission(m, inline) => m !in s.missions && (inline.Some? ==> inline.value !in s.sessions)
    case Load(c, m, _) => c !in s.sessions && m in s.missions
    case Act(c, run) => c in s.sessions && s.sessions[c].Loaded? && s.sessions[c].mission in s.missions && run !in s.runs
    case StartInline(c, run) => c in s.sessions && s.sessions[c].Starting? && run !in s.runs
    case LoadRun(c, r) => c !in s.sessions && KnownRun(s, r) && s.runs[r].job
    case ClaimRun(c, t, _) => c in s.sessions && s.sessions[c].Claiming? && s.sessions[c].run in s.runs && t !in s.issued
    case Check(t) => KnownWorker(s, t) && (s.workers[t].phase.Claimed? || s.workers[t].phase.Checked?)
    case Reload(t) => KnownWorker(s, t) && s.workers[t].phase.Checked?
    case Checkpoint(t, _, _, _) => t in s.workers && s.workers[t].phase.Checked?
    case Beat(t, _) => t in s.workers && s.workers[t].phase.Checked?
    case FinishRun(t, out) => t in s.workers && Possible(s.workers[t].phase, out)
    case FinishMission(t) => KnownWorker(s, t) && !InLoop(s.workers[t].phase)
    case Crash(t) => t in s.workers
    case Leave(c) => c in s.sessions
    case JobEnds(r) => r in s.runs
  }

  function Next(s: State, step: Step): State
    requires Enabled(s, step)
  {
    match step
    case CreateMission(m, inline) =>
      s.(missions := s.missions[m := Mission(Open, "")],
         sessions := if inline.Some? then s.sessions[inline.value := Starting(m)] else s.sessions)
    case Load(c, m, intent) => s.(sessions := s.sessions[c := Loaded(m, s.missions[m].status, intent)])
    case Act(c, run) => AfterAct(s, c, run)
    case StartInline(c, run) =>
      s.(runs := s.runs[run := NewRun(s.sessions[c].mission, false)], sessions := s.sessions[c := Claiming(run, Open)])
    case LoadRun(c, r) =>
      var status := s.missions[s.runs[r].mission].status;
      if status.Cancelled? || Over(s.runs[r].status) then s       // the job is skipped
      else s.(sessions := s.sessions[c := Claiming(r, status)])
    case ClaimRun(c, t, now) => AfterClaim(s, c, t, now)
    case Check(t) =>
      EnterPhase(s, t, if s.missions[s.runs[s.workers[t].run].mission].status.Cancelled? then Stopping else Checked)
    case Reload(t) =>
      s.(workers := s.workers[t := s.workers[t].(loaded := s.missions[s.runs[s.workers[t].run].mission].status)])
    case Checkpoint(t, checkpoint, stepsUsed, now) =>
      if HoldsLease(s, t) then
        Write(s, t, Held(s, t).(checkpoint := checkpoint, stepsUsed := stepsUsed, leaseUntil := Some(now + LEASE_SECONDS)))
      else Drop(s, t)       // StaleLease: this worker stops here
    case Beat(t, until) =>
      if HoldsLease(s, t) then Write(s, t, Held(s, t).(leaseUntil := Some(until))) else Drop(s, t)
    case FinishRun(t, out) =>
      if HoldsLease(s, t) then EnterPhase(Write(s, t, FinishedRun(Held(s, t), out)), t, WroteRun(out))
      else EnterPhase(s, t, LostLease(out))
    case FinishMission(t) => AfterFinishMission(s, t)
    case Crash(t) => Drop(s, t)
    case Leave(c) => Close(s, c)
    case JobEnds(r) => s.(runs := s.runs[r := s.runs[r].(job := false)])
  }

  predicate Valid(s: State, steps: seq<Step>)
    decreases |steps|
  {
    steps == [] || (Enabled(s, steps[0]) && Valid(Next(s, steps[0]), steps[1..]))
  }

  function Exec(s: State, steps: seq<Step>): State
    requires Valid(s, steps)
    decreases |steps|
  {
    if steps == [] then s else Exec(Next(s, steps[0]), steps[1..])
  }

  /** A run that begins with a step. */
  lemma ExecCons(s: State, step: Step, rest: seq<Step>)
    requires Enabled(s, step) && Valid(Next(s, step), rest)
    ensures Valid(s, [step] + rest) && Exec(s, [step] + rest) == Exec(Next(s, step), rest)
  {
    assert ([step] + rest)[1..] == rest;
  }

  // ---- the invariant ---------------------------------------------------------------------------

  predicate RunOk(r: Run, s: State) {
    && (Claimable(r.status) || Closed(r.status))
    && (r.leaseToken.Some? <==> r.status.Running?)
    && (r.leaseToken.Some? ==> r.leaseToken.value in s.issued && r.leaseUntil.Some?)
    && r.mission in s.missions
  }

  predicate WorkerOk(s: State, t: Token)
    requires t in s.workers
  {
    && t in s.issued
    && s.workers[t].run in s.runs
    && (!InLoop(s.workers[t].phase) ==> !HoldsLease(s, t))
    && (s.workers[t].phase.Claimed? ==> !s.workers[t].loaded.Cancelled?)
    && forall r <- s.runs :: s.runs[r].leaseToken == Some(t) ==> s.workers[t].run == r
  }

  predicate SessionOk(s: State, x: Session) {
    match x
    case Loaded(m, _, _) => m in s.missions
    case Starting(m) => m in s.missions
    case Claiming(r, loaded) => r in s.runs && !loaded.Cancelled?
  }

  predicate Inv(s: State) {
    && (forall r <- s.runs :: RunOk(s.runs[r], s))
    && (forall t <- s.workers :: WorkerOk(s, t))
    && (forall c <- s.sessions :: SessionOk(s, s.sessions[c]))
  }

  /** The worker that takes a step, if a worker takes it. */
  function Actor(step: Step): Option<Token> {
    match step
    case Check(t) => Some(t)
    case Reload(t) => Some(t)
    case Checkpoint(t, _, _, _) => Some(t)
    case Beat(t, _) => Some(t)
    case FinishRun(t, _) => Some(t)
    case FinishMission(t) => Some(t)
    case Crash(t) => Some(t)
    case _ => None
  }

  /** A worker that crashes and a session that leaves take nothing with them but themselves. */
  lemma LeavingTouchesNoTable(s: State, step: Step)
    requires Enabled(s, step) && (step.Crash? || step.Leave?)
    ensures Next(s, step).runs == s.runs && Next(s, step).missions == s.missions && Next(s, step).issued == s.issued
    ensures step.Crash? ==> Next(s, step).workers == s.workers - {step.token} && Next(s, step).sessions == s.sessions
    ensures step.Leave? ==> Next(s, step).sessions == s.sessions - {step.client} && Next(s, step).workers == s.workers
  {
  }

  lemma NextKeepsTables(s: State, step: Step)
    requires Inv(s) && Enabled(s, step)
    ensures s.runs.Keys <= Next(s, step).runs.Keys && s.missions.Keys <= Next(s, step).missions.Keys
    ensures s.issued <= Next(s, step).issued
    ensures forall r <- s.runs :: Next(s, step).runs[r].mission == s.runs[r].mission
  {
    if Actor(step).Some? {
      assert WorkerOk(s, Actor(step).value);
    }
    if step.FinishMission? {
      assert RunOk(s.runs[s.workers[step.token].run], s);
    }
  }

  lemma NextKeepsRuns(s: State, step: Step)
    requires Inv(s) && Enabled(s, step)
    ensures forall r <- Next(s, step).runs :: RunOk(Next(s, step).runs[r], Next(s, step))
  {
    var s' := Next(s, step);
    NextKeepsTables(s, step);
    if Actor(step).Some? {
      assert WorkerOk(s, Actor(step).value);
    }
    forall r <- s'.runs ensures RunOk(s'.runs[r], s') {
      if r in s.runs { assert RunOk(s.runs[r], s); }
    }
  }

  lemma ClaimKeepsWorkers(s: State, c: Client, token: Token, now: Time)
    requires Inv(s) && Enabled(s, ClaimRun(c, token, now))
    ensures forall t <- AfterClaim(s, c, token, now).workers :: WorkerOk(AfterClaim(s, c, token, now), t)
  {
    var s' := AfterClaim(s, c, token, now);
    assert SessionOk(s, s.sessions[c]);
    forall t <- s'.workers ensures WorkerOk(s', t) {
      if t in s.workers { assert WorkerOk(s, t); }
      forall r <- s.runs ensures RunOk(s.runs[r], s) {}
    }
  }

  lemma NextKeepsWorkers(s: State, step: Step)
    requires Inv(s) && Enabled(s, step)
    ensures forall t <- Next(s, step).workers :: WorkerOk(Next(s, step), t)
  {
    if step.ClaimRun? {
      ClaimKeepsWorkers(s, step.client, step.token, step.now);
    } else {
      OthersKeepWorkers(s, step, Next(s, step));
    }
  }

  lemma OthersKeepWorkers(s: State, step: Step, s': State)
    requires Inv(s) && Enabled(s, step) && !step.ClaimRun? && s' == Next(s, step)
    ensures forall t <- s'.workers :: WorkerOk(s', t)
  {
    if Actor(step).Some? {
      assert WorkerOk(s, Actor(step).value);
    }
    forall t <- s'.workers ensures WorkerOk(s', t) {
      assert t in s.workers && WorkerOk(s, t);
    }
  }

  lemma NextKeepsSessions(s: State, step: Step)
    requires Inv(s) && Enabled(s, step)
    ensures forall c <- Next(s, step).sessions :: SessionOk(Next(s, step), Next(s, step).sessions[c])
  {
    var s' := Next(s, step);
    NextKeepsTables(s, step);
    forall c <- s'.sessions ensures SessionOk(s', s'.sessions[c]) {
      if c in s.sessions { assert SessionOk(s, s.sessions[c]); }
    }
  }

  lemma NextKeepsInv(s: State, step: Step)
    requires Inv(s) && Enabled(s, step)
    ensures Inv(Next(s, step))
    ensures s.runs.Keys <= Next(s, step).runs.Keys && s.missions.Keys <= Next(s, step).missions.Keys
    ensures s.issued <= Next(s, step).issued
  {
    NextKeepsTables(s, step);
    NextKeepsRuns(s, step);
    NextKeepsWorkers(s, step);
    NextKeepsSessions(s, step);
  }

  lemma {:induction false} ExecKeepsInv(s: State, steps: seq<Step>)
    requires Inv(s) && Valid(s, steps)
    ensures Inv(Exec(s, steps))
    decreases |steps|
  {
    if steps != [] {
      NextKeepsInv(s, steps[0]);
      ExecKeepsInv(Next(s, steps[0]), steps[1..]);
    }
  }

  // ---- fencing ---------------------------------------------------------------------------------

  lemma LostTokenStaysLost1(s: State, step: Step, token: Token, run: RunId)
    requires Inv(s) && Enabled(s, step)
    requires token in s.issued && run in s.runs && s.runs[run].leaseToken != Some(token)
    ensures run in Next(s, step).runs && Next(s, step).runs[run].leaseToken != Some(token)
    ensures token in Next(s, step).issued
  {
    NextKeepsTables(s, step);
    if Actor(step).Some? {
      assert WorkerOk(s, Actor(step).value);
    }
  }

  lemma {:induction false} LostTokenStaysLost(s: State, steps: seq<Step>, token: Token, run: RunId)
    requires Inv(s) && Valid(s, steps)
    requires token in s.issued && run in s.runs && s.runs[run].leaseToken != Some(token)
    ensures run in Exec(s, steps).runs && Exec(s, steps).runs[run].leaseToken != Some(token)
    ensures token in Exec(s, steps).issued
    decreases |steps|
  {
    if steps != [] {
      NextKeepsInv(s, steps[0]);
      LostTokenStaysLost1(s, steps[0], token, run);
      LostTokenStaysLost(Next(s, steps[0]), steps[1..], token, run);
    }
  }

  /** Fencing: once its lease was superseded, cancelled or finished, no checkpoint, heartbeat or finish of a worker
      changes its run's row, at any later point of any run. */
  lemma StaleWorkerIsPowerless(s: State, steps: seq<Step>, step: Step, run: RunId)
    requires Inv(s) && Valid(s, steps) && Enabled(Exec(s, steps), step)
    requires Actor(step).Some? && Actor(step).value in s.issued
    requires run in s.runs && s.runs[run].leaseToken != Actor(step)
    ensures run in Exec(s, steps).runs && run in Next(Exec(s, steps), step).runs
    ensures Next(Exec(s, steps), step).runs[run] == Exec(s, steps).runs[run]
  {
    ExecKeepsInv(s, steps);
    LostTokenStaysLost(s, steps, Actor(step).value, run);
    assert WorkerOk(Exec(s, steps), Actor(step).value);
  }

  /** A claim that succeeds supersedes the lease it finds: the previous holder has lost it. */
  lemma ClaimSupersedes(s: State, c: Client, token: Token, now: Time)
    requires Inv(s) && Enabled(s, ClaimRun(c, token, now))
    ensures var s' := Next(s, ClaimRun(c, token, now)); var run := s.sessions[c].run;
      && (token in s'.workers <==> Claimable(s.runs[run].status) && LeaseFree(s.runs[run], now))
      && (token in s'.workers ==>
            && HoldsLease(s', token)
            && s'.runs[run].fencingToken == s.runs[run].fencingToken + 1
            && forall t <- s.workers :: s.workers[t].run == run ==> !HoldsLease(s', t))
      && (token !in s'.workers ==> s'.runs == s.runs)
  {
    forall t <- s.workers ensures t != token { assert WorkerOk(s, t); }
  }

  lemma ClosedStays1(s: State, step: Step, run: RunId)
    requires Inv(s) && Enabled(s, step) && run in s.runs && Closed(s.runs[run].status)
    ensures run in Next(s, step).runs && Next(s, step).runs[run] == s.runs[run].(job := Next(s, step).runs[run].job)
  {
    NextKeepsTables(s, step);
    if Actor(step).Some? {
      assert WorkerOk(s, Actor(step).value);
      assert RunOk(s.runs[run], s);
    }
  }

  /** A cancelled, succeeded, failed or asking run never changes again: not its status, checkpoint, steps or result. */
  lemma {:induction false} ClosedRunIsFrozen(s: State, steps: seq<Step>, run: RunId)
    requires Inv(s) && Valid(s, steps) && run in s.runs && Closed(s.runs[run].status)
    ensures run in Exec(s, steps).runs
    ensures Exec(s, steps).runs[run] == s.runs[run].(job := Exec(s, steps).runs[run].job)
    decreases |steps|
  {
    if steps != [] {
      NextKeepsInv(s, steps[0]);
      ClosedStays1(s, steps[0], run);
      ClosedRunIsFrozen(Next(s, steps[0]), steps[1..], run);
    }
  }

  /** This session cancels m when it acts: it has not seen m finished. */
  predicate WillCancel(s: State, c: Client, m: MissionId) {
    c in s.sessions && s.sessions[c].Loaded? && s.sessions[c].mission == m && s.sessions[c].intent.Cancelling? &&
    !TerminalMission(s.sessions[c].status)
  }

  /** Cancelling a mission freezes all its runs for good, whatever their workers still try. */
  lemma CancelFreezesRuns(s: State, m: MissionId, c: Client, unused: RunId, steps: seq<Step>, run: RunId)
    requires Inv(s) && WillCancel(s, c, m) && Enabled(s, Act(c, unused))
    requires Valid(AfterAct(s, c, unused), steps)
    requires run in s.runs && s.runs[run].mission == m
    ensures var s' := Exec(AfterAct(s, c, unused), steps);
      && run in s'.runs
      && s'.runs[run].status == (if Claimable(s.runs[run].status) then Cancelled else s.runs[run].status)
      && s'.runs[run].checkpoint == s.runs[run].checkpoint
      && s'.runs[run].stepsUsed == s.runs[run].stepsUsed
      && s'.runs[run].result == s.runs[run].result
  {
    assert Next(s, Act(c, unused)) == AfterAct(s, c, unused) && RunOk(s.runs[run], s);
    NextKeepsInv(s, Act(c, unused));
    ClosedRunIsFrozen(AfterAct(s, c, unused), steps, run);
  }

  /** This step is a claim of the run that succeeds. */
  predicate Claims(s: State, step: Step, run: RunId) {
    step.ClaimRun? && step.client in s.sessions && s.sessions[step.client].Claiming? && s.sessions[step.client].run == run &&
    run in s.runs && Claimable(s.runs[run].status) && LeaseFree(s.runs[run], step.now)
  }

  function ClaimCount(s: State, steps: seq<Step>, run: RunId): nat
    requires Valid(s, steps)
    decreases |steps|
  {
    if steps == [] then 0
    else (if Claims(s, steps[0], run) then 1 else 0) + ClaimCount(Next(s, steps[0]), steps[1..], run)
  }

  lemma FencingStep(s: State, step: Step, run: RunId)
    requires Inv(s) && Enabled(s, step) && run in s.runs
    ensures run in Next(s, step).runs
    ensures Next(s, step).runs[run].fencingToken == s.runs[run].fencingToken + (if Claims(s, step, run) then 1 else 0)
  {
    NextKeepsTables(s, step);
    if Actor(step).Some? {
      assert WorkerOk(s, Actor(step).value);
    }
  }

  /** The fencing number of a run counts the claims that succeeded. */
  lemma {:induction false} FencingCountsClaims(s: State, steps: seq<Step>, run: RunId)
    requires Inv(s) && Valid(s, steps) && run in s.runs
    ensures run in Exec(s, steps).runs
    ensures Exec(s, steps).runs[run].fencingToken == s.runs[run].fencingToken + ClaimCount(s, steps, run)
    decreases |steps|
  {
    if steps != [] {
      NextKeepsInv(s, steps[0]);
      FencingStep(s, steps[0], run);
      FencingCountsClaims(Next(s, steps[0]), steps[1..], run);
    }
  }
}
