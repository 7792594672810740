/**
 The durable job queue as a state machine. The jobs table is shared by any number of workers and
 enqueuers; every committed transaction is one atomic step, and a run is any interleaving of steps.

 The two check-then-write branches of a worker (start of run_one, failure bookkeeping) are each
 one atomic step, and so is the cancellation of queued jobs. An enqueue is two steps: its SELECT and its INSERT may be
 separated by anything. A batch claim is a sequence of single claims, so that the interleavings
 considered here include every batch.
 */
module JobProtocol {
  import opened Wrappers

  type JobId = string
  type Token = int      // what new_id() hands out: fresh, never reused
  type Client = int
  type Time = int

  const JOB_LEASE_SECONDS: Time := 120

  datatype JobState = Queued | Running | Done | Failed | Cancelled

  /** One row. The last three fields are history, not columns: the key the job was enqueued under,
      and how often it went back to the queue after a failure or an expired lease. */
  datatype Job = Job(
    state: JobState,
    runAt: Time,
    priority: int,
    leaseToken: Option<Token>,
    leaseUntil: Option<Time>,
    fencingToken: nat,
    attempts: nat,
    maxAttempts: int,
    dedupeKey: Option<string>,
    requestedKey: Option<string>,
    failureRequeues: nat,
    expiries: nat)

  datatype Phase = Claimed | Executing

  /** A claim in some worker's hands: it still has to run run_one for this job. */
  datatype Holding = Holding(job: JobId, phase: Phase)

  /** An enqueue between its SELECT and its INSERT. */
  datatype Lookup = Lookup(key: Option<string>, existing: Option<JobId>)

  datatype Queue = Queue(
    jobs: map<JobId, Job>,
    holders: map<Token, Holding>,
    issued: set<Token>,
    lookups: map<Client, Lookup>)

  datatype Step =
    | LookUp(client: Client, key: Option<string>)
    | Insert(client: Client, id: JobId, runAt: Time, priority: int, maxAttempts: int)
    | Claim(id: JobId, token: Token, now: Time)
    | Recover(now: Time)
    | Start(token: Token, hasHandler: bool)
    | Heartbeat(token: Token, until: Time)
    | Complete(token: Token)
    | Fail(token: Token, retryAt: Time)
    | Crash(token: Token)
    | CancelQueued(ids: set<JobId>)

  predicate Live(j: Job) {
    j.state in {Queued, Running}
  }

  predicate Finished(j: Job) {
    j.state in {Done, Failed, Cancelled}
  }

  const EMPTY: Queue := Queue(map[], map[], {}, map[])

  // ---- enqueue ---------------------------------------------------------------------------------

  function NewJob(key: Option<string>, runAt: Time, priority: int, maxAttempts: int): Job {
    Job(Queued, runAt, priority, None, None, 0, 0, maxAttempts, key, key, 0, 0)
  }

  /** `dedupe_key` is a truthy string: None and "" skip the lookup. */
  predicate Deduped(key: Option<string>) {
    key.Some? && key.value != ""
  }

  predicate Holds(jobs: map<JobId, Job>, id: JobId, key: Option<string>) {
    id in jobs && jobs[id].dedupeKey == key
  }

  function Freed(key: Option<string>, id: JobId): string
    requires key.Some?
  {
    key.value + "#" + id[..if |id| < 8 then |id| else 8]
  }

  /** The SELECT by dedupe key. The unique constraint makes the holder unique when there is one. */
  ghost function HolderOf(jobs: map<JobId, Job>, key: Option<string>): Option<JobId> {
    if exists id :: Holds(jobs, id, key) then
      var id :| Holds(jobs, id, key);
      Some(id)
    else
      None
  }

  ghost function AfterLookUp(s: Queue, client: Client, key: Option<string>): Queue {
    if !Deduped(key) then
      s.(lookups := s.lookups[client := Lookup(key, None)])
    else
      var existing := HolderOf(s.jobs, key);
      if existing.Some? && Live(s.jobs[existing.value]) then
        s      // an existing queued or running job wins: enqueue returns None
      else
        s.(lookups := s.lookups[client := Lookup(key, existing)])
  }

  /** Renaming the finished job that still holds the key. */
  function Renamed(jobs: map<JobId, Job>, l: Lookup): map<JobId, Job>
    requires l.existing.Some? ==> l.existing.value in jobs && l.key.Some?
  {
    if l.existing.None? then jobs else
      var id := l.existing.value;
      jobs[id := jobs[id].(dedupeKey := Some(Freed(l.key, id)))]
  }

  predicate RenameConflicts(jobs: map<JobId, Job>, l: Lookup)
    requires l.existing.Some? ==> l.key.Some?
  {
    l.existing.Some? &&
    exists id <- jobs :: id != l.existing.value && Holds(jobs, id, Some(Freed(l.key, l.existing.value)))
  }

  predicate InsertConflicts(jobs: map<JobId, Job>, l: Lookup)
    requires l.existing.Some? ==> l.existing.value in jobs && l.key.Some?
  {
    l.key.Some? && exists id <- Renamed(jobs, l) :: Holds(Renamed(jobs, l), id, l.key)
  }

  /** A unique violation rolls the whole transaction back, the renaming included. */
  function AfterInsert(s: Queue, client: Client, id: JobId, runAt: Time, priority: int, maxAttempts: int): Queue
    requires client in s.lookups
    requires var l := s.lookups[client];
      l.existing.Some? ==> l.existing.value in s.jobs && l.key.Some?
  {
    var l := s.lookups[client];
    var rest := s.(lookups := s.lookups - {client});
    if RenameConflicts(s.jobs, l) || InsertConflicts(s.jobs, l) then rest
    else rest.(jobs := Renamed(s.jobs, l)[id := NewJob(l.key, runAt, priority, maxAttempts)])
  }

  // ---- workers ---------------------------------------------------------------------------------

  function ClaimJob(j: Job, token: Token, now: Time): Job {
    j.(state := Running,
       leaseToken := Some(token),
       leaseUntil := Some(now + JOB_LEASE_SECONDS),
       fencingToken := j.fencingToken + 1,
       attempts := j.attempts + 1)
  }

  predicate LeaseExpired(j: Job, now: Time) {
    j.state == Running && j.leaseUntil.Some? && j.leaseUntil.value < now
  }

  function RecoverJob(j: Job, now: Time): Job {
    if LeaseExpired(j, now) then
      j.(state := Queued, leaseToken := None, leaseUntil := None, expiries := j.expiries + 1)
    else j
  }

  function RecoverAll(jobs: map<JobId, Job>, now: Time): map<JobId, Job> {
    map id <- jobs :: RecoverJob(jobs[id], now)
  }

  /** Recovery never looks at maxAttempts; this is the only place that does. */
  function FailJob(j: Job, retryAt: Time): Job {
    if j.attempts >= j.maxAttempts then
      j.(state := Failed, leaseToken := None)
    else
      j.(state := Queued, runAt := retryAt, leaseToken := None, failureRequeues := j.failureRequeues + 1)
  }

  /** Does the row still carry the token of this claim? */
  predicate HoldsLease(s: Queue, token: Token) {
    token in s.holders && s.holders[token].job in s.jobs &&
    s.jobs[s.holders[token].job].leaseToken == Some(token)
  }

  function Update(s: Queue, token: Token, j: Job): Queue
    requires token in s.holders
  {
    s.(jobs := s.jobs[s.holders[token].job := j])
  }

  function Drop(s: Queue, token: Token): Queue {
    s.(holders := s.holders - {token})
  }

  function Held(s: Queue, token: Token): Job
    requires HoldsLease(s, token)
  {
    s.jobs[s.holders[token].job]
  }

  function CancelAll(jobs: map<JobId, Job>, ids: set<JobId>): map<JobId, Job> {
    map id <- jobs :: if id in ids && jobs[id].state == Queued then jobs[id].(state := Cancelled) else jobs[id]
  }

  // ---- steps and runs --------------------------------------------------------------------------

  predicate LookupSound(s: Queue, l: Lookup) {
    l.existing.Some? ==> l.key.Some? && l.existing.value in s.jobs
  }

  predicate Enabled(s: Queue, step: Step) {
    match step
    case LookUp(client, _) => client !in s.lookups
    case Insert(client, id, _, _, _) => client in s.lookups && LookupSound(s, s.lookups[client]) && id !in s.jobs
    case Claim(id, token, now) => id in s.jobs && s.jobs[id].state == Queued && s.jobs[id].runAt <= now && token !in s.issued
    case Recover(_) => true
    case Start(token, _) => token in s.holders && s.holders[token].phase == Claimed
    case Heartbeat(token, _) => token in s.holders && s.holders[token].phase == Executing
    case Complete(token) => token in s.holders && s.holders[token].phase == Executing
    case Fail(token, _) => token in s.holders && s.holders[token].phase == Executing
    case Crash(token) => token in s.holders
    case CancelQueued(_) => true
  }

  ghost function Next(s: Queue, step: Step): Queue
    requires Enabled(s, step)
  {
    match step
    case LookUp(client, key) => AfterLookUp(s, client, key)
    case Insert(client, id, runAt, priority, maxAttempts) => AfterInsert(s, client, id, runAt, priority, maxAttempts)
    case Claim(id, token, now) =>
      Queue(s.jobs[id := ClaimJob(s.jobs[id], token, now)],
            s.holders[token := Holding(id, Claimed)],
            s.issued + {token}, s.lookups)
    case Recover(now) => s.(jobs := RecoverAll(s.jobs, now))
    case Start(token, hasHandler) =>
      if !HoldsLease(s, token) then Drop(s, token)      // lost the lease before it started
      else if !hasHandler then Drop(Update(s, token, Held(s, token).(state := Failed)), token)
      else s.(holders := s.holders[token := s.holders[token].(phase := Executing)])
    case Heartbeat(token, until) =>
      if HoldsLease(s, token) then Update(s, token, Held(s, token).(leaseUntil := Some(until))) else s
    case Complete(token) =>
      if HoldsLease(s, token) then Drop(Update(s, token, Held(s, token).(state := Done, leaseToken := None)), token)
      else Drop(s, token)
    case Fail(token, retryAt) =>
      if HoldsLease(s, token) then Drop(Update(s, token, FailJob(Held(s, token), retryAt)), token)
      else Drop(s, token)
    case Crash(token) => Drop(s, token)
    case CancelQueued(ids) => s.(jobs := CancelAll(s.jobs, ids))
  }

  ghost predicate Valid(s: Queue, steps: seq<Step>)
    decreases |steps|
  {
    steps == [] || (Enabled(s, steps[0]) && Valid(Next(s, steps[0]), steps[1..]))
  }

  /** The state after a whole run. */
  ghost function Exec(s: Queue, steps: seq<Step>): Queue
    requires Valid(s, steps)
    decreases |steps|
  {
    if steps == [] then s else Exec(Next(s, steps[0]), steps[1..])
  }

  // ---- the invariant ---------------------------------------------------------------------------

  function Max0(n: int): nat { if n < 0 then 0 else n }

  predicate Started(j: Job) {
    j.state in {Running, Done, Failed}
  }

  predicate RowOk(j: Job, issued: set<Token>) {
    && (j.leaseToken.Some? ==> j.leaseToken.value in issued && j.state in {Running, Failed})
    && (j.state == Running ==> j.leaseToken.Some? && j.leaseUntil.Some?)
    && j.attempts == j.fencingToken
    && j.attempts == j.failureRequeues + j.expiries + (if Started(j) then 1 else 0)
    && j.failureRequeues <= Max0(j.maxAttempts - 1)
    && (Live(j) ==> j.dedupeKey == j.requestedKey)
  }

  /** A claim that still matches its row is a claim on a running job, and it is the only one. */
  predicate HolderOk(s: Queue, token: Token)
    requires token in s.holders
  {
    && token in s.issued
    && s.holders[token].job in s.jobs
    && (HoldsLease(s, token) ==> Held(s, token).state == Running)
    && forall id <- s.jobs :: s.jobs[id].leaseToken == Some(token) ==> s.holders[token].job == id
  }

  predicate KeysUnique(jobs: map<JobId, Job>) {
    forall i, j :: i in jobs && j in jobs && i != j && jobs[i].dedupeKey.Some? ==> jobs[i].dedupeKey != jobs[j].dedupeKey
  }

  predicate LookupOk(s: Queue, l: Lookup) {
    LookupSound(s, l) && (l.existing.Some? ==> Finished(s.jobs[l.existing.value]))
  }

  predicate Inv(s: Queue) {
    && (forall id <- s.jobs :: RowOk(s.jobs[id], s.issued))
    && (forall t <- s.holders :: HolderOk(s, t))
    && (forall c <- s.lookups :: LookupOk(s, s.lookups[c]))
    && KeysUnique(s.jobs)
  }

  // ---- every step keeps the invariant ----------------------------------------------------------

  lemma UpdateKeepsInv(s: Queue, token: Token, j: Job)
    requires Inv(s) && HoldsLease(s, token)
    requires RowOk(j, s.issued)
    requires j.dedupeKey == Held(s, token).dedupeKey
    requires j.leaseToken == None || (j.leaseToken == Some(token) && j.state == Running)
    requires Finished(Held(s, token)) ==> Finished(j)
    ensures Inv(Update(s, token, j))
  {
  }

  lemma DropKeepsInv(s: Queue, token: Token)
    requires Inv(s)
    ensures Inv(Drop(s, token))
  {
  }

  lemma RecoverKeepsInv(s: Queue, now: Time)
    requires Inv(s)
    ensures Inv(Next(s, Recover(now)))
  {
    var s' := Next(s, Recover(now));
    forall id <- s'.jobs ensures RowOk(s'.jobs[id], s'.issued) {
      assert RowOk(s.jobs[id], s.issued);
    }
    forall t <- s'.holders ensures HolderOk(s', t) {
      assert HolderOk(s, t);
    }
    forall c <- s'.lookups ensures LookupOk(s', s'.lookups[c]) {
      assert LookupOk(s, s.lookups[c]);
    }
  }

  lemma CancelKeepsInv(s: Queue, ids: set<JobId>)
    requires Inv(s)
    ensures Inv(Next(s, CancelQueued(ids)))
  {
    var s' := Next(s, CancelQueued(ids));
    forall id <- s'.jobs ensures RowOk(s'.jobs[id], s'.issued) {
      assert RowOk(s.jobs[id], s.issued);
    }
    forall t <- s'.holders ensures HolderOk(s', t) {
      assert HolderOk(s, t);
    }
    forall c <- s'.lookups ensures LookupOk(s', s'.lookups[c]) {
      assert LookupOk(s, s.lookups[c]);
    }
  }

  lemma ClaimKeepsInv(s: Queue, id: JobId, token: Token, now: Time)
    requires Inv(s) && Enabled(s, Claim(id, token, now))
    ensures Inv(Next(s, Claim(id, token, now)))
  {
    var s' := Next(s, Claim(id, token, now));
    assert RowOk(s.jobs[id], s.issued);
    forall i <- s'.jobs ensures RowOk(s'.jobs[i], s'.issued) {
      assert i in s.jobs ==> RowOk(s.jobs[i], s.issued);
    }
    forall t <- s'.holders ensures HolderOk(s', t) {
      if t != token { assert HolderOk(s, t); }
    }
    forall c <- s'.lookups ensures LookupOk(s', s'.lookups[c]) {
      assert LookupOk(s, s.lookups[c]);
    }
  }

  /** Renaming the finished holder and inserting keeps dedupe keys unique, or is rolled back. The holder that the lookup
      has seen finished is still finished. */
  lemma InsertKeepsKeysUnique(s: Queue, client: Client, id: JobId, runAt: Time, priority: int, maxAttempts: int, i: JobId, j: JobId)
    requires Inv(s) && Enabled(s, Insert(client, id, runAt, priority, maxAttempts))
    requires !RenameConflicts(s.jobs, s.lookups[client]) && !InsertConflicts(s.jobs, s.lookups[client])
    ensures var jobs := AfterInsert(s, client, id, runAt, priority, maxAttempts).jobs;
      i in jobs && j in jobs && i != j && jobs[i].dedupeKey.Some? ==> jobs[i].dedupeKey != jobs[j].dedupeKey
  {
    var l := s.lookups[client];
    var renamed := Renamed(s.jobs, l);
    assert i in s.jobs ==> !Holds(renamed, i, l.key) || l.key.None?;
    assert j in s.jobs ==> !Holds(renamed, j, l.key) || l.key.None?;
    if l.existing.Some? {
      assert i in s.jobs && i != l.existing.value ==> !Holds(s.jobs, i, Some(Freed(l.key, l.existing.value)));
      assert j in s.jobs && j != l.existing.value ==> !Holds(s.jobs, j, Some(Freed(l.key, l.existing.value)));
    }
  }

  lemma InsertKeepsInv(s: Queue, client: Client, id: JobId, runAt: Time, priority: int, maxAttempts: int)
    requires Inv(s) && Enabled(s, Insert(client, id, runAt, priority, maxAttempts))
    ensures Inv(AfterInsert(s, client, id, runAt, priority, maxAttempts))
  {
    var l := s.lookups[client];
    assert LookupOk(s, l);
    var s' := AfterInsert(s, client, id, runAt, priority, maxAttempts);
    forall i <- s'.jobs ensures RowOk(s'.jobs[i], s'.issued) {
      if i in s.jobs { assert RowOk(s.jobs[i], s.issued); }
    }
    forall t <- s'.holders ensures HolderOk(s', t) {
      assert HolderOk(s, t);
    }
    forall c <- s'.lookups ensures LookupOk(s', s'.lookups[c]) {
      assert LookupOk(s, s.lookups[c]);
    }
    if !RenameConflicts(s.jobs, l) && !InsertConflicts(s.jobs, l) {
      forall i, j | i in s'.jobs && j in s'.jobs && i != j && s'.jobs[i].dedupeKey.Some?
        ensures s'.jobs[i].dedupeKey != s'.jobs[j].dedupeKey
      {
        InsertKeepsKeysUnique(s, client, id, runAt, priority, maxAttempts, i, j);
      }
    }
  }

  lemma LookUpKeepsInv(s: Queue, client: Client, key: Option<string>)
    requires Inv(s)
    ensures Inv(AfterLookUp(s, client, key))
  {
    var s' := AfterLookUp(s, client, key);
    forall t <- s'.holders ensures HolderOk(s', t) {
      assert HolderOk(s, t);
    }
  }

  /** The no-handler branch leaves the lease token on the failed row; dropping the claim with it keeps it harmless. */
  lemma StartFailKeepsInv(s: Queue, token: Token)
    requires Inv(s) && HoldsLease(s, token)
    ensures Inv(Drop(Update(s, token, Held(s, token).(state := Failed)), token))
  {
    assert HolderOk(s, token);
    var s' := Drop(Update(s, token, Held(s, token).(state := Failed)), token);
    forall t <- s'.holders ensures HolderOk(s', t) {
      assert HolderOk(s, t);
    }
    forall c <- s'.lookups ensures LookupOk(s', s'.lookups[c]) {
      assert LookupOk(s, s.lookups[c]);
    }
  }

  lemma NextKeepsInv(s: Queue, step: Step)
    requires Inv(s) && Enabled(s, step)
    ensures Inv(Next(s, step))
  {
    match step
    case LookUp(client, key) => LookUpKeepsInv(s, client, key);
    case Insert(client, id, runAt, priority, maxAttempts) => InsertKeepsInv(s, client, id, runAt, priority, maxAttempts);
    case Claim(id, token, now) => ClaimKeepsInv(s, id, token, now);
    case Recover(now) => RecoverKeepsInv(s, now);
    case CancelQueued(ids) => CancelKeepsInv(s, ids);
    case Start(token, hasHandler) =>
      assert HolderOk(s, token);
      if HoldsLease(s, token) && !hasHandler {
        StartFailKeepsInv(s, token);
      }
    case Heartbeat(token, until) =>
      if HoldsLease(s, token) {
        assert HolderOk(s, token);
        UpdateKeepsInv(s, token, Held(s, token).(leaseUntil := Some(until)));
      }
    case Complete(token) =>
      if HoldsLease(s, token) {
        assert HolderOk(s, token);
        var j := Held(s, token).(state := Done, leaseToken := None);
        UpdateKeepsInv(s, token, j);
        DropKeepsInv(Update(s, token, j), token);
      }
    case Fail(token, retryAt) =>
      if HoldsLease(s, token) {
        assert HolderOk(s, token);
        var j := FailJob(Held(s, token), retryAt);
        UpdateKeepsInv(s, token, j);
        DropKeepsInv(Update(s, token, j), token);
      }
    case Crash(token) => DropKeepsInv(s, token);
  }

  /** Every state a run reaches satisfies the invariant. */
  lemma {:induction false} ExecKeepsInv(s: Queue, steps: seq<Step>)
    requires Inv(s) && Valid(s, steps)
    ensures Inv(Exec(s, steps))
    decreases |steps|
  {
    if steps != [] {
      NextKeepsInv(s, steps[0]);
      ExecKeepsInv(Next(s, steps[0]), steps[1..]);
    }
  }

  // ---- fencing ---------------------------------------------------------------------------------

  /** Rows are never deleted. */
  lemma NextKeepsRows(s: Queue, step: Step)
    requires Inv(s) && Enabled(s, step)
    ensures s.jobs.Keys <= Next(s, step).jobs.Keys
    ensures s.issued <= Next(s, step).issued
  {
    forall t <- s.holders ensures s.holders[t].job in s.jobs {
      assert HolderOk(s, t);
    }
  }

  /** The token of the worker that takes a step, if a worker takes it. */
  function Actor(step: Step): Option<Token> {
    match step
    case Start(t, _) => Some(t)
    case Heartbeat(t, _) => Some(t)
    case Complete(t) => Some(t)
    case Fail(t, _) => Some(t)
    case Crash(t) => Some(t)
    case _ => None
  }

  /** A worker touches no row but the one that carries its token. */
  lemma WorkerTouchesOnlyItsRow(s: Queue, step: Step, id: JobId)
    requires Inv(s) && Enabled(s, step) && id in s.jobs
    requires Actor(step).Some? && s.jobs[id].leaseToken != Actor(step)
    ensures Next(s, step).jobs.Keys == s.jobs.Keys
    ensures Next(s, step).jobs[id] == s.jobs[id]
  {
    assert HolderOk(s, Actor(step).value);
  }

  lemma LostTokenStaysLost1(s: Queue, step: Step, token: Token, id: JobId)
    requires Inv(s) && Enabled(s, step)
    requires token in s.issued && id in s.jobs && s.jobs[id].leaseToken != Some(token)
    ensures id in Next(s, step).jobs && Next(s, step).jobs[id].leaseToken != Some(token)
    ensures token in Next(s, step).issued
  {
    NextKeepsRows(s, step);
    if Actor(step).Some? {
      assert HolderOk(s, Actor(step).value);
    }
  }

  /** Once a row carries another token, or none, the old token never comes back to it: in any run, by any workers. */
  lemma {:induction false} LostTokenStaysLost(s: Queue, steps: seq<Step>, token: Token, id: JobId)
    requires Inv(s) && Valid(s, steps)
    requires token in s.issued && id in s.jobs && s.jobs[id].leaseToken != Some(token)
    ensures id in Exec(s, steps).jobs && Exec(s, steps).jobs[id].leaseToken != Some(token)
    ensures token in Exec(s, steps).issued
    decreases |steps|
  {
    if steps != [] {
      NextKeepsInv(s, steps[0]);
      LostTokenStaysLost1(s, steps[0], token, id);
      LostTokenStaysLost(Next(s, steps[0]), steps[1..], token, id);
    }
  }

  /** Fencing: a worker that lost its lease changes the row of its job at no later point of any run. */
  lemma StaleWorkerIsPowerless(s: Queue, steps: seq<Step>, step: Step, id: JobId)
    requires Inv(s) && Valid(s, steps) && Enabled(Exec(s, steps), step)
    requires Actor(step).Some? && Actor(step).value in s.issued
    requires id in s.jobs && s.jobs[id].leaseToken != Actor(step)
    ensures id in Exec(s, steps).jobs && id in Next(Exec(s, steps), step).jobs
    ensures Next(Exec(s, steps), step).jobs[id] == Exec(s, steps).jobs[id]
  {
    ExecKeepsInv(s, steps);
    LostTokenStaysLost(s, steps, Actor(step).value, id);
    WorkerTouchesOnlyItsRow(Exec(s, steps), step, id);
  }

  /** At most one claim in flight matches a row. */
  lemma OneHolderPerRow(s: Queue, t1: Token, t2: Token)
    requires HoldsLease(s, t1) && HoldsLease(s, t2)
    requires s.holders[t1].job == s.holders[t2].job
    ensures t1 == t2
  {
  }

  /** A job becomes done exactly by the completion of the worker whose token it carries while it runs. */
  lemma DoneOnlyByHolder(s: Queue, step: Step, id: JobId)
    requires Inv(s) && Enabled(s, step) && id in s.jobs && s.jobs[id].state != Done
    ensures id in Next(s, step).jobs
    ensures Next(s, step).jobs[id].state == Done <==>
      step.Complete? && s.holders[step.token].job == id &&
      s.jobs[id].leaseToken == Some(step.token) && s.jobs[id].state == Running
  {
    NextKeepsRows(s, step);
    if Actor(step).Some? {
      assert HolderOk(s, Actor(step).value);
    }
  }

  lemma FinishedStays1(s: Queue, step: Step, id: JobId)
    requires Inv(s) && Enabled(s, step) && id in s.jobs && Finished(s.jobs[id])
    ensures id in Next(s, step).jobs
    ensures Next(s, step).jobs[id] == s.jobs[id].(dedupeKey := Next(s, step).jobs[id].dedupeKey)
  {
    NextKeepsRows(s, step);
    if Actor(step).Some? {
      assert HolderOk(s, Actor(step).value);
    }
  }

  /** Done, failed and cancelled are never left, and nothing but the dedupe key of such a row ever changes. */
  lemma {:induction false} FinishedStays(s: Queue, steps: seq<Step>, id: JobId)
    requires Inv(s) && Valid(s, steps) && id in s.jobs && Finished(s.jobs[id])
    ensures id in Exec(s, steps).jobs
    ensures Exec(s, steps).jobs[id] == s.jobs[id].(dedupeKey := Exec(s, steps).jobs[id].dedupeKey)
    decreases |steps|
  {
    if steps != [] {
      NextKeepsInv(s, steps[0]);
      FinishedStays1(s, steps[0], id);
      FinishedStays(Next(s, steps[0]), steps[1..], id);
    }
  }

  predicate Claims(step: Step, id: JobId) {
    step.Claim? && step.id == id
  }

  lemma FencingStep(s: Queue, step: Step, id: JobId)
    requires Inv(s) && Enabled(s, step) && id in s.jobs
    ensures id in Next(s, step).jobs
    ensures Next(s, step).jobs[id].fencingToken == s.jobs[id].fencingToken + (if Claims(step, id) then 1 else 0)
    ensures Next(s, step).jobs[id].maxAttempts == s.jobs[id].maxAttempts
    ensures step.Claim? ==> step.token in Next(s, step).issued
  {
    NextKeepsRows(s, step);
    if Actor(step).Some? {
      assert HolderOk(s, Actor(step).value);
    }
  }

  function ClaimCount(steps: seq<Step>, id: JobId): nat {
    if steps == [] then 0 else (if Claims(steps[0], id) then 1 else 0) + ClaimCount(steps[1..], id)
  }

  /** The fencing number counts the claims of the job in the run, one by one. */
  lemma {:induction false} FencingCountsClaims(s: Queue, steps: seq<Step>, id: JobId)
    requires Inv(s) && Valid(s, steps) && id in s.jobs
    ensures id in Exec(s, steps).jobs
    ensures Exec(s, steps).jobs[id].fencingToken == s.jobs[id].fencingToken + ClaimCount(steps, id)
    ensures Exec(s, steps).jobs[id].maxAttempts == s.jobs[id].maxAttempts
    ensures s.issued <= Exec(s, steps).issued
    decreases |steps|
  {
    if steps != [] {
      NextKeepsInv(s, steps[0]);
      NextKeepsRows(s, steps[0]);
      FencingStep(s, steps[0], id);
      FencingCountsClaims(Next(s, steps[0]), steps[1..], id);
    }
  }

  /** Two claims of one job in a run: the later one gets a larger fencing number and another token. */
  lemma LaterClaimFencesEarlier(s: Queue, first: Step, between: seq<Step>, second: Step, id: JobId)
    requires Inv(s) && Enabled(s, first) && Claims(first, id)
    requires Valid(Next(s, first), between)
    requires Enabled(Exec(Next(s, first), between), second) && Claims(second, id)
    ensures var s1 := Next(s, first);
      var s2 := Next(Exec(s1, between), second);
      id in s2.jobs && id in s1.jobs &&
      s1.jobs[id].fencingToken < s2.jobs[id].fencingToken && first.token != second.token
  {
    NextKeepsInv(s, first);
    ExecKeepsInv(Next(s, first), between);
    FencingCountsClaims(Next(s, first), between, id);
    FencingStep(Exec(Next(s, first), between), second, id);
  }

  // ---- leases over runs ------------------------------------------------------------------------

  /** Recovery changes exactly the running jobs whose lease ended before now; they are queued again without token and lease. */
  lemma RecoverTakesExactlyTheExpired(s: Queue, now: Time, id: JobId)
    requires id in s.jobs
    ensures id in Next(s, Recover(now)).jobs
    ensures var was, j := s.jobs[id], Next(s, Recover(now)).jobs[id];
      && (j != was <==> was.state.Running? && was.leaseUntil.Some? && was.leaseUntil.value < now)
      && (j != was ==> j.state.Queued? && j.leaseToken.None? && j.leaseUntil.None? && j.runAt == was.runAt &&
                       j.attempts == was.attempts && j.fencingToken == was.fencingToken)
  {
  }

  /** Cancelling stops exactly those of the named jobs that are still queued. */
  lemma CancelTakesExactlyTheQueued(s: Queue, ids: set<JobId>, id: JobId)
    requires id in s.jobs
    ensures id in Next(s, CancelQueued(ids)).jobs
    ensures var was, j := s.jobs[id], Next(s, CancelQueued(ids)).jobs[id];
      && (j != was <==> was.state.Queued? && id in ids) && (j != was ==> j == was.(state := Cancelled))
  {
  }

  /** When the lease of a claim ends that ended at `lease` before the step. */
  function LeaseAfter(lease: Time, step: Step, token: Token): Time {
    if step.Heartbeat? && step.token == token then step.until else lease
  }

  /** The worker neither ends its claim in these steps, nor lets a recovery come later than the lease it has last set. */
  predicate KeepsAlive(steps: seq<Step>, token: Token, lease: Time)
    decreases |steps|
  {
    steps == [] || (
      && (steps[0].Recover? ==> steps[0].now <= lease)
      && (Actor(steps[0]) == Some(token) ==> steps[0].Heartbeat? || (steps[0].Start? && steps[0].hasHandler))
      && KeepsAlive(steps[1..], token, LeaseAfter(lease, steps[0], token)))
  }

  function LeaseAtEnd(steps: seq<Step>, token: Token, lease: Time): Time
    decreases |steps|
  {
    if steps == [] then lease else LeaseAtEnd(steps[1..], token, LeaseAfter(lease, steps[0], token))
  }

  predicate RunsUnder(s: Queue, id: JobId, token: Token, lease: Time) {
    && id in s.jobs && s.jobs[id].state.Running? && s.jobs[id].leaseToken == Some(token) && s.jobs[id].leaseUntil == Some(lease)
    && token in s.holders && s.holders[token].job == id
  }

  lemma LeaseProtects1(s: Queue, step: Step, id: JobId, token: Token, lease: Time)
    requires Inv(s) && Enabled(s, step) && RunsUnder(s, id, token, lease) && KeepsAlive([step], token, lease)
    ensures RunsUnder(Next(s, step), id, token, LeaseAfter(lease, step, token))
    ensures Next(s, step).jobs[id] == s.jobs[id].(leaseUntil := Some(LeaseAfter(lease, step, token)))
  {
    NextKeepsRows(s, step);
    if Actor(step).Some? {
      assert HolderOk(s, Actor(step).value);
    }
  }

  /** A worker still holds its job, with nothing but the end of the lease changed, after every continuation in which no
      recovery comes later than the lease that its last heartbeat set. */
  lemma {:induction false} LeaseProtects(s: Queue, steps: seq<Step>, id: JobId, token: Token, lease: Time)
    requires Inv(s) && Valid(s, steps) && RunsUnder(s, id, token, lease) && KeepsAlive(steps, token, lease)
    ensures RunsUnder(Exec(s, steps), id, token, LeaseAtEnd(steps, token, lease))
    ensures Exec(s, steps).jobs[id] == s.jobs[id].(leaseUntil := Some(LeaseAtEnd(steps, token, lease)))
    decreases |steps|
  {
    if steps != [] {
      assert KeepsAlive([steps[0]], token, lease);
      LeaseProtects1(s, steps[0], id, token, lease);
      NextKeepsInv(s, steps[0]);
      LeaseProtects(Next(s, steps[0]), steps[1..], id, token, LeaseAfter(lease, steps[0], token));
    }
  }

  /** In particular from its claim on, whose lease lasts 120 seconds. */
  lemma ClaimIsKept(s: Queue, id: JobId, token: Token, now: Time, steps: seq<Step>)
    requires Inv(s) && Enabled(s, Claim(id, token, now)) && Valid(Next(s, Claim(id, token, now)), steps)
    requires KeepsAlive(steps, token, now + 120)
    ensures var end := Exec(Next(s, Claim(id, token, now)), steps);
      && RunsUnder(end, id, token, LeaseAtEnd(steps, token, now + 120))
      && end.jobs[id].attempts == s.jobs[id].attempts + 1 && end.jobs[id].fencingToken == s.jobs[id].fencingToken + 1
  {
    NextKeepsInv(s, Claim(id, token, now));
    LeaseProtects(Next(s, Claim(id, token, now)), steps, id, token, now + 120);
  }

  // ---- conservation ----------------------------------------------------------------------------

  /** From the insertion of a job on: every claim is accounted for by a requeue or by the current state, and a
      job is claimed at most max_attempts plus its lease expiries times. */
  lemma ClaimsAreConserved(s: Queue, steps: seq<Step>, id: JobId)
    requires Inv(s) && Valid(s, steps) && id in s.jobs && s.jobs[id].fencingToken == 0
    ensures id in Exec(s, steps).jobs
    ensures var j := Exec(s, steps).jobs[id];
      && j.attempts == j.fencingToken == ClaimCount(steps, id)
      && ClaimCount(steps, id) == j.failureRequeues + j.expiries + (if Started(j) then 1 else 0)
      && (j.maxAttempts >= 1 ==> ClaimCount(steps, id) <= j.maxAttempts + j.expiries)
      && (j.maxAttempts < 1 ==> ClaimCount(steps, id) <= 1 + j.expiries)
  {
    FencingCountsClaims(s, steps, id);
    ExecKeepsInv(s, steps);
    assert RowOk(Exec(s, steps).jobs[id], Exec(s, steps).issued);
  }

  /** Recovery does not look at max_attempts: a job that may be tried once is claimed twice when its lease expires. */
  lemma AttemptsCanExceedMax() returns (s: Queue, steps: seq<Step>)
    ensures Inv(s) && Valid(s, steps) && "j" in s.jobs
    ensures s.jobs["j"].maxAttempts == 1
    ensures "j" in Exec(s, steps).jobs && Exec(s, steps).jobs["j"].attempts == 2
  {
    var j := NewJob(None, 0, 0, 1);
    s := Queue(map["j" := j], map[], {}, map[]);
    steps := [Claim("j", 1, 0), Recover(1000), Claim("j", 2, 1000)];
    var s1 := Next(s, steps[0]);
    var s2 := Next(s1, steps[1]);
    var s3 := Next(s2, steps[2]);
    assert Exec(s3, steps[1..][1..][1..]) == s3;
    assert Exec(s2, steps[1..][1..]) == s3;
    assert Exec(s1, steps[1..]) == s3;
  }

  /** A run that begins with a step. */
  lemma ExecCons(s: Queue, step: Step, rest: seq<Step>)
    requires Enabled(s, step) && Valid(Next(s, step), rest)
    ensures Valid(s, [step] + rest) && Exec(s, [step] + rest) == Exec(Next(s, step), rest)
  {
    assert ([step] + rest)[1..] == rest;
  }

  lemma SecondWorkerCompletes(s: Queue, id: JobId, t: Token, now: Time) returns (steps: seq<Step>)
    requires Enabled(s, Claim(id, t, now)) && t !in s.holders
    ensures Valid(s, steps) && id in Exec(s, steps).jobs && Exec(s, steps).jobs[id].state.Done?
    ensures Exec(s, steps).holders == s.holders
  {
    var s1 := Next(s, Claim(id, t, now));
    var s2 := Next(s1, Start(t, true));
    var s3 := Next(s2, Complete(t));
    assert s3.holders == s.holders;
    ExecCons(s2, Complete(t), []);
    ExecCons(s1, Start(t, true), [Complete(t)] + []);
    ExecCons(s, Claim(id, t, now), [Start(t, true)] + ([Complete(t)] + []));
    steps := [Claim(id, t, now)] + ([Start(t, true)] + ([Complete(t)] + []));
  }

  /** A job whose lease expires while its worker is still at it can be recovered, claimed again and done by another worker:
      the first one goes on without a job. */
  lemma JobCanEndWhileItsWorkerRuns(s: Queue, first: Token, second: Token, now: Time) returns (steps: seq<Step>)
    requires Inv(s) && HoldsLease(s, first) && s.holders[first].phase == Executing && second !in s.issued
    requires LeaseExpired(Held(s, first), now) && Held(s, first).runAt <= now
    ensures Valid(s, steps) && s.holders[first].job in Exec(s, steps).jobs
    ensures Exec(s, steps).jobs[s.holders[first].job].state.Done? && Exec(s, steps).holders == s.holders
  {
    var s1 := Next(s, Recover(now));
    forall t <- s.holders ensures t in s.issued { assert HolderOk(s, t); }
    var rest := SecondWorkerCompletes(s1, s.holders[first].job, second, now);
    ExecCons(s, Recover(now), rest);
    steps := [Recover(now)] + rest;
  }

  // ---- deduplication ---------------------------------------------------------------------------

  /** Over every run, two queued or running jobs were never enqueued under the same key. */
  lemma OneLiveJobPerKey(steps: seq<Step>, i: JobId, j: JobId)
    requires Valid(EMPTY, steps)
    requires var jobs := Exec(EMPTY, steps).jobs;
      i in jobs && j in jobs && Live(jobs[i]) && Live(jobs[j]) && jobs[i].requestedKey.Some? &&
      jobs[i].requestedKey == jobs[j].requestedKey
    ensures i == j
  {
    ExecKeepsInv(EMPTY, steps);
    var s := Exec(EMPTY, steps);
    assert RowOk(s.jobs[i], s.issued) && RowOk(s.jobs[j], s.issued);
  }

  /** An enqueue that nothing interrupts inserts its job unless a live job was enqueued under the same key, or
      another row already carries the name the finished holder would be renamed to. */
  lemma EnqueueInsertsUnlessLive(s: Queue, client: Client, key: string, id: JobId, runAt: Time, priority: int, maxAttempts: int)
    requires Inv(s) && client !in s.lookups && key != "" && id !in s.jobs
    ensures var s1 := AfterLookUp(s, client, Some(key));
      if client in s1.lookups then
        && Enabled(s1, Insert(client, id, runAt, priority, maxAttempts))
        && !(exists i :: i in s.jobs && Live(s.jobs[i]) && s.jobs[i].requestedKey == Some(key))
        && (id in AfterInsert(s1, client, id, runAt, priority, maxAttempts).jobs <==>
            !exists h, o :: h in s.jobs && o in s.jobs && h != o &&
              s.jobs[h].dedupeKey == Some(key) && s.jobs[o].dedupeKey == Some(Freed(Some(key), h)))
      else
        exists i :: i in s.jobs && Live(s.jobs[i]) && s.jobs[i].requestedKey == Some(key)
  {
    var k := Some(key);
    var s1 := AfterLookUp(s, client, k);
    var e := HolderOf(s.jobs, k);
    forall i | i in s.jobs && Live(s.jobs[i]) && s.jobs[i].requestedKey == k ensures e == Some(i) {
      assert RowOk(s.jobs[i], s.issued);
      assert Holds(s.jobs, i, k);
    }
    if client !in s1.lookups {
      assert RowOk(s.jobs[e.value], s.issued);
    } else {
      var l := s1.lookups[client];
      if e.Some? {
        assert |Freed(k, e.value)| > |key|;
        assert forall h :: h in s.jobs && s.jobs[h].dedupeKey == k ==> h == e.value;
        assert !InsertConflicts(s.jobs, l);
      } else {
        assert forall h :: h in s.jobs ==> !Holds(s.jobs, h, k);
      }
    }
  }
}
