/**
 The queue as the code writes it: rows updated in place, transaction by transaction. Every method is
 proved to take exactly the steps of JobProtocol, so everything proved there about runs holds of it.
 */
module JobQueue {
  import opened Wrappers
  import opened JobProtocol

  datatype HandlerOutcome = Returned | Raised(retryAt: Time)

  lemma {:induction false} ExecSnoc(s: Queue, steps: seq<Step>, step: Step)
    requires Valid(s, steps) && Enabled(Exec(s, steps), step)
    ensures Valid(s, steps + [step]) && Exec(s, steps + [step]) == Next(Exec(s, steps), step)
    decreases |steps|
  {
    if steps == [] {
      var s' := Next(s, step);
      assert (steps + [step])[1..] == [];
      assert Exec(s', []) == s';
    } else {
      ExecSnoc(Next(s, steps[0]), steps[1..], step);
      assert (steps + [step])[1..] == steps[1..] + [step];
    }
  }

  function ClaimSteps(rows: seq<JobId>, tokens: seq<Token>, now: Time): seq<Step>
    requires |rows| == |tokens|
  {
    seq(|rows|, i requires 0 <= i < |rows| => Claim(rows[i], tokens[i], now))
  }

  predicate Due(j: Job, now: Time) {
    j.state == Queued && j.runAt <= now
  }

  /** ORDER BY priority DESC, run_at. */
  predicate Before(a: Job, b: Job) {
    a.priority > b.priority || (a.priority == b.priority && a.runAt < b.runAt)
  }

  predicate Distinct<T(==)>(xs: seq<T>) {
    forall i, j :: 0 <= i < j < |xs| ==> xs[i] != xs[j]
  }

  /** What SELECT ... FOR UPDATE SKIP LOCKED may return: the first due rows, in order, that no other transaction has locked. */
  predicate IsDueSelection(jobs: map<JobId, Job>, locked: set<JobId>, now: Time, limit: nat, rows: seq<JobId>) {
    && Distinct(rows)
    && |rows| <= limit
    && (forall id <- rows :: id in jobs && id !in locked && Due(jobs[id], now))
    && (forall i, j :: 0 <= i < j < |rows| ==> rows[i] in jobs && rows[j] in jobs && !Before(jobs[rows[j]], jobs[rows[i]]))
    && (forall id <- jobs :: Due(jobs[id], now) && id !in locked && id !in rows ==>
          |rows| == limit && forall r <- rows :: r in jobs && !Before(jobs[id], jobs[r]))
  }

  /** A due job is left behind only by a full batch, every job of which is more urgent or as urgent: it has a higher priority,
      or the same one and was due no later. */
  lemma NothingMoreUrgentIsLeft(jobs: map<JobId, Job>, locked: set<JobId>, now: Time, limit: nat, rows: seq<JobId>, id: JobId)
    requires IsDueSelection(jobs, locked, now, limit, rows)
    requires id in jobs && id !in locked && jobs[id].state.Queued? && jobs[id].runAt <= now
    ensures id in rows || (|rows| == limit && forall r <- rows :: r in jobs && NoLessUrgent(jobs[r], jobs[id]))
    ensures forall i, j :: 0 <= i < j < |rows| ==> rows[i] in jobs && rows[j] in jobs && NoLessUrgent(jobs[rows[i]], jobs[rows[j]])
  {
  }

  predicate NoLessUrgent(a: Job, b: Job) {
    a.priority > b.priority || (a.priority == b.priority && a.runAt <= b.runAt)
  }

  /** The row is running under the token for the next 120 seconds, one attempt and one fencing number later. */
  predicate IsClaimed(was: Job, j: Job, token: Token, now: Time) {
    j == was.(state := JobState.Running, leaseToken := Some(token), leaseUntil := Some(now + 120),
              fencingToken := was.fencingToken + 1, attempts := was.attempts + 1)
  }

  /** The attempt has failed: the row is failed when its attempts are used up, and queued again otherwise. */
  predicate IsRetried(was: Job, j: Job, retryAt: Time) {
    j == if was.attempts >= was.maxAttempts then was.(state := JobState.Failed, leaseToken := None)
         else was.(state := JobState.Queued, runAt := retryAt, leaseToken := None, failureRequeues := was.failureRequeues + 1)
  }

  /** The job that the lookup has found finished gives its key up. */
  predicate GaveUpKey(was: Job, j: Job, id: JobId, key: string) {
    j == was.(dedupeKey := Some(key + "#" + id[..if |id| < 8 then |id| else 8]))
  }

  /** A new row is queued, and nothing has happened to it. */
  predicate IsNew(j: Job, key: Option<string>, runAt: Time, priority: int, maxAttempts: int) {
    j == Job(JobState.Queued, runAt, priority, None, None, 0, 0, maxAttempts, key, key, 0, 0)
  }

  /** The new row is in the table, the job that the lookup has found has given its key up, and the rest is as it was. */
  predicate Inserted(was: map<JobId, Job>, jobs: map<JobId, Job>, l: Lookup, id: JobId, runAt: Time, priority: int, maxAttempts: int) {
    && jobs.Keys == was.Keys + {id} && IsNew(jobs[id], l.key, runAt, priority, maxAttempts)
    && (forall i <- was :: i in jobs && (l.existing != Some(i) ==> jobs[i] == was[i]))
    && (l.existing.Some? ==>
          l.key.Some? && l.existing.value in was && l.existing.value in jobs &&
          GaveUpKey(was[l.existing.value], jobs[l.existing.value], l.existing.value, l.key.value))
  }

  lemma InsertedRows(was: map<JobId, Job>, l: Lookup, id: JobId, runAt: Time, priority: int, maxAttempts: int)
    requires id !in was && (l.existing.Some? ==> l.existing.value in was && l.key.Some?)
    ensures Inserted(was, Renamed(was, l)[id := NewJob(l.key, runAt, priority, maxAttempts)], l, id, runAt, priority, maxAttempts)
  {
  }

  /** The selected rows are claimed under the given tokens, all other rows are as they were. */
  ghost predicate AllClaimed(was: Queue, s: Queue, rows: seq<JobId>, tokens: seq<Token>, now: Time)
    requires |rows| == |tokens|
  {
    && s.jobs.Keys == was.jobs.Keys
    && (forall t :: t in s.issued <==> t in was.issued || t in tokens)
    && (forall id <- s.jobs :: id !in rows ==> s.jobs[id] == was.jobs[id])
    && (forall i :: 0 <= i < |rows| ==>
          rows[i] in was.jobs && IsClaimed(was.jobs[rows[i]], s.jobs[rows[i]], tokens[i], now) &&
          tokens[i] in s.holders && s.holders[tokens[i]] == Holding(rows[i], Claimed))
  }

  lemma AllClaimedSnoc(was: Queue, s: Queue, rows: seq<JobId>, tokens: seq<Token>, id: JobId, token: Token, now: Time)
    requires |rows| == |tokens| && AllClaimed(was, s, rows, tokens, now)
    requires id !in rows && token !in tokens && token !in was.issued
    requires id in was.jobs && Due(was.jobs[id], now)
    ensures Enabled(s, Claim(id, token, now))
    ensures AllClaimed(was, Next(s, Claim(id, token, now)), rows + [id], tokens + [token], now)
  {
    assert id in s.jobs && s.jobs[id] == was.jobs[id];
  }

  /** The next row of the selection is untouched by the claims before it. */
  lemma NextRowIsNew(jobs: map<JobId, Job>, locked: set<JobId>, now: Time, limit: nat, rows: seq<JobId>, tokens: seq<Token>, i: nat)
    requires IsDueSelection(jobs, locked, now, limit, rows) && Distinct(tokens) && |tokens| == |rows|
    requires i < |rows|
    ensures rows[i] !in rows[..i] && tokens[i] !in tokens[..i]
    ensures rows[i] in jobs && Due(jobs[rows[i]], now)
  {
  }

  lemma ClaimStepsSnoc(rows: seq<JobId>, tokens: seq<Token>, now: Time, i: nat)
    requires |rows| == |tokens| && i < |rows|
    ensures rows[..i + 1] == rows[..i] + [rows[i]] && tokens[..i + 1] == tokens[..i] + [tokens[i]]
    ensures ClaimSteps(rows[..i + 1], tokens[..i + 1], now)
         == ClaimSteps(rows[..i], tokens[..i], now) + [Claim(rows[i], tokens[i], now)]
  {
  }

  /** The claim loop after its first i rows. */
  ghost predicate ClaimedSoFar(was: Queue, s: Queue, rows: seq<JobId>, tokens: seq<Token>, now: Time, i: nat)
    requires i <= |rows| == |tokens|
  {
    && AllClaimed(was, s, rows[..i], tokens[..i], now)
    && Valid(was, ClaimSteps(rows[..i], tokens[..i], now))
    && s == Exec(was, ClaimSteps(rows[..i], tokens[..i], now))
  }

  lemma NothingClaimed(was: Queue, rows: seq<JobId>, tokens: seq<Token>, now: Time)
    requires |rows| == |tokens|
    ensures ClaimedSoFar(was, was, rows, tokens, now, 0)
  {
    assert rows[..0] == [] && tokens[..0] == [] && ClaimSteps([], [], now) == [];
  }

  lemma ClaimNext(was: Queue, s: Queue, rows: seq<JobId>, tokens: seq<Token>, now: Time, locked: set<JobId>, limit: nat, i: nat)
    requires |rows| == |tokens| && i < |rows| && Distinct(tokens) && forall t <- tokens :: t !in was.issued
    requires IsDueSelection(was.jobs, locked, now, limit, rows) && ClaimedSoFar(was, s, rows, tokens, now, i)
    ensures Enabled(s, Claim(rows[i], tokens[i], now))
    ensures ClaimedSoFar(was, Next(s, Claim(rows[i], tokens[i], now)), rows, tokens, now, i + 1)
  {
    NextRowIsNew(was.jobs, locked, now, limit, rows, tokens, i);
    AllClaimedSnoc(was, s, rows[..i], tokens[..i], rows[i], tokens[i], now);
    ExecSnoc(was, ClaimSteps(rows[..i], tokens[..i], now), Claim(rows[i], tokens[i], now));
    ClaimStepsSnoc(rows, tokens, now, i);
  }

  /** One claimed job after its run_one: what became of it, given what its handler did. */
  predicate RanOnce(was: map<JobId, Job>, now: map<JobId, Job>, id: JobId, hasHandler: bool, outcome: HandlerOutcome) {
    id in was && id in now &&
    now[id].attempts == was[id].attempts + 1 &&
    now[id].state == if !hasHandler then JobState.Failed
                     else if outcome.Returned? then JobState.Done
                     else if was[id].attempts + 1 >= was[id].maxAttempts then JobState.Failed
                     else JobState.Queued
  }

  /** What run_one leaves of a job whose lease it holds. */
  function Settled(j: Job, hasHandler: bool, outcome: HandlerOutcome): Job {
    if !hasHandler then j.(state := JobState.Failed)
    else if outcome.Returned? then j.(state := JobState.Done, leaseToken := None)
    else FailJob(j, outcome.retryAt)
  }

  /** run_due after the first k claims were run. */
  ghost predicate Midway(was: map<JobId, Job>, claimed: Queue, s: Queue, rows: seq<JobId>, tokens: seq<Token>,
                         hasHandler: seq<bool>, outcomes: seq<HandlerOutcome>, k: nat)
    requires |rows| == |tokens| == |hasHandler| == |outcomes| && k <= |rows|
  {
    && s.jobs.Keys == claimed.jobs.Keys
    && (forall id <- s.jobs :: id !in rows ==> s.jobs[id] == claimed.jobs[id])
    && (forall i :: k <= i < |rows| ==>
          rows[i] in s.jobs && s.jobs[rows[i]] == claimed.jobs[rows[i]] && s.jobs[rows[i]].leaseToken == Some(tokens[i]) &&
          tokens[i] in s.holders && s.holders[tokens[i]] == Holding(rows[i], Claimed))
    && (forall i :: 0 <= i < k ==> RanOnce(was, s.jobs, rows[i], hasHandler[i], outcomes[i]))
  }

  ghost predicate ClaimedFrom(was: map<JobId, Job>, jobs: map<JobId, Job>, rows: seq<JobId>) {
    forall id <- rows :: id in was && id in jobs &&
      jobs[id].attempts == was[id].attempts + 1 && jobs[id].maxAttempts == was[id].maxAttempts
  }

  lemma MidwayStart(was: Queue, s: Queue, rows: seq<JobId>, tokens: seq<Token>,
                    hasHandler: seq<bool>, outcomes: seq<HandlerOutcome>, now: Time)
    requires |rows| == |tokens| == |hasHandler| == |outcomes|
    requires AllClaimed(was, s, rows, tokens, now)
    ensures ClaimedFrom(was.jobs, s.jobs, rows)
    ensures Midway(was.jobs, s, s, rows, tokens, hasHandler, outcomes, 0)
  {
  }

  lemma MidwayStep(was: map<JobId, Job>, claimed: Queue, s: Queue, s': Queue, rows: seq<JobId>, tokens: seq<Token>,
                   hasHandler: seq<bool>, outcomes: seq<HandlerOutcome>, k: nat)
    requires |rows| == |tokens| == |hasHandler| == |outcomes| && k < |rows|
    requires Distinct(rows) && Distinct(tokens)
    requires rows[k] in was && rows[k] in claimed.jobs && claimed.jobs[rows[k]].attempts == was[rows[k]].attempts + 1
    requires claimed.jobs[rows[k]].maxAttempts == was[rows[k]].maxAttempts
    requires Midway(was, claimed, s, rows, tokens, hasHandler, outcomes, k)
    requires s'.jobs.Keys == s.jobs.Keys && s'.holders == s.holders - {tokens[k]}
    requires forall id <- s'.jobs :: id != rows[k] ==> s'.jobs[id] == s.jobs[id]
    requires s'.jobs[rows[k]] == Settled(s.jobs[rows[k]], hasHandler[k], outcomes[k])
    ensures Midway(was, claimed, s', rows, tokens, hasHandler, outcomes, k + 1)
  {
    forall i | 0 <= i < k ensures RanOnce(was, s'.jobs, rows[i], hasHandler[i], outcomes[i]) {
      assert rows[i] != rows[k] && RanOnce(was, s.jobs, rows[i], hasHandler[i], outcomes[i]);
    }
  }

  class JobTable {
    var jobs: map<JobId, Job>
    var holders: map<Token, Holding>
    var issued: set<Token>
    var lookups: map<Client, Lookup>

    ghost function State(): Queue
      reads this
    {
      Queue(jobs, holders, issued, lookups)
    }

    constructor ()
      ensures State() == EMPTY && Inv(State())
    {
      jobs, holders, issued, lookups := map[], map[], {}, map[];
    }

    /** First half of enqueue: `found` is what the SELECT by dedupe key returned. */
    method LookUpKey(client: Client, key: Option<string>, found: Option<JobId>) returns (refused: bool)
      requires client !in lookups && Inv(State())
      requires found == HolderOf(jobs, key)
      modifies this`lookups
      ensures State() == Next(old(State()), LookUp(client, key)) && Inv(State())
      ensures !refused ==> lookups == old(lookups)[client := Lookup(key, if key.Some? && key.value != "" then found else None)]
      ensures refused <==> Deduped(key) && exists i :: i in jobs && Live(jobs[i]) && jobs[i].requestedKey == key
    {
      ghost var was := State();
      refused := false;
      if !Deduped(key) {
        lookups := lookups[client := Lookup(key, None)];
      } else if found.Some? && Live(jobs[found.value]) {
        refused := true;
        assert RowOk(jobs[found.value], issued);
      } else {
        lookups := lookups[client := Lookup(key, found)];
        forall i | i in jobs && Live(jobs[i]) ensures jobs[i].requestedKey != key {
          assert RowOk(jobs[i], issued);
          assert found.None? ==> !Holds(jobs, i, key);
        }
      }
      NextKeepsInv(was, LookUp(client, key));
    }

    /** Second half of enqueue: rename the finished holder, insert, roll back on a unique violation. */
    method InsertJob(client: Client, id: JobId, runAt: Time, priority: int, maxAttempts: int) returns (inserted: bool)
      requires client in lookups && id !in jobs && Inv(State())
      modifies this`jobs, this`lookups
      ensures Enabled(old(State()), Insert(client, id, runAt, priority, maxAttempts))
      ensures State() == Next(old(State()), Insert(client, id, runAt, priority, maxAttempts)) && Inv(State())
      ensures inserted <==> id in jobs
      ensures !inserted ==> jobs == old(jobs)
      ensures inserted ==> Inserted(old(jobs), jobs, old(lookups)[client], id, runAt, priority, maxAttempts)
    {
      ghost var was := State();
      var l := lookups[client];
      assert LookupOk(was, l);
      var saved := jobs;
      lookups := lookups - {client};
      inserted := !RenameConflicts(jobs, l);
      if inserted {
        jobs := Renamed(jobs, l);
        if l.key.Some? && exists other <- jobs :: Holds(jobs, other, l.key) {
          jobs := saved;
          inserted := false;
        } else {
          jobs := jobs[id := NewJob(l.key, runAt, priority, maxAttempts)];
          InsertedRows(saved, l, id, runAt, priority, maxAttempts);
        }
      }
      NextKeepsInv(was, Insert(client, id, runAt, priority, maxAttempts));
    }

    /** One row of the claim loop. */
    method ClaimRow(id: JobId, token: Token, now: Time)
      requires Inv(State()) && Enabled(State(), Claim(id, token, now))
      modifies this`jobs, this`holders, this`issued
      ensures State() == Next(old(State()), Claim(id, token, now)) && Inv(State())
      ensures IsClaimed(old(jobs)[id], jobs[id], token, now) && jobs == old(jobs)[id := jobs[id]]
    {
      ClaimKeepsInv(State(), id, token, now);
      var j := jobs[id];
      j := j.(state := JobState.Running, leaseToken := Some(token), leaseUntil := Some(now + JOB_LEASE_SECONDS));
      j := j.(fencingToken := j.fencingToken + 1, attempts := j.attempts + 1);
      jobs := jobs[id := j];
      holders := holders[token := Holding(id, Claimed)];
      issued := issued + {token};
    }

    /** claim: take the selected rows one after the other, each under a fresh token. */
    method ClaimDue(now: Time, ghost locked: set<JobId>, limit: nat, rows: seq<JobId>, tokens: seq<Token>)
      requires Inv(State()) && IsDueSelection(jobs, locked, now, limit, rows)
      requires |tokens| == |rows| && Distinct(tokens) && forall t <- tokens :: t !in issued
      modifies this`jobs, this`holders, this`issued
      ensures Valid(old(State()), ClaimSteps(rows, tokens, now))
      ensures State() == Exec(old(State()), ClaimSteps(rows, tokens, now)) && Inv(State())
      ensures AllClaimed(old(State()), State(), rows, tokens, now)
    {
      ghost var was := State();
      var i := 0;
      NothingClaimed(was, rows, tokens, now);
      while i < |rows|
        invariant 0 <= i <= |rows|
        invariant Inv(State()) && ClaimedSoFar(was, State(), rows, tokens, now, i)
      {
        ClaimNext(was, State(), rows, tokens, now, locked, limit, i);
        ClaimRow(rows[i], tokens[i], now);
        i := i + 1;
      }
      assert rows[..i] == rows && tokens[..i] == tokens;
    }

    /** recover_expired_leases: one UPDATE; the result is its rowcount. */
    method RecoverExpired(now: Time) returns (count: nat)
      requires Inv(State())
      modifies this`jobs
      ensures State() == Next(old(State()), Recover(now)) && Inv(State())
      ensures jobs.Keys == old(jobs).Keys
      ensures forall id <- jobs :: jobs[id] != old(jobs)[id] <==>
        old(jobs)[id].state.Running? && old(jobs)[id].leaseUntil.Some? && old(jobs)[id].leaseUntil.value < now
      ensures forall id <- jobs :: jobs[id] != old(jobs)[id] ==>
        jobs[id] == old(jobs)[id].(state := JobState.Queued, leaseToken := None, leaseUntil := None, expiries := old(jobs)[id].expiries + 1)
      ensures count == |set id | id in jobs && jobs[id] != old(jobs)[id]|
    {
      ghost var was := State();
      count := |set id | id in jobs && LeaseExpired(jobs[id], now)|;
      jobs := map id <- jobs :: RecoverJob(jobs[id], now);
      assert (set id | id in jobs && jobs[id] != was.jobs[id]) == set id | id in was.jobs && LeaseExpired(was.jobs[id], now);
      NextKeepsInv(was, Recover(now));
    }

    /** The start of run_one: give up when the lease is gone, fail the job when nobody handles its kind. */
    method StartRun(token: Token, hasHandler: bool) returns (executing: bool)
      requires Inv(State()) && Enabled(State(), Start(token, hasHandler))
      modifies this`jobs, this`holders
      ensures State() == Next(old(State()), Start(token, hasHandler)) && Inv(State())
      ensures executing == (old(HoldsLease(State(), token)) && hasHandler)
      ensures old(HoldsLease(State(), token)) && !hasHandler ==> var id := old(holders)[token].job;
        jobs == old(jobs)[id := old(jobs)[id].(state := JobState.Failed)]
      ensures !old(HoldsLease(State(), token)) || hasHandler ==> jobs == old(jobs)
    {
      ghost var was := State();
      assert HolderOk(was, token);
      var id := holders[token].job;
      executing := false;
      if jobs[id].leaseToken != Some(token) {
        holders := holders - {token};
      } else if !hasHandler {
        jobs := jobs[id := jobs[id].(state := JobState.Failed)];
        holders := holders - {token};
      } else {
        holders := holders[token := holders[token].(phase := Executing)];
        executing := true;
      }
      NextKeepsInv(was, Start(token, hasHandler));
    }

    /** JobContext.heartbeat: extends the lease only while the row carries this claim's token. */
    method ExtendLease(token: Token, until: Time) returns (held: bool)
      requires Inv(State()) && Enabled(State(), Heartbeat(token, until))
      modifies this`jobs
      ensures State() == Next(old(State()), Heartbeat(token, until)) && Inv(State())
      ensures held == old(HoldsLease(State(), token)) == HoldsLease(State(), token)
      ensures held ==> jobs == old(jobs)[holders[token].job := old(jobs)[holders[token].job].(leaseUntil := Some(until))]
      ensures !held ==> jobs == old(jobs)
    {
      ghost var was := State();
      assert HolderOk(was, token);
      var id := holders[token].job;
      held := jobs[id].leaseToken == Some(token);
      if held {
        jobs := jobs[id := jobs[id].(leaseUntil := Some(until))];
      }
      NextKeepsInv(was, Heartbeat(token, until));
    }

    /** The fenced completion. */
    method CompleteRun(token: Token) returns (kept: bool)
      requires Inv(State()) && Enabled(State(), Complete(token))
      modifies this`jobs, this`holders
      ensures State() == Next(old(State()), Complete(token)) && Inv(State())
      ensures kept == old(HoldsLease(State(), token))
      ensures kept ==> var id := old(holders)[token].job;
        jobs == old(jobs)[id := old(jobs)[id].(state := JobState.Done, leaseToken := None)]
      ensures !kept ==> jobs == old(jobs)
    {
      ghost var was := State();
      assert HolderOk(was, token);
      var id := holders[token].job;
      kept := jobs[id].leaseToken == Some(token);
      if kept {
        jobs := jobs[id := jobs[id].(state := JobState.Done, leaseToken := None)];
      }
      holders := holders - {token};
      NextKeepsInv(was, Complete(token));
    }

    /** Retry bookkeeping after the handler raised. */
    method FailRun(token: Token, retryAt: Time)
      requires Inv(State()) && Enabled(State(), Fail(token, retryAt))
      modifies this`jobs, this`holders
      ensures State() == Next(old(State()), Fail(token, retryAt)) && Inv(State())
      ensures !old(HoldsLease(State(), token)) ==> jobs == old(jobs)
      ensures old(HoldsLease(State(), token)) ==> var id := old(holders)[token].job;
        id in jobs && IsRetried(old(jobs)[id], jobs[id], retryAt) && jobs == old(jobs)[id := jobs[id]]
    {
      ghost var was := State();
      assert HolderOk(was, token);
      var id := holders[token].job;
      var j := jobs[id];
      if j.leaseToken == Some(token) {
        if j.attempts >= j.maxAttempts {
          j := j.(state := JobState.Failed);
        } else {
          j := j.(state := JobState.Queued, runAt := retryAt, failureRequeues := j.failureRequeues + 1);
        }
        j := j.(leaseToken := None);
        jobs := jobs[id := j];
      }
      holders := holders - {token};
      NextKeepsInv(was, Fail(token, retryAt));
    }

    /** run_one without interference: where the job of a held claim ends up. */
    method RunOne(token: Token, hasHandler: bool, outcome: HandlerOutcome)
      requires Inv(State()) && token in holders && holders[token].phase == Claimed
      modifies this`jobs, this`holders
      ensures Inv(State()) && holders == old(holders) - {token}
      ensures jobs.Keys == old(jobs).Keys
      ensures var id := old(holders)[token].job;
        forall i <- jobs :: i != id || !old(HoldsLease(State(), token)) ==> jobs[i] == old(jobs)[i]
      ensures old(HoldsLease(State(), token)) ==> var id := old(holders)[token].job;
        id in jobs && jobs[id] == Settled(old(jobs)[id], hasHandler, outcome)
      ensures old(HoldsLease(State(), token)) ==> var id := old(holders)[token].job;
        if !hasHandler then jobs[id] == old(jobs)[id].(state := JobState.Failed)
        else if outcome.Returned? then jobs[id] == old(jobs)[id].(state := JobState.Done, leaseToken := None)
        else IsRetried(old(jobs)[id], jobs[id], outcome.retryAt)
    {
      assert HolderOk(State(), token);
      var executing := StartRun(token, hasHandler);
      if executing {
        match outcome
        case Returned =>
          var _ := CompleteRun(token);
        case Raised(retryAt) =>
          FailRun(token, retryAt);
      }
    }

    /** run_due without interference: every claimed job is done, failed, or queued again for a retry. */
    method RunDue(now: Time, ghost locked: set<JobId>, limit: nat, rows: seq<JobId>, tokens: seq<Token>,
                  hasHandler: seq<bool>, outcomes: seq<HandlerOutcome>)
      requires Inv(State()) && IsDueSelection(jobs, locked, now, limit, rows)
      requires |tokens| == |rows| && Distinct(tokens) && forall t <- tokens :: t !in issued
      requires |hasHandler| == |outcomes| == |rows|
      modifies this`jobs, this`holders, this`issued
      ensures Inv(State())
      ensures jobs.Keys == old(jobs).Keys
      ensures forall k :: 0 <= k < |rows| ==>
        RanOnce(old(jobs), jobs, rows[k], hasHandler[k], outcomes[k])
      ensures forall id <- jobs :: id !in rows ==> id in old(jobs) && jobs[id] == old(jobs)[id]
    {
      ghost var was := State();
      ClaimDue(now, locked, limit, rows, tokens);
      MidwayStart(was, State(), rows, tokens, hasHandler, outcomes, now);
      RunClaimed(was.jobs, rows, tokens, hasHandler, outcomes);
    }

    /** The loop of run_due over the jobs it has just claimed. */
    method RunClaimed(ghost was: map<JobId, Job>, rows: seq<JobId>, tokens: seq<Token>,
                      hasHandler: seq<bool>, outcomes: seq<HandlerOutcome>)
      requires Inv(State()) && Distinct(rows) && Distinct(tokens)
      requires |rows| == |tokens| == |hasHandler| == |outcomes|
      requires ClaimedFrom(was, jobs, rows) && Midway(was, State(), State(), rows, tokens, hasHandler, outcomes, 0)
      modifies this`jobs, this`holders
      ensures Inv(State()) && Midway(was, old(State()), State(), rows, tokens, hasHandler, outcomes, |rows|)
    {
      ghost var claimed := State();
      var k := 0;
      while k < |rows|
        invariant 0 <= k <= |rows| && Inv(State()) && issued == claimed.issued
        invariant Midway(was, claimed, State(), rows, tokens, hasHandler, outcomes, k)
      {
        ghost var before := State();
        RunOne(tokens[k], hasHandler[k], outcomes[k]);
        MidwayStep(was, claimed, before, State(), rows, tokens, hasHandler, outcomes, k);
        k := k + 1;
      }
    }
  }
}
