/**
 The command dispatcher as a state machine: any number of dispatches are in flight, each one looks its
 request id up in the command log, decides and runs its handler, and commits everything together with its
 log row, or nothing.

 The lookup and the commit are separate atomic steps, so other dispatches may commit in between. A standing
 permission is reserved under a row lock that is held until the commit, so reserving, running the handler
 and committing are one step. Handlers are arbitrary: they write what they like or raise.
 */
module CommandProtocol {
  import opened Wrappers

  type CallId = nat
  type Json = string

  /** What a handler writes, table by table and row by row. */
  type Data = map<string, Json>

  datatype Key = Key(actor: string, request: string)

  datatype Status = Ok | NeedsReview | Blocked

  datatype Decision = Decision(reasons: Json, permission: Option<string>)

  datatype CommandResult = CommandResult(status: Status, data: Json, changed: Json, approval: Option<string>, decision: Decision)

  datatype LogRow = LogRow(command: string, payload: Json, result: CommandResult)

  /** A standing permission; amounts are in minor units. */
  datatype Permission = Permission(cumulativeLimit: Option<int>, usedAmount: int, reservedAmount: int, usedCount: nat)

  /** A dispatch between its lookup and its commit. */
  datatype Call = Call(key: Key, command: string, payload: Json)

  datatype Handler = Returns(writes: Data, data: Json, changed: Json) | Raises

  /** What the policy decided and what came of it. */
  datatype Work =
    | Refuse(decision: Decision)
    | Review(decision: Decision, approval: string, brief: Json, writes: Data)
    | Allow(decision: Decision, amount: Option<int>, handler: Handler)

  datatype Error = IdempotencyConflict | Denied(decision: Decision) | LimitReached | HandlerFailed | IntegrityError

  datatype Reply = Returned(result: CommandResult) | Raised(error: Error)

  /** A committed execution: the call and what was done for it. */
  datatype Applied = Applied(call: Call, work: Work)

  datatype State = State(
    data: Data,
    log: map<Key, LogRow>,
    permissions: map<string, Permission>,
    calls: map<CallId, Call>,
    replies: map<CallId, Reply>,
    applied: seq<Applied>)

  datatype Step =
    | LookUp(id: CallId, call: Call)
    | Finish(id: CallId, work: Work, clash: bool)      // clash: some other unique key of the transaction is taken
    | Crash(id: CallId)
    | Grant(permission: string, limit: Option<int>)

  const EMPTY: State := State(map[], map[], map[], map[], map[], [])

  /** An empty request id asks for no idempotency. */
  predicate Logged(c: Call) { c.key.request != "" }

  function Answer(s: State, id: CallId, reply: Reply): State {
    s.(calls := s.calls - {id}, replies := s.replies[id := reply])
  }

  function AfterLookUp(s: State, id: CallId, c: Call): State {
    if Logged(c) && c.key in s.log then
      var row := s.log[c.key];
      Answer(s, id, if row.payload != c.payload || row.command != c.command then Raised(IdempotencyConflict) else Returned(row.result))
    else s.(calls := s.calls[id := c])
  }

  /** _reserve_permission: None when the cumulative limit does not allow the amount. */
  function Reserve(p: Permission, amount: Option<int>): Option<Permission> {
    match amount
    case None => Some(p.(usedCount := p.usedCount + 1))
    case Some(a) =>
      if p.cumulativeLimit.Some? && p.usedAmount + p.reservedAmount + a > p.cumulativeLimit.value then None
      else Some(p.(usedAmount := p.usedAmount + a, usedCount := p.usedCount + 1))
  }

  /** What dispatch hands to _log. */
  function ResultOf(work: Work): CommandResult
    requires work.Allow? ==> work.handler.Returns?
  {
    match work
    case Refuse(d) => CommandResult(Blocked, "null", "[]", None, d)
    case Review(d, approval, brief, _) => CommandResult(NeedsReview, brief, "[]", Some(approval), d)
    case Allow(d, _, h) => CommandResult(Status.Ok, h.data, h.changed, None, d)
  }

  /** The result of a concurrent duplicate: the stored one, except for the decision, which stays its own. */
  function Merged(own: CommandResult, stored: CommandResult): CommandResult {
    stored.(decision := own.decision)
  }

  /** What dispatch answers when _log ended with the given result. A refusal raises whatever the log says. */
  function ReplyOf(work: Work, result: CommandResult): Reply {
    if work.Refuse? then Raised(Denied(work.decision)) else Returned(result)
  }

  /** The transaction cannot commit: the request id is taken, or another unique key is. */
  predicate Conflicts(s: State, c: Call, clash: bool) {
    (Logged(c) && c.key in s.log) || clash
  }

  /** The permission rows after the reservation, or None when there is nothing to commit. */
  function Reserved(s: State, work: Work): Option<map<string, Permission>>
    requires work.Allow? && work.decision.permission.Some? ==> work.decision.permission.value in s.permissions
  {
    if work.Allow? && work.decision.permission.Some? then
      var id := work.decision.permission.value;
      match Reserve(s.permissions[id], work.amount)
      case None => None
      case Some(p) => Some(s.permissions[id := p])
    else Some(s.permissions)
  }

  /** A refusal executes nothing. */
  function Execution(c: Call, work: Work): seq<Applied> {
    if work.Refuse? then [] else [Applied(c, work)]
  }

  function Writes(work: Work): Data {
    match work
    case Refuse(_) => map[]
    case Review(_, _, _, writes) => writes
    case Allow(_, _, h) => if h.Returns? then h.writes else map[]
  }

  /** Everything commits: the writes, the reservation and the log row. */
  function Committed(s: State, id: CallId, work: Work, permissions: map<string, Permission>): State
    requires id in s.calls
    requires work.Allow? ==> work.handler.Returns?
  {
    var c := s.calls[id];
    Answer(s.(data := s.data + Writes(work), permissions := permissions, applied := s.applied + Execution(c, work),
              log := if Logged(c) then s.log[c.key := LogRow(c.command, c.payload, ResultOf(work))] else s.log),
           id, ReplyOf(work, ResultOf(work)))
  }

  function AfterFinish(s: State, id: CallId, work: Work, clash: bool): State
    requires id in s.calls
    requires work.Allow? && work.decision.permission.Some? ==> work.decision.permission.value in s.permissions
  {
    var c := s.calls[id];
    match Reserved(s, work)
    case None => Answer(s, id, Raised(LimitReached))
    case Some(permissions) =>
      if work.Allow? && work.handler.Raises? then Answer(s, id, Raised(HandlerFailed))
      else if !Conflicts(s, c, clash) then Committed(s, id, work, permissions)
      else if Logged(c) && c.key in s.log then Answer(s, id, ReplyOf(work, Merged(ResultOf(work), s.log[c.key].result)))
      else Answer(s, id, Raised(IntegrityError))
  }

  predicate Enabled(s: State, step: Step) {
    match step
    case LookUp(id, _) => id !in s.calls && id !in s.replies
    case Finish(id, work, _) =>
      id in s.calls && id !in s.replies &&
      (work.Allow? && work.decision.permission.Some? ==> work.decision.permission.value in s.permissions)
    case Crash(id) => id in s.calls
    case Grant(p, limit) => p !in s.permissions && (limit.Some? ==> limit.value >= 0)
  }

  function Next(s: State, step: Step): State
    requires Enabled(s, step)
  {
    match step
    case LookUp(id, c) => AfterLookUp(s, id, c)
    case Finish(id, work, clash) => AfterFinish(s, id, work, clash)
    case Crash(id) => s.(calls := s.calls - {id})
    case Grant(p, limit) => s.(permissions := s.permissions[p := Permission(limit, 0, 0, 0)])
  }

  predicate Valid(s: State, steps: seq<Step>)
    decreases |steps|
  {
    steps == [] || (Enabled(s, steps[0]) && Valid(Next(s, steps[0]), steps[1..]))
  }

  function Exec(s: State, steps: seq<Step>): State
    requires Valid(s, steps)
    decreases |steps|
  {
    if steps == [] then s else Exec(Next(s, steps[0]), steps[1..])
  }

  // ---- one execution per request ---------------------------------------------------------------

  /** The store after the committed executions, one after the other. */
  function Folded(applied: seq<Applied>): Data {
    if applied == [] then map[] else Folded(applied[..|applied| - 1]) + Writes(applied[|applied| - 1].work)
  }

  /** The result says what was done: ok with what the handler returned, or in need of review with the approval to decide. */
  predicate Reports(r: CommandResult, work: Work) {
    r.decision == work.decision &&
    match work
    case Refuse(_) => r.status.Blocked? && r.approval.None?
    case Review(_, approval, brief, _) => r.status.NeedsReview? && r.approval == Some(approval) && r.data == brief && r.changed == "[]"
    case Allow(_, _, h) => r.status.Ok? && r.approval.None? && h.Returns? && r.data == h.data && r.changed == h.changed
  }

  predicate ExecutionLogged(a: Applied, log: map<Key, LogRow>) {
    Logged(a.call) ==>
      a.call.key in log && log[a.call.key].command == a.call.command && log[a.call.key].payload == a.call.payload &&
      !a.work.Refuse? && Reports(log[a.call.key].result, a.work)
  }

  predicate AtMostOnce(applied: seq<Applied>) {
    forall i, j :: 0 <= i < j < |applied| && Logged(applied[i].call) ==> applied[i].call.key != applied[j].call.key
  }

  predicate HasExecution(applied: seq<Applied>, key: Key) {
    exists i :: 0 <= i < |applied| && applied[i].call.key == key
  }

  ghost predicate LogInv(s: State) {
    && s.data == Folded(s.applied)
    && AtMostOnce(s.applied)
    && (forall i :: 0 <= i < |s.applied| ==> ExecutionLogged(s.applied[i], s.log))
    && (forall k <- s.log :: s.log[k].result.status != Blocked ==> HasExecution(s.applied, k))
    && (forall k <- s.log :: k.request != "")
  }

  lemma FoldedSnoc(applied: seq<Applied>, a: Applied)
    ensures Folded(applied + [a]) == Folded(applied) + Writes(a.work)
  {
    assert (applied + [a])[..|applied|] == applied;
  }

  lemma LogsExtend(applied: seq<Applied>, a: Applied, log: map<Key, LogRow>, log': map<Key, LogRow>)
    requires AtMostOnce(applied) && forall i :: 0 <= i < |applied| ==> ExecutionLogged(applied[i], log)
    requires forall k <- log :: k in log' && log'[k] == log[k]
    requires Logged(a.call) ==> a.call.key !in log
    requires ExecutionLogged(a, log')
    ensures AtMostOnce(applied + [a])
    ensures forall i :: 0 <= i < |applied + [a]| ==> ExecutionLogged((applied + [a])[i], log')
  {
    forall i | 0 <= i < |applied + [a]| ensures ExecutionLogged((applied + [a])[i], log') {
      if i < |applied| { assert ExecutionLogged(applied[i], log); }
    }
    forall i, j | 0 <= i < j < |applied + [a]| && Logged((applied + [a])[i].call)
      ensures (applied + [a])[i].call.key != (applied + [a])[j].call.key
    {
      assert ExecutionLogged(applied[i], log);
    }
  }

  lemma CommitKeepsLogInv(s: State, id: CallId, work: Work, permissions: map<string, Permission>)
    requires LogInv(s) && id in s.calls && (work.Allow? ==> work.handler.Returns?)
    requires !Conflicts(s, s.calls[id], false)
    ensures LogInv(Committed(s, id, work, permissions))
  {
    var c := s.calls[id];
    var s' := Committed(s, id, work, permissions);
    if work.Refuse? {
      assert s'.applied == s.applied;
      assert s'.data == s.data;
      forall i | 0 <= i < |s.applied| ensures ExecutionLogged(s.applied[i], s'.log) {
        assert ExecutionLogged(s.applied[i], s.log);
      }
    } else {
      var a := Execution(c, work)[0];
      assert s'.applied == s.applied + [a];
      FoldedSnoc(s.applied, a);
      LogsExtend(s.applied, a, s.log, s'.log);
      ExecutionsExtend(s.applied, a, s.log, s'.log);
    }
  }

  lemma ExecutionsExtend(applied: seq<Applied>, a: Applied, log: map<Key, LogRow>, log': map<Key, LogRow>)
    requires forall k <- log :: log[k].result.status != Blocked ==> HasExecution(applied, k)
    requires forall k <- log' :: (k in log && log'[k] == log[k]) || k == a.call.key
    ensures forall k <- log' :: log'[k].result.status != Blocked ==> HasExecution(applied + [a], k)
  {
    forall k <- log' | log'[k].result.status != Blocked ensures HasExecution(applied + [a], k) {
      if k == a.call.key {
        assert (applied + [a])[|applied|].call.key == k;
      } else {
        var i :| 0 <= i < |applied| && applied[i].call.key == k;
        assert (applied + [a])[i] == applied[i];
      }
    }
  }

  lemma NextKeepsLogInv(s: State, step: Step)
    requires LogInv(s) && Enabled(s, step)
    ensures LogInv(Next(s, step))
  {
    if step.Finish? {
      var r := Reserved(s, step.work);
      if r.Some? && !(step.work.Allow? && step.work.handler.Raises?) && !Conflicts(s, s.calls[step.id], step.clash) {
        CommitKeepsLogInv(s, step.id, step.work, r.value);
      } else {
        OnlyCommitsChangeTheStore(s, step);
      }
    }
  }

  lemma {:induction false} ExecKeepsLogInv(s: State, steps: seq<Step>)
    requires LogInv(s) && Valid(s, steps)
    ensures LogInv(Exec(s, steps))
    decreases |steps|
  {
    if steps != [] {
      NextKeepsLogInv(s, steps[0]);
      ExecKeepsLogInv(Next(s, steps[0]), steps[1..]);
    }
  }

  /** Over every interleaving the store is the fold of the committed executions, and no two of them share an
      actor and a request id. */
  lemma OneExecutionPerRequest(steps: seq<Step>, i: nat, j: nat)
    requires Valid(EMPTY, steps)
    requires var applied := Exec(EMPTY, steps).applied;
      i < |applied| && j < |applied| && Logged(applied[i].call) && applied[i].call.key == applied[j].call.key
    ensures i == j
    ensures Exec(EMPTY, steps).data == Folded(Exec(EMPTY, steps).applied)
  {
    ExecKeepsLogInv(EMPTY, steps);
  }

  /** A request was executed exactly when its log row says so, and then with the logged command and payload. */
  lemma LoggedExactlyWhenExecuted(steps: seq<Step>, key: Key)
    requires Valid(EMPTY, steps) && key.request != ""
    ensures var s := Exec(EMPTY, steps);
      HasExecution(s.applied, key) <==> key in s.log && s.log[key].result.status != Blocked
    ensures var s := Exec(EMPTY, steps);
      forall i :: 0 <= i < |s.applied| && s.applied[i].call.key == key ==>
        key in s.log && s.log[key].command == s.applied[i].call.command && s.log[key].payload == s.applied[i].call.payload
  {
    ExecKeepsLogInv(EMPTY, steps);
    var s := Exec(EMPTY, steps);
    forall i | 0 <= i < |s.applied| && s.applied[i].call.key == key ensures ExecutionLogged(s.applied[i], s.log) {}
  }

  /** An allowed execution of the request, with this result. */
  predicate RanFor(a: Applied, key: Key, r: CommandResult) {
    a.call.key == key && a.work.Allow? && a.work.handler.Returns? && r.data == a.work.handler.data &&
    r.changed == a.work.handler.changed && r.approval.None?
  }

  /** A review of the request, with the approval that the result names. */
  predicate ReviewedFor(a: Applied, key: Key, r: CommandResult) {
    a.call.key == key && a.work.Review? && r.approval == Some(a.work.approval) && r.data == a.work.brief
  }

  /** The log row of a request says exactly what was done for it, over every run: ok for an allowed execution with what its
      handler returned, in need of review with the approval that was created, blocked when nothing was executed. */
  lemma LogSaysWhatWasDone(steps: seq<Step>, key: Key)
    requires Valid(EMPTY, steps) && key in Exec(EMPTY, steps).log
    ensures var s := Exec(EMPTY, steps); var r := s.log[key].result;
      && (r.status.Ok? ==> exists i :: 0 <= i < |s.applied| && RanFor(s.applied[i], key, r))
      && (r.status.NeedsReview? ==> exists i :: 0 <= i < |s.applied| && ReviewedFor(s.applied[i], key, r))
      && (r.status.Blocked? ==> forall i :: 0 <= i < |s.applied| ==> s.applied[i].call.key != key)
  {
    ExecKeepsLogInv(EMPTY, steps);
    var s := Exec(EMPTY, steps);
    forall i | 0 <= i < |s.applied| ensures ExecutionLogged(s.applied[i], s.log) {}
    if !s.log[key].result.status.Blocked? {
      var i :| 0 <= i < |s.applied| && s.applied[i].call.key == key;
      var r := s.log[key].result;
      assert RanFor(s.applied[i], key, r) || ReviewedFor(s.applied[i], key, r);
    }
  }

  // ---- replies ---------------------------------------------------------------------------------

  /** Log rows and replies never change, and calls keep what they asked for. */
  lemma {:induction false} LogIsAppendOnly(s: State, steps: seq<Step>, key: Key)
    requires Valid(s, steps) && key in s.log && key.request != ""
    ensures key in Exec(s, steps).log && Exec(s, steps).log[key] == s.log[key]
    decreases |steps|
  {
    if steps != [] {
      LogIsAppendOnly(Next(s, steps[0]), steps[1..], key);
    }
  }

  /** Where a call stands and what its answer must agree with. `asked` remembers every call of the run. */
  function Asked(steps: seq<Step>): map<CallId, Call> {
    if steps == [] then map[]
    else
      var rest := Asked(steps[..|steps| - 1]);
      var last := steps[|steps| - 1];
      if last.LookUp? then rest[last.id := last.call] else rest
  }

  predicate Agrees(result: CommandResult, row: LogRow) {
    && result.status == row.result.status && result.data == row.result.data
    && result.changed == row.result.changed && result.approval == row.result.approval
  }

  predicate ReplyOk(s: State, asked: map<CallId, Call>, id: CallId)
    requires id in s.replies
  {
    id in asked &&
    (s.replies[id].Returned? && Logged(asked[id]) ==>
       asked[id].key in s.log && Agrees(s.replies[id].result, s.log[asked[id].key]))
  }

  predicate CallsInv(s: State, asked: map<CallId, Call>) {
    && (forall id <- s.calls :: id in asked && asked[id] == s.calls[id])
    && (forall id <- s.replies :: ReplyOk(s, asked, id))
  }

  /** Answering a call keeps the invariant when the answer agrees with the log, and the log only grows. */
  lemma AnswerKeepsCallsInv(s: State, asked: map<CallId, Call>, id: CallId, s': State)
    requires CallsInv(s, asked) && id in asked
    requires s'.calls == s.calls - {id} && id in s'.replies && s'.replies == s.replies[id := s'.replies[id]]
    requires forall k <- s.log :: k in s'.log && s'.log[k] == s.log[k]
    requires ReplyOk(s', asked, id)
    ensures CallsInv(s', asked)
  {
    forall i <- s'.replies ensures ReplyOk(s', asked, i) {
      if i != id { assert ReplyOk(s, asked, i); }
    }
  }

  lemma LookUpKeepsCallsInv(s: State, asked: map<CallId, Call>, id: CallId, c: Call)
    requires CallsInv(s, asked) && Enabled(s, LookUp(id, c))
    ensures CallsInv(AfterLookUp(s, id, c), asked[id := c])
  {
    var s' := AfterLookUp(s, id, c);
    forall i <- s'.replies ensures ReplyOk(s', asked[id := c], i) {
      if i != id { assert ReplyOk(s, asked, i); }
    }
  }

  lemma CommitKeepsCallsInv(s: State, asked: map<CallId, Call>, id: CallId, work: Work, permissions: map<string, Permission>)
    requires CallsInv(s, asked) && id in s.calls && (work.Allow? ==> work.handler.Returns?)
    requires !Conflicts(s, s.calls[id], false)
    ensures CallsInv(Committed(s, id, work, permissions), asked)
  {
    AnswerKeepsCallsInv(s, asked, id, Committed(s, id, work, permissions));
  }

  lemma FinishKeepsCallsInv(s: State, asked: map<CallId, Call>, id: CallId, work: Work, clash: bool)
    requires CallsInv(s, asked) && Enabled(s, Finish(id, work, clash))
    ensures CallsInv(AfterFinish(s, id, work, clash), asked)
  {
    var r := Reserved(s, work);
    var c := s.calls[id];
    if r.None? {
      AnswerKeepsCallsInv(s, asked, id, Answer(s, id, Raised(LimitReached)));
    } else if work.Allow? && work.handler.Raises? {
      AnswerKeepsCallsInv(s, asked, id, Answer(s, id, Raised(HandlerFailed)));
    } else if !Conflicts(s, c, clash) {
      CommitKeepsCallsInv(s, asked, id, work, r.value);
    } else if Logged(c) && c.key in s.log {
      AnswerKeepsCallsInv(s, asked, id, Answer(s, id, ReplyOf(work, Merged(ResultOf(work), s.log[c.key].result))));
    } else {
      AnswerKeepsCallsInv(s, asked, id, Answer(s, id, Raised(IntegrityError)));
    }
  }

  lemma NextKeepsCallsInv(s: State, asked: map<CallId, Call>, step: Step)
    requires CallsInv(s, asked) && Enabled(s, step)
    ensures CallsInv(Next(s, step), if step.LookUp? then asked[step.id := step.call] else asked)
  {
    match step {
      case LookUp(id, c) => LookUpKeepsCallsInv(s, asked, id, c);
      case Finish(id, work, clash) => FinishKeepsCallsInv(s, asked, id, work, clash);
      case _ =>
        forall i <- s.replies ensures ReplyOk(Next(s, step), asked, i) {
          assert ReplyOk(s, asked, i);
        }
    }
  }

  lemma ExecSnoc(s: State, steps: seq<Step>)
    requires steps != [] && Valid(s, steps)
    ensures var n := |steps| - 1;
      Valid(s, steps[..n]) && Enabled(Exec(s, steps[..n]), steps[n]) && Exec(s, steps) == Next(Exec(s, steps[..n]), steps[n])
    decreases |steps|
  {
    var n := |steps| - 1;
    if n > 0 {
      var s1 := Next(s, steps[0]);
      ExecSnoc(s1, steps[1..]);
      assert steps[1..][..n - 1] == steps[..n][1..];
    }
  }

  lemma {:induction false} ExecKeepsCallsInv(steps: seq<Step>)
    requires Valid(EMPTY, steps)
    ensures CallsInv(Exec(EMPTY, steps), Asked(steps))
    decreases |steps|
  {
    if steps != [] {
      var n := |steps| - 1;
      ExecSnoc(EMPTY, steps);
      ExecKeepsCallsInv(steps[..n]);
      NextKeepsCallsInv(Exec(EMPTY, steps[..n]), Asked(steps[..n]), steps[n]);
    }
  }

  /** Every reply that does not raise carries the logged status, data, changed list and approval of its request. */
  lemma EveryReplyIsTheLoggedOne(steps: seq<Step>, id: CallId)
    requires Valid(EMPTY, steps) && id in Exec(EMPTY, steps).replies && Exec(EMPTY, steps).replies[id].Returned?
    ensures id in Asked(steps)
    ensures Logged(Asked(steps)[id]) ==>
      Asked(steps)[id].key in Exec(EMPTY, steps).log &&
      Agrees(Exec(EMPTY, steps).replies[id].result, Exec(EMPTY, steps).log[Asked(steps)[id].key])
  {
    ExecKeepsCallsInv(steps);
    assert ReplyOk(Exec(EMPTY, steps), Asked(steps), id);
  }

  /** Two replies to one request agree, however the dispatches interleaved. */
  lemma RepliesOfOneRequestAgree(steps: seq<Step>, a: CallId, b: CallId)
    requires Valid(EMPTY, steps)
    requires var s := Exec(EMPTY, steps); a in s.replies && b in s.replies && s.replies[a].Returned? && s.replies[b].Returned?
    requires a in Asked(steps) && b in Asked(steps)
    requires Logged(Asked(steps)[a]) && Asked(steps)[a].key == Asked(steps)[b].key
    ensures var s := Exec(EMPTY, steps); s.replies[a].result.(decision := s.replies[b].result.decision) == s.replies[b].result
  {
    EveryReplyIsTheLoggedOne(steps, a);
    EveryReplyIsTheLoggedOne(steps, b);
  }

  /** A request id that is already logged is never executed again: it is replayed, decision included, exactly when
      command and payload are the logged ones, and refused otherwise. */
  lemma SequentialReuse(s: State, steps: seq<Step>, id: CallId, call: Call)
    requires Logged(call) && call.key in s.log && Valid(s, steps) && Enabled(Exec(s, steps), LookUp(id, call))
    ensures var before := Exec(s, steps); var after := Next(before, LookUp(id, call));
      && after == before.(replies := after.replies) && id in after.replies
      && after.replies[id] == (if s.log[call.key].command == call.command && s.log[call.key].payload == call.payload
                               then Returned(s.log[call.key].result) else Raised(IdempotencyConflict))
  {
    LogIsAppendOnly(s, steps, call.key);
    var before := Exec(s, steps);
    assert before.calls - {id} == before.calls;
  }

  /** A dispatch whose work succeeds commits it exactly when no other dispatch logged its request id since its
      lookup and no other unique key is taken; if one did, it answers with that dispatch's result unchecked. */
  lemma CommitsUnlessOvertaken(s: State, id: CallId, work: Work, clash: bool)
    requires Enabled(s, Finish(id, work, clash)) && Logged(s.calls[id]) && !work.Refuse?
    requires work.Allow? ==> work.handler.Returns?
    requires Reserved(s, work).Some?
    ensures var c := s.calls[id]; var s' := Next(s, Finish(id, work, clash));
      && (|s'.applied| == |s.applied| + 1 <==> c.key !in s.log && !clash)
      && (c.key !in s.log && !clash ==> c.key in s'.log && s'.log[c.key] == LogRow(c.command, c.payload, ResultOf(work)))
      && (c.key !in s.log && clash ==> s'.replies[id] == Raised(IntegrityError))
      && (c.key in s.log ==> s'.data == s.data && s'.permissions == s.permissions && s'.log == s.log &&
                             s'.replies[id] == Returned(s.log[c.key].result.(decision := work.decision)))
  {
  }

  /** Replies never change, and an answered call is never in flight again. */
  lemma {:induction false} RepliesStay(s: State, steps: seq<Step>, id: CallId)
    requires Valid(s, steps) && id in s.replies && id !in s.calls
    ensures id in Exec(s, steps).replies && Exec(s, steps).replies[id] == s.replies[id] && id !in Exec(s, steps).calls
    decreases |steps|
  {
    if steps != [] {
      RepliesStay(Next(s, steps[0]), steps[1..], id);
    }
  }

  /** The logged request is another command, or has another payload. */
  predicate Mismatched(log: map<Key, LogRow>, c: Call) {
    c.key in log && (log[c.key].command != c.command || log[c.key].payload != c.payload)
  }

  /** A dispatch is answered with the result of another command or payload exactly when that one was logged under the same
      request id after its own lookup and before its commit. */
  lemma MismatchedExactlyWhenOvertaken(s: State, id: CallId, c: Call, between: seq<Step>, work: Work, clash: bool)
    requires Enabled(s, LookUp(id, c)) && Logged(c) && Valid(Next(s, LookUp(id, c)), between)
    requires var s2 := Exec(Next(s, LookUp(id, c)), between);
      Enabled(s2, Finish(id, work, clash)) && s2.calls[id] == c && Reserved(s2, work).Some?
    requires !work.Refuse? && (work.Allow? ==> work.handler.Returns?)
    ensures c.key !in s.log
    ensures var s2 := Exec(Next(s, LookUp(id, c)), between); var s3 := Next(s2, Finish(id, work, clash));
      && (s3.replies[id].Returned? && Mismatched(s3.log, c) <==> Mismatched(s2.log, c))
      && (Mismatched(s2.log, c) ==> s3.replies[id] == Returned(s2.log[c.key].result.(decision := work.decision)) && s3.applied == s2.applied)
  {
    var s1 := Next(s, LookUp(id, c));
    if c.key in s.log {
      assert id in s1.replies && id !in s1.calls;
      RepliesStay(s1, between, id);
    }
    CommitsUnlessOvertaken(Exec(s1, between), id, work, clash);
  }

  /** Two overlapping dispatches of one request id: the loser gets the winner's result although it asked for
      another command, which one after the other would have been refused. */
  lemma OverlappingReuseIsNotRefused() returns (steps: seq<Step>)
    ensures Valid(EMPTY, steps)
    ensures var s := Exec(EMPTY, steps);
      && Asked(steps) == map[1 := Call(Key("user:u", "r"), "tasks.create", "a"), 2 := Call(Key("user:u", "r"), "tasks.close", "b")]
      && 2 in s.replies && s.replies[2] == Returned(CommandResult(Status.Ok, "a done", "[]", None, Decision("b decided", None)))
      && Key("user:u", "r") in s.log && s.log[Key("user:u", "r")].command == "tasks.create"
  {
    var a := Call(Key("user:u", "r"), "tasks.create", "a");
    var b := Call(Key("user:u", "r"), "tasks.close", "b");
    var wa := Allow(Decision("a decided", None), None, Returns(map[], "a done", "[]"));
    var wb := Allow(Decision("b decided", None), None, Returns(map[], "b done", "[]"));
    steps := [LookUp(1, a), LookUp(2, b), Finish(1, wa, false), Finish(2, wb, false)];
    var s1 := Next(EMPTY, steps[0]);
    var s2 := Next(s1, steps[1]);
    var s3 := Next(s2, steps[2]);
    var s4 := Next(s3, steps[3]);
    assert steps[1..][1..][1..][1..] == [];
    assert Valid(s3, steps[1..][1..][1..]) && Exec(s3, steps[1..][1..][1..]) == s4;
    assert Valid(s2, steps[1..][1..]) && Exec(s2, steps[1..][1..]) == s4;
    assert Valid(s1, steps[1..]) && Exec(s1, steps[1..]) == s4;
    AskedOfFour(steps[0], steps[1], steps[2], steps[3]);
  }

  lemma AskedOfFour(a: Step, b: Step, c: Step, d: Step)
    requires a.LookUp? && b.LookUp? && !c.LookUp? && !d.LookUp?
    ensures Asked([a, b, c, d]) == map[a.id := a.call][b.id := b.call]
  {
    assert [a, b, c, d][..3] == [a, b, c];
    assert [a, b, c][..2] == [a, b];
    assert [a, b][..1] == [a];
    assert [a][..0] == [];
    assert Asked([a]) == map[a.id := a.call];
    assert Asked([a, b]) == map[a.id := a.call][b.id := b.call];
    assert Asked([a, b, c]) == Asked([a, b]);
  }

  // ---- standing permissions --------------------------------------------------------------------

  predicate Uses(a: Applied, permission: string) { a.work.Allow? && a.work.decision.permission == Some(permission) }

  function UsedAmount(applied: seq<Applied>, permission: string): int {
    if applied == [] then 0
    else
      var a := applied[|applied| - 1];
      UsedAmount(applied[..|applied| - 1], permission) + (if Uses(a, permission) && a.work.amount.Some? then a.work.amount.value else 0)
  }

  function UsedCount(applied: seq<Applied>, permission: string): nat {
    if applied == [] then 0
    else UsedCount(applied[..|applied| - 1], permission) + (if Uses(applied[|applied| - 1], permission) then 1 else 0)
  }

  predicate PermissionOk(p: Permission, applied: seq<Applied>, id: string) {
    && p.usedAmount == UsedAmount(applied, id)
    && p.usedCount == UsedCount(applied, id)
    && (p.cumulativeLimit.Some? ==> p.usedAmount + p.reservedAmount <= p.cumulativeLimit.value)
  }

  predicate Permitted(a: Applied, permissions: map<string, Permission>) {
    a.work.Allow? && a.work.decision.permission.Some? ==> a.work.decision.permission.value in permissions
  }

  predicate PermissionsInv(s: State) {
    && (forall id <- s.permissions :: PermissionOk(s.permissions[id], s.applied, id))
    && (forall i :: 0 <= i < |s.applied| ==> Permitted(s.applied[i], s.permissions))
  }

  lemma {:induction false} UnusedPermission(applied: seq<Applied>, permission: string)
    requires forall i :: 0 <= i < |applied| ==> !Uses(applied[i], permission)
    ensures UsedAmount(applied, permission) == 0 && UsedCount(applied, permission) == 0
  {
    if applied != [] {
      UnusedPermission(applied[..|applied| - 1], permission);
    }
  }

  lemma UsedSnoc(applied: seq<Applied>, a: Applied, permission: string)
    ensures UsedAmount(applied + [a], permission) ==
      UsedAmount(applied, permission) + (if Uses(a, permission) && a.work.amount.Some? then a.work.amount.value else 0)
    ensures UsedCount(applied + [a], permission) == UsedCount(applied, permission) + (if Uses(a, permission) then 1 else 0)
  {
    assert (applied + [a])[..|applied|] == applied;
  }

  lemma ReserveKeepsPermission(p: Permission, applied: seq<Applied>, a: Applied, id: string)
    requires PermissionOk(p, applied, id)
    ensures Uses(a, id) && Reserve(p, a.work.amount).Some? ==> PermissionOk(Reserve(p, a.work.amount).value, applied + [a], id)
    ensures !Uses(a, id) ==> PermissionOk(p, applied + [a], id)
  {
    UsedSnoc(applied, a, id);
  }

  lemma CommitKeepsPermissions(s: State, id: CallId, work: Work, permissions: map<string, Permission>)
    requires PermissionsInv(s) && Enabled(s, Finish(id, work, false)) && (work.Allow? ==> work.handler.Returns?)
    requires Reserved(s, work) == Some(permissions)
    ensures PermissionsInv(Committed(s, id, work, permissions))
  {
    var s' := Committed(s, id, work, permissions);
    assert permissions.Keys == s.permissions.Keys;
    if work.Refuse? {
      assert s'.applied == s.applied;
    } else {
      var a := Execution(s.calls[id], work)[0];
      assert s'.applied == s.applied + [a];
      forall p <- permissions ensures PermissionOk(permissions[p], s'.applied, p) {
        assert PermissionOk(s.permissions[p], s.applied, p);
        ReserveKeepsPermission(s.permissions[p], s.applied, a, p);
      }
    }
  }

  lemma NextKeepsPermissions(s: State, step: Step)
    requires PermissionsInv(s) && Enabled(s, step)
    ensures PermissionsInv(Next(s, step))
  {
    match step {
      case Finish(id, work, clash) =>
        var r := Reserved(s, work);
        if r.Some? && !(work.Allow? && work.handler.Raises?) && !Conflicts(s, s.calls[id], clash) {
          CommitKeepsPermissions(s, id, work, r.value);
        }
      case Grant(p, limit) =>
        UnusedPermission(s.applied, p);
      case _ =>
    }
  }

  lemma {:induction false} ExecKeepsPermissions(s: State, steps: seq<Step>)
    requires PermissionsInv(s) && Valid(s, steps)
    ensures PermissionsInv(Exec(s, steps))
    decreases |steps|
  {
    if steps != [] {
      NextKeepsPermissions(s, steps[0]);
      ExecKeepsPermissions(Next(s, steps[0]), steps[1..]);
    }
  }

  /** With any lookups and commits interleaved, what a permission has used is exactly what the committed executions
      used of it, and never exceeds its cumulative limit. */
  lemma PermissionUseIsConserved(steps: seq<Step>, id: string)
    requires Valid(EMPTY, steps) && id in Exec(EMPTY, steps).permissions
    ensures var s := Exec(EMPTY, steps); var p := s.permissions[id];
      && p.usedAmount == UsedAmount(s.applied, id) && p.usedCount == UsedCount(s.applied, id)
      && (p.cumulativeLimit.Some? ==> p.usedAmount + p.reservedAmount <= p.cumulativeLimit.value)
  {
    ExecKeepsPermissions(EMPTY, steps);
    assert PermissionOk(Exec(EMPTY, steps).permissions[id], Exec(EMPTY, steps).applied, id);
  }

  lemma {:induction false} LimitsAreKept(s: State, steps: seq<Step>, id: string)
    requires Valid(s, steps) && id in s.permissions
    ensures id in Exec(s, steps).permissions
    ensures Exec(s, steps).permissions[id].cumulativeLimit == s.permissions[id].cumulativeLimit
    decreases |steps|
  {
    if steps != [] {
      LimitsAreKept(Next(s, steps[0]), steps[1..], id);
    }
  }

  /** The limit that a permission was granted with is its limit for ever. */
  lemma GrantedLimitStays(s: State, id: string, limit: Option<int>, steps: seq<Step>)
    requires Enabled(s, Grant(id, limit)) && Valid(Next(s, Grant(id, limit)), steps)
    ensures id in Exec(Next(s, Grant(id, limit)), steps).permissions
    ensures Exec(Next(s, Grant(id, limit)), steps).permissions[id].cumulativeLimit == limit
  {
    LimitsAreKept(Next(s, Grant(id, limit)), steps, id);
  }

  /** A rolled-back dispatch leaves data, log, permissions and executions as they were. */
  lemma OnlyCommitsChangeTheStore(s: State, step: Step)
    requires Enabled(s, step) && !step.Grant?
    ensures var s' := Next(s, step);
      s'.log != s.log || s'.applied != s.applied || s'.data != s.data || s'.permissions != s.permissions ==>
        step.Finish? && step.id in s.calls && !Conflicts(s, s.calls[step.id], step.clash) && Reserved(s, step.work).Some? &&
        !(step.work.Allow? && step.work.handler.Raises?)
  {
  }
}
