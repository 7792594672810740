/** The dispatcher itself, on a database session: pending changes are committed with the log row or rolled back. */
module CommandStore {
  import opened Wrappers
  import opened CommandProtocol

  datatype Tables = Tables(data: Data, log: map<Key, LogRow>, permissions: map<string, Permission>)

  /** The permission does not allow the amount: it has a cumulative limit, and what is used, reserved and asked for exceeds it. */
  predicate OverLimit(p: Permission, amount: Option<int>) {
    amount.Some? && p.cumulativeLimit.Some? && p.usedAmount + p.reservedAmount + amount.value > p.cumulativeLimit.value
  }

  /** One use more, and the amount, if any. */
  predicate IsUsed(was: Permission, p: Permission, amount: Option<int>) {
    p == was.(usedCount := was.usedCount + 1, usedAmount := was.usedAmount + (if amount.Some? then amount.value else 0))
  }

  predicate UsesPermission(work: Work) { work.Allow? && work.decision.permission.Some? }

  /** The permission table after the commit. */
  predicate PermissionsUsed(was: map<string, Permission>, now: map<string, Permission>, work: Work) {
    if UsesPermission(work) then
      var id := work.decision.permission.value;
      id in was && id in now && IsUsed(was[id], now[id], work.amount) && now == was[id := now[id]]
    else now == was
  }

  /** Everything is committed: what was written, the use of the permission and the log row; the reply says what was done. */
  predicate Commits(was: Tables, now: Tables, c: Call, work: Work, reply: Reply) {
    && now.data == (match work case Refuse(_) => was.data case Review(_, _, _, writes) => was.data + writes
                               case Allow(_, _, h) => if h.Returns? then was.data + h.writes else was.data)
    && PermissionsUsed(was.permissions, now.permissions, work)
    && (if c.key.request != "" then
          c.key in now.log && now.log == was.log[c.key := now.log[c.key]] && now.log[c.key].command == c.command &&
          now.log[c.key].payload == c.payload && Reports(now.log[c.key].result, work)
        else now.log == was.log)
    && (if work.Refuse? then reply == Raised(Denied(work.decision)) else reply.Returned? && Reports(reply.result, work))
    && (c.key.request != "" && !work.Refuse? ==> c.key in now.log && reply == Returned(now.log[c.key].result))
  }

  /** How a dispatch ends whose request id was not logged when it looked. */
  predicate Concludes(was: Tables, now: Tables, c: Call, work: Work, clash: bool, reply: Reply) {
    if UsesPermission(work) && work.decision.permission.value in was.permissions &&
       OverLimit(was.permissions[work.decision.permission.value], work.amount)
    then now == was && reply == Raised(LimitReached)
    else if work.Allow? && work.handler.Raises? then now == was && reply == Raised(HandlerFailed)
    else if c.key.request != "" && c.key in was.log then
      now == was && reply == (if work.Refuse? then Raised(Denied(work.decision))
                              else Returned(was.log[c.key].result.(decision := work.decision)))
    else if clash then now == was && reply == Raised(IntegrityError)
    else Commits(was, now, c, work, reply)
  }

  class Session {
    var stored: Tables        // what is committed
    var pending: Tables       // what this session sees
    ghost var applied: seq<Applied>

    /** Between dispatches nothing is pending. */
    ghost predicate Valid()
      reads this
    {
      pending == stored
    }

    ghost function Abs(calls: map<CallId, Call>, replies: map<CallId, Reply>): State
      reads this
    {
      State(stored.data, stored.log, stored.permissions, calls, replies, applied)
    }

    constructor ()
      ensures Valid() && Abs(map[], map[]) == EMPTY
    {
      stored, pending, applied := Tables(map[], map[], map[]), Tables(map[], map[], map[]), [];
    }

    method Rollback()
      modifies this`pending
      ensures pending == stored
    {
      pending := stored;
    }

    /** _reserve_permission: the row is locked, read again and changed, or Denied is raised. */
    method ReservePermission(id: string, amount: Option<int>) returns (ok: bool)
      requires id in pending.permissions
      modifies this`pending
      ensures ok <==> Reserve(old(pending.permissions[id]), amount).Some?
      ensures ok <==> !OverLimit(old(pending.permissions[id]), amount)
      ensures ok ==> id in pending.permissions && IsUsed(old(pending.permissions[id]), pending.permissions[id], amount)
      ensures ok ==> pending == old(pending).(permissions :=
        old(pending.permissions)[id := Reserve(old(pending.permissions[id]), amount).value])
      ensures !ok ==> pending == old(pending)
    {
      var row := pending.permissions[id];
      if amount.Some? {
        if row.cumulativeLimit.Some? && row.usedAmount + row.reservedAmount + amount.value > row.cumulativeLimit.value {
          return false;
        }
        row := row.(usedAmount := row.usedAmount + amount.value);
      }
      row := row.(usedCount := row.usedCount + 1);
      pending := pending.(permissions := pending.permissions[id := row]);
      ok := true;
    }

    /** _log: insert the log row and commit; on a conflict roll back and return the stored result. None is a
        conflict that the log does not explain, and raises. */
    method Log(c: Call, own: CommandResult, clash: bool) returns (result: Option<CommandResult>)
      requires pending.log == stored.log
      modifies this`pending, this`stored
      ensures Valid()
      ensures var taken := Logged(c) && c.key in old(stored.log);
        && stored == (if taken || clash then old(stored)
                      else if Logged(c) then old(pending).(log := old(stored.log)[c.key := LogRow(c.command, c.payload, own)])
                      else old(pending))
        && result == (if taken then Some(Merged(own, old(stored.log[c.key]).result)) else if clash then None else Some(own))
    {
      var conflict := clash;
      if c.key.request != "" {
        conflict := conflict || c.key in stored.log;
        pending := pending.(log := pending.log[c.key := LogRow(c.command, c.payload, own)]);
      }
      if !conflict {
        stored := pending;
        return Some(own);
      }
      Rollback();
      if c.key.request != "" && c.key in pending.log {
        var prior := pending.log[c.key].result;
        result := Some(CommandResult(prior.status, prior.data, prior.changed, prior.approval, own.decision));
      } else {
        result := None;
      }
    }

    /** The part of dispatch after the lookup: reserve, run the handler, log and commit. */
    method Conclude(id: CallId, c: Call, work: Work, clash: bool) returns (reply: Reply)
      requires Valid()
      requires work.Allow? && work.decision.permission.Some? ==> work.decision.permission.value in stored.permissions
      modifies this
      ensures Valid()
      ensures Abs(map[], map[id := reply]) == AfterFinish(old(Abs(map[id := c], map[])), id, work, clash)
      ensures Concludes(old(stored), stored, c, work, clash, reply)
    {
      match work {
        case Refuse(decision) =>
          var result := Log(c, CommandResult(Blocked, "null", "[]", None, decision), clash);
          reply := if result.Some? then Raised(Denied(decision)) else Raised(IntegrityError);
        case Review(decision, approval, brief, writes) =>
          pending := pending.(data := pending.data + writes);
          var result := Log(c, CommandResult(NeedsReview, brief, "[]", Some(approval), decision), clash);
          reply := if result.Some? then Returned(result.value) else Raised(IntegrityError);
        case Allow(decision, amount, handler) =>
          if decision.permission.Some? {
            var ok := ReservePermission(decision.permission.value, amount);
            if !ok {
              return Raised(LimitReached);
            }
          }
          if handler.Raises? {
            Rollback();
            return Raised(HandlerFailed);
          }
          pending := pending.(data := pending.data + handler.writes);
          var result := Log(c, CommandResult(Status.Ok, handler.data, handler.changed, None, decision), clash);
          reply := if result.Some? then Returned(result.value) else Raised(IntegrityError);
      }
      if !clash && !(c.key.request != "" && c.key in old(stored.log)) {
        applied := applied + Execution(c, work);
      }
    }

    /** dispatch, uninterrupted: its lookup step followed by its commit step. */
    method Dispatch(id: CallId, c: Call, work: Work, clash: bool) returns (reply: Reply)
      requires Valid()
      requires work.Allow? && work.decision.permission.Some? ==> work.decision.permission.value in stored.permissions
      modifies this
      ensures Valid()
      ensures var looked := AfterLookUp(old(Abs(map[], map[])), id, c);
        Abs(map[], map[id := reply]) == if id in looked.calls then AfterFinish(looked, id, work, clash) else looked
      ensures if c.key.request != "" && c.key in old(stored.log) then
          stored == old(stored) &&
          reply == (if old(stored.log[c.key]).command == c.command && old(stored.log[c.key]).payload == c.payload
                    then Returned(old(stored.log[c.key]).result) else Raised(IdempotencyConflict))
        else Concludes(old(stored), stored, c, work, clash, reply)
    {
      if c.key.request != "" && c.key in stored.log {
        var prior := stored.log[c.key];
        if prior.payload != c.payload || prior.command != c.command {
          return Raised(IdempotencyConflict);
        }
        return Returned(prior.result);
      }
      reply := Conclude(id, c, work, clash);
    }
  }
}
