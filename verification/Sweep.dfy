/** The periodic sweep that resumes waiting missions whose next check is due, bounded per role. */
module Sweep {
  import opened Wrappers
  import opened RunProtocol

  const PASS_LIMIT := 50

  datatype Waiting = Waiting(status: Status, nextCheck: Option<Time>, createdAt: Time, role: string)

  type Missions = map<MissionId, Waiting>

  /** A mission the sweep may pick up once its next check is due. */
  predicate Scheduled(m: Waiting) {
    m.status in {WaitingUntil, WaitingExternal} && m.nextCheck.Some?
  }

  predicate Due(m: Waiting, now: Time) {
    Scheduled(m) && m.nextCheck.value <= now
  }

  /** ORDER BY next_check_at, created_at. */
  predicate Earlier(a: Waiting, b: Waiting)
    requires Scheduled(a) && Scheduled(b)
  {
    a.nextCheck.value < b.nextCheck.value || (a.nextCheck.value == b.nextCheck.value && a.createdAt < b.createdAt)
  }

  predicate Distinct(ids: seq<MissionId>) {
    forall i, j :: 0 <= i < j < |ids| ==> ids[i] != ids[j]
  }

  /** What the SELECT may return: the first PASS_LIMIT due missions, ties in any order. */
  predicate IsSelection(ms: Missions, now: Time, rows: seq<MissionId>) {
    && Distinct(rows) && |rows| <= PASS_LIMIT
    && (forall id <- rows :: id in ms && Due(ms[id], now))
    && (forall i, j :: 0 <= i < j < |rows| ==>
          rows[i] in ms && rows[j] in ms && Scheduled(ms[rows[i]]) && Scheduled(ms[rows[j]]) && !Earlier(ms[rows[j]], ms[rows[i]]))
    && (forall id <- ms :: Due(ms[id], now) && id !in rows ==>
          |rows| == PASS_LIMIT && forall r <- rows :: r in ms && Scheduled(ms[r]) && !Earlier(ms[id], ms[r]))
  }

  function RoleOf(m: Waiting): string { if m.role == "" then "manager" else m.role }

  /** How many rows before the i-th have the given role. */
  function RoleCount(ms: Missions, rows: seq<MissionId>, i: nat, role: string): nat
    requires i <= |rows| && forall id <- rows :: id in ms
  {
    if i == 0 then 0 else RoleCount(ms, rows, i - 1, role) + (if RoleOf(ms[rows[i - 1]]) == role then 1 else 0)
  }

  /** The i-th row is resumed exactly when fewer than `cap` rows before it have its role. */
  predicate Picks(ms: Missions, rows: seq<MissionId>, cap: nat, i: nat)
    requires i < |rows| && forall id <- rows :: id in ms
  {
    RoleCount(ms, rows, i, RoleOf(ms[rows[i]])) < cap
  }

  predicate Resumed(ms: Missions, rows: seq<MissionId>, cap: nat, id: MissionId)
    requires forall id <- rows :: id in ms
  {
    ResumedBefore(ms, rows, cap, |rows|, id)
  }

  predicate ResumedBefore(ms: Missions, rows: seq<MissionId>, cap: nat, n: nat, id: MissionId)
    requires n <= |rows| && forall id <- rows :: id in ms
  {
    exists i :: 0 <= i < n && rows[i] == id && Picks(ms, rows, cap, i)
  }

  /** resume: a fresh run is queued, the mission runs and has no next check any more. */
  function Resume(m: Waiting): Waiting { m.(status := Running, nextCheck := None) }

  /** It runs, waits for nothing, and is otherwise as it was. */
  predicate IsResumed(before: Waiting, after: Waiting) {
    after.status.Running? && after.nextCheck.None? && after.createdAt == before.createdAt && after.role == before.role
  }

  function AfterRows(ms: Missions, rows: seq<MissionId>, cap: nat, n: nat): Missions
    requires n <= |rows| && forall id <- rows :: id in ms
  {
    map id <- ms :: if ResumedBefore(ms, rows, cap, n, id) then Resume(ms[id]) else ms[id]
  }

  function AfterPass(ms: Missions, rows: seq<MissionId>, cap: nat): Missions
    requires forall id <- rows :: id in ms
  {
    AfterRows(ms, rows, cap, |rows|)
  }

  /** The missions a pass queues a run for, in due order. */
  function Started(ms: Missions, rows: seq<MissionId>, cap: nat, n: nat): seq<MissionId>
    requires n <= |rows| && forall id <- rows :: id in ms
  {
    if n == 0 then [] else Started(ms, rows, cap, n - 1) + (if Picks(ms, rows, cap, n - 1) then [rows[n - 1]] else [])
  }

  lemma AfterOneRow(ms: Missions, rows: seq<MissionId>, cap: nat, n: nat)
    requires n < |rows| && (forall id <- rows :: id in ms) && Distinct(rows)
    ensures AfterRows(ms, rows, cap, n)[rows[n]] == ms[rows[n]]
    ensures AfterRows(ms, rows, cap, n + 1) ==
      if Picks(ms, rows, cap, n) then AfterRows(ms, rows, cap, n)[rows[n] := Resume(ms[rows[n]])] else AfterRows(ms, rows, cap, n)
  {
    forall id <- ms ensures ResumedBefore(ms, rows, cap, n + 1, id) <==>
      ResumedBefore(ms, rows, cap, n, id) || (rows[n] == id && Picks(ms, rows, cap, n))
    {
    }
  }

  function CapCount(n: nat, cap: nat): nat { if n < cap then n else cap }

  /** The counters of the sweep are the capped numbers of rows seen per role. */
  ghost predicate CountersMatch(counts: map<string, nat>, ms: Missions, rows: seq<MissionId>, cap: nat, n: nat)
    requires n <= |rows| && forall id <- rows :: id in ms
  {
    forall role: string :: (if role in counts then counts[role] else 0) == CapCount(RoleCount(ms, rows, n, role), cap)
  }

  ghost predicate Inside(ms: Missions, rows: seq<MissionId>) {
    forall id <- rows :: id in ms
  }

  lemma CountersStep(counts: map<string, nat>, ms: Missions, rows: seq<MissionId>, cap: nat, i: nat, role: string)
    requires i < |rows| && Inside(ms, rows) && CountersMatch(counts, ms, rows, cap, i) && role == RoleOf(ms[rows[i]])
    ensures var used := if role in counts then counts[role] else 0;
      && (used < cap <==> Picks(ms, rows, cap, i))
      && CountersMatch(if used < cap then counts[role := used + 1] else counts, ms, rows, cap, i + 1)
  {
    var used := if role in counts then counts[role] else 0;
    assert used == CapCount(RoleCount(ms, rows, i, role), cap);
    var next := if used < cap then counts[role := used + 1] else counts;
    forall r: string
      ensures (if r in next then next[r] else 0) == CapCount(RoleCount(ms, rows, i + 1, r), cap)
    {
      assert (if r in counts then counts[r] else 0) == CapCount(RoleCount(ms, rows, i, r), cap);
    }
  }

  /** The sweep after its first i rows. */
  ghost predicate Swept(was: Missions, before: seq<MissionId>, rows: seq<MissionId>, cap: nat, i: nat,
                        missions: Missions, started: seq<MissionId>, counts: map<string, nat>, n: nat)
    requires i <= |rows|
  {
    && Inside(was, rows) && Distinct(rows) && Inside(missions, rows)
    && missions == AfterRows(was, rows, cap, i)
    && CountersMatch(counts, was, rows, cap, i)
    && started == before + Started(was, rows, cap, i)
    && n == |Started(was, rows, cap, i)|
  }

  lemma NothingSwept(was: Missions, before: seq<MissionId>, rows: seq<MissionId>, cap: nat)
    requires Inside(was, rows) && Distinct(rows)
    ensures Swept(was, before, rows, cap, 0, was, before, map[], 0)
  {
    assert AfterRows(was, rows, cap, 0) == was;
  }

  lemma SweepRow(was: Missions, before: seq<MissionId>, rows: seq<MissionId>, cap: nat, i: nat, missions: Missions,
                 started: seq<MissionId>, counts: map<string, nat>, n: nat, role: string, used: nat)
    requires i < |rows| && Swept(was, before, rows, cap, i, missions, started, counts, n)
    requires role == RoleOf(missions[rows[i]]) && used == if role in counts then counts[role] else 0
    ensures if used < cap
            then Swept(was, before, rows, cap, i + 1, missions[rows[i] := Resume(missions[rows[i]])], started + [rows[i]],
                       counts[role := used + 1], n + 1)
            else Swept(was, before, rows, cap, i + 1, missions, started, counts, n)
  {
    AfterOneRow(was, rows, cap, i);
    CountersStep(counts, was, rows, cap, i, role);
    if used < cap {
      assert started + [rows[i]] == before + (Started(was, rows, cap, i) + [rows[i]]);
    }
  }

  /** The variables of the loop. */
  datatype Progress = Progress(missions: Missions, started: seq<MissionId>, counts: map<string, nat>, n: nat)

  function SweepOne(p: Progress, id: MissionId, cap: nat): Progress
    requires id in p.missions
  {
    var role := RoleOf(p.missions[id]);
    var used := if role in p.counts then p.counts[role] else 0;
    if used < cap then Progress(p.missions[id := Resume(p.missions[id])], p.started + [id], p.counts[role := used + 1], p.n + 1)
    else p
  }

  ghost function SweepRows(p: Progress, rows: seq<MissionId>, cap: nat, i: nat): (q: Progress)
    requires i <= |rows| && Inside(p.missions, rows)
    ensures q.missions.Keys == p.missions.Keys
  {
    if i == 0 then p else SweepOne(SweepRows(p, rows, cap, i - 1), rows[i - 1], cap)
  }

  lemma {:induction false} SweepRowsIsSwept(was: Missions, before: seq<MissionId>, rows: seq<MissionId>, cap: nat, i: nat, p: Progress)
    requires i <= |rows| && Inside(was, rows) && Distinct(rows)
    requires p == SweepRows(Progress(was, before, map[], 0), rows, cap, i)
    ensures Swept(was, before, rows, cap, i, p.missions, p.started, p.counts, p.n)
  {
    if i == 0 {
      NothingSwept(was, before, rows, cap);
    } else {
      var q := SweepRows(Progress(was, before, map[], 0), rows, cap, i - 1);
      SweepRowsIsSwept(was, before, rows, cap, i - 1, q);
      var role := RoleOf(q.missions[rows[i - 1]]);
      SweepRow(was, before, rows, cap, i - 1, q.missions, q.started, q.counts, q.n, role, if role in q.counts then q.counts[role] else 0);
    }
  }

  class MissionTable {
    var missions: Missions
    var started: seq<MissionId>     // the missions a run was queued for

    constructor (ms: Missions)
      ensures missions == ms && started == []
    {
      missions, started := ms, [];
    }

    /** The loop of _resume_due. */
    method SweepLoop(rows: seq<MissionId>, cap: nat) returns (n: nat, ghost counted: map<string, nat>)
      requires Inside(missions, rows)
      modifies this
      ensures Progress(missions, started, counted, n) ==
        SweepRows(Progress(old(missions), old(started), map[], 0), rows, cap, |rows|)
    {
      ghost var start := Progress(missions, started, map[], 0);
      var counts: map<string, nat> := map[];
      var i := 0;
      n := 0;
      while i < |rows|
        invariant 0 <= i <= |rows|
        invariant Progress(missions, started, counts, n) == SweepRows(start, rows, cap, i)
      {
        var id := rows[i];
        var role := RoleOf(missions[id]);
        var used := if role in counts then counts[role] else 0;
        if used < cap {
          missions := missions[id := Resume(missions[id])];
          started := started + [id];
          counts := counts[role := used + 1];
          n := n + 1;
        }
        i := i + 1;
      }
      counted := counts;
    }

    /** _resume_due, on any rows of the table; the SELECT returns an IsSelection. */
    method ResumeDue(rows: seq<MissionId>, cap: nat) returns (n: nat)
      requires Distinct(rows) && Inside(missions, rows)
      modifies this
      ensures missions == AfterPass(old(missions), rows, cap)
      ensures started == old(started) + Started(old(missions), rows, cap, |rows|)
      ensures n == |Started(old(missions), rows, cap, |rows|)|
      ensures missions.Keys == old(missions).Keys && |started| == |old(started)| + n && started[..|old(started)|] == old(started)
      ensures var ids := started[|old(started)|..];
        && (forall id <- missions :: id in ids ==> IsResumed(old(missions)[id], missions[id]))
        && (forall id <- missions :: id !in ids ==> missions[id] == old(missions)[id])
    {
      ghost var was, before := missions, started;
      ghost var counts;
      n, counts := SweepLoop(rows, cap);
      SweepRowsIsSwept(was, before, rows, cap, |rows|, Progress(missions, started, counts, n));
      assert started[|before|..] == Started(was, rows, cap, |rows|);
      forall id { StartedIsResumed(was, rows, cap, |rows|, id); }
    }
  }

  // ---- one pass --------------------------------------------------------------------------------

  function StartedOfRole(ms: Missions, ids: seq<MissionId>, role: string): nat
    requires forall id <- ids :: id in ms
  {
    if ids == [] then 0 else StartedOfRole(ms, ids[..|ids| - 1], role) + (if RoleOf(ms[ids[|ids| - 1]]) == role then 1 else 0)
  }

  lemma StartedOfRoleSnoc(ms: Missions, ids: seq<MissionId>, id: MissionId, role: string)
    requires Inside(ms, ids) && id in ms
    ensures Inside(ms, ids + [id])
    ensures StartedOfRole(ms, ids + [id], role) == StartedOfRole(ms, ids, role) + (if RoleOf(ms[id]) == role then 1 else 0)
  {
    assert (ids + [id])[..|ids + [id]| - 1] == ids;
  }

  lemma {:induction false} StartedIsInside(ms: Missions, rows: seq<MissionId>, cap: nat, n: nat)
    requires n <= |rows| && Inside(ms, rows)
    ensures Inside(ms, Started(ms, rows, cap, n))
  {
    if n > 0 { StartedIsInside(ms, rows, cap, n - 1); }
  }

  /** A pass starts, of every role, as many missions as it found, up to the cap. */
  lemma {:induction false} StartedIsCapped(ms: Missions, rows: seq<MissionId>, cap: nat, n: nat, role: string)
    requires n <= |rows| && Inside(ms, rows)
    ensures Inside(ms, Started(ms, rows, cap, n))
    ensures StartedOfRole(ms, Started(ms, rows, cap, n), role) == CapCount(RoleCount(ms, rows, n, role), cap)
  {
    StartedIsInside(ms, rows, cap, n);
    if n > 0 {
      StartedIsCapped(ms, rows, cap, n - 1, role);
      var front := Started(ms, rows, cap, n - 1);
      var last := RoleOf(ms[rows[n - 1]]);
      StartedOfRoleSnoc(ms, front, rows[n - 1], role);
      assert RoleCount(ms, rows, n, role) == RoleCount(ms, rows, n - 1, role) + (if last == role then 1 else 0);
      if last == role {
        assert Picks(ms, rows, cap, n - 1) <==> RoleCount(ms, rows, n - 1, role) < cap;
      }
      if !Picks(ms, rows, cap, n - 1) {
        assert Started(ms, rows, cap, n) == front;
      }
    }
  }

  predicate ForManager(m: Waiting) { m.role == "" || m.role == "manager" }

  /** Missions without a role share the manager's cap. */
  lemma ManagersShareOneCap(ms: Missions, rows: seq<MissionId>, cap: nat, n: nat)
    requires n <= |rows| && Inside(ms, rows)
    ensures Inside(ms, Started(ms, rows, cap, n))
    ensures |set id <- Started(ms, rows, cap, n) | ForManager(ms[id])| <= StartedOfRole(ms, Started(ms, rows, cap, n), "manager") <= cap
  {
    StartedIsCapped(ms, rows, cap, n, "manager");
    ManagersAreCounted(ms, Started(ms, rows, cap, n), "manager");
  }

  lemma {:induction false} ManagersAreCounted(ms: Missions, ids: seq<MissionId>, role: string)
    requires Inside(ms, ids) && role == "manager"
    ensures |set id <- ids | ForManager(ms[id])| <= StartedOfRole(ms, ids, role)
  {
    if ids != [] {
      var front, last := ids[..|ids| - 1], ids[|ids| - 1];
      assert ids == front + [last];
      ManagersAreCounted(ms, front, role);
      OneMoreManager(ms, front, last);
    }
  }

  lemma OneMoreManager(ms: Missions, front: seq<MissionId>, last: MissionId)
    requires Inside(ms, front) && last in ms
    ensures Inside(ms, front + [last])
    ensures var before, after := (set id <- front | ForManager(ms[id])), (set id <- front + [last] | ForManager(ms[id]));
      |after| <= |before| + if ForManager(ms[last]) then 1 else 0
  {
    var before, after := (set id <- front | ForManager(ms[id])), (set id <- front + [last] | ForManager(ms[id]));
    if ForManager(ms[last]) {
      assert after == before + {last};
    } else {
      assert after == before;
    }
  }

  lemma {:induction false} RowsAreAsMany(rows: seq<MissionId>)
    requires Distinct(rows)
    ensures |set id | id in rows| == |rows|
  {
    if rows != [] {
      var front, last := rows[..|rows| - 1], rows[|rows| - 1];
      RowsAreAsMany(front);
      assert (set id | id in rows) == (set id | id in front) + {last};
    }
  }

  /** While at most 50 missions are due, a pass looks at all of them. */
  lemma FewAreAllSelected(ms: Missions, now: Time, rows: seq<MissionId>, id: MissionId)
    requires IsSelection(ms, now, rows) && id in ms && IsWaiting(ms[id]) && ms[id].nextCheck.value <= now
    requires |set k <- ms | IsWaiting(ms[k]) && ms[k].nextCheck.value <= now| <= 50
    ensures id in rows
  {
    if id !in rows {
      RowsAreAsMany(rows);
      var due := set k <- ms | IsWaiting(ms[k]) && ms[k].nextCheck.value <= now;
      SubsetSize((set k | k in rows) + {id}, due);
    }
  }

  lemma {:induction false} StartedIsResumed(ms: Missions, rows: seq<MissionId>, cap: nat, n: nat, id: MissionId)
    requires n <= |rows| && forall id <- rows :: id in ms
    ensures id in Started(ms, rows, cap, n) <==> ResumedBefore(ms, rows, cap, n, id)
  {
    if n > 0 {
      StartedIsResumed(ms, rows, cap, n - 1, id);
    }
  }

  predicate IsWaiting(m: Waiting) {
    (m.status.WaitingUntil? || m.status.WaitingExternal?) && m.nextCheck.Some?
  }

  /** Earlier next checks come first, and of equal ones the older mission. */
  predicate OldestFirst(ms: Missions, ids: seq<MissionId>) {
    forall i, j :: 0 <= i < j < |ids| ==>
      ids[i] in ms && ids[j] in ms && ms[ids[i]].nextCheck.Some? && ms[ids[j]].nextCheck.Some? &&
      (ms[ids[i]].nextCheck.value < ms[ids[j]].nextCheck.value ||
       (ms[ids[i]].nextCheck == ms[ids[j]].nextCheck && ms[ids[i]].createdAt <= ms[ids[j]].createdAt))
  }

  predicate InDueOrder(ms: Missions, now: Time, ids: seq<MissionId>) {
    && (forall id <- ids :: id in ms && Due(ms[id], now))
    && (forall i, j :: 0 <= i < j < |ids| ==>
          ids[i] in ms && ids[j] in ms && Scheduled(ms[ids[i]]) && Scheduled(ms[ids[j]]) && !Earlier(ms[ids[j]], ms[ids[i]]))
  }

  /** A pass starts its missions in the order in which they fell due. */
  lemma {:induction false} StartedInDueOrder(ms: Missions, now: Time, rows: seq<MissionId>, cap: nat, n: nat)
    requires IsSelection(ms, now, rows) && n <= |rows|
    ensures forall id <- Started(ms, rows, cap, n) :: id in rows[..n]
    ensures InDueOrder(ms, now, Started(ms, rows, cap, n))
    ensures forall id <- Started(ms, rows, cap, n) :: id in ms && IsWaiting(ms[id]) && ms[id].nextCheck.value <= now
    ensures OldestFirst(ms, Started(ms, rows, cap, n))
  {
    if n > 0 {
      StartedInDueOrder(ms, now, rows, cap, n - 1);
      var front := Started(ms, rows, cap, n - 1);
      var last := rows[n - 1];
      assert rows[..n] == rows[..n - 1] + [last];
      assert last in ms && Due(ms[last], now);
      forall id <- front ensures id in ms && Scheduled(ms[id]) && !Earlier(ms[last], ms[id]) {
        assert id in rows[..n - 1];
        var k :| 0 <= k < n - 1 && rows[k] == id;
      }
      DueOrderSnoc(ms, now, front, last);
    }
  }

  lemma DueOrderSnoc(ms: Missions, now: Time, front: seq<MissionId>, last: MissionId)
    requires InDueOrder(ms, now, front) && last in ms && Due(ms[last], now)
    requires forall id <- front :: id in ms && Scheduled(ms[id]) && !Earlier(ms[last], ms[id])
    ensures InDueOrder(ms, now, front + [last])
  {
    var ids := front + [last];
    forall i, j | 0 <= i < j < |ids|
      ensures ids[i] in ms && ids[j] in ms && Scheduled(ms[ids[i]]) && Scheduled(ms[ids[j]]) && !Earlier(ms[ids[j]], ms[ids[i]])
    {
      assert ids[i] == front[i] && front[i] in front;
    }
  }

  /** Whatever a pass does not resume is left exactly as it was, so it stays due. */
  lemma UnresumedStaysDue(ms: Missions, now: Time, rows: seq<MissionId>, cap: nat, id: MissionId, later: Time)
    requires IsSelection(ms, now, rows) && id in ms && Due(ms[id], now) && now <= later
    ensures var after := AfterPass(ms, rows, cap);
      id in after && (Due(after[id], later) <==> !Resumed(ms, rows, cap, id))
  {
  }

  lemma FirstRowIsResumed(ms: Missions, rows: seq<MissionId>, cap: nat)
    requires cap >= 1 && rows != [] && forall id <- rows :: id in ms
    ensures Resumed(ms, rows, cap, rows[0])
  {
    assert Picks(ms, rows, cap, 0);
  }

  // ---- over many passes ------------------------------------------------------------------------

  /** The scheduled missions that are not due later than m: those the sweep may have to take first, and m itself. */
  function Ahead(ms: Missions, m: Waiting): set<MissionId>
    requires Scheduled(m)
  {
    set id <- ms | Scheduled(ms[id]) && !Earlier(m, ms[id])
  }

  /** As long as m is not resumed itself, every pass takes at least one mission that was ahead of it. */
  lemma PassMakesProgress(ms: Missions, now: Time, rows: seq<MissionId>, cap: nat, id: MissionId)
    requires IsSelection(ms, now, rows) && cap >= 1
    requires id in ms && Due(ms[id], now) && !Resumed(ms, rows, cap, id)
    ensures Ahead(AfterPass(ms, rows, cap), ms[id]) < Ahead(ms, ms[id])
  {
    var after := AfterPass(ms, rows, cap);
    assert rows != [];
    var first := rows[0];
    FirstRowIsResumed(ms, rows, cap);
    assert first in ms && !Earlier(ms[id], ms[first]) by {
      if id in rows {
        var k :| 0 <= k < |rows| && rows[k] == id;
      }
    }
    assert first in Ahead(ms, ms[id]) && first !in Ahead(after, ms[id]);
  }

  /** One pass with the state it found. */
  datatype Pass = Pass(missions: Missions, now: Time, rows: seq<MissionId>)

  /** Between two passes anything may happen, as long as m is left alone and nothing is scheduled that is due no later than m. */
  predicate NothingEarlierArrives(before: Missions, after: Missions, id: MissionId)
    requires id in before && Scheduled(before[id])
  {
    && id in after && after[id] == before[id]
    && Ahead(after, before[id]) <= Ahead(before, before[id])
  }

  /** A sequence of passes none of which has resumed m. */
  predicate Waits(passes: seq<Pass>, cap: nat, id: MissionId, m: Waiting) {
    && Scheduled(m)
    && (forall i :: 0 <= i < |passes| ==>
          && id in passes[i].missions && passes[i].missions[id] == m && Due(m, passes[i].now)
          && IsSelection(passes[i].missions, passes[i].now, passes[i].rows)
          && !Resumed(passes[i].missions, passes[i].rows, cap, id))
    && (forall i :: 0 <= i < |passes| - 1 ==>
          var after := AfterPass(passes[i].missions, passes[i].rows, cap);
          NothingEarlierArrives(after, passes[i + 1].missions, id))
  }

  lemma {:induction false} WaitingIsBounded(passes: seq<Pass>, cap: nat, id: MissionId, m: Waiting)
    requires cap >= 1 && passes != [] && Waits(passes, cap, id, m)
    ensures |Ahead(passes[|passes| - 1].missions, m)| + |passes| - 1 <= |Ahead(passes[0].missions, m)|
  {
    var n := |passes| - 1;
    if n > 0 {
      WaitedBefore(passes, cap, id, m);
      WaitingIsBounded(passes[..n], cap, id, m);
      assert passes[..n][n - 1] == passes[n - 1] && passes[..n][0] == passes[0];
      OnePassFewer(passes[n - 1], passes[n].missions, cap, id, m);
    }
  }

  lemma WaitedBefore(passes: seq<Pass>, cap: nat, id: MissionId, m: Waiting)
    requires |passes| > 1 && Waits(passes, cap, id, m)
    ensures Waits(passes[..|passes| - 1], cap, id, m)
    ensures var last := passes[|passes| - 2];
      && id in last.missions && last.missions[id] == m && Due(m, last.now)
      && IsSelection(last.missions, last.now, last.rows) && !Resumed(last.missions, last.rows, cap, id)
      && NothingEarlierArrives(AfterPass(last.missions, last.rows, cap), passes[|passes| - 1].missions, id)
  {
    var n := |passes| - 2;
    var front := passes[..|passes| - 1];
    forall i | 0 <= i < |front| ensures front[i] == passes[i] {}
    var after := AfterPass(passes[n].missions, passes[n].rows, cap);
    assert NothingEarlierArrives(after, passes[n + 1].missions, id);
  }

  lemma OnePassFewer(pass: Pass, next: Missions, cap: nat, id: MissionId, m: Waiting)
    requires cap >= 1 && Scheduled(m) && id in pass.missions && pass.missions[id] == m && Due(m, pass.now)
    requires IsSelection(pass.missions, pass.now, pass.rows) && !Resumed(pass.missions, pass.rows, cap, id)
    requires NothingEarlierArrives(AfterPass(pass.missions, pass.rows, cap), next, id)
    ensures |Ahead(next, m)| + 1 <= |Ahead(pass.missions, m)|
  {
    var after := AfterPass(pass.missions, pass.rows, cap);
    PassMakesProgress(pass.missions, pass.now, pass.rows, cap, id);
    assert after[id] == m;
    SubsetSize(Ahead(after, m), Ahead(pass.missions, m));
    SubsetSize(Ahead(next, m), Ahead(after, m));
  }

  lemma SubsetSize(a: set<MissionId>, b: set<MissionId>)
    requires a <= b
    ensures |a| <= |b|
    ensures a != b ==> |a| < |b|
  {
    assert b == a + (b - a);
  }

  /** No mission is starved: it waits for fewer passes than there are missions due no later than itself. */
  lemma EveryMissionIsResumed(passes: seq<Pass>, cap: nat, id: MissionId, m: Waiting)
    requires cap >= 1 && passes != [] && Waits(passes, cap, id, m)
    ensures |passes| < |Ahead(passes[0].missions, m)|
  {
    WaitingIsBounded(passes, cap, id, m);
    var last := passes[|passes| - 1];
    PassMakesProgress(last.missions, last.now, last.rows, cap, id);
    var after := AfterPass(last.missions, last.rows, cap);
    SubsetSize(Ahead(after, m), Ahead(last.missions, m));
    assert id in Ahead(after, m);
  }
}
