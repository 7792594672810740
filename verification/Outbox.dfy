/**
 The outbox: events are handed to their handlers after the transaction that produced them, each handler in
 its own savepoint, and are retried a bounded number of times with growing delays.

 Handlers are arbitrary functions of the database. The rows of a pass stay locked until its commit, so a
 pass is one atomic step. Events that handlers emit arrive as steps of their own.
 */
module Outbox {
  import opened Wrappers

  type EventId = string
  type Time = int

  const MAX_ATTEMPTS: nat := 5
  const ERROR_LIMIT := 2000

  /** `firstAt` remembers the pass that dispatched the event first, and `ran` the handlers that were called for it, in
      order; they are not columns. */
  datatype Event = Event(
    kind: string, happenedAt: Time, createdAt: Time, processedAt: Option<Time>, nextAttemptAt: Option<Time>,
    attempts: nat, error: Option<string>, firstAt: Option<Time>, ran: seq<string>)

  /** How a handler ends: with its writes, or raising with whatever it had written until then. */
  datatype Ending<D> = Done(data: D) | Raised(partial: D, message: string)

  datatype Handler<!D> = Handler(name: string, pattern: string, run: (D, Event) -> Ending<D>)

  function BackoffAfter(attempts: nat): Time {
    if attempts <= 1 then 30 else if attempts == 2 then 120 else if attempts == 3 then 600 else 1800
  }

  function Joined(errors: seq<string>): string {
    if errors == [] then "" else if |errors| == 1 then errors[0]
    else Joined(errors[..|errors| - 1]) + "; " + errors[|errors| - 1]
  }

  /** Joining texts with "; " between them, however they are grouped. */
  lemma {:induction false} JoinedSplits(a: seq<string>, b: seq<string>)
    requires a != [] && b != []
    ensures Joined(a + b) == Joined(a) + "; " + Joined(b) && Joined([a[0]]) == a[0]
  {
    assert (a + b)[..|a + b| - 1] == a + b[..|b| - 1];
    if |b| == 1 {
      assert a + b[..0] == a;
    } else {
      JoinedSplits(a, b[..|b| - 1]);
    }
  }

  function Cut(text: string): string { if |text| > ERROR_LIMIT then text[..ERROR_LIMIT] else text }

  // ---- the handlers of one event ---------------------------------------------------------------

  /** The database after the first n handlers: a handler that raises leaves no trace. */
  function AfterHandlers<D>(matches: (string, string) -> bool, hs: seq<Handler<D>>, n: nat, d: D, ev: Event): D
    requires n <= |hs|
  {
    if n == 0 then d
    else
      var before := AfterHandlers(matches, hs, n - 1, d, ev);
      if !matches(hs[n - 1].pattern, ev.kind) then before
      else match hs[n - 1].run(before, ev) case Done(after) => after case Raised(_, _) => before
  }

  function Errors<D>(matches: (string, string) -> bool, hs: seq<Handler<D>>, n: nat, d: D, ev: Event): seq<string>
    requires n <= |hs|
  {
    if n == 0 then []
    else
      var front := Errors(matches, hs, n - 1, d, ev);
      if !matches(hs[n - 1].pattern, ev.kind) then front
      else match hs[n - 1].run(AfterHandlers(matches, hs, n - 1, d, ev), ev)
           case Done(_) => front case Raised(_, message) => front + [message]
  }

  /** The k-th handler is called for the event and raises this. */
  predicate Raises<D>(matches: (string, string) -> bool, hs: seq<Handler<D>>, k: nat, d: D, ev: Event, message: string)
    requires k < |hs|
  {
    matches(hs[k].pattern, ev.kind) &&
    match hs[k].run(AfterHandlers(matches, hs, k, d, ev), ev) case Done(_) => false case Raised(_, m) => m == message
  }

  /** The errors of an event are exactly what its handlers raised. */
  lemma {:induction false} ErrorsAreRaised<D>(matches: (string, string) -> bool, hs: seq<Handler<D>>, n: nat, d: D, ev: Event, message: string)
    requires n <= |hs|
    ensures message in Errors(matches, hs, n, d, ev) <==> exists k :: 0 <= k < n && Raises(matches, hs, k, d, ev, message)
  {
    if n > 0 {
      ErrorsAreRaised(matches, hs, n - 1, d, ev, message);
      assert message in Errors(matches, hs, n, d, ev) <==>
        message in Errors(matches, hs, n - 1, d, ev) || Raises(matches, hs, n - 1, d, ev, message);
    }
  }

  /** The handlers among the first n that ran and returned. */
  function Succeeding<D>(matches: (string, string) -> bool, hs: seq<Handler<D>>, n: nat, d: D, ev: Event): seq<Handler<D>>
    requires n <= |hs|
  {
    if n == 0 then []
    else
      var front := Succeeding(matches, hs, n - 1, d, ev);
      if matches(hs[n - 1].pattern, ev.kind) && hs[n - 1].run(AfterHandlers(matches, hs, n - 1, d, ev), ev).Done?
      then front + [hs[n - 1]] else front
  }

  /** The plain composition of handlers that all return. */
  function Composed<D>(hs: seq<Handler<D>>, d: D, ev: Event): Option<D> {
    if hs == [] then Some(d)
    else
      match Composed(hs[..|hs| - 1], d, ev)
      case None => None
      case Some(before) =>
        match hs[|hs| - 1].run(before, ev) case Done(after) => Some(after) case Raised(_, _) => None
  }

  /** What an event commits is the composition, in registration order, of exactly the handlers that returned. */
  lemma {:induction false} CommitsTheSucceeding<D>(matches: (string, string) -> bool, hs: seq<Handler<D>>, n: nat, d: D, ev: Event)
    requires n <= |hs|
    ensures Composed(Succeeding(matches, hs, n, d, ev), d, ev) == Some(AfterHandlers(matches, hs, n, d, ev))
    ensures |Errors(matches, hs, n, d, ev)| + |Succeeding(matches, hs, n, d, ev)| == Matching(matches, hs, n, ev)
  {
    if n > 0 {
      CommitsTheSucceeding(matches, hs, n - 1, d, ev);
      var front := Succeeding(matches, hs, n - 1, d, ev);
      var all := front + [hs[n - 1]];
      assert all[..|all| - 1] == front;
    }
  }

  /** The names of the handlers among the first n that are called. */
  function Called<D>(matches: (string, string) -> bool, hs: seq<Handler<D>>, n: nat, kind: string): seq<string>
    requires n <= |hs|
  {
    if n == 0 then []
    else Called(matches, hs, n - 1, kind) + (if matches(hs[n - 1].pattern, kind) then [hs[n - 1].name] else [])
  }

  function Matching<D>(matches: (string, string) -> bool, hs: seq<Handler<D>>, n: nat, ev: Event): nat
    requires n <= |hs|
  {
    if n == 0 then 0 else Matching(matches, hs, n - 1, ev) + (if matches(hs[n - 1].pattern, ev.kind) then 1 else 0)
  }

  // ---- marking ---------------------------------------------------------------------------------

  function Marked(ev: Event, called: seq<string>, errors: seq<string>, now: Time, at: Time): Event {
    var tried := ev.(attempts := ev.attempts + 1, ran := ev.ran + called,
                     firstAt := if ev.firstAt.Some? then ev.firstAt else Some(now));
    if errors != [] && tried.attempts < MAX_ATTEMPTS then
      tried.(error := Some(Cut(Joined(errors))), nextAttemptAt := Some(at + BackoffAfter(tried.attempts)))
    else
      tried.(processedAt := Some(at), error := if errors != [] then Some(Cut(Joined(errors))) else None, nextAttemptAt := None)
  }

  /** The wait after the n-th attempt: half a minute, two minutes, ten, then half an hour. */
  function Wait(n: nat): Time {
    match n case 0 => 30 case 1 => 30 case 2 => 120 case 3 => 600 case _ => 1800
  }

  /** What one dispatch does to an event: after errors it is tried again, unless this was the fifth time; otherwise it is
      processed. The errors are kept, cut at 2000 characters. */
  predicate IsMarked(ev: Event, after: Event, called: seq<string>, errors: seq<string>, now: Time, at: Time) {
    && after.attempts == ev.attempts + 1
    && after.kind == ev.kind && after.happenedAt == ev.happenedAt && after.createdAt == ev.createdAt
    && after.ran == ev.ran + called && after.firstAt == (if ev.firstAt.Some? then ev.firstAt else Some(now))
    && (errors == [] ==> after.error.None?)
    && (errors != [] ==> after.error == Some(if |Joined(errors)| <= 2000 then Joined(errors) else Joined(errors)[..2000]))
    && (if errors != [] && ev.attempts < 4 then
          after.processedAt == ev.processedAt && after.nextAttemptAt == Some(at + Wait(ev.attempts + 1))
        else
          after.processedAt == Some(at) && after.nextAttemptAt.None?)
  }

  predicate DueNow(ev: Event, now: Time) {
    ev.processedAt.None? && (ev.nextAttemptAt.None? || ev.nextAttemptAt.value <= now)
  }

  type Events = map<EventId, Event>

  ghost predicate Known(events: Events, rows: seq<EventId>) {
    forall i :: 0 <= i < |rows| ==> rows[i] in events
  }

  /** What the SELECT may return: distinct due events. Which ones, and in which order, is left open. */
  ghost predicate Rows(events: Events, now: Time, rows: seq<EventId>) {
    && Known(events, rows)
    && (forall i, j :: 0 <= i < j < |rows| ==> rows[i] != rows[j])
    && (forall i :: 0 <= i < |rows| ==> DueNow(events[rows[i]], now))
  }

  /** The marking times never lie before the pass began. */
  predicate MarkedAfter(times: seq<Time>, now: Time) {
    forall i :: 0 <= i < |times| ==> now <= times[i]
  }

  datatype State<D> = State(data: D, events: Events)

  /** One pass over the first n rows. */
  ghost function AfterPass<D>(matches: (string, string) -> bool, hs: seq<Handler<D>>, rows: seq<EventId>, times: seq<Time>,
                              now: Time, n: nat, s: State<D>): (s': State<D>)
    requires n <= |rows| && n <= |times| && Known(s.events, rows)
    ensures s'.events.Keys == s.events.Keys
  {
    if n == 0 then s
    else
      var before := AfterPass(matches, hs, rows, times, now, n - 1, s);
      AfterRow(matches, hs, rows[n - 1], times[n - 1], now, before)
  }

  function AfterRow<D>(matches: (string, string) -> bool, hs: seq<Handler<D>>, id: EventId, at: Time, now: Time, s: State<D>): State<D>
    requires id in s.events
  {
    State(AfterHandlers(matches, hs, |hs|, s.data, s.events[id]),
          s.events[id := Marked(s.events[id], Called(matches, hs, |hs|, s.events[id].kind),
                                Errors(matches, hs, |hs|, s.data, s.events[id]), now, at)])
  }

  lemma NextRow<D>(matches: (string, string) -> bool, hs: seq<Handler<D>>, rows: seq<EventId>, times: seq<Time>,
                   now: Time, n: nat, s: State<D>)
    requires n < |rows| && n < |times| && Known(s.events, rows)
    ensures var before := AfterPass(matches, hs, rows, times, now, n, s);
      && rows[n] in before.events
      && AfterPass(matches, hs, rows, times, now, n + 1, s) == AfterRow(matches, hs, rows[n], times[n], now, before)
  {
  }

  class Table<D> {
    var data: D
    var events: Events

    constructor (d: D, evs: Events)
      ensures data == d && events == evs
    {
      data, events := d, evs;
    }

    /** The inner loop of dispatch_pending: every matching handler in its own savepoint. */
    method RunHandlers(matches: (string, string) -> bool, hs: seq<Handler<D>>, ev: Event) returns (called: seq<string>, errors: seq<string>)
      modifies this`data
      ensures called == Called(matches, hs, |hs|, ev.kind)
      ensures data == AfterHandlers(matches, hs, |hs|, old(data), ev)
      ensures errors == Errors(matches, hs, |hs|, old(data), ev)
    {
      called, errors := [], [];
      var i := 0;
      while i < |hs|
        invariant 0 <= i <= |hs|
        invariant called == Called(matches, hs, i, ev.kind)
        invariant data == AfterHandlers(matches, hs, i, old(data), ev)
        invariant errors == Errors(matches, hs, i, old(data), ev)
      {
        var h := hs[i];
        i := i + 1;
        if !matches(h.pattern, ev.kind) {
          continue;
        }
        called := called + [h.name];
        var savepoint := data;
        match h.run(data, ev) {
          case Done(after) =>
            data := after;
          case Raised(partial, message) =>
            data := partial;
            data := savepoint;
            errors := errors + [message];
        }
      }
    }

    /** One round of the outer loop: run the handlers, then mark the event. */
    method DispatchEvent(matches: (string, string) -> bool, hs: seq<Handler<D>>, id: EventId, now: Time, at: Time)
      requires id in events
      modifies this
      ensures State(data, events) == AfterRow(matches, hs, id, at, now, State(old(data), old(events)))
      ensures id in events
      ensures var ev := old(events)[id];
        IsMarked(ev, events[id], Called(matches, hs, |hs|, ev.kind), Errors(matches, hs, |hs|, old(data), ev), now, at)
      ensures events - {id} == old(events) - {id}
      ensures data == AfterHandlers(matches, hs, |hs|, old(data), old(events)[id])
    {
      var ev := events[id];
      var called, errors := RunHandlers(matches, hs, ev);
      ev := ev.(attempts := ev.attempts + 1, ran := ev.ran + called, firstAt := if ev.firstAt.Some? then ev.firstAt else Some(now));
      if errors != [] && ev.attempts < MAX_ATTEMPTS {
        ev := ev.(error := Some(Cut(Joined(errors))), nextAttemptAt := Some(at + BackoffAfter(ev.attempts)));
      } else {
        ev := ev.(processedAt := Some(at), error := if errors != [] then Some(Cut(Joined(errors))) else None,
                  nextAttemptAt := None);
      }
      events := events[id := ev];
    }

    /** dispatch_pending, on the rows its SELECT returned. */
    method DispatchPending(matches: (string, string) -> bool, hs: seq<Handler<D>>, rows: seq<EventId>, now: Time, times: seq<Time>)
      returns (n: nat)
      requires |times| == |rows| && Known(events, rows)
      modifies this
      ensures State(data, events) == AfterPass(matches, hs, rows, times, now, |rows|, State(old(data), old(events)))
      ensures n == |rows|
    {
      ghost var start := State(data, events);
      n := 0;
      while n < |rows|
        invariant 0 <= n <= |rows|
        invariant State(data, events) == AfterPass(matches, hs, rows, times, now, n, start)
      {
        NextRow(matches, hs, rows, times, now, n, start);
        DispatchEvent(matches, hs, rows[n], now, times[n]);
        n := n + 1;
      }
    }
  }

  // ---- over many passes ------------------------------------------------------------------------

  datatype Step<!D> =
    | Arrive(id: EventId, kind: string, happenedAt: Time, createdAt: Time)
    | Pass(matches: (string, string) -> bool, handlers: seq<Handler<D>>, rows: seq<EventId>, now: Time, times: seq<Time>)
    | Write(change: D -> D)     // any other transaction

  ghost predicate Enabled<D(!new)>(s: State<D>, step: Step<D>) {
    match step
    case Arrive(id, _, _, _) => id !in s.events
    case Pass(_, _, rows, now, times) => Rows(s.events, now, rows) && |times| == |rows| && MarkedAfter(times, now)
    case Write(_) => true
  }

  ghost function Next<D(!new)>(s: State<D>, step: Step<D>): State<D>
    requires Enabled(s, step)
  {
    match step
    case Arrive(id, kind, happened, created) =>
      s.(events := s.events[id := Event(kind, happened, created, None, None, 0, None, None, [])])
    case Pass(matches, hs, rows, now, times) =>
      AfterPass(matches, hs, rows, times, now, |rows|, s)
    case Write(change) => s.(data := change(s.data))
  }

  ghost predicate Valid<D(!new)>(s: State<D>, steps: seq<Step<D>>)
    decreases |steps|
  {
    steps == [] || (Enabled(s, steps[0]) && Valid(Next(s, steps[0]), steps[1..]))
  }

  ghost function Exec<D(!new)>(s: State<D>, steps: seq<Step<D>>): State<D>
    requires Valid(s, steps)
    decreases |steps|
  {
    if steps == [] then s else Exec(Next(s, steps[0]), steps[1..])
  }

  /** The delays a failing event has at least behind it after its k-th attempt. */
  function Delays(attempts: nat): Time {
    if attempts == 0 then 0 else Delays(attempts - 1) + BackoffAfter(attempts)
  }

  predicate EventOk(ev: Event) {
    && ev.attempts <= MAX_ATTEMPTS
    && (ev.processedAt.None? ==> ev.attempts < MAX_ATTEMPTS)
    && (ev.firstAt.Some? <==> ev.attempts > 0)
    && (ev.processedAt.None? && ev.attempts > 0 ==>
          ev.nextAttemptAt.Some? && ev.nextAttemptAt.value >= ev.firstAt.value + Delays(ev.attempts))
  }

  predicate Inv(events: Events) {
    forall id <- events :: EventOk(events[id])
  }

  lemma MarkedIsOk(ev: Event, called: seq<string>, errors: seq<string>, now: Time, at: Time)
    requires EventOk(ev) && DueNow(ev, now) && now <= at
    ensures EventOk(Marked(ev, called, errors, now, at))
  {
    assert Delays(ev.attempts + 1) == Delays(ev.attempts) + BackoffAfter(ev.attempts + 1);
  }

  /** The errors of the i-th row of a pass, at its turn. */
  ghost function ErrorsAt<D>(matches: (string, string) -> bool, hs: seq<Handler<D>>, rows: seq<EventId>, times: seq<Time>,
                             now: Time, i: nat, s: State<D>): seq<string>
    requires i < |rows| == |times| && Known(s.events, rows)
  {
    Errors(matches, hs, |hs|, AfterPass(matches, hs, rows, times, now, i, s).data, s.events[rows[i]])
  }

  /** A row leaves every other event as it is. */
  lemma NextRowLeaves<D>(matches: (string, string) -> bool, hs: seq<Handler<D>>, rows: seq<EventId>, times: seq<Time>,
                         now: Time, k: nat, s: State<D>, id: EventId)
    requires k < |rows| == |times| && Known(s.events, rows) && id in s.events && rows[k] != id
    ensures AfterPass(matches, hs, rows, times, now, k + 1, s).events[id] == AfterPass(matches, hs, rows, times, now, k, s).events[id]
  {
  }

  lemma {:induction false} ConstantRun<T>(vals: seq<T>, from: nat, n: nat)
    requires from <= n < |vals| && forall k :: from <= k < n ==> vals[k + 1] == vals[k]
    ensures vals[n] == vals[from]
    decreases n
  {
    if n > from {
      ConstantRun(vals, from, n - 1);
      assert vals[n - 1 + 1] == vals[n - 1];
    }
  }

  lemma MarkStays<D>(matches: (string, string) -> bool, hs: seq<Handler<D>>, rows: seq<EventId>, times: seq<Time>,
                     now: Time, n: nat, s: State<D>, from: nat, id: EventId)
    requires from <= n <= |rows| == |times| && Known(s.events, rows) && id in s.events
    requires forall k :: from <= k < n ==> rows[k] != id
    ensures AfterPass(matches, hs, rows, times, now, n, s).events[id] == AfterPass(matches, hs, rows, times, now, from, s).events[id]
  {
    var vals := seq(n + 1, k requires 0 <= k <= n => AfterPass(matches, hs, rows, times, now, k, s).events[id]);
    forall k | from <= k < n ensures vals[k + 1] == vals[k] {
      NextRowLeaves(matches, hs, rows, times, now, k, s, id);
    }
    ConstantRun(vals, from, n);
  }

  /** A row is marked when its turn comes, as it was when the pass began. */
  lemma LastRowIsMarked<D>(matches: (string, string) -> bool, hs: seq<Handler<D>>, rows: seq<EventId>, times: seq<Time>,
                           now: Time, i: nat, s: State<D>)
    requires i < |rows| == |times| && Rows(s.events, now, rows)
    ensures AfterPass(matches, hs, rows, times, now, i + 1, s).events[rows[i]] ==
      Marked(s.events[rows[i]], Called(matches, hs, |hs|, s.events[rows[i]].kind), ErrorsAt(matches, hs, rows, times, now, i, s), now, times[i])
  {
    PassLeavesOthers(matches, hs, rows, times, now, i, s, rows[i]);
  }

  lemma PassLeavesOthers<D>(matches: (string, string) -> bool, hs: seq<Handler<D>>, rows: seq<EventId>, times: seq<Time>,
                            now: Time, n: nat, s: State<D>, id: EventId)
    requires n <= |rows| == |times| && Known(s.events, rows) && id in s.events
    requires forall k :: 0 <= k < n ==> rows[k] != id
    ensures AfterPass(matches, hs, rows, times, now, n, s).events[id] == s.events[id]
  {
    MarkStays(matches, hs, rows, times, now, n, s, 0, id);
  }

  /** What a pass does to one event: each of its rows is marked once. */
  lemma StepMarksRow<D(!new)>(s: State<D>, step: Step<D>, i: nat)
    requires step.Pass? && Enabled(s, step) && i < |step.rows|
    ensures step.rows[i] in s.events && step.rows[i] in Next(s, step).events
    ensures var ev := s.events[step.rows[i]];
      Next(s, step).events[step.rows[i]] ==
        Marked(ev, Called(step.matches, step.handlers, |step.handlers|, ev.kind), Failures(s, step, i), step.now, step.times[i])
  {
    LastRowIsMarked(step.matches, step.handlers, step.rows, step.times, step.now, i, s);
    MarkStays(step.matches, step.handlers, step.rows, step.times, step.now, |step.rows|, s, i + 1, step.rows[i]);
  }

  /** The errors that a pass reports for its i-th row. */
  ghost function Failures<D(!new)>(s: State<D>, step: Step<D>, i: nat): seq<string>
    requires step.Pass? && Enabled(s, step) && i < |step.rows|
  {
    ErrorsAt(step.matches, step.handlers, step.rows, step.times, step.now, i, s)
  }

  lemma StepLeavesOthers<D(!new)>(s: State<D>, step: Step<D>, id: EventId)
    requires Enabled(s, step) && id in s.events && !Dispatches(step, id)
    ensures id in Next(s, step).events && Next(s, step).events[id] == s.events[id]
  {
    if step.Pass? {
      PassLeavesOthers(step.matches, step.handlers, step.rows, step.times, step.now, |step.rows|, s, id);
    }
  }

  lemma NextKeepsInv<D(!new)>(s: State<D>, step: Step<D>)
    requires Inv(s.events) && Enabled(s, step)
    ensures Inv(Next(s, step).events) && s.events.Keys <= Next(s, step).events.Keys
  {
    var evs := Next(s, step).events;
    if step.Pass? {
      forall id <- evs ensures EventOk(evs[id]) {
        if i :| 0 <= i < |step.rows| && step.rows[i] == id {
          StepMarksRow(s, step, i);
          MarkedIsOk(s.events[id], Called(step.matches, step.handlers, |step.handlers|, s.events[id].kind),
                     Failures(s, step, i), step.now, step.times[i]);
        } else {
          StepLeavesOthers(s, step, id);
        }
      }
    }
  }

  predicate Dispatches<D>(step: Step<D>, id: EventId) {
    step.Pass? && id in step.rows
  }

  function DispatchCount<D>(steps: seq<Step<D>>, id: EventId): nat {
    if steps == [] then 0 else (if Dispatches(steps[0], id) then 1 else 0) + DispatchCount(steps[1..], id)
  }

  lemma NextCountsDispatches<D(!new)>(s: State<D>, step: Step<D>, id: EventId)
    requires Enabled(s, step) && id in s.events
    ensures id in Next(s, step).events
    ensures Next(s, step).events[id].attempts == s.events[id].attempts + (if Dispatches(step, id) then 1 else 0)
    ensures !Dispatches(step, id) ==> Next(s, step).events[id] == s.events[id]
  {
    if Dispatches(step, id) {
      var i :| 0 <= i < |step.rows| && step.rows[i] == id;
      StepMarksRow(s, step, i);
    } else {
      StepLeavesOthers(s, step, id);
    }
  }

  lemma {:induction false} AttemptsCountDispatches<D(!new)>(s: State<D>, steps: seq<Step<D>>, id: EventId)
    requires Inv(s.events) && Valid(s, steps) && id in s.events
    ensures Inv(Exec(s, steps).events) && id in Exec(s, steps).events
    ensures Exec(s, steps).events[id].attempts == s.events[id].attempts + DispatchCount(steps, id)
    ensures DispatchCount(steps, id) == 0 ==> Exec(s, steps).events[id] == s.events[id]
    decreases |steps|
  {
    if steps != [] {
      NextKeepsInv(s, steps[0]);
      NextCountsDispatches(s, steps[0], id);
      AttemptsCountDispatches(Next(s, steps[0]), steps[1..], id);
    }
  }

  /** Over every run, from its arrival on, an event is dispatched at most five times, and is processed by then. */
  lemma AtMostFiveDispatches<D(!new)>(s: State<D>, steps: seq<Step<D>>, id: EventId)
    requires Inv(s.events) && Valid(s, steps) && id in s.events && s.events[id].attempts == 0
    ensures id in Exec(s, steps).events
    ensures DispatchCount(steps, id) == Exec(s, steps).events[id].attempts <= 5
    ensures DispatchCount(steps, id) == 5 ==> Exec(s, steps).events[id].processedAt.Some?
  {
    AttemptsCountDispatches(s, steps, id);
  }

  /** A retry waits out its backoff: after a failed attempt marked at `at`, whatever happens in between, the next
      pass that dispatches the event begins no earlier than at + backoff. */
  lemma NeverBeforeBackoff<D(!new)>(s: State<D>, pass: Step<D>, i: nat, between: seq<Step<D>>, again: Step<D>)
    requires Inv(s.events) && pass.Pass? && Enabled(s, pass) && i < |pass.rows|
    requires Valid(Next(s, pass), between) && DispatchCount(between, pass.rows[i]) == 0
    requires Enabled(Exec(Next(s, pass), between), again) && Dispatches(again, pass.rows[i])
    ensures again.now >= pass.times[i] + Wait(s.events[pass.rows[i]].attempts + 1)
  {
    var id := pass.rows[i];
    NextKeepsInv(s, pass);
    AttemptsCountDispatches(Next(s, pass), between, id);
    StepMarksRow(s, pass, i);
    var k :| 0 <= k < |again.rows| && again.rows[k] == id;
  }

  /** The last of five dispatches comes at least 2550 seconds after the first, and so on for the earlier ones. */
  lemma RetriesAreSpread<D(!new)>(s: State<D>, steps: seq<Step<D>>, id: EventId, pass: Step<D>)
    requires Inv(s.events) && Valid(s, steps) && id in s.events
    requires Enabled(Exec(s, steps), pass) && Dispatches(pass, id)
    ensures id in Exec(s, steps).events
    ensures var ev := Exec(s, steps).events[id];
      ev.firstAt.Some? ==> pass.now >= ev.firstAt.value + Delays(ev.attempts)
    ensures Delays(4) == 2550
  {
    AttemptsCountDispatches(s, steps, id);
    assert Delays(1) == 30 && Delays(2) == 150 && Delays(3) == 750;
    var k :| 0 <= k < |pass.rows| && pass.rows[k] == id;
  }

  // ---- a pass uses up attempts -----------------------------------------------------------------

  function Left(ev: Event): nat {
    if ev.processedAt.None? && ev.attempts <= MAX_ATTEMPTS then MAX_ATTEMPTS - ev.attempts else 0
  }

  /** The attempts that all unprocessed events have left. */
  ghost function Remaining(events: Events): nat {
    if events == map[] then 0
    else
      var id :| id in events;
      Left(events[id]) + Remaining(events - {id})
  }

  lemma {:induction false} RemainingSplit(events: Events, id: EventId)
    requires id in events
    ensures Remaining(events) == Left(events[id]) + Remaining(events - {id})
    decreases |events|
  {
    var k :| k in events && Remaining(events) == Left(events[k]) + Remaining(events - {k});
    if k != id {
      RemainingSplit(events - {k}, id);
      RemainingSplit(events - {id}, k);
      assert events - {k} - {id} == events - {id} - {k};
    }
  }

  lemma RemainingUpdate(events: Events, id: EventId, ev: Event)
    requires id in events
    ensures Remaining(events[id := ev]) == Remaining(events) - Left(events[id]) + Left(ev)
  {
    RemainingSplit(events, id);
    RemainingSplit(events[id := ev], id);
    assert events[id := ev] - {id} == events - {id};
  }

  predicate Retryable(ev: Event, now: Time) { DueNow(ev, now) && ev.attempts < MAX_ATTEMPTS }

  ghost predicate RowsRetryable(events: Events, now: Time, rows: seq<EventId>) {
    forall i :: 0 <= i < |rows| ==> rows[i] in events && Retryable(events[rows[i]], now)
  }

  lemma MarkingUsesAnAttempt(ev: Event, called: seq<string>, errors: seq<string>, now: Time, at: Time)
    requires Retryable(ev, now)
    ensures Left(Marked(ev, called, errors, now, at)) + 1 <= Left(ev)
  {
  }

  lemma LaterRowIsUntouched<D>(matches: (string, string) -> bool, hs: seq<Handler<D>>, rows: seq<EventId>, times: seq<Time>,
                               now: Time, n: nat, s: State<D>, before: State<D>)
    requires n < |rows| == |times| && Rows(s.events, now, rows) && before == AfterPass(matches, hs, rows, times, now, n, s)
    ensures before.events[rows[n]] == s.events[rows[n]]
  {
    PassLeavesOthers(matches, hs, rows, times, now, n, s, rows[n]);
  }

  /** A pass over n events uses up at least n of the attempts that are left. */
  lemma {:induction false} PassUsesAttempts<D>(matches: (string, string) -> bool, hs: seq<Handler<D>>, rows: seq<EventId>, times: seq<Time>,
                                               now: Time, n: nat, s: State<D>)
    requires n <= |rows| == |times| && Rows(s.events, now, rows) && RowsRetryable(s.events, now, rows)
    ensures Remaining(AfterPass(matches, hs, rows, times, now, n, s).events) + n <= Remaining(s.events)
  {
    if n > 0 {
      PassUsesAttempts(matches, hs, rows, times, now, n - 1, s);
      NextRowUsesAnAttempt(matches, hs, rows, times, now, n - 1, s);
    }
  }

  lemma NextRowUsesAnAttempt<D>(matches: (string, string) -> bool, hs: seq<Handler<D>>, rows: seq<EventId>, times: seq<Time>,
                                now: Time, n: nat, s: State<D>)
    requires n < |rows| == |times| && Rows(s.events, now, rows) && RowsRetryable(s.events, now, rows)
    ensures Remaining(AfterPass(matches, hs, rows, times, now, n + 1, s).events) + 1 <=
            Remaining(AfterPass(matches, hs, rows, times, now, n, s).events)
  {
    var before := AfterPass(matches, hs, rows, times, now, n, s);
    LaterRowIsUntouched(matches, hs, rows, times, now, n, s, before);
    RowUsesAnAttempt(matches, hs, rows[n], times[n], now, before);
  }

  lemma RowUsesAnAttempt<D>(matches: (string, string) -> bool, hs: seq<Handler<D>>, id: EventId, at: Time, now: Time, s: State<D>)
    requires id in s.events && Retryable(s.events[id], now)
    ensures Remaining(AfterRow(matches, hs, id, at, now, s).events) + 1 <= Remaining(s.events)
  {
    var errors := Errors(matches, hs, |hs|, s.data, s.events[id]);
    var called := Called(matches, hs, |hs|, s.events[id].kind);
    RemainingUpdate(s.events, id, Marked(s.events[id], called, errors, now, at));
    MarkingUsesAnAttempt(s.events[id], called, errors, now, at);
  }

  function Dispatched<D>(steps: seq<Step<D>>): nat {
    if steps == [] then 0 else (if steps[0].Pass? then |steps[0].rows| else 0) + Dispatched(steps[1..])
  }

  function Arrivals<D>(steps: seq<Step<D>>): nat {
    if steps == [] then 0 else (if steps[0].Arrive? then 1 else 0) + Arrivals(steps[1..])
  }

  /** Over every run: all dispatches together are paid for by the attempts left at the start and five per arrival. */
  lemma {:induction false} DispatchesAreBounded<D(!new)>(s: State<D>, steps: seq<Step<D>>)
    requires Inv(s.events) && Valid(s, steps)
    ensures Remaining(Exec(s, steps).events) + Dispatched(steps) <= Remaining(s.events) + 5 * Arrivals(steps)
    decreases |steps|
  {
    if steps != [] {
      var step := steps[0];
      NextKeepsInv(s, step);
      match step {
        case Arrive(id, kind, happened, created) =>
          var evs := Next(s, step).events;
          RemainingSplit(evs, id);
          assert evs - {id} == s.events;
        case Pass(matches, hs, rows, now, times) =>
          PassUsesAttempts(matches, hs, rows, times, now, |rows|, s);
        case Write(_) =>
      }
      DispatchesAreBounded(Next(s, step), steps[1..]);
    }
  }

  // ---- what a retry repeats --------------------------------------------------------------------

  function Count(names: seq<string>, name: string): nat {
    if names == [] then 0 else Count(names[..|names| - 1], name) + (if names[|names| - 1] == name then 1 else 0)
  }

  lemma {:induction false} CountAppend(a: seq<string>, b: seq<string>, name: string)
    ensures Count(a + b, name) == Count(a, name) + Count(b, name)
  {
    if b == [] {
      assert a + b == a;
    } else {
      CountAppend(a, b[..|b| - 1], name);
      assert (a + b)[..|a + b| - 1] == a + b[..|b| - 1];
    }
  }

  /** The handler is registered, under a pattern that matches the kind, once in every pass of the run. */
  predicate RegisteredIn<D>(step: Step<D>, kind: string, name: string) {
    step.Pass? ==> Count(Called(step.matches, step.handlers, |step.handlers|, kind), name) == 1
  }

  predicate Registered<D>(steps: seq<Step<D>>, kind: string, name: string) {
    forall k :: 0 <= k < |steps| ==> RegisteredIn(steps[k], kind, name)
  }

  lemma NextRunsHandler<D(!new)>(s: State<D>, step: Step<D>, id: EventId, name: string)
    requires Enabled(s, step) && id in s.events && RegisteredIn(step, s.events[id].kind, name)
    ensures id in Next(s, step).events && Next(s, step).events[id].kind == s.events[id].kind
    ensures Count(Next(s, step).events[id].ran, name) == Count(s.events[id].ran, name) + (if Dispatches(step, id) then 1 else 0)
  {
    if Dispatches(step, id) {
      var i :| 0 <= i < |step.rows| && step.rows[i] == id;
      StepMarksRow(s, step, i);
      CountAppend(s.events[id].ran, Called(step.matches, step.handlers, |step.handlers|, s.events[id].kind), name);
    } else {
      StepLeavesOthers(s, step, id);
    }
  }

  /** Every dispatch of an event runs every handler registered for it, those that succeeded before included. */
  lemma {:induction false} EveryDispatchRunsTheHandler<D(!new)>(s: State<D>, steps: seq<Step<D>>, id: EventId, name: string)
    requires Valid(s, steps) && id in s.events && Registered(steps, s.events[id].kind, name)
    ensures id in Exec(s, steps).events
    ensures Count(Exec(s, steps).events[id].ran, name) == Count(s.events[id].ran, name) + DispatchCount(steps, id)
    decreases |steps|
  {
    if steps != [] {
      assert RegisteredIn(steps[0], s.events[id].kind, name);
      NextRunsHandler(s, steps[0], id, name);
      forall k | 0 <= k < |steps[1..]| ensures RegisteredIn(steps[1..][k], s.events[id].kind, name) {
        assert steps[1..][k] == steps[k + 1];
      }
      EveryDispatchRunsTheHandler(Next(s, steps[0]), steps[1..], id, name);
    }
  }

  /** Over every run, no handler is run more than five times for an event. */
  lemma HandlerRunsAtMostFiveTimes<D(!new)>(s: State<D>, steps: seq<Step<D>>, id: EventId, name: string)
    requires Inv(s.events) && Valid(s, steps) && id in s.events && s.events[id].attempts == 0 && s.events[id].ran == []
    requires Registered(steps, s.events[id].kind, name)
    ensures id in Exec(s, steps).events && Count(Exec(s, steps).events[id].ran, name) <= 5
  {
    EveryDispatchRunsTheHandler(s, steps, id, name);
    AtMostFiveDispatches(s, steps, id);
  }

  /** A processed event is never dispatched again. */
  lemma {:induction false} ProcessedIsNotDispatched<D(!new)>(s: State<D>, steps: seq<Step<D>>, id: EventId)
    requires Valid(s, steps) && id in s.events && s.events[id].processedAt.Some?
    ensures DispatchCount(steps, id) == 0
    decreases |steps|
  {
    if steps != [] {
      assert !Dispatches(steps[0], id);
      StepLeavesOthers(s, steps[0], id);
      ProcessedIsNotDispatched(Next(s, steps[0]), steps[1..], id);
    }
  }

  /** Some continuation dispatches the event. */
  ghost predicate CanBeDispatched<D(!new)>(s: State<D>, id: EventId) {
    exists steps: seq<Step<D>> :: Valid(s, steps) && DispatchCount(steps, id) > 0
  }

  /** After a dispatch the event, and with it every handler, can be run again exactly when the dispatch reported errors and
      was not the fifth. */
  lemma RepeatedExactlyAfterErrors<D(!new)>(s: State<D>, pass: Step<D>, i: nat)
    requires Inv(s.events) && pass.Pass? && Enabled(s, pass) && i < |pass.rows|
    ensures CanBeDispatched(Next(s, pass), pass.rows[i]) <==>
      Failures(s, pass, i) != [] && s.events[pass.rows[i]].attempts + 1 < 5
  {
    var id := pass.rows[i];
    var s' := Next(s, pass);
    StepMarksRow(s, pass, i);
    if Failures(s, pass, i) != [] && s.events[id].attempts + 1 < MAX_ATTEMPTS {
      var now := s'.events[id].nextAttemptAt.value;
      var again := Pass(pass.matches, pass.handlers, [id], now, [now]);
      assert [again][1..] == [] && DispatchCount([again], id) == 1;
      assert Valid(s', [again]);
    } else {
      forall steps: seq<Step<D>> | Valid(s', steps) ensures DispatchCount(steps, id) == 0 {
        ProcessedIsNotDispatched(s', steps, id);
      }
    }
  }

  /** From its arrival on, a handler runs at most once for an event exactly when the first dispatch of the event reports no
      error, or no second one happens. */
  lemma RunsOnceExactlyUnlessRetried<D(!new)>(s: State<D>, before: seq<Step<D>>, pass: Step<D>, i: nat, after: seq<Step<D>>, name: string)
    requires Inv(s.events) && Valid(s, before) && pass.Pass? && Enabled(Exec(s, before), pass) && i < |pass.rows|
    requires Valid(Next(Exec(s, before), pass), after)
    requires var id := pass.rows[i];
      && id in s.events && s.events[id].attempts == 0 && s.events[id].ran == [] && DispatchCount(before, id) == 0
      && Registered(before, s.events[id].kind, name) && RegisteredIn(pass, s.events[id].kind, name)
      && Registered(after, s.events[id].kind, name)
    ensures pass.rows[i] in Exec(Next(Exec(s, before), pass), after).events
    ensures Count(Exec(Next(Exec(s, before), pass), after).events[pass.rows[i]].ran, name) <= 1 <==>
      Failures(Exec(s, before), pass, i) == [] || DispatchCount(after, pass.rows[i]) == 0
  {
    var id := pass.rows[i];
    var s1 := Exec(s, before);
    AttemptsCountDispatches(s, before, id);
    NextRunsHandler(s1, pass, id, name);
    EveryDispatchRunsTheHandler(Next(s1, pass), after, id, name);
    if Failures(s1, pass, i) == [] {
      StepMarksRow(s1, pass, i);
      ProcessedIsNotDispatched(Next(s1, pass), after, id);
    }
  }

  /** A counter that one handler increments is incremented twice when another one raises once. */
  lemma RetryRepeatsSucceededHandlers()
    ensures var count := Handler("count", "*", (d: int, ev: Event) => Done(d + 1));
      var fails := Handler("fails", "*", (d: int, ev: Event) => Raised(d + 100, "no"));
      var hs := [count, fails];
      var all := (p: string, k: string) => true;
      var ev := Event("mail", 0, 0, None, None, 0, None, None, []);
      var first := AfterRow(all, hs, "e", 0, 0, State(0, map["e" := ev]));
      first.events["e"].processedAt.None? && AfterRow(all, hs, "e", 30, 30, first).data == 2
  {
    var count := Handler("count", "*", (d: int, ev: Event) => Done(d + 1));
    var fails := Handler("fails", "*", (d: int, ev: Event) => Raised(d + 100, "no"));
    var hs := [count, fails];
    var all := (p: string, k: string) => true;
    var ev := Event("mail", 0, 0, None, None, 0, None, None, []);
    assert AfterHandlers(all, hs, 1, 0, ev) == 1;
    assert hs[1].run(1, ev) == Raised(101, "no");
    assert Errors(all, hs, 1, 0, ev) == [];
    assert Errors(all, hs, 2, 0, ev) == ["no"];
    var first := AfterRow(all, hs, "e", 0, 0, State(0, map["e" := ev]));
    assert first.data == 1;
    assert AfterHandlers(all, hs, 1, 1, first.events["e"]) == 2;
  }
}
