/**
 The bounded model/tool loop of one run. The model is an arbitrary source of replies and tools are an arbitrary
 source of results: what happens in the n-th iteration is given by an environment function.
 */
module AgentLoop {
  import opened Wrappers
  import opened Trim

  type Key = string     // tool name and payload hash: identical calls have identical keys

  const MAX_IDENTICAL_FAILURES := 3

  /** How one tool use of an assistant turn ended. */
  datatype UseOutcome =
    | ControlStop                       // a control tool that stops the run
    | ControlInvalid                    // a control tool called with invalid input
    | Called(key: Key, isError: bool)   // a business tool

  datatype Reply =
    | ModelUnavailable
    | ModelRefused
    | Answer(blocks: seq<Block>, text: string, outcomes: seq<UseOutcome>)

  /** One iteration: the mission status and the clock on entry, the model's reply, and whether the lease still holds when
      this iteration writes the run. */
  datatype Turn = Turn(cancelled: bool, paused: bool, late: bool, reply: Reply, leaseKept: bool)

  datatype End =
    | CancelledRun | PausedRun | BudgetExhausted | Unavailable | Refused
    | StoppedByControl | RepeatedFailure(key: Key) | LeaseLost | Completed

  function ToolUses(blocks: seq<Block>): (uses: seq<string>)
    ensures forall id :: id in uses <==> exists b <- blocks :: b.ToolUse? && b.id == id
  {
    if blocks == [] then [] else (if blocks[0].ToolUse? then [blocks[0].id] else []) + ToolUses(blocks[1..])
  }

  /** Replies carry no tool results, and every tool use gets an outcome. */
  predicate WellFormed(reply: Reply) {
    reply.Answer? ==>
      |reply.outcomes| == |ToolUses(reply.blocks)| && forall b <- reply.blocks :: !b.ToolResult?
  }

  // ---- consecutive failures --------------------------------------------------------------------

  /** How often a call has failed since it last succeeded. */
  function Trailing(history: seq<UseOutcome>, key: Key): nat {
    if history == [] then 0
    else
      var front, last := history[..|history| - 1], history[|history| - 1];
      if !last.Called? || last.key != key then Trailing(front, key)
      else if last.isError then 1 + Trailing(front, key)
      else 0
  }

  /** The results of one call, oldest first: whether each was an error. */
  function Results(history: seq<UseOutcome>, key: Key): seq<bool> {
    if history == [] then []
    else
      var front, last := history[..|history| - 1], history[|history| - 1];
      Results(front, key) + if last.Called? && last.key == key then [last.isError] else []
  }

  /** The failures that are counted are the longest run of errors at the end of a call's results. */
  lemma {:induction false} TrailingIsLastRun(history: seq<UseOutcome>, key: Key)
    ensures var results, n := Results(history, key), Trailing(history, key);
      && n <= |results| && (forall i :: |results| - n <= i < |results| ==> results[i])
      && (n < |results| ==> !results[|results| - n - 1])
  {
    if history != [] {
      TrailingIsLastRun(history[..|history| - 1], key);
    }
  }

  function Count(failures: map<Key, nat>, key: Key): nat {
    if key in failures then failures[key] else 0
  }

  ghost predicate CountersMatch(failures: map<Key, nat>, history: seq<UseOutcome>) {
    forall key :: Count(failures, key) == Trailing(history, key)
  }

  ghost predicate AllAtMostThree(history: seq<UseOutcome>) {
    forall key :: Trailing(history, key) <= 3
  }

  /** The i-th outcome ends the run: a control tool said so, or an identical call failed for the fourth time in a row. */
  predicate StopsAt(history: seq<UseOutcome>, outcomes: seq<UseOutcome>, i: nat)
    requires i < |outcomes|
  {
    match outcomes[i]
    case ControlStop => true
    case ControlInvalid => false
    case Called(key, isError) =>
      isError && Trailing(history + outcomes[..i + 1], key) > MAX_IDENTICAL_FAILURES
  }

  predicate Stops(history: seq<UseOutcome>, outcomes: seq<UseOutcome>) {
    exists i :: 0 <= i < |outcomes| && StopsAt(history, outcomes, i)
  }

  lemma TrailingSnoc(history: seq<UseOutcome>, o: UseOutcome, key: Key)
    ensures Trailing(history + [o], key) == Counted(Trailing(history, key), o, key)
  {
    assert (history + [o])[..|history + [o]| - 1] == history;
  }

  /** As long as nothing stops the run, no call has failed more than three times in a row. */
  lemma {:induction false} ContinuingKeepsThree(history: seq<UseOutcome>, outcomes: seq<UseOutcome>)
    requires AllAtMostThree(history) && !Stops(history, outcomes)
    ensures AllAtMostThree(history + outcomes)
    decreases |outcomes|
  {
    if outcomes == [] {
      assert history + outcomes == history;
    } else {
      var n := |outcomes| - 1;
      var front, last := outcomes[..n], outcomes[n];
      forall i | 0 <= i < n ensures !StopsAt(history, front, i) {
        assert !StopsAt(history, outcomes, i) && front[..i + 1] == outcomes[..i + 1];
      }
      ContinuingKeepsThree(history, front);
      assert !StopsAt(history, outcomes, n) && outcomes[..n + 1] == outcomes;
      assert history + outcomes == history + front + [last];
      forall key ensures Trailing(history + outcomes, key) <= 3 {
        TrailingSnoc(history + front, last, key);
      }
    }
  }

  /** One more outcome after n failures of a call. */
  function Counted(n: nat, o: UseOutcome, key: Key): nat {
    if !o.Called? || o.key != key then n else if o.isError then 1 + n else 0
  }

  lemma TrailingAfter(history: seq<UseOutcome>, outcomes: seq<UseOutcome>, i: nat)
    requires i < |outcomes|
    ensures forall k :: Trailing(history + outcomes[..i + 1], k) == Counted(Trailing(history + outcomes[..i], k), outcomes[i], k)
  {
    assert history + outcomes[..i + 1] == history + outcomes[..i] + [outcomes[i]];
    forall k: Key {
      TrailingSnoc(history + outcomes[..i], outcomes[i], k);
    }
  }

  predicate NoRepeats(keys: seq<Key>) {
    forall i, j :: 0 <= i < j < |keys| ==> keys[i] != keys[j]
  }

  /** The counters after one more outcome. */
  function Recorded(failures: map<Key, nat>, o: UseOutcome): map<Key, nat> {
    if !o.Called? then failures
    else if o.isError then failures[o.key := Count(failures, o.key) + 1]
    else failures - {o.key}
  }

  lemma RecordedMatches(failures: map<Key, nat>, history: seq<UseOutcome>, outcomes: seq<UseOutcome>, i: nat)
    requires i < |outcomes| && CountersMatch(failures, history + outcomes[..i])
    ensures CountersMatch(Recorded(failures, outcomes[i]), history + outcomes[..i + 1])
  {
    TrailingAfter(history, outcomes, i);
    forall key ensures Count(Recorded(failures, outcomes[i]), key) == Trailing(history + outcomes[..i + 1], key) {
      assert Count(failures, key) == Trailing(history + outcomes[..i], key);
    }
  }

  function EndAt(o: UseOutcome): End {
    if o.Called? then RepeatedFailure(o.key) else StoppedByControl
  }

  /** The last of the first i outcomes that ends the run says how it ends. */
  predicate LastStop(history: seq<UseOutcome>, outcomes: seq<UseOutcome>, i: nat, stop: Option<End>)
    requires i <= |outcomes|
  {
    match stop
    case None => forall k :: 0 <= k < i ==> !StopsAt(history, outcomes, k)
    case Some(end) =>
      exists k :: 0 <= k < i && StopsAt(history, outcomes, k) && end == EndAt(outcomes[k]) &&
                  forall j :: k < j < i ==> !StopsAt(history, outcomes, j)
  }

  lemma LastStopStep(history: seq<UseOutcome>, outcomes: seq<UseOutcome>, i: nat, stop: Option<End>)
    requires i < |outcomes| && LastStop(history, outcomes, i, stop)
    ensures LastStop(history, outcomes, i + 1, if StopsAt(history, outcomes, i) then Some(EndAt(outcomes[i])) else stop)
  {
  }

  /** The i-th outcome is the third failure of the call in a row. */
  predicate ThirdFailure(history: seq<UseOutcome>, outcomes: seq<UseOutcome>, i: nat, key: Key)
    requires i < |outcomes|
  {
    outcomes[i] == Called(key, true) && Trailing(history + outcomes[..i + 1], key) == 3
  }

  /** An alternative is asked for exactly for the calls that fail for the third time in a row, unless it was before. */
  ghost predicate AskedExactly(history: seq<UseOutcome>, outcomes: seq<UseOutcome>, i: nat, known: set<Key>, requested: seq<Key>)
    requires i <= |outcomes|
  {
    forall key :: key in requested <==>
      key !in known && exists k :: 0 <= k < i && ThirdFailure(history, outcomes, k, key)
  }

  lemma AskedStep(history: seq<UseOutcome>, outcomes: seq<UseOutcome>, i: nat, known: set<Key>, requested: seq<Key>, more: seq<Key>)
    requires i < |outcomes| && AskedExactly(history, outcomes, i, known, requested)
    requires forall key :: key in more <==> key !in known && key !in requested && ThirdFailure(history, outcomes, i, key)
    ensures AskedExactly(history, outcomes, i + 1, known, requested + more)
  {
    forall key ensures key in requested + more <==>
      key !in known && exists k :: 0 <= k < i + 1 && ThirdFailure(history, outcomes, k, key)
    {
      if k :| 0 <= k < i && ThirdFailure(history, outcomes, k, key) {
        assert key in known || key in requested;
      }
    }
  }

  /** The tool results of one assistant turn: counts identical failures, asks for one alternative, then escalates. */
  method RunTools(outcomes: seq<UseOutcome>, failures0: map<Key, nat>, alternatives0: set<Key>, ghost history: seq<UseOutcome>)
      returns (failures: map<Key, nat>, alternatives: set<Key>, stop: Option<End>, ghost requested: seq<Key>)
    requires CountersMatch(failures0, history)
    ensures CountersMatch(failures, history + outcomes)
    ensures LastStop(history, outcomes, |outcomes|, stop)
    ensures stop.Some? <==> Stops(history, outcomes)
    ensures NoRepeats(requested) && AskedExactly(history, outcomes, |outcomes|, alternatives0, requested)
    ensures alternatives == alternatives0 + set k | k in requested
  {
    failures, alternatives, stop, requested := failures0, alternatives0, None, [];
    assert history + outcomes[..0] == history;
    for i := 0 to |outcomes|
      invariant CountersMatch(failures, history + outcomes[..i])
      invariant LastStop(history, outcomes, i, stop)
      invariant NoRepeats(requested) && AskedExactly(history, outcomes, i, alternatives0, requested)
      invariant alternatives == alternatives0 + set k | k in requested
    {
      TrailingAfter(history, outcomes, i);
      RecordedMatches(failures, history, outcomes, i);
      LastStopStep(history, outcomes, i, stop);
      ghost var more := [];
      match outcomes[i] {
        case ControlStop =>
          stop := Some(StoppedByControl);
        case ControlInvalid =>
        case Called(key, isError) =>
          if isError {
            var n := Count(failures, key) + 1;
            failures := failures[key := n];
            if n == MAX_IDENTICAL_FAILURES && key !in alternatives {
              alternatives := alternatives + {key};
              more := [key];
            } else if n > MAX_IDENTICAL_FAILURES {
              stop := Some(RepeatedFailure(key));
            }
          } else {
            failures := failures - {key};
          }
      }
      AskedStep(history, outcomes, i, alternatives0, requested, more);
      requested := requested + more;
    }
    assert outcomes[..|outcomes|] == outcomes;
  }

  // ---- the conversation ------------------------------------------------------------------------

  function ResultBlocks(uses: seq<string>): (blocks: seq<Block>)
    ensures forall b :: b in blocks <==> b.ToolResult? && b.id in uses
  {
    if uses == [] then [] else [ToolResult(uses[0])] + ResultBlocks(uses[1..])
  }

  function AssistantTurn(blocks: seq<Block>): Message { Message(Assistant, Blocks(blocks)) }

  /** Every tool result of a turn travels in one user message. */
  function ResultTurn(blocks: seq<Block>): Message { Message(User, Blocks(ResultBlocks(ToolUses(blocks)))) }

  lemma UseIdsOfTurn(blocks: seq<Block>)
    ensures UseIds(AssistantTurn(blocks)) == set id | id in ToolUses(blocks)
  {
    forall id ensures id in UseIds(AssistantTurn(blocks)) <==> id in ToolUses(blocks) {
      assert id in UseIds(AssistantTurn(blocks)) <==> exists b <- blocks :: b.ToolUse? && b.id == id;
    }
  }

  lemma ResultsAnswerTurn(blocks: seq<Block>)
    requires ToolUses(blocks) != [] && forall b <- blocks :: !b.ToolResult?
    ensures Answers(ResultTurn(blocks), AssistantTurn(blocks))
    ensures HasToolResult(ResultTurn(blocks)) && !HasToolResult(AssistantTurn(blocks))
    ensures UseIds(ResultTurn(blocks)) == {}
  {
    var r := ResultBlocks(ToolUses(blocks));
    var id := ToolUses(blocks)[0];
    assert id in ToolUses(blocks) && ToolResult(id) in r;
    UseIdsOfTurn(blocks);
    forall id ensures id in ResultIds(ResultTurn(blocks)) <==> id in ToolUses(blocks) {
      assert id in ResultIds(ResultTurn(blocks)) <==> ToolResult(id) in r;
    }
  }

  lemma StepKeepsConversationValid(ms: seq<Message>, blocks: seq<Block>)
    requires Valid(ms) && ms != [] && ToolUses(blocks) != [] && forall b <- blocks :: !b.ToolResult?
    ensures Valid(ms + [AssistantTurn(blocks), ResultTurn(blocks)])
  {
    ResultsAnswerTurn(blocks);
    var r := ms + [AssistantTurn(blocks), ResultTurn(blocks)];
    forall i | 0 <= i < |r| && HasToolResult(r[i]) ensures i > 0 && Answers(r[i], r[i - 1]) {
      if i < |ms| { assert r[i] == ms[i]; }
    }
    forall i | 0 <= i < |r| && UseIds(r[i]) != {} ensures r[i].role == Assistant && i + 1 < |r| && HasToolResult(r[i + 1]) {
      if i < |ms| { assert r[i] == ms[i] && r[i + 1] == ms[i + 1]; }
    }
  }

  lemma LastTurnKeepsConversationValid(ms: seq<Message>, m: Message)
    requires Valid(ms) && ms != [] && m.role == Assistant && UseIds(m) == {} && !HasToolResult(m)
    ensures Valid(ms + [m])
  {
    var r := ms + [m];
    forall i | 0 <= i < |r| && UseIds(r[i]) != {} ensures r[i].role == Assistant && i + 1 < |r| && HasToolResult(r[i + 1]) {
      assert r[i] == ms[i] && r[i + 1] == ms[i + 1];
    }
  }

  // ---- the loop --------------------------------------------------------------------------------

  function Flat(log: seq<seq<UseOutcome>>): seq<UseOutcome> {
    if log == [] then [] else Flat(log[..|log| - 1]) + log[|log| - 1]
  }

  /** The k-th completed step of this run ended it. */
  predicate StepStops(history: seq<UseOutcome>, log: seq<seq<UseOutcome>>, k: nat)
    requires k < |log|
  {
    Stops(history + Flat(log[..k]), log[k])
  }

  /** No completed step of this run ended it. */
  predicate NoStepStops(history: seq<UseOutcome>, log: seq<seq<UseOutcome>>) {
    forall k :: 0 <= k < |log| ==> !StepStops(history, log, k)
  }

  lemma LogSnoc(history: seq<UseOutcome>, log: seq<seq<UseOutcome>>, outcomes: seq<UseOutcome>)
    requires NoStepStops(history, log)
    ensures history + Flat(log + [outcomes]) == history + Flat(log) + outcomes
    ensures StepStops(history, log + [outcomes], |log|) <==> Stops(history + Flat(log), outcomes)
    ensures forall k :: 0 <= k < |log| ==> !StepStops(history, log + [outcomes], k)
    ensures !Stops(history + Flat(log), outcomes) ==> NoStepStops(history, log + [outcomes])
  {
    LongerHistory(history, log, outcomes);
    LastStepStops(history, log, outcomes);
    EarlierStepsDoNotStop(history, log, outcomes);
    if !Stops(history + Flat(log), outcomes) {
      NoStepOfLongerLogStops(history, log + [outcomes], |log|);
    }
  }

  lemma LongerHistory(history: seq<UseOutcome>, log: seq<seq<UseOutcome>>, outcomes: seq<UseOutcome>)
    ensures history + Flat(log + [outcomes]) == history + Flat(log) + outcomes
  {
    FlatSnoc(log, outcomes);
    assert history + (Flat(log) + outcomes) == history + Flat(log) + outcomes;
  }

  lemma NoStepOfLongerLogStops(history: seq<UseOutcome>, log: seq<seq<UseOutcome>>, n: nat)
    requires |log| == n + 1 && !StepStops(history, log, n)
    requires forall k :: 0 <= k < n ==> !StepStops(history, log, k)
    ensures NoStepStops(history, log)
  {
  }

  lemma LastStepStops(history: seq<UseOutcome>, log: seq<seq<UseOutcome>>, outcomes: seq<UseOutcome>)
    ensures StepStops(history, log + [outcomes], |log|) <==> Stops(history + Flat(log), outcomes)
  {
    assert (log + [outcomes])[..|log|] == log;
  }

  lemma EarlierStepsDoNotStop(history: seq<UseOutcome>, log: seq<seq<UseOutcome>>, outcomes: seq<UseOutcome>)
    requires NoStepStops(history, log)
    ensures forall k :: 0 <= k < |log| ==> !StepStops(history, log + [outcomes], k)
  {
    forall k | 0 <= k < |log| ensures !StepStops(history, log + [outcomes], k) {
      StepStopsPrefix(history, log, outcomes, k);
    }
  }

  lemma FlatSnoc(log: seq<seq<UseOutcome>>, outcomes: seq<UseOutcome>)
    ensures Flat(log + [outcomes]) == Flat(log) + outcomes
  {
    assert (log + [outcomes])[..|log|] == log;
  }

  lemma StepStopsPrefix(history: seq<UseOutcome>, log: seq<seq<UseOutcome>>, outcomes: seq<UseOutcome>, k: nat)
    requires k < |log|
    ensures StepStops(history, log + [outcomes], k) <==> StepStops(history, log, k)
  {
    assert (log + [outcomes])[..k] == log[..k] && (log + [outcomes])[k] == log[k];
  }

  function Max(a: int, b: int): int { if a < b then b else a }

  /** What a resumed run starts from. */
  datatype Checkpoint = Checkpoint(messages: seq<Message>, failures: map<Key, nat>, alternatives: set<Key>)

  /** The local variables of the loop and the stored row: its steps_used and checkpoint. */
  datatype Progress = Progress(steps: nat, stored: nat, messages: seq<Message>, checkpoint: Checkpoint,
                               failures: map<Key, nat>, alternatives: set<Key>)

  /** What a run starts from. */
  datatype Setup = Setup(maxSteps: int, stepsUsed: nat, alternatives: set<Key>, history: seq<UseOutcome>)

  /** What the run did: calls to the model, tool outcomes of each completed step, calls for which an alternative was asked. */
  datatype Trace = Trace(calls: nat, log: seq<seq<UseOutcome>>, requested: seq<Key>)

  predicate AlternativesOk(p: Progress, t: Trace, setup: Setup) {
    && NoRepeats(t.requested) && (forall k <- t.requested :: k !in setup.alternatives)
    && p.alternatives == setup.alternatives + set k | k in t.requested
  }

  /** The budget is respected by the steps taken, by the stored row and by the calls to the model. */
  predicate WithinBudget(p: Progress, t: Trace, setup: Setup) {
    && t.calls <= Max(0, setup.maxSteps - setup.stepsUsed)
    && |t.log| <= t.calls && setup.stepsUsed <= p.steps <= setup.stepsUsed + t.calls
    && p.stored <= p.steps
  }

  /** The loop may go round again. */
  ghost predicate LoopOk(p: Progress, t: Trace, setup: Setup) {
    && WithinBudget(p, t, setup)
    && p.steps == setup.stepsUsed + t.calls
    && Valid(p.messages) && p.messages != []
    && p.checkpoint == Checkpoint(if t.log == [] then p.messages else Trimmed(p.messages, 40), p.failures, p.alternatives)
    && CountersMatch(p.failures, setup.history + Flat(t.log))
    && (AllAtMostThree(setup.history) ==> AllAtMostThree(setup.history + Flat(t.log)))
    && NoStepStops(setup.history, t.log)
    && AlternativesOk(p, t, setup)
  }

  predicate ByTools(end: End) { end.StoppedByControl? || end.RepeatedFailure? }

  /** A run can be resumed from the checkpoint as if the steps in the log had just been taken. */
  ghost predicate CanResume(c: Checkpoint, history: seq<UseOutcome>, log: seq<seq<UseOutcome>>) {
    Valid(c.messages) && c.messages != [] && CountersMatch(c.failures, history + Flat(log))
  }

  /** The completed steps whose checkpoint is stored: all but the one in which the lease was lost. */
  function SavedSteps(end: End, t: Trace): seq<seq<UseOutcome>> {
    if end.LeaseLost? && t.log != [] then t.log[..|t.log| - 1] else t.log
  }

  /** The run has ended: only its last step stopped it, if any did, and the stored checkpoint can be resumed. */
  ghost predicate RunOk(end: End, p: Progress, t: Trace, setup: Setup) {
    && WithinBudget(p, t, setup)
    && CanResume(p.checkpoint, setup.history, SavedSteps(end, t))
    && CountersMatch(p.failures, setup.history + Flat(t.log))
    && (forall k :: 0 <= k < |t.log| - 1 ==> !StepStops(setup.history, t.log, k))
    && (t.log != [] && StepStops(setup.history, t.log, |t.log| - 1) ==> ByTools(end) || end.LeaseLost?)
    && (ByTools(end) ==> t.log != [] && StepStops(setup.history, t.log, |t.log| - 1))
    && AlternativesOk(p, t, setup)
  }

  /** _finish stores `out.steps or run.steps_used`, under the lease. */
  function Finished(p: Progress, leaseKept: bool): Progress {
    if leaseKept && p.steps != 0 then p.(stored := p.steps) else p
  }

  /** Leaving the loop without a completed step. */
  lemma EndOutsideStep(end: End, p: Progress, t: Trace, setup: Setup, leaseKept: bool, asked: bool)
    requires LoopOk(p, t, setup) && !ByTools(end) && !end.LeaseLost? && (asked ==> p.steps < setup.maxSteps)
    ensures RunOk(end, Finished(p, leaseKept), if asked then t.(calls := t.calls + 1) else t, setup)
  {
    TrimKeepsValid(p.messages, 40);
  }

  /** Either the state after the step is stored, its messages trimmed to 40, or the old checkpoint stays. */
  predicate IsSaved(p: Progress, q: Progress) {
    q.checkpoint == p.checkpoint || q.checkpoint == Checkpoint(Trimmed(q.messages, 40), q.failures, q.alternatives)
  }

  lemma AnswerEnds(p: Progress, t: Trace, setup: Setup, q: Progress)
    requires LoopOk(p, t, setup) && p.steps < setup.maxSteps
    requires q.steps == p.steps + 1 && (q.stored == q.steps || q.stored == p.stored) && IsSaved(p, q)
    requires Valid(q.messages) && q.messages != [] && q.failures == p.failures && q.alternatives == p.alternatives
    ensures RunOk(Completed, q, t.(calls := t.calls + 1), setup)
  {
    TrimKeepsValid(p.messages, 40);
    TrimKeepsValid(q.messages, 40);
  }

  /** The last assistant message, if the answer has any content. */
  method AppendAnswer(messages: seq<Message>, reply: Reply) returns (longer: seq<Message>)
    requires Valid(messages) && messages != []
    requires reply.Answer? && WellFormed(reply) && ToolUses(reply.blocks) == []
    ensures Valid(longer) && longer == messages + (
      if reply.blocks != [] then [AssistantTurn(reply.blocks)]
      else if reply.text != "" then [Message(Assistant, PlainText(reply.text))] else [])
  {
    longer := messages;
    if reply.blocks != [] {
      UseIdsOfTurn(reply.blocks);
      LastTurnKeepsConversationValid(messages, AssistantTurn(reply.blocks));
      longer := messages + [AssistantTurn(reply.blocks)];
    } else if reply.text != "" {
      var m := Message(Assistant, PlainText(reply.text));
      LastTurnKeepsConversationValid(messages, m);
      longer := messages + [m];
    }
  }

  /** An answer without tool calls: the clean end of the loop. */
  method CompleteRun(p: Progress, reply: Reply, leaseKept: bool, ghost t: Trace, ghost setup: Setup) returns (q: Progress)
    requires LoopOk(p, t, setup) && p.steps < setup.maxSteps
    requires reply.Answer? && WellFormed(reply) && ToolUses(reply.blocks) == []
    ensures RunOk(Completed, q, t.(calls := t.calls + 1), setup)
    ensures q.steps == p.steps + 1 && q.stored == (if leaseKept then q.steps else p.stored)
    ensures q.failures == p.failures && q.alternatives == p.alternatives
    ensures reply.blocks != [] ==> q.messages == p.messages + [Message(Assistant, Blocks(reply.blocks))]
    ensures reply.blocks == [] && reply.text != "" ==> q.messages == p.messages + [Message(Assistant, PlainText(reply.text))]
    ensures reply.blocks == [] && reply.text == "" ==> q.messages == p.messages
    ensures q.checkpoint == if leaseKept then Checkpoint(Trimmed(q.messages, 40), p.failures, p.alternatives) else p.checkpoint
  {
    var messages := AppendAnswer(p.messages, reply);
    q := p.(steps := p.steps + 1, messages := messages);
    if leaseKept {
      TrimKeepsValid(messages, CHECKPOINT_MESSAGES);
      var checkpoint := TrimMessages(messages, CHECKPOINT_MESSAGES);
      q := q.(checkpoint := Checkpoint(checkpoint, q.failures, q.alternatives), stored := q.steps);
    }
    AnswerEnds(p, t, setup, q);
  }

  lemma RequestsStayDistinct(p: Progress, t: Trace, setup: Setup, asked: seq<Key>, q: Progress, u: Trace)
    requires AlternativesOk(p, t, setup)
    requires NoRepeats(asked) && (forall k <- asked :: k !in p.alternatives)
    requires q.alternatives == p.alternatives + set k | k in asked
    requires u.requested == t.requested + asked
    ensures AlternativesOk(q, u, setup)
  {
    forall i, j | 0 <= i < j < |u.requested| ensures u.requested[i] != u.requested[j] {
      assert i < |t.requested| ==> t.requested[i] in p.alternatives;
    }
  }

  /** q and u are p and t after one more step with these outcomes. */
  ghost predicate OneMoreStep(p: Progress, t: Trace, setup: Setup, outcomes: seq<UseOutcome>, q: Progress, u: Trace) {
    && q.steps == p.steps + 1 && u.calls == t.calls + 1 && u.log == t.log + [outcomes]
    && (q.stored == q.steps || q.stored == p.stored)
    && Valid(q.messages) && q.messages != []
    && CountersMatch(q.failures, setup.history + Flat(t.log) + outcomes)
    && AlternativesOk(q, u, setup)
  }

  lemma StepContinues(p: Progress, t: Trace, setup: Setup, outcomes: seq<UseOutcome>, q: Progress, u: Trace)
    requires LoopOk(p, t, setup) && p.steps < setup.maxSteps && OneMoreStep(p, t, setup, outcomes, q, u)
    requires q.checkpoint == Checkpoint(Trimmed(q.messages, 40), q.failures, q.alternatives)
    requires !Stops(setup.history + Flat(t.log), outcomes)
    ensures LoopOk(q, u, setup)
  {
    LogSnoc(setup.history, t.log, outcomes);
    if AllAtMostThree(setup.history) { ContinuingKeepsThree(setup.history + Flat(t.log), outcomes); }
  }

  lemma StepEnds(p: Progress, t: Trace, setup: Setup, outcomes: seq<UseOutcome>, q: Progress, u: Trace, end: End)
    requires LoopOk(p, t, setup) && p.steps < setup.maxSteps && OneMoreStep(p, t, setup, outcomes, q, u)
    requires if end.LeaseLost? then q.checkpoint == p.checkpoint
             else q.checkpoint == Checkpoint(Trimmed(q.messages, 40), q.failures, q.alternatives)
    requires end.LeaseLost? || (ByTools(end) && Stops(setup.history + Flat(t.log), outcomes))
    ensures RunOk(end, q, u, setup)
  {
    LogSnoc(setup.history, t.log, outcomes);
    TrimKeepsValid(p.messages, 40);
    TrimKeepsValid(q.messages, 40);
    assert (t.log + [outcomes])[..|t.log|] == t.log;
  }

  /** An answer with tool calls: one completed step, checkpointed under the lease. */
  method CompleteStep(p: Progress, reply: Reply, leaseKept: bool, ghost t: Trace, ghost setup: Setup)
      returns (end: Option<End>, q: Progress, ghost u: Trace)
    requires LoopOk(p, t, setup) && p.steps < setup.maxSteps
    requires reply.Answer? && WellFormed(reply) && ToolUses(reply.blocks) != []
    ensures end.None? ==> LoopOk(q, u, setup)
    ensures end.Some? ==> RunOk(end.value, q, u, setup)
    ensures u.calls == t.calls + 1 && u.log == t.log + [reply.outcomes]
    ensures q.steps == p.steps + 1 && q.stored == (if leaseKept then q.steps else p.stored)
    ensures q.messages == p.messages + [AssistantTurn(reply.blocks), ResultTurn(reply.blocks)]
    ensures q.checkpoint == if leaseKept then Checkpoint(Trimmed(q.messages, 40), q.failures, q.alternatives) else p.checkpoint
    ensures end == Some(LeaseLost) <==> !leaseKept
    ensures leaseKept ==> (end.Some? <==> Stops(setup.history + Flat(t.log), reply.outcomes))
    ensures end.Some? ==> ByTools(end.value) || end.value.LeaseLost?
  {
    ghost var before := setup.history + Flat(t.log);
    var failures, alternatives, stop, asked := RunTools(reply.outcomes, p.failures, p.alternatives, before);
    u := Trace(t.calls + 1, t.log + [reply.outcomes], t.requested + asked);
    StepKeepsConversationValid(p.messages, reply.blocks);
    var messages := p.messages + [AssistantTurn(reply.blocks), ResultTurn(reply.blocks)];
    q := p.(steps := p.steps + 1, messages := messages, failures := failures, alternatives := alternatives);
    RequestsStayDistinct(p, t, setup, asked, q, u);
    if !leaseKept {
      StepEnds(p, t, setup, reply.outcomes, q, u, LeaseLost);
      return Some(LeaseLost), q, u;
    }
    TrimKeepsValid(messages, CHECKPOINT_MESSAGES);
    var checkpoint := TrimMessages(messages, CHECKPOINT_MESSAGES);
    q := q.(checkpoint := Checkpoint(checkpoint, failures, alternatives), stored := q.steps);
    RequestsStayDistinct(p, t, setup, asked, q, u);
    if stop.None? {
      StepContinues(p, t, setup, reply.outcomes, q, u);
    } else {
      StepEnds(p, t, setup, reply.outcomes, q, u, stop.value);
    }
    return stop, q, u;
  }

  /** The checks at the top of the loop. */
  function EndBeforeModel(turn: Turn, steps: nat, maxSteps: int): Option<End> {
    if turn.cancelled then Some(CancelledRun)
    else if turn.paused then Some(PausedRun)
    else if steps >= maxSteps || turn.late then Some(BudgetExhausted)
    else None
  }

  /** The model is called in this round. */
  predicate Asks(turn: Turn, steps: nat, maxSteps: int) {
    !turn.cancelled && !turn.paused && !turn.late && steps < maxSteps
  }

  /** One round of the loop. */
  method Round(p: Progress, turn: Turn, maxSteps: int, ghost t: Trace, ghost setup: Setup)
      returns (end: Option<End>, q: Progress, ghost u: Trace)
    requires LoopOk(p, t, setup) && maxSteps == setup.maxSteps && WellFormed(turn.reply)
    ensures end.None? ==> LoopOk(q, u, setup) && q.steps == p.steps + 1 && q.steps <= maxSteps
    ensures end.Some? ==> RunOk(end.value, q, u, setup) && p.steps <= q.steps <= Max(p.steps, maxSteps)
    ensures end == Some(CancelledRun) <==> turn.cancelled
    ensures end == Some(PausedRun) <==> !turn.cancelled && turn.paused
    ensures end == Some(BudgetExhausted) <==> !turn.cancelled && !turn.paused && (p.steps >= maxSteps || turn.late)
    ensures end == Some(Unavailable) <==> Asks(turn, p.steps, maxSteps) && turn.reply.ModelUnavailable?
    ensures end == Some(Refused) <==> Asks(turn, p.steps, maxSteps) && turn.reply.ModelRefused?
    ensures end == Some(Completed) <==> Asks(turn, p.steps, maxSteps) && turn.reply.Answer? && ToolUses(turn.reply.blocks) == []
    ensures end.Some? && (ByTools(end.value) || end.value.LeaseLost?) ==> u.log == t.log + [turn.reply.outcomes]
    ensures u.calls == t.calls + if Asks(turn, p.steps, maxSteps) then 1 else 0
    ensures !Asks(turn, p.steps, maxSteps) || !turn.reply.Answer? ==>
      q == p.(stored := if turn.leaseKept && p.steps > 0 then p.steps else p.stored)
  {
    end, q, u := EndBeforeModel(turn, p.steps, maxSteps), p, t;
    if end.Some? {
      EndOutsideStep(end.value, p, t, setup, turn.leaseKept, false);
      q := Finished(p, turn.leaseKept);
    } else if !turn.reply.Answer? {
      end := Some(if turn.reply.ModelUnavailable? then Unavailable else Refused);
      EndOutsideStep(end.value, p, t, setup, turn.leaseKept, true);
      q, u := Finished(p, turn.leaseKept), t.(calls := t.calls + 1);
    } else if ToolUses(turn.reply.blocks) == [] {
      q := CompleteRun(p, turn.reply, turn.leaseKept, t, setup);
      end, u := Some(Completed), t.(calls := t.calls + 1);
    } else {
      end, q, u := CompleteStep(p, turn.reply, turn.leaseKept, t, setup);
    }
  }

  /** execute_run: at most maxSteps - stepsUsed model calls, whatever the model, the tools and other workers do. */
  method ExecuteRun(maxSteps: int, stepsUsed: nat, messages: seq<Message>, failures: map<Key, nat>, alternatives: set<Key>,
                    env: nat -> Turn, ghost history: seq<UseOutcome>)
      returns (end: End, p: Progress, ghost t: Trace)
    requires Valid(messages) && messages != []
    requires CountersMatch(failures, history)
    requires forall n :: WellFormed(env(n).reply)
    ensures RunOk(end, p, t, Setup(maxSteps, stepsUsed, alternatives, history))
    ensures p.steps <= Max(stepsUsed, maxSteps)
    ensures end.CancelledRun? ==> exists n :: env(n).cancelled
    ensures end.PausedRun? ==> exists n :: env(n).paused && !env(n).cancelled
    ensures end.BudgetExhausted? ==> p.steps >= maxSteps || exists n :: env(n).late
  {
    ghost var setup := Setup(maxSteps, stepsUsed, alternatives, history);
    p := Progress(stepsUsed, stepsUsed, messages, Checkpoint(messages, failures, alternatives), failures, alternatives);
    t := Trace(0, [], []);
    assert history + Flat([]) == history;
    var n: nat := 0;
    while true
      invariant LoopOk(p, t, setup) && p.steps <= Max(stepsUsed, maxSteps)
      decreases maxSteps - p.steps
    {
      var turn := env(n);
      var stop: Option<End>, q: Progress;
      ghost var u: Trace;
      stop, q, u := Round(p, turn, maxSteps, t, setup);
      if stop.Some? {
        assert stop == Some(BudgetExhausted) ==> p.steps >= maxSteps || env(n).late;
        assert stop == Some(CancelledRun) ==> env(n).cancelled;
        assert stop == Some(PausedRun) ==> env(n).paused && !env(n).cancelled;
        return stop.value, q, u;
      }
      p, t, n := q, u, n + 1;
    }
  }
}
