/** Trimming a checkpointed conversation so that it can still be resumed. */
module Trim {

  datatype Role = User | Assistant
  datatype Block = TextBlock(text: string) | ToolUse(id: string) | ToolResult(id: string) | OtherBlock
  datatype Content = PlainText(text: string) | Blocks(blocks: seq<Block>)
  datatype Message = Message(role: Role, content: Content)

  const CHECKPOINT_MESSAGES := 40

  /** _has_tool_result. */
  predicate HasToolResult(m: Message) {
    m.content.Blocks? && exists b <- m.content.blocks :: b.ToolResult?
  }

  function ResultIds(m: Message): set<string> {
    if m.content.Blocks? then set b <- m.content.blocks | b.ToolResult? :: b.id else {}
  }

  function UseIds(m: Message): set<string> {
    if m.content.Blocks? then set b <- m.content.blocks | b.ToolUse? :: b.id else {}
  }

  /** A message of the opening context. */
  predicate Opening(m: Message) {
    m.role == User && !HasToolResult(m)
  }

  /** The message answers exactly the tool calls of the assistant turn before it. */
  predicate Answers(result: Message, turn: Message) {
    result.role == User && turn.role == Assistant && ResultIds(result) == UseIds(turn)
  }

  /** A conversation that the model API accepts: it opens with the user, every tool call is answered by the next
      message, and every tool result answers the assistant turn before it. */
  predicate Valid(ms: seq<Message>) {
    && (ms != [] ==> Opening(ms[0]))
    && (forall i :: 0 <= i < |ms| && HasToolResult(ms[i]) ==> i > 0 && Answers(ms[i], ms[i - 1]))
    && (forall i :: 0 <= i < |ms| && UseIds(ms[i]) != {} ==>
          ms[i].role == Assistant && i + 1 < |ms| && HasToolResult(ms[i + 1]))
  }

  // ---- specification ---------------------------------------------------------------------------

  function HeadLength(ms: seq<Message>): (n: nat)
    ensures n <= |ms|
    ensures forall i :: 0 <= i < n ==> Opening(ms[i])
    ensures n < |ms| ==> !Opening(ms[n])
  {
    if ms == [] || !Opening(ms[0]) then 0 else 1 + HeadLength(ms[1..])
  }

  function DropResults(ms: seq<Message>): seq<Message> {
    if ms != [] && HasToolResult(ms[0]) then DropResults(ms[1..]) else ms
  }

  predicate Fits(head: nat, tail: nat, keep: int) {
    head + tail <= keep || tail <= 2
  }

  function TrimTail(tail: seq<Message>, head: nat, keep: int): seq<Message>
    decreases |tail|
  {
    if Fits(head, |tail|, keep) then tail
    else
      DropResultsLength(tail[1..]);
      TrimTail(DropResults(tail[1..]), head, keep)
  }

  lemma DropResultsLength(ms: seq<Message>)
    ensures |DropResults(ms)| <= |ms|
  {
  }

  function Trimmed(ms: seq<Message>, keep: int): seq<Message> {
    if |ms| <= keep then ms else ms[..HeadLength(ms)] + TrimTail(ms[HeadLength(ms)..], HeadLength(ms), keep)
  }

  /** trim_messages. */
  method TrimMessages(messages: seq<Message>, keep: int) returns (r: seq<Message>)
    ensures r == Trimmed(messages, keep)
    ensures |messages| <= keep ==> r == messages
  {
    var msgs := messages;
    if |msgs| <= keep {
      return msgs;
    }
    var head: seq<Message> := [];
    var i := 0;
    while i < |msgs| && Opening(msgs[i])
      invariant 0 <= i <= |msgs| && head == msgs[..i]
      invariant HeadLength(msgs) == i + HeadLength(msgs[i..])
    {
      assert msgs[i..][1..] == msgs[i + 1..];
      head := head + [msgs[i]];
      i := i + 1;
    }
    var tail := msgs[i..];
    while |head| + |tail| > keep && |tail| > 2
      invariant TrimTail(tail, |head|, keep) == TrimTail(msgs[i..], |head|, keep)
      decreases |tail|
    {
      ghost var rest := tail[1..];
      tail := tail[1..];
      while tail != [] && HasToolResult(tail[0])
        invariant DropResults(tail) == DropResults(rest) && |tail| <= |rest|
        decreases |tail|
      {
        tail := tail[1..];
      }
    }
    return head + tail;
  }

  // ---- what is dropped -------------------------------------------------------------------------

  /** A place in the tail where a whole turn begins, so that everything before it may go. */
  predicate CutPoint(tail: seq<Message>, c: nat) {
    c <= |tail| && (c == 0 || c == |tail| || !HasToolResult(tail[c]))
  }

  lemma {:induction false} DropResultsStopsAtTurn(ms: seq<Message>) returns (c: nat)
    ensures c <= |ms| && DropResults(ms) == ms[c..]
    ensures c < |ms| ==> !HasToolResult(ms[c])
    ensures forall i :: 0 <= i < c ==> HasToolResult(ms[i])
  {
    if ms != [] && HasToolResult(ms[0]) {
      var d := DropResultsStopsAtTurn(ms[1..]);
      c := d + 1;
      assert ms[1..][d..] == ms[c..];
      forall i | 0 <= i < c ensures HasToolResult(ms[i]) {
        assert i > 0 ==> ms[i] == ms[1..][i - 1];
      }
    } else {
      c := 0;
    }
  }

  /** Whole turns are dropped, and no more of them than needed: the cut is the first turn boundary that fits. */
  lemma {:induction false} TrimTailIsLeastCut(tail: seq<Message>, head: nat, keep: int) returns (c: nat)
    ensures CutPoint(tail, c) && TrimTail(tail, head, keep) == tail[c..]
    ensures Fits(head, |tail| - c, keep)
    ensures forall b: nat :: b < c && CutPoint(tail, b) ==> !Fits(head, |tail| - b, keep)
    decreases |tail|
  {
    if Fits(head, |tail|, keep) {
      c := 0;
    } else {
      var d := DropResultsStopsAtTurn(tail[1..]);
      assert tail[1..][d..] == tail[d + 1..];
      var e := TrimTailIsLeastCut(tail[d + 1..], head, keep);
      c := d + 1 + e;
      assert tail[d + 1..][e..] == tail[c..];
      forall i | 1 <= i <= d ensures HasToolResult(tail[i]) {
        assert tail[i] == tail[1..][i - 1];
      }
      forall b: nat | 0 < b < c && CutPoint(tail, b) ensures !Fits(head, |tail| - b, keep) {
        assert b >= d + 1;
        assert tail[b] == tail[d + 1..][b - (d + 1)];
        assert CutPoint(tail[d + 1..], b - (d + 1));
      }
    }
  }

  lemma ResultsSeen(m: Message)
    ensures HasToolResult(m) <==> ResultIds(m) != {}
  {
    if HasToolResult(m) {
      var b :| b in m.content.blocks && b.ToolResult?;
      assert b.id in ResultIds(m);
    }
  }

  /** A user message without tool results. */
  predicate SpeaksForUser(m: Message) { m.role == User && ResultIds(m) == {} }

  /** The result is the opening context (all user messages up to the first other one) plus the longest suffix that starts
      at a turn and fits: the messages from h up to c are gone, and at no earlier turn boundary would the rest have fitted. */
  lemma TrimKeepsContextAndSuffix(ms: seq<Message>, keep: int) returns (c: nat)
    requires |ms| > keep
    ensures var h := HeadLength(ms);
      && (forall i :: 0 <= i < h ==> SpeaksForUser(ms[i])) && (h < |ms| ==> !SpeaksForUser(ms[h]))
      && h <= c <= |ms|
      && Trimmed(ms, keep) == ms[..h] + ms[c..]
      && (c == h || c == |ms| || ResultIds(ms[c]) == {})
      && (h + |ms| - c <= keep || |ms| - c <= 2)
      && forall b :: h <= b < c && (b == h || ResultIds(ms[b]) == {}) ==> h + |ms| - b > keep && |ms| - b > 2
  {
    var h := HeadLength(ms);
    var d := TrimTailIsLeastCut(ms[h..], h, keep);
    c := h + d;
    assert ms[h..][d..] == ms[c..];
    forall m: Message ensures HasToolResult(m) <==> ResultIds(m) != {} { ResultsSeen(m); }
    forall b | h <= b < c && (b == h || ResultIds(ms[b]) == {}) ensures h + |ms| - b > keep && |ms| - b > 2 {
      assert ms[h..][b - h] == ms[b] && CutPoint(ms[h..], b - h);
    }
  }

  lemma TrimmedLength(ms: seq<Message>, keep: int)
    ensures |Trimmed(ms, keep)| <= keep || |Trimmed(ms, keep)| <= HeadLength(ms) + 2
  {
    if |ms| > keep {
      var c := TrimKeepsContextAndSuffix(ms, keep);
    }
  }

  // ---- validity --------------------------------------------------------------------------------

  /** What remains of a conversation after its messages from h up to c are dropped. */
  function Without(ms: seq<Message>, h: nat, c: nat): seq<Message>
    requires h <= c <= |ms|
  {
    ms[..h] + ms[c..]
  }

  lemma ResultsStayAnswered(ms: seq<Message>, h: nat, c: nat, i: nat)
    requires Valid(ms) && h <= c <= |ms| && i < |Without(ms, h, c)|
    requires forall k :: 0 <= k < h ==> Opening(ms[k])
    requires c == h || c == |ms| || !HasToolResult(ms[c])
    requires HasToolResult(Without(ms, h, c)[i])
    ensures i > 0 && Answers(Without(ms, h, c)[i], Without(ms, h, c)[i - 1])
  {
    assert i >= h;
    var j := c + (i - h);
    assert Without(ms, h, c)[i] == ms[j];
    assert i == h ==> c == h;
    assert j > 0 && Answers(ms[j], ms[j - 1]);
  }

  lemma UsesStayAnswered(ms: seq<Message>, h: nat, c: nat, i: nat)
    requires Valid(ms) && h <= c <= |ms| && i < |Without(ms, h, c)|
    requires forall k :: 0 <= k < h ==> Opening(ms[k])
    requires UseIds(Without(ms, h, c)[i]) != {}
    ensures Without(ms, h, c)[i].role == Assistant && i + 1 < |Without(ms, h, c)| && HasToolResult(Without(ms, h, c)[i + 1])
  {
    assert i >= h;
    var j := c + (i - h);
    assert Without(ms, h, c)[i] == ms[j];
    assert j + 1 < |ms| && HasToolResult(ms[j + 1]);
  }

  lemma DropKeepsValid(ms: seq<Message>, h: nat, c: nat)
    requires Valid(ms) && h <= c <= |ms| && (ms == [] || h > 0)
    requires forall k :: 0 <= k < h ==> Opening(ms[k])
    requires c == h || c == |ms| || !HasToolResult(ms[c])
    ensures Valid(Without(ms, h, c))
  {
    var r := Without(ms, h, c);
    forall i | 0 <= i < |r| && HasToolResult(r[i]) ensures i > 0 && Answers(r[i], r[i - 1]) {
      ResultsStayAnswered(ms, h, c, i);
    }
    forall i | 0 <= i < |r| && UseIds(r[i]) != {} ensures r[i].role == Assistant && i + 1 < |r| && HasToolResult(r[i + 1]) {
      UsesStayAnswered(ms, h, c, i);
    }
  }

  /** A valid conversation stays valid: no tool call and no tool result is orphaned, and it still opens with the user. */
  lemma TrimKeepsValid(ms: seq<Message>, keep: int)
    requires Valid(ms)
    ensures Valid(Trimmed(ms, keep))
    ensures ms != [] ==> Trimmed(ms, keep) != [] && Trimmed(ms, keep)[0] == ms[0]
  {
    if |ms| > keep {
      var c := TrimKeepsContextAndSuffix(ms, keep);
      if c < |ms| { ResultsSeen(ms[c]); }
      DropKeepsValid(ms, HeadLength(ms), c);
    }
  }

  // ---- idempotence -----------------------------------------------------------------------------

  lemma {:induction false} HeadLengthAppend(a: seq<Message>, b: seq<Message>)
    requires forall i :: 0 <= i < |a| ==> Opening(a[i])
    ensures HeadLength(a + b) == |a| + HeadLength(b)
  {
    if a == [] {
      assert a + b == b;
    } else {
      assert (a + b)[1..] == a[1..] + b;
      HeadLengthAppend(a[1..], b);
    }
  }

  lemma ShortTailStays(ms: seq<Message>, keep: int)
    requires |ms| <= HeadLength(ms) + 2
    ensures Trimmed(ms, keep) == ms
  {
    TrimTailKeeps(ms[HeadLength(ms)..], HeadLength(ms), keep);
  }

  lemma TrimTailKeeps(tail: seq<Message>, head: nat, keep: int)
    requires |tail| <= 2
    ensures TrimTail(tail, head, keep) == tail
  {
  }

  lemma TrimmedTailIsShort(ms: seq<Message>, keep: int)
    requires |ms| > keep && |Trimmed(ms, keep)| > keep
    ensures |Trimmed(ms, keep)| <= HeadLength(Trimmed(ms, keep)) + 2
  {
    var c := TrimKeepsContextAndSuffix(ms, keep);
    var h := HeadLength(ms);
    HeadLengthAppend(ms[..h], ms[c..]);
  }

  /** Trimming twice is trimming once, for every list of messages. */
  lemma TrimIsIdempotent(ms: seq<Message>, keep: int)
    ensures Trimmed(Trimmed(ms, keep), keep) == Trimmed(ms, keep)
  {
    if |ms| > keep && |Trimmed(ms, keep)| > keep {
      TrimmedTailIsShort(ms, keep);
      ShortTailStays(Trimmed(ms, keep), keep);
    }
  }
}
