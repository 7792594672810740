/** The progress feed of a mission: updates numbered by a cursor, of which the newest 300 are kept for pollers. */
module Updates {
  const KEPT := 300
  const TEXT_LIMIT := 1000

  datatype Row = Row(number: nat, state: string, text: string)

  /** What a caller reports. */
  datatype Report = Report(state: string, text: string)

  function Truncated(text: string): string { if |text| > TEXT_LIMIT then text[..TEXT_LIMIT] else text }

  /** The updates since the mission was created, numbered from one. */
  function Numbered(reports: seq<Report>): (rows: seq<Row>)
    ensures |rows| == |reports|
  {
    seq(|reports|, i requires 0 <= i < |reports| => Row(i + 1, reports[i].state, Truncated(reports[i].text)))
  }

  /** rows[-300:]. */
  function Newest(rows: seq<Row>): seq<Row> {
    if |rows| > KEPT then rows[|rows| - KEPT..] else rows
  }

  class Feed {
    var cursor: nat
    var rows: seq<Row>
    ghost var reports: seq<Report>      // everything ever reported

    ghost predicate Valid()
      reads this
    {
      cursor == |reports| && rows == Newest(Numbered(reports))
    }

    constructor ()
      ensures Valid() && reports == []
    {
      cursor, rows, reports := 0, [], [];
    }

    /** add_update. */
    method AddUpdate(state: string, text: string) returns (row: Row)
      requires Valid()
      modifies this
      ensures Valid() && reports == old(reports) + [Report(state, text)]
      ensures row == Numbered(reports)[|reports| - 1]
      ensures row.number == cursor == old(cursor) + 1 && row.state == state
      ensures row.text == if |text| <= 1000 then text else text[..1000]
      ensures rows == (if |old(rows)| < 300 then old(rows) else old(rows)[1..]) + [row]
    {
      cursor := cursor + 1;
      row := Row(cursor, state, Truncated(text));
      rows := Newest(rows + [row]);
      reports := reports + [Report(state, text)];
      NewestOfAppended(Numbered(reports[..|reports| - 1]), row);
      assert Numbered(reports) == Numbered(reports[..|reports| - 1]) + [row];
      assert reports[..|reports| - 1] == old(reports);
    }

    /** updates_since. */
    method UpdatesSince(seen: nat) returns (out: seq<Row>)
      requires Valid()
      ensures out == Since(rows, seen)
      ensures forall row :: row in out <==> row in rows && row.number > seen
    {
      out := [];
      var i := 0;
      while i < |rows|
        invariant 0 <= i <= |rows|
        invariant out == Since(rows[..i], seen)
      {
        if rows[i].number > seen {
          out := out + [rows[i]];
        }
        i := i + 1;
        assert rows[..i][..i - 1] == rows[..i - 1];
      }
      assert rows[..|rows|] == rows;
      SinceIsLater(rows, seen);
    }
  }

  lemma NewestOfAppended(rows: seq<Row>, row: Row)
    ensures Newest(Newest(rows) + [row]) == Newest(rows + [row])
  {
  }

  /** The rows a poller that has seen everything up to number `seen` is given. */
  function Since(rows: seq<Row>, seen: nat): seq<Row> {
    if rows == [] then []
    else Since(rows[..|rows| - 1], seen) + (if rows[|rows| - 1].number > seen then [rows[|rows| - 1]] else [])
  }

  lemma {:induction false} SinceIsLater(rows: seq<Row>, seen: nat)
    ensures forall row :: row in Since(rows, seen) <==> row in rows && row.number > seen
  {
    if rows != [] {
      var front, last := rows[..|rows| - 1], rows[|rows| - 1];
      SinceIsLater(front, seen);
      assert rows == front + [last];
    }
  }

  function After(rows: seq<Row>, seen: nat, first: nat): seq<Row> {
    if seen < first then rows else if seen - first + 1 <= |rows| then rows[seen - first + 1..] else []
  }

  predicate Consecutive(rows: seq<Row>, first: nat) {
    forall i :: 0 <= i < |rows| ==> rows[i].number == first + i
  }

  lemma AfterSnoc(front: seq<Row>, row: Row, seen: nat, first: nat)
    requires row.number == first + |front|
    ensures After(front + [row], seen, first) == After(front, seen, first) + (if row.number > seen then [row] else [])
  {
    if first <= seen && seen - first + 1 <= |front| {
      assert (front + [row])[seen - first + 1..] == front[seen - first + 1..] + [row];
    }
  }

  lemma SinceSnoc(front: seq<Row>, row: Row, seen: nat)
    ensures Since(front + [row], seen) == Since(front, seen) + (if row.number > seen then [row] else [])
  {
    assert (front + [row])[..|front|] == front;
  }

  lemma {:induction false} SinceOfConsecutive(rows: seq<Row>, seen: nat, first: nat)
    requires Consecutive(rows, first)
    ensures Since(rows, seen) == After(rows, seen, first)
    decreases |rows|
  {
    if rows != [] {
      var front, last := rows[..|rows| - 1], rows[|rows| - 1];
      assert rows == front + [last];
      SinceOfConsecutive(front, seen, first);
      AfterSnoc(front, last, seen, first);
      SinceSnoc(front, last, seen);
    }
  }

  /** A poll after the updates in `reports` returns the updates after `seen` that are among the newest 300, in order. */
  lemma PollReturnsTheNewest(reports: seq<Report>, seen: nat)
    requires seen <= |reports|
    ensures Since(Newest(Numbered(reports)), seen) ==
      Numbered(reports)[if seen + 300 < |reports| then |reports| - 300 else seen..]
  {
    var first := if |reports| > KEPT then |reports| - KEPT + 1 else 1;
    SinceOfConsecutive(Newest(Numbered(reports)), seen, first);
  }

  /** Exactly when no more than 300 updates came since its last poll does a poller get all of them. */
  lemma PollIsComplete(reports: seq<Report>, seen: nat)
    requires seen <= |reports|
    ensures Since(Newest(Numbered(reports)), seen) == Numbered(reports)[seen..] <==> |reports| <= seen + 300
  {
    PollReturnsTheNewest(reports, seen);
  }

  /** A poller that polls after polls[0], polls[1], ... updates, each time from the cursor of its last poll. */
  function Collected(reports: seq<Report>, polls: seq<nat>): seq<Row>
    requires forall i :: 0 <= i < |polls| ==> polls[i] <= |reports|
  {
    if polls == [] then []
    else
      var n := |polls| - 1;
      Collected(reports, polls[..n]) + Since(Newest(Numbered(reports[..polls[n]])), Cursor(polls[..n]))
  }

  /** The cursor a poller holds after its last poll. */
  function Cursor(polls: seq<nat>): nat { if polls == [] then 0 else polls[|polls| - 1] }

  predicate KeepsUp(polls: seq<nat>) {
    forall i :: 0 <= i < |polls| ==> polls[i] <= Cursor(polls[..i]) + 300
  }

  predicate Ordered(polls: seq<nat>, limit: nat) {
    && (forall i :: 0 <= i < |polls| ==> Cursor(polls[..i]) <= polls[i])
    && (forall i :: 0 <= i < |polls| ==> polls[i] <= limit)
  }

  lemma PollsSnoc(polls: seq<nat>, limit: nat)
    requires polls != [] && Ordered(polls, limit)
    ensures Ordered(polls[..|polls| - 1], limit) && Cursor(polls[..|polls| - 1]) <= polls[|polls| - 1] <= limit
    ensures KeepsUp(polls) <==> KeepsUp(polls[..|polls| - 1]) && polls[|polls| - 1] <= Cursor(polls[..|polls| - 1]) + KEPT
  {
    var n := |polls| - 1;
    forall i | 0 <= i <= n ensures polls[..n][..i] == polls[..i] {}
    assert forall i :: 0 <= i < n ==> polls[..n][i] == polls[i] && polls[..n][..i] == polls[..i];
    assert KeepsUp(polls) ==> forall i :: 0 <= i < n ==> polls[..n][i] <= Cursor(polls[..i]) + KEPT;
    if KeepsUp(polls[..n]) && polls[n] <= Cursor(polls[..n]) + KEPT {
      forall i | 0 <= i < |polls| ensures polls[i] <= Cursor(polls[..i]) + KEPT {
        if i < n { assert polls[..n][i] <= Cursor(polls[..n][..i]) + KEPT; }
      }
    }
  }

  lemma PrefixExtends<T>(all: seq<T>, before: seq<T>, from: nat, seen: nat, now: nat)
    requires |before| <= seen <= now <= |all| && seen <= from <= now
    ensures before + all[from..now] == all[..now] <==> before == all[..seen] && from == seen
  {
    var whole := before + all[from..now];
    if whole == all[..now] {
      assert |whole| == |before| + now - from;
      assert whole[..seen] == before;
      assert all[..now][..seen] == all[..seen];
    }
  }

  function Oldest(seen: nat, now: nat): nat { if seen + 300 < now then now - 300 else seen }

  /** A poll returns a stretch of the updates that ends at the newest. */
  lemma PollIsAStretch(reports: seq<Report>, seen: nat, now: nat)
    requires seen <= now <= |reports|
    ensures Since(Newest(Numbered(reports[..now])), seen) == Numbered(reports)[Oldest(seen, now)..now]
  {
    PollReturnsTheNewest(reports[..now], seen);
    var lo := Oldest(seen, now);
    var all := Numbered(reports);
    assert Numbered(reports[..now]) == all[..now];
    assert all[..now][lo..] == all[lo..now];
  }

  /** A poller sees every update exactly once, in order, exactly when it never falls more than 300 updates behind. */
  lemma {:induction false} PollerSeesEverything(reports: seq<Report>, polls: seq<nat>)
    requires Ordered(polls, |reports|)
    ensures |Collected(reports, polls)| <= Cursor(polls) <= |reports|
    ensures Collected(reports, polls) == Numbered(reports)[..Cursor(polls)] <==> KeepsUp(polls)
  {
    if polls != [] {
      var n := |polls| - 1;
      var seen, now := Cursor(polls[..n]), polls[n];
      PollsSnoc(polls, |reports|);
      PollerSeesEverything(reports, polls[..n]);
      PollIsAStretch(reports, seen, now);
      PrefixExtends(Numbered(reports), Collected(reports, polls[..n]), Oldest(seen, now), seen, now);
    }
  }
}
