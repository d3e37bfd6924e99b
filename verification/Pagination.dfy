/** Reading a session page by page (src/session_chain.go:341-362) while other callers keep appending to it. */
module Pagination {
  import opened SessionTypes

  /** The page that starts at a cursor, and the next cursor, or -1 at the end. */
  function Page(events: seq<Event>, cursor: nat, limit: nat): (seq<Event>, int) {
    if cursor >= |events| then ([], -1)
    else if cursor + limit >= |events| then (events[cursor..], -1)
    else (events[cursor..cursor + limit], cursor + limit)
  }

  /** What a reader has after some fetches: the events so far, and after how many fetches it saw the end. */
  datatype Reading = Reading(events: seq<Event>, finished: bool, fetches: nat)

  /** Follow next cursors; the k-th fetch finds the session as the k-th snapshot shows it. */
  function Follow(snapshots: seq<seq<Event>>, cursor: nat, limit: nat): Reading {
    if snapshots == [] then Reading([], false, 0)
    else
      var (page, next) := Page(snapshots[0], cursor, limit);
      if next < 0 then Reading(page, true, 1)
      else
        var rest := Follow(snapshots[1..], next, limit);
        Reading(page + rest.events, rest.finished, rest.fetches + 1)
  }

  /** Sessions only grow at their end. */
  ghost predicate Growing(snapshots: seq<seq<Event>>) {
    forall i, j :: 0 <= i <= j < |snapshots| ==> snapshots[i] <= snapshots[j]
  }

  lemma {:induction false} GrowingTail(snapshots: seq<seq<Event>>)
    requires Growing(snapshots) && snapshots != []
    ensures Growing(snapshots[1..])
  {
    forall i, j | 0 <= i <= j < |snapshots| - 1 ensures snapshots[1..][i] <= snapshots[1..][j] {
      assert snapshots[i + 1] <= snapshots[j + 1];
    }
  }

  /** From a cursor inside the session, a reader that saw the end has what the session held at its last fetch. */
  lemma {:induction false} FinishedReading(snapshots: seq<seq<Event>>, cursor: nat, limit: nat)
    requires Growing(snapshots) && (snapshots != [] ==> cursor <= |snapshots[0]|)
    requires Follow(snapshots, cursor, limit).finished
    ensures var r := Follow(snapshots, cursor, limit);
            && 1 <= r.fetches <= |snapshots| && cursor <= |snapshots[r.fetches - 1]|
            && r.events == snapshots[r.fetches - 1][cursor..]
    decreases |snapshots|
  {
    var (page, next) := Page(snapshots[0], cursor, limit);
    if next >= 0 {
      assert |snapshots| > 1 ==> snapshots[0] <= snapshots[1];
      GrowingTail(snapshots);
      FinishedReading(snapshots[1..], next, limit);
      var last := snapshots[Follow(snapshots[1..], next, limit).fetches];
      assert snapshots[0] <= last;
      assert last[cursor..] == last[cursor..next] + last[next..];
    }
  }

  /** One that did not has got limit events with each fetch, and the session is still longer. */
  lemma {:induction false} UnfinishedReading(snapshots: seq<seq<Event>>, cursor: nat, limit: nat, reach: nat)
    requires Growing(snapshots) && snapshots != [] && cursor <= |snapshots[0]|
    requires !Follow(snapshots, cursor, limit).finished && reach == cursor + |snapshots| * limit
    ensures reach < |snapshots[|snapshots| - 1]|
    decreases |snapshots|
  {
    var n := |snapshots|;
    if n > 1 {
      assert snapshots[0] <= snapshots[1];
      GrowingTail(snapshots);
      assert n * limit == limit + (n - 1) * limit;
      UnfinishedReading(snapshots[1..], cursor + limit, limit, reach);
    } else {
      assert Follow(snapshots[1..], cursor + limit, limit).finished == false;
    }
  }

  /** Paging from 0 yields every event of the session as it is at the last fetch, once and in order. */
  lemma {:induction false} PagingReadsEverything(snapshots: seq<seq<Event>>, limit: nat)
    requires Growing(snapshots)
    ensures var r := Follow(snapshots, 0, limit);
            r.finished ==> 1 <= r.fetches <= |snapshots| && r.events == snapshots[r.fetches - 1]
  {
    if Follow(snapshots, 0, limit).finished {
      FinishedReading(snapshots, 0, limit);
    }
  }

  /** With a positive limit, paging ends as soon as the fetches could have covered the session. */
  lemma {:induction false} PagingEnds(snapshots: seq<seq<Event>>, limit: nat)
    requires Growing(snapshots) && snapshots != [] && limit >= 1
    requires |snapshots[|snapshots| - 1]| <= |snapshots| * limit
    ensures Follow(snapshots, 0, limit).finished
  {
    if !Follow(snapshots, 0, limit).finished {
      UnfinishedReading(snapshots, 0, limit, |snapshots| * limit);
    }
  }

  /** With limit 0 and a session that is not empty, it never does. */
  lemma {:induction false} PagingByZeroNeverEnds(snapshots: seq<seq<Event>>)
    requires forall i :: 0 <= i < |snapshots| ==> snapshots[i] != []
    ensures !Follow(snapshots, 0, 0).finished && Follow(snapshots, 0, 0).events == []
  {
    if snapshots != [] {
      PagingByZeroNeverEnds(snapshots[1..]);
    }
  }
}
