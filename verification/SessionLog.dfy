/** A chain seen in order: the sessions of one thread as a sequence, and the append-only log they cut up. */
module SessionLog {
  import opened Text
  import opened SessionTypes
  import opened TokenEstimator

  /** A session's record together with its stored events. */
  datatype Segment = Segment(record: Record, events: seq<Event>)

  // ----- The chain invariant -----

  /** Session i+1 is numbered as such, and its event range starts where the one before it ends. */
  ghost predicate Placed(threadId: string, segs: seq<Segment>, i: nat)
    requires i < |segs|
  {
    var r, es := segs[i].record, segs[i].events;
    && r.id == SessionId(i + 1) && r.seqNo == i + 1 && r.threadId == threadId
    && r.eventCount == |es| && r.endEvent == r.startEvent + |es| - 1
    && (forall k :: 0 <= k < |es| ==> es[k].eventNo == r.startEvent + k)
    && r.startEvent == if i == 0 then 1 else segs[i - 1].record.endEvent + 1
  }

  ghost predicate Ranges(threadId: string, segs: seq<Segment>) {
    forall i: nat :: i < |segs| ==> Placed(threadId, segs, i)
  }

  function SumTokens(events: seq<Event>): int {
    if events == [] then 0 else SumTokens(events[..|events| - 1]) + events[|events| - 1].tokenCount
  }

  ghost predicate Measured(events: seq<Event>) {
    forall k :: 0 <= k < |events| ==> events[k].tokenCount == Tokens(events[k].content)
  }

  /** Only the last session is active, only sealed ones have summaries, and token counters cover their events. */
  ghost predicate Settled(s: Segment, last: bool) {
    && (s.record.status == Active <==> last)
    && (s.record.sealedAt.Some? <==> !last)
    && (s.record.status != Sealed ==> s.record.summary == "")
    && Measured(s.events)
    && SumTokens(s.events) <= s.record.tokenCount
  }

  ghost predicate Good(threadId: string, segs: seq<Segment>) {
    && segs != []
    && Ranges(threadId, segs)
    && forall i :: 0 <= i < |segs| ==> Settled(segs[i], i == |segs| - 1)
  }

  // ----- The log -----

  function Log(segs: seq<Segment>): seq<Event> {
    if segs == [] then [] else Log(segs[..|segs| - 1]) + segs[|segs| - 1].events
  }

  /** Event numbers are 1, 2, 3, … without gap or duplicate, and each session's events are its slice. */
  lemma {:induction false} LogIsNumbered(threadId: string, segs: seq<Segment>)
    requires Ranges(threadId, segs)
    ensures |Log(segs)| == if segs == [] then 0 else segs[|segs| - 1].record.endEvent
    ensures forall k :: 0 <= k < |Log(segs)| ==> Log(segs)[k].eventNo == k + 1
    ensures segs != [] ==> segs[|segs| - 1].record.startEvent - 1 == |Log(segs[..|segs| - 1])|
  {
    if segs != [] {
      var init := segs[..|segs| - 1];
      forall i: nat | i < |init| ensures Placed(threadId, init, i) {
        assert Placed(threadId, segs, i);
      }
      LogIsNumbered(threadId, init);
      assert Placed(threadId, segs, |segs| - 1);
    }
  }

  lemma {:induction false} RangesOfPrefix(threadId: string, segs: seq<Segment>, n: nat)
    requires Ranges(threadId, segs) && n <= |segs|
    ensures Ranges(threadId, segs[..n])
  {
    forall i: nat | i < n ensures Placed(threadId, segs[..n], i) {
      assert Placed(threadId, segs, i);
    }
  }

  lemma {:induction false} RangesRise(threadId: string, segs: seq<Segment>, i: nat, j: nat)
    requires Ranges(threadId, segs) && i < j < |segs|
    ensures segs[i].record.endEvent < segs[j].record.startEvent
    decreases j - i
  {
    assert Placed(threadId, segs, i) && Placed(threadId, segs, i + 1);
    if i + 1 < j {
      RangesRise(threadId, segs, i + 1, j);
    }
  }

  lemma {:induction false} LogOfConcat(a: seq<Segment>, b: seq<Segment>)
    ensures Log(a + b) == Log(a) + Log(b)
  {
    if b == [] {
      assert a + b == a;
    } else {
      assert (a + b)[..|a + b| - 1] == a + b[..|b| - 1];
      LogOfConcat(a, b[..|b| - 1]);
    }
  }

  lemma {:induction false} LogDependsOnEvents(a: seq<Segment>, b: seq<Segment>)
    requires |a| == |b| && forall i :: 0 <= i < |a| ==> a[i].events == b[i].events
    ensures Log(a) == Log(b)
  {
    if a != [] {
      LogDependsOnEvents(a[..|a| - 1], b[..|b| - 1]);
    }
  }

  // ----- What the operations do to the sequence -----

  function WithEvent(s: Segment, stored: Event): Segment {
    Segment(s.record.(eventCount := s.record.eventCount + 1, endEvent := stored.eventNo,
                      tokenCount := s.record.tokenCount + stored.tokenCount),
            s.events + [stored])
  }

  function Append(segs: seq<Segment>, stored: Event): seq<Segment>
    requires segs != []
  {
    segs[|segs| - 1 := WithEvent(segs[|segs| - 1], stored)]
  }

  function NewRecord(id: string, threadId: string, seqNo: nat, totalEvents: int, now: Time): Record {
    Record(id, threadId, seqNo, Active, totalEvents + 1, totalEvents, 0, 0, "", now, None)
  }

  function Closed(s: Segment, now: Time): Segment {
    s.(record := s.record.(status := Compressing, sealedAt := Some(now)))
  }

  function Seal(threadId: string, segs: seq<Segment>, now: Time): seq<Segment>
    requires segs != []
  {
    var n, last := |segs|, segs[|segs| - 1];
    segs[n - 1 := Closed(last, now)]
    + [Segment(NewRecord(SessionId(n + 1), threadId, n + 1, last.record.endEvent, now), [])]
  }

  function Summarised(s: Segment, summary: string): Segment {
    s.(record := s.record.(summary := summary, status := Sealed))
  }

  function Commit(segs: seq<Segment>, k: nat, summary: string): seq<Segment>
    requires k < |segs|
  {
    segs[k := Summarised(segs[k], summary)]
  }

  // ----- What they keep -----

  lemma {:induction false} SumTokensAppend(events: seq<Event>, e: Event)
    ensures SumTokens(events + [e]) == SumTokens(events) + e.tokenCount
  {
    assert (events + [e])[..|events|] == events;
  }

  lemma {:induction false} AppendKeepsSettled(segs: seq<Segment>, stored: Event)
    requires segs != [] && stored.tokenCount == Tokens(stored.content)
    requires forall i :: 0 <= i < |segs| ==> Settled(segs[i], i == |segs| - 1)
    ensures forall i :: 0 <= i < |segs| ==> Settled(Append(segs, stored)[i], i == |segs| - 1)
  {
    var last := segs[|segs| - 1];
    assert Settled(last, true);
    SumTokensAppend(last.events, stored);
    assert Settled(WithEvent(last, stored), true);
  }

  lemma {:induction false} LogOfAppend(segs: seq<Segment>, stored: Event)
    requires segs != []
    ensures Log(Append(segs, stored)) == Log(segs) + [stored]
  {
    var segs' := Append(segs, stored);
    assert segs'[..|segs| - 1] == segs[..|segs| - 1];
    Associative(Log(segs[..|segs| - 1]), segs[|segs| - 1].events, [stored]);
  }

  /** Appending keeps the invariant and adds exactly the stored event to the log. */
  lemma {:induction false} AppendKeeps(threadId: string, segs: seq<Segment>, stored: Event)
    requires Good(threadId, segs)
    requires stored.eventNo == segs[|segs| - 1].record.endEvent + 1 && stored.tokenCount == Tokens(stored.content)
    ensures Good(threadId, Append(segs, stored))
    ensures Log(Append(segs, stored)) == Log(segs) + [stored]
  {
    AppendKeepsRanges(threadId, segs, stored);
    AppendKeepsSettled(segs, stored);
    LogOfAppend(segs, stored);
  }

  lemma {:induction false} AppendKeepsRanges(threadId: string, segs: seq<Segment>, stored: Event)
    requires segs != [] && Ranges(threadId, segs) && stored.eventNo == segs[|segs| - 1].record.endEvent + 1
    ensures Ranges(threadId, Append(segs, stored))
  {
    forall i: nat | i < |segs| ensures Placed(threadId, Append(segs, stored), i) {
      assert Placed(threadId, segs, i);
    }
  }

  /** Sealing keeps the invariant and the log. */
  lemma {:induction false} SealKeeps(threadId: string, segs: seq<Segment>, now: Time)
    requires Good(threadId, segs)
    ensures Good(threadId, Seal(threadId, segs, now))
    ensures Log(Seal(threadId, segs, now)) == Log(segs)
  {
    var n, segs' := |segs|, Seal(threadId, segs, now);
    forall i: nat | i < |segs'| ensures Placed(threadId, segs', i) {
      if i < n {
        assert Placed(threadId, segs, i);
      }
    }
    assert segs'[..n] == segs[n - 1 := segs'[n - 1]];
    LogDependsOnEvents(segs'[..n], segs);
  }

  /** Committing a summary to a session that is no longer active keeps the invariant and the log. */
  lemma {:induction false} CommitKeeps(threadId: string, segs: seq<Segment>, k: nat, summary: string)
    requires Good(threadId, segs) && k < |segs| - 1
    ensures Good(threadId, Commit(segs, k, summary))
    ensures Log(Commit(segs, k, summary)) == Log(segs)
  {
    var segs' := Commit(segs, k, summary);
    forall i: nat | i < |segs| ensures Placed(threadId, segs', i) {
      assert Placed(threadId, segs, i);
    }
    LogDependsOnEvents(segs', segs);
  }

  // ----- Reading from a position -----

  function FilterAfter(events: seq<Event>, after: int): seq<Event> {
    if events == [] then []
    else FilterAfter(events[..|events| - 1], after)
         + if events[|events| - 1].eventNo > after then [events[|events| - 1]] else []
  }

  /** The events after a number, from the sessions of a list. */
  function Collected(segs: seq<Segment>, after: int): seq<Event> {
    if segs == [] then [] else Collected(segs[..|segs| - 1], after) + FilterAfter(segs[|segs| - 1].events, after)
  }

  function Max(a: int, b: int): int {
    if a < b then b else a
  }

  /** The tail of a sequence from position n, nothing when n is past the end. */
  function Tail(log: seq<Event>, n: int): seq<Event> {
    if n <= 0 then log else if n >= |log| then [] else log[n..]
  }

  lemma {:induction false} TailNext(log: seq<Event>, e: Event, n: int)
    ensures Tail(log + [e], n) == Tail(log, n) + if n <= |log| then [e] else []
  {
    if 0 < n <= |log| {
      assert (log + [e])[n..] == log[n..] + [e];
    }
  }

  lemma {:induction false} FilterIsTail(events: seq<Event>, start: int, after: int)
    requires forall k :: 0 <= k < |events| ==> events[k].eventNo == start + k
    ensures FilterAfter(events, after) == Tail(events, after - start + 1)
  {
    if events != [] {
      var init, last := events[..|events| - 1], events[|events| - 1];
      FilterIsTail(init, start, after);
      TailNext(init, last, after - start + 1);
      assert events == init + [last];
      assert FilterAfter(events, after) == FilterAfter(init, after) + if last.eventNo > after then [last] else [];
    }
  }

  lemma {:induction false} FilterOfConcat(a: seq<Event>, b: seq<Event>, after: int)
    ensures FilterAfter(a + b, after) == FilterAfter(a, after) + FilterAfter(b, after)
  {
    if b == [] {
      assert a + b == a;
    } else {
      assert (a + b)[..|a + b| - 1] == a + b[..|b| - 1];
      FilterOfConcat(a, b[..|b| - 1], after);
    }
  }

  lemma {:induction false} CollectedIsFilter(segs: seq<Segment>, after: int)
    ensures Collected(segs, after) == FilterAfter(Log(segs), after)
  {
    if segs != [] {
      CollectedIsFilter(segs[..|segs| - 1], after);
      FilterOfConcat(Log(segs[..|segs| - 1]), segs[|segs| - 1].events, after);
    }
  }

  lemma {:induction false} TailOfSuffix(log: seq<Event>, start: nat, after: int)
    requires start <= |log|
    ensures Tail(log[start..], after - start) == Tail(log, Max(after, start))
  {
  }

  /** The sessions from the j-th on hold the log from their first event on. */
  lemma {:induction false} LogOfSuffix(threadId: string, segs: seq<Segment>, j: nat)
    requires Ranges(threadId, segs) && j < |segs|
    ensures 0 <= segs[j].record.startEvent - 1 <= |Log(segs)|
    ensures Log(segs[j..]) == Log(segs)[segs[j].record.startEvent - 1..]
  {
    assert segs == segs[..j] + segs[j..];
    LogOfConcat(segs[..j], segs[j..]);
    RangesOfPrefix(threadId, segs, j + 1);
    LogIsNumbered(threadId, segs[..j + 1]);
    assert segs[..j + 1][..j] == segs[..j];
  }

  lemma {:induction false} FilterOfSuffix(log: seq<Event>, start: nat, after: int)
    requires start <= |log| && forall k :: 0 <= k < |log| ==> log[k].eventNo == k + 1
    ensures FilterAfter(log[start..], after) == Tail(log, Max(after, start))
  {
    FilterIsTail(log[start..], start + 1, after);
    TailOfSuffix(log, start, after);
  }

  /** Filtering the sessions from the j-th on gives the log from after the number, or from their start. */
  lemma {:induction false} CollectedIsTail(threadId: string, segs: seq<Segment>, j: nat, after: int)
    requires Ranges(threadId, segs) && j < |segs|
    ensures Collected(segs[j..], after) == Tail(Log(segs), Max(after, segs[j].record.startEvent - 1))
  {
    LogOfSuffix(threadId, segs, j);
    LogIsNumbered(threadId, segs);
    CollectedIsFilter(segs[j..], after);
    FilterOfSuffix(Log(segs), segs[j].record.startEvent - 1, after);
  }
}
