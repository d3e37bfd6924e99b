/** The manager's maps for one thread, and the locked regions of src/session_chain.go that change them. */
module SessionChain {
  import opened Text
  import opened Selections
  import opened SessionTypes
  import opened TokenEstimator
  import opened SessionLog

  datatype Failure = NoThread | NoSession | NotActive | NotCompressing | CompressorFailed

  datatype Outcome<+T> = Ok(value: T) | Failed(reason: Failure)

  datatype Chain = Chain(meta: Meta, sessions: map<string, Record>, events: map<string, seq<Event>>)

  datatype Config = Config(maxTokens: int, sealThreshold: real, maxEventsPerSession: int)

  /** What the compressor is asked to condense. */
  datatype Prompt = Prompt(previous: string, transcript: string)

  // ----- The locked regions -----

  /** GetOrCreateChain for a thread that is not there yet. */
  function NewChain(threadId: string, now: Time): Chain {
    var id := SessionId(1);
    Chain(Meta(threadId, id, 1, 0, now, now), map[id := NewRecord(id, threadId, 1, 0, now)], map[id := []])
  }

  function EventsOf(c: Chain, id: string): seq<Event> {
    if id in c.events then c.events[id] else []
  }

  /** The event as it is stored: numbered, dated and measured. */
  function Stamped(e: Event, eventNo: int, now: Time): Event {
    e.(eventNo := eventNo,
       timestamp := if e.timestamp == ZERO_TIME then now else e.timestamp,
       tokenCount := Tokens(e.content))
  }

  /** AppendEvent. */
  function Appended(c: Chain, e: Event, now: Time): Outcome<Chain> {
    var id := c.meta.activeSessionId;
    if id !in c.sessions then Failed(NoSession)
    else if c.sessions[id].status != Active then Failed(NotActive)
    else
      var stored := Stamped(e, c.meta.totalEvents + 1, now);
      var s := WithEvent(Segment(c.sessions[id], EventsOf(c, id)), stored);
      Ok(Chain(c.meta.(totalEvents := c.meta.totalEvents + 1, updatedAt := now),
               c.sessions[id := s.record], c.events[id := s.events]))
  }

  /** SealActiveSession. */
  function SealedOff(c: Chain, threadId: string, now: Time): Outcome<Chain> {
    var id, seqNo := c.meta.activeSessionId, c.meta.sessionCount + 1;
    if id !in c.sessions then Failed(NoSession)
    else
      var newId := SessionId(seqNo);
      Ok(Chain(c.meta.(sessionCount := seqNo, activeSessionId := newId, updatedAt := now),
               c.sessions[id := c.sessions[id].(status := Compressing, sealedAt := Some(now))]
                         [newId := NewRecord(newId, threadId, seqNo, c.meta.totalEvents, now)],
               c.events[newId := []]))
  }

  function ActiveSession(c: Chain): Outcome<Record> {
    if c.meta.activeSessionId in c.sessions then Ok(c.sessions[c.meta.activeSessionId]) else Failed(NoSession)
  }

  /** Go's conversion of a float to int cuts towards zero. */
  function Truncated(x: real): int {
    if x >= 0.0 then x.Floor else -(-x).Floor
  }

  predicate ThresholdMet(r: Record, config: Config) {
    r.tokenCount >= Truncated(config.maxTokens as real * config.sealThreshold)
    || r.eventCount >= config.maxEventsPerSession
  }

  /** The first locked region of CheckAndSeal. */
  function ShouldSeal(c: Chain, config: Config): Outcome<bool> {
    var id := c.meta.activeSessionId;
    if id !in c.sessions then Failed(NoSession)
    else Ok(ThresholdMet(c.sessions[id], config))
  }

  /** What one event adds to a transcript; invocations are not told to the compressor. */
  function TranscriptLine(e: Event): string {
    match e.kind
    case User => "[用户] " + e.content + "\n"
    case Cat => "[" + e.sender + "] " + e.content + "\n"
    case System => "[系统] " + e.content + "\n"
    case _ => ""
  }

  function Transcript(events: seq<Event>): string {
    if events == [] then "" else Transcript(events[..|events| - 1]) + TranscriptLine(events[|events| - 1])
  }

  function SummaryEntry(r: Record): string {
    if r.summary == "" then ""
    else "### Session #" + Decimal(r.seqNo) + " 摘要\n" + r.summary + "\n\n"
  }

  /** The summaries of the sessions of a list that precede number seqNo. */
  function PreviousSummaries(records: seq<Record>, seqNo: nat): string {
    if records == [] then ""
    else
      var last := records[|records| - 1];
      PreviousSummaries(records[..|records| - 1], seqNo) + if last.seqNo >= seqNo then "" else SummaryEntry(last)
  }

  function Records(segs: seq<Segment>): (r: seq<Record>)
    ensures |r| == |segs|
  {
    seq(|segs|, i requires 0 <= i < |segs| => segs[i].record)
  }

  /** The second locked region of CompressSession. */
  function Committed(c: Chain, id: string, summary: string): Chain
    requires id in c.sessions
  {
    c.(sessions := c.sessions[id := Summarised(Segment(c.sessions[id], []), summary).record])
  }

  // ----- What the regions do, field by field -----

  /** What is stored is the given event: only its number and its estimate are new, and its time if it had none. */
  ghost predicate StoredAs(given: Event, stored: Event, eventNo: int, now: Time) {
    && stored.kind == given.kind && stored.sender == given.sender && stored.content == given.content
    && stored.msgId == given.msgId && stored.invocationId == given.invocationId
    && stored.eventNo == eventNo
    && (given.timestamp != ZERO_TIME ==> stored.timestamp == given.timestamp)
    && (given.timestamp == ZERO_TIME ==> stored.timestamp == now)
    && stored.tokenCount == Tokens(given.content)
  }

  lemma {:induction false} StampedIsStored(e: Event, eventNo: int, now: Time)
    ensures StoredAs(e, Stamped(e, eventNo, now), eventNo, now)
  {
  }

  /** The session a new thread or a seal opens. */
  ghost predicate OpenedAs(r: Record, threadId: string, seqNo: nat, totalEvents: int, now: Time) {
    && r.id == SessionId(seqNo) && r.threadId == threadId && r.seqNo == seqNo && r.status == Active
    && r.startEvent == totalEvents + 1 && r.endEvent == totalEvents && r.eventCount == 0 && r.tokenCount == 0
    && r.summary == "" && r.createdAt == now && r.sealedAt == None
  }

  /** Two states of a session of which only status, seal time and summary may differ. */
  ghost predicate SameBut(r: Record, s: Record) {
    && s.id == r.id && s.threadId == r.threadId && s.seqNo == r.seqNo
    && s.startEvent == r.startEvent && s.endEvent == r.endEvent
    && s.eventCount == r.eventCount && s.tokenCount == r.tokenCount && s.createdAt == r.createdAt
  }

  lemma {:induction false} NewChainOpens(threadId: string, now: Time)
    ensures var c := NewChain(threadId, now);
            && c.meta == Meta(threadId, SessionId(1), 1, 0, now, now)
            && c.sessions.Keys == {SessionId(1)} && OpenedAs(c.sessions[SessionId(1)], threadId, 1, 0, now)
            && c.events == map[SessionId(1) := []]
  {
  }

  /** From c to d the active session was closed, the next one opened, and all other sessions and events left alone. */
  ghost predicate SealedTo(c: Chain, d: Chain, threadId: string, now: Time) {
    var closed, next, n := c.meta.activeSessionId, SessionId(c.meta.sessionCount + 1), c.meta.sessionCount + 1;
    && d.meta.threadId == c.meta.threadId && d.meta.activeSessionId == next && d.meta.sessionCount == n
    && d.meta.totalEvents == c.meta.totalEvents && d.meta.createdAt == c.meta.createdAt && d.meta.updatedAt == now
    && closed in c.sessions && d.sessions.Keys == c.sessions.Keys + {next}
    && OpenedAs(d.sessions[next], threadId, n, c.meta.totalEvents, now)
    && (closed != next ==>
          && SameBut(c.sessions[closed], d.sessions[closed]) && d.sessions[closed].summary == c.sessions[closed].summary
          && d.sessions[closed].status == Compressing && d.sessions[closed].sealedAt == Some(now))
    && (forall id :: id in c.sessions && id != closed && id != next ==> d.sessions[id] == c.sessions[id])
    && d.events == c.events[next := []]
  }

  lemma {:induction false} SealClosesAndOpens(c: Chain, threadId: string, now: Time)
    ensures SealedOff(c, threadId, now).Ok? <==> c.meta.activeSessionId in c.sessions
    ensures SealedOff(c, threadId, now).Ok? ==> SealedTo(c, SealedOff(c, threadId, now).value, threadId, now)
  {
  }

  lemma {:induction false} CommitSetsSummary(c: Chain, id: string, summary: string)
    requires id in c.sessions
    ensures var d := Committed(c, id, summary);
            && d.meta == c.meta && d.events == c.events && d.sessions.Keys == c.sessions.Keys
            && SameBut(c.sessions[id], d.sessions[id]) && d.sessions[id].sealedAt == c.sessions[id].sealedAt
            && d.sessions[id].summary == summary && d.sessions[id].status == Sealed
            && forall o :: o in c.sessions && o != id ==> d.sessions[o] == c.sessions[o]
  {
  }

  /**
   * The threshold is met by enough events, or by at least as many tokens as the product of limit and share, cut
   * towards zero, has.
   */
  lemma {:induction false} ThresholdMetIff(r: Record, config: Config)
    ensures var share := config.maxTokens as real * config.sealThreshold;
            ThresholdMet(r, config)
            <==> || r.eventCount >= config.maxEventsPerSession
                 || (if share >= 0.0 then r.tokenCount as real > share - 1.0 else r.tokenCount as real >= share)
  {
    CutTowardsZero(r.tokenCount, config.maxTokens as real * config.sealThreshold);
  }

  lemma {:induction false} CutTowardsZero(n: int, x: real)
    ensures n >= Truncated(x) <==> if x >= 0.0 then n as real > x - 1.0 else n as real >= x
  {
  }

  // ----- What the compressor is told -----

  /** What one event adds to a transcript. */
  ghost predicate IsLineOf(line: string, e: Event) {
    && (e.kind == User ==> line == "[用户] " + e.content + "\n")
    && (e.kind == Cat ==> line == "[" + e.sender + "] " + e.content + "\n")
    && (e.kind == System ==> line == "[系统] " + e.content + "\n")
    && (e.kind == Invocation || e.kind == Other ==> line == "")
  }

  /** A text made of one line an event, in order. */
  ghost predicate IsTranscript(text: string, events: seq<Event>) {
    exists lines: seq<string> :: AreLines(lines, events) && text == Joined(lines)
  }

  ghost predicate AreLines(lines: seq<string>, events: seq<Event>) {
    |lines| == |events| && forall i :: 0 <= i < |events| ==> IsLineOf(lines[i], events[i])
  }

  lemma {:induction false} LineIsLine(e: Event)
    ensures IsLineOf(TranscriptLine(e), e)
  {
  }

  lemma {:induction false} LinesNext(lines: seq<string>, events: seq<Event>, line: string)
    requires events != [] && AreLines(lines, events[..|events| - 1]) && IsLineOf(line, events[|events| - 1])
    ensures AreLines(lines + [line], events)
  {
    forall i | 0 <= i < |events| ensures IsLineOf((lines + [line])[i], events[i]) {
      if i < |events| - 1 {
        assert IsLineOf(lines[i], events[..|events| - 1][i]);
      }
    }
  }

  lemma {:induction false} TranscriptLines(events: seq<Event>) returns (lines: seq<string>)
    ensures AreLines(lines, events) && Transcript(events) == Joined(lines)
  {
    lines := [];
    if events != [] {
      var n := |events| - 1;
      var init := TranscriptLines(events[..n]);
      lines := init + [TranscriptLine(events[n])];
      JoinedNext(init, TranscriptLine(events[n]));
      LineIsLine(events[n]);
      LinesNext(init, events, TranscriptLine(events[n]));
    }
  }

  /** The transcript has each event's line once and in order; nothing is left out but invocations. */
  lemma {:induction false} TranscriptIsComplete(events: seq<Event>)
    ensures IsTranscript(Transcript(events), events)
  {
    var lines := TranscriptLines(events);
  }

  /** And no other text has. */
  lemma {:induction false} TranscriptIsUnique(text: string, events: seq<Event>)
    requires IsTranscript(text, events)
    ensures text == Transcript(events)
  {
    var lines :| AreLines(lines, events) && text == Joined(lines);
    var own := TranscriptLines(events);
    assert forall i :: 0 <= i < |events| ==> lines[i] == own[i];
    assert lines == own;
  }

  lemma {:induction false} TranscriptOfConcat(a: seq<Event>, b: seq<Event>)
    ensures Transcript(a + b) == Transcript(a) + Transcript(b)
  {
    if b == [] {
      assert a + b == a;
    } else {
      assert (a + b)[..|a + b| - 1] == a + b[..|b| - 1];
      TranscriptOfConcat(a, b[..|b| - 1]);
      Associative(Transcript(a), Transcript(b[..|b| - 1]), TranscriptLine(b[|b| - 1]));
    }
  }

  /** What a session adds to the earlier summaries that the compressor is told. */
  ghost predicate IsEntryOf(entry: string, r: Record) {
    && (r.summary == "" ==> entry == "")
    && (r.summary != "" ==> entry == "### Session #" + Decimal(r.seqNo) + " 摘要\n" + r.summary + "\n\n")
  }

  /** A text made of the entries of the first n sessions, in order. */
  ghost predicate AreSummariesOf(text: string, records: seq<Record>, n: nat)
    requires n <= |records|
  {
    exists entries: seq<string> :: AreEntries(entries, records, n) && text == Joined(entries)
  }

  ghost predicate AreEntries(entries: seq<string>, records: seq<Record>, n: nat)
    requires n <= |records|
  {
    |entries| == n && forall i :: 0 <= i < n ==> IsEntryOf(entries[i], records[i])
  }

  lemma {:induction false} SummaryEntries(records: seq<Record>, m: nat, seqNo: nat) returns (entries: seq<string>)
    requires m < seqNo && m <= |records| && forall i :: 0 <= i < |records| ==> records[i].seqNo == i + 1
    ensures AreEntries(entries, records, m) && PreviousSummaries(records[..m], seqNo) == Joined(entries)
  {
    entries := [];
    if m > 0 {
      var init := SummaryEntries(records, m - 1, seqNo);
      entries := init + [SummaryEntry(records[m - 1])];
      JoinedNext(init, SummaryEntry(records[m - 1]));
      assert records[..m][..m - 1] == records[..m - 1];
    }
  }

  /** Of numbered sessions, the compressor is told the summaries of all that precede its own, and of no other. */
  lemma {:induction false} PreviousAreComplete(records: seq<Record>, seqNo: nat)
    requires 1 <= seqNo <= |records| && forall i :: 0 <= i < |records| ==> records[i].seqNo == i + 1
    ensures AreSummariesOf(PreviousSummaries(records, seqNo), records, seqNo - 1)
  {
    var entries := SummaryEntries(records, seqNo - 1, seqNo);
    NoneBehind(records, seqNo, |records|);
    assert records[..|records|] == records;
  }

  lemma {:induction false} NoneBehind(records: seq<Record>, seqNo: nat, m: nat)
    requires 1 <= seqNo <= |records| && forall i :: 0 <= i < |records| ==> records[i].seqNo == i + 1
    requires seqNo - 1 <= m <= |records|
    ensures PreviousSummaries(records[..m], seqNo) == PreviousSummaries(records[..seqNo - 1], seqNo)
  {
    if m > seqNo - 1 {
      NoneBehind(records, seqNo, m - 1);
      var before := PreviousSummaries(records[..m - 1], seqNo);
      assert records[..m][..m - 1] == records[..m - 1] && records[..m][m - 1].seqNo == m;
      assert PreviousSummaries(records[..m], seqNo) == before + "";
      assert before + "" == before;
    }
  }

  // ----- The maps and the sequence they stand for -----

  /** One of S001, S002, … up to number n. */
  predicate IsSessionId(id: string, n: nat) {
    1 <= Numeral(id) <= n && id == SessionId(Numeral(id))
  }

  /** Both maps have exactly the session IDs up to the session count as keys. */
  ghost predicate Keyed(c: Chain) {
    && (forall id :: id in c.sessions <==> IsSessionId(id, c.meta.sessionCount))
    && (forall id :: id in c.events <==> IsSessionId(id, c.meta.sessionCount))
  }

  function Segs(c: Chain): (segs: seq<Segment>)
    requires Keyed(c)
    ensures |segs| == c.meta.sessionCount
  {
    seq(c.meta.sessionCount, i requires 0 <= i < c.meta.sessionCount =>
      Segment(c.sessions[SessionId(i + 1)], c.events[SessionId(i + 1)]))
  }

  /** The sessions are exactly 1..sessionCount, and their ranges are consecutive. */
  ghost predicate Readable(c: Chain) {
    Keyed(c) && c.meta.sessionCount >= 1 && Ranges(c.meta.threadId, Segs(c))
  }

  /** The chain invariant: keys, ranges, statuses and all counters agree. */
  ghost predicate WellFormed(c: Chain) {
    && Keyed(c) && Good(c.meta.threadId, Segs(c))
    && c.meta.activeSessionId == SessionId(c.meta.sessionCount)
    && c.meta.totalEvents == Segs(c)[c.meta.sessionCount - 1].record.endEvent
  }

  /** The thread as the append-only list it stands for. */
  function LogOf(c: Chain): seq<Event>
    requires Keyed(c)
  {
    Log(Segs(c))
  }

  lemma {:induction false} SegAt(c: Chain, i: nat)
    requires Keyed(c) && i < c.meta.sessionCount
    ensures SessionId(i + 1) in c.sessions && SessionId(i + 1) in c.events
    ensures Segs(c)[i] == Segment(c.sessions[SessionId(i + 1)], c.events[SessionId(i + 1)])
  {
    assert IsSessionId(SessionId(i + 1), c.meta.sessionCount);
  }

  /** The metadata names the last session as the active one. */
  ghost predicate Headed(c: Chain) {
    Keyed(c) && c.meta.sessionCount >= 1 && c.meta.activeSessionId == SessionId(c.meta.sessionCount)
  }

  /** What the operations on the active session rely on. */
  ghost predicate Live(c: Chain) {
    Headed(c) && Segs(c)[c.meta.sessionCount - 1].record.status == Active
  }

  lemma {:induction false} WellFormedIsLive(c: Chain)
    requires WellFormed(c)
    ensures Live(c)
    ensures |LogOf(c)| == c.meta.totalEvents
  {
    assert Settled(Segs(c)[c.meta.sessionCount - 1], true);
    LogIsNumbered(c.meta.threadId, Segs(c));
  }

  // ----- The operations keep the invariant -----

  lemma {:induction false} NewChainIsWellFormed(threadId: string, now: Time)
    ensures var c := NewChain(threadId, now);
            WellFormed(c) && LogOf(c) == [] && c.meta.threadId == threadId
  {
    var c := NewChain(threadId, now);
    SegAt(c, 0);
    assert Segs(c) == [Segment(NewRecord(SessionId(1), threadId, 1, 0, now), [])];
    assert Segs(c)[..0] == [] && Log(Segs(c)) == Log(Segs(c)[..0]) + [];
  }

  /** Storing a session under its own ID replaces it in the sequence. */
  lemma {:induction false} Updated(c: Chain, meta: Meta, k: nat, s: Segment)
    requires Keyed(c) && meta.sessionCount == c.meta.sessionCount && k < c.meta.sessionCount
    ensures var id := SessionId(k + 1);
            var d := Chain(meta, c.sessions[id := s.record], c.events[id := s.events]);
            Keyed(d) && Segs(d) == Segs(c)[k := s]
  {
    var id := SessionId(k + 1);
    var d := Chain(meta, c.sessions[id := s.record], c.events[id := s.events]);
    SegAt(c, k);
    assert Keyed(d);
    forall i: nat | i < c.meta.sessionCount ensures Segs(d)[i] == Segs(c)[k := s][i] {
      SegAt(c, i);
      SegAt(d, i);
      SessionIdsDiffer(i + 1, k + 1);
    }
  }

  /** Storing a session under the next ID appends it to the sequence. */
  lemma {:induction false} Extended(c: Chain, meta: Meta, s: Segment)
    requires Keyed(c) && meta.sessionCount == c.meta.sessionCount + 1
    ensures var id := SessionId(meta.sessionCount);
            var d := Chain(meta, c.sessions[id := s.record], c.events[id := s.events]);
            && id !in c.sessions && id !in c.events
            && Keyed(d) && Segs(d) == Segs(c) + [s]
  {
    var n := c.meta.sessionCount;
    var id := SessionId(n + 1);
    var d := Chain(meta, c.sessions[id := s.record], c.events[id := s.events]);
    assert Keyed(d);
    forall i: nat | i < n + 1 ensures Segs(d)[i] == (Segs(c) + [s])[i] {
      SegAt(d, i);
      if i < n {
        SessionIdsDiffer(i + 1, n + 1);
        SegAt(c, i);
        assert Segs(d)[i] == Segs(c)[i];
      } else {
        assert Segs(d)[i] == s;
      }
    }
  }

  /** AppendEvent succeeds on a live chain and does to the sequence what Append says. */
  lemma {:induction false} AppendedIsAppend(c: Chain, e: Event, now: Time)
    requires Live(c)
    ensures Appended(c, e, now).Ok?
    ensures var d := Appended(c, e, now).value;
            && d.meta == c.meta.(totalEvents := c.meta.totalEvents + 1, updatedAt := now)
            && Keyed(d) && Segs(d) == Append(Segs(c), Stamped(e, c.meta.totalEvents + 1, now))
  {
    var k := c.meta.sessionCount - 1;
    SegAt(c, k);
    Updated(c, Appended(c, e, now).value.meta, k, WithEvent(Segs(c)[k], Stamped(e, c.meta.totalEvents + 1, now)));
  }

  lemma {:induction false} AppendKeepsWellFormed(c: Chain, e: Event, now: Time)
    requires WellFormed(c)
    ensures Appended(c, e, now).Ok? && WellFormed(Appended(c, e, now).value)
  {
    WellFormedIsLive(c);
    AppendedIsAppend(c, e, now);
    AppendKeeps(c.meta.threadId, Segs(c), Stamped(e, c.meta.totalEvents + 1, now));
  }

  lemma {:induction false} AppendExtendsLog(c: Chain, e: Event, now: Time)
    requires WellFormed(c)
    ensures Appended(c, e, now).Ok? && Keyed(Appended(c, e, now).value)
    ensures LogOf(Appended(c, e, now).value) == LogOf(c) + [Stamped(e, c.meta.totalEvents + 1, now)]
  {
    WellFormedIsLive(c);
    AppendedIsAppend(c, e, now);
    AppendKeeps(c.meta.threadId, Segs(c), Stamped(e, c.meta.totalEvents + 1, now));
  }

  /** AppendEvent keeps the invariant and adds one event with the next number to the log. */
  lemma {:induction false} AppendKeepsChain(c: Chain, e: Event, now: Time)
    requires WellFormed(c)
    ensures Appended(c, e, now).Ok?
    ensures var d := Appended(c, e, now).value;
            && WellFormed(d)
            && LogOf(d) == LogOf(c) + [Stamped(e, |LogOf(c)| + 1, now)]
  {
    WellFormedIsLive(c);
    AppendKeepsWellFormed(c, e, now);
    AppendExtendsLog(c, e, now);
  }

  /** The log grows at its end by the event that was given, and by nothing else. */
  lemma {:induction false} AppendStoresGiven(c: Chain, e: Event, now: Time)
    requires WellFormed(c)
    ensures Appended(c, e, now).Ok? && Keyed(Appended(c, e, now).value)
    ensures var log, log' := LogOf(c), LogOf(Appended(c, e, now).value);
            |log'| == |log| + 1 && log'[..|log|] == log && StoredAs(e, log'[|log|], |log| + 1, now)
  {
    AppendKeepsChain(c, e, now);
    StampedIsStored(e, |LogOf(c)| + 1, now);
  }

  /** From c to d the given event was added to the events of the active session, and nothing else happened to events. */
  ghost predicate AppendedTo(c: Chain, d: Chain, e: Event, now: Time) {
    var id, n := c.meta.activeSessionId, |EventsOf(c, c.meta.activeSessionId)|;
    && id in d.events && |d.events[id]| == n + 1 && d.events[id][..n] == EventsOf(c, id)
    && StoredAs(e, d.events[id][n], c.meta.totalEvents + 1, now)
    && d.events.Keys == c.events.Keys + {id} && d.sessions.Keys == c.sessions.Keys
    && (forall o :: o in c.events && o != id ==> d.events[o] == c.events[o])
    && (forall o :: o in c.sessions && o != id ==> d.sessions[o] == c.sessions[o])
    && id in c.sessions && SameStart(c.sessions[id], d.sessions[id])
    && d.sessions[id].eventCount == c.sessions[id].eventCount + 1
    && d.sessions[id].endEvent == c.meta.totalEvents + 1
    && d.sessions[id].tokenCount == c.sessions[id].tokenCount + Tokens(e.content)
    && d.meta == c.meta.(totalEvents := c.meta.totalEvents + 1, updatedAt := now)
  }

  /** Two states of a session of which only the counters and the end of the range may differ. */
  ghost predicate SameStart(r: Record, s: Record) {
    && s.id == r.id && s.threadId == r.threadId && s.seqNo == r.seqNo && s.status == r.status
    && s.startEvent == r.startEvent && s.summary == r.summary && s.createdAt == r.createdAt && s.sealedAt == r.sealedAt
  }

  lemma {:induction false} AppendAddsGiven(c: Chain, e: Event, now: Time)
    requires Appended(c, e, now).Ok?
    ensures AppendedTo(c, Appended(c, e, now).value, e, now)
  {
  }

  /** An append succeeds exactly if the session that the metadata names is active. */
  lemma {:induction false} AppendSucceedsIff(c: Chain, e: Event, now: Time)
    requires Headed(c)
    ensures Appended(c, e, now).Ok? <==> Live(c)
    ensures !Live(c) ==> Appended(c, e, now) == Failed(NotActive)
  {
    SegAt(c, c.meta.sessionCount - 1);
  }

  /** SealActiveSession does to the sequence what Seal says. It does not ask for the status of what it seals. */
  lemma {:induction false} SealedOffIsSeal(c: Chain, now: Time)
    requires Headed(c) && c.meta.totalEvents == Segs(c)[c.meta.sessionCount - 1].record.endEvent
    ensures SealedOff(c, c.meta.threadId, now).Ok?
    ensures var d := SealedOff(c, c.meta.threadId, now).value;
            && Keyed(d) && Segs(d) == Seal(c.meta.threadId, Segs(c), now)
            && d.meta.activeSessionId !in c.sessions && d.meta.activeSessionId !in c.events
  {
    var n, id := c.meta.sessionCount, c.meta.activeSessionId;
    var closed := Closed(Segs(c)[n - 1], now);
    var d := SealedOff(c, c.meta.threadId, now).value;
    var m := Chain(c.meta, c.sessions[id := closed.record], c.events[id := closed.events]);
    SegAt(c, n - 1);
    assert m.events == c.events;
    Updated(c, c.meta, n - 1, closed);
    Extended(m, d.meta, Segment(NewRecord(SessionId(n + 1), c.meta.threadId, n + 1, c.meta.totalEvents, now), []));
  }

  /** Sealing keeps the invariant and the log, under a session ID that was free. */
  lemma {:induction false} SealKeepsChain(c: Chain, now: Time)
    requires WellFormed(c)
    ensures SealedOff(c, c.meta.threadId, now).Ok?
    ensures var d := SealedOff(c, c.meta.threadId, now).value;
            && WellFormed(d)
            && LogOf(d) == LogOf(c)
            && d.meta.activeSessionId !in c.sessions && d.meta.activeSessionId !in c.events
  {
    WellFormedIsLive(c);
    SealedOffIsSeal(c, now);
    SealKeeps(c.meta.threadId, Segs(c), now);
  }

  /** Committing a summary does to the sequence what Commit says. */
  lemma {:induction false} CommittedIsCommit(c: Chain, k: nat, summary: string)
    requires Keyed(c) && k < c.meta.sessionCount
    ensures SessionId(k + 1) in c.sessions
    ensures var d := Committed(c, SessionId(k + 1), summary);
            Keyed(d) && Segs(d) == Commit(Segs(c), k, summary)
  {
    SegAt(c, k);
    var id := SessionId(k + 1);
    assert c.events == c.events[id := c.events[id]];
    Updated(c, c.meta, k, Summarised(Segs(c)[k], summary));
  }

  lemma {:induction false} CommitKeepsChain(c: Chain, k: nat, summary: string)
    requires WellFormed(c) && k < c.meta.sessionCount - 1
    ensures SessionId(k + 1) in c.sessions
    ensures var d := Committed(c, SessionId(k + 1), summary);
            WellFormed(d) && LogOf(d) == LogOf(c) && d.meta == c.meta
  {
    CommittedIsCommit(c, k, summary);
    CommitKeeps(c.meta.threadId, Segs(c), k, summary);
  }

  // ----- Reading -----

  /** GetEventsAfter. */
  function EventsAfter(c: Chain, id: string, after: int): seq<Event>
    requires Keyed(c) && c.meta.sessionCount >= 1
  {
    if id in c.sessions then
      Collected(Segs(c)[Numeral(id) - 1..], after)
    else Collected(Segs(c), after)
  }

  /** Reading from a position gives the log from the next event on, however the log is cut into sessions. */
  lemma {:induction false} EventsAfterIsLogTail(c: Chain, id: string, after: int)
    requires Readable(c)
    ensures EventsAfter(c, id, after)
         == Tail(LogOf(c), if id in c.sessions then Max(after, c.sessions[id].startEvent - 1) else after)
  {
    var segs := Segs(c);
    if id in c.sessions {
      var j := Numeral(id) - 1;
      SegAt(c, j);
      CollectedIsTail(c.meta.threadId, segs, j, after);
    } else {
      AllCollected(c.meta.threadId, segs, after);
    }
  }

  /** The log from its first event on that comes after the number, and in the named session or behind it. */
  ghost predicate AreNewer(events: seq<Event>, c: Chain, id: string, after: int)
    requires Keyed(c)
  {
    var log := LogOf(c);
    && |events| <= |log| && events == log[|log| - |events|..]
    && forall k :: 0 <= k < |log| ==>
         (k >= |log| - |events|
          <==> log[k].eventNo > after && (id in c.sessions ==> log[k].eventNo >= c.sessions[id].startEvent))
  }

  /** What is read after a position are the events behind it, all of them and in order. */
  lemma {:induction false} EventsAfterAreNewer(c: Chain, id: string, after: int)
    requires Readable(c)
    ensures AreNewer(EventsAfter(c, id, after), c, id, after)
  {
    EventsAfterIsLogTail(c, id, after);
    LogIsNumbered(c.meta.threadId, Segs(c));
    TailIsNewer(LogOf(c), if id in c.sessions then Max(after, c.sessions[id].startEvent - 1) else after);
  }

  lemma {:induction false} TailIsNewer(log: seq<Event>, n: int)
    requires forall k :: 0 <= k < |log| ==> log[k].eventNo == k + 1
    ensures |Tail(log, n)| <= |log| && Tail(log, n) == log[|log| - |Tail(log, n)|..]
    ensures forall k :: 0 <= k < |log| ==> (k >= |log| - |Tail(log, n)| <==> log[k].eventNo > n)
  {
  }

  lemma {:induction false} AllCollected(threadId: string, segs: seq<Segment>, after: int)
    requires Ranges(threadId, segs) && segs != []
    ensures Collected(segs, after) == Tail(Log(segs), after)
  {
    CollectedIsTail(threadId, segs, 0, after);
    assert segs[0..] == segs && Placed(threadId, segs, 0);
    TailFromZero(Log(segs), after);
  }

  lemma {:induction false} TailFromZero(log: seq<Event>, after: int)
    ensures Tail(log, Max(after, 0)) == Tail(log, after)
  {
  }

  // ----- Chains with sessions missing -----

  /** Every session that is there stands under its own ID, within the range that the metadata counts. */
  ghost predicate Orderly(c: Chain) {
    forall id :: id in c.sessions ==>
      IsSessionId(id, c.meta.sessionCount) && c.sessions[id].id == id && c.sessions[id].seqNo == Numeral(id)
  }

  /** Of the first n sessions those that are there, in order. */
  function Present(c: Chain, n: nat): seq<Segment> {
    if n == 0 then []
    else
      var id := SessionId(n);
      Present(c, n - 1) + if id in c.sessions then [Segment(c.sessions[id], EventsOf(c, id))] else []
  }

  lemma {:induction false} PresentNext(c: Chain, n: nat)
    requires Keyed(c) && 1 <= n <= c.meta.sessionCount
    ensures Present(c, n) == Present(c, n - 1) + [Segs(c)[n - 1]]
  {
    SegAt(c, n - 1);
  }

  /** Nothing is missing in a keyed chain. */
  lemma {:induction false} PresentIsSegs(c: Chain, n: nat)
    requires Keyed(c) && n <= c.meta.sessionCount
    ensures Present(c, n) == Segs(c)[..n]
  {
    if n > 0 {
      PresentIsSegs(c, n - 1);
      PresentNext(c, n);
      PrefixNext(Segs(c), n - 1);
    }
  }

  lemma {:induction false} ReadableIsOrderly(c: Chain)
    requires Readable(c)
    ensures Orderly(c) && Present(c, c.meta.sessionCount) == Segs(c)
  {
    forall id | id in c.sessions ensures c.sessions[id].id == id && c.sessions[id].seqNo == Numeral(id) {
      SegAt(c, Numeral(id) - 1);
      assert Placed(c.meta.threadId, Segs(c), Numeral(id) - 1);
    }
    PresentIsSegs(c, c.meta.sessionCount);
    assert Segs(c)[..c.meta.sessionCount] == Segs(c);
  }

  /** The listed sessions are those of the map, each with its events, in strictly rising order. */
  lemma {:induction false} PresentAt(c: Chain, n: nat, i: nat)
    requires Orderly(c) && i < |Present(c, n)|
    ensures var s := Present(c, n)[i];
            && s.record.id in c.sessions && c.sessions[s.record.id] == s.record && s.events == EventsOf(c, s.record.id)
            && 1 <= s.record.seqNo <= n
    ensures forall j :: i < j < |Present(c, n)| ==> Present(c, n)[i].record.seqNo < Present(c, n)[j].record.seqNo
    decreases n
  {
    if i < |Present(c, n - 1)| {
      PresentAt(c, n - 1, i);
    }
  }

  lemma {:induction false} PresentHas(c: Chain, n: nat, id: string) returns (i: nat)
    requires Orderly(c) && id in c.sessions && Numeral(id) <= n
    ensures i < |Present(c, n)| && Present(c, n)[i].record == c.sessions[id]
  {
    if Numeral(id) == n {
      i := |Present(c, n)| - 1;
    } else {
      i := PresentHas(c, n - 1, id);
    }
  }
}
