/** What a worker hands its agent: the events and summaries that the context modes select. */
module AgentContext {
  import opened Text
  import opened Selections
  import opened Pagination
  import opened PromptHistory
  import opened SessionTypes
  import opened SessionLog
  import opened SessionChain
  import opened SessionDisk
  import opened SessionChainManagement

  /** One page is all that a full read ever asks for. */
  const FULL_READ := 10000

  /** The summaries and events of a prompt, and the AI session that is resumed, or "" for a new one. */
  datatype Delivery = Delivery(summaries: string, events: seq<Event>, aiSessionId: string)

  // ----- Summaries -----

  function SummaryLine(r: Record): seq<string> {
    if r.summary == "" then [] else ["[Session #" + Decimal(r.seqNo) + "] " + r.summary]
  }

  function SealedSummaries(records: seq<Record>): seq<string> {
    if records == [] then []
    else
      var last := records[|records| - 1];
      SealedSummaries(records[..|records| - 1]) + if last.status == Active then [] else SummaryLine(last)
  }

  /** Whether the session was found, and the summaries from it on; its own counts even while it is active. */
  function SummariesAfter(records: seq<Record>, after: string): (bool, seq<string>) {
    if records == [] then (false, [])
    else
      var last := records[|records| - 1];
      var (found, lines) := SummariesAfter(records[..|records| - 1], after);
      if last.id == after then (true, lines + SummaryLine(last))
      else (found, lines + if found && last.status != Active then SummaryLine(last) else [])
  }

  /** From the k-th session on: its own summary, then those of the closed sessions behind it. */
  lemma {:induction false} SummariesAfterIsSuffix(records: seq<Record>, k: nat, after: string)
    requires forall i :: 0 <= i < |records| ==> (records[i].id == after <==> i == k)
    ensures SummariesAfter(records, after)
         == if k < |records| then (true, SummaryLine(records[k]) + SealedSummaries(records[k + 1..])) else (false, [])
  {
    if records != [] {
      var n := |records| - 1;
      SummariesAfterIsSuffix(records[..n], k, after);
      assert records[n].id == after <==> n == k;
      var line := if records[n].status != Active then SummaryLine(records[n]) else [];
      if k == n {
        var own, none: seq<string> := SummaryLine(records[n]), [];
        assert records[n + 1..] == [] && none + own == own && own + none == own;
        assert SummariesAfter(records, after) == (true, own);
      } else if k < n {
        var behind := records[k + 1..];
        assert behind[..n - k - 1] == records[..n][k + 1..] && behind[|behind| - 1] == records[n];
        assert SealedSummaries(behind) == SealedSummaries(records[..n][k + 1..]) + line;
        assert records[..n][k] == records[k];
        var lines := SummaryLine(records[k]) + SealedSummaries(records[..n][k + 1..]);
        assert SummariesAfter(records[..n], after) == (true, lines);
        assert lines + [] == lines;
        assert SummariesAfter(records, after) == (true, lines + line);
        Associative(SummaryLine(records[k]), SealedSummaries(records[..n][k + 1..]), line);
      } else {
        var none: seq<string> := [];
        assert none + none == none;
        assert SummariesAfter(records, after) == (false, none);
      }
    }
  }

  // ----- The plan of a cli_managed invocation -----

  /** Which events and summaries an agent with the given cursor gets from a chain. */
  ghost function Plan(c: Chain, cursor: Option<Cursor>): Delivery
    requires Readable(c)
  {
    match cursor
    case None =>
      var id := c.meta.activeSessionId;
      Delivery("", if id in c.sessions then Page(EventsOf(c, id), 0, FULL_READ).0 else [], "")
    case Some(cur) =>
      var events := EventsAfter(c, cur.lastSessionId, cur.lastEventNo);
      if cur.lastSessionId in c.sessions && c.sessions[cur.lastSessionId].status != Active then
        var summaries := JoinLines(SummariesAfter(Records(Segs(c)), cur.lastSessionId).1);
        Delivery(summaries, events, if summaries != "" then "" else cur.aiSessionId)
      else Delivery("", events, cur.aiSessionId)
  }

  /** An orchestrated prompt: the active session, and the summaries of all closed ones. */
  ghost function OrchestratedPlan(c: Chain): Delivery
    requires Readable(c)
  {
    Delivery(JoinLines(SealedSummaries(Records(Segs(c)))), Plan(c, None).events, "")
  }

  // ----- What a plan holds -----

  /** One line for each of some sessions: its number and its summary. */
  ghost predicate AreSummaryLines(lines: seq<string>, segs: seq<Segment>, picked: seq<nat>) {
    && |lines| == |picked|
    && forall j :: 0 <= j < |picked| ==>
         picked[j] < |segs| && lines[j] == "[Session #" + Decimal(picked[j] + 1) + "] " + segs[picked[j]].record.summary
  }

  /** From a given session on, those that are closed and have a summary. */
  ghost function ClosedFrom(segs: seq<Segment>, from: nat): nat -> bool {
    i => from <= i < |segs| && segs[i].record.status != Active && segs[i].record.summary != ""
  }

  /** The text tells the summaries of exactly these sessions, a line each, in the sessions' order. */
  ghost predicate TellsSummaries(text: string, segs: seq<Segment>, from: nat) {
    exists picked: seq<nat>, lines: seq<string> ::
      Exactly(picked, |segs|, ClosedFrom(segs, from)) && AreSummaryLines(lines, segs, picked) && text == JoinLines(lines)
  }

  ghost predicate AreFirstEvents(events: seq<Event>, all: seq<Event>) {
    events == if |all| <= 10000 then all else all[..10000]
  }

  /** An orchestrated prompt opens a new AI session with the active session's events and all summaries there are. */
  ghost predicate IsOrchestrated(d: Delivery, c: Chain)
    requires Keyed(c)
  {
    && d.aiSessionId == ""
    && AreFirstEvents(d.events, if c.meta.activeSessionId in c.sessions then EventsOf(c, c.meta.activeSessionId) else [])
    && TellsSummaries(d.summaries, Segs(c), 0)
  }

  /**
   * Without a cursor the agent starts with the active session alone. With one it gets what is new since then; and
   * if the session that it saw last was closed since, also the summaries from that session on, and with these a
   * new AI session.
   */
  ghost predicate IsPlanFor(d: Delivery, c: Chain, cursor: Option<Cursor>)
    requires Keyed(c)
  {
    match cursor
    case None =>
      && d.summaries == "" && d.aiSessionId == ""
      && AreFirstEvents(d.events, if c.meta.activeSessionId in c.sessions then EventsOf(c, c.meta.activeSessionId) else [])
    case Some(cur) =>
      && AreNewer(d.events, c, cur.lastSessionId, cur.lastEventNo)
      && d.aiSessionId == (if d.summaries != "" then "" else cur.aiSessionId)
      && if cur.lastSessionId in c.sessions && c.sessions[cur.lastSessionId].status != Active
         then TellsSummaries(d.summaries, Segs(c), Numeral(cur.lastSessionId) - 1) else d.summaries == ""
  }

  ghost predicate Numbered(segs: seq<Segment>) {
    forall i :: 0 <= i < |segs| ==> segs[i].record.seqNo == i + 1
  }

  lemma {:induction false} SegsAreNumbered(c: Chain)
    requires Readable(c)
    ensures Numbered(Segs(c))
  {
    forall i | 0 <= i < c.meta.sessionCount ensures Segs(c)[i].record.seqNo == i + 1 {
      assert Placed(c.meta.threadId, Segs(c), i);
    }
  }

  /** Among the first n sessions, those from the k-th on that are told. */
  ghost predicate AreLinesFrom(picked: seq<nat>, lines: seq<string>, segs: seq<Segment>, k: nat, n: nat)
    requires k <= n <= |segs|
  {
    && Exactly(picked, n, ClosedFrom(segs, k)) && AreSummaryLines(lines, segs, picked)
    && lines == SealedSummaries(Records(segs)[k..n])
  }

  lemma {:induction false} LinesFrom(segs: seq<Segment>, k: nat, n: nat) returns (picked: seq<nat>, lines: seq<string>)
    requires k <= n <= |segs| && Numbered(segs)
    ensures AreLinesFrom(picked, lines, segs, k, n)
  {
    if k == n {
      picked, lines := [], [];
    } else {
      picked, lines := LinesFrom(segs, k, n - 1);
      if ClosedFrom(segs, k)(n - 1) {
        LinesWithNext(picked, lines, segs, k, n, "[Session #" + Decimal(n) + "] " + segs[n - 1].record.summary);
        picked, lines := picked + [n - 1], lines + ["[Session #" + Decimal(n) + "] " + segs[n - 1].record.summary];
      } else {
        LinesWithoutNext(picked, lines, segs, k, n);
      }
    }
  }

  lemma {:induction false} SummaryLinesNext(lines: seq<string>, segs: seq<Segment>, picked: seq<nat>, i: nat, line: string)
    requires AreSummaryLines(lines, segs, picked) && i < |segs|
    requires line == "[Session #" + Decimal(i + 1) + "] " + segs[i].record.summary
    ensures AreSummaryLines(lines + [line], segs, picked + [i])
  {
  }

  lemma {:induction false} LinesWithNext(picked: seq<nat>, lines: seq<string>, segs: seq<Segment>, k: nat, n: nat, line: string)
    requires k < n <= |segs| && Numbered(segs) && AreLinesFrom(picked, lines, segs, k, n - 1) && ClosedFrom(segs, k)(n - 1)
    requires line == "[Session #" + Decimal(n) + "] " + segs[n - 1].record.summary
    ensures AreLinesFrom(picked + [n - 1], lines + [line], segs, k, n)
  {
    ExactlyTakes(picked, n - 1, ClosedFrom(segs, k));
    SummaryLinesNext(lines, segs, picked, n - 1, line);
    SealedTakes(segs, k, n, line);
  }

  lemma {:induction false} LinesWithoutNext(picked: seq<nat>, lines: seq<string>, segs: seq<Segment>, k: nat, n: nat)
    requires k < n <= |segs| && Numbered(segs) && AreLinesFrom(picked, lines, segs, k, n - 1) && !ClosedFrom(segs, k)(n - 1)
    ensures AreLinesFrom(picked, lines, segs, k, n)
  {
    ExactlySkips(picked, n - 1, ClosedFrom(segs, k));
    SealedSkips(segs, k, n);
  }

  lemma {:induction false} SealedNext(segs: seq<Segment>, k: nat, n: nat)
    requires k < n <= |segs|
    ensures var r := segs[n - 1].record;
            SealedSummaries(Records(segs)[k..n])
            == SealedSummaries(Records(segs)[k..n - 1]) + if r.status == Active then [] else SummaryLine(r)
  {
    var records := Records(segs)[k..n];
    assert records[..|records| - 1] == Records(segs)[k..n - 1] && records[|records| - 1] == segs[n - 1].record;
  }

  lemma {:induction false} SealedTakes(segs: seq<Segment>, k: nat, n: nat, line: string)
    requires k < n <= |segs| && Numbered(segs) && segs[n - 1].record.status != Active && segs[n - 1].record.summary != ""
    requires line == "[Session #" + Decimal(n) + "] " + segs[n - 1].record.summary
    ensures SealedSummaries(Records(segs)[k..n]) == SealedSummaries(Records(segs)[k..n - 1]) + [line]
  {
    SealedNext(segs, k, n);
    assert SummaryLine(segs[n - 1].record) == [line];
  }

  lemma {:induction false} SealedSkips(segs: seq<Segment>, k: nat, n: nat)
    requires k < n <= |segs| && (segs[n - 1].record.status == Active || segs[n - 1].record.summary == "")
    ensures SealedSummaries(Records(segs)[k..n]) == SealedSummaries(Records(segs)[k..n - 1])
  {
    SealedNext(segs, k, n);
  }

  lemma {:induction false} SealedTells(segs: seq<Segment>, k: nat)
    requires k <= |segs| && Numbered(segs)
    ensures TellsSummaries(JoinLines(SealedSummaries(Records(segs)[k..])), segs, k)
  {
    var picked, lines := LinesFrom(segs, k, |segs|);
    assert Records(segs)[k..|segs|] == Records(segs)[k..];
  }

  lemma {:induction false} SealedOfConcat(a: seq<Record>, b: seq<Record>)
    ensures SealedSummaries(a + b) == SealedSummaries(a) + SealedSummaries(b)
  {
    if b == [] {
      assert a + b == a;
    } else {
      assert (a + b)[..|a + b| - 1] == a + b[..|b| - 1];
      SealedOfConcat(a, b[..|b| - 1]);
      var last := b[|b| - 1];
      Associative(SealedSummaries(a), SealedSummaries(b[..|b| - 1]), if last.status == Active then [] else SummaryLine(last));
    }
  }

  /** From a closed session on its own summary counts like all others. */
  lemma {:induction false} SummariesFromClosed(records: seq<Record>, k: nat, id: string)
    requires k < |records| && records[k].status != Active
    requires forall i :: 0 <= i < |records| ==> (records[i].id == id <==> i == k)
    ensures SummariesAfter(records, id) == (true, SealedSummaries(records[k..]))
  {
    SummariesAfterIsSuffix(records, k, id);
    assert records[k..] == [records[k]] + records[k + 1..];
    SealedOfConcat([records[k]], records[k + 1..]);
    assert [records[k]][..0] == [];
    assert SealedSummaries([records[k]]) == SummaryLine(records[k]);
  }

  lemma {:induction false} ActiveEventsArePage(c: Chain)
    requires Readable(c)
    ensures AreFirstEvents(Plan(c, None).events,
                           if c.meta.activeSessionId in c.sessions then EventsOf(c, c.meta.activeSessionId) else [])
  {
  }

  lemma {:induction false} AllSealedAreTold(c: Chain)
    requires Readable(c)
    ensures TellsSummaries(JoinLines(SealedSummaries(Records(Segs(c)))), Segs(c), 0)
  {
    SegsAreNumbered(c);
    SealedTells(Segs(c), 0);
    assert Records(Segs(c))[0..] == Records(Segs(c));
  }

  lemma {:induction false} OrchestratedPlanHolds(c: Chain)
    requires Readable(c)
    ensures IsOrchestrated(OrchestratedPlan(c), c)
  {
    AllSealedAreTold(c);
    ActiveEventsArePage(c);
  }

  lemma {:induction false} SummariesOfCursor(c: Chain, id: string)
    requires Readable(c) && id in c.sessions && c.sessions[id].status != Active
    ensures TellsSummaries(JoinLines(SummariesAfter(Records(Segs(c)), id).1), Segs(c), Numeral(id) - 1)
  {
    var k := Numeral(id) - 1;
    forall i | 0 <= i < c.meta.sessionCount ensures Records(Segs(c))[i].id == id <==> i == k {
      RecordAt(c, i);
      SessionIdsDiffer(i + 1, k + 1);
    }
    RecordAt(c, k);
    SummariesFromClosed(Records(Segs(c)), k, id);
    SegsAreNumbered(c);
    SealedTells(Segs(c), k);
  }

  lemma {:induction false} PlanHolds(c: Chain, cursor: Option<Cursor>)
    requires Readable(c)
    ensures IsPlanFor(Plan(c, cursor), c, cursor)
  {
    match cursor {
      case None => ActiveEventsArePage(c);
      case Some(cur) =>
        EventsAfterAreNewer(c, cur.lastSessionId, cur.lastEventNo);
        if cur.lastSessionId in c.sessions && c.sessions[cur.lastSessionId].status != Active {
          SummariesOfCursor(c, cur.lastSessionId);
        }
    }
  }

  function AllSummaries(segs: seq<Segment>): seq<string> {
    if segs == [] then [] else AllSummaries(segs[..|segs| - 1]) + SummaryLine(segs[|segs| - 1].record)
  }

  lemma {:induction false} SealedAreAll(segs: seq<Segment>)
    requires forall i :: 0 <= i < |segs| && segs[i].record.status == Active ==> segs[i].record.summary == ""
    ensures SealedSummaries(Records(segs)) == AllSummaries(segs)
  {
    if segs != [] {
      var n := |segs| - 1;
      var init, last := segs[..n], segs[n].record;
      SealedAreAll(init);
      assert Records(segs)[..n] == Records(init) && Records(segs)[n] == last;
      assert SealedSummaries(Records(segs)) == AllSummaries(init) + if last.status == Active then [] else SummaryLine(last);
    }
  }

  /** In a well-formed chain no summary is left out: only closed sessions have one. */
  lemma {:induction false} NoSummaryLeftOut(c: Chain, n: nat)
    requires WellFormed(c) && n <= c.meta.sessionCount
    ensures SealedSummaries(Records(Segs(c))[..n]) == AllSummaries(Segs(c)[..n])
  {
    var segs := Segs(c)[..n];
    forall i | 0 <= i < n && segs[i].record.status == Active ensures segs[i].record.summary == "" {
      assert Settled(Segs(c)[i], i == c.meta.sessionCount - 1);
    }
    SealedAreAll(segs);
    assert Records(Segs(c))[..n] == Records(segs);
  }

  // ----- What an orchestrated prompt tells -----

  /** The line stands in the text, as a line or as several whole ones. */
  ghost predicate StandsIn(text: string, line: string) {
    exists before: string, behind: string :: StandsBetween(text, before, line, behind)
  }

  ghost predicate StandsBetween(text: string, before: string, line: string, behind: string) {
    && text == before + line + behind
    && (before == "" || before[|before| - 1] == '\n') && (behind == "" || behind[0] == '\n')
  }

  /** The prompt's summaries have the line of session i+1. */
  ghost predicate SummaryTold(d: Delivery, segs: seq<Segment>, i: nat)
    requires i < |segs|
  {
    segs[i].record.summary != "" && StandsIn(d.summaries, "[Session #" + Decimal(i + 1) + "] " + segs[i].record.summary)
  }

  /**
   * The k-th event of session i+1 is in the prompt: the event is selected and its line in the history has its
   * whole content, or its session's summary is there.
   */
  ghost predicate Told(d: Delivery, segs: seq<Segment>, i: nat, k: nat)
    requires i < |segs| && k < |segs[i].events|
  {
    (segs[i].events[k] in d.events && PrintedWhole(segs[i].events[k])) || SummaryTold(d, segs, i)
  }

  lemma {:induction false} LineStandsIn(lines: seq<string>, j: nat) returns (before: string, behind: string)
    requires j < |lines|
    ensures StandsBetween(JoinLines(lines), before, lines[j], behind)
  {
    if |lines| == 1 {
      before, behind := "", "";
      assert lines[0] == "" + lines[0] + "";
    } else if j == 0 {
      before, behind := "", "\n" + JoinLines(lines[1..]);
      assert JoinLines(lines) == lines[0] + behind;
    } else {
      var before1;
      before1, behind := LineStandsIn(lines[1..], j - 1);
      before := lines[0] + "\n" + before1;
      StandsBehind(lines[0] + "\n", JoinLines(lines[1..]), before1, lines[j], behind);
    }
  }

  lemma {:induction false} StandsBehind(front: string, text: string, before: string, line: string, behind: string)
    requires front != "" && front[|front| - 1] == '\n' && StandsBetween(text, before, line, behind)
    ensures StandsBetween(front + text, front + before, line, behind)
  {
    Associative(front, before + line, behind);
    Associative(front, before, line);
  }

  lemma {:induction false} ToldLineStands(text: string, segs: seq<Segment>, from: nat, i: nat)
    requires TellsSummaries(text, segs, from) && i < |segs| && ClosedFrom(segs, from)(i)
    ensures StandsIn(text, "[Session #" + Decimal(i + 1) + "] " + segs[i].record.summary)
  {
    var picked, lines :| Exactly(picked, |segs|, ClosedFrom(segs, from)) && AreSummaryLines(lines, segs, picked)
                         && text == JoinLines(lines);
    assert i in picked;
    var j :| 0 <= j < |picked| && picked[j] == i;
    var before, behind := LineStandsIn(lines, j);
  }

  lemma {:induction false} SummaryToldIff(d: Delivery, c: Chain, i: nat)
    requires WellFormed(c) && i < c.meta.sessionCount && TellsSummaries(d.summaries, Segs(c), 0)
    ensures SummaryTold(d, Segs(c), i) <==> Segs(c)[i].record.summary != ""
    ensures i == c.meta.sessionCount - 1 ==> !SummaryTold(d, Segs(c), i)
  {
    assert Settled(Segs(c)[i], i == c.meta.sessionCount - 1);
    if Segs(c)[i].record.summary != "" {
      ToldLineStands(d.summaries, Segs(c), 0, i);
    }
  }

  /** An event of a closed session is not among those of the active one. */
  lemma {:induction false} ClosedIsElsewhere(threadId: string, segs: seq<Segment>, i: nat, k: nat)
    requires Ranges(threadId, segs) && i < |segs| - 1 && k < |segs[i].events|
    ensures segs[i].events[k] !in segs[|segs| - 1].events
  {
    RangesRise(threadId, segs, i, |segs| - 1);
    assert Placed(threadId, segs, i) && Placed(threadId, segs, |segs| - 1);
  }

  /** The k-th of consecutively numbered events is on the first page exactly if it is among the first 10000. */
  lemma {:induction false} OnFirstPageIff(events: seq<Event>, start: int, k: nat)
    requires k < |events| && forall i :: 0 <= i < |events| ==> events[i].eventNo == start + i
    ensures events[k] in Page(events, 0, FULL_READ).0 <==> k < FULL_READ
  {
    var page := Page(events, 0, FULL_READ).0;
    assert |page| == if |events| <= FULL_READ then |events| else FULL_READ;
    assert forall i :: 0 <= i < |page| ==> page[i] == events[i];
    if k < FULL_READ {
      assert page[k] == events[k];
    }
  }

  lemma {:induction false} PageIsPart(events: seq<Event>)
    ensures forall e :: e in Page(events, 0, FULL_READ).0 ==> e in events
  {
  }

  lemma {:induction false} OnPageIff(threadId: string, segs: seq<Segment>, i: nat, k: nat)
    requires Ranges(threadId, segs) && i < |segs| && k < |segs[i].events|
    ensures segs[i].events[k] in Page(segs[|segs| - 1].events, 0, FULL_READ).0 <==> i == |segs| - 1 && k < FULL_READ
  {
    if i == |segs| - 1 {
      assert Placed(threadId, segs, i);
      OnFirstPageIff(segs[i].events, segs[i].record.startEvent, k);
    } else {
      ClosedIsElsewhere(threadId, segs, i, k);
      PageIsPart(segs[|segs| - 1].events);
    }
  }

  lemma {:induction false} SelectedIff(d: Delivery, c: Chain, i: nat, k: nat)
    requires WellFormed(c) && i < c.meta.sessionCount && k < |Segs(c)[i].events| && IsOrchestrated(d, c)
    ensures Segs(c)[i].events[k] in d.events <==> i == c.meta.sessionCount - 1 && k < FULL_READ
  {
    SegAt(c, c.meta.sessionCount - 1);
    FirstEventsArePage(d.events, Segs(c)[c.meta.sessionCount - 1].events);
    OnPageIff(c.meta.threadId, Segs(c), i, k);
  }

  lemma {:induction false} FirstEventsArePage(events: seq<Event>, all: seq<Event>)
    requires AreFirstEvents(events, all)
    ensures events == Page(all, 0, FULL_READ).0
  {
  }

  /** What it takes for an event of session i+1 to be told. */
  predicate Tellable(segs: seq<Segment>, whole: Event -> bool, i: nat, k: nat)
    requires i < |segs| && k < |segs[i].events|
  {
    if i == |segs| - 1 then k < FULL_READ && whole(segs[i].events[k]) else segs[i].record.summary != ""
  }

  lemma {:induction false} ToldIff(d: Delivery, c: Chain, i: nat, k: nat)
    requires WellFormed(c) && i < c.meta.sessionCount && k < |Segs(c)[i].events| && IsOrchestrated(d, c)
    ensures Told(d, Segs(c), i, k) <==> Tellable(Segs(c), PrintedWhole, i, k)
  {
    SelectedIff(d, c, i, k);
    SummaryToldIff(d, c, i);
  }

  /**
   * An orchestrated prompt tells every event of the log if and only if each closed session with events has its
   * summary already, and the active session has at most 10000 events, all of which the history prints whole:
   * none is of an unknown kind, and messages of agents and invocations have at most 500 bytes.
   */
  lemma {:induction false} OrchestratedTellsAllIff(d: Delivery, c: Chain)
    requires WellFormed(c) && IsOrchestrated(d, c)
    ensures var n := c.meta.sessionCount;
            var active := Segs(c)[n - 1].events;
            (forall i: nat, k: nat :: i < n && k < |Segs(c)[i].events| ==> Told(d, Segs(c), i, k))
            <==> && (forall i: nat :: i < n - 1 ==> Segs(c)[i].events == [] || Segs(c)[i].record.summary != "")
                 && |active| <= FULL_READ
                 && forall k: nat :: k < |active| ==> PrintsWhole(active[k])
  {
    AllToldIff(d, c);
    AllTellableIff(Segs(c), PrintedWhole);
    AllPrintedWholeIff(Segs(c)[c.meta.sessionCount - 1].events);
  }

  lemma {:induction false} AllToldIff(d: Delivery, c: Chain)
    requires WellFormed(c) && IsOrchestrated(d, c)
    ensures (forall i: nat, k: nat :: i < c.meta.sessionCount && k < |Segs(c)[i].events| ==> Told(d, Segs(c), i, k))
            <==> forall i: nat, k: nat :: i < |Segs(c)| && k < |Segs(c)[i].events| ==> Tellable(Segs(c), PrintedWhole, i, k)
  {
    forall i: nat, k: nat | i < c.meta.sessionCount && k < |Segs(c)[i].events|
      ensures Told(d, Segs(c), i, k) <==> Tellable(Segs(c), PrintedWhole, i, k)
    {
      ToldIff(d, c, i, k);
    }
  }

  lemma {:induction false} AllPrintedWholeIff(events: seq<Event>)
    ensures (forall k: nat :: k < |events| ==> PrintedWhole(events[k])) <==> forall k: nat :: k < |events| ==> PrintsWhole(events[k])
  {
    forall k: nat | k < |events| ensures PrintedWhole(events[k]) <==> PrintsWhole(events[k]) {
      PrintedWholeIff(events[k]);
    }
  }

  lemma {:induction false} AllTellableIff(segs: seq<Segment>, whole: Event -> bool)
    requires segs != []
    ensures var n, active := |segs|, segs[|segs| - 1].events;
            (forall i: nat, k: nat :: i < n && k < |segs[i].events| ==> Tellable(segs, whole, i, k))
            <==> && (forall i: nat :: i < n - 1 ==> segs[i].events == [] || segs[i].record.summary != "")
                 && |active| <= FULL_READ
                 && forall k: nat :: k < |active| ==> whole(active[k])
  {
    var n, active := |segs|, segs[|segs| - 1].events;
    if forall i: nat, k: nat :: i < n && k < |segs[i].events| ==> Tellable(segs, whole, i, k) {
      forall i: nat | i < n - 1 && segs[i].events != [] ensures segs[i].record.summary != "" {
        assert Tellable(segs, whole, i, 0);
      }
      assert |active| > FULL_READ ==> Tellable(segs, whole, n - 1, FULL_READ);
      forall k: nat | k < |active| ensures whole(active[k]) {
        assert Tellable(segs, whole, n - 1, k);
      }
    }
  }

  /** One event, appended to a new thread, and of a content of 501 bytes from an agent: its end is not told. */
  lemma {:induction false} LongMessageIsCut(threadId: string, e: Event, now: Time)
    requires e.kind.Cat? && Bytes(e.content) == 501
    ensures Appended(NewChain(threadId, now), e, now).Ok?
    ensures var c := Appended(NewChain(threadId, now), e, now).value;
            && WellFormed(c) && c.meta.sessionCount == 1 && |Segs(c)[0].events| == 1
            && Segs(c)[0].events[0].content == e.content && !Told(OrchestratedPlan(c), Segs(c), 0, 0)
  {
    FirstAppend(threadId, e, now);
    var c := Appended(NewChain(threadId, now), e, now).value;
    OneByteTooMany(e.content);
    PrintedWholeIff(Segs(c)[0].events[0]);
    OrchestratedPlanHolds(c);
    ToldIff(OrchestratedPlan(c), c, 0, 0);
  }

  lemma {:induction false} FirstAppend(threadId: string, e: Event, now: Time)
    ensures Appended(NewChain(threadId, now), e, now).Ok?
    ensures var c := Appended(NewChain(threadId, now), e, now).value;
            && WellFormed(c) && c.meta.sessionCount == 1 && Segs(c)[0].events == [Stamped(e, 1, now)]
  {
    var c0 := NewChain(threadId, now);
    NewChainIsWellFormed(threadId, now);
    WellFormedIsLive(c0);
    AppendKeepsWellFormed(c0, e, now);
    AppendedIsAppend(c0, e, now);
    SegAt(c0, 0);
  }

  /** Such contents are easily found. */
  lemma {:induction false} LongContent() returns (content: string)
    ensures Bytes(content) == 501
  {
    content := seq(501, _ => 'a');
    BytesOfAscii(content);
  }

  /** The loop of collectSealedSummaries. */
  method SealedLines(sessions: seq<Record>) returns (lines: seq<string>)
    ensures lines == SealedSummaries(sessions)
  {
    lines := [];
    for i := 0 to |sessions|
      invariant lines == SealedSummaries(sessions[..i])
    {
      assert sessions[..i + 1][..i] == sessions[..i];
      if sessions[i].status != Active && sessions[i].summary != "" {
        lines := lines + ["[Session #" + Decimal(sessions[i].seqNo) + "] " + sessions[i].summary];
      }
    }
    assert sessions[..|sessions|] == sessions;
  }

  class AgentWorker {
    const name: string
    const chainManager: SessionChainManager

    constructor (name: string, chainManager: SessionChainManager)
      ensures this.name == name && this.chainManager == chainManager
    {
      this.name := name;
      this.chainManager := chainManager;
    }

    function KnownCursor(threadId: string): Option<Cursor>
      reads chainManager
    {
      var key := CursorKey(name, threadId);
      if key in chainManager.cursors then Some(chainManager.cursors[key]) else None
    }

    method CollectSealedSummaries(threadId: string) returns (summaries: string)
      requires chainManager.Valid()
      ensures threadId !in chainManager.metas ==> summaries == ""
      ensures threadId in chainManager.metas && Readable(chainManager.View(threadId)) ==>
                && summaries == JoinLines(SealedSummaries(Records(Segs(chainManager.View(threadId)))))
                && TellsSummaries(summaries, Segs(chainManager.View(threadId)), 0)
    {
      if threadId !in chainManager.metas {
        return "";
      }
      var sessions := chainManager.SortedSessions(threadId);
      var lines := SealedLines(sessions);
      if Readable(chainManager.View(threadId)) {
        AllSealedAreTold(chainManager.View(threadId));
      }
      summaries := JoinLines(lines);
    }

    method CollectSummariesAfter(threadId: string, afterSessionId: string) returns (summaries: string)
      requires chainManager.Valid()
      ensures threadId !in chainManager.metas ==> summaries == ""
      ensures threadId in chainManager.metas && Readable(chainManager.View(threadId)) ==>
                var c := chainManager.View(threadId);
                && summaries == JoinLines(SummariesAfter(Records(Segs(c)), afterSessionId).1)
                && (afterSessionId in c.sessions && c.sessions[afterSessionId].status != Active ==>
                      TellsSummaries(summaries, Segs(c), Numeral(afterSessionId) - 1))
    {
      if threadId !in chainManager.metas {
        return "";
      }
      var sessions := chainManager.SortedSessions(threadId);
      var found, lines: seq<string> := false, [];
      for i := 0 to |sessions|
        invariant (found, lines) == SummariesAfter(sessions[..i], afterSessionId)
      {
        assert sessions[..i + 1][..i] == sessions[..i] && lines + [] == lines;
        if sessions[i].id == afterSessionId {
          found := true;
          if sessions[i].summary != "" {
            lines := lines + ["[Session #" + Decimal(sessions[i].seqNo) + "] " + sessions[i].summary];
          }
        } else if found && sessions[i].status != Active && sessions[i].summary != "" {
          lines := lines + ["[Session #" + Decimal(sessions[i].seqNo) + "] " + sessions[i].summary];
        }
      }
      assert sessions[..|sessions|] == sessions;
      ghost var c := chainManager.View(threadId);
      if Readable(c) && afterSessionId in c.sessions && c.sessions[afterSessionId].status != Active {
        SummariesOfCursor(c, afterSessionId);
      }
      summaries := JoinLines(lines);
    }

    /** What buildCLIManagedPrompt selects once the thread is loaded. */
    method SelectContext(threadId: string) returns (d: Delivery)
      requires chainManager.Valid() && threadId in chainManager.metas
      ensures Readable(chainManager.View(threadId)) ==>
                && d == Plan(chainManager.View(threadId), KnownCursor(threadId))
                && IsPlanFor(d, chainManager.View(threadId), KnownCursor(threadId))
    {
      if Readable(chainManager.View(threadId)) {
        PlanHolds(chainManager.View(threadId), KnownCursor(threadId));
      }
      var cursor := chainManager.GetCursor(name, threadId);
      if cursor.None? {
        var active := chainManager.GetActiveSession(threadId);
        var page := ActivePage(threadId, active);
        return Delivery("", page, "");
      }
      var cur := cursor.value;
      var read := chainManager.GetEventsAfter(threadId, cur.lastSessionId, cur.lastEventNo);
      var events := if read.Ok? then read.value else [];
      var session := chainManager.GetSession(threadId, cur.lastSessionId);
      if session.Ok? && session.value.status != Active {
        var summaries := CollectSummariesAfter(threadId, cur.lastSessionId);
        return Delivery(summaries, events, if summaries != "" then "" else cur.aiSessionId);
      }
      d := Delivery("", events, cur.aiSessionId);
    }

    /** The first page of the active session; errors count as no events. */
    method ActivePage(threadId: string, active: Outcome<Record>) returns (events: seq<Event>)
      requires chainManager.Valid() && threadId in chainManager.metas
      requires active == ActiveSession(chainManager.View(threadId))
      ensures Readable(chainManager.View(threadId)) ==> events == Plan(chainManager.View(threadId), None).events
    {
      if active.Failed? {
        return [];
      }
      ghost var c := chainManager.View(threadId);
      if Readable(c) {
        RecordAt(c, Numeral(c.meta.activeSessionId) - 1);
        SegAt(c, Numeral(c.meta.activeSessionId) - 1);
      }
      var read := chainManager.GetEvents(threadId, active.value.id, 0, FULL_READ);
      events := if read.Ok? then read.value.0 else [];
    }

    /**
     * Reload from disk, then select. A reload that fails because there is no thread yet is followed by
     * its creation. For an empty thread ID the caller falls back to another prompt.
     */
    method BuildCLIManagedPrompt(threadId: string, now: Time)
      returns (reloaded: LoadResult, r: Option<Delivery>, history: seq<Glyph>)
      requires chainManager.Valid()
      modifies chainManager
      ensures chainManager.Valid()
      ensures threadId == "" ==> r == None && unchanged(chainManager)
      ensures threadId != "" ==> reloaded == Load(chainManager.codec, old(chainManager.DiskOf(threadId)))
      ensures threadId != "" && !reloaded.LoadPanics? ==>
                && threadId in chainManager.metas
                && (reloaded.LoadedChain? ==>
                      chainManager.View(threadId) == reloaded.chain && chainManager.journal == old(chainManager.journal))
                && (Readable(chainManager.View(threadId)) ==>
                      && r == Some(Plan(chainManager.View(threadId), KnownCursor(threadId)))
                      && IsPlanFor(r.value, chainManager.View(threadId), KnownCursor(threadId)))
      ensures r.Some? ==> history == History(r.value.events) && IsHistory(history, r.value.events)
    {
      history := [];
      if threadId == "" {
        return NoMeta, None, history;
      }
      reloaded := chainManager.ReloadThread(threadId);
      if reloaded.LoadPanics? {
        return reloaded, None, history;
      }
      var _ := chainManager.GetOrCreateChain(threadId, now);
      var d := SelectContext(threadId);
      r := Some(d);
      history := FormatEventsAsHistory(d.events);
    }

    /** What buildOrchestratedPrompt selects. */
    method SelectOrchestrated(threadId: string) returns (d: Delivery)
      requires chainManager.Valid() && threadId in chainManager.metas
      ensures Readable(chainManager.View(threadId)) ==>
                && d == OrchestratedPlan(chainManager.View(threadId))
                && IsOrchestrated(d, chainManager.View(threadId))
    {
      if Readable(chainManager.View(threadId)) {
        OrchestratedPlanHolds(chainManager.View(threadId));
      }
      var active := chainManager.GetActiveSession(threadId);
      var page := ActivePage(threadId, active);
      var summaries := CollectSealedSummaries(threadId);
      d := Delivery(summaries, page, "");
    }

    /**
     * The same for an orchestrated prompt: reload, select, and print the selected events. Without an active
     * session the caller falls back to another prompt, too.
     */
    method BuildOrchestratedPrompt(threadId: string, now: Time)
      returns (reloaded: LoadResult, r: Option<Delivery>, history: seq<Glyph>)
      requires chainManager.Valid()
      modifies chainManager
      ensures chainManager.Valid()
      ensures threadId == "" ==> r == None && unchanged(chainManager)
      ensures threadId != "" ==> reloaded == Load(chainManager.codec, old(chainManager.DiskOf(threadId)))
      ensures threadId != "" && !reloaded.LoadPanics? ==>
                && threadId in chainManager.metas
                && (reloaded.LoadedChain? ==>
                      chainManager.View(threadId) == reloaded.chain && chainManager.journal == old(chainManager.journal))
                && (ActiveSession(chainManager.View(threadId)).Failed? ==> r == None)
                && (Readable(chainManager.View(threadId)) && ActiveSession(chainManager.View(threadId)).Ok? ==>
                      && r == Some(OrchestratedPlan(chainManager.View(threadId)))
                      && IsOrchestrated(r.value, chainManager.View(threadId)))
      ensures r.Some? ==> history == History(r.value.events) && IsHistory(history, r.value.events)
    {
      history := [];
      if threadId == "" {
        return NoMeta, None, history;
      }
      reloaded := chainManager.ReloadThread(threadId);
      if reloaded.LoadPanics? {
        return reloaded, None, history;
      }
      var _ := chainManager.GetOrCreateChain(threadId, now);
      var active := chainManager.GetActiveSession(threadId);
      if active.Failed? {
        return reloaded, None, history;
      }
      var d := SelectOrchestrated(threadId);
      r := Some(d);
      history := FormatEventsAsHistory(d.events);
    }

    /** After a successful invocation of a worker that does not seal: the cursor moves to the snapshot's end. */
    method AdvanceCursor(threadId: string, newAiSessionId: string)
      requires chainManager.Valid()
      modifies chainManager`cursors, chainManager`cursorFiles
      ensures chainManager.Valid()
      ensures threadId !in chainManager.metas ==> unchanged(chainManager)
      ensures threadId in chainManager.metas ==>
                match ActiveSession(chainManager.View(threadId))
                case Failed(_) => unchanged(chainManager)
                case Ok(active) =>
                  var cursor := Cursor(name, threadId, active.id, active.endEvent, newAiSessionId);
                  && KnownCursor(threadId) == Some(cursor)
                  && chainManager.cursors == old(chainManager.cursors)[CursorKey(name, threadId) := cursor]
    {
      var active := chainManager.GetActiveSession(threadId);
      if active.Ok? {
        chainManager.UpdateCursor(name, threadId, active.value.id, active.value.endEvent, newAiSessionId);
      }
    }
  }
}
