/**
 * Every run of one thread's chain: appends, seals, the two locked regions of CheckAndSeal and CompressSession
 * in any interleaving, and restarts that load the files.
 */
module ChainRuns {
  import opened Text
  import opened Selections
  import opened SessionTypes
  import opened TokenEstimator
  import opened SessionMarkdown
  import opened SessionRoundTrip
  import opened SessionLog
  import opened SessionChain
  import opened SessionDisk

  /** A compression between its two locked regions. */
  datatype Compression = Compression(sessionId: string, transcript: string)

  /** sealing counts the callers of CheckAndSeal that found the threshold met and let go of the lock. */
  datatype State = State(chain: Chain, disk: Disk, sealing: nat, compressing: map<nat, Compression>)

  datatype Action =
    | AppendEvent(event: Event, now: Time)
    | SealActiveSession(now: Time)
    | CheckBegin(config: Config)
    | CheckEnd(now: Time)
    | CompressBegin(ticket: nat, sessionId: string)
    | CompressFails(ticket: nat)
    | CompressEnd(ticket: nat, condense: string -> string)
    | Restart

  // ----- Steps -----

  function Append(codec: Codec, s: State, event: Event, now: Time): State {
    match Appended(s.chain, event, now)
    case Ok(c) => s.(chain := c, disk := ApplyAll(codec, s.disk, AppendWrites(c)))
    case Failed(_) => s
  }

  function Seal(codec: Codec, s: State, now: Time): State {
    match SealedOff(s.chain, s.chain.meta.threadId, now)
    case Ok(c) => s.(chain := c, disk := ApplyAll(codec, s.disk, SealWrites(c, s.chain.meta.activeSessionId)))
    case Failed(_) => s
  }

  function BeginCompression(s: State, ticket: nat, id: string): State {
    if ticket in s.compressing || id !in s.chain.sessions || s.chain.sessions[id].status != Compressing then s
    else s.(compressing := s.compressing[ticket := Compression(id, Transcript(EventsOf(s.chain, id)))])
  }

  function EndCompression(codec: Codec, s: State, ticket: nat, condense: string -> string): State {
    if ticket !in s.compressing || s.compressing[ticket].sessionId !in s.chain.sessions then s
    else
      var p := s.compressing[ticket];
      var c := Committed(s.chain, p.sessionId, condense(p.transcript));
      State(c, ApplyAll(codec, s.disk, CommitWrites(c, p.sessionId)), s.sealing, s.compressing - {ticket})
  }

  function Step(codec: Codec, s: State, a: Action): State {
    match a
    case AppendEvent(event, now) => Append(codec, s, event, now)
    case SealActiveSession(now) => Seal(codec, s, now)
    case CheckBegin(config) => if ShouldSeal(s.chain, config) == Ok(true) then s.(sealing := s.sealing + 1) else s
    case CheckEnd(now) => if s.sealing == 0 then s else Seal(codec, s.(sealing := s.sealing - 1), now)
    case CompressBegin(ticket, id) => BeginCompression(s, ticket, id)
    case CompressFails(ticket) => s.(compressing := s.compressing - {ticket})
    case CompressEnd(ticket, condense) => EndCompression(codec, s, ticket, condense)
    case Restart =>
      var r := Load(codec, s.disk);
      if r.LoadedChain? then State(r.chain, s.disk, 0, map[]) else s
  }

  function Run(codec: Codec, s: State, actions: seq<Action>): State {
    if actions == [] then s else Step(codec, Run(codec, s, actions[..|actions| - 1]), actions[|actions| - 1])
  }

  /** Right after GetOrCreateChain made the thread. */
  function Start(codec: Codec, threadId: string, now: Time): State {
    var c := NewChain(threadId, now);
    State(c, ApplyAll(codec, EMPTY_DISK, CreateWrites(c)), 0, map[])
  }

  /** Appended events are such as the session files can carry. */
  predicate Admissible(a: Action) {
    a.AppendEvent? ==> Printable(a.event)
  }

  predicate AllAdmissible(actions: seq<Action>) {
    forall i :: 0 <= i < |actions| ==> Admissible(actions[i])
  }

  // ----- What holds in every state -----

  /** Memory satisfies the chain invariant, and the files mirror it. */
  ghost predicate Consistent(codec: Codec, c: Chain, d: Disk) {
    WellFormed(c) && PrintableSegs(Segs(c)) && Synced(codec, d, c)
  }

  /** The session is no longer active, and the transcript is that of the events it holds now. */
  ghost predicate UpToDate(c: Chain, p: Compression) {
    c.meta.sessionCount > 0 && IsSessionId(p.sessionId, c.meta.sessionCount - 1) && p.transcript == Transcript(EventsOf(c, p.sessionId))
  }

  ghost predicate Inv(codec: Codec, s: State) {
    && Consistent(codec, s.chain, s.disk)
    && forall t :: t in s.compressing ==> UpToDate(s.chain, s.compressing[t])
  }

  // ----- What never goes backwards -----

  function Rank(s: Status): nat {
    match s case Active => 0 case Compressing => 1 case Sealed => 2
  }

  /** A session later on: its status only moves forward, and once it is not active its events stay. */
  ghost predicate SegmentLater(s: Segment, t: Segment) {
    && Rank(s.record.status) <= Rank(t.record.status)
    && s.record.startEvent == t.record.startEvent
    && s.record.tokenCount <= t.record.tokenCount && s.record.eventCount <= t.record.eventCount
    && NormalEvents(s.events) <= NormalEvents(t.events)
    && (s.record.status != Active ==>
          NormalEvents(s.events) == NormalEvents(t.events) && s.record.endEvent == t.record.endEvent
          && s.record.tokenCount == t.record.tokenCount)
  }

  /** The chain later on: sessions stay where they are, and the log only grows at its end. */
  ghost predicate Later(a: seq<Segment>, b: seq<Segment>) {
    && |a| <= |b|
    && (forall i :: 0 <= i < |a| ==> SegmentLater(a[i], b[i]))
    && NormalEvents(Log(a)) <= NormalEvents(Log(b))
  }

  lemma {:induction false} LaterReflexive(a: seq<Segment>)
    ensures Later(a, a)
  {
  }

  lemma {:induction false} LaterTransitive(a: seq<Segment>, b: seq<Segment>, c: seq<Segment>)
    requires Later(a, b) && Later(b, c)
    ensures Later(a, c)
  {
    forall i | 0 <= i < |a| ensures SegmentLater(a[i], c[i]) {
      assert SegmentLater(a[i], b[i]) && SegmentLater(b[i], c[i]);
    }
  }

  lemma {:induction false} NormalOfPrefix(a: seq<Event>, b: seq<Event>)
    ensures NormalEvents(a) <= NormalEvents(a + b)
  {
    NormalEventsConcat(a, b);
  }

  lemma {:induction false} AppendIsLater(threadId: string, segs: seq<Segment>, stored: Event)
    requires Good(threadId, segs)
    requires stored.eventNo == segs[|segs| - 1].record.endEvent + 1 && stored.tokenCount == Tokens(stored.content)
    ensures Later(segs, SessionLog.Append(segs, stored))
  {
    var last := segs[|segs| - 1];
    AppendKeeps(threadId, segs, stored);
    NormalOfPrefix(Log(segs), [stored]);
    NormalOfPrefix(last.events, [stored]);
    assert Settled(last, true);
  }

  lemma {:induction false} SealIsLater(threadId: string, segs: seq<Segment>, now: Time)
    requires Good(threadId, segs)
    ensures Later(segs, SessionLog.Seal(threadId, segs, now))
  {
    SealKeeps(threadId, segs, now);
    assert Settled(segs[|segs| - 1], true);
  }

  lemma {:induction false} CommitIsLater(threadId: string, segs: seq<Segment>, k: nat, summary: string)
    requires Good(threadId, segs) && k < |segs| - 1
    ensures Later(segs, Commit(segs, k, summary))
  {
    CommitKeeps(threadId, segs, k, summary);
  }

  lemma {:induction false} ReloadIsLater(segs: seq<Segment>)
    requires PrintableSegs(segs)
    ensures Later(segs, NormalSegs(segs))
  {
    LogOfNormal(segs);
    forall i | 0 <= i < |segs| ensures SegmentLater(segs[i], NormalSegs(segs)[i]) {
      NormalEventsIdempotent(segs[i].events);
    }
    PrintableLog(segs);
    NormalEventsIdempotent(Log(segs));
  }

  lemma {:induction false} PrintableLog(segs: seq<Segment>)
    requires PrintableSegs(segs)
    ensures AllPrintable(Log(segs))
  {
    if segs != [] {
      PrintableLog(segs[..|segs| - 1]);
    }
  }

  // ----- The files follow -----

  lemma {:induction false} ApplyTwo(codec: Codec, d: Disk, v: Write, w: Write)
    ensures ApplyAll(codec, d, [v, w]) == Apply(codec, Apply(codec, d, v), w)
  {
    assert [v, w][1..] == [w] && [w][1..] == [];
    assert ApplyAll(codec, Apply(codec, d, v), [w]) == ApplyAll(codec, Apply(codec, Apply(codec, d, v), w), []);
  }

  lemma {:induction false} ApplyThree(codec: Codec, d: Disk, u: Write, v: Write, w: Write)
    ensures ApplyAll(codec, d, [u, v, w]) == Apply(codec, Apply(codec, Apply(codec, d, u), v), w)
  {
    assert [u, v, w][1..] == [v, w];
    ApplyTwo(codec, Apply(codec, d, u), v, w);
  }

  lemma {:induction false} ApplyOne(codec: Codec, d: Disk, w: Write)
    ensures ApplyAll(codec, d, [w]) == Apply(codec, d, w)
  {
    assert [w][1..] == [];
  }

  /** Writing the k-th session's file updates, or extends, what the files hold. */
  lemma {:induction false} StoredAfterWrite(codec: Codec, d: Disk, segs: seq<Segment>, k: nat, s: Segment)
    requires Lawful(codec) && AllPrintable(s.events) && s.record.id == SessionId(k + 1)
    requires Stored(codec, d, segs) && k <= |segs|
    ensures var d' := Apply(codec, d, WriteSession(s.record, s.events));
            && Stored(codec, d', if k < |segs| then segs[k := s] else segs + [s])
            && d'.meta == d.meta
  {
    WrittenImage(codec, d, s, k);
    var d' := Apply(codec, d, WriteSession(s.record, s.events));
    var segs' := if k < |segs| then segs[k := s] else segs + [s];
    forall i: nat | i < |segs'|
      ensures Image(codec, d', i) == Loaded(NormalRecord(segs'[i].record), NormalEvents(segs'[i].events))
    {
      if i == k {
        assert segs'[i] == s;
      } else {
        assert segs'[i] == segs[i] && Image(codec, d', i) == Image(codec, d, i);
      }
    }
  }

  lemma {:induction false} StoredAfterMeta(codec: Codec, d: Disk, segs: seq<Segment>, meta: Meta)
    requires Stored(codec, d, segs)
    ensures Stored(codec, Apply(codec, d, WriteMeta(meta)), segs)
  {
    var d' := Apply(codec, d, WriteMeta(meta));
    forall i: nat | i < |segs| ensures Image(codec, d', i) == Image(codec, d, i) {
    }
  }

  /** A stamped event is as printable as it was before. */
  lemma {:induction false} StampedIsPrintable(e: Event, n: nat, now: Time)
    requires Printable(e)
    ensures Printable(Stamped(e, n, now))
  {
  }

  /** An append's effect on the sequence, and its two writes in those terms. */
  lemma {:induction false} AppendInMemory(c: Chain, e: Event, now: Time)
    requires WellFormed(c)
    ensures Appended(c, e, now).Ok?
    ensures var c', n := Appended(c, e, now).value, c.meta.sessionCount;
            && Keyed(c') && c'.meta.sessionCount == n
            && Segs(c') == SessionLog.Append(Segs(c), Stamped(e, c.meta.totalEvents + 1, now))
            && AppendWrites(c') == [WriteSession(Segs(c')[n - 1].record, Segs(c')[n - 1].events), WriteMeta(c'.meta)]
  {
    WellFormedIsLive(c);
    AppendedIsAppend(c, e, now);
    SegAt(Appended(c, e, now).value, c.meta.sessionCount - 1);
  }

  lemma {:induction false} AppendedSegments(threadId: string, segs: seq<Segment>, stored: Event)
    requires segs != [] && Ranges(threadId, segs)
    ensures var n, segs' := |segs|, SessionLog.Append(segs, stored);
            segs' == segs[n - 1 := segs'[n - 1]] && segs'[n - 1].record.id == SessionId(n)
  {
    assert Placed(threadId, segs, |segs| - 1);
  }

  lemma {:induction false} AppendedArePrintable(segs: seq<Segment>, e: Event, n: nat, now: Time)
    requires segs != [] && PrintableSegs(segs) && Printable(e)
    ensures PrintableSegs(SessionLog.Append(segs, Stamped(e, n, now)))
  {
    StampedIsPrintable(e, n, now);
    var segs' := SessionLog.Append(segs, Stamped(e, n, now));
    forall i | 0 <= i < |segs| ensures AllPrintable(segs'[i].events) {
      assert AllPrintable(segs[i].events);
    }
  }

  function AppendFiles(segs: seq<Segment>, meta: Meta): seq<Write>
    requires segs != []
  {
    var last := segs[|segs| - 1];
    [WriteSession(last.record, last.events), WriteMeta(meta)]
  }

  /** After its first write the files hold the new event; only the metadata is old. */
  lemma {:induction false} AppendOnDisk(codec: Codec, d: Disk, threadId: string, segs: seq<Segment>, stored: Event, meta: Meta)
    requires Lawful(codec) && segs != [] && Ranges(threadId, segs) && Stored(codec, d, segs)
    requires PrintableSegs(SessionLog.Append(segs, stored))
    ensures var segs' := SessionLog.Append(segs, stored);
            var ws := AppendFiles(segs', meta);
            && ApplyAll(codec, d, ws) == Apply(codec, Apply(codec, d, ws[0]), ws[1])
            && Stored(codec, Apply(codec, d, ws[0]), segs') && Apply(codec, d, ws[0]).meta == d.meta
            && Stored(codec, ApplyAll(codec, d, ws), segs')
  {
    var n, segs' := |segs|, SessionLog.Append(segs, stored);
    AppendedSegments(threadId, segs, stored);
    var ws := AppendFiles(segs', meta);
    ApplyTwo(codec, d, ws[0], ws[1]);
    StoredAfterWrite(codec, d, segs, n - 1, segs'[n - 1]);
    StoredAfterMeta(codec, Apply(codec, d, ws[0]), segs', meta);
  }

  lemma {:induction false} AppendStays(codec: Codec, c: Chain, d: Disk, e: Event, now: Time)
    requires Lawful(codec) && Consistent(codec, c, d)
    requires PrintableSegs(SessionLog.Append(Segs(c), Stamped(e, c.meta.totalEvents + 1, now)))
    ensures Appended(c, e, now).Ok?
    ensures var c' := Appended(c, e, now).value;
            Consistent(codec, c', ApplyAll(codec, d, AppendWrites(c'))) && Later(Segs(c), Segs(c'))
  {
    AppendInMemory(c, e, now);
    AppendKeepsChain(c, e, now);
    var c' := Appended(c, e, now).value;
    AppendOnDisk(codec, d, c.meta.threadId, Segs(c), Stamped(e, c.meta.totalEvents + 1, now), c'.meta);
    assert AppendWrites(c') == AppendFiles(Segs(c'), c'.meta);
    AppendIsLater(c.meta.threadId, Segs(c), Stamped(e, c.meta.totalEvents + 1, now));
  }

  lemma {:induction false} SealInMemory(c: Chain, now: Time)
    requires WellFormed(c)
    ensures SealedOff(c, c.meta.threadId, now).Ok?
    ensures var c', n := SealedOff(c, c.meta.threadId, now).value, c.meta.sessionCount;
            && Keyed(c') && c'.meta.sessionCount == n + 1 && c.meta.activeSessionId in c'.sessions
            && c'.meta.threadId == c.meta.threadId && c'.meta.activeSessionId == SessionId(n + 1)
            && Segs(c') == SessionLog.Seal(c.meta.threadId, Segs(c), now)
            && SealWrites(c', c.meta.activeSessionId)
               == [WriteSession(Segs(c')[n - 1].record, Segs(c')[n - 1].events),
                   WriteSession(Segs(c')[n].record, Segs(c')[n].events), WriteMeta(c'.meta)]
  {
    WellFormedIsLive(c);
    SealedOffIsSeal(c, now);
    SegAt(SealedOff(c, c.meta.threadId, now).value, c.meta.sessionCount - 1);
    SegAt(SealedOff(c, c.meta.threadId, now).value, c.meta.sessionCount);
  }

  lemma {:induction false} SealedSegments(threadId: string, segs: seq<Segment>, now: Time)
    requires segs != [] && Ranges(threadId, segs) && PrintableSegs(segs)
    ensures var n, segs' := |segs|, SessionLog.Seal(threadId, segs, now);
            && PrintableSegs(segs')
            && segs'[..n] == segs[n - 1 := segs'[n - 1]] && segs' == segs[n - 1 := segs'[n - 1]] + [segs'[n]]
            && segs'[n - 1].record.id == SessionId(n) && segs'[n].record.id == SessionId(n + 1)
  {
    assert Placed(threadId, segs, |segs| - 1);
  }

  function SealFiles(segs: seq<Segment>, meta: Meta): seq<Write>
    requires |segs| >= 2
  {
    var closed, last := segs[|segs| - 2], segs[|segs| - 1];
    [WriteSession(closed.record, closed.events), WriteSession(last.record, last.events), WriteMeta(meta)]
  }

  /** After its first write the old session is closed, after its second the new one is there, too. */
  lemma {:induction false} SealOnDisk(codec: Codec, d: Disk, threadId: string, segs: seq<Segment>, now: Time, meta: Meta)
    requires Lawful(codec) && segs != [] && Ranges(threadId, segs) && Stored(codec, d, segs) && PrintableSegs(segs)
    ensures var segs', n := SessionLog.Seal(threadId, segs, now), |segs|;
            var ws := SealFiles(segs', meta);
            && ApplyAll(codec, d, ws) == Apply(codec, Apply(codec, Apply(codec, d, ws[0]), ws[1]), ws[2])
            && Stored(codec, Apply(codec, d, ws[0]), segs'[..n]) && Apply(codec, d, ws[0]).meta == d.meta
            && Stored(codec, Apply(codec, Apply(codec, d, ws[0]), ws[1]), segs')
            && Apply(codec, Apply(codec, d, ws[0]), ws[1]).meta == d.meta
            && Stored(codec, ApplyAll(codec, d, ws), segs')
  {
    var n, segs' := |segs|, SessionLog.Seal(threadId, segs, now);
    var ws := SealFiles(segs', meta);
    ApplyThree(codec, d, ws[0], ws[1], ws[2]);
    SealedSegments(threadId, segs, now);
    assert AllPrintable(segs'[n - 1].events) && AllPrintable(segs'[n].events);
    StoredAfterWrite(codec, d, segs, n - 1, segs'[n - 1]);
    StoredAfterWrite(codec, Apply(codec, d, ws[0]), segs'[..n], n, segs'[n]);
    StoredAfterMeta(codec, Apply(codec, Apply(codec, d, ws[0]), ws[1]), segs', meta);
  }

  lemma {:induction false} SealStays(codec: Codec, c: Chain, d: Disk, now: Time)
    requires Lawful(codec) && Consistent(codec, c, d)
    ensures SealedOff(c, c.meta.threadId, now).Ok?
    ensures var c' := SealedOff(c, c.meta.threadId, now).value;
            && c.meta.activeSessionId in c'.sessions
            && Consistent(codec, c', ApplyAll(codec, d, SealWrites(c', c.meta.activeSessionId)))
            && Later(Segs(c), Segs(c'))
  {
    SealInMemory(c, now);
    SealedSegments(c.meta.threadId, Segs(c), now);
    SealKeepsChain(c, now);
    var c' := SealedOff(c, c.meta.threadId, now).value;
    SealOnDisk(codec, d, c.meta.threadId, Segs(c), now, c'.meta);
    assert SealWrites(c', c.meta.activeSessionId) == SealFiles(Segs(c'), c'.meta);
    SealIsLater(c.meta.threadId, Segs(c), now);
  }

  lemma {:induction false} CommitInMemory(c: Chain, k: nat, summary: string)
    requires WellFormed(c) && PrintableSegs(Segs(c)) && k < c.meta.sessionCount
    ensures SessionId(k + 1) in c.sessions
    ensures var c' := Committed(c, SessionId(k + 1), summary);
            && Keyed(c') && c'.meta == c.meta && Segs(c') == Commit(Segs(c), k, summary) && PrintableSegs(Segs(c'))
            && Segs(c')[k].record.id == SessionId(k + 1)
            && CommitWrites(c', SessionId(k + 1)) == [WriteSession(Segs(c')[k].record, Segs(c')[k].events)]
  {
    CommittedIsCommit(c, k, summary);
    SegAt(Committed(c, SessionId(k + 1), summary), k);
    assert Placed(c.meta.threadId, Segs(c), k);
  }

  lemma {:induction false} CommitStays(codec: Codec, c: Chain, d: Disk, k: nat, summary: string)
    requires Lawful(codec) && Consistent(codec, c, d) && k < c.meta.sessionCount - 1
    ensures SessionId(k + 1) in c.sessions
    ensures var c' := Committed(c, SessionId(k + 1), summary);
            && Consistent(codec, c', ApplyAll(codec, d, CommitWrites(c', SessionId(k + 1))))
            && Later(Segs(c), Segs(c'))
  {
    CommitInMemory(c, k, summary);
    CommitKeepsChain(c, k, summary);
    CommitIsLater(c.meta.threadId, Segs(c), k, summary);
    var c' := Committed(c, SessionId(k + 1), summary);
    assert AllPrintable(Segs(c')[k].events);
    ApplyOne(codec, d, CommitWrites(c', SessionId(k + 1))[0]);
    StoredAfterWrite(codec, d, Segs(c), k, Segs(c')[k]);
  }

  lemma {:induction false} ReloadStays(codec: Codec, c: Chain, d: Disk)
    requires Lawful(codec) && Consistent(codec, c, d)
    ensures var r := Load(codec, d);
            r.LoadedChain? && Consistent(codec, r.chain, d) && Later(Segs(c), Segs(r.chain))
  {
    LoadIsNormal(codec, d, c);
    var c' := Load(codec, d).chain;
    NormalKeepsGood(c.meta.threadId, Segs(c));
    NormalSegsIdempotent(Segs(c));
    ReloadIsLater(Segs(c));
    forall i: nat | i < c.meta.sessionCount
      ensures Image(codec, d, i) == Loaded(NormalRecord(Segs(c')[i].record), NormalEvents(Segs(c')[i].events))
    {
      assert NormalSegs(NormalSegs(Segs(c)))[i] == NormalSegs(Segs(c))[i];
    }
  }

  // ----- One step -----

  /** A session that is not active keeps its ID and its events through every locked region. */
  lemma {:induction false} UpToDateStays(c: Chain, c': Chain, p: Compression)
    requires UpToDate(c, p) && c.meta.sessionCount <= c'.meta.sessionCount
    requires EventsOf(c', p.sessionId) == EventsOf(c, p.sessionId)
    ensures UpToDate(c', p)
  {
  }

  lemma {:induction false} AppendLeavesOthers(c: Chain, e: Event, now: Time, p: Compression)
    requires WellFormed(c) && Appended(c, e, now).Ok? && UpToDate(c, p)
    ensures UpToDate(Appended(c, e, now).value, p)
  {
    SessionIdsDiffer(Numeral(p.sessionId), c.meta.sessionCount);
    UpToDateStays(c, Appended(c, e, now).value, p);
  }

  lemma {:induction false} SealLeavesOthers(c: Chain, now: Time, p: Compression)
    requires SealedOff(c, c.meta.threadId, now).Ok? && UpToDate(c, p)
    ensures UpToDate(SealedOff(c, c.meta.threadId, now).value, p)
  {
    SessionIdsDiffer(Numeral(p.sessionId), c.meta.sessionCount + 1);
    UpToDateStays(c, SealedOff(c, c.meta.threadId, now).value, p);
  }

  lemma {:induction false} AppendStep(codec: Codec, s: State, e: Event, now: Time)
    requires Lawful(codec) && Inv(codec, s)
    requires PrintableSegs(SessionLog.Append(Segs(s.chain), Stamped(e, s.chain.meta.totalEvents + 1, now)))
    ensures var s' := Append(codec, s, e, now);
            Inv(codec, s') && Later(Segs(s.chain), Segs(s'.chain))
  {
    AppendStays(codec, s.chain, s.disk, e, now);
    forall t | t in s.compressing ensures UpToDate(Appended(s.chain, e, now).value, s.compressing[t]) {
      AppendLeavesOthers(s.chain, e, now, s.compressing[t]);
    }
  }

  lemma {:induction false} SealStep(codec: Codec, s: State, now: Time)
    requires Lawful(codec) && Inv(codec, s)
    ensures var s' := Seal(codec, s, now);
            Inv(codec, s') && Later(Segs(s.chain), Segs(s'.chain))
  {
    SealStays(codec, s.chain, s.disk, now);
    forall t | t in s.compressing
      ensures UpToDate(SealedOff(s.chain, s.chain.meta.threadId, now).value, s.compressing[t])
    {
      SealLeavesOthers(s.chain, now, s.compressing[t]);
    }
  }

  lemma {:induction false} CompressingIsNotActive(c: Chain, id: string)
    requires WellFormed(c) && id in c.sessions && c.sessions[id].status != Active
    ensures IsSessionId(id, c.meta.sessionCount - 1)
  {
    var k := Numeral(id) - 1;
    SegAt(c, k);
    assert Settled(Segs(c)[k], k == c.meta.sessionCount - 1);
  }

  lemma {:induction false} BeginStep(codec: Codec, s: State, ticket: nat, id: string)
    requires Inv(codec, s)
    ensures var s' := BeginCompression(s, ticket, id);
            Inv(codec, s') && s'.chain == s.chain
  {
    if BeginCompression(s, ticket, id) != s {
      CompressingIsNotActive(s.chain, id);
    }
  }

  lemma {:induction false} CommitLeavesOthers(c: Chain, id: string, summary: string, p: Compression)
    requires id in c.sessions && UpToDate(c, p)
    ensures UpToDate(Committed(c, id, summary), p)
  {
  }

  lemma {:induction false} EndStep(codec: Codec, s: State, ticket: nat, condense: string -> string)
    requires Lawful(codec) && Inv(codec, s)
    ensures var s' := EndCompression(codec, s, ticket, condense);
            Inv(codec, s') && Later(Segs(s.chain), Segs(s'.chain))
  {
    LaterReflexive(Segs(s.chain));
    if ticket in s.compressing {
      var p := s.compressing[ticket];
      var k := Numeral(p.sessionId) - 1;
      assert UpToDate(s.chain, p);
      CommitStays(codec, s.chain, s.disk, k, condense(p.transcript));
      forall t | t in s.compressing
        ensures UpToDate(Committed(s.chain, SessionId(k + 1), condense(p.transcript)), s.compressing[t])
      {
        CommitLeavesOthers(s.chain, SessionId(k + 1), condense(p.transcript), s.compressing[t]);
      }
    }
  }

  lemma {:induction false} RestartShows(codec: Codec, s: State)
    requires Load(codec, s.disk).LoadedChain?
    ensures Step(codec, s, Restart) == State(Load(codec, s.disk).chain, s.disk, 0, map[])
  {
  }

  lemma {:induction false} CheckEndShows(codec: Codec, s: State, now: Time)
    ensures Step(codec, s, CheckEnd(now)) == if s.sealing == 0 then s else Seal(codec, s.(sealing := s.sealing - 1), now)
  {
  }

  lemma {:induction false} RegionShows(codec: Codec, s: State, a: Action)
    ensures a.AppendEvent? ==> Step(codec, s, a) == Append(codec, s, a.event, a.now)
    ensures a.SealActiveSession? ==> Step(codec, s, a) == Seal(codec, s, a.now)
    ensures a.CompressEnd? ==> Step(codec, s, a) == EndCompression(codec, s, a.ticket, a.condense)
  {
  }

  lemma {:induction false} RestartStep(codec: Codec, s: State)
    requires Lawful(codec) && Inv(codec, s)
    ensures var s' := Step(codec, s, Restart);
            Inv(codec, s') && Later(Segs(s.chain), Segs(s'.chain))
  {
    ReloadStays(codec, s.chain, s.disk);
    RestartShows(codec, s);
  }

  lemma {:induction false} CheckEndStep(codec: Codec, s: State, now: Time)
    requires Lawful(codec) && Inv(codec, s)
    ensures var s' := Step(codec, s, CheckEnd(now));
            Inv(codec, s') && Later(Segs(s.chain), Segs(s'.chain))
  {
    LaterReflexive(Segs(s.chain));
    CheckEndShows(codec, s, now);
    if s.sealing > 0 {
      SealStep(codec, s.(sealing := s.sealing - 1), now);
    }
  }

  lemma {:induction false} AppendActionStep(codec: Codec, s: State, a: Action)
    requires Lawful(codec) && Inv(codec, s) && a.AppendEvent? && Admissible(a)
    ensures var s' := Step(codec, s, a);
            Inv(codec, s') && Later(Segs(s.chain), Segs(s'.chain))
  {
    WellFormedIsLive(s.chain);
    AppendedArePrintable(Segs(s.chain), a.event, s.chain.meta.totalEvents + 1, a.now);
    AppendStep(codec, s, a.event, a.now);
    RegionShows(codec, s, a);
  }

  lemma {:induction false} ReadingShows(codec: Codec, s: State, a: Action)
    requires a.CheckBegin? || a.CompressBegin? || a.CompressFails?
    ensures var s' := Step(codec, s, a);
            && s'.chain == s.chain && s'.disk == s.disk
            && if a.CompressBegin? then s' == BeginCompression(s, a.ticket, a.sessionId)
               else forall t :: t in s'.compressing ==> t in s.compressing && s'.compressing[t] == s.compressing[t]
  {
  }

  /** Neither region that only reads, nor a compressor that fails, changes the chain. */
  lemma {:induction false} ReadingStep(codec: Codec, s: State, a: Action)
    requires Inv(codec, s) && (a.CheckBegin? || a.CompressBegin? || a.CompressFails?)
    ensures Inv(codec, Step(codec, s, a)) && Step(codec, s, a).chain == s.chain && Step(codec, s, a).disk == s.disk
  {
    ReadingShows(codec, s, a);
    if a.CompressBegin? {
      BeginStep(codec, s, a.ticket, a.sessionId);
    }
  }

  /** Every step keeps the invariant, and nothing goes backwards. */
  lemma {:induction false} StepKeeps(codec: Codec, s: State, a: Action)
    requires Lawful(codec) && Inv(codec, s) && Admissible(a)
    ensures var s' := Step(codec, s, a);
            Inv(codec, s') && Later(Segs(s.chain), Segs(s'.chain))
  {
    RegionShows(codec, s, a);
    match a {
      case AppendEvent(_, _) => AppendActionStep(codec, s, a);
      case SealActiveSession(now) => SealStep(codec, s, now);
      case CheckEnd(now) => CheckEndStep(codec, s, now);
      case CompressEnd(ticket, condense) => EndStep(codec, s, ticket, condense);
      case Restart => RestartStep(codec, s);
      case _ =>
        ReadingStep(codec, s, a);
        LaterReflexive(Segs(s.chain));
    }
  }

  // ----- Every run -----

  lemma {:induction false} NewSegments(threadId: string, now: Time)
    ensures var c := NewChain(threadId, now);
            var first := Segment(NewRecord(SessionId(1), threadId, 1, 0, now), []);
            && Keyed(c) && Segs(c) == [] + [first]
            && CreateWrites(c) == [WriteMeta(c.meta), WriteSession(first.record, first.events)]
  {
    NewChainIsWellFormed(threadId, now);
    SegAt(NewChain(threadId, now), 0);
  }

  lemma {:induction false} StartIsStored(codec: Codec, threadId: string, now: Time)
    requires Lawful(codec)
    ensures var c := NewChain(threadId, now);
            Synced(codec, ApplyAll(codec, EMPTY_DISK, CreateWrites(c)), c)
  {
    var c := NewChain(threadId, now);
    var first := Segment(NewRecord(SessionId(1), threadId, 1, 0, now), []);
    NewSegments(threadId, now);
    ApplyTwo(codec, EMPTY_DISK, WriteMeta(c.meta), WriteSession(first.record, first.events));
    StoredAfterWrite(codec, Apply(codec, EMPTY_DISK, WriteMeta(c.meta)), [], 0, first);
  }

  lemma {:induction false} StartIsInv(codec: Codec, threadId: string, now: Time)
    requires Lawful(codec)
    ensures Inv(codec, Start(codec, threadId, now))
  {
    NewChainIsWellFormed(threadId, now);
    NewSegments(threadId, now);
    StartIsStored(codec, threadId, now);
  }

  /** The invariant holds after every run, and whatever was so before the run stays so after it. */
  lemma {:induction false} RunKeeps(codec: Codec, s: State, actions: seq<Action>)
    requires Lawful(codec) && Inv(codec, s) && AllAdmissible(actions)
    ensures Inv(codec, Run(codec, s, actions))
    ensures Later(Segs(s.chain), Segs(Run(codec, s, actions).chain))
  {
    if actions == [] {
      LaterReflexive(Segs(s.chain));
    } else {
      var n := |actions| - 1;
      var before := Run(codec, s, actions[..n]);
      RunKeeps(codec, s, actions[..n]);
      StepKeeps(codec, before, actions[n]);
      LaterTransitive(Segs(s.chain), Segs(before.chain), Segs(Step(codec, before, actions[n]).chain));
    }
  }

  /** The log has the events 1, 2, 3, …, as many as the metadata counts. */
  ghost predicate Numbered(c: Chain) {
    && Keyed(c) && |LogOf(c)| == c.meta.totalEvents
    && forall k :: 0 <= k < |LogOf(c)| ==> LogOf(c)[k].eventNo == k + 1
  }

  /** The files read back as the chain in memory, in normal form. */
  ghost predicate Mirrored(codec: Codec, c: Chain, d: Disk) {
    && Keyed(c) && ReadLog(codec, d) == NormalEvents(LogOf(c))
    && Load(codec, d).LoadedChain?
    && var loaded := Load(codec, d).chain;
       loaded.meta == c.meta && Keyed(loaded) && Segs(loaded) == NormalSegs(Segs(c))
  }

  lemma {:induction false} WellFormedIsNumbered(c: Chain)
    requires WellFormed(c)
    ensures Numbered(c)
  {
    WellFormedIsLive(c);
    LogIsNumbered(c.meta.threadId, Segs(c));
  }

  lemma {:induction false} SyncedIsMirrored(codec: Codec, c: Chain, d: Disk)
    requires Synced(codec, d, c)
    ensures Mirrored(codec, c, d)
  {
    LoadIsNormal(codec, d, c);
    ReadLogOfStored(codec, d, Segs(c));
  }

  /** Restart transparency: after every run from a new thread, the files say what memory says. */
  lemma {:induction false} EveryRunIsSound(codec: Codec, threadId: string, now: Time, actions: seq<Action>)
    requires Lawful(codec) && AllAdmissible(actions)
    ensures var s := Run(codec, Start(codec, threadId, now), actions);
            WellFormed(s.chain) && Numbered(s.chain) && Mirrored(codec, s.chain, s.disk)
  {
    StartIsInv(codec, threadId, now);
    RunKeeps(codec, Start(codec, threadId, now), actions);
    var s := Run(codec, Start(codec, threadId, now), actions);
    WellFormedIsNumbered(s.chain);
    SyncedIsMirrored(codec, s.chain, s.disk);
  }

  /** What a restart loads is in normal form already, so saving and loading it again changes nothing more. */
  lemma {:induction false} RestartIsFixedPoint(codec: Codec, s: State)
    requires Lawful(codec) && Inv(codec, s)
    ensures Load(codec, s.disk).LoadedChain?
    ensures var c := Load(codec, s.disk).chain;
            Keyed(c) && NormalSegs(Segs(c)) == Segs(c)
  {
    LoadIsNormal(codec, s.disk, s.chain);
    NormalSegsIdempotent(Segs(s.chain));
  }

  lemma {:induction false} CommitShows(codec: Codec, s: State, ticket: nat, condense: string -> string)
    requires ticket in s.compressing && s.compressing[ticket].sessionId in s.chain.sessions
    ensures var p := s.compressing[ticket];
            var after := Step(codec, s, CompressEnd(ticket, condense));
            && p.sessionId in after.chain.sessions
            && after.chain.sessions[p.sessionId].summary == condense(p.transcript)
            && after.chain.sessions[p.sessionId].status == Sealed
            && after.chain.events == s.chain.events
  {
  }

  /** The first region of a compression takes down what the session holds. */
  lemma {:induction false} CompressionBegins(codec: Codec, s: State, ticket: nat, id: string)
    requires ticket !in s.compressing && id in s.chain.sessions && s.chain.sessions[id].status == Compressing
    ensures var s' := Step(codec, s, CompressBegin(ticket, id));
            && ticket in s'.compressing && s'.compressing[ticket].sessionId == id
            && IsTranscript(s'.compressing[ticket].transcript, EventsOf(s.chain, id))
            && s'.chain == s.chain && s'.disk == s.disk && s'.compressing - {ticket} == s.compressing
  {
    TranscriptIsComplete(EventsOf(s.chain, id));
  }

  /** A compressor's failure leaves chain and files alone, and the session can be tried again. */
  lemma {:induction false} FailedCompressionIsRetried(codec: Codec, s: State, ticket: nat, again: nat)
    requires ticket in s.compressing && (again !in s.compressing || again == ticket)
    requires s.compressing[ticket].sessionId in s.chain.sessions
    requires s.chain.sessions[s.compressing[ticket].sessionId].status == Compressing
    ensures var id := s.compressing[ticket].sessionId;
            var failed := Step(codec, s, CompressFails(ticket));
            var s' := Step(codec, failed, CompressBegin(again, id));
            && ticket !in failed.compressing && failed.chain == s.chain && failed.disk == s.disk
            && again in s'.compressing && s'.compressing[again].sessionId == id
            && IsTranscript(s'.compressing[again].transcript, EventsOf(s.chain, id))
  {
    CompressionBegins(codec, Step(codec, s, CompressFails(ticket)), again, s.compressing[ticket].sessionId);
  }

  /**
   * Two-phase compression is sound: the summary that the second region commits was made from exactly the
   * events that its session holds then, whatever ran between the two regions.
   */
  lemma {:induction false} CommitsMatchEvents(codec: Codec, s: State, actions: seq<Action>, ticket: nat,
      condense: string -> string)
    requires Lawful(codec) && Inv(codec, s) && AllAdmissible(actions)
    requires ticket in Run(codec, s, actions).compressing
    ensures var before := Run(codec, s, actions);
            var id := before.compressing[ticket].sessionId;
            var after := Step(codec, before, CompressEnd(ticket, condense));
            && id in before.chain.sessions && id in after.chain.sessions && id != before.chain.meta.activeSessionId
            && IsTranscript(before.compressing[ticket].transcript, EventsOf(before.chain, id))
            && after.chain.sessions[id].summary == condense(before.compressing[ticket].transcript)
            && after.chain.sessions[id].status == Sealed
            && after.chain.events == before.chain.events
  {
    RunKeeps(codec, s, actions);
    var before := Run(codec, s, actions);
    var p := before.compressing[ticket];
    UpToDateIsThere(before.chain, p);
    TranscriptIsComplete(EventsOf(before.chain, p.sessionId));
    CommitShows(codec, before, ticket, condense);
  }

  lemma {:induction false} UpToDateIsThere(c: Chain, p: Compression)
    requires WellFormed(c) && UpToDate(c, p)
    ensures p.sessionId in c.sessions && p.sessionId != c.meta.activeSessionId
  {
    SessionIdsDiffer(Numeral(p.sessionId), c.meta.sessionCount);
  }

  // ----- The log is what was appended -----

  lemma {:induction false} AppendRegion(codec: Codec, s: State, e: Event, now: Time)
    requires WellFormed(s.chain)
    ensures Keyed(Append(codec, s, e, now).chain)
    ensures var n, log' := |LogOf(s.chain)|, LogOf(Append(codec, s, e, now).chain);
            |log'| == n + 1 && log'[..n] == LogOf(s.chain) && StoredAs(e, log'[n], n + 1, now)
  {
    AppendStoresGiven(s.chain, e, now);
  }

  lemma {:induction false} SealRegion(codec: Codec, s: State, now: Time)
    requires WellFormed(s.chain)
    ensures Keyed(Seal(codec, s, now).chain) && LogOf(Seal(codec, s, now).chain) == LogOf(s.chain)
  {
    SealKeepsChain(s.chain, now);
  }

  lemma {:induction false} EndShows(codec: Codec, s: State, ticket: nat, condense: string -> string)
    requires ticket in s.compressing && s.compressing[ticket].sessionId in s.chain.sessions
    ensures var p := s.compressing[ticket];
            EndCompression(codec, s, ticket, condense).chain == Committed(s.chain, p.sessionId, condense(p.transcript))
  {
  }

  lemma {:induction false} EndRegion(codec: Codec, s: State, ticket: nat, condense: string -> string)
    requires Inv(codec, s)
    ensures var c := EndCompression(codec, s, ticket, condense).chain;
            Keyed(c) && LogOf(c) == LogOf(s.chain)
  {
    if ticket in s.compressing {
      var p := s.compressing[ticket];
      var k := Numeral(p.sessionId) - 1;
      assert UpToDate(s.chain, p) && p.sessionId == SessionId(k + 1);
      CommitKeepsChain(s.chain, k, condense(p.transcript));
      EndShows(codec, s, ticket, condense);
    }
  }

  lemma {:induction false} RestartRegion(codec: Codec, s: State)
    requires Inv(codec, s)
    ensures var c := Step(codec, s, Restart).chain;
            Keyed(c) && LogOf(c) == NormalEvents(LogOf(s.chain))
  {
    LoadIsNormal(codec, s.disk, s.chain);
    LogOfNormal(Segs(s.chain));
    RestartShows(codec, s);
  }

  ghost predicate LogFollows(log: seq<Event>, log': seq<Event>, a: Action) {
    match a
    case AppendEvent(e, now) => |log'| == |log| + 1 && log'[..|log|] == log && StoredAs(e, log'[|log|], |log| + 1, now)
    case Restart => log' == NormalEvents(log)
    case _ => log' == log
  }

  /** Between restarts a log only changes by the events that are appended. */
  lemma {:induction false} LogStep(codec: Codec, s: State, a: Action)
    requires Inv(codec, s)
    ensures Keyed(Step(codec, s, a).chain)
    ensures LogFollows(LogOf(s.chain), LogOf(Step(codec, s, a).chain), a)
  {
    RegionShows(codec, s, a);
    match a {
      case AppendEvent(e, now) => AppendRegion(codec, s, e, now);
      case SealActiveSession(now) => SealRegion(codec, s, now);
      case CheckEnd(now) =>
        CheckEndShows(codec, s, now);
        if s.sealing > 0 {
          SealRegion(codec, s.(sealing := s.sealing - 1), now);
        }
      case CompressEnd(ticket, condense) => EndRegion(codec, s, ticket, condense);
      case Restart => RestartRegion(codec, s);
      case _ => ReadingShows(codec, s, a);
    }
  }

  /** The j-th stored event is the event of the j-th append. */
  ghost predicate AreStored(stored: seq<Event>, actions: seq<Action>, picked: seq<nat>) {
    && |stored| == |picked|
    && forall j :: 0 <= j < |picked| ==>
         && picked[j] < |actions| && actions[picked[j]].AppendEvent?
         && StoredAs(actions[picked[j]].event, stored[j], j + 1, actions[picked[j]].now)
  }

  ghost function Appends(actions: seq<Action>): nat -> bool {
    (i: nat) => i < |actions| && actions[i].AppendEvent?
  }

  /** As it was stored, or, after a restart, as its session file kept it. */
  ghost predicate SameOrKept(stored: seq<Event>, log: seq<Event>) {
    |log| == |stored| && forall j :: 0 <= j < |stored| ==> log[j] == stored[j] || KeptEvent(stored[j], log[j])
  }

  lemma {:induction false} StoredStay(stored: seq<Event>, actions: seq<Action>, a: Action, picked: seq<nat>)
    requires AreStored(stored, actions, picked)
    ensures AreStored(stored, actions + [a], picked)
  {
  }

  lemma {:induction false} PickedStay(actions: seq<Action>, a: Action, picked: seq<nat>)
    requires Exactly(picked, |actions|, Appends(actions))
    ensures Exactly(picked, |actions|, Appends(actions + [a]))
  {
    forall i: nat | i < |actions| ensures Appends(actions + [a])(i) == Appends(actions)(i) {
      assert (actions + [a])[i] == actions[i];
    }
  }

  lemma {:induction false} StoredNext(stored: seq<Event>, actions: seq<Action>, a: Action, picked: seq<nat>, e: Event)
    requires AreStored(stored, actions, picked) && Exactly(picked, |actions|, Appends(actions))
    requires a.AppendEvent? && StoredAs(a.event, e, |stored| + 1, a.now)
    ensures AreStored(stored + [e], actions + [a], picked + [|actions|])
    ensures Exactly(picked + [|actions|], |actions| + 1, Appends(actions + [a]))
  {
    PickedStay(actions, a, picked);
    ExactlyTakes(picked, |actions|, Appends(actions + [a]));
  }

  lemma {:induction false} NormalStaysKept(stored: seq<Event>, log: seq<Event>)
    requires SameOrKept(stored, log)
    ensures SameOrKept(stored, NormalEvents(log))
  {
    forall j | 0 <= j < |stored| ensures KeptEvent(stored[j], NormalEvents(log)[j]) {
      NormalIdempotent(stored[j]);
      NormalKeepsEvent(stored[j]);
    }
  }

  /** The log after some actions, when it was empty before them. */
  ghost predicate IsLogOf(log: seq<Event>, stored: seq<Event>, actions: seq<Action>, picked: seq<nat>) {
    && Exactly(picked, |actions|, Appends(actions)) && AreStored(stored, actions, picked)
    && SameOrKept(stored, log) && (Restart !in actions ==> log == stored)
  }

  lemma {:induction false} IsLogAfterAppend(log: seq<Event>, log': seq<Event>, stored: seq<Event>,
                                            actions: seq<Action>, a: Action, picked: seq<nat>)
    requires IsLogOf(log, stored, actions, picked) && LogFollows(log, log', a) && a.AppendEvent?
    ensures IsLogOf(log', stored + [log'[|log|]], actions + [a], picked + [|actions|])
  {
    var e := log'[|log|];
    StoredNext(stored, actions, a, picked, e);
    assert log' == log + [e];
  }

  lemma {:induction false} IsLogAfterOther(log: seq<Event>, log': seq<Event>, stored: seq<Event>,
                                           actions: seq<Action>, a: Action, picked: seq<nat>)
    requires IsLogOf(log, stored, actions, picked) && LogFollows(log, log', a) && !a.AppendEvent?
    ensures IsLogOf(log', stored, actions + [a], picked)
  {
    StoredStay(stored, actions, a, picked);
    PickedStay(actions, a, picked);
    ExactlySkips(picked, |actions|, Appends(actions + [a]));
    if a.Restart? {
      NormalStaysKept(stored, log);
    }
  }

  /**
   * After every run the log has the events that were appended, one for each append and in the appends' order, and
   * no others: each as it was given, with its number, time and estimate, or as the session files kept it.
   */
  lemma {:induction false} LogIsWhatWasAppended(codec: Codec, threadId: string, now: Time, actions: seq<Action>)
    returns (picked: seq<nat>, stored: seq<Event>)
    requires Lawful(codec) && AllAdmissible(actions)
    ensures Exactly(picked, |actions|, Appends(actions)) && AreStored(stored, actions, picked)
    ensures var c := Run(codec, Start(codec, threadId, now), actions).chain;
            && Keyed(c) && SameOrKept(stored, LogOf(c))
            && (Restart !in actions ==> LogOf(c) == stored)
  {
    if actions == [] {
      picked, stored := [], [];
      NewChainIsWellFormed(threadId, now);
    } else {
      var init, a := actions[..|actions| - 1], actions[|actions| - 1];
      assert init + [a] == actions;
      var s := Run(codec, Start(codec, threadId, now), init);
      picked, stored := LogIsWhatWasAppended(codec, threadId, now, init);
      StartIsInv(codec, threadId, now);
      RunKeeps(codec, Start(codec, threadId, now), init);
      LogStep(codec, s, a);
      picked, stored := LogAfter(LogOf(s.chain), LogOf(Step(codec, s, a).chain), stored, init, a, picked);
    }
  }

  lemma {:induction false} LogAfter(log: seq<Event>, log': seq<Event>, stored: seq<Event>, actions: seq<Action>,
                                    a: Action, picked: seq<nat>)
    returns (picked': seq<nat>, stored': seq<Event>)
    requires IsLogOf(log, stored, actions, picked) && LogFollows(log, log', a)
    ensures IsLogOf(log', stored', actions + [a], picked')
  {
    if a.AppendEvent? {
      IsLogAfterAppend(log, log', stored, actions, a, picked);
      picked', stored' := picked + [|actions|], stored + [log'[|log|]];
    } else {
      IsLogAfterOther(log, log', stored, actions, a, picked);
      picked', stored' := picked, stored;
    }
  }

  lemma {:induction false} SessionStays(c: Chain, c': Chain, id: string)
    requires WellFormed(c) && WellFormed(c') && Later(Segs(c), Segs(c')) && id in c.sessions
    ensures id in c'.sessions && c'.sessions[id].startEvent == c.sessions[id].startEvent
  {
    var k := Numeral(id) - 1;
    SegAt(c, k);
    SegAt(c', k);
    assert SegmentLater(Segs(c)[k], Segs(c')[k]);
  }

  lemma {:induction false} TailOfGrown(log: seq<Event>, log': seq<Event>, n: nat)
    requires NormalEvents(log) <= NormalEvents(log') && n <= |log|
    ensures n <= |log'| && NormalEvents(log[n..]) <= NormalEvents(log'[n..])
  {
    assert NormalEvents(log[n..]) == NormalEvents(log)[n..] && NormalEvents(log'[n..]) == NormalEvents(log')[n..];
  }

  lemma {:induction false} TailIsSlice(log: seq<Event>, n: nat)
    requires n <= |log|
    ensures Tail(log, n) == log[n..]
  {
  }

  lemma {:induction false} PositionStays(c: Chain, c': Chain, id: string, n: nat)
    requires WellFormed(c) && WellFormed(c') && Later(Segs(c), Segs(c')) && id in c.sessions
    requires c.sessions[id].startEvent - 1 <= n <= |LogOf(c)|
    ensures n <= |LogOf(c')| && EventsAfter(c', id, n) == LogOf(c')[n..]
    ensures NormalEvents(LogOf(c)[n..]) <= NormalEvents(EventsAfter(c', id, n))
  {
    SessionStays(c, c', id);
    TailOfGrown(LogOf(c), LogOf(c'), n);
    TailIsSlice(LogOf(c'), n);
    EventsAfterIsLogTail(c', id, n);
    assert EventsAfter(c', id, n) == LogOf(c')[n..];
  }

  /**
   * A position stays valid: whatever runs after it was taken, reading from it gives exactly the log from the
   * next event on, and so at least what it would have given at once.
   */
  lemma {:induction false} PositionStaysValid(codec: Codec, s: State, actions: seq<Action>, id: string, n: nat)
    requires Lawful(codec) && Inv(codec, s) && AllAdmissible(actions)
    requires id in s.chain.sessions && s.chain.sessions[id].startEvent - 1 <= n <= |LogOf(s.chain)|
    ensures var c := Run(codec, s, actions).chain;
            && WellFormed(c) && n <= |LogOf(c)|
            && EventsAfter(c, id, n) == LogOf(c)[n..]
            && NormalEvents(LogOf(s.chain)[n..]) <= NormalEvents(EventsAfter(c, id, n))
  {
    RunKeeps(codec, s, actions);
    PositionStays(s.chain, Run(codec, s, actions).chain, id, n);
  }
}
