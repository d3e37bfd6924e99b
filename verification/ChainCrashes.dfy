/** What a process finds that starts after another one stopped between two file writes of one operation. */
module ChainCrashes {
  import opened Text
  import opened SessionTypes
  import opened SessionRoundTrip
  import opened SessionLog
  import opened SessionChain
  import opened SessionDisk
  import opened ChainRuns

  /** The disk after at most k of the writes of an operation. */
  function Partly(codec: Codec, d: Disk, ws: seq<Write>, k: nat): Disk {
    ApplyAll(codec, d, if k < |ws| then ws[..k] else ws)
  }

  /** What is on disk after k writes where the n-th makes the difference. */
  function Since<T>(n: nat, k: nat, before: T, after: T): T {
    if k < n then before else after
  }

  function CrashedCreate(codec: Codec, threadId: string, now: Time, k: nat): Disk {
    Partly(codec, EMPTY_DISK, CreateWrites(NewChain(threadId, now)), k)
  }

  function CrashedAppend(codec: Codec, c: Chain, d: Disk, e: Event, now: Time, k: nat): Disk {
    match Appended(c, e, now)
    case Ok(c') => Partly(codec, d, AppendWrites(c'), k)
    case Failed(_) => d
  }

  function CrashedSeal(codec: Codec, c: Chain, d: Disk, now: Time, k: nat): Disk {
    match SealedOff(c, c.meta.threadId, now)
    case Ok(c') => Partly(codec, d, SealWrites(c', c.meta.activeSessionId), k)
    case Failed(_) => d
  }

  function CrashedCommit(codec: Codec, c: Chain, d: Disk, id: string, summary: string, k: nat): Disk {
    if id in c.sessions then Partly(codec, d, CommitWrites(Committed(c, id, summary), id), k) else d
  }

  lemma {:induction false} PartlySteps(codec: Codec, d: Disk, ws: seq<Write>, k: nat)
    ensures k == 0 ==> Partly(codec, d, ws, k) == d
    ensures k == 1 <= |ws| ==> Partly(codec, d, ws, k) == Apply(codec, d, ws[0])
    ensures k == 2 <= |ws| ==> Partly(codec, d, ws, k) == Apply(codec, Apply(codec, d, ws[0]), ws[1])
    ensures k >= |ws| ==> Partly(codec, d, ws, k) == ApplyAll(codec, d, ws)
  {
    if k >= |ws| {
      assert ws[..|ws|] == ws;
    }
    if k == 0 {
      assert ws[..0] == [];
    } else if k == 1 <= |ws| {
      assert ws[..1] == [ws[0]];
      ApplyOne(codec, d, ws[0]);
    } else if k == 2 <= |ws| {
      assert ws[..2] == [ws[0], ws[1]];
      ApplyTwo(codec, d, ws[0], ws[1]);
    }
  }

  /** ReloadThread finds the given metadata and, in normal form, the given sessions. */
  ghost predicate LoadsAs(codec: Codec, d: Disk, meta: Meta, segs: seq<Segment>) {
    var r := Load(codec, d);
    r.LoadedChain? && r.chain.meta == meta && Keyed(r.chain) && Segs(r.chain) == NormalSegs(segs)
  }

  lemma {:induction false} StoredLoads(codec: Codec, d: Disk, meta: Meta, segs: seq<Segment>)
    requires Stored(codec, d, segs) && d.meta == Some(meta) && meta.sessionCount == |segs|
    ensures LoadsAs(codec, d, meta, segs)
  {
    LoadOfStored(codec, d, meta, segs);
    HoldsIsSegs(Load(codec, d).chain, NormalSegs(segs));
  }

  lemma {:induction false} SyncedReloads(codec: Codec, d: Disk, c: Chain)
    requires Synced(codec, d, c) && Named(Segs(c))
    ensures ReloadsAs(codec, d, NormalEvents(LogOf(c)))
  {
    ReloadOfStored(codec, d, Segs(c));
  }

  // ----- Readers after a crash -----

  /** While a thread is created, readers find no events: the thread is unknown, or its session is missing or empty. */
  lemma {:induction false} CreateCrash(codec: Codec, threadId: string, now: Time, k: nat)
    requires Lawful(codec)
    ensures ReloadsAs(codec, CrashedCreate(codec, threadId, now, k), [])
  {
    var c := NewChain(threadId, now);
    PartlySteps(codec, EMPTY_DISK, CreateWrites(c), k);
    if k == 1 {
      MetaAlone(codec, c.meta);
    } else if k >= 2 {
      NewChainIsWellFormed(threadId, now);
      StartIsStored(codec, threadId, now);
      RangesAreNamed(threadId, Segs(c));
      SyncedReloads(codec, Partly(codec, EMPTY_DISK, CreateWrites(c), k), c);
    }
  }

  /** Metadata that counts one session without its file. */
  lemma {:induction false} MetaAlone(codec: Codec, meta: Meta)
    requires meta.sessionCount == 1
    ensures ReloadsAs(codec, Apply(codec, EMPTY_DISK, WriteMeta(meta)), [])
  {
    var d := Apply(codec, EMPTY_DISK, WriteMeta(meta));
    assert Image(codec, d, 0).Unreadable?;
    assert LoadSessions(codec, d, meta, 1) == LoadSessions(codec, d, meta, 0);
    assert ReadLogTo(codec, d, 1) == ReadLogTo(codec, d, 0) + [];
    ReloadReadsFiles(codec, d);
  }

  /** What half an append leaves, in terms of the files. */
  lemma {:induction false} AppendCrashFiles(codec: Codec, d: Disk, threadId: string, segs: seq<Segment>, stored: Event,
                                            before: Meta, after: Meta, k: nat)
    requires Lawful(codec) && segs != [] && Ranges(threadId, segs) && Stored(codec, d, segs) && d.meta == Some(before)
    requires PrintableSegs(SessionLog.Append(segs, stored))
    ensures var segs' := SessionLog.Append(segs, stored);
            var half := Partly(codec, d, AppendFiles(segs', after), k);
            && half.meta == Some(Since(2, k, before, after))
            && Stored(codec, half, Since(1, k, segs, segs'))
  {
    AppendOnDisk(codec, d, threadId, segs, stored, after);
    PartlySteps(codec, d, AppendFiles(SessionLog.Append(segs, stored), after), k);
  }

  /** The sessions that a crash inside an append leaves on disk. */
  function AppendLeft(c: Chain, stored: Event, k: nat): seq<Segment>
    requires Keyed(c) && c.meta.sessionCount >= 1
  {
    Since(1, k, Segs(c), SessionLog.Append(Segs(c), stored))
  }

  /** The metadata that a crash inside an append leaves on disk. */
  function AppendMeta(c: Chain, now: Time, k: nat): Meta {
    Since(2, k, c.meta, Counted(c.meta, now))
  }

  function Counted(meta: Meta, now: Time): Meta {
    meta.(totalEvents := meta.totalEvents + 1, updatedAt := now)
  }

  lemma {:induction false} CrashedAppendShows(codec: Codec, c: Chain, d: Disk, e: Event, now: Time, k: nat)
    requires WellFormed(c)
    ensures CrashedAppend(codec, c, d, e, now, k)
         == Partly(codec, d, AppendFiles(SessionLog.Append(Segs(c), Stamped(e, c.meta.totalEvents + 1, now)), Counted(c.meta, now)), k)
  {
    WellFormedIsLive(c);
    AppendedIsAppend(c, e, now);
    AppendInMemory(c, e, now);
  }

  lemma {:induction false} AppendHalf(codec: Codec, c: Chain, d: Disk, stored: Event, now: Time, k: nat, half: Disk)
    requires Lawful(codec) && Readable(c) && Synced(codec, d, c) && PrintableSegs(SessionLog.Append(Segs(c), stored))
    requires half == Partly(codec, d, AppendFiles(SessionLog.Append(Segs(c), stored), Counted(c.meta, now)), k)
    ensures half.meta == Some(AppendMeta(c, now, k))
    ensures Stored(codec, half, AppendLeft(c, stored, k)) && |AppendLeft(c, stored, k)| == c.meta.sessionCount
  {
    AppendCrashFiles(codec, d, c.meta.threadId, Segs(c), stored, c.meta, Counted(c.meta, now), k);
  }

  lemma {:induction false} AppendLeftIsNamed(c: Chain, stored: Event, k: nat)
    requires Readable(c)
    ensures Named(AppendLeft(c, stored, k))
  {
    RangesAreNamed(c.meta.threadId, Segs(c));
    AppendedAreNamed(Segs(c), stored);
  }

  lemma {:induction false} AppendedAreNamed(segs: seq<Segment>, stored: Event)
    requires segs != [] && Named(segs)
    ensures Named(SessionLog.Append(segs, stored))
  {
    var segs' := SessionLog.Append(segs, stored);
    forall i | 0 <= i < |segs| ensures segs'[i].record.id == SessionId(i + 1) && segs'[i].record.seqNo == i + 1 {
      assert segs[i].record.id == SessionId(i + 1) && segs[i].record.seqNo == i + 1;
    }
  }

  lemma {:induction false} AppendLeftLog(c: Chain, stored: Event, k: nat)
    requires Keyed(c) && c.meta.sessionCount >= 1
    ensures Log(AppendLeft(c, stored, k)) == LogOf(c) + Since(1, k, [], [stored])
  {
    LogOfAppend(Segs(c), stored);
    assert LogOf(c) + [] == LogOf(c);
  }

  lemma {:induction false} AppendHalfLoads(codec: Codec, c: Chain, d: Disk, stored: Event, now: Time, k: nat, half: Disk)
    requires Lawful(codec) && Readable(c) && Synced(codec, d, c) && PrintableSegs(SessionLog.Append(Segs(c), stored))
    requires half == Partly(codec, d, AppendFiles(SessionLog.Append(Segs(c), stored), Counted(c.meta, now)), k)
    ensures LoadsAs(codec, half, AppendMeta(c, now, k), AppendLeft(c, stored, k))
    ensures ReloadsAs(codec, half, NormalEvents(LogOf(c) + Since(1, k, [], [stored])))
  {
    AppendHalf(codec, c, d, stored, now, k, half);
    StoredLoads(codec, half, AppendMeta(c, now, k), AppendLeft(c, stored, k));
    AppendLeftIsNamed(c, stored, k);
    ReloadOfStored(codec, half, AppendLeft(c, stored, k));
    AppendLeftLog(c, stored, k);
  }

  /** After a crash inside an append, a restart has the event from the first write on, and counts it from the second on. */
  lemma {:induction false} AppendCrashLoads(codec: Codec, c: Chain, d: Disk, e: Event, now: Time, k: nat)
    requires Lawful(codec) && WellFormed(c) && Synced(codec, d, c)
    requires PrintableSegs(SessionLog.Append(Segs(c), Stamped(e, c.meta.totalEvents + 1, now)))
    ensures LoadsAs(codec, CrashedAppend(codec, c, d, e, now, k),
                    AppendMeta(c, now, k), AppendLeft(c, Stamped(e, c.meta.totalEvents + 1, now), k))
  {
    CrashedAppendShows(codec, c, d, e, now, k);
    AppendHalfLoads(codec, c, d, Stamped(e, c.meta.totalEvents + 1, now), now, k, CrashedAppend(codec, c, d, e, now, k));
  }

  /** An append either has not happened for readers or has happened: its first write decides. */
  lemma {:induction false} AppendCrash(codec: Codec, c: Chain, d: Disk, e: Event, now: Time, k: nat)
    requires Lawful(codec) && WellFormed(c) && Synced(codec, d, c)
    requires PrintableSegs(SessionLog.Append(Segs(c), Stamped(e, c.meta.totalEvents + 1, now)))
    ensures ReloadsAs(codec, CrashedAppend(codec, c, d, e, now, k),
                      NormalEvents(LogOf(c) + Since(1, k, [], [Stamped(e, c.meta.totalEvents + 1, now)])))
  {
    CrashedAppendShows(codec, c, d, e, now, k);
    AppendHalfLoads(codec, c, d, Stamped(e, c.meta.totalEvents + 1, now), now, k, CrashedAppend(codec, c, d, e, now, k));
  }

  /** The old session is closed on disk, the new one is not there or not counted yet. */
  lemma {:induction false} SealHalfDone(codec: Codec, d: Disk, threadId: string, segs: seq<Segment>, now: Time, meta: Meta, k: nat)
    requires Lawful(codec) && segs != [] && Ranges(threadId, segs) && Stored(codec, d, segs) && PrintableSegs(segs)
    requires 1 <= k <= 2
    ensures var segs' := SessionLog.Seal(threadId, segs, now);
            var half := Partly(codec, d, SealFiles(segs', meta), k);
            half.meta == d.meta && Stored(codec, half, segs'[..|segs|])
  {
    var segs', n := SessionLog.Seal(threadId, segs, now), |segs|;
    var ws := SealFiles(segs', meta);
    SealOnDisk(codec, d, threadId, segs, now, meta);
    PartlySteps(codec, d, ws, k);
    if k == 2 {
      StoredPrefix(codec, Partly(codec, d, ws, k), segs', n);
    }
  }

  lemma {:induction false} SealDone(codec: Codec, d: Disk, threadId: string, segs: seq<Segment>, now: Time, meta: Meta, k: nat)
    requires Lawful(codec) && segs != [] && Ranges(threadId, segs) && Stored(codec, d, segs) && PrintableSegs(segs)
    requires k >= 3
    ensures var segs' := SessionLog.Seal(threadId, segs, now);
            var done := Partly(codec, d, SealFiles(segs', meta), k);
            done.meta == Some(meta) && Stored(codec, done, segs')
  {
    var ws := SealFiles(SessionLog.Seal(threadId, segs, now), meta);
    SealOnDisk(codec, d, threadId, segs, now, meta);
    PartlySteps(codec, d, ws, k);
  }

  /** The sessions that a crash inside a seal leaves on disk, as far as the metadata there counts them. */
  function SealLeft(c: Chain, now: Time, k: nat): seq<Segment>
    requires Keyed(c) && c.meta.sessionCount >= 1
  {
    var segs' := SessionLog.Seal(c.meta.threadId, Segs(c), now);
    if k == 0 then Segs(c) else if k <= 2 then segs'[..c.meta.sessionCount] else segs'
  }

  /** The metadata that a crash inside a seal leaves on disk. */
  function SealMeta(c: Chain, now: Time, k: nat): Meta {
    var n := c.meta.sessionCount + 1;
    if k >= 3 then c.meta.(sessionCount := n, activeSessionId := SessionId(n), updatedAt := now) else c.meta
  }

  lemma {:induction false} SealedMeta(c: Chain, now: Time)
    requires SealedOff(c, c.meta.threadId, now).Ok?
    ensures SealedOff(c, c.meta.threadId, now).value.meta == SealMeta(c, now, 3)
  {
  }

  lemma {:induction false} SealCrashFiles(codec: Codec, d: Disk, threadId: string, segs: seq<Segment>, now: Time, meta: Meta, k: nat)
    requires Lawful(codec) && segs != [] && Ranges(threadId, segs) && Stored(codec, d, segs) && PrintableSegs(segs)
    ensures var segs' := SessionLog.Seal(threadId, segs, now);
            var half := Partly(codec, d, SealFiles(segs', meta), k);
            && half.meta == (if k >= 3 then Some(meta) else d.meta)
            && Stored(codec, half, if k == 0 then segs else if k <= 2 then segs'[..|segs|] else segs')
  {
    if k == 0 {
      PartlySteps(codec, d, SealFiles(SessionLog.Seal(threadId, segs, now), meta), k);
    } else if k <= 2 {
      SealHalfDone(codec, d, threadId, segs, now, meta, k);
    } else {
      SealDone(codec, d, threadId, segs, now, meta, k);
    }
  }

  lemma {:induction false} SealedLogs(threadId: string, segs: seq<Segment>, now: Time)
    requires segs != []
    ensures var segs' := SessionLog.Seal(threadId, segs, now);
            Log(segs') == Log(segs) && Log(segs'[..|segs|]) == Log(segs)
  {
    var segs', n := SessionLog.Seal(threadId, segs, now), |segs|;
    LogDependsOnEvents(segs'[..n], segs);
    assert Log(segs') == Log(segs'[..n]) + [];
  }

  lemma {:induction false} CrashedSealShows(codec: Codec, c: Chain, d: Disk, now: Time, k: nat)
    requires WellFormed(c)
    ensures CrashedSeal(codec, c, d, now, k)
         == Partly(codec, d, SealFiles(SessionLog.Seal(c.meta.threadId, Segs(c), now), SealMeta(c, now, 3)), k)
  {
    SealInMemory(c, now);
    SealedMeta(c, now);
  }

  lemma {:induction false} SealCrashStored(codec: Codec, c: Chain, d: Disk, now: Time, k: nat)
    requires Lawful(codec) && WellFormed(c) && Synced(codec, d, c) && PrintableSegs(Segs(c))
    ensures CrashedSeal(codec, c, d, now, k).meta == Some(SealMeta(c, now, k))
    ensures Stored(codec, CrashedSeal(codec, c, d, now, k), SealLeft(c, now, k))
  {
    CrashedSealShows(codec, c, d, now, k);
    SealCrashFiles(codec, d, c.meta.threadId, Segs(c), now, SealMeta(c, now, 3), k);
  }

  /** After a crash inside a seal, a restart finds the old session closed from the first write on, the new one only after the third. */
  lemma {:induction false} SealCrashLoads(codec: Codec, c: Chain, d: Disk, now: Time, k: nat)
    requires Lawful(codec) && WellFormed(c) && Synced(codec, d, c) && PrintableSegs(Segs(c))
    ensures LoadsAs(codec, CrashedSeal(codec, c, d, now, k), SealMeta(c, now, k), SealLeft(c, now, k))
  {
    SealCrashStored(codec, c, d, now, k);
    SealLeftEnd(c, now, k);
    StoredLoads(codec, CrashedSeal(codec, c, d, now, k), SealMeta(c, now, k), SealLeft(c, now, k));
  }

  lemma {:induction false} SealedAreNamed(threadId: string, segs: seq<Segment>, now: Time)
    requires segs != [] && Named(segs)
    ensures var segs' := SessionLog.Seal(threadId, segs, now);
            Named(segs') && Named(segs'[..|segs|])
  {
    var segs', n := SessionLog.Seal(threadId, segs, now), |segs|;
    forall i | 0 <= i < n + 1 ensures segs'[i].record.id == SessionId(i + 1) && segs'[i].record.seqNo == i + 1 {
      if i < n {
        assert segs[i].record.id == SessionId(i + 1) && segs[i].record.seqNo == i + 1;
      }
    }
  }

  lemma {:induction false} SealLeftLog(c: Chain, now: Time, k: nat)
    requires WellFormed(c)
    ensures Named(SealLeft(c, now, k)) && Log(SealLeft(c, now, k)) == LogOf(c)
  {
    RangesAreNamed(c.meta.threadId, Segs(c));
    SealedAreNamed(c.meta.threadId, Segs(c), now);
    SealedLogs(c.meta.threadId, Segs(c), now);
  }

  /** A seal never changes what readers find. */
  lemma {:induction false} SealCrash(codec: Codec, c: Chain, d: Disk, now: Time, k: nat)
    requires Lawful(codec) && WellFormed(c) && Synced(codec, d, c) && PrintableSegs(Segs(c))
    ensures ReloadsAs(codec, CrashedSeal(codec, c, d, now, k), NormalEvents(LogOf(c)))
  {
    SealCrashStored(codec, c, d, now, k);
    SealLeftLog(c, now, k);
    SealLeftEnd(c, now, k);
    ReloadOfStored(codec, CrashedSeal(codec, c, d, now, k), SealLeft(c, now, k));
  }

  lemma {:induction false} CrashedCommitShows(codec: Codec, c: Chain, d: Disk, id: string, summary: string, k: nat)
    requires id in c.sessions
    ensures CrashedCommit(codec, c, d, id, summary, k)
         == if k == 0 then d else ApplyAll(codec, d, CommitWrites(Committed(c, id, summary), id))
  {
    PartlySteps(codec, d, CommitWrites(Committed(c, id, summary), id), k);
  }

  lemma {:induction false} CommitFiles(codec: Codec, d: Disk, segs: seq<Segment>, k: nat, summary: string)
    requires Lawful(codec) && Stored(codec, d, segs) && Named(segs) && k < |segs| && AllPrintable(segs[k].events)
    requires d.meta.Some? && d.meta.value.sessionCount == |segs|
    ensures var s := Commit(segs, k, summary)[k];
            ReloadsAs(codec, ApplyAll(codec, d, [WriteSession(s.record, s.events)]), NormalEvents(Log(segs)))
  {
    var segs' := Commit(segs, k, summary);
    ApplyOne(codec, d, WriteSession(segs'[k].record, segs'[k].events));
    StoredAfterWrite(codec, d, segs, k, segs'[k]);
    LogDependsOnEvents(segs', segs);
    ReloadOfStored(codec, Apply(codec, d, WriteSession(segs'[k].record, segs'[k].events)), segs');
  }

  lemma {:induction false} CommitDone(codec: Codec, c: Chain, d: Disk, id: string, summary: string)
    requires Lawful(codec) && WellFormed(c) && PrintableSegs(Segs(c)) && Synced(codec, d, c) && id in c.sessions
    ensures ReloadsAs(codec, ApplyAll(codec, d, CommitWrites(Committed(c, id, summary), id)), NormalEvents(LogOf(c)))
  {
    var k := Numeral(id) - 1;
    CommitInMemory(c, k, summary);
    RangesAreNamed(c.meta.threadId, Segs(c));
    assert AllPrintable(Segs(c)[k].events);
    CommitFiles(codec, d, Segs(c), k, summary);
  }

  /** A summary is on disk or is not; the log is the same. */
  lemma {:induction false} CommitCrash(codec: Codec, c: Chain, d: Disk, id: string, summary: string, k: nat)
    requires Lawful(codec) && WellFormed(c) && PrintableSegs(Segs(c)) && Synced(codec, d, c)
    ensures ReloadsAs(codec, CrashedCommit(codec, c, d, id, summary, k), NormalEvents(LogOf(c)))
  {
    RangesAreNamed(c.meta.threadId, Segs(c));
    SyncedReloads(codec, d, c);
    if id in c.sessions {
      CommitDone(codec, c, d, id, summary);
      CrashedCommitShows(codec, c, d, id, summary, k);
    }
  }

  // ----- What a restart restores, and what not -----

  /** Numbers 1, 2, 3, … without gap or duplicate. */
  ghost predicate InSequence(log: seq<Event>) {
    forall i :: 0 <= i < |log| ==> log[i].eventNo == i + 1
  }

  /** The two events behind the first n have the same number. */
  ghost predicate Repeats(log: seq<Event>, n: nat) {
    |log| == n + 2 && log[n].eventNo == log[n + 1].eventNo == n + 1
  }

  lemma {:induction false} NextRepeats(log: seq<Event>, e: Event, n: nat)
    requires InSequence(log) && |log| == n + 1 && e.eventNo == n + 1
    ensures Repeats(log + [e], n)
  {
  }

  lemma {:induction false} NextInSequence(log: seq<Event>, e: Event)
    requires InSequence(log)
    ensures InSequence(log + [e]) <==> e.eventNo == |log| + 1
  {
    assert (log + [e])[|log|] == e;
  }

  lemma {:induction false} NormalInSequence(log: seq<Event>)
    ensures InSequence(NormalEvents(log)) <==> InSequence(log)
  {
    assert forall i :: 0 <= i < |log| ==> NormalEvents(log)[i].eventNo == log[i].eventNo;
  }

  lemma {:induction false} WellFormedInSequence(c: Chain)
    requires WellFormed(c)
    ensures InSequence(LogOf(c)) && |LogOf(c)| == c.meta.totalEvents
  {
    WellFormedIsNumbered(c);
  }

  lemma {:induction false} AppendToLive(c: Chain, e: Event, now: Time)
    requires Live(c)
    ensures Appended(c, e, now).Ok? && Keyed(Appended(c, e, now).value)
    ensures LogOf(Appended(c, e, now).value) == LogOf(c) + [Stamped(e, c.meta.totalEvents + 1, now)]
  {
    AppendedIsAppend(c, e, now);
    LogOfAppend(Segs(c), Stamped(e, c.meta.totalEvents + 1, now));
  }

  /** An append continues the numbers of a log exactly if the metadata counts the events that are there. */
  lemma {:induction false} AppendContinuesIff(c: Chain, e: Event, now: Time)
    requires Live(c) && InSequence(LogOf(c))
    ensures Appended(c, e, now).Ok? && Keyed(Appended(c, e, now).value)
    ensures LogOf(Appended(c, e, now).value) == LogOf(c) + [Stamped(e, c.meta.totalEvents + 1, now)]
    ensures InSequence(LogOf(Appended(c, e, now).value)) <==> c.meta.totalEvents == |LogOf(c)|
  {
    var stored := Stamped(e, c.meta.totalEvents + 1, now);
    AppendToLive(c, e, now);
    NextInSequence(LogOf(c), stored);
  }

  lemma {:induction false} AppendLeftNumbers(c: Chain, stored: Event, k: nat)
    requires WellFormed(c) && stored.eventNo == c.meta.totalEvents + 1
    ensures InSequence(Log(AppendLeft(c, stored, k)))
    ensures |Log(AppendLeft(c, stored, k))| == |LogOf(c)| + Since(1, k, 0, 1)
  {
    WellFormedInSequence(c);
    AppendLeftLog(c, stored, k);
    NextInSequence(LogOf(c), stored);
  }

  lemma {:induction false} AppendLeftIsActive(c: Chain, stored: Event, k: nat)
    requires WellFormed(c)
    ensures var left := AppendLeft(c, stored, k);
            |left| == c.meta.sessionCount && left[|left| - 1].record.status == Active
  {
    WellFormedIsLive(c);
  }

  lemma {:induction false} AppendLeftIsLive(c: Chain, loaded: Chain, stored: Event, now: Time, k: nat)
    requires WellFormed(c) && stored.eventNo == c.meta.totalEvents + 1 && loaded.meta == AppendMeta(c, now, k)
    requires Keyed(loaded) && Segs(loaded) == NormalSegs(AppendLeft(c, stored, k))
    ensures Live(loaded) && InSequence(LogOf(loaded))
    ensures |LogOf(loaded)| == |LogOf(c)| + Since(1, k, 0, 1) && loaded.meta.totalEvents == |LogOf(c)| + Since(2, k, 0, 1)
  {
    WellFormedInSequence(c);
    AppendLeftIsActive(c, stored, k);
    AppendLeftNumbers(c, stored, k);
    LogOfNormal(AppendLeft(c, stored, k));
    NormalInSequence(Log(AppendLeft(c, stored, k)));
  }

  /** n events were there before the append; its first write adds one, its second counts it. */
  lemma {:induction false} NumbersGoOnIff(loaded: Chain, n: nat, k: nat, f: Event, later: Time)
    requires Live(loaded) && InSequence(LogOf(loaded))
    requires |LogOf(loaded)| == n + Since(1, k, 0, 1) && loaded.meta.totalEvents == n + Since(2, k, 0, 1)
    ensures Appended(loaded, f, later).Ok?
    ensures var again := Appended(loaded, f, later).value;
            && Keyed(again) && (InSequence(LogOf(again)) <==> k != 1)
            && LogOf(again) == LogOf(loaded) + [Stamped(f, loaded.meta.totalEvents + 1, later)]
            && (k == 1 ==> Repeats(LogOf(again), n))
  {
    AppendContinuesIff(loaded, f, later);
    if k == 1 {
      NextRepeats(LogOf(loaded), Stamped(f, loaded.meta.totalEvents + 1, later), n);
    }
  }

  /**
   * After a crash inside an append, a restart and another append, the events are numbered 1, 2, 3, … exactly if
   * the crash did not fall between the append's two writes. There the number is given out twice.
   */
  lemma {:induction false} NumbersAfterCrashIff(codec: Codec, c: Chain, d: Disk, e: Event, now: Time, k: nat, f: Event, later: Time)
    requires Lawful(codec) && WellFormed(c) && Synced(codec, d, c)
    requires PrintableSegs(SessionLog.Append(Segs(c), Stamped(e, c.meta.totalEvents + 1, now)))
    ensures var r := Load(codec, CrashedAppend(codec, c, d, e, now, k));
            && r.LoadedChain? && Appended(r.chain, f, later).Ok?
            && var again := Appended(r.chain, f, later).value;
            && Keyed(r.chain) && Keyed(again) && (InSequence(LogOf(again)) <==> k != 1)
            && LogOf(again) == LogOf(r.chain) + [Stamped(f, |LogOf(c)| + 1 + Since(2, k, 0, 1), later)]
            && (k == 1 ==> Repeats(LogOf(again), |LogOf(c)|))
  {
    AppendCrashLoads(codec, c, d, e, now, k);
    var loaded := Load(codec, CrashedAppend(codec, c, d, e, now, k)).chain;
    AppendLeftIsLive(c, loaded, Stamped(e, c.meta.totalEvents + 1, now), now, k);
    NumbersGoOnIff(loaded, |LogOf(c)|, k, f, later);
  }

  // ----- A thread whose creation was cut short -----

  /** What a restarted process works with: GetOrCreateChain makes a thread without metadata, and takes any other as it is. */
  function Reopened(codec: Codec, d: Disk, threadId: string, now: Time): Chain {
    match Load(codec, d)
    case NoMeta => NewChain(threadId, now)
    case LoadedChain(c) => c
    case LoadPanics(c) => c
  }

  /** The metadata counts a session and names it as the active one, but it is not there. */
  function Hollow(meta: Meta): Chain {
    Chain(meta, map[], map[])
  }

  lemma {:induction false} HollowIsLoaded(codec: Codec, meta: Meta)
    requires meta.sessionCount == 1
    ensures Load(codec, Apply(codec, EMPTY_DISK, WriteMeta(meta))) == LoadedChain(Hollow(meta))
  {
    var d := Apply(codec, EMPTY_DISK, WriteMeta(meta));
    assert Image(codec, d, 0).Unreadable?;
    assert LoadSessions(codec, d, meta, 1) == LoadSessions(codec, d, meta, 0);
  }

  lemma {:induction false} CreatedReopens(codec: Codec, threadId: string, now: Time, k: nat, later: Time)
    requires Lawful(codec)
    ensures var c := Reopened(codec, CrashedCreate(codec, threadId, now, k), threadId, later);
            if k == 1 then c == Hollow(NewChain(threadId, now).meta) else Live(c)
  {
    var c := NewChain(threadId, now);
    PartlySteps(codec, EMPTY_DISK, CreateWrites(c), k);
    if k == 0 {
      NewChainIsWellFormed(threadId, later);
      WellFormedIsLive(NewChain(threadId, later));
    } else if k == 1 {
      HollowIsLoaded(codec, c.meta);
    } else {
      NewChainIsWellFormed(threadId, now);
      WellFormedIsLive(c);
      StartIsStored(codec, threadId, now);
      LoadIsNormal(codec, CrashedCreate(codec, threadId, now, k), c);
    }
  }

  lemma {:induction false} LiveSeals(c: Chain, now: Time)
    requires Live(c)
    ensures SealedOff(c, c.meta.threadId, now).Ok?
  {
    SegAt(c, c.meta.sessionCount - 1);
  }

  /**
   * After a crash inside the creation of a thread and a restart, appends and seals succeed exactly if the crash did
   * not fall between the two writes. There the thread has no session, and every append and every seal fails.
   */
  lemma {:induction false} AppendsAfterCreateCrashIff(codec: Codec, threadId: string, now: Time, k: nat, later: Time, e: Event, t: Time)
    requires Lawful(codec)
    ensures var c := Reopened(codec, CrashedCreate(codec, threadId, now, k), threadId, later);
            && (Appended(c, e, t).Ok? <==> k != 1) && (SealedOff(c, c.meta.threadId, t).Ok? <==> k != 1)
            && (k == 1 ==> Appended(c, e, t) == Failed(NoSession) && SealedOff(c, c.meta.threadId, t) == Failed(NoSession))
  {
    var c := Reopened(codec, CrashedCreate(codec, threadId, now, k), threadId, later);
    CreatedReopens(codec, threadId, now, k, later);
    if k != 1 {
      AppendSucceedsIff(c, e, t);
      LiveSeals(c, t);
    }
  }

  lemma {:induction false} HollowStays(codec: Codec, s: State, a: Action)
    requires s.chain == Hollow(s.chain.meta) && s.compressing == map[] && Load(codec, s.disk) == LoadedChain(s.chain)
    ensures var t := Step(codec, s, a);
            t.chain == s.chain && t.disk == s.disk && t.compressing == map[]
  {
  }

  /** And so for good: no run of operations and restarts ever changes such a thread, in memory or on disk. */
  lemma {:induction false} HollowForGood(codec: Codec, threadId: string, now: Time, actions: seq<Action>)
    ensures var d, c := CrashedCreate(codec, threadId, now, 1), Hollow(NewChain(threadId, now).meta);
            var t := Run(codec, State(c, d, 0, map[]), actions);
            t.chain == c && t.disk == d && t.compressing == map[]
  {
    var c := NewChain(threadId, now);
    PartlySteps(codec, EMPTY_DISK, CreateWrites(c), 1);
    HollowIsLoaded(codec, c.meta);
    if actions != [] {
      var n := |actions| - 1;
      HollowForGood(codec, threadId, now, actions[..n]);
      var start := State(Hollow(c.meta), CrashedCreate(codec, threadId, now, 1), 0, map[]);
      HollowStays(codec, Run(codec, start, actions[..n]), actions[n]);
    }
  }

  /** The last session that a crash inside a seal leaves. */
  lemma {:induction false} SealLeftEnd(c: Chain, now: Time, k: nat)
    requires WellFormed(c)
    ensures var left := SealLeft(c, now, k);
            && |left| == c.meta.sessionCount + (if k >= 3 then 1 else 0)
            && left[|left| - 1].record.endEvent == c.meta.totalEvents
            && (left[|left| - 1].record.status == Active <==> k == 0 || k >= 3)
  {
    WellFormedIsLive(c);
  }

  lemma {:induction false} SealLeftHeads(c: Chain, loaded: Chain, now: Time, k: nat)
    requires WellFormed(c) && loaded.meta == SealMeta(c, now, k)
    requires Keyed(loaded) && Segs(loaded) == NormalSegs(SealLeft(c, now, k))
    ensures Headed(loaded) && (Live(loaded) <==> k == 0 || k >= 3)
    ensures loaded.meta.totalEvents == Segs(loaded)[loaded.meta.sessionCount - 1].record.endEvent == c.meta.totalEvents
    ensures loaded.meta.threadId == c.meta.threadId && LogOf(loaded) == NormalEvents(LogOf(c))
  {
    SealLeftEnd(c, now, k);
    SealLeftLog(c, now, k);
    LogOfNormal(SealLeft(c, now, k));
  }

  /** After a crash inside a seal and a restart, an append succeeds exactly if none or all of the seal's writes were done. */
  lemma {:induction false} AppendsAfterCrashIff(codec: Codec, c: Chain, d: Disk, now: Time, k: nat, e: Event, later: Time)
    requires Lawful(codec) && WellFormed(c) && Synced(codec, d, c) && PrintableSegs(Segs(c))
    ensures var r := Load(codec, CrashedSeal(codec, c, d, now, k));
            r.LoadedChain? && (Appended(r.chain, e, later).Ok? <==> k == 0 || k >= 3)
            && (!Appended(r.chain, e, later).Ok? ==> Appended(r.chain, e, later) == Failed(NotActive))
  {
    SealCrashLoads(codec, c, d, now, k);
    var loaded := Load(codec, CrashedSeal(codec, c, d, now, k)).chain;
    SealLeftHeads(c, loaded, now, k);
    AppendSucceedsIff(loaded, e, later);
  }

  lemma {:induction false} SealedIsLive(c: Chain, now: Time)
    requires Headed(c) && c.meta.totalEvents == Segs(c)[c.meta.sessionCount - 1].record.endEvent
    ensures SealedOff(c, c.meta.threadId, now).Ok?
    ensures var next := SealedOff(c, c.meta.threadId, now).value;
            Live(next) && LogOf(next) == LogOf(c) && next.meta.totalEvents == c.meta.totalEvents
  {
    SealedOffIsSeal(c, now);
    SealedLogs(c.meta.threadId, Segs(c), now);
  }

  /**
   * The next seal repairs it: SealActiveSession does not ask whether the session it closes is active. After it,
   * an append succeeds again, wherever the crash fell, and the log goes on where it stopped.
   */
  lemma {:induction false} SealRecovers(codec: Codec, c: Chain, d: Disk, now: Time, k: nat, t1: Time, e: Event, t2: Time)
    requires Lawful(codec) && WellFormed(c) && Synced(codec, d, c) && PrintableSegs(Segs(c))
    ensures var r := Load(codec, CrashedSeal(codec, c, d, now, k));
            && r.LoadedChain? && SealedOff(r.chain, r.chain.meta.threadId, t1).Ok?
            && var next := SealedOff(r.chain, r.chain.meta.threadId, t1).value;
            && Appended(next, e, t2).Ok? && Keyed(Appended(next, e, t2).value)
            && LogOf(Appended(next, e, t2).value) == NormalEvents(LogOf(c)) + [Stamped(e, |LogOf(c)| + 1, t2)]
            && InSequence(LogOf(Appended(next, e, t2).value))
  {
    SealCrashLoads(codec, c, d, now, k);
    var loaded := Load(codec, CrashedSeal(codec, c, d, now, k)).chain;
    SealLeftHeads(c, loaded, now, k);
    WellFormedInSequence(c);
    NormalInSequence(LogOf(c));
    SealedIsLive(loaded, t1);
    AppendToLive(SealedOff(loaded, loaded.meta.threadId, t1).value, e, t2);
    NextInSequence(NormalEvents(LogOf(c)), Stamped(e, |LogOf(c)| + 1, t2));
  }
}
