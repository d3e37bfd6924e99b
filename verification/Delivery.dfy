/**
 * One writer that appends, seals and commits summaries, and one worker that reads the thread for its agent:
 * every run gives the agent each event once. The writer's file writes reach the disk one by one, and the
 * worker reads the files one by one, in any interleaving.
 */
module EventDelivery {
  import opened Text
  import opened Pagination
  import opened SessionTypes
  import opened TokenEstimator
  import opened SessionMarkdown
  import opened SessionRoundTrip
  import opened SessionLog
  import opened SessionChain
  import opened SessionDisk
  import opened ChainRuns
  import opened Snapshots
  import opened AgentContext

  /** Between two tasks; reading meta.json and then the files; waiting for the agent, with the snapshot at hand. */
  datatype Worker =
    | Idle
    | Reloading(meta: Meta, files: seq<ReadResult>)
    | Invoking(snapshot: Chain, delivery: Delivery)

  /**
   * A successful invocation: the events it was given, the number up to which its snapshot showed the log, and
   * where the active session of the snapshot started.
   */
  datatype Round = Round(events: seq<Event>, upto: int, startEvent: int)

  /** The writer's memory, its writes that have not reached the disk, the disk, and the worker. */
  datatype System = System(
    chain: Chain, queue: seq<Write>, disk: Disk,
    agentName: string, cursor: Option<Cursor>, worker: Worker, rounds: seq<Round>)

  datatype Action =
    | AppendEvent(event: Event, now: Time)
    | SealActiveSession(now: Time)
    | CommitSummary(sessionId: string, summary: string)
    | Flush
    | WriterRestart
    | BeginTask
    | ReadFile
    | SelectContext
    | InvocationFails
    | InvocationSucceeds(aiSessionId: string)

  // ----- Steps -----

  /** The plan for a snapshot; every snapshot is readable, as SnapshotIsReadable shows. */
  ghost function Selected(c: Chain, cursor: Option<Cursor>): Delivery {
    if Readable(c) then Plan(c, cursor) else Delivery("", [], "")
  }

  /** The writer works under its lock until all its writes are done. */
  function WriterStep(codec: Codec, s: System, a: Action): System {
    if s.queue != [] then s
    else
      match a
      case AppendEvent(event, now) =>
        (match Appended(s.chain, event, now)
         case Ok(c) => s.(chain := c, queue := AppendWrites(c))
         case Failed(_) => s)
      case SealActiveSession(now) =>
        (match SealedOff(s.chain, s.chain.meta.threadId, now)
         case Ok(c) => s.(chain := c, queue := SealWrites(c, s.chain.meta.activeSessionId))
         case Failed(_) => s)
      case CommitSummary(id, summary) =>
        if id !in s.chain.sessions || s.chain.sessions[id].status == Active then s
        else
          var c := Committed(s.chain, id, summary);
          s.(chain := c, queue := CommitWrites(c, id))
      case WriterRestart =>
        var r := Load(codec, s.disk);
        if r.LoadedChain? then s.(chain := r.chain) else s
      case _ => s
  }

  function FlushStep(codec: Codec, s: System): System {
    if s.queue == [] then s else s.(disk := Apply(codec, s.disk, s.queue[0]), queue := s.queue[1..])
  }

  ghost function WorkerStep(codec: Codec, s: System, a: Action): System {
    match s.worker
    case Idle =>
      if a.BeginTask? && s.disk.meta.Some? then s.(worker := Reloading(s.disk.meta.value, [])) else s
    case Reloading(meta, files) =>
      if a.ReadFile? && |files| < meta.sessionCount then
        s.(worker := Reloading(meta, files + [Image(codec, s.disk, |files|)]))
      else if a.SelectContext? && |files| == meta.sessionCount then
        var r := Assemble(meta, files);
        if r.LoadedChain? then s.(worker := Invoking(r.chain, Selected(r.chain, s.cursor))) else s.(worker := Idle)
      else s
    case Invoking(snapshot, delivery) =>
      if a.InvocationFails? then s.(worker := Idle)
      else if a.InvocationSucceeds? then
        match ActiveSession(snapshot)
        case Failed(_) => s.(worker := Idle)
        case Ok(active) =>
          s.(worker := Idle,
             cursor := Some(Cursor(s.agentName, snapshot.meta.threadId, active.id, active.endEvent, a.aiSessionId)),
             rounds := s.rounds + [Round(delivery.events, active.endEvent, active.startEvent)])
      else s
  }

  predicate ByWriter(a: Action) {
    a.AppendEvent? || a.SealActiveSession? || a.CommitSummary? || a.WriterRestart?
  }

  ghost function Step(codec: Codec, s: System, a: Action): System {
    if ByWriter(a) then WriterStep(codec, s, a)
    else if a.Flush? then FlushStep(codec, s)
    else WorkerStep(codec, s, a)
  }

  ghost function Run(codec: Codec, s: System, actions: seq<Action>): System {
    if actions == [] then s else Step(codec, Run(codec, s, actions[..|actions| - 1]), actions[|actions| - 1])
  }

  function Start(codec: Codec, threadId: string, agentName: string, now: Time): System {
    var c := NewChain(threadId, now);
    System.System(c, [], ApplyAll(codec, EMPTY_DISK, CreateWrites(c)), agentName, None, Idle, [])
  }

  /** Appended events are such as the session files can carry. */
  predicate Admissible(a: Action) {
    a.AppendEvent? ==> Printable(a.event)
  }

  predicate AllAdmissible(actions: seq<Action>) {
    forall i :: 0 <= i < |actions| ==> Admissible(actions[i])
  }

  // ----- The writer's side -----

  /** From every disk state on the way, nothing gets lost, and all of them are right about the sessions. */
  ghost predicate QueueOk(codec: Codec, threadId: string, d: Disk, queue: seq<Write>, segs: seq<Segment>)
    decreases |queue|
  {
    && DiskOk(codec, threadId, d, segs)
    && (queue != [] ==>
          Grows(codec, d, Apply(codec, d, queue[0]))
          && QueueOk(codec, threadId, Apply(codec, d, queue[0]), queue[1..], segs))
  }

  ghost predicate WriterOk(codec: Codec, c: Chain, d: Disk, queue: seq<Write>) {
    && WellFormed(c) && PrintableSegs(Segs(c))
    && Synced(codec, ApplyAll(codec, d, queue), c)
    && QueueOk(codec, c.meta.threadId, d, queue, Segs(c))
  }

  lemma {:induction false} OneQueued(codec: Codec, threadId: string, d: Disk, w: Write, segs: seq<Segment>)
    requires var d1 := Apply(codec, d, w);
             DiskOk(codec, threadId, d, segs) && DiskOk(codec, threadId, d1, segs) && Grows(codec, d, d1)
    ensures QueueOk(codec, threadId, d, [w], segs)
  {
    assert [w][1..] == [];
    assert QueueOk(codec, threadId, Apply(codec, d, w), [], segs);
  }

  lemma {:induction false} OneMoreQueued(codec: Codec, threadId: string, d: Disk, w: Write, queue: seq<Write>,
                                         segs: seq<Segment>)
    requires var d1 := Apply(codec, d, w);
             DiskOk(codec, threadId, d, segs) && Grows(codec, d, d1) && QueueOk(codec, threadId, d1, queue, segs)
    ensures QueueOk(codec, threadId, d, [w] + queue, segs)
  {
    assert ([w] + queue)[1..] == queue;
  }

  lemma {:induction false} TwoQueued(codec: Codec, threadId: string, d: Disk, v: Write, w: Write, segs: seq<Segment>)
    requires var d1 := Apply(codec, d, v);
             var d2 := Apply(codec, d1, w);
             && DiskOk(codec, threadId, d, segs) && DiskOk(codec, threadId, d1, segs) && DiskOk(codec, threadId, d2, segs)
             && Grows(codec, d, d1) && Grows(codec, d1, d2)
    ensures QueueOk(codec, threadId, d, [v, w], segs)
  {
    OneQueued(codec, threadId, Apply(codec, d, v), w, segs);
    OneMoreQueued(codec, threadId, d, v, [w], segs);
    assert [v] + [w] == [v, w];
  }

  lemma {:induction false} ThreeQueued(codec: Codec, threadId: string, d: Disk, u: Write, v: Write, w: Write,
                                       segs: seq<Segment>)
    requires var d1 := Apply(codec, d, u);
             var d2 := Apply(codec, d1, v);
             var d3 := Apply(codec, d2, w);
             && DiskOk(codec, threadId, d, segs) && DiskOk(codec, threadId, d1, segs)
             && DiskOk(codec, threadId, d2, segs) && DiskOk(codec, threadId, d3, segs)
             && Grows(codec, d, d1) && Grows(codec, d1, d2) && Grows(codec, d2, d3)
    ensures QueueOk(codec, threadId, d, [u, v, w], segs)
  {
    TwoQueued(codec, threadId, Apply(codec, d, u), v, w, segs);
    OneMoreQueued(codec, threadId, d, u, [v, w], segs);
    assert [u] + [v, w] == [u, v, w];
  }

  /** What the files and the metadata of a well-formed chain are like when all writes are done. */
  lemma {:induction false} SyncedIsOk(codec: Codec, c: Chain, d: Disk)
    requires WellFormed(c) && Synced(codec, d, c)
    ensures DiskOk(codec, c.meta.threadId, d, Segs(c))
  {
    forall i | 0 <= i < c.meta.sessionCount - 1 ensures Segs(c)[i].record.status != Active {
      assert Settled(Segs(c)[i], false);
    }
    StoredIsOk(codec, c.meta.threadId, d, Segs(c));
  }

  /** Metadata as an operation leaves it, for a disk that lags behind or is up to date. */
  ghost predicate MetaOk(d: Disk, threadId: string, count: nat) {
    d.meta.Some? && d.meta.value.threadId == threadId && d.meta.value.sessionCount == count
    && d.meta.value.activeSessionId == SessionId(count)
  }

  lemma {:induction false} AppendDisksOk(codec: Codec, threadId: string, d: Disk, segs: seq<Segment>, stored: Event, meta: Meta)
    requires Lawful(codec) && Good(threadId, segs) && Stored(codec, d, segs) && DiskOk(codec, threadId, d, segs)
    requires PrintableSegs(SessionLog.Append(segs, stored))
    requires stored.eventNo == segs[|segs| - 1].record.endEvent + 1 && stored.tokenCount == Tokens(stored.content)
    requires MetaOk(d, threadId, |segs|)
    requires meta.threadId == threadId && meta.sessionCount == |segs| && meta.activeSessionId == SessionId(|segs|)
    ensures var segs' := SessionLog.Append(segs, stored);
            var ws := AppendFiles(segs', meta);
            var d1 := Apply(codec, d, ws[0]);
            && DiskOk(codec, threadId, d, segs') && DiskOk(codec, threadId, d1, segs')
            && DiskOk(codec, threadId, Apply(codec, d1, ws[1]), segs')
  {
    var segs' := SessionLog.Append(segs, stored);
    var ws := AppendFiles(segs', meta);
    AppendOnDisk(codec, d, threadId, segs, stored, meta);
    AppendIsLater(threadId, segs, stored);
    AppendKeeps(threadId, segs, stored);
    DiskOkLater(codec, threadId, d, segs, segs');
    forall i | 0 <= i < |segs| - 1 ensures segs'[i].record.status != Active {
      assert Settled(segs'[i], false);
    }
    StoredIsOk(codec, threadId, Apply(codec, d, ws[0]), segs');
    StoredIsOk(codec, threadId, Apply(codec, Apply(codec, d, ws[0]), ws[1]), segs');
  }

  lemma {:induction false} AppendEndsGrow(threadId: string, segs: seq<Segment>, stored: Event)
    requires segs != [] && stored.eventNo == segs[|segs| - 1].record.endEvent + 1
    ensures var segs' := SessionLog.Append(segs, stored);
            EndsGrow(segs, segs') && EndsGrow(segs', segs')
  {
  }

  lemma {:induction false} AppendQueue(codec: Codec, threadId: string, d: Disk, segs: seq<Segment>, stored: Event, meta: Meta)
    requires Lawful(codec) && Good(threadId, segs) && Stored(codec, d, segs) && DiskOk(codec, threadId, d, segs)
    requires PrintableSegs(SessionLog.Append(segs, stored))
    requires stored.eventNo == segs[|segs| - 1].record.endEvent + 1 && stored.tokenCount == Tokens(stored.content)
    requires MetaOk(d, threadId, |segs|)
    requires meta.threadId == threadId && meta.sessionCount == |segs| && meta.activeSessionId == SessionId(|segs|)
    ensures var segs' := SessionLog.Append(segs, stored);
            QueueOk(codec, threadId, d, AppendFiles(segs', meta), segs')
  {
    var segs' := SessionLog.Append(segs, stored);
    var ws := AppendFiles(segs', meta);
    var d1 := Apply(codec, d, ws[0]);
    AppendDisksOk(codec, threadId, d, segs, stored, meta);
    AppendOnDisk(codec, d, threadId, segs, stored, meta);
    AppendEndsGrow(threadId, segs, stored);
    StoredGrows(codec, d, d1, segs, segs');
    StoredGrows(codec, d1, Apply(codec, d1, ws[1]), segs', segs');
    TwoQueued(codec, threadId, d, ws[0], ws[1], segs');
  }

  lemma {:induction false} SealDisksOk(codec: Codec, threadId: string, d: Disk, segs: seq<Segment>, now: Time, meta: Meta)
    requires Lawful(codec) && Good(threadId, segs) && Stored(codec, d, segs) && DiskOk(codec, threadId, d, segs)
    requires PrintableSegs(segs) && MetaOk(d, threadId, |segs|)
    requires meta.threadId == threadId && meta.sessionCount == |segs| + 1 && meta.activeSessionId == SessionId(|segs| + 1)
    ensures var segs' := SessionLog.Seal(threadId, segs, now);
            var ws := SealFiles(segs', meta);
            var d1 := Apply(codec, d, ws[0]);
            var d2 := Apply(codec, d1, ws[1]);
            && DiskOk(codec, threadId, d, segs') && DiskOk(codec, threadId, d1, segs')
            && DiskOk(codec, threadId, d2, segs') && DiskOk(codec, threadId, Apply(codec, d2, ws[2]), segs')
  {
    var segs', n := SessionLog.Seal(threadId, segs, now), |segs|;
    var ws := SealFiles(segs', meta);
    SealOnDisk(codec, d, threadId, segs, now, meta);
    SealIsLater(threadId, segs, now);
    SealKeeps(threadId, segs, now);
    DiskOkLater(codec, threadId, d, segs, segs');
    SealedBefore(threadId, segs, now);
    var d1 := Apply(codec, d, ws[0]);
    StoredIsOk(codec, threadId, d1, segs'[..n]);
    DiskOkLater(codec, threadId, d1, segs'[..n], segs');
    StoredIsOk(codec, threadId, Apply(codec, d1, ws[1]), segs');
    StoredIsOk(codec, threadId, Apply(codec, Apply(codec, d1, ws[1]), ws[2]), segs');
  }

  lemma {:induction false} SealEndsGrow(threadId: string, segs: seq<Segment>, now: Time)
    requires segs != []
    ensures var segs', n := SessionLog.Seal(threadId, segs, now), |segs|;
            EndsGrow(segs, segs'[..n]) && EndsGrow(segs'[..n], segs') && EndsGrow(segs', segs')
  {
  }

  lemma {:induction false} SealDisksGrow(codec: Codec, threadId: string, d: Disk, segs: seq<Segment>, now: Time, meta: Meta)
    requires Lawful(codec) && Good(threadId, segs) && Stored(codec, d, segs) && PrintableSegs(segs)
    requires MetaOk(d, threadId, |segs|) && meta.sessionCount == |segs| + 1
    ensures var segs' := SessionLog.Seal(threadId, segs, now);
            var ws := SealFiles(segs', meta);
            var d1 := Apply(codec, d, ws[0]);
            var d2 := Apply(codec, d1, ws[1]);
            Grows(codec, d, d1) && Grows(codec, d1, d2) && Grows(codec, d2, Apply(codec, d2, ws[2]))
  {
    var segs', n := SessionLog.Seal(threadId, segs, now), |segs|;
    var ws := SealFiles(segs', meta);
    SealOnDisk(codec, d, threadId, segs, now, meta);
    SealEndsGrow(threadId, segs, now);
    var d1 := Apply(codec, d, ws[0]);
    var d2 := Apply(codec, d1, ws[1]);
    StoredGrows(codec, d, d1, segs, segs'[..n]);
    StoredGrows(codec, d1, d2, segs'[..n], segs');
    StoredGrows(codec, d2, Apply(codec, d2, ws[2]), segs', segs');
  }

  lemma {:induction false} SealQueue(codec: Codec, threadId: string, d: Disk, segs: seq<Segment>, now: Time, meta: Meta)
    requires Lawful(codec) && Good(threadId, segs) && Stored(codec, d, segs) && DiskOk(codec, threadId, d, segs)
    requires PrintableSegs(segs) && MetaOk(d, threadId, |segs|)
    requires meta.threadId == threadId && meta.sessionCount == |segs| + 1 && meta.activeSessionId == SessionId(|segs| + 1)
    ensures var segs' := SessionLog.Seal(threadId, segs, now);
            QueueOk(codec, threadId, d, SealFiles(segs', meta), segs')
  {
    SealDisksOk(codec, threadId, d, segs, now, meta);
    SealDisksGrow(codec, threadId, d, segs, now, meta);
    var segs' := SessionLog.Seal(threadId, segs, now);
    var ws := SealFiles(segs', meta);
    ThreeQueued(codec, threadId, d, ws[0], ws[1], ws[2], segs');
  }

  /** The first n sessions after a seal: as before, all closed, and a front part of the whole. */
  lemma {:induction false} SealedBefore(threadId: string, segs: seq<Segment>, now: Time)
    requires Good(threadId, segs)
    ensures var segs', n := SessionLog.Seal(threadId, segs, now), |segs|;
            && Ranges(threadId, segs'[..n])
            && (forall i :: 0 <= i < n ==> segs'[i].record.status != Active)
            && Later(segs'[..n], segs')
  {
    var segs', n := SessionLog.Seal(threadId, segs, now), |segs|;
    SealKeeps(threadId, segs, now);
    RangesOfPrefix(threadId, segs', n);
    forall i | 0 <= i < n ensures segs'[i].record.status != Active {
      assert Settled(segs'[i], false);
    }
    LogPrefix(segs', n);
    NormalKeepsPrefix(Log(segs'[..n]), Log(segs'));
  }

  lemma {:induction false} CommitQueue(codec: Codec, threadId: string, d: Disk, segs: seq<Segment>, k: nat, summary: string)
    requires Lawful(codec) && Good(threadId, segs) && Stored(codec, d, segs) && DiskOk(codec, threadId, d, segs)
    requires PrintableSegs(segs) && MetaOk(d, threadId, |segs|) && k < |segs| - 1
    ensures var segs' := Commit(segs, k, summary);
            QueueOk(codec, threadId, d, [WriteSession(segs'[k].record, segs'[k].events)], segs')
  {
    var segs' := Commit(segs, k, summary);
    var w := WriteSession(segs'[k].record, segs'[k].events);
    assert Placed(threadId, segs, k) && AllPrintable(segs'[k].events);
    StoredAfterWrite(codec, d, segs, k, segs'[k]);
    CommitIsLater(threadId, segs, k, summary);
    CommitKeeps(threadId, segs, k, summary);
    DiskOkLater(codec, threadId, d, segs, segs');
    forall i | 0 <= i < |segs| - 1 ensures segs'[i].record.status != Active {
      assert Settled(segs'[i], false);
    }
    StoredIsOk(codec, threadId, Apply(codec, d, w), segs');
    StoredGrows(codec, d, Apply(codec, d, w), segs, segs');
    OneQueued(codec, threadId, d, w, segs');
  }

  lemma {:induction false} NothingLeft(codec: Codec, c: Chain, d: Disk)
    requires WriterOk(codec, c, d, [])
    ensures Consistent(codec, c, d) && DiskOk(codec, c.meta.threadId, d, Segs(c)) && MetaOk(d, c.meta.threadId, c.meta.sessionCount)
  {
  }

  lemma {:induction false} AppendQueueOf(codec: Codec, c: Chain, d: Disk, stored: Event, c': Chain)
    requires Lawful(codec) && WellFormed(c) && Synced(codec, d, c) && DiskOk(codec, c.meta.threadId, d, Segs(c))
    requires stored.eventNo == c.meta.totalEvents + 1 && stored.tokenCount == Tokens(stored.content)
    requires PrintableSegs(SessionLog.Append(Segs(c), stored))
    requires Keyed(c') && Segs(c') == SessionLog.Append(Segs(c), stored)
    requires c'.meta.threadId == c.meta.threadId && c'.meta.sessionCount == c.meta.sessionCount
    requires c'.meta.activeSessionId == c.meta.activeSessionId
    ensures QueueOk(codec, c.meta.threadId, d, AppendFiles(Segs(c'), c'.meta), Segs(c'))
  {
    AppendQueue(codec, c.meta.threadId, d, Segs(c), stored, c'.meta);
  }

  lemma {:induction false} AppendIsQueued(codec: Codec, c: Chain, d: Disk, e: Event, now: Time)
    requires Lawful(codec) && WellFormed(c) && Synced(codec, d, c) && DiskOk(codec, c.meta.threadId, d, Segs(c))
    requires PrintableSegs(SessionLog.Append(Segs(c), Stamped(e, c.meta.totalEvents + 1, now)))
    ensures Appended(c, e, now).Ok?
    ensures var c' := Appended(c, e, now).value;
            && Keyed(c') && c'.meta.threadId == c.meta.threadId
            && QueueOk(codec, c.meta.threadId, d, AppendWrites(c'), Segs(c'))
  {
    AppendInMemory(c, e, now);
    AppendQueueOf(codec, c, d, Stamped(e, c.meta.totalEvents + 1, now), Appended(c, e, now).value);
  }

  lemma {:induction false} AppendWriter(codec: Codec, c: Chain, d: Disk, e: Event, now: Time)
    requires Lawful(codec) && WriterOk(codec, c, d, [])
    requires PrintableSegs(SessionLog.Append(Segs(c), Stamped(e, c.meta.totalEvents + 1, now)))
    ensures Appended(c, e, now).Ok?
    ensures var c' := Appended(c, e, now).value;
            WriterOk(codec, c', d, AppendWrites(c')) && Later(Segs(c), Segs(c')) && c'.meta.threadId == c.meta.threadId
  {
    NothingLeft(codec, c, d);
    AppendStays(codec, c, d, e, now);
    AppendIsQueued(codec, c, d, e, now);
  }

  lemma {:induction false} SealQueueOf(codec: Codec, c: Chain, d: Disk, now: Time, c': Chain)
    requires Lawful(codec) && WellFormed(c) && Synced(codec, d, c) && DiskOk(codec, c.meta.threadId, d, Segs(c))
    requires PrintableSegs(Segs(c)) && Keyed(c') && Segs(c') == SessionLog.Seal(c.meta.threadId, Segs(c), now)
    requires c'.meta.threadId == c.meta.threadId && c'.meta.activeSessionId == SessionId(c'.meta.sessionCount)
    ensures QueueOk(codec, c.meta.threadId, d, SealFiles(Segs(c'), c'.meta), Segs(c'))
  {
    SealQueue(codec, c.meta.threadId, d, Segs(c), now, c'.meta);
  }

  lemma {:induction false} SealIsQueued(codec: Codec, c: Chain, d: Disk, now: Time)
    requires Lawful(codec) && WellFormed(c) && Synced(codec, d, c) && DiskOk(codec, c.meta.threadId, d, Segs(c))
    requires PrintableSegs(Segs(c))
    ensures SealedOff(c, c.meta.threadId, now).Ok?
    ensures var c' := SealedOff(c, c.meta.threadId, now).value;
            && Keyed(c') && c'.meta.threadId == c.meta.threadId && c.meta.activeSessionId in c'.sessions
            && QueueOk(codec, c.meta.threadId, d, SealWrites(c', c.meta.activeSessionId), Segs(c'))
  {
    SealInMemory(c, now);
    SealQueueOf(codec, c, d, now, SealedOff(c, c.meta.threadId, now).value);
  }

  lemma {:induction false} SealWriter(codec: Codec, c: Chain, d: Disk, now: Time)
    requires Lawful(codec) && WriterOk(codec, c, d, [])
    ensures SealedOff(c, c.meta.threadId, now).Ok?
    ensures var c' := SealedOff(c, c.meta.threadId, now).value;
            && c.meta.activeSessionId in c'.sessions
            && WriterOk(codec, c', d, SealWrites(c', c.meta.activeSessionId))
            && Later(Segs(c), Segs(c')) && c'.meta.threadId == c.meta.threadId
  {
    NothingLeft(codec, c, d);
    SealStays(codec, c, d, now);
    SealIsQueued(codec, c, d, now);
  }

  lemma {:induction false} CommitIsQueued(codec: Codec, c: Chain, d: Disk, k: nat, summary: string)
    requires Lawful(codec) && WellFormed(c) && Synced(codec, d, c) && DiskOk(codec, c.meta.threadId, d, Segs(c))
    requires PrintableSegs(Segs(c)) && k < c.meta.sessionCount - 1
    ensures SessionId(k + 1) in c.sessions
    ensures var c' := Committed(c, SessionId(k + 1), summary);
            && Keyed(c') && c'.meta == c.meta
            && QueueOk(codec, c.meta.threadId, d, CommitWrites(c', SessionId(k + 1)), Segs(c'))
  {
    CommitInMemory(c, k, summary);
    CommitQueue(codec, c.meta.threadId, d, Segs(c), k, summary);
  }

  lemma {:induction false} CommitWriter(codec: Codec, c: Chain, d: Disk, k: nat, summary: string)
    requires Lawful(codec) && WriterOk(codec, c, d, []) && k < c.meta.sessionCount - 1
    ensures SessionId(k + 1) in c.sessions
    ensures var c' := Committed(c, SessionId(k + 1), summary);
            && WriterOk(codec, c', d, CommitWrites(c', SessionId(k + 1)))
            && Later(Segs(c), Segs(c')) && c'.meta.threadId == c.meta.threadId
  {
    NothingLeft(codec, c, d);
    CommitStays(codec, c, d, k, summary);
    CommitIsQueued(codec, c, d, k, summary);
  }

  lemma {:induction false} RestartWriter(codec: Codec, c: Chain, d: Disk)
    requires Lawful(codec) && WriterOk(codec, c, d, [])
    ensures Load(codec, d).LoadedChain?
    ensures var c' := Load(codec, d).chain;
            WriterOk(codec, c', d, []) && Later(Segs(c), Segs(c')) && c'.meta.threadId == c.meta.threadId
  {
    NothingLeft(codec, c, d);
    ReloadStays(codec, c, d);
    var c' := Load(codec, d).chain;
    SyncedIsOk(codec, c', d);
    LoadIsNormal(codec, d, c);
  }

  /** A write that reaches the disk leaves the rest of the queue as right as it was. */
  lemma {:induction false} FlushWriter(codec: Codec, c: Chain, d: Disk, queue: seq<Write>)
    requires WriterOk(codec, c, d, queue) && queue != []
    ensures WriterOk(codec, c, Apply(codec, d, queue[0]), queue[1..])
    ensures Grows(codec, d, Apply(codec, d, queue[0]))
  {
  }

  // ----- The worker's side -----

  /** A position that the disk covers: a session ID and a number in or right before that session's range. */
  ghost predicate PositionOk(codec: Codec, d: Disk, sessionId: string, upto: int) {
    var n := Numeral(sessionId);
    n >= 1 && sessionId == SessionId(n) && Covers(codec, d, n - 1, upto)
  }

  /** What the first invocation gets: the active session, at most one page of it. */
  function FirstPage(log: seq<Event>, startEvent: int, upto: int): seq<Event>
    requires 0 <= startEvent - 1 <= upto <= |log|
  {
    if upto - startEvent + 1 > FULL_READ then log[startEvent - 1..startEvent - 1 + FULL_READ] else log[startEvent - 1..upto]
  }

  /** What the agent was given, round by round: first a page, then slices of the log, each where the last one ended. */
  ghost predicate RoundsOk(rounds: seq<Round>, log: seq<Event>) {
    && (forall i :: 0 <= i < |rounds| ==> 0 <= rounds[i].startEvent - 1 <= rounds[i].upto <= |log|)
    && (rounds != [] ==> rounds[0].events == FirstPage(log, rounds[0].startEvent, rounds[0].upto))
    && forall i :: 0 < i < |rounds| ==>
         rounds[i - 1].upto <= rounds[i].upto && rounds[i].events == log[rounds[i - 1].upto..rounds[i].upto]
  }

  /** The cursor is where the last round ended. */
  ghost predicate CursorOk(codec: Codec, d: Disk, cursor: Option<Cursor>, rounds: seq<Round>) {
    match cursor
    case None => rounds == []
    case Some(cur) =>
      && rounds != [] && rounds[|rounds| - 1].upto == cur.lastEventNo
      && PositionOk(codec, d, cur.lastSessionId, cur.lastEventNo)
  }

  /** What has been read so far fits the writer's sessions, the disk, and the cursor. */
  ghost predicate FilesOk(codec: Codec, threadId: string, d: Disk, segs: seq<Segment>, cursor: Option<Cursor>,
                          meta: Meta, files: seq<ReadResult>)
  {
    && meta.threadId == threadId && meta.sessionCount >= 1 && meta.activeSessionId == SessionId(meta.sessionCount)
    && d.meta.Some? && meta.sessionCount <= d.meta.value.sessionCount
    && ReadsOk(threadId, files, meta.sessionCount, segs)
    && (forall i: nat :: i < |files| ==> GrowsAt(files[i], Image(codec, d, i)))
    && (cursor.Some? ==>
          var k := Numeral(cursor.value.lastSessionId) - 1;
          0 <= k < meta.sessionCount && (k < |files| ==> files[k].Loaded? && CoversIn(files[k], cursor.value.lastEventNo)))
  }

  /** A running invocation was given exactly what its cursor lacks of its snapshot. */
  ghost predicate InvocationOk(codec: Codec, threadId: string, d: Disk, cursor: Option<Cursor>, log: seq<Event>,
                               snapshot: Chain, delivery: Delivery)
  {
    && snapshot.meta.threadId == threadId
    && ActiveSession(snapshot).Ok?
    && var active := ActiveSession(snapshot).value;
    && PositionOk(codec, d, active.id, active.endEvent)
    && 0 <= active.startEvent - 1 <= active.endEvent <= |log|
    && match cursor
       case None => delivery.events == FirstPage(log, active.startEvent, active.endEvent)
       case Some(cur) =>
         0 <= cur.lastEventNo <= active.endEvent && delivery.events == log[cur.lastEventNo..active.endEvent]
  }

  ghost predicate WorkerOk(codec: Codec, threadId: string, d: Disk, segs: seq<Segment>, cursor: Option<Cursor>,
                           worker: Worker) {
    match worker
    case Idle => true
    case Reloading(meta, files) => FilesOk(codec, threadId, d, segs, cursor, meta, files)
    case Invoking(snapshot, delivery) =>
      InvocationOk(codec, threadId, d, cursor, NormalEvents(Log(segs)), snapshot, delivery)
  }

  ghost predicate Inv(codec: Codec, s: System) {
    && WriterOk(codec, s.chain, s.disk, s.queue)
    && CursorOk(codec, s.disk, s.cursor, s.rounds)
    && RoundsOk(s.rounds, NormalEvents(LogOf(s.chain)))
    && WorkerOk(codec, s.chain.meta.threadId, s.disk, Segs(s.chain), s.cursor, s.worker)
  }

  // ----- The writer moves on under the worker -----

  lemma {:induction false} SliceOfPrefix<T>(log: seq<T>, log': seq<T>, a: nat, b: nat)
    requires log <= log' && a <= b <= |log|
    ensures log[a..b] == log'[a..b]
  {
  }

  lemma {:induction false} FirstPageLater(log: seq<Event>, log': seq<Event>, startEvent: int, upto: int)
    requires 0 <= startEvent - 1 <= upto <= |log| && log <= log'
    ensures FirstPage(log, startEvent, upto) == FirstPage(log', startEvent, upto)
  {
    SliceOfPrefix(log, log', startEvent - 1, upto);
    if upto - startEvent + 1 > FULL_READ {
      SliceOfPrefix(log, log', startEvent - 1, startEvent - 1 + FULL_READ);
    }
  }

  lemma {:induction false} RoundsOkLater(rounds: seq<Round>, log: seq<Event>, log': seq<Event>)
    requires RoundsOk(rounds, log) && log <= log'
    ensures RoundsOk(rounds, log')
  {
    if rounds != [] {
      FirstPageLater(log, log', rounds[0].startEvent, rounds[0].upto);
    }
    forall i | 0 < i < |rounds| ensures rounds[i].events == log'[rounds[i - 1].upto..rounds[i].upto] {
      SliceOfPrefix(log, log', rounds[i - 1].upto, rounds[i].upto);
    }
  }

  lemma {:induction false} InvocationOkLater(codec: Codec, threadId: string, d: Disk, cursor: Option<Cursor>,
                                             log: seq<Event>, log': seq<Event>, snapshot: Chain, delivery: Delivery)
    requires InvocationOk(codec, threadId, d, cursor, log, snapshot, delivery) && log <= log'
    ensures InvocationOk(codec, threadId, d, cursor, log', snapshot, delivery)
  {
    var active := ActiveSession(snapshot).value;
    if cursor.Some? {
      SliceOfPrefix(log, log', cursor.value.lastEventNo, active.endEvent);
    } else {
      FirstPageLater(log, log', active.startEvent, active.endEvent);
    }
  }

  lemma {:induction false} FilesOkLater(codec: Codec, threadId: string, d: Disk, segs: seq<Segment>, segs': seq<Segment>,
                                        cursor: Option<Cursor>, meta: Meta, files: seq<ReadResult>)
    requires FilesOk(codec, threadId, d, segs, cursor, meta, files) && Later(segs, segs')
    ensures FilesOk(codec, threadId, d, segs', cursor, meta, files)
  {
    forall i: nat | i < |files| ensures FileOk(threadId, i, files[i], segs'[i], i < meta.sessionCount - 1) {
      FileOkLater(threadId, i, files[i], segs[i], segs'[i], i < meta.sessionCount - 1);
    }
  }

  lemma {:induction false} WorkerOkLater(codec: Codec, threadId: string, d: Disk, segs: seq<Segment>, segs': seq<Segment>,
                                         cursor: Option<Cursor>, worker: Worker)
    requires WorkerOk(codec, threadId, d, segs, cursor, worker) && Later(segs, segs')
    ensures WorkerOk(codec, threadId, d, segs', cursor, worker)
  {
    match worker {
      case Idle =>
      case Reloading(meta, files) => FilesOkLater(codec, threadId, d, segs, segs', cursor, meta, files);
      case Invoking(snapshot, delivery) =>
        InvocationOkLater(codec, threadId, d, cursor, NormalEvents(Log(segs)), NormalEvents(Log(segs')), snapshot, delivery);
    }
  }

  // ----- The disk moves on under the worker -----

  lemma {:induction false} PositionOkGrows(codec: Codec, d: Disk, d': Disk, sessionId: string, upto: int)
    requires PositionOk(codec, d, sessionId, upto) && Grows(codec, d, d')
    ensures PositionOk(codec, d', sessionId, upto)
  {
    var k := Numeral(sessionId) - 1;
    assert Covers(codec, d, k, upto);
    CoversLater(codec, d, d', k, upto);
  }

  lemma {:induction false} FilesOkGrows(codec: Codec, threadId: string, d: Disk, d': Disk, segs: seq<Segment>,
                                        cursor: Option<Cursor>, meta: Meta, files: seq<ReadResult>)
    requires FilesOk(codec, threadId, d, segs, cursor, meta, files) && Grows(codec, d, d')
    ensures FilesOk(codec, threadId, d', segs, cursor, meta, files)
  {
    forall i: nat | i < |files| ensures GrowsAt(files[i], Image(codec, d', i)) {
      assert GrowsAt(files[i], Image(codec, d, i)) && GrowsAt(Image(codec, d, i), Image(codec, d', i));
    }
  }

  lemma {:induction false} WorkerOkGrows(codec: Codec, threadId: string, d: Disk, d': Disk, segs: seq<Segment>,
                                         cursor: Option<Cursor>, worker: Worker)
    requires WorkerOk(codec, threadId, d, segs, cursor, worker) && Grows(codec, d, d')
    ensures WorkerOk(codec, threadId, d', segs, cursor, worker)
  {
    match worker {
      case Idle =>
      case Reloading(meta, files) => FilesOkGrows(codec, threadId, d, d', segs, cursor, meta, files);
      case Invoking(snapshot, delivery) =>
        var active := ActiveSession(snapshot).value;
        PositionOkGrows(codec, d, d', active.id, active.endEvent);
    }
  }

  // ----- The worker's own steps -----

  lemma {:induction false} BeginIsOk(codec: Codec, threadId: string, d: Disk, segs: seq<Segment>,
                                     cursor: Option<Cursor>, rounds: seq<Round>)
    requires DiskOk(codec, threadId, d, segs) && CursorOk(codec, d, cursor, rounds)
    ensures FilesOk(codec, threadId, d, segs, cursor, d.meta.value, [])
  {
  }

  lemma {:induction false} ReadIsOk(codec: Codec, threadId: string, d: Disk, segs: seq<Segment>,
                                    cursor: Option<Cursor>, rounds: seq<Round>, meta: Meta, files: seq<ReadResult>)
    requires DiskOk(codec, threadId, d, segs) && CursorOk(codec, d, cursor, rounds)
    requires FilesOk(codec, threadId, d, segs, cursor, meta, files) && |files| < meta.sessionCount
    ensures FilesOk(codec, threadId, d, segs, cursor, meta, files + [Image(codec, d, |files|)])
  {
    var n, read := |files|, Image(codec, d, |files|);
    ReadFits(codec, threadId, d, segs, meta.sessionCount, n);
    OneMoreRead(threadId, files, meta.sessionCount, segs, read);
    OneMoreGrows(codec, d, files);
    if cursor.Some? {
      var k := Numeral(cursor.value.lastSessionId) - 1;
      assert k == n ==> read.Loaded? && CoversIn(read, cursor.value.lastEventNo);
    }
  }

  /** The file of a session that the metadata on disk counts, read by a worker with metadata of its own. */
  lemma {:induction false} ReadFits(codec: Codec, threadId: string, d: Disk, segs: seq<Segment>, count: nat, n: nat)
    requires DiskOk(codec, threadId, d, segs) && n < count <= d.meta.value.sessionCount && n < |segs|
    ensures FileOk(threadId, n, Image(codec, d, n), segs[n], n < count - 1)
    ensures GrowsAt(Image(codec, d, n), Image(codec, d, n))
  {
    assert FileOk(threadId, n, Image(codec, d, n), segs[n], n < d.meta.value.sessionCount - 1);
  }

  lemma {:induction false} OneMoreRead(threadId: string, files: seq<ReadResult>, count: nat, segs: seq<Segment>,
                                       read: ReadResult)
    requires ReadsOk(threadId, files, count, segs) && |files| < count
    requires FileOk(threadId, |files|, read, segs[|files|], |files| < count - 1)
    ensures ReadsOk(threadId, files + [read], count, segs)
  {
  }

  lemma {:induction false} OneMoreGrows(codec: Codec, d: Disk, files: seq<ReadResult>)
    requires forall i: nat :: i < |files| ==> GrowsAt(files[i], Image(codec, d, i))
    requires GrowsAt(Image(codec, d, |files|), Image(codec, d, |files|))
    ensures var more := files + [Image(codec, d, |files|)];
            forall i: nat :: i < |more| ==> GrowsAt(more[i], Image(codec, d, i))
  {
  }

  /** A full read has all events of its sessions, so it covers what every earlier position covers. */
  lemma {:induction false} SnapshotReaches(threadId: string, segs: seq<Segment>, k: nat)
    requires Ranges(threadId, segs) && k < |segs|
    ensures 0 <= segs[k].record.startEvent - 1 <= segs[k].record.endEvent <= |Log(segs)|
    ensures k == |segs| - 1 ==> Log(segs)[segs[k].record.startEvent - 1..] == segs[k].events
  {
    RangesOfPrefix(threadId, segs, k + 1);
    LogIsNumbered(threadId, segs[..k + 1]);
    assert Placed(threadId, segs, k);
    LogPrefix(segs, k + 1);
    assert segs[..k + 1][..k] == segs[..k];
    if k == |segs| - 1 {
      assert segs[..k + 1] == segs;
    }
  }

  /** The events of a plan: the log of its chain from the cursor's position on, in every branch. */
  lemma {:induction false} PlanWithCursor(c: Chain, cur: Cursor, log: seq<Event>)
    requires Readable(c) && cur.lastSessionId in c.sessions
    requires c.sessions[cur.lastSessionId].startEvent - 1 <= cur.lastEventNo
    requires 0 <= cur.lastEventNo <= |LogOf(c)| && LogOf(c) <= log
    ensures Plan(c, Some(cur)).events == log[cur.lastEventNo..|LogOf(c)|]
  {
    EventsAfterIsLogTail(c, cur.lastSessionId, cur.lastEventNo);
    SliceOfPrefix(LogOf(c), log, cur.lastEventNo, |LogOf(c)|);
  }

  lemma {:induction false} PageIsFirstPage(log: seq<Event>, events: seq<Event>, startEvent: int)
    requires 0 <= startEvent - 1 <= |log| && events == log[startEvent - 1..]
    ensures Page(events, 0, FULL_READ).0 == FirstPage(log, startEvent, |log|)
  {
  }

  /** Where the last session of a readable chain lies in its log. */
  lemma {:induction false} LastSessionInLog(c: Chain)
    requires Readable(c) && c.meta.activeSessionId == SessionId(c.meta.sessionCount)
    ensures c.meta.activeSessionId in c.sessions && c.meta.activeSessionId in c.events
    ensures var active := c.sessions[c.meta.activeSessionId];
            && 0 <= active.startEvent - 1 <= active.endEvent == |LogOf(c)|
            && c.events[c.meta.activeSessionId] == LogOf(c)[active.startEvent - 1..]
  {
    var k := c.meta.sessionCount - 1;
    SegAt(c, k);
    SnapshotReaches(c.meta.threadId, Segs(c), k);
    LogIsNumbered(c.meta.threadId, Segs(c));
  }

  lemma {:induction false} PlanWithoutCursor(c: Chain, log: seq<Event>)
    requires Readable(c) && c.meta.activeSessionId == SessionId(c.meta.sessionCount) && LogOf(c) <= log
    ensures c.meta.activeSessionId in c.sessions
    ensures var active := c.sessions[c.meta.activeSessionId];
            && 0 <= active.startEvent - 1 <= active.endEvent == |LogOf(c)|
            && Plan(c, None).events == FirstPage(log, active.startEvent, active.endEvent)
  {
    LastSessionInLog(c);
    var startEvent := c.sessions[c.meta.activeSessionId].startEvent;
    PageIsFirstPage(LogOf(c), c.events[c.meta.activeSessionId], startEvent);
    FirstPageLater(LogOf(c), log, startEvent, |LogOf(c)|);
  }

  lemma {:induction false} ActiveOfSnapshot(c: Chain, log: seq<Event>)
    requires Readable(c) && c.meta.activeSessionId == SessionId(c.meta.sessionCount) && LogOf(c) <= log
    ensures ActiveSession(c).Ok?
    ensures var active := ActiveSession(c).value;
            && active.id == c.meta.activeSessionId && 0 <= active.startEvent - 1 <= active.endEvent == |LogOf(c)|
            && active == Segs(c)[c.meta.sessionCount - 1].record
            && Plan(c, None).events == FirstPage(log, active.startEvent, active.endEvent)
  {
    PlanWithoutCursor(c, log);
    SegAt(c, c.meta.sessionCount - 1);
    assert Placed(c.meta.threadId, Segs(c), c.meta.sessionCount - 1);
  }

  /** A cursor whose session was read lies inside the snapshot's log. */
  lemma {:induction false} CursorInSnapshot(c: Chain, cur: Cursor, k: nat)
    requires Readable(c) && k < c.meta.sessionCount && cur.lastSessionId == SessionId(k + 1)
    requires Segs(c)[k].record.startEvent - 1 <= cur.lastEventNo <= Segs(c)[k].record.endEvent
    ensures cur.lastSessionId in c.sessions && c.sessions[cur.lastSessionId].startEvent - 1 <= cur.lastEventNo
    ensures 0 <= cur.lastEventNo <= |LogOf(c)|
  {
    SegAt(c, k);
    SnapshotReaches(c.meta.threadId, Segs(c), k);
  }

  /** What a full read says about its active session, and that the disk covers it. */
  lemma {:induction false} SnapshotIsOk(codec: Codec, threadId: string, d: Disk, segs: seq<Segment>,
                                        cursor: Option<Cursor>, meta: Meta, files: seq<ReadResult>)
    requires FilesOk(codec, threadId, d, segs, cursor, meta, files) && |files| == meta.sessionCount
    requires Ranges(threadId, segs)
    ensures Assemble(meta, files).LoadedChain?
    ensures var c, log := Assemble(meta, files).chain, NormalEvents(Log(segs));
            && c.meta == meta && Readable(c) && Segs(c) == Snapshot(files) && LogOf(c) <= log
            && ActiveSession(c).Ok?
            && var active := ActiveSession(c).value;
            && PositionOk(codec, d, active.id, active.endEvent)
            && 0 <= active.startEvent - 1 <= active.endEvent == |LogOf(c)|
            && Plan(c, None).events == FirstPage(log, active.startEvent, active.endEvent)
  {
    var n := |files| - 1;
    SnapshotIsReadable(threadId, meta, files, segs);
    var c := Assemble(meta, files).chain;
    ActiveOfSnapshot(c, NormalEvents(Log(segs)));
    PositionRead(codec, d, n, files[n], files[n].record.endEvent);
  }

  /** With a cursor, the plan gives what the cursor lacks of the snapshot. */
  lemma {:induction false} SelectionWithCursor(c: Chain, files: seq<ReadResult>, cur: Cursor, log: seq<Event>)
    requires Readable(c) && c.meta.sessionCount == |files| && LogOf(c) <= log
    requires forall i :: 0 <= i < |files| ==> files[i].Loaded?
    requires Segs(c) == Snapshot(files)
    requires var n := Numeral(cur.lastSessionId);
             1 <= n <= |files| && cur.lastSessionId == SessionId(n) && CoversIn(files[n - 1], cur.lastEventNo)
    ensures 0 <= cur.lastEventNo <= |LogOf(c)|
    ensures Plan(c, Some(cur)).events == log[cur.lastEventNo..|LogOf(c)|]
  {
    CursorInSnapshot(c, cur, Numeral(cur.lastSessionId) - 1);
    PlanWithCursor(c, cur, log);
  }

  lemma {:induction false} FilesAreLoaded(codec: Codec, threadId: string, d: Disk, segs: seq<Segment>,
                                          cursor: Option<Cursor>, meta: Meta, files: seq<ReadResult>)
    requires FilesOk(codec, threadId, d, segs, cursor, meta, files)
    ensures forall i :: 0 <= i < |files| ==> files[i].Loaded?
  {
    forall i | 0 <= i < |files| ensures files[i].Loaded? {
      assert FileOk(threadId, i, files[i], segs[i], i < meta.sessionCount - 1);
    }
  }

  lemma {:induction false} CursorIsRead(codec: Codec, threadId: string, d: Disk, segs: seq<Segment>,
                                        cur: Cursor, rounds: seq<Round>, meta: Meta, files: seq<ReadResult>)
    requires FilesOk(codec, threadId, d, segs, Some(cur), meta, files) && |files| == meta.sessionCount
    requires CursorOk(codec, d, Some(cur), rounds)
    ensures var n := Numeral(cur.lastSessionId);
            && 1 <= n <= |files| && cur.lastSessionId == SessionId(n)
            && files[n - 1].Loaded? && CoversIn(files[n - 1], cur.lastEventNo)
  {
  }

  /** When all files are read, what is selected for the agent is what its cursor lacks. */
  lemma {:induction false} SelectionIsOk(codec: Codec, threadId: string, d: Disk, segs: seq<Segment>,
                                         cursor: Option<Cursor>, rounds: seq<Round>, meta: Meta, files: seq<ReadResult>)
    requires FilesOk(codec, threadId, d, segs, cursor, meta, files) && |files| == meta.sessionCount
    requires CursorOk(codec, d, cursor, rounds) && Ranges(threadId, segs)
    ensures Assemble(meta, files).LoadedChain?
    ensures var c := Assemble(meta, files).chain;
            InvocationOk(codec, threadId, d, cursor, NormalEvents(Log(segs)), c, Selected(c, cursor))
  {
    SnapshotIsOk(codec, threadId, d, segs, cursor, meta, files);
    FilesAreLoaded(codec, threadId, d, segs, cursor, meta, files);
    if cursor.Some? {
      CursorIsRead(codec, threadId, d, segs, cursor.value, rounds, meta, files);
      SelectionWithCursor(Assemble(meta, files).chain, files, cursor.value, NormalEvents(Log(segs)));
    }
  }

  lemma {:induction false} PositionRead(codec: Codec, d: Disk, n: nat, read: ReadResult, upto: int)
    requires d.meta.Some? && n < d.meta.value.sessionCount && GrowsAt(read, Image(codec, d, n))
    requires CoversIn(read, upto)
    ensures PositionOk(codec, d, SessionId(n + 1), upto)
  {
  }

  /** A successful invocation moves the cursor to the end of its snapshot and adds one more slice. */
  lemma {:induction false} SuccessIsOk(codec: Codec, threadId: string, d: Disk, cursor: Option<Cursor>, log: seq<Event>,
                                       snapshot: Chain, delivery: Delivery, rounds: seq<Round>, agentName: string, ai: string)
    requires InvocationOk(codec, threadId, d, cursor, log, snapshot, delivery)
    requires CursorOk(codec, d, cursor, rounds) && RoundsOk(rounds, log)
    ensures var active := ActiveSession(snapshot).value;
            var rounds' := rounds + [Round(delivery.events, active.endEvent, active.startEvent)];
            && CursorOk(codec, d, Some(Cursor(agentName, threadId, active.id, active.endEvent, ai)), rounds')
            && RoundsOk(rounds', log)
  {
    var active := ActiveSession(snapshot).value;
    var rounds', n := rounds + [Round(delivery.events, active.endEvent, active.startEvent)], |rounds|;
    forall i | 0 < i < |rounds'|
      ensures rounds'[i - 1].upto <= rounds'[i].upto && rounds'[i].events == log[rounds'[i - 1].upto..rounds'[i].upto]
    {
      if i < n {
        assert rounds'[i] == rounds[i] && rounds'[i - 1] == rounds[i - 1];
      } else {
        assert rounds'[i - 1] == rounds[n - 1];
      }
    }
  }

  // ----- One step -----

  lemma {:induction false} WriterShows(codec: Codec, s: System, a: Action)
    requires s.queue == []
    ensures a.AppendEvent? && Appended(s.chain, a.event, a.now).Ok? ==>
              var c := Appended(s.chain, a.event, a.now).value;
              Step(codec, s, a) == s.(chain := c, queue := AppendWrites(c))
    ensures a.SealActiveSession? && SealedOff(s.chain, s.chain.meta.threadId, a.now).Ok? ==>
              var c := SealedOff(s.chain, s.chain.meta.threadId, a.now).value;
              Step(codec, s, a) == s.(chain := c, queue := SealWrites(c, s.chain.meta.activeSessionId))
    ensures a.WriterRestart? && Load(codec, s.disk).LoadedChain? ==> Step(codec, s, a) == s.(chain := Load(codec, s.disk).chain)
  {
  }

  lemma {:induction false} IdleWriter(codec: Codec, s: System, a: Action)
    requires ByWriter(a)
    requires s.queue != [] || (a.CommitSummary? &&
               (a.sessionId !in s.chain.sessions || s.chain.sessions[a.sessionId].status == Active))
    ensures Step(codec, s, a) == s
  {
  }

  /** A writer step changes neither the disk nor anything of the worker, and its chain only moves on. */
  ghost predicate WriterMoved(codec: Codec, s: System, s': System) {
    && Keyed(s.chain) && s' == s.(chain := s'.chain, queue := s'.queue)
    && WriterOk(codec, s'.chain, s'.disk, s'.queue)
    && Later(Segs(s.chain), Segs(s'.chain)) && s'.chain.meta.threadId == s.chain.meta.threadId
  }

  lemma {:induction false} AppendStep(codec: Codec, s: System, a: Action)
    requires Lawful(codec) && WriterOk(codec, s.chain, s.disk, s.queue) && s.queue == []
    requires a.AppendEvent? && Printable(a.event)
    ensures WriterMoved(codec, s, Step(codec, s, a))
  {
    WellFormedIsLive(s.chain);
    AppendedArePrintable(Segs(s.chain), a.event, s.chain.meta.totalEvents + 1, a.now);
    AppendWriter(codec, s.chain, s.disk, a.event, a.now);
    WriterShows(codec, s, a);
  }

  lemma {:induction false} CommitShown(codec: Codec, s: System, a: Action)
    requires s.queue == [] && a.CommitSummary? && a.sessionId in s.chain.sessions && s.chain.sessions[a.sessionId].status != Active
    ensures var c := Committed(s.chain, a.sessionId, a.summary);
            Step(codec, s, a) == s.(chain := c, queue := CommitWrites(c, a.sessionId))
  {
  }

  lemma {:induction false} CommitStep(codec: Codec, s: System, a: Action)
    requires Lawful(codec) && WriterOk(codec, s.chain, s.disk, s.queue) && s.queue == []
    requires a.CommitSummary? && a.sessionId in s.chain.sessions && s.chain.sessions[a.sessionId].status != Active
    ensures WriterMoved(codec, s, Step(codec, s, a))
  {
    CompressingIsNotActive(s.chain, a.sessionId);
    var k := Numeral(a.sessionId) - 1;
    assert a.sessionId == SessionId(k + 1);
    CommitWriter(codec, s.chain, s.disk, k, a.summary);
    CommitShown(codec, s, a);
  }

  lemma {:induction false} WriterMoves(codec: Codec, s: System, a: Action)
    requires Lawful(codec) && WriterOk(codec, s.chain, s.disk, s.queue)
    requires ByWriter(a) && (a.AppendEvent? ==> Printable(a.event))
    ensures WriterMoved(codec, s, Step(codec, s, a))
  {
    LaterReflexive(Segs(s.chain));
    if s.queue != [] {
      IdleWriter(codec, s, a);
    } else {
      WriterShows(codec, s, a);
      match a {
        case AppendEvent(_, _) => AppendStep(codec, s, a);
        case SealActiveSession(now) => SealWriter(codec, s.chain, s.disk, now);
        case WriterRestart => RestartWriter(codec, s.chain, s.disk);
        case CommitSummary(id, _) =>
          if id in s.chain.sessions && s.chain.sessions[id].status != Active {
            CommitStep(codec, s, a);
          } else {
            IdleWriter(codec, s, a);
          }
      }
    }
  }

  lemma {:induction false} WriterKeeps(codec: Codec, s: System, s': System)
    requires Inv(codec, s) && WriterMoved(codec, s, s')
    ensures Inv(codec, s')
  {
    RoundsOkLater(s.rounds, NormalEvents(LogOf(s.chain)), NormalEvents(LogOf(s'.chain)));
    WorkerOkLater(codec, s.chain.meta.threadId, s.disk, Segs(s.chain), Segs(s'.chain), s.cursor, s.worker);
  }

  lemma {:induction false} FlushKeeps(codec: Codec, s: System)
    requires Inv(codec, s)
    ensures Inv(codec, FlushStep(codec, s))
  {
    if s.queue != [] {
      FlushWriter(codec, s.chain, s.disk, s.queue);
      var d := Apply(codec, s.disk, s.queue[0]);
      WorkerOkGrows(codec, s.chain.meta.threadId, s.disk, d, Segs(s.chain), s.cursor, s.worker);
      if s.cursor.Some? {
        PositionOkGrows(codec, s.disk, d, s.cursor.value.lastSessionId, s.cursor.value.lastEventNo);
      }
    }
  }

  /** What the worker does, if the action is one that it can take; else nothing. */
  lemma {:induction false} WorkerShows(codec: Codec, s: System, a: Action)
    ensures match s.worker
            case Idle =>
              WorkerStep(codec, s, a)
              == if a.BeginTask? && s.disk.meta.Some? then s.(worker := Reloading(s.disk.meta.value, [])) else s
            case Reloading(meta, files) =>
              if a.ReadFile? && |files| < meta.sessionCount then
                WorkerStep(codec, s, a) == s.(worker := Reloading(meta, files + [Image(codec, s.disk, |files|)]))
              else if a.SelectContext? && |files| == meta.sessionCount then
                Assemble(meta, files).LoadedChain? ==>
                  var c := Assemble(meta, files).chain;
                  WorkerStep(codec, s, a) == s.(worker := Invoking(c, Selected(c, s.cursor)))
              else WorkerStep(codec, s, a) == s
            case Invoking(snapshot, delivery) =>
              if a.InvocationFails? then WorkerStep(codec, s, a) == s.(worker := Idle)
              else if a.InvocationSucceeds? then
                ActiveSession(snapshot).Ok? ==>
                  var active := ActiveSession(snapshot).value;
                  WorkerStep(codec, s, a)
                  == s.(worker := Idle,
                        cursor := Some(Cursor(s.agentName, snapshot.meta.threadId, active.id, active.endEvent, a.aiSessionId)),
                        rounds := s.rounds + [Round(delivery.events, active.endEvent, active.startEvent)])
              else WorkerStep(codec, s, a) == s
  {
  }

  lemma {:induction false} ReloadingKeeps(codec: Codec, s: System, a: Action)
    requires Inv(codec, s) && s.worker.Reloading?
    ensures Inv(codec, WorkerStep(codec, s, a))
  {
    var threadId, meta, files := s.chain.meta.threadId, s.worker.meta, s.worker.files;
    WorkerShows(codec, s, a);
    if a.ReadFile? && |files| < meta.sessionCount {
      ReadIsOk(codec, threadId, s.disk, Segs(s.chain), s.cursor, s.rounds, meta, files);
    } else if a.SelectContext? && |files| == meta.sessionCount {
      SelectionIsOk(codec, threadId, s.disk, Segs(s.chain), s.cursor, s.rounds, meta, files);
    }
  }

  lemma {:induction false} InvokingKeeps(codec: Codec, s: System, a: Action)
    requires Inv(codec, s) && s.worker.Invoking?
    ensures Inv(codec, WorkerStep(codec, s, a))
  {
    WorkerShows(codec, s, a);
    if a.InvocationSucceeds? {
      SuccessIsOk(codec, s.chain.meta.threadId, s.disk, s.cursor, NormalEvents(LogOf(s.chain)),
                  s.worker.snapshot, s.worker.delivery, s.rounds, s.agentName, a.aiSessionId);
    }
  }

  lemma {:induction false} WorkerKeeps(codec: Codec, s: System, a: Action)
    requires Inv(codec, s)
    ensures Inv(codec, WorkerStep(codec, s, a))
  {
    match s.worker {
      case Idle =>
        WorkerShows(codec, s, a);
        BeginIsOk(codec, s.chain.meta.threadId, s.disk, Segs(s.chain), s.cursor, s.rounds);
      case Reloading(_, _) => ReloadingKeeps(codec, s, a);
      case Invoking(_, _) => InvokingKeeps(codec, s, a);
    }
  }

  lemma {:induction false} StepKeeps(codec: Codec, s: System, a: Action)
    requires Lawful(codec) && Inv(codec, s) && Admissible(a)
    ensures Inv(codec, Step(codec, s, a))
  {
    if ByWriter(a) {
      WriterMoves(codec, s, a);
      WriterKeeps(codec, s, Step(codec, s, a));
    } else if a.Flush? {
      FlushKeeps(codec, s);
    } else {
      WorkerKeeps(codec, s, a);
    }
  }

  // ----- Every run -----

  lemma {:induction false} StartIsOk(codec: Codec, threadId: string, agentName: string, now: Time)
    requires Lawful(codec)
    ensures Inv(codec, Start(codec, threadId, agentName, now))
  {
    StartIsInv(codec, threadId, now);
    var c := NewChain(threadId, now);
    SyncedIsOk(codec, c, ApplyAll(codec, EMPTY_DISK, CreateWrites(c)));
    NewChainIsWellFormed(threadId, now);
  }

  lemma {:induction false} RunKeepsNext(codec: Codec, s: System, actions: seq<Action>)
    requires Lawful(codec) && actions != [] && Admissible(actions[|actions| - 1])
    ensures Inv(codec, Run(codec, s, actions[..|actions| - 1])) ==> Inv(codec, Run(codec, s, actions))
  {
    var n := |actions| - 1;
    if Inv(codec, Run(codec, s, actions[..n])) {
      StepKeeps(codec, Run(codec, s, actions[..n]), actions[n]);
    }
  }

  /** If the invariant holds where a run starts, it holds where the run ends. */
  lemma {:induction false} RunKeeps(codec: Codec, s: System, actions: seq<Action>)
    requires Lawful(codec) && AllAdmissible(actions)
    ensures Inv(codec, s) ==> Inv(codec, Run(codec, s, actions))
  {
    if actions != [] {
      RunKeeps(codec, s, actions[..|actions| - 1]);
      RunKeepsNext(codec, s, actions);
    }
  }

  function AllEvents(rounds: seq<Round>): seq<Event> {
    if rounds == [] then [] else AllEvents(rounds[..|rounds| - 1]) + rounds[|rounds| - 1].events
  }

  lemma {:induction false} SlicesMeet<T>(log: seq<T>, a: int, b: int, c: int)
    requires 0 <= a <= b <= c <= |log|
    ensures log[a..b] + log[b..c] == log[a..c]
  {
  }

  /** Slices, each of which starts where the one before it ended, join to one slice. */
  lemma {:induction false} RoundsJoin(rounds: seq<Round>, log: seq<Event>, n: nat)
    requires RoundsOk(rounds, log) && 1 <= n <= |rounds|
    ensures 0 <= rounds[0].upto <= rounds[n - 1].upto <= |log|
    ensures AllEvents(rounds[1..n]) == log[rounds[0].upto..rounds[n - 1].upto]
  {
    if n > 1 {
      RoundsJoin(rounds, log, n - 1);
      assert rounds[1..n][..n - 2] == rounds[1..n - 1];
      SlicesMeet(log, rounds[0].upto, rounds[n - 2].upto, rounds[n - 1].upto);
    } else {
      assert rounds[1..1] == [];
    }
  }

  /** All rounds after the first, joined, are the log from where the first one ended up to the cursor. */
  ghost predicate DeliveredOnce(rounds: seq<Round>, cursor: Option<Cursor>, log: seq<Event>) {
    if cursor.None? then rounds == []
    else
      && rounds != [] && 0 <= rounds[0].upto <= cursor.value.lastEventNo <= |log|
      && AllEvents(rounds[1..]) == log[rounds[0].upto..cursor.value.lastEventNo]
  }

  lemma {:induction false} RoundsDeliverOnce(codec: Codec, d: Disk, rounds: seq<Round>, cursor: Option<Cursor>, log: seq<Event>)
    requires RoundsOk(rounds, log) && CursorOk(codec, d, cursor, rounds)
    ensures DeliveredOnce(rounds, cursor, log)
  {
    if rounds != [] {
      RoundsJoin(rounds, log, |rounds|);
      assert rounds[1..|rounds|] == rounds[1..];
    }
  }

  /**
   * Exactly once: in every run, what the agent was given after its first invocation is one contiguous part of
   * the writer's log, from where the first snapshot ended up to its cursor, without gap and without repeat.
   */
  lemma {:induction false} ExactlyOnce(codec: Codec, threadId: string, agentName: string, now: Time, actions: seq<Action>)
    requires Lawful(codec) && AllAdmissible(actions)
    ensures var s := Run(codec, Start(codec, threadId, agentName, now), actions);
            && Keyed(s.chain)
            && RoundsOk(s.rounds, NormalEvents(LogOf(s.chain)))
            && DeliveredOnce(s.rounds, s.cursor, NormalEvents(LogOf(s.chain)))
  {
    StartIsOk(codec, threadId, agentName, now);
    RunKeeps(codec, Start(codec, threadId, agentName, now), actions);
    var s := Run(codec, Start(codec, threadId, agentName, now), actions);
    RoundsDeliverOnce(codec, s.disk, s.rounds, s.cursor, NormalEvents(LogOf(s.chain)));
  }

  /** The first invocation gets its whole active session exactly if that fits one page. */
  lemma {:induction false} FirstPageIsCompleteIff(log: seq<Event>, startEvent: int, upto: int)
    requires 0 <= startEvent - 1 <= upto <= |log|
    ensures FirstPage(log, startEvent, upto) == log[startEvent - 1..upto] <==> upto - startEvent + 1 <= FULL_READ
  {
    assert |FirstPage(log, startEvent, upto)| <= FULL_READ;
  }

  /** So in every run the first round is a complete read of its active session exactly if that fits one page. */
  lemma {:induction false} FirstRoundIsCompleteIff(codec: Codec, threadId: string, agentName: string, now: Time,
      actions: seq<Action>)
    requires Lawful(codec) && AllAdmissible(actions)
    requires Run(codec, Start(codec, threadId, agentName, now), actions).rounds != []
    ensures var s := Run(codec, Start(codec, threadId, agentName, now), actions);
            var first := s.rounds[0];
            && Keyed(s.chain)
            && var log := NormalEvents(LogOf(s.chain));
            && 0 <= first.startEvent - 1 <= first.upto <= |log|
            && (first.events == log[first.startEvent - 1..first.upto] <==> first.upto - first.startEvent + 1 <= FULL_READ)
  {
    ExactlyOnce(codec, threadId, agentName, now, actions);
    var s := Run(codec, Start(codec, threadId, agentName, now), actions);
    FirstPageIsCompleteIff(NormalEvents(LogOf(s.chain)), s.rounds[0].startEvent, s.rounds[0].upto);
  }

  // ----- What the writer's log holds -----

  /** What a writer's step does to the log; steps that find writes outstanding wait. */
  function AsRegion(a: Action): seq<ChainRuns.Action> {
    match a
    case AppendEvent(event, now) => [ChainRuns.Action.AppendEvent(event, now)]
    case WriterRestart => [ChainRuns.Action.Restart]
    case _ => []
  }

  /** The writer's appends and restarts of a run, but for those that found writes outstanding. */
  ghost function WriterRegions(codec: Codec, s: System, actions: seq<Action>): seq<ChainRuns.Action> {
    if actions == [] then []
    else
      var init, a := actions[..|actions| - 1], actions[|actions| - 1];
      WriterRegions(codec, s, init) + if Run(codec, s, init).queue == [] then AsRegion(a) else []
  }

  lemma {:induction false} CommitLeavesLog(c: Chain, id: string, summary: string)
    requires WellFormed(c) && id in c.sessions && c.sessions[id].status != Active
    ensures Keyed(Committed(c, id, summary)) && LogOf(Committed(c, id, summary)) == LogOf(c)
  {
    CompressingIsNotActive(c, id);
    CommitAtLeavesLog(c, Numeral(id) - 1, id, summary);
  }

  lemma {:induction false} CommitAtLeavesLog(c: Chain, k: nat, id: string, summary: string)
    requires WellFormed(c) && id in c.sessions && k < c.meta.sessionCount - 1 && id == SessionId(k + 1)
    ensures Keyed(Committed(c, id, summary)) && LogOf(Committed(c, id, summary)) == LogOf(c)
  {
    CommitKeepsChain(c, k, summary);
  }

  lemma {:induction false} RestartedLog(codec: Codec, s: System)
    requires WriterOk(codec, s.chain, s.disk, s.queue) && s.queue == []
    ensures Keyed(Step(codec, s, WriterRestart).chain)
    ensures LogOf(Step(codec, s, WriterRestart).chain) == NormalEvents(LogOf(s.chain))
  {
    LoadIsNormal(codec, s.disk, s.chain);
    LogOfNormal(Segs(s.chain));
    WriterShows(codec, s, WriterRestart);
  }

  lemma {:induction false} CommitChain(codec: Codec, s: System, a: Action)
    requires s.queue == [] && a.CommitSummary?
    ensures Step(codec, s, a).chain ==
              if a.sessionId in s.chain.sessions && s.chain.sessions[a.sessionId].status != Active
              then Committed(s.chain, a.sessionId, a.summary) else s.chain
  {
  }

  lemma {:induction false} WriterLogStep(codec: Codec, s: System, a: Action)
    requires WriterOk(codec, s.chain, s.disk, s.queue) && s.queue == [] && ByWriter(a)
    ensures Keyed(Step(codec, s, a).chain)
    ensures var log, log' := LogOf(s.chain), LogOf(Step(codec, s, a).chain);
            if AsRegion(a) == [] then log' == log else LogFollows(log, log', AsRegion(a)[0])
  {
    WriterShows(codec, s, a);
    match a {
      case AppendEvent(e, now) => AppendStoresGiven(s.chain, e, now);
      case SealActiveSession(now) => SealKeepsChain(s.chain, now);
      case WriterRestart => RestartedLog(codec, s);
      case CommitSummary(id, summary) =>
        CommitChain(codec, s, a);
        if id in s.chain.sessions && s.chain.sessions[id].status != Active {
          CommitLeavesLog(s.chain, id, summary);
        }
    }
  }

  lemma {:induction false} OthersLeaveLog(codec: Codec, s: System, a: Action)
    requires s.queue != [] || !ByWriter(a)
    ensures Step(codec, s, a).chain == s.chain
  {
  }

  lemma {:induction false} ReadersAreNoRegions(a: Action)
    requires !ByWriter(a)
    ensures AsRegion(a) == []
  {
  }

  lemma {:induction false} WriterLogNext(codec: Codec, s: System, a: Action, regions: seq<ChainRuns.Action>,
                                         stored: seq<Event>, picked: seq<nat>)
    returns (picked': seq<nat>, stored': seq<Event>)
    requires WriterOk(codec, s.chain, s.disk, s.queue) && IsLogOf(LogOf(s.chain), stored, regions, picked)
    ensures Keyed(Step(codec, s, a).chain)
    ensures IsLogOf(LogOf(Step(codec, s, a).chain), stored', regions + if s.queue == [] then AsRegion(a) else [], picked')
  {
    picked', stored' := picked, stored;
    assert regions + [] == regions;
    if s.queue != [] || !ByWriter(a) {
      OthersLeaveLog(codec, s, a);
      if !ByWriter(a) {
        ReadersAreNoRegions(a);
      }
    } else {
      WriterLogStep(codec, s, a);
      if AsRegion(a) != [] {
        assert AsRegion(a) == [AsRegion(a)[0]];
        picked', stored' := LogAfter(LogOf(s.chain), LogOf(Step(codec, s, a).chain), stored, regions, AsRegion(a)[0], picked);
      }
    }
  }

  /**
   * The log that is delivered from is the list of the events that were appended, in the appends' order: each as it
   * was given, with its number, time and estimate, or as the session files kept it over a restart.
   */
  lemma {:induction false} WriterLogIsWhatWasAppended(codec: Codec, threadId: string, agentName: string, now: Time,
      actions: seq<Action>)
    returns (picked: seq<nat>, stored: seq<Event>)
    requires Lawful(codec) && AllAdmissible(actions)
    ensures var start := Start(codec, threadId, agentName, now);
            && Keyed(Run(codec, start, actions).chain)
            && IsLogOf(LogOf(Run(codec, start, actions).chain), stored, WriterRegions(codec, start, actions), picked)
  {
    var start := Start(codec, threadId, agentName, now);
    if actions == [] {
      picked, stored := [], [];
      NewChainIsWellFormed(threadId, now);
    } else {
      var init, a := actions[..|actions| - 1], actions[|actions| - 1];
      var s, regions := Run(codec, start, init), WriterRegions(codec, start, init);
      picked, stored := WriterLogIsWhatWasAppended(codec, threadId, agentName, now, init);
      StartIsOk(codec, threadId, agentName, now);
      RunKeeps(codec, start, init);
      picked, stored := WriterLogNext(codec, s, a, regions, stored, picked);
    }
  }

  // ----- Progress -----

  lemma {:induction false} RunNext(codec: Codec, s: System, actions: seq<Action>, a: Action)
    ensures Run(codec, s, actions + [a]) == Step(codec, Run(codec, s, actions), a)
  {
    assert (actions + [a])[..|actions|] == actions;
  }

  function Images(codec: Codec, d: Disk, n: nat): seq<ReadResult> {
    seq(n, i requires 0 <= i < n => Image(codec, d, i))
  }

  lemma {:induction false} ReadsNext(n: nat)
    requires n > 0
    ensures [BeginTask] + seq(n - 1, _ => ReadFile) + [ReadFile] == [BeginTask] + seq(n, _ => ReadFile)
  {
  }

  lemma {:induction false} ImagesNext(codec: Codec, d: Disk, n: nat)
    ensures Images(codec, d, n + 1) == Images(codec, d, n) + [Image(codec, d, n)]
  {
  }

  lemma {:induction false} NextFileIsRead(codec: Codec, s: System, disk: Disk, n: nat)
    requires disk.meta.Some? && n < disk.meta.value.sessionCount && s.disk == disk
    requires s.worker == Reloading(disk.meta.value, Images(codec, disk, n))
    ensures Step(codec, s, ReadFile) == s.(worker := Reloading(disk.meta.value, Images(codec, disk, n + 1)))
  {
    ImagesNext(codec, disk, n);
  }

  /** A worker that begins and reads n files while nobody writes. */
  lemma {:induction false} QuietReads(codec: Codec, s: System, n: nat)
    requires s.worker.Idle? && s.disk.meta.Some? && n <= s.disk.meta.value.sessionCount
    ensures Run(codec, s, [BeginTask] + seq(n, _ => ReadFile))
         == s.(worker := Reloading(s.disk.meta.value, Images(codec, s.disk, n)))
  {
    if n == 0 {
      QuietBegin(codec, s);
    } else {
      QuietReads(codec, s, n - 1);
      RunNext(codec, s, [BeginTask] + seq(n - 1, _ => ReadFile), ReadFile);
      ReadsNext(n);
      NextFileIsRead(codec, s.(worker := Reloading(s.disk.meta.value, Images(codec, s.disk, n - 1))), s.disk, n - 1);
    }
  }

  lemma {:induction false} QuietBegin(codec: Codec, s: System)
    requires s.worker.Idle? && s.disk.meta.Some?
    ensures Run(codec, s, [BeginTask] + seq(0, _ => ReadFile))
         == s.(worker := Reloading(s.disk.meta.value, Images(codec, s.disk, 0)))
  {
    RunNext(codec, s, [], BeginTask);
    assert [] + [BeginTask] == [BeginTask] + seq(0, _ => ReadFile);
    assert Run(codec, s, []) == s;
    assert Images(codec, s.disk, 0) == [];
  }

  lemma {:induction false} QuietSelection(codec: Codec, s: System)
    requires WriterOk(codec, s.chain, s.disk, s.queue) && s.queue == [] && s.worker.Idle?
    ensures s.disk.meta == Some(s.chain.meta)
    ensures var c := Assemble(s.chain.meta, Images(codec, s.disk, s.chain.meta.sessionCount));
            && c.LoadedChain? && ActiveSession(c.chain).Ok? && ActiveSession(c.chain).value.endEvent == |LogOf(s.chain)|
            && ActiveSession(c.chain).value.startEvent == Segs(s.chain)[s.chain.meta.sessionCount - 1].record.startEvent
  {
    var n := s.chain.meta.sessionCount;
    NothingLeft(codec, s.chain, s.disk);
    UndisturbedReload(codec, s.disk, s.chain.meta, n);
    LoadIsNormal(codec, s.disk, s.chain);
    SegAt(Load(codec, s.disk).chain, n - 1);
    LogIsNumbered(s.chain.meta.threadId, Segs(s.chain));
  }

  lemma {:induction false} FinishShows(codec: Codec, s: System, ai: string)
    requires s.worker.Reloading? && |s.worker.files| == s.worker.meta.sessionCount
    requires var r := Assemble(s.worker.meta, s.worker.files);
             r.LoadedChain? && ActiveSession(r.chain).Ok?
    ensures var s' := Step(codec, Step(codec, s, SelectContext), InvocationSucceeds(ai));
            var active := ActiveSession(Assemble(s.worker.meta, s.worker.files).chain).value;
            && s'.cursor.Some? && s'.cursor.value.lastEventNo == active.endEvent
            && |s'.rounds| == |s.rounds| + 1 && s'.rounds[|s.rounds|].upto == active.endEvent
            && s'.rounds[|s.rounds|].startEvent == active.startEvent
  {
    WorkerShows(codec, s, SelectContext);
    WorkerShows(codec, Step(codec, s, SelectContext), InvocationSucceeds(ai));
  }

  /** The steps of an invocation that reads n sessions and succeeds. */
  function QuietRound(n: nat, ai: string): seq<Action> {
    [BeginTask] + seq(n, _ => ReadFile) + [SelectContext] + [InvocationSucceeds(ai)]
  }

  /** An undisturbed successful invocation brings the agent up to the end of the log: no event waits forever. */
  lemma {:induction false} QuietRoundCatchesUp(codec: Codec, s: System, ai: string)
    requires WriterOk(codec, s.chain, s.disk, s.queue) && s.queue == [] && s.worker.Idle?
    ensures var n := s.chain.meta.sessionCount;
            var s' := Run(codec, s, QuietRound(n, ai));
            && s'.cursor.Some? && s'.cursor.value.lastEventNo == |LogOf(s.chain)|
            && |s'.rounds| == |s.rounds| + 1 && s'.rounds[|s.rounds|].upto == |LogOf(s.chain)|
            && s'.rounds[|s.rounds|].startEvent == Segs(s.chain)[n - 1].record.startEvent
  {
    var n := s.chain.meta.sessionCount;
    var actions := [BeginTask] + seq(n, _ => ReadFile);
    QuietSelection(codec, s);
    QuietReads(codec, s, n);
    RunNext(codec, s, actions, SelectContext);
    RunNext(codec, s, actions + [SelectContext], InvocationSucceeds(ai));
    FinishShows(codec, Run(codec, s, actions), ai);
  }

  // ----- A run whose first round misses events -----

  /** The same event, appended and written n times. */
  function Filling(e: Event, now: Time, n: nat): seq<Action> {
    if n == 0 then [] else Filling(e, now, n - 1) + [Action.AppendEvent(e, now)] + [Flush] + [Flush]
  }

  /** A thread of one session with n events, all written, which no agent has read yet. */
  predicate Filled(s: System, n: nat) {
    && s.queue == [] && s.worker == Idle && s.rounds == []
    && s.chain.meta.sessionCount == 1 && s.chain.meta.totalEvents == n
  }

  function Refilled(codec: Codec, s: System, e: Event, now: Time): System {
    FlushStep(codec, FlushStep(codec, WriterStep(codec, s, Action.AppendEvent(e, now))))
  }

  lemma {:induction false} AppendAndFlush(codec: Codec, s: System, e: Event, now: Time)
    requires s.queue == [] && Appended(s.chain, e, now).Ok?
    requires Appended(s.chain, e, now).value.meta.activeSessionId in Appended(s.chain, e, now).value.sessions
    ensures var c := Appended(s.chain, e, now).value;
            var t := Refilled(codec, s, e, now);
            t == s.(chain := c, queue := [], disk := t.disk)
  {
  }

  lemma {:induction false} AppendedFacts(c: Chain, e: Event, now: Time)
    requires WellFormed(c)
    ensures Appended(c, e, now).Ok?
    ensures var d := Appended(c, e, now).value;
            && d.meta.activeSessionId in d.sessions
            && d.meta.sessionCount == c.meta.sessionCount && d.meta.totalEvents == c.meta.totalEvents + 1
  {
    WellFormedIsLive(c);
    AppendedIsAppend(c, e, now);
    SegAt(Appended(c, e, now).value, c.meta.sessionCount - 1);
  }

  lemma {:induction false} RefilledSteps(codec: Codec, s: System, e: Event, now: Time)
    ensures Step(codec, Step(codec, Step(codec, s, Action.AppendEvent(e, now)), Flush), Flush) == Refilled(codec, s, e, now)
  {
  }

  lemma {:induction false} FillOneMore(codec: Codec, s: System, e: Event, now: Time, n: nat)
    requires WellFormed(s.chain) && Filled(s, n)
    ensures Filled(Refilled(codec, s, e, now), n + 1)
  {
    AppendedFacts(s.chain, e, now);
    AppendAndFlush(codec, s, e, now);
  }

  lemma {:induction false} FillingNext(codec: Codec, s: System, e: Event, now: Time, n: nat)
    ensures Run(codec, s, Filling(e, now, n + 1)) == Refilled(codec, Run(codec, s, Filling(e, now, n)), e, now)
  {
    var init := Filling(e, now, n);
    RunNext(codec, s, init, Action.AppendEvent(e, now));
    RunNext(codec, s, init + [Action.AppendEvent(e, now)], Flush);
    RunNext(codec, s, init + [Action.AppendEvent(e, now)] + [Flush], Flush);
    RefilledSteps(codec, Run(codec, s, init), e, now);
  }

  ghost function After(codec: Codec, s: System, e: Event, now: Time, n: nat): System {
    if n == 0 then s else Refilled(codec, After(codec, s, e, now, n - 1), e, now)
  }

  lemma {:induction false} FillingRuns(codec: Codec, s: System, e: Event, now: Time, n: nat)
    ensures Run(codec, s, Filling(e, now, n)) == After(codec, s, e, now, n)
  {
    if n > 0 {
      FillingRuns(codec, s, e, now, n - 1);
      FillingNext(codec, s, e, now, n - 1);
    }
  }

  lemma {:induction false} FillingIsAdmissible(e: Event, now: Time, n: nat)
    requires Printable(e)
    ensures AllAdmissible(Filling(e, now, n))
  {
    if n > 0 {
      FillingIsAdmissible(e, now, n - 1);
    }
  }

  lemma {:induction false} AfterIsInv(codec: Codec, s: System, e: Event, now: Time, n: nat)
    requires Lawful(codec) && Printable(e)
    ensures Inv(codec, s) ==> Inv(codec, After(codec, s, e, now, n))
  {
    FillingIsAdmissible(e, now, n);
    RunKeeps(codec, s, Filling(e, now, n));
    FillingRuns(codec, s, e, now, n);
  }

  ghost predicate FilledAfter(codec: Codec, s: System, e: Event, now: Time, n: nat) {
    Filled(After(codec, s, e, now, n), n)
  }

  lemma {:induction false} AfterNext(codec: Codec, s: System, e: Event, now: Time, n: nat)
    requires Lawful(codec) && Printable(e) && Inv(codec, s) && FilledAfter(codec, s, e, now, n)
    ensures FilledAfter(codec, s, e, now, n + 1)
  {
    AfterIsInv(codec, s, e, now, n);
    FillOneMore(codec, After(codec, s, e, now, n), e, now, n);
  }

  lemma {:induction false} FilledByInduction(codec: Codec, s: System, e: Event, now: Time, n: nat)
    requires FilledAfter(codec, s, e, now, 0)
    requires forall k: nat :: k < n && FilledAfter(codec, s, e, now, k) ==> FilledAfter(codec, s, e, now, k + 1)
    ensures FilledAfter(codec, s, e, now, n)
  {
    if n > 0 {
      FilledByInduction(codec, s, e, now, n - 1);
    }
  }

  lemma {:induction false} FillingFills(codec: Codec, s: System, e: Event, now: Time, n: nat)
    requires Lawful(codec) && Printable(e) && Inv(codec, s) && FilledAfter(codec, s, e, now, 0)
    ensures FilledAfter(codec, s, e, now, n)
  {
    forall k: nat | k < n && FilledAfter(codec, s, e, now, k) ensures FilledAfter(codec, s, e, now, k + 1) {
      AfterNext(codec, s, e, now, k);
    }
    FilledByInduction(codec, s, e, now, n);
  }

  lemma {:induction false} RunOfConcat(codec: Codec, s: System, a: seq<Action>, b: seq<Action>)
    ensures Run(codec, s, a + b) == Run(codec, Run(codec, s, a), b)
  {
    if b == [] {
      assert a + b == a;
    } else {
      var n := |b| - 1;
      RunOfConcat(codec, s, a, b[..n]);
      assert b == b[..n] + [b[n]];
      Associative(a, b[..n], [b[n]]);
      RunNext(codec, s, a + b[..n], b[n]);
    }
  }

  lemma {:induction false} FilledIsOneSession(codec: Codec, s: System, n: nat)
    requires Inv(codec, s) && Filled(s, n)
    ensures WriterOk(codec, s.chain, s.disk, []) && |LogOf(s.chain)| == n
    ensures Segs(s.chain)[0].record.startEvent == 1
  {
    WellFormedIsLive(s.chain);
    assert Placed(s.chain.meta.threadId, Segs(s.chain), 0);
  }

  lemma {:induction false} RoundOfFilled(codec: Codec, s: System, n: nat, ai: string)
    requires Inv(codec, s) && Filled(s, n)
    ensures var t := Run(codec, s, QuietRound(1, ai));
            |t.rounds| == 1 && t.rounds[0].startEvent == 1 && t.rounds[0].upto == n
  {
    FilledIsOneSession(codec, s, n);
    QuietRoundCatchesUp(codec, s, ai);
  }

  lemma {:induction false} FilledFromStart(codec: Codec, threadId: string, agentName: string, now: Time, e: Event, n: nat)
    requires Lawful(codec) && Printable(e)
    ensures var s := Run(codec, Start(codec, threadId, agentName, now), Filling(e, now, n));
            Inv(codec, s) && Filled(s, n)
  {
    StartIsOk(codec, threadId, agentName, now);
    AfterIsInv(codec, Start(codec, threadId, agentName, now), e, now, n);
    FillingFills(codec, Start(codec, threadId, agentName, now), e, now, n);
    FillingRuns(codec, Start(codec, threadId, agentName, now), e, now, n);
  }

  lemma {:induction false} QuietIsAdmissible(e: Event, now: Time, n: nat, ai: string)
    requires Printable(e)
    ensures AllAdmissible(Filling(e, now, n) + QuietRound(1, ai))
  {
    FillingIsAdmissible(e, now, n);
  }

  /** Every first round is reached: in a new thread, n messages and an undisturbed invocation. */
  lemma {:induction false} FirstRoundOf(codec: Codec, threadId: string, agentName: string, now: Time, e: Event,
                                        n: nat, ai: string)
    requires Lawful(codec) && Printable(e)
    ensures var s := Run(codec, Start(codec, threadId, agentName, now), Filling(e, now, n) + QuietRound(1, ai));
            |s.rounds| == 1 && s.rounds[0].startEvent == 1 && s.rounds[0].upto == n
  {
    var start := Start(codec, threadId, agentName, now);
    FilledFromStart(codec, threadId, agentName, now, e, n);
    RunOfConcat(codec, start, Filling(e, now, n), QuietRound(1, ai));
    RoundOfFilled(codec, Run(codec, start, Filling(e, now, n)), n, ai);
  }

  /** With more than 10000 messages, the agent's first round is not complete, and its cursor is behind all of them. */
  lemma {:induction false} FirstRoundMissesEvents(codec: Codec, threadId: string, agentName: string, now: Time,
      e: Event, n: nat, ai: string)
    requires Lawful(codec) && Printable(e) && n > FULL_READ
    ensures var s := Run(codec, Start(codec, threadId, agentName, now), Filling(e, now, n) + QuietRound(1, ai));
            && Keyed(s.chain) && |s.rounds| == 1 && s.rounds[0].upto == n <= |LogOf(s.chain)|
            && s.rounds[0].events != NormalEvents(LogOf(s.chain))[..n]
  {
    FirstRoundOf(codec, threadId, agentName, now, e, n, ai);
    QuietIsAdmissible(e, now, n, ai);
    FirstRoundIsCompleteIff(codec, threadId, agentName, now, Filling(e, now, n) + QuietRound(1, ai));
    var s := Run(codec, Start(codec, threadId, agentName, now), Filling(e, now, n) + QuietRound(1, ai));
    assert NormalEvents(LogOf(s.chain))[0..n] == NormalEvents(LogOf(s.chain))[..n];
  }
}
