/**
 * What another process sees of a thread's files while their writer is at work. A reload files meta.json
 * first and then one session file after the other, so the writer may get in between any two of them.
 */
module Snapshots {
  import opened SessionTypes
  import opened SessionMarkdown
  import opened SessionRoundTrip
  import opened SessionLog
  import opened SessionChain
  import opened SessionDisk
  import opened ChainRuns

  // ----- Putting a snapshot together -----

  /** The loop of ReloadThread over what it read; files that cannot be read are skipped. */
  function Assemble(meta: Meta, files: seq<ReadResult>): LoadResult {
    if files == [] then LoadedChain(Chain(meta, map[], map[]))
    else
      var n := |files|;
      var before := Assemble(meta, files[..n - 1]);
      if !before.LoadedChain? then before
      else
        match files[n - 1]
        case Unreadable => before
        case ReadPanics => LoadPanics(before.chain)
        case Loaded(r, events) =>
          LoadedChain(Chain(meta, before.chain.sessions[SessionId(n) := r], before.chain.events[SessionId(n) := events]))
  }

  /** If nobody writes meanwhile, a reload gives what the disk holds. */
  lemma {:induction false} UndisturbedReload(codec: Codec, d: Disk, meta: Meta, n: nat)
    ensures Assemble(meta, seq(n, i requires 0 <= i < n => Image(codec, d, i))) == LoadSessions(codec, d, meta, n)
  {
    var files := seq(n, i requires 0 <= i < n => Image(codec, d, i));
    if n > 0 {
      UndisturbedReload(codec, d, meta, n - 1);
      assert files[..n - 1] == seq(n - 1, i requires 0 <= i < n - 1 => Image(codec, d, i));
    }
  }

  // ----- Files against the writer's sessions -----

  /**
   * The i-th session file, as read at some time, against the writer's i-th session: a front part of its events,
   * under a record that fits them. If the file is final, it has them all, and the session is closed.
   */
  ghost predicate FileOk(threadId: string, i: nat, read: ReadResult, s: Segment, final: bool) {
    && read.Loaded?
    && read.record.id == SessionId(i + 1) && read.record.seqNo == i + 1 && read.record.threadId == threadId
    && read.record.startEvent == s.record.startEvent
    && read.record.eventCount == |read.events| && read.record.endEvent == read.record.startEvent + |read.events| - 1
    && read.events <= NormalEvents(s.events)
    && (final ==> s.record.status != Active && read.events == NormalEvents(s.events))
  }

  /** All files that the metadata counts are such; those before the last one are final. */
  ghost predicate DiskOk(codec: Codec, threadId: string, d: Disk, segs: seq<Segment>) {
    && d.meta.Some? && 1 <= d.meta.value.sessionCount <= |segs|
    && d.meta.value.threadId == threadId
    && d.meta.value.activeSessionId == SessionId(d.meta.value.sessionCount)
    && forall i: nat :: i < d.meta.value.sessionCount ==>
         FileOk(threadId, i, Image(codec, d, i), segs[i], i < d.meta.value.sessionCount - 1)
  }

  /** What was read stays right while the writer's sessions move on. */
  lemma {:induction false} FileOkLater(threadId: string, i: nat, read: ReadResult, s: Segment, t: Segment, final: bool)
    requires FileOk(threadId, i, read, s, final) && SegmentLater(s, t)
    ensures FileOk(threadId, i, read, t, final)
  {
  }

  lemma {:induction false} DiskOkLater(codec: Codec, threadId: string, d: Disk, segs: seq<Segment>, later: seq<Segment>)
    requires DiskOk(codec, threadId, d, segs) && Later(segs, later)
    ensures DiskOk(codec, threadId, d, later)
  {
    forall i: nat | i < d.meta.value.sessionCount
      ensures FileOk(threadId, i, Image(codec, d, i), later[i], i < d.meta.value.sessionCount - 1)
    {
      FileOkLater(threadId, i, Image(codec, d, i), segs[i], later[i], i < d.meta.value.sessionCount - 1);
    }
  }

  lemma {:induction false} StoredFileIsOk(codec: Codec, threadId: string, d: Disk, segs: seq<Segment>, i: nat, final: bool)
    requires Ranges(threadId, segs) && Stored(codec, d, segs) && i < |segs|
    requires final ==> segs[i].record.status != Active
    ensures FileOk(threadId, i, Image(codec, d, i), segs[i], final)
  {
    assert Placed(threadId, segs, i);
  }

  /** Files that mirror the writer's sessions are right, and metadata may lag behind them. */
  lemma {:induction false} StoredIsOk(codec: Codec, threadId: string, d: Disk, segs: seq<Segment>)
    requires Ranges(threadId, segs) && Stored(codec, d, segs)
    requires d.meta.Some? && 1 <= d.meta.value.sessionCount <= |segs|
    requires d.meta.value.threadId == threadId && d.meta.value.activeSessionId == SessionId(d.meta.value.sessionCount)
    requires forall i :: 0 <= i < d.meta.value.sessionCount - 1 ==> segs[i].record.status != Active
    ensures DiskOk(codec, threadId, d, segs)
  {
    forall i: nat | i < d.meta.value.sessionCount
      ensures FileOk(threadId, i, Image(codec, d, i), segs[i], i < d.meta.value.sessionCount - 1)
    {
      StoredFileIsOk(codec, threadId, d, segs, i, i < d.meta.value.sessionCount - 1);
    }
  }

  // ----- Snapshots -----

  /** What one reload read so far of the files that its metadata counts. */
  ghost predicate ReadsOk(threadId: string, files: seq<ReadResult>, count: nat, segs: seq<Segment>) {
    && |files| <= count <= |segs|
    && forall i: nat :: i < |files| ==> FileOk(threadId, i, files[i], segs[i], i < count - 1)
  }

  function Snapshot(files: seq<ReadResult>): (r: seq<Segment>)
    requires forall i :: 0 <= i < |files| ==> files[i].Loaded?
    ensures |r| == |files|
  {
    seq(|files|, i requires 0 <= i < |files| => Segment(files[i].record, files[i].events))
  }

  lemma {:induction false} AssembleHolds(meta: Meta, files: seq<ReadResult>)
    requires forall i :: 0 <= i < |files| ==> files[i].Loaded?
    ensures var r := Assemble(meta, files);
            r.LoadedChain? && r.chain.meta == meta && Holds(r.chain, Snapshot(files))
  {
    if files != [] {
      var n := |files|;
      AssembleHolds(meta, files[..n - 1]);
      HoldsOneMore(Assemble(meta, files[..n - 1]).chain, Snapshot(files[..n - 1]), Snapshot(files)[n - 1]);
      assert Snapshot(files) == Snapshot(files[..n - 1]) + [Snapshot(files)[n - 1]];
    }
  }

  lemma {:induction false} SnapshotPlaced(threadId: string, files: seq<ReadResult>, segs: seq<Segment>, i: nat)
    requires ReadsOk(threadId, files, |files|, segs) && Ranges(threadId, segs) && i < |files|
    ensures Placed(threadId, Snapshot(files), i)
  {
    assert FileOk(threadId, i, files[i], segs[i], i < |files| - 1) && Placed(threadId, segs, i);
    if i > 0 {
      assert FileOk(threadId, i - 1, files[i - 1], segs[i - 1], true) && Placed(threadId, segs, i - 1);
    }
  }

  /** The sessions before the last one are complete in every snapshot. */
  lemma {:induction false} SnapshotLogTo(threadId: string, files: seq<ReadResult>, segs: seq<Segment>, n: nat)
    requires ReadsOk(threadId, files, |files|, segs) && n < |files|
    ensures Log(Snapshot(files)[..n]) == NormalEvents(Log(segs[..n]))
  {
    if n > 0 {
      SnapshotLogTo(threadId, files, segs, n - 1);
      assert FileOk(threadId, n - 1, files[n - 1], segs[n - 1], true);
      assert Snapshot(files)[..n][..n - 1] == Snapshot(files)[..n - 1] && segs[..n][..n - 1] == segs[..n - 1];
      NormalEventsConcat(Log(segs[..n - 1]), segs[n - 1].events);
    }
  }

  lemma {:induction false} LogPrefix(segs: seq<Segment>, n: nat)
    requires n <= |segs|
    ensures Log(segs[..n]) <= Log(segs)
  {
    assert segs == segs[..n] + segs[n..];
    LogOfConcat(segs[..n], segs[n..]);
  }

  lemma {:induction false} PrefixOfConcat<T>(a: seq<T>, b: seq<T>, b': seq<T>, c: seq<T>)
    requires b <= b' && a + b' <= c
    ensures a + b <= c
  {
  }

  lemma {:induction false} NormalKeepsPrefix(a: seq<Event>, b: seq<Event>)
    requires a <= b
    ensures NormalEvents(a) <= NormalEvents(b)
  {
  }

  /** However torn, a snapshot is a readable chain whose log is a front part of the writer's. */
  lemma {:induction false} SnapshotLog(threadId: string, files: seq<ReadResult>, segs: seq<Segment>)
    requires files != [] && ReadsOk(threadId, files, |files|, segs)
    ensures Log(Snapshot(files)) <= NormalEvents(Log(segs))
  {
    var m := |files| - 1;
    SnapshotLogTo(threadId, files, segs, m);
    assert FileOk(threadId, m, files[m], segs[m], false);
    var before, last := segs[..m], segs[m].events;
    assert segs[..m + 1][..m] == before;
    NormalEventsConcat(Log(before), last);
    LogPrefix(segs, m + 1);
    NormalKeepsPrefix(Log(segs[..m + 1]), Log(segs));
    PrefixOfConcat(NormalEvents(Log(before)), files[m].events, NormalEvents(last), NormalEvents(Log(segs)));
  }

  lemma {:induction false} SnapshotIsReadable(threadId: string, meta: Meta, files: seq<ReadResult>, segs: seq<Segment>)
    requires files != [] && |files| == meta.sessionCount && meta.threadId == threadId
    requires ReadsOk(threadId, files, |files|, segs) && Ranges(threadId, segs)
    ensures var r := Assemble(meta, files);
            && r.LoadedChain? && r.chain.meta == meta && Readable(r.chain) && Segs(r.chain) == Snapshot(files)
            && LogOf(r.chain) <= NormalEvents(Log(segs))
            && |LogOf(r.chain)| == files[|files| - 1].record.endEvent
  {
    assert forall i :: 0 <= i < |files| ==> FileOk(threadId, i, files[i], segs[i], i < |files| - 1);
    AssembleHolds(meta, files);
    HoldsIsSegs(Assemble(meta, files).chain, Snapshot(files));
    forall i: nat | i < |files| ensures Placed(threadId, Snapshot(files), i) {
      SnapshotPlaced(threadId, files, segs, i);
    }
    SnapshotLog(threadId, files, segs);
    LogIsNumbered(threadId, Snapshot(files));
  }

  // ----- Positions -----

  /** A position lies in a file: the metadata counts its session, whose events reach at least that far. */
  ghost predicate Covers(codec: Codec, d: Disk, k: nat, upto: int) {
    && d.meta.Some? && k < d.meta.value.sessionCount && Image(codec, d, k).Loaded?
    && CoversIn(Image(codec, d, k), upto)
  }

  ghost predicate CoversIn(read: ReadResult, upto: int)
    requires read.Loaded?
  {
    read.record.startEvent - 1 <= upto <= read.record.endEvent
  }

  /** From one disk state to a later one nothing that was readable is lost. */
  ghost predicate Grows(codec: Codec, d: Disk, d': Disk) {
    && d.meta.Some? && d'.meta.Some? && d.meta.value.sessionCount <= d'.meta.value.sessionCount
    && forall i: nat :: i < d.meta.value.sessionCount ==> GrowsAt(Image(codec, d, i), Image(codec, d', i))
  }

  ghost predicate GrowsAt(read: ReadResult, read': ReadResult) {
    && read.Loaded? && read'.Loaded?
    && read.record.startEvent == read'.record.startEvent && read.record.endEvent <= read'.record.endEvent
  }

  lemma {:induction false} CoversLater(codec: Codec, d: Disk, d': Disk, k: nat, upto: int)
    requires Covers(codec, d, k, upto) && Grows(codec, d, d')
    ensures Covers(codec, d', k, upto)
  {
    assert GrowsAt(Image(codec, d, k), Image(codec, d', k));
  }

  /** Sessions start where they did, and end where they did or later. */
  ghost predicate EndsGrow(segs: seq<Segment>, segs': seq<Segment>) {
    && |segs| <= |segs'|
    && forall i :: 0 <= i < |segs| ==>
         segs[i].record.startEvent == segs'[i].record.startEvent && segs[i].record.endEvent <= segs'[i].record.endEvent
  }

  /** The files of an earlier and of a later state of the writer's sessions. */
  lemma {:induction false} StoredGrows(codec: Codec, d: Disk, d': Disk, segs: seq<Segment>, segs': seq<Segment>)
    requires Stored(codec, d, segs) && Stored(codec, d', segs') && EndsGrow(segs, segs')
    requires d.meta.Some? && d'.meta.Some?
    requires d.meta.value.sessionCount <= d'.meta.value.sessionCount && d.meta.value.sessionCount <= |segs|
    ensures Grows(codec, d, d')
  {
    forall i: nat | i < d.meta.value.sessionCount ensures GrowsAt(Image(codec, d, i), Image(codec, d', i)) {
      assert Image(codec, d, i) == Loaded(NormalRecord(segs[i].record), NormalEvents(segs[i].events));
      assert Image(codec, d', i) == Loaded(NormalRecord(segs'[i].record), NormalEvents(segs'[i].events));
    }
  }
}
