/** The session chain manager: the maps it updates under its lock, and the files it mirrors them to. */
module SessionChainManagement {
  import opened Text
  import opened Sorting
  import opened Pagination
  import opened SessionTypes
  import opened TokenEstimator
  import opened SessionMarkdown
  import opened SessionLog
  import opened SessionChain
  import opened SessionDisk
  import opened SessionSearch

  // ----- What the readers compute -----

  predicate IsVisible(e: Event) {
    e.kind.User? || e.kind.Cat?
  }

  /** The last user or cat event of a log. */
  function LastVisible(log: seq<Event>): Option<Event> {
    if log == [] then None
    else if IsVisible(log[|log| - 1]) then Some(log[|log| - 1])
    else LastVisible(log[..|log| - 1])
  }

  /** It is None exactly if there is none, and no visible event comes behind it, the k-th. */
  lemma {:induction false} LastVisibleIsLast(log: seq<Event>) returns (k: int)
    ensures -1 <= k < |log| && forall i :: k < i < |log| ==> log[i].kind != User && log[i].kind != Cat
    ensures if k == -1 then LastVisible(log).None?
            else (log[k].kind == User || log[k].kind == Cat) && LastVisible(log) == Some(log[k])
  {
    k := |log| - 1;
    if log != [] && !IsVisible(log[k]) {
      k := LastVisibleIsLast(log[..|log| - 1]);
    }
  }

  lemma {:induction false} LastVisibleOfConcat(a: seq<Event>, b: seq<Event>)
    ensures LastVisible(a + b) == if LastVisible(b).Some? then LastVisible(b) else LastVisible(a)
  {
    if b == [] {
      assert a + b == a;
    } else {
      assert (a + b)[..|a + b| - 1] == a + b[..|b| - 1];
      LastVisibleOfConcat(a, b[..|b| - 1]);
    }
  }

  const BySeqNo: Record -> int := (r: Record) => r.seqNo
  const ByEventNo: Event -> int := (e: Event) => e.eventNo

  lemma {:induction false} RecordAt(c: Chain, i: nat)
    requires Readable(c) && i < c.meta.sessionCount
    ensures SessionId(i + 1) in c.sessions && Records(Segs(c))[i] == c.sessions[SessionId(i + 1)]
    ensures Records(Segs(c))[i].seqNo == i + 1 && Records(Segs(c))[i].id == SessionId(i + 1)
  {
    SegAt(c, i);
    assert Placed(c.meta.threadId, Segs(c), i);
  }

  lemma {:induction false} PreviousOfChain(c: Chain, id: string)
    requires Readable(c) && id in c.sessions
    ensures var n := c.sessions[id].seqNo;
            1 <= n <= c.meta.sessionCount && AreSummariesOf(PreviousSummaries(Records(Segs(c)), n), Records(Segs(c)), n - 1)
  {
    RecordAt(c, Numeral(id) - 1);
    forall i: nat | i < c.meta.sessionCount ensures Records(Segs(c))[i].seqNo == i + 1 {
      RecordAt(c, i);
    }
    PreviousAreComplete(Records(Segs(c)), c.sessions[id].seqNo);
  }

  /** A listing of the record map, one entry a key, has the same elements as the sessions in order. */
  lemma {:induction false} ListingIsPermutation(c: Chain, keys: seq<string>, listed: seq<Record>)
    requires Orderly(c)
    requires NoDuplicates(keys) && |listed| == |keys| && (forall k :: k in c.sessions <==> k in keys)
    requires forall i :: 0 <= i < |keys| ==> listed[i] == c.sessions[keys[i]]
    ensures multiset(Records(Present(c, c.meta.sessionCount))) == multiset(listed)
  {
    var n := c.meta.sessionCount;
    var inOrder := Records(Present(c, n));
    forall i | 0 <= i < |listed| ensures listed[i].id == keys[i] && listed[i] in inOrder {
      assert keys[i] in c.sessions;
      var j := PresentHas(c, n, keys[i]);
      assert inOrder[j] == listed[i];
    }
    forall i | 0 <= i < |inOrder| ensures inOrder[i] in listed {
      PresentAt(c, n, i);
      var j :| 0 <= j < |keys| && keys[j] == inOrder[i].id;
      assert listed[j] == inOrder[i];
    }
    PresentIsRising(c);
    SameElementsSameMultiset(inOrder, listed);
  }

  lemma {:induction false} PresentIsRising(c: Chain)
    requires Orderly(c)
    ensures StrictlySortedBy(Records(Present(c, c.meta.sessionCount)), BySeqNo)
    ensures NoDuplicates(Records(Present(c, c.meta.sessionCount)))
  {
    var inOrder := Records(Present(c, c.meta.sessionCount));
    forall i, j | 0 <= i < j < |inOrder| ensures BySeqNo(inOrder[i]) < BySeqNo(inOrder[j]) {
      PresentAt(c, c.meta.sessionCount, i);
    }
  }

  /** Any listing of the records of an orderly chain, sorted by number, is its sessions in order. */
  lemma {:induction false} SortedRecordsAreInOrder(c: Chain, listed: seq<Record>, sorted: seq<Record>)
    requires Orderly(c) && multiset(Records(Present(c, c.meta.sessionCount))) == multiset(listed)
    requires multiset(sorted) == multiset(listed) && SortedBy(sorted, BySeqNo)
    ensures sorted == Records(Present(c, c.meta.sessionCount))
  {
    PresentIsRising(c);
    SortedPermutationIsUnique(Records(Present(c, c.meta.sessionCount)), sorted, BySeqNo);
  }

  /** The i-th event of a tail of a numbered log, and so the tail is strictly sorted. */
  lemma {:induction false} TailIsSorted(log: seq<Event>, n: int)
    requires forall k :: 0 <= k < |log| ==> log[k].eventNo == k + 1
    ensures StrictlySortedBy(Tail(log, n), ByEventNo)
  {
  }

  method CollectAfter(events: seq<Event>, after: int) returns (r: seq<Event>)
    ensures r == FilterAfter(events, after)
  {
    r := [];
    for i := 0 to |events|
      invariant r == FilterAfter(events[..i], after)
    {
      assert events[..i + 1][..i] == events[..i];
      if events[i].eventNo > after {
        r := r + [events[i]];
      }
    }
    assert events[..|events|] == events;
  }

  // ----- The manager -----

  function Tagged(threadId: string, ws: seq<Write>): seq<(string, Write)> {
    seq(|ws|, i requires 0 <= i < |ws| => (threadId, ws[i]))
  }

  class SessionChainManager {
    const codec: Codec
    var metas: map<string, Meta>
    var sessions: map<string, map<string, Record>>
    var events: map<string, map<string, seq<Event>>>
    var cursors: map<string, Cursor>
    /** The data directory: one directory per thread, and its cursor files by thread and agent. */
    var disks: map<string, Disk>
    var cursorFiles: map<(string, string), Cursor>
    /** Every session and meta file written so far, in order. */
    ghost var journal: seq<(string, Write)>

    ghost predicate Valid()
      reads this
    {
      metas.Keys == sessions.Keys == events.Keys
    }

    ghost function View(threadId: string): Chain
      requires Valid() && threadId in metas
      reads this
    {
      Chain(metas[threadId], sessions[threadId], events[threadId])
    }

    /** The three maps hold chain c for the thread, and are as before for every other thread. */
    twostate predicate Installed(threadId: string, c: Chain)
      reads this
    {
      && metas == old(metas)[threadId := c.meta]
      && sessions == old(sessions)[threadId := c.sessions]
      && events == old(events)[threadId := c.events]
    }

    function DiskOf(threadId: string): Disk
      reads this
    {
      if threadId in disks then disks[threadId] else EMPTY_DISK
    }

    /** The files of one thread were written in the given order, and no other file was. */
    twostate predicate Wrote(threadId: string, ws: seq<Write>)
      reads this
    {
      && journal == old(journal) + Tagged(threadId, ws)
      && disks == old(disks)[threadId := ApplyAll(codec, old(DiskOf(threadId)), ws)]
    }

    constructor (codec: Codec)
      ensures Valid() && this.codec == codec && metas == map[] && cursors == map[]
      ensures disks == map[] && cursorFiles == map[] && journal == []
    {
      this.codec := codec;
      metas, sessions, events, cursors, disks, cursorFiles := map[], map[], map[], map[], map[], map[];
      journal := [];
    }

    method WriteMetaToDisk(threadId: string, meta: Meta)
      modifies this`disks, this`journal
      ensures disks == old(disks)[threadId := Apply(codec, old(DiskOf(threadId)), WriteMeta(meta))]
      ensures journal == old(journal) + [(threadId, WriteMeta(meta))]
    {
      disks := disks[threadId := DiskOf(threadId).(meta := Some(meta))];
      journal := journal + [(threadId, WriteMeta(meta))];
    }

    method WriteSessionMarkdownToDisk(threadId: string, session: Record, evts: seq<Event>)
      modifies this`disks, this`journal
      ensures disks == old(disks)[threadId := Apply(codec, old(DiskOf(threadId)), WriteSession(session, evts))]
      ensures journal == old(journal) + [(threadId, WriteSession(session, evts))]
    {
      var text := WriteSessionMarkdown(codec, session, evts);
      var d := DiskOf(threadId);
      disks := disks[threadId := d.(files := d.files[session.id := text])];
      journal := journal + [(threadId, WriteSession(session, evts))];
    }

    /** One write after the other, none of them skipped. */
    method WriteFiles(threadId: string, ws: seq<Write>)
      requires ws != []
      modifies this`disks, this`journal
      ensures Wrote(threadId, ws)
    {
      for i := 0 to |ws|
        invariant journal == old(journal) + Tagged(threadId, ws[..i])
        invariant DiskOf(threadId) == ApplyAll(codec, old(DiskOf(threadId)), ws[..i])
        invariant i == 0 ==> disks == old(disks)
        invariant i > 0 ==> disks == old(disks)[threadId := ApplyAll(codec, old(DiskOf(threadId)), ws[..i])]
      {
        assert ws[..i + 1] == ws[..i] + [ws[i]];
        assert Tagged(threadId, ws[..i + 1]) == Tagged(threadId, ws[..i]) + [(threadId, ws[i])];
        ApplyNext(codec, old(DiskOf(threadId)), ws[..i], ws[i]);
        match ws[i] {
          case WriteMeta(meta) => WriteMetaToDisk(threadId, meta);
          case WriteSession(session, evts) => WriteSessionMarkdownToDisk(threadId, session, evts);
        }
      }
      assert ws[..|ws|] == ws;
    }

    /** The map entries of one thread are replaced; all other entries stay. */
    method Store(threadId: string, meta: Meta, sess: map<string, Record>, evts: map<string, seq<Event>>)
      requires Valid()
      modifies this`metas, this`sessions, this`events
      ensures Valid() && Installed(threadId, Chain(meta, sess, evts))
    {
      metas := metas[threadId := meta];
      sessions := sessions[threadId := sess];
      events := events[threadId := evts];
    }

    method GetOrCreateChain(threadId: string, now: Time) returns (meta: Meta)
      requires Valid()
      modifies this
      ensures Valid() && threadId in metas && meta == metas[threadId]
      ensures cursors == old(cursors) && cursorFiles == old(cursorFiles)
      ensures threadId in old(metas) ==> unchanged(this)
      ensures threadId !in old(metas) ==>
                && Installed(threadId, NewChain(threadId, now))
                && Wrote(threadId, CreateWrites(NewChain(threadId, now)))
    {
      if threadId in metas {
        return metas[threadId];
      }
      var firstSessionId := SessionId(1);
      meta := Meta(threadId, firstSessionId, 1, 0, now, now);
      var session := Record(firstSessionId, threadId, 1, Active, 1, 0, 0, 0, "", now, None);
      WriteFiles(threadId, [WriteMeta(meta), WriteSession(session, [])]);
      Store(threadId, meta, map[firstSessionId := session], map[firstSessionId := []]);
    }

    method AppendEvent(threadId: string, event: Event, now: Time) returns (r: Outcome<()>)
      requires Valid()
      modifies this
      ensures Valid() && cursors == old(cursors) && cursorFiles == old(cursorFiles)
      ensures threadId !in old(metas) ==> r == Failed(NoThread) && unchanged(this)
      ensures threadId in old(metas) ==>
                match Appended(old(View(threadId)), event, now)
                case Failed(f) => r == Failed(f) && unchanged(this)
                case Ok(c) =>
                  r == Ok(()) && Installed(threadId, c) && Wrote(threadId, AppendWrites(c))
      ensures r.Ok? ==> threadId in metas && AppendedTo(old(View(threadId)), View(threadId), event, now)
    {
      if threadId !in metas {
        return Failed(NoThread);
      }
      var meta := metas[threadId];
      var activeId := meta.activeSessionId;
      if activeId !in sessions[threadId] {
        return Failed(NoSession);
      }
      var session := sessions[threadId][activeId];
      if session.status != Active {
        return Failed(NotActive);
      }
      meta := meta.(totalEvents := meta.totalEvents + 1);
      var e;
      e, session := Counted(session, event, meta.totalEvents, now);
      meta := meta.(updatedAt := now);
      var evts := (if activeId in events[threadId] then events[threadId][activeId] else []) + [e];
      var sess, evtMap := sessions[threadId][activeId := session], events[threadId][activeId := evts];
      assert Appended(View(threadId), event, now) == Ok(Chain(meta, sess, evtMap));
      AppendAddsGiven(View(threadId), event, now);
      Store(threadId, meta, sess, evtMap);
      WriteFiles(threadId, [WriteSession(session, evts), WriteMeta(meta)]);
      r := Ok(());
    }

    method SealActiveSession(threadId: string, now: Time) returns (r: Outcome<()>)
      requires Valid()
      modifies this
      ensures Valid() && cursors == old(cursors) && cursorFiles == old(cursorFiles)
      ensures threadId !in old(metas) ==> r == Failed(NoThread) && unchanged(this)
      ensures threadId in old(metas) ==>
                match SealedOff(old(View(threadId)), threadId, now)
                case Failed(f) => r == Failed(f) && unchanged(this)
                case Ok(c) =>
                  && r == Ok(()) && Installed(threadId, c)
                  && Wrote(threadId, SealWrites(c, old(metas[threadId].activeSessionId)))
      ensures r.Ok? ==> threadId in metas && SealedTo(old(View(threadId)), View(threadId), threadId, now)
    {
      if threadId !in metas {
        return Failed(NoThread);
      }
      var meta := metas[threadId];
      var activeId := meta.activeSessionId;
      if activeId !in sessions[threadId] {
        return Failed(NoSession);
      }
      var session := sessions[threadId][activeId];
      session := session.(status := Compressing);
      session := session.(sealedAt := Some(now));
      var sess := sessions[threadId][activeId := session];
      meta := meta.(sessionCount := meta.sessionCount + 1);
      var newSeq := meta.sessionCount;
      var newId := SessionId(newSeq);
      var newSession := Record(newId, threadId, newSeq, Active, meta.totalEvents + 1, meta.totalEvents, 0, 0, "", now, None);
      meta := meta.(activeSessionId := newId);
      meta := meta.(updatedAt := now);
      sess := sess[newId := newSession];
      var evtMap := events[threadId][newId := []];
      assert SealedOff(View(threadId), threadId, now) == Ok(Chain(meta, sess, evtMap));
      SealClosesAndOpens(View(threadId), threadId, now);
      Store(threadId, meta, sess, evtMap);
      var evts := if activeId in evtMap then evtMap[activeId] else [];
      session := sess[activeId];
      WriteFiles(threadId, [WriteSession(session, evts), WriteSession(newSession, []), WriteMeta(meta)]);
      r := Ok(());
    }

    /** The first locked region of CheckAndSeal: the test, after which the lock is released. */
    method CheckThreshold(threadId: string, config: Config) returns (r: Outcome<bool>)
      requires Valid()
      ensures threadId !in metas ==> r == Failed(NoThread)
      ensures threadId in metas ==> r == ShouldSeal(View(threadId), config)
      ensures r.Ok? ==>
                var share := config.maxTokens as real * config.sealThreshold;
                && threadId in metas && metas[threadId].activeSessionId in sessions[threadId]
                && var session := sessions[threadId][metas[threadId].activeSessionId];
                   r.value <==> || session.eventCount >= config.maxEventsPerSession
                                || (if share >= 0.0 then session.tokenCount as real > share - 1.0
                                    else session.tokenCount as real >= share)
    {
      if threadId !in metas {
        return Failed(NoThread);
      }
      var meta := metas[threadId];
      if meta.activeSessionId !in sessions[threadId] {
        return Failed(NoSession);
      }
      var session := sessions[threadId][meta.activeSessionId];
      var shouldSeal := false;
      var tokenThreshold := Truncated(config.maxTokens as real * config.sealThreshold);
      if session.tokenCount >= tokenThreshold {
        shouldSeal := true;
      }
      if session.eventCount >= config.maxEventsPerSession {
        shouldSeal := true;
      }
      ThresholdMetIff(session, config);
      r := Ok(shouldSeal);
    }

    /** Both regions in a row, as they run when nobody takes the lock in between. */
    method CheckAndSeal(threadId: string, config: Config, now: Time) returns (r: Outcome<()>)
      requires Valid()
      modifies this
      ensures Valid() && cursors == old(cursors) && cursorFiles == old(cursorFiles)
      ensures threadId !in old(metas) ==> r == Failed(NoThread) && unchanged(this)
      ensures threadId in old(metas) ==>
                match ShouldSeal(old(View(threadId)), config)
                case Failed(f) => r == Failed(f) && unchanged(this)
                case Ok(false) => r == Ok(()) && unchanged(this)
                case Ok(true) =>
                  match SealedOff(old(View(threadId)), threadId, now)
                  case Failed(f) => r == Failed(f) && unchanged(this)
                  case Ok(c) =>
                    && r == Ok(()) && Installed(threadId, c)
                    && Wrote(threadId, SealWrites(c, old(metas[threadId].activeSessionId)))
    {
      var checked := CheckThreshold(threadId, config);
      match checked {
        case Failed(f) => r := Failed(f);
        case Ok(shouldSeal) =>
          if shouldSeal {
            r := SealActiveSession(threadId, now);
          } else {
            r := Ok(());
          }
      }
    }

    method GetActiveSession(threadId: string) returns (r: Outcome<Record>)
      requires Valid()
      ensures threadId !in metas ==> r == Failed(NoThread)
      ensures threadId in metas ==> r == ActiveSession(View(threadId))
      ensures r.Ok? ==> threadId in metas && metas[threadId].activeSessionId in sessions[threadId]
                        && r.value == sessions[threadId][metas[threadId].activeSessionId]
    {
      if threadId !in metas {
        return Failed(NoThread);
      }
      if metas[threadId].activeSessionId !in sessions[threadId] {
        return Failed(NoSession);
      }
      r := Ok(sessions[threadId][metas[threadId].activeSessionId]);
    }

    method GetSession(threadId: string, sessionId: string) returns (r: Outcome<Record>)
      requires Valid()
      ensures threadId !in metas ==> r == Failed(NoThread)
      ensures threadId in metas && sessionId !in sessions[threadId] ==> r == Failed(NoSession)
      ensures threadId in metas && sessionId in sessions[threadId] ==> r == Ok(sessions[threadId][sessionId])
    {
      if threadId !in sessions {
        return Failed(NoThread);
      }
      if sessionId !in sessions[threadId] {
        return Failed(NoSession);
      }
      r := Ok(sessions[threadId][sessionId]);
    }

    /** All records of a thread in the order of their numbers, whatever order the map yields them in. */
    method SortedSessions(threadId: string) returns (r: seq<Record>)
      requires Valid() && threadId in metas
      ensures |r| == |sessions[threadId]| && SortedBy(r, BySeqNo)
      ensures Orderly(View(threadId)) ==> r == Records(Present(View(threadId), metas[threadId].sessionCount))
      ensures Readable(View(threadId)) ==> r == Records(Segs(View(threadId)))
    {
      var sessMap := sessions[threadId];
      var todo := sessMap.Keys;
      ghost var keys: seq<string> := [];
      r := [];
      while todo != {}
        invariant todo <= sessMap.Keys && |r| == |keys| && |r| + |todo| == |sessMap|
        invariant forall k :: k in sessMap && k !in todo <==> k in keys
        invariant NoDuplicates(keys)
        invariant forall i :: 0 <= i < |keys| ==> keys[i] in sessMap && r[i] == sessMap[keys[i]]
        decreases |todo|
      {
        var k :| k in todo;
        todo := todo - {k};
        r := r + [sessMap[k]];
        keys := keys + [k];
      }
      ghost var listed := r;
      r := Sort(r, BySeqNo);
      if Orderly(View(threadId)) {
        ListingIsPermutation(View(threadId), keys, listed);
        SortedRecordsAreInOrder(View(threadId), listed, r);
      }
      if Readable(View(threadId)) {
        ReadableIsOrderly(View(threadId));
      }
    }

    /**
     * The first locked region of CompressSession: what to tell the compressor. On a readable chain the
     * prompt quotes the summaries of all earlier sessions in order and the session's own events.
     */
    method CompressBegin(threadId: string, sessionId: string) returns (r: Outcome<Prompt>)
      requires Valid()
      ensures threadId !in metas ==> r == Failed(NoThread)
      ensures threadId in metas && sessionId !in sessions[threadId] ==> r == Failed(NoSession)
      ensures threadId in metas && sessionId in sessions[threadId] ==>
                var c := View(threadId);
                if c.sessions[sessionId].status != Compressing then r == Failed(NotCompressing)
                else r.Ok? && r.value.transcript == Transcript(EventsOf(c, sessionId))
                     && IsTranscript(r.value.transcript, EventsOf(c, sessionId))
                     && (Readable(c) ==>
                           var n := c.sessions[sessionId].seqNo;
                           && r.value.previous == PreviousSummaries(Records(Segs(c)), n)
                           && 1 <= n <= c.meta.sessionCount && AreSummariesOf(r.value.previous, Records(Segs(c)), n - 1))
    {
      if threadId !in metas {
        return Failed(NoThread);
      }
      if sessionId !in sessions[threadId] {
        return Failed(NoSession);
      }
      var session := sessions[threadId][sessionId];
      if session.status != Compressing {
        return Failed(NotCompressing);
      }
      var sorted := SortedSessions(threadId);
      var previous := PreviousText(sorted, session.seqNo);
      var evts := if sessionId in events[threadId] then events[threadId][sessionId] else [];
      var transcript := TranscriptText(evts);
      if Readable(View(threadId)) {
        PreviousOfChain(View(threadId), sessionId);
      }
      r := Ok(Prompt(previous, transcript));
    }

    /** The second locked region of CompressSession. Nobody deleted or reloaded the thread since the first. */
    method CompressCommit(threadId: string, sessionId: string, summary: string)
      requires Valid() && threadId in metas && sessionId in sessions[threadId]
      modifies this
      ensures Valid() && cursors == old(cursors) && cursorFiles == old(cursorFiles)
      ensures var c := Committed(old(View(threadId)), sessionId, summary);
              Installed(threadId, c) && Wrote(threadId, CommitWrites(c, sessionId))
    {
      var session := sessions[threadId][sessionId];
      session := session.(summary := summary);
      session := session.(status := Sealed);
      Store(threadId, metas[threadId], sessions[threadId][sessionId := session], events[threadId]);
      var evts := if sessionId in events[threadId] then events[threadId][sessionId] else [];
      WriteFiles(threadId, [WriteSession(session, evts)]);
    }

    // ----- Readers -----

    /** One page. The cursor and the limit are indices into a slice, which panics when they are negative. */
    method GetEvents(threadId: string, sessionId: string, cursor: nat, limit: nat)
      returns (r: Outcome<(seq<Event>, int)>)
      requires Valid()
      ensures threadId !in events ==> r == Failed(NoThread)
      ensures threadId in events && sessionId !in events[threadId] ==> r == Failed(NoSession)
      ensures threadId in events && sessionId in events[threadId] ==>
                var evts := events[threadId][sessionId];
                var end := if cursor + limit < |evts| then cursor + limit else |evts|;
                && r == Ok(Page(evts, cursor, limit))
                && r.value.0 == (if cursor < end then evts[cursor..end] else [])
                && r.value.1 == (if cursor + limit < |evts| then cursor + limit else -1)
    {
      if threadId !in events {
        return Failed(NoThread);
      }
      if sessionId !in events[threadId] {
        return Failed(NoSession);
      }
      var evts := events[threadId][sessionId];
      if cursor >= |evts| {
        return Ok(([], -1));
      }
      var end := cursor + limit;
      if end >= |evts| {
        return Ok((evts[cursor..], -1));
      }
      r := Ok((evts[cursor..end], end));
    }

    /**
     * All events after a position, across sessions: on a readable chain the log from the next event on.
     * A known session ID only matters when the number lies before that session's range.
     */
    method GetEventsAfter(threadId: string, sessionId: string, afterEventNo: int) returns (r: Outcome<seq<Event>>)
      requires Valid()
      ensures threadId !in metas ==> r == Failed(NoThread)
      ensures threadId in metas && Readable(View(threadId)) ==>
                var c := View(threadId);
                r == Ok(EventsAfter(c, sessionId, afterEventNo)) && AreNewer(r.value, c, sessionId, afterEventNo)
    {
      if threadId !in metas {
        return Failed(NoThread);
      }
      ghost var c := View(threadId);
      var sorted := SortedSessions(threadId);
      var startCollecting, result := CollectFrom(sorted, events[threadId], sessionId, afterEventNo);
      if !startCollecting {
        result := CollectAll(sorted, events[threadId], afterEventNo);
      }
      var ordered := Sort(result, ByEventNo);
      if Readable(c) {
        JoinedIsSegs(c);
        CollectedFromKey(c, sessionId, afterEventNo);
        EventsAfterIsSorted(c, sessionId, afterEventNo);
        EventsAfterAreNewer(c, sessionId, afterEventNo);
        SortedPermutationIsUnique(result, ordered, ByEventNo);
      }
      r := Ok(ordered);
    }

    /** All events of a thread: its log. A thread that does not exist has none. */
    method GetAllEvents(threadId: string) returns (r: seq<Event>)
      requires Valid()
      ensures threadId !in metas ==> r == []
      ensures threadId in metas && Orderly(View(threadId)) ==>
                r == Log(Present(View(threadId), metas[threadId].sessionCount))
      ensures threadId in metas && Readable(View(threadId)) ==> r == LogOf(View(threadId))
    {
      r := [];
      if threadId !in metas {
        return;
      }
      var sorted := SortedSessions(threadId);
      r := Concatenated(sorted, events[threadId]);
      if Orderly(View(threadId)) {
        JoinedIsPresent(View(threadId));
      }
      if Readable(View(threadId)) {
        ReadableIsOrderly(View(threadId));
      }
    }

    /** The backward scan, session by session, finds the last user or cat event of the log. */
    method GetLastUserOrCatEvent(threadId: string) returns (r: Option<Event>)
      requires Valid()
      ensures threadId !in metas ==> r == None
      ensures threadId in metas && Keyed(View(threadId)) ==> r == LastVisible(LogOf(View(threadId)))
    {
      if threadId !in metas {
        return None;
      }
      ghost var c := View(threadId);
      var seqNo := metas[threadId].sessionCount;
      if Keyed(c) {
        assert Segs(c)[..seqNo] == Segs(c);
      }
      while seqNo >= 1
        invariant 0 <= seqNo <= c.meta.sessionCount
        invariant Keyed(c) ==> LastVisible(LogOf(c)) == LastVisible(Log(Segs(c)[..seqNo]))
      {
        var sid := SessionId(seqNo);
        var evts := if sid in events[threadId] then events[threadId][sid] else [];
        if Keyed(c) {
          LastVisibleStep(c, seqNo);
        }
        var last := LastVisibleIn(evts);
        if last.Some? {
          return last;
        }
        seqNo := seqNo - 1;
      }
      r := None;
    }

    /** Full-text search: the best hits of the whole thread. lower is strings.ToLower. */
    method SearchEvents(threadId: string, query: string, limit: int, lower: string -> string)
      returns (r: Outcome<seq<SearchResult>>)
      requires Valid() && (query != "" ==> lower(query) != "")
      ensures query == "" ==> r == Ok([])
      ensures query != "" && threadId !in metas ==> r == Failed(NoThread)
      ensures query != "" && threadId in metas && Readable(View(threadId)) ==>
                r.Ok? && exists all :: IsTopPart(r.value, all, limit) && AreMatches(lower, query, Segs(View(threadId)), all)
    {
      if query == "" {
        return Ok([]);
      }
      if threadId !in events {
        return Failed(NoThread);
      }
      var sorted := SortedSessions(threadId);
      var results := FindAllHits(lower, query, sorted, events[threadId]);
      if Readable(View(threadId)) {
        JoinedIsSegs(View(threadId));
        AllHitsAreMatches(lower, query, metas[threadId].threadId, Segs(View(threadId)));
      }
      var ranked := Sort(results, ByFallingScore);
      PrefixIsTopPart(ranked, results, limit);
      if limit > 0 && |ranked| > limit {
        ranked := ranked[..limit];
      }
      r := Ok(ranked);
    }

    // ----- Cursors -----

    method GetCursor(agentName: string, threadId: string) returns (r: Option<Cursor>)
      ensures r == if CursorKey(agentName, threadId) in cursors then Some(cursors[CursorKey(agentName, threadId)]) else None
    {
      var key := CursorKey(agentName, threadId);
      r := if key in cursors then Some(cursors[key]) else None;
    }

    /** Only the cursor of this agent in this thread changes, for agents whose names have no colon. */
    method UpdateCursor(agentName: string, threadId: string, sessionId: string, eventNo: int, aiSessionId: string)
      modifies this`cursors, this`cursorFiles
      ensures var cursor := Cursor(agentName, threadId, sessionId, eventNo, aiSessionId);
              && cursors == old(cursors)[CursorKey(agentName, threadId) := cursor]
              && cursorFiles == old(cursorFiles)[(threadId, agentName) := cursor]
      ensures ':' !in agentName ==>
                forall a, t :: ':' !in a && (a, t) != (agentName, threadId) ==>
                  var key := CursorKey(a, t);
                  (key in cursors <==> key in old(cursors)) && (key in cursors ==> cursors[key] == old(cursors)[key])
    {
      var cursor := Cursor(agentName, threadId, sessionId, eventNo, aiSessionId);
      cursors := cursors[CursorKey(agentName, threadId) := cursor];
      cursorFiles := cursorFiles[(threadId, agentName) := cursor];
      if ':' !in agentName {
        forall a, t | ':' !in a && (a, t) != (agentName, threadId)
          ensures CursorKey(a, t) != CursorKey(agentName, threadId)
        {
          CursorKeysDiffer(a, t, agentName, threadId);
        }
      }
    }

    // ----- Reloading -----

    /**
     * Memory is replaced by what the files say; session files that cannot be read are skipped. When the parser
     * panics, the thread is left with the sessions before the panicking one, and saved cursors are not loaded.
     */
    method ReloadThread(threadId: string) returns (r: LoadResult)
      requires Valid()
      modifies this`metas, this`sessions, this`events, this`cursors
      ensures Valid() && r == Load(codec, old(DiskOf(threadId)))
      ensures match r
              case LoadedChain(c) =>
                && Installed(threadId, c)
                && cursors == old(cursors) + SavedCursors(cursorFiles, threadId)
                && CursorsAreLoaded(old(cursors), cursors, cursorFiles, threadId)
              case NoMeta => unchanged(this)
              case LoadPanics(c) => Installed(threadId, c) && cursors == old(cursors)
    {
      r := LoadThread(codec, DiskOf(threadId));
      match r {
        case LoadedChain(c) =>
          StoreAll(threadId, c);
        case NoMeta =>
        case LoadPanics(c) =>
          Store(threadId, c.meta, c.sessions, c.events);
      }
    }

    method StoreAll(threadId: string, c: Chain)
      requires Valid()
      modifies this`metas, this`sessions, this`events, this`cursors
      ensures Valid() && Installed(threadId, c) && cursors == old(cursors) + SavedCursors(cursorFiles, threadId)
      ensures CursorsAreLoaded(old(cursors), cursors, cursorFiles, threadId)
    {
      Store(threadId, c.meta, c.sessions, c.events);
      LoadCursors(threadId);
    }

    /** The loop over the thread's cursor files, in whatever order the directory lists them. */
    method LoadCursors(threadId: string)
      modifies this`cursors
      ensures cursors == old(cursors) + SavedCursors(cursorFiles, threadId)
      ensures CursorsAreLoaded(old(cursors), cursors, cursorFiles, threadId)
    {
      cursors := AddAll(cursors, SavedCursors(cursorFiles, threadId));
      SavedAreLoaded(old(cursors), cursorFiles, threadId);
    }
  }

  /** The event is numbered, dated and measured, and counted in its session. */
  method Counted(session: Record, event: Event, eventNo: int, now: Time) returns (e: Event, s: Record)
    ensures StoredAs(event, e, eventNo, now) && e == Stamped(event, eventNo, now)
    ensures s == WithEvent(Segment(session, []), e).record
  {
    e := event.(eventNo := eventNo);
    if e.timestamp == ZERO_TIME {
      e := e.(timestamp := now);
    }
    var tokens := EstimateTokens(e.content);
    e := e.(tokenCount := tokens);
    s := session.(eventCount := session.eventCount + 1);
    s := s.(endEvent := e.eventNo);
    s := s.(tokenCount := s.tokenCount + e.tokenCount);
  }

  method AddAll(cursors: map<string, Cursor>, saved: map<string, Cursor>) returns (r: map<string, Cursor>)
    ensures r == cursors + saved
  {
    r := cursors;
    var todo := saved.Keys;
    while todo != {}
      invariant todo <= saved.Keys && r.Keys == cursors.Keys + (saved.Keys - todo)
      invariant forall key :: key in r ==> r[key] == if key in saved && key !in todo then saved[key] else cursors[key]
      decreases |todo|
    {
      var key :| key in todo;
      r := r[key := saved[key]];
      todo := todo - {key};
    }
  }

  function CursorKeys(files: map<(string, string), Cursor>, threadId: string): set<string> {
    set f | f in files && f.0 == threadId :: CursorKey(f.1, threadId)
  }

  /** The cursor files of a thread, under their keys in memory. */
  function SavedCursors(files: map<(string, string), Cursor>, threadId: string): map<string, Cursor> {
    map key | key in CursorKeys(files, threadId) :: files[(threadId, AgentOf(key, threadId))]
  }

  /** Each agent's cursor file of the thread is in memory under the agent's key, and all other cursors are as before. */
  ghost predicate CursorsAreLoaded(before: map<string, Cursor>, after: map<string, Cursor>,
                                   files: map<(string, string), Cursor>, threadId: string)
  {
    && (forall a: string :: (threadId, a) in files ==>
          a + ":" + threadId in after && after[a + ":" + threadId] == files[(threadId, a)])
    && forall key :: (forall a: string :: (threadId, a) in files ==> key != a + ":" + threadId) ==>
         (key in after <==> key in before) && (key in after ==> after[key] == before[key])
  }

  lemma {:induction false} KeyOfFile(files: map<(string, string), Cursor>, threadId: string, key: string)
    ensures key in CursorKeys(files, threadId) <==> exists a: string :: (threadId, a) in files && key == a + ":" + threadId
  {
    if key in CursorKeys(files, threadId) {
      var f :| f in files && f.0 == threadId && key == CursorKey(f.1, threadId);
      assert f == (threadId, f.1);
    }
    if a: string :| (threadId, a) in files && key == a + ":" + threadId {
      assert key == CursorKey(a, threadId);
    }
  }

  lemma {:induction false} SavedAreLoaded(before: map<string, Cursor>, files: map<(string, string), Cursor>, threadId: string)
    ensures CursorsAreLoaded(before, before + SavedCursors(files, threadId), files, threadId)
  {
    forall a: string | (threadId, a) in files
      ensures a + ":" + threadId in SavedCursors(files, threadId)
      ensures SavedCursors(files, threadId)[a + ":" + threadId] == files[(threadId, a)]
    {
      KeyOfFile(files, threadId, a + ":" + threadId);
      assert AgentOf(CursorKey(a, threadId), threadId) == a;
    }
    forall key | forall a: string :: (threadId, a) in files ==> key != a + ":" + threadId
      ensures key !in SavedCursors(files, threadId)
    {
      KeyOfFile(files, threadId, key);
    }
  }

  /** Records that do not precede seqNo add nothing to the end of the list. */
  lemma {:induction false} NothingBehindBreak(sorted: seq<Record>, i: nat, seqNo: nat)
    requires i <= |sorted| && forall k :: i <= k < |sorted| ==> sorted[k].seqNo >= seqNo
    ensures PreviousSummaries(sorted, seqNo) == PreviousSummaries(sorted[..i], seqNo)
    decreases |sorted|
  {
    var n := |sorted|;
    if i == n {
      assert sorted[..i] == sorted;
    } else {
      assert sorted[..n - 1][..i] == sorted[..i];
      NothingBehindBreak(sorted[..n - 1], i, seqNo);
    }
  }

  /** The loop over the session's events. */
  method TranscriptText(evts: seq<Event>) returns (transcript: string)
    ensures transcript == Transcript(evts) && IsTranscript(transcript, evts)
  {
    transcript := "";
    for i := 0 to |evts|
      invariant transcript == Transcript(evts[..i])
    {
      assert evts[..i + 1][..i] == evts[..i];
      var line := "";
      match evts[i].kind {
        case User => line := "[用户] " + evts[i].content + "\n";
        case Cat => line := "[" + evts[i].sender + "] " + evts[i].content + "\n";
        case System => line := "[系统] " + evts[i].content + "\n";
        case _ =>
      }
      transcript := transcript + line;
    }
    assert evts[..|evts|] == evts;
    TranscriptIsComplete(evts);
  }

  /** The loop over the sorted sessions stops at the first one that does not precede seqNo. */
  method PreviousText(sorted: seq<Record>, seqNo: nat) returns (text: string)
    requires SortedBy(sorted, BySeqNo)
    ensures text == PreviousSummaries(sorted, seqNo)
  {
    text := "";
    for i := 0 to |sorted|
      invariant text == PreviousSummaries(sorted[..i], seqNo)
    {
      assert sorted[..i + 1][..i] == sorted[..i];
      if sorted[i].seqNo >= seqNo {
        assert forall k :: i < k < |sorted| ==> BySeqNo(sorted[i]) <= BySeqNo(sorted[k]);
        NothingBehindBreak(sorted, i, seqNo);
        return;
      }
      if sorted[i].summary != "" {
        text := text + ("### Session #" + Decimal(sorted[i].seqNo) + " 摘要\n" + sorted[i].summary + "\n\n");
      }
    }
    assert sorted[..|sorted|] == sorted;
  }

  // ----- Proof helpers of the readers -----

  /** A list of records together with the events stored under their IDs. */
  function Joined(records: seq<Record>, evtMap: map<string, seq<Event>>): (r: seq<Segment>)
    ensures |r| == |records|
  {
    seq(|records|, i requires 0 <= i < |records| =>
      Segment(records[i], if records[i].id in evtMap then evtMap[records[i].id] else []))
  }

  lemma {:induction false} JoinedIsPresent(c: Chain)
    requires Orderly(c)
    ensures var segs := Present(c, c.meta.sessionCount);
            Joined(Records(segs), c.events) == segs
  {
    var segs := Present(c, c.meta.sessionCount);
    forall i: nat | i < |segs| ensures Joined(Records(segs), c.events)[i] == segs[i] {
      PresentAt(c, c.meta.sessionCount, i);
    }
  }

  lemma {:induction false} JoinedIsSegs(c: Chain)
    requires Readable(c)
    ensures Joined(Records(Segs(c)), c.events) == Segs(c)
  {
    forall i: nat | i < c.meta.sessionCount ensures Joined(Records(Segs(c)), c.events)[i] == Segs(c)[i] {
      RecordAt(c, i);
      SegAt(c, i);
    }
  }

  /** The first loop of GetEventsAfter: collecting starts at the session with the given ID. */
  method CollectFrom(sorted: seq<Record>, evtMap: map<string, seq<Event>>, sessionId: string, after: int)
    returns (started: bool, result: seq<Event>)
    ensures (started, result) == CollectedFrom(Joined(sorted, evtMap), sessionId, after)
  {
    started, result := false, [];
    ghost var segs := Joined(sorted, evtMap);
    for i := 0 to |sorted|
      invariant (started, result) == CollectedFrom(segs[..i], sessionId, after)
    {
      assert segs[..i + 1][..i] == segs[..i];
      if sorted[i].id == sessionId {
        started := true;
      }
      if started {
        var evts := if sorted[i].id in evtMap then evtMap[sorted[i].id] else [];
        var part := CollectAfter(evts, after);
        result := result + part;
      }
    }
    assert segs[..|sorted|] == segs;
  }

  /** Its second loop, for a session ID that no record has. */
  method CollectAll(sorted: seq<Record>, evtMap: map<string, seq<Event>>, after: int) returns (result: seq<Event>)
    ensures result == Collected(Joined(sorted, evtMap), after)
  {
    result := [];
    ghost var segs := Joined(sorted, evtMap);
    for i := 0 to |sorted|
      invariant result == Collected(segs[..i], after)
    {
      assert segs[..i + 1][..i] == segs[..i];
      var evts := if sorted[i].id in evtMap then evtMap[sorted[i].id] else [];
      var part := CollectAfter(evts, after);
      result := result + part;
    }
    assert segs[..|sorted|] == segs;
  }

  function CollectedFrom(segs: seq<Segment>, sessionId: string, after: int): (bool, seq<Event>) {
    if segs == [] then (false, [])
    else
      var last := segs[|segs| - 1];
      var (started, result) := CollectedFrom(segs[..|segs| - 1], sessionId, after);
      if started || last.record.id == sessionId then (true, result + FilterAfter(last.events, after))
      else (false, result)
  }

  lemma {:induction false} CollectedNext(segs: seq<Segment>, j: nat, i: nat, after: int)
    requires j <= i < |segs|
    ensures Collected(segs[j..i + 1], after) == Collected(segs[j..i], after) + FilterAfter(segs[i].events, after)
  {
    assert segs[j..i + 1][..i - j] == segs[j..i];
  }

  /** If the j-th session alone has the ID, or j is past the end, the first loop collects from the j-th on. */
  lemma {:induction false} CollectedFromIndex(segs: seq<Segment>, j: nat, sessionId: string, after: int)
    requires forall i :: 0 <= i < |segs| ==> (segs[i].record.id == sessionId <==> i == j)
    ensures CollectedFrom(segs, sessionId, after)
         == if j < |segs| then (true, Collected(segs[j..], after)) else (false, [])
  {
    if segs != [] {
      var n := |segs| - 1;
      CollectedFromIndex(segs[..n], j, sessionId, after);
      if j <= n {
        CollectedNext(segs, j, n, after);
        assert segs[j..n + 1] == segs[j..] && segs[j..n] == if j < n then segs[..n][j..] else [];
      }
    }
  }

  lemma {:induction false} CollectedFromKey(c: Chain, sessionId: string, after: int)
    requires Readable(c)
    ensures var (started, result) := CollectedFrom(Segs(c), sessionId, after);
            EventsAfter(c, sessionId, after) == if started then result else Collected(Segs(c), after)
  {
    var j := if sessionId in c.sessions then Numeral(sessionId) - 1 else c.meta.sessionCount;
    forall i | 0 <= i < c.meta.sessionCount ensures Segs(c)[i].record.id == sessionId <==> i == j {
      RecordAt(c, i);
      SegAt(c, i);
    }
    CollectedFromIndex(Segs(c), j, sessionId, after);
  }

  /** The final sort of GetEventsAfter finds its input sorted already. */
  lemma {:induction false} EventsAfterIsSorted(c: Chain, sessionId: string, after: int)
    requires Readable(c)
    ensures StrictlySortedBy(EventsAfter(c, sessionId, after), ByEventNo)
  {
    EventsAfterIsLogTail(c, sessionId, after);
    LogIsNumbered(c.meta.threadId, Segs(c));
    TailIsSorted(LogOf(c), if sessionId in c.sessions then Max(after, c.sessions[sessionId].startEvent - 1) else after);
  }

  lemma {:induction false} LastVisibleStep(c: Chain, n: nat)
    requires Keyed(c) && 0 < n <= c.meta.sessionCount
    ensures LastVisible(Log(Segs(c)[..n])) ==
              var last := LastVisible(EventsOf(c, SessionId(n)));
              if last.Some? then last else LastVisible(Log(Segs(c)[..n - 1]))
  {
    SegAt(c, n - 1);
    assert Segs(c)[..n][..n - 1] == Segs(c)[..n - 1];
    LastVisibleOfConcat(Log(Segs(c)[..n - 1]), EventsOf(c, SessionId(n)));
  }

  /** The loop of GetAllEvents. */
  method Concatenated(sorted: seq<Record>, evtMap: map<string, seq<Event>>) returns (r: seq<Event>)
    ensures r == Log(Joined(sorted, evtMap))
  {
    r := [];
    ghost var segs := Joined(sorted, evtMap);
    for i := 0 to |sorted|
      invariant r == Log(segs[..i])
    {
      assert segs[..i + 1][..i] == segs[..i];
      r := r + if sorted[i].id in evtMap then evtMap[sorted[i].id] else [];
    }
    assert segs[..|sorted|] == segs;
  }

  /** The inner backward loop of GetLastUserOrCatEvent. */
  method LastVisibleIn(evts: seq<Event>) returns (r: Option<Event>)
    ensures r == LastVisible(evts)
  {
    var i := |evts|;
    assert evts[..i] == evts;
    while i > 0
      invariant 0 <= i <= |evts|
      invariant LastVisible(evts) == LastVisible(evts[..i])
    {
      i := i - 1;
      assert evts[..i + 1][..i] == evts[..i];
      if IsVisible(evts[i]) {
        return Some(evts[i]);
      }
    }
    r := None;
  }

  method FindHits(lower: string -> string, query: string, id: string, events: seq<Event>) returns (r: seq<SearchResult>)
    requires lower(query) != []
    ensures r == Hits(lower, query, id, events)
  {
    r := [];
    for i := 0 to |events|
      invariant r == Hits(lower, query, id, events[..i])
    {
      assert events[..i + 1][..i] == events[..i];
      var contentLower := lower(events[i].content);
      if Contains(contentLower, lower(query)) {
        var score := Count(contentLower, lower(query));
        r := r + [SearchResult(id, events[i].eventNo, events[i].content, score, events[i].timestamp)];
      }
    }
    assert events[..|events|] == events;
  }

  method FindAllHits(lower: string -> string, query: string, sorted: seq<Record>, evtMap: map<string, seq<Event>>)
    returns (results: seq<SearchResult>)
    requires lower(query) != []
    ensures results == AllHits(lower, query, Joined(sorted, evtMap))
  {
    results := [];
    ghost var segs := Joined(sorted, evtMap);
    for i := 0 to |sorted|
      invariant results == AllHits(lower, query, segs[..i])
    {
      assert segs[..i + 1][..i] == segs[..i];
      var hits := FindHits(lower, query, sorted[i].id, if sorted[i].id in evtMap then evtMap[sorted[i].id] else []);
      results := results + hits;
    }
    assert segs[..|sorted|] == segs;
  }

  /** The loop of ReloadThread over the session files. */
  method LoadFiles(codec: Codec, d: Disk, meta: Meta) returns (r: LoadResult)
    ensures r == LoadSessions(codec, d, meta, meta.sessionCount)
  {
    var sess: map<string, Record>, evts: map<string, seq<Event>> := map[], map[];
    for seqNo := 1 to meta.sessionCount + 1
      invariant LoadSessions(codec, d, meta, seqNo - 1) == LoadedChain(Chain(meta, sess, evts))
    {
      var sid := SessionId(seqNo);
      var read := Unreadable;
      if sid in d.files {
        read := ReadSessionMarkdown(codec, d.files[sid]);
      }
      assert read == Image(codec, d, seqNo - 1);
      LoadNext(codec, d, meta, seqNo, Chain(meta, sess, evts));
      match read {
        case Unreadable =>
        case ReadPanics =>
          PanicIsFinal(codec, d, meta, seqNo, meta.sessionCount);
          return LoadPanics(Chain(meta, sess, evts));
        case Loaded(session, es) =>
          sess := sess[sid := session];
          evts := evts[sid := es];
      }
    }
    r := LoadedChain(Chain(meta, sess, evts));
  }

  method LoadThread(codec: Codec, d: Disk) returns (r: LoadResult)
    ensures r == Load(codec, d)
  {
    if d.meta.None? {
      return NoMeta;
    }
    r := LoadFiles(codec, d, d.meta.value);
  }

  lemma {:induction false} LoadNext(codec: Codec, d: Disk, meta: Meta, n: nat, before: Chain)
    requires n > 0 && LoadSessions(codec, d, meta, n - 1) == LoadedChain(before)
    ensures LoadSessions(codec, d, meta, n)
         == match Image(codec, d, n - 1)
            case Unreadable => LoadedChain(before)
            case ReadPanics => LoadPanics(before)
            case Loaded(r, es) =>
              LoadedChain(Chain(meta, before.sessions[SessionId(n) := r], before.events[SessionId(n) := es]))
  {
  }

  lemma {:induction false} PanicIsFinal(codec: Codec, d: Disk, meta: Meta, n: nat, m: nat)
    requires n <= m && LoadSessions(codec, d, meta, n).LoadPanics?
    ensures LoadSessions(codec, d, meta, m) == LoadSessions(codec, d, meta, n)
    decreases m
  {
    if n < m {
      PanicIsFinal(codec, d, meta, n, m - 1);
    }
  }
}
