/** A thread's directory: the file writes of each operation, and what loading the files gives back. */
module SessionDisk {
  import opened Text
  import opened SessionTypes
  import opened TokenEstimator
  import opened SessionMarkdown
  import opened SessionRoundTrip
  import opened SessionLog
  import opened SessionChain

  /** meta.json as a value, and the texts of the session files by session ID. */
  datatype Disk = Disk(meta: Option<Meta>, files: map<string, string>)

  const EMPTY_DISK := Disk(None, map[])

  /** One os.WriteFile. */
  datatype Write = WriteMeta(meta: Meta) | WriteSession(record: Record, events: seq<Event>)

  function Apply(codec: Codec, d: Disk, w: Write): Disk {
    match w
    case WriteMeta(meta) => d.(meta := Some(meta))
    case WriteSession(r, events) => d.(files := d.files[r.id := SessionText(codec, r, events)])
  }

  function ApplyAll(codec: Codec, d: Disk, ws: seq<Write>): Disk
    decreases |ws|
  {
    if ws == [] then d else ApplyAll(codec, Apply(codec, d, ws[0]), ws[1..])
  }

  lemma {:induction false} ApplyNext(codec: Codec, d: Disk, ws: seq<Write>, w: Write)
    ensures ApplyAll(codec, d, ws + [w]) == Apply(codec, ApplyAll(codec, d, ws), w)
    decreases |ws|
  {
    if ws == [] {
      assert ([] + [w])[1..] == [];
      assert ApplyAll(codec, Apply(codec, d, w), []) == Apply(codec, d, w);
      assert [] + [w] == [w];
    } else {
      assert (ws + [w])[1..] == ws[1..] + [w];
      ApplyNext(codec, Apply(codec, d, ws[0]), ws[1..], w);
    }
  }

  // ----- The writes of each operation, in order -----

  function CreateWrites(c: Chain): seq<Write>
    requires c.meta.activeSessionId in c.sessions
  {
    [WriteMeta(c.meta), WriteSession(c.sessions[c.meta.activeSessionId], [])]
  }

  /** The writes of AppendEvent, from the chain it leaves. */
  function AppendWrites(c: Chain): seq<Write>
    requires c.meta.activeSessionId in c.sessions
  {
    var id := c.meta.activeSessionId;
    [WriteSession(c.sessions[id], EventsOf(c, id)), WriteMeta(c.meta)]
  }

  /** The writes of SealActiveSession, which closes session id and leaves chain c. */
  function SealWrites(c: Chain, id: string): seq<Write>
    requires id in c.sessions && c.meta.activeSessionId in c.sessions
  {
    [WriteSession(c.sessions[id], EventsOf(c, id)), WriteSession(c.sessions[c.meta.activeSessionId], []), WriteMeta(c.meta)]
  }

  function CommitWrites(c: Chain, id: string): seq<Write>
    requires id in c.sessions
  {
    [WriteSession(c.sessions[id], EventsOf(c, id))]
  }

  // ----- Loading -----

  /** A parser panic ends a reload with the sessions before the panicking one in memory. */
  datatype LoadResult = LoadedChain(chain: Chain) | NoMeta | LoadPanics(partial: Chain)

  /** What the reader sees of session file i+1. */
  function Image(codec: Codec, d: Disk, i: nat): ReadResult {
    if SessionId(i + 1) in d.files then ReadSession(codec, d.files[SessionId(i + 1)]) else Unreadable
  }

  /** The loop of ReloadThread over the first n session files; unreadable ones are skipped. */
  function LoadSessions(codec: Codec, d: Disk, meta: Meta, n: nat): LoadResult {
    if n == 0 then LoadedChain(Chain(meta, map[], map[]))
    else
      var before := LoadSessions(codec, d, meta, n - 1);
      if !before.LoadedChain? then before
      else
        match Image(codec, d, n - 1)
        case Unreadable => before
        case ReadPanics => LoadPanics(before.chain)
        case Loaded(r, events) =>
          var id := SessionId(n);
          LoadedChain(Chain(meta, before.chain.sessions[id := r], before.chain.events[id := events]))
  }

  /** ReloadThread. */
  function Load(codec: Codec, d: Disk): LoadResult {
    match d.meta
    case None => NoMeta
    case Some(meta) => LoadSessions(codec, d, meta, meta.sessionCount)
  }

  /** The events a reader finds, session file by session file. */
  function ReadLogTo(codec: Codec, d: Disk, n: nat): seq<Event> {
    if n == 0 then []
    else ReadLogTo(codec, d, n - 1)
         + match Image(codec, d, n - 1) case Loaded(_, events) => events case _ => []
  }

  function ReadLog(codec: Codec, d: Disk): seq<Event> {
    match d.meta
    case None => []
    case Some(meta) => ReadLogTo(codec, d, meta.sessionCount)
  }

  // ----- The normal form of a chain -----

  function NormalSegment(s: Segment): Segment {
    Segment(NormalRecord(s.record), NormalEvents(s.events))
  }

  function NormalSegs(segs: seq<Segment>): (r: seq<Segment>)
    ensures |r| == |segs|
  {
    seq(|segs|, i requires 0 <= i < |segs| => NormalSegment(segs[i]))
  }

  ghost predicate PrintableSegs(segs: seq<Segment>) {
    forall i :: 0 <= i < |segs| ==> AllPrintable(segs[i].events)
  }

  lemma {:induction false} NormalNeverCostsMore(events: seq<Event>)
    requires Measured(events)
    ensures Measured(NormalEvents(events)) && SumTokens(NormalEvents(events)) <= SumTokens(events)
  {
    if events != [] {
      var init, last := events[..|events| - 1], events[|events| - 1];
      NormalNeverCostsMore(init);
      assert NormalEvents(events)[..|events| - 1] == NormalEvents(init);
      TrimNeverCostsMore(last.content);
    }
  }

  /** Reloading keeps the chain invariant: ranges stay, and estimates of trimmed contents only shrink. */
  lemma {:induction false} NormalKeepsGood(threadId: string, segs: seq<Segment>)
    requires Good(threadId, segs)
    ensures Good(threadId, NormalSegs(segs))
  {
    NormalKeepsRanges(threadId, segs);
    forall i | 0 <= i < |segs| ensures Settled(NormalSegs(segs)[i], i == |segs| - 1) {
      assert Settled(segs[i], i == |segs| - 1);
      NormalNeverCostsMore(segs[i].events);
    }
  }

  lemma {:induction false} NormalKeepsRanges(threadId: string, segs: seq<Segment>)
    requires Ranges(threadId, segs)
    ensures Ranges(threadId, NormalSegs(segs))
  {
    forall i: nat | i < |segs| ensures Placed(threadId, NormalSegs(segs), i) {
      assert Placed(threadId, segs, i);
    }
  }

  lemma {:induction false} NormalEventsConcat(a: seq<Event>, b: seq<Event>)
    ensures NormalEvents(a + b) == NormalEvents(a) + NormalEvents(b)
  {
  }

  lemma {:induction false} LogOfNormal(segs: seq<Segment>)
    ensures Log(NormalSegs(segs)) == NormalEvents(Log(segs))
  {
    if segs != [] {
      var n := |segs|;
      LogOfNormal(segs[..n - 1]);
      assert NormalSegs(segs)[..n - 1] == NormalSegs(segs[..n - 1]);
      NormalEventsConcat(Log(segs[..n - 1]), segs[n - 1].events);
    }
  }

  lemma {:induction false} NormalSegsIdempotent(segs: seq<Segment>)
    requires PrintableSegs(segs)
    ensures PrintableSegs(NormalSegs(segs)) && NormalSegs(NormalSegs(segs)) == NormalSegs(segs)
  {
    forall i | 0 <= i < |segs|
      ensures AllPrintable(NormalSegs(segs)[i].events) && NormalSegs(NormalSegs(segs))[i] == NormalSegs(segs)[i]
    {
      NormalEventsIdempotent(segs[i].events);
      NormalRecordIdempotent(segs[i].record);
    }
  }

  // ----- Disk and memory in step -----

  /** The files of the first n sessions read back as the normal forms of the given segments. */
  ghost predicate Stored(codec: Codec, d: Disk, segs: seq<Segment>) {
    forall i: nat :: i < |segs| ==>
      Image(codec, d, i) == Loaded(NormalRecord(segs[i].record), NormalEvents(segs[i].events))
  }

  ghost predicate Synced(codec: Codec, d: Disk, c: Chain) {
    Keyed(c) && d.meta == Some(c.meta) && Stored(codec, d, Segs(c))
  }

  /** A written session file reads back in normal form, and no other file changes. */
  lemma {:induction false} WrittenImage(codec: Codec, d: Disk, s: Segment, k: nat)
    requires Lawful(codec) && AllPrintable(s.events) && s.record.id == SessionId(k + 1)
    ensures var d' := Apply(codec, d, WriteSession(s.record, s.events));
            && Image(codec, d', k) == Loaded(NormalRecord(s.record), NormalEvents(s.events))
            && (forall i: nat :: i != k ==> Image(codec, d', i) == Image(codec, d, i))
            && d'.meta == d.meta
  {
    PrintableIsSafe(s.events);
    FileRoundTrip(codec, s.record, s.events);
    forall i: nat | i != k
      ensures Image(codec, Apply(codec, d, WriteSession(s.record, s.events)), i) == Image(codec, d, i)
    {
      SessionIdsDiffer(i + 1, k + 1);
    }
  }

  lemma {:induction false} StoredPrefix(codec: Codec, d: Disk, segs: seq<Segment>, n: nat)
    requires Stored(codec, d, segs) && n <= |segs|
    ensures Stored(codec, d, segs[..n])
  {
    forall i: nat | i < n
      ensures Image(codec, d, i) == Loaded(NormalRecord(segs[..n][i].record), NormalEvents(segs[..n][i].events))
    {
      assert segs[..n][i] == segs[i];
    }
  }

  /** The maps hold the given segments under their session IDs, and nothing else. */
  ghost predicate Holds(c: Chain, segs: seq<Segment>) {
    && (forall id :: id in c.sessions <==> IsSessionId(id, |segs|))
    && (forall id :: id in c.events <==> IsSessionId(id, |segs|))
    && forall i: nat :: i < |segs| ==> HoldsAt(c, i, segs[i])
  }

  ghost predicate HoldsAt(c: Chain, i: nat, s: Segment) {
    var id := SessionId(i + 1);
    id in c.sessions && id in c.events && c.sessions[id] == s.record && c.events[id] == s.events
  }

  lemma {:induction false} HoldsOneMore(c: Chain, segs: seq<Segment>, s: Segment)
    requires Holds(c, segs)
    ensures var id := SessionId(|segs| + 1);
            Holds(Chain(c.meta, c.sessions[id := s.record], c.events[id := s.events]), segs + [s])
  {
    var n := |segs|;
    var id := SessionId(n + 1);
    var d := Chain(c.meta, c.sessions[id := s.record], c.events[id := s.events]);
    forall i: nat | i < n + 1 ensures HoldsAt(d, i, (segs + [s])[i]) {
      SessionIdsDiffer(i + 1, n + 1);
      if i < n {
        assert HoldsAt(c, i, segs[i]);
      }
    }
  }

  lemma {:induction false} LoadOfStored(codec: Codec, d: Disk, meta: Meta, segs: seq<Segment>)
    requires Stored(codec, d, segs)
    ensures var r := LoadSessions(codec, d, meta, |segs|);
            r.LoadedChain? && r.chain.meta == meta && Holds(r.chain, NormalSegs(segs))
  {
    var n := |segs|;
    if n > 0 {
      StoredPrefix(codec, d, segs, n - 1);
      LoadOfStored(codec, d, meta, segs[..n - 1]);
      var before := LoadSessions(codec, d, meta, n - 1);
      var last := NormalSegment(segs[n - 1]);
      assert Image(codec, d, n - 1) == Loaded(last.record, last.events);
      HoldsOneMore(before.chain, NormalSegs(segs[..n - 1]), last);
      assert NormalSegs(segs) == NormalSegs(segs[..n - 1]) + [last];
    }
  }

  /** A chain that holds as many segments as its session count says is keyed by them. */
  lemma {:induction false} HoldsIsSegs(c: Chain, segs: seq<Segment>)
    requires Holds(c, segs) && |segs| == c.meta.sessionCount
    ensures Keyed(c) && Segs(c) == segs
  {
    forall i: nat | i < |segs| ensures Segs(c)[i] == segs[i] {
      assert HoldsAt(c, i, segs[i]);
      SegAt(c, i);
    }
  }

  /** Restart: loading the disk gives back the chain in memory, in normal form. */
  lemma {:induction false} LoadIsNormal(codec: Codec, d: Disk, c: Chain)
    requires Synced(codec, d, c)
    ensures var r := Load(codec, d);
            && r.LoadedChain? && r.chain.meta == c.meta
            && Keyed(r.chain) && Segs(r.chain) == NormalSegs(Segs(c))
  {
    LoadOfStored(codec, d, c.meta, Segs(c));
    HoldsIsSegs(Load(codec, d).chain, NormalSegs(Segs(c)));
  }

  lemma {:induction false} ReadLogOfStored(codec: Codec, d: Disk, segs: seq<Segment>)
    requires Stored(codec, d, segs)
    ensures ReadLogTo(codec, d, |segs|) == NormalEvents(Log(segs))
  {
    var n := |segs|;
    if n > 0 {
      StoredPrefix(codec, d, segs, n - 1);
      ReadLogOfStored(codec, d, segs[..n - 1]);
      NormalEventsConcat(Log(segs[..n - 1]), segs[n - 1].events);
    }
  }

  // ----- What a reload reads -----

  /** ReloadThread, then GetAllEvents: the sessions that could be loaded, in order; none for an unknown thread. */
  ghost predicate ReloadsAs(codec: Codec, d: Disk, log: seq<Event>) {
    match Load(codec, d)
    case NoMeta => log == []
    case LoadedChain(c) => Orderly(c) && Log(Present(c, c.meta.sessionCount)) == log
    case LoadPanics(_) => false
  }

  /** The readable session files stand under their own names. */
  ghost predicate NamedFiles(codec: Codec, d: Disk, n: nat) {
    forall i: nat :: i < n && Image(codec, d, i).Loaded? ==>
      Image(codec, d, i).record.id == SessionId(i + 1) && Image(codec, d, i).record.seqNo == i + 1
  }

  lemma {:induction false} PresentFrame(c: Chain, c': Chain, n: nat)
    requires forall id :: IsSessionId(id, n) ==> (id in c.sessions <==> id in c'.sessions)
    requires forall id :: IsSessionId(id, n) && id in c.sessions ==>
               c.sessions[id] == c'.sessions[id] && EventsOf(c, id) == EventsOf(c', id)
    ensures Present(c, n) == Present(c', n)
  {
    if n > 0 {
      PresentFrame(c, c', n - 1);
      assert IsSessionId(SessionId(n), n);
    }
  }

  /** The sessions of a loaded chain, one by one, hold what their files hold; files that cannot be read are missing. */
  lemma {:induction false} LoadedSessions(codec: Codec, d: Disk, meta: Meta, n: nat)
    requires LoadSessions(codec, d, meta, n).LoadedChain?
    ensures var c := LoadSessions(codec, d, meta, n).chain;
            && c.meta == meta && (forall id :: id in c.sessions ==> IsSessionId(id, n))
            && Log(Present(c, n)) == ReadLogTo(codec, d, n)
  {
    if n > 0 {
      var before, c := LoadSessions(codec, d, meta, n - 1).chain, LoadSessions(codec, d, meta, n).chain;
      LoadedSessions(codec, d, meta, n - 1);
      PresentFrame(before, c, n - 1);
      var id := SessionId(n);
      if id in c.sessions {
        LogNext(Present(c, n - 1), Segment(c.sessions[id], EventsOf(c, id)));
      } else {
        assert Present(c, n) == Present(c, n - 1);
      }
    }
  }

  lemma {:induction false} LogNext(segs: seq<Segment>, s: Segment)
    ensures Log(segs + [s]) == Log(segs) + s.events
  {
    assert (segs + [s])[..|segs|] == segs;
  }

  lemma {:induction false} LoadedNames(codec: Codec, d: Disk, meta: Meta, n: nat)
    requires LoadSessions(codec, d, meta, n).LoadedChain? && NamedFiles(codec, d, n)
    ensures var c := LoadSessions(codec, d, meta, n).chain;
            forall id :: id in c.sessions ==>
              IsSessionId(id, n) && c.sessions[id].id == id && c.sessions[id].seqNo == Numeral(id)
  {
    if n > 0 {
      LoadedNames(codec, d, meta, n - 1);
    }
  }

  /** For every disk that loads at all, the events that a reader gets are those of the files, file by file. */
  lemma {:induction false} ReloadReadsFiles(codec: Codec, d: Disk)
    requires d.meta.Some? && NamedFiles(codec, d, d.meta.value.sessionCount) && Load(codec, d).LoadedChain?
    ensures ReloadsAs(codec, d, ReadLog(codec, d))
  {
    LoadedSessions(codec, d, d.meta.value, d.meta.value.sessionCount);
    LoadedNames(codec, d, d.meta.value, d.meta.value.sessionCount);
  }

  /** A reload panics exactly if some counted session file makes the parser panic. */
  lemma {:induction false} LoadPanicsIff(codec: Codec, d: Disk, meta: Meta, n: nat)
    ensures LoadSessions(codec, d, meta, n).LoadPanics? <==> exists i: nat :: i < n && Image(codec, d, i).ReadPanics?
    ensures LoadSessions(codec, d, meta, n) != NoMeta
  {
    if n > 0 {
      LoadPanicsIff(codec, d, meta, n - 1);
    }
  }

  /** Sessions stand under their own names in the sequence. */
  ghost predicate Named(segs: seq<Segment>) {
    forall i :: 0 <= i < |segs| ==> segs[i].record.id == SessionId(i + 1) && segs[i].record.seqNo == i + 1
  }

  lemma {:induction false} RangesAreNamed(threadId: string, segs: seq<Segment>)
    requires Ranges(threadId, segs)
    ensures Named(segs)
  {
    forall i: nat | i < |segs| ensures segs[i].record.id == SessionId(i + 1) && segs[i].record.seqNo == i + 1 {
      assert Placed(threadId, segs, i);
    }
  }

  /** Files that hold given sessions, as many as the metadata counts, read back as their normal log. */
  lemma {:induction false} ReloadOfStored(codec: Codec, d: Disk, segs: seq<Segment>)
    requires Stored(codec, d, segs) && Named(segs) && d.meta.Some? && d.meta.value.sessionCount == |segs|
    ensures ReloadsAs(codec, d, NormalEvents(Log(segs)))
  {
    LoadOfStored(codec, d, d.meta.value, segs);
    forall i: nat | i < |segs| && Image(codec, d, i).Loaded?
      ensures Image(codec, d, i).record.id == SessionId(i + 1) && Image(codec, d, i).record.seqNo == i + 1
    {
      assert Image(codec, d, i) == Loaded(NormalRecord(segs[i].record), NormalEvents(segs[i].events));
    }
    ReloadReadsFiles(codec, d);
    ReadLogOfStored(codec, d, segs);
  }
}
