/** Which appended message makes the reload of its thread panic. */
module ReloadPanics {
  import opened Text
  import opened SessionTypes
  import opened SessionMarkdown
  import opened SessionRoundTrip
  import opened SessionRoundTripLimits
  import opened SessionLog
  import opened SessionChain
  import opened SessionDisk
  import opened ChainRuns

  /** A reload of the thread ends in a parser panic. */
  ghost predicate ReloadCrashes(codec: Codec, d: Disk) {
    Load(codec, d).LoadPanics?
  }

  lemma {:induction false} PrintableDoNotPanic(events: seq<Event>)
    requires AllPrintable(events)
    ensures !PanicMessage(events)
  {
    if events != [] {
      PrintableDoNotPanic(events[1..]);
      PanicInIff(Lines(events[0].content));
    }
  }

  lemma {:induction false} PanicMessageConcat(a: seq<Event>, b: seq<Event>)
    ensures PanicMessage(a + b) <==> PanicMessage(a) || PanicMessage(b)
  {
    if a == [] {
      assert a + b == b;
    } else {
      assert (a + b)[1..] == a[1..] + b;
      PanicMessageConcat(a[1..], b);
    }
  }

  lemma {:induction false} OneMessage(e: Event)
    ensures PanicMessage([e]) <==> PanicIn(Lines(e.content))
  {
    assert [e][1..] == [];
  }

  /** The file of a session with one more message. */
  lemma {:induction false} AppendedFilePanicsIff(codec: Codec, r: Record, events: seq<Event>, stored: Event)
    requires Lawful(codec) && AllPrintable(events) && SafeHeader(stored)
    ensures ReadSession(codec, SessionText(codec, r, events + [stored])).ReadPanics? <==> PanicIn(Lines(stored.content))
  {
    PrintableIsSafe(events);
    ReadOfText(codec, r, events + [stored]);
    BodyPanics(codec, NormalRecord(r).createdAt, events + [stored]);
    PanicMessageConcat(events, [stored]);
    PrintableDoNotPanic(events);
    OneMessage(stored);
  }

  lemma {:induction false} WrittenFile(codec: Codec, d: Disk, s: Segment, meta: Meta, k: nat)
    requires s.record.id == SessionId(k + 1)
    ensures var d' := Apply(codec, Apply(codec, d, WriteSession(s.record, s.events)), WriteMeta(meta));
            && d'.meta == Some(meta)
            && Image(codec, d', k) == ReadSession(codec, SessionText(codec, s.record, s.events))
            && forall i: nat :: i != k ==> Image(codec, d', i) == Image(codec, d, i)
  {
    forall i: nat | i != k
      ensures Image(codec, Apply(codec, Apply(codec, d, WriteSession(s.record, s.events)), WriteMeta(meta)), i)
           == Image(codec, d, i)
    {
      SessionIdsDiffer(i + 1, k + 1);
    }
  }

  /** With all other files readable, a reload panics exactly if the written file makes its reader panic. */
  lemma {:induction false} ReloadOfWritten(codec: Codec, d: Disk, segs: seq<Segment>, s: Segment, meta: Meta)
    requires Stored(codec, d, segs) && segs != [] && s.record.id == SessionId(|segs|) && meta.sessionCount == |segs|
    ensures ReloadCrashes(codec, ApplyAll(codec, d, [WriteSession(s.record, s.events), WriteMeta(meta)]))
            <==> ReadSession(codec, SessionText(codec, s.record, s.events)).ReadPanics?
  {
    var k := |segs| - 1;
    ApplyTwo(codec, d, WriteSession(s.record, s.events), WriteMeta(meta));
    WrittenFile(codec, d, s, meta, k);
    var d' := ApplyAll(codec, d, [WriteSession(s.record, s.events), WriteMeta(meta)]);
    LoadPanicsIff(codec, d', meta, |segs|);
    forall i: nat | i < k ensures !Image(codec, d', i).ReadPanics? {
      assert Image(codec, d, i) == Loaded(NormalRecord(segs[i].record), NormalEvents(segs[i].events));
    }
  }

  lemma {:induction false} AppendOfUnsafe(codec: Codec, d: Disk, threadId: string, segs: seq<Segment>, stored: Event, meta: Meta)
    requires Lawful(codec) && segs != [] && Ranges(threadId, segs) && Stored(codec, d, segs) && PrintableSegs(segs)
    requires SafeHeader(stored) && meta.sessionCount == |segs|
    ensures ReloadCrashes(codec, ApplyAll(codec, d, AppendFiles(SessionLog.Append(segs, stored), meta)))
            <==> PanicIn(Lines(stored.content))
  {
    var last := segs[|segs| - 1];
    var s := WithEvent(last, stored);
    AppendedSegments(threadId, segs, stored);
    assert AllPrintable(last.events);
    ReloadOfWritten(codec, d, segs, s, meta);
    AppendedFilePanicsIff(codec, s.record, last.events, stored);
  }

  lemma {:induction false} StampedIsSafe(c: Chain, e: Event, now: Time)
    requires WellFormed(c) && SafeHeader(e)
    ensures SafeHeader(Stamped(e, c.meta.totalEvents + 1, now))
  {
    WellFormedIsLive(c);
  }

  /**
   * Once a message is appended, reloading its thread panics if and only if one of the message's own lines has
   * the form of a header with an overlapping comment. AppendEvent takes every message and reports no error.
   */
  lemma {:induction false} AppendedReloadPanicsIff(codec: Codec, c: Chain, d: Disk, e: Event, now: Time)
    requires Lawful(codec) && Consistent(codec, c, d) && SafeHeader(e)
    ensures Appended(c, e, now).Ok?
    ensures ReloadCrashes(codec, ApplyAll(codec, d, AppendWrites(Appended(c, e, now).value)))
            <==> exists l :: l in Lines(e.content) && PanicLine(l)
  {
    var stored := Stamped(e, c.meta.totalEvents + 1, now);
    AppendInMemory(c, e, now);
    StampedIsSafe(c, e, now);
    AppendOfUnsafe(codec, d, c.meta.threadId, Segs(c), stored, Appended(c, e, now).value.meta);
    assert AppendWrites(Appended(c, e, now).value)
        == AppendFiles(SessionLog.Append(Segs(c), stored), Appended(c, e, now).value.meta);
    PanicInIff(Lines(e.content));
  }

  /** For example a message of this one line. */
  lemma {:induction false} OneLineEndsAThread(codec: Codec, c: Chain, d: Disk, e: Event, now: Time)
    requires Lawful(codec) && Consistent(codec, c, d) && SafeHeader(e) && e.content == "### #1 <!-- -->"
    ensures Appended(c, e, now).Ok?
    ensures ReloadCrashes(codec, ApplyAll(codec, d, AppendWrites(Appended(c, e, now).value)))
  {
    AppendedReloadPanicsIff(codec, c, d, e, now);
    PanicExample(codec, e.content);
    PanicInIff(Lines(e.content));
  }
}
