/** Where the round trip of session files ends: defects of the format, each with its exact condition. */
module SessionRoundTripLimits {
  import opened Text
  import opened SessionTypes
  import opened TokenEstimator
  import opened SessionMarkdown
  import opened SessionRoundTrip

  // ----- A trimmed content can turn into a header -----

  lemma {:induction false} HeaderKeepsEvents(s: Scan, h: Header)
    requires s.Scan?
    ensures var t := ScanHeader(s, h);
            t.Scan? ==> s.events <= t.events
  {
  }

  lemma {:induction false} EventsOnlyGrow(codec: Codec, baseDate: Time, s: Scan, lines: seq<string>)
    requires s.Scan?
    ensures var t := ScanLines(codec, baseDate, s, lines);
            t.Scan? ==> s.events <= t.events
    decreases |lines|
  {
    if lines != [] {
      var t := ScanLine(codec, baseDate, s, lines[0]);
      if HEADER_PREFIX <= lines[0] {
        HeaderKeepsEvents(s, ParseHeader(codec, baseDate, lines[0]));
      }
      if t.Scan? {
        EventsOnlyGrow(codec, baseDate, t, lines[1..]);
      } else {
        CrashIsFinal(codec, baseDate, lines[1..]);
      }
    }
  }

  function FirstHeader(lines: seq<string>): (k: nat)
    ensures k <= |lines|
    ensures forall i :: 0 <= i < k ==> !(HEADER_PREFIX <= lines[i])
    ensures k < |lines| ==> HEADER_PREFIX <= lines[k]
  {
    if lines == [] || HEADER_PREFIX <= lines[0] then 0 else 1 + FirstHeader(lines[1..])
  }

  /** At the first header-like line of a content, the event is closed with what came before. */
  lemma {:induction false} ContentIsCutShort(codec: Codec, baseDate: Time, s: Scan, h: string, e: Event,
                                             before: seq<string>, line: string, after: seq<string>)
    requires s.Scan? && HEADER_PREFIX <= h && ParseHeader(codec, baseDate, h) == Header(e)
    requires HEADER_PREFIX <= line && forall l :: l in before ==> !(HEADER_PREFIX <= l)
    ensures var t := ScanLines(codec, baseDate, s, [h] + before + ([line] + after));
            t.Crashed? || Flushed(s) + [Close(e, before)] <= t.events
  {
    var lines := [h] + before;
    ScanOfConcat(codec, baseDate, s, lines, [line] + after);
    ScanOfBlock(codec, baseDate, s, h, e, before);
    var open := ScanLines(codec, baseDate, s, lines);
    assert ([line] + after)[1..] == after;
    var t := ScanLine(codec, baseDate, open, line);
    if t.Scan? {
      EventsOnlyGrow(codec, baseDate, t, after);
    } else {
      CrashIsFinal(codec, baseDate, after);
    }
  }

  lemma {:induction false} SplitLines(h: string, lines: seq<string>, k: nat)
    requires k < |lines|
    ensures [h, ""] + lines + [""] == [h] + ([""] + lines[..k]) + ([lines[k]] + (lines[k + 1..] + [""]))
  {
    var e: seq<string>, b, c := [""], lines[..k], lines[k + 1..];
    assert [h, ""] == [h] + e && lines == b + ([lines[k]] + c);
    Associative([h] + e, b, [lines[k]] + c);
    Associative([h], e, b);
    Associative([h] + (e + b), [lines[k]] + c, e);
    Associative([lines[k]], c, e);
  }

  /** So what follows a text that starts in print makes its trimmed form longer. */
  lemma {:induction false} TrimGrows(a: string, b: string)
    requires b != [] && !IsSpace(b[0])
    ensures |Trim(a + "\n" + b)| > |Trim(a)|
  {
    var pre, post := TrimSplits(a);
    TrimRightSplits(b);
    var core, t := Trim(a), TrimRight(b);
    var tail := b[|t|..];
    assert t != [] && t[0] == b[0];
    if core == [] {
      assert a + "\n" + b == (a + "\n") + t + tail;
      TrimOfPadded(a + "\n", t, tail);
    } else {
      var middle := core + (post + "\n" + t);
      assert a + "\n" + b == pre + middle + tail;
      TrimOfPadded(pre, middle, tail);
    }
  }

  /** What stands before a header-like line is shorter, even when trimmed, than the whole content trimmed. */
  lemma {:induction false} CutIsShorter(content: string, k: nat)
    requires k < |Lines(content)| && HEADER_PREFIX <= Lines(content)[k]
    ensures |Trim(JoinLines([""] + Lines(content)[..k]))| < |Trim(content)|
  {
    var lines := Lines(content);
    var b := JoinLines(lines[k..]);
    JoinOfLines(content);
    JoinStarts(lines[k..]);
    if k == 0 {
      assert lines[0..] == lines && [""] + lines[..0] == [""];
      TrimRightSplits(content);
    } else {
      var a := JoinLines(lines[..k]);
      assert lines == lines[..k] + lines[k..];
      JoinOfConcat(lines[..k], lines[k..]);
      JoinOfConcat([""], lines[..k]);
      TrimPadding("\n", a, []);
      assert JoinLines([""] + lines[..k]) == "\n" + a == "\n" + a + [];
      TrimGrows(a, b);
    }
  }

  lemma {:induction false} JoinStarts(lines: seq<string>)
    requires lines != [] && HEADER_PREFIX <= lines[0]
    ensures JoinLines(lines) != [] && JoinLines(lines)[0] == '#' && !IsSpace('#')
  {
    assert lines[0][0] == HEADER_PREFIX[0];
  }

  /** A printed event with a header-like line: the parser panics, or what it stores is not the event. */
  lemma {:induction false} CutEvent(codec: Codec, baseDate: Time, s: Scan, e: Event) returns (cut: Event)
    requires Lawful(codec) && SafeHeader(e) && !SafeContent(e.content) && s.Scan?
    ensures var t := ScanLines(codec, baseDate, s, EventLines(codec, e));
            t.Crashed? || Flushed(s) + [cut] <= t.events
    ensures cut != Normal(e)
  {
    var lines := Lines(e.content);
    var k := FirstHeader(lines);
    HeaderRoundTrip(codec, baseDate, e);
    SplitLines(HeaderLine(codec, e), lines, k);
    cut := Close(HeaderForm(e), [""] + lines[..k]);
    ContentIsCutShort(codec, baseDate, s, HeaderLine(codec, e), HeaderForm(e), [""] + lines[..k], lines[k],
                      lines[k + 1..] + [""]);
    CutIsShorter(e.content, k);
  }

  lemma {:induction false} CutEventStays(codec: Codec, baseDate: Time, s: Scan, e: Event, rest: seq<string>)
    requires Lawful(codec) && SafeHeader(e) && !SafeContent(e.content) && s.Scan?
    ensures var t := ScanLines(codec, baseDate, ScanLines(codec, baseDate, s, EventLines(codec, e)), rest);
            t.Crashed? || (|Flushed(t)| > |Flushed(s)| && Flushed(t)[|Flushed(s)|] != Normal(e))
  {
    var cut := CutEvent(codec, baseDate, s, e);
    var open := ScanLines(codec, baseDate, s, EventLines(codec, e));
    if open.Scan? {
      EventsOnlyGrow(codec, baseDate, open, rest);
      assert open.events[|Flushed(s)|] == cut;
    } else {
      CrashIsFinal(codec, baseDate, rest);
    }
  }

  /** The first event with a header-like line spoils the result, whatever stands before and behind it. */
  lemma {:induction false} UnsafeIsNoticed(codec: Codec, baseDate: Time, s: Scan, events: seq<Event>)
    requires Lawful(codec) && AllSafeHeaders(events) && !AllSafeContents(events) && s.Scan?
    ensures var t := ScanLines(codec, baseDate, s, Lines(PrintEvents(codec, events)));
            t.Crashed? || Flushed(t) != Flushed(s) + NormalEvents(events)
    decreases |events|
  {
    var e, rest := events[0], events[1..];
    ScanOfNextPrinted(codec, baseDate, s, events);
    NormalEventsCons(events);
    if SafeContent(e.content) {
      ScanAddsNormal(codec, baseDate, s, e);
      UnsafeIsNoticed(codec, baseDate, ScanLines(codec, baseDate, s, EventLines(codec, e)), rest);
      Associative(Flushed(s), [Normal(e)], NormalEvents(rest));
    } else {
      CutEventStays(codec, baseDate, s, e, Lines(PrintEvents(codec, rest)));
      assert (Flushed(s) + NormalEvents(events))[|Flushed(s)|] == Normal(e);
    }
  }

  /** One save and one read keep a list of events if and only if no content has a line that looks like a header. */
  lemma {:induction false} SavedEventsSurviveIff(codec: Codec, baseDate: Time, events: seq<Event>)
    requires Lawful(codec) && AllSafeHeaders(events)
    ensures ParsedEvents(codec, baseDate, "\n" + PrintEvents(codec, events)) == Some(NormalEvents(events))
            <==> forall i :: 0 <= i < |events| ==> SafeContent(events[i].content)
  {
    if AllSafeContents(events) {
      BodyRoundTrip(codec, baseDate, events);
    } else {
      ScanSkipsBlank(codec, baseDate, PrintEvents(codec, events));
      UnsafeIsNoticed(codec, baseDate, FRESH_SCAN, events);
      assert Flushed(FRESH_SCAN) + NormalEvents(events) == NormalEvents(events);
    }
  }

  /**
   * The next save and read keep the reloaded events if and only if no trimmed content has such a line. The
   * first save does not guarantee this, because it is the reload that trims.
   */
  lemma {:induction false} ReloadedEventsSurviveIff(codec: Codec, baseDate: Time, events: seq<Event>)
    requires Lawful(codec) && AllSafeHeaders(events)
    ensures ParsedEvents(codec, baseDate, "\n" + PrintEvents(codec, NormalEvents(events))) == Some(NormalEvents(events))
            <==> forall i :: 0 <= i < |events| ==> SafeContent(Trim(events[i].content))
  {
    var normal := NormalEvents(events);
    forall i | 0 <= i < |events| ensures SafeHeader(normal[i]) && Normal(normal[i]) == normal[i] {
      NormalHeaderIsSafe(events[i]);
      NormalIdempotent(events[i]);
    }
    assert NormalEvents(normal) == normal;
    SavedEventsSurviveIff(codec, baseDate, normal);
    assert forall i :: 0 <= i < |events| ==> normal[i].content == Trim(events[i].content);
  }

  /** The same for whole session files, two saves in a row. */
  lemma {:induction false} TwoSavesKeepIff(codec: Codec, r: Record, events: seq<Event>)
    requires Lawful(codec) && AllSafeHeaders(events)
    ensures ReadSession(codec, SessionText(codec, r, events)) == Loaded(NormalRecord(r), NormalEvents(events))
            <==> forall i :: 0 <= i < |events| ==> SafeContent(events[i].content)
    ensures ReadSession(codec, SessionText(codec, NormalRecord(r), NormalEvents(events)))
              == Loaded(NormalRecord(r), NormalEvents(events))
            <==> forall i :: 0 <= i < |events| ==> SafeContent(Trim(events[i].content))
  {
    ReadOfText(codec, r, events);
    SavedEventsSurviveIff(codec, NormalRecord(r).createdAt, events);
    NormalRecordIdempotent(r);
    ReadOfText(codec, NormalRecord(r), NormalEvents(events));
    ReloadedEventsSurviveIff(codec, NormalRecord(r).createdAt, events);
  }

  // ----- A message that is lost at the second save -----

  function Emptied(e: Event): Event {
    e.(content := "", tokenCount := Tokens(""))
  }

  /** What a header-like line makes of the rest of an otherwise empty event. */
  function AfterHeaderLine(first: Event, h: Header): Option<seq<Event>> {
    match h
    case Panics => None
    case NoHeader => Some([first])
    case Header(second) => Some([first, Emptied(second)])
  }

  lemma {:induction false} CloseOfEmpty(e: Event)
    ensures Close(e, [""]) == Emptied(e) && Close(e, ["", ""]) == Emptied(e)
  {
    assert ["", ""][1..] == [""];
    assert JoinLines(["", ""]) == "\n";
    TrimOfPadded("\n", [], []);
    assert "\n" + [] + [] == "\n";
  }

  lemma {:induction false} ScanOfTwoBlanks(codec: Codec, baseDate: Time, s: Scan)
    ensures ScanLines(codec, baseDate, s, ["", ""])
         == if s.Scan? && s.current.Some? then s.(content := s.content + ["", ""]) else s
  {
    assert ["", ""][1..] == [""];
    assert ScanLines(codec, baseDate, s, ["", ""])
        == ScanLine(codec, baseDate, ScanLine(codec, baseDate, s, ""), "");
    if s.Scan? {
      assert s.content + [""] + [""] == s.content + ["", ""];
    }
  }

  /** What is stored when the lines are over; nothing when the parser panicked. */
  function ParseResult(s: Scan): Option<seq<Event>> {
    if s.Crashed? then None else Some(Flushed(s))
  }

  lemma {:induction false} HeaderThenBlanks(codec: Codec, baseDate: Time, e: Event, line: string)
    requires HEADER_PREFIX <= line
    ensures ParseResult(ScanLines(codec, baseDate, ScanLine(codec, baseDate, Scan([], Some(e), [""]), line), ["", ""]))
         == AfterHeaderLine(Emptied(e), ParseHeader(codec, baseDate, line))
  {
    var header := ParseHeader(codec, baseDate, line);
    var open := Scan([], Some(e), [""]);
    CloseOfEmpty(e);
    assert Flushed(open) == [Emptied(e)];
    ScanOfTwoBlanks(codec, baseDate, ScanHeader(open, header));
    if header.Header? {
      CloseOfEmpty(header.event);
      assert [] + ["", ""] == ["", ""];
      assert [Emptied(e)] + [Emptied(header.event)] == [Emptied(e), Emptied(header.event)];
    }
  }

  lemma {:induction false} ScanOfTwoHeaders(codec: Codec, baseDate: Time, h: string, e: Event, line: string)
    requires HEADER_PREFIX <= h && ParseHeader(codec, baseDate, h) == Header(e) && HEADER_PREFIX <= line
    ensures ParseResult(ScanLines(codec, baseDate, FRESH_SCAN, [h] + [""] + ([line] + ["", ""])))
         == AfterHeaderLine(Emptied(e), ParseHeader(codec, baseDate, line))
  {
    ScanOfConcat(codec, baseDate, FRESH_SCAN, [h] + [""], [line] + ["", ""]);
    ScanOfBlock(codec, baseDate, FRESH_SCAN, h, e, [""]);
    assert ([line] + ["", ""])[1..] == ["", ""];
    HeaderThenBlanks(codec, baseDate, e, line);
  }

  /** A body whose one event consists of one header-like line. */
  lemma {:induction false} ParsedHeaderLine(codec: Codec, baseDate: Time, e: Event)
    requires Lawful(codec) && SafeHeader(e) && HEADER_PREFIX <= e.content && '\n' !in e.content
    ensures ParsedEvents(codec, baseDate, "\n" + PrintEvents(codec, [e]))
         == AfterHeaderLine(Emptied(HeaderForm(e)), ParseHeader(codec, baseDate, e.content))
  {
    HeaderRoundTrip(codec, baseDate, e);
    LinesOfSingle(codec, e);
    ScanSkipsBlank(codec, baseDate, PrintEvents(codec, [e]));
    ScanOfTwoHeaders(codec, baseDate, HeaderLine(codec, e), HeaderForm(e), e.content);
  }

  lemma {:induction false} LinesOfSingle(codec: Codec, e: Event)
    requires Lawful(codec) && SafeHeader(e) && '\n' !in e.content
    ensures Lines(PrintEvents(codec, [e])) == [HeaderLine(codec, e)] + [""] + ([e.content] + ["", ""])
  {
    assert PrintEvents(codec, [e]) == PrintEvent(codec, e) + "" by {
      assert [e][1..] == [];
    }
    LinesOfPrinted(codec, e, "");
    LinesOfOne(e.content);
  }

  /**
   * A leading space hides a header from the first save, but the reload takes it away: after the second save the
   * message is empty, and its text is gone, or is another event, or makes the session unreadable.
   */
  lemma {:induction false} IndentedHeaderIsLostLater(codec: Codec, baseDate: Time, e: Event, line: string)
    requires Lawful(codec) && SafeHeader(e) && e.content == " " + line
    requires HEADER_PREFIX <= line && Trimmed(line) && '\n' !in line
    ensures ParsedEvents(codec, baseDate, "\n" + PrintEvents(codec, [e])) == Some([Normal(e)]) && Normal(e).content == line
    ensures ParsedEvents(codec, baseDate, "\n" + PrintEvents(codec, [Normal(e)]))
         == AfterHeaderLine(Emptied(Normal(e)), ParseHeader(codec, baseDate, line))
  {
    LinesOfOne(e.content);
    assert e.content[0] != HEADER_PREFIX[0];
    BodyRoundTrip(codec, baseDate, [e]);
    assert NormalEvents([e]) == [Normal(e)];
    assert " " + line + [] == " " + line;
    TrimOfPadded(" ", line, []);
    NormalHeaderIsSafe(e);
    NormalIdempotent(e);
    ParsedHeaderLine(codec, baseDate, Normal(e));
  }

  // ----- An invocation swallows its message ID -----

  /** An invocation's ID is read back if and only if the event carries no message ID. */
  lemma {:induction false} InvocationIdSurvivesIff(codec: Codec, baseDate: Time, e: Event)
    requires Lawful(codec) && e.eventNo >= 0 && e.kind.Invocation? && SafeSender(e) && SafeMsgId(e.msgId)
    requires '\n' !in e.invocationId && '*' !in e.invocationId && '<' !in e.invocationId
    ensures HEADER_PREFIX <= HeaderLine(codec, e)
    ensures var h := ParseHeader(codec, baseDate, HeaderLine(codec, e));
            && h.Header?
            && h.event.invocationId == Trim(e.invocationId + MsgIdComment(e))
            && (h.event.invocationId == Trim(e.invocationId) <==> e.msgId == "")
  {
    if e.msgId == "" {
      HeaderRoundTrip(codec, baseDate, e);
      assert e.invocationId + "" == e.invocationId;
    } else {
      var swallowed := e.(invocationId := e.invocationId + MsgIdComment(e), msgId := "");
      SameLine(codec, e, swallowed);
      SwallowedId(codec, baseDate, e, swallowed);
      CommentStays(e.invocationId, e.msgId);
    }
  }

  lemma {:induction false} SameLine(codec: Codec, e: Event, swallowed: Event)
    requires e.kind.Invocation?
    requires swallowed == e.(invocationId := e.invocationId + MsgIdComment(e), msgId := "")
    ensures HeaderLine(codec, swallowed) == HeaderLine(codec, e)
  {
    Associative(INVOCATION_TAG + e.sender + "]** " + INVOCATION_ID, e.invocationId, MsgIdComment(e));
    assert Label(swallowed) == Label(e) + [];
  }

  lemma {:induction false} SwallowedId(codec: Codec, baseDate: Time, e: Event, swallowed: Event)
    requires Lawful(codec) && e.eventNo >= 0 && e.kind.Invocation? && SafeSender(e) && SafeMsgId(e.msgId)
    requires '*' !in e.invocationId && '<' !in e.invocationId && e.msgId != ""
    requires swallowed == e.(invocationId := e.invocationId + MsgIdComment(e), msgId := "")
    ensures HEADER_PREFIX <= HeaderLine(codec, swallowed)
    ensures var h := ParseHeader(codec, baseDate, HeaderLine(codec, swallowed));
            h.Header? && h.event.invocationId == Trim(swallowed.invocationId)
  {
    HeaderLineSplit(codec, swallowed);
    DecimalDenotes(e.eventNo);
    assert '*' !in MsgIdComment(e);
    var ts := codec.formatTime(e.timestamp);
    HeaderFields(Decimal(e.eventNo), ts, " " + Label(swallowed));
    ScanOfDecimal(e.eventNo);
    var numbered := BLANK_EVENT.(eventNo := e.eventNo);
    StampedRoundTrip(codec, baseDate, ts, WholeSeconds(e.timestamp), " " + Label(swallowed), numbered);
    TrimOfLabel(swallowed);
    ClassifyInvocation(swallowed, numbered.(timestamp := WholeSeconds(e.timestamp)));
    SwallowedComment(e, swallowed);
  }

  /** The text of a label whose comment is part of the invocation ID. */
  lemma {:induction false} CommentBehind(a: string, b: string, c: string, x: string, y: string, z: string)
    ensures a + (b + (c + (x + y + z))) == a + (b + c) + x + y + z
  {
    var w := x + y + z;
    Associative(b, c, w);
    Associative(a, b + c, w);
    var front := a + (b + c);
    Associative(front, x + y, z);
    Associative(front, x, y);
  }

  lemma {:induction false} SwallowedText(e: Event, swallowed: Event)
    requires e.kind.Invocation? && e.msgId != ""
    requires swallowed == e.(invocationId := e.invocationId + MsgIdComment(e), msgId := "")
    ensures TrimmedLabel(swallowed)
         == CAT_TAG + LabelName(e) + "]**" + (" " + INVOCATION_ID + e.invocationId) + " <!-- " + e.msgId + " -->"
  {
    var id := swallowed.invocationId;
    assert id[|id| - 1] == '>';
    assert TrimRight(id) == id;
    CommentBehind(CAT_TAG + LabelName(e) + "]**", " " + INVOCATION_ID, e.invocationId, " <!-- ", e.msgId, " -->");
  }

  lemma {:induction false} SwallowedComment(e: Event, swallowed: Event)
    requires e.kind.Invocation? && SafeSender(e) && SafeMsgId(e.msgId) && '<' !in e.invocationId && e.msgId != ""
    requires swallowed == e.(invocationId := e.invocationId + MsgIdComment(e), msgId := "")
    ensures ScanMsgId(TrimmedLabel(swallowed)) == MsgId(e.msgId)
  {
    SwallowedText(e, swallowed);
    ScanOfComment(CAT_TAG + LabelName(e) + "]**" + (" " + INVOCATION_ID + e.invocationId), e.msgId);
  }

  lemma {:induction false} CommentStays(id: string, msgId: string)
    requires '<' !in id
    ensures Trim(id + (" <!-- " + msgId + " -->")) != Trim(id)
  {
    var s := id + (" <!-- " + msgId + " -->");
    var pre, post := TrimSplits(s);
    var p, q := TrimSplits(id);
    assert s[|id| + 1] == '<' && !IsSpace('<');
    assert s[|id| + 1] in Trim(s);
    assert forall c :: c in Trim(id) ==> c in id;
  }

  // ----- Overlapping comment delimiters -----

  /** The first comment start of a text is followed at once by an end that shares its space. */
  predicate BadComment(text: string) {
    Contains(text, "<!-- ") && "<!-- -->" <= text[Index(text, "<!-- ")..]
  }

  lemma {:induction false} EndOverlapsStart(s: string)
    requires "<!-- " <= s
    ensures 0 < Index(s, " -->") < 5 <==> "<!-- -->" <= s
  {
    var end := Index(s, " -->");
    assert s[0] == '<' && s[1] == '!' && s[2] == '-' && s[3] == '-' && s[4] == ' ';
    if 0 <= end < 5 {
      assert s[end..end + 4][0] == s[end];
      assert s[..8] == s[..4] + s[4..8];
    }
    if "<!-- -->" <= s {
      IndexIsFirst(s, " -->");
      assert s[4..8] == "<!-- -->"[4..];
      assert OccursAt(s, " -->", 4);
    }
  }

  /** The scan for a message ID slices out of bounds if and only if its text has such a comment. */
  lemma {:induction false} CommentPanicsIff(rest: string)
    ensures ScanMsgId(rest).BadSlice? <==> BadComment(rest)
  {
    var i := Index(rest, "<!-- ");
    if i >= 0 {
      assert rest[i..][..5] == rest[i..i + 5];
      EndOverlapsStart(rest[i..]);
    }
  }

  lemma {:induction false} IndexOfFront(t: string, post: string, p: string)
    requires Index(t, p) >= 0
    ensures Index(t + post, p) == Index(t, p)
  {
    if p <= t {
      assert (t + post)[..|p|] == t[..|p|];
    } else {
      assert (t + post)[1..] == t[1..] + post;
      assert |p| <= |t| && (t + post)[..|p|] == t[..|p|];
      IndexOfFront(t[1..], post, p);
    }
  }

  /** A comment does not begin or end in white space, so it stands where the print stands. */
  lemma {:induction false} CommentIsInside(pre: string, t: string, post: string, i: nat)
    requires AllSpace(pre) && AllSpace(post) && OccursAt(pre + t + post, "<!-- -->", i)
    ensures |pre| <= i && OccursAt(t, "<!-- -->", i - |pre|)
  {
    var x, p := pre + t + post, "<!-- -->";
    assert x[i] == x[i..i + 8][0] == '<' && !IsSpace('<');
    assert x[i + 7] == x[i..i + 8][7] == '>' && !IsSpace('>');
    assert i >= |pre| && i + 8 <= |pre| + |t|;
    assert t[i - |pre|..i - |pre| + 8] == x[i..i + 8];
  }

  lemma {:induction false} PaddedIndex(pre: string, t: string, post: string)
    requires AllSpace(pre) && Contains(t, "<!-- ")
    ensures Index(pre + t + post, "<!-- ") == |pre| + Index(t, "<!-- ")
  {
    assert pre + t + post == pre + (t + post) && !IsSpace('<');
    IndexShifts(pre, t + post, "<!-- ");
    IndexOfFront(t, post, "<!-- ");
  }

  lemma {:induction false} PaddingKeepsBad(pre: string, t: string, post: string)
    requires AllSpace(pre) && BadComment(t)
    ensures BadComment(pre + t + post)
  {
    PaddedIndex(pre, t, post);
    var i := Index(t, "<!-- ");
    assert (pre + t + post)[|pre| + i..] == t[i..] + post;
  }

  lemma {:induction false} BadIsOccurrence(text: string)
    requires Contains(text, "<!-- ")
    ensures BadComment(text) <==> OccursAt(text, "<!-- -->", Index(text, "<!-- "))
  {
    var i := Index(text, "<!-- ");
    if i + 8 <= |text| {
      assert text[i..][..8] == text[i..i + 8];
    }
  }

  lemma {:induction false} LongerOccurs(t: string, i: nat)
    requires OccursAt(t, "<!-- -->", i)
    ensures Contains(t, "<!-- ")
  {
    assert t[i..i + 8][..5] == t[i..i + 5];
    assert OccursAt(t, "<!-- ", i);
    IndexIsFirst(t, "<!-- ");
  }

  lemma {:induction false} BadCommentInside(pre: string, t: string, post: string)
    requires AllSpace(pre) && AllSpace(post)
    ensures BadComment(pre + t + post) <==> BadComment(t)
  {
    if BadComment(t) {
      PaddingKeepsBad(pre, t, post);
    }
    if BadComment(pre + t + post) {
      var i := Index(pre + t + post, "<!-- ");
      BadIsOccurrence(pre + t + post);
      CommentIsInside(pre, t, post, i);
      LongerOccurs(t, i - |pre|);
      PaddedIndex(pre, t, post);
      BadIsOccurrence(t);
    }
  }

  lemma {:induction false} TrimKeepsBadComment(text: string)
    ensures BadComment(Trim(text)) <==> BadComment(text)
  {
    var pre, post := TrimSplits(text);
    BadCommentInside(pre, Trim(text), post);
  }

  /** What stands behind a header line's number, and behind its time stamp if it has one. */
  function LabelText(line: string): string
    requires HEADER_PREFIX <= line && Contains(line[5..], " ")
  {
    var rest := line[5..][Index(line[5..], " ") + 1..];
    if rest != [] && rest[0] == '[' && Contains(rest, "]") then rest[Index(rest, "]") + 1..] else rest
  }

  /** A line on which the parser panics. */
  predicate PanicLine(line: string) {
    HEADER_PREFIX <= line && Contains(line[5..], " ") && BadComment(LabelText(line))
  }

  predicate PanicIn(lines: seq<string>) {
    lines != [] && (PanicLine(lines[0]) || PanicIn(lines[1..]))
  }

  lemma {:induction false} PanicInIff(lines: seq<string>)
    ensures PanicIn(lines) <==> exists l :: l in lines && PanicLine(l)
  {
    if lines != [] {
      PanicInIff(lines[1..]);
      assert forall l :: l in lines <==> l == lines[0] || l in lines[1..];
    }
  }

  lemma {:induction false} StampedPanicsIff(codec: Codec, baseDate: Time, e: Event, rest: string)
    ensures ParseStamped(codec, baseDate, e, rest).Panics?
            <==> BadComment(if rest != [] && rest[0] == '[' && Contains(rest, "]") then rest[Index(rest, "]") + 1..] else rest)
  {
    if rest != [] && rest[0] == '[' && Contains(rest, "]") {
      assert rest[Index(rest, "]")..Index(rest, "]") + 1][0] == ']';
      CommentPanicsIff(Trim(rest[Index(rest, "]") + 1..]));
      TrimKeepsBadComment(rest[Index(rest, "]") + 1..]);
    } else {
      CommentPanicsIff(rest);
    }
  }

  /** The exact lines that the parser panics on, whatever the date. */
  lemma {:induction false} HeaderPanicsIff(codec: Codec, baseDate: Time, line: string)
    requires HEADER_PREFIX <= line
    ensures ParseHeader(codec, baseDate, line).Panics? <==> PanicLine(line)
  {
    var rest := line[5..];
    if Contains(rest, " ") {
      var space := Index(rest, " ");
      StampedPanicsIff(codec, baseDate, BLANK_EVENT.(eventNo := ScanInt(rest[..space])), rest[space + 1..]);
    }
  }

  lemma {:induction false} ScanPanicsIff(codec: Codec, baseDate: Time, s: Scan, lines: seq<string>)
    requires s.Scan?
    ensures ScanLines(codec, baseDate, s, lines).Crashed? <==> PanicIn(lines)
    decreases |lines|
  {
    if lines != [] {
      var t := ScanLine(codec, baseDate, s, lines[0]);
      if HEADER_PREFIX <= lines[0] {
        HeaderPanicsIff(codec, baseDate, lines[0]);
      }
      if t.Scan? {
        ScanPanicsIff(codec, baseDate, t, lines[1..]);
      } else {
        CrashIsFinal(codec, baseDate, lines[1..]);
      }
    }
  }

  lemma {:induction false} PanicInConcat(a: seq<string>, b: seq<string>)
    ensures PanicIn(a + b) <==> PanicIn(a) || PanicIn(b)
  {
    if a == [] {
      assert a + b == b;
    } else {
      assert (a + b)[1..] == a[1..] + b;
      PanicInConcat(a[1..], b);
    }
  }

  /** A body makes the parser panic if and only if it has such a line, wherever it stands. */
  lemma {:induction false} BodyPanicsIff(codec: Codec, baseDate: Time, body: string)
    ensures ParsedEvents(codec, baseDate, body).None? <==> exists l :: l in Lines(body) && PanicLine(l)
  {
    ScanPanicsIff(codec, baseDate, FRESH_SCAN, Lines(body));
    PanicInIff(Lines(body));
  }

  lemma {:induction false} HeadersDoNotPanic(codec: Codec, e: Event)
    requires Lawful(codec) && SafeHeader(e)
    ensures PanicIn(EventLines(codec, e)) <==> PanicIn(Lines(e.content))
  {
    HeaderRoundTrip(codec, ZERO_TIME, e);
    HeaderPanicsIff(codec, ZERO_TIME, HeaderLine(codec, e));
    PanicInConcat([HeaderLine(codec, e), ""], Lines(e.content));
    PanicInConcat([HeaderLine(codec, e), ""] + Lines(e.content), [""]);
  }

  /** Some message has a line that the parser panics on. */
  predicate PanicMessage(events: seq<Event>) {
    events != [] && (PanicIn(Lines(events[0].content)) || PanicMessage(events[1..]))
  }

  lemma {:induction false} PanicMessageIff(events: seq<Event>)
    ensures PanicMessage(events) <==> exists i :: 0 <= i < |events| && PanicIn(Lines(events[i].content))
  {
    if events != [] {
      PanicMessageIff(events[1..]);
      assert forall i :: 0 < i < |events| ==> events[i] == events[1..][i - 1];
    }
  }

  lemma {:induction false} PrintedPanicsIff(codec: Codec, events: seq<Event>)
    requires Lawful(codec) && AllSafeHeaders(events)
    ensures PanicIn(Lines(PrintEvents(codec, events))) <==> PanicMessage(events)
    decreases |events|
  {
    if events == [] {
      assert Lines("") == [""];
    } else {
      var e, rest := events[0], events[1..];
      LinesOfPrinted(codec, e, PrintEvents(codec, rest));
      PanicInConcat(EventLines(codec, e), Lines(PrintEvents(codec, rest)));
      HeadersDoNotPanic(codec, e);
      PrintedPanicsIff(codec, rest);
    }
  }

  lemma {:induction false} BodyPanics(codec: Codec, baseDate: Time, events: seq<Event>)
    requires Lawful(codec) && AllSafeHeaders(events)
    ensures ParsedEvents(codec, baseDate, "\n" + PrintEvents(codec, events)).None? <==> PanicMessage(events)
  {
    ScanSkipsBlank(codec, baseDate, PrintEvents(codec, events));
    ScanPanicsIff(codec, baseDate, FRESH_SCAN, Lines(PrintEvents(codec, events)));
    PrintedPanicsIff(codec, events);
  }

  /** A written session file makes its reader panic if and only if some message in it has such a line. */
  lemma {:induction false} FilePanicsIff(codec: Codec, r: Record, events: seq<Event>)
    requires Lawful(codec) && AllSafeHeaders(events)
    ensures ReadSession(codec, SessionText(codec, r, events)) == ReadPanics
            <==> exists i, l :: 0 <= i < |events| && l in Lines(events[i].content) && PanicLine(l)
  {
    ReadOfText(codec, r, events);
    BodyPanics(codec, NormalRecord(r).createdAt, events);
    PanicMessageIff(events);
    forall i | 0 <= i < |events|
      ensures PanicIn(Lines(events[i].content)) <==> exists l :: l in Lines(events[i].content) && PanicLine(l)
    {
      PanicInIff(Lines(events[i].content));
    }
  }

  lemma {:induction false} CommentAtFront(tail: string)
    ensures BadComment("<!-- -->" + tail)
  {
    assert "<!-- -->" + tail == "<!-- " + ("-->" + tail);
    assert Index("<!-- -->" + tail, "<!-- ") == 0;
  }

  /** Such lines exist: a number, and a comment whose two delimiters share a space. */
  lemma {:induction false} OverlappingCommentPanics(codec: Codec, baseDate: Time, number: string, tail: string)
    requires ' ' !in number
    ensures var line := HEADER_PREFIX + (number + " " + ("<!-- -->" + tail));
            PanicLine(line) && ParseHeader(codec, baseDate, line) == Panics
  {
    var rest := "<!-- -->" + tail;
    var line := HEADER_PREFIX + (number + " " + rest);
    assert line[5..] == number + " " + rest;
    CutAt(number, " ", rest);
    assert rest[0] == '<';
    CommentAtFront(tail);
    HeaderPanicsIff(codec, baseDate, line);
  }

  lemma {:induction false} NoNewlineInConcat(a: string, b: string)
    requires '\n' !in a && '\n' !in b
    ensures '\n' !in a + b
  {
  }

  /** A message of one such line. */
  lemma {:induction false} OverlappingMessagePanics(codec: Codec, number: string, tail: string, content: string)
    requires ' ' !in number && '\n' !in number && '\n' !in tail
    requires content == HEADER_PREFIX + (number + " " + ("<!-- -->" + tail))
    ensures Lines(content) == [content] && PanicIn(Lines(content))
  {
    OverlappingCommentPanics(codec, ZERO_TIME, number, tail);
    NoNewlineInConcat(number, " ");
    NoNewlineInConcat("<!-- -->", tail);
    NoNewlineInConcat(number + " ", "<!-- -->" + tail);
    NoNewlineInConcat(HEADER_PREFIX, number + " " + ("<!-- -->" + tail));
    LinesOfOne(content);
    PanicInIff([content]);
  }

  /** The smallest one. */
  lemma {:induction false} PanicExample(codec: Codec, content: string)
    requires content == "### #1 <!-- -->"
    ensures PanicIn(Lines(content))
  {
    var number, tail := "1", "";
    assert content == HEADER_PREFIX + (number + " " + ("<!-- -->" + tail));
    OverlappingMessagePanics(codec, number, tail, content);
  }
}
