/** The printer and the parser of session files (src/session_chain_storage.go:134-332). */
module SessionMarkdown {
  import opened Text
  import opened Selections
  import opened SessionTypes
  import opened TokenEstimator

  const HEADER_PREFIX := "### #"
  const USER_TAG := "**[用户]**"
  const SYSTEM_TAG := "**[系统]**"
  const INVOCATION_TAG := "**[调用:"
  const CAT_TAG := "**["
  const INVOCATION_ID := "invocation_id="
  const RULE := "---\n"

  // ----- Printing -----

  /** fmt's %d. */
  function FormatInt(n: int): string {
    if n < 0 then "-" + Decimal(-n) else Decimal(n)
  }

  function MsgIdComment(e: Event): string {
    if e.msgId != "" then " <!-- " + e.msgId + " -->" else ""
  }

  /** Everything after the time stamp of a header line. */
  function Label(e: Event): string
    requires !e.kind.Other?
  {
    match e.kind
    case User => USER_TAG + MsgIdComment(e)
    case Cat => CAT_TAG + e.sender + "]**" + MsgIdComment(e)
    case System => SYSTEM_TAG + MsgIdComment(e)
    case Invocation => INVOCATION_TAG + e.sender + "]** " + INVOCATION_ID + e.invocationId + MsgIdComment(e)
  }

  function HeaderLine(codec: Codec, e: Event): string
    requires !e.kind.Other?
  {
    HEADER_PREFIX + FormatInt(e.eventNo) + " [" + codec.formatTime(e.timestamp) + "] " + Label(e)
  }

  function PrintEvent(codec: Codec, e: Event): string {
    if e.kind.Other? then "" else HeaderLine(codec, e) + "\n\n" + e.content + "\n\n"
  }

  function PrintEvents(codec: Codec, events: seq<Event>): string {
    if events == [] then "" else PrintEvent(codec, events[0]) + PrintEvents(codec, events[1..])
  }

  /** The whole session file. */
  function SessionText(codec: Codec, r: Record, events: seq<Event>): string {
    RULE + codec.encodeFront(r) + RULE + "\n" + PrintEvents(codec, events)
  }

  ghost predicate IsLabel(text: string, e: Event) {
    var comment := if e.msgId == "" then "" else " <!-- " + e.msgId + " -->";
    match e.kind
    case User => text == "**[用户]**" + comment
    case Cat => text == "**[" + e.sender + "]**" + comment
    case System => text == "**[系统]**" + comment
    case Invocation => text == "**[调用:" + e.sender + "]** " + "invocation_id=" + e.invocationId + comment
    case Other => false
  }

  /** Header line, blank line, content, blank line; nothing for a kind that the printer does not know. */
  ghost predicate IsEntry(entry: string, codec: Codec, e: Event) {
    if e.kind == Other then entry == ""
    else exists text: string :: IsLabel(text, e) && entry ==
           "### #" + FormatInt(e.eventNo) + " [" + codec.formatTime(e.timestamp) + "] " + text + "\n\n" + e.content + "\n\n"
  }

  lemma {:induction false} LabelIsLabel(e: Event)
    requires e.kind != Other
    ensures IsLabel(Label(e), e)
  {
    assert e.msgId == "" ==> MsgIdComment(e) == "";
  }

  lemma {:induction false} PrintedIsEntry(codec: Codec, e: Event)
    ensures IsEntry(PrintEvent(codec, e), codec, e)
  {
    if e.kind != Other {
      LabelIsLabel(e);
      var text := Label(e);
      assert HeaderLine(codec, e) == "### #" + FormatInt(e.eventNo) + " [" + codec.formatTime(e.timestamp) + "] " + text;
    }
  }

  ghost predicate AreEntriesOf(entries: seq<string>, codec: Codec, events: seq<Event>) {
    |entries| == |events| && forall i :: 0 <= i < |events| ==> IsEntry(entries[i], codec, events[i])
  }

  /** The front matter between two rules, a blank line, and an entry for each event, in order. */
  ghost predicate IsSessionFile(text: string, codec: Codec, r: Record, events: seq<Event>) {
    exists entries: seq<string> ::
      AreEntriesOf(entries, codec, events) && text == "---\n" + codec.encodeFront(r) + "---\n" + "\n" + Joined(entries)
  }

  lemma {:induction false} PrintEventsNext(codec: Codec, events: seq<Event>, e: Event)
    ensures PrintEvents(codec, events + [e]) == PrintEvents(codec, events) + PrintEvent(codec, e)
  {
    if events == [] {
      assert (events + [e])[0] == e && (events + [e])[1..] == [];
    } else {
      assert (events + [e])[0] == events[0] && (events + [e])[1..] == events[1..] + [e];
      PrintEventsNext(codec, events[1..], e);
      Associative(PrintEvent(codec, events[0]), PrintEvents(codec, events[1..]), PrintEvent(codec, e));
    }
  }

  lemma {:induction false} EntriesNext(entries: seq<string>, codec: Codec, events: seq<Event>, entry: string)
    requires events != [] && AreEntriesOf(entries, codec, events[..|events| - 1]) && IsEntry(entry, codec, events[|events| - 1])
    ensures AreEntriesOf(entries + [entry], codec, events)
  {
    forall i | 0 <= i < |events| ensures IsEntry((entries + [entry])[i], codec, events[i]) {
      if i < |events| - 1 {
        assert IsEntry(entries[i], codec, events[..|events| - 1][i]);
      }
    }
  }

  lemma {:induction false} PrintedEntries(codec: Codec, events: seq<Event>) returns (entries: seq<string>)
    ensures AreEntriesOf(entries, codec, events) && PrintEvents(codec, events) == Joined(entries)
  {
    entries := [];
    if events != [] {
      var n := |events| - 1;
      var entry := PrintEvent(codec, events[n]);
      var init := PrintedEntries(codec, events[..n]);
      PrintedIsEntry(codec, events[n]);
      EntriesNext(init, codec, events, entry);
      JoinedNext(init, entry);
      PrintEventsLast(codec, events);
      entries := init + [entry];
    }
  }

  lemma {:induction false} PrintEventsLast(codec: Codec, events: seq<Event>)
    requires events != []
    ensures PrintEvents(codec, events) == PrintEvents(codec, events[..|events| - 1]) + PrintEvent(codec, events[|events| - 1])
  {
    assert events == events[..|events| - 1] + [events[|events| - 1]];
    PrintEventsNext(codec, events[..|events| - 1], events[|events| - 1]);
  }

  lemma {:induction false} SessionTextIsFile(codec: Codec, r: Record, events: seq<Event>)
    ensures IsSessionFile(SessionText(codec, r, events), codec, r, events)
  {
    var entries := PrintedEntries(codec, events);
  }

  method FormatEvent(codec: Codec, e: Event) returns (entry: string)
    ensures entry == PrintEvent(codec, e) && IsEntry(entry, codec, e)
  {
    PrintedIsEntry(codec, e);
    var ts := codec.formatTime(e.timestamp);
    var msgIdComment := "";
    if e.msgId != "" {
      msgIdComment := " <!-- " + e.msgId + " -->";
    }
    var tag := "";
    match e.kind {
      case User => tag := "**[用户]**" + msgIdComment;
      case Cat => tag := "**[" + e.sender + "]**" + msgIdComment;
      case System => tag := "**[系统]**" + msgIdComment;
      case Invocation =>
        tag := "**[调用:" + e.sender + "]** " + "invocation_id=" + e.invocationId + msgIdComment;
      case Other => return "";
    }
    entry := "### #" + FormatInt(e.eventNo) + " [" + ts + "] " + tag + "\n\n" + e.content + "\n\n";
  }

  method WriteSessionMarkdown(codec: Codec, r: Record, events: seq<Event>) returns (text: string)
    ensures text == SessionText(codec, r, events) && IsSessionFile(text, codec, r, events)
  {
    SessionTextIsFile(codec, r, events);
    var sb := "---\n";
    sb := sb + codec.encodeFront(r);
    sb := sb + "---\n\n";
    ghost var front := sb;
    assert front == RULE + codec.encodeFront(r) + RULE + "\n";
    for i := 0 to |events|
      invariant front + PrintEvents(codec, events) == sb + PrintEvents(codec, events[i..])
    {
      assert events[i..][0] == events[i] && events[i..][1..] == events[i + 1..];
      var entry := FormatEvent(codec, events[i]);
      Associative(sb, entry, PrintEvents(codec, events[i + 1..]));
      sb := sb + entry;
    }
    assert sb + [] == sb;
    text := sb;
  }

  // ----- Parsing a header line -----

  function DigitPrefix(s: string): (d: string)
    ensures AllDigits(d)
  {
    if s != [] && IsDigit(s[0]) then [s[0]] + DigitPrefix(s[1..]) else []
  }

  /** What fmt.Sscanf(s, "%d", &n) leaves in an n that was 0. */
  function ScanInt(s: string): int {
    var t := TrimLeft(s);
    if t != [] && t[0] == '-' then -(Numeral(DigitPrefix(t[1..])) as int)
    else if t != [] && t[0] == '+' then Numeral(DigitPrefix(t[1..]))
    else Numeral(DigitPrefix(t))
  }

  lemma {:induction false} DigitPrefixStops(digits: string, rest: string)
    requires AllDigits(digits) && (rest != "" ==> !IsDigit(rest[0]))
    ensures DigitPrefix(digits + rest) == digits
  {
    if digits == "" {
      assert digits + rest == rest;
    } else {
      assert (digits + rest)[0] == digits[0] && (digits + rest)[1..] == digits[1..] + rest;
      DigitPrefixStops(digits[1..], rest);
    }
  }

  /** White space, a sign if there is one, and digits up to the first other character make the number. */
  lemma {:induction false} ScanIntReads(space: string, sign: string, digits: string, rest: string)
    requires AllSpace(space) && (sign == "" || sign == "+" || sign == "-")
    requires digits != "" && AllDigits(digits) && (rest != "" ==> !IsDigit(rest[0]))
    ensures ScanInt(space + (sign + (digits + rest))) == if sign == "-" then -(Numeral(digits) as int) else Numeral(digits)
  {
    var t := sign + (digits + rest);
    TrimLeftSkips(space, t);
    DigitPrefixStops(digits, rest);
    if sign == "" {
      assert t == digits + rest && t[0] == digits[0];
    } else {
      assert t[0] == sign[0] && t[1..] == digits + rest;
    }
  }

  /** The text between the end of a tag and the next "]**", or "" when there is none. */
  function TagName(rest: string, tag: string): string
    requires Contains(rest, tag)
  {
    var tail := rest[Index(rest, tag) + |tag|..];
    var end := Index(tail, "]**");
    if end > 0 then tail[..end] else ""
  }

  /** Kind, sender and invocation ID of a header whose number and time are cut off. */
  function Classify(e: Event, rest: string): Event {
    if Contains(rest, USER_TAG) then e.(kind := User, sender := "用户")
    else if Contains(rest, SYSTEM_TAG) then e.(kind := System, sender := "系统")
    else if Contains(rest, INVOCATION_TAG) then
      e.(kind := Invocation, sender := TagName(rest, INVOCATION_TAG),
         invocationId := if Contains(rest, INVOCATION_ID)
                         then Trim(rest[Index(rest, INVOCATION_ID) + |INVOCATION_ID|..]) else "")
    else if Contains(rest, CAT_TAG) then e.(kind := Cat, sender := TagName(rest, CAT_TAG))
    else e
  }

  datatype MsgIdScan = NoMsgId | MsgId(id: string) | BadSlice

  /** The comment's ID. BadSlice is the slice expression that panics when the two delimiters overlap. */
  function ScanMsgId(rest: string): MsgIdScan {
    var i := Index(rest, "<!-- ");
    if i < 0 then NoMsgId
    else
      var end := Index(rest[i..], " -->");
      if end <= 0 then NoMsgId
      else if end < 5 then BadSlice
      else MsgId(rest[i + 5..i + end])
  }

  datatype Header = NoHeader | Header(event: Event) | Panics

  const BLANK_EVENT := Event(0, Other, "", "", "", "", ZERO_TIME, 0)

  function ScanTime(codec: Codec, baseDate: Time, stamp: string): Time {
    match codec.parseTime(stamp)
    case Some(t) => t
    case None =>
      match codec.parseTime(codec.formatDay(baseDate) + " " + stamp)
      case Some(t) => t
      case None => ZERO_TIME
  }

  /** The label: kind and names, then the comment. */
  function ParseLabel(e: Event, rest: string): Header {
    match ScanMsgId(rest)
    case NoMsgId => Header(Classify(e, rest))
    case MsgId(id) => Header(Classify(e, rest).(msgId := id))
    case BadSlice => Panics
  }

  /** The time stamp, if there is one, then the label. */
  function ParseStamped(codec: Codec, baseDate: Time, e: Event, rest: string): Header {
    var bracket := Index(rest, "]");
    if rest != [] && rest[0] == '[' && bracket > 0
    then ParseLabel(e.(timestamp := ScanTime(codec, baseDate, rest[1..bracket])), Trim(rest[bracket + 1..]))
    else ParseLabel(e, rest)
  }

  /** The loop body for a line that starts with "### #". */
  function ParseHeader(codec: Codec, baseDate: Time, line: string): Header
    requires HEADER_PREFIX <= line
  {
    var rest := line[5..];
    var space := Index(rest, " ");
    if space == -1 then NoHeader
    else ParseStamped(codec, baseDate, BLANK_EVENT.(eventNo := ScanInt(rest[..space])), rest[space + 1..])
  }

  /** A stamp is read as a date and time; if it is none, as a time on the session's first day; else it is dropped. */
  lemma {:induction false} StampIsRead(codec: Codec, baseDate: Time, e: Event, stamp: string, rest: string)
    requires ']' !in stamp
    ensures var whole, sameDay := codec.parseTime(stamp), codec.parseTime(codec.formatDay(baseDate) + " " + stamp);
            ParseStamped(codec, baseDate, e, "[" + stamp + "]" + rest)
            == ParseLabel(e.(timestamp := if whole.Some? then whole.value else if sameDay.Some? then sameDay.value else ZERO_TIME),
                          Trim(rest))
  {
    CutAt("[" + stamp, "]", rest);
    var line := "[" + stamp + "]" + rest;
    assert line[1..|stamp| + 1] == stamp;
  }

  // ----- Parsing a body -----

  /** The parser's variables between two lines. */
  datatype Scan = Scan(events: seq<Event>, current: Option<Event>, content: seq<string>) | Crashed

  function Close(e: Event, content: seq<string>): Event {
    var text := Trim(JoinLines(content));
    e.(content := text, tokenCount := Tokens(text))
  }

  /** flushEvent. */
  function Flushed(s: Scan): seq<Event>
    requires s.Scan?
  {
    if s.current.Some? then s.events + [Close(s.current.value, s.content)] else s.events
  }

  /** The parser behind a header-like line: the open event is closed, whatever the line turns out to be. */
  function ScanHeader(s: Scan, h: Header): Scan
    requires s.Scan?
  {
    match h
    case NoHeader => Scan(Flushed(s), None, [])
    case Header(e) => Scan(Flushed(s), Some(e), [])
    case Panics => Crashed
  }

  function ScanLine(codec: Codec, baseDate: Time, s: Scan, line: string): Scan {
    if s.Crashed? then Crashed
    else if HEADER_PREFIX <= line then ScanHeader(s, ParseHeader(codec, baseDate, line))
    else if s.current.Some? then s.(content := s.content + [line])
    else s
  }

  function ScanLines(codec: Codec, baseDate: Time, s: Scan, lines: seq<string>): Scan
    decreases |lines|
  {
    if lines == [] then s
    else ScanLines(codec, baseDate, ScanLine(codec, baseDate, s, lines[0]), lines[1..])
  }

  const FRESH_SCAN := Scan([], None, [])

  /** The events of a body; None when the parser panics. */
  function ParsedEvents(codec: Codec, baseDate: Time, body: string): Option<seq<Event>> {
    var s := ScanLines(codec, baseDate, FRESH_SCAN, Lines(body));
    if s.Crashed? then None else Some(Flushed(s))
  }

  lemma {:induction false} CrashIsFinal(codec: Codec, baseDate: Time, lines: seq<string>)
    ensures ScanLines(codec, baseDate, Crashed, lines) == Crashed
  {
    if lines != [] {
      CrashIsFinal(codec, baseDate, lines[1..]);
    }
  }

  method ParseEventsFromMarkdown(codec: Codec, body: string, baseDate: Time) returns (r: Option<seq<Event>>)
    ensures r == ParsedEvents(codec, baseDate, body)
  {
    var events: seq<Event> := [];
    var lines := Lines(body);
    var currentEvent: Option<Event> := None;
    var contentLines: seq<string> := [];
    for i := 0 to |lines|
      invariant currentEvent.None? ==> contentLines == []
      invariant ScanLines(codec, baseDate, FRESH_SCAN, lines)
             == ScanLines(codec, baseDate, Scan(events, currentEvent, contentLines), lines[i..])
    {
      var line := lines[i];
      assert lines[i..][0] == line && lines[i..][1..] == lines[i + 1..];
      if HEADER_PREFIX <= line {
        if currentEvent.Some? {
          events := events + [Close(currentEvent.value, contentLines)];
          currentEvent := None;
          contentLines := [];
        }
        match ParseHeader(codec, baseDate, line) {
          case NoHeader =>
          case Header(e) =>
            currentEvent := Some(e);
            contentLines := [];
          case Panics =>
            CrashIsFinal(codec, baseDate, lines[i + 1..]);
            return None;
        }
      } else if currentEvent.Some? {
        contentLines := contentLines + [line];
      }
    }
    assert lines[|lines|..] == [];
    if currentEvent.Some? {
      events := events + [Close(currentEvent.value, contentLines)];
    }
    r := Some(events);
  }

  // ----- Reading a file -----

  datatype ReadResult = Loaded(record: Record, events: seq<Event>) | Unreadable | ReadPanics

  function ReadSession(codec: Codec, text: string): ReadResult {
    if !(RULE <= text) then Unreadable
    else
      var content := text[4..];
      var end := Index(content, "\n---\n");
      if end == -1 then Unreadable
      else
        match codec.decodeFront(content[..end])
        case None => Unreadable
        case Some(r) =>
          match ParsedEvents(codec, r.createdAt, content[end + 5..])
          case None => ReadPanics
          case Some(events) => Loaded(r, events)
  }

  method ReadSessionMarkdown(codec: Codec, text: string) returns (r: ReadResult)
    ensures r == ReadSession(codec, text)
  {
    if !("---\n" <= text) {
      return Unreadable;
    }
    var content := text[4..];
    var end := Index(content, "\n---\n");
    if end == -1 {
      return Unreadable;
    }
    var front := codec.decodeFront(content[..end]);
    if front.None? {
      return Unreadable;
    }
    var events := ParseEventsFromMarkdown(codec, content[end + 5..], front.value.createdAt);
    r := if events.None? then ReadPanics else Loaded(front.value, events.value);
  }
}
