/** Reading a session file undoes writing it, up to a normal form that a second save keeps. */
module SessionRoundTrip {
  import opened Text
  import opened SessionTypes
  import opened TokenEstimator
  import opened SessionMarkdown

  // ----- Which events survive -----

  /** No line of the content is taken for the header of another event. */
  predicate SafeContent(content: string) {
    forall l :: l in Lines(content) ==> !(HEADER_PREFIX <= l)
  }

  /** An ID the comment syntax can carry. */
  predicate SafeMsgId(id: string) {
    '\n' !in id && '*' !in id && !Contains(id, " -->") && !("-->" <= id)
  }

  predicate SafeSender(e: Event) {
    match e.kind
    case User => true
    case System => true
    case Cat =>
      && '\n' !in e.sender && ']' !in e.sender && '*' !in e.sender && '<' !in e.sender
      && e.sender != "用户" && e.sender != "系统" && !("调用:" <= e.sender)
    case Invocation =>
      && '\n' !in e.sender && ']' !in e.sender && '*' !in e.sender && '<' !in e.sender
      && !Contains(e.sender, INVOCATION_ID)
    case Other => false
  }

  /** An event whose header line is parsed back. */
  predicate SafeHeader(e: Event) {
    && e.eventNo >= 0
    && SafeSender(e)
    && SafeMsgId(e.msgId)
    && (e.kind.Invocation? ==>
          e.msgId == "" && '\n' !in e.invocationId && '*' !in e.invocationId && '<' !in e.invocationId)
  }

  predicate AllSafeHeaders(events: seq<Event>) {
    forall i :: 0 <= i < |events| ==> SafeHeader(events[i])
  }

  predicate AllSafeContents(events: seq<Event>) {
    forall i :: 0 <= i < |events| ==> SafeContent(events[i].content)
  }

  /** An event that one save keeps, and whose reloaded form the next save keeps too. */
  predicate Printable(e: Event) {
    SafeHeader(e) && SafeContent(e.content) && SafeContent(Trim(e.content))
  }

  predicate AllPrintable(events: seq<Event>) {
    forall i :: 0 <= i < |events| ==> Printable(events[i])
  }

  lemma {:induction false} PrintableIsSafe(events: seq<Event>)
    requires AllPrintable(events)
    ensures AllSafeHeaders(events) && AllSafeContents(events)
  {
  }

  /** What a reload makes of an event. */
  function Normal(e: Event): Event {
    var content := Trim(e.content);
    e.(sender := match e.kind case User => "用户" case System => "系统" case _ => e.sender,
       content := content,
       invocationId := if e.kind.Invocation? then Trim(e.invocationId) else "",
       timestamp := WholeSeconds(e.timestamp),
       tokenCount := Tokens(content))
  }

  function NormalEvents(events: seq<Event>): (r: seq<Event>)
    ensures |r| == |events| && forall i :: 0 <= i < |r| ==> r[i] == Normal(events[i])
  {
    seq(|events|, i requires 0 <= i < |events| => Normal(events[i]))
  }

  /**
   * An event as it was, but for white space around its content and its invocation ID, the fraction of its second,
   * and the names that the parser gives to users and to the system. Only invocations keep an invocation ID.
   */
  ghost predicate KeptEvent(e: Event, kept: Event) {
    && kept.eventNo == e.eventNo && kept.kind == e.kind && kept.msgId == e.msgId
    && kept.sender == (if e.kind == User then "用户" else if e.kind == System then "系统" else e.sender)
    && kept.content == Trim(e.content) && kept.tokenCount == Tokens(Trim(e.content))
    && kept.invocationId == (if e.kind == Invocation then Trim(e.invocationId) else "")
    && kept.timestamp == e.timestamp - e.timestamp % 1000000000
  }

  lemma {:induction false} NormalKeepsEvent(e: Event)
    ensures KeptEvent(e, Normal(e))
  {
  }

  // ----- Header lines -----

  lemma {:induction false} DigitPrefixOfDigits(s: string)
    requires AllDigits(s)
    ensures DigitPrefix(s) == s
  {
    if s != [] {
      DigitPrefixOfDigits(s[1..]);
      assert [s[0]] + s[1..] == s;
    }
  }

  lemma {:induction false} ScanOfDecimal(n: nat)
    ensures ScanInt(Decimal(n)) == n
  {
    DecimalDenotes(n);
    DigitPrefixOfDigits(Decimal(n));
  }

  lemma {:induction false} TagChars(s: string, tag: string, i: nat)
    requires CAT_TAG <= tag && i + |tag| <= |s| && s[i..i + |tag|] == tag
    ensures s[i] == '*' && s[i + 1] == '*' && s[i + 2] == '['
  {
    assert s[i] == tag[0] && s[i + 1] == tag[1] && s[i + 2] == tag[2];
  }

  /** Tags are only found at the front of a label, because nothing behind has a star followed by one. */
  lemma {:induction false} TagOnlyAtFront(x: string, tail: string, tag: string)
    requires '*' !in x && '*' !in tail && (tail != [] ==> tail[0] == ' ')
    requires CAT_TAG <= tag
    ensures Contains(CAT_TAG + x + "]**" + tail, tag) <==> tag <= CAT_TAG + x + "]**" + tail
    ensures tag <= CAT_TAG + x + "]**" + tail ==> Index(CAT_TAG + x + "]**" + tail, tag) == 0
  {
    var s := CAT_TAG + x + "]**" + tail;
    assert forall j :: 0 <= j < |s| && s[j] == '*' ==> j < 2 || |x| + 4 <= j < |x| + 6;
    assert s[2] == '[' && (|s| > |x| + 6 ==> s[|x| + 6] == ' ');
    var i := Index(s, tag);
    if i >= 0 {
      TagChars(s, tag, i);
    }
  }

  /** A closed tag at the front names exactly the label's own name. */
  lemma {:induction false} ClosedTagMatches(x: string, tail: string, y: string)
    requires ']' !in x && ']' !in y
    ensures CAT_TAG + y + "]**" <= CAT_TAG + x + "]**" + tail <==> x == y
  {
    var s := CAT_TAG + x + "]**" + tail;
    var t := CAT_TAG + y + "]**";
    assert s[3..] == x + "]" + ("**" + tail);
    IndexAfter(x, "]", "**" + tail);
    if t <= s {
      assert s == t + s[|t|..];
      assert s[3..] == y + "]" + ("**" + s[|t|..]);
      IndexAfter(y, "]", "**" + s[|t|..]);
      assert x == s[3..][..|x|] && y == s[3..][..|y|];
    }
    if x == y {
      assert s == t + tail;
    }
  }

  lemma {:induction false} ContainsClosedTag(x: string, tail: string, y: string)
    requires '*' !in x && ']' !in x && '*' !in tail && (tail != [] ==> tail[0] == ' ') && ']' !in y
    ensures Contains(CAT_TAG + x + "]**" + tail, CAT_TAG + y + "]**") <==> x == y
  {
    assert CAT_TAG + y + "]**" == CAT_TAG + (y + "]**");
    TagOnlyAtFront(x, tail, CAT_TAG + y + "]**");
    ClosedTagMatches(x, tail, y);
  }

  lemma {:induction false} CatTagName(x: string, tail: string)
    requires '*' !in x && ']' !in x && '*' !in tail && (tail != [] ==> tail[0] == ' ')
    ensures Contains(CAT_TAG + x + "]**" + tail, CAT_TAG) && TagName(CAT_TAG + x + "]**" + tail, CAT_TAG) == x
  {
    var rest := CAT_TAG + x + "]**" + tail;
    assert rest == CAT_TAG + (x + "]**" + tail);
    TagOnlyAtFront(x, tail, CAT_TAG);
    assert rest[|CAT_TAG|..] == x + "]**" + tail;
    IndexAfter(x, "]**", tail);
  }

  /** The kinds that a label "**[x]**…" is not. */
  lemma {:induction false} ClassifyLabel(x: string, tail: string)
    requires '*' !in x && ']' !in x && '*' !in tail && (tail != [] ==> tail[0] == ' ')
    ensures Contains(CAT_TAG + x + "]**" + tail, USER_TAG) <==> x == "用户"
    ensures Contains(CAT_TAG + x + "]**" + tail, SYSTEM_TAG) <==> x == "系统"
  {
    ContainsClosedTag(x, tail, "用户");
    assert USER_TAG == CAT_TAG + "用户" + "]**";
    ContainsClosedTag(x, tail, "系统");
    assert SYSTEM_TAG == CAT_TAG + "系统" + "]**";
  }

  /** What follows a name in front of a bracket reaches into the bracket or is part of the name. */
  lemma {:induction false} PrefixOfName(x: string, z: string, y: string)
    requires ']' !in y && z != [] && z[0] == ']'
    ensures y <= x + z <==> y <= x
  {
    assert (x + z)[|x|] == ']' && (x + z)[..|x|] == x;
    if |y| <= |x| {
      assert (x + z)[..|y|] == x[..|y|];
    } else {
      assert y[|x|] != ']';
    }
  }

  lemma {:induction false} OpenTagMatches(x: string, tail: string, y: string)
    requires ']' !in y
    ensures CAT_TAG + y <= CAT_TAG + x + "]**" + tail <==> y <= x
  {
    var z := "]**" + tail;
    Associative(CAT_TAG + x, "]**", tail);
    Associative(CAT_TAG, x, z);
    PrefixOfName(x, z, y);
    assert CAT_TAG + y <= CAT_TAG + (x + z) <==> y <= x + z by {
      var s := CAT_TAG + (x + z);
      assert s[3..] == x + z;
      if CAT_TAG + y <= s {
        assert y == s[3..3 + |y|] == (x + z)[..|y|];
      }
    }
  }

  lemma {:induction false} NameBehindTag(tag: string, name: string, tail: string)
    requires ']' !in name && Index(tag + (name + "]**" + tail), tag) == 0
    ensures TagName(tag + (name + "]**" + tail), tag) == name
  {
    IndexAfter(name, "]**", tail);
    assert (tag + (name + "]**" + tail))[|tag|..] == name + "]**" + tail;
  }

  lemma {:induction false} InvocationLabel(x: string, tail: string)
    requires '*' !in x && ']' !in x && '*' !in tail && (tail != [] ==> tail[0] == ' ')
    ensures var rest := CAT_TAG + x + "]**" + tail;
            && (Contains(rest, INVOCATION_TAG) <==> "调用:" <= x)
            && ("调用:" <= x ==> TagName(rest, INVOCATION_TAG) == x[3..])
  {
    assert INVOCATION_TAG == CAT_TAG + "调用:";
    TagOnlyAtFront(x, tail, INVOCATION_TAG);
    OpenTagMatches(x, tail, "调用:");
    if "调用:" <= x {
      var name := x[3..];
      assert x == "调用:" + name;
      Associative(CAT_TAG, "调用:", name);
      Associative(INVOCATION_TAG, name, "]**");
      Associative(INVOCATION_TAG, name + "]**", tail);
      NameBehindTag(INVOCATION_TAG, name, tail);
    }
  }

  /** The end of a comment is looked for from its start on. */
  lemma {:induction false} CommentEndAt(id: string)
    requires SafeMsgId(id)
    ensures Index("<!--" + (" " + id + " -->"), " -->") == |id| + 5
  {
    IndexOfEnd(id, " -->");
    IndexShifts("<!--", " " + id + " -->", " -->");
  }

  /** The comment after a label without '<' gives the message ID back. */
  lemma {:induction false} ScanOfComment(front: string, id: string)
    requires '<' !in front && SafeMsgId(id)
    ensures ScanMsgId(front + " <!-- " + id + " -->") == MsgId(id)
  {
    CommentParts(front, id);
    IndexAfter(front + " ", "<!-- ", id + " -->");
    CommentEndAt(id);
  }

  lemma {:induction false} CommentParts(front: string, id: string)
    ensures var rest := front + " <!-- " + id + " -->";
            && rest == (front + " ") + "<!-- " + (id + " -->")
            && rest[|front| + 1..] == "<!--" + (" " + id + " -->")
            && rest[|front| + 6..|front| + 6 + |id|] == id
  {
    assert " <!-- " == " " + "<!-- " && "<!-- " == "<!--" + " ";
    Associative(front + " <!-- ", id, " -->");
    Associative(front, " ", "<!-- ");
    Associative("<!--", " ", id + " -->");
    Associative(" ", id, " -->");
    Associative(front + " ", "<!-- ", id + " -->");
  }

  /** The name between the brackets of a label. */
  function LabelName(e: Event): string {
    match e.kind
    case User => "用户"
    case System => "系统"
    case Invocation => "调用:" + e.sender
    case _ => e.sender
  }

  /** What the parser sees behind the closing bracket once the line is trimmed. */
  function LabelTail(e: Event): string {
    if e.kind.Invocation? then " " + INVOCATION_ID + TrimRight(e.invocationId) else MsgIdComment(e)
  }

  function TrimmedLabel(e: Event): string {
    CAT_TAG + LabelName(e) + "]**" + LabelTail(e)
  }

  lemma {:induction false} LabelParts(e: Event)
    requires !e.kind.Other? && (e.kind.Invocation? ==> e.msgId == "")
    ensures Label(e) == if e.kind.Invocation?
                        then CAT_TAG + LabelName(e) + "]**" + (" " + INVOCATION_ID + e.invocationId)
                        else TrimmedLabel(e)
  {
    match e.kind
    case User => assert USER_TAG == CAT_TAG + "用户" + "]**";
    case System => assert SYSTEM_TAG == CAT_TAG + "系统" + "]**";
    case Cat =>
    case Invocation =>
      assert INVOCATION_TAG == CAT_TAG + "调用:";
      assert Label(e) == CAT_TAG + ("调用:" + e.sender) + "]**" + (" " + INVOCATION_ID + e.invocationId);
  }

  lemma {:induction false} TrimOfLabel(e: Event)
    requires !e.kind.Other? && (e.kind.Invocation? ==> e.msgId == "")
    ensures Trim(" " + Label(e)) == TrimmedLabel(e)
  {
    LabelParts(e);
    if e.kind.Invocation? {
      TrimOfInvocation(CAT_TAG + LabelName(e) + "]**", e.invocationId);
    } else {
      CommentEnds(e);
      TrimPadding(" ", TrimmedLabel(e), []);
      TrimOfTrimmed(TrimmedLabel(e));
      assert " " + TrimmedLabel(e) + [] == " " + TrimmedLabel(e);
    }
  }

  lemma {:induction false} TrimOfInvocation(bracket: string, id: string)
    requires bracket != [] && !IsSpace(bracket[0])
    ensures Trim(" " + (bracket + (" " + INVOCATION_ID + id)))
         == bracket + (" " + INVOCATION_ID + TrimRight(id))
  {
    var mark := " " + INVOCATION_ID;
    Associative(bracket, mark, id);
    Associative(" ", bracket + mark, id);
    TrimTail(bracket + mark, id);
    Associative(bracket, mark, TrimRight(id));
  }

  lemma {:induction false} CommentEnds(e: Event)
    ensures !e.kind.Invocation? ==> Trimmed(TrimmedLabel(e))
  {
    var t := TrimmedLabel(e);
    assert t[0] == '*';
    if !e.kind.Invocation? {
      assert t[|t| - 1] == if e.msgId == "" then '*' else '>';
    }
  }

  /** The name and the tail meet what the tag lemmas ask for. */
  lemma {:induction false} LabelIsSafe(e: Event)
    requires SafeHeader(e)
    ensures ']' !in LabelName(e) && '*' !in LabelName(e)
    ensures '*' !in LabelTail(e) && (LabelTail(e) != [] ==> LabelTail(e)[0] == ' ')
  {
    TrimRightSplits(e.invocationId);
  }

  lemma {:induction false} InvocationLabelIsSafe(e: Event)
    requires e.kind.Invocation? && SafeSender(e) && '*' !in e.invocationId
    ensures ']' !in LabelName(e) && '*' !in LabelName(e)
    ensures '*' !in LabelTail(e) && LabelTail(e)[0] == ' '
  {
    TrimRightSplits(e.invocationId);
  }

  lemma {:induction false} ClassifyOther(e: Event, blank: Event)
    requires SafeHeader(e) && !e.kind.Invocation?
    ensures Classify(blank, TrimmedLabel(e)) == blank.(kind := e.kind, sender := Normal(e).sender)
  {
    LabelIsSafe(e);
    ClassifyLabel(LabelName(e), LabelTail(e));
    InvocationLabel(LabelName(e), LabelTail(e));
    CatTagName(LabelName(e), LabelTail(e));
    assert "用户"[0] != "系统"[0];
  }

  lemma {:induction false} ClassifyInvocation(e: Event, blank: Event)
    requires e.kind.Invocation? && SafeSender(e) && '*' !in e.invocationId
    ensures Classify(blank, TrimmedLabel(e))
         == blank.(kind := Invocation, sender := e.sender, invocationId := Trim(e.invocationId))
  {
    InvocationTags(e);
    InvocationIdBack(e);
    ClassifyShows(blank, TrimmedLabel(e), e.sender, Trim(e.invocationId));
  }

  lemma {:induction false} ClassifyShows(e: Event, rest: string, sender: string, id: string)
    requires !Contains(rest, USER_TAG) && !Contains(rest, SYSTEM_TAG)
    requires Contains(rest, INVOCATION_TAG) && Contains(rest, INVOCATION_ID)
    requires TagName(rest, INVOCATION_TAG) == sender
    requires Trim(rest[Index(rest, INVOCATION_ID) + |INVOCATION_ID|..]) == id
    ensures Classify(e, rest) == e.(kind := Invocation, sender := sender, invocationId := id)
  {
  }

  lemma {:induction false} InvocationTags(e: Event)
    requires e.kind.Invocation? && SafeSender(e) && '*' !in e.invocationId
    ensures var rest := TrimmedLabel(e);
            && !Contains(rest, USER_TAG) && !Contains(rest, SYSTEM_TAG)
            && Contains(rest, INVOCATION_TAG) && TagName(rest, INVOCATION_TAG) == e.sender
  {
    InvocationLabelIsSafe(e);
    InvocationName(e);
    ClassifyLabel(LabelName(e), LabelTail(e));
    InvocationLabel(LabelName(e), LabelTail(e));
  }

  lemma {:induction false} InvocationName(e: Event)
    requires e.kind.Invocation?
    ensures "调用:" <= LabelName(e) && LabelName(e)[3..] == e.sender
    ensures LabelName(e) != "用户" && LabelName(e) != "系统"
  {
    assert LabelName(e)[0] == '调' && "用户"[0] != '调' && "系统"[0] != '调';
  }

  /** The marker "invocation_id=" is found where it was printed. */
  lemma {:induction false} InvocationIdBack(e: Event)
    requires e.kind.Invocation? && !Contains(e.sender, INVOCATION_ID)
    ensures var rest := TrimmedLabel(e);
            && Contains(rest, INVOCATION_ID)
            && Trim(rest[Index(rest, INVOCATION_ID) + |INVOCATION_ID|..]) == Trim(e.invocationId)
  {
    var t := TrimRight(e.invocationId);
    InvocationLabelSplit(e.sender, t);
    IndexBehindName(CAT_TAG + "调用:", e.sender, ']', "** ", INVOCATION_ID, t);
    TrimOfTrimRight(e.invocationId);
  }

  lemma {:induction false} InvocationLabelSplit(sender: string, t: string)
    ensures var rest := CAT_TAG + ("调用:" + sender) + "]**" + (" " + INVOCATION_ID + t);
            && rest == CAT_TAG + "调用:" + (sender + [']'] + ("** " + INVOCATION_ID + t))
            && |rest| == |CAT_TAG + "调用:"| + |sender| + 4 + |INVOCATION_ID| + |t|
            && rest[|rest| - |t|..] == t
  {
    Associative(CAT_TAG, "调用:", sender);
    Associative("** ", INVOCATION_ID, t);
    Associative(" ", INVOCATION_ID, t);
    var tail := INVOCATION_ID + t;
    assert "]**" + (" " + tail) == [']'] + ("** " + tail);
    Associative(CAT_TAG + ("调用:" + sender), "]**", " " + tail);
    Associative(CAT_TAG + "调用:", sender, [']'] + ("** " + tail));
    Associative(sender, [']'], "** " + tail);
  }

  lemma {:induction false} MsgIdBack(e: Event)
    requires SafeHeader(e)
    ensures ScanMsgId(TrimmedLabel(e)) == if e.msgId == "" then NoMsgId else MsgId(e.msgId)
  {
    var front := CAT_TAG + LabelName(e) + "]**";
    NoAngleInName(e);
    if e.msgId == "" {
      assert '<' !in front + LabelTail(e);
      NoCommentFound(front + LabelTail(e));
    } else {
      ScanOfComment(front, e.msgId);
      Associative(" <!-- ", e.msgId, " -->");
      Associative(front, " <!-- ", e.msgId + " -->");
      Associative(front + " <!-- ", e.msgId, " -->");
      Associative(front, " <!-- " + e.msgId, " -->");
      Associative(front, " <!-- ", e.msgId);
    }
  }

  lemma {:induction false} NoAngleInName(e: Event)
    requires SafeHeader(e)
    ensures '<' !in LabelName(e) && (e.msgId == "" ==> '<' !in LabelTail(e))
  {
    TrimRightSplits(e.invocationId);
  }

  lemma {:induction false} NoCommentFound(rest: string)
    requires '<' !in rest
    ensures ScanMsgId(rest) == NoMsgId
  {
    assert rest + [] == rest;
    IndexShifts(rest, [], "<!-- ");
  }

  /** What a header line alone says about its event. */
  function HeaderForm(e: Event): Event {
    Normal(e).(content := "", tokenCount := 0)
  }

  /** The number is cut off at the first space, the time at the first bracket. */
  lemma {:induction false} HeaderFields(number: string, ts: string, tail: string)
    requires AllDigits(number) && ']' !in ts
    ensures var rest := number + " " + ("[" + ts + "]" + tail);
            && Index(rest, " ") == |number| && rest[..|number|] == number
            && rest[|number| + 1..] == "[" + ts + "]" + tail
    ensures var rest := "[" + ts + "]" + tail;
            && Index(rest, "]") == |ts| + 1 && rest[0] == '['
            && rest[1..|ts| + 1] == ts && rest[|ts| + 2..] == tail
  {
    CutAt(number, " ", "[" + ts + "]" + tail);
    CutAt("[" + ts, "]", tail);
  }

  lemma {:induction false} HeaderLineSplit(codec: Codec, e: Event)
    requires !e.kind.Other? && e.eventNo >= 0
    ensures var rest := Decimal(e.eventNo) + " " + ("[" + codec.formatTime(e.timestamp) + "]" + (" " + Label(e)));
            HeaderLine(codec, e) == HEADER_PREFIX + rest && HeaderLine(codec, e)[5..] == rest
  {
    var number, ts, l := Decimal(e.eventNo), codec.formatTime(e.timestamp), Label(e);
    assert " [" == " " + "[" && "] " == "]" + " ";
    Associative("[" + ts, "]", " " + l);
    Associative("]", " ", l);
    Associative("[", ts, "] " + l);
    Associative(number, " ", "[" + (ts + ("] " + l)));
    Associative(" ", "[", ts + ("] " + l));
    Associative(" [", ts, "] " + l);
    Associative(number, " [" + ts, "] " + l);
    Associative(number, " [", ts);
    Associative(HEADER_PREFIX, number + " [" + ts, "] " + l);
    Associative(HEADER_PREFIX, number + " [", ts);
    Associative(HEADER_PREFIX, number, " [");
    Associative(HEADER_PREFIX + number + " [" + ts, "] ", l);
  }

  lemma {:induction false} ClassifyBack(e: Event, blank: Event)
    requires SafeHeader(e)
    ensures Classify(blank, TrimmedLabel(e))
         == blank.(kind := e.kind, sender := Normal(e).sender,
                   invocationId := if e.kind.Invocation? then Trim(e.invocationId) else blank.invocationId)
  {
    if e.kind.Invocation? {
      ClassifyInvocation(e, blank);
    } else {
      ClassifyOther(e, blank);
    }
  }

  lemma {:induction false} LabelRoundTrip(e: Event, blank: Event)
    requires SafeHeader(e) && blank.msgId == "" && blank.invocationId == ""
    ensures ParseLabel(blank, TrimmedLabel(e))
         == Header(blank.(kind := e.kind, sender := Normal(e).sender, msgId := e.msgId,
                          invocationId := Normal(e).invocationId))
  {
    MsgIdBack(e);
    ClassifyBack(e, blank);
  }

  lemma {:induction false} StampedRoundTrip(codec: Codec, baseDate: Time, ts: string, t: Time, tail: string, blank: Event)
    requires ']' !in ts && codec.parseTime(ts) == Some(t)
    ensures ParseStamped(codec, baseDate, blank, "[" + ts + "]" + tail)
         == ParseLabel(blank.(timestamp := t), Trim(tail))
  {
    HeaderFields("", ts, tail);
  }

  /** A header line is parsed back. */
  lemma {:induction false} HeaderRoundTrip(codec: Codec, baseDate: Time, e: Event)
    requires Lawful(codec) && SafeHeader(e)
    ensures HEADER_PREFIX <= HeaderLine(codec, e)
    ensures ParseHeader(codec, baseDate, HeaderLine(codec, e)) == Header(HeaderForm(e))
  {
    DecimalDenotes(e.eventNo);
    HeaderLineSplit(codec, e);
    var ts := codec.formatTime(e.timestamp);
    HeaderFields(Decimal(e.eventNo), ts, " " + Label(e));
    ScanOfDecimal(e.eventNo);
    var numbered := BLANK_EVENT.(eventNo := e.eventNo);
    StampedRoundTrip(codec, baseDate, ts, WholeSeconds(e.timestamp), " " + Label(e), numbered);
    TrimOfLabel(e);
    LabelRoundTrip(e, numbered.(timestamp := WholeSeconds(e.timestamp)));
  }

  // ----- Bodies -----

  lemma {:induction false} ScanOfConcat(codec: Codec, baseDate: Time, s: Scan, a: seq<string>, b: seq<string>)
    ensures ScanLines(codec, baseDate, s, a + b)
         == ScanLines(codec, baseDate, ScanLines(codec, baseDate, s, a), b)
    decreases |a|
  {
    if a == [] {
      assert a + b == b;
    } else {
      assert (a + b)[1..] == a[1..] + b && (a + b)[0] == a[0];
      ScanOfConcat(codec, baseDate, ScanLine(codec, baseDate, s, a[0]), a[1..], b);
    }
  }

  /** Lines that are no headers pile up behind the current header. */
  lemma {:induction false} ScanOfContent(codec: Codec, baseDate: Time, s: Scan, lines: seq<string>)
    requires s.Scan? && s.current.Some?
    requires forall l :: l in lines ==> !(HEADER_PREFIX <= l)
    ensures ScanLines(codec, baseDate, s, lines) == s.(content := s.content + lines)
    decreases |lines|
  {
    if lines == [] {
      assert s.content + lines == s.content;
    } else {
      var t := ScanLine(codec, baseDate, s, lines[0]);
      assert lines[0] in lines;
      assert forall l :: l in lines[1..] ==> l in lines;
      ScanOfContent(codec, baseDate, t, lines[1..]);
      assert s.content + [lines[0]] + lines[1..] == s.content + lines;
    }
  }

  /** The lines one printed event contributes, without the empty line its last newline opens. */
  function EventLines(codec: Codec, e: Event): seq<string>
    requires !e.kind.Other?
  {
    [HeaderLine(codec, e), ""] + Lines(e.content) + [""]
  }

  lemma {:induction false} HeaderHasNoNewline(codec: Codec, e: Event)
    requires Lawful(codec) && SafeHeader(e)
    ensures '\n' !in HeaderLine(codec, e)
  {
    LabelHasNoNewline(e);
    DecimalDenotes(e.eventNo);
    var number, ts, l := Decimal(e.eventNo), codec.formatTime(e.timestamp), Label(e);
    assert '\n' !in number && '\n' !in ts;
    assert HeaderLine(codec, e) == HEADER_PREFIX + number + " [" + ts + "] " + l;
  }

  lemma {:induction false} LabelHasNoNewline(e: Event)
    requires SafeHeader(e)
    ensures '\n' !in Label(e)
  {
    assert '\n' !in MsgIdComment(e);
  }

  lemma {:induction false} LinesOfPrinted(codec: Codec, e: Event, rest: string)
    requires Lawful(codec) && SafeHeader(e)
    ensures Lines(PrintEvent(codec, e) + rest) == EventLines(codec, e) + Lines(rest)
  {
    var h, c := HeaderLine(codec, e), e.content;
    HeaderHasNoNewline(codec, e);
    PrintedParts(h, c, rest);
    LinesOfConcat(h, "" + "\n" + (c + "\n" + ("" + "\n" + rest)));
    LinesOfConcat("", c + "\n" + ("" + "\n" + rest));
    LinesOfConcat(c, "" + "\n" + rest);
    LinesOfConcat("", rest);
    LinesOfOne(h);
    var e1: seq<string> := [""];
    Associative([h], e1, Lines(c) + (e1 + Lines(rest)));
    assert [h] + e1 == [h, ""];
    Associative([h, ""], Lines(c), e1 + Lines(rest));
    Associative([h, ""] + Lines(c), e1, Lines(rest));
  }

  lemma {:induction false} PrintedParts(h: string, c: string, rest: string)
    ensures h + "\n\n" + c + "\n\n" + rest == h + "\n" + ("" + "\n" + (c + "\n" + ("" + "\n" + rest)))
  {
    var n := "\n";
    assert "\n\n" == n + n && "" + n == n;
    Associative(n, n, rest);
    Associative(c, n, n + rest);
    Associative(c, n, n);
    Associative(c + n, n, rest);
    Associative(n, c, n + (n + rest));
    Associative(h, n + n, c);
    Associative(h + n, n, c);
    Associative(h, n, n);
    Associative(h + n, n, c + n + (n + rest));
    Associative(h, n, n + (c + n + (n + rest)));
    Associative(h + n + n, c, n + n);
    Associative(h + n + n, c + (n + n), rest);
    Associative(c, n + n, rest);
    Associative(n, n, rest);
    Associative(h + n, n, c + (n + n + rest));
  }

  /** A printed event closes the one before it and leaves itself open. */
  lemma {:induction false} ScanOfEvent(codec: Codec, baseDate: Time, s: Scan, e: Event)
    requires Lawful(codec) && SafeHeader(e) && SafeContent(e.content) && s.Scan?
    ensures ScanLines(codec, baseDate, s, EventLines(codec, e))
         == Scan(Flushed(s), Some(HeaderForm(e)), [""] + Lines(e.content) + [""])
  {
    HeaderRoundTrip(codec, baseDate, e);
    PaddingIsSafe(e.content);
    ScanOfBlock(codec, baseDate, s, HeaderLine(codec, e), HeaderForm(e), [""] + Lines(e.content) + [""]);
    var h, empty: seq<string> := [HeaderLine(codec, e)], [""];
    assert h + empty == [HeaderLine(codec, e), ""];
    Associative(h, empty, Lines(e.content));
    Associative(h, empty + Lines(e.content), empty);
  }

  lemma {:induction false} PaddingIsSafe(content: string)
    requires SafeContent(content)
    ensures forall l :: l in [""] + Lines(content) + [""] ==> !(HEADER_PREFIX <= l)
  {
  }

  lemma {:induction false} ScanOfBlock(codec: Codec, baseDate: Time, s: Scan, h: string, e: Event, content: seq<string>)
    requires s.Scan? && HEADER_PREFIX <= h && ParseHeader(codec, baseDate, h) == Header(e)
    requires forall l :: l in content ==> !(HEADER_PREFIX <= l)
    ensures ScanLines(codec, baseDate, s, [h] + content) == Scan(Flushed(s), Some(e), content)
  {
    ScanOfConcat(codec, baseDate, s, [h], content);
    var open := Scan(Flushed(s), Some(e), []);
    assert ScanLines(codec, baseDate, s, [h]) == open;
    ScanOfContent(codec, baseDate, open, content);
    assert open.content + content == content;
  }

  /** Empty lines around the content do not change the closed event. */
  lemma {:induction false} CloseOfPadded(e: Event, content: string)
    ensures Close(e, [""] + Lines(content) + [""]) == e.(content := Trim(content), tokenCount := Tokens(Trim(content)))
  {
    JoinOfConcat([""] + Lines(content), [""]);
    JoinOfConcat([""], Lines(content));
    JoinOfLines(content);
    assert JoinLines([""] + Lines(content) + [""]) == "\n" + content + "\n";
    TrimPadding("\n", content, "\n");
  }

  lemma {:induction false} CloseIgnoresEmptyLine(e: Event, content: seq<string>)
    ensures Close(e, content + [""]) == Close(e, content)
  {
    if content == [] {
      assert content + [""] == [""];
    } else {
      JoinOfConcat(content, [""]);
      var text := JoinLines(content);
      TrimPadding([], text, "\n");
      assert [] + text + "\n" == JoinLines(content + [""]);
    }
  }

  lemma {:induction false} ScanAddsNormal(codec: Codec, baseDate: Time, s: Scan, e: Event)
    requires Lawful(codec) && SafeHeader(e) && SafeContent(e.content) && s.Scan?
    ensures var t := ScanLines(codec, baseDate, s, EventLines(codec, e));
            t.Scan? && Flushed(t) == Flushed(s) + [Normal(e)]
  {
    ScanOfEvent(codec, baseDate, s, e);
    CloseOfPadded(HeaderForm(e), e.content);
  }

  lemma {:induction false} NormalEventsCons(events: seq<Event>)
    requires events != []
    ensures NormalEvents(events) == [Normal(events[0])] + NormalEvents(events[1..])
  {
  }

  lemma {:induction false} ScanOfNextPrinted(codec: Codec, baseDate: Time, s: Scan, events: seq<Event>)
    requires Lawful(codec) && events != [] && SafeHeader(events[0])
    ensures ScanLines(codec, baseDate, s, Lines(PrintEvents(codec, events)))
         == ScanLines(codec, baseDate, ScanLines(codec, baseDate, s, EventLines(codec, events[0])),
                      Lines(PrintEvents(codec, events[1..])))
  {
    LinesOfPrinted(codec, events[0], PrintEvents(codec, events[1..]));
    ScanOfConcat(codec, baseDate, s, EventLines(codec, events[0]), Lines(PrintEvents(codec, events[1..])));
  }

  /** Scanning printed events appends their normal forms, whatever was open before. */
  lemma {:induction false} ScanOfPrinted(codec: Codec, baseDate: Time, s: Scan, events: seq<Event>)
    requires Lawful(codec) && AllSafeHeaders(events) && AllSafeContents(events) && s.Scan?
    ensures var t := ScanLines(codec, baseDate, s, Lines(PrintEvents(codec, events)));
            t.Scan? && Flushed(t) == Flushed(s) + NormalEvents(events)
    decreases |events|
  {
    if events == [] {
      ScanOfNothing(codec, baseDate, s);
      assert Flushed(s) + NormalEvents(events) == Flushed(s);
    } else {
      var e, rest := events[0], events[1..];
      ScanOfNextPrinted(codec, baseDate, s, events);
      ScanAddsNormal(codec, baseDate, s, e);
      ScanOfPrinted(codec, baseDate, ScanLines(codec, baseDate, s, EventLines(codec, e)), rest);
      NormalEventsCons(events);
      Associative(Flushed(s), [Normal(e)], NormalEvents(rest));
    }
  }

  lemma {:induction false} ScanOfNothing(codec: Codec, baseDate: Time, s: Scan)
    requires s.Scan?
    ensures var t := ScanLines(codec, baseDate, s, Lines(""));
            t.Scan? && Flushed(t) == Flushed(s)
  {
    assert Lines("") == [""];
    assert ScanLines(codec, baseDate, s, [""]) == ScanLine(codec, baseDate, s, "");
    if s.current.Some? {
      CloseIgnoresEmptyLine(s.current.value, s.content);
    }
  }

  /** The empty line behind the front matter is skipped. */
  lemma {:induction false} ScanSkipsBlank(codec: Codec, baseDate: Time, text: string)
    ensures ScanLines(codec, baseDate, FRESH_SCAN, Lines("\n" + text))
         == ScanLines(codec, baseDate, FRESH_SCAN, Lines(text))
  {
    assert ("\n" + text)[1..] == text;
    assert Lines("\n" + text)[1..] == Lines(text);
    assert ScanLine(codec, baseDate, FRESH_SCAN, "") == FRESH_SCAN;
  }

  /** One save and one read give events without header-like lines back in normal form. */
  lemma {:induction false} BodyRoundTrip(codec: Codec, baseDate: Time, events: seq<Event>)
    requires Lawful(codec) && AllSafeHeaders(events) && AllSafeContents(events)
    ensures ParsedEvents(codec, baseDate, "\n" + PrintEvents(codec, events)) == Some(NormalEvents(events))
  {
    ScanSkipsBlank(codec, baseDate, PrintEvents(codec, events));
    ScanOfPrinted(codec, baseDate, FRESH_SCAN, events);
    assert FRESH_SCAN.events + NormalEvents(events) == NormalEvents(events);
  }

  // ----- Files -----

  /** The front matter is closed by the first bare rule, which is the one the printer wrote. */
  lemma {:induction false} RuleClosesFrontMatter(d: string, rest: string)
    requires FrontMatter(d)
    ensures Index(d[..|d| - 1] + "\n---\n" + rest, "\n---\n") == |d| - 1
  {
    var front, p := d[..|d| - 1], "\n---\n";
    var s := front + p + rest;
    assert d == front + "\n";
    forall j: nat | j < |front| ensures !OccursAt(s, p, j) {
      RuleIsNotEarly(d, rest, j);
    }
    assert s[|front|..|front| + 5] == p;
    IndexUnique(s, p, |front|);
  }

  lemma {:induction false} RuleIsNotEarly(d: string, rest: string, j: nat)
    requires FrontMatter(d) && j < |d| - 1
    ensures !OccursAt(d[..|d| - 1] + "\n---\n" + rest, "\n---\n", j)
  {
    var p := "\n---\n";
    var s := d[..|d| - 1] + p + rest;
    assert forall i :: 0 <= i < |d| ==> s[i] == d[i];
    if OccursAt(s, p, j) {
      assert forall i :: j <= i < j + 5 ==> s[i] == s[j..j + 5][i - j] == p[i - j];
      assert s[j] == '\n' && s[j + 1] == '-' && s[j + 2] == '-' && s[j + 3] == '-' && s[j + 4] == '\n';
      assert j + 4 < |d|;
      assert d[j + 1..j + 4] == "---";
      assert d == d[..j] + "\n" + ("---" + "\n" + d[j + 5..]);
      BareRuleIsALine(d[..j], d[j + 5..]);
    }
  }

  lemma {:induction false} BareRuleIsALine(x: string, y: string)
    ensures "---" in Lines(x + "\n" + ("---" + "\n" + y))
  {
    LinesOfConcat(x, "---" + "\n" + y);
    LinesOfConcat("---", y);
    LinesOfOne("---");
    assert (Lines(x) + (["---"] + Lines(y)))[|Lines(x)|] == "---";
  }

  lemma {:induction false} FrontIsDecoded(codec: Codec, r: Record)
    requires Lawful(codec)
    ensures var d := codec.encodeFront(r);
            FrontMatter(d) && d == d[..|d| - 1] + "\n" && codec.decodeFront(d[..|d| - 1]) == Some(NormalRecord(r))
  {
  }

  /** Reading a written file comes down to parsing its body: the front matter always comes back. */
  lemma {:induction false} ReadOfText(codec: Codec, r: Record, events: seq<Event>)
    requires Lawful(codec)
    ensures ReadSession(codec, SessionText(codec, r, events))
         == match ParsedEvents(codec, NormalRecord(r).createdAt, "\n" + PrintEvents(codec, events))
            case None => ReadPanics
            case Some(parsed) => Loaded(NormalRecord(r), parsed)
  {
    var d, body := codec.encodeFront(r), "\n" + PrintEvents(codec, events);
    var front := d[..|d| - 1];
    FrontIsDecoded(codec, r);
    TextParts(d, front, PrintEvents(codec, events));
    RuleClosesFrontMatter(d, body);
    ReadOfParts(codec, SessionText(codec, r, events), front, body);
  }

  /** Reading undoes writing: record and events come back in normal form. */
  lemma {:induction false} FileRoundTrip(codec: Codec, r: Record, events: seq<Event>)
    requires Lawful(codec) && AllSafeHeaders(events) && AllSafeContents(events)
    ensures ReadSession(codec, SessionText(codec, r, events)) == Loaded(NormalRecord(r), NormalEvents(events))
  {
    ReadOfText(codec, r, events);
    BodyRoundTrip(codec, NormalRecord(r).createdAt, events);
  }

  /** What a file keeps: each field of the record and of each event, in order. */
  lemma {:induction false} FileKeeps(codec: Codec, r: Record, events: seq<Event>)
    requires Lawful(codec) && AllSafeHeaders(events) && AllSafeContents(events)
    ensures var read := ReadSession(codec, SessionText(codec, r, events));
            && read.Loaded? && KeptRecord(r, read.record) && |read.events| == |events|
            && forall i :: 0 <= i < |events| ==> KeptEvent(events[i], read.events[i])
  {
    FileRoundTrip(codec, r, events);
    NormalKeepsRecord(r);
    forall i | 0 <= i < |events| ensures KeptEvent(events[i], NormalEvents(events)[i]) {
      NormalKeepsEvent(events[i]);
    }
  }

  lemma {:induction false} ReadOfParts(codec: Codec, text: string, front: string, body: string)
    requires RULE <= text && text[4..] == front + "\n---\n" + body
    requires Index(front + "\n---\n" + body, "\n---\n") == |front| && codec.decodeFront(front).Some?
    ensures var r := codec.decodeFront(front).value;
            ReadSession(codec, text) == match ParsedEvents(codec, r.createdAt, body)
                                        case None => ReadPanics
                                        case Some(events) => Loaded(r, events)
  {
    var content := front + "\n---\n" + body;
    assert content[..|front|] == front && content[|front| + 5..] == body;
  }

  lemma {:induction false} TextParts(d: string, front: string, printed: string)
    requires d == front + "\n"
    ensures var text := RULE + d + RULE + "\n" + printed;
            var content := front + "\n---\n" + ("\n" + printed);
            RULE <= text && text[4..] == content
            && content[..|front|] == front && content[|front| + 5..] == "\n" + printed
  {
    Associative(RULE, d, RULE);
    Associative(RULE, d + RULE, "\n");
    Associative(RULE, d + RULE + "\n", printed);
    Associative(d + RULE, "\n", printed);
    assert "\n" + RULE == "\n---\n";
    Associative(front, "\n", RULE);
  }

  // ----- The normal form -----

  lemma {:induction false} NormalHeaderIsSafe(e: Event)
    requires SafeHeader(e)
    ensures SafeHeader(Normal(e))
  {
    if e.kind.Invocation? {
      TrimOnlyRemoves(e.invocationId, '\n');
      TrimOnlyRemoves(e.invocationId, '*');
      TrimOnlyRemoves(e.invocationId, '<');
    }
  }

  lemma {:induction false} NormalIdempotent(e: Event)
    ensures Normal(Normal(e)) == Normal(e)
  {
    TrimIdempotent(e.content);
    TrimIdempotent(e.invocationId);
    WholeSecondsIdempotent(e.timestamp);
  }

  lemma {:induction false} NormalIsPrintable(e: Event)
    requires Printable(e)
    ensures Printable(Normal(e))
  {
    NormalHeaderIsSafe(e);
    TrimIdempotent(e.content);
  }

  /** A reloaded session is a fixed point: saving and loading it again changes nothing. */
  lemma {:induction false} SecondRoundTripIsIdentity(codec: Codec, r: Record, events: seq<Event>)
    requires Lawful(codec) && AllPrintable(events)
    ensures var r', events' := NormalRecord(r), NormalEvents(events);
            AllPrintable(events') && ReadSession(codec, SessionText(codec, r', events')) == Loaded(r', events')
  {
    NormalRecordIdempotent(r);
    NormalEventsIdempotent(events);
    PrintableIsSafe(NormalEvents(events));
    FileRoundTrip(codec, NormalRecord(r), NormalEvents(events));
  }

  lemma {:induction false} NormalEventsIdempotent(events: seq<Event>)
    requires AllPrintable(events)
    ensures AllPrintable(NormalEvents(events)) && NormalEvents(NormalEvents(events)) == NormalEvents(events)
  {
    forall i | 0 <= i < |events| ensures Printable(Normal(events[i])) && Normal(Normal(events[i])) == Normal(events[i]) {
      NormalIsPrintable(events[i]);
      NormalIdempotent(events[i]);
    }
  }
}
