/** The history of a prompt (src/session_chain_context.go:221-252): which events it prints whole. */
module PromptHistory {
  import opened Text
  import opened Selections
  import opened SessionTypes
  import opened TokenEstimator

  // ----- Texts that were cut between two bytes -----

  /** A character of a Go string, or the first bytes of one whose rest was cut off. */
  datatype Glyph = Whole(c: char) | Partial(c: char, bytes: nat)

  /** The bytes of a character in UTF-8. */
  function Utf8Length(c: char): (n: nat)
    ensures 1 <= n <= 4
  {
    if c as int < 0x80 then 1 else if c as int < 0x800 then 2 else if c as int < 0x10000 then 3 else 4
  }

  /** The characters that the token estimate counts double are those of more than one byte. */
  lemma {:induction false} WideIsMultiByte(c: char)
    ensures IsWide(c) <==> Utf8Length(c) > 1
  {
  }

  /** Go's len. */
  function Bytes(s: string): nat {
    if s == [] then 0 else Utf8Length(s[0]) + Bytes(s[1..])
  }

  function Glyphs(s: string): (g: seq<Glyph>)
    ensures |g| == |s| && forall i :: 0 <= i < |s| ==> g[i] == Whole(s[i])
  {
    seq(|s|, i requires 0 <= i < |s| => Whole(s[i]))
  }

  /** s[:n], which may end inside a character. */
  function Cut(s: string, n: nat): seq<Glyph> {
    if n == 0 || s == [] then []
    else if Utf8Length(s[0]) <= n then [Whole(s[0])] + Cut(s[1..], n - Utf8Length(s[0]))
    else [Partial(s[0], n)]
  }

  function GlyphBytes(g: seq<Glyph>): nat {
    if g == [] then 0
    else (match g[0] case Whole(c) => Utf8Length(c) case Partial(_, n) => n) + GlyphBytes(g[1..])
  }

  /** A cut keeps exactly as many bytes as it is asked to keep. */
  lemma {:induction false} CutKeepsBytes(s: string, n: nat)
    ensures GlyphBytes(Cut(s, n)) == if n < Bytes(s) then n else Bytes(s)
  {
    if n > 0 && s != [] && Utf8Length(s[0]) <= n {
      CutKeepsBytes(s[1..], n - Utf8Length(s[0]));
    }
  }

  lemma {:induction false} BytesOfConcat(a: string, b: string)
    ensures Bytes(a + b) == Bytes(a) + Bytes(b)
  {
    if a == [] {
      assert a + b == b;
    } else {
      assert (a + b)[1..] == a[1..] + b;
      BytesOfConcat(a[1..], b);
    }
  }

  /** Behind exactly n bytes of whole characters, a cut falls between two characters. */
  lemma {:induction false} CutBetween(a: string, b: string)
    ensures Cut(a + b, Bytes(a)) == Glyphs(a)
  {
    if a != [] {
      assert (a + b)[1..] == a[1..] + b;
      CutBetween(a[1..], b);
    }
  }

  /** A cut without a broken character is a front part of that many bytes. */
  lemma {:induction false} CutOfWholes(s: string, n: nat, a: string)
    requires Cut(s, n) == Glyphs(a) && n <= Bytes(s)
    ensures a <= s && Bytes(a) == n
  {
    if n > 0 {
      assert Glyphs(a)[0] == Cut(s, n)[0];
      assert Glyphs(a)[1..] == Glyphs(a[1..]) == Cut(s[1..], n - Utf8Length(s[0]));
      CutOfWholes(s[1..], n - Utf8Length(s[0]), a[1..]);
    } else {
      assert a == [];
    }
  }

  // ----- The line of one event -----

  const MAX_CONTENT := 500
  const CUT_MARK := "...(已截断)"

  function Shortened(content: string): seq<Glyph> {
    if Bytes(content) > MAX_CONTENT then Cut(content, MAX_CONTENT) + Glyphs(CUT_MARK) else Glyphs(content)
  }

  function Tag(e: Event): string {
    match e.kind
    case User => "[用户] "
    case Cat => "[" + e.sender + "] "
    case System => "[系统] "
    case Invocation => "[" + e.sender + ":调用] "
    case Other => ""
  }

  /** What the loop writes for one event: nothing for a kind that the switch does not know. */
  function HistoryLine(e: Event): seq<Glyph> {
    match e.kind
    case Other => []
    case _ =>
      Glyphs(Tag(e)) + (if e.kind.Cat? || e.kind.Invocation? then Shortened(e.content) else Glyphs(e.content)) + Glyphs("\n")
  }

  function HistoryLines(events: seq<Event>): seq<Glyph> {
    if events == [] then [] else HistoryLines(events[..|events| - 1]) + HistoryLine(events[|events| - 1])
  }

  predicate IsSpaceGlyph(g: Glyph) {
    g.Whole? && IsSpace(g.c)
  }

  function TrimGlyphsLeft(g: seq<Glyph>): seq<Glyph> {
    if g != [] && IsSpaceGlyph(g[0]) then TrimGlyphsLeft(g[1..]) else g
  }

  function TrimGlyphsRight(g: seq<Glyph>): seq<Glyph> {
    if g != [] && IsSpaceGlyph(g[|g| - 1]) then TrimGlyphsRight(g[..|g| - 1]) else g
  }

  function History(events: seq<Event>): seq<Glyph> {
    TrimGlyphsRight(TrimGlyphsLeft(HistoryLines(events)))
  }

  /** The line of one event: 500 bytes of what an agent said or was called with, and the mark, if there are more. */
  ghost predicate IsHistoryLine(line: seq<Glyph>, e: Event) {
    match e.kind
    case User => line == Glyphs("[用户] " + e.content + "\n")
    case System => line == Glyphs("[系统] " + e.content + "\n")
    case Cat => IsCutLine(line, "[" + e.sender + "] ", e.content)
    case Invocation => IsCutLine(line, "[" + e.sender + ":调用] ", e.content)
    case Other => line == []
  }

  ghost predicate IsCutLine(line: seq<Glyph>, tag: string, content: string) {
    if Bytes(content) <= 500 then line == Glyphs(tag + content + "\n")
    else exists part: seq<Glyph> :: IsFrontOf(part, content) && GlyphBytes(part) == 500
           && line == Glyphs(tag) + part + Glyphs("...(已截断)\n")
  }

  /** The first characters of a text; of the last one perhaps only its first bytes. */
  ghost predicate IsFrontOf(part: seq<Glyph>, content: string) {
    && |part| <= |content|
    && forall i :: 0 <= i < |part| ==>
         || part[i] == Whole(content[i])
         || (i == |part| - 1 && part[i].Partial? && part[i].c == content[i] && 0 < part[i].bytes < Utf8Length(content[i]))
  }

  lemma {:induction false} CutIsFront(s: string, n: nat)
    ensures IsFrontOf(Cut(s, n), s)
  {
    if n > 0 && s != [] && Utf8Length(s[0]) <= n {
      CutIsFront(s[1..], n - Utf8Length(s[0]));
    }
  }

  lemma {:induction false} CutLine(tag: string, content: string)
    ensures IsCutLine(Glyphs(tag) + Shortened(content) + Glyphs("\n"), tag, content)
  {
    if Bytes(content) > 500 {
      var part := Cut(content, 500);
      CutIsFront(content, 500);
      CutKeepsBytes(content, 500);
      assert Glyphs("...(已截断)\n") == Glyphs(CUT_MARK) + Glyphs("\n");
      Associative(part, Glyphs(CUT_MARK), Glyphs("\n"));
      assert Glyphs(tag) + Shortened(content) + Glyphs("\n") == Glyphs(tag) + part + Glyphs("...(已截断)\n");
    } else {
      WholeLine(tag, content);
    }
  }

  lemma {:induction false} WholeLine(tag: string, content: string)
    ensures Glyphs(tag) + Glyphs(content) + Glyphs("\n") == Glyphs(tag + content + "\n")
  {
  }

  lemma {:induction false} LineIsHistoryLine(e: Event)
    ensures IsHistoryLine(HistoryLine(e), e)
  {
    match e.kind {
      case User => WholeLine("[用户] ", e.content);
      case System => WholeLine("[系统] ", e.content);
      case Cat => CutLine("[" + e.sender + "] ", e.content);
      case Invocation => CutLine("[" + e.sender + ":调用] ", e.content);
      case Other =>
    }
  }

  /** A line for each event, in order. */
  ghost predicate AreHistoryLines(lines: seq<seq<Glyph>>, events: seq<Event>) {
    |lines| == |events| && forall i :: 0 <= i < |events| ==> IsHistoryLine(lines[i], events[i])
  }

  lemma {:induction false} HistoryLinesNext(lines: seq<seq<Glyph>>, events: seq<Event>, line: seq<Glyph>)
    requires events != [] && AreHistoryLines(lines, events[..|events| - 1]) && IsHistoryLine(line, events[|events| - 1])
    ensures AreHistoryLines(lines + [line], events)
  {
    forall i | 0 <= i < |events| ensures IsHistoryLine((lines + [line])[i], events[i]) {
      if i < |events| - 1 {
        assert IsHistoryLine(lines[i], events[..|events| - 1][i]);
      }
    }
  }

  lemma {:induction false} LinesOfHistory(events: seq<Event>) returns (lines: seq<seq<Glyph>>)
    ensures AreHistoryLines(lines, events) && HistoryLines(events) == Joined(lines)
  {
    lines := [];
    if events != [] {
      var n := |events| - 1;
      var line := HistoryLine(events[n]);
      var init := LinesOfHistory(events[..n]);
      LineIsHistoryLine(events[n]);
      JoinedNext(init, line);
      HistoryLinesNext(init, events, line);
      lines := init + [line];
    }
  }

  /** The events' lines in order, but for white space that ends the last of them. */
  ghost predicate IsHistory(history: seq<Glyph>, events: seq<Event>) {
    exists lines: seq<seq<Glyph>> :: AreHistoryLines(lines, events) && TrimmedTo(Joined(lines), history)
  }

  ghost predicate TrimmedTo(text: seq<Glyph>, history: seq<Glyph>) {
    && history <= text && (forall i :: |history| <= i < |text| ==> IsSpaceGlyph(text[i]))
    && (history != [] ==> !IsSpaceGlyph(history[|history| - 1]))
  }

  lemma {:induction false} HistoryIsHistory(events: seq<Event>)
    ensures IsHistory(History(events), events)
  {
    var lines := LinesOfHistory(events);
    HistoryIsItsLines(events);
    TrimmedAtEnd(TrimGlyphsLeft(HistoryLines(events)));
  }

  lemma {:induction false} TrimmedAtEnd(g: seq<Glyph>)
    ensures var t := TrimGlyphsRight(g);
            t != [] ==> !IsSpaceGlyph(t[|t| - 1])
  {
    if g != [] && IsSpaceGlyph(g[|g| - 1]) {
      TrimmedAtEnd(g[..|g| - 1]);
    }
  }

  /** The loop over the events. */
  method WriteHistoryLines(events: seq<Event>) returns (sb: seq<Glyph>)
    ensures sb == HistoryLines(events)
  {
    sb := [];
    for i := 0 to |events|
      invariant sb == HistoryLines(events[..i])
    {
      var e := events[i];
      assert events[..i + 1][..i] == events[..i];
      var content := Glyphs(e.content);
      match e.kind {
        case User =>
          sb := sb + (Glyphs("[用户] ") + content + Glyphs("\n"));
        case Cat =>
          if Bytes(e.content) > MAX_CONTENT {
            content := Cut(e.content, MAX_CONTENT) + Glyphs("...(已截断)");
          }
          sb := sb + (Glyphs("[" + e.sender + "] ") + content + Glyphs("\n"));
        case System =>
          sb := sb + (Glyphs("[系统] ") + content + Glyphs("\n"));
        case Invocation =>
          if Bytes(e.content) > MAX_CONTENT {
            content := Cut(e.content, MAX_CONTENT) + Glyphs("...(已截断)");
          }
          sb := sb + (Glyphs("[" + e.sender + ":调用] ") + content + Glyphs("\n"));
        case Other =>
          assert sb + [] == sb;
      }
    }
    assert events[..|events|] == events;
  }

  method FormatEventsAsHistory(events: seq<Event>) returns (history: seq<Glyph>)
    ensures history == History(events) && IsHistory(history, events)
  {
    HistoryIsHistory(events);
    if |events| == 0 {
      return [];
    }
    var sb := WriteHistoryLines(events);
    history := TrimGlyphsRight(TrimGlyphsLeft(sb));
  }

  // ----- What is printed whole -----

  /** The line of an event has all of its content. */
  predicate PrintedWhole(e: Event) {
    !e.kind.Other? && HistoryLine(e) == Glyphs(Tag(e)) + Glyphs(e.content) + Glyphs("\n")
  }

  /** A content of at most 500 bytes, or of 500 bytes and the very mark that replaces the rest. */
  predicate Fits(content: string) {
    || Bytes(content) <= MAX_CONTENT
    || (|content| >= |CUT_MARK| && content == Front(content) + CUT_MARK && Bytes(Front(content)) == MAX_CONTENT)
  }

  /** A content without as many characters at its end as the mark has. */
  function Front(content: string): string
    requires |content| >= |CUT_MARK|
  {
    content[..|content| - |CUT_MARK|]
  }

  lemma {:induction false} GlyphsOfConcat(a: string, b: string)
    ensures Glyphs(a + b) == Glyphs(a) + Glyphs(b)
  {
  }

  lemma {:induction false} GlyphsAreEqualIff(a: string, b: string)
    ensures Glyphs(a) == Glyphs(b) <==> a == b
  {
    if Glyphs(a) == Glyphs(b) {
      assert forall i :: 0 <= i < |a| ==> Glyphs(a)[i] == Glyphs(b)[i];
    }
  }

  lemma {:induction false} CutThenMark(content: string)
    requires Bytes(content) > MAX_CONTENT && Shortened(content) == Glyphs(content)
    ensures Fits(content)
  {
    var front := Front(content);
    var n := |front|;
    assert Cut(content, MAX_CONTENT) == Glyphs(content)[..n] == Glyphs(front);
    CutOfWholes(content, MAX_CONTENT, front);
    assert Glyphs(CUT_MARK) == Glyphs(content)[n..] == Glyphs(content[n..]);
    GlyphsAreEqualIff(CUT_MARK, content[n..]);
    assert content == front + content[n..];
  }

  /** A shortened content is the content itself exactly if it fits. */
  lemma {:induction false} ShortenedIsWholeIff(content: string)
    ensures Shortened(content) == Glyphs(content) <==> Fits(content)
  {
    if Bytes(content) > MAX_CONTENT {
      if Shortened(content) == Glyphs(content) {
        CutThenMark(content);
      }
      if Fits(content) {
        CutBetween(Front(content), CUT_MARK);
        GlyphsOfConcat(Front(content), CUT_MARK);
      }
    }
  }

  /** The exact events that a history prints whole. */
  predicate PrintsWhole(e: Event) {
    match e.kind
    case User => true
    case System => true
    case Cat => Fits(e.content)
    case Invocation => Fits(e.content)
    case Other => false
  }

  lemma {:induction false} MiddleIsEqualIff(a: seq<Glyph>, x: seq<Glyph>, y: seq<Glyph>, b: seq<Glyph>)
    ensures a + x + b == a + y + b <==> x == y
  {
    if a + x + b == a + y + b {
      assert |x| == |y|;
      assert x == (a + x + b)[|a|..|a| + |x|] && y == (a + y + b)[|a|..|a| + |y|];
    }
  }

  lemma {:induction false} PrintedWholeIff(e: Event)
    ensures PrintedWhole(e) <==> PrintsWhole(e)
  {
    if e.kind.Cat? || e.kind.Invocation? {
      MiddleIsEqualIff(Glyphs(Tag(e)), Shortened(e.content), Glyphs(e.content), Glyphs("\n"));
      ShortenedIsWholeIff(e.content);
    }
  }

  /** Apart from the events' lines, in order, the history only lacks white space at its end. */
  lemma {:induction false} HistoryIsItsLines(events: seq<Event>)
    ensures History(events) <= HistoryLines(events)
    ensures forall i :: |History(events)| <= i < |HistoryLines(events)| ==> IsSpaceGlyph(HistoryLines(events)[i])
  {
    var lines := HistoryLines(events);
    LinesStartInPrint(events);
    assert TrimGlyphsLeft(lines) == lines;
    TrimGlyphsRightSplits(lines);
  }

  lemma {:induction false} LinesStartInPrint(events: seq<Event>)
    ensures HistoryLines(events) != [] ==> HistoryLines(events)[0] == Whole('[')
  {
    if events != [] {
      LinesStartInPrint(events[..|events| - 1]);
      LineStartsInPrint(events[|events| - 1]);
    }
  }

  lemma {:induction false} LineStartsInPrint(e: Event)
    ensures HistoryLine(e) != [] ==> HistoryLine(e)[0] == Whole('[')
  {
    if !e.kind.Other? {
      assert Tag(e)[0] == '[' && Glyphs(Tag(e))[0] == Whole('[');
    }
  }

  lemma {:induction false} TrimGlyphsRightSplits(g: seq<Glyph>)
    ensures TrimGlyphsRight(g) <= g
    ensures forall i :: |TrimGlyphsRight(g)| <= i < |g| ==> IsSpaceGlyph(g[i])
  {
    if g != [] && IsSpaceGlyph(g[|g| - 1]) {
      TrimGlyphsRightSplits(g[..|g| - 1]);
    }
  }

  // ----- A content that does not fit -----

  lemma {:induction false} BytesOfAscii(s: string)
    requires forall i :: 0 <= i < |s| ==> s[i] as int < 0x80
    ensures Bytes(s) == |s|
  {
    if s != [] {
      BytesOfAscii(s[1..]);
    }
  }

  lemma {:induction false} BytesAreMore(s: string)
    ensures Bytes(s) >= |s|
  {
    if s != [] {
      BytesAreMore(s[1..]);
    }
  }

  /** 501 bytes are one too many, for the mark alone has more than one. */
  lemma {:induction false} OneByteTooMany(content: string)
    requires Bytes(content) == MAX_CONTENT + 1
    ensures !Fits(content)
  {
    if |content| >= |CUT_MARK| && content == Front(content) + CUT_MARK {
      BytesOfConcat(Front(content), CUT_MARK);
      BytesAreMore(CUT_MARK);
    }
  }
}
