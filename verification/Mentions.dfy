/** The @-mention parser of the free discussion mode (src/mode_free_discussion.go:76-145). */
module Mentions {
  import opened Text
  import opened Selections

  datatype AgentCall = AgentCall(agentName: string, prompt: string, sessionId: string, callerName: string)

  /** Mentions of the human are not calls. */
  const HUMAN := "铲屎官"

  // ----- What a text says, block by block -----

  /** A mention line and the lines behind it, up to the next one; all lines trimmed. */
  datatype Block = Block(header: string, body: seq<string>)

  predicate IsMention(line: string) {
    line != "" && line[0] == '@'
  }

  function TrimAll(lines: seq<string>): (r: seq<string>)
    ensures |r| == |lines| && forall i :: 0 <= i < |r| ==> r[i] == Trim(lines[i])
  {
    seq(|lines|, i requires 0 <= i < |lines| => Trim(lines[i]))
  }

  /** The blocks with one more line behind them. */
  function Extended(blocks: seq<Block>, line: string): seq<Block> {
    if IsMention(line) then blocks + [Block(line, [])]
    else if blocks == [] then []
    else
      var n := |blocks| - 1;
      blocks[n := blocks[n].(body := blocks[n].body + [line])]
  }

  function Blocks(lines: seq<string>): seq<Block> {
    if lines == [] then [] else Extended(Blocks(lines[..|lines| - 1]), lines[|lines| - 1])
  }

  /** The lines of blocks, one after the other. */
  function Unblocked(blocks: seq<Block>): seq<string> {
    if blocks == [] then []
    else
      var last := blocks[|blocks| - 1];
      Unblocked(blocks[..|blocks| - 1]) + ([last.header] + last.body)
  }

  predicate NoMention(lines: seq<string>) {
    forall i :: 0 <= i < |lines| ==> !IsMention(lines[i])
  }

  predicate IsBlock(b: Block) {
    IsMention(b.header) && NoMention(b.body)
  }

  /** Lines cut at their mentions: what comes before the first one, and a block for each. */
  ghost predicate Segmentation(lines: seq<string>, preamble: seq<string>, blocks: seq<Block>) {
    && lines == preamble + Unblocked(blocks)
    && NoMention(preamble)
    && forall i :: 0 <= i < |blocks| ==> IsBlock(blocks[i])
  }

  // ----- What a block asks for -----

  /** Where the name ends: at the first space, or with the line. */
  function NameEnd(header: string): (i: int)
    requires IsMention(header)
    ensures 0 <= i <= |header| - 1
  {
    var i := Index(header[1..], " ");
    if i < 0 then |header| - 1 else i
  }

  function Name(header: string): string
    requires IsMention(header)
  {
    Trim(header[1..][..NameEnd(header)])
  }

  /** The text behind the name, if a space follows the name. */
  function Inline(header: string): seq<string>
    requires IsMention(header)
  {
    if Index(header[1..], " ") < 0 then [] else [Trim(header[1..][NameEnd(header) + 1..])]
  }

  function NonEmpty(lines: seq<string>): seq<string> {
    if lines == [] then []
    else NonEmpty(lines[..|lines| - 1]) + if lines[|lines| - 1] == "" then [] else [lines[|lines| - 1]]
  }

  /** The non-empty pieces of a block's prompt. */
  function Pieces(b: Block): seq<string>
    requires IsMention(b.header)
  {
    NonEmpty(Inline(b.header) + b.body)
  }

  predicate Addressed(name: string, callerName: string) {
    name != "" && name != HUMAN && name != callerName
  }

  /** The calls of a list of blocks: those addressed to somebody, each with its pieces joined. */
  function CallsOf(blocks: seq<Block>, sessionId: string, callerName: string): seq<AgentCall>
    requires forall i :: 0 <= i < |blocks| ==> IsMention(blocks[i].header)
  {
    if blocks == [] then []
    else
      var last := blocks[|blocks| - 1];
      CallsOf(blocks[..|blocks| - 1], sessionId, callerName)
      + if Addressed(Name(last.header), callerName)
        then [AgentCall(Name(last.header), JoinLines(Pieces(last)), sessionId, callerName)] else []
  }

  function Calls(text: string, sessionId: string, callerName: string): seq<AgentCall> {
    BlocksAreBlocks(TrimAll(Lines(text)));
    CallsOf(Blocks(TrimAll(Lines(text))), sessionId, callerName)
  }

  lemma {:induction false} BlocksAreBlocks(lines: seq<string>)
    ensures forall i :: 0 <= i < |Blocks(lines)| ==> IsBlock(Blocks(lines)[i])
  {
    if lines != [] {
      BlocksAreBlocks(lines[..|lines| - 1]);
    }
  }

  // ----- What is called -----

  /** The words behind the @: the first one, and what stands behind the space that ends it. */
  ghost predicate Reads(header: string, first: string, rest: Option<string>) {
    ' ' !in first && header == "@" + first + if rest.Some? then " " + rest.value else ""
  }

  ghost predicate IsCalled(header: string, callerName: string) {
    exists first: string, rest: Option<string> ::
      Reads(header, first, rest) && Trim(first) != "" && Trim(first) != "铲屎官" && Trim(first) != callerName
  }

  /** The lines of a list that are not empty, in order. */
  ghost predicate ArePieces(pieces: seq<string>, lines: seq<string>) {
    exists picked: seq<nat> :: Exactly(picked, |lines|, Filled(lines)) && AreTaken(pieces, lines, picked)
  }

  ghost function Filled(lines: seq<string>): nat -> bool {
    (i: nat) => i < |lines| && lines[i] != ""
  }

  ghost predicate AreTaken(pieces: seq<string>, lines: seq<string>, picked: seq<nat>) {
    |pieces| == |picked| && forall j :: 0 <= j < |picked| ==> picked[j] < |lines| && pieces[j] == lines[picked[j]]
  }

  /** The call of the agent that a block names, with the rest of its header and its lines for a prompt. */
  ghost predicate IsCallOf(call: AgentCall, b: Block, sessionId: string, callerName: string) {
    && call.sessionId == sessionId && call.callerName == callerName
    && exists first: string, rest: Option<string>, pieces: seq<string> ::
         && Reads(b.header, first, rest) && call.agentName == Trim(first)
         && ArePieces(pieces, (if rest.Some? then [Trim(rest.value)] else []) + b.body)
         && call.prompt == JoinLines(pieces)
  }

  ghost function Calling(blocks: seq<Block>, callerName: string): nat -> bool {
    (i: nat) => i < |blocks| && IsCalled(blocks[i].header, callerName)
  }

  ghost predicate AreCallsOf(calls: seq<AgentCall>, blocks: seq<Block>, picked: seq<nat>, sessionId: string,
                             callerName: string) {
    |calls| == |picked|
    && forall j :: 0 <= j < |picked| ==> picked[j] < |blocks| && IsCallOf(calls[j], blocks[picked[j]], sessionId, callerName)
  }

  /** Each block that names an agent other than the caller is one call, in order, and there are no others. */
  ghost predicate CallsAre(calls: seq<AgentCall>, blocks: seq<Block>, sessionId: string, callerName: string) {
    exists picked: seq<nat> ::
      Exactly(picked, |blocks|, Calling(blocks, callerName)) && AreCallsOf(calls, blocks, picked, sessionId, callerName)
  }

  lemma {:induction false} HeaderReads(header: string) returns (first: string, rest: Option<string>)
    requires IsMention(header)
    ensures Reads(header, first, rest) && Name(header) == Trim(first)
    ensures Inline(header) == if rest.Some? then [Trim(rest.value)] else []
  {
    var line := header[1..];
    var i := Index(line, " ");
    assert header == "@" + line;
    IndexIsFirst(line, " ");
    first := line[..NameEnd(header)];
    forall j | 0 <= j < |first| ensures first[j] != ' ' {
      assert line[j..j + 1] == [line[j]];
      assert OccursAt(line, " ", j) <==> line[j] == ' ';
    }
    if i < 0 {
      rest := None;
      assert first == line && "@" + line + "" == header;
    } else {
      rest := Some(line[i + 1..]);
      assert line[i..i + 1] == " ";
      assert line == first + (" " + rest.value);
      Associative("@", first, " " + rest.value);
    }
  }

  /** The first word ends at the first space, or with the line. */
  lemma {:induction false} FirstEnds(line: string, first: string, rest: Option<string>)
    requires ' ' !in first && line == first + if rest.Some? then " " + rest.value else ""
    ensures var i := Index(line, " ");
            first == line[..if i < 0 then |line| else i]
  {
    if rest.Some? {
      Associative(first, " ", rest.value);
      IndexAfter(first, " ", rest.value);
    } else {
      IndexShifts(first, "", " ");
    }
  }

  /** A header can be read in one way only. */
  lemma {:induction false} SameReading(header: string, first: string, rest: Option<string>, first': string,
                                       rest': Option<string>)
    requires Reads(header, first, rest) && Reads(header, first', rest')
    ensures first == first'
  {
    assert header[1..] == first + if rest.Some? then " " + rest.value else "";
    FirstEnds(header[1..], first, rest);
    assert header[1..] == first' + if rest'.Some? then " " + rest'.value else "";
    FirstEnds(header[1..], first', rest');
  }

  lemma {:induction false} IsCalledIff(header: string, callerName: string)
    requires IsMention(header)
    ensures Addressed(Name(header), callerName) <==> IsCalled(header, callerName)
  {
    var first, rest := HeaderReads(header);
    if first': string, rest': Option<string> :|
      Reads(header, first', rest') && Trim(first') != "" && Trim(first') != "铲屎官" && Trim(first') != callerName
    {
      SameReading(header, first, rest, first', rest');
    }
  }

  ghost predicate AreFilledUpTo(pieces: seq<string>, lines: seq<string>, n: nat, picked: seq<nat>) {
    Exactly(picked, n, Filled(lines)) && AreTaken(pieces, lines, picked)
  }

  lemma {:induction false} FilledStay(pieces: seq<string>, lines: seq<string>, n: nat, picked: seq<nat>)
    requires n < |lines| && AreFilledUpTo(pieces, lines[..n], n, picked)
    ensures AreFilledUpTo(pieces, lines, n, picked)
  {
    forall i: nat | i < n ensures Filled(lines)(i) == Filled(lines[..n])(i) {
      assert lines[..n][i] == lines[i];
    }
  }

  lemma {:induction false} OneMoreFilled(pieces: seq<string>, lines: seq<string>, n: nat, picked: seq<nat>)
    requires n < |lines| && AreFilledUpTo(pieces, lines, n, picked) && lines[n] != ""
    ensures AreFilledUpTo(pieces + [lines[n]], lines, n + 1, picked + [n])
  {
    ExactlyTakes(picked, n, Filled(lines));
  }

  lemma {:induction false} NonEmptyTakes(lines: seq<string>) returns (picked: seq<nat>)
    ensures AreFilledUpTo(NonEmpty(lines), lines, |lines|, picked)
  {
    picked := [];
    if lines != [] {
      var n := |lines| - 1;
      picked := NonEmptyTakes(lines[..n]);
      FilledStay(NonEmpty(lines[..n]), lines, n, picked);
      if lines[n] != "" {
        OneMoreFilled(NonEmpty(lines[..n]), lines, n, picked);
        picked := picked + [n];
      } else {
        ExactlySkips(picked, n, Filled(lines));
      }
    }
  }

  lemma {:induction false} BlockIsCall(b: Block, sessionId: string, callerName: string)
    requires IsMention(b.header)
    ensures IsCallOf(AgentCall(Name(b.header), JoinLines(Pieces(b)), sessionId, callerName), b, sessionId, callerName)
  {
    var first, rest := HeaderReads(b.header);
    var picked := NonEmptyTakes(Inline(b.header) + b.body);
    assert ArePieces(Pieces(b), (if rest.Some? then [Trim(rest.value)] else []) + b.body);
  }

  lemma {:induction false} CallingStay(blocks: seq<Block>, n: nat, callerName: string, picked: seq<nat>)
    requires n < |blocks| && Exactly(picked, n, Calling(blocks[..n], callerName))
    ensures Exactly(picked, n, Calling(blocks, callerName))
  {
    forall i: nat | i < n ensures Calling(blocks, callerName)(i) == Calling(blocks[..n], callerName)(i) {
      assert blocks[..n][i] == blocks[i];
    }
  }

  ghost predicate AreCallsUpTo(calls: seq<AgentCall>, blocks: seq<Block>, n: nat, picked: seq<nat>,
                               sessionId: string, callerName: string) {
    Exactly(picked, n, Calling(blocks, callerName)) && AreCallsOf(calls, blocks, picked, sessionId, callerName)
  }

  lemma {:induction false} CallsUpToStay(calls: seq<AgentCall>, blocks: seq<Block>, n: nat, picked: seq<nat>,
                                         sessionId: string, callerName: string)
    requires n < |blocks| && AreCallsUpTo(calls, blocks[..n], n, picked, sessionId, callerName)
    ensures AreCallsUpTo(calls, blocks, n, picked, sessionId, callerName)
  {
    CallingStay(blocks, n, callerName, picked);
  }

  lemma {:induction false} OneMoreCall(calls: seq<AgentCall>, call: AgentCall, blocks: seq<Block>, n: nat, picked: seq<nat>,
                                       sessionId: string, callerName: string)
    requires n < |blocks| && AreCallsUpTo(calls, blocks, n, picked, sessionId, callerName)
    requires IsCalled(blocks[n].header, callerName) && IsCallOf(call, blocks[n], sessionId, callerName)
    ensures AreCallsUpTo(calls + [call], blocks, n + 1, picked + [n], sessionId, callerName)
  {
    ExactlyTakes(picked, n, Calling(blocks, callerName));
  }

  lemma {:induction false} NoMoreCall(calls: seq<AgentCall>, blocks: seq<Block>, n: nat, picked: seq<nat>,
                                      sessionId: string, callerName: string)
    requires n < |blocks| && AreCallsUpTo(calls, blocks, n, picked, sessionId, callerName) && !IsCalled(blocks[n].header, callerName)
    ensures AreCallsUpTo(calls, blocks, n + 1, picked, sessionId, callerName)
  {
    ExactlySkips(picked, n, Calling(blocks, callerName));
  }

  lemma {:induction false} CallsOfTakes(blocks: seq<Block>, sessionId: string, callerName: string) returns (picked: seq<nat>)
    requires forall i :: 0 <= i < |blocks| ==> IsMention(blocks[i].header)
    ensures AreCallsUpTo(CallsOf(blocks, sessionId, callerName), blocks, |blocks|, picked, sessionId, callerName)
  {
    picked := [];
    if blocks != [] {
      var n := |blocks| - 1;
      var before, b := CallsOf(blocks[..n], sessionId, callerName), blocks[n];
      picked := CallsOfTakes(blocks[..n], sessionId, callerName);
      CallsUpToStay(before, blocks, n, picked, sessionId, callerName);
      IsCalledIff(b.header, callerName);
      if Addressed(Name(b.header), callerName) {
        var call := AgentCall(Name(b.header), JoinLines(Pieces(b)), sessionId, callerName);
        BlockIsCall(b, sessionId, callerName);
        OneMoreCall(before, call, blocks, n, picked, sessionId, callerName);
        picked := picked + [n];
        assert CallsOf(blocks, sessionId, callerName) == before + [call];
      } else {
        NoMoreCall(before, blocks, n, picked, sessionId, callerName);
        assert CallsOf(blocks, sessionId, callerName) == before;
      }
    }
  }

  // ----- The segmentation exists and is the only one -----

  lemma {:induction false} UnblockedGrows(blocks: seq<Block>, line: string)
    requires blocks != []
    ensures var n := |blocks| - 1;
            Unblocked(blocks[n := blocks[n].(body := blocks[n].body + [line])]) == Unblocked(blocks) + [line]
  {
    var n := |blocks| - 1;
    var grown := blocks[n := blocks[n].(body := blocks[n].body + [line])];
    assert grown[..n] == blocks[..n];
    assert [blocks[n].header] + (blocks[n].body + [line]) == [blocks[n].header] + blocks[n].body + [line];
    Associative(Unblocked(blocks[..n]), [blocks[n].header] + blocks[n].body, [line]);
  }

  lemma {:induction false} UnblockedNext(blocks: seq<Block>, b: Block)
    ensures Unblocked(blocks + [b]) == Unblocked(blocks) + ([b.header] + b.body)
  {
    assert (blocks + [b])[..|blocks|] == blocks;
  }

  lemma {:induction false} UnblockedExtended(blocks: seq<Block>, line: string)
    requires IsMention(line) || blocks != []
    ensures Unblocked(Extended(blocks, line)) == Unblocked(blocks) + [line]
  {
    if IsMention(line) {
      UnblockedNext(blocks, Block(line, []));
      assert [line] + [] == [line];
    } else {
      UnblockedGrows(blocks, line);
    }
  }

  lemma {:induction false} ExtendedAreBlocks(blocks: seq<Block>, line: string)
    requires forall i :: 0 <= i < |blocks| ==> IsBlock(blocks[i])
    ensures forall i :: 0 <= i < |Extended(blocks, line)| ==> IsBlock(Extended(blocks, line)[i])
  {
  }

  /** One more line belongs to a new block, to the last block, or to what comes before the first one. */
  lemma {:induction false} SegmentationNext(lines: seq<string>, preamble: seq<string>, blocks: seq<Block>, line: string)
    requires Segmentation(lines, preamble, blocks)
    ensures var more := if IsMention(line) || blocks != [] then preamble else preamble + [line];
            Segmentation(lines + [line], more, Extended(blocks, line))
  {
    ExtendedAreBlocks(blocks, line);
    if IsMention(line) || blocks != [] {
      UnblockedExtended(blocks, line);
      Associative(preamble, Unblocked(blocks), [line]);
    } else {
      assert preamble + [] == preamble && preamble + [line] + [] == preamble + [line];
    }
  }

  /** Blocks cuts the lines at their mentions. */
  lemma {:induction false} BlocksSegment(lines: seq<string>) returns (preamble: seq<string>)
    ensures Segmentation(lines, preamble, Blocks(lines))
  {
    preamble := [];
    if lines != [] {
      var n := |lines| - 1;
      preamble := BlocksSegment(lines[..n]);
      SegmentationNext(lines[..n], preamble, Blocks(lines[..n]), lines[n]);
      assert lines[..n] + [lines[n]] == lines;
      if !IsMention(lines[n]) && Blocks(lines[..n]) == [] {
        preamble := preamble + [lines[n]];
      }
    }
  }

  /** A block at the end of a segmentation, without its last line. */
  function Shrunk(blocks: seq<Block>): seq<Block>
    requires blocks != [] && blocks[|blocks| - 1].body != []
  {
    var n := |blocks| - 1;
    var body := blocks[n].body;
    blocks[n := blocks[n].(body := body[..|body| - 1])]
  }

  /** And nothing else cuts them so. */
  lemma {:induction false} SegmentationIsUnique(lines: seq<string>, preamble: seq<string>, blocks: seq<Block>)
    requires Segmentation(lines, preamble, blocks)
    ensures blocks == Blocks(lines)
    decreases |lines|
  {
    if lines != [] {
      var n := |lines| - 1;
      if blocks == [] {
        assert lines == preamble && lines[..n] == preamble[..n] + Unblocked([]);
        SegmentationIsUnique(lines[..n], preamble[..n], []);
      } else {
        var m := |blocks| - 1;
        var last := blocks[m];
        var init := blocks[..m];
        assert blocks == init + [last];
        UnblockedNext(init, last);
        if last.body == [] {
          assert [last.header] + last.body == [last.header];
          Associative(preamble, Unblocked(init), [last.header]);
          assert lines[..n] == preamble + Unblocked(init) && lines[n] == last.header;
          SegmentationIsUnique(lines[..n], preamble, init);
        } else {
          var shrunk, line := Shrunk(blocks), last.body[|last.body| - 1];
          assert shrunk[m].body + [line] == last.body;
          UnblockedGrows(shrunk, line);
          assert shrunk[m := shrunk[m].(body := shrunk[m].body + [line])] == blocks;
          Associative(preamble, Unblocked(shrunk), [line]);
          assert lines[..n] == preamble + Unblocked(shrunk) && lines[n] == line;
          SegmentationIsUnique(lines[..n], preamble, shrunk);
        }
      }
    }
  }

  // ----- Joining pieces -----

  /** Pieces as they come out of a text: trimmed, not empty, on one line. */
  predicate Solid(pieces: seq<string>) {
    forall i :: 0 <= i < |pieces| ==> pieces[i] != "" && Trimmed(pieces[i]) && '\n' !in pieces[i]
  }

  lemma {:induction false} NonEmptyNext(lines: seq<string>, line: string)
    ensures NonEmpty(lines + [line]) == NonEmpty(lines) + if line == "" then [] else [line]
  {
    assert (lines + [line])[..|lines|] == lines;
  }

  lemma {:induction false} NonEmptyIsSolid(lines: seq<string>)
    requires forall i :: 0 <= i < |lines| ==> Trimmed(lines[i]) && '\n' !in lines[i]
    ensures Solid(NonEmpty(lines))
  {
    if lines != [] {
      NonEmptyIsSolid(lines[..|lines| - 1]);
    }
  }

  lemma {:induction false} NonEmptyOfSolid(pieces: seq<string>)
    requires Solid(pieces)
    ensures NonEmpty(pieces) == pieces
  {
    if pieces != [] {
      var n := |pieces| - 1;
      NonEmptyOfSolid(pieces[..n]);
      PrefixNext(pieces, n);
      assert pieces[..n + 1] == pieces;
    }
  }

  /** Joined pieces start and end in print, so that trimming them changes nothing. */
  lemma {:induction false} JoinOfSolid(pieces: seq<string>)
    requires Solid(pieces)
    ensures Trimmed(JoinLines(pieces)) && (JoinLines(pieces) == "" <==> pieces == [])
    ensures pieces != [] ==> Lines(JoinLines(pieces)) == pieces
  {
    if |pieces| == 1 {
      LinesOfOne(pieces[0]);
    } else if |pieces| > 1 {
      JoinOfSolid(pieces[1..]);
      LinesOfOne(pieces[0]);
      LinesOfConcat(pieces[0], JoinLines(pieces[1..]));
      assert [pieces[0]] + pieces[1..] == pieces;
    }
  }

  /** Appending a line to the prompt that is being built, with a newline if something is there already. */
  lemma {:induction false} JoinNext(pieces: seq<string>, line: string)
    requires Solid(pieces)
    ensures JoinLines(pieces + [line]) == if JoinLines(pieces) == "" then line else JoinLines(pieces) + "\n" + line
  {
    JoinOfSolid(pieces);
    if pieces != [] {
      JoinOfConcat(pieces, [line]);
    } else {
      assert pieces + [line] == [line];
    }
  }

  // ----- The parser -----

  lemma {:induction false} LinesAreTrimmed(text: string)
    ensures forall i :: 0 <= i < |Lines(text)| ==>
              Trimmed(Trim(Lines(text)[i])) && '\n' !in Trim(Lines(text)[i])
  {
    LinesHaveNoNewline(text);
    forall i | 0 <= i < |Lines(text)| ensures Trimmed(Trim(Lines(text)[i])) && '\n' !in Trim(Lines(text)[i]) {
      TrimIdempotent(Lines(text)[i]);
      TrimOnlyRemoves(Lines(text)[i], '\n');
    }
  }

  lemma {:induction false} InlineIsTrimmed(header: string)
    requires IsMention(header) && '\n' !in header
    ensures forall i :: 0 <= i < |Inline(header)| ==> Trimmed(Inline(header)[i]) && '\n' !in Inline(header)[i]
  {
    if Index(header[1..], " ") >= 0 {
      var rest := header[1..][NameEnd(header) + 1..];
      TrimIdempotent(rest);
      TrimOnlyRemoves(rest, '\n');
    }
  }

  predicate CleanLines(lines: seq<string>) {
    forall i :: 0 <= i < |lines| ==> Trimmed(lines[i]) && '\n' !in lines[i]
  }

  predicate CleanBlock(b: Block) {
    IsMention(b.header) && CleanLines([b.header]) && CleanLines(b.body)
  }

  lemma {:induction false} BlocksAreClean(lines: seq<string>)
    requires CleanLines(lines)
    ensures forall i :: 0 <= i < |Blocks(lines)| ==> CleanBlock(Blocks(lines)[i])
  {
    if lines != [] {
      BlocksAreClean(lines[..|lines| - 1]);
    }
  }

  lemma {:induction false} PiecesAreSolid(b: Block)
    requires CleanBlock(b)
    ensures Solid(Pieces(b))
  {
    assert '\n' !in [b.header][0];
    InlineIsTrimmed(b.header);
    NonEmptyIsSolid(Inline(b.header) + b.body);
  }

  /** What the loop's variables say about the blocks so far. */
  ghost predicate Scanned(blocks: seq<Block>, currentCat: string, currentPrompt: string, calls: seq<AgentCall>,
                          sessionId: string, callerName: string)
  {
    && (forall i :: 0 <= i < |blocks| ==> CleanBlock(blocks[i]))
    && if blocks == [] then currentCat == "" && calls == []
       else
         var n := |blocks| - 1;
         && currentCat == Name(blocks[n].header)
         && (currentCat != "" ==> currentPrompt == JoinLines(Pieces(blocks[n])))
         && calls == CallsOf(blocks[..n], sessionId, callerName)
  }

  /** Saving the current mention: the final trim changes nothing, for the pieces are trimmed already. */
  method SaveMention(currentCat: string, currentPrompt: string, calls: seq<AgentCall>, sessionId: string, callerName: string,
                     ghost blocks: seq<Block>)
    returns (r: seq<AgentCall>)
    requires Scanned(blocks, currentCat, currentPrompt, calls, sessionId, callerName)
    ensures r == CallsOf(blocks, sessionId, callerName)
  {
    r := calls;
    if currentCat != "" {
      PiecesAreSolid(blocks[|blocks| - 1]);
      JoinOfSolid(Pieces(blocks[|blocks| - 1]));
      TrimOfTrimmed(currentPrompt);
      var prompt := Trim(currentPrompt);
      if currentCat != HUMAN && currentCat != callerName {
        r := r + [AgentCall(currentCat, prompt, sessionId, callerName)];
      }
    }
  }

  method NewMention(line: string) returns (currentCat: string, currentPrompt: string)
    requires IsMention(line) && Trimmed(line) && '\n' !in line
    ensures currentCat == Name(line) && currentPrompt == JoinLines(Pieces(Block(line, [])))
  {
    var rest := line[1..];
    var i := Index(rest, " ");
    currentPrompt := "";
    if i < 0 {
      assert rest[..|line| - 1] == rest;
      currentCat := Trim(rest);
      assert Inline(line) + [] == [];
    } else {
      currentCat := Trim(rest[..i]);
      currentPrompt := Trim(rest[i + 1..]);
      assert Inline(line) + [] == [] + [currentPrompt];
      NonEmptyNext([], currentPrompt);
    }
  }

  /** The streaming parser finds exactly the calls of the text's blocks. */
  /** The calls of a text are those of the blocks that its trimmed lines are cut into at lines with an @. */
  lemma {:induction false} CallsAreParsed(text: string, sessionId: string, callerName: string)
    ensures exists preamble: seq<string>, blocks: seq<Block> ::
              && Segmentation(TrimAll(Lines(text)), preamble, blocks)
              && CallsAre(Calls(text, sessionId, callerName), blocks, sessionId, callerName)
  {
    var lines := TrimAll(Lines(text));
    var preamble := BlocksSegment(lines);
    BlocksAreBlocks(lines);
    var picked := CallsOfTakes(Blocks(lines), sessionId, callerName);
    assert CallsAre(Calls(text, sessionId, callerName), Blocks(lines), sessionId, callerName);
  }

  method ParseAtMentions(text: string, sessionId: string, callerName: string) returns (calls: seq<AgentCall>)
    ensures calls == Calls(text, sessionId, callerName)
    ensures exists preamble: seq<string>, blocks: seq<Block> ::
              && Segmentation(TrimAll(Lines(text)), preamble, blocks) && CallsAre(calls, blocks, sessionId, callerName)
  {
    CallsAreParsed(text, sessionId, callerName);
    calls := [];
    var lines := Lines(text);
    var currentCat, currentPrompt := "", "";
    ghost var trimmed := TrimAll(lines);
    ghost var blocks := [];
    LinesAreTrimmed(text);
    for i := 0 to |lines|
      invariant blocks == Blocks(trimmed[..i])
      invariant Scanned(blocks, currentCat, currentPrompt, calls, sessionId, callerName)
    {
      var line := Trim(lines[i]);
      BlocksNext(trimmed, i);
      if IsMention(line) {
        calls := SaveMention(currentCat, currentPrompt, calls, sessionId, callerName, blocks);
        currentCat, currentPrompt := NewMention(line);
        NextMention(blocks, line, currentCat, currentPrompt, calls, sessionId, callerName);
      } else {
        NextLine(blocks, line, currentCat, currentPrompt, calls, sessionId, callerName);
        if currentCat != "" && line != "" {
          if |currentPrompt| > 0 {
            currentPrompt := currentPrompt + "\n";
          }
          currentPrompt := currentPrompt + line;
        }
      }
      blocks := Extended(blocks, line);
    }
    assert trimmed[..|lines|] == trimmed;
    calls := SaveMention(currentCat, currentPrompt, calls, sessionId, callerName, blocks);
  }

  lemma {:induction false} BlocksNext(lines: seq<string>, i: nat)
    requires i < |lines|
    ensures Blocks(lines[..i + 1]) == Extended(Blocks(lines[..i]), lines[i])
  {
    assert lines[..i + 1][..i] == lines[..i];
  }

  lemma {:induction false} NextMention(before: seq<Block>, line: string, currentCat: string, currentPrompt: string,
                                       calls: seq<AgentCall>, sessionId: string, callerName: string)
    requires forall i :: 0 <= i < |before| ==> CleanBlock(before[i]) && IsMention(before[i].header)
    requires IsMention(line) && Trimmed(line) && '\n' !in line
    requires currentCat == Name(line) && currentPrompt == JoinLines(Pieces(Block(line, [])))
    requires calls == CallsOf(before, sessionId, callerName)
    ensures Scanned(Extended(before, line), currentCat, currentPrompt, calls, sessionId, callerName)
  {
    MentionOpens(before, line);
    ExtendedIsClean(before, line);
  }

  lemma {:induction false} MentionOpens(before: seq<Block>, line: string)
    requires IsMention(line)
    ensures var blocks := Extended(before, line);
            |blocks| == |before| + 1 && blocks[..|before|] == before && blocks[|before|] == Block(line, [])
  {
  }

  function PromptWith(prompt: string, line: string): string {
    (if |prompt| > 0 then prompt + "\n" else prompt) + line
  }

  lemma {:induction false} GrownPieces(b: Block, line: string)
    requires CleanBlock(b)
    ensures var grown := b.(body := b.body + [line]);
            JoinLines(Pieces(grown)) == if line == "" then JoinLines(Pieces(b)) else PromptWith(JoinLines(Pieces(b)), line)
  {
    PiecesAreSolid(b);
    Associative(Inline(b.header), b.body, [line]);
    NonEmptyNext(Inline(b.header) + b.body, line);
    if line == "" {
      assert Pieces(b) + [] == Pieces(b);
    } else {
      JoinNext(Pieces(b), line);
    }
  }

  lemma {:induction false} ExtendedIsClean(before: seq<Block>, line: string)
    requires forall i :: 0 <= i < |before| ==> CleanBlock(before[i])
    requires Trimmed(line) && '\n' !in line
    ensures forall i :: 0 <= i < |Extended(before, line)| ==> CleanBlock(Extended(before, line)[i])
  {
    if before != [] && !IsMention(line) {
      var n := |before| - 1;
      assert CleanBlock(before[n]);
      assert CleanBlock(before[n].(body := before[n].body + [line]));
    }
  }

  lemma {:induction false} NextLine(before: seq<Block>, line: string, currentCat: string, currentPrompt: string,
                                    calls: seq<AgentCall>, sessionId: string, callerName: string)
    requires Scanned(before, currentCat, currentPrompt, calls, sessionId, callerName)
    requires !IsMention(line) && Trimmed(line) && '\n' !in line
    ensures var prompt := if currentCat == "" || line == "" then currentPrompt else PromptWith(currentPrompt, line);
            Scanned(Extended(before, line), currentCat, prompt, calls, sessionId, callerName)
  {
    if before != [] {
      var n, after := |before| - 1, Extended(before, line);
      assert after[..n] == before[..n];
      assert after[n] == before[n].(body := before[n].body + [line]);
      ExtendedIsClean(before, line);
      GrownPieces(before[n], line);
    }
  }

  // ----- Rendering calls and parsing them back -----

  /** A prompt that a text can carry: no empty or padded line, and no line but the first looks like a mention. */
  predicate CarriedPrompt(prompt: string) {
    prompt == "" || (Solid(Lines(prompt)) && NoMention(Lines(prompt)[1..]))
  }

  predicate CarriedName(name: string, callerName: string) {
    Addressed(name, callerName) && Trimmed(name) && ' ' !in name && '\n' !in name
  }

  predicate Carried(call: AgentCall, sessionId: string, callerName: string) {
    && CarriedName(call.agentName, callerName) && CarriedPrompt(call.prompt)
    && call.sessionId == sessionId && call.callerName == callerName
  }

  function RenderCall(call: AgentCall): string {
    "@" + call.agentName + " " + call.prompt
  }

  function Render(calls: seq<AgentCall>): string {
    if calls == [] then ""
    else if |calls| == 1 then RenderCall(calls[0])
    else Render(calls[..|calls| - 1]) + "\n" + RenderCall(calls[|calls| - 1])
  }

  /** The pieces of a block that came out of a text make a prompt that a text can carry. */
  lemma {:induction false} PromptOfBlockIsCarried(b: Block)
    requires CleanBlock(b) && NoMention(b.body)
    ensures CarriedPrompt(JoinLines(Pieces(b)))
  {
    PiecesAreSolid(b);
    JoinOfSolid(Pieces(b));
    PiecesBehindFirst(Inline(b.header), b.body);
  }

  lemma {:induction false} PiecesBehindFirst(inline: seq<string>, body: seq<string>)
    requires |inline| <= 1 && NoMention(body)
    ensures NonEmpty(inline + body) != [] ==> NoMention(NonEmpty(inline + body)[1..])
  {
    if body == [] {
      assert inline + body == inline;
    } else {
      var n := |body| - 1;
      PiecesBehindFirst(inline, body[..n]);
      assert (inline + body)[..|inline| + n] == inline + body[..n] && (inline + body)[|inline| + n] == body[n];
    }
  }

  lemma {:induction false} NameIsCarried(header: string, callerName: string)
    requires IsMention(header) && '\n' !in header && Addressed(Name(header), callerName)
    ensures CarriedName(Name(header), callerName)
  {
    var rest, i := header[1..], Index(header[1..], " ");
    var name := rest[..NameEnd(header)];
    IndexIsFirst(rest, " ");
    forall j | 0 <= j < |name| ensures name[j] != ' ' {
      assert rest[j..j + 1] == " " ==> OccursAt(rest, " ", j);
    }
    TrimIdempotent(name);
    TrimOnlyRemoves(name, ' ');
    TrimOnlyRemoves(name, '\n');
  }

  /** Every call that comes out of a text is such that a text can carry it. */
  lemma {:induction false} CallsAreCarried(blocks: seq<Block>, sessionId: string, callerName: string)
    requires forall i :: 0 <= i < |blocks| ==> CleanBlock(blocks[i]) && IsBlock(blocks[i]) && IsMention(blocks[i].header)
    ensures forall i :: 0 <= i < |CallsOf(blocks, sessionId, callerName)| ==>
              Carried(CallsOf(blocks, sessionId, callerName)[i], sessionId, callerName)
  {
    if blocks != [] {
      var last := blocks[|blocks| - 1];
      CallsAreCarried(blocks[..|blocks| - 1], sessionId, callerName);
      if Addressed(Name(last.header), callerName) {
        assert '\n' !in [last.header][0];
        NameIsCarried(last.header, callerName);
        PromptOfBlockIsCarried(last);
      }
    }
  }

  lemma {:induction false} ParsedCallsAreCarried(text: string, sessionId: string, callerName: string)
    ensures forall i :: 0 <= i < |Calls(text, sessionId, callerName)| ==>
              Carried(Calls(text, sessionId, callerName)[i], sessionId, callerName)
  {
    LinesAreTrimmed(text);
    BlocksAreClean(TrimAll(Lines(text)));
    BlocksAreBlocks(TrimAll(Lines(text)));
    CallsAreCarried(Blocks(TrimAll(Lines(text))), sessionId, callerName);
  }

  lemma {:induction false} FirstOfConcat(a: seq<string>, b: seq<string>)
    requires NoMention(a) && (a + b == [] || IsMention((a + b)[0]))
    ensures a == []
  {
  }

  /** A mention starts a new block whatever comes before it. */
  lemma {:induction false} BlocksOfConcat(a: seq<string>, b: seq<string>)
    requires b == [] || IsMention(b[0])
    ensures Blocks(a + b) == Blocks(a) + Blocks(b)
  {
    var pa := BlocksSegment(a);
    var pb := BlocksSegment(b);
    FirstOfConcat(pb, Unblocked(Blocks(b)));
    UnblockedOfConcat(Blocks(a), Blocks(b));
    assert pb + Unblocked(Blocks(b)) == Unblocked(Blocks(b));
    Associative(pa, Unblocked(Blocks(a)), Unblocked(Blocks(b)));
    SegmentationIsUnique(a + b, pa, Blocks(a) + Blocks(b));
  }

  lemma {:induction false} UnblockedOfConcat(a: seq<Block>, b: seq<Block>)
    ensures Unblocked(a + b) == Unblocked(a) + Unblocked(b)
  {
    if b == [] {
      assert a + b == a;
    } else {
      var n := |b| - 1;
      assert (a + b)[..|a + b| - 1] == a + b[..n];
      UnblockedOfConcat(a, b[..n]);
      Associative(Unblocked(a), Unblocked(b[..n]), [b[n].header] + b[n].body);
    }
  }

  /** What the last block adds. */
  function CallOf(b: Block, sessionId: string, callerName: string): seq<AgentCall>
    requires IsMention(b.header)
  {
    if Addressed(Name(b.header), callerName)
    then [AgentCall(Name(b.header), JoinLines(Pieces(b)), sessionId, callerName)] else []
  }

  lemma {:induction false} CallsOfNext(blocks: seq<Block>, b: Block, sessionId: string, callerName: string)
    requires (forall i :: 0 <= i < |blocks| ==> IsMention(blocks[i].header)) && IsMention(b.header)
    ensures CallsOf(blocks + [b], sessionId, callerName) == CallsOf(blocks, sessionId, callerName) + CallOf(b, sessionId, callerName)
  {
    assert (blocks + [b])[..|blocks|] == blocks;
  }

  lemma {:induction false} CallsOfConcat(a: seq<Block>, b: seq<Block>, sessionId: string, callerName: string)
    requires forall i :: 0 <= i < |a| ==> IsMention(a[i].header)
    requires forall i :: 0 <= i < |b| ==> IsMention(b[i].header)
    ensures CallsOf(a + b, sessionId, callerName) == CallsOf(a, sessionId, callerName) + CallsOf(b, sessionId, callerName)
  {
    if b == [] {
      assert a + b == a;
    } else {
      var init, last := b[..|b| - 1], b[|b| - 1];
      CallsOfConcat(a, init, sessionId, callerName);
      Associative(a, init, [last]);
      assert b == init + [last];
      CallsOfNext(a + init, last, sessionId, callerName);
      CallsOfNext(init, last, sessionId, callerName);
      Associative(CallsOf(a, sessionId, callerName), CallsOf(init, sessionId, callerName), CallOf(last, sessionId, callerName));
    }
  }

  // The block that a rendered call is parsed into.

  function RenderedBlock(call: AgentCall): Block {
    if call.prompt == "" then Block("@" + call.agentName, [])
    else Block("@" + call.agentName + " " + Lines(call.prompt)[0], Lines(call.prompt)[1..])
  }

  lemma {:induction false} TrimOfLines(lines: seq<string>)
    requires forall i :: 0 <= i < |lines| ==> Trimmed(lines[i])
    ensures TrimAll(lines) == lines
  {
    forall i | 0 <= i < |lines| ensures TrimAll(lines)[i] == lines[i] {
      TrimOfTrimmed(lines[i]);
    }
  }

  lemma {:induction false} BareMention(name: string)
    requires name != "" && Trimmed(name) && ' ' !in name && '\n' !in name
    ensures TrimAll(Lines("@" + name + " ")) == ["@" + name]
    ensures Name("@" + name) == name && Inline("@" + name) == []
  {
    var header := "@" + name;
    LinesOfOne(header + " ");
    assert [] + header + " " == header + " ";
    TrimOfPadded([], header, " ");
    assert header[1..] == name;
    IndexShifts(name, "", " ");
    assert name + "" == name;
    assert name[..|header| - 1] == name;
    TrimOfTrimmed(name);
  }

  lemma {:induction false} MentionParts(rest: string, n: nat)
    requires n < |rest| && Index(rest, " ") == n
    ensures Name("@" + rest) == Trim(rest[..n]) && Inline("@" + rest) == [Trim(rest[n + 1..])]
  {
    assert ("@" + rest)[1..] == rest;
  }

  lemma {:induction false} MentionText(name: string, first: string)
    ensures "@" + name + " " + first == "@" + (name + " " + first)
  {
    Associative("@", name, " ");
    Associative("@", name + " ", first);
  }

  lemma {:induction false} FullMention(name: string, first: string)
    requires Trimmed(name) && ' ' !in name && first != "" && Trimmed(first)
    ensures Name("@" + name + " " + first) == name && Inline("@" + name + " " + first) == [first]
  {
    MentionText(name, first);
    CutAt(name, " ", first);
    MentionParts(name + " " + first, |name|);
    TrimOfTrimmed(name);
    TrimOfTrimmed(first);
  }

  lemma {:induction false} MentionIsTrimmed(name: string, first: string)
    requires first != "" && Trimmed(first)
    ensures Trimmed("@" + name + " " + first)
  {
  }

  lemma {:induction false} RenderedLines(name: string, prompt: string)
    requires '\n' !in name && prompt != "" && Solid(Lines(prompt))
    ensures Lines("@" + name + " " + prompt) == ["@" + name + " " + Lines(prompt)[0]] + Lines(prompt)[1..]
  {
    var ls, front := Lines(prompt), "@" + name + " ";
    JoinOfLines(prompt);
    LinesOfOne(front + ls[0]);
    if |ls| == 1 {
      assert ls[1..] == [] && prompt == ls[0];
    } else {
      var rest := JoinLines(ls[1..]);
      assert prompt == ls[0] + "\n" + rest;
      assert front + prompt == (front + ls[0]) + "\n" + rest;
      LinesOfConcat(front + ls[0], rest);
      JoinOfSolid(ls[1..]);
    }
  }

  lemma {:induction false} RenderedCallLines(call: AgentCall, callerName: string)
    requires CarriedName(call.agentName, callerName) && CarriedPrompt(call.prompt)
    ensures var b := RenderedBlock(call);
            && TrimAll(Lines(RenderCall(call))) == [b.header] + b.body
            && IsMention(b.header) && NoMention(b.body)
            && Name(b.header) == call.agentName && JoinLines(Pieces(b)) == call.prompt
  {
    var name, prompt := call.agentName, call.prompt;
    if prompt == "" {
      BareMention(name);
      assert RenderCall(call) == "@" + name + " ";
    } else {
      var ls := Lines(prompt);
      RenderedLines(name, prompt);
      FullMention(name, ls[0]);
      MentionIsTrimmed(name, ls[0]);
      TrimOfLines(["@" + name + " " + ls[0]] + ls[1..]);
      assert [ls[0]] + ls[1..] == ls;
      NonEmptyOfSolid(ls);
      JoinOfLines(prompt);
    }
  }

  lemma {:induction false} BlockOfLines(b: Block)
    requires IsBlock(b)
    ensures Blocks([b.header] + b.body) == [b]
  {
    var none: seq<string> := [];
    UnblockedNext([], b);
    assert [] + [b] == [b];
    assert none + ([b.header] + b.body) == [b.header] + b.body;
    SegmentationIsUnique([b.header] + b.body, none, [b]);
  }

  lemma {:induction false} RenderedCallParses(call: AgentCall, sessionId: string, callerName: string)
    requires Carried(call, sessionId, callerName)
    ensures var lines := TrimAll(Lines(RenderCall(call)));
            && Blocks(lines) == [RenderedBlock(call)] && lines != [] && IsMention(lines[0])
            && IsMention(RenderedBlock(call).header)
            && CallsOf([RenderedBlock(call)], sessionId, callerName) == [call]
  {
    var b := RenderedBlock(call);
    RenderedCallLines(call, callerName);
    BlockOfLines(b);
    assert [b][..0] == [];
    assert CallsOf([b], sessionId, callerName)
        == CallsOf([], sessionId, callerName) + [AgentCall(call.agentName, call.prompt, sessionId, callerName)];
  }

  lemma {:induction false} CallsOfLines(a: seq<string>, b: seq<string>, sessionId: string, callerName: string)
    requires b == [] || IsMention(b[0])
    ensures (forall i :: 0 <= i < |Blocks(a)| ==> IsMention(Blocks(a)[i].header))
         && (forall i :: 0 <= i < |Blocks(b)| ==> IsMention(Blocks(b)[i].header))
         && (forall i :: 0 <= i < |Blocks(a + b)| ==> IsMention(Blocks(a + b)[i].header))
    ensures CallsOf(Blocks(a + b), sessionId, callerName)
         == CallsOf(Blocks(a), sessionId, callerName) + CallsOf(Blocks(b), sessionId, callerName)
  {
    BlocksAreBlocks(a);
    BlocksAreBlocks(b);
    BlocksAreBlocks(a + b);
    BlocksOfConcat(a, b);
    CallsOfConcat(Blocks(a), Blocks(b), sessionId, callerName);
  }

  lemma {:induction false} TrimAllOfConcat(a: seq<string>, b: seq<string>)
    ensures TrimAll(a + b) == TrimAll(a) + TrimAll(b)
  {
  }

  lemma {:induction false} OneCallParses(call: AgentCall, sessionId: string, callerName: string)
    requires Carried(call, sessionId, callerName)
    ensures Calls(RenderCall(call), sessionId, callerName) == [call]
  {
    RenderedCallParses(call, sessionId, callerName);
  }

  lemma {:induction false} NextCallParses(front: string, before: seq<AgentCall>, call: AgentCall, text: string,
                                          sessionId: string, callerName: string)
    requires Carried(call, sessionId, callerName) && Calls(front, sessionId, callerName) == before
    requires text == front + "\n" + RenderCall(call)
    ensures Calls(text, sessionId, callerName) == before + [call]
  {
    var a, b := Lines(front), Lines(RenderCall(call));
    RenderedCallParses(call, sessionId, callerName);
    LinesOfConcat(front, RenderCall(call));
    TrimAllOfConcat(a, b);
    CallsOfLines(TrimAll(a), TrimAll(b), sessionId, callerName);
  }

  lemma {:induction false} RenderedCallsParse(calls: seq<AgentCall>, sessionId: string, callerName: string)
    requires forall i :: 0 <= i < |calls| ==> Carried(calls[i], sessionId, callerName)
    ensures Calls(Render(calls), sessionId, callerName) == calls
  {
    if calls == [] {
      NothingParses(sessionId, callerName);
    } else if |calls| == 1 {
      OneCallParses(calls[0], sessionId, callerName);
      assert [calls[0]] == calls;
    } else {
      var init, last := calls[..|calls| - 1], calls[|calls| - 1];
      assert init + [last] == calls;
      RenderedCallsParse(init, sessionId, callerName);
      NextCallParses(Render(init), init, last, Render(calls), sessionId, callerName);
    }
  }

  lemma {:induction false} NothingParses(sessionId: string, callerName: string)
    ensures Calls("", sessionId, callerName) == []
  {
    var lines := TrimAll(Lines(""));
    assert Trim("") == "" by {
      TrimOfTrimmed("");
    }
    assert lines == [""] && lines[..0] == [];
    assert Blocks(lines) == [];
  }

  /** Rendering a list of calls and parsing it gives the list back exactly if a text can carry each call. */
  lemma {:induction false} RenderRoundTripIff(calls: seq<AgentCall>, sessionId: string, callerName: string)
    ensures Calls(Render(calls), sessionId, callerName) == calls
            <==> forall i :: 0 <= i < |calls| ==> Carried(calls[i], sessionId, callerName)
  {
    ParsedCallsAreCarried(Render(calls), sessionId, callerName);
    if forall i :: 0 <= i < |calls| ==> Carried(calls[i], sessionId, callerName) {
      RenderedCallsParse(calls, sessionId, callerName);
    }
  }

  /** So what was parsed once is parsed again from its rendering, whatever the text looked like. */
  lemma {:induction false} ParseIsStable(text: string, sessionId: string, callerName: string)
    ensures var calls := Calls(text, sessionId, callerName);
            Calls(Render(calls), sessionId, callerName) == calls
  {
    ParsedCallsAreCarried(text, sessionId, callerName);
    RenderedCallsParse(Calls(text, sessionId, callerName), sessionId, callerName);
  }
}
