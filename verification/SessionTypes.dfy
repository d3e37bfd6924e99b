/** The records of a session chain (src/session_chain.go:28-93) and the text formats they borrow. */
module SessionTypes {
  import opened Text

  /** Nanoseconds since 1970. */
  type Time = int

  /** Go's time.Time{}. */
  const ZERO_TIME: Time := -62135596800 * 1000000000

  const NANOS_PER_SECOND := 1000000000

  /** What a layout without fractions keeps of a time. */
  function WholeSeconds(t: Time): Time {
    t - t % NANOS_PER_SECOND
  }

  datatype Status = Active | Compressing | Sealed

  /** Other stands for every type string that no switch of the program knows. */
  datatype EventKind = User | Cat | System | Invocation | Other

  datatype Event = Event(
    eventNo: int, kind: EventKind, sender: string, content: string,
    msgId: string, invocationId: string, timestamp: Time, tokenCount: int)

  datatype Record = Record(
    id: string, threadId: string, seqNo: nat, status: Status,
    startEvent: int, endEvent: int, eventCount: int, tokenCount: int,
    summary: string, createdAt: Time, sealedAt: Option<Time>)

  datatype Meta = Meta(
    threadId: string, activeSessionId: string, sessionCount: nat, totalEvents: int,
    createdAt: Time, updatedAt: Time)

  datatype Cursor = Cursor(
    agentName: string, threadId: string, lastSessionId: string, lastEventNo: int, aiSessionId: string)

  /** A record as its front matter keeps it: times are cut to whole seconds. */
  function NormalRecord(r: Record): Record {
    r.(createdAt := WholeSeconds(r.createdAt),
       sealedAt := if r.sealedAt.Some? then Some(WholeSeconds(r.sealedAt.value)) else None)
  }

  /** A record as it was, but for the fractions of the seconds at which the session was created and sealed. */
  ghost predicate KeptRecord(r: Record, kept: Record) {
    && kept.id == r.id && kept.threadId == r.threadId && kept.seqNo == r.seqNo && kept.status == r.status
    && kept.startEvent == r.startEvent && kept.endEvent == r.endEvent
    && kept.eventCount == r.eventCount && kept.tokenCount == r.tokenCount && kept.summary == r.summary
    && kept.createdAt == r.createdAt - r.createdAt % 1000000000
    && (r.sealedAt.None? <==> kept.sealedAt.None?)
    && (r.sealedAt.Some? ==> kept.sealedAt.value == r.sealedAt.value - r.sealedAt.value % 1000000000)
  }

  lemma {:induction false} NormalKeepsRecord(r: Record)
    ensures KeptRecord(r, NormalRecord(r))
  {
  }

  lemma {:induction false} NormalRecordIdempotent(r: Record)
    ensures NormalRecord(NormalRecord(r)) == NormalRecord(r)
  {
    WholeSecondsIdempotent(r.createdAt);
    if r.sealedAt.Some? {
      WholeSecondsIdempotent(r.sealedAt.value);
    }
  }

  lemma {:induction false} WholeSecondsIdempotent(t: Time)
    ensures WholeSeconds(WholeSeconds(t)) == WholeSeconds(t)
  {
  }

  /** The time layout and the YAML library, which the program imports. */
  datatype Codec = Codec(
    formatTime: Time -> string,
    parseTime: string -> Option<Time>,
    formatDay: Time -> string,
    encodeFront: Record -> string,
    decodeFront: string -> Option<Record>)

  /** Front matter ends its last line and has no line that is just the closing rule. */
  predicate FrontMatter(d: string) {
    d != [] && d[|d| - 1] == '\n' && "---" !in Lines(d)
  }

  /** What the session files need of the two imported formats. */
  ghost predicate Lawful(codec: Codec) {
    && (forall t: Time {:trigger codec.formatTime(t)} ::
          codec.parseTime(codec.formatTime(t)) == Some(WholeSeconds(t))
          && ']' !in codec.formatTime(t) && '\n' !in codec.formatTime(t))
    && (forall r: Record {:trigger codec.encodeFront(r)} ::
          var d := codec.encodeFront(r);
          FrontMatter(d) && codec.decodeFront(d[..|d| - 1]) == Some(NormalRecord(r)))
  }

  /** fmt.Sprintf("S%03d", seq). The number can be read back, so no two sessions share an ID. */
  function SessionId(seqNo: nat): (id: string)
    ensures Numeral(id) == seqNo
  {
    DecimalDenotes(seqNo);
    Pad3Denotes(Decimal(seqNo));
    NumeralBehind('S', Pad3(Decimal(seqNo)));
    "S" + Pad3(Decimal(seqNo))
  }

  lemma {:induction false} DecimalDigits(n: nat)
    ensures |Decimal(n)| == 1 <==> n < 10
    ensures |Decimal(n)| <= 2 <==> n < 100
    ensures Decimal(n)[0] == '0' <==> n == 0
  {
    DecimalDenotes(n);
    if n >= 10 {
      DecimalDigits(n / 10);
    }
  }

  /** S001, S010, S100, S1000: at least three digits. */
  lemma {:induction false} SessionIdIs(n: nat)
    ensures SessionId(n) == "S" + (if n < 10 then "00" else if n < 100 then "0" else "") + Decimal(n)
  {
    DecimalDigits(n);
    DecimalDenotes(n);
    var d := Decimal(n);
    if n < 10 {
      assert Pad3(d) == Pad3("0" + ("0" + d)) && "0" + ("0" + d) == "00" + d;
      assert "S" + ("00" + d) == "S" + "00" + d;
    } else if n < 100 {
      assert Pad3(d) == Pad3("0" + d);
      assert "S" + ("0" + d) == "S" + "0" + d;
    } else {
      assert "S" + "" == "S";
    }
  }

  lemma {:induction false} SessionIdsDiffer(i: nat, j: nat)
    ensures SessionId(i) == SessionId(j) <==> i == j
  {
  }

  /** agentName + ":" + threadID. */
  function CursorKey(agentName: string, threadId: string): (key: string)
    ensures AgentOf(key, threadId) == agentName
  {
    agentName + ":" + threadId
  }

  /** The agent of a cursor key of a known thread. */
  function AgentOf(key: string, threadId: string): string {
    if |key| > |threadId| then key[..|key| - |threadId| - 1] else ""
  }

  /** Cursor keys tell agents apart as long as agent names have no colon. */
  lemma {:induction false} CursorKeysDiffer(a: string, t: string, b: string, u: string)
    requires ':' !in a && ':' !in b
    ensures CursorKey(a, t) == CursorKey(b, u) <==> a == b && t == u
  {
    if CursorKey(a, t) == CursorKey(b, u) {
      IndexAfter(a, ":", t);
      IndexAfter(b, ":", u);
      assert a == CursorKey(a, t)[..|a|] && b == CursorKey(b, u)[..|b|];
      assert t == CursorKey(a, t)[|a| + 1..] && u == CursorKey(b, u)[|b| + 1..];
    }
  }

  /** Different agents share a key for some of their threads. */
  ghost predicate ShareKey(a: string, b: string) {
    exists t, u :: CursorKey(a, t) == CursorKey(b, u)
  }

  /** Two agents share a key exactly if one's name is the other's up to a colon. */
  lemma {:induction false} KeysAreSharedIff(a: string, b: string)
    requires a != b
    ensures ShareKey(a, b) <==> a + ":" <= b || b + ":" <= a
  {
    if ShareKey(a, b) {
      var t, u :| CursorKey(a, t) == CursorKey(b, u);
      ShorterIsPrefix(a, t, b, u);
      ShorterIsPrefix(b, u, a, t);
    }
    if a + ":" <= b {
      KeyOfLonger(a, b);
    }
    if b + ":" <= a {
      KeyOfLonger(b, a);
    }
  }

  lemma {:induction false} ShorterIsPrefix(a: string, t: string, b: string, u: string)
    requires CursorKey(a, t) == CursorKey(b, u)
    ensures |a| < |b| ==> a + ":" <= b
    ensures |a| == |b| ==> a == b
  {
    var key := CursorKey(a, t);
    assert key[..|b|] == b && key[..|a|] == a;
    if |a| < |b| {
      assert key[..|a| + 1] == a + ":" && key[..|b|][..|a| + 1] == key[..|a| + 1];
    }
  }

  lemma {:induction false} KeyOfLonger(a: string, b: string)
    requires a + ":" <= b
    ensures CursorKey(a, b[|a| + 1..] + ":") == CursorKey(b, "")
  {
    assert b == a + ":" + b[|a| + 1..];
    Associative(a + ":", b[|a| + 1..], ":");
  }

  /** So agents' cursors are told apart, in all threads, exactly if no name continues another one with a colon. */
  lemma {:induction false} CursorsAreApartIff(names: set<string>)
    ensures (forall a, b :: a in names && b in names && a != b ==> !ShareKey(a, b))
            <==> forall a, b :: a in names && b in names ==> !(a + ":" <= b)
  {
    forall a, b | a in names && b in names && a != b ensures ShareKey(a, b) <==> a + ":" <= b || b + ":" <= a {
      KeysAreSharedIff(a, b);
    }
  }
}
