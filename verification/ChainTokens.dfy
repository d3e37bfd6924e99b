/** How well a session's running token counter agrees with the events it stores, over every run. */
module ChainTokens {
  import opened Text
  import opened SessionTypes
  import opened TokenEstimator
  import opened SessionRoundTrip
  import opened SessionLog
  import opened SessionChain
  import opened SessionDisk
  import opened ChainRuns

  predicate AllTrimmed(events: seq<Event>) {
    forall k :: 0 <= k < |events| ==> Trimmed(events[k].content)
  }

  /** The counter is the sum of the estimates, and no content would shrink in a reload. */
  ghost predicate Exact(s: Segment) {
    AllTrimmed(s.events) && SumTokens(s.events) == s.record.tokenCount
  }

  ghost predicate AllExact(segs: seq<Segment>) {
    forall i :: 0 <= i < |segs| ==> Exact(segs[i])
  }

  lemma {:induction false} ReloadKeepsSum(events: seq<Event>)
    requires AllTrimmed(events) && Measured(events)
    ensures AllTrimmed(NormalEvents(events)) && SumTokens(NormalEvents(events)) == SumTokens(events)
  {
    if events != [] {
      var n := |events| - 1;
      ReloadKeepsSum(events[..n]);
      TrimOfTrimmed(events[n].content);
      assert NormalEvents(events)[..n] == NormalEvents(events[..n]);
    }
  }

  lemma {:induction false} AppendKeepsExact(segs: seq<Segment>, stored: Event)
    requires segs != [] && AllExact(segs) && Trimmed(stored.content)
    ensures AllExact(SessionLog.Append(segs, stored))
  {
    var last := segs[|segs| - 1];
    assert Exact(last);
    SumTokensAppend(last.events, stored);
    assert Exact(WithEvent(last, stored));
  }

  lemma {:induction false} SealKeepsExact(threadId: string, segs: seq<Segment>, now: Time)
    requires segs != [] && AllExact(segs)
    ensures AllExact(SessionLog.Seal(threadId, segs, now))
  {
    assert Exact(segs[|segs| - 1]);
  }

  lemma {:induction false} ReloadKeepsExact(threadId: string, segs: seq<Segment>)
    requires Good(threadId, segs) && AllExact(segs)
    ensures AllExact(NormalSegs(segs))
  {
    forall i | 0 <= i < |segs| ensures Exact(NormalSegs(segs)[i]) {
      assert Exact(segs[i]) && Settled(segs[i], i == |segs| - 1);
      ReloadKeepsSum(segs[i].events);
    }
  }

  predicate TrimmedAction(a: Action) {
    a.AppendEvent? ==> Trimmed(a.event.content)
  }

  lemma {:induction false} SealStepKeepsExact(codec: Codec, s: State, now: Time)
    requires WellFormed(s.chain) && AllExact(Segs(s.chain))
    ensures var c := ChainRuns.Seal(codec, s, now).chain;
            Keyed(c) && AllExact(Segs(c))
  {
    SealInMemory(s.chain, now);
    SealKeepsExact(s.chain.meta.threadId, Segs(s.chain), now);
  }

  lemma {:induction false} AppendStepKeepsExact(codec: Codec, s: State, e: Event, now: Time)
    requires WellFormed(s.chain) && AllExact(Segs(s.chain)) && Trimmed(e.content)
    ensures var c := ChainRuns.Append(codec, s, e, now).chain;
            Keyed(c) && AllExact(Segs(c))
  {
    AppendInMemory(s.chain, e, now);
    AppendKeepsExact(Segs(s.chain), Stamped(e, s.chain.meta.totalEvents + 1, now));
  }

  lemma {:induction false} CommittedIsExact(c: Chain, id: string, summary: string)
    requires Keyed(c) && AllExact(Segs(c)) && id in c.sessions
    ensures Keyed(Committed(c, id, summary)) && AllExact(Segs(Committed(c, id, summary)))
  {
    var k := Numeral(id) - 1;
    CommittedIsCommit(c, k, summary);
    assert Exact(Segs(c)[k]);
  }

  lemma {:induction false} CommitStepKeepsExact(codec: Codec, s: State, ticket: nat, condense: string -> string)
    requires Keyed(s.chain) && AllExact(Segs(s.chain))
    ensures var c := EndCompression(codec, s, ticket, condense).chain;
            Keyed(c) && AllExact(Segs(c))
  {
    if ticket in s.compressing && s.compressing[ticket].sessionId in s.chain.sessions {
      var p := s.compressing[ticket];
      CommittedIsExact(s.chain, p.sessionId, condense(p.transcript));
    }
  }

  lemma {:induction false} RestartKeepsExact(codec: Codec, s: State)
    requires WellFormed(s.chain) && Synced(codec, s.disk, s.chain) && AllExact(Segs(s.chain))
    ensures var c := Step(codec, s, Restart).chain;
            Keyed(c) && AllExact(Segs(c))
  {
    LoadIsNormal(codec, s.disk, s.chain);
    RestartShows(codec, s);
    ReloadKeepsExact(s.chain.meta.threadId, Segs(s.chain));
  }

  lemma {:induction false} StepKeepsExact(codec: Codec, s: State, a: Action)
    requires WellFormed(s.chain) && Synced(codec, s.disk, s.chain)
    requires AllExact(Segs(s.chain)) && TrimmedAction(a)
    ensures var c := Step(codec, s, a).chain;
            Keyed(c) && AllExact(Segs(c))
  {
    RegionShows(codec, s, a);
    match a {
      case AppendEvent(e, now) => AppendStepKeepsExact(codec, s, e, now);
      case SealActiveSession(now) => SealStepKeepsExact(codec, s, now);
      case CheckEnd(now) =>
        CheckEndShows(codec, s, now);
        if s.sealing > 0 {
          SealStepKeepsExact(codec, s.(sealing := s.sealing - 1), now);
        }
      case CompressEnd(ticket, condense) => CommitStepKeepsExact(codec, s, ticket, condense);
      case Restart => RestartKeepsExact(codec, s);
      case _ => ReadingShows(codec, s, a);
    }
  }

  lemma {:induction false} StartIsExact(codec: Codec, threadId: string, now: Time)
    ensures var c := Start(codec, threadId, now).chain;
            Keyed(c) && AllExact(Segs(c))
  {
    NewChainIsWellFormed(threadId, now);
    SegAt(NewChain(threadId, now), 0);
  }

  lemma {:induction false} RunKeepsExact(codec: Codec, s: State, actions: seq<Action>)
    requires Lawful(codec) && Inv(codec, s) && AllAdmissible(actions) && AllExact(Segs(s.chain))
    requires forall i :: 0 <= i < |actions| ==> TrimmedAction(actions[i])
    ensures var c := Run(codec, s, actions).chain;
            Keyed(c) && AllExact(Segs(c))
  {
    if actions != [] {
      var n := |actions| - 1;
      RunKeepsExact(codec, s, actions[..n]);
      RunKeeps(codec, s, actions[..n]);
      StepKeepsExact(codec, Run(codec, s, actions[..n]), actions[n]);
    }
  }

  /** While all contents are trimmed, every counter is exactly the sum of its events' estimates, restarts included. */
  lemma {:induction false} TrimmedRunsCountExactly(codec: Codec, threadId: string, now: Time, actions: seq<Action>)
    requires Lawful(codec) && AllAdmissible(actions)
    requires forall i :: 0 <= i < |actions| ==> TrimmedAction(actions[i])
    ensures var c := Run(codec, Start(codec, threadId, now), actions).chain;
            Keyed(c) && AllExact(Segs(c))
  {
    StartIsInv(codec, threadId, now);
    StartIsExact(codec, threadId, now);
    RunKeepsExact(codec, Start(codec, threadId, now), actions);
  }

  function Contents(events: seq<Event>): (r: seq<string>)
    ensures |r| == |events|
  {
    seq(|events|, i requires 0 <= i < |events| => events[i].content)
  }

  lemma {:induction false} SumsAgree(events: seq<Event>)
    requires Measured(events)
    ensures SumTokens(events) == SumOfTokens(Contents(events))
  {
    if events != [] {
      var n := |events| - 1;
      SumsAgree(events[..n]);
      assert Contents(events)[..n] == Contents(events[..n]);
    }
  }

  /** An exact counter over-estimates the session's joined text by at most three quarters of a token an event. */
  lemma {:induction false} CounterBound(s: Segment)
    requires Exact(s) && Measured(s.events)
    ensures 0 <= 4 * (s.record.tokenCount - Tokens(Concat(Contents(s.events)))) <= 3 * |s.events|
  {
    SumsAgree(s.events);
    AccountingBound(Contents(s.events));
  }
}
