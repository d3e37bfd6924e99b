/** What CheckAndSeal promises when others run between its two locked regions, and when it keeps that promise. */
module CheckedSeals {
  import opened SessionTypes
  import opened SessionRoundTrip
  import opened SessionLog
  import opened SessionChain
  import opened SessionDisk
  import opened ChainRuns

  /** Neither seals nor restarts. */
  predicate LeavesSessions(a: Action) {
    !a.SealActiveSession? && !a.CheckEnd? && !a.Restart?
  }

  predicate Undisturbed(actions: seq<Action>) {
    forall i :: 0 <= i < |actions| ==> LeavesSessions(actions[i])
  }

  /** The session that is active in c. */
  function Last(c: Chain): Segment
    requires Keyed(c) && c.meta.sessionCount >= 1
  {
    Segs(c)[c.meta.sessionCount - 1]
  }

  /** From c to d the active session of c was closed. */
  ghost predicate Closes(c: Chain, d: Chain)
    requires Keyed(c) && c.meta.sessionCount >= 1
  {
    && Keyed(d) && d.meta.sessionCount == c.meta.sessionCount + 1
    && ClosedAs(c, d).record.status == Compressing
  }

  /** What the active session of c is in d. */
  function ClosedAs(c: Chain, d: Chain): Segment
    requires Keyed(c) && c.meta.sessionCount >= 1 && Keyed(d) && d.meta.sessionCount >= c.meta.sessionCount
  {
    Segs(d)[c.meta.sessionCount - 1]
  }

  lemma {:induction false} SealCloses(codec: Codec, s: State, now: Time)
    requires WellFormed(s.chain)
    ensures var c, d := s.chain, ChainRuns.Seal(codec, s, now).chain;
            && Closes(c, d) && ClosedAs(c, d) == Closed(Last(c), now) && Last(d).events == []
            && ChainRuns.Seal(codec, s, now).sealing == s.sealing
  {
    SealInMemory(s.chain, now);
  }

  /** The second region closes a session exactly if somebody is in it, and closes it with the events it has then. */
  lemma {:induction false} CheckEndCloses(codec: Codec, s: State, now: Time)
    requires WellFormed(s.chain)
    ensures var c, t := s.chain, Step(codec, s, CheckEnd(now));
            && Keyed(t.chain) && t.chain.meta.sessionCount >= c.meta.sessionCount
            && (Closes(c, t.chain) <==> s.sealing > 0)
            && (s.sealing > 0 ==> ClosedAs(c, t.chain) == Closed(Last(c), now) && Last(t.chain).events == []
                                  && t.sealing == s.sealing - 1)
  {
    CheckEndShows(codec, s, now);
    if s.sealing > 0 {
      SealCloses(codec, s.(sealing := s.sealing - 1), now);
    }
  }

  /** It closes an empty session if and only if somebody is in it while the active session has no event. */
  lemma {:induction false} EmptyIsClosedIff(codec: Codec, s: State, now: Time)
    requires WellFormed(s.chain)
    ensures var c, t := s.chain, Step(codec, s, CheckEnd(now));
            && Keyed(t.chain) && t.chain.meta.sessionCount >= c.meta.sessionCount
            && (Closes(c, t.chain) && ClosedAs(c, t.chain).events == [] <==> s.sealing > 0 && Last(c).events == [])
  {
    CheckEndCloses(codec, s, now);
  }

  /** So of two callers that both found the threshold met, the second one closes an empty session. */
  lemma {:induction false} SecondSealerClosesEmpty(codec: Codec, s: State, t0: Time, t1: Time)
    requires Lawful(codec) && Inv(codec, s) && s.sealing >= 2
    ensures var s1 := Step(codec, s, CheckEnd(t0));
            var s2 := Step(codec, s1, CheckEnd(t1));
            && Keyed(s1.chain) && s1.chain.meta.sessionCount >= 1
            && Closes(s1.chain, s2.chain) && ClosedAs(s1.chain, s2.chain).events == []
  {
    CheckEndCloses(codec, s, t0);
    CheckEndStep(codec, s, t0);
    EmptyIsClosedIff(codec, Step(codec, s, CheckEnd(t0)), t1);
  }

  // ----- Without another seal in between -----

  lemma {:induction false} StepLeavesSessions(codec: Codec, s: State, a: Action)
    requires LeavesSessions(a)
    ensures var t := Step(codec, s, a);
            t.chain.meta.sessionCount == s.chain.meta.sessionCount && t.sealing >= s.sealing
  {
  }

  lemma {:induction false} RunLeavesSessions(codec: Codec, s: State, actions: seq<Action>)
    requires Undisturbed(actions)
    ensures var t := Run(codec, s, actions);
            t.chain.meta.sessionCount == s.chain.meta.sessionCount && t.sealing >= s.sealing
  {
    if actions != [] {
      var n := |actions| - 1;
      RunLeavesSessions(codec, s, actions[..n]);
      StepLeavesSessions(codec, Run(codec, s, actions[..n]), actions[n]);
    }
  }

  lemma {:induction false} ThresholdIsOfLast(c: Chain, config: Config)
    requires WellFormed(c)
    ensures ShouldSeal(c, config) == Ok(ThresholdMet(Last(c).record, config))
  {
    SegAt(c, c.meta.sessionCount - 1);
  }

  /** A threshold once met stays met while counters only grow. */
  lemma {:induction false} ThresholdStaysMet(r: Record, r': Record, config: Config)
    requires r.tokenCount <= r'.tokenCount && r.eventCount <= r'.eventCount
    ensures ThresholdMet(r, config) ==> ThresholdMet(r', config)
  {
  }

  lemma {:induction false} BeginShows(codec: Codec, s: State, config: Config)
    requires ShouldSeal(s.chain, config) == Ok(true)
    ensures Step(codec, s, CheckBegin(config)) == s.(sealing := s.sealing + 1)
  {
  }

  lemma {:induction false} LastStays(a: Chain, b: Chain)
    requires WellFormed(a) && WellFormed(b) && Later(Segs(a), Segs(b)) && a.meta.sessionCount == b.meta.sessionCount
    ensures Last(a).record.tokenCount <= Last(b).record.tokenCount && Last(a).record.eventCount <= Last(b).record.eventCount
  {
    assert SegmentLater(Segs(a)[a.meta.sessionCount - 1], Segs(b)[a.meta.sessionCount - 1]);
  }

  lemma {:induction false} UndisturbedStaysMet(codec: Codec, s: State, config: Config, between: seq<Action>)
    requires Lawful(codec) && Inv(codec, s) && AllAdmissible(between) && Undisturbed(between)
    ensures var t := Run(codec, s, between);
            && WellFormed(t.chain) && t.chain.meta.sessionCount == s.chain.meta.sessionCount && t.sealing >= s.sealing
            && (ThresholdMet(Last(s.chain).record, config) ==> ThresholdMet(Last(t.chain).record, config))
  {
    var t := Run(codec, s, between);
    RunKeeps(codec, s, between);
    RunLeavesSessions(codec, s, between);
    LastStays(s.chain, t.chain);
    ThresholdStaysMet(Last(s.chain).record, Last(t.chain).record, config);
  }

  /**
   * If no seal and no restart runs between the two regions of a CheckAndSeal that found the threshold met, its
   * second region closes the session it looked at, and that session still meets the threshold.
   */
  lemma {:induction false} UndisturbedCheckMeetsThreshold(codec: Codec, s: State, config: Config, between: seq<Action>, now: Time)
    requires Lawful(codec) && Inv(codec, s) && AllAdmissible(between) && Undisturbed(between)
    requires ShouldSeal(s.chain, config) == Ok(true)
    ensures var t := Run(codec, Step(codec, s, CheckBegin(config)), between);
            var d := Step(codec, t, CheckEnd(now)).chain;
            && Keyed(t.chain) && t.chain.meta.sessionCount == s.chain.meta.sessionCount
            && Closes(t.chain, d) && ThresholdMet(ClosedAs(t.chain, d).record, config)
  {
    var begun := s.(sealing := s.sealing + 1);
    BeginShows(codec, s, config);
    ThresholdIsOfLast(s.chain, config);
    UndisturbedStaysMet(codec, begun, config, between);
    CheckEndCloses(codec, Run(codec, begun, between), now);
  }

  // ----- With other seals in between -----

  /** The step is a seal: a call of SealActiveSession, or a caller of CheckAndSeal in its second region. */
  predicate Seals(s: State, a: Action) {
    a.SealActiveSession? || (a.CheckEnd? && s.sealing > 0)
  }

  /** How many seals a run has. */
  function SealsIn(codec: Codec, s: State, actions: seq<Action>): nat {
    if actions == [] then 0
    else
      var n := |actions| - 1;
      SealsIn(codec, s, actions[..n]) + if Seals(Run(codec, s, actions[..n]), actions[n]) then 1 else 0
  }

  /** Restarts included, every step that is not a seal leaves the number of sessions as it is. */
  lemma {:induction false} StepCounts(codec: Codec, s: State, a: Action)
    requires Lawful(codec) && Inv(codec, s)
    ensures Step(codec, s, a).chain.meta.sessionCount == s.chain.meta.sessionCount + if Seals(s, a) then 1 else 0
  {
    if Seals(s, a) {
      SealInMemory(s.chain, a.now);
    } else if a.Restart? {
      LoadIsNormal(codec, s.disk, s.chain);
    } else if a.CheckEnd? {
      CheckEndShows(codec, s, a.now);
    } else {
      StepLeavesSessions(codec, s, a);
    }
  }

  lemma {:induction false} RunCounts(codec: Codec, s: State, actions: seq<Action>)
    requires Lawful(codec) && Inv(codec, s) && AllAdmissible(actions)
    ensures Run(codec, s, actions).chain.meta.sessionCount == s.chain.meta.sessionCount + SealsIn(codec, s, actions)
  {
    if actions != [] {
      var n := |actions| - 1;
      RunCounts(codec, s, actions[..n]);
      RunKeeps(codec, s, actions[..n]);
      StepCounts(codec, Run(codec, s, actions[..n]), actions[n]);
    }
  }

  /** From c to d session n was closed. */
  ghost predicate ClosesNumber(c: Chain, d: Chain, n: nat) {
    && Keyed(c) && Keyed(d) && 1 <= n <= c.meta.sessionCount && n <= d.meta.sessionCount
    && Segs(c)[n - 1].record.status == Active && Segs(d)[n - 1].record.status == Compressing
  }

  lemma {:induction false} OnlyLastIsActive(c: Chain, n: nat)
    requires WellFormed(c) && 1 <= n <= c.meta.sessionCount
    ensures Segs(c)[n - 1].record.status == Active <==> n == c.meta.sessionCount
  {
    assert Settled(Segs(c)[n - 1], n == c.meta.sessionCount);
  }

  lemma {:induction false} OnlyLastIsClosed(c: Chain, d: Chain, n: nat)
    requires WellFormed(c) && Closes(c, d) && 1 <= n <= c.meta.sessionCount
    ensures ClosesNumber(c, d, n) <==> n == c.meta.sessionCount
  {
    OnlyLastIsActive(c, n);
  }

  lemma {:induction false} ThresholdStaysMetUnsealed(codec: Codec, s: State, config: Config, between: seq<Action>)
    requires Lawful(codec) && Inv(codec, s) && AllAdmissible(between)
    ensures var t := Run(codec, s, between);
            && WellFormed(t.chain)
            && t.chain.meta.sessionCount == s.chain.meta.sessionCount + SealsIn(codec, s, between)
            && (SealsIn(codec, s, between) == 0 && ThresholdMet(Last(s.chain).record, config) ==>
                  ThresholdMet(Last(t.chain).record, config))
  {
    var t := Run(codec, s, between);
    RunKeeps(codec, s, between);
    RunCounts(codec, s, between);
    if SealsIn(codec, s, between) == 0 {
      LastStays(s.chain, t.chain);
      ThresholdStaysMet(Last(s.chain).record, Last(t.chain).record, config);
    }
  }

  /**
   * Whatever runs between the two regions, restarts included: the second region closes the session that the first
   * one tested if and only if no seal ran in between, and then that session still meets the threshold.
   */
  lemma {:induction false} TestedSessionIsClosedIff(codec: Codec, s: State, config: Config, between: seq<Action>, now: Time)
    requires Lawful(codec) && Inv(codec, s) && AllAdmissible(between)
    requires ShouldSeal(s.chain, config) == Ok(true)
    ensures var begun := Step(codec, s, CheckBegin(config));
            var t := Run(codec, begun, between);
            var d := Step(codec, t, CheckEnd(now)).chain;
            && Keyed(t.chain) && t.chain.meta.sessionCount >= 1 && (Closes(t.chain, d) <==> t.sealing > 0)
            && (t.sealing > 0 ==>
                  && (ClosesNumber(t.chain, d, s.chain.meta.sessionCount) <==> SealsIn(codec, begun, between) == 0)
                  && (SealsIn(codec, begun, between) == 0 ==> ThresholdMet(ClosedAs(t.chain, d).record, config)))
  {
    var begun := s.(sealing := s.sealing + 1);
    BeginShows(codec, s, config);
    ThresholdIsOfLast(s.chain, config);
    ThresholdStaysMetUnsealed(codec, begun, config, between);
    var t := Run(codec, begun, between);
    CheckEndCloses(codec, t, now);
    if t.sealing > 0 {
      OnlyLastIsClosed(t.chain, Step(codec, t, CheckEnd(now)).chain, s.chain.meta.sessionCount);
    }
  }

  // ----- A run that closes an empty session -----

  lemma {:induction false} RunNext(codec: Codec, s: State, actions: seq<Action>, a: Action)
    ensures Run(codec, s, actions + [a]) == Step(codec, Run(codec, s, actions), a)
  {
    assert (actions + [a])[..|actions|] == actions;
  }

  lemma {:induction false} OneEventMeets(codec: Codec, s: State, e: Event, now: Time, config: Config)
    requires WellFormed(s.chain) && config.maxEventsPerSession <= 1
    ensures ShouldSeal(ChainRuns.Append(codec, s, e, now).chain, config) == Ok(true)
  {
    AppendKeepsWellFormed(s.chain, e, now);
    AppendInMemory(s.chain, e, now);
    var c := Appended(s.chain, e, now).value;
    ThresholdIsOfLast(c, config);
    assert Placed(c.meta.threadId, Segs(c), c.meta.sessionCount - 1);
  }

  /** One message, and two callers that both test before either of them seals. */
  function TwoCallers(e: Event, config: Config, now: Time): seq<Action> {
    [AppendEvent(e, now)] + [CheckBegin(config)] + [CheckBegin(config)] + [CheckEnd(now)]
  }

  lemma {:induction false} TwoCallersWait(codec: Codec, s: State, e: Event, config: Config, now: Time)
    requires Lawful(codec) && Inv(codec, s) && Printable(e) && config.maxEventsPerSession <= 1
    ensures Run(codec, s, [AppendEvent(e, now)] + [CheckBegin(config)] + [CheckBegin(config)])
         == ChainRuns.Append(codec, s, e, now).(sealing := s.sealing + 2)
  {
    var appended := ChainRuns.Append(codec, s, e, now);
    var none: seq<Action> := [];
    RunNext(codec, s, none, AppendEvent(e, now));
    assert none + [AppendEvent(e, now)] == [AppendEvent(e, now)];
    RunNext(codec, s, [AppendEvent(e, now)], CheckBegin(config));
    RunNext(codec, s, [AppendEvent(e, now)] + [CheckBegin(config)], CheckBegin(config));
    OneEventMeets(codec, s, e, now, config);
    BeginShows(codec, appended, config);
    BeginShows(codec, appended.(sealing := s.sealing + 1), config);
  }

  /** In a new thread, such a run closes a session with no event in it. */
  lemma {:induction false} EmptySessionIsReached(codec: Codec, threadId: string, e: Event, config: Config, now: Time)
    requires Lawful(codec) && Printable(e) && config.maxEventsPerSession <= 1
    ensures var s := Run(codec, Start(codec, threadId, now), TwoCallers(e, config, now));
            var t := Step(codec, s, CheckEnd(now));
            && Keyed(s.chain) && s.chain.meta.sessionCount >= 1
            && Closes(s.chain, t.chain) && ClosedAs(s.chain, t.chain).events == []
  {
    var start, actions := Start(codec, threadId, now), [AppendEvent(e, now)] + [CheckBegin(config)] + [CheckBegin(config)];
    StartIsInv(codec, threadId, now);
    RunKeeps(codec, start, actions);
    TwoCallersWait(codec, start, e, config, now);
    RunNext(codec, start, actions, CheckEnd(now));
    SecondSealerClosesEmpty(codec, Run(codec, start, actions), now, now);
  }
}
