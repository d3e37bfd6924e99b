/** Full-text search (src/session_chain.go:711-757): which events are found, and which of them are shown. */
module SessionSearch {
  import opened Text
  import opened Sorting
  import opened SessionTypes
  import opened SessionLog

  datatype SearchResult = SearchResult(sessionId: string, eventNo: int, snippet: string, score: int, timestamp: Time)

  /** strings.Count for a pattern that is not empty: occurrences that do not overlap. */
  function Count(s: string, p: string): nat
    requires p != []
    decreases |s|
  {
    var i := Index(s, p);
    if i < 0 then 0 else 1 + Count(s[i + |p|..], p)
  }

  function Hits(lower: string -> string, query: string, id: string, events: seq<Event>): seq<SearchResult>
    requires lower(query) != []
  {
    if events == [] then []
    else
      var e := events[|events| - 1];
      Hits(lower, query, id, events[..|events| - 1])
      + if Contains(lower(e.content), lower(query))
        then [SearchResult(id, e.eventNo, e.content, Count(lower(e.content), lower(query)), e.timestamp)] else []
  }

  function AllHits(lower: string -> string, query: string, segs: seq<Segment>): seq<SearchResult>
    requires lower(query) != []
  {
    if segs == [] then []
    else
      var s := segs[|segs| - 1];
      AllHits(lower, query, segs[..|segs| - 1]) + Hits(lower, query, s.record.id, s.events)
  }

  const ByFallingScore: SearchResult -> int := (r: SearchResult) => -r.score

  /** The rest of the hits: all that are not among the best, and none scores more than one of these. */
  ghost predicate LeavesOut(best: seq<SearchResult>, rest: seq<SearchResult>, all: seq<SearchResult>) {
    && multiset(best) + multiset(rest) == multiset(all)
    && forall i, j :: 0 <= i < |best| && 0 <= j < |rest| ==> rest[j].score <= best[i].score
  }

  /** The best results: a part of all hits, highest scores first, and nothing left out scores more. */
  ghost predicate IsTopPart(best: seq<SearchResult>, all: seq<SearchResult>, limit: int) {
    && |best| == (if 0 < limit < |all| then limit else |all|)
    && (forall i, j :: 0 <= i < j < |best| ==> best[i].score >= best[j].score)
    && exists rest: seq<SearchResult> :: LeavesOut(best, rest, all)
  }

  ghost predicate Falling(results: seq<SearchResult>) {
    forall i, j :: 0 <= i < j < |results| ==> results[i].score >= results[j].score
  }

  lemma {:induction false} SortedIsFalling(sorted: seq<SearchResult>)
    requires SortedBy(sorted, ByFallingScore)
    ensures Falling(sorted)
  {
    forall i, j | 0 <= i < j < |sorted| ensures sorted[i].score >= sorted[j].score {
      assert ByFallingScore(sorted[i]) <= ByFallingScore(sorted[j]);
    }
  }

  lemma {:induction false} PrefixLeavesOut(sorted: seq<SearchResult>, all: seq<SearchResult>, n: nat)
    requires multiset(sorted) == multiset(all) && Falling(sorted) && n <= |sorted|
    ensures LeavesOut(sorted[..n], sorted[n..], all)
  {
    assert sorted == sorted[..n] + sorted[n..];
  }

  lemma {:induction false} PrefixIsTopPart(sorted: seq<SearchResult>, all: seq<SearchResult>, limit: int)
    requires multiset(sorted) == multiset(all) && SortedBy(sorted, ByFallingScore)
    ensures IsTopPart(if 0 < limit < |sorted| then sorted[..limit] else sorted, all, limit)
  {
    assert |multiset(sorted)| == |multiset(all)|;
    var n := if 0 < limit < |sorted| then limit else |sorted|;
    SortedIsFalling(sorted);
    PrefixLeavesOut(sorted, all, n);
    assert sorted[..|sorted|] == sorted;
  }

  // ----- What is found -----

  /** Places at which a pattern stands in a text, in order and without overlap. */
  ghost predicate AreOccurrences(s: string, p: string, places: seq<nat>) {
    && (forall k :: 0 <= k < |places| ==> OccursAt(s, p, places[k]))
    && forall k :: 0 < k < |places| ==> places[k - 1] + |p| <= places[k]
  }

  /** n occurrences fit into the text without overlap, and no more than n do. */
  ghost predicate IsCount(s: string, p: string, n: int) {
    && (exists places: seq<nat> :: AreOccurrences(s, p, places) && |places| == n)
    && forall places: seq<nat> :: AreOccurrences(s, p, places) ==> |places| <= n
  }

  function Shifted(places: seq<nat>, n: nat): (r: seq<nat>)
    ensures |r| == |places| && forall k :: 0 <= k < |places| ==> r[k] == places[k] + n
  {
    seq(|places|, k requires 0 <= k < |places| => places[k] + n)
  }

  /** The occurrences behind the first one, and that one. */
  lemma {:induction false} OneMoreOccurrence(s: string, p: string, i: nat, rest: seq<nat>)
    requires OccursAt(s, p, i) && AreOccurrences(s[i + |p|..], p, rest)
    ensures AreOccurrences(s, p, [i] + Shifted(rest, i + |p|))
  {
    var n := i + |p|;
    var places := [i] + Shifted(rest, n);
    forall k | 0 <= k < |places| ensures OccursAt(s, p, places[k]) {
      if k > 0 {
        assert s == s[..n] + s[n..] && OccursAt(s[n..], p, rest[k - 1]);
        OccursBehind(s[..n], s[n..], p, rest[k - 1]);
      }
    }
    forall k | 0 < k < |places| ensures places[k - 1] + |p| <= places[k] {
      if k > 1 {
        assert rest[k - 2] + |p| <= rest[k - 1];
      }
    }
  }

  lemma {:induction false} CountOccurrences(s: string, p: string) returns (places: seq<nat>)
    requires p != []
    ensures AreOccurrences(s, p, places) && |places| == Count(s, p)
    decreases |s|
  {
    places := [];
    var i := Index(s, p);
    if i >= 0 {
      assert OccursAt(s, p, i);
      var rest := CountOccurrences(s[i + |p|..], p);
      OneMoreOccurrence(s, p, i, rest);
      places := [i] + Shifted(rest, i + |p|);
    }
  }

  /** Occurrences that do not overlap are at most as many: only the first can begin before the first match ends. */
  lemma {:induction false} NoMoreOccurrences(s: string, p: string, places: seq<nat>)
    requires p != [] && AreOccurrences(s, p, places)
    ensures |places| <= Count(s, p)
    decreases |s|
  {
    if places != [] {
      IndexIsFirst(s, p);
      assert OccursAt(s, p, places[0]);
      var n := Index(s, p) + |p|;
      OccurrencesBehind(s, p, places, n);
      NoMoreOccurrences(s[n..], p, seq(|places| - 1, k requires 0 <= k < |places| - 1 => places[k + 1] - n));
    }
  }

  /** All but the first stand behind any place that the first one ends at or behind. */
  lemma {:induction false} OccurrencesBehind(s: string, p: string, places: seq<nat>, n: nat)
    requires places != [] && AreOccurrences(s, p, places) && n <= places[0] + |p| && n <= |s|
    ensures forall k :: 0 < k < |places| ==> places[k] >= n && OccursAt(s[n..], p, places[k] - n)
  {
    forall k | 0 < k < |places| ensures places[k] >= n && OccursAt(s[n..], p, places[k] - n) {
      Apart(s, p, places, k);
      assert OccursAt(s, p, places[k]);
      assert s[n..][places[k] - n..places[k] - n + |p|] == s[places[k]..places[k] + |p|];
    }
  }

  lemma {:induction false} Apart(s: string, p: string, places: seq<nat>, k: nat)
    requires AreOccurrences(s, p, places) && 0 < k < |places|
    ensures places[0] + |p| <= places[k]
  {
    if k > 1 {
      Apart(s, p, places, k - 1);
    }
  }

  /** The score of a match is the number of occurrences that do not overlap. */
  lemma {:induction false} CountIsCount(s: string, p: string)
    requires p != []
    ensures IsCount(s, p, Count(s, p))
  {
    var places := CountOccurrences(s, p);
    forall more: seq<nat> | AreOccurrences(s, p, more) ensures |more| <= Count(s, p) {
      NoMoreOccurrences(s, p, more);
    }
  }

  /** It is positive exactly if there is an occurrence. */
  lemma {:induction false} CountPositiveIff(s: string, p: string)
    requires p != []
    ensures Count(s, p) > 0 <==> exists j: nat :: OccursAt(s, p, j)
  {
    IndexIsFirst(s, p);
    if Index(s, p) >= 0 {
      assert OccursAt(s, p, Index(s, p));
    }
  }

  /** And then it is one more than behind the first one. */
  lemma {:induction false} CountBehindFirst(s: string, p: string, i: nat)
    requires p != [] && OccursAt(s, p, i) && forall j: nat :: j < i ==> !OccursAt(s, p, j)
    ensures Count(s, p) == 1 + Count(s[i + |p|..], p)
  {
    IndexUnique(s, p, i);
  }

  /** The event's content has the query in it, if letter case is left out of account. */
  ghost predicate Matches(lower: string -> string, query: string, e: Event) {
    exists j: nat :: OccursAt(lower(e.content), lower(query), j)
  }

  /** The result that shows a matching event of a session. */
  ghost predicate Shows(lower: string -> string, query: string, id: string, e: Event, r: SearchResult) {
    && Matches(lower, query, e)
    && r.sessionId == id && r.eventNo == e.eventNo && r.snippet == e.content && r.timestamp == e.timestamp
    && IsCount(lower(e.content), lower(query), r.score)
  }

  ghost predicate ShowsSome(lower: string -> string, query: string, segs: seq<Segment>, r: SearchResult) {
    exists i: nat, k: nat :: i < |segs| && k < |segs[i].events| && Shows(lower, query, segs[i].record.id, segs[i].events[k], r)
  }

  ghost predicate ShownBySome(lower: string -> string, query: string, id: string, e: Event, all: seq<SearchResult>) {
    exists a: nat :: a < |all| && Shows(lower, query, id, e, all[a])
  }

  /** Each result shows a stored event that matches, each stored event that matches is shown, and none is shown twice. */
  ghost predicate AreMatches(lower: string -> string, query: string, segs: seq<Segment>, all: seq<SearchResult>) {
    && (forall a :: 0 <= a < |all| ==> ShowsSome(lower, query, segs, all[a]))
    && (forall i: nat, k: nat :: i < |segs| && k < |segs[i].events| && Matches(lower, query, segs[i].events[k]) ==>
          ShownBySome(lower, query, segs[i].record.id, segs[i].events[k], all))
    && forall a, b :: 0 <= a < b < |all| ==> all[a].eventNo < all[b].eventNo
  }

  lemma {:induction false} HitShows(lower: string -> string, query: string, id: string, e: Event)
    requires lower(query) != []
    ensures Contains(lower(e.content), lower(query)) <==> Matches(lower, query, e)
    ensures Contains(lower(e.content), lower(query)) ==>
              Shows(lower, query, id, e, SearchResult(id, e.eventNo, e.content, Count(lower(e.content), lower(query)), e.timestamp))
  {
    var text, p := lower(e.content), lower(query);
    IndexIsFirst(text, p);
    if Contains(text, p) {
      assert OccursAt(text, p, Index(text, p));
      CountIsCount(text, p);
    }
  }

  lemma {:induction false} HitHasEvent(lower: string -> string, query: string, id: string, events: seq<Event>, a: nat)
    returns (k: nat)
    requires lower(query) != [] && a < |Hits(lower, query, id, events)|
    ensures k < |events| && Shows(lower, query, id, events[k], Hits(lower, query, id, events)[a])
  {
    k := |events| - 1;
    if a < |Hits(lower, query, id, events[..k])| {
      k := HitHasEvent(lower, query, id, events[..k], a);
    } else {
      HitShows(lower, query, id, events[k]);
    }
  }

  lemma {:induction false} EventHasHit(lower: string -> string, query: string, id: string, events: seq<Event>, k: nat)
    returns (a: nat)
    requires lower(query) != [] && k < |events| && Matches(lower, query, events[k])
    ensures a < |Hits(lower, query, id, events)| && Shows(lower, query, id, events[k], Hits(lower, query, id, events)[a])
  {
    var n := |events| - 1;
    if k < n {
      a := EventHasHit(lower, query, id, events[..n], k);
    } else {
      HitShows(lower, query, id, events[n]);
      a := |Hits(lower, query, id, events[..n])|;
    }
  }

  lemma {:induction false} HitsRise(lower: string -> string, query: string, id: string, events: seq<Event>,
                                    start: int, a: nat, b: nat)
    requires lower(query) != [] && a < b < |Hits(lower, query, id, events)|
    requires forall k :: 0 <= k < |events| ==> events[k].eventNo == start + k
    ensures Hits(lower, query, id, events)[a].eventNo < Hits(lower, query, id, events)[b].eventNo
    decreases |events|
  {
    var init := events[..|events| - 1];
    if b < |Hits(lower, query, id, init)| {
      HitsRise(lower, query, id, init, start, a, b);
    } else {
      var k := HitHasEvent(lower, query, id, init, a);
    }
  }

  lemma {:induction false} AllHitHasEvent(lower: string -> string, query: string, segs: seq<Segment>, a: nat)
    returns (i: nat, k: nat)
    requires lower(query) != [] && a < |AllHits(lower, query, segs)|
    ensures i < |segs| && k < |segs[i].events|
    ensures Shows(lower, query, segs[i].record.id, segs[i].events[k], AllHits(lower, query, segs)[a])
  {
    i := |segs| - 1;
    var before := |AllHits(lower, query, segs[..i])|;
    if a < before {
      i, k := AllHitHasEvent(lower, query, segs[..i], a);
    } else {
      k := HitHasEvent(lower, query, segs[i].record.id, segs[i].events, a - before);
    }
  }

  lemma {:induction false} EventHasAllHit(lower: string -> string, query: string, segs: seq<Segment>, i: nat, k: nat)
    returns (a: nat)
    requires lower(query) != [] && i < |segs| && k < |segs[i].events| && Matches(lower, query, segs[i].events[k])
    ensures a < |AllHits(lower, query, segs)|
    ensures Shows(lower, query, segs[i].record.id, segs[i].events[k], AllHits(lower, query, segs)[a])
  {
    var n := |segs| - 1;
    var before, own := AllHits(lower, query, segs[..n]), Hits(lower, query, segs[n].record.id, segs[n].events);
    assert AllHits(lower, query, segs) == before + own;
    if i < n {
      a := EventHasAllHit(lower, query, segs[..n], i, k);
    } else {
      var b := EventHasHit(lower, query, segs[n].record.id, segs[n].events, k);
      a := |before| + b;
      assert (before + own)[a] == own[b];
    }
  }

  lemma {:induction false} AllHitsRise(lower: string -> string, query: string, threadId: string, segs: seq<Segment>,
                                       a: nat, b: nat)
    requires lower(query) != [] && a < b < |AllHits(lower, query, segs)| && Ranges(threadId, segs)
    ensures AllHits(lower, query, segs)[a].eventNo < AllHits(lower, query, segs)[b].eventNo
    decreases |segs|
  {
    var n := |segs| - 1;
    var before := |AllHits(lower, query, segs[..n])|;
    assert Placed(threadId, segs, n);
    RangesOfPrefix(threadId, segs, n);
    if b < before {
      AllHitsRise(lower, query, threadId, segs[..n], a, b);
    } else if a < before {
      var i, k := AllHitHasEvent(lower, query, segs[..n], a);
      var l := HitHasEvent(lower, query, segs[n].record.id, segs[n].events, b - before);
      RangesRise(threadId, segs, i, n);
      assert Placed(threadId, segs, i);
    } else {
      HitsRise(lower, query, segs[n].record.id, segs[n].events, segs[n].record.startEvent, a - before, b - before);
    }
  }

  /** The search looks at every stored event and takes exactly those that match, each once. */
  lemma {:induction false} AllHitsAreMatches(lower: string -> string, query: string, threadId: string, segs: seq<Segment>)
    requires lower(query) != [] && Ranges(threadId, segs)
    ensures AreMatches(lower, query, segs, AllHits(lower, query, segs))
  {
    var all := AllHits(lower, query, segs);
    forall a | 0 <= a < |all| ensures ShowsSome(lower, query, segs, all[a]) {
      var i, k := AllHitHasEvent(lower, query, segs, a);
    }
    forall i: nat, k: nat | i < |segs| && k < |segs[i].events| && Matches(lower, query, segs[i].events[k])
      ensures ShownBySome(lower, query, segs[i].record.id, segs[i].events[k], all)
    {
      var a := EventHasAllHit(lower, query, segs, i, k);
    }
    forall a, b | 0 <= a < b < |all| ensures all[a].eventNo < all[b].eventNo {
      AllHitsRise(lower, query, threadId, segs, a, b);
    }
  }
}
