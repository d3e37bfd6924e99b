/**
 * Reading a conversation back: the merge of chain messages with system messages (src/api_server.go:410-457),
 * and the call history that responses are filed into (src/api_server.go:1486-1495).
 */
module Messages {
  import opened Text
  import opened SessionTypes

  datatype Message = Message(id: string, content: string, timestamp: Time)

  // ----- The merge -----

  /** How many system messages at the front of a list are not after a time. */
  function Due(system: seq<Message>, t: Time): (n: nat)
    ensures n <= |system|
  {
    if system == [] || system[0].timestamp > t then 0 else 1 + Due(system[1..], t)
  }

  /** Before each chain message all system messages that are due, the rest at the end. */
  function Merge(chain: seq<Message>, system: seq<Message>): seq<Message> {
    if chain == [] then system
    else
      var n := Due(system, chain[0].timestamp);
      system[..n] + [chain[0]] + Merge(chain[1..], system[n..])
  }

  method GetMessages(chainMessages: seq<Message>, systemMessages: seq<Message>) returns (messages: seq<Message>)
    ensures messages == Merge(chainMessages, systemMessages)
  {
    messages := [];
    var si := 0;
    for i := 0 to |chainMessages|
      invariant 0 <= si <= |systemMessages|
      invariant messages + Merge(chainMessages[i..], systemMessages[si..]) == Merge(chainMessages, systemMessages)
    {
      ghost var start := si;
      var due;
      due, si := TakeDue(systemMessages, si, chainMessages[i].timestamp);
      MergeStep(chainMessages, systemMessages, i, start, si);
      Regroup(messages, due, chainMessages[i], Merge(chainMessages[i + 1..], systemMessages[si..]));
      messages := messages + due + [chainMessages[i]];
    }
    var rest, _ := TakeRest(systemMessages, si);
    messages := messages + rest;
  }

  /** The inner loop: the system messages from si on that are not after the chain message. */
  method TakeDue(systemMessages: seq<Message>, start: nat, t: Time) returns (due: seq<Message>, si: nat)
    requires start <= |systemMessages|
    ensures si == start + Due(systemMessages[start..], t) && due == systemMessages[start..si]
  {
    due, si := [], start;
    while si < |systemMessages| && systemMessages[si].timestamp <= t
      invariant start <= si <= |systemMessages| && due == systemMessages[start..si]
      invariant Due(systemMessages[start..], t) == si - start + Due(systemMessages[si..], t)
    {
      DueNext(systemMessages, si, t);
      due := due + [systemMessages[si]];
      si := si + 1;
    }
  }

  /** The last loop: whatever is left of the system messages. */
  method TakeRest(systemMessages: seq<Message>, start: nat) returns (rest: seq<Message>, si: nat)
    requires start <= |systemMessages|
    ensures si == |systemMessages| && rest == systemMessages[start..]
  {
    rest, si := [], start;
    while si < |systemMessages|
      invariant start <= si <= |systemMessages| && rest == systemMessages[start..si]
    {
      rest := rest + [systemMessages[si]];
      si := si + 1;
    }
  }

  lemma {:induction false} DueNext(system: seq<Message>, i: nat, t: Time)
    requires i < |system| && system[i].timestamp <= t
    ensures Due(system[i..], t) == 1 + Due(system[i + 1..], t)
  {
    assert system[i..][1..] == system[i + 1..];
  }

  lemma {:induction false} MergeStep(chain: seq<Message>, system: seq<Message>, i: nat, start: nat, si: nat)
    requires i < |chain| && start <= |system| && si == start + Due(system[start..], chain[i].timestamp)
    ensures si <= |system|
    ensures Merge(chain[i..], system[start..]) == system[start..si] + [chain[i]] + Merge(chain[i + 1..], system[si..])
  {
    assert chain[i..][1..] == chain[i + 1..];
    assert system[start..][..si - start] == system[start..si] && system[start..][si - start..] == system[si..];
  }

  lemma {:induction false} Regroup(before: seq<Message>, due: seq<Message>, m: Message, rest: seq<Message>)
    ensures before + (due + [m] + rest) == before + due + [m] + rest
  {
  }

  // ----- What the merge promises -----

  /** A list is an interleaving of two others: choice says of each position which of them it comes from. */
  ghost predicate Interleaving(merged: seq<Message>, a: seq<Message>, b: seq<Message>, fromA: seq<bool>) {
    && |fromA| == |merged|
    && Picked(merged, fromA, true) == a
    && Picked(merged, fromA, false) == b
  }

  /** The elements at the positions where the choice is such, in order. */
  function Picked(merged: seq<Message>, choice: seq<bool>, side: bool): seq<Message>
    requires |choice| == |merged|
  {
    if merged == [] then []
    else (if choice[0] == side then [merged[0]] else []) + Picked(merged[1..], choice[1..], side)
  }

  lemma {:induction false} PickedOfConcat(a: seq<Message>, ca: seq<bool>, b: seq<Message>, cb: seq<bool>, side: bool)
    requires |ca| == |a| && |cb| == |b|
    ensures Picked(a + b, ca + cb, side) == Picked(a, ca, side) + Picked(b, cb, side)
  {
    if a == [] {
      assert a + b == b && ca + cb == cb;
    } else {
      assert (a + b)[1..] == a[1..] + b && (ca + cb)[1..] == ca[1..] + cb;
      PickedOfConcat(a[1..], ca[1..], b, cb, side);
      Associative(if ca[0] == side then [a[0]] else [], Picked(a[1..], ca[1..], side), Picked(b, cb, side));
    }
  }

  /** System messages, a chain message, and an interleaving of what is left of both lists. */
  lemma {:induction false} PickedOfStep(system: seq<Message>, front: seq<bool>, m: Message, rest: seq<Message>, fromChain: seq<bool>)
    requires |front| == |system| && |fromChain| == |rest| && forall i :: 0 <= i < |front| ==> !front[i]
    ensures var (merged, choice) := (system + [m] + rest, front + [true] + fromChain);
            && Picked(merged, choice, true) == [m] + Picked(rest, fromChain, true)
            && Picked(merged, choice, false) == system + Picked(rest, fromChain, false)
  {
    PickedAllOrNone(system, front, false);
    PickedAllOrNone([m], [true], true);
    forall side ensures Picked(system + [m] + rest, front + [true] + fromChain, side)
                     == Picked(system, front, side) + Picked([m], [true], side) + Picked(rest, fromChain, side)
    {
      PickedOfConcat(system, front, [m], [true], side);
      PickedOfConcat(system + [m], front + [true], rest, fromChain, side);
    }
    assert [] + [m] == [m] && system + [] == system;
  }

  lemma {:induction false} PickedAllOrNone(a: seq<Message>, choice: seq<bool>, side: bool)
    requires |choice| == |a| && forall i :: 0 <= i < |a| ==> choice[i] == side
    ensures Picked(a, choice, side) == a && Picked(a, choice, !side) == []
  {
    if a != [] {
      PickedAllOrNone(a[1..], choice[1..], side);
    }
  }

  lemma {:induction false} InterleavingStep(due: seq<Message>, m: Message, merged: seq<Message>,
                                            a: seq<Message>, b: seq<Message>, fromA: seq<bool>) returns (choice: seq<bool>)
    requires Interleaving(merged, a, b, fromA)
    ensures Interleaving(due + [m] + merged, [m] + a, due + b, choice)
  {
    var front := seq(|due|, _ => false);
    choice := front + [true] + fromA;
    PickedOfStep(due, front, m, merged, fromA);
  }

  /** Nothing is lost and each list keeps its own order, whatever the timestamps are. */
  lemma {:induction false} MergeInterleaves(chain: seq<Message>, system: seq<Message>) returns (fromChain: seq<bool>)
    ensures Interleaving(Merge(chain, system), chain, system, fromChain)
  {
    if chain == [] {
      fromChain := seq(|system|, _ => false);
      PickedAllOrNone(system, fromChain, false);
    } else {
      var n := Due(system, chain[0].timestamp);
      var rest := MergeInterleaves(chain[1..], system[n..]);
      fromChain := InterleavingStep(system[..n], chain[0], Merge(chain[1..], system[n..]), chain[1..], system[n..], rest);
      assert [chain[0]] + chain[1..] == chain;
      assert system[..n] + system[n..] == system;
    }
  }

  ghost predicate ByTime(messages: seq<Message>) {
    forall i, j :: 0 <= i < j < |messages| ==> messages[i].timestamp <= messages[j].timestamp
  }

  lemma {:induction false} DueAreNotAfter(system: seq<Message>, t: Time)
    ensures forall i :: 0 <= i < Due(system, t) ==> system[i].timestamp <= t
    ensures ByTime(system) ==> forall i :: Due(system, t) <= i < |system| ==> system[i].timestamp > t
  {
    if system != [] && system[0].timestamp <= t {
      DueAreNotAfter(system[1..], t);
      forall i | 0 <= i < Due(system, t) ensures system[i].timestamp <= t {
        assert i > 0 ==> system[i] == system[1..][i - 1];
      }
      if ByTime(system) {
        forall i | Due(system, t) <= i < |system| ensures system[i].timestamp > t {
          assert system[i] == system[1..][i - 1];
        }
      }
    }
  }

  lemma {:induction false} MergeBoundedBelow(chain: seq<Message>, system: seq<Message>, t: Time)
    requires forall i :: 0 <= i < |chain| ==> chain[i].timestamp >= t
    requires forall i :: 0 <= i < |system| ==> system[i].timestamp >= t
    ensures forall i :: 0 <= i < |Merge(chain, system)| ==> Merge(chain, system)[i].timestamp >= t
  {
    if chain != [] {
      MergeBoundedBelow(chain[1..], system[Due(system, chain[0].timestamp)..], t);
    }
  }

  lemma {:induction false} ByTimeConcat(a: seq<Message>, b: seq<Message>, t: Time)
    requires ByTime(a) && ByTime(b)
    requires forall i :: 0 <= i < |a| ==> a[i].timestamp <= t
    requires forall i :: 0 <= i < |b| ==> b[i].timestamp >= t
    ensures ByTime(a + b)
  {
  }

  /** If both lists are in order of time, so is the merge. */
  lemma {:induction false} MergeIsSorted(chain: seq<Message>, system: seq<Message>)
    requires ByTime(chain) && ByTime(system)
    ensures ByTime(Merge(chain, system))
  {
    if chain != [] {
      var t := chain[0].timestamp;
      var n := Due(system, t);
      MergeIsSorted(chain[1..], system[n..]);
      DueAreNotAfter(system, t);
      MergeBoundedBelow(chain[1..], system[n..], t);
      ByTimeConcat(system[..n], [chain[0]], t);
      ByTimeConcat(system[..n] + [chain[0]], Merge(chain[1..], system[n..]), t);
    }
  }

  /** Where the i-th chain message stands in the merge. */
  function ChainPlace(chain: seq<Message>, system: seq<Message>, i: nat): nat
    requires i < |chain|
  {
    var n := Due(system, chain[0].timestamp);
    if i == 0 then n else n + 1 + ChainPlace(chain[1..], system[n..], i - 1)
  }

  /** Where the j-th system message stands in the merge. */
  function SystemPlace(chain: seq<Message>, system: seq<Message>, j: nat): nat
    requires j < |system|
  {
    if chain == [] then j
    else
      var n := Due(system, chain[0].timestamp);
      if j < n then j else n + 1 + SystemPlace(chain[1..], system[n..], j - n)
  }

  lemma {:induction false} ChainPlaceIsRight(chain: seq<Message>, system: seq<Message>, i: nat)
    requires i < |chain|
    ensures var merged, k := Merge(chain, system), ChainPlace(chain, system, i);
            k < |merged| && merged[k] == chain[i]
  {
    if i > 0 {
      ChainPlaceIsRight(chain[1..], system[Due(system, chain[0].timestamp)..], i - 1);
    }
  }

  lemma {:induction false} SystemPlaceIsRight(chain: seq<Message>, system: seq<Message>, j: nat)
    requires j < |system|
    ensures var merged, k := Merge(chain, system), SystemPlace(chain, system, j);
            k < |merged| && merged[k] == system[j]
  {
    if chain != [] {
      var n := Due(system, chain[0].timestamp);
      if j >= n {
        SystemPlaceIsRight(chain[1..], system[n..], j - n);
      }
    }
  }

  /** If both lists are in order of time, a system message stands before a chain message unless it is later. */
  lemma {:induction false} SystemFirstOnTies(chain: seq<Message>, system: seq<Message>, i: nat, j: nat)
    requires ByTime(chain) && ByTime(system) && i < |chain| && j < |system|
    ensures SystemPlace(chain, system, j) < ChainPlace(chain, system, i) <==> system[j].timestamp <= chain[i].timestamp
  {
    var n := Due(system, chain[0].timestamp);
    DueAreNotAfter(system, chain[0].timestamp);
    if j >= n && i > 0 {
      SystemFirstOnTies(chain[1..], system[n..], i - 1, j - n);
    }
  }

  // ----- The call history -----

  datatype CallRecord = CallRecord(catName: string, prompt: string, response: string)

  /** The last call of the cat that has no response yet gets it; every other record stays as it is. */
  method UpdateCallHistoryResponse(callHistory: array<CallRecord>, catName: string, response: string) returns (ghost k: int)
    modifies callHistory
    ensures -1 <= k < callHistory.Length
    ensures forall i :: k < i < callHistory.Length ==>
              old(callHistory[i]).catName != catName || old(callHistory[i]).response != ""
    ensures k == -1 ==> callHistory[..] == old(callHistory[..])
    ensures k >= 0 ==> old(callHistory[k]).catName == catName && old(callHistory[k]).response == ""
                       && callHistory[..] == old(callHistory[..])[k := old(callHistory[k]).(response := response)]
  {
    k := -1;
    var i := callHistory.Length - 1;
    while i >= 0
      invariant -1 <= i < callHistory.Length
      invariant callHistory[..] == old(callHistory[..])
      invariant forall j :: i < j < callHistory.Length ==>
                  old(callHistory[j]).catName != catName || old(callHistory[j]).response != ""
      decreases i
    {
      if callHistory[i].catName == catName && callHistory[i].response == "" {
        callHistory[i] := callHistory[i].(response := response);
        k := i;
        return;
      }
      i := i - 1;
    }
  }
}
