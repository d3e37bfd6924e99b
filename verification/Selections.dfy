/** Lists made piece by piece: which positions of a list were taken, in order, and texts put together from pieces. */
module Selections {

  /** The positions below n that meet a condition, all of them and no others, in rising order. */
  ghost predicate Exactly(picked: seq<nat>, n: nat, meets: nat -> bool) {
    && (forall j :: 0 <= j < |picked| ==> picked[j] < n && meets(picked[j]))
    && (forall j, k :: 0 <= j < k < |picked| ==> picked[j] < picked[k])
    && forall i: nat :: i < n && meets(i) ==> i in picked
  }

  lemma {:induction false} ExactlyTakes(picked: seq<nat>, n: nat, meets: nat -> bool)
    requires Exactly(picked, n, meets) && meets(n)
    ensures Exactly(picked + [n], n + 1, meets)
  {
    forall i: nat | i < n + 1 && meets(i) ensures i in picked + [n] {
      if i < n {
        assert i in picked;
      } else {
        assert (picked + [n])[|picked|] == n;
      }
    }
  }

  lemma {:induction false} ExactlySkips(picked: seq<nat>, n: nat, meets: nat -> bool)
    requires Exactly(picked, n, meets) && !meets(n)
    ensures Exactly(picked, n + 1, meets)
  {
  }

  /** What a strings.Builder holds after some pieces were written. */
  function Joined<T>(pieces: seq<seq<T>>): seq<T> {
    if pieces == [] then [] else Joined(pieces[..|pieces| - 1]) + pieces[|pieces| - 1]
  }

  lemma {:induction false} JoinedNext<T>(pieces: seq<seq<T>>, piece: seq<T>)
    ensures Joined(pieces + [piece]) == Joined(pieces) + piece
  {
    assert (pieces + [piece])[..|pieces|] == pieces;
  }
}
