/** One goroutine's steps in a run that several share. */
module Interleaving {
  /** The steps since `from` that are of actor a, in order. */
  ghost function Own<A(!new), L(!new)>(of: (A, L) -> bool, a: A, ls: seq<L>, from: nat): seq<L>
    requires from <= |ls|
    decreases |ls|
  {
    if |ls| == from then []
    else
      var l := ls[|ls| - 1];
      Own(of, a, ls[..|ls| - 1], from) + if of(a, l) then [l] else []
  }

  lemma {:induction false} OwnStays<A(!new), L(!new)>(of: (A, L) -> bool, a: A, before: seq<L>, after: seq<L>,
                                                      from: nat)
    requires from <= |before| && before <= after
    requires forall k :: |before| <= k < |after| ==> !of(a, after[k])
    ensures Own(of, a, after, from) == Own(of, a, before, from)
    decreases |after|
  {
    if |before| < |after| {
      OwnStays(of, a, before, after[..|after| - 1], from);
    } else {
      assert before == after;
    }
  }

  lemma OwnLast<A(!new), L(!new)>(of: (A, L) -> bool, a: A, ls: seq<L>, l: L, from: nat)
    requires from <= |ls|
    ensures Own(of, a, ls + [l], from) == Own(of, a, ls, from) + if of(a, l) then [l] else []
  {
    assert (ls + [l])[..|ls|] == ls;
  }
}
