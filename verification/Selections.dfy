/** Filtered sequences, apart from how a filter runs: which places of a sequence were kept. */
module Selections {

  /** `after` is what `before` holds at the places `at`, each place once, in order. */
  ghost predicate PickedAt<T>(before: seq<T>, after: seq<T>, at: seq<nat>)
  {
    && |at| == |after|
    && (forall k :: 0 <= k < |at| ==> at[k] < |before| && after[k] == before[at[k]])
    && (forall j, k :: 0 <= j < k < |at| ==> at[j] < at[k])
  }

  /** The places are those of the elements to keep. */
  ghost predicate KeepsThose<T>(before: seq<T>, at: seq<nat>, keep: T -> bool)
  {
    forall i: nat :: i < |before| ==> (i in at <==> keep(before[i]))
  }

  /** `after` holds exactly the elements of `before` that are to be kept, each as often as there, in the same order. */
  ghost predicate Picks<T>(before: seq<T>, after: seq<T>, keep: T -> bool)
  {
    exists at: seq<nat> :: PickedAt(before, after, at) && KeepsThose(before, at, keep)
  }

  lemma {:induction false} PlacesGrow<T>(before: seq<T>, after: seq<T>, at: seq<nat>, k: nat)
    requires PickedAt(before, after, at) && k < |at|
    ensures at[k] >= k
    decreases k
  {
    if k > 0 { PlacesGrow(before, after, at, k - 1); }
  }

  lemma PickedIsNoLonger<T>(before: seq<T>, after: seq<T>, at: seq<nat>)
    requires PickedAt(before, after, at)
    ensures |after| == |at| <= |before|
  {
    if at != [] { PlacesGrow(before, after, at, |at| - 1); }
  }

  lemma PicksNothing<T>(keep: T -> bool)
    ensures Picks([], [], keep)
  {
    assert PickedAt<T>([], [], []) && KeepsThose<T>([], [], keep);
  }

  lemma PicksSnoc<T>(before: seq<T>, after: seq<T>, x: T, keep: T -> bool)
    requires Picks(before, after, keep)
    ensures Picks(before + [x], if keep(x) then after + [x] else after, keep)
  {
    hide PickedAt, KeepsThose;
    var at: seq<nat> :| PickedAt(before, after, at) && KeepsThose(before, at, keep);
    PlacesSnoc(before, after, at, x);
    KeepsSnoc(before, after, at, x, keep);
    if keep(x) {
      assert PickedAt(before + [x], after + [x], at + [|before|]);
    } else {
      assert PickedAt(before + [x], after, at);
    }
  }

  lemma PlacesSnoc<T>(before: seq<T>, after: seq<T>, at: seq<nat>, x: T)
    requires PickedAt(before, after, at)
    ensures PickedAt(before + [x], after, at) && PickedAt(before + [x], after + [x], at + [|before|])
  {}

  lemma KeepsSnoc<T>(before: seq<T>, after: seq<T>, at: seq<nat>, x: T, keep: T -> bool)
    requires PickedAt(before, after, at) && KeepsThose(before, at, keep)
    ensures if keep(x) then KeepsThose(before + [x], at + [|before|], keep) else KeepsThose(before + [x], at, keep)
  {
    var longer, n := before + [x], |before|;
    assert n !in at;
    forall i: nat | i < |longer|
      ensures (i in at <==> i < n && keep(longer[i])) && (i in at + [n] <==> i in at || i == n)
    {
      if i < n { assert longer[i] == before[i]; }
    }
  }

  /** Every place one further. */
  function Shifted(at: seq<nat>): (further: seq<nat>)
  {
    seq(|at|, k requires 0 <= k < |at| => at[k] + 1)
  }

  lemma ShiftedHas(at: seq<nat>, i: nat)
    ensures i + 1 in Shifted(at) <==> i in at
    ensures 0 !in Shifted(at)
  {
    if i in at {
      var k :| 0 <= k < |at| && at[k] == i;
      assert Shifted(at)[k] == i + 1;
    }
  }

  lemma PicksCons<T>(before: seq<T>, after: seq<T>, x: T, keep: T -> bool)
    requires Picks(before, after, keep)
    ensures Picks([x] + before, if keep(x) then [x] + after else after, keep)
  {
    hide PickedAt, KeepsThose, Shifted;
    var at: seq<nat> :| PickedAt(before, after, at) && KeepsThose(before, at, keep);
    PlacesCons(before, after, at, x);
    KeepsCons(before, at, x, keep);
    if keep(x) {
      assert PickedAt([x] + before, [x] + after, [0] + Shifted(at));
    } else {
      assert PickedAt([x] + before, after, Shifted(at));
    }
  }

  lemma PlacesCons<T>(before: seq<T>, after: seq<T>, at: seq<nat>, x: T)
    requires PickedAt(before, after, at)
    ensures PickedAt([x] + before, after, Shifted(at)) && PickedAt([x] + before, [x] + after, [0] + Shifted(at))
  {
    var places := Shifted(at);
    PlacesShift(before, after, at, x);
    FirstPlace([x] + before, after, places, x);
  }

  lemma PlacesShift<T>(before: seq<T>, after: seq<T>, at: seq<nat>, x: T)
    requires PickedAt(before, after, at)
    ensures PickedAt([x] + before, after, Shifted(at)) && forall k :: 0 <= k < |at| ==> Shifted(at)[k] > 0
  {}

  lemma FirstPlace<T>(longer: seq<T>, after: seq<T>, places: seq<nat>, x: T)
    requires longer != [] && longer[0] == x && PickedAt(longer, after, places)
    requires forall k :: 0 <= k < |places| ==> places[k] > 0
    ensures PickedAt(longer, [x] + after, [0] + places)
  {}

  lemma KeepsCons<T>(before: seq<T>, at: seq<nat>, x: T, keep: T -> bool)
    requires KeepsThose(before, at, keep)
    ensures if keep(x) then KeepsThose([x] + before, [0] + Shifted(at), keep)
            else KeepsThose([x] + before, Shifted(at), keep)
  {
    hide Shifted;
    var longer := [x] + before;
    forall i: nat | i < |longer|
      ensures i > 0 ==> (i in Shifted(at) <==> keep(longer[i]))
      ensures i == 0 ==> i !in Shifted(at)
    {
      ShiftedHas(at, if i > 0 then i - 1 else 0);
      if i > 0 { assert longer[i] == before[i - 1]; }
    }
  }
}
