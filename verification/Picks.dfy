/** Elements picked from a sequence, in order. */
module Picks {
  predicate Ascending(at: seq<nat>) {
    forall j, k :: 0 <= j < k < |at| ==> at[j] < at[k]
  }

  /** `picked` are the elements of `all` at these places, in order. */
  predicate IsPick<T(==)>(picked: seq<T>, all: seq<T>, at: seq<nat>) {
    && |picked| == |at| && Ascending(at)
    && forall j :: 0 <= j < |at| ==> at[j] < |all| && picked[j] == all[at[j]]
  }

  lemma PickOneMore<T>(picked: seq<T>, all: seq<T>, at: seq<nat>, n: nat)
    requires n == |all| - 1 && IsPick(picked, all[..n], at)
    ensures IsPick(picked, all, at) && IsPick(picked + [all[n]], all, at + [n])
    ensures n !in at
  {
  }

  /** `image` has one element for each of `all` that is kept, in order, and each is what it should be.
      The places are those of the elements kept. */
  ghost predicate IsImage<S, T>(image: seq<T>, all: seq<S>, at: seq<nat>, keep: S -> bool, becomes: (S, T) -> bool) {
    && |image| == |at| && Ascending(at)
    && (forall i: nat :: i in at <==> i < |all| && keep(all[i]))
    && (forall j :: 0 <= j < |at| ==> at[j] < |all| && becomes(all[at[j]], image[j]))
  }

  lemma NoImage<S, T>(keep: S -> bool, becomes: (S, T) -> bool)
    ensures IsImage([], [], [], keep, becomes)
  {
  }

  /** The places of the elements that are kept. */
  ghost predicate ArePlaces<S>(at: seq<nat>, all: seq<S>, keep: S -> bool) {
    Ascending(at) && forall i: nat :: i in at <==> i < |all| && keep(all[i])
  }

  lemma PlacesOneMore<S>(all: seq<S>, at: seq<nat>, keep: S -> bool)
    requires all != [] && ArePlaces(at, all[..|all| - 1], keep)
    ensures var n := |all| - 1;
            ArePlaces(if keep(all[n]) then at + [n] else at, all, keep)
    ensures forall j :: 0 <= j < |at| ==> at[j] < |all| - 1
  {
    var n := |all| - 1;
    var places := if keep(all[n]) then at + [n] else at;
    forall j | 0 <= j < |at|
      ensures at[j] < n
    {
      assert at[j] in at;
    }
    forall i: nat
      ensures i in places <==> i < |all| && keep(all[i])
    {
      assert i < n ==> all[..n][i] == all[i];
      assert i in places <==> i in at || (i == n && keep(all[n]));
    }
  }

  lemma ImageOneMore<S, T>(image: seq<T>, all: seq<S>, at: seq<nat>, keep: S -> bool, becomes: (S, T) -> bool,
                           more: seq<T>) returns (at': seq<nat>)
    requires all != [] && IsImage(image, all[..|all| - 1], at, keep, becomes)
    requires if keep(all[|all| - 1]) then |more| == 1 && becomes(all[|all| - 1], more[0]) else more == []
    ensures IsImage(image + more, all, at', keep, becomes)
  {
    hide ArePlaces;
    var n := |all| - 1;
    assert ArePlaces(at, all[..n], keep) by {
      PlacesAre(image, all[..n], at, keep, becomes);
    }
    PlacesOneMore(all, at, keep);
    at' := if keep(all[n]) then at + [n] else at;
    forall j | 0 <= j < |at'|
      ensures at'[j] < |all| && becomes(all[at'[j]], (image + more)[j])
    {
      if j < |at| {
        assert all[..n][at[j]] == all[at[j]];
      }
    }
    ImageOfPlaces(image + more, all, at', keep, becomes);
  }

  lemma PlacesAre<S, T>(image: seq<T>, all: seq<S>, at: seq<nat>, keep: S -> bool, becomes: (S, T) -> bool)
    requires IsImage(image, all, at, keep, becomes)
    ensures ArePlaces(at, all, keep)
  {
  }

  lemma ImageOfPlaces<S, T>(image: seq<T>, all: seq<S>, at: seq<nat>, keep: S -> bool, becomes: (S, T) -> bool)
    requires ArePlaces(at, all, keep) && |image| == |at|
    requires forall j :: 0 <= j < |at| ==> at[j] < |all| && becomes(all[at[j]], image[j])
    ensures IsImage(image, all, at, keep, becomes)
  {
  }
}
