/**
  The Fisher–Yates shuffle of app/index.tsx (`shuffle`).

  The random source `Math.floor(Math.random() * (i + 1))` is injected as a
  draw table `js`: `js[i]` is the index drawn at the step that handles
  position `i`, so it lies in `[0, i]`.  Position 0 is never handled.
*/
module Shuffling {

  /** `js` holds one draw per position of an `n`-element array, each within range. */
  predicate ValidDraws(js: seq<nat>, n: nat) {
    |js| == n && forall i :: 0 < i < n ==> js[i] <= i
  }

  /** The sequence with the elements at `i` and `j` exchanged. */
  function Swap<T>(s: seq<T>, i: nat, j: nat): (r: seq<T>)
    requires i < |s| && j < |s|
    ensures |r| == |s| && r[i] == s[j] && r[j] == s[i]
    ensures forall k :: 0 <= k < |s| && k != i && k != j ==> r[k] == s[k]
    ensures multiset(r) == multiset(s)
  {
    s[i := s[j]][j := s[i]]
  }

  /**
    The swaps of the descending loop for positions `i - 1` down to `1`,
    applied to `s`.  Each step only exchanges two elements, so the result
    is a permutation of `s`.
  */
  function Steps<T>(s: seq<T>, js: seq<nat>, i: nat): (r: seq<T>)
    requires i <= |s| && ValidDraws(js, |s|)
    ensures |r| == |s| && multiset(r) == multiset(s)
    decreases i
  {
    if i <= 1 then s else Steps(Swap(s, i - 1, js[i - 1]), js, i - 1)
  }

  /** The whole shuffle: every position from the last down to 1. */
  function FisherYates<T>(s: seq<T>, js: seq<nat>): (r: seq<T>)
    requires ValidDraws(js, |s|)
    ensures |r| == |s| && multiset(r) == multiset(s)
  {
    Steps(s, js, |s|)
  }

  /** Applying `f` to every element of `s`. */
  function MapSeq<T, U>(f: T -> U, s: seq<T>): (r: seq<U>)
    ensures |r| == |s| && forall k :: 0 <= k < |s| ==> r[k] == f(s[k])
  {
    seq(|s|, k requires 0 <= k < |s| => f(s[k]))
  }

  /**
    Shuffling commutes with a map: the draws decide where each position
    goes, whatever the elements are.
  */
  lemma {:induction false} StepsMap<T, U>(f: T -> U, s: seq<T>, js: seq<nat>, i: nat)
    requires i <= |s| && ValidDraws(js, |s|)
    ensures Steps(MapSeq(f, s), js, i) == MapSeq(f, Steps(s, js, i))
    decreases i
  {
    if i > 1 {
      var t := Swap(s, i - 1, js[i - 1]);
      assert Swap(MapSeq(f, s), i - 1, js[i - 1]) == MapSeq(f, t);
      StepsMap(f, t, js, i - 1);
    }
  }

  lemma FisherYatesMap<T, U>(f: T -> U, s: seq<T>, js: seq<nat>)
    requires ValidDraws(js, |s|)
    ensures FisherYates(MapSeq(f, s), js) == MapSeq(f, FisherYates(s, js))
  {
    StepsMap(f, s, js, |s|);
  }

  /**
    `shuffle(input)`: copies the input into a fresh array and runs the
    descending swap loop on the copy.  The caller's sequence cannot change
    (the method modifies nothing that existed before the call); the
    returned array is a permutation of it.
  */
  method Shuffle<T>(input: seq<T>, js: seq<nat>) returns (arr: array<T>)
    requires ValidDraws(js, |input|)
    ensures fresh(arr)
    ensures arr[..] == FisherYates(input, js)
    ensures arr.Length == |input| && multiset(arr[..]) == multiset(input)
  {
    arr := new T[|input|](k requires 0 <= k < |input| => input[k]);
    assert arr[..] == input;
    var i := arr.Length - 1;
    while i > 0
      invariant -1 <= i < arr.Length == |input|
      invariant Steps(arr[..], js, i + 1) == FisherYates(input, js)
    {
      var j := js[i];
      ghost var before := arr[..];
      arr[i], arr[j] := arr[j], arr[i];
      assert arr[..] == Swap(before, i, j);
      i := i - 1;
    }
  }
}
