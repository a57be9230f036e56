/** The shuffle `MusicPlayer.shuffle` runs on its queue: a descending
    Fisher-Yates pass that, for i from the last index down to 1, swaps
    element i with an element j drawn from [0, i]. The draws are explicit
    here, as a sequence of picks; the lemmas show that every pass permutes
    the queue and that every permutation is the result of some pass. */
module FisherYates {

  /** `[s[i], s[j]] = [s[j], s[i]]`. */
  function Swap<T>(s: seq<T>, i: nat, j: nat): (r: seq<T>)
    requires i < |s| && j < |s|
    ensures |r| == |s| && r[i] == s[j] && r[j] == s[i]
  {
    s[i := s[j]][j := s[i]]
  }

  lemma {:induction false} SwapPermutes<T>(s: seq<T>, i: nat, j: nat)
    requires i < |s| && j < |s|
    ensures multiset(Swap(s, i, j)) == multiset(s)
  {
  }

  /** A swap inside `x` leaves what follows `x` alone. */
  lemma {:induction false} SwapAppend<T>(x: seq<T>, b: seq<T>, i: nat, j: nat)
    requires i < |x| && j < |x|
    ensures Swap(x + b, i, j) == Swap(x, i, j) + b
  {
    var l, r := Swap(x + b, i, j), Swap(x, i, j) + b;
    assert |l| == |r|;
    forall m | 0 <= m < |l| ensures l[m] == r[m] {
      if m >= |x| {
        assert l[m] == (x + b)[m] == b[m - |x|];
      }
    }
  }

  /** The draws of a (possibly unfinished) pass over a sequence whose last
      index is `top`: the k-th draw is the j of the iteration with
      i == top - k, so it lies in [0, top - k], and there are at most `top`
      iterations, since the loop stops before i reaches 0. Stated draw by
      draw from the last one, as the loop adds them. */
  predicate ValidPicks(picks: seq<nat>, top: nat)
    decreases |picks|
  {
    |picks| <= top &&
    (picks == [] ||
     (ValidPicks(picks[..|picks| - 1], top) && picks[|picks| - 1] <= top - (|picks| - 1)))
  }

  /** Each draw lies in its range. */
  lemma {:induction false} ValidPicksAt(picks: seq<nat>, top: nat, k: nat)
    requires ValidPicks(picks, top) && k < |picks|
    ensures picks[k] <= top - k
    decreases |picks|
  {
    if k < |picks| - 1 {
      var init := picks[..|picks| - 1];
      ValidPicksAt(init, top, k);
      assert init[k] == picks[k];
    }
  }

  lemma {:induction false} ValidPicksPrefix(picks: seq<nat>, top: nat, n: nat)
    requires ValidPicks(picks, top) && n <= |picks|
    ensures ValidPicks(picks[..n], top)
    decreases |picks|
  {
    if n < |picks| {
      var init := picks[..|picks| - 1];
      ValidPicksPrefix(init, top, n);
      assert init[..n] == picks[..n];
    } else {
      assert picks[..n] == picks;
    }
  }

  /** The loop's step: one more draw in range extends the pass. */
  lemma ValidPicksSnoc(picks: seq<nat>, top: nat, j: nat)
    requires ValidPicks(picks, top) && |picks| < top && j <= top - |picks|
    ensures ValidPicks(picks + [j], top)
  {
    assert (picks + [j])[..|picks|] == picks;
  }

  /** A full pass over n elements: one draw for every i from n - 1 down to 1. */
  predicate IsFullPass(n: nat, picks: seq<nat>) {
    n >= 1 && |picks| == n - 1 && ValidPicks(picks, n - 1)
  }

  /** The sequence after the iterations whose draws are `picks`, done in
      order: the k-th swaps positions top - k and picks[k]. */
  function Shuffled<T>(s: seq<T>, top: nat, picks: seq<nat>): (r: seq<T>)
    requires top < |s| && ValidPicks(picks, top)
    ensures |r| == |s|
    decreases |picks|
  {
    if picks == [] then s
    else
      var k := |picks| - 1;
      ValidPicksPrefix(picks, top, k);
      Swap(Shuffled(s, top, picks[..k]), top - k, picks[k])
  }

  /** Every pass, finished or not, permutes the sequence. */
  lemma {:induction false} ShuffledPermutes<T>(s: seq<T>, top: nat, picks: seq<nat>)
    requires top < |s| && ValidPicks(picks, top)
    ensures multiset(Shuffled(s, top, picks)) == multiset(s)
    decreases |picks|
  {
    if picks != [] {
      var k := |picks| - 1;
      ValidPicksPrefix(picks, top, k);
      ShuffledPermutes(s, top, picks[..k]);
      SwapPermutes(Shuffled(s, top, picks[..k]), top - k, picks[k]);
    }
  }

  /** The first iteration can be taken off the front: after swapping the last
      position with the first draw, the remaining draws act on the positions
      below it. */
  lemma {:induction false} ShuffledFirstPick<T>(s: seq<T>, top: nat, j: nat, rest: seq<nat>)
    requires 1 <= top < |s| && j <= top && ValidPicks([j] + rest, top)
    ensures ValidPicks(rest, top - 1)
    ensures Shuffled(s, top, [j] + rest) == Shuffled(Swap(s, top, j), top - 1, rest)
    decreases |rest|
  {
    ValidPicksTail(j, rest, top);
    if rest != [] {
      var init := rest[..|rest| - 1];
      assert ([j] + rest)[..|rest|] == [j] + init;
      ValidPicksPrefix([j] + rest, top, |rest|);
      ShuffledFirstPick(s, top, j, init);
      ShuffledFirstPickStep(s, top, j, rest);
    }
  }

  /** Without its first draw, a pass is one over the positions below the top. */
  lemma {:induction false} ValidPicksTail(j: nat, rest: seq<nat>, top: nat)
    requires 1 <= top && ValidPicks([j] + rest, top)
    ensures ValidPicks(rest, top - 1)
    decreases |rest|
  {
    if rest != [] {
      var init := rest[..|rest| - 1];
      var picks := [j] + rest;
      assert picks[..|picks| - 1] == [j] + init;
      assert picks[|picks| - 1] == rest[|rest| - 1];
      ValidPicksTail(j, init, top);
    }
  }

  /** ... and a draw for the top put in front of one is a pass. */
  lemma {:induction false} ValidPicksCons(j: nat, rest: seq<nat>, top: nat)
    requires 1 <= top && j <= top && ValidPicks(rest, top - 1)
    ensures ValidPicks([j] + rest, top)
    decreases |rest|
  {
    var picks := [j] + rest;
    if rest != [] {
      var init := rest[..|rest| - 1];
      assert picks[..|picks| - 1] == [j] + init;
      assert picks[|picks| - 1] == rest[|rest| - 1];
      ValidPicksCons(j, init, top);
    } else {
      assert picks[..0] == [];
    }
  }

  /** The step of `ShuffledFirstPick`: taking the first iteration off the
      front commutes with one more iteration at the back. */
  lemma {:induction false} ShuffledFirstPickStep<T>(s: seq<T>, top: nat, j: nat, rest: seq<nat>)
    requires 1 <= top < |s| && j <= top && rest != []
    requires ValidPicks([j] + rest, top) && ValidPicks(rest, top - 1)
    requires ValidPicks([j] + rest[..|rest| - 1], top)
    requires ValidPicks(rest[..|rest| - 1], top - 1)
    requires Shuffled(s, top, [j] + rest[..|rest| - 1])
             == Shuffled(Swap(s, top, j), top - 1, rest[..|rest| - 1])
    ensures Shuffled(s, top, [j] + rest) == Shuffled(Swap(s, top, j), top - 1, rest)
  {
    var n := |rest|;
    var init, last := rest[..n - 1], rest[n - 1];
    assert rest == init + [last];
    assert [j] + rest == ([j] + init) + [last];
    ShuffledSnoc(s, top, [j] + init, last);
    ShuffledSnoc(Swap(s, top, j), top - 1, init, last);
  }

  /** One more iteration at the back: the definition of `Shuffled`, read
      with the last draw named. */
  lemma {:induction false} ShuffledSnoc<T>(s: seq<T>, top: nat, picks: seq<nat>, x: nat)
    requires top < |s| && ValidPicks(picks + [x], top)
    ensures ValidPicks(picks, top) && x <= top - |picks|
    ensures Shuffled(s, top, picks + [x]) == Swap(Shuffled(s, top, picks), top - |picks|, x)
  {
    var p := picks + [x];
    assert p != [] && p[..|p| - 1] == picks && p[|p| - 1] == x;
  }

  /** Iterations on positions inside `a` leave what follows `a` alone. */
  lemma {:induction false} ShuffledPrefix<T>(a: seq<T>, b: seq<T>, top: nat, picks: seq<nat>)
    requires top < |a| && ValidPicks(picks, top)
    ensures Shuffled(a + b, top, picks) == Shuffled(a, top, picks) + b
    decreases |picks|
  {
    if picks != [] {
      var k := |picks| - 1;
      ValidPicksPrefix(picks, top, k);
      ShuffledPrefix(a, b, top, picks[..k]);
      var x := Shuffled(a, top, picks[..k]);
      SwapAppend(x, b, top - k, picks[k]);
    }
  }

  /** A full pass whose first draw brings position j to the top ends with
      s[j] on top, and below it whatever the remaining draws make of the
      positions below. */
  lemma {:induction false} ShuffledTopFirst<T>(s: seq<T>, j: nat, rest: seq<nat>)
    requires |s| >= 2 && j < |s| && IsFullPass(|s| - 1, rest)
    ensures IsFullPass(|s|, [j] + rest)
    ensures var t := Swap(s, |s| - 1, j);
      Shuffled(s, |s| - 1, [j] + rest) == Shuffled(t[..|s| - 1], |s| - 2, rest) + [s[j]]
  {
    var n := |s|;
    FullPassCons(n, j, rest);
    var t := Swap(s, n - 1, j);
    var tInit := t[..n - 1];
    assert t == tInit + [s[j]];
    ShuffledFirstPick(s, n - 1, j, rest);
    ShuffledPrefix(tInit, [s[j]], n - 2, rest);
  }

  /** A draw for the top iteration followed by a full pass on the positions
      below it is a full pass. */
  lemma FullPassCons(n: nat, j: nat, rest: seq<nat>)
    requires n >= 2 && j < n && IsFullPass(n - 1, rest)
    ensures IsFullPass(n, [j] + rest)
  {
    ValidPicksCons(j, rest, n - 1);
  }

  /** ... and a full pass is a draw for the top iteration followed by one. */
  lemma FullPassTail(n: nat, picks: seq<nat>)
    requires n >= 2 && IsFullPass(n, picks)
    ensures picks[0] < n && IsFullPass(n - 1, picks[1..])
  {
    ValidPicksAt(picks, n - 1, 0);
    assert picks == [picks[0]] + picks[1..];
    ValidPicksTail(picks[0], picks[1..], n - 1);
  }

  /** The same full pass read from the front: the first draw brings an
      element to the top position, and the rest of the pass shuffles the
      positions below it. */
  function TopDown<T>(s: seq<T>, picks: seq<nat>): seq<T>
    requires IsFullPass(|s|, picks)
    decreases |s|
  {
    if |s| == 1 then s
    else
      var top := |s| - 1;
      FullPassTail(|s|, picks);
      var t := Swap(s, top, picks[0]);
      TopDown(t[..top], picks[1..]) + [t[top]]
  }

  /** The pass as the loop runs it and the pass read from the front agree. */
  lemma {:induction false} ShuffledIsTopDown<T>(s: seq<T>, picks: seq<nat>)
    requires IsFullPass(|s|, picks)
    ensures Shuffled(s, |s| - 1, picks) == TopDown(s, picks)
    decreases |s|
  {
    var n := |s|;
    if n >= 2 {
      var j, rest := picks[0], picks[1..];
      FullPassTail(n, picks);
      assert picks == [j] + rest;
      var t := Swap(s, n - 1, j);
      ShuffledTopFirst(s, j, rest);
      ShuffledIsTopDown(t[..n - 1], rest);
    }
  }

  /** Two permutations of each other that end alike still are without their
      last element. */
  lemma {:induction false} MultisetInit<T>(t: seq<T>, p: seq<T>)
    requires |t| == |p| >= 1 && t[|t| - 1] == p[|p| - 1]
    requires multiset(t) == multiset(p)
    ensures multiset(t[..|t| - 1]) == multiset(p[..|p| - 1])
  {
    var n, x := |t|, t[|t| - 1];
    assert t == t[..n - 1] + [x];
    assert p == p[..n - 1] + [x];
    assert multiset(t[..n - 1]) == multiset(t) - multiset{x};
    assert multiset(p[..n - 1]) == multiset(p) - multiset{x};
  }

  /** Drawing j first, then a pass that turns the positions below the top
      into all of p but its last element, yields p when s[j] is that last
      element. */
  lemma {:induction false} TopDownCons<T>(s: seq<T>, p: seq<T>, j: nat, rest: seq<nat>)
    requires |s| >= 2 && |p| == |s| && j < |s| && s[j] == p[|p| - 1]
    requires IsFullPass(|s| - 1, rest)
    requires TopDown(Swap(s, |s| - 1, j)[..|s| - 1], rest) == p[..|p| - 1]
    ensures IsFullPass(|s|, [j] + rest)
    ensures TopDown(s, [j] + rest) == p
  {
    var n, picks := |s|, [j] + rest;
    FullPassCons(n, j, rest);
    assert picks[0] == j && picks[1..] == rest;
    assert p[..n - 1] + [p[n - 1]] == p;
  }

  /** A permutation of `s` has as many elements, and its last one is found
      somewhere in `s`. */
  lemma {:induction false} LastElementFound<T>(s: seq<T>, p: seq<T>) returns (j: nat)
    requires |s| >= 1 && multiset(p) == multiset(s)
    ensures |p| == |s| && j < |s| && s[j] == p[|p| - 1]
  {
    assert |p| == |multiset(p)| == |multiset(s)| == |s|;
    var x := p[|p| - 1];
    assert x in multiset(s) by {
      assert x in multiset(p);
    }
    j :| 0 <= j < |s| && s[j] == x;
  }

  /** Every permutation of the sequence is the result of some full pass read
      from the front. */
  lemma {:induction false} TopDownReachesAll<T>(s: seq<T>, p: seq<T>) returns (picks: seq<nat>)
    requires |s| >= 1 && multiset(p) == multiset(s)
    ensures IsFullPass(|s|, picks)
    ensures TopDown(s, picks) == p
    decreases |s|
  {
    var n := |s|;
    var j := LastElementFound(s, p);
    if n == 1 {
      picks := [];
      assert p == [p[0]] && s == [s[0]];
    } else {
      var below := BelowTop(s, p, j);
      var rest := TopDownReachesAll(below, p[..n - 1]);
      picks := [j] + rest;
      TopDownCons(s, p, j, rest);
    }
  }

  /** What is left below the top once s[j], the last element of p, is
      swapped there: a permutation of the rest of p. */
  lemma {:induction false} BelowTop<T>(s: seq<T>, p: seq<T>, j: nat) returns (below: seq<T>)
    requires |s| >= 2 && |p| == |s| && j < |s| && s[j] == p[|p| - 1]
    requires multiset(p) == multiset(s)
    ensures below == Swap(s, |s| - 1, j)[..|s| - 1]
    ensures multiset(below) == multiset(p[..|p| - 1])
  {
    var t := Swap(s, |s| - 1, j);
    SwapPermutes(s, |s| - 1, j);
    MultisetInit(t, p);
    below := t[..|s| - 1];
  }

  /** Every permutation of the sequence is the result of some full pass, so
      no order is out of the shuffle's reach. */
  lemma {:induction false} EveryPermutationReachable<T>(s: seq<T>, p: seq<T>) returns (picks: seq<nat>)
    requires |s| >= 1 && multiset(p) == multiset(s)
    ensures IsFullPass(|s|, picks)
    ensures Shuffled(s, |s| - 1, picks) == p
  {
    picks := TopDownReachesAll(s, p);
    ShuffledIsTopDown(s, picks);
  }
}
