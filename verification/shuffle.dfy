/**
 * The Fisher–Yates shuffle of the player context. The random draw
 * `Math.floor(Math.random() * (i + 1))` made at step `i` becomes the
 * explicit choice `choices[i]`, any integer in `[0, i]`.
 */
module Shuffle {

  /** Every choice is a draw the loop can make: `choices[i]` lies in `[0, i]`. */
  predicate ValidChoices(choices: seq<int>) {
    forall i :: 0 <= i < |choices| ==> 0 <= choices[i] <= i
  }

  /** The destructuring swap `[s[i], s[j]] = [s[j], s[i]]`. */
  function Swap<T>(s: seq<T>, i: nat, j: nat): (r: seq<T>)
    requires i < |s| && j < |s|
    ensures |r| == |s| && r[i] == s[j] && r[j] == s[i]
    ensures forall k :: 0 <= k < |s| && k != i && k != j ==> r[k] == s[k]
    ensures multiset(r) == multiset(s)
  {
    s[i := s[j]][j := s[i]]
  }

  /**
   * The loop run for `i = |choices| - 1` down to `1`: step `i` swaps
   * position `i` with position `choices[i]`.
   */
  function ShuffleDown<T>(s: seq<T>, choices: seq<int>): (r: seq<T>)
    requires |choices| <= |s| && ValidChoices(choices)
    ensures |r| == |s| && multiset(r) == multiset(s)
    decreases |choices|
  {
    if |choices| <= 1 then s
    else
      var i := |choices| - 1;
      ShuffleDown(Swap(s, i, choices[i]), choices[..i])
  }

  /** `shuffleArray`: the whole array shuffled with one draw per position. */
  function Shuffle<T>(s: seq<T>, choices: seq<int>): (r: seq<T>)
    requires |choices| == |s| && ValidChoices(choices)
    ensures |r| == |s| && multiset(r) == multiset(s)
  {
    ShuffleDown(s, choices)
  }

  /**
   * The source's loop over a copy of the input: the copy ends as the
   * shuffle the choices determine, and the input itself is a value and
   * cannot change.
   */
  method ShuffleArray<T>(input: seq<T>, choices: seq<int>) returns (shuffled: seq<T>)
    requires |choices| == |input| && ValidChoices(choices)
    ensures shuffled == Shuffle(input, choices)
    ensures |shuffled| == |input| && multiset(shuffled) == multiset(input)
  {
    shuffled := input;
    assert choices[..|input|] == choices;
    var i := |shuffled| - 1;
    while i > 0
      invariant -1 <= i < |input| && (|input| > 0 ==> i >= 0)
      invariant |shuffled| == |input|
      invariant ValidChoices(choices[..i + 1])
      invariant ShuffleDown(shuffled, choices[..i + 1]) == Shuffle(input, choices)
    {
      var j := choices[i];
      ShuffleDownStep(shuffled, choices, i);
      shuffled := Swap(shuffled, i, j);
      i := i - 1;
    }
  }

  /** One turn of the loop: the draws still to make after step `i` are those below `i`. */
  lemma ShuffleDownStep<T>(s: seq<T>, choices: seq<int>, i: nat)
    requires 0 < i < |s| && i < |choices| && ValidChoices(choices[..i + 1])
    ensures ValidChoices(choices[..i])
    ensures ShuffleDown(s, choices[..i + 1]) == ShuffleDown(Swap(s, i, choices[i]), choices[..i])
  {
    var cs := choices[..i + 1];
    forall k | 0 <= k < i ensures 0 <= choices[..i][k] <= k {
      assert choices[..i][k] == cs[k];
    }
    assert cs[..i] == choices[..i];
    assert cs[i] == choices[i];
  }

  /** The first position of `x` in `s`. */
  function IndexOf<T(==)>(s: seq<T>, x: T): (k: nat)
    requires x in s
    ensures k < |s| && s[k] == x
  {
    if s[0] == x then 0 else 1 + IndexOf(s[1..], x)
  }

  /** The draw at step `m - 1` that brings the element `t` wants there into place. */
  function Pick<T(==)>(s: seq<T>, t: seq<T>, m: nat): (j: nat)
    requires 0 < m <= |s| == |t| && multiset(s[..m]) == multiset(t[..m])
    ensures j < m && s[j] == t[m - 1]
  {
    assert t[m - 1] in multiset(t[..m]) by { assert t[..m][m - 1] == t[m - 1]; }
    IndexOf(s[..m], t[m - 1])
  }

  /** After that draw the first `m - 1` positions still hold what `t` has there, in some order. */
  lemma PickStep<T>(s: seq<T>, t: seq<T>, m: nat, j: nat)
    requires 0 < m <= |s| == |t| && multiset(s[..m]) == multiset(t[..m])
    requires j < m && s[j] == t[m - 1]
    ensures Swap(s, m - 1, j)[m - 1] == t[m - 1]
    ensures multiset(Swap(s, m - 1, j)[..m - 1]) == multiset(t[..m - 1])
  {
    var i := m - 1;
    var s' := Swap(s, i, j);
    SwapPrefix(s, i, j, m);
    PrefixSnoc(s', m);
    PrefixSnoc(t, m);
    MultisetCancel(s'[..i], t[..i], t[i]);
  }

  /** A non-empty prefix is the shorter prefix followed by its last element. */
  lemma PrefixSnoc<T>(a: seq<T>, m: nat)
    requires 0 < m <= |a|
    ensures a[..m] == a[..m - 1] + [a[m - 1]]
  {
  }

  /** Equal multisets stay equal after taking the same element off both. */
  lemma MultisetCancel<T>(a: seq<T>, b: seq<T>, x: T)
    requires multiset(a + [x]) == multiset(b + [x])
    ensures multiset(a) == multiset(b)
  {
    assert multiset(a + [x]) == multiset(a) + multiset{x};
    assert multiset(b + [x]) == multiset(b) + multiset{x};
    assert multiset(a) == multiset(a + [x]) - multiset{x};
    assert multiset(b) == multiset(b + [x]) - multiset{x};
  }

  /**
   * Draws that turn `s` into the arrangement `t`, fixing the positions
   * from `m - 1` down to `0` one by one.
   */
  function ChoicesFor<T(==)>(s: seq<T>, t: seq<T>, m: nat): (choices: seq<int>)
    requires m <= |s| == |t| && multiset(s[..m]) == multiset(t[..m])
    ensures |choices| == m && ValidChoices(choices)
    decreases m
  {
    if m == 0 then []
    else
      var j := Pick(s, t, m);
      PickStep(s, t, m, j);
      ChoicesFor(Swap(s, m - 1, j), t, m - 1) + [j]
  }

  /** The draws that shuffle `s` into its permutation `t`. */
  function PermutationChoices<T(==)>(s: seq<T>, t: seq<T>): (choices: seq<int>)
    requires |s| == |t| && multiset(s) == multiset(t)
    ensures |choices| == |s| && ValidChoices(choices)
  {
    assert s[..|s|] == s && t[..|t|] == t;
    ChoicesFor(s, t, |s|)
  }

  /** A swap inside the first `m` positions permutes that prefix and keeps the rest. */
  lemma SwapPrefix<T>(s: seq<T>, i: nat, j: nat, m: nat)
    requires i < m && j < m && m <= |s|
    ensures multiset(Swap(s, i, j)[..m]) == multiset(s[..m])
    ensures Swap(s, i, j)[m..] == s[m..]
  {
    var r := Swap(s, i, j);
    assert r[..m] == s[..m][i := s[j]][j := s[i]];
  }

  /**
   * Every arrangement of the input is reached by some valid draws: the
   * shuffle can produce any permutation.
   */
  lemma ShuffleReachesEveryPermutation<T>(s: seq<T>, t: seq<T>)
    requires |s| == |t| && multiset(s) == multiset(t)
    ensures Shuffle(s, PermutationChoices(s, t)) == t
  {
    assert s[..|s|] == s && t[..|t|] == t;
    assert s[|s|..] == t[|t|..];
    ShuffleDownChoicesFor(s, t, |s|);
  }

  lemma {:induction false} ShuffleDownChoicesFor<T>(s: seq<T>, t: seq<T>, m: nat)
    requires m <= |s| == |t| && multiset(s[..m]) == multiset(t[..m]) && s[m..] == t[m..]
    ensures ShuffleDown(s, ChoicesFor(s, t, m)) == t
    decreases m
  {
    if m <= 1 {
      FewPositionsFixed(s, t, m);
    } else {
      var i := m - 1;
      var j := Pick(s, t, m);
      var s' := Swap(s, i, j);
      PickStep(s, t, m, j);
      SuffixFixed(s, t, m, j);
      ShuffleDownChoicesFor(s', t, i);
      ChoicesForUnfold(s, t, m, j);
    }
  }

  /** With at most one position left, the draws change nothing and the arrangements agree. */
  lemma FewPositionsFixed<T>(s: seq<T>, t: seq<T>, m: nat)
    requires m <= 1 && m <= |s| == |t| && multiset(s[..m]) == multiset(t[..m]) && s[m..] == t[m..]
    ensures ShuffleDown(s, ChoicesFor(s, t, m)) == t
  {
    if m == 0 {
      assert s == s[0..] && t == t[0..];
    } else {
      var j := Pick(s, t, 1);
      assert s == [s[0]] + s[1..] && t == [t[0]] + t[1..];
    }
  }

  /** After the draw at `m - 1` the arrangements agree from position `m - 1` on. */
  lemma SuffixFixed<T>(s: seq<T>, t: seq<T>, m: nat, j: nat)
    requires 0 < m <= |s| == |t| && s[m..] == t[m..]
    requires j < m && s[j] == t[m - 1]
    ensures Swap(s, m - 1, j)[m - 1..] == t[m - 1..]
  {
    var s' := Swap(s, m - 1, j);
    SwapPrefix(s, m - 1, j, m);
    assert s'[m - 1..] == [t[m - 1]] + s'[m..];
    assert t[m - 1..] == [t[m - 1]] + t[m..];
  }

  /** The first loop turn with the constructed draws, for at least two positions. */
  lemma ChoicesForUnfold<T>(s: seq<T>, t: seq<T>, m: nat, j: nat)
    requires 1 < m <= |s| == |t| && multiset(s[..m]) == multiset(t[..m])
    requires j == Pick(s, t, m) && multiset(Swap(s, m - 1, j)[..m - 1]) == multiset(t[..m - 1])
    ensures ShuffleDown(s, ChoicesFor(s, t, m)) ==
            ShuffleDown(Swap(s, m - 1, j), ChoicesFor(Swap(s, m - 1, j), t, m - 1))
  {
    var i := m - 1;
    var rest := ChoicesFor(Swap(s, i, j), t, i);
    var cs := rest + [j];
    assert ChoicesFor(s, t, m) == cs;
    assert cs[..i] == rest && cs[i] == j;
  }
}
