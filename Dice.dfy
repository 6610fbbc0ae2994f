/** The shared pool of action dice: an ordered list of pip values. */
module Dice {

  predicate IsPip(v: int) {
    1 <= v <= 6
  }

  /** `dice` is a possible outcome of rolling `n` six-sided dice. */
  predicate ValidRoll(dice: seq<int>, n: nat) {
    |dice| == n && forall i :: 0 <= i < |dice| ==> IsPip(dice[i])
  }

  /** A pool of at most `n` dice, each showing a pip. */
  predicate PoolFits(dice: seq<int>, n: nat) {
    |dice| <= n && forall i :: 0 <= i < |dice| ==> IsPip(dice[i])
  }

  /** Every draw of the random source shows a pip. */
  ghost predicate Pips(pip: nat -> int) {
    forall i: nat :: IsPip(pip(i))
  }

  /** A roll of `n` dice, die `i` showing the `i`-th draw `pip(i)` of the
      random source. */
  function Roll(n: nat, pip: nat -> int): (dice: seq<int>)
    ensures |dice| == n
    ensures forall i :: 0 <= i < n ==> dice[i] == pip(i)
    ensures Pips(pip) ==> ValidRoll(dice, n)
  {
    seq(n, (i: int) requires 0 <= i => pip(i))
  }

  lemma RollFits(dice: seq<int>, n: nat)
    requires ValidRoll(dice, n)
    ensures PoolFits(dice, n)
  {
  }

  /** The pool after spending one die of value `v`: its first occurrence is
      taken out; a value that is not in the pool leaves the pool as it is. */
  function RemoveFirst(s: seq<int>, v: int): (r: seq<int>)
    ensures v !in s ==> r == s
    ensures v in s ==> |r| == |s| - 1
  {
    if s == [] then []
    else if s[0] == v then s[1..]
    else [s[0]] + RemoveFirst(s[1..], v)
  }

  /** Exactly one die showing `v` leaves the pool, if there is one. */
  lemma {:induction false} RemoveFirstMultiset(s: seq<int>, v: int)
    ensures multiset(RemoveFirst(s, v)) == if v in s then multiset(s) - multiset{v} else multiset(s)
  {
    if s != [] {
      assert s == [s[0]] + s[1..];
      if s[0] != v {
        RemoveFirstMultiset(s[1..], v);
      }
    }
  }

  /** Spending removes exactly the die at the first index holding `v`. */
  lemma {:induction false} RemoveFirstAt(s: seq<int>, v: int, i: nat)
    requires i < |s| && s[i] == v && v !in s[..i]
    ensures RemoveFirst(s, v) == s[..i] + s[i + 1..]
  {
    if i > 0 {
      assert s[0] in s[..i];
      var t := s[1..];
      assert t[..i - 1] == s[1..i];
      assert v !in t[..i - 1] by {
        assert forall x :: x in t[..i - 1] ==> x in s[..i];
      }
      RemoveFirstAt(t, v, i - 1);
      assert t[i..] == s[i + 1..];
      assert s[..i] == [s[0]] + s[1..i];
    }
  }

  /** Spending never raises a pip out of range, never adds a die. */
  lemma {:induction false} RemoveFirstKeepsPips(s: seq<int>, v: int, n: nat)
    requires PoolFits(s, n)
    ensures PoolFits(RemoveFirst(s, v), n)
  {
    var r := RemoveFirst(s, v);
    RemoveFirstMultiset(s, v);
    forall i | 0 <= i < |r| ensures IsPip(r[i]) {
      assert r[i] in multiset(r);
      assert r[i] in multiset(s);
      assert r[i] in s;
    }
  }

  /** The index of the first die showing `v`, or -1 when there is none. */
  method IndexOf(s: seq<int>, v: int) returns (i: int)
    ensures -1 <= i < |s|
    ensures i == -1 <==> v !in s
    ensures i >= 0 ==> s[i] == v && v !in s[..i]
  {
    var k := 0;
    while k < |s|
      invariant 0 <= k <= |s|
      invariant v !in s[..k]
    {
      if s[k] == v {
        return k;
      }
      assert s[..k + 1] == s[..k] + [s[k]];
      k := k + 1;
    }
    assert s[..k] == s;
    return -1;
  }

  /** Spending a die: the first die showing `v` is spliced out of the
      pool. */
  method TakeDie(pool: seq<int>, v: int) returns (r: seq<int>)
    ensures r == RemoveFirst(pool, v)
  {
    r := pool;
    var i := IndexOf(pool, v);
    if i > -1 {
      RemoveFirstAt(pool, v, i);
      r := pool[..i] + pool[i + 1..];
    }
  }
}
