/** The mobility of the Raspberry Pi scenarios: a fixed list of positions
    visited in order, either by index modulo the list length or by repeated
    passes over the list. */
module Cycling {
  import opened Geometry

  /** The positions ticks 0, 1, ..., n - 1 pick with `positions[i % len(positions)]`. */
  function Cycle<T>(ps: seq<T>, n: nat): (c: seq<T>)
    requires |ps| > 0
    ensures |c| == n
  {
    seq(n, i requires 0 <= i < n => ps[i % |ps|])
  }

  /** `rounds` complete passes of `for pos in positions`. */
  function Repeat<T>(ps: seq<T>, rounds: nat): (r: seq<T>)
    ensures |r| == rounds * |ps|
    decreases rounds
  {
    if rounds == 0 then [] else Repeat(ps, rounds - 1) + ps
  }

  /** As many ticks as there are positions visit each of them once, in list
      order. */
  lemma CycleOnce<T>(ps: seq<T>)
    requires |ps| > 0
    ensures Cycle(ps, |ps|) == ps
  {
  }

  /** The picked positions are periodic: tick `i + len` is at the same
      position as tick `i`. */
  lemma CyclePeriodic<T>(ps: seq<T>, n: nat, i: nat)
    requires |ps| > 0 && i + |ps| < n
    ensures Cycle(ps, n)[i + |ps|] == Cycle(ps, n)[i]
  {
    var m := |ps|;
    ModUnique(i + m, m, i / m + 1, i % m);
  }

  /** Every pick is one of the listed positions: the index is always valid. */
  lemma CycleInList<T>(ps: seq<T>, n: nat, i: nat)
    requires |ps| > 0 && i < n
    ensures Cycle(ps, n)[i] in ps
  {
  }

  lemma MulAtLeast(a: int, m: int)
    requires a >= 1 && m > 0
    ensures a * m >= m
  {
  }

  /** Euclidean division is unique: a quotient and a remainder in range are
      the ones `/` and `%` give. */
  lemma ModUnique(x: int, m: int, q: int, r: int)
    requires m > 0 && 0 <= r < m && x == q * m + r
    ensures x % m == r
  {
    var d := x / m;
    assert x == d * m + x % m;
    assert (q - d) * m == x % m - r;
    if q - d >= 1 {
      MulAtLeast(q - d, m);
    } else if d - q >= 1 {
      MulAtLeast(d - q, m);
    }
  }

  /** Repeated passes over the list are the same visits as picking by index
      `i % len`: the positions come in list order, cyclically. */
  lemma {:induction false} RepeatIsCycle<T>(ps: seq<T>, rounds: nat)
    requires |ps| > 0
    ensures Repeat(ps, rounds) == Cycle(ps, rounds * |ps|)
    decreases rounds
  {
    if rounds > 0 {
      RepeatIsCycle(ps, rounds - 1);
      var n := (rounds - 1) * |ps|;
      var r, c := Repeat(ps, rounds), Cycle(ps, rounds * |ps|);
      forall i | 0 <= i < |r|
        ensures r[i] == c[i]
      {
        if i >= n {
          assert r[i] == ps[i - n];
          ModUnique(i, |ps|, rounds - 1, i - n);
        }
      }
    }
  }

  /** `for i in range(total): rasp.setPosition(positions[i % len(positions)])`. */
  method MoveThrough(node: Node, ps: seq<Pos>, total: nat)
    requires |ps| > 0
    modifies node
    ensures node.trail == old(node.trail) + Cycle(ps, total)
    ensures total > 0 ==> node.position == ps[(total - 1) % |ps|]
    ensures total == 0 ==> node.position == old(node.position)
  {
    ghost var t0 := node.trail;
    var i := 0;
    while i < total
      invariant 0 <= i <= total
      invariant node.trail == t0 + Cycle(ps, i)
      invariant i > 0 ==> node.position == ps[(i - 1) % |ps|]
      invariant i == 0 ==> node.position == old(node.position)
    {
      var pos := ps[i % |ps|];
      node.SetPosition(pos);
      i := i + 1;
    }
  }
}
