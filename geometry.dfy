/** Positions of nodes and access points, and the emulator's position sink. */
module Geometry {
  import opened Wrappers

  /** A point (x, y, z) in metres. */
  datatype Pos = Pos(x: real, y: real, z: real)

  /** The Pi's position as a tick logs it: the coordinates it read, or the
      origin when reading them raised. */
  function LoggedPosition(read: Option<Pos>): (p: Pos)
    ensures read.Some? ==> p == read.value
    ensures read.None? ==> p == Pos(0.0, 0.0, 0.0)
  {
    read.GetOr(Pos(0.0, 0.0, 0.0))
  }

  /** Squared Euclidean distance in three dimensions; the code takes the
      square root of this, which is not modelled (distances are inputs). */
  function SqDist(p: Pos, q: Pos): (r: real)
    ensures r >= 0.0
    ensures p == q ==> r == 0.0
  {
    var dx, dy, dz := p.x - q.x, p.y - q.y, p.z - q.z;
    assert dx * dx >= 0.0 && dy * dy >= 0.0 && dz * dz >= 0.0;
    dx * dx + dy * dy + dz * dz
  }

  lemma ScaledSquare(a: real, k: real)
    ensures (k * a) * (k * a) == (k * k) * (a * a)
  {
  }

  /** Scaling every coordinate of a difference by `c` scales the squared
      distance by `c * c`. */
  lemma SqDistScaled(u: Pos, v: Pos, w: Pos, z: Pos, c: real)
    requires u.x - v.x == c * (w.x - z.x)
    requires u.y - v.y == c * (w.y - z.y)
    requires u.z - v.z == c * (w.z - z.z)
    ensures SqDist(u, v) == (c * c) * SqDist(w, z)
  {
    ScaledSquare(w.x - z.x, c);
    ScaledSquare(w.y - z.y, c);
    ScaledSquare(w.z - z.z, c);
  }

  /** A node of the emulated network whose position is replaced wholesale by
      `setPosition`; `trail` records every position it was given, in order. */
  class Node {
    var position: Pos
    var trail: seq<Pos>

    constructor (start: Pos)
      ensures position == start && trail == []
    {
      position := start;
      trail := [];
    }

    method SetPosition(p: Pos)
      modifies this
      ensures position == p
      ensures trail == old(trail) + [p]
    {
      position := p;
      trail := trail + [p];
    }
  }
}
