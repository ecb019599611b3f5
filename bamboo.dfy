/** The "bamboo forest" particle field: every frame each particle moves by its velocity, and
    each velocity component is reversed when the moved coordinate lies outside [-250, 250].
    Positions are kept flat, three numbers per particle, as in the renderer's position buffer;
    velocities are one vector per particle. */
module Bamboo {
  import opened Scene

  /** Half the side of the cube the particles live in. */
  const Bound: real := 250.0

  predicate OutOfBounds(c: real)
  {
    c < -Bound || c > Bound
  }

  /** A velocity component after the coordinate it drives has moved to c. */
  function Reflect(c: real, v: real): real
  {
    if OutOfBounds(c) then -v else v
  }

  /** The whole field: positions (stride 3) and the parallel velocities. */
  datatype Field = Field(positions: seq<real>, velocities: seq<Vec3>)
  {
    predicate Valid()
    {
      |positions| == 3 * |velocities|
    }
  }

  /** Coordinate k (0 = x, 1 = y, 2 = z) of particle j in a flat position buffer. */
  function Coord(ps: seq<real>, j: int, k: int): real
    requires 0 <= j && 0 <= k < 3 && 3 * j + k < |ps|
  {
    ps[3 * j + k]
  }

  /** The buffer after every coordinate has moved by its particle's velocity. */
  function Advanced(ps: seq<real>, vs: seq<Vec3>): (qs: seq<real>)
    requires |ps| == 3 * |vs|
    ensures |qs| == |ps|
    decreases |vs|
  {
    if vs == [] then []
    else [ps[0] + vs[0].x, ps[1] + vs[0].y, ps[2] + vs[0].z] + Advanced(ps[3..], vs[1..])
  }

  /** A particle's velocity after its moved coordinates are (x, y, z). */
  function Bounce(v: Vec3, x: real, y: real, z: real): Vec3
  {
    Vec3(Reflect(x, v.x), Reflect(y, v.y), Reflect(z, v.z))
  }

  /** The velocities after reflection against the already moved buffer ps. */
  function Bounced(ps: seq<real>, vs: seq<Vec3>): (r: seq<Vec3>)
    requires |ps| == 3 * |vs|
    ensures |r| == |vs|
    ensures forall j :: 0 <= j < |vs| ==>
      Abs(r[j].x) == Abs(vs[j].x) && Abs(r[j].y) == Abs(vs[j].y) && Abs(r[j].z) == Abs(vs[j].z)
    ensures forall j :: 0 <= j < |vs| ==>
      (!OutOfBounds(ps[3 * j]) && !OutOfBounds(ps[3 * j + 1]) && !OutOfBounds(ps[3 * j + 2]) ==> r[j] == vs[j])
  {
    seq(|vs|, j requires 0 <= j < |vs| => Bounce(vs[j], ps[3 * j], ps[3 * j + 1], ps[3 * j + 2]))
  }

  /** One animation frame of the field. */
  function Tick(f: Field): (g: Field)
    requires f.Valid()
    ensures g.Valid() && |g.velocities| == |f.velocities|
  {
    var ps := Advanced(f.positions, f.velocities);
    Field(ps, Bounced(ps, f.velocities))
  }

  /** `n` animation frames. */
  function Ticks(f: Field, n: nat): (g: Field)
    requires f.Valid()
    ensures g.Valid() && |g.velocities| == |f.velocities|
  {
    if n == 0 then f else Tick(Ticks(f, n - 1))
  }

  /** One frame, per particle and axis: the coordinate moves by the velocity it had before the
      frame, and that velocity component is negated exactly when the moved coordinate is out of
      bounds; its magnitude never changes. */
  lemma TickParticle(f: Field, j: int, k: int)
    requires f.Valid() && 0 <= j < |f.velocities| && 0 <= k < 3
    ensures |Tick(f).positions| == |f.positions| && |Tick(f).velocities| == |f.velocities|
    ensures var c', v, v' := Coord(Tick(f).positions, j, k), Component(f.velocities[j], k),
                             Component(Tick(f).velocities[j], k);
      c' == Coord(f.positions, j, k) + v &&
      (OutOfBounds(c') ==> v' == -v) &&
      (!OutOfBounds(c') ==> v' == v) &&
      Abs(v') == Abs(v)
  {
    var ps := Advanced(f.positions, f.velocities);
    AdvancedAt(f.positions, f.velocities, j, k);
    BouncedAt(ps, f.velocities, j);
    var b := Bounce(f.velocities[j], ps[3 * j], ps[3 * j + 1], ps[3 * j + 2]);
    assert Component(b, k) == Reflect(ps[3 * j + k], Component(f.velocities[j], k)) by {
      if k == 0 {
        assert 3 * j + k == 3 * j;
      } else if k == 1 {
        assert 3 * j + k == 3 * j + 1;
      } else {
        assert 3 * j + k == 3 * j + 2;
      }
    }
  }

  lemma BouncedAt(ps: seq<real>, vs: seq<Vec3>, j: int)
    requires |ps| == 3 * |vs| && 0 <= j < |vs|
    ensures Bounced(ps, vs)[j] == Bounce(vs[j], ps[3 * j], ps[3 * j + 1], ps[3 * j + 2])
  {
  }

  lemma {:induction false} AdvancedAt(ps: seq<real>, vs: seq<Vec3>, j: int, k: int)
    requires |ps| == 3 * |vs| && 0 <= j < |vs| && 0 <= k < 3
    ensures Advanced(ps, vs)[3 * j + k] == ps[3 * j + k] + Component(vs[j], k)
    decreases j
  {
    if j > 0 {
      AdvancedAt(ps[3..], vs[1..], j - 1, k);
      assert 3 * (j - 1) + k + 3 == 3 * j + k;
    }
  }

  /** Index 3j + k of a flat buffer is coordinate k of particle j. */
  lemma Join3(j: int, k: int)
    requires 0 <= j && 0 <= k < 3
    ensures (3 * j + k) / 3 == j && (3 * j + k) % 3 == k
  {
  }

  /** Every index of a flat buffer is coordinate k of some particle p. */
  lemma Split3(m: int) returns (p: int, k: int)
    requires 0 <= m
    ensures m == 3 * p + k && 0 <= p && 0 <= k < 3
  {
    p, k := m / 3, m % 3;
  }

  function Abs(x: real): real
  {
    if x < 0.0 then -x else x
  }

  /** Every coordinate in [-250, 250] and every velocity component in [-1, 1]: the ranges the
      page draws the initial field from. */
  predicate Initial(f: Field)
  {
    f.Valid() &&
    (forall i :: 0 <= i < |f.positions| ==> -Bound <= f.positions[i] <= Bound) &&
    (forall j, k :: 0 <= j < |f.velocities| && 0 <= k < 3 ==> -1.0 <= Component(f.velocities[j], k) <= 1.0)
  }

  /** The one-axis state a particle can be in once the field runs: within one unit beyond the
      boundary, with unit speed at most, and, when outside and still heading out, not going
      further than one unit beyond. */
  predicate Contained(c: real, v: real)
  {
    -1.0 <= v <= 1.0 && -Bound - 1.0 <= c <= Bound + 1.0 &&
    (c > Bound && v > 0.0 ==> c + v <= Bound + 1.0) &&
    (c < -Bound && v < 0.0 ==> c + v >= -Bound - 1.0)
  }

  predicate FieldContained(f: Field)
  {
    f.Valid() &&
    forall j, k :: 0 <= j < |f.velocities| && 0 <= k < 3 ==>
      Contained(Coord(f.positions, j, k), Component(f.velocities[j], k))
  }

  lemma InitialContained(f: Field)
    requires Initial(f)
    ensures FieldContained(f)
  {
    forall j, k | 0 <= j < |f.velocities| && 0 <= k < 3
      ensures Contained(Coord(f.positions, j, k), Component(f.velocities[j], k))
    {
      assert -Bound <= f.positions[3 * j + k] <= Bound;
    }
  }

  /** One frame keeps every axis of every particle contained. */
  lemma TickContained(f: Field)
    requires FieldContained(f)
    ensures FieldContained(Tick(f))
  {
    forall j, k | 0 <= j < |f.velocities| && 0 <= k < 3
      ensures Contained(Coord(Tick(f).positions, j, k), Component(Tick(f).velocities[j], k))
    {
      TickParticle(f, j, k);
    }
  }

  /** From the page's initial ranges, one frame moves no coordinate more than one unit past the
      boundary (the reflection acts on the velocity only, so a particle may be drawn just outside). */
  lemma FirstTickWithinOneUnit(f: Field)
    requires Initial(f)
    ensures forall i :: 0 <= i < |Tick(f).positions| ==> -Bound - 1.0 <= Tick(f).positions[i] <= Bound + 1.0
  {
    InitialContained(f);
    TickContained(f);
    TickedBufferWithinOneUnit(Tick(f));
  }

  /** However many frames run, no coordinate ever gets more than one unit past the boundary and
      no velocity component leaves [-1, 1]. */
  lemma {:induction false} TicksWithinOneUnit(f: Field, n: nat)
    requires Initial(f)
    ensures FieldContained(Ticks(f, n))
    ensures forall i :: 0 <= i < |Ticks(f, n).positions| ==> -Bound - 1.0 <= Ticks(f, n).positions[i] <= Bound + 1.0
  {
    if n == 0 {
      InitialContained(f);
    } else {
      TicksWithinOneUnit(f, n - 1);
      TickContained(Ticks(f, n - 1));
    }
    TickedBufferWithinOneUnit(Ticks(f, n));
  }

  lemma TickedBufferWithinOneUnit(f: Field)
    requires FieldContained(f)
    ensures forall i :: 0 <= i < |f.positions| ==> -Bound - 1.0 <= f.positions[i] <= Bound + 1.0
  {
    forall i | 0 <= i < |f.positions|
      ensures -Bound - 1.0 <= f.positions[i] <= Bound + 1.0
    {
      var p, k := Split3(i);
      assert f.positions[i] == Coord(f.positions, p, k);
    }
  }

  /** A buffer that agrees with Advanced particle by particle and axis by axis is Advanced. */
  lemma AdvancedByParticle(qs: seq<real>, ps: seq<real>, vs: seq<Vec3>)
    requires |qs| == |ps| == 3 * |vs|
    requires forall p, k :: 0 <= p < |vs| && 0 <= k < 3 ==> qs[3 * p + k] == ps[3 * p + k] + Component(vs[p], k)
    ensures qs == Advanced(ps, vs)
  {
    forall m | 0 <= m < |qs|
      ensures qs[m] == Advanced(ps, vs)[m]
    {
      var p, k := Split3(m);
      AdvancedAt(ps, vs, p, k);
      assert qs[3 * p + k] == ps[3 * p + k] + Component(vs[p], k);
    }
  }

  /** The page's per-frame loop over the position buffer and the velocity vectors, in place. */
  method BambooTick(positions: array<real>, velocities: array<Vec3>)
    requires positions.Length == 3 * velocities.Length
    modifies positions, velocities
    ensures Field(positions[..], velocities[..]) == Tick(Field(old(positions[..]), old(velocities[..])))
  {
    ghost var ps0, vs0 := positions[..], velocities[..];
    var i := 0;
    ghost var j := 0;
    while i < positions.Length
      invariant 0 <= j <= velocities.Length && i == 3 * j
      invariant forall p, k :: 0 <= p < j && 0 <= k < 3 ==>
        positions[3 * p + k] == ps0[3 * p + k] + Component(vs0[p], k)
      invariant forall m :: i <= m < positions.Length ==> positions[m] == ps0[m]
      invariant forall p :: 0 <= p < j ==>
        velocities[p] == Bounce(vs0[p], positions[3 * p], positions[3 * p + 1], positions[3 * p + 2])
      invariant forall p :: j <= p < velocities.Length ==> velocities[p] == vs0[p]
    {
      MoveParticle(positions, velocities, i, j);
      i := i + 3;
      j := j + 1;
    }
    AdvancedByParticle(positions[..], ps0, vs0);
  }

  /** The loop body for the particle whose coordinates start at index i of the buffer: advance its
      three coordinates, then reflect each velocity component whose coordinate left the bounds. */
  method MoveParticle(positions: array<real>, velocities: array<Vec3>, i: int, ghost j: int)
    requires positions.Length == 3 * velocities.Length
    requires 0 <= j < velocities.Length && i == 3 * j
    modifies positions, velocities
    ensures forall k :: 0 <= k < 3 ==> positions[i + k] == old(positions[i + k]) + Component(old(velocities[j]), k)
    ensures forall m :: 0 <= m < positions.Length && (m < i || i + 2 < m) ==> positions[m] == old(positions[m])
    ensures velocities[j] == Bounce(old(velocities[j]), positions[i], positions[i + 1], positions[i + 2])
    ensures forall p :: 0 <= p < velocities.Length && p != j ==> velocities[p] == old(velocities[p])
  {
    Join3(j, 0);
    positions[i] := positions[i] + velocities[i / 3].x;
    positions[i + 1] := positions[i + 1] + velocities[i / 3].y;
    positions[i + 2] := positions[i + 2] + velocities[i / 3].z;

    if positions[i] < -Bound || positions[i] > Bound {
      velocities[i / 3] := velocities[i / 3].(x := -velocities[i / 3].x);
    }
    if positions[i + 1] < -Bound || positions[i + 1] > Bound {
      velocities[i / 3] := velocities[i / 3].(y := -velocities[i / 3].y);
    }
    if positions[i + 2] < -Bound || positions[i + 2] > Bound {
      velocities[i / 3] := velocities[i / 3].(z := -velocities[i / 3].z);
    }
  }
}
