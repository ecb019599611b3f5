/** The cube particles: every frame each cube's position moves by its own velocity, with no
    boundary, so the cubes drift away for as long as the page runs. */
module Cubes {
  import opened Scene

  /** A cube mesh; only its position is updated by the page. */
  class Cube {
    var position: Vec3

    constructor (position: Vec3)
      ensures this.position == position
    {
      this.position := position;
    }
  }

  /** The positions after one frame: each moved by the velocity with the same index. */
  function Drifted(ps: seq<Vec3>, vs: seq<Vec3>): (qs: seq<Vec3>)
    requires |ps| <= |vs|
    ensures |qs| == |ps|
  {
    seq(|ps|, i requires 0 <= i < |ps| => Add(ps[i], vs[i]))
  }

  /** The positions after n frames. */
  function DriftedFrames(ps: seq<Vec3>, vs: seq<Vec3>, n: nat): (qs: seq<Vec3>)
    requires |ps| <= |vs|
    ensures |qs| == |ps|
  {
    if n == 0 then ps else Drifted(DriftedFrames(ps, vs, n - 1), vs)
  }

  /** Without reflection the motion is uniform: after n frames each cube has moved by n times
      its velocity. */
  lemma {:induction false} DriftedFramesUniform(ps: seq<Vec3>, vs: seq<Vec3>, n: nat, i: int)
    requires |ps| <= |vs| && 0 <= i < |ps|
    ensures DriftedFrames(ps, vs, n)[i] == Add(ps[i], Scale(n as real, vs[i]))
  {
    if n > 0 {
      DriftedFramesUniform(ps, vs, n - 1, i);
      var m := (n - 1) as real;
      assert m * vs[i].x + vs[i].x == (n as real) * vs[i].x;
      assert m * vs[i].y + vs[i].y == (n as real) * vs[i].y;
      assert m * vs[i].z + vs[i].z == (n as real) * vs[i].z;
    }
  }

  /** A cube with a positive x velocity passes any x bound it starts below: after enough frames
      it is beyond it, since nothing turns it back. */
  lemma DriftIsUnbounded(ps: seq<Vec3>, vs: seq<Vec3>, i: int, bound: real, n: nat)
    requires |ps| <= |vs| && 0 <= i < |ps|
    requires 0.0 < vs[i].x && (n as real) * vs[i].x > bound - ps[i].x
    ensures DriftedFrames(ps, vs, n)[i].x > bound
  {
    DriftedFramesUniform(ps, vs, n, i);
  }

  ghost function Positions(cubes: seq<Cube>): (ps: seq<Vec3>)
    reads set c | c in cubes
    ensures |ps| == |cubes|
  {
    seq(|cubes|, i requires 0 <= i < |cubes| reads set c | c in cubes => cubes[i].position)
  }

  /** The page's per-frame update: cubes[index].position.add(velocities[index]) for every cube.
      The velocities are only read. */
  method Drift(cubes: seq<Cube>, velocities: array<Vec3>)
    requires |cubes| <= velocities.Length
    requires forall i, j :: 0 <= i < j < |cubes| ==> cubes[i] != cubes[j]
    modifies set c | c in cubes
    ensures Positions(cubes) == Drifted(old(Positions(cubes)), velocities[..])
    ensures velocities[..] == old(velocities[..])
  {
    var index := 0;
    while index < |cubes|
      invariant 0 <= index <= |cubes|
      invariant forall i :: 0 <= i < index ==> cubes[i].position == Add(old(cubes[i].position), velocities[i])
      invariant forall i :: index <= i < |cubes| ==> cubes[i].position == old(cubes[i].position)
    {
      cubes[index].position := Add(cubes[index].position, velocities[index]);
      index := index + 1;
    }
  }
}
