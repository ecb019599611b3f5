/** The parts of the rendering library's scene graph that the page's own logic
    reads and writes: the camera's position and rotation, and 3-component vectors. */
module Scene {

  /** Math.min on two numbers. */
  function Min(a: real, b: real): (m: real)
    ensures m <= a && m <= b && (m == a || m == b)
  {
    if a < b then a else b
  }

  /** Math.max on two numbers. */
  function Max(a: real, b: real): (m: real)
    ensures a <= m && b <= m && (m == a || m == b)
  {
    if a < b then b else a
  }

  /** Snapshot of the camera fields touched by the page: position.x/y/z and rotation.x/y. */
  datatype Pose = Pose(posX: real, posY: real, posZ: real, rotX: real, rotY: real)

  /** A Vector3 used as a value (a particle's position or velocity). */
  datatype Vec3 = Vec3(x: real, y: real, z: real)

  /** Vector3.add: componentwise sum. */
  function Add(a: Vec3, b: Vec3): Vec3
  {
    Vec3(a.x + b.x, a.y + b.y, a.z + b.z)
  }

  /** Component k (0 = x, 1 = y, 2 = z) of a vector. */
  function Component(v: Vec3, k: int): real
    requires 0 <= k < 3
  {
    if k == 0 then v.x else if k == 1 then v.y else v.z
  }

  /** Scales a vector by a number. */
  function Scale(n: real, v: Vec3): Vec3
  {
    Vec3(n * v.x, n * v.y, n * v.z)
  }

  /** The perspective camera: its position and its rotation about x and y are updated in place. */
  class Camera {
    var posX: real
    var posY: real
    var posZ: real
    var rotX: real
    var rotY: real

    /** The camera as the page sets it up: position (0, 0, 100), no rotation. */
    constructor ()
      ensures State() == Pose(0.0, 0.0, 100.0, 0.0, 0.0)
    {
      posX, posY, posZ := 0.0, 0.0, 100.0;
      rotX, rotY := 0.0, 0.0;
    }

    function State(): Pose
      reads this
    {
      Pose(posX, posY, posZ, rotX, rotY)
    }
  }
}
