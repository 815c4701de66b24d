/** Value types shared by both front-ends: the parsed `minecraft:geometry`
    bone list and the small vectors the renderers are given. */
module Geometry {

  datatype Option<+T> = None | Some(value: T) {

    /** The value, or `default` when absent: a JavaScript destructuring default. */
    function GetOr(default: T): T
    {
      match this
      case Some(v) => v
      case None => default
    }
  }

  /** A point, an extent or an Euler rotation in degrees, one real per axis. */
  datatype Vec3 = Vec3(x: real, y: real, z: real) {

    function Plus(o: Vec3): Vec3
    {
      Vec3(x + o.x, y + o.y, z + o.z)
    }

    function Minus(o: Vec3): Vec3
    {
      Vec3(x - o.x, y - o.y, z - o.z)
    }

    function Half(): Vec3
    {
      Vec3(x / 2.0, y / 2.0, z / 2.0)
    }
  }

  const Zero := Vec3(0.0, 0.0, 0.0)

  /** A pair of reals: an atlas offset `[u, v]` or an atlas size `[width, height]`, in pixels. */
  datatype Vec2 = Vec2(x: real, y: real)

  /** A face's rectangle in normalised texture space (the renderer's Vector4). */
  datatype FaceUv = FaceUv(uMin: real, vMin: real, uMax: real, vMax: real)

  /** One entry of a bone's `cubes` array. Absent optional fields are `None`. */
  datatype Cuboid = Cuboid(
    origin: Vec3,
    size: Vec3,
    uv: Option<Vec2>,
    rotation: Option<Vec3>,
    inflate: Option<real>)

  /** One entry of the `bones` array. An absent `cubes` array is the empty sequence. */
  datatype Bone = Bone(
    name: string,
    parent: Option<string>,
    pivot: Vec3,
    rotation: Option<Vec3>,
    cubes: seq<Cuboid>)

  /** The rest rotation a bone is read with: `rotation = [0, 0, 0]` when absent. */
  function RestRotation(b: Bone): Vec3
  {
    b.rotation.GetOr(Zero)
  }
}
