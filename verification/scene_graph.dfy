/** The part of a renderer scene node that the builders touch: a box mesh
    (or an empty transform node) whose transform fields are assigned after
    construction and which collects children. */
module SceneGraph {
  import opened Geometry

  class Node {
    /** Box dimensions the mesh was created with; the geometry is fixed once built. */
    const size: Vec3
    /** Per-face texture rectangles of the mesh, when the box was textured. */
    const faceUv: Option<seq<FaceUv>>

    var position: Vec3
    /** Euler angles in degrees; the renderer holds their conversion to radians. */
    var rotation: Vec3
    /** Uniform scale applied to all three axes. */
    var scaling: real
    /** The bone pivot stashed on the node for later use. */
    var pivot: Option<Vec3>
    /** The bone rest rotation stashed beside the pivot. */
    var restRotation: Option<Vec3>
    var children: seq<Node>

    /** A fresh mesh sits at the origin, unrotated, at scale 1, with nothing stashed and no children. */
    constructor (size: Vec3, faceUv: Option<seq<FaceUv>>)
      ensures this.size == size && this.faceUv == faceUv
      ensures position == Zero && rotation == Zero && scaling == 1.0
      ensures pivot == None && restRotation == None && children == []
    {
      this.size := size;
      this.faceUv := faceUv;
      position := Zero;
      rotation := Zero;
      scaling := 1.0;
      pivot := None;
      restRotation := None;
      children := [];
    }

    /** `addChild` / `add`: the child joins the end of the child list; no
        other field of any node changes. */
    method AddChild(child: Node)
      modifies this`children
      ensures children == old(children) + [child]
    {
      children := children + [child];
    }
  }

  /** What a builder returns: the node found for the root bone, or the
      failure of `.name` on the `undefined` that `find` yields when no bone
      passes the root test. */
  datatype BuildResult = Root(node: Node) | NoParentlessBone
}
