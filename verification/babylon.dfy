/** The Babylon.js front-end (main-babylon.js): textured boxes whose faces
    take their rectangles from the cross-unfolded texture net, a zero box
    dimension replaced by 0.01, every node placed at its corner plus half
    its size, bone nodes at pivot + 0.05 and never made relative to their
    parents, and rest rotations passed through unflipped. */
module Babylon {
  import opened Geometry
  import opened BoneTable
  import opened SceneGraph
  import opened Assembly

  /** `buildFaceUv`: the pixel rectangle from (x1, y1) to (x2, y2) of a
      tw by th atlas in texture coordinates, with u growing to the right
      and v measured up from the bottom edge of the atlas. */
  function BuildFaceUv(x1: real, y1: real, x2: real, y2: real, tw: real, th: real): FaceUv
    requires tw != 0.0 && th != 0.0
  {
    FaceUv(x1 / tw, (th - y2) / th, x2 / tw, (th - y1) / th)
  }

  /** Normalisation loses nothing: scaling back by the atlas size gives the
      pixel columns x1 and x2, and the pixel rows y2 and y1 counted down
      from the top. */
  lemma FaceUvPixels(x1: real, y1: real, x2: real, y2: real, tw: real, th: real)
    requires tw != 0.0 && th != 0.0
    ensures var r := BuildFaceUv(x1, y1, x2, y2, tw, th);
            && r.uMin * tw == x1 && r.uMax * tw == x2
            && (1.0 - r.vMin) * th == y2 && (1.0 - r.vMax) * th == y1
  {
  }

  /** The six argument quadruples (x1, y1, x2, y2) handed to BuildFaceUv, in pixels. */
  datatype PixelRect = PixelRect(x1: real, y1: real, x2: real, y2: real)

  /** The face rectangles of a box of size (sx, sy, sz) whose net starts at
      atlas offset (ox, oy), in the order of the renderer's faces 0 to 5. */
  function CrossUnfold(size: Vec3, uv: Vec2): (faces: seq<PixelRect>)
    ensures |faces| == 6
  {
    var ox, oy := uv.x, uv.y;
    var sx, sy, sz := size.x, size.y, size.z;
    [ PixelRect(ox + sx + 2.0 * sz, oy + sz, ox + 2.0 * sx + 2.0 * sz, oy + sz + sy),
      PixelRect(ox + sz, oy + sz, ox + sz + sx, oy + sz + sy),
      PixelRect(ox + sz + sx, oy + sz, ox + 2.0 * sz + sx, oy + sz + sy),
      PixelRect(ox, oy + sz, ox + sz, oy + sz + sy),
      PixelRect(ox + sz, oy, ox + sz + sx, oy + sz),
      PixelRect(ox + sz + sx, oy + sz, ox + sz + 2.0 * sx, oy) ]
  }

  function Normalise(r: PixelRect, atlas: Vec2): FaceUv
    requires atlas.x != 0.0 && atlas.y != 0.0
  {
    BuildFaceUv(r.x1, r.y1, r.x2, r.y2, atlas.x, atlas.y)
  }

  /** The `faceUV` array of a textured box. */
  function FaceUvs(size: Vec3, uv: Vec2, atlas: Vec2): (faces: seq<FaceUv>)
    requires atlas.x != 0.0 && atlas.y != 0.0
    ensures |faces| == 6
  {
    var r := CrossUnfold(size, uv);
    [ Normalise(r[0], atlas), Normalise(r[1], atlas), Normalise(r[2], atlas),
      Normalise(r[3], atlas), Normalise(r[4], atlas), Normalise(r[5], atlas) ]
  }

  predicate NonNegative(size: Vec3)
  {
    size.x >= 0.0 && size.y >= 0.0 && size.z >= 0.0
  }

  /** The net is connected and compact: the four side faces 3, 1, 2, 0 sit
      side by side in one band of height sy, the top face 4 sits on the
      front face 1 and the bottom face 5 on the left face 2, and for a box
      of non-negative size every face lies within the
      (2 sx + 2 sz) by (sz + sy) rectangle at the offset. */
  lemma CrossUnfoldNet(size: Vec3, uv: Vec2)
    requires NonNegative(size)
    ensures var f := CrossUnfold(size, uv);
            && f[3].x2 == f[1].x1 && f[1].x2 == f[2].x1 && f[2].x2 == f[0].x1
            && (forall s :: s in {0, 1, 2, 3} ==> f[s].y1 == uv.y + size.z && f[s].y2 == uv.y + size.z + size.y)
            && f[4].x1 == f[1].x1 && f[4].x2 == f[1].x2 && f[4].y2 == f[1].y1
            && f[5].x1 == f[2].x1 && f[5].y1 == f[2].y1
    ensures forall s :: 0 <= s < 6 ==>
              var r := CrossUnfold(size, uv)[s];
              && uv.x <= r.x1 <= uv.x + 2.0 * size.x + 2.0 * size.z
              && uv.x <= r.x2 <= uv.x + 2.0 * size.x + 2.0 * size.z
              && uv.y <= r.y1 <= uv.y + size.z + size.y
              && uv.y <= r.y2 <= uv.y + size.z + size.y
  {
  }

  /** For a box of non-negative size, faces 0 to 4 run left to right and
      top to bottom in pixels; face 5 runs left to right but is handed its
      rows the other way round (y1 below y2 is swapped). */
  lemma FaceOrientation(size: Vec3, uv: Vec2)
    requires NonNegative(size)
    ensures forall s :: 0 <= s < 6 ==> CrossUnfold(size, uv)[s].x1 <= CrossUnfold(size, uv)[s].x2
    ensures forall s :: 0 <= s < 5 ==> CrossUnfold(size, uv)[s].y1 <= CrossUnfold(size, uv)[s].y2
    ensures CrossUnfold(size, uv)[5].y1 >= CrossUnfold(size, uv)[5].y2
    ensures size.z > 0.0 ==> CrossUnfold(size, uv)[5].y1 > CrossUnfold(size, uv)[5].y2
  {
  }

  /** On an atlas of positive size normalising keeps the horizontal order
      and reverses the vertical one: u_min <= u_max exactly when x1 <= x2,
      and v_min <= v_max exactly when y1 <= y2. */
  lemma NormaliseOrder(r: PixelRect, atlas: Vec2)
    requires atlas.x > 0.0 && atlas.y > 0.0
    ensures Normalise(r, atlas).uMin <= Normalise(r, atlas).uMax <==> r.x1 <= r.x2
    ensures Normalise(r, atlas).vMin <= Normalise(r, atlas).vMax <==> r.y1 <= r.y2
  {
    var uv := Normalise(r, atlas);
    FaceUvPixels(r.x1, r.y1, r.x2, r.y2, atlas.x, atlas.y);
    assert (uv.uMax - uv.uMin) * atlas.x == r.x2 - r.x1;
    assert (uv.vMax - uv.vMin) * atlas.y == r.y2 - r.y1;
  }

  /** Textured faces of a non-negative box: faces 0 to 4 have
      u_min <= u_max and v_min <= v_max; face 5 has its v range inverted. */
  lemma FaceUvOrientation(size: Vec3, uv: Vec2, atlas: Vec2)
    requires NonNegative(size) && atlas.x > 0.0 && atlas.y > 0.0
    ensures forall s :: 0 <= s < 6 ==> FaceUvs(size, uv, atlas)[s].uMin <= FaceUvs(size, uv, atlas)[s].uMax
    ensures forall s :: 0 <= s < 5 ==> FaceUvs(size, uv, atlas)[s].vMin <= FaceUvs(size, uv, atlas)[s].vMax
    ensures FaceUvs(size, uv, atlas)[5].vMin >= FaceUvs(size, uv, atlas)[5].vMax
  {
    FaceOrientation(size, uv);
    var rects := CrossUnfold(size, uv);
    forall s | 0 <= s < 6
      ensures FaceUvs(size, uv, atlas)[s].uMin <= FaceUvs(size, uv, atlas)[s].uMax
      ensures s < 5 ==> FaceUvs(size, uv, atlas)[s].vMin <= FaceUvs(size, uv, atlas)[s].vMax
    {
      NormaliseOrder(rects[s], atlas);
    }
    var r5 := rects[5];
    var f5 := Normalise(r5, atlas);
    FaceUvPixels(r5.x1, r5.y1, r5.x2, r5.y2, atlas.x, atlas.y);
    assert (f5.vMax - f5.vMin) * atlas.y == r5.y2 - r5.y1;
  }

  /** A pixel coordinate within [0, w] of a positive extent w normalises into [0, 1]. */
  lemma UnitRatio(q: real, a: real, w: real)
    requires w > 0.0 && q * w == a && 0.0 <= a <= w
    ensures 0.0 <= q <= 1.0
  {
  }

  /** A face whose pixel rectangle lies inside the atlas has every texture
      coordinate in [0, 1]. */
  lemma NormaliseInside(r: PixelRect, atlas: Vec2)
    requires atlas.x > 0.0 && atlas.y > 0.0
    requires 0.0 <= r.x1 <= atlas.x && 0.0 <= r.x2 <= atlas.x
    requires 0.0 <= r.y1 <= atlas.y && 0.0 <= r.y2 <= atlas.y
    ensures var f := Normalise(r, atlas);
            && 0.0 <= f.uMin <= 1.0 && 0.0 <= f.uMax <= 1.0
            && 0.0 <= f.vMin <= 1.0 && 0.0 <= f.vMax <= 1.0
  {
    var f := Normalise(r, atlas);
    FaceUvPixels(r.x1, r.y1, r.x2, r.y2, atlas.x, atlas.y);
    UnitRatio(f.uMin, r.x1, atlas.x);
    UnitRatio(f.uMax, r.x2, atlas.x);
    UnitRatio(1.0 - f.vMin, r.y2, atlas.y);
    UnitRatio(1.0 - f.vMax, r.y1, atlas.y);
  }

  /** When the whole net fits inside the atlas, every face coordinate lies in [0, 1]. */
  lemma FacesInsideAtlas(size: Vec3, uv: Vec2, atlas: Vec2)
    requires NonNegative(size) && atlas.x > 0.0 && atlas.y > 0.0
    requires 0.0 <= uv.x && uv.x + 2.0 * size.x + 2.0 * size.z <= atlas.x
    requires 0.0 <= uv.y && uv.y + size.z + size.y <= atlas.y
    ensures forall s :: 0 <= s < 6 ==>
              var f := FaceUvs(size, uv, atlas)[s];
              && 0.0 <= f.uMin <= 1.0 && 0.0 <= f.uMax <= 1.0
              && 0.0 <= f.vMin <= 1.0 && 0.0 <= f.vMax <= 1.0
  {
    CrossUnfoldNet(size, uv);
    forall s | 0 <= s < 6
      ensures var f := FaceUvs(size, uv, atlas)[s];
              && 0.0 <= f.uMin <= 1.0 && 0.0 <= f.uMax <= 1.0
              && 0.0 <= f.vMin <= 1.0 && 0.0 <= f.vMax <= 1.0
    {
      NormaliseInside(CrossUnfold(size, uv)[s], atlas);
    }
  }

  /** A 4 x 4 x 4 box at offset (0, 0) of a 16 x 16 atlas: face 0 is the
      pixel rectangle x in [12, 16], y in [4, 8], i.e. (0.75, 0.5, 1.0, 0.75). */
  lemma Face0Example()
    ensures FaceUvs(Vec3(4.0, 4.0, 4.0), Vec2(0.0, 0.0), Vec2(16.0, 16.0))[0] == FaceUv(0.75, 0.5, 1.0, 0.75)
  {
    assert CrossUnfold(Vec3(4.0, 4.0, 4.0), Vec2(0.0, 0.0))[0] == PixelRect(12.0, 4.0, 16.0, 8.0);
  }

  /** `size = [0.1, 0.1, 0.1]`, the size a box gets when none is given. */
  const DefaultSize := Vec3(0.1, 0.1, 0.1)

  /** `s || 0.01` on a number: zero is falsy and becomes 0.01. */
  function OrMinimum(s: real): real
  {
    if s == 0.0 then 0.01 else s
  }

  /** The box dimensions actually built, and the sizes `buildModel`
      pre-maps its cuboids to (`e ? e : 0.01`). */
  function ClampSize(size: Vec3): Vec3
  {
    Vec3(OrMinimum(size.x), OrMinimum(size.y), OrMinimum(size.z))
  }

  /** Every dimension of a built box is non-zero: a zero becomes 0.01 and a
      non-zero dimension is kept; clamping twice is clamping once. */
  lemma ClampSizeKeepsNonZero(size: Vec3)
    ensures var c := ClampSize(size);
            && c.x != 0.0 && c.y != 0.0 && c.z != 0.0
            && (size.x != 0.0 ==> c.x == size.x) && (size.x == 0.0 ==> c.x == 0.01)
            && (size.y != 0.0 ==> c.y == size.y) && (size.y == 0.0 ==> c.y == 0.01)
            && (size.z != 0.0 ==> c.z == size.z) && (size.z == 0.0 ==> c.z == 0.01)
            && ClampSize(c) == c
  {
  }

  /** The options object of `buildCube`; an absent field takes its
      destructuring default (size 0.1 each way, position and rotation
      `[0, 0, 0]`, inflate 0), and faces are textured only when both `uv`
      and `textureSize` are given. */
  datatype CubeArgs = CubeArgs(
    size: Option<Vec3>,
    position: Option<Vec3>,
    rotation: Option<Vec3>,
    uv: Option<Vec2>,
    textureSize: Option<Vec2>,
    inflate: Option<real>)

  predicate Textured(args: CubeArgs)
  {
    args.uv.Some? && args.textureSize.Some?
  }

  /** Face rectangles can be normalised: the atlas has no zero dimension. */
  predicate Normalisable(args: CubeArgs)
  {
    Textured(args) ==> args.textureSize.value.x != 0.0 && args.textureSize.value.y != 0.0
  }

  /** What `buildCube` produces: a box of the clamped size, faces from the
      RAW size when textured, centred half a (clamped) box from the given
      position, with the given rotation and scale `inflate + 1`. */
  function BoxPose(args: CubeArgs): Pose
    requires Normalisable(args)
  {
    var size := args.size.GetOr(DefaultSize);
    var box := ClampSize(size);
    Pose(box,
         if Textured(args) then Some(FaceUvs(size, args.uv.value, args.textureSize.value)) else None,
         args.position.GetOr(Zero).Plus(box.Half()),
         args.rotation.GetOr(Zero),
         args.inflate.GetOr(0.0) + 1.0,
         None,
         None)
  }

  /** The given position is the box's minimum corner: the box spans from it
      to it plus the box size. */
  lemma BoxFromCorner(args: CubeArgs)
    requires Normalisable(args)
    ensures BoxPose(args).position.Minus(BoxPose(args).size.Half()) == args.position.GetOr(Zero)
  {
  }

  /** With no options the box is 0.1 on each side, centred at 0.05 on each
      axis, unrotated, at scale 1 and untextured. */
  lemma DefaultBox()
    ensures BoxPose(CubeArgs(None, None, None, None, None, None))
         == Pose(Vec3(0.1, 0.1, 0.1), None, Vec3(0.05, 0.05, 0.05), Zero, 1.0, None, None)
  {
    assert ClampSize(DefaultSize) == DefaultSize;
    assert DefaultSize.Half() == Vec3(0.05, 0.05, 0.05);
  }

  /** A flat box still gets a 0.01 thick mesh, but its face rectangles are
      cut with the raw zero: the faces spanning the flat axis come out with
      no width in the atlas. */
  lemma FlatBoxKeepsRawUv(args: CubeArgs)
    requires Normalisable(args) && Textured(args) && args.size.Some? && args.size.value.z == 0.0
    ensures BoxPose(args).size.z == 0.01
    ensures BoxPose(args).faceUv.value[3].uMin == BoxPose(args).faceUv.value[3].uMax
  {
  }

  /** The `faceUV` array of `buildCube`, filled slot by slot from the raw
      size (sx, sy, sz), the offset (ox, oy) and the atlas size (tw, th). */
  method FillFaces(size: Vec3, uv: Vec2, atlas: Vec2) returns (faceUv: seq<FaceUv>)
    requires atlas.x != 0.0 && atlas.y != 0.0
    ensures faceUv == FaceUvs(size, uv, atlas)
  {
    var sx, sy, sz := size.x, size.y, size.z;
    var ox, oy := uv.x, uv.y;
    var tw, th := atlas.x, atlas.y;
    var faces := new FaceUv[6](_ => FaceUv(0.0, 0.0, 0.0, 0.0));
    faces[0] := BuildFaceUv(ox + sx + 2.0 * sz, oy + sz, ox + 2.0 * sx + 2.0 * sz, oy + sz + sy, tw, th);
    faces[1] := BuildFaceUv(ox + sz, oy + sz, ox + sz + sx, oy + sz + sy, tw, th);
    faces[2] := BuildFaceUv(ox + sz + sx, oy + sz, ox + 2.0 * sz + sx, oy + sz + sy, tw, th);
    faces[3] := BuildFaceUv(ox, oy + sz, ox + sz, oy + sz + sy, tw, th);
    faces[4] := BuildFaceUv(ox + sz, oy, ox + sz + sx, oy + sz, tw, th);
    faces[5] := BuildFaceUv(ox + sz + sx, oy + sz, ox + sz + 2.0 * sx, oy, tw, th);
    faceUv := faces[..];
    ghost var r := CrossUnfold(size, uv);
    assert faceUv == [ Normalise(r[0], atlas), Normalise(r[1], atlas), Normalise(r[2], atlas),
                       Normalise(r[3], atlas), Normalise(r[4], atlas), Normalise(r[5], atlas) ];
  }

  /** `buildCube`: the face array filled slot by slot when textured, the
      mesh built with the clamped size, then position, rotation and scaling
      set on it. */
  method BuildCube(args: CubeArgs) returns (cube: Node)
    requires Normalisable(args)
    ensures fresh(cube) && PoseOf(cube) == BoxPose(args) && cube.children == []
  {
    var size := args.size.GetOr(DefaultSize);
    var sx, sy, sz := size.x, size.y, size.z;
    var rsx := if sx == 0.0 then 0.01 else sx;
    var rsy := if sy == 0.0 then 0.01 else sy;
    var rsz := if sz == 0.0 then 0.01 else sz;
    var faceUv: Option<seq<FaceUv>> := None;
    if args.uv.Some? && args.textureSize.Some? {
      var faces := FillFaces(size, args.uv.value, args.textureSize.value);
      faceUv := Some(faces);
    }
    cube := new Node(Vec3(rsx, rsy, rsz), faceUv);
    var p := args.position.GetOr(Zero);
    cube.position := Vec3(p.x + rsx / 2.0, p.y + rsy / 2.0, p.z + rsz / 2.0);
    cube.rotation := args.rotation.GetOr(Zero);
    cube.scaling := args.inflate.GetOr(0.0) + 1.0;
    assert Vec3(rsx, rsy, rsz) == ClampSize(size);
  }

  /** The options a bone's node is built with: its pivot as position and
      its rest rotation, nothing else. */
  function BoneArgs(bone: Bone): CubeArgs
  {
    CubeArgs(None, Some(bone.pivot), Some(RestRotation(bone)), None, None, None)
  }

  /** Bone node as built, with `state = { pivot, rotation }` stashed on it. */
  function BoneNodePose(bone: Bone): Pose
  {
    BoxPose(BoneArgs(bone)).(pivot := Some(bone.pivot), restRotation := Some(RestRotation(bone)))
  }

  /** Bone nodes are not made parent-relative (the subtraction is commented
      out): every bone node, attached or not, sits at its pivot plus half
      the default size, with its rest rotation as given, unflipped. */
  lemma BoneNodeAbsolute(bone: Bone)
    ensures BoneNodePose(bone).position == bone.pivot.Plus(Vec3(0.05, 0.05, 0.05))
    ensures BoneNodePose(bone).rotation == RestRotation(bone)
    ensures BoneNodePose(bone).size == DefaultSize && BoneNodePose(bone).scaling == 1.0
    ensures BoneNodePose(bone).faceUv.None?
  {
  }

  /** The options the box of cuboid c is built with: the pre-mapped size,
      its origin as position, its rotation, uv offset and inflate (0 when
      absent), and the document's atlas size. */
  function CuboidArgs(c: Cuboid, atlas: Vec2): CubeArgs
  {
    CubeArgs(Some(ClampSize(c.size)), Some(c.origin), c.rotation, c.uv, Some(atlas), Some(c.inflate.GetOr(0.0)))
  }

  /** A cuboid's box: the clamped size, centred on origin plus half that
      size with NO pivot subtracted, scale inflate + 1, and textured exactly
      when the cuboid has a uv offset, from the pre-mapped size. */
  lemma CuboidBox(c: Cuboid, atlas: Vec2)
    requires atlas.x != 0.0 && atlas.y != 0.0
    ensures var p := BoxPose(CuboidArgs(c, atlas));
            && p.size == ClampSize(c.size)
            && p.position == c.origin.Plus(ClampSize(c.size).Half())
            && p.rotation == c.rotation.GetOr(Zero)
            && p.scaling == c.inflate.GetOr(0.0) + 1.0
            && (p.faceUv.Some? <==> c.uv.Some?)
            && (c.uv.Some? ==> p.faceUv == Some(FaceUvs(ClampSize(c.size), c.uv.value, atlas)))
  {
    ClampSizeKeepsNonZero(c.size);
  }

  /** The boxes bone i's node holds: one per cuboid once attached, none otherwise. */
  function BoxPoses(bones: seq<Bone>, i: nat, atlas: Vec2): seq<Pose>
    requires i < |bones| && atlas.x != 0.0 && atlas.y != 0.0
  {
    if ParentIndex(bones, i).Some? then
      seq(|bones[i].cubes|, t requires 0 <= t < |bones[i].cubes| => BoxPose(CuboidArgs(bones[i].cubes[t], atlas)))
    else []
  }

  function AllBonePoses(bones: seq<Bone>): seq<Pose>
  {
    seq(|bones|, i requires 0 <= i < |bones| => BoneNodePose(bones[i]))
  }

  function AllBoxPoses(bones: seq<Bone>, atlas: Vec2): seq<seq<Pose>>
    requires atlas.x != 0.0 && atlas.y != 0.0
  {
    seq(|bones|, i requires 0 <= i < |bones| => BoxPoses(bones, i, atlas))
  }

  /** `cubes.forEach(...)`: one box per cuboid, appended to the bone's node in order. */
  method AddCubes(boneNode: Node, cuboids: seq<Cuboid>, atlas: Vec2) returns (ghost made: seq<Node>)
    requires atlas.x != 0.0 && atlas.y != 0.0
    modifies boneNode`children
    ensures boneNode.children == old(boneNode.children) + made
    ensures |made| == |cuboids|
    ensures forall t :: 0 <= t < |made| ==>
              fresh(made[t]) && PoseOf(made[t]) == BoxPose(CuboidArgs(cuboids[t], atlas)) && made[t].children == []
  {
    made := [];
    for t := 0 to |cuboids|
      invariant |made| == t
      invariant boneNode.children == old(boneNode.children) + made
      invariant forall s :: 0 <= s < t ==>
                  fresh(made[s]) && PoseOf(made[s]) == BoxPose(CuboidArgs(cuboids[s], atlas)) && made[s].children == []
    {
      var c := cuboids[t];
      var cube := BuildCube(CubeArgs(Some(ClampSize(c.size)), Some(c.origin), c.rotation, c.uv, Some(atlas),
                                     Some(c.inflate.GetOr(0.0))));
      boneNode.AddChild(cube);
      made := made + [cube];
    }
  }

  /** The `forEach` callback of `buildModel`, for one bone: a node at the
      bone's pivot with its rest rotation and stashed state is registered
      under the bone's name; if the parent key was already registered, the
      node gets its boxes and is appended to the parent, unmoved. */
  method AddBone(table: map<string, Node>, bone: Bone, atlas: Vec2)
      returns (table': map<string, Node>, boneNode: Node, ghost made: seq<Node>)
    requires atlas.x != 0.0 && atlas.y != 0.0
    modifies ParentEntry(table, bone)`children
    ensures fresh(boneNode) && table' == table[bone.name := boneNode]
    ensures PoseOf(boneNode) == BoneNodePose(bone) && boneNode.children == made
    ensures ParentKey(bone) !in table ==> made == []
    ensures ParentKey(bone) in table ==>
              && table[ParentKey(bone)].children == old(table[ParentKey(bone)].children) + [boneNode]
              && |made| == |bone.cubes|
              && forall t :: 0 <= t < |made| ==>
                   fresh(made[t]) && PoseOf(made[t]) == BoxPose(CuboidArgs(bone.cubes[t], atlas)) && made[t].children == []
  {
    boneNode := BuildCube(BoneArgs(bone));
    boneNode.pivot := Some(bone.pivot);
    boneNode.restRotation := Some(RestRotation(bone));
    var key := ParentKey(bone);
    var parentNode: Node? := if key in table then table[key] else null;
    table' := table[bone.name := boneNode];
    made := [];
    if parentNode == null {
      return;
    }
    made := AddCubes(boneNode, bone.cubes, atlas);
    parentNode.AddChild(boneNode);
  }

  /** One run of the callback, for bone k, over the nodes and boxes of the
      bones before it: the new node and its boxes get the Babylon poses and
      nothing already posed moves, the table gains the new node, and the
      only child list that changes is that of the node the bone is
      attached to, which gains the new node. */
  method Step(bones: seq<Bone>, atlas: Vec2, k: nat, table: map<string, Node>,
              ghost nodes: seq<Node>, ghost cubes: seq<seq<Node>>, ghost before: seq<seq<Node>>)
      returns (table': map<string, Node>, boneNode: Node, ghost made: seq<Node>)
    requires atlas.x != 0.0 && atlas.y != 0.0
    requires k == |nodes| == |cubes| < |bones| && |before| == |nodes|
    requires forall b :: 0 <= b < |nodes| ==> nodes[b] !in nodes[..b]
    requires ParentEntry(table, bones[k]) == ParentNode(bones, nodes)
    requires NodesPosed(nodes, AllBonePoses(bones)) && BoxesPosed(cubes, AllBoxPoses(bones, atlas))
    requires BoxesLeaves(cubes)
    requires forall a :: 0 <= a < |nodes| ==> nodes[a].children == before[a]
    modifies ParentEntry(table, bones[k])`children
    ensures fresh(boneNode) && table' == table[bones[k].name := boneNode] && boneNode.children == made
    ensures NodesPosed(nodes + [boneNode], AllBonePoses(bones))
    ensures BoxesPosed(cubes + [made], AllBoxPoses(bones, atlas))
    ensures BoxesLeaves(cubes + [made])
    ensures forall a :: 0 <= a < |nodes| ==>
              nodes[a].children == before[a] + (if ParentIndex(bones, k) == Some(a) then [boneNode] else [])
  {
    ghost var poses, boxPoses := AllBonePoses(bones), AllBoxPoses(bones, atlas);
    forall a, t | 0 <= a < |cubes| && 0 <= t < |cubes[a]|
      ensures cubes[a][t] !in ParentEntry(table, bones[k]) && cubes[a][t].children == []
    {
      if ParentIndex(bones, k).Some? {
        assert boxPoses[a] == BoxPoses(bones, a, atlas);
        BoxIsNoBoneNode(nodes, poses, cubes, boxPoses, ParentIndex(bones, k).value, a, t);
      }
    }
    table', boneNode, made := AddBone(table, bones[k], atlas);
    BoxesLeavesSnoc(cubes, made);
    NodesPosedSnoc(nodes, poses, boneNode);
    BoxesPosedSnoc(cubes, boxPoses, made);
    forall a | 0 <= a < k
      ensures nodes[a].children == before[a] + (if ParentIndex(bones, k) == Some(a) then [boneNode] else [])
    {
      if ParentIndex(bones, k) != Some(a) {
        assert nodes[a] !in ParentNode(bones, nodes) by {
          if ParentIndex(bones, k).Some? {
            DistinctAt(nodes, a, ParentIndex(bones, k).value);
          }
        }
      }
    }
  }

  /** The model after one more run of the callback: still built as prescribed. */
  method Advance(bones: seq<Bone>, atlas: Vec2, k: nat, table: map<string, Node>,
                 ghost nodes: seq<Node>, ghost cubes: seq<seq<Node>>)
      returns (table': map<string, Node>, boneNode: Node, ghost made: seq<Node>)
    requires atlas.x != 0.0 && atlas.y != 0.0
    requires k == |nodes| < |bones| && Built(bones, AllBonePoses(bones), AllBoxPoses(bones, atlas), nodes, cubes, table)
    modifies ParentEntry(table, bones[k])`children
    ensures fresh(boneNode)
    ensures Built(bones, AllBonePoses(bones), AllBoxPoses(bones, atlas), nodes + [boneNode], cubes + [made], table')
  {
    ghost var poses, boxPoses := AllBonePoses(bones), AllBoxPoses(bones, atlas);
    BuiltParent(bones, poses, boxPoses, nodes, cubes, table);
    ghost var before := KidsOf(bones, nodes, cubes);
    table', boneNode, made := Step(bones, atlas, k, table, nodes, cubes, before);
    BuiltSnoc(bones, poses, boxPoses, nodes, cubes, table, before, boneNode, made, table');
  }

  /** The `forEach` over the bone list: the callback run on every bone in
      order, starting from an empty table. */
  method ForEachBone(bones: seq<Bone>, atlas: Vec2)
      returns (table: map<string, Node>, ghost nodes: seq<Node>, ghost cubes: seq<seq<Node>>)
    requires atlas.x != 0.0 && atlas.y != 0.0
    ensures |nodes| == |bones| && Built(bones, AllBonePoses(bones), AllBoxPoses(bones, atlas), nodes, cubes, table)
    ensures forall key :: key in table ==> fresh(table[key])
  {
    ghost var poses, boxPoses := AllBonePoses(bones), AllBoxPoses(bones, atlas);
    table := map[];
    nodes, cubes := [], [];
    BuiltEmpty(bones, poses, boxPoses);
    for k := 0 to |bones|
      invariant |nodes| == k && Built(bones, poses, boxPoses, nodes, cubes, table)
      invariant forall key :: key in table ==> fresh(table[key])
    {
      var boneNode;
      ghost var made;
      table, boneNode, made := Advance(bones, atlas, k, table, nodes, cubes);
      nodes := nodes + [boneNode];
      cubes := cubes + [made];
    }
  }

  /** The finished loop, read in terms of the Babylon poses. */
  lemma BuiltModel(bones: seq<Bone>, atlas: Vec2, nodes: seq<Node>, cubes: seq<seq<Node>>, table: map<string, Node>)
    requires atlas.x != 0.0 && atlas.y != 0.0
    requires |nodes| == |bones| && Built(bones, AllBonePoses(bones), AllBoxPoses(bones, atlas), nodes, cubes, table)
    ensures forall i :: 0 <= i < |bones| ==> PoseOf(nodes[i]) == BoneNodePose(bones[i])
    ensures forall i :: 0 <= i < |bones| ==>
              && |cubes[i]| == |BoxPoses(bones, i, atlas)|
              && (forall t :: 0 <= t < |cubes[i]| ==> PoseOf(cubes[i][t]) == BoxPoses(bones, i, atlas)[t])
              && forall t :: 0 <= t < |cubes[i]| ==> cubes[i][t].children == []
    ensures forall i :: 0 <= i < |bones| ==>
              nodes[i].children == cubes[i] + Pick(nodes, ChildBones(bones, i, |bones|))
    ensures FirstRoot(bones).Some? ==>
              && bones[FirstRoot(bones).value].name in table
              && table[bones[FirstRoot(bones).value].name] == nodes[RootIndex(bones).value]
  {
    BuiltAll(bones, AllBonePoses(bones), AllBoxPoses(bones, atlas), nodes, cubes, table);
  }

  /** `buildModel` on the parsed bone list and the atlas size
      (`texture_width`, `texture_height`) of the geometry's description.
      Bone i's node has the pose BoneNodePose and holds
      first the boxes of BoxPoses (its cuboids, when it was attached), then
      the nodes of the bones attached to it, in order. The result is the
      node registered under the first root bone's name, a new node. */
  method BuildModel(bones: seq<Bone>, atlas: Vec2)
      returns (result: BuildResult, ghost nodes: seq<Node>, ghost cubes: seq<seq<Node>>)
    requires atlas.x != 0.0 && atlas.y != 0.0
    ensures |nodes| == |bones| && |cubes| == |bones|
    ensures forall i :: 0 <= i < |bones| ==> PoseOf(nodes[i]) == BoneNodePose(bones[i])
    ensures forall i :: 0 <= i < |bones| ==>
              && |cubes[i]| == |BoxPoses(bones, i, atlas)|
              && (forall t :: 0 <= t < |cubes[i]| ==> PoseOf(cubes[i][t]) == BoxPoses(bones, i, atlas)[t])
              && forall t :: 0 <= t < |cubes[i]| ==> cubes[i][t].children == []
    ensures forall i :: 0 <= i < |bones| ==>
              nodes[i].children == cubes[i] + Pick(nodes, ChildBones(bones, i, |bones|))
    ensures RootIndex(bones).None? ==> result == NoParentlessBone
    ensures RootIndex(bones).Some? ==> result == Root(nodes[RootIndex(bones).value]) && fresh(result.node)
  {
    var table;
    table, nodes, cubes := ForEachBone(bones, atlas);
    BuiltModel(bones, atlas, nodes, cubes, table);
    var root := FirstRoot(bones);
    if root.None? {
      result := NoParentlessBone;
    } else {
      result := Root(table[bones[root.value].name]);
    }
  }
}
