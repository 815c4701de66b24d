/** The three.js front-end (main.js): an untextured box per cuboid, bone
    nodes positioned relative to their parent's pivot, and the rest rotation
    converted with X and Z negated. */
module Three {
  import opened Geometry
  import opened BoneTable
  import opened SceneGraph
  import opened Assembly

  /** The options object of `buildCube`; each absent field reads `[0, 0, 0]`. */
  datatype CubeArgs = CubeArgs(size: Option<Vec3>, position: Option<Vec3>, rotation: Option<Vec3>)

  /** `buildCube`: a box of the given size, placed exactly at the given
      position with the given rotation; its scale stays 1. */
  method BuildCube(args: CubeArgs) returns (cube: Node)
    ensures fresh(cube)
    ensures cube.size == args.size.GetOr(Zero) && cube.faceUv == None
    ensures cube.position == args.position.GetOr(Zero)
    ensures cube.rotation == args.rotation.GetOr(Zero) && cube.scaling == 1.0
    ensures cube.pivot == None && cube.restRotation == None && cube.children == []
  {
    var s := args.size.GetOr(Zero);
    var p := args.position.GetOr(Zero);
    var r := args.rotation.GetOr(Zero);
    cube := new Node(s, None);
    cube.position := cube.position.(x := p.x);
    cube.position := cube.position.(y := p.y);
    cube.position := cube.position.(z := p.z);
    cube.rotation := cube.rotation.(x := r.x);
    cube.rotation := cube.rotation.(y := r.y);
    cube.rotation := cube.rotation.(z := r.z);
  }

  /** The sign convention for rest rotations: X and Z negated, Y kept. */
  function FlipXZ(r: Vec3): Vec3
  {
    Vec3(-r.x, r.y, -r.z)
  }

  /** Local position of bone i's node: its pivot, minus the pivot of the
      bone it is attached to. */
  function BonePosition(bones: seq<Bone>, i: nat): Vec3
    requires i < |bones|
  {
    match ParentIndex(bones, i)
    case None => bones[i].pivot
    case Some(p) => bones[i].pivot.Minus(bones[p].pivot)
  }

  /** Rotation of bone i's node: the flipped rest rotation once attached;
      an unattached bone keeps the zero rotation it was built with. */
  function BoneRotation(bones: seq<Bone>, i: nat): Vec3
    requires i < |bones|
  {
    if ParentIndex(bones, i).Some? then FlipXZ(RestRotation(bones[i])) else Zero
  }

  /** Local position of a cuboid's box inside its bone's node. */
  function CubePosition(c: Cuboid, pivot: Vec3): Vec3
  {
    c.origin.Plus(c.size.Half()).Minus(pivot)
  }

  /** The translations from the top of bone i's attachment chain down to
      bone i's node, added up: where the node's origin lands in model
      space while no node on the chain is rotated. */
  function ChainOffset(bones: seq<Bone>, i: nat): Vec3
    requires i < |bones|
    decreases i
  {
    match ParentIndex(bones, i)
    case None => BonePosition(bones, i)
    case Some(p) => ChainOffset(bones, p).Plus(BonePosition(bones, i))
  }

  /** Subtracting the parent's pivot makes positions telescope: every bone
      node's origin lands on the bone's own pivot. */
  lemma {:induction false} ChainOffsetIsPivot(bones: seq<Bone>, i: nat)
    requires i < |bones|
    ensures ChainOffset(bones, i) == bones[i].pivot
    decreases i
  {
    match ParentIndex(bones, i)
    case None =>
    case Some(p) =>
      ChainOffsetIsPivot(bones, p);
  }

  /** Subtracting the bone's pivot from a box position undoes the bone's
      own offset: the box is centred on its cuboid in model space. */
  lemma CubeCentreInModelSpace(bones: seq<Bone>, i: nat, t: nat)
    requires i < |bones| && t < |bones[i].cubes|
    ensures ChainOffset(bones, i).Plus(CubePosition(bones[i].cubes[t], bones[i].pivot))
         == bones[i].cubes[t].origin.Plus(bones[i].cubes[t].size.Half())
  {
    ChainOffsetIsPivot(bones, i);
  }

  /** What bone i's node is given: no geometry, the bone's local position
      and rotation, scale 1 and the bone's pivot stashed on it. */
  function BonePose(bones: seq<Bone>, i: nat): Pose
    requires i < |bones|
  {
    Pose(Zero, None, BonePosition(bones, i), BoneRotation(bones, i), 1.0, Some(bones[i].pivot), None)
  }

  /** What the box of cuboid c is given inside a bone with the given pivot. */
  function CubePose(c: Cuboid, pivot: Vec3): Pose
  {
    Pose(c.size, None, CubePosition(c, pivot), Zero, 1.0, None, None)
  }

  /** The boxes bone i's node holds: one per cuboid once attached, none otherwise. */
  function BoxPoses(bones: seq<Bone>, i: nat): seq<Pose>
    requires i < |bones|
  {
    if ParentIndex(bones, i).Some? then
      seq(|bones[i].cubes|, t requires 0 <= t < |bones[i].cubes| => CubePose(bones[i].cubes[t], bones[i].pivot))
    else []
  }

  function AllBonePoses(bones: seq<Bone>): seq<Pose>
  {
    seq(|bones|, i requires 0 <= i < |bones| => BonePose(bones, i))
  }

  function AllBoxPoses(bones: seq<Bone>): seq<seq<Pose>>
  {
    seq(|bones|, i requires 0 <= i < |bones| => BoxPoses(bones, i))
  }

  /** `cubes.forEach(...)`: one box per cuboid, centred on the cuboid and
      expressed relative to the bone's pivot, appended to the bone's node. */
  method AddCubes(boneNode: Node, cuboids: seq<Cuboid>, pivot: Vec3) returns (ghost made: seq<Node>)
    modifies boneNode`children
    ensures boneNode.children == old(boneNode.children) + made
    ensures |made| == |cuboids|
    ensures forall t :: 0 <= t < |made| ==>
              fresh(made[t]) && PoseOf(made[t]) == CubePose(cuboids[t], pivot) && made[t].children == []
  {
    made := [];
    for t := 0 to |cuboids|
      invariant |made| == t
      invariant boneNode.children == old(boneNode.children) + made
      invariant forall s :: 0 <= s < t ==>
                  fresh(made[s]) && PoseOf(made[s]) == CubePose(cuboids[s], pivot) && made[s].children == []
    {
      var c := cuboids[t];
      var position := Vec3(c.origin.x + c.size.x / 2.0 - pivot.x,
                           c.origin.y + c.size.y / 2.0 - pivot.y,
                           c.origin.z + c.size.z / 2.0 - pivot.z);
      var cube := BuildCube(CubeArgs(Some(c.size), Some(position), None));
      boneNode.AddChild(cube);
      made := made + [cube];
    }
  }

  /** The `forEach` callback of `buildModel`, for one bone: a node at the
      bone's pivot is registered under the bone's name; if the parent key
      was already registered, the node is moved by minus the parent's
      stashed pivot (`[0, 0, 0]` when none is stashed), rotated by the
      flipped rest rotation, given its boxes and appended to the parent. */
  method AddBone(table: map<string, Node>, bone: Bone)
      returns (table': map<string, Node>, boneNode: Node, ghost made: seq<Node>)
    modifies ParentEntry(table, bone)`children
    ensures fresh(boneNode) && table' == table[bone.name := boneNode]
    ensures boneNode.size == Zero && boneNode.faceUv == None && boneNode.scaling == 1.0
    ensures boneNode.pivot == Some(bone.pivot) && boneNode.restRotation == None
    ensures boneNode.children == made
    ensures ParentKey(bone) !in table ==>
              && boneNode.position == bone.pivot && boneNode.rotation == Zero && made == []
    ensures ParentKey(bone) in table ==>
              && boneNode.position == bone.pivot.Minus(table[ParentKey(bone)].pivot.GetOr(Zero))
              && boneNode.rotation == FlipXZ(RestRotation(bone))
              && table[ParentKey(bone)].children == old(table[ParentKey(bone)].children) + [boneNode]
              && |made| == |bone.cubes|
              && forall t :: 0 <= t < |made| ==>
                   fresh(made[t]) && PoseOf(made[t]) == CubePose(bone.cubes[t], bone.pivot) && made[t].children == []
  {
    boneNode := BuildCube(CubeArgs(None, Some(bone.pivot), None));
    var key := ParentKey(bone);
    var parentNode: Node? := if key in table then table[key] else null;
    table' := table[bone.name := boneNode];
    boneNode.pivot := Some(bone.pivot);
    made := [];
    if parentNode == null {
      return;
    }
    var pp := parentNode.pivot.GetOr(Zero);
    boneNode.position := boneNode.position.(x := boneNode.position.x - pp.x);
    boneNode.position := boneNode.position.(y := boneNode.position.y - pp.y);
    boneNode.position := boneNode.position.(z := boneNode.position.z - pp.z);
    var r := RestRotation(bone);
    boneNode.rotation := boneNode.rotation.(x := -r.x);
    boneNode.rotation := boneNode.rotation.(y := r.y);
    boneNode.rotation := boneNode.rotation.(z := -r.z);
    made := AddCubes(boneNode, bone.cubes, bone.pivot);
    parentNode.AddChild(boneNode);
  }

  /** One run of the callback, for bone k, over the nodes and boxes of the
      bones before it: the new node and its boxes get the three.js poses and
      nothing already posed moves, the table gains the new node, and the
      only child list that changes is that of the node the bone is
      attached to, which gains the new node. */
  method Step(bones: seq<Bone>, k: nat, table: map<string, Node>,
              ghost nodes: seq<Node>, ghost cubes: seq<seq<Node>>, ghost before: seq<seq<Node>>)
      returns (table': map<string, Node>, boneNode: Node, ghost made: seq<Node>)
    requires k == |nodes| == |cubes| < |bones| && |before| == |nodes|
    requires forall b :: 0 <= b < |nodes| ==> nodes[b] !in nodes[..b]
    requires ParentEntry(table, bones[k]) == ParentNode(bones, nodes)
    requires ParentKey(bones[k]) in table ==> PoseOf(table[ParentKey(bones[k])]) == AllBonePoses(bones)[ParentIndex(bones, k).value]
    requires NodesPosed(nodes, AllBonePoses(bones)) && BoxesPosed(cubes, AllBoxPoses(bones))
    requires BoxesLeaves(cubes)
    requires forall a :: 0 <= a < |nodes| ==> nodes[a].children == before[a]
    modifies ParentEntry(table, bones[k])`children
    ensures fresh(boneNode) && table' == table[bones[k].name := boneNode] && boneNode.children == made
    ensures NodesPosed(nodes + [boneNode], AllBonePoses(bones))
    ensures BoxesPosed(cubes + [made], AllBoxPoses(bones))
    ensures BoxesLeaves(cubes + [made])
    ensures forall a :: 0 <= a < |nodes| ==>
              nodes[a].children == before[a] + (if ParentIndex(bones, k) == Some(a) then [boneNode] else [])
  {
    ghost var poses, boxPoses := AllBonePoses(bones), AllBoxPoses(bones);
    forall a, t | 0 <= a < |cubes| && 0 <= t < |cubes[a]|
      ensures cubes[a][t] !in ParentEntry(table, bones[k]) && cubes[a][t].children == []
    {
      if ParentIndex(bones, k).Some? {
        assert boxPoses[a] == BoxPoses(bones, a);
        BoxIsNoBoneNode(nodes, poses, cubes, boxPoses, ParentIndex(bones, k).value, a, t);
      }
    }
    table', boneNode, made := AddBone(table, bones[k]);
    BoxesLeavesSnoc(cubes, made);
    NodesPosedSnoc(nodes, poses, boneNode);
    BoxesPosedSnoc(cubes, boxPoses, made);
    forall a | 0 <= a < k
      ensures nodes[a].children == before[a] + (if ParentIndex(bones, k) == Some(a) then [boneNode] else [])
    {
      if ParentIndex(bones, k) != Some(a) {
        assert nodes[a] !in ParentNode(bones, nodes) by {
          if ParentIndex(bones, k).Some? {
            DistinctAt(nodes, a, ParentIndex(bones, k).value);
          }
        }
      }
    }
  }

  /** The model after one more run of the callback: still built as prescribed. */
  method Advance(bones: seq<Bone>, k: nat, table: map<string, Node>, ghost nodes: seq<Node>, ghost cubes: seq<seq<Node>>)
      returns (table': map<string, Node>, boneNode: Node, ghost made: seq<Node>)
    requires k == |nodes| < |bones| && Built(bones, AllBonePoses(bones), AllBoxPoses(bones), nodes, cubes, table)
    modifies ParentEntry(table, bones[k])`children
    ensures fresh(boneNode)
    ensures Built(bones, AllBonePoses(bones), AllBoxPoses(bones), nodes + [boneNode], cubes + [made], table')
  {
    ghost var poses, boxPoses := AllBonePoses(bones), AllBoxPoses(bones);
    BuiltParent(bones, poses, boxPoses, nodes, cubes, table);
    ghost var before := KidsOf(bones, nodes, cubes);
    table', boneNode, made := Step(bones, k, table, nodes, cubes, before);
    BuiltSnoc(bones, poses, boxPoses, nodes, cubes, table, before, boneNode, made, table');
  }

  /** The finished loop, read in terms of the three.js poses. */
  lemma BuiltModel(bones: seq<Bone>, nodes: seq<Node>, cubes: seq<seq<Node>>, table: map<string, Node>)
    requires |nodes| == |bones| && Built(bones, AllBonePoses(bones), AllBoxPoses(bones), nodes, cubes, table)
    ensures forall i :: 0 <= i < |bones| ==> PoseOf(nodes[i]) == BonePose(bones, i)
    ensures forall i :: 0 <= i < |bones| ==>
              && |cubes[i]| == |BoxPoses(bones, i)|
              && (forall t :: 0 <= t < |cubes[i]| ==> PoseOf(cubes[i][t]) == BoxPoses(bones, i)[t])
              && forall t :: 0 <= t < |cubes[i]| ==> cubes[i][t].children == []
    ensures forall i :: 0 <= i < |bones| ==>
              nodes[i].children == cubes[i] + Pick(nodes, ChildBones(bones, i, |bones|))
    ensures FirstRoot(bones).Some? ==>
              && bones[FirstRoot(bones).value].name in table
              && table[bones[FirstRoot(bones).value].name] == nodes[RootIndex(bones).value]
  {
    BuiltAll(bones, AllBonePoses(bones), AllBoxPoses(bones), nodes, cubes, table);
  }

  /** The `forEach` over (a copy of) the bone list: the callback run on
      every bone in order, starting from an empty table. */
  method ForEachBone(bones: seq<Bone>) returns (table: map<string, Node>, ghost nodes: seq<Node>, ghost cubes: seq<seq<Node>>)
    ensures |nodes| == |bones| && Built(bones, AllBonePoses(bones), AllBoxPoses(bones), nodes, cubes, table)
    ensures forall key :: key in table ==> fresh(table[key])
  {
    ghost var poses, boxPoses := AllBonePoses(bones), AllBoxPoses(bones);
    table := map[];
    nodes, cubes := [], [];
    BuiltEmpty(bones, poses, boxPoses);
    for k := 0 to |bones|
      invariant |nodes| == k && Built(bones, poses, boxPoses, nodes, cubes, table)
      invariant forall key :: key in table ==> fresh(table[key])
    {
      var boneNode;
      ghost var made;
      table, boneNode, made := Advance(bones, k, table, nodes, cubes);
      nodes := nodes + [boneNode];
      cubes := cubes + [made];
    }
  }

  /** `buildModel`: the callback run over the bones in order. Bone i's node
      has the pose BonePose and holds first the boxes of BoxPoses (its
      cuboids, when it was attached), then the nodes of the bones attached
      to it, in order. The result is the node registered under the first
      root bone's name, a new node. */
  method BuildModel(bones: seq<Bone>) returns (result: BuildResult, ghost nodes: seq<Node>, ghost cubes: seq<seq<Node>>)
    ensures |nodes| == |bones| && |cubes| == |bones|
    ensures forall i :: 0 <= i < |bones| ==> PoseOf(nodes[i]) == BonePose(bones, i)
    ensures forall i :: 0 <= i < |bones| ==>
              && |cubes[i]| == |BoxPoses(bones, i)|
              && (forall t :: 0 <= t < |cubes[i]| ==> PoseOf(cubes[i][t]) == BoxPoses(bones, i)[t])
              && forall t :: 0 <= t < |cubes[i]| ==> cubes[i][t].children == []
    ensures forall i :: 0 <= i < |bones| ==>
              nodes[i].children == cubes[i] + Pick(nodes, ChildBones(bones, i, |bones|))
    ensures RootIndex(bones).None? ==> result == NoParentlessBone
    ensures RootIndex(bones).Some? ==> result == Root(nodes[RootIndex(bones).value]) && fresh(result.node)
  {
    var table;
    table, nodes, cubes := ForEachBone(bones);
    BuiltModel(bones, nodes, cubes, table);
    var root := FirstRoot(bones);
    if root.None? {
      result := NoParentlessBone;
    } else {
      result := Root(table[bones[root.value].name]);
    }
  }
}
