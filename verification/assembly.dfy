/** What both `buildModel` loops build, stated once for either front-end:
    after the first k bones the name table is TableOf(bones[..k]), bone a's
    node and boxes have the poses the front-end prescribes, and every child
    list is the node's boxes followed by the nodes attached to it so far. */
module Assembly {
  import opened Geometry
  import opened BoneTable
  import opened SceneGraph

  /** Everything a builder sets on a node except its child list. */
  datatype Pose = Pose(
    size: Vec3,
    faceUv: Option<seq<FaceUv>>,
    position: Vec3,
    rotation: Vec3,
    scaling: real,
    pivot: Option<Vec3>,
    restRotation: Option<Vec3>)

  ghost function PoseOf(n: Node): Pose
    reads n`position, n`rotation, n`scaling, n`pivot, n`restRotation
  {
    Pose(n.size, n.faceUv, n.position, n.rotation, n.scaling, n.pivot, n.restRotation)
  }

  /** The table entry the parent of `bone` is looked up under, as a set of at most one node. */
  function ParentEntry(table: map<string, Node>, bone: Bone): set<Node>
  {
    if ParentKey(bone) in table then {table[ParentKey(bone)]} else {}
  }

  /** The objects of a sequence of nodes, as a frame. */
  ghost function Objects(nodes: seq<Node>): set<Node>
  {
    set a | 0 <= a < |nodes| :: nodes[a]
  }

  /** The objects of the boxes of all bones, as a frame. */
  ghost function BoxObjects(cubes: seq<seq<Node>>): set<Node>
  {
    set a, t | 0 <= a < |cubes| && 0 <= t < |cubes[a]| :: cubes[a][t]
  }

  /** Node a has pose `poses[a]`, for every a < |nodes|. */
  ghost predicate NodesPosed(nodes: seq<Node>, poses: seq<Pose>)
    reads Objects(nodes)`position, Objects(nodes)`rotation, Objects(nodes)`scaling
    reads Objects(nodes)`pivot, Objects(nodes)`restRotation
  {
    && |nodes| <= |poses|
    && forall a :: 0 <= a < |nodes| ==> PoseOf(nodes[a]) == poses[a]
  }

  /** Bone a holds one box per entry of `boxPoses[a]`, box t with pose
      `boxPoses[a][t]`, for every a < |cubes|. */
  ghost predicate BoxesPosed(cubes: seq<seq<Node>>, boxPoses: seq<seq<Pose>>)
    reads BoxObjects(cubes)`position, BoxObjects(cubes)`rotation, BoxObjects(cubes)`scaling
    reads BoxObjects(cubes)`pivot, BoxObjects(cubes)`restRotation
  {
    && |cubes| <= |boxPoses|
    && (forall a :: 0 <= a < |cubes| ==> |cubes[a]| == |boxPoses[a]|)
    && forall a, t :: 0 <= a < |cubes| && 0 <= t < |cubes[a]| ==> PoseOf(cubes[a][t]) == boxPoses[a][t]
  }

  /** Every box is a leaf: nothing is ever added to a box. */
  ghost predicate BoxesLeaves(cubes: seq<seq<Node>>)
    reads BoxObjects(cubes)`children
  {
    forall a, t :: 0 <= a < |cubes| && 0 <= t < |cubes[a]| ==> cubes[a][t].children == []
  }

  /** The child list of node a is `kids[a]`. */
  ghost predicate ChildrenAre(nodes: seq<Node>, kids: seq<seq<Node>>)
    reads Objects(nodes)`children
  {
    |kids| == |nodes| && forall a :: 0 <= a < |nodes| ==> nodes[a].children == kids[a]
  }

  /** The model after the first |nodes| bones: `table` is the name table and
      bone a's node is `nodes[a]`, each new to the ones before it, posed,
      boxed and linked. */
  ghost predicate Built(bones: seq<Bone>, poses: seq<Pose>, boxPoses: seq<seq<Pose>>,
                        nodes: seq<Node>, cubes: seq<seq<Node>>, table: map<string, Node>)
    reads Objects(nodes), BoxObjects(cubes)
  {
    && |nodes| <= |bones| && |cubes| == |nodes|
    && table == TableOf(bones, nodes)
    && (forall b :: 0 <= b < |nodes| ==> nodes[b] !in nodes[..b])
    && NodesPosed(nodes, poses)
    && BoxesPosed(cubes, boxPoses)
    && BoxesLeaves(cubes)
    && ChildrenAre(nodes, KidsOf(bones, nodes, cubes))
  }

  /** Before the first bone: an empty name table and no nodes. */
  lemma BuiltEmpty(bones: seq<Bone>, poses: seq<Pose>, boxPoses: seq<seq<Pose>>)
    ensures Built(bones, poses, boxPoses, [], [], map[])
  {
    var none: seq<Node> := [];
    assert TableOf(bones, none) == map[];
    assert KidsOf(bones, none, []) == [];
  }

  /** Nodes each new to the ones before them are pairwise distinct. */
  lemma DistinctAt(nodes: seq<Node>, a: nat, b: nat)
    requires forall c :: 0 <= c < |nodes| ==> nodes[c] !in nodes[..c]
    requires a < |nodes| && b < |nodes| && a != b
    ensures nodes[a] != nodes[b]
  {
    if a < b {
      assert nodes[..b][a] == nodes[a];
    } else {
      assert nodes[..a][b] == nodes[b];
    }
  }

  /** The node bone |nodes| is attached to, as a set of at most one node. */
  ghost function ParentNode(bones: seq<Bone>, nodes: seq<Node>): set<Node>
    requires |nodes| < |bones|
  {
    match ParentIndex(bones, |nodes|)
    case None => {}
    case Some(p) => {nodes[p]}
  }

  /** Before the next step, the parent lookup finds the node of the next
      bone's parent bone, whose pose is that bone's. */
  lemma BuiltParent(bones: seq<Bone>, poses: seq<Pose>, boxPoses: seq<seq<Pose>>,
                    nodes: seq<Node>, cubes: seq<seq<Node>>, table: map<string, Node>)
    requires |nodes| < |bones| && Built(bones, poses, boxPoses, nodes, cubes, table)
    ensures ParentEntry(table, bones[|nodes|]) == ParentNode(bones, nodes)
    ensures ParentKey(bones[|nodes|]) in table ==>
              PoseOf(table[ParentKey(bones[|nodes|])]) == poses[ParentIndex(bones, |nodes|).value]
  {
    TableOfLookup(bones, nodes, ParentKey(bones[|nodes|]));
  }

  lemma NodesPosedSnoc(nodes: seq<Node>, poses: seq<Pose>, node: Node)
    requires |nodes| < |poses| && NodesPosed(nodes, poses)
    requires PoseOf(node) == poses[|nodes|]
    ensures NodesPosed(nodes + [node], poses)
  {
    forall a | 0 <= a < |nodes| + 1
      ensures PoseOf((nodes + [node])[a]) == poses[a]
    {
      if a < |nodes| {
        assert PoseOf(nodes[a]) == poses[a];
      }
    }
  }

  lemma BoxesPosedSnoc(cubes: seq<seq<Node>>, boxPoses: seq<seq<Pose>>, made: seq<Node>)
    requires |cubes| < |boxPoses| && BoxesPosed(cubes, boxPoses)
    requires |made| == |boxPoses[|cubes|]|
    requires forall t :: 0 <= t < |made| ==> PoseOf(made[t]) == boxPoses[|cubes|][t]
    ensures BoxesPosed(cubes + [made], boxPoses)
  {
    var cubes' := cubes + [made];
    forall a, t | 0 <= a < |cubes'| && 0 <= t < |cubes'[a]|
      ensures PoseOf(cubes'[a][t]) == boxPoses[a][t]
    {
      if a < |cubes| {
        assert PoseOf(cubes[a][t]) == boxPoses[a][t];
      }
    }
  }

  lemma BoxesLeavesSnoc(cubes: seq<seq<Node>>, made: seq<Node>)
    requires forall a, t :: 0 <= a < |cubes| && 0 <= t < |cubes[a]| ==> cubes[a][t].children == []
    requires forall t :: 0 <= t < |made| ==> made[t].children == []
    ensures BoxesLeaves(cubes + [made])
  {
    var cubes': seq<seq<Node>> := cubes + [made];
    forall a, t | 0 <= a < |cubes'| && 0 <= t < |cubes'[a]|
      ensures cubes'[a][t].children == []
    {
      if a < |cubes| {
        assert cubes'[a] == cubes[a];
      }
    }
  }

  /** A box is never a bone's node: the pose of every bone node carries a
      stashed pivot and that of every box does not. */
  lemma BoxIsNoBoneNode(nodes: seq<Node>, poses: seq<Pose>, cubes: seq<seq<Node>>, boxPoses: seq<seq<Pose>>,
                        p: nat, a: nat, t: nat)
    requires NodesPosed(nodes, poses) && BoxesPosed(cubes, boxPoses)
    requires p < |nodes| && a < |cubes| && t < |cubes[a]|
    requires poses[p].pivot.Some? && boxPoses[a][t].pivot.None?
    ensures nodes[p] != cubes[a][t]
  {
    assert PoseOf(nodes[p]) == poses[p];
    assert PoseOf(cubes[a][t]) == boxPoses[a][t];
  }

  /** The child lists after the next step, when the only list that changed
      since `before` is the parent's, which gained the new node. */
  lemma ChildrenStep(bones: seq<Bone>, nodes: seq<Node>, cubes: seq<seq<Node>>, before: seq<seq<Node>>,
                     node: Node, made: seq<Node>)
    requires |nodes| == |cubes| < |bones| && before == KidsOf(bones, nodes, cubes)
    requires forall a :: 0 <= a < |nodes| ==>
               nodes[a].children == before[a] + (if ParentIndex(bones, |nodes|) == Some(a) then [node] else [])
    requires node.children == made
    ensures ChildrenAre(nodes + [node], KidsOf(bones, nodes + [node], cubes + [made]))
  {
    var nodes' := nodes + [node];
    forall a | 0 <= a < |nodes'|
      ensures nodes'[a].children == KidsOf(bones, nodes', cubes + [made])[a]
    {
      KidsOfSnocAt(bones, nodes, cubes, node, made, a);
    }
  }

  /** The invariant of the loop after one more bone, from the pieces one
      call of the callback establishes. */
  lemma BuiltSnoc(bones: seq<Bone>, poses: seq<Pose>, boxPoses: seq<seq<Pose>>,
                  nodes: seq<Node>, cubes: seq<seq<Node>>, table: map<string, Node>,
                  before: seq<seq<Node>>, node: Node, made: seq<Node>, table': map<string, Node>)
    requires |nodes| == |cubes| < |bones| && |bones| <= |poses| && |bones| <= |boxPoses|
    requires table == TableOf(bones, nodes) && table' == table[bones[|nodes|].name := node]
    requires (forall b :: 0 <= b < |nodes| ==> nodes[b] !in nodes[..b]) && node !in nodes
    requires NodesPosed(nodes + [node], poses) && BoxesPosed(cubes + [made], boxPoses)
    requires BoxesLeaves(cubes + [made])
    requires before == KidsOf(bones, nodes, cubes) && node.children == made
    requires forall a :: 0 <= a < |nodes| ==>
               nodes[a].children == before[a] + (if ParentIndex(bones, |nodes|) == Some(a) then [node] else [])
    ensures Built(bones, poses, boxPoses, nodes + [node], cubes + [made], table')
  {
    ChildrenStep(bones, nodes, cubes, before, node, made);
    TableOfSnoc(bones, nodes, node);
    var nodes' := nodes + [node];
    forall b | 0 <= b < |nodes'|
      ensures nodes'[b] !in nodes'[..b]
    {
      if b < |nodes| {
        assert nodes'[..b] == nodes[..b];
      } else {
        assert nodes'[..b] == nodes;
      }
    }
  }

  /** What the finished loop leaves: every bone's node and boxes posed as
      prescribed, every child list its boxes followed by the attached
      nodes in bone order, and the table holding, under the first root
      bone's name, the node of RootIndex. */
  lemma BuiltAll(bones: seq<Bone>, poses: seq<Pose>, boxPoses: seq<seq<Pose>>,
                 nodes: seq<Node>, cubes: seq<seq<Node>>, table: map<string, Node>)
    requires |nodes| == |bones| && Built(bones, poses, boxPoses, nodes, cubes, table)
    ensures forall i :: 0 <= i < |bones| ==>
              && PoseOf(nodes[i]) == poses[i]
              && |cubes[i]| == |boxPoses[i]|
              && (forall t :: 0 <= t < |cubes[i]| ==> PoseOf(cubes[i][t]) == boxPoses[i][t])
              && (forall t :: 0 <= t < |cubes[i]| ==> cubes[i][t].children == [])
              && nodes[i].children == cubes[i] + Pick(nodes, ChildBones(bones, i, |bones|))
    ensures FirstRoot(bones).Some? ==>
              && bones[FirstRoot(bones).value].name in table
              && table[bones[FirstRoot(bones).value].name] == nodes[RootIndex(bones).value]
  {
    forall i | 0 <= i < |bones|
      ensures nodes[i].children == cubes[i] + Pick(nodes, ChildBones(bones, i, |bones|))
    {
      KidsOfChildren(bones, nodes, cubes, i);
    }
    var root := FirstRoot(bones);
    if root.Some? {
      LastIndexLatest(bones, |bones|, bones[root.value].name);
      TableOfLookup(bones, nodes, bones[root.value].name);
    }
  }
}
