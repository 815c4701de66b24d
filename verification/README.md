# Portrait renderer model builders, in Dafny

The cobblemon portrait renderer turns the bone list of a Bedrock-style
`minecraft:geometry` document into a tree of box meshes. It has two
alternative front-ends. `main.js` targets three.js and `main-babylon.js`
targets Babylon.js. Each has a `buildCube` that creates one mesh and sets its
transform, and a `buildModel` that builds the tree. `buildModel` walks the
bones once, in order, and registers every bone's node in a name-keyed table
(`boneCubes`). It attaches a bone, with boxes for its cuboids, to the node of
its parent bone when that parent was registered earlier. It returns the node
registered under the name of the first bone without a parent.

This project models both front-ends on an abstract scene graph and proves
what they build:

- `geometry.dfy` (module `Geometry`): the parsed bone list (`Bone`, `Cuboid`)
  and small vectors.
- `scene_graph.dfy` (module `SceneGraph`): the mesh or transform node as a
  class. Its transform fields are assigned after construction and it has a
  child list (`AddChild`).
- `bone_table.dfy` (module `BoneTable`): the meaning of the name table as pure
  functions of the bone list:
  - which node a name maps to after k bones (`LastIndex`, `TableOf`);
  - which bone each bone is attached to (`ParentIndex`);
  - which bones each bone receives, in order (`ChildBones`);
  - which node is returned (`FirstRoot`, `RootIndex`).
- `assembly.dfy` (module `Assembly`): the loop invariant `Built` that both
  builders keep. After k bones the table is `TableOf`, every node and box has
  the pose its front-end prescribes, and every child list is the node's boxes
  followed by the nodes attached to it so far.
- `three.dfy` (module `Three`): `main.js`. Boxes are untextured. An attached
  bone node is placed at its pivot minus its parent's pivot, and its rest
  rotation is applied with X and Z negated. A bone with no registered parent
  node keeps its absolute pivot and no rotation, because the code computes
  both only when the parent lookup succeeds.
- `babylon.dfy` (module `Babylon`): `main-babylon.js`:
  - the cross-unfolded texture net and its normalisation (`buildFaceUv`);
  - a zero box dimension replaced by 0.01;
  - boxes placed at corner plus half size and scaled by `inflate + 1`;
  - bone nodes placed at pivot + 0.05 on every axis (they are default
    0.1 boxes) and never made relative to their parents, with their rest
    rotations unflipped.

Each `buildModel` is a method whose loop lives in `ForEachBone`. `Advance`
runs the callback once, by calling `Step`, and keeps the invariant `Built`.
`BuildModel` then states, for every bone:
- the pose of its node;
- the poses of its boxes;
- its exact child list: its boxes, then `Pick(nodes, ChildBones(...))`;
- that each of its boxes has no children.

It also states the result:
- `Root` of the node of `RootIndex` (the last bone carrying the first root
  bone's name);
- `NoParentlessBone` when no bone passes the root test.

`BoneTable` proves how those functions behave:
- attachment is unique;
- a forward reference leaves a bone unattached;
- a later bone with the same name takes over the entry;
- a bone without `parent` is looked up under the key `"undefined"`;
- on a well-ordered document the whole list forms one tree under the first
  root.

### Behaviours worth knowing

- **Face 0 of a 4×4×4 box.** At offset (0, 0) of a 16×16 atlas, face 0 takes
  the rectangle x in [12, 16], y in [4, 8], which normalises to
  (0.75, 0.5, 1.0, 0.75) (`Babylon.Face0Example`).
- **Face 5 orientation.** Face 5 receives its rows in the opposite order to
  the other faces, so its v range is inverted (`Babylon.FaceUvOrientation`).
- **Babylon bone nodes.** A bone node is built as the default 0.1 box, so it
  sits at pivot + 0.05 on every axis (`Babylon.BoneNodeAbsolute`).
- **Bone order.** A bone whose parent is declared after it is left unattached,
  without its boxes, and no error is raised
  (`BoneTable.ForwardReferenceDetached`).

## Model

| member | source | states |
|---|---|---|
| SceneGraph.Node.constructor | main-babylon.js:54-60 | a new mesh has the given size and face rectangles and sits at the origin, unrotated, at scale 1, with no children |
| SceneGraph.Node.AddChild | main.js:66 | `add`/`addChild` appends the child to the end of the child list and changes nothing else |
| BoneTable.LastIndex | main.js:45 | the entry under a name after k bones comes from a bone among the first k that carries that name |
| BoneTable.LastIndexLatest | main.js:45 | a name is in the table after k bones exactly when one of the first k bones carries it, and the entry is that of the latest such bone |
| BoneTable.ParentIndex | main.js:44 | the node a bone is attached to is that of an earlier bone carrying the bone's parent key |
| BoneTable.FirstRootFrom | main.js:72 | `find` from an index returns a bone passing the root test, with none before it, and finds one exactly when one exists |
| BoneTable.FirstRoot | main.js:72 | the first bone with no (or an empty) `parent`, found exactly when one exists |
| BoneTable.RootIndex | main.js:72 | the returned node belongs to a bone at or after the first root that carries the root's name, with no later bone of that name; it exists exactly when a root exists |
| BoneTable.ChildBones | main.js:44-69 | bone j is attached to bone i exactly when the parent lookup for j finds i; the attached bones are listed in increasing order |
| BoneTable.ChildBonesStep | main.js:69 | attaching bone k appends k to its parent's list of attached bones and to no other bone's list |
| BoneTable.TableOfSnoc | main.js:45 | registering one more bone updates the table under that bone's name only |
| BoneTable.TableOfLookup | main.js:44-45 | the table holds a name exactly when some registered bone carries it, and then maps it to the node of the latest such bone |
| BoneTable.ChildListStep | main.js:69 | one more step appends the new node to its parent's attached nodes and leaves every other bone's attached nodes as they were |
| BoneTable.KidsOfChildren | main.js:61-69 | each child list is the bone's own boxes followed by the nodes of the bones attached to it, in bone order |
| BoneTable.ChainTop | main.js:44-49 | following parent links from a bone ends at an earlier or equal bone that is not attached |
| BoneTable.AttachedOnce | main.js:69 | a bone is attached to at most one parent, the one its parent lookup finds |
| BoneTable.ForwardReferenceDetached | main.js:44-49 | a bone whose parent name no earlier bone carries is attached to nothing and appears in no child list |
| BoneTable.LaterNameOverwrites | main.js:45 | once a later bone reuses a name, the earlier bone's node is neither returned under that name nor given further children |
| BoneTable.UndefinedNameAdoptsRoot | main.js:44 | a bone without `parent` passes the root test, yet it is attached exactly when an earlier bone is named "undefined", and then to the latest such bone |
| BoneTable.OrderedFormsOneTree | main.js:36-73 | on a document with unique names, one root listed first and every parent listed before its children, the result is the root's own node and every bone's attachment chain ends at it |
| Assembly.BuiltEmpty | main.js:37 | before the first bone the table is empty and nothing is built |
| Assembly.BuiltParent | main.js:44 | during the loop the parent lookup finds exactly the node of the parent bone, and that node has the parent bone's pose |
| Assembly.BuiltSnoc | main.js:39-70 | one run of the callback extends the built model by one bone: table, poses, boxes, childless boxes and child lists |
| Assembly.BoxIsNoBoneNode | main.js:44-66 | no box is ever a bone node, since every bone node keeps its pivot and no box has one; so the parent lookup never hands back a box |
| Assembly.BuiltAll | main.js:36-73 | after the loop every node and box has its prescribed pose, every box has no children, every child list is boxes then attached nodes in order, and the table maps the first root's name to the node of RootIndex |
| Three.BuildCube | main.js:16-34 | the box has the given size, position and rotation, each `[0, 0, 0]` when absent, scale 1 and no children |
| Three.ChainOffsetIsPivot | main.js:51-54 | subtracting the parent's pivot makes positions telescope: adding the offsets down a bone's attachment chain lands on the bone's own pivot |
| Three.CubeCentreInModelSpace | main.js:61-65 | a box is centred on its cuboid in model space: origin plus half size |
| Three.AddCubes | main.js:61-67 | one new box per cuboid, appended in order, each centred on its cuboid relative to the bone's pivot |
| Three.AddBone | main.js:39-70 | a new node is registered under the bone's name. When the parent key was registered, the node is placed at pivot minus the parent's stored pivot (zero when missing), rotated by the X/Z-negated rest rotation, given its boxes and appended to the parent. Otherwise it stays at the pivot, unrotated and childless |
| Three.Step | main.js:39-70 | one callback run: the new node and boxes get the three.js poses, no other pose changes, and only the parent's child list grows, by the new node; every box so far stays childless |
| Three.Advance | main.js:39-70 | one callback run keeps the invariant `Built` |
| Three.ForEachBone | main.js:37-70 | the loop over all bones builds the model `Built` describes and registers only new nodes |
| Three.BuiltModel | main.js:36-73 | the finished loop in three.js terms: bone poses, box poses, childless boxes, child lists and the root entry |
| Three.BuildModel | main.js:36-73 | every bone node and box has its three.js pose and its exact child list, and every box has no children. The result is the new node of RootIndex, or NoParentlessBone when no bone passes the root test |
| Babylon.FaceUvPixels | main-babylon.js:8-10 | scaling a face rectangle back by the atlas size gives its pixel columns, and its pixel rows counted down from the top, so v runs up from the bottom edge |
| Babylon.CrossUnfoldNet | main-babylon.js:46-51 | the side faces 3, 1, 2, 0 share edges in one band of height sy, the top face sits on the front face, and for non-negative sizes every face lies inside the (2sx+2sz) by (sz+sy) net at the offset |
| Babylon.FaceOrientation | main-babylon.js:46-51 | for non-negative sizes faces 0 to 4 have x1 <= x2 and y1 <= y2; face 5 has its rows reversed, strictly when sz > 0 |
| Babylon.NormaliseOrder | main-babylon.js:8-10 | on a positive atlas, u_min <= u_max exactly when x1 <= x2, and v_min <= v_max exactly when y1 <= y2 |
| Babylon.FaceUvOrientation | main-babylon.js:41-52 | textured faces 0 to 4 of a non-negative box have ordered u and v ranges; face 5 has its v range inverted |
| Babylon.NormaliseInside | main-babylon.js:8-10 | a pixel rectangle inside the atlas normalises into the unit square |
| Babylon.FacesInsideAtlas | main-babylon.js:41-52 | when the net fits inside the atlas, every face coordinate lies in [0, 1] |
| Babylon.Face0Example | main-babylon.js:46 | for a 4x4x4 box at offset (0, 0) of a 16x16 atlas, face 0 is (0.75, 0.5, 1.0, 0.75) |
| Babylon.ClampSizeKeepsNonZero | main-babylon.js:35-38 | a zero dimension becomes 0.01, a non-zero one is kept, no built dimension is zero, and clamping twice equals clamping once |
| Babylon.BoxFromCorner | main-babylon.js:62 | the given position is the box's minimum corner: position equals centre minus half the built size |
| Babylon.DefaultBox | main-babylon.js:25-34 | with no options the box is 0.1 on each side, centred at 0.05, unrotated, at scale 1 and untextured |
| Babylon.FlatBoxKeepsRawUv | main-babylon.js:35-51 | a box flat along z gets a 0.01-deep mesh, but its face rectangles use the raw zero, so face 3 has no width in the atlas |
| Babylon.FillFaces | main-babylon.js:41-52 | the six slots are filled with the normalised cross-unfold rectangles of the raw size |
| Babylon.BuildCube | main-babylon.js:25-67 | the box has: the clamped size; face rectangles exactly when both `uv` and `textureSize` are given; centre = position + clamped size / 2; the given rotation; scale inflate + 1; defaults for absent options |
| Babylon.BoneNodeAbsolute | main-babylon.js:75-93 | every bone node, attached or not, sits at its pivot plus 0.05 on each axis with its rest rotation unflipped, a 0.1 untextured box at scale 1 |
| Babylon.CuboidBox | main-babylon.js:95-106 | a cuboid's box has the clamped size, is centred on origin plus half that size with no pivot subtracted, is scaled by inflate + 1, and is textured exactly when the cuboid has a uv offset, using the pre-mapped size |
| Babylon.AddCubes | main-babylon.js:95-107 | one new box per cuboid, appended in order, each with its cuboid's box pose |
| Babylon.AddBone | main-babylon.js:75-110 | a new node with the bone's pose and stashed state is registered under its name; when the parent key was registered before it, it gets its boxes and is appended to the parent |
| Babylon.Step | main-babylon.js:75-110 | one callback run: the new node and boxes get the Babylon poses, no other pose changes, and only the parent's child list grows, by the new node; every box so far stays childless |
| Babylon.Advance | main-babylon.js:75-110 | one callback run keeps the invariant `Built` |
| Babylon.ForEachBone | main-babylon.js:75-110 | the loop over all bones builds the model `Built` describes and registers only new nodes |
| Babylon.BuiltModel | main-babylon.js:69-113 | the finished loop in Babylon terms: bone poses, box poses, childless boxes, child lists and the root entry |
| Babylon.BuildModel | main-babylon.js:69-114 | every bone node and box has its Babylon pose and its exact child list, and every box has no children. The result is the new node registered under the first root's name, or NoParentlessBone when no bone passes the root test |

## Left out

- Degree-to-radian conversion (`toRadians`, `Math.PI`) is floating point. Rotations stay in degrees. Negating the degrees matches negating the radians.
- Rendering is left out: scenes, cameras, lights, engine, render loop, resize handling, the DOM and the per-frame spin. It is I/O and frame scheduling.
- Mesh construction proper is left out: `BoxGeometry`/`CreateBox` vertex data, `wrap: true`, materials, textures (`buildTexture`) and mesh names. A mesh is an abstract node with a size and face rectangles.
- JSON import is left out: the bone list, and the atlas size from `texture_width`/`texture_height`, are given already parsed. An absent `cubes` is the empty sequence; an absent `rotation` or `inflate` is `None`.
- The animation document is left out: it is passed to `buildModel` but never read.
- Numbers are exact reals. There is no NaN or Infinity, and no array element that is missing or not a number.
- Babylon.BuildModel: requires a non-zero atlas width and height for every document, even one with no attached textured cuboid, where the code divides by nothing. With a zero dimension and an attached textured cuboid, the code would produce Infinity or NaN face coordinates.
- Babylon.BuildCube: requires a non-zero atlas size when both `uv` and `textureSize` are given, for the same reason.
- SceneGraph.Node.AddChild: appends to the child list and leaves the child's local transform as it was set. Babylon's `addChild` re-parents while preserving world transforms, which is renderer behaviour and is not modelled.
- The name table is a `map<string, Node>`. Keys inherited from the JavaScript object prototype (a bone named `toString`, say) are not modelled.
- Three.ChainOffset: follows translations only. It does not compose the rotations of the nodes along the chain.
- Three.BuildModel: states that the returned node is new, but not that every node it builds is.
- Babylon.BuildModel: states that the returned node is new, but not that every node it builds is.
- No bone passes the root test: `find` yields `undefined` and `.name` throws. The model returns `NoParentlessBone` instead of raising.
- The input bone list is a value, so the `slice(0)` copy that keeps it unmutated needs no counterpart.
