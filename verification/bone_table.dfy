/** What the single `forEach` over the bone list does to the name-keyed
    table `boneCubes`, stated on indices into the bone list. Both front-ends
    share it: step k registers bone k under its name (overwriting an earlier
    entry of that name) after looking its parent up, so a bone is attached
    exactly when an EARLIER bone carries its parent's name. */
module BoneTable {
  import opened Geometry

  /** The key the parent is looked up under. A bone without `parent` indexes
      the table with `undefined`, which a JavaScript object reads as the
      property "undefined". */
  function ParentKey(b: Bone): string
  {
    match b.parent
    case Some(p) => p
    case None => "undefined"
  }

  /** The test `!parent` of the final lookup: no parent, or the empty (falsy) name. */
  predicate IsRoot(b: Bone)
  {
    b.parent == None || b.parent == Some("")
  }

  /** The bone whose node the table holds under `name` after the first k
      steps: the latest of bones[..k] with that name, if any. */
  function LastIndex(bones: seq<Bone>, k: nat, name: string): (r: Option<nat>)
    requires k <= |bones|
    ensures r.Some? ==> r.value < k && bones[r.value].name == name
  {
    if k == 0 then None
    else if bones[k - 1].name == name then Some(k - 1)
    else LastIndex(bones, k - 1, name)
  }

  /** LastIndex finds a bone exactly when one of the first k carries the
      name, and no later one of them does. */
  lemma {:induction false} LastIndexLatest(bones: seq<Bone>, k: nat, name: string)
    requires k <= |bones|
    ensures LastIndex(bones, k, name).Some? <==> exists j :: 0 <= j < k && bones[j].name == name
    ensures LastIndex(bones, k, name).Some? ==>
              forall j :: LastIndex(bones, k, name).value < j < k ==> bones[j].name != name
    decreases k
  {
    if k > 0 && bones[k - 1].name != name {
      LastIndexLatest(bones, k - 1, name);
    }
  }

  /** The bone whose node bone i is attached to: the table entry under its
      parent key at the time bone i is processed, if there is one. */
  function ParentIndex(bones: seq<Bone>, i: nat): (r: Option<nat>)
    requires i < |bones|
    ensures r.Some? ==> r.value < i && bones[r.value].name == ParentKey(bones[i])
  {
    LastIndex(bones, i, ParentKey(bones[i]))
  }

  /** `bones.find(({ parent }) => !parent)`, searching from index `from`. */
  function FirstRootFrom(bones: seq<Bone>, from: nat): (r: Option<nat>)
    requires from <= |bones|
    ensures r.Some? <==> exists j :: from <= j < |bones| && IsRoot(bones[j])
    ensures r.Some? ==> from <= r.value < |bones| && IsRoot(bones[r.value])
    ensures r.Some? ==> forall j :: from <= j < r.value ==> !IsRoot(bones[j])
    decreases |bones| - from
  {
    if from == |bones| then None
    else if IsRoot(bones[from]) then Some(from)
    else FirstRootFrom(bones, from + 1)
  }

  /** The first bone of the list that passes the root test. */
  function FirstRoot(bones: seq<Bone>): (r: Option<nat>)
    ensures r.Some? <==> exists j :: 0 <= j < |bones| && IsRoot(bones[j])
    ensures r.Some? ==> r.value < |bones| && IsRoot(bones[r.value])
    ensures r.Some? ==> forall j :: 0 <= j < r.value ==> !IsRoot(bones[j])
  {
    FirstRootFrom(bones, 0)
  }

  /** The bone whose node the builder returns: the one the finished table
      holds under the NAME of the first root bone. */
  function RootIndex(bones: seq<Bone>): (r: Option<nat>)
    ensures r.Some? <==> FirstRoot(bones).Some?
    ensures r.Some? ==> FirstRoot(bones).value <= r.value < |bones|
    ensures r.Some? ==> bones[r.value].name == bones[FirstRoot(bones).value].name
    ensures r.Some? ==> forall j :: r.value < j < |bones| ==> bones[j].name != bones[r.value].name
  {
    match FirstRoot(bones)
    case None => None
    case Some(f) =>
      LastIndexLatest(bones, |bones|, bones[f].name);
      LastIndex(bones, |bones|, bones[f].name)
  }

  /** The bones attached to bone i during the first k steps, in the order
      they were attached. */
  function ChildBones(bones: seq<Bone>, i: nat, k: nat): (r: seq<nat>)
    requires k <= |bones|
    ensures forall j: nat :: j in r <==> j < k && ParentIndex(bones, j) == Some(i)
    ensures forall s, t :: 0 <= s < t < |r| ==> r[s] < r[t]
    ensures forall t :: 0 <= t < |r| ==> r[t] < k
  {
    if k <= i + 1 then []
    else
      var earlier := ChildBones(bones, i, k - 1);
      assert forall t :: 0 <= t < |earlier| ==> earlier[t] in earlier;
      if ParentIndex(bones, k - 1) == Some(i) then earlier + [k - 1] else earlier
  }

  /** The elements of `xs` picked by the indices `idx`, in order. */
  function Pick<T>(xs: seq<T>, idx: seq<nat>): (r: seq<T>)
    requires forall t :: 0 <= t < |idx| ==> idx[t] < |xs|
    ensures |r| == |idx| && forall t :: 0 <= t < |idx| ==> r[t] == xs[idx[t]]
  {
    seq(|idx|, t requires 0 <= t < |idx| => xs[idx[t]])
  }

  lemma PickPrefix<T>(xs: seq<T>, ys: seq<T>, idx: seq<nat>)
    requires forall t :: 0 <= t < |idx| ==> idx[t] < |xs|
    ensures Pick(xs + ys, idx) == Pick(xs, idx)
  {
  }

  lemma PickSnoc<T>(xs: seq<T>, idx: seq<nat>, j: nat)
    requires forall t :: 0 <= t < |idx| ==> idx[t] < |xs|
    requires j < |xs|
    ensures Pick(xs, idx + [j]) == Pick(xs, idx) + [xs[j]]
  {
  }

  /** One step of the loop: attaching bone k extends the child list of its
      parent by k and leaves every other bone's child list as it was. */
  lemma ChildBonesStep(bones: seq<Bone>, i: nat, k: nat)
    requires k < |bones| && i < k
    ensures ChildBones(bones, i, k + 1)
         == ChildBones(bones, i, k) + (if ParentIndex(bones, k) == Some(i) then [k] else [])
  {
  }

  /** The table after registering `nodes[j]` under the name of bone j, for
      every j < |nodes| in order. */
  ghost function TableOf<T>(bones: seq<Bone>, nodes: seq<T>): map<string, T>
    requires |nodes| <= |bones|
    decreases |nodes|
  {
    if nodes == [] then map[]
    else
      var k := |nodes| - 1;
      TableOf(bones, nodes[..k])[bones[k].name := nodes[k]]
  }

  /** Registering one more node updates the table under the next bone's name. */
  lemma TableOfSnoc<T>(bones: seq<Bone>, nodes: seq<T>, node: T)
    requires |nodes| < |bones|
    ensures TableOf(bones, nodes + [node]) == TableOf(bones, nodes)[bones[|nodes|].name := node]
  {
    assert (nodes + [node])[..|nodes|] == nodes;
  }

  /** The table holds a name exactly when one of the registered bones carries
      it, and then holds the node of the latest such bone. */
  lemma {:induction false} TableOfLookup<T>(bones: seq<Bone>, nodes: seq<T>, name: string)
    requires |nodes| <= |bones|
    ensures name in TableOf(bones, nodes) <==> LastIndex(bones, |nodes|, name).Some?
    ensures name in TableOf(bones, nodes) ==>
              TableOf(bones, nodes)[name] == nodes[LastIndex(bones, |nodes|, name).value]
    decreases |nodes|
  {
    if nodes != [] {
      TableOfLookup(bones, nodes[..|nodes| - 1], name);
    }
  }

  /** Bone a's attached nodes after one more step: those it had, plus the
      newest node when the newest bone is attached to a. */
  lemma ChildListStep<T>(bones: seq<Bone>, nodes: seq<T>, node: T, a: nat)
    requires |nodes| < |bones| && a < |nodes|
    ensures Pick(nodes + [node], ChildBones(bones, a, |nodes| + 1))
         == Pick(nodes, ChildBones(bones, a, |nodes|)) + (if ParentIndex(bones, |nodes|) == Some(a) then [node] else [])
  {
    var k := |nodes|;
    var cb := ChildBones(bones, a, k);
    ChildBonesStep(bones, a, k);
    PickPrefix(nodes, [node], cb);
    if ParentIndex(bones, k) == Some(a) {
      PickSnoc(nodes + [node], cb, k);
    }
  }

  /** The child lists after the first |nodes| steps, when bone j's node is
      `nodes[j]` and starts with the boxes `boxes[j]`: each step appends
      the new node to the list of the bone it is attached to. */
  ghost function KidsOf<T>(bones: seq<Bone>, nodes: seq<T>, boxes: seq<seq<T>>): (r: seq<seq<T>>)
    requires |nodes| == |boxes| <= |bones|
    ensures |r| == |nodes|
    decreases |nodes|
  {
    if nodes == [] then []
    else
      var k := |nodes| - 1;
      var earlier := KidsOf(bones, nodes[..k], boxes[..k]);
      match ParentIndex(bones, k)
      case None => earlier + [boxes[k]]
      case Some(p) => earlier[p := earlier[p] + [nodes[k]]] + [boxes[k]]
  }

  /** One step of KidsOf, written on the extended sequences. */
  lemma KidsOfSnoc<T>(bones: seq<Bone>, nodes: seq<T>, boxes: seq<seq<T>>, node: T, made: seq<T>)
    requires |nodes| == |boxes| < |bones|
    ensures KidsOf(bones, nodes + [node], boxes + [made])
         == (var earlier := KidsOf(bones, nodes, boxes);
             match ParentIndex(bones, |nodes|)
             case None => earlier + [made]
             case Some(p) => earlier[p := earlier[p] + [node]] + [made])
  {
    assert (nodes + [node])[..|nodes|] == nodes;
    assert (boxes + [made])[..|nodes|] == boxes;
  }

  /** One step of KidsOf, list by list: the new node's list is its boxes,
      and an earlier list gains the new node exactly when it is the parent's. */
  lemma KidsOfSnocAt<T>(bones: seq<Bone>, nodes: seq<T>, boxes: seq<seq<T>>, node: T, made: seq<T>, a: nat)
    requires |nodes| == |boxes| < |bones| && a <= |nodes|
    ensures KidsOf(bones, nodes + [node], boxes + [made])[a]
         == if a == |nodes| then made
            else KidsOf(bones, nodes, boxes)[a] + (if ParentIndex(bones, |nodes|) == Some(a) then [node] else [])
  {
    KidsOfSnoc(bones, nodes, boxes, node, made);
    var earlier := KidsOf(bones, nodes, boxes);
    match ParentIndex(bones, |nodes|)
    case None =>
      assert KidsOf(bones, nodes + [node], boxes + [made]) == earlier + [made];
    case Some(p) =>
      var updated := earlier[p := earlier[p] + [node]];
      assert KidsOf(bones, nodes + [node], boxes + [made]) == updated + [made];
      assert a < |nodes| ==> (updated + [made])[a] == updated[a];
  }

  /** Each child list is the node's own boxes followed by the nodes of the
      bones attached to it, in bone order. */
  lemma {:induction false} KidsOfChildren<T>(bones: seq<Bone>, nodes: seq<T>, boxes: seq<seq<T>>, a: nat)
    requires |nodes| == |boxes| <= |bones| && a < |nodes|
    ensures KidsOf(bones, nodes, boxes)[a] == boxes[a] + Pick(nodes, ChildBones(bones, a, |nodes|))
    decreases |nodes|
  {
    var k := |nodes| - 1;
    var prefix, boxesBefore := nodes[..k], boxes[..k];
    assert nodes == prefix + [nodes[k]];
    assert boxes == boxesBefore + [boxes[k]];
    KidsOfSnoc(bones, prefix, boxesBefore, nodes[k], boxes[k]);
    var earlier := KidsOf(bones, prefix, boxesBefore);
    if a < k {
      KidsOfChildren(bones, prefix, boxesBefore, a);
      ChildListStep(bones, prefix, nodes[k], a);
      match ParentIndex(bones, k)
      case None =>
        assert KidsOf(bones, nodes, boxes)[a] == earlier[a];
      case Some(p) =>
        var updated := earlier[p := earlier[p] + [nodes[k]]];
        assert KidsOf(bones, nodes, boxes)[a] == updated[a];
    } else {
      match ParentIndex(bones, k)
      case None =>
        assert KidsOf(bones, nodes, boxes)[a] == boxes[k];
      case Some(p) =>
        assert KidsOf(bones, nodes, boxes)[a] == boxes[k];
    }
  }

  /** Following parent links from bone i until a bone that was not attached. */
  function ChainTop(bones: seq<Bone>, i: nat): (top: nat)
    requires i < |bones|
    ensures top <= i && ParentIndex(bones, top).None?
    decreases i
  {
    match ParentIndex(bones, i)
    case None => i
    case Some(p) => ChainTop(bones, p)
  }

  /** Every bone is attached to at most one parent, and a bone that is
      attached appears exactly once among its parent's children. */
  lemma AttachedOnce(bones: seq<Bone>, j: nat, i: nat, i': nat)
    requires j < |bones| && i < |bones| && i' < |bones|
    requires j in ChildBones(bones, i, |bones|) && j in ChildBones(bones, i', |bones|)
    ensures i == i' && ParentIndex(bones, j) == Some(i)
  {
  }

  /** A bone whose parent name no EARLIER bone carries is left unattached,
      even when a later bone carries it: it is nobody's child. */
  lemma ForwardReferenceDetached(bones: seq<Bone>, i: nat)
    requires i < |bones|
    requires forall j :: 0 <= j < i ==> bones[j].name != ParentKey(bones[i])
    ensures ParentIndex(bones, i).None?
    ensures forall a: nat :: i !in ChildBones(bones, a, |bones|)
  {
    LastIndexLatest(bones, i, ParentKey(bones[i]));
  }

  /** A later bone with an already registered name replaces the earlier
      entry: the earlier node can no longer be found under that name. */
  lemma LaterNameOverwrites(bones: seq<Bone>, a: nat, b: nat)
    requires a < b < |bones| && bones[a].name == bones[b].name
    ensures LastIndex(bones, |bones|, bones[a].name) != Some(a)
    ensures forall i :: b < i < |bones| && ParentKey(bones[i]) == bones[a].name ==> ParentIndex(bones, i) != Some(a)
  {
    LastIndexLatest(bones, |bones|, bones[a].name);
    forall i | b < i < |bones| && ParentKey(bones[i]) == bones[a].name
      ensures ParentIndex(bones, i) != Some(a)
    {
      LastIndexLatest(bones, i, bones[a].name);
    }
  }

  /** A bone with no `parent` is a root, yet it is attached exactly when an
      earlier bone is literally named "undefined", and then to the latest
      such bone. */
  lemma {:induction false} UndefinedNameAdoptsRoot(bones: seq<Bone>, i: nat)
    requires i < |bones| && bones[i].parent == None
    ensures IsRoot(bones[i])
    ensures ParentIndex(bones, i).Some? <==> exists j :: 0 <= j < i && bones[j].name == "undefined"
    ensures ParentIndex(bones, i).Some? ==>
              && bones[ParentIndex(bones, i).value].name == "undefined"
              && forall j :: ParentIndex(bones, i).value < j < i ==> bones[j].name != "undefined"
  {
    LastIndexLatest(bones, i, "undefined");
  }

  /** A document in the shape the builder expects: unique names, exactly
      one root, whose parent key names no bone, and every other bone named
      after a parent declared before it. */
  ghost predicate Ordered(bones: seq<Bone>)
  {
    && (forall a, b :: 0 <= a < b < |bones| ==> bones[a].name != bones[b].name)
    && FirstRoot(bones).Some?
    && (forall j :: 0 <= j < |bones| && IsRoot(bones[j]) ==> j == FirstRoot(bones).value)
    && (forall j :: 0 <= j < |bones| ==> bones[j].name != ParentKey(bones[FirstRoot(bones).value]))
    && (forall i :: 0 <= i < |bones| && !IsRoot(bones[i]) ==>
          exists j :: 0 <= j < i && bones[j].name == ParentKey(bones[i]))
  }

  /** On an ordered document the builder returns the root bone's own node,
      that node is attached to nothing, and every bone hangs below it. */
  lemma {:induction false} OrderedFormsOneTree(bones: seq<Bone>, i: nat)
    requires Ordered(bones) && i < |bones|
    ensures RootIndex(bones) == FirstRoot(bones)
    ensures ParentIndex(bones, FirstRoot(bones).value).None?
    ensures ChainTop(bones, i) == FirstRoot(bones).value
    decreases i
  {
    var r := FirstRoot(bones).value;
    LastIndexLatest(bones, |bones|, bones[r].name);
    assert LastIndex(bones, |bones|, bones[r].name) == Some(r);
    if IsRoot(bones[i]) {
      assert i == r;
    } else {
      var p :| 0 <= p < i && bones[p].name == ParentKey(bones[i]);
      LastIndexLatest(bones, i, ParentKey(bones[i]));
      var q := ParentIndex(bones, i).value;
      OrderedFormsOneTree(bones, q);
    }
  }
}
