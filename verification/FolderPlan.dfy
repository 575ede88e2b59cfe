/** The two walks over the tree of a folder blueprint: the action plan and the preview. */
module FolderPlan {
  import opened Wrappers
  import opened Sequences

  datatype Action = Create | Rename | Move | Copy | Delete

  datatype Node = Node(action: Action, name: string, source: string, target: string, children: seq<Node>)

  /** What becomes of a node once its templates are evaluated and its paths resolved and checked. */
  datatype Resolved = Resolved(targetRel: Option<string>, source: Option<string>, target: Option<string>)

  datatype PlanItem = PlanItem(action: Action, source: Option<string>, target: Option<string>)

  /** Resolution of a node below a parent, at a position among its siblings. */
  type Resolver = (Node, string, nat) -> Result<Resolved, string>

  function TrimSlashes(s: string): string
    decreases |s|
  {
    if s != "" && s[0] == '/' then TrimSlashes(s[1..])
    else if s != "" && s[|s| - 1] == '/' then TrimSlashes(s[..|s| - 1])
    else s
  }

  function ChildParent(r: Resolved, parent: string): string {
    TrimSlashes(if r.targetRel.Some? then r.targetRel.value else parent)
  }

  function Joined(items: seq<PlanItem>, r: Result<seq<PlanItem>, string>): Result<seq<PlanItem>, string> {
    match r case Err(e) => Err(e) case Ok(rest) => Ok(items + rest)
  }

  /** The plan of `nodes`, which stand at positions from `index` on below `parent`. */
  function Collected(nodes: seq<Node>, index: nat, parent: string, resolve: Resolver): Result<seq<PlanItem>, string> {
    if nodes == [] then Ok([])
    else match resolve(nodes[0], parent, index)
      case Err(e) => Err(e)
      case Ok(r) =>
        var item := PlanItem(nodes[0].action, r.source, r.target);
        var below := if nodes[0].action == Delete then Ok([]) else Collected(nodes[0].children, 0, ChildParent(r, parent), resolve);
        match below
        case Err(e) => Err(e)
        case Ok(children) => Joined([item] + children, Collected(nodes[1..], index + 1, parent, resolve))
  }

  /** The recursive walk; it appends to the items it is given. */
  method CollectNodes(nodes: seq<Node>, parent: string, resolve: Resolver, before: seq<PlanItem>)
    returns (r: Result<seq<PlanItem>, string>)
    ensures r == Joined(before, Collected(nodes, 0, parent, resolve))
    decreases nodes
  {
    var items := before;
    for index := 0 to |nodes|
      invariant Joined(before, Collected(nodes, 0, parent, resolve))
                == Joined(items, Collected(nodes[index..], index, parent, resolve))
    {
      var node := nodes[index];
      TailTail(nodes, index);
      ghost var rest := Collected(nodes[index + 1..], index + 1, parent, resolve);
      var resolved := resolve(node, parent, index);
      if resolved.Err? {
        return Err(resolved.error);
      }
      ghost var soFar := items;
      items := items + [PlanItem(node.action, resolved.value.source, resolved.value.target)];
      if node.action == Delete {
        JoinedTwice(soFar, [PlanItem(node.action, resolved.value.source, resolved.value.target)], [], rest);
        assert items + [] == items;
        continue;
      }
      var below := CollectNodes(node.children, ChildParent(resolved.value, parent), resolve, items);
      if below.Err? {
        return Err(below.error);
      }
      ghost var children := Collected(node.children, 0, ChildParent(resolved.value, parent), resolve).value;
      JoinedTwice(soFar, [PlanItem(node.action, resolved.value.source, resolved.value.target)], children, rest);
      items := below.value;
    }
    assert items + [] == items;
    return Ok(items);
  }

  lemma JoinedTwice(a: seq<PlanItem>, b: seq<PlanItem>, c: seq<PlanItem>, r: Result<seq<PlanItem>, string>)
    ensures Joined(a, Joined(b + c, r)) == Joined(a + b + c, r)
  {
    if r.Ok? {
      assert a + (b + c + r.value) == a + b + c + r.value;
    }
  }

  datatype PreviewNode = PreviewNode(name: string, relativePath: string, action: Action, source: string, children: seq<PreviewNode>)

  /** The displayed name, path and source of a node below a parent. */
  datatype NodePreview = NodePreview(name: string, relativePath: string, source: string)

  type Previewer = (Node, string, nat) -> NodePreview

  /** The preview of `nodes`, and how many folders it counts. */
  function Previewed(nodes: seq<Node>, index: nat, parent: string, preview: Previewer): (seq<PreviewNode>, nat) {
    if nodes == [] then ([], 0)
    else
      var p := preview(nodes[0], parent, index);
      var (children, below) := if nodes[0].action == Delete then ([], 0) else Previewed(nodes[0].children, 0, p.relativePath, preview);
      var (rest, after) := Previewed(nodes[1..], index + 1, parent, preview);
      ([PreviewNode(p.name, p.relativePath, nodes[0].action, p.source, children)] + rest, 1 + below + after)
  }

  method PreviewNodes(nodes: seq<Node>, parent: string, preview: Previewer, counted: nat)
    returns (result: seq<PreviewNode>, folderCount: nat)
    ensures var (all, n) := Previewed(nodes, 0, parent, preview); result == all && folderCount == counted + n
    decreases nodes
  {
    result, folderCount := [], counted;
    for index := 0 to |nodes|
      invariant var (all, n) := Previewed(nodes, 0, parent, preview);
                var (rest, m) := Previewed(nodes[index..], index, parent, preview);
                all == result + rest && counted + n == folderCount + m
    {
      var node := nodes[index];
      TailTail(nodes, index);
      var p := preview(node, parent, index);
      folderCount := folderCount + 1;
      var children := [];
      if node.action != Delete {
        children, folderCount := PreviewNodes(node.children, p.relativePath, preview, folderCount);
      }
      ghost var rest := Previewed(nodes[index + 1..], index + 1, parent, preview).0;
      var shown := PreviewNode(p.name, p.relativePath, node.action, p.source, children);
      Assoc(result, [shown], rest);
      result := result + [shown];
    }
  }

  // ---- both walks follow the same order ----

  /** The tree in preorder, cut below Delete nodes. */
  function Preorder(nodes: seq<Node>): seq<Node> {
    if nodes == [] then []
    else [nodes[0]] + (if nodes[0].action == Delete then [] else Preorder(nodes[0].children)) + Preorder(nodes[1..])
  }

  /** A node met below a parent, at a position among its siblings. */
  datatype Visit = Visit(node: Node, parent: string, index: nat)

  /** The parent path a walk hands to the children of a node it met. */
  type Descent = (Node, string, nat) -> string

  function PlanDescent(resolve: Resolver): Descent {
    (node: Node, parent: string, index: nat) =>
      match resolve(node, parent, index) case Err(_) => parent case Ok(r) => ChildParent(r, parent)
  }

  function PreviewDescent(preview: Previewer): Descent {
    (node: Node, parent: string, index: nat) => preview(node, parent, index).relativePath
  }

  /** The cut preorder with the place at which each node is met. */
  function Placed(nodes: seq<Node>, index: nat, parent: string, descend: Descent): seq<Visit> {
    if nodes == [] then []
    else
      [Visit(nodes[0], parent, index)]
      + (if nodes[0].action == Delete then [] else Placed(nodes[0].children, 0, descend(nodes[0], parent, index), descend))
      + Placed(nodes[1..], index + 1, parent, descend)
  }

  /** The placed preorder has the nodes of the preorder, in order, whatever the paths. */
  lemma {:induction false} PlacedIsPreorder(nodes: seq<Node>, index: nat, parent: string, descend: Descent)
    ensures var visits := Placed(nodes, index, parent, descend);
            |visits| == |Preorder(nodes)| && forall i :: 0 <= i < |visits| ==> visits[i].node == Preorder(nodes)[i]
    decreases nodes
  {
    if nodes != [] {
      if nodes[0].action != Delete {
        PlacedIsPreorder(nodes[0].children, 0, descend(nodes[0], parent, index), descend);
      }
      PlacedIsPreorder(nodes[1..], index + 1, parent, descend);
    }
  }

  // ---- the plan ----

  /** The plans of a list of visits and of the one after it, joined. */
  function Followed(first: Result<seq<PlanItem>, string>, second: Result<seq<PlanItem>, string>)
    : Result<seq<PlanItem>, string>
  {
    match first case Err(e) => Err(e) case Ok(items) => Joined(items, second)
  }

  function PlanOfVisit(v: Visit, resolve: Resolver): Result<seq<PlanItem>, string> {
    match resolve(v.node, v.parent, v.index)
    case Err(e) => Err(e)
    case Ok(r) => Ok([PlanItem(v.node.action, r.source, r.target)])
  }

  /** The plan of a list of visits: each node resolved at its place, up to the first that fails. */
  function PlanOf(visits: seq<Visit>, resolve: Resolver): Result<seq<PlanItem>, string> {
    if visits == [] then Ok([]) else Followed(PlanOfVisit(visits[0], resolve), PlanOf(visits[1..], resolve))
  }

  lemma {:induction false} PlanOfConcat(a: seq<Visit>, b: seq<Visit>, resolve: Resolver)
    ensures PlanOf(a + b, resolve)
            == Followed(PlanOf(a, resolve), PlanOf(b, resolve))
    decreases |a|
  {
    if a == [] {
      NilLeft(b);
      if PlanOf(b, resolve).Ok? {
        NilLeft(PlanOf(b, resolve).value);
      }
    } else {
      TailConcat(a, b);
      PlanOfConcat(a[1..], b, resolve);
      var first := resolve(a[0].node, a[0].parent, a[0].index);
      if first.Ok? && PlanOf(a[1..], resolve).Ok? && PlanOf(b, resolve).Ok? {
        Assoc([PlanItem(a[0].node.action, first.value.source, first.value.target)], PlanOf(a[1..], resolve).value,
              PlanOf(b, resolve).value);
      }
    }
  }

  /** The plan of a node, of what is below it and of what comes after. */
  lemma PlanOfNode(v: Visit, below: seq<Visit>, rest: seq<Visit>, resolve: Resolver)
    ensures PlanOf([v] + below + rest, resolve)
            == Followed(Followed(PlanOfVisit(v, resolve), PlanOf(below, resolve)), PlanOf(rest, resolve))
  {
    PlanOfConcat([v] + below, rest, resolve);
    PlanOfConcat([v], below, resolve);
    assert [v][1..] == [];
  }

  /** The recursive walk plans the placed preorder, node by node, and fails as its first failing node does. */
  lemma {:induction false} CollectedIsPlanOf(nodes: seq<Node>, index: nat, parent: string, resolve: Resolver)
    ensures Collected(nodes, index, parent, resolve) == PlanOf(Placed(nodes, index, parent, PlanDescent(resolve)), resolve)
    decreases nodes
  {
    if nodes != [] {
      var descend := PlanDescent(resolve);
      var place := descend(nodes[0], parent, index);
      var below := if nodes[0].action == Delete then [] else Placed(nodes[0].children, 0, place, descend);
      var rest := Placed(nodes[1..], index + 1, parent, descend);
      if nodes[0].action != Delete {
        CollectedIsPlanOf(nodes[0].children, 0, place, resolve);
      }
      CollectedIsPlanOf(nodes[1..], index + 1, parent, resolve);
      PlanOfNode(Visit(nodes[0], parent, index), below, rest, resolve);
      assert Placed(nodes, index, parent, descend) == [Visit(nodes[0], parent, index)] + below + rest;
    }
  }

  /** The item of a node resolved at its place. */
  predicate ItemOf(item: PlanItem, v: Visit, resolve: Resolver) {
    var r := resolve(v.node, v.parent, v.index);
    r.Ok? && item == PlanItem(v.node.action, r.value.source, r.value.target)
  }

  lemma {:induction false} PlanOfItems(visits: seq<Visit>, resolve: Resolver)
    ensures var plan := PlanOf(visits, resolve);
            && (plan.Ok? <==> forall v <- visits :: resolve(v.node, v.parent, v.index).Ok?)
            && (plan.Ok? ==> |plan.value| == |visits|
                             && forall i :: 0 <= i < |visits| ==> ItemOf(plan.value[i], visits[i], resolve))
    decreases |visits|
  {
    if visits != [] {
      PlanOfItems(visits[1..], resolve);
      assert forall v :: v in visits <==> v == visits[0] || v in visits[1..];
    }
  }

  /** The plan builds exactly when every node of the cut preorder resolves at its place. Then its items
      are the nodes of the cut preorder, in order, each with the paths its own node resolves to there. */
  lemma PlanIsPreorder(nodes: seq<Node>, parent: string, resolve: Resolver)
    ensures var plan, visits := Collected(nodes, 0, parent, resolve), Placed(nodes, 0, parent, PlanDescent(resolve));
            && (plan.Ok? <==> forall v <- visits :: resolve(v.node, v.parent, v.index).Ok?)
            && (plan.Ok? ==> |plan.value| == |visits| == |Preorder(nodes)|
                             && forall i :: 0 <= i < |visits| ==>
                                  visits[i].node == Preorder(nodes)[i] && ItemOf(plan.value[i], visits[i], resolve))
  {
    CollectedIsPlanOf(nodes, 0, parent, resolve);
    PlanOfItems(Placed(nodes, 0, parent, PlanDescent(resolve)), resolve);
    PlacedIsPreorder(nodes, 0, parent, PlanDescent(resolve));
  }

  // ---- the preview ----

  /** What the preview shows of one node. */
  datatype Shown = Shown(name: string, relativePath: string, action: Action, source: string)

  function ShownAt(v: Visit, preview: Previewer): Shown {
    var p := preview(v.node, v.parent, v.index);
    Shown(p.name, p.relativePath, v.node.action, p.source)
  }

  /** The preview tree in preorder. */
  function PreviewPreorder(nodes: seq<PreviewNode>): seq<Shown> {
    if nodes == [] then []
    else
      [Shown(nodes[0].name, nodes[0].relativePath, nodes[0].action, nodes[0].source)]
      + PreviewPreorder(nodes[0].children) + PreviewPreorder(nodes[1..])
  }

  /** The preview shows the nodes of the cut preorder, in order, each as its own node is displayed at
      its place, and counts them. */
  lemma {:induction false} PreviewIsPreorder(nodes: seq<Node>, index: nat, parent: string, preview: Previewer)
    ensures var (shown, n) := Previewed(nodes, index, parent, preview);
            var visits := Placed(nodes, index, parent, PreviewDescent(preview));
            && n == |visits| == |PreviewPreorder(shown)|
            && forall i :: 0 <= i < n ==> PreviewPreorder(shown)[i] == ShownAt(visits[i], preview)
    decreases nodes
  {
    if nodes != [] {
      var p := preview(nodes[0], parent, index);
      if nodes[0].action != Delete {
        PreviewIsPreorder(nodes[0].children, 0, p.relativePath, preview);
      }
      PreviewIsPreorder(nodes[1..], index + 1, parent, preview);
      var shown := Previewed(nodes, index, parent, preview).0;
      assert shown[1..] == Previewed(nodes[1..], index + 1, parent, preview).0;
    }
  }

  /** Whenever the plan builds, it has the actions of the preview in the same order, and as many items
      as the preview counts folders, whatever templates and paths the two resolve. */
  lemma PlanMatchesPreview(nodes: seq<Node>, resolve: Resolver, preview: Previewer)
    requires Collected(nodes, 0, "", resolve).Ok?
    ensures var items := Collected(nodes, 0, "", resolve).value;
            var (shown, folderCount) := Previewed(nodes, 0, "", preview);
            && |items| == folderCount == |PreviewPreorder(shown)|
            && forall i :: 0 <= i < |items| ==> items[i].action == PreviewPreorder(shown)[i].action
  {
    PlanIsPreorder(nodes, "", resolve);
    PreviewIsPreorder(nodes, 0, "", preview);
    PlacedIsPreorder(nodes, 0, "", PreviewDescent(preview));
  }

  // ---- where children are planned ----

  predicate AllSlashes(s: string) {
    forall i :: 0 <= i < |s| ==> s[i] == '/'
  }

  predicate Unslashed(s: string) {
    s != "" ==> s[0] != '/' && s[|s| - 1] != '/'
  }

  /** Slashes around a path are cut off, and nothing else. */
  lemma {:induction false} SlashesCut(before: string, path: string, after: string)
    requires AllSlashes(before) && AllSlashes(after) && Unslashed(path)
    ensures TrimSlashes(before + path + after) == path
    decreases |before| + |after|
  {
    var s := before + path + after;
    if before != "" {
      assert s[0] == '/' && s[1..] == before[1..] + path + after;
      SlashesCut(before[1..], path, after);
    } else if path == "" && after != "" {
      assert s[0] == '/' && s[1..] == before + path + after[1..];
      SlashesCut(before, path, after[1..]);
    } else if after != "" {
      assert s[0] == path[0] && s[|s| - 1] == '/' && s[..|s| - 1] == before + path + after[..|after| - 1];
      SlashesCut(before, path, after[..|after| - 1]);
    } else {
      assert s == path;
    }
  }

  /** A node's children are planned below its own target, cut of outer slashes, or below the parent's
      path when it has no target; those of a Delete node are not planned. */
  lemma ChildrenPlanned(
    node: Node, index: nat, parent: string, resolve: Resolver, before: string, path: string, after: string)
    requires AllSlashes(before) && AllSlashes(after) && Unslashed(path) && resolve(node, parent, index).Ok?
    requires var r := resolve(node, parent, index).value;
             before + path + after == if r.targetRel.Some? then r.targetRel.value else parent
    ensures var r := resolve(node, parent, index).value;
            var item := PlanItem(node.action, r.source, r.target);
            Collected([node], index, parent, resolve)
            == if node.action == Delete then Ok([item])
               else match Collected(node.children, 0, path, resolve)
                 case Err(e) => Err(e)
                 case Ok(below) => Ok([item] + below)
  {
    SlashesCut(before, path, after);
    var r := resolve(node, parent, index).value;
    var item := PlanItem(node.action, r.source, r.target);
    assert [node][1..] == [] && [item] + [] == [item];
    if node.action != Delete && Collected(node.children, 0, path, resolve).Ok? {
      assert [item] + Collected(node.children, 0, path, resolve).value + [] == [item] + Collected(node.children, 0, path, resolve).value;
    }
  }
}
