/** The transformer of src/NodeGroupsHelper.ts: it looks in a host editor
    for groups of nodes that match a template editor (a node group
    definition) and replaces each match by a node group.

    The matching walk (traverseNode) is first stated as functions over the
    host graph and the template graph (`WalkNode`, `WalkInputs`,
    `WalkInput`), then performed in place on a transformation record by the
    methods of `NodeGroupTransformer`. Replacing a match (transform) and the
    passes that start matches (transformNodeGroups and its helpers) are
    stated the same way. The promise transform returns is never awaited: its
    changes stay, and its error is lost to the caller. */
module Transformers {
  import opened Rete
  import opened Utils
  import opened Identifiers
  import opened BoundaryNodes
  import opened GroupResync
  import opened GroupEditors
  import opened GroupNodes

  /** An outside output that will feed an input of the group. */
  datatype GroupInputLink = GroupInputLink(
    outsideConnectedNode: NodeId,
    outsideConnectedOutput: string,
    groupInput: string)

  /** An outside input that an output of the group will feed. */
  datatype GroupOutputLink = GroupOutputLink(
    outsideConnectedNode: NodeId,
    outsideConnectedInput: string,
    groupOutput: string)

  /** What a match collects: host node and connection ids, and the links
      from outside into the group and out of it. */
  datatype Transformation = Transformation(
    nodes: seq<NodeId>,
    connections: seq<ConnectionId>,
    groupInputConnections: seq<GroupInputLink>,
    groupOutputConnections: seq<GroupOutputLink>)

  /** A template: its identifier and the graph of its editor, which the
      transformer only reads. */
  datatype NodeGroupDef = NodeGroupDef(identifier: string, editor: Graph)

  const Blank := Transformation([], [], [], [])

  function GroupInputOf(l: GroupInputLink): string
  {
    l.groupInput
  }

  predicate Distinct<T(==)>(xs: seq<T>)
  {
    forall i, j :: 0 <= i < j < |xs| ==> xs[i] != xs[j]
  }

  /** No two links into the group share a group input name. */
  predicate DistinctInputs(links: seq<GroupInputLink>)
  {
    forall i, j :: 0 <= i < j < |links| ==> links[i].groupInput != links[j].groupInput
  }

  // ---------------------------------------------------------------------
  // Templates the walk terminates on.

  /** Every connection of the graph joins two of its nodes. */
  predicate WellLinked(g: Graph)
  {
    forall c :: c in g.connections ==> c.source in NodeIds(g.nodes) && c.target in NodeIds(g.nodes)
  }

  /** `rank` numbers the nodes so that every connection goes up. */
  ghost predicate Ranked(g: Graph, rank: map<NodeId, nat>)
  {
    && NodeIds(g.nodes) <= rank.Keys
    && forall c :: c in g.connections && c.source in rank && c.target in rank ==> rank[c.source] < rank[c.target]
  }

  /** A template whose connections join its own nodes and form no cycle.
      Each recursive step of the walk follows a host connection and a
      template connection backwards together, so on such a template it
      ends. The source's walk ends on more inputs than this: it fails to end
      only when a host cycle keeps matching a template cycle, and a cyclic
      template over a host without such a cycle is excluded here too. */
  ghost predicate Acyclic(g: Graph)
  {
    WellLinked(g) && exists rank :: Ranked(g, rank)
  }

  ghost function Ranking(g: Graph): (rank: map<NodeId, nat>)
    requires Acyclic(g)
    ensures Ranked(g, rank)
  {
    var rank :| Ranked(g, rank); rank
  }

  // ---------------------------------------------------------------------
  // traverseNode (src/NodeGroupsHelper.ts:93-153) as functions.

  /** Record a link from the output feeding `key` into the group, under the
      first name derived from `key` that no recorded link uses yet. */
  function Promoted(t: Transformation, sc: Connection, key: string): Transformation
  {
    var name := UniqueKey(Projected(t.groupInputConnections, GroupInputOf), key);
    t.(groupInputConnections := t.groupInputConnections + [GroupInputLink(sc.source, sc.sourceOutput, name)])
  }

  /** The walk from a host node matched against a template node: record
      the node, fail (None) unless its controls match, then go through its
      input keys. Err is the TypeError the source meets on a connection
      whose source node is not in the host. */
  function WalkNode(source: Graph, template: Graph, sourceNode: Node, groupNode: Node, t: Transformation)
    : Result<Option<Transformation>>
    requires Acyclic(template) && groupNode in template.nodes
    decreases Ranking(template)[groupNode.id], 1, 0
  {
    var pushed := t.(nodes := t.nodes + [sourceNode.id]);
    if !ControlsMatch(sourceNode.controls, groupNode.controls) then Ok(None)
    else WalkInputs(source, template, sourceNode, groupNode, Keys(sourceNode.inputs), pushed)
  }

  /** The loop over the input keys; the first key that does not go on
      ends it. */
  function WalkInputs(source: Graph, template: Graph, sourceNode: Node, groupNode: Node, keys: seq<string>,
                      t: Transformation): Result<Option<Transformation>>
    requires Acyclic(template) && groupNode in template.nodes
    decreases Ranking(template)[groupNode.id], 0, |keys|
  {
    if keys == [] then Ok(Some(t))
    else
      var step := WalkInput(source, template, sourceNode, groupNode, keys[0], t);
      if step.Ok? && step.value.Some? then WalkInputs(source, template, sourceNode, groupNode, keys[1..], step.value.value)
      else step
  }

  /** One input key: a key the template node lacks fails; an input
      connected in neither is skipped (case 1); connected in the template
      only fails (case 2); connected in the host only is promoted to a group
      input (case 3); connected in both is promoted when the template's
      upstream node is the InputsNode, and otherwise the connection is
      recorded and the walk goes on upstream (case 4). */
  function WalkInput(source: Graph, template: Graph, sourceNode: Node, groupNode: Node, key: string,
                     t: Transformation): Result<Option<Transformation>>
    requires Acyclic(template) && groupNode in template.nodes
    decreases Ranking(template)[groupNode.id], 0, 0
  {
    if Lookup(groupNode.inputs, key).None? then Ok(None)
    else
      var sc := FindIncoming(source.connections, sourceNode.id, key);
      var gc := FindIncoming(template.connections, groupNode.id, key);
      if sc.None? then (if gc.None? then Ok(Some(t)) else Ok(None))
      else if gc.None? then Ok(Some(Promoted(t, sc.value, key)))
      else
        var upstream := NodeOf(template.nodes, gc.value.source);
        if upstream.kind == InputsBoundary then Ok(Some(Promoted(t, sc.value, key)))
        else
          var recorded := t.(connections := t.connections + [sc.value.id]);
          match GetNode(source.nodes, sc.value.source)
          case None => Err(Undefined)
          case Some(next) => WalkNode(source, template, next, upstream, recorded)
  }

  // ---------------------------------------------------------------------
  // transform (src/NodeGroupsHelper.ts:158-183) as functions.

  /** What a transform leaves: the host graph, the group's editor it built
      and how its promise settles. */
  datatype Applied = Applied(host: Graph, group: GroupState, outcome: Outcome)

  /** The ends of the connections, in order. */
  function Endpoints(cs: seq<Connection>): (r: seq<NodeId>)
    ensures forall c :: c in cs ==> c.source in r && c.target in r
  {
    if cs == [] then [] else [cs[0].source, cs[0].target] + Endpoints(cs[1..])
  }

  /** The ids `getUID()` gives the InputsNode, the OutputsNode and the group
      node: distinct, and neither a node of the host nor an end of one of
      its connections. */
  function NewIds(g: Graph): (ids: (NodeId, NodeId, NodeId))
    ensures ids.0 != ids.1 && ids.0 != ids.2 && ids.1 != ids.2
    ensures ids.0 !in NodeIds(g.nodes) && ids.1 !in NodeIds(g.nodes) && ids.2 !in NodeIds(g.nodes)
    ensures forall c :: c in g.connections ==> c.source != ids.2 && c.target != ids.2
  {
    var used := NodeIdList(g.nodes) + Endpoints(g.connections);
    var a := FreshId(used);
    var b := FreshId(used + [a]);
    var c := FreshId(used + [a, b]);
    assert forall x :: x in used ==> x in used + [a] && x in used + [a, b];
    (a, b, c)
  }

  /** How the host lists a group node. */
  function GroupNodeRecord(id: NodeId, inputs: Record<Port>, outputs: Record<Port>): Node
  {
    Node(id, NodeGroup, "NodeGroup", inputs, outputs, [])
  }

  /** The first loop: note the connection held under each recorded id and
      remove it; a missing id throws. */
  function Detach(g: Graph, ids: seq<ConnectionId>, removed: seq<Option<Connection>>)
    : (Graph, seq<Option<Connection>>, Outcome)
    decreases |ids|
  {
    if ids == [] then (g, removed, Pass)
    else
      var got := GetConnection(g.connections, ids[0]);
      match WithConnectionRemoved(g, ids[0])
      case Err(e) => (g, removed + [got], Fail(e))
      case Ok(next) => Detach(next, ids[1..], removed + [got])
  }

  /** The second loop: remove each recorded node from the host and add it
      to the group's editor (which resyncs); a refusal throws. */
  function MoveNodes(host: Graph, s: GroupState, ids: seq<NodeId>): (Graph, GroupState, Outcome)
    decreases |ids|
  {
    if ids == [] then (host, s, Pass)
    else
      match WithNodeRemoved(host, ids[0])
      case Err(e) => (host, s, Fail(e))
      case Ok(next) =>
        var (s1, r) := AddNodeOp(s, NodeOf(host.nodes, ids[0]), true);
        if r.Err? then (next, s1, Fail(r.error)) else MoveNodes(next, s1, ids[1..])
  }

  /** The third loop: add each noted connection to the group's editor,
      without a resync; the calls are not awaited, so a refusal, or the
      TypeError of an id that held nothing, is lost. */
  function Reattach(s: GroupState, removed: seq<Option<Connection>>): GroupState
    decreases |removed|
  {
    if removed == [] then s
    else
      var next := match removed[0] case None => s case Some(c) => AddConnectionOp(s, c, false, true).0;
      Reattach(next, removed[1..])
  }

  /** transform: a new group editor (in the state its constructor reaches,
      `ConstructedSpec`), the three loops, a new group node
      (whose regeneration runs against the host), and the group node added
      to the host, a call whose refusal is lost. */
  function TransformOp(g: Graph, t: Transformation): Applied
  {
    var ids := NewIds(g);
    Regrouped(g, t, BareState(EmptyState(ids.0, ids.1)), ids.2)
  }

  /** transform once the group editor `group` exists: the three loops and
      the group node `id`. */
  function Regrouped(g: Graph, t: Transformation, group: GroupState, id: NodeId): Applied
  {
    var (detached, removed, o1) := Detach(g, t.connections, []);
    if o1.Fail? then Applied(detached, group, o1)
    else
      var (host, moved, o2) := MoveNodes(detached, group, t.nodes);
      if o2.Fail? then Applied(host, moved, o2)
      else
        var filled := Reattach(moved, removed);
        Applied(PlaceGroupNode(host, filled, id), filled, Pass)
  }

  /** The end of transform: a group node `id` over the group's editor `s`,
      whose regeneration runs against the host, is added to the host; that
      call is not awaited, so a refusal is lost. */
  function PlaceGroupNode(host: Graph, s: GroupState, id: NodeId): Graph
  {
    var view := Regenerate(NodeView(id, [], [], host), s.inputsOutputs, s.outputsInputs).0;
    var placed := WithNodeAdded(view.parent, GroupNodeRecord(id, view.inputs, view.outputs));
    if placed.Ok? then placed.value else view.parent
  }

  // ---------------------------------------------------------------------
  // The passes (src/NodeGroupsHelper.ts:45-88) as functions.

  /** startActualTransformation: walk from the host node at `seed` against
      the template node at `p`, and transform a match. A seed whose node has
      left the host makes the walk read `undefined.id`, which throws. */
  function StartOp(g: Graph, d: NodeGroupDef, seed: OutputPosition, p: OutputPosition): (Graph, Outcome)
    requires Acyclic(d.editor) && p.node in NodeIds(d.editor.nodes)
  {
    match GetNode(g.nodes, seed.node)
    case None => (g, Fail(Undefined))
    case Some(sourceNode) =>
      match WalkNode(g, d.editor, sourceNode, NodeOf(d.editor.nodes, p.node), Blank)
      case Err(e) => (g, Fail(e))
      case Ok(None) => (g, Pass)
      case Ok(Some(t)) => (TransformOp(g, t).host, Pass)
  }

  /** The loop of transformGroupsOutput over its seeds; a throw ends it. */
  function StartEach(g: Graph, d: NodeGroupDef, seeds: seq<OutputPosition>, p: OutputPosition): (Graph, Outcome)
    requires Acyclic(d.editor) && p.node in NodeIds(d.editor.nodes)
    decreases |seeds|
  {
    if seeds == [] then (g, Pass)
    else
      var (g1, o) := StartOp(g, d, seeds[0], p);
      if o.Fail? then (g1, o) else StartEach(g1, d, seeds[1..], p)
  }

  /** transformGroupsOutput: the seeds are the host nodes with the caption
      of the template node at `p` and an output named as `p`'s, all found
      before the first transform. */
  function GroupsOutputOp(g: Graph, d: NodeGroupDef, p: OutputPosition): (Graph, Outcome)
    requires Acyclic(d.editor) && p.node in NodeIds(d.editor.nodes)
  {
    StartEach(g, d, Positions(g.nodes, NodeOf(d.editor.nodes, p.node).caption, p.output), p)
  }

  /** The loop of transformNodeGroup over the template's open outputs. */
  function GroupsOutputEach(g: Graph, d: NodeGroupDef, ps: seq<OutputPosition>): (Graph, Outcome)
    requires Acyclic(d.editor) && forall p :: p in ps ==> p.node in NodeIds(d.editor.nodes)
    decreases |ps|
  {
    if ps == [] then (g, Pass)
    else
      var (g1, o) := GroupsOutputOp(g, d, ps[0]);
      if o.Fail? then (g1, o) else GroupsOutputEach(g1, d, ps[1..])
  }

  /** An open output of a graph lies on one of its nodes. */
  lemma OpenOutputsOnNodes(g: Graph)
    ensures forall p :: p in UnconnectedOutputs(g.nodes, g.connections, []) ==> p.node in NodeIds(g.nodes)
  {
    forall p | p in UnconnectedOutputs(g.nodes, g.connections, []) ensures p.node in NodeIds(g.nodes) {
      UnconnectedOutputsMembership(g.nodes, g.connections, [], p);
    }
  }

  /** transformNodeGroup: every output of the template that nothing in it
      consumes is a possible exit of a match. */
  function NodeGroupOp(g: Graph, d: NodeGroupDef): (Graph, Outcome)
    requires Acyclic(d.editor)
  {
    OpenOutputsOnNodes(d.editor);
    GroupsOutputEach(g, d, UnconnectedOutputs(d.editor.nodes, d.editor.connections, []))
  }

  /** transformNodeGroups: each template in turn. */
  function NodeGroupsOp(g: Graph, defs: seq<NodeGroupDef>): (Graph, Outcome)
    requires forall d :: d in defs ==> Acyclic(d.editor)
    decreases |defs|
  {
    if defs == [] then (g, Pass)
    else
      var (g1, o) := NodeGroupOp(g, defs[0]);
      if o.Fail? then (g1, o) else NodeGroupsOp(g1, defs[1..])
  }

  // ---------------------------------------------------------------------
  // What the walk promises.

  /** `t2` grows from `t1` as the walk makes it grow: each list only at its
      end, the links out of the group not at all; the node and connection
      ids it adds are the host's; and distinct group input names stay
      distinct. */
  ghost predicate Extends(source: Graph, t1: Transformation, t2: Transformation)
  {
    && t1.nodes <= t2.nodes
    && t1.connections <= t2.connections
    && t1.groupInputConnections <= t2.groupInputConnections
    && t2.groupOutputConnections == t1.groupOutputConnections
    && (forall i :: |t1.nodes| <= i < |t2.nodes| ==> t2.nodes[i] in NodeIds(source.nodes))
    && (forall i :: |t1.connections| <= i < |t2.connections| ==> t2.connections[i] in ConnectionIds(source.connections))
    && (DistinctInputs(t1.groupInputConnections) ==> DistinctInputs(t2.groupInputConnections))
  }

  lemma ExtendsTrans(source: Graph, t1: Transformation, t2: Transformation, t3: Transformation)
    requires Extends(source, t1, t2) && Extends(source, t2, t3)
    ensures Extends(source, t1, t3)
  {
    forall i | |t1.nodes| <= i < |t3.nodes| ensures t3.nodes[i] in NodeIds(source.nodes) {
      if i < |t2.nodes| {
        assert t3.nodes[i] == t2.nodes[i];
      }
    }
    forall i | |t1.connections| <= i < |t3.connections|
      ensures t3.connections[i] in ConnectionIds(source.connections)
    {
      if i < |t2.connections| {
        assert t3.connections[i] == t2.connections[i];
      }
    }
  }

  /** A promotion adds one link under a name no earlier link has. */
  lemma PromotedExtends(source: Graph, t: Transformation, sc: Connection, key: string)
    ensures Extends(source, t, Promoted(t, sc, key))
    ensures |Promoted(t, sc, key).groupInputConnections| == |t.groupInputConnections| + 1
  {
    var links := t.groupInputConnections;
    var name := UniqueKey(Projected(links, GroupInputOf), key);
    forall i | 0 <= i < |links| ensures links[i].groupInput != name {
      assert links[i] in links;
      assert GroupInputOf(links[i]) in Projected(links, GroupInputOf);
    }
  }

  lemma {:induction false} WalkNodeExtends(source: Graph, template: Graph, sourceNode: Node, groupNode: Node,
                                           t: Transformation)
    requires Acyclic(template) && groupNode in template.nodes && sourceNode in source.nodes
    ensures var w := WalkNode(source, template, sourceNode, groupNode, t);
      w.Ok? && w.value.Some? ==>
        Extends(source, t, w.value.value) && |w.value.value.nodes| > |t.nodes| &&
        w.value.value.nodes[|t.nodes|] == sourceNode.id
    decreases Ranking(template)[groupNode.id], 1, 0
  {
    var pushed := t.(nodes := t.nodes + [sourceNode.id]);
    if ControlsMatch(sourceNode.controls, groupNode.controls) {
      var w := WalkInputs(source, template, sourceNode, groupNode, Keys(sourceNode.inputs), pushed);
      WalkInputsExtends(source, template, sourceNode, groupNode, Keys(sourceNode.inputs), pushed);
      if w.Ok? && w.value.Some? {
        ExtendsTrans(source, t, pushed, w.value.value);
        assert w.value.value.nodes[|t.nodes|] == pushed.nodes[|t.nodes|];
      }
    }
  }

  lemma {:induction false} WalkInputsExtends(source: Graph, template: Graph, sourceNode: Node, groupNode: Node,
                                             keys: seq<string>, t: Transformation)
    requires Acyclic(template) && groupNode in template.nodes
    ensures var w := WalkInputs(source, template, sourceNode, groupNode, keys, t);
      w.Ok? && w.value.Some? ==> Extends(source, t, w.value.value)
    decreases Ranking(template)[groupNode.id], 0, |keys|
  {
    if keys != [] {
      var step := WalkInput(source, template, sourceNode, groupNode, keys[0], t);
      WalkInputExtends(source, template, sourceNode, groupNode, keys[0], t);
      if step.Ok? && step.value.Some? {
        var w := WalkInputs(source, template, sourceNode, groupNode, keys[1..], step.value.value);
        WalkInputsExtends(source, template, sourceNode, groupNode, keys[1..], step.value.value);
        if w.Ok? && w.value.Some? {
          ExtendsTrans(source, t, step.value.value, w.value.value);
        }
      }
    }
  }

  lemma {:induction false} WalkInputExtends(source: Graph, template: Graph, sourceNode: Node, groupNode: Node,
                                            key: string, t: Transformation)
    requires Acyclic(template) && groupNode in template.nodes
    ensures var w := WalkInput(source, template, sourceNode, groupNode, key, t);
      w.Ok? && w.value.Some? ==> Extends(source, t, w.value.value)
    decreases Ranking(template)[groupNode.id], 0, 0
  {
    if Lookup(groupNode.inputs, key).Some? {
      var sc := FindIncoming(source.connections, sourceNode.id, key);
      var gc := FindIncoming(template.connections, groupNode.id, key);
      if sc.Some? {
        PromotedExtends(source, t, sc.value, key);
        if gc.Some? {
          var upstream := NodeOf(template.nodes, gc.value.source);
          var recorded := t.(connections := t.connections + [sc.value.id]);
          var next := GetNode(source.nodes, sc.value.source);
          if upstream.kind != InputsBoundary && next.Some? {
            assert Ranking(template)[upstream.id] < Ranking(template)[groupNode.id];
            WalkNodeExtends(source, template, next.value, upstream, recorded);
            var w := WalkNode(source, template, next.value, upstream, recorded);
            if w.Ok? && w.value.Some? {
              assert sc.value.id in ConnectionIds(source.connections);
              ExtendsTrans(source, t, recorded, w.value.value);
            }
          }
        }
      }
    }
  }

  /** The condition the walk checks for one input key: the template node
      has that input, and where the template connects it, so does the
      host. */
  predicate InputMatches(source: Graph, template: Graph, sourceNode: Node, groupNode: Node, key: string)
  {
    && Lookup(groupNode.inputs, key).Some?
    && (FindIncoming(template.connections, groupNode.id, key).Some? ==>
        FindIncoming(source.connections, sourceNode.id, key).Some?)
  }

  lemma {:induction false} WalkInputsAccept(source: Graph, template: Graph, sourceNode: Node, groupNode: Node,
                                            keys: seq<string>, t: Transformation)
    requires Acyclic(template) && groupNode in template.nodes
    ensures var w := WalkInputs(source, template, sourceNode, groupNode, keys, t);
      w.Ok? && w.value.Some? ==> forall k :: k in keys ==> InputMatches(source, template, sourceNode, groupNode, k)
    decreases |keys|
  {
    if keys != [] {
      var step := WalkInput(source, template, sourceNode, groupNode, keys[0], t);
      if step.Ok? && step.value.Some? {
        WalkInputsAccept(source, template, sourceNode, groupNode, keys[1..], step.value.value);
        assert forall k :: k in keys ==> k == keys[0] || k in keys[1..];
      }
    }
  }

  /** A match is sound at its first node: when the walk succeeds, the
      controls match and every input of the host node is an input of the
      template node, connected in the host wherever the template connects
      it. */
  lemma WalkNodeAccepts(source: Graph, template: Graph, sourceNode: Node, groupNode: Node, t: Transformation)
    requires Acyclic(template) && groupNode in template.nodes
    ensures var w := WalkNode(source, template, sourceNode, groupNode, t);
      w.Ok? && w.value.Some? ==>
        ControlsMatch(sourceNode.controls, groupNode.controls) &&
        forall k :: k in KeySet(sourceNode.inputs) ==> InputMatches(source, template, sourceNode, groupNode, k)
  {
    var pushed := t.(nodes := t.nodes + [sourceNode.id]);
    if ControlsMatch(sourceNode.controls, groupNode.controls) {
      WalkInputsAccept(source, template, sourceNode, groupNode, Keys(sourceNode.inputs), pushed);
      forall k | k in KeySet(sourceNode.inputs) ensures k in Keys(sourceNode.inputs) {
        KeysMembership(sourceNode.inputs, k);
      }
    }
  }

  lemma {:induction false} WalkInputsLeaf(source: Graph, template: Graph, sourceNode: Node, groupNode: Node,
                                          keys: seq<string>, t: Transformation)
    requires Acyclic(template) && groupNode in template.nodes
    requires forall c :: c in source.connections ==> c.target != sourceNode.id
    requires forall c :: c in template.connections ==> c.target != groupNode.id
    ensures WalkInputs(source, template, sourceNode, groupNode, keys, t) ==
      if forall k :: k in keys ==> k in KeySet(groupNode.inputs) then Ok(Some(t)) else Ok(None)
    decreases |keys|
  {
    if keys != [] {
      assert FindIncoming(source.connections, sourceNode.id, keys[0]).None?;
      assert FindIncoming(template.connections, groupNode.id, keys[0]).None?;
      WalkInputsLeaf(source, template, sourceNode, groupNode, keys[1..], t);
      assert forall k :: k in keys ==> k == keys[0] || k in keys[1..];
    }
  }

  /** A match is complete at a node that nothing feeds, in the host or in
      the template: the walk records the node and succeeds exactly when the
      controls match and the template node has every input of the host
      node. */
  lemma WalkLeaf(source: Graph, template: Graph, sourceNode: Node, groupNode: Node, t: Transformation)
    requires Acyclic(template) && groupNode in template.nodes
    requires forall c :: c in source.connections ==> c.target != sourceNode.id
    requires forall c :: c in template.connections ==> c.target != groupNode.id
    ensures WalkNode(source, template, sourceNode, groupNode, t) ==
      if ControlsMatch(sourceNode.controls, groupNode.controls) &&
         KeySet(sourceNode.inputs) <= KeySet(groupNode.inputs)
      then Ok(Some(t.(nodes := t.nodes + [sourceNode.id])))
      else Ok(None)
  {
    var pushed := t.(nodes := t.nodes + [sourceNode.id]);
    WalkInputsLeaf(source, template, sourceNode, groupNode, Keys(sourceNode.inputs), pushed);
    forall k ensures k in Keys(sourceNode.inputs) <==> k in KeySet(sourceNode.inputs) {
      KeysMembership(sourceNode.inputs, k);
    }
  }

  // ---------------------------------------------------------------------
  // What transform promises.

  lemma {:induction false} DetachSpec(g: Graph, ids: seq<ConnectionId>, removed: seq<Option<Connection>>)
    requires StoreValid(g) && Distinct(ids)
    requires forall x :: x in ids ==> x in ConnectionIds(g.connections)
    ensures Detach(g, ids, removed).2 == Pass
    ensures Detach(g, ids, removed).0.nodes == g.nodes && StoreValid(Detach(g, ids, removed).0)
    ensures forall c :: c in Detach(g, ids, removed).0.connections <==> c in g.connections && c.id !in ids
    decreases |ids|
  {
    if ids != [] {
      var next := Graph(g.nodes, WithoutConnection(g.connections, ids[0]));
      ConnectionRemovedValid(g, ids[0]);
      DetachStep(g, ids);
      DetachSpec(next, ids[1..], removed + [GetConnection(g.connections, ids[0])]);
      assert forall x :: x in ids <==> x == ids[0] || x in ids[1..];
    }
  }

  /** Detaching keeps the nodes, and keeps every connection whose id is not
      recorded unless it throws. */
  lemma {:induction false} DetachKeeps(g: Graph, ids: seq<ConnectionId>, removed: seq<Option<Connection>>,
                                       c: Connection)
    requires c in g.connections && c.id !in ids
    ensures Detach(g, ids, removed).0.nodes == g.nodes
    ensures Detach(g, ids, removed).2 == Pass ==> c in Detach(g, ids, removed).0.connections
    decreases |ids|
  {
    if ids != [] && ids[0] in ConnectionIds(g.connections) {
      var next := Graph(g.nodes, WithoutConnection(g.connections, ids[0]));
      DetachKeeps(next, ids[1..], removed + [GetConnection(g.connections, ids[0])], c);
    }
  }

  /** Detaching never changes the nodes. */
  lemma {:induction false} DetachNodes(g: Graph, ids: seq<ConnectionId>, removed: seq<Option<Connection>>)
    ensures Detach(g, ids, removed).0.nodes == g.nodes
    ensures forall c :: c in Detach(g, ids, removed).0.connections ==> c in g.connections
    decreases |ids|
  {
    if ids != [] && ids[0] in ConnectionIds(g.connections) {
      var next := Graph(g.nodes, WithoutConnection(g.connections, ids[0]));
      DetachNodes(next, ids[1..], removed + [GetConnection(g.connections, ids[0])]);
    }
  }

  /** The connection each recorded id names in `cs`, in the recorded
      order: what detaching notes before each removal. */
  function Noted(cs: seq<Connection>, ids: seq<ConnectionId>): (r: seq<Option<Connection>>)
    ensures |r| == |ids|
  {
    if ids == [] then [] else [GetConnection(cs, ids[0])] + Noted(cs, ids[1..])
  }

  lemma {:induction false} NotedAt(cs: seq<Connection>, ids: seq<ConnectionId>)
    ensures forall i :: 0 <= i < |ids| ==> Noted(cs, ids)[i] == GetConnection(cs, ids[i])
  {
    if ids != [] {
      NotedAt(cs, ids[1..]);
    }
  }

  /** No two noted connections share an id. */
  predicate DistinctLinks(removed: seq<Option<Connection>>)
  {
    forall i, j :: 0 <= i < j < |removed| && removed[i].Some? && removed[j].Some? ==>
      removed[i].value.id != removed[j].value.id
  }

  /** Over a store with unique connection ids, the noted connections of
      distinct ids are exactly the connections with those ids, and no two
      share an id. */
  lemma NotedSpec(cs: seq<Connection>, ids: seq<ConnectionId>)
    requires UniqueConnectionIds(cs) && Distinct(ids)
    ensures DistinctLinks(Noted(cs, ids))
    ensures forall c :: Some(c) in Noted(cs, ids) <==> c in cs && c.id in ids
  {
    var r := Noted(cs, ids);
    NotedAt(cs, ids);
    forall c ensures Some(c) in r <==> c in cs && c.id in ids {
      if c in cs && c.id in ids {
        var i :| 0 <= i < |ids| && ids[i] == c.id;
        GetConnectionUnique(cs, c);
        assert r[i] == Some(c);
      }
    }
  }

  /** Removing the first recorded connection leaves the other recorded ids
      present, each naming the same connection as before. */
  lemma DetachStep(g: Graph, ids: seq<ConnectionId>)
    requires UniqueConnectionIds(g.connections) && Distinct(ids) && ids != []
    requires forall x :: x in ids ==> x in ConnectionIds(g.connections)
    ensures forall x :: x in ids[1..] ==>
      && x in ConnectionIds(WithoutConnection(g.connections, ids[0]))
      && GetConnection(WithoutConnection(g.connections, ids[0]), x) == GetConnection(g.connections, x)
  {
    var rest := WithoutConnection(g.connections, ids[0]);
    WithoutConnectionUnique(g.connections, ids[0]);
    forall x | x in ids[1..]
      ensures x in ConnectionIds(rest) && GetConnection(rest, x) == GetConnection(g.connections, x)
    {
      var k :| 0 <= k < |ids[1..]| && ids[1..][k] == x;
      assert ids[k + 1] == x && ids[0] != x;
      assert x in ids;
      var c :| c in g.connections && c.id == x;
      assert c in rest;
      GetConnectionUnique(g.connections, c);
      GetConnectionUnique(rest, c);
    }
  }

  /** Detaching distinct present ids notes, in order, the connection each
      of them names in the host before the removals. */
  lemma {:induction false} DetachNoted(g: Graph, ids: seq<ConnectionId>, removed: seq<Option<Connection>>)
    requires UniqueConnectionIds(g.connections) && Distinct(ids)
    requires forall x :: x in ids ==> x in ConnectionIds(g.connections)
    ensures Detach(g, ids, removed).1 == removed + Noted(g.connections, ids)
    decreases |ids|
  {
    if ids != [] {
      var next := Graph(g.nodes, WithoutConnection(g.connections, ids[0]));
      var got := GetConnection(g.connections, ids[0]);
      calc {
        Detach(g, ids, removed).1;
        { assert ids[0] in ids; }
        Detach(next, ids[1..], removed + [got]).1;
        { WithoutConnectionUnique(g.connections, ids[0]); DetachStep(g, ids); DistinctTail(ids);
          DetachNoted(next, ids[1..], removed + [got]); }
        (removed + [got]) + Noted(next.connections, ids[1..]);
        { NotedTail(g, ids); }
        (removed + [got]) + Noted(g.connections, ids[1..]);
        removed + Noted(g.connections, ids);
      }
    }
  }

  lemma DistinctTail<T>(xs: seq<T>)
    requires Distinct(xs) && xs != []
    ensures Distinct(xs[1..])
  {
  }

  lemma NotedTail(g: Graph, ids: seq<ConnectionId>)
    requires UniqueConnectionIds(g.connections) && Distinct(ids) && ids != []
    requires forall x :: x in ids ==> x in ConnectionIds(g.connections)
    ensures Noted(WithoutConnection(g.connections, ids[0]), ids[1..]) == Noted(g.connections, ids[1..])
  {
    DetachStep(g, ids);
    NotedSame(WithoutConnection(g.connections, ids[0]), g.connections, ids[1..]);
  }

  lemma NotedSame(cs: seq<Connection>, ds: seq<Connection>, ids: seq<ConnectionId>)
    requires forall x :: x in ids ==> GetConnection(cs, x) == GetConnection(ds, x)
    ensures Noted(cs, ids) == Noted(ds, ids)
  {
    NotedAt(cs, ids);
    NotedAt(ds, ids);
    forall i | 0 <= i < |ids| ensures Noted(cs, ids)[i] == Noted(ds, ids)[i] {
      assert ids[i] in ids;
    }
  }

  lemma {:induction false} MoveNodesSpec(host: Graph, s: GroupState, ids: seq<NodeId>)
    requires StoreValid(host) && StateValid(s) && Distinct(ids)
    requires forall x :: x in ids ==>
      x in NodeIds(host.nodes) && !InUse(host.connections, x) && x !in NodeIds(s.graph.nodes)
    ensures var (h, s1, o) := MoveNodes(host, s, ids);
      && o == Pass && StoreValid(h) && StateValid(s1) && KeepsRecords(s, s1)
      && h.connections == host.connections
      && (forall n :: n in h.nodes <==> n in host.nodes && n.id !in ids)
      && (forall n :: n in s1.graph.nodes <==> n in s.graph.nodes || (n in host.nodes && n.id in ids))
    decreases |ids|
  {
    if ids != [] {
      var x := ids[0];
      var next := Graph(WithoutNode(host.nodes, x), host.connections);
      NodeRemovedValid(host, x);
      var n := NodeOf(host.nodes, x);
      AddNodeSpec(s, n, true);
      var s1 := AddNodeOp(s, n, true).0;
      forall y | y in ids[1..]
        ensures y in NodeIds(next.nodes) && !InUse(next.connections, y) && y !in NodeIds(s1.graph.nodes)
      {
        var k :| 0 <= k < |ids[1..]| && ids[1..][k] == y;
        assert ids[k + 1] == y && x != y;
        assert NodeIds(s1.graph.nodes) == NodeIds(s.graph.nodes) + {x} by {
          assert forall m :: m in s1.graph.nodes <==> m in s.graph.nodes || m == n;
        }
      }
      MoveNodesSpec(next, s1, ids[1..]);
      assert forall y :: y in ids <==> y == x || y in ids[1..];
      forall m | m in host.nodes && m.id == x ensures m == n {
        GetNodeUnique(host.nodes, m);
      }
    }
  }

  /** Moving stops at a node a connection still uses. */
  lemma {:induction false} MoveNodesBlocked(host: Graph, s: GroupState, ids: seq<NodeId>, c: Connection)
    requires c in host.connections && (c.source in ids || c.target in ids)
    ensures MoveNodes(host, s, ids).2.Fail?
    decreases |ids|
  {
    match WithNodeRemoved(host, ids[0])
    case Err(_) =>
    case Ok(next) =>
      assert !InUse(host.connections, ids[0]);
      var i :| 0 <= i < |host.connections| && host.connections[i] == c;
      assert c.source != ids[0] && c.target != ids[0];
      assert c.source in ids[1..] || c.target in ids[1..];
      var (s1, r) := AddNodeOp(s, NodeOf(host.nodes, ids[0]), true);
      if r.Ok? {
        MoveNodesBlocked(next, s1, ids[1..], c);
      }
  }

  /** Moving stops at a node no longer in the host. */
  lemma {:induction false} MoveNodesMissing(host: Graph, s: GroupState, ids: seq<NodeId>, j: nat)
    requires j < |ids| && ids[j] !in NodeIds(host.nodes)
    ensures MoveNodes(host, s, ids).2.Fail?
    decreases |ids|
  {
    if j > 0 {
      match WithNodeRemoved(host, ids[0])
      case Err(_) =>
      case Ok(next) =>
        var (s1, r) := AddNodeOp(s, NodeOf(host.nodes, ids[0]), true);
        if r.Ok? {
          MoveNodesMissing(next, s1, ids[1..], j - 1);
        }
    }
  }

  /** Moving the same node twice stops at the second time. */
  lemma {:induction false} MoveNodesRepeated(host: Graph, s: GroupState, ids: seq<NodeId>, i: nat, j: nat)
    requires i < j < |ids| && ids[i] == ids[j]
    ensures MoveNodes(host, s, ids).2.Fail?
    decreases |ids|
  {
    if i == 0 {
      MoveNodesRepeatedFirst(host, s, ids, j);
    } else {
      match WithNodeRemoved(host, ids[0])
      case Err(_) =>
      case Ok(next) =>
        var (s1, r) := AddNodeOp(s, NodeOf(host.nodes, ids[0]), true);
        if r.Ok? {
          MoveNodesRepeated(next, s1, ids[1..], i - 1, j - 1);
        }
    }
  }

  lemma MoveNodesRepeatedFirst(host: Graph, s: GroupState, ids: seq<NodeId>, j: nat)
    requires 0 < j < |ids| && ids[0] == ids[j]
    ensures MoveNodes(host, s, ids).2.Fail?
  {
    match WithNodeRemoved(host, ids[0])
    case Err(_) =>
    case Ok(next) =>
      var (s1, r) := AddNodeOp(s, NodeOf(host.nodes, ids[0]), true);
      if r.Ok? {
        MoveNodesMissing(next, s1, ids[1..], j - 1);
      }
  }

  lemma {:induction false} ReattachSpec(s: GroupState, removed: seq<Option<Connection>>)
    requires StateValid(s)
    ensures StateValid(Reattach(s, removed)) && KeepsRecords(s, Reattach(s, removed))
    ensures Reattach(s, removed).graph.nodes == s.graph.nodes
    ensures Reattach(s, removed).inputsOutputs == s.inputsOutputs
    ensures Reattach(s, removed).outputsInputs == s.outputsInputs
    decreases |removed|
  {
    if removed != [] {
      var next := match removed[0] case None => s case Some(c) => AddConnectionOp(s, c, false, true).0;
      if removed[0].Some? {
        AddConnectionSpec(s, removed[0].value, false, true);
      }
      ReattachSpec(next, removed[1..]);
    }
  }

  /** Reattaching noted connections of distinct ids adds exactly those
      whose id the group editor does not hold yet: the editor's store
      refuses the others. */
  lemma {:induction false} ReattachAdds(s: GroupState, removed: seq<Option<Connection>>)
    requires StateValid(s) && DistinctLinks(removed)
    ensures forall c :: c in Reattach(s, removed).graph.connections <==>
      c in s.graph.connections || (Some(c) in removed && c.id !in ConnectionIds(s.graph.connections))
    decreases |removed|
  {
    if removed != [] {
      var next := match removed[0] case None => s case Some(c) => AddConnectionOp(s, c, false, true).0;
      if removed[0].Some? {
        AddConnectionSpec(s, removed[0].value, false, true);
      }
      DistinctLinksTail(removed);
      ReattachAdds(next, removed[1..]);
      forall c ensures c in Reattach(s, removed).graph.connections <==>
        c in s.graph.connections || (Some(c) in removed && c.id !in ConnectionIds(s.graph.connections))
      {
        ReattachAddsStep(s, removed, next, c);
      }
    }
  }

  lemma DistinctLinksTail(removed: seq<Option<Connection>>)
    requires DistinctLinks(removed) && removed != []
    ensures DistinctLinks(removed[1..])
    ensures removed[0].Some? ==> forall c :: Some(c) in removed[1..] ==> c.id != removed[0].value.id
  {
    forall i, j | 0 <= i < j < |removed[1..]| && removed[1..][i].Some? && removed[1..][j].Some?
      ensures removed[1..][i].value.id != removed[1..][j].value.id
    {
      assert removed[1..][i] == removed[i + 1] && removed[1..][j] == removed[j + 1];
    }
    if removed[0].Some? {
      forall c | Some(c) in removed[1..] ensures c.id != removed[0].value.id {
        var j :| 0 <= j < |removed[1..]| && removed[1..][j] == Some(c);
        assert removed[j + 1] == Some(c);
      }
    }
  }

  /** One step of `ReattachAdds`, for one connection. */
  lemma ReattachAddsStep(s: GroupState, removed: seq<Option<Connection>>, next: GroupState, c: Connection)
    requires removed != [] && removed[0].None? ==> next == s
    requires removed != [] && removed[0].Some? ==>
      && (removed[0].value.id in ConnectionIds(s.graph.connections) ==> next == s)
      && (removed[0].value.id !in ConnectionIds(s.graph.connections) ==>
            next.graph.connections == s.graph.connections + [removed[0].value])
    requires removed != [] && removed[0].Some? ==> forall d :: Some(d) in removed[1..] ==> d.id != removed[0].value.id
    requires removed != []
    requires c in Reattach(s, removed).graph.connections <==> c in Reattach(next, removed[1..]).graph.connections
    requires c in Reattach(next, removed[1..]).graph.connections <==>
      c in next.graph.connections || (Some(c) in removed[1..] && c.id !in ConnectionIds(next.graph.connections))
    ensures c in Reattach(s, removed).graph.connections <==>
      c in s.graph.connections || (Some(c) in removed && c.id !in ConnectionIds(s.graph.connections))
  {
    assert Some(c) in removed <==> Some(c) == removed[0] || Some(c) in removed[1..];
    if removed[0].Some? && removed[0].value.id !in ConnectionIds(s.graph.connections) {
      var d := removed[0].value;
      assert d in next.graph.connections;
      assert c.id in ConnectionIds(next.graph.connections) <==> c.id in ConnectionIds(s.graph.connections) || c.id == d.id;
    }
  }

  /** Adding a node to a group editor whose only connections enter its
      OutputsNode, and with no outside link recorded, keeps that so: the
      resync that follows drops and re-creates only boundary links, and
      leaves no link out of the InputsNode. */
  lemma AddNodeLinksInto(s: GroupState, n: Node)
    requires StateValid(s) && NodeValid(n) && s.outsideConnectedInputs == []
    requires forall c :: c in s.graph.connections ==> c.target == s.outputsId
    ensures forall c :: c in AddNodeOp(s, n, true).0.graph.connections ==> c.target == s.outputsId
  {
    if WithNodeAdded(s.graph, n).Ok? {
      NodeAddedValid(s.graph, n);
      ResyncUnlinked(s.(graph := WithNodeAdded(s.graph, n).value));
    }
  }

  /** Moving nodes into such a group editor keeps every one of its
      connections entering its OutputsNode. */
  lemma {:induction false} MoveNodesLinks(host: Graph, s: GroupState, ids: seq<NodeId>)
    requires StoreValid(host) && StateValid(s) && s.outsideConnectedInputs == []
    requires forall c :: c in s.graph.connections ==> c.target == s.outputsId
    ensures StateValid(MoveNodes(host, s, ids).1) && KeepsRecords(s, MoveNodes(host, s, ids).1)
    ensures forall c :: c in MoveNodes(host, s, ids).1.graph.connections ==> c.target == s.outputsId
    decreases |ids|
  {
    if ids != [] {
      match WithNodeRemoved(host, ids[0])
      case Err(_) =>
      case Ok(next) =>
        var n := NodeOf(host.nodes, ids[0]);
        NodeRemovedValid(host, ids[0]);
        AddNodeSpec(s, n, true);
        AddNodeLinksInto(s, n);
        MoveNodesLinks(next, AddNodeOp(s, n, true).0, ids[1..]);
    }
  }

  /** What transform needs to succeed: the recorded connections and nodes
      are distinct and present, and no other connection uses a recorded
      node. */
  predicate Transformable(g: Graph, t: Transformation)
  {
    && StoreValid(g) && Distinct(t.connections) && Distinct(t.nodes)
    && (forall x :: x in t.connections ==> x in ConnectionIds(g.connections))
    && (forall x :: x in t.nodes ==> x in NodeIds(g.nodes))
    && (forall c :: c in g.connections && c.id !in t.connections ==>
          c.source !in t.nodes && c.target !in t.nodes)
  }

  /** A valid group editor that holds only its two boundary nodes. */
  ghost predicate OnlyBoundary(s: GroupState, inputsId: NodeId, outputsId: NodeId)
  {
    && StateValid(s)
    && (forall n :: n in s.graph.nodes <==> n == ListedInputsNode(inputsId) || n == ListedOutputsNode(outputsId))
  }

  /** When the transformation is transformable, transform succeeds: the
      host loses exactly the recorded connections and nodes and gains the
      group node, whose ports are the boundary ports of the group's editor;
      that editor holds its two boundary nodes and the moved nodes. */
  lemma TransformSpec(g: Graph, t: Transformation)
    requires Transformable(g, t)
    ensures var a := TransformOp(g, t);
      && a.outcome == Pass
      && StoreValid(a.host) && StateValid(a.group)
      && (forall c :: c in a.host.connections <==> c in g.connections && c.id !in t.connections)
      && (forall n :: n in a.host.nodes <==>
            (n in g.nodes && n.id !in t.nodes) ||
            n == GroupNodeRecord(NewIds(g).2, a.group.inputsOutputs, a.group.outputsInputs))
      && (forall n :: n in a.group.graph.nodes <==>
            n == ListedInputsNode(NewIds(g).0) || n == ListedOutputsNode(NewIds(g).1) ||
            (n in g.nodes && n.id in t.nodes))
      && (forall c :: c in a.group.graph.connections ==>
            c.target == NewIds(g).1 || (c in g.connections && c.id in t.connections))
      && (forall c :: c in g.connections && c.id in t.connections ==>
            c in a.group.graph.connections ||
            exists d :: d in a.group.graph.connections && d.id == c.id && d.target == NewIds(g).1)
  {
    var ids := NewIds(g);
    var group := BareState(EmptyState(ids.0, ids.1));
    ConstructedSpec(ids.0, ids.1);
    BareNodes(ids.0, ids.1);
    DetachSpec(g, t.connections, []);
    var d := Detach(g, t.connections, []);
    MoveStage(g, t, d.0, group);
    var m := MoveNodes(d.0, group, t.nodes);
    PlaceStage(g, t, m.0, m.1, d.1);
    DetachNoted(g, t.connections, []);
    LinkStage(g, t, d.0, group, d.1);
    TransformOpPasses(g, t);
  }

  /** The group editor's connections once the noted connections are
      reattached: the links into its OutputsNode that resync made while the
      nodes moved, and the recorded connections whose ids those links did
      not take. */
  lemma LinkStage(g: Graph, t: Transformation, detached: Graph, group: GroupState,
                  removed: seq<Option<Connection>>)
    requires StoreValid(g) && Distinct(t.connections) && StoreValid(detached)
    requires removed == Noted(g.connections, t.connections)
    requires StateValid(group) && group.outsideConnectedInputs == [] && group.graph.connections == []
    ensures var filled := Reattach(MoveNodes(detached, group, t.nodes).1, removed);
      && (forall c :: c in filled.graph.connections ==>
            c.target == group.outputsId || (c in g.connections && c.id in t.connections))
      && (forall c :: c in g.connections && c.id in t.connections ==>
            c in filled.graph.connections ||
            exists d :: d in filled.graph.connections && d.id == c.id && d.target == group.outputsId)
  {
    MoveNodesLinks(detached, group, t.nodes);
    GroupLinksStage(g, t, MoveNodes(detached, group, t.nodes).1, removed, group.outputsId);
  }

  /** Reattaching the noted connections to a group editor whose own
      connections all enter `out`. */
  lemma GroupLinksStage(g: Graph, t: Transformation, moved: GroupState, removed: seq<Option<Connection>>,
                        out: NodeId)
    requires UniqueConnectionIds(g.connections) && Distinct(t.connections)
    requires removed == Noted(g.connections, t.connections)
    requires StateValid(moved)
    requires forall c :: c in moved.graph.connections ==> c.target == out
    ensures forall c :: c in Reattach(moved, removed).graph.connections ==>
      c.target == out || (c in g.connections && c.id in t.connections)
    ensures forall c :: c in g.connections && c.id in t.connections ==>
      c in Reattach(moved, removed).graph.connections ||
      exists d :: d in Reattach(moved, removed).graph.connections && d.id == c.id && d.target == out
  {
    NotedSpec(g.connections, t.connections);
    ReattachAdds(moved, removed);
    forall c | c in g.connections && c.id in t.connections && c.id in ConnectionIds(moved.graph.connections)
      ensures exists d :: d in Reattach(moved, removed).graph.connections && d.id == c.id && d.target == out
    {
      var d :| d in moved.graph.connections && d.id == c.id;
      assert d in Reattach(moved, removed).graph.connections;
    }
  }

  /** Moving the recorded nodes out of the detached host into a group editor
      that holds only its boundary nodes. */
  lemma MoveStage(g: Graph, t: Transformation, detached: Graph, group: GroupState)
    requires Transformable(g, t) && OnlyBoundary(group, NewIds(g).0, NewIds(g).1)
    requires detached.nodes == g.nodes && StoreValid(detached)
    requires forall c :: c in detached.connections <==> c in g.connections && c.id !in t.connections
    ensures var m := MoveNodes(detached, group, t.nodes);
      && m.2 == Pass && StoreValid(m.0) && StateValid(m.1)
      && (forall c :: c in m.0.connections <==> c in g.connections && c.id !in t.connections)
      && (forall n :: n in m.0.nodes <==> n in g.nodes && n.id !in t.nodes)
      && (forall n :: n in m.1.graph.nodes <==>
            n == ListedInputsNode(NewIds(g).0) || n == ListedOutputsNode(NewIds(g).1) ||
            (n in g.nodes && n.id in t.nodes))
  {
    FreshGroup(g, t, group, NewIds(g).0, NewIds(g).1);
    Unused(g, t, detached);
    MoveNodesSpec(detached, group, t.nodes);
  }

  /** Once the recorded connections are detached, no connection uses a
      recorded node. */
  lemma Unused(g: Graph, t: Transformation, detached: Graph)
    requires Transformable(g, t)
    requires forall c :: c in detached.connections <==> c in g.connections && c.id !in t.connections
    ensures forall x :: x in t.nodes ==> !InUse(detached.connections, x)
  {
    forall i | 0 <= i < |detached.connections|
      ensures detached.connections[i].source !in t.nodes && detached.connections[i].target !in t.nodes
    {
      assert detached.connections[i] in detached.connections;
    }
  }

  /** Reattaching the detached connections inside the group editor and
      placing the group node in the host. */
  lemma PlaceStage(g: Graph, t: Transformation, host: Graph, moved: GroupState, removed: seq<Option<Connection>>)
    requires StoreValid(g) && StoreValid(host) && StateValid(moved)
    requires forall c :: c in host.connections <==> c in g.connections && c.id !in t.connections
    requires forall n :: n in host.nodes <==> n in g.nodes && n.id !in t.nodes
    ensures var filled := Reattach(moved, removed);
      var placed := PlaceGroupNode(host, filled, NewIds(g).2);
      && StoreValid(placed) && StateValid(filled)
      && filled.graph.nodes == moved.graph.nodes
      && (forall c :: c in placed.connections <==> c in g.connections && c.id !in t.connections)
      && (forall n :: n in placed.nodes <==>
            (n in g.nodes && n.id !in t.nodes) ||
            n == GroupNodeRecord(NewIds(g).2, filled.inputsOutputs, filled.outputsInputs))
  {
    var id := NewIds(g).2;
    ReattachSpec(moved, removed);
    var filled := Reattach(moved, removed);
    StillFresh(g, host, id);
    PlaceGroupNodeSpec(host, filled, id);
  }

  /** No recorded node is a node of a group editor that holds only its two
      boundary nodes. */
  lemma FreshGroup(g: Graph, t: Transformation, group: GroupState, inputsId: NodeId, outputsId: NodeId)
    requires forall x :: x in t.nodes ==> x in NodeIds(g.nodes)
    requires inputsId !in NodeIds(g.nodes) && outputsId !in NodeIds(g.nodes)
    requires forall n :: n in group.graph.nodes <==>
      n == ListedInputsNode(inputsId) || n == ListedOutputsNode(outputsId)
    ensures forall x :: x in t.nodes ==> x !in NodeIds(group.graph.nodes)
  {
    forall n | n in group.graph.nodes ensures n.id == inputsId || n.id == outputsId {
    }
  }

  /** An id that neither a node nor a connection of `g` uses stays unused
      in a graph that keeps some of `g`'s nodes and connections. */
  lemma StillFresh(g: Graph, h: Graph, id: NodeId)
    requires id !in NodeIds(g.nodes)
    requires forall c :: c in g.connections ==> c.source != id && c.target != id
    requires forall n :: n in h.nodes ==> n in g.nodes
    requires forall c :: c in h.connections ==> c in g.connections
    ensures id !in NodeIds(h.nodes)
    ensures forall c :: c in h.connections ==> c.source != id && c.target != id
  {
    forall n | n in h.nodes ensures n.id != id {
      assert n in g.nodes;
    }
  }

  /** A group editor fresh from its constructor holds exactly its two
      boundary nodes. */
  lemma BareNodes(inputsId: NodeId, outputsId: NodeId)
    ensures forall n :: n in BareState(EmptyState(inputsId, outputsId)).graph.nodes <==>
      n == ListedInputsNode(inputsId) || n == ListedOutputsNode(outputsId)
  {
  }

  /** The group node's constructor regenerates its ports and the host then
      adds it: together they do what PlaceGroupNode says. */
  lemma PlacedByNode(host: Graph, s: GroupState, id: NodeId, view: NodeView)
    requires view == Regenerate(NodeView(id, [], [], host), s.inputsOutputs, s.outputsInputs).0
    ensures Settle(view.parent, WithNodeAdded(view.parent, GroupNodeRecord(id, view.inputs, view.outputs)), true).0
      == PlaceGroupNode(host, s, id)
  {
  }

  /** How TransformOp reads when its first two loops complete. */
  lemma TransformOpPasses(g: Graph, t: Transformation)
    requires Detach(g, t.connections, []).2 == Pass
    requires MoveNodes(Detach(g, t.connections, []).0, BareState(EmptyState(NewIds(g).0, NewIds(g).1)), t.nodes).2 == Pass
    ensures var d := Detach(g, t.connections, []);
      var m := MoveNodes(d.0, BareState(EmptyState(NewIds(g).0, NewIds(g).1)), t.nodes);
      TransformOp(g, t) == Applied(PlaceGroupNode(m.0, Reattach(m.1, d.1), NewIds(g).2), Reattach(m.1, d.1), Pass)
  {
  }

  /** With a fresh id that no connection uses, the group node is added to
      the host with the boundary ports of the group's editor, and nothing
      else changes. */
  lemma PlaceGroupNodeSpec(host: Graph, s: GroupState, id: NodeId)
    requires StoreValid(host) && StateValid(s) && id !in NodeIds(host.nodes)
    requires forall c :: c in host.connections ==> c.source != id && c.target != id
    ensures PlaceGroupNode(host, s, id) ==
      Graph(host.nodes + [GroupNodeRecord(id, s.inputsOutputs, s.outputsInputs)], host.connections)
    ensures StoreValid(PlaceGroupNode(host, s, id))
  {
    var start := NodeView(id, [], [], host);
    RegenerateFirst(start, s.inputsOutputs, s.outputsInputs);
    var view := Regenerate(start, s.inputsOutputs, s.outputsInputs).0;
    var dead := DeadLinks(host.connections, id, s.inputsOutputs, s.outputsInputs);
    NoDeadLinks(host.connections, id, s.inputsOutputs, s.outputsInputs);
    assert view.parent == host;
    NodeAddedValid(view.parent, GroupNodeRecord(id, view.inputs, view.outputs));
  }

  /** Where no connection uses the node, none of them is dead. */
  lemma {:induction false} NoDeadLinks(cs: seq<Connection>, id: NodeId, inputs: Record<Port>, outputs: Record<Port>)
    requires forall c :: c in cs ==> c.source != id && c.target != id
    ensures DeadLinks(cs, id, inputs, outputs) == []
  {
    if cs != [] {
      assert cs[0] in cs;
      NoDeadLinks(cs[1..], id, inputs, outputs);
    }
  }

  /** A connection that is not recorded but uses a recorded node makes
      transform throw (at the latest when that node is removed); the
      changes made before stay. */
  lemma TransformBlocked(g: Graph, t: Transformation, c: Connection)
    requires c in g.connections && c.id !in t.connections && (c.source in t.nodes || c.target in t.nodes)
    ensures TransformOp(g, t).outcome.Fail?
  {
    var ids := NewIds(g);
    DetachKeeps(g, t.connections, [], c);
    var (detached, removed, o1) := Detach(g, t.connections, []);
    if o1.Pass? {
      MoveNodesBlocked(detached, BareState(EmptyState(ids.0, ids.1)), t.nodes, c);
    }
  }

  /** A node recorded twice makes transform throw: the second removal finds
      nothing. */
  lemma TransformRepeated(g: Graph, t: Transformation, i: nat, j: nat)
    requires i < j < |t.nodes| && t.nodes[i] == t.nodes[j]
    ensures TransformOp(g, t).outcome.Fail?
  {
    var ids := NewIds(g);
    var (detached, removed, o1) := Detach(g, t.connections, []);
    if o1.Pass? {
      MoveNodesRepeated(detached, BareState(EmptyState(ids.0, ids.1)), t.nodes, i, j);
    }
  }

  // ---------------------------------------------------------------------
  // The objects.

  /** The transformation object traverseNode fills in place. */
  class TransformationRecord {
    var nodes: seq<NodeId>
    var connections: seq<ConnectionId>
    var groupInputConnections: seq<GroupInputLink>
    var groupOutputConnections: seq<GroupOutputLink>

    function Value(): Transformation
      reads this
    {
      Transformation(nodes, connections, groupInputConnections, groupOutputConnections)
    }

    constructor()
      ensures Value() == Blank
    {
      nodes := [];
      connections := [];
      groupInputConnections := [];
      groupOutputConnections := [];
    }
  }

  /** How traverseNode's answer `r` and the record `now` agree with the
      walk `w`: Ok(true) returns the record, which holds the walk's result;
      Ok(false) is null; an error is thrown. */
  predicate Reports(r: Result<bool>, now: Transformation, w: Result<Option<Transformation>>)
  {
    match w
    case Err(e) => r == Err(e)
    case Ok(None) => r == Ok(false)
    case Ok(Some(t)) => r == Ok(true) && now == t
  }

  class NodeGroupTransformer {
    /** The host editor. */
    const editor: Editor

    constructor(editor: Editor)
      ensures this.editor == editor
    {
      this.editor := editor;
    }

    /** transformNodeGroups. */
    method TransformNodeGroups(defs: seq<NodeGroupDef>) returns (o: Outcome)
      requires editor.Valid() && forall d :: d in defs ==> Acyclic(d.editor)
      modifies editor
      ensures editor.Valid()
      ensures (editor.graph, o) == NodeGroupsOp(old(editor.graph), defs)
    {
      for i := 0 to |defs|
        invariant editor.Valid()
        invariant NodeGroupsOp(editor.graph, defs[i..]) == NodeGroupsOp(old(editor.graph), defs)
      {
        assert defs[i..][1..] == defs[i + 1..];
        o := TransformNodeGroup(defs[i]);
        if o.Fail? {
          return;
        }
      }
      assert defs[|defs|..] == [];
      o := Pass;
    }

    /** transformNodeGroup. */
    method TransformNodeGroup(d: NodeGroupDef) returns (o: Outcome)
      requires editor.Valid() && Acyclic(d.editor)
      modifies editor
      ensures editor.Valid()
      ensures (editor.graph, o) == NodeGroupOp(old(editor.graph), d)
    {
      var ps := FindUnconnectedOutputs(d.editor, []);
      OpenOutputsOnNodes(d.editor);
      for i := 0 to |ps|
        invariant editor.Valid()
        invariant GroupsOutputEach(editor.graph, d, ps[i..]) == GroupsOutputEach(old(editor.graph), d, ps)
      {
        assert ps[i..][1..] == ps[i + 1..];
        o := TransformGroupsOutput(d, ps[i]);
        if o.Fail? {
          return;
        }
      }
      assert ps[|ps|..] == [];
      o := Pass;
    }

    /** transformGroupsOutput. */
    method TransformGroupsOutput(d: NodeGroupDef, p: OutputPosition) returns (o: Outcome)
      requires editor.Valid() && Acyclic(d.editor) && p.node in NodeIds(d.editor.nodes)
      modifies editor
      ensures editor.Valid()
      ensures (editor.graph, o) == GroupsOutputOp(old(editor.graph), d, p)
    {
      var caption := NodeOf(d.editor.nodes, p.node).caption;
      var seeds := FindPositions(editor.graph.nodes, caption, p.output);
      for i := 0 to |seeds|
        invariant editor.Valid()
        invariant StartEach(editor.graph, d, seeds[i..], p) == StartEach(old(editor.graph), d, seeds, p)
      {
        assert seeds[i..][1..] == seeds[i + 1..];
        o := StartActualTransformation(d, seeds[i], p);
        if o.Fail? {
          return;
        }
      }
      assert seeds[|seeds|..] == [];
      o := Pass;
    }

    /** startActualTransformation. */
    method StartActualTransformation(d: NodeGroupDef, seed: OutputPosition, p: OutputPosition) returns (o: Outcome)
      requires editor.Valid() && Acyclic(d.editor) && p.node in NodeIds(d.editor.nodes)
      modifies editor
      ensures editor.Valid()
      ensures (editor.graph, o) == StartOp(old(editor.graph), d, seed, p)
    {
      var sourceNode := GetNode(editor.graph.nodes, seed.node);
      var groupNode := NodeOf(d.editor.nodes, p.node);
      if sourceNode.None? {
        return Fail(Undefined);
      }
      var record := new TransformationRecord();
      var found := TraverseNode(d, sourceNode.value, groupNode, record);
      if found.Err? {
        return Fail(found.error);
      }
      if found == Ok(true) {
        var settled, sub := Transform(record.Value());
      }
      o := Pass;
    }

    /** traverseNode: fills `record` in place; Ok(true) stands for
        returning it, Ok(false) for null. */
    method TraverseNode(d: NodeGroupDef, sourceNode: Node, groupNode: Node, record: TransformationRecord)
      returns (r: Result<bool>)
      requires Acyclic(d.editor) && groupNode in d.editor.nodes
      modifies record
      ensures Reports(r, record.Value(), WalkNode(editor.graph, d.editor, sourceNode, groupNode, old(record.Value())))
      decreases Ranking(d.editor)[groupNode.id], 1
    {
      record.nodes := record.nodes + [sourceNode.id];
      var same := CompareControls(sourceNode, groupNode);
      if !same {
        return Ok(false);
      }
      var keys := Keys(sourceNode.inputs);
      ghost var start := record.Value();
      for i := 0 to |keys|
        invariant WalkInputs(editor.graph, d.editor, sourceNode, groupNode, keys[i..], record.Value()) ==
          WalkInputs(editor.graph, d.editor, sourceNode, groupNode, keys, start)
      {
        assert keys[i..][1..] == keys[i + 1..];
        r := TraverseInput(d, sourceNode, groupNode, keys[i], record);
        if r != Ok(true) {
          return;
        }
      }
      r := Ok(true);
    }

    /** The body of traverseNode's loop for one input key. */
    method TraverseInput(d: NodeGroupDef, sourceNode: Node, groupNode: Node, key: string,
                         record: TransformationRecord) returns (r: Result<bool>)
      requires Acyclic(d.editor) && groupNode in d.editor.nodes
      modifies record
      ensures Reports(r, record.Value(), WalkInput(editor.graph, d.editor, sourceNode, groupNode, key, old(record.Value())))
      decreases Ranking(d.editor)[groupNode.id], 0
    {
      var groupInput := Lookup(groupNode.inputs, key);
      if groupInput.None? {
        return Ok(false);
      }
      var sourceConnection := FindIncoming(editor.graph.connections, sourceNode.id, key);
      var groupConnection := FindIncoming(d.editor.connections, groupNode.id, key);
      if sourceConnection.None? && groupConnection.Some? {
        return Ok(false);
      }
      if sourceConnection.Some? && groupConnection.None? {
        var name := GetUniqueNestedIdentifier(record.groupInputConnections, GroupInputOf, key);
        record.groupInputConnections := record.groupInputConnections +
          [GroupInputLink(sourceConnection.value.source, sourceConnection.value.sourceOutput, name)];
      }
      if sourceConnection.Some? && groupConnection.Some? {
        var next := GetNode(editor.graph.nodes, sourceConnection.value.source);
        var upstream := NodeOf(d.editor.nodes, groupConnection.value.source);
        if upstream.kind == InputsBoundary {
          var name := GetUniqueNestedIdentifier(record.groupInputConnections, GroupInputOf, key);
          record.groupInputConnections := record.groupInputConnections +
            [GroupInputLink(sourceConnection.value.source, sourceConnection.value.sourceOutput, name)];
        } else {
          record.connections := record.connections + [sourceConnection.value.id];
          if next.None? {
            return Err(Undefined);
          }
          r := TraverseNode(d, next.value, upstream, record);
          if r != Ok(true) {
            return;
          }
        }
      }
      r := Ok(true);
    }

    /** transform; `sub` is the group's editor it builds, which the source
        keeps only inside the new group node. */
    method Transform(t: Transformation) returns (o: Outcome, sub: GroupEditor)
      requires editor.Valid()
      modifies editor
      ensures editor.Valid() && sub.Valid()
      ensures Applied(editor.graph, sub.State(), o) == TransformOp(old(editor.graph), t)
    {
      var ids := NewIds(editor.graph);
      sub := new GroupEditor(ids.0, ids.1);
      ConstructedSpec(ids.0, ids.1);
      o := Regroup(t, sub, ids.2);
    }

    /** The rest of transform, once the group editor `sub` exists. */
    method Regroup(t: Transformation, sub: GroupEditor, id: NodeId) returns (o: Outcome)
      requires editor.Valid() && sub.Valid() && editor != sub.base
      modifies editor, sub.base, sub.inputsNode, sub.outputsNode
      ensures editor.Valid() && sub.Valid()
      ensures Applied(editor.graph, sub.State(), o) == Regrouped(old(editor.graph), t, old(sub.State()), id)
    {
      var removed;
      o, removed := DetachConnections(t.connections);
      if o.Fail? {
        return;
      }
      o := MoveNodesInto(t.nodes, sub);
      if o.Fail? {
        return;
      }
      ReattachConnections(removed, sub);
      PlaceNode(id, sub);
      o := Pass;
    }

    /** transform's last step: the group node is built over the group's
        editor and added to the host. */
    method PlaceNode(id: NodeId, sub: GroupEditor)
      requires editor.Valid() && sub.Valid() && editor != sub.base
      modifies editor
      ensures editor.Valid()
      ensures editor.graph == PlaceGroupNode(old(editor.graph), sub.State(), id)
    {
      ghost var filled := sub.State();
      var node := new NodeGroupNode(id, sub, editor);
      ghost var view := node.View();
      var placed := editor.AddNode(GroupNodeRecord(node.id, node.inputs, node.outputs), true);
      PlacedByNode(old(editor.graph), filled, id, view);
    }

    /** transform's first loop. */
    method DetachConnections(ids: seq<ConnectionId>) returns (o: Outcome, removed: seq<Option<Connection>>)
      requires editor.Valid()
      modifies editor
      ensures editor.Valid()
      ensures (editor.graph, removed, o) == Detach(old(editor.graph), ids, [])
    {
      removed := [];
      for i := 0 to |ids|
        invariant editor.Valid()
        invariant Detach(editor.graph, ids[i..], removed) == Detach(old(editor.graph), ids, [])
      {
        assert ids[i..][1..] == ids[i + 1..];
        removed := removed + [GetConnection(editor.graph.connections, ids[i])];
        var r := editor.RemoveConnection(ids[i], true);
        if r.Err? {
          return Fail(r.error), removed;
        }
      }
      assert ids[|ids|..] == [];
      o := Pass;
    }

    /** transform's second loop. */
    method MoveNodesInto(ids: seq<NodeId>, sub: GroupEditor) returns (o: Outcome)
      requires editor.Valid() && sub.Valid() && editor != sub.base
      modifies editor, sub.base, sub.inputsNode, sub.outputsNode
      ensures editor.Valid() && sub.Valid()
      ensures (editor.graph, sub.State(), o) == MoveNodes(old(editor.graph), old(sub.State()), ids)
    {
      for i := 0 to |ids|
        invariant editor.Valid() && sub.Valid()
        invariant MoveNodes(editor.graph, sub.State(), ids[i..]) == MoveNodes(old(editor.graph), old(sub.State()), ids)
      {
        assert ids[i..][1..] == ids[i + 1..];
        var node := GetNode(editor.graph.nodes, ids[i]);
        var r := editor.RemoveNode(ids[i], true);
        if r.Err? {
          return Fail(r.error);
        }
        var added := sub.AddNode(node.value, true);
        if added.Err? {
          return Fail(added.error);
        }
      }
      assert ids[|ids|..] == [];
      o := Pass;
    }

    /** transform's third loop; the calls are not awaited, so what they
        resolve to is dropped. */
    method ReattachConnections(removed: seq<Option<Connection>>, sub: GroupEditor)
      requires sub.Valid()
      modifies sub.base, sub.inputsNode, sub.outputsNode
      ensures sub.Valid() && sub.State() == Reattach(old(sub.State()), removed)
    {
      for i := 0 to |removed|
        invariant sub.Valid()
        invariant Reattach(sub.State(), removed[i..]) == Reattach(old(sub.State()), removed)
      {
        assert removed[i..][1..] == removed[i + 1..];
        if removed[i].Some? {
          var added := sub.AddConnection(removed[i].value, false, true);
        }
      }
      assert removed[|removed|..] == [];
    }
  }
}
