/** The editor inside a node group (src/GroupEditor.ts): a NodeEditor whose
    node and connection operations resync the two boundary nodes afterwards,
    and which the group node tells when one of its inputs is connected or
    disconnected outside. The operations are first stated as functions of
    the editor's state (`...Op`), then performed in place by the class
    `GroupEditor`, whose methods are proved to agree with them.

    A resync the source starts without awaiting it runs to its end here; its
    changes stay and its error is lost to the caller. */
module GroupEditors {
  import opened Rete
  import opened Utils
  import opened Identifiers
  import opened BoundaryNodes
  import opened GroupResync

  /** The resolved value of a public operation and the state it leaves;
      `updateIO` says whether a successful change is followed by a resync. */
  function Resolve(s: GroupState, settled: (Graph, Result<bool>), updateIO: bool): (GroupState, Result<bool>)
  {
    var (g, r) := settled;
    if r == Ok(true) && updateIO then (Resync(s.(graph := g)).0, r) else (s.(graph := g), r)
  }

  /** addNode (src/GroupEditor.ts:27-31): resyncs after every added node. */
  function AddNodeOp(s: GroupState, n: Node, accepted: bool): (GroupState, Result<bool>)
  {
    Resolve(s, Settle(s.graph, WithNodeAdded(s.graph, n), accepted), true)
  }

  /** removeNode (src/GroupEditor.ts:33-37): resyncs after every removed
      node. */
  function RemoveNodeOp(s: GroupState, id: NodeId, accepted: bool): (GroupState, Result<bool>)
  {
    Resolve(s, Settle(s.graph, WithNodeRemoved(s.graph, id), accepted), true)
  }

  /** addConnection (src/GroupEditor.ts:39-43): resyncs only when asked. */
  function AddConnectionOp(s: GroupState, c: Connection, updateIO: bool, accepted: bool): (GroupState, Result<bool>)
  {
    Resolve(s, Settle(s.graph, WithConnectionAdded(s.graph, c), accepted), updateIO)
  }

  /** removeConnection (src/GroupEditor.ts:45-49): resyncs only when asked. */
  function RemoveConnectionOp(s: GroupState, id: ConnectionId, updateIO: bool, accepted: bool): (GroupState, Result<bool>)
  {
    Resolve(s, Settle(s.graph, WithConnectionRemoved(s.graph, id), accepted), updateIO)
  }

  /** clear (src/GroupEditor.ts:51-59): empties the store, adds the two
      boundary nodes back (each addition resyncs) and resyncs once more. The
      boundary nodes' port maps and the private fields are not reset. */
  function ClearOp(s: GroupState, accepted: bool): (GroupState, bool)
  {
    if !accepted then (s, false)
    else
      var e := s.(graph := Graph([], []));
      var a := AddNodeOp(e, ListedInputsNode(s.inputsId), true).0;
      var b := AddNodeOp(a, ListedOutputsNode(s.outputsId), true).0;
      (Resync(b).0, true)
  }

  /** outerInputConnected (src/GroupEditor.ts:64-68): link the InputsNode
      output, record it, resync. */
  function OuterInputConnectedOp(s: GroupState, key: string): (GroupState, Outcome)
  {
    match ConnectInputsNode(s, key)
    case Err(e) => (s, Fail(e))
    case Ok(g) => Resync(s.(graph := g, outsideConnectedInputs := s.outsideConnectedInputs + [key]))
  }

  /** The first connection from output `key` of `source` to input `input` of
      `target`. */
  function FindLink(cs: seq<Connection>, source: NodeId, key: string, target: NodeId, input: string): (r: Option<Connection>)
    ensures r.Some? ==>
      r.value in cs && r.value.source == source && r.value.sourceOutput == key &&
      r.value.target == target && r.value.targetInput == input
    ensures r.None? <==> forall c :: c in cs ==>
      !(c.source == source && c.sourceOutput == key && c.target == target && c.targetInput == input)
  {
    if cs == [] then None
    else if cs[0].source == source && cs[0].sourceOutput == key && cs[0].target == target && cs[0].targetInput == input then Some(cs[0])
    else FindLink(cs[1..], source, key, target, input)
  }

  /** outerInputDisconnected (src/GroupEditor.ts:73-86): unlink the InputsNode
      output, record the key (as the connect case does), resync. With the
      mapped node missing, the search reads `undefined.id` as soon as it meets
      a link from that output. */
  function OuterInputDisconnectedOp(s: GroupState, key: string): (GroupState, Outcome)
  {
    if Lookup(s.inputsOutputs, key).None? || Lookup(s.inputsNodeMap, key).None? then (s, Fail(InvalidIdentifier))
    else
      var target := Lookup(s.inputsNodeMap, key).value;
      match GetNode(s.graph.nodes, target.node)
      case None =>
        (s, Fail(if FindOutgoing(s.graph.connections, s.inputsId, key).Some? then Undefined else InnerConnectionMissing))
      case Some(n) =>
        match FindLink(s.graph.connections, s.inputsId, key, n.id, target.input)
        case None => (s, Fail(InnerConnectionMissing))
        case Some(c) =>
          match WithConnectionRemoved(s.graph, c.id)
          case Err(e) => (s, Fail(e))
          case Ok(g) => Resync(s.(graph := g, outsideConnectedInputs := s.outsideConnectedInputs + [key]))
  }

  /** The state of an editor with nothing in it yet. */
  function EmptyState(inputsId: NodeId, outputsId: NodeId): GroupState
  {
    GroupState(Graph([], []), inputsId, outputsId, [], [], [], [])
  }

  /** The state the constructor (src/GroupEditor.ts:19-25) reaches: both
      boundary nodes added, each addition followed by a resync. */
  function ConstructedState(inputsId: NodeId, outputsId: NodeId): GroupState
  {
    var a := AddNodeOp(EmptyState(inputsId, outputsId), ListedInputsNode(inputsId), true).0;
    AddNodeOp(a, ListedOutputsNode(outputsId), true).0
  }

  /** The state with only the two boundary nodes in the graph. */
  function BareState(s: GroupState): (t: GroupState)
    ensures t.graph.connections == [] && t.inputsOutputs == s.inputsOutputs
  {
    s.(graph := Graph([ListedInputsNode(s.inputsId), ListedOutputsNode(s.outputsId)], []))
  }

  /** The map from InputsNode outputs to inner inputs has no entry and no
      outside link is recorded. */
  predicate Unmapped(s: GroupState)
  {
    s.inputsNodeMap == [] && s.outsideConnectedInputs == []
  }

  /** `t` differs from `s` at most in the graph and the boundary port maps. */
  predicate KeepsRecords(s: GroupState, t: GroupState)
  {
    t == s.(graph := t.graph, inputsOutputs := t.inputsOutputs, outputsInputs := t.outputsInputs)
  }

  // ---------------------------------------------------------------------
  // Lemmas.

  lemma NoOpenInputs(s: GroupState)
    requires forall n :: n in s.graph.nodes ==> n.inputs == []
    ensures OpenInputs(s) == []
  {
    if OpenInputs(s) != [] {
      var p := OpenInputs(s)[0];
      UnconnectedInputsMembership(s.graph.nodes, s.graph.connections, [s.outputsId], p);
    }
  }

  lemma NoOpenOutputs(s: GroupState)
    requires forall n :: n in s.graph.nodes ==> n.outputs == []
    ensures OpenOutputs(s) == []
  {
    if OpenOutputs(s) != [] {
      var p := OpenOutputs(s)[0];
      UnconnectedOutputsMembership(s.graph.nodes, s.graph.connections, [s.inputsId], p);
    }
  }

  /** With only port-less nodes, no connection and an empty map, a resync
      changes nothing. */
  lemma {:induction false} ResyncPortless(s: GroupState)
    requires StateValid(s) && s.inputsNodeMap == [] && s.graph.connections == []
    requires forall n :: n in s.graph.nodes ==> n.inputs == [] && n.outputs == []
    ensures Resync(s).0 == s
  {
    assert BoundaryLinks([], s.inputsId, s.outputsId) == [];
    assert StripLinks(s) == (s, Pass);
    NoOpenInputs(s);
    assert PromoteOpenInputs(s) == (s, Pass);
    if s.outsideConnectedInputs != [] {
      RestoreLinksUnmapped(s, s.outsideConnectedInputs);
    } else {
      NoOpenOutputs(s);
    }
  }

  /** Adding the two boundary nodes to an empty store, in turn. */
  lemma AddBoundaryNodes(s: GroupState)
    requires s.graph == Graph([], []) && s.inputsId != s.outputsId
    ensures WithNodeAdded(s.graph, ListedInputsNode(s.inputsId)) ==
      Ok(Graph([ListedInputsNode(s.inputsId)], []))
    ensures WithNodeAdded(Graph([ListedInputsNode(s.inputsId)], []), ListedOutputsNode(s.outputsId)) ==
      Ok(BareState(s).graph)
  {
    assert NodeIds([]) == {};
    assert NodeIds([ListedInputsNode(s.inputsId)]) == {s.inputsId} by {
      assert forall n :: n in [ListedInputsNode(s.inputsId)] <==> n == ListedInputsNode(s.inputsId);
    }
    assert s.graph.nodes + [ListedInputsNode(s.inputsId)] == [ListedInputsNode(s.inputsId)];
    assert [ListedInputsNode(s.inputsId)] + [ListedOutputsNode(s.outputsId)] == BareState(s).graph.nodes;
  }

  /** Adding the InputsNode and then the OutputsNode to an empty store,
      each addition followed by a resync, leaves exactly the two boundary
      nodes. */
  lemma AddBoundaryStage(e: GroupState)
    requires e.graph == Graph([], []) && e.inputsId != e.outputsId && e.inputsNodeMap == []
    requires UniqueKeys(e.inputsOutputs) && UniqueKeys(e.outputsInputs)
    ensures AddNodeOp(AddNodeOp(e, ListedInputsNode(e.inputsId), true).0, ListedOutputsNode(e.outputsId), true).0 == BareState(e)
    ensures StateValid(BareState(e))
  {
    AddBoundaryNodes(e);
    var a := e.(graph := Graph([ListedInputsNode(e.inputsId)], []));
    ResyncPortless(a);
    assert AddNodeOp(e, ListedInputsNode(e.inputsId), true).0 == a;
    ResyncPortless(BareState(e));
  }

  /** A new editor holds the two boundary nodes, no connection, no boundary
      port and no recorded outside link. */
  lemma ConstructedSpec(inputsId: NodeId, outputsId: NodeId)
    requires inputsId != outputsId
    ensures ConstructedState(inputsId, outputsId) == BareState(EmptyState(inputsId, outputsId))
    ensures StateValid(ConstructedState(inputsId, outputsId)) && Unmapped(ConstructedState(inputsId, outputsId))
  {
    AddBoundaryStage(EmptyState(inputsId, outputsId));
  }

  /** After an accepted clear the graph holds the two boundary nodes and no
      connection, while the boundary port maps and the private fields keep
      their values. */
  lemma ClearSpec(s: GroupState)
    requires StateValid(s) && s.inputsId != s.outputsId && s.inputsNodeMap == []
    ensures ClearOp(s, true) == (BareState(s), true)
    ensures ClearOp(s, false) == (s, false)
  {
    var e := s.(graph := Graph([], []));
    AddBoundaryStage(e);
    assert BareState(e) == BareState(s);
    ResyncPortless(BareState(s));
  }

  /** addNode: refused exactly for a present id; vetoed, it changes nothing;
      applied, the node is appended, the other nodes stay, and the resync
      keeps the state valid. */
  lemma AddNodeSpec(s: GroupState, n: Node, accepted: bool)
    requires StateValid(s) && NodeValid(n)
    ensures StateValid(AddNodeOp(s, n, accepted).0)
    ensures KeepsRecords(s, AddNodeOp(s, n, accepted).0)
    ensures AddNodeOp(s, n, accepted).1 == Err(NodeAlreadyAdded) <==> n.id in NodeIds(s.graph.nodes)
    ensures AddNodeOp(s, n, accepted).1.Err? ==> AddNodeOp(s, n, accepted).0 == s
    ensures AddNodeOp(s, n, accepted).1 == Ok(false) <==> n.id !in NodeIds(s.graph.nodes) && !accepted
    ensures AddNodeOp(s, n, accepted).1 == Ok(false) ==> AddNodeOp(s, n, accepted).0 == s
    ensures AddNodeOp(s, n, accepted).1 == Ok(true) ==>
      AddNodeOp(s, n, accepted).0.graph.nodes == s.graph.nodes + [n]
  {
    if WithNodeAdded(s.graph, n).Ok? && accepted {
      NodeAddedValid(s.graph, n);
      ResyncSpec(s.(graph := WithNodeAdded(s.graph, n).value));
    }
  }

  /** removeNode: refused for a missing node and for a node still
      connected; vetoed, it changes nothing; applied, the node is gone and
      the other nodes stay. */
  lemma RemoveNodeSpec(s: GroupState, id: NodeId, accepted: bool)
    requires StateValid(s)
    ensures StateValid(RemoveNodeOp(s, id, accepted).0)
    ensures KeepsRecords(s, RemoveNodeOp(s, id, accepted).0)
    ensures RemoveNodeOp(s, id, accepted).1 == Err(NodeNotFound) <==> id !in NodeIds(s.graph.nodes)
    ensures RemoveNodeOp(s, id, accepted).1 == Err(NodeInUse) <==>
      id in NodeIds(s.graph.nodes) && InUse(s.graph.connections, id)
    ensures RemoveNodeOp(s, id, accepted).1 != Ok(true) ==> RemoveNodeOp(s, id, accepted).0 == s
    ensures RemoveNodeOp(s, id, accepted).1 == Ok(true) <==>
      id in NodeIds(s.graph.nodes) && !InUse(s.graph.connections, id) && accepted
    ensures RemoveNodeOp(s, id, accepted).1 == Ok(true) ==>
      RemoveNodeOp(s, id, accepted).0.graph.nodes == WithoutNode(s.graph.nodes, id) &&
      id !in NodeIds(RemoveNodeOp(s, id, accepted).0.graph.nodes)
  {
    if WithNodeRemoved(s.graph, id).Ok? && accepted {
      NodeRemovedValid(s.graph, id);
      ResyncSpec(s.(graph := WithNodeRemoved(s.graph, id).value));
    }
  }

  /** addConnection: refused exactly for a present id; without a resync an
      applied connection is appended and nothing else changes. */
  lemma AddConnectionSpec(s: GroupState, c: Connection, updateIO: bool, accepted: bool)
    requires StateValid(s)
    ensures StateValid(AddConnectionOp(s, c, updateIO, accepted).0)
    ensures KeepsRecords(s, AddConnectionOp(s, c, updateIO, accepted).0)
    ensures AddConnectionOp(s, c, updateIO, accepted).1 == Err(ConnectionAlreadyAdded) <==>
      c.id in ConnectionIds(s.graph.connections)
    ensures AddConnectionOp(s, c, updateIO, accepted).1 != Ok(true) ==> AddConnectionOp(s, c, updateIO, accepted).0 == s
    ensures AddConnectionOp(s, c, updateIO, accepted).1 == Ok(true) <==>
      c.id !in ConnectionIds(s.graph.connections) && accepted
    ensures AddConnectionOp(s, c, updateIO, accepted).1 == Ok(true) && !updateIO ==>
      AddConnectionOp(s, c, updateIO, accepted).0 == s.(graph := Graph(s.graph.nodes, s.graph.connections + [c]))
  {
    if WithConnectionAdded(s.graph, c).Ok? && accepted {
      ConnectionAddedValid(s.graph, c);
      ResyncSpec(s.(graph := WithConnectionAdded(s.graph, c).value));
    }
  }

  /** removeConnection: refused exactly for a missing id; without a resync an
      applied removal drops that connection and nothing else. */
  lemma RemoveConnectionSpec(s: GroupState, id: ConnectionId, updateIO: bool, accepted: bool)
    requires StateValid(s)
    ensures StateValid(RemoveConnectionOp(s, id, updateIO, accepted).0)
    ensures KeepsRecords(s, RemoveConnectionOp(s, id, updateIO, accepted).0)
    ensures RemoveConnectionOp(s, id, updateIO, accepted).1 == Err(ConnectionNotFound) <==>
      id !in ConnectionIds(s.graph.connections)
    ensures RemoveConnectionOp(s, id, updateIO, accepted).1 != Ok(true) ==> RemoveConnectionOp(s, id, updateIO, accepted).0 == s
    ensures RemoveConnectionOp(s, id, updateIO, accepted).1 == Ok(true) <==>
      id in ConnectionIds(s.graph.connections) && accepted
    ensures RemoveConnectionOp(s, id, updateIO, accepted).1 == Ok(true) && !updateIO ==>
      var r := RemoveConnectionOp(s, id, updateIO, accepted).0;
      r.graph.nodes == s.graph.nodes &&
      (forall c :: c in r.graph.connections <==> c in s.graph.connections && c.id != id) &&
      r == s.(graph := r.graph)
  {
    ConnectionRemovedValid(s.graph, id);
    if WithConnectionRemoved(s.graph, id).Ok? && accepted {
      ResyncSpec(s.(graph := WithConnectionRemoved(s.graph, id).value));
    }
  }

  /** Nothing ever writes the map from InputsNode outputs to inner inputs, so
      both outside notifications are refused with InvalidIdentifier, before
      they change anything. */
  lemma OuterInputsRefused(s: GroupState, key: string)
    requires StateValid(s) && s.inputsNodeMap == []
    ensures OuterInputConnectedOp(s, key) == (s, Fail(InvalidIdentifier))
    ensures OuterInputDisconnectedOp(s, key) == (s, Fail(InvalidIdentifier))
  {
    ConnectInputsNodeSpec(s, key);
  }

  /** From a state with no map entry and no recorded link, every operation
      leads to another such state: the outside notifications can never
      succeed. */
  lemma OperationsKeepUnmapped(s: GroupState, n: Node, id: string, c: Connection, key: string, updateIO: bool, accepted: bool)
    requires StateValid(s) && NodeValid(n) && Unmapped(s)
    ensures Unmapped(AddNodeOp(s, n, accepted).0) && Unmapped(RemoveNodeOp(s, id, accepted).0)
    ensures Unmapped(AddConnectionOp(s, c, updateIO, accepted).0)
    ensures Unmapped(RemoveConnectionOp(s, id, updateIO, accepted).0)
    ensures Unmapped(OuterInputConnectedOp(s, key).0) && Unmapped(OuterInputDisconnectedOp(s, key).0)
  {
    AddNodeSpec(s, n, accepted);
    RemoveNodeSpec(s, id, accepted);
    AddConnectionSpec(s, c, updateIO, accepted);
    RemoveConnectionSpec(s, id, updateIO, accepted);
    OuterInputsRefused(s, key);
  }

  /** An accepted clear keeps a state without map entries or recorded links
      that way. */
  lemma ClearKeepsUnmapped(s: GroupState, accepted: bool)
    requires StateValid(s) && Unmapped(s)
    ensures Unmapped(ClearOp(s, accepted).0)
  {
    if accepted {
      var e := s.(graph := Graph([], []));
      AddNodeSpec(e, ListedInputsNode(s.inputsId), true);
      var a := AddNodeOp(e, ListedInputsNode(s.inputsId), true).0;
      AddNodeSpec(a, ListedOutputsNode(s.outputsId), true);
      ResyncSpec(AddNodeOp(a, ListedOutputsNode(s.outputsId), true).0);
    }
  }

  // ---------------------------------------------------------------------
  // The editor object.

  /** The group's editor. Its store is the NodeEditor it extends (`base`);
      the two boundary nodes are objects whose port maps it grows in place. */
  class GroupEditor {
    const base: Editor
    const inputsNode: InputsNode
    const outputsNode: OutputsNode
    /** Maps outputs of the InputsNode to the inner inputs they feed. */
    var inputsNodeMap: Record<InputPosition>
    var outsideConnectedInputs: seq<string>

    ghost function State(): GroupState
      reads this, base, inputsNode, outputsNode
    {
      GroupState(base.graph, inputsNode.id, outputsNode.id, inputsNode.outputs, outputsNode.inputs,
                 inputsNodeMap, outsideConnectedInputs)
    }

    ghost predicate Valid()
      reads this, base, inputsNode, outputsNode
    {
      StateValid(State()) && inputsNode.id != outputsNode.id
    }

    /** The ids stand for the ones rete's `getUID()` gives the two boundary
        nodes. */
    constructor(inputsId: NodeId, outputsId: NodeId)
      requires inputsId != outputsId
      ensures Valid() && State() == ConstructedState(inputsId, outputsId)
      ensures fresh(base) && fresh(inputsNode) && fresh(outputsNode)
    {
      base := new Editor();
      inputsNode := new InputsNode(inputsId);
      outputsNode := new OutputsNode(outputsId);
      inputsNodeMap := [];
      outsideConnectedInputs := [];
      new;
      var addedInputs := AddNode(ListedInputsNode(inputsId), true);
      var addedOutputs := AddNode(ListedOutputsNode(outputsId), true);
    }

    method AddNode(n: Node, accepted: bool) returns (r: Result<bool>)
      requires Valid() && NodeValid(n)
      modifies base, inputsNode, outputsNode
      ensures Valid()
      ensures (State(), r) == AddNodeOp(old(State()), n, accepted)
    {
      r := base.AddNode(n, accepted);
      if r == Ok(true) {
        var resynced := UpdateIO();
      }
    }

    method RemoveNode(id: NodeId, accepted: bool) returns (r: Result<bool>)
      requires Valid()
      modifies base, inputsNode, outputsNode
      ensures Valid()
      ensures (State(), r) == RemoveNodeOp(old(State()), id, accepted)
    {
      r := base.RemoveNode(id, accepted);
      if r == Ok(true) {
        var resynced := UpdateIO();
      }
    }

    method AddConnection(c: Connection, updateIO: bool, accepted: bool) returns (r: Result<bool>)
      requires Valid()
      modifies base, inputsNode, outputsNode
      ensures Valid()
      ensures (State(), r) == AddConnectionOp(old(State()), c, updateIO, accepted)
    {
      r := base.AddConnection(c, accepted);
      if r == Ok(true) && updateIO {
        var resynced := UpdateIO();
      }
    }

    method RemoveConnection(id: ConnectionId, updateIO: bool, accepted: bool) returns (r: Result<bool>)
      requires Valid()
      modifies base, inputsNode, outputsNode
      ensures Valid()
      ensures (State(), r) == RemoveConnectionOp(old(State()), id, updateIO, accepted)
    {
      r := base.RemoveConnection(id, accepted);
      if r == Ok(true) && updateIO {
        var resynced := UpdateIO();
      }
    }

    method Clear(accepted: bool) returns (r: bool)
      requires Valid()
      modifies base, inputsNode, outputsNode
      ensures Valid()
      ensures (State(), r) == ClearOp(old(State()), accepted)
    {
      r := base.Clear(accepted);
      if r {
        var addedInputs := AddNode(ListedInputsNode(inputsNode.id), true);
        var addedOutputs := AddNode(ListedOutputsNode(outputsNode.id), true);
        var resynced := UpdateIO();
      }
    }

    method OuterInputConnected(key: string) returns (o: Outcome)
      requires Valid()
      modifies this, base, inputsNode, outputsNode
      ensures Valid()
      ensures (State(), o) == OuterInputConnectedOp(old(State()), key)
    {
      o := ConnectInputsNode(key);
      if o.Fail? {
        return;
      }
      outsideConnectedInputs := outsideConnectedInputs + [key];
      o := UpdateIO();
    }

    method OuterInputDisconnected(key: string) returns (o: Outcome)
      requires Valid()
      modifies this, base, inputsNode, outputsNode
      ensures Valid()
      ensures (State(), o) == OuterInputDisconnectedOp(old(State()), key)
    {
      if Lookup(inputsNode.outputs, key).None? || Lookup(inputsNodeMap, key).None? {
        return Fail(InvalidIdentifier);
      }
      var target := Lookup(inputsNodeMap, key).value;
      var targetNode := GetNode(base.graph.nodes, target.node);
      if targetNode.None? {
        // The search reads `targetNode.id` at the first link from the output.
        var reached := FindOutgoing(base.graph.connections, inputsNode.id, key);
        return Fail(if reached.Some? then Undefined else InnerConnectionMissing);
      }
      var inner := FindLink(base.graph.connections, inputsNode.id, key, targetNode.value.id, target.input);
      if inner.None? {
        return Fail(InnerConnectionMissing);
      }
      var removed := base.RemoveConnection(inner.value.id, true);
      outsideConnectedInputs := outsideConnectedInputs + [key];
      o := UpdateIO();
    }

    /** getOuterInputs: a copy of the InputsNode's outputs, as inputs. */
    method GetOuterInputs() returns (r: Record<Port>)
      ensures r == inputsNode.outputs
    {
      r := [];
      for i := 0 to |inputsNode.outputs|
        invariant r == inputsNode.outputs[..i]
      {
        var output := inputsNode.outputs[i];
        r := r + [Entry(output.key, Port(output.value.socket, output.value.caption))];
      }
    }

    /** getOuterOutputs: a copy of the OutputsNode's inputs, as outputs. */
    method GetOuterOutputs() returns (r: Record<Port>)
      ensures r == outputsNode.inputs
    {
      r := [];
      for i := 0 to |outputsNode.inputs|
        invariant r == outputsNode.inputs[..i]
      {
        var input := outputsNode.inputs[i];
        r := r + [Entry(input.key, Port(input.value.socket, input.value.caption))];
      }
    }

    /** connectInputsNode. The connection goes through the overriding
        addConnection without `updateIO`, which is the NodeEditor's own. */
    method ConnectInputsNode(key: string) returns (o: Outcome)
      requires Valid()
      modifies base
      ensures Valid()
      ensures GroupResync.ConnectInputsNode(old(State()), key).Err? ==>
        o == Fail(GroupResync.ConnectInputsNode(old(State()), key).error) && State() == old(State())
      ensures GroupResync.ConnectInputsNode(old(State()), key).Ok? ==>
        o == Pass && State() == old(State()).(graph := GroupResync.ConnectInputsNode(old(State()), key).value)
    {
      if Lookup(inputsNode.outputs, key).None? || Lookup(inputsNodeMap, key).None? {
        return Fail(InvalidIdentifier);
      }
      var target := Lookup(inputsNodeMap, key).value;
      var targetNode := GetNode(base.graph.nodes, target.node);
      if targetNode.None? {
        return Fail(Undefined);
      }
      var link := Connection(NewConnectionId(base.graph), inputsNode.id, key, targetNode.value.id, target.input);
      var added := base.AddConnection(link, true);
      o := Pass;
    }

    /** updateIO: the four steps of the resync, the first failure ending
        it. */
    method UpdateIO() returns (o: Outcome)
      requires Valid()
      modifies base, inputsNode, outputsNode
      ensures Valid()
      ensures (State(), o) == Resync(old(State()))
    {
      o := RemoveBoundaryLinks();
      if o.Fail? {
        return;
      }
      o := AddInputsNodeOutputs();
      if o.Fail? {
        return;
      }
      o := RestoreInputsNodeLinks();
      if o.Fail? {
        return;
      }
      o := AddOutputsNodeInput();
    }

    /** Step 1 of updateIO: remove the links of the boundary nodes. */
    method RemoveBoundaryLinks() returns (o: Outcome)
      requires Valid()
      modifies base
      ensures Valid()
      ensures (State(), o) == StripLinks(old(State()))
    {
      ghost var s0 := State();
      var removals := BoundaryLinks(base.graph.connections, inputsNode.id, outputsNode.id);
      for i := 0 to |removals|
        invariant Valid() && State() == s0.(graph := base.graph)
        invariant RemoveEach(base.graph, removals[i..]) == RemoveEach(s0.graph, removals)
      {
        assert removals[i..][1..] == removals[i + 1..];
        var removed := base.RemoveConnection(removals[i].id, true);
        if removed.Err? {
          return Fail(removed.error);
        }
      }
      o := Pass;
    }

    /** Step 2 of updateIO: an InputsNode output for each open input. */
    method AddInputsNodeOutputs() returns (o: Outcome)
      requires Valid()
      modifies inputsNode
      ensures Valid()
      ensures (State(), o) == PromoteOpenInputs(old(State()))
    {
      ghost var s1 := State();
      var unconnectedInputs := FindUnconnectedInputs(base.graph, [outputsNode.id]);
      for i := 0 to |unconnectedInputs|
        invariant Valid() && State() == s1.(inputsOutputs := inputsNode.outputs)
        invariant PromoteInputs(s1.graph.nodes, inputsNode.outputs, unconnectedInputs[i..]) ==
          PromoteInputs(s1.graph.nodes, s1.inputsOutputs, unconnectedInputs)
      {
        assert unconnectedInputs[i..][1..] == unconnectedInputs[i + 1..];
        o := PromoteOne(unconnectedInputs[i]);
        if o.Fail? {
          assert PromoteInputs(s1.graph.nodes, s1.inputsOutputs, unconnectedInputs) == (inputsNode.outputs, o);
          return;
        }
      }
      assert unconnectedInputs[|unconnectedInputs|..] == [];
      o := Pass;
    }

    /** One round of step 2. */
    method PromoteOne(p: InputPosition) returns (o: Outcome)
      requires Valid()
      modifies inputsNode
      ensures Valid() && State() == old(State()).(inputsOutputs := inputsNode.outputs)
      ensures PromoteInput(base.graph.nodes, old(inputsNode.outputs), p) ==
        (if o.Fail? then Err(o.error) else Ok(inputsNode.outputs))
      ensures o.Fail? ==> inputsNode.outputs == old(inputsNode.outputs)
    {
      var identifier := GetUniqueIdentifier(inputsNode.outputs, p.input);
      o := Pass;
      if Lookup(inputsNode.outputs, identifier).None? {
        var input := InputPortAt(base.graph.nodes, p);
        if input.None? {
          return Fail(Undefined);
        }
        o := inputsNode.AddOutput(identifier, Port(input.value.socket, input.value.caption));
      }
    }

    /** Step 3 of updateIO: reconnect the outputs connected outside. */
    method RestoreInputsNodeLinks() returns (o: Outcome)
      requires Valid()
      modifies base
      ensures Valid()
      ensures (State(), o) == RestoreLinks(old(State()), old(outsideConnectedInputs))
    {
      ghost var s2 := State();
      var keys := outsideConnectedInputs;
      for i := 0 to |keys|
        invariant Valid() && State() == s2.(graph := base.graph)
        invariant RestoreLinks(State(), keys[i..]) == RestoreLinks(s2, keys)
      {
        assert keys[i..][1..] == keys[i + 1..];
        var linked := ConnectInputsNode(keys[i]);
        if linked.Fail? {
          return linked;
        }
      }
      o := Pass;
    }

    /** Step 4 of updateIO: the loop over the open outputs returns in its
        first round, so only the first one gets an OutputsNode input. */
    method AddOutputsNodeInput() returns (o: Outcome)
      requires Valid()
      modifies base, outputsNode
      ensures Valid()
      ensures (State(), o) == PromoteFirstOutput(old(State()))
    {
      var unconnectedOutputs := FindUnconnectedOutputs(base.graph, [inputsNode.id]);
      if |unconnectedOutputs| > 0 {
        var p := unconnectedOutputs[0];
        var identifier := GetUniqueIdentifier(outputsNode.inputs, p.output);
        var output := OutputPortAt(base.graph.nodes, p);
        if output.None? {
          return Fail(Undefined);
        }
        var added := outputsNode.AddInput(identifier, Port(output.value.socket, output.value.caption));
        var link := Connection(NewConnectionId(base.graph), p.node, p.output, outputsNode.id, identifier);
        var linked := base.AddConnection(link, true);
      }
      o := Pass;
    }
  }
}
