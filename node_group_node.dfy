/** The node that stands for a group in the editor holding it
    (src/nodes/NodeGroupNode.ts). Its inputs and outputs mirror the outer
    inputs and outputs of the group's editor; it forwards outside
    connections of its inputs to that editor, and after each change it
    regenerates its ports and removes the connections of the holding editor
    that use ports it no longer has. */
module GroupNodes {
  import opened Rete
  import opened BoundaryNodes
  import opened GroupResync
  import opened GroupEditors

  /** `removeInput`/`removeOutput` of each key in turn. */
  function RemoveKeys(ports: Record<Port>, keys: seq<string>): (r: Record<Port>)
    ensures forall e :: e in r <==> e in ports && e.key !in keys
  {
    if keys == [] then ports
    else RemoveKey(RemoveKeys(ports, keys[..|keys| - 1]), keys[|keys| - 1])
  }

  /** `addInput`/`addOutput` of each entry in turn; the first key already
      present throws. */
  function AddPorts(ports: Record<Port>, added: Record<Port>): (Record<Port>, Outcome)
    decreases |added|
  {
    if added == [] then (ports, Pass)
    else match WithPort(ports, added[0].key, added[0].value)
      case Err(e) => (ports, Fail(e))
      case Ok(next) => AddPorts(next, added[1..])
  }

  /** A connection of the holding editor that uses an input of the group node
      missing from `inputs`, or an output missing from `outputs`. */
  predicate IsDeadLink(c: Connection, id: NodeId, inputs: Record<Port>, outputs: Record<Port>)
  {
    (c.target == id && Lookup(inputs, c.targetInput).None?) ||
    (c.source == id && Lookup(outputs, c.sourceOutput).None?)
  }

  /** The dead links, in graph order. */
  function DeadLinks(cs: seq<Connection>, id: NodeId, inputs: Record<Port>, outputs: Record<Port>): (r: seq<Connection>)
    ensures forall c :: c in r <==> c in cs && IsDeadLink(c, id, inputs, outputs)
    ensures UniqueConnectionIds(cs) ==> UniqueConnectionIds(r)
  {
    if cs == [] then []
    else
      var rest := DeadLinks(cs[1..], id, inputs, outputs);
      if !IsDeadLink(cs[0], id, inputs, outputs) then rest
      else
        assert UniqueConnectionIds(cs) ==> forall c :: c in rest ==> c.id != cs[0].id by {
          forall c | UniqueConnectionIds(cs) && c in rest ensures c.id != cs[0].id {
            var k :| 0 <= k < |cs[1..]| && cs[1..][k] == c;
            assert cs[k + 1] == c;
          }
        }
        [cs[0]] + rest
  }

  /** The group node's ports and the graph of the editor holding it. */
  datatype NodeView = NodeView(id: NodeId, inputs: Record<Port>, outputs: Record<Port>, parent: Graph)

  /** updateIO of the group node (src/nodes/NodeGroupNode.ts:38-61), given
      the outer inputs and outputs of its group's editor. removeAllOutputs
      walks the keys of the inputs, which removeAllInputs has just emptied. */
  function Regenerate(t: NodeView, outerInputs: Record<Port>, outerOutputs: Record<Port>): (NodeView, Outcome)
  {
    var inputs := RemoveKeys(t.inputs, Keys(t.inputs));
    var outputs := RemoveKeys(t.outputs, Keys(inputs));
    var (ins, o1) := AddPorts(inputs, outerInputs);
    if o1.Fail? then (t.(inputs := ins, outputs := outputs), o1)
    else
      var (outs, o2) := AddPorts(outputs, outerOutputs);
      if o2.Fail? then (t.(inputs := ins, outputs := outs), o2)
      else
        var (g, o3) := RemoveEach(t.parent, DeadLinks(t.parent.connections, t.id, outerInputs, outerOutputs));
        (NodeView(t.id, ins, outs, g), o3)
  }

  /** inputConnectionCreated (src/nodes/NodeGroupNode.ts:28-31): tell the
      group's editor, then regenerate without awaiting it. */
  function InputConnectionCreatedOp(t: NodeView, s: GroupState, c: Connection): (NodeView, GroupState, Outcome)
  {
    var (s1, o) := OuterInputConnectedOp(s, c.targetInput);
    if o.Fail? then (t, s1, o)
    else (Regenerate(t, s1.inputsOutputs, s1.outputsInputs).0, s1, Pass)
  }

  /** inputconnectionRemoved (src/nodes/NodeGroupNode.ts:33-36). */
  function InputConnectionRemovedOp(t: NodeView, s: GroupState, c: Connection): (NodeView, GroupState, Outcome)
  {
    var (s1, o) := OuterInputDisconnectedOp(s, c.targetInput);
    if o.Fail? then (t, s1, o)
    else (Regenerate(t, s1.inputsOutputs, s1.outputsInputs).0, s1, Pass)
  }

  // ---------------------------------------------------------------------
  // Lemmas.

  /** Adding ports with distinct keys, none present yet, never throws; the
      result is the old ports followed by the new ones. */
  lemma {:induction false} AddPortsFresh(ports: Record<Port>, added: Record<Port>)
    requires UniqueKeys(ports) && UniqueKeys(added)
    requires forall e :: e in added ==> e.key !in KeySet(ports)
    ensures AddPorts(ports, added) == (ports + added, Pass)
    decreases |added|
  {
    if added != [] {
      var e := added[0];
      var next := ports + [e];
      assert WithPort(ports, e.key, e.value) == Ok(next);
      forall x | x in added[1..] ensures x.key !in KeySet(next) {
        var k :| 0 <= k < |added[1..]| && added[1..][k] == x;
        assert added[k + 1] == x;
        assert x.key != e.key;
      }
      assert UniqueKeys(added[1..]) by {
        forall i, j | 0 <= i < j < |added[1..]| ensures added[1..][i].key != added[1..][j].key {
          assert added[1..][i] == added[i + 1] && added[1..][j] == added[j + 1];
        }
      }
      AddPortsFresh(next, added[1..]);
      assert AddPorts(ports, added) == AddPorts(next, added[1..]);
      assert next + added[1..] == ports + added;
    } else {
      assert ports + added == ports;
    }
  }

  /** Adding ports whose first key is present throws at once. */
  lemma AddPortsClash(ports: Record<Port>, added: Record<Port>)
    requires added != [] && added[0].key in KeySet(ports)
    ensures AddPorts(ports, added) == (ports, Fail(PortAlreadyAdded))
  {
  }

  /** The first regeneration (the node has no output yet) gives the node
      exactly the outer inputs and outputs of its group, and removes from the
      holding editor exactly the connections that use ports the node no
      longer has. */
  lemma RegenerateFirst(t: NodeView, outerInputs: Record<Port>, outerOutputs: Record<Port>)
    requires t.outputs == [] && StoreValid(t.parent)
    requires UniqueKeys(outerInputs) && UniqueKeys(outerOutputs)
    ensures Regenerate(t, outerInputs, outerOutputs).1 == Pass
    ensures Regenerate(t, outerInputs, outerOutputs).0.inputs == outerInputs
    ensures Regenerate(t, outerInputs, outerOutputs).0.outputs == outerOutputs
    ensures Regenerate(t, outerInputs, outerOutputs).0.parent.nodes == t.parent.nodes
    ensures StoreValid(Regenerate(t, outerInputs, outerOutputs).0.parent)
    ensures forall c :: c in Regenerate(t, outerInputs, outerOutputs).0.parent.connections <==>
      c in t.parent.connections && !IsDeadLink(c, t.id, outerInputs, outerOutputs)
  {
    var inputs := RemoveKeys(t.inputs, Keys(t.inputs));
    assert inputs == [] by {
      if inputs != [] {
        assert inputs[0] in t.inputs;
        KeysMembership(t.inputs, inputs[0].key);
      }
    }
    AddPortsFresh([], outerInputs);
    AddPortsFresh([], outerOutputs);
    assert [] + outerInputs == outerInputs && [] + outerOutputs == outerOutputs;
    assert Keys(inputs) == [];
    var cs := t.parent.connections;
    var rs := DeadLinks(cs, t.id, outerInputs, outerOutputs);
    RemoveEachSpec(t.parent, rs);
    forall c | c in cs ensures c.id in ConnectionIds(rs) ==> IsDeadLink(c, t.id, outerInputs, outerOutputs) {
      if c.id in ConnectionIds(rs) {
        var b :| b in rs && b.id == c.id;
        var i :| 0 <= i < |cs| && cs[i] == c;
        var j :| 0 <= j < |cs| && cs[j] == b;
      }
    }
  }

  /** Any later regeneration, where the node's outputs are the outer outputs
      it was given before (which only grow), throws at the first output: the
      outputs are never removed, so the node's outputs are never updated and
      no dead connection is removed. The inputs are regenerated all the
      same. */
  lemma RegenerateAgain(t: NodeView, outerInputs: Record<Port>, outerOutputs: Record<Port>)
    requires t.outputs != [] && t.outputs <= outerOutputs && UniqueKeys(outerInputs)
    ensures Regenerate(t, outerInputs, outerOutputs) ==
      (t.(inputs := outerInputs), Fail(PortAlreadyAdded))
  {
    var inputs := RemoveKeys(t.inputs, Keys(t.inputs));
    assert inputs == [] by {
      if inputs != [] {
        assert inputs[0] in t.inputs;
        KeysMembership(t.inputs, inputs[0].key);
      }
    }
    AddPortsFresh([], outerInputs);
    assert [] + outerInputs == outerInputs;
    assert Keys(inputs) == [];
    assert outerOutputs[0] == t.outputs[0];
    assert t.outputs[0].key in KeySet(t.outputs);
    AddPortsClash(t.outputs, outerOutputs);
  }

  /** While the group's editor has no map entry, the group node ignores the
      outside connections of its inputs: both notifications fail with
      InvalidIdentifier and nothing changes. */
  lemma OutsideLinksIgnored(t: NodeView, s: GroupState, c: Connection)
    requires StateValid(s) && s.inputsNodeMap == []
    ensures InputConnectionCreatedOp(t, s, c) == (t, s, Fail(InvalidIdentifier))
    ensures InputConnectionRemovedOp(t, s, c) == (t, s, Fail(InvalidIdentifier))
  {
    OuterInputsRefused(s, c.targetInput);
  }

  // ---------------------------------------------------------------------
  // The node object.

  class NodeGroupNode {
    const id: NodeId
    const caption: string
    var inputs: Record<Port>
    var outputs: Record<Port>
    const subEditor: GroupEditor
    /** The editor holding this node: its connections and removeConnection. */
    const editor: Editor

    ghost function View(): NodeView
      reads this, editor
    {
      NodeView(id, inputs, outputs, editor.graph)
    }

    ghost predicate Valid()
      reads this, editor, subEditor, subEditor.base, subEditor.inputsNode, subEditor.outputsNode
    {
      UniqueKeys(inputs) && UniqueKeys(outputs) && editor.Valid() && subEditor.Valid() &&
      editor != subEditor.base
    }

    /** The id stands for the one rete's `getUID()` gives the node; the
        regeneration the constructor starts is not awaited. */
    constructor(id: NodeId, subEditor: GroupEditor, editor: Editor)
      requires subEditor.Valid() && editor.Valid() && editor != subEditor.base
      modifies editor
      ensures Valid() && caption == "NodeGroup"
      ensures this.id == id && this.subEditor == subEditor && this.editor == editor
      ensures View() == Regenerate(NodeView(id, [], [], old(editor.graph)),
                                   subEditor.inputsNode.outputs, subEditor.outputsNode.inputs).0
    {
      this.id := id;
      caption := "NodeGroup";
      this.subEditor := subEditor;
      this.editor := editor;
      inputs := [];
      outputs := [];
      new;
      var regenerated := UpdateIO();
    }

    method InputConnectionCreated(c: Connection) returns (o: Outcome)
      requires Valid()
      modifies this, editor, subEditor, subEditor.base, subEditor.inputsNode, subEditor.outputsNode
      ensures Valid()
      ensures (View(), subEditor.State(), o) == InputConnectionCreatedOp(old(View()), old(subEditor.State()), c)
    {
      o := subEditor.OuterInputConnected(c.targetInput);
      if o.Fail? {
        return;
      }
      var regenerated := UpdateIO();
    }

    method InputConnectionRemoved(c: Connection) returns (o: Outcome)
      requires Valid()
      modifies this, editor, subEditor, subEditor.base, subEditor.inputsNode, subEditor.outputsNode
      ensures Valid()
      ensures (View(), subEditor.State(), o) == InputConnectionRemovedOp(old(View()), old(subEditor.State()), c)
    {
      o := subEditor.OuterInputDisconnected(c.targetInput);
      if o.Fail? {
        return;
      }
      var regenerated := UpdateIO();
    }

    /** updateIO of the group node. */
    method UpdateIO() returns (o: Outcome)
      requires Valid()
      modifies this, editor
      ensures Valid()
      ensures (View(), o) == Regenerate(old(View()), subEditor.inputsNode.outputs, subEditor.outputsNode.inputs)
    {
      RemoveAllInputs();
      RemoveAllOutputs();
      var outerInputs := subEditor.GetOuterInputs();
      o := AddInputs(outerInputs);
      if o.Fail? {
        return;
      }
      var outerOutputs := subEditor.GetOuterOutputs();
      o := AddOutputs(outerOutputs);
      if o.Fail? {
        return;
      }
      var removals := DeadLinks(editor.graph.connections, id, outerInputs, outerOutputs);
      o := RemoveLinks(removals);
    }

    /** updateIO's first loop: an input for each port the group's editor
        exposes as input. */
    method AddInputs(ports: Record<Port>) returns (o: Outcome)
      requires Valid()
      modifies this
      ensures Valid() && View() == old(View()).(inputs := inputs)
      ensures (inputs, o) == AddPorts(old(inputs), ports)
    {
      for i := 0 to |ports|
        invariant Valid() && View() == old(View()).(inputs := inputs)
        invariant AddPorts(inputs, ports[i..]) == AddPorts(old(inputs), ports)
      {
        assert ports[i..][1..] == ports[i + 1..];
        o := AddInput(ports[i].key, ports[i].value);
        if o.Fail? {
          return;
        }
      }
      assert ports[|ports|..] == [];
      o := Pass;
    }

    /** updateIO's second loop: an output for each port the group's editor
        exposes as output. */
    method AddOutputs(ports: Record<Port>) returns (o: Outcome)
      requires Valid()
      modifies this
      ensures Valid() && View() == old(View()).(outputs := outputs)
      ensures (outputs, o) == AddPorts(old(outputs), ports)
    {
      for i := 0 to |ports|
        invariant Valid() && View() == old(View()).(outputs := outputs)
        invariant AddPorts(outputs, ports[i..]) == AddPorts(old(outputs), ports)
      {
        assert ports[i..][1..] == ports[i + 1..];
        o := AddOutput(ports[i].key, ports[i].value);
        if o.Fail? {
          return;
        }
      }
      assert ports[|ports|..] == [];
      o := Pass;
    }

    /** updateIO's last loop: the connections whose port is gone are
        removed from the host. */
    method RemoveLinks(removals: seq<Connection>) returns (o: Outcome)
      requires Valid()
      modifies editor
      ensures Valid() && View() == old(View()).(parent := editor.graph)
      ensures (editor.graph, o) == RemoveEach(old(editor.graph), removals)
    {
      for i := 0 to |removals|
        invariant Valid() && View() == old(View()).(parent := editor.graph)
        invariant RemoveEach(editor.graph, removals[i..]) == RemoveEach(old(editor.graph), removals)
      {
        assert removals[i..][1..] == removals[i + 1..];
        var removed := editor.RemoveConnection(removals[i].id, true);
        if removed.Err? {
          return Fail(removed.error);
        }
      }
      assert removals[|removals|..] == [];
      o := Pass;
    }

    /** removeAllInputs: removes every input. */
    method RemoveAllInputs()
      requires Valid()
      modifies this
      ensures Valid() && outputs == old(outputs)
      ensures inputs == RemoveKeys(old(inputs), Keys(old(inputs)))
    {
      var keys := Keys(inputs);
      for i := 0 to |keys|
        invariant Valid() && outputs == old(outputs)
        invariant inputs == RemoveKeys(old(inputs), keys[..i])
      {
        assert keys[..i + 1][..i] == keys[..i];
        inputs := RemoveKey(inputs, keys[i]);
      }
      assert keys[..|keys|] == keys;
    }

    /** removeAllOutputs: removes the outputs under the keys of the inputs. */
    method RemoveAllOutputs()
      requires Valid()
      modifies this
      ensures Valid() && inputs == old(inputs)
      ensures outputs == RemoveKeys(old(outputs), Keys(old(inputs)))
    {
      var keys := Keys(inputs);
      for i := 0 to |keys|
        invariant Valid() && inputs == old(inputs)
        invariant outputs == RemoveKeys(old(outputs), keys[..i])
      {
        assert keys[..i + 1][..i] == keys[..i];
        outputs := RemoveKey(outputs, keys[i]);
      }
      assert keys[..|keys|] == keys;
    }

    /** addInput, inherited: refused for a key already present. */
    method AddInput(key: string, port: Port) returns (o: Outcome)
      requires Valid()
      modifies this
      ensures Valid() && outputs == old(outputs)
      ensures WithPort(old(inputs), key, port).Ok? ==>
        o == Pass && inputs == WithPort(old(inputs), key, port).value
      ensures WithPort(old(inputs), key, port).Err? ==>
        o == Fail(PortAlreadyAdded) && inputs == old(inputs)
    {
      var r := WithPort(inputs, key, port);
      if r.Err? {
        return Fail(r.error);
      }
      inputs := r.value;
      o := Pass;
    }

    /** addOutput, inherited: refused for a key already present. */
    method AddOutput(key: string, port: Port) returns (o: Outcome)
      requires Valid()
      modifies this
      ensures Valid() && inputs == old(inputs)
      ensures WithPort(old(outputs), key, port).Ok? ==>
        o == Pass && outputs == WithPort(old(outputs), key, port).value
      ensures WithPort(old(outputs), key, port).Err? ==>
        o == Fail(PortAlreadyAdded) && outputs == old(outputs)
    {
      var r := WithPort(outputs, key, port);
      if r.Err? {
        return Fail(r.error);
      }
      outputs := r.value;
      o := Pass;
    }

    /** data: hands the inputs to the group's InputsNode; what the group's
        engine computes from them is not part of this model. */
    method Data(values: Record<Value>)
      modifies subEditor.inputsNode
      ensures subEditor.inputsNode.values == Some(values)
      ensures subEditor.inputsNode.outputs == old(subEditor.inputsNode.outputs)
    {
      subEditor.inputsNode.SetValues(values);
    }
  }
}
