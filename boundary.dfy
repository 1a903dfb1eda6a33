/** The two pseudo-nodes of a group's editor (src/nodes/InputsNode.ts,
    src/nodes/OutputsNode.ts). The InputsNode stands for the group's inputs:
    it offers one output per outer input and may have no inputs. The
    OutputsNode stands for the group's outputs: it takes one input per outer
    output and may have no outputs. Each is an object whose port map the
    group's editor grows in place; the editor's graph lists the node itself
    by id, as a record with no ports (`ListedInputsNode`,
    `ListedOutputsNode`). */
module BoundaryNodes {
  import opened Rete

  /** Adding a port to an object that already has one under that key is
      refused (ClassicPreset's addInput/addOutput). */
  function WithPort(ports: Record<Port>, key: string, port: Port): (r: Result<Record<Port>>)
    ensures r.Err? <==> key in KeySet(ports)
    ensures r.Err? ==> r.error == PortAlreadyAdded
    ensures r.Ok? ==> r.value == ports + [Entry(key, port)]
    ensures r.Ok? && UniqueKeys(ports) ==> UniqueKeys(r.value) && KeySet(r.value) == KeySet(ports) + {key}
  {
    if Lookup(ports, key).Some? then Err(PortAlreadyAdded)
    else
      var r := ports + [Entry(key, port)];
      assert KeySet(r) == KeySet(ports) + {key} by {
        assert forall i :: 0 <= i < |ports| ==> r[i] == ports[i];
        assert r[|ports|].key == key;
      }
      Ok(r)
  }

  /** How an editor's graph lists the InputsNode with id `id`. */
  function ListedInputsNode(id: NodeId): (n: Node)
    ensures n.id == id && n.kind == InputsBoundary && n.caption == "Inputs"
    ensures n.inputs == [] && n.outputs == [] && NodeValid(n)
  {
    Node(id, InputsBoundary, "Inputs", [], [], [])
  }

  /** How an editor's graph lists the OutputsNode with id `id`. */
  function ListedOutputsNode(id: NodeId): (n: Node)
    ensures n.id == id && n.kind == OutputsBoundary && n.caption == "Outputs"
    ensures n.inputs == [] && n.outputs == [] && NodeValid(n)
  {
    Node(id, OutputsBoundary, "Outputs", [], [], [])
  }

  class InputsNode {
    const id: NodeId
    const caption: string
    /** The group's inputs, as outputs of this node. */
    var outputs: Record<Port>
    /** The values last handed in by the group node, if any. */
    var values: Option<Record<Value>>

    ghost predicate Valid()
      reads this
    {
      UniqueKeys(outputs)
    }

    constructor(id: NodeId)
      ensures this.id == id && caption == "Inputs"
      ensures outputs == [] && values == None
      ensures Valid()
    {
      this.id := id;
      caption := "Inputs";
      outputs := [];
      values := None;
    }

    /** `addInput` is refused for every key. */
    method AddInput(key: string, port: Port) returns (o: Outcome)
      ensures o == Fail(InputsNodeCantHaveInputs)
    {
      o := Fail(InputsNodeCantHaveInputs);
    }

    /** `addOutput`, inherited: refused for a key already present. */
    method AddOutput(key: string, port: Port) returns (o: Outcome)
      requires Valid()
      modifies this
      ensures Valid() && values == old(values)
      ensures WithPort(old(outputs), key, port).Ok? ==>
        o == Pass && outputs == WithPort(old(outputs), key, port).value
      ensures WithPort(old(outputs), key, port).Err? ==>
        o == Fail(PortAlreadyAdded) && outputs == old(outputs)
    {
      var r := WithPort(outputs, key, port);
      if r.Err? {
        return Fail(r.error);
      }
      outputs := r.value;
      o := Pass;
    }

    /** `setValues` replaces whatever was stored before. */
    method SetValues(v: Record<Value>)
      modifies this
      ensures values == Some(v) && outputs == old(outputs)
    {
      values := Some(v);
    }

    /** `data` returns the stored values whatever its argument, and fails
        while none have been set. */
    method Data(inputs: Record<Value>) returns (r: Result<Record<Value>>)
      ensures values.None? ==> r == Err(ValuesNotSet)
      ensures values.Some? ==> r == Ok(values.value)
    {
      if values.None? {
        return Err(ValuesNotSet);
      }
      r := Ok(values.value);
    }
  }

  class OutputsNode {
    const id: NodeId
    const caption: string
    /** The group's outputs, as inputs of this node. */
    var inputs: Record<Port>

    ghost predicate Valid()
      reads this
    {
      UniqueKeys(inputs)
    }

    constructor(id: NodeId)
      ensures this.id == id && caption == "Outputs" && inputs == [] && Valid()
    {
      this.id := id;
      caption := "Outputs";
      inputs := [];
    }

    /** `addOutput` is refused for every key, so the node never has an
        output. */
    method AddOutput(key: string, port: Port) returns (o: Outcome)
      ensures o == Fail(OutputsNodeCantHaveOutputs)
    {
      o := Fail(OutputsNodeCantHaveOutputs);
    }

    /** `addInput`, inherited: refused for a key already present. */
    method AddInput(key: string, port: Port) returns (o: Outcome)
      requires Valid()
      modifies this
      ensures Valid()
      ensures WithPort(old(inputs), key, port).Ok? ==>
        o == Pass && inputs == WithPort(old(inputs), key, port).value
      ensures WithPort(old(inputs), key, port).Err? ==>
        o == Fail(PortAlreadyAdded) && inputs == old(inputs)
    {
      var r := WithPort(inputs, key, port);
      if r.Err? {
        return Fail(r.error);
      }
      inputs := r.value;
      o := Pass;
    }

    /** `data`: the node has no outputs, so it yields the empty mapping. */
    method Data() returns (r: Record<Value>)
      ensures r == []
    {
      r := [];
    }
  }
}
