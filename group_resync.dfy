/** The boundary resync of a group's editor (`updateIO`,
    src/GroupEditor.ts:120-154), as a function of the editor's state. It runs
    in four steps:
      1. remove every connection that leaves the InputsNode or enters the
         OutputsNode;
      2. give the InputsNode a new output for each input left unconnected
         (outside the OutputsNode);
      3. reconnect the InputsNode outputs that are connected outside the
         group;
      4. give the OutputsNode a new input for the first output left
         unconnected (outside the InputsNode), and connect the two.
    Each step is written as the source performs it, including the errors its
    calls could raise; the lemmas below show which of them cannot happen. */
module GroupResync {
  import opened Rete
  import opened Utils
  import opened Identifiers
  import opened BoundaryNodes

  /** What a GroupEditor holds: its graph, the ids of its two boundary nodes,
      their port maps (the InputsNode's outputs and the OutputsNode's
      inputs), and its two private fields. */
  datatype GroupState = GroupState(
    graph: Graph,
    inputsId: NodeId,
    outputsId: NodeId,
    inputsOutputs: Record<Port>,
    outputsInputs: Record<Port>,
    inputsNodeMap: Record<InputPosition>,
    outsideConnectedInputs: seq<string>)

  /** What the editor keeps true: a valid store and boundary port maps with
      unique keys. */
  predicate StateValid(s: GroupState)
  {
    StoreValid(s.graph) && UniqueKeys(s.inputsOutputs) && UniqueKeys(s.outputsInputs)
  }

  /** The id rete's `getUID()` gives a new connection: one no connection of
      the graph has. */
  function NewConnectionId(g: Graph): (id: ConnectionId)
    ensures id !in ConnectionIds(g.connections)
  {
    FreshId(ConnectionIdList(g.connections))
  }

  // ---------------------------------------------------------------------
  // Step 1 (src/GroupEditor.ts:121-125).

  predicate IsBoundaryLink(c: Connection, inputsId: NodeId, outputsId: NodeId)
  {
    c.source == inputsId || c.target == outputsId
  }

  /** The connections step 1 removes, in graph order. */
  function BoundaryLinks(cs: seq<Connection>, inputsId: NodeId, outputsId: NodeId): (r: seq<Connection>)
    ensures forall c :: c in r <==> c in cs && IsBoundaryLink(c, inputsId, outputsId)
    ensures UniqueConnectionIds(cs) ==> UniqueConnectionIds(r)
  {
    if cs == [] then []
    else
      var rest := BoundaryLinks(cs[1..], inputsId, outputsId);
      if !IsBoundaryLink(cs[0], inputsId, outputsId) then rest
      else
        assert UniqueConnectionIds(cs) ==> forall c :: c in rest ==> c.id != cs[0].id by {
          forall c | UniqueConnectionIds(cs) && c in rest ensures c.id != cs[0].id {
            var k :| 0 <= k < |cs[1..]| && cs[1..][k] == c;
            assert cs[k + 1] == c;
          }
        }
        [cs[0]] + rest
  }

  function StripLinks(s: GroupState): (GroupState, Outcome)
  {
    var (g, o) := RemoveEach(s.graph, BoundaryLinks(s.graph.connections, s.inputsId, s.outputsId));
    (s.(graph := g), o)
  }

  // ---------------------------------------------------------------------
  // Step 2 (src/GroupEditor.ts:127-137).

  /** `getNode(p.node).inputs[p.input]`; None when either is undefined. */
  function InputPortAt(nodes: seq<Node>, p: InputPosition): Option<Port>
  {
    match GetNode(nodes, p.node)
    case None => None
    case Some(n) => Lookup(n.inputs, p.input)
  }

  /** One round of step 2: a unique key derived from the input's key, and,
      if the InputsNode has no output under it, a new output there with the
      input's socket and label. */
  function PromoteInput(nodes: seq<Node>, outs: Record<Port>, p: InputPosition): Result<Record<Port>>
  {
    var key := UniqueKey(KeySet(outs), p.input);
    if Lookup(outs, key).Some? then Ok(outs)
    else match InputPortAt(nodes, p)
      case None => Err(Undefined)
      case Some(port) => Ok(outs + [Entry(key, port)])
  }

  function PromoteInputs(nodes: seq<Node>, outs: Record<Port>, ps: seq<InputPosition>): (Record<Port>, Outcome)
    decreases |ps|
  {
    if ps == [] then (outs, Pass)
    else match PromoteInput(nodes, outs, ps[0])
      case Err(e) => (outs, Fail(e))
      case Ok(next) => PromoteInputs(nodes, next, ps[1..])
  }

  /** The inputs step 2 promotes: unconnected, on any node but the
      OutputsNode. */
  function OpenInputs(s: GroupState): seq<InputPosition>
  {
    UnconnectedInputs(s.graph.nodes, s.graph.connections, [s.outputsId])
  }

  function PromoteOpenInputs(s: GroupState): (GroupState, Outcome)
  {
    var (outs, o) := PromoteInputs(s.graph.nodes, s.inputsOutputs, OpenInputs(s));
    (s.(inputsOutputs := outs), o)
  }

  // ---------------------------------------------------------------------
  // Step 3 (src/GroupEditor.ts:139-142) and connectInputsNode
  // (src/GroupEditor.ts:110-118).

  /** connectInputsNode: connect the InputsNode output `key` to the input
      `inputsNodeMap[key]`; refused unless both exist. */
  function ConnectInputsNode(s: GroupState, key: string): Result<Graph>
  {
    if Lookup(s.inputsOutputs, key).None? || Lookup(s.inputsNodeMap, key).None? then
      Err(InvalidIdentifier)
    else
      var target := Lookup(s.inputsNodeMap, key).value;
      match GetNode(s.graph.nodes, target.node)
      case None => Err(Undefined)
      case Some(n) =>
        WithConnectionAdded(s.graph, Connection(NewConnectionId(s.graph), s.inputsId, key, n.id, target.input))
  }

  function RestoreLinks(s: GroupState, keys: seq<string>): (GroupState, Outcome)
    decreases |keys|
  {
    if keys == [] then (s, Pass)
    else match ConnectInputsNode(s, keys[0])
      case Err(e) => (s, Fail(e))
      case Ok(g) => RestoreLinks(s.(graph := g), keys[1..])
  }

  // ---------------------------------------------------------------------
  // Step 4 (src/GroupEditor.ts:143-153).

  /** `getNode(p.node).outputs[p.output]`; None when either is undefined. */
  function OutputPortAt(nodes: seq<Node>, p: OutputPosition): Option<Port>
  {
    match GetNode(nodes, p.node)
    case None => None
    case Some(n) => Lookup(n.outputs, p.output)
  }

  /** The outputs step 4 looks at: unconnected, on any node but the
      InputsNode. */
  function OpenOutputs(s: GroupState): seq<OutputPosition>
  {
    UnconnectedOutputs(s.graph.nodes, s.graph.connections, [s.inputsId])
  }

  /** The connection step 4 adds from `p` to the OutputsNode input `key`. */
  function OutputLink(s: GroupState, p: OutputPosition, key: string): Connection
  {
    Connection(NewConnectionId(s.graph), p.node, p.output, s.outputsId, key)
  }

  /** The loop of step 4 returns in its first round: only the first open
      output gets an OutputsNode input. */
  function PromoteFirstOutput(s: GroupState): (GroupState, Outcome)
  {
    var ps := OpenOutputs(s);
    if ps == [] then (s, Pass)
    else
      var p := ps[0];
      var key := UniqueKey(KeySet(s.outputsInputs), p.output);
      match OutputPortAt(s.graph.nodes, p)
      case None => (s, Fail(Undefined))
      case Some(port) =>
        var t := s.(outputsInputs := s.outputsInputs + [Entry(key, port)]);
        match WithConnectionAdded(t.graph, OutputLink(s, p, key))
        case Err(e) => (t, Fail(e))
        case Ok(g) => (t.(graph := g), Pass)
  }

  // ---------------------------------------------------------------------
  // The whole resync.

  /** updateIO: the four steps; a failure ends it where it happened. */
  function Resync(s: GroupState): (GroupState, Outcome)
  {
    var (s1, o1) := StripLinks(s);
    if o1.Fail? then (s1, o1)
    else
      var (s2, o2) := PromoteOpenInputs(s1);
      if o2.Fail? then (s2, o2)
      else
        var (s3, o3) := RestoreLinks(s2, s2.outsideConnectedInputs);
        if o3.Fail? then (s3, o3)
        else PromoteFirstOutput(s3)
  }

  // ---------------------------------------------------------------------
  // Step 1 never fails and removes exactly the boundary links.

  /** After step 1 the connections are exactly those that neither leave the
      InputsNode nor enter the OutputsNode; nothing else changes. */
  lemma StripLinksSpec(s: GroupState)
    requires StateValid(s)
    ensures StripLinks(s).1 == Pass && StateValid(StripLinks(s).0)
    ensures StripLinks(s).0 == s.(graph := Graph(s.graph.nodes, StripLinks(s).0.graph.connections))
    ensures forall c :: c in StripLinks(s).0.graph.connections <==>
      c in s.graph.connections && !IsBoundaryLink(c, s.inputsId, s.outputsId)
  {
    var cs := s.graph.connections;
    var rs := BoundaryLinks(cs, s.inputsId, s.outputsId);
    RemoveEachSpec(s.graph, rs);
    forall c | c in cs ensures c.id in ConnectionIds(rs) ==> IsBoundaryLink(c, s.inputsId, s.outputsId) {
      if c.id in ConnectionIds(rs) {
        var b :| b in rs && b.id == c.id;
        var i :| 0 <= i < |cs| && cs[i] == c;
        var j :| 0 <= j < |cs| && cs[j] == b;
      }
    }
  }

  // ---------------------------------------------------------------------
  // Step 2 adds one fresh output per open input and removes none.

  /** Every open input lies on a node other than the OutputsNode and has a
      port the step can read. */
  lemma OpenInputsDefined(s: GroupState)
    requires StoreValid(s.graph)
    ensures forall p :: p in OpenInputs(s) ==>
      p.node != s.outputsId && InputPortAt(s.graph.nodes, p).Some?
  {
    forall p | p in OpenInputs(s)
      ensures p.node != s.outputsId && InputPortAt(s.graph.nodes, p).Some?
    {
      UnconnectedInputsMembership(s.graph.nodes, s.graph.connections, [s.outputsId], p);
      var n :| n in s.graph.nodes && n.id == p.node && n.id !in [s.outputsId] && p.input in KeySet(n.inputs);
      GetNodeUnique(s.graph.nodes, n);
    }
  }

  /** The guard of step 2 always holds: the key is new, so the output is
      added. */
  lemma PromoteInputAdds(nodes: seq<Node>, outs: Record<Port>, p: InputPosition)
    requires InputPortAt(nodes, p).Some?
    ensures PromoteInput(nodes, outs, p) ==
      Ok(outs + [Entry(UniqueKey(KeySet(outs), p.input), InputPortAt(nodes, p).value)])
    ensures UniqueKeys(outs) ==> UniqueKeys(PromoteInput(nodes, outs, p).value)
  {
    var key := UniqueKey(KeySet(outs), p.input);
    assert WithPort(outs, key, InputPortAt(nodes, p).value).Ok?;
  }

  /** `r` is `outs` followed by one entry per position of `ps`, in order:
      entry i carries the input's port under the first candidate for the
      input's key that no earlier output has. */
  ghost predicate PromotedFrom(nodes: seq<Node>, outs: Record<Port>, ps: seq<InputPosition>, r: Record<Port>)
  {
    |r| == |outs| + |ps| && r[..|outs|] == outs &&
    forall i :: 0 <= i < |ps| ==>
      InputPortAt(nodes, ps[i]) == Some(r[|outs| + i].value) &&
      r[|outs| + i].key == UniqueKey(KeySet(r[..|outs| + i]), ps[i].input)
  }

  lemma PromotedCons(nodes: seq<Node>, outs: Record<Port>, ps: seq<InputPosition>, r: Record<Port>)
    requires ps != [] && InputPortAt(nodes, ps[0]).Some?
    requires PromotedFrom(nodes, PromoteInput(nodes, outs, ps[0]).value, ps[1..], r)
    ensures PromotedFrom(nodes, outs, ps, r)
  {
    PromoteInputAdds(nodes, outs, ps[0]);
    var next := PromoteInput(nodes, outs, ps[0]).value;
    assert |next| == |outs| + 1;
    assert r[..|outs|] == next[..|outs|];
    assert r[..|outs| + 0] == outs;
    assert r[|outs|] == next[|outs|];
    forall i | 1 <= i < |ps|
      ensures InputPortAt(nodes, ps[i]) == Some(r[|outs| + i].value)
      ensures r[|outs| + i].key == UniqueKey(KeySet(r[..|outs| + i]), ps[i].input)
    {
      assert ps[i] == ps[1..][i - 1];
      assert |next| + (i - 1) == |outs| + i;
    }
  }

  /** Step 2 over `ps` when every position has a port: it never fails, and
      appends one entry per position (`PromotedFrom`) keeping keys unique. */
  lemma {:induction false} PromoteInputsSpec(nodes: seq<Node>, outs: Record<Port>, ps: seq<InputPosition>)
    requires forall p :: p in ps ==> InputPortAt(nodes, p).Some?
    ensures PromoteInputs(nodes, outs, ps).1 == Pass
    ensures PromotedFrom(nodes, outs, ps, PromoteInputs(nodes, outs, ps).0)
    ensures UniqueKeys(outs) ==> UniqueKeys(PromoteInputs(nodes, outs, ps).0)
    decreases |ps|
  {
    if ps != [] {
      PromoteInputAdds(nodes, outs, ps[0]);
      var next := PromoteInput(nodes, outs, ps[0]).value;
      PromoteInputsSpec(nodes, next, ps[1..]);
      PromotedCons(nodes, outs, ps, PromoteInputs(nodes, next, ps[1..]).0);
    }
  }

  /** Step 2 on a valid state: it never fails, keeps every existing InputsNode
      output, and appends exactly one new output per open input. */
  lemma PromoteOpenInputsSpec(s: GroupState)
    requires StateValid(s)
    ensures PromoteOpenInputs(s).1 == Pass && StateValid(PromoteOpenInputs(s).0)
    ensures PromoteOpenInputs(s).0 == s.(inputsOutputs := PromoteOpenInputs(s).0.inputsOutputs)
    ensures PromotedFrom(s.graph.nodes, s.inputsOutputs, OpenInputs(s), PromoteOpenInputs(s).0.inputsOutputs)
  {
    OpenInputsDefined(s);
    PromoteInputsSpec(s.graph.nodes, s.inputsOutputs, OpenInputs(s));
  }

  // ---------------------------------------------------------------------
  // Step 3: connectInputsNode and the reconnection of outside links.

  /** connectInputsNode fails with InvalidIdentifier exactly when the
      InputsNode has no output `key` or the map has no entry for it, and with
      a TypeError exactly when the mapped node is missing; otherwise it adds
      one connection, with a fresh id, from that output to the mapped input. */
  lemma ConnectInputsNodeSpec(s: GroupState, key: string)
    requires StateValid(s)
    ensures ConnectInputsNode(s, key) == Err(InvalidIdentifier) <==>
      key !in KeySet(s.inputsOutputs) || key !in KeySet(s.inputsNodeMap)
    ensures ConnectInputsNode(s, key) == Err(Undefined) <==>
      key in KeySet(s.inputsOutputs) && key in KeySet(s.inputsNodeMap) &&
      Lookup(s.inputsNodeMap, key).value.node !in NodeIds(s.graph.nodes)
    ensures ConnectInputsNode(s, key).Err? ==>
      ConnectInputsNode(s, key).error == InvalidIdentifier || ConnectInputsNode(s, key).error == Undefined
    ensures ConnectInputsNode(s, key).Ok? ==>
      Lookup(s.inputsNodeMap, key).Some? &&
      StoreValid(ConnectInputsNode(s, key).value) &&
      ConnectInputsNode(s, key).value == Graph(s.graph.nodes, s.graph.connections +
        [Connection(NewConnectionId(s.graph), s.inputsId, key,
                    Lookup(s.inputsNodeMap, key).value.node, Lookup(s.inputsNodeMap, key).value.input)])
  {
    if Lookup(s.inputsOutputs, key).Some? && Lookup(s.inputsNodeMap, key).Some? {
      var target := Lookup(s.inputsNodeMap, key).value;
      if GetNode(s.graph.nodes, target.node).Some? {
        var n := GetNode(s.graph.nodes, target.node).value;
        ConnectionAddedValid(s.graph, Connection(NewConnectionId(s.graph), s.inputsId, key, n.id, target.input));
      }
    }
  }

  /** Step 3 only appends connections that leave the InputsNode, keeps the
      store valid, and can fail only as connectInputsNode does. */
  lemma {:induction false} RestoreLinksSpec(s: GroupState, keys: seq<string>)
    requires StateValid(s)
    ensures StateValid(RestoreLinks(s, keys).0)
    ensures RestoreLinks(s, keys).0 == s.(graph := Graph(s.graph.nodes, RestoreLinks(s, keys).0.graph.connections))
    ensures s.graph.connections <= RestoreLinks(s, keys).0.graph.connections
    ensures forall i :: |s.graph.connections| <= i < |RestoreLinks(s, keys).0.graph.connections| ==>
      RestoreLinks(s, keys).0.graph.connections[i].source == s.inputsId
    ensures RestoreLinks(s, keys).1.Fail? ==>
      RestoreLinks(s, keys).1.error == InvalidIdentifier || RestoreLinks(s, keys).1.error == Undefined
    decreases |keys|
  {
    if keys != [] {
      ConnectInputsNodeSpec(s, keys[0]);
      if ConnectInputsNode(s, keys[0]).Ok? {
        var t := s.(graph := ConnectInputsNode(s, keys[0]).value);
        RestoreLinksSpec(t, keys[1..]);
        var r := RestoreLinks(t, keys[1..]).0.graph.connections;
        forall i | |s.graph.connections| <= i < |r| ensures r[i].source == s.inputsId {
          if i == |s.graph.connections| {
            assert r[i] == t.graph.connections[i];
          }
        }
      }
    }
  }

  /** With nothing in the map, any outside link to restore makes step 3 fail
      with InvalidIdentifier before it changes anything. */
  lemma RestoreLinksUnmapped(s: GroupState, keys: seq<string>)
    requires StateValid(s) && s.inputsNodeMap == [] && keys != []
    ensures RestoreLinks(s, keys) == (s, Fail(InvalidIdentifier))
  {
    ConnectInputsNodeSpec(s, keys[0]);
  }

  // ---------------------------------------------------------------------
  // Step 4 adds one OutputsNode input and one connection at most.

  /** Every open output lies on a node other than the InputsNode and has a
      port the step can read. */
  lemma OpenOutputsDefined(s: GroupState)
    requires StoreValid(s.graph)
    ensures forall p :: p in OpenOutputs(s) ==>
      p.node != s.inputsId && OutputPortAt(s.graph.nodes, p).Some?
  {
    forall p | p in OpenOutputs(s)
      ensures p.node != s.inputsId && OutputPortAt(s.graph.nodes, p).Some?
    {
      UnconnectedOutputsMembership(s.graph.nodes, s.graph.connections, [s.inputsId], p);
      var n :| n in s.graph.nodes && n.id == p.node && n.id !in [s.inputsId] && p.output in KeySet(n.outputs);
      GetNodeUnique(s.graph.nodes, n);
    }
  }

  /** Step 4 on a valid state never fails. With no open output it changes
      nothing; otherwise the OutputsNode gains exactly one input, under a new
      key derived from the first open output's key and with that output's
      port, and exactly one connection is added, from that output to it. */
  lemma PromoteFirstOutputSpec(s: GroupState)
    requires StateValid(s)
    ensures PromoteFirstOutput(s).1 == Pass && StateValid(PromoteFirstOutput(s).0)
    ensures OpenOutputs(s) == [] ==> PromoteFirstOutput(s).0 == s
    ensures OpenOutputs(s) != [] ==>
      var p := OpenOutputs(s)[0];
      var key := UniqueKey(KeySet(s.outputsInputs), p.output);
      p.node != s.inputsId && key !in KeySet(s.outputsInputs) &&
      OutputPortAt(s.graph.nodes, p).Some? &&
      PromoteFirstOutput(s).0 == s.(
        outputsInputs := s.outputsInputs + [Entry(key, OutputPortAt(s.graph.nodes, p).value)],
        graph := Graph(s.graph.nodes, s.graph.connections + [OutputLink(s, p, key)]))
  {
    OpenOutputsDefined(s);
    if OpenOutputs(s) != [] {
      var p := OpenOutputs(s)[0];
      var key := UniqueKey(KeySet(s.outputsInputs), p.output);
      var port := OutputPortAt(s.graph.nodes, p).value;
      assert WithPort(s.outputsInputs, key, port).Ok?;
      ConnectionAddedValid(s.graph, OutputLink(s, p, key));
    }
  }

  // ---------------------------------------------------------------------
  // The whole resync.

  /** On a valid state, resync keeps the state valid; it changes only the
      connections and the two port maps, which it only extends (the
      OutputsNode by one input at most); and it can fail only in step 3, as
      connectInputsNode does, which cannot happen when nothing is connected
      outside and always happens when something is but the map is empty. */
  lemma ResyncSpec(s: GroupState)
    requires StateValid(s)
    ensures StateValid(Resync(s).0)
    ensures Resync(s).0 == s.(graph := Graph(s.graph.nodes, Resync(s).0.graph.connections),
                              inputsOutputs := Resync(s).0.inputsOutputs,
                              outputsInputs := Resync(s).0.outputsInputs)
    ensures s.inputsOutputs <= Resync(s).0.inputsOutputs
    ensures s.outputsInputs <= Resync(s).0.outputsInputs
    ensures |Resync(s).0.outputsInputs| <= |s.outputsInputs| + 1
    ensures Resync(s).1.Fail? ==>
      Resync(s).1.error == InvalidIdentifier || Resync(s).1.error == Undefined
    ensures s.outsideConnectedInputs == [] ==> Resync(s).1 == Pass
    ensures s.inputsNodeMap == [] && s.outsideConnectedInputs != [] ==>
      Resync(s).1 == Fail(InvalidIdentifier)
  {
    StripLinksSpec(s);
    var s1 := StripLinks(s).0;
    PromoteOpenInputsSpec(s1);
    var s2 := PromoteOpenInputs(s1).0;
    RestoreLinksSpec(s2, s2.outsideConnectedInputs);
    if s.inputsNodeMap == [] && s.outsideConnectedInputs != [] {
      RestoreLinksUnmapped(s2, s2.outsideConnectedInputs);
    }
    var (s3, o3) := RestoreLinks(s2, s2.outsideConnectedInputs);
    if o3.Pass? {
      PromoteFirstOutputSpec(s3);
    }
  }

  /** Resync when nothing is connected outside the group: it succeeds; the
      InputsNode gains one output per input left open by step 1 and none of
      them is connected; and apart from the links into the OutputsNode, of
      which at most one remains, the connections are exactly those that
      were not boundary links. */
  lemma ResyncUnlinked(s: GroupState)
    requires StateValid(s) && s.outsideConnectedInputs == []
    ensures Resync(s).1 == Pass
    ensures PromotedFrom(s.graph.nodes, s.inputsOutputs, OpenInputs(StripLinks(s).0), Resync(s).0.inputsOutputs)
    ensures forall c :: c in Resync(s).0.graph.connections ==> c.source != s.inputsId
    ensures forall c :: c in Resync(s).0.graph.connections && c.target != s.outputsId <==>
      c in s.graph.connections && !IsBoundaryLink(c, s.inputsId, s.outputsId)
    ensures forall c, d ::
      (c in Resync(s).0.graph.connections && d in Resync(s).0.graph.connections &&
       c.target == s.outputsId && d.target == s.outputsId) ==> c == d
  {
    ResyncWithoutOutsideLinks(s);
    StripLinksSpec(s);
    var s1 := StripLinks(s).0;
    PromoteOpenInputsSpec(s1);
    FirstOutputLinks(PromoteOpenInputs(s1).0);
  }

  /** With no recorded outside link, step 3 has nothing to do and a resync
      is steps 1, 2 and 4 in turn. */
  lemma ResyncWithoutOutsideLinks(s: GroupState)
    requires StateValid(s) && s.outsideConnectedInputs == []
    ensures Resync(s) == PromoteFirstOutput(PromoteOpenInputs(StripLinks(s).0).0)
  {
    StripLinksSpec(s);
    var s1 := StripLinks(s).0;
    PromoteOpenInputsSpec(s1);
    var s2 := PromoteOpenInputs(s1).0;
    assert RestoreLinks(s2, []) == (s2, Pass);
  }

  /** Step 4 on a state without boundary links adds at most one link, into
      the OutputsNode and from a node other than the InputsNode. */
  lemma FirstOutputLinks(s: GroupState)
    requires StateValid(s)
    requires forall c :: c in s.graph.connections ==> !IsBoundaryLink(c, s.inputsId, s.outputsId)
    ensures PromoteFirstOutput(s).1 == Pass
    ensures PromoteFirstOutput(s).0.inputsOutputs == s.inputsOutputs
    ensures forall c :: c in PromoteFirstOutput(s).0.graph.connections ==> c.source != s.inputsId
    ensures forall c :: c in PromoteFirstOutput(s).0.graph.connections && c.target != s.outputsId <==>
      c in s.graph.connections
    ensures forall c, d ::
      (c in PromoteFirstOutput(s).0.graph.connections && d in PromoteFirstOutput(s).0.graph.connections &&
       c.target == s.outputsId && d.target == s.outputsId) ==> c == d
  {
    PromoteFirstOutputSpec(s);
    OpenOutputsDefined(s);
  }

  /** Resync is not idempotent: while some input is open, every further
      resync adds InputsNode outputs again. */
  lemma ResyncRepeats(s: GroupState)
    requires StateValid(s) && s.outsideConnectedInputs == []
    requires OpenInputs(StripLinks(s).0) != []
    ensures |Resync(Resync(s).0).0.inputsOutputs| > |Resync(s).0.inputsOutputs| > |s.inputsOutputs|
  {
    var r := Resync(s).0;
    var s1 := StripLinks(s).0;
    ResyncSpec(s);
    ResyncUnlinked(s);
    ResyncUnlinked(r);
    StripLinksSpec(s);
    StripLinksSpec(r);
    var t1 := StripLinks(r).0;
    var p := OpenInputs(s1)[0];
    UnconnectedInputsMembership(s.graph.nodes, s1.graph.connections, [s.outputsId], p);
    UnconnectedInputsMembership(r.graph.nodes, t1.graph.connections, [r.outputsId], p);
    assert p in OpenInputs(t1);
  }
}
