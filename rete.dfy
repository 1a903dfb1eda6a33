/** The host graph editor the plugin drives (rete's NodeEditor and its
    ClassicPreset nodes), reduced to plain values: nodes with ordered port and
    control records, connections, and the store operations the plugin calls.
    What the store refuses (a duplicate or missing id, removing a node that a
    connection still uses, a duplicate port key) is an `Err`. */
module Rete {

  /** A socket tag of a port; only equality is observable. */
  type Socket(==, !new)
  /** A control value or a value flowing through the data engine; only
      equality is observable (the source compares with `!==`). */
  type Value(==, !new)

  type NodeId = string
  type ConnectionId = string

  datatype Option<T> = None | Some(value: T)

  datatype Error =
    | NodeAlreadyAdded
    | NodeNotFound
    | NodeInUse
    | ConnectionAlreadyAdded
    | ConnectionNotFound
    | PortAlreadyAdded
    | InputsNodeCantHaveInputs
    | OutputsNodeCantHaveOutputs
    | InvalidIdentifier
    | InnerConnectionMissing
    | ValuesNotSet
    /** A TypeError from reading a property of `undefined`. */
    | Undefined

  datatype Result<T> = Ok(value: T) | Err(error: Error)

  /** The settled state of a promise: fulfilled, or rejected with an error. */
  datatype Outcome = Pass | Fail(error: Error)

  // ---------------------------------------------------------------------
  // Records: JavaScript objects used as dictionaries, own keys in
  // insertion order.

  datatype Entry<V> = Entry(key: string, value: V)
  type Record<V> = seq<Entry<V>>

  function Keys<V>(m: Record<V>): seq<string>
  {
    seq(|m|, i requires 0 <= i < |m| => m[i].key)
  }

  function KeySet<V>(m: Record<V>): set<string>
  {
    set i | 0 <= i < |m| :: m[i].key
  }

  /** An object has each own key once. */
  predicate UniqueKeys<V>(m: Record<V>)
  {
    forall i, j :: 0 <= i < j < |m| ==> m[i].key != m[j].key
  }

  /** `m[k]`: the value stored under `k`, or `undefined`. */
  function Lookup<V>(m: Record<V>, k: string): (r: Option<V>)
    ensures r.Some? <==> k in KeySet(m)
    ensures r.Some? ==> Entry(k, r.value) in m
  {
    if m == [] then None
    else if m[0].key == k then Some(m[0].value)
    else
      assert forall i :: 0 < i < |m| ==> m[i].key == m[1..][i - 1].key;
      Lookup(m[1..], k)
  }

  lemma LookupUnique<V>(m: Record<V>, i: int)
    requires UniqueKeys(m) && 0 <= i < |m|
    ensures Lookup(m, m[i].key) == Some(m[i].value)
  {
    if i > 0 {
      assert m[0].key != m[i].key;
      assert m[1..][i - 1] == m[i];
      LookupUnique(m[1..], i - 1);
    }
  }

  lemma LookupAppend<V>(m: Record<V>, e: Entry<V>, k: string)
    ensures Lookup(m + [e], k) ==
      if k in KeySet(m) then Lookup(m, k) else if k == e.key then Some(e.value) else None
  {
    if m != [] {
      assert (m + [e])[1..] == m[1..] + [e];
      LookupAppend(m[1..], e, k);
    }
  }

  lemma KeysMembership<V>(m: Record<V>, k: string)
    ensures k in Keys(m) <==> k in KeySet(m)
  {
    if k in KeySet(m) {
      var i :| 0 <= i < |m| && m[i].key == k;
      assert Keys(m)[i] == k;
    }
  }

  /** `delete m[k]`. */
  function RemoveKey<V(!new)>(m: Record<V>, k: string): (r: Record<V>)
    ensures forall e :: e in r <==> e in m && e.key != k
    ensures UniqueKeys(m) ==> UniqueKeys(r)
  {
    if m == [] then []
    else
      UniqueKeysTail(m);
      var rest := RemoveKey(m[1..], k);
      if m[0].key == k then rest
      else
        UniqueKeysCons(m[0], rest);
        [m[0]] + rest
  }

  /** Past the first entry of a record with unique keys, the keys stay
      unique and differ from the first one. */
  lemma UniqueKeysTail<V>(m: Record<V>)
    requires m != []
    ensures UniqueKeys(m) ==> UniqueKeys(m[1..]) && forall e :: e in m[1..] ==> e.key != m[0].key
  {
    if UniqueKeys(m) {
      forall e | e in m[1..] ensures e.key != m[0].key {
        var j :| 0 <= j < |m[1..]| && m[1..][j] == e;
        assert m[j + 1] == e;
      }
    }
  }

  /** An entry whose key the record lacks can be put in front of it. */
  lemma UniqueKeysCons<V>(x: Entry<V>, rest: Record<V>)
    ensures UniqueKeys(rest) && (forall e :: e in rest ==> e.key != x.key) ==> UniqueKeys([x] + rest)
  {
    var r := [x] + rest;
    if UniqueKeys(rest) && forall e :: e in rest ==> e.key != x.key {
      forall i, j | 0 <= i < j < |r| ensures r[i].key != r[j].key {
        assert r[j] == rest[j - 1] && r[j] in rest;
        if i > 0 {
          assert r[i] == rest[i - 1];
        }
      }
    }
  }

  // ---------------------------------------------------------------------
  // Nodes, connections and positions (ClassicPreset and types.ts).

  /** A port: the socket it accepts and its display `label` (a reserved
      word in Dafny, hence `caption`). */
  datatype Port = Port(socket: Socket, caption: string)

  /** Which class a node object is an instance of. */
  datatype NodeKind = Ordinary | InputsBoundary | OutputsBoundary | NodeGroup

  datatype Node = Node(
    id: NodeId,
    kind: NodeKind,
    caption: string,
    inputs: Record<Port>,
    outputs: Record<Port>,
    controls: Record<Value>)

  datatype Connection = Connection(
    id: ConnectionId,
    source: NodeId,
    sourceOutput: string,
    target: NodeId,
    targetInput: string)

  datatype InputPosition = InputPosition(node: NodeId, input: string)
  datatype OutputPosition = OutputPosition(node: NodeId, output: string)

  datatype Graph = Graph(nodes: seq<Node>, connections: seq<Connection>)

  function NodeIds(nodes: seq<Node>): set<NodeId>
  {
    set n | n in nodes :: n.id
  }

  function ConnectionIds(cs: seq<Connection>): set<ConnectionId>
  {
    set c | c in cs :: c.id
  }

  predicate UniqueNodeIds(nodes: seq<Node>)
  {
    forall i, j :: 0 <= i < j < |nodes| ==> nodes[i].id != nodes[j].id
  }

  predicate UniqueConnectionIds(cs: seq<Connection>)
  {
    forall i, j :: 0 <= i < j < |cs| ==> cs[i].id != cs[j].id
  }

  predicate NodeValid(n: Node)
  {
    UniqueKeys(n.inputs) && UniqueKeys(n.outputs) && UniqueKeys(n.controls)
  }

  /** What the store keeps true: ids are unique and every object has unique
      keys. The store does not check that a connection's endpoints exist. */
  predicate StoreValid(g: Graph)
  {
    && UniqueNodeIds(g.nodes)
    && UniqueConnectionIds(g.connections)
    && (forall n :: n in g.nodes ==> NodeValid(n))
  }

  /** `editor.getNode(id)`: the first node with that id. */
  function GetNode(nodes: seq<Node>, id: NodeId): (r: Option<Node>)
    ensures r.Some? <==> id in NodeIds(nodes)
    ensures r.Some? ==> r.value in nodes && r.value.id == id
  {
    if nodes == [] then None
    else if nodes[0].id == id then Some(nodes[0])
    else GetNode(nodes[1..], id)
  }

  /** The node with id `id`, which the caller knows is present. */
  function NodeOf(nodes: seq<Node>, id: NodeId): (n: Node)
    requires id in NodeIds(nodes)
    ensures n in nodes && n.id == id
  {
    GetNode(nodes, id).value
  }

  /** With unique ids, `getNode` finds the one node carrying the id. */
  lemma GetNodeUnique(nodes: seq<Node>, n: Node)
    requires UniqueNodeIds(nodes) && n in nodes
    ensures GetNode(nodes, n.id) == Some(n)
  {
    var m := GetNode(nodes, n.id).value;
    var i :| 0 <= i < |nodes| && nodes[i] == n;
    var j :| 0 <= j < |nodes| && nodes[j] == m;
  }

  lemma NodeOfUnique(nodes: seq<Node>, i: int)
    requires UniqueNodeIds(nodes) && 0 <= i < |nodes|
    ensures NodeOf(nodes, nodes[i].id) == nodes[i]
  {
    assert nodes[i] in nodes;
    var n := NodeOf(nodes, nodes[i].id);
    var j :| 0 <= j < |nodes| && nodes[j] == n;
    assert nodes[j].id == nodes[i].id;
  }

  /** `editor.getConnection(id)`: the first connection with that id. */
  function GetConnection(cs: seq<Connection>, id: ConnectionId): (r: Option<Connection>)
    ensures r.Some? <==> id in ConnectionIds(cs)
    ensures r.Some? ==> r.value in cs && r.value.id == id
  {
    if cs == [] then None
    else if cs[0].id == id then Some(cs[0])
    else GetConnection(cs[1..], id)
  }

  lemma GetConnectionUnique(cs: seq<Connection>, c: Connection)
    requires UniqueConnectionIds(cs) && c in cs
    ensures GetConnection(cs, c.id) == Some(c)
  {
    var d := GetConnection(cs, c.id).value;
    var i :| 0 <= i < |cs| && cs[i] == c;
    var j :| 0 <= j < |cs| && cs[j] == d;
  }

  /** `connections.find(c => c.target === node && c.targetInput === input)`. */
  function FindIncoming(cs: seq<Connection>, node: NodeId, input: string): (r: Option<Connection>)
    ensures r.None? <==> forall c :: c in cs ==> !(c.target == node && c.targetInput == input)
    ensures r.Some? ==> r.value in cs && r.value.target == node && r.value.targetInput == input
  {
    if cs == [] then None
    else if cs[0].target == node && cs[0].targetInput == input then Some(cs[0])
    else FindIncoming(cs[1..], node, input)
  }

  /** `connections.find(c => c.source === node && c.sourceOutput === output)`. */
  function FindOutgoing(cs: seq<Connection>, node: NodeId, output: string): (r: Option<Connection>)
    ensures r.None? <==> forall c :: c in cs ==> !(c.source == node && c.sourceOutput == output)
    ensures r.Some? ==> r.value in cs && r.value.source == node && r.value.sourceOutput == output
  {
    if cs == [] then None
    else if cs[0].source == node && cs[0].sourceOutput == output then Some(cs[0])
    else FindOutgoing(cs[1..], node, output)
  }

  /** Whether some connection starts or ends at `id`. */
  predicate InUse(cs: seq<Connection>, id: NodeId)
  {
    exists i :: 0 <= i < |cs| && (cs[i].source == id || cs[i].target == id)
  }

  /** The nodes without the one whose id is `id`. */
  function WithoutNode(nodes: seq<Node>, id: NodeId): (r: seq<Node>)
    ensures forall n :: n in r <==> n in nodes && n.id != id
    ensures UniqueNodeIds(nodes) ==> UniqueNodeIds(r)
    ensures forall x :: x in NodeIds(r) <==> x in NodeIds(nodes) && x != id
  {
    if nodes == [] then []
    else
      UniqueNodeIdsTail(nodes);
      var rest := WithoutNode(nodes[1..], id);
      if nodes[0].id == id then rest
      else
        UniqueNodeIdsCons(nodes[0], rest);
        [nodes[0]] + rest
  }

  /** Past the first node of a list with unique ids, the ids stay unique
      and differ from the first one. */
  lemma UniqueNodeIdsTail(nodes: seq<Node>)
    requires nodes != []
    ensures UniqueNodeIds(nodes) ==>
      UniqueNodeIds(nodes[1..]) && forall n :: n in nodes[1..] ==> n.id != nodes[0].id
  {
    if UniqueNodeIds(nodes) {
      forall n | n in nodes[1..] ensures n.id != nodes[0].id {
        var k :| 0 <= k < |nodes[1..]| && nodes[1..][k] == n;
        assert nodes[k + 1] == n;
      }
    }
  }

  /** A node whose id the list lacks can be put in front of it. */
  lemma UniqueNodeIdsCons(x: Node, rest: seq<Node>)
    ensures UniqueNodeIds(rest) && (forall n :: n in rest ==> n.id != x.id) ==> UniqueNodeIds([x] + rest)
  {
    var r := [x] + rest;
    if UniqueNodeIds(rest) && forall n :: n in rest ==> n.id != x.id {
      forall i, j | 0 <= i < j < |r| ensures r[i].id != r[j].id {
        assert r[j] == rest[j - 1] && r[j] in rest;
        if i > 0 {
          assert r[i] == rest[i - 1];
        }
      }
    }
  }

  /** The connections without those whose id is `id`. */
  function WithoutConnection(cs: seq<Connection>, id: ConnectionId): (r: seq<Connection>)
    ensures forall c :: c in r <==> c in cs && c.id != id
    ensures |r| <= |cs|
  {
    if cs == [] then []
    else if cs[0].id == id then WithoutConnection(cs[1..], id)
    else [cs[0]] + WithoutConnection(cs[1..], id)
  }

  /** A string that no string in `used` equals, because it is one character
      longer than all of them; it stands for the random `getUID()`. */
  function FreshId(used: seq<string>): (r: string)
    ensures r !in used
  {
    seq(MaxLength(used) + 1, _ => '#')
  }

  function MaxLength(used: seq<string>): (n: nat)
    ensures forall u :: u in used ==> |u| <= n
  {
    if used == [] then 0
    else
      var rest := MaxLength(used[1..]);
      if |used[0]| > rest then |used[0]| else rest
  }

  /** The ids of `nodes`, in order (the argument `FreshId` scans). */
  function NodeIdList(nodes: seq<Node>): (ids: seq<NodeId>)
    ensures forall x :: x in ids <==> x in NodeIds(nodes)
  {
    if nodes == [] then [] else [nodes[0].id] + NodeIdList(nodes[1..])
  }

  /** The ids of `cs`, in order. */
  function ConnectionIdList(cs: seq<Connection>): (ids: seq<ConnectionId>)
    ensures forall x :: x in ids <==> x in ConnectionIds(cs)
  {
    if cs == [] then [] else [cs[0].id] + ConnectionIdList(cs[1..])
  }

  // ---------------------------------------------------------------------
  // Store operations of the NodeEditor, as values.

  /** `editor.addNode(n)`: refuses a node whose id is already present. */
  function WithNodeAdded(g: Graph, n: Node): (r: Result<Graph>)
    ensures r.Err? <==> n.id in NodeIds(g.nodes)
    ensures r.Ok? ==> r.value.nodes == g.nodes + [n] && r.value.connections == g.connections
  {
    if n.id in NodeIds(g.nodes) then Err(NodeAlreadyAdded)
    else Ok(Graph(g.nodes + [n], g.connections))
  }

  /** `editor.removeNode(id)`: refuses a missing node and a node that a
      connection still uses. */
  function WithNodeRemoved(g: Graph, id: NodeId): (r: Result<Graph>)
    ensures r == Err(NodeNotFound) <==> id !in NodeIds(g.nodes)
    ensures r == Err(NodeInUse) <==> id in NodeIds(g.nodes) && InUse(g.connections, id)
    ensures r.Ok? ==> r.value == Graph(WithoutNode(g.nodes, id), g.connections)
  {
    if id !in NodeIds(g.nodes) then Err(NodeNotFound)
    else if InUse(g.connections, id) then Err(NodeInUse)
    else Ok(Graph(WithoutNode(g.nodes, id), g.connections))
  }

  /** `editor.addConnection(c)`: refuses a connection whose id is present. */
  function WithConnectionAdded(g: Graph, c: Connection): (r: Result<Graph>)
    ensures r.Err? <==> c.id in ConnectionIds(g.connections)
    ensures r.Ok? ==> r.value == Graph(g.nodes, g.connections + [c])
  {
    if c.id in ConnectionIds(g.connections) then Err(ConnectionAlreadyAdded)
    else Ok(Graph(g.nodes, g.connections + [c]))
  }

  /** `editor.removeConnection(id)`: refuses a missing connection. */
  function WithConnectionRemoved(g: Graph, id: ConnectionId): (r: Result<Graph>)
    ensures r.Err? <==> id !in ConnectionIds(g.connections)
    ensures r.Ok? ==> r.value == Graph(g.nodes, WithoutConnection(g.connections, id))
  {
    if id !in ConnectionIds(g.connections) then Err(ConnectionNotFound)
    else Ok(Graph(g.nodes, WithoutConnection(g.connections, id)))
  }

  lemma NodeAddedValid(g: Graph, n: Node)
    requires StoreValid(g) && NodeValid(n) && WithNodeAdded(g, n).Ok?
    ensures StoreValid(WithNodeAdded(g, n).value)
  {
    var g' := WithNodeAdded(g, n).value;
    forall i, j | 0 <= i < j < |g'.nodes| ensures g'.nodes[i].id != g'.nodes[j].id {
      if j == |g.nodes| {
        assert g.nodes[i] in g.nodes;
      }
    }
  }

  lemma NodeRemovedValid(g: Graph, id: NodeId)
    requires StoreValid(g) && WithNodeRemoved(g, id).Ok?
    ensures StoreValid(WithNodeRemoved(g, id).value)
  {
  }

  lemma ConnectionAddedValid(g: Graph, c: Connection)
    requires StoreValid(g) && WithConnectionAdded(g, c).Ok?
    ensures StoreValid(WithConnectionAdded(g, c).value)
  {
    var g' := WithConnectionAdded(g, c).value;
    forall i, j | 0 <= i < j < |g'.connections|
      ensures g'.connections[i].id != g'.connections[j].id
    {
      if j == |g.connections| {
        assert g.connections[i] in g.connections;
      }
    }
  }

  lemma WithoutConnectionUnique(cs: seq<Connection>, id: ConnectionId)
    requires UniqueConnectionIds(cs)
    ensures UniqueConnectionIds(WithoutConnection(cs, id))
  {
    if cs != [] {
      WithoutConnectionUnique(cs[1..], id);
      var rest := WithoutConnection(cs[1..], id);
      if cs[0].id != id {
        forall j | 0 <= j < |rest| ensures rest[j].id != cs[0].id {
          assert rest[j] in cs[1..];
          var k :| 0 <= k < |cs[1..]| && cs[1..][k] == rest[j];
          assert cs[k + 1] == rest[j];
        }
      }
    }
  }

  lemma ConnectionRemovedValid(g: Graph, id: ConnectionId)
    requires StoreValid(g)
    ensures StoreValid(Graph(g.nodes, WithoutConnection(g.connections, id)))
  {
    WithoutConnectionUnique(g.connections, id);
  }

  /** `removeConnection` on each of `removals` in turn; the first one missing
      fails. */
  function RemoveEach(g: Graph, removals: seq<Connection>): (Graph, Outcome)
    decreases |removals|
  {
    if removals == [] then (g, Pass)
    else match WithConnectionRemoved(g, removals[0].id)
      case Err(e) => (g, Fail(e))
      case Ok(next) => RemoveEach(next, removals[1..])
  }

  lemma ConnectionIdsCons(rs: seq<Connection>)
    requires rs != []
    ensures ConnectionIds(rs) == {rs[0].id} + ConnectionIds(rs[1..])
  {
    assert forall c :: c in rs <==> c == rs[0] || c in rs[1..];
  }

  /** Removing, one by one, connections of the graph whose ids are distinct
      never fails and removes exactly the connections with those ids. */
  lemma {:induction false} RemoveEachSpec(g: Graph, rs: seq<Connection>)
    requires StoreValid(g) && UniqueConnectionIds(rs)
    requires forall r :: r in rs ==> r in g.connections
    ensures RemoveEach(g, rs).1 == Pass
    ensures RemoveEach(g, rs).0.nodes == g.nodes && StoreValid(RemoveEach(g, rs).0)
    ensures forall c :: c in RemoveEach(g, rs).0.connections <==>
      c in g.connections && c.id !in ConnectionIds(rs)
    decreases |rs|
  {
    if rs != [] {
      var r := rs[0];
      assert r.id in ConnectionIds(g.connections);
      var next := Graph(g.nodes, WithoutConnection(g.connections, r.id));
      ConnectionRemovedValid(g, r.id);
      forall x | x in rs[1..] ensures x in next.connections {
        var k :| 0 <= k < |rs[1..]| && rs[1..][k] == x;
        assert rs[k + 1] == x;
      }
      RemoveEachSpec(next, rs[1..]);
      ConnectionIdsCons(rs);
    }
  }

  /** How a NodeEditor operation resolves once its own check gave `r`: a
      thrown error leaves the store as it was; otherwise the event pipe either
      accepts the change (resolves to true) or vetoes it (resolves to false,
      store unchanged). */
  function Settle(g: Graph, r: Result<Graph>, accepted: bool): (out: (Graph, Result<bool>))
    ensures r.Err? ==> out == (g, Err(r.error))
    ensures r.Ok? && accepted ==> out == (r.value, Ok(true))
    ensures r.Ok? && !accepted ==> out == (g, Ok(false))
  {
    match r
    case Err(e) => (g, Err(e))
    case Ok(next) => if accepted then (next, Ok(true)) else (g, Ok(false))
  }

  /** The host editor object (NodeEditor), whose graph its methods update.
      Each method takes the verdict of the event pipe as `accepted`. */
  class Editor {
    var graph: Graph

    ghost predicate Valid()
      reads this
    {
      StoreValid(graph)
    }

    constructor()
      ensures Valid() && graph == Graph([], [])
    {
      graph := Graph([], []);
    }

    method AddNode(n: Node, accepted: bool) returns (r: Result<bool>)
      requires Valid() && NodeValid(n)
      modifies this
      ensures Valid()
      ensures (graph, r) == Settle(old(graph), WithNodeAdded(old(graph), n), accepted)
    {
      if GetNode(graph.nodes, n.id).Some? {
        return Err(NodeAlreadyAdded);
      }
      if !accepted {
        return Ok(false);
      }
      NodeAddedValid(graph, n);
      graph := Graph(graph.nodes + [n], graph.connections);
      r := Ok(true);
    }

    method RemoveNode(id: NodeId, accepted: bool) returns (r: Result<bool>)
      requires Valid()
      modifies this
      ensures Valid()
      ensures (graph, r) == Settle(old(graph), WithNodeRemoved(old(graph), id), accepted)
    {
      if GetNode(graph.nodes, id).None? {
        return Err(NodeNotFound);
      }
      if InUse(graph.connections, id) {
        return Err(NodeInUse);
      }
      if !accepted {
        return Ok(false);
      }
      NodeRemovedValid(graph, id);
      graph := Graph(WithoutNode(graph.nodes, id), graph.connections);
      r := Ok(true);
    }

    method AddConnection(c: Connection, accepted: bool) returns (r: Result<bool>)
      requires Valid()
      modifies this
      ensures Valid()
      ensures (graph, r) == Settle(old(graph), WithConnectionAdded(old(graph), c), accepted)
    {
      if GetConnection(graph.connections, c.id).Some? {
        return Err(ConnectionAlreadyAdded);
      }
      if !accepted {
        return Ok(false);
      }
      ConnectionAddedValid(graph, c);
      graph := Graph(graph.nodes, graph.connections + [c]);
      r := Ok(true);
    }

    method RemoveConnection(id: ConnectionId, accepted: bool) returns (r: Result<bool>)
      requires Valid()
      modifies this
      ensures Valid()
      ensures (graph, r) == Settle(old(graph), WithConnectionRemoved(old(graph), id), accepted)
    {
      if GetConnection(graph.connections, id).None? {
        return Err(ConnectionNotFound);
      }
      if !accepted {
        return Ok(false);
      }
      ConnectionRemovedValid(graph, id);
      graph := Graph(graph.nodes, WithoutConnection(graph.connections, id));
      r := Ok(true);
    }

    /** `clear`: once accepted, every connection and then every node is
        removed. */
    method Clear(accepted: bool) returns (r: bool)
      requires Valid()
      modifies this
      ensures Valid()
      ensures r == accepted
      ensures graph == if accepted then Graph([], []) else old(graph)
    {
      if !accepted {
        return false;
      }
      graph := Graph([], []);
      r := true;
    }
  }
}
