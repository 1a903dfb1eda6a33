# Node groups for the rete editor, modelled in Dafny

The plugin lets a rete node editor fold a part of a graph into a single
*node group*. The group node stands for a whole inner editor (a
`GroupEditor`). Two pseudo-nodes inside it stand for the group's
boundary:

- the `InputsNode` offers one output per outer input;
- the `OutputsNode` takes one input per outer output.

A transformer (`NodeGroupTransformer`) searches a host editor for groups
of nodes that match a template editor. It replaces each match by a node
group.

The model covers the helpers in `src/utils.ts`, the unique-name search
and the transformer in `src/NodeGroupsHelper.ts`, the group editor in
`src/GroupEditor.ts`, and the three node classes in `src/nodes/`. Each
part keeps the source's form:

- **Pure helpers become functions and lemmas.** `incrementStringNumber`,
  the regular-expression match behind it, and the candidate sequence of
  the unique-name search are datatypes, functions and lemmas.
- **Loops become methods.** The loops of `findPositions`,
  `compareControls`, `findUnconnectedOutputs`/`findUnconnectedInputs` and
  `getUniqueIdentifier`/`getUniqueNestedIdentifier` are methods with loop
  invariants. Each is proved equal to a specification function, whose
  meaning is then proved in lemmas.
- **Mutable objects become classes.** `GroupEditor`, `InputsNode`,
  `OutputsNode`, `NodeGroupNode`, `NodeGroupTransformer` and the
  transformation record `traverseNode` fills are classes whose methods
  update their fields in place.
- **Each method has a reference function.** Every method is proved to
  leave exactly the state given by a function of the old state:
  - `AddNodeOp`, `Resync` and the other group editor operations;
  - `Regenerate` for the group node;
  - `WalkNode`, `TransformOp` and `NodeGroupsOp` for the transformer.

  Lemmas then state what those functions guarantee.

The host editor (rete's `NodeEditor` and its ClassicPreset nodes) is
modelled only as far as the plugin relies on it: the `Rete` module. Nodes
are values with ordered port and control records, and connections are
values. The store refuses a duplicate or missing id and the removal of a
node still in use. Every store operation takes the verdict of rete's event
pipe as a parameter (`accepted`). The random `getUID()` becomes a
deterministic fresh id, one character longer than every id in use.

Behaviours of the source that the model exhibits and proves:

- **`compareControls`**
  - It only checks the controls of its first node, so it is not
    symmetric (`Utils.ControlsMatchAsymmetric`).
- **`incrementStringNumber`**
  - It turns `""` into `"2"` and `"out"` into `"out2"`.
  - Because `.` does not match a line terminator, it drops everything
    before the last line break (`Utils.IncrementDropsTextBeforeLineBreak`).
- **The group editor's map and outside links**
  - Nothing ever writes the group editor's `inputsNodeMap`. So every
    outside connection notification is refused with "Invalid identifier"
    (`GroupEditors.OuterInputsRefused`, `GroupNodes.OutsideLinksIgnored`).
  - `outerInputDisconnected` appends the identifier to
    `outsideConnectedInputs` instead of removing it. It can only be
    reached after a map entry exists, which never happens.
- **The boundary resync**
  - It is not idempotent: while an inner input is open, each resync adds
    InputsNode outputs again (`GroupResync.ResyncRepeats`).
  - It gives only the first open output an OutputsNode input, because the
    loop returns in its first round.
- **The group node's port regeneration**
  - `removeAllOutputs` walks the keys of the inputs, which
    `removeAllInputs` has just emptied. So every regeneration after the
    first throws "port already added" at the first output
    (`GroupNodes.RegenerateAgain`).
- **The transformer**
  - `groupOutputConnections` is never filled, and the recorded group input
    links are never applied.
  - `transform` throws, keeping its earlier changes, in two cases
    (`Transformers.TransformBlocked`, `Transformers.TransformRepeated`):
    - a recorded node still has a connection that was not recorded;
    - a node was recorded twice.
  - Its promise is never awaited, so that error is lost.
  - The group editor ends up with the links into its OutputsNode that
    each resync made while the nodes moved, plus the recorded connections
    added back. rete draws connection ids at random, and the model knows
    only that a resync link's id is new in the group editor. So a recorded
    connection is refused when a resync link took its id
    (`Transformers.ReattachAdds`, `Transformers.TransformSpec`).
- **`clear`**
  - After an accepted `clear` the boundary nodes come back with the ports
    they had, because their port maps are kept objects.

## Model

| member | source | states |
|---|---|---|
| Identifiers.GetUniqueIdentifier | src/NodeGroupsHelper.ts:194-199 | returns the first candidate (the identifier, then its successive increments) that is not a key of the record |
| Identifiers.GetUniqueNestedIdentifier | src/NodeGroupsHelper.ts:186-191 | returns the first candidate that no element of the list has as the value of the property |
| Identifiers.FindByProperty | src/NodeGroupsHelper.ts:187 | finds an element whose property equals the value, and none exactly when no element has it |
| Identifiers.UniqueKey | src/NodeGroupsHelper.ts:186-199 | the result is never taken, and is the identifier itself when that is not taken |
| Identifiers.UniqueIndex | src/NodeGroupsHelper.ts:195-197 | the number of increments performed: every earlier candidate is taken, the reached one is not |
| Identifiers.FirstFreeIndex | src/NodeGroupsHelper.ts:195-197 | from a point where all earlier candidates are taken, the search reaches a free candidate |
| Identifiers.UniqueKeyIsFirst | src/NodeGroupsHelper.ts:186-199 | the result is the first free candidate: no free candidate comes earlier |
| Identifiers.UniqueIndexBound | src/NodeGroupsHelper.ts:195-197 | the loops stop after at most as many increments as there are taken names |
| Identifiers.CandidateClosed | src/NodeGroupsHelper.ts:196 | the k-th candidate is the base of the identifier followed by the (first number + k - 1) |
| Identifiers.CandidatesDistinct | src/NodeGroupsHelper.ts:195-197 | no candidate is tried twice |
| Identifiers.CandidateNotOriginal | src/NodeGroupsHelper.ts:195-197 | no increment gives back the starting identifier |
| Utils.IncrementStringNumber | src/utils.ts:75-99 | the result is non-empty and ends in a digit |
| Utils.MatchedAt | src/utils.ts:77-89 | group 1 of the match is the text from the last line start to the trailing digits, and group 2 is the trailing digits, undefined when there are none |
| Utils.IncrementAt | src/utils.ts:75-99 | the result is the matched base followed by the trailing number plus one, or by "2" |
| Utils.IncrementAppendsTwo | src/utils.ts:95-97 | a single line without a trailing number gets "2" appended |
| Utils.IncrementTrailingNumber | src/utils.ts:91-94 | a trailing number is replaced by its successor |
| Utils.IncrementNoLineTerminator | src/utils.ts:77-80 | the result contains no line terminator |
| Utils.IncrementDropsTextBeforeLineBreak | src/utils.ts:77-80 | the result depends only on the text after the last line break |
| Utils.IncrementChanges | src/utils.ts:75-99 | the result never equals the input |
| Utils.IncrementExamples | src/utils.ts:75-99 | "" gives "2", "out" gives "out2", "out2" gives "out3" |
| Utils.ParseDecimalOfDecimal | src/utils.ts:93-94 | parseInt of the decimal form of n is n |
| Utils.FindPositions | src/utils.ts:4-15 | the loop returns the positions of the output on the nodes with the caption, in node order |
| Utils.PositionsMembership | src/utils.ts:4-15 | a position is reported exactly for each node with the caption that has the output |
| Utils.PositionsDistinct | src/utils.ts:4-15 | with unique node ids, no position is reported twice |
| Utils.WithCaption | src/utils.ts:6 | keeps exactly the nodes with the caption, and unique ids stay unique |
| Utils.CompareControls | src/utils.ts:17-37 | the loop answers true exactly when every control of the first node has an equal control under the same key on the second |
| Utils.ControlsMatchIgnoresExtra | src/utils.ts:17-37 | controls only the second node has never make the comparison fail |
| Utils.ControlsMatchAsymmetric | src/utils.ts:17-37 | the comparison is not symmetric |
| Utils.FindUnconnectedOutputs | src/utils.ts:39-55 | the loops return the outputs without an outgoing connection, in node then key order, skipping excluded nodes |
| Utils.FreeOutputs | src/utils.ts:45-52 | the inner loop returns the outputs of one node that no connection leaves from |
| Utils.UnconnectedOutputsMembership | src/utils.ts:39-55 | an output is reported exactly when its node is not excluded and no connection leaves from it |
| Utils.FindUnconnectedInputs | src/utils.ts:57-73 | the loops return the inputs without an incoming connection, in node then key order, skipping excluded nodes |
| Utils.FreeInputs | src/utils.ts:63-70 | the inner loop returns the inputs of one node that no connection arrives at |
| Utils.UnconnectedInputsMembership | src/utils.ts:57-73 | an input is reported exactly when its node is not excluded and no connection arrives at it |
| Rete.FindIncoming | src/utils.ts:65 | finds a connection into the given input, and none exactly when no connection arrives there |
| Rete.FindOutgoing | src/utils.ts:47 | finds a connection from the given output, and none exactly when no connection leaves there |
| Rete.RemoveEachSpec | src/nodes/NodeGroupNode.ts:58-60 | removing present connections with distinct ids one by one never fails and removes exactly those |
| BoundaryNodes.ListedInputsNode | src/nodes/InputsNode.ts:11-13 | an InputsNode is a node captioned "Inputs" |
| BoundaryNodes.ListedOutputsNode | src/nodes/OutputsNode.ts:8-10 | an OutputsNode is a node captioned "Outputs" |
| BoundaryNodes.InputsNode.constructor | src/nodes/InputsNode.ts:11-13 | a new InputsNode has the caption "Inputs", no outputs and no values |
| BoundaryNodes.InputsNode.AddInput | src/nodes/InputsNode.ts:15-17 | adding an input always throws |
| BoundaryNodes.InputsNode.AddOutput | src/GroupEditor.ts:132-135 | adds the output unless its key is present, which throws and changes nothing |
| BoundaryNodes.InputsNode.SetValues | src/nodes/InputsNode.ts:19-21 | replaces the stored values and nothing else |
| BoundaryNodes.InputsNode.Data | src/nodes/InputsNode.ts:23-28 | returns the stored values, and throws while none are set |
| BoundaryNodes.OutputsNode.constructor | src/nodes/OutputsNode.ts:8-10 | a new OutputsNode has the caption "Outputs" and no inputs |
| BoundaryNodes.OutputsNode.AddOutput | src/nodes/OutputsNode.ts:12-14 | adding an output always throws |
| BoundaryNodes.OutputsNode.AddInput | src/GroupEditor.ts:149 | adds the input unless its key is present, which throws and changes nothing |
| BoundaryNodes.OutputsNode.Data | src/nodes/OutputsNode.ts:19-21 | yields the empty mapping |
| GroupResync.NewConnectionId | src/GroupEditor.ts:116 | a new connection's id is not used in the graph |
| GroupResync.BoundaryLinks | src/GroupEditor.ts:122 | selects exactly the connections that leave the InputsNode or enter the OutputsNode |
| GroupResync.StripLinksSpec | src/GroupEditor.ts:121-125 | step 1 never fails, and leaves exactly the connections that are not boundary links; nothing else changes |
| GroupResync.OpenInputsDefined | src/GroupEditor.ts:128-133 | every open input lies on a node other than the OutputsNode and has a readable port |
| GroupResync.PromoteInputAdds | src/GroupEditor.ts:131-136 | the guard always holds: the new output is appended under the first unused key derived from the input's key |
| GroupResync.PromoteInputsSpec | src/GroupEditor.ts:129-137 | the loop never fails and appends one output per position, in order, keeping keys unique |
| GroupResync.PromoteOpenInputsSpec | src/GroupEditor.ts:127-137 | step 2 never fails, keeps every existing InputsNode output and appends one per open input; nothing else changes |
| GroupResync.ConnectInputsNodeSpec | src/GroupEditor.ts:110-118 | fails with Invalid identifier exactly when the output or the map entry is missing, with a TypeError exactly when the mapped node is missing; otherwise adds one connection from that output to the mapped input |
| GroupResync.RestoreLinksSpec | src/GroupEditor.ts:139-142 | step 3 only appends connections that leave the InputsNode, and fails only as connectInputsNode does |
| GroupResync.RestoreLinksUnmapped | src/GroupEditor.ts:139-142 | with an empty map, any link to restore fails with Invalid identifier before changing anything |
| GroupResync.OpenOutputsDefined | src/GroupEditor.ts:144-147 | every open output lies on a node other than the InputsNode and has a readable port |
| GroupResync.PromoteFirstOutputSpec | src/GroupEditor.ts:143-153 | step 4 never fails; with an open output, the OutputsNode gains exactly one input under a new key and one connection from the first open output to it; otherwise nothing changes |
| GroupResync.FirstOutputLinks | src/GroupEditor.ts:143-153 | after step 1, step 4 adds at most one link into the OutputsNode and none from the InputsNode |
| GroupResync.ResyncWithoutOutsideLinks | src/GroupEditor.ts:139-142 | with no recorded outside link, a resync is steps 1, 2 and 4 |
| GroupResync.ResyncSpec | src/GroupEditor.ts:120-154 | a resync keeps the state valid, only extends the two port maps (the OutputsNode by one input at most), changes nothing else but connections, fails only in step 3, never fails without outside links, and always fails with them and an empty map |
| GroupResync.ResyncUnlinked | src/GroupEditor.ts:120-154 | without outside links: one new InputsNode output per open input, none of them connected, at most one link into the OutputsNode, and every other connection kept exactly when it was not a boundary link |
| GroupResync.ResyncRepeats | src/GroupEditor.ts:127-137 | a second resync adds InputsNode outputs again while an input is open |
| GroupEditors.FindLink | src/GroupEditor.ts:79 | finds the connection from the InputsNode output to the mapped input, and none exactly when there is none |
| GroupEditors.ResyncPortless | src/GroupEditor.ts:120-154 | with only port-less nodes, no connection and an empty map, a resync changes nothing |
| GroupEditors.AddBoundaryStage | src/GroupEditor.ts:23-24 | adding the two boundary nodes to an empty graph leaves just those two nodes and no connection |
| GroupEditors.ConstructedSpec | src/GroupEditor.ts:19-25 | a new group editor holds just its two boundary nodes, no port, no connection, no map entry and no recorded link |
| GroupEditors.ClearSpec | src/GroupEditor.ts:51-59 | an accepted clear leaves just the two boundary nodes, with the ports they had; a vetoed one changes nothing |
| GroupEditors.AddNodeSpec | src/GroupEditor.ts:27-31 | addNode is refused exactly for a present id; a veto changes nothing; an applied addition appends the node and the resync keeps the state valid |
| GroupEditors.RemoveNodeSpec | src/GroupEditor.ts:33-37 | removeNode is refused for a missing node and for a node in use; it applies exactly otherwise when accepted, removing that node |
| GroupEditors.AddConnectionSpec | src/GroupEditor.ts:39-43 | addConnection is refused exactly for a present id; without a resync an applied connection is appended and nothing else changes |
| GroupEditors.RemoveConnectionSpec | src/GroupEditor.ts:45-49 | removeConnection is refused exactly for a missing id; without a resync an applied removal drops that connection and nothing else |
| GroupEditors.OuterInputsRefused | src/GroupEditor.ts:64-86 | with an empty map both outside notifications fail with Invalid identifier and change nothing |
| GroupEditors.OperationsKeepUnmapped | src/GroupEditor.ts:15-17 | no operation ever adds a map entry or a recorded outside link |
| GroupEditors.ClearKeepsUnmapped | src/GroupEditor.ts:51-59 | clear adds no map entry and no recorded outside link |
| GroupEditors.GroupEditor.constructor | src/GroupEditor.ts:19-25 | a new editor is in the constructed state, with fresh boundary nodes |
| GroupEditors.GroupEditor.AddNode | src/GroupEditor.ts:27-31 | updates the editor as addNode followed by a resync prescribes |
| GroupEditors.GroupEditor.RemoveNode | src/GroupEditor.ts:33-37 | updates the editor as removeNode followed by a resync prescribes |
| GroupEditors.GroupEditor.AddConnection | src/GroupEditor.ts:39-43 | updates the editor as addConnection prescribes, resyncing only when asked |
| GroupEditors.GroupEditor.RemoveConnection | src/GroupEditor.ts:45-49 | updates the editor as removeConnection prescribes, resyncing only when asked |
| GroupEditors.GroupEditor.Clear | src/GroupEditor.ts:51-59 | updates the editor as clear prescribes |
| GroupEditors.GroupEditor.OuterInputConnected | src/GroupEditor.ts:64-68 | connects the InputsNode output, records the key and resyncs; a failure stops it |
| GroupEditors.GroupEditor.OuterInputDisconnected | src/GroupEditor.ts:73-86 | checks the key, removes the inner connection, records the key and resyncs; a failure stops it |
| GroupEditors.GroupEditor.GetOuterInputs | src/GroupEditor.ts:88-97 | returns one input per InputsNode output, with its socket and label, in order |
| GroupEditors.GroupEditor.GetOuterOutputs | src/GroupEditor.ts:99-108 | returns one output per OutputsNode input, with its socket and label, in order |
| GroupEditors.GroupEditor.ConnectInputsNode | src/GroupEditor.ts:110-118 | updates the graph as connectInputsNode prescribes, or fails with its error and changes nothing |
| GroupEditors.GroupEditor.UpdateIO | src/GroupEditor.ts:120-154 | leaves the state given by the four resync steps |
| GroupEditors.GroupEditor.RemoveBoundaryLinks | src/GroupEditor.ts:121-125 | performs step 1 |
| GroupEditors.GroupEditor.AddInputsNodeOutputs | src/GroupEditor.ts:127-137 | performs step 2 |
| GroupEditors.GroupEditor.PromoteOne | src/GroupEditor.ts:131-136 | performs one round of step 2 on the InputsNode's outputs |
| GroupEditors.GroupEditor.RestoreInputsNodeLinks | src/GroupEditor.ts:139-142 | performs step 3 over the recorded outside links |
| GroupEditors.GroupEditor.AddOutputsNodeInput | src/GroupEditor.ts:143-153 | performs step 4 |
| GroupNodes.RemoveKeys | src/nodes/NodeGroupNode.ts:63-77 | removing keys one by one keeps exactly the ports under other keys |
| GroupNodes.DeadLinks | src/nodes/NodeGroupNode.ts:57 | selects exactly the host connections that use a port the group node no longer has |
| GroupNodes.AddPortsFresh | src/nodes/NodeGroupNode.ts:43-55 | adding ports with distinct new keys never throws and appends them in order |
| GroupNodes.AddPortsClash | src/nodes/NodeGroupNode.ts:43-55 | adding a port under a present key throws at once |
| GroupNodes.RegenerateFirst | src/nodes/NodeGroupNode.ts:38-61 | the first regeneration gives the node exactly the group's outer inputs and outputs and removes exactly the dead host connections |
| GroupNodes.RegenerateAgain | src/nodes/NodeGroupNode.ts:38-77 | any later regeneration renews the inputs but throws at the first output, so outputs and dead connections stay |
| GroupNodes.OutsideLinksIgnored | src/nodes/NodeGroupNode.ts:28-36 | with an empty map both notifications fail with Invalid identifier and nothing changes |
| GroupNodes.NodeGroupNode.constructor | src/nodes/NodeGroupNode.ts:19-26 | a new group node is captioned "NodeGroup" and holds the ports of a first regeneration |
| GroupNodes.NodeGroupNode.InputConnectionCreated | src/nodes/NodeGroupNode.ts:28-31 | tells the group's editor, then regenerates |
| GroupNodes.NodeGroupNode.InputConnectionRemoved | src/nodes/NodeGroupNode.ts:33-36 | tells the group's editor, then regenerates |
| GroupNodes.NodeGroupNode.UpdateIO | src/nodes/NodeGroupNode.ts:38-61 | leaves the ports and host graph that the regeneration prescribes |
| GroupNodes.NodeGroupNode.AddInputs | src/nodes/NodeGroupNode.ts:43-48 | adds the outer inputs in order, stopping at the first present key |
| GroupNodes.NodeGroupNode.AddOutputs | src/nodes/NodeGroupNode.ts:50-55 | adds the outer outputs in order, stopping at the first present key |
| GroupNodes.NodeGroupNode.RemoveLinks | src/nodes/NodeGroupNode.ts:57-60 | removes the dead connections from the host one by one |
| GroupNodes.NodeGroupNode.RemoveAllInputs | src/nodes/NodeGroupNode.ts:63-69 | leaves no input and the outputs untouched |
| GroupNodes.NodeGroupNode.RemoveAllOutputs | src/nodes/NodeGroupNode.ts:71-77 | removes the outputs whose keys are input keys, and no other |
| GroupNodes.NodeGroupNode.AddInput | src/nodes/NodeGroupNode.ts:46 | adds the input unless its key is present, which throws |
| GroupNodes.NodeGroupNode.AddOutput | src/nodes/NodeGroupNode.ts:53 | adds the output unless its key is present, which throws |
| GroupNodes.NodeGroupNode.Data | src/nodes/NodeGroupNode.ts:79-80 | hands the values to the group's InputsNode |
| Transformers.OpenOutputsOnNodes | src/NodeGroupsHelper.ts:55-65 | every open output of a template lies on one of its nodes, so the caption lookup is defined |
| Transformers.NewIds | src/NodeGroupsHelper.ts:160-178 | the ids of the new boundary nodes and group node are distinct and unused in the host |
| Transformers.PromotedExtends | src/NodeGroupsHelper.ts:119-125 | a promotion adds one group input link under a name no earlier link has |
| Transformers.WalkNodeExtends | src/NodeGroupsHelper.ts:93-153 | a successful walk records the start node first, and only appends host nodes, host connections and group input links with distinct names |
| Transformers.WalkInputsExtends | src/NodeGroupsHelper.ts:98-145 | the input loop only appends to the record in that way |
| Transformers.WalkInputExtends | src/NodeGroupsHelper.ts:102-144 | one input key only appends to the record in that way |
| Transformers.WalkInputsAccept | src/NodeGroupsHelper.ts:98-145 | when the loop goes through, each key is a template input, connected in the host wherever the template connects it |
| Transformers.WalkNodeAccepts | src/NodeGroupsHelper.ts:93-153 | a successful walk has matching controls and every host input accepted in that way |
| Transformers.WalkInputsLeaf | src/NodeGroupsHelper.ts:98-145 | on nodes nothing feeds, the loop goes through exactly when the template node has every key |
| Transformers.WalkLeaf | src/NodeGroupsHelper.ts:93-153 | at nodes nothing feeds, the walk records the node and succeeds exactly when the controls match and the template node has every host input |
| Transformers.DetachSpec | src/NodeGroupsHelper.ts:162-166 | detaching distinct present connections never fails and removes exactly those |
| Transformers.DetachKeeps | src/NodeGroupsHelper.ts:162-166 | detaching keeps the nodes and every connection not recorded |
| Transformers.DetachNodes | src/NodeGroupsHelper.ts:162-166 | detaching never changes the nodes or adds a connection |
| Transformers.NotedSpec | src/NodeGroupsHelper.ts:162-165 | over unique connection ids, the connections noted for distinct ids are exactly the host connections with those ids, and no two share an id |
| Transformers.DetachNoted | src/NodeGroupsHelper.ts:162-166 | detaching distinct present ids notes, in order, the connection each id names before any removal |
| Transformers.MoveNodesSpec | src/NodeGroupsHelper.ts:168-172 | moving distinct, present, unused nodes never fails: they leave the host and join the group editor, and nothing else changes |
| Transformers.MoveNodesBlocked | src/NodeGroupsHelper.ts:168-172 | moving fails when a connection still uses one of the nodes |
| Transformers.MoveNodesMissing | src/NodeGroupsHelper.ts:168-172 | moving fails when one of the nodes is not in the host |
| Transformers.MoveNodesRepeated | src/NodeGroupsHelper.ts:168-172 | moving fails when a node is listed twice |
| Transformers.ReattachSpec | src/NodeGroupsHelper.ts:174-176 | reattaching keeps the group editor valid and changes neither its nodes nor its boundary ports |
| Transformers.ReattachAdds | src/NodeGroupsHelper.ts:174-176 | reattaching noted connections of distinct ids keeps the editor's connections and adds exactly the noted ones whose id the editor does not already hold |
| Transformers.AddNodeLinksInto | src/GroupEditor.ts:27-31 | adding a node to a group editor whose connections all enter its OutputsNode, with no outside link recorded, keeps every connection entering the OutputsNode |
| Transformers.MoveNodesLinks | src/NodeGroupsHelper.ts:168-172 | moving nodes into such a group editor keeps it valid and keeps every one of its connections entering its OutputsNode |
| Transformers.LinkStage | src/NodeGroupsHelper.ts:168-176 | after moving and reattaching, each group connection enters the OutputsNode or is a recorded host connection; each recorded host connection is there unless a link into the OutputsNode already holds its id |
| Transformers.MoveStage | src/NodeGroupsHelper.ts:168-172 | after detaching, the recorded nodes move into the new group editor |
| Transformers.PlaceStage | src/NodeGroupsHelper.ts:174-179 | reattaching and placing the group node leave the host with exactly the unrecorded nodes and connections plus the group node |
| Transformers.PlaceGroupNodeSpec | src/NodeGroupsHelper.ts:178-179 | the group node is appended to the host with the group editor's boundary ports, and nothing else changes |
| Transformers.PlacedByNode | src/NodeGroupsHelper.ts:178-179 | constructing the group node and adding it to the host place it as stated |
| Transformers.TransformOpPasses | src/NodeGroupsHelper.ts:158-179 | when the first two loops pass, transform is reattach then place |
| Transformers.TransformSpec | src/NodeGroupsHelper.ts:158-183 | on a transformable record, transform succeeds: the host loses exactly the recorded connections and nodes and gains the group node; the group editor holds its boundary nodes and the moved nodes; each of its connections enters its OutputsNode or is a recorded host connection, and each recorded host connection is there unless a link into the OutputsNode already took its id |
| Transformers.TransformBlocked | src/NodeGroupsHelper.ts:158-183 | an unrecorded connection on a recorded node makes transform throw |
| Transformers.TransformRepeated | src/NodeGroupsHelper.ts:158-183 | a node recorded twice makes transform throw |
| Transformers.TransformationRecord.constructor | src/NodeGroupsHelper.ts:78-83 | a new record is empty |
| Transformers.NodeGroupTransformer.constructor | src/NodeGroupsHelper.ts:38-40 | keeps the host editor |
| Transformers.NodeGroupTransformer.TransformNodeGroups | src/NodeGroupsHelper.ts:45-49 | leaves the host as the templates, in turn, transform it |
| Transformers.NodeGroupTransformer.TransformNodeGroup | src/NodeGroupsHelper.ts:54-59 | leaves the host as a transform from each open output of the template leaves it |
| Transformers.NodeGroupTransformer.TransformGroupsOutput | src/NodeGroupsHelper.ts:64-70 | leaves the host as a transformation from each seed position leaves it |
| Transformers.NodeGroupTransformer.StartActualTransformation | src/NodeGroupsHelper.ts:75-88 | walks from the seed and transforms a match |
| Transformers.NodeGroupTransformer.TraverseNode | src/NodeGroupsHelper.ts:93-153 | fills the record in place as the walk prescribes, answering the record, null or the thrown error |
| Transformers.NodeGroupTransformer.TraverseInput | src/NodeGroupsHelper.ts:102-144 | handles one input key as the walk prescribes |
| Transformers.NodeGroupTransformer.Transform | src/NodeGroupsHelper.ts:158-183 | leaves the host and the group editor as transform prescribes |
| Transformers.NodeGroupTransformer.Regroup | src/NodeGroupsHelper.ts:162-183 | the three loops and the group node, once the group editor exists |
| Transformers.NodeGroupTransformer.PlaceNode | src/NodeGroupsHelper.ts:178-179 | adds the group node to the host as placing prescribes |
| Transformers.NodeGroupTransformer.DetachConnections | src/NodeGroupsHelper.ts:162-166 | notes and removes each recorded connection, stopping at a missing one |
| Transformers.NodeGroupTransformer.MoveNodesInto | src/NodeGroupsHelper.ts:168-172 | moves each recorded node into the group editor, stopping at a refusal |
| Transformers.NodeGroupTransformer.ReattachConnections | src/NodeGroupsHelper.ts:174-176 | adds each noted connection to the group editor, dropping refusals |

## Left out

- The data engine (`DataflowEngine`, `engine.reset`, `engine.fetchInputs`) is not modelled, and neither is `subEditor.use`: they are foreign code.
- GroupNodes.NodeGroupNode.Data: states only the hand-over of the values to the InputsNode, because the engine's answer is not modelled.
- `NodeGroupPlugin`, `types.ts` and `index.ts` are not part of this model.
- Asynchronous interleaving is left out. Promises run to completion in program order; one that is not awaited still runs, and its error is lost to the caller.
- rete's event pipe is a parameter (`accepted`) of each store operation. Inside the group editor's own resyncs and the transformer, it is taken to accept.
- `getUID()` is random in the source. The model uses deterministic fresh ids (`Rete.FreshId`, `Transformers.NewIds`, `GroupResync.NewConnectionId`) that are unused when taken.
- `parseInt` loses precision beyond 2^53; the model's numbers are unbounded.
- JavaScript lists integer-like object keys first; records here keep insertion order.
- Names inherited from `Object.prototype` are not modelled; the `hasOwnProperty` guards always pass on the records modelled.
- `console.log` in `transform` is left out (output only).
- The fallback of `incrementStringNumber` for a failed match is left out: the regular expression always matches, so it is unreachable.
- The branches of `compareControls` for an undefined control of the first node are left out: a key of a record always holds a control, so they are unreachable.
- The walk is modelled only on templates whose connections join their own nodes and form no cycle (`Transformers.Acyclic`). Each recursive step of the source (src/NodeGroupsHelper.ts:127-143) follows a host connection and a template connection together. It never ends only when a host cycle keeps matching a template cycle, so the model also leaves out cyclic templates on hosts where the source's walk ends.
- The host graph lists the group node with the ports of its first regeneration. Later regenerations change the node object's ports in the model's `NodeGroupNode` class, not the host's copy.
- Node and connection objects are values: aliasing between a node object and the host's copy of it is not modelled.
- GroupEditors.ClearSpec: stated only for editors whose map is empty. By `GroupEditors.ConstructedSpec`, `GroupEditors.OperationsKeepUnmapped` and `GroupEditors.ClearKeepsUnmapped`, that is every editor the source can reach.
