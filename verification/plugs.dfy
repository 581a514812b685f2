// Graph queries of the RBF node tree (RBFNodes/core/plugs.py): the nodes
// linked to a socket, looking through reroute nodes.

module RbfPlugs {
  import opened Wrappers

  /** A node of the tree: its type name, whether it is a reroute, its
    * input and output socket ids, and the fields read by the queries of
    * the model (the object of an object node, the pose index of a pose
    * node, whether a node output node has properties). */
  datatype GraphNode = GraphNode(idName: string, isReroute: bool, inputs: seq<nat>, outputs: seq<nat>,
                                 obj: Option<string>, poseIndex: int, hasProperties: bool)

  /** `links[s]` lists, in link order, the node at the other end of each
    * link of socket s: `from_node` for an input socket, `to_node` for an
    * output socket. */
  datatype Graph = Graph(nodes: seq<GraphNode>, links: seq<seq<nat>>)

  /** Upstream follows input sockets (`getInputNodes`), downstream
    * output sockets (`getOutputNodes`). */
  datatype Direction = Upstream | Downstream

  ghost predicate ValidGraph(g: Graph)
  {
    (forall s :: 0 <= s < |g.links| ==> forall k :: 0 <= k < |g.links[s]| ==> g.links[s][k] < |g.nodes|) &&
    (forall n :: 0 <= n < |g.nodes| ==>
      (forall k :: 0 <= k < |g.nodes[n].inputs| ==> g.nodes[n].inputs[k] < |g.links|) &&
      (forall k :: 0 <= k < |g.nodes[n].outputs| ==> g.nodes[n].outputs[k] < |g.links|) &&
      (g.nodes[n].isReroute ==> |g.nodes[n].inputs| > 0 && |g.nodes[n].outputs| > 0))
  }

  function Sockets(g: Graph, n: nat, dir: Direction): seq<nat>
    requires n < |g.nodes|
  {
    if dir == Upstream then g.nodes[n].inputs else g.nodes[n].outputs
  }

  /** A node the queries may return: an existing, non-reroute node of the
    * requested type (any type for an empty `nodeId`). */
  predicate Found(g: Graph, n: nat, nodeId: string)
  {
    n < |g.nodes| && !g.nodes[n].isReroute && (nodeId == "" || g.nodes[n].idName == nodeId)
  }

  predicate AllFound(g: Graph, r: seq<nat>, nodeId: string)
  {
    forall k :: 0 <= k < |r| ==> Found(g, r[k], nodeId)
  }

  /** The nodes linked to `socket`, in link order and depth first. A
    * reroute is looked through by its first socket, without `allNodes`;
    * with `allNodes` a node of another type is looked through by all its
    * sockets. `fuel` bounds the depth of the recursion. */
  function Collect(g: Graph, dir: Direction, socket: nat, nodeId: string, allNodes: bool, fuel: nat): (r: seq<nat>)
    requires ValidGraph(g) && socket < |g.links|
    ensures AllFound(g, r, nodeId)
    decreases fuel, 1, 0
  {
    FromLinks(g, dir, g.links[socket], nodeId, allNodes, fuel)
  }

  /** The loop over the links of a socket. */
  function FromLinks(g: Graph, dir: Direction, ns: seq<nat>, nodeId: string, allNodes: bool, fuel: nat): (r: seq<nat>)
    requires ValidGraph(g) && forall k :: 0 <= k < |ns| ==> ns[k] < |g.nodes|
    ensures AllFound(g, r, nodeId)
    decreases fuel, 0, |ns|
  {
    if ns == [] then []
    else
      var n := ns[0];
      var here :=
        if g.nodes[n].isReroute then
          (if fuel == 0 then [] else Collect(g, dir, Sockets(g, n, dir)[0], nodeId, false, fuel - 1))
        else if g.nodes[n].idName == nodeId || nodeId == "" then [n]
        else if allNodes then
          (if fuel == 0 then [] else FromPlugs(g, dir, Sockets(g, n, dir), nodeId, allNodes, fuel - 1))
        else [];
      here + FromLinks(g, dir, ns[1..], nodeId, allNodes, fuel)
  }

  /** The nodes found over a list of sockets, one after the other. */
  function FromPlugs(g: Graph, dir: Direction, plugs: seq<nat>, nodeId: string, allNodes: bool, fuel: nat): (r: seq<nat>)
    requires ValidGraph(g) && forall k :: 0 <= k < |plugs| ==> plugs[k] < |g.links|
    ensures AllFound(g, r, nodeId)
    decreases fuel, 2, |plugs|
  {
    if plugs == [] then []
    else Collect(g, dir, plugs[0], nodeId, allNodes, fuel) + FromPlugs(g, dir, plugs[1..], nodeId, allNodes, fuel)
  }

  /** Every directly linked node of the requested type is found, whatever
    * the fuel. */
  lemma {:induction false} DirectNeighboursFound(g: Graph, dir: Direction, ns: seq<nat>, nodeId: string, allNodes: bool, fuel: nat)
    requires ValidGraph(g) && forall k :: 0 <= k < |ns| ==> ns[k] < |g.nodes|
    ensures forall k :: 0 <= k < |ns| && Found(g, ns[k], nodeId) ==> ns[k] in FromLinks(g, dir, ns, nodeId, allNodes, fuel)
    decreases |ns|
  {
    if ns != [] {
      DirectNeighboursFound(g, dir, ns[1..], nodeId, allNodes, fuel);
      forall k | 0 <= k < |ns| && Found(g, ns[k], nodeId)
        ensures ns[k] in FromLinks(g, dir, ns, nodeId, allNodes, fuel)
      {
        if k > 0 {
          assert ns[k] == ns[1..][k - 1];
        }
      }
    }
  }

  /** `getInputNodes(socket, nodeId, allNodes)`. */
  function GetInputNodes(g: Graph, socket: nat, nodeId: string, allNodes: bool, fuel: nat): (r: seq<nat>)
    requires ValidGraph(g) && socket < |g.links|
    ensures AllFound(g, r, nodeId)
    ensures forall k :: 0 <= k < |g.links[socket]| && Found(g, g.links[socket][k], nodeId) ==> g.links[socket][k] in r
  {
    DirectNeighboursFound(g, Upstream, g.links[socket], nodeId, allNodes, fuel);
    Collect(g, Upstream, socket, nodeId, allNodes, fuel)
  }

  /** `getOutputNodes(socket, nodeId, allNodes)`: the mirror image of
    * `getInputNodes`, over output sockets. */
  function GetOutputNodes(g: Graph, socket: nat, nodeId: string, allNodes: bool, fuel: nat): (r: seq<nat>)
    requires ValidGraph(g) && socket < |g.links|
    ensures AllFound(g, r, nodeId)
    ensures forall k :: 0 <= k < |g.links[socket]| && Found(g, g.links[socket][k], nodeId) ==> g.links[socket][k] in r
  {
    DirectNeighboursFound(g, Downstream, g.links[socket], nodeId, allNodes, fuel);
    Collect(g, Downstream, socket, nodeId, allNodes, fuel)
  }

  const ObjectInputId := "RBFObjectInputNode"
  const ObjectOutputId := "RBFObjectOutputNode"

  /** `getObjectFromSocket(socket, source)`: the object of the first
    * object node found, or nothing when none is found. */
  function GetObjectFromSocket(g: Graph, socket: nat, source: bool, fuel: nat): (r: Option<string>)
    requires ValidGraph(g) && socket < |g.links|
    ensures var nodes := if source then GetInputNodes(g, socket, ObjectOutputId, false, fuel)
                         else GetOutputNodes(g, socket, ObjectInputId, false, fuel);
      (|nodes| == 0 ==> r.None?) &&
      (|nodes| > 0 ==> r == g.nodes[nodes[0]].obj && g.nodes[nodes[0]].idName == (if source then ObjectOutputId else ObjectInputId))
  {
    var nodes := if source then GetInputNodes(g, socket, ObjectOutputId, false, fuel)
                 else GetOutputNodes(g, socket, ObjectInputId, false, fuel);
    if |nodes| > 0 then g.nodes[nodes[0]].obj else None
  }
}
