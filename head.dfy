/** The node record of the C engine (head.h:4-12) and the view of a linked list of nodes
    as a sequence. */
module Head {
  const MAX_CHAR := 126
  const MAX_ARR := 26

  /** What a node holds apart from its link: the number read, the operator character
      after it and that operator's precedence class. C `float` is modelled as `real`. */
  datatype Rec = Rec(value: real, operand: char, countOrder: int)

  /** head.h `node`. */
  class Node {
    var value: real
    var operand: char
    var countOrder: int
    var link: Node?

    /** A freshly allocated node. `malloc` leaves the fields undefined; the model starts
        them at fixed values that the engine overwrites before it reads them. */
    constructor()
      ensures link == null
    {
      value := 0.0;
      operand := '\0';
      countOrder := -1;
      link := null;
    }
  }

  /** The last node of a list, the only one whose link an append changes. */
  function LastNode(nodes: seq<Node>): set<Node> {
    if nodes == [] then {} else {nodes[|nodes| - 1]}
  }

  /** No node occurs twice. */
  predicate Distinct(nodes: seq<Node>) {
    forall i, j :: 0 <= i < j < |nodes| ==> nodes[i] != nodes[j]
  }

  /** Following the links from root visits exactly `nodes`: each links to the next and
      the last links to NULL. */
  ghost predicate Linked(root: Node?, nodes: seq<Node>)
    reads nodes
  {
    && (if nodes == [] then root == null else root == nodes[0])
    && (forall i :: 0 <= i < |nodes| - 1 ==> nodes[i].link == nodes[i + 1])
    && (nodes != [] ==> nodes[|nodes| - 1].link == null)
  }

  /** root heads a NULL-terminated list whose nodes, in order, are `nodes`. */
  ghost predicate IsList(root: Node?, nodes: seq<Node>)
    reads nodes
  {
    Linked(root, nodes) && Distinct(nodes)
  }

  function RecOf(n: Node): Rec
    reads n
  {
    Rec(n.value, n.operand, n.countOrder)
  }

  /** The contents of the nodes, in list order. */
  function Recs(nodes: seq<Node>): (rs: seq<Rec>)
    reads nodes
    ensures |rs| == |nodes|
  {
    seq(|nodes|, k requires 0 <= k < |nodes| reads nodes => RecOf(nodes[k]))
  }

  /** Contents are a function of the nodes' fields other than the link. */
  twostate lemma RecsUnchanged(nodes: seq<Node>)
    requires forall i :: 0 <= i < |nodes| ==> old(RecOf(nodes[i])) == RecOf(nodes[i])
    ensures old(Recs(nodes)) == Recs(nodes)
  {
  }

  /** Unlinking the node at position k removes its record from the contents. */
  lemma RecsRemove(nodes: seq<Node>, k: nat)
    requires k < |nodes|
    ensures Recs(nodes[..k] + nodes[k + 1..]) == Recs(nodes)[..k] + Recs(nodes)[k + 1..]
  {
    var rest := nodes[..k] + nodes[k + 1..];
    assert forall i :: 0 <= i < k ==> rest[i] == nodes[i];
    assert forall i :: k <= i < |rest| ==> rest[i] == nodes[i + 1];
  }

  /** Appending a node appends its record. */
  lemma RecsAppend(nodes: seq<Node>, n: Node)
    ensures Recs(nodes + [n]) == Recs(nodes) + [RecOf(n)]
  {
  }
}
