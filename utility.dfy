/** The list and arithmetic helpers of the C engine (utility_functions.c). Freeing memory
    is not modelled: a node `free` would release stays allocated and unreachable. */
module Utility {
  import opened Head

  /** utility_functions.c `add_to_list`: the new node is put at the tail. Only links change. */
  method AddToList(newNode: Node, root: Node?, ghost nodes: seq<Node>) returns (r: Node?)
    requires IsList(root, nodes) && newNode !in nodes
    modifies newNode, LastNode(nodes)
    ensures IsList(r, nodes + [newNode])
    ensures Recs(nodes + [newNode]) == old(Recs(nodes)) + [old(RecOf(newNode))]
    ensures r == if nodes == [] then newNode else root
  {
    ghost var all := nodes + [newNode];
    RecsAppend(nodes, newNode);
    newNode.link := null;
    if root == null {
      r := newNode;
    } else {
      var cur := root;
      ghost var k := 0;
      while cur.link != null
        invariant 0 <= k < |nodes| && cur == nodes[k]
        invariant cur.link == if k < |nodes| - 1 then nodes[k + 1] else null
        decreases |nodes| - k
      {
        cur := cur.link;
        k := k + 1;
      }
      assert k == |nodes| - 1;
      cur.link := newNode;
      r := root;
      forall i | 0 <= i < |all| - 1 ensures all[i].link == all[i + 1] {
        if i < k {
          assert all[i] == nodes[i] && all[i + 1] == nodes[i + 1];
          assert nodes[i] != cur;
        }
      }
    }
    forall i | 0 <= i < |all| ensures old(RecOf(all[i])) == RecOf(all[i]) { }
    RecsUnchanged(all);
  }

  /** utility_functions.c `delete_node`: cur, at position k, is unlinked and its own link
      cleared; an empty list stays empty. Only links change. */
  method DeleteNode(cur: Node, root: Node?, ghost nodes: seq<Node>, ghost k: nat) returns (r: Node?)
    requires IsList(root, nodes) && (root == null || (k < |nodes| && nodes[k] == cur))
    modifies nodes
    ensures root == null ==> r == null
    ensures root != null ==> IsList(r, nodes[..k] + nodes[k + 1..]) && cur.link == null
    ensures root != null ==> r == if k == 0 then old(cur.link) else root
    ensures Recs(nodes) == old(Recs(nodes))
  {
    if root == null {
      return null;
    }
    ghost var rest := nodes[..k] + nodes[k + 1..];
    assert forall i :: 0 <= i < k ==> rest[i] == nodes[i];
    assert forall i :: k <= i < |rest| ==> rest[i] == nodes[i + 1];
    if cur == root {
      assert k == 0;
      var temp := root;
      r := temp.link;
      temp.link := null;
      forall i | 0 <= i < |rest| - 1 ensures rest[i].link == rest[i + 1] {
        assert nodes[i + 1] != nodes[0];
      }
    } else {
      var p := root;
      ghost var j := 0;
      while p.link != cur
        invariant 0 <= j < k && p == nodes[j] && p.link == nodes[j + 1]
        decreases k - j
      {
        p := p.link;
        j := j + 1;
      }
      assert j == k - 1;
      var q := p.link;
      p.link := q.link;
      q.link := null;
      r := root;
      forall i | 0 <= i < |rest| - 1 ensures rest[i].link == rest[i + 1] {
        if i < k - 1 {
          assert nodes[i] != p && nodes[i] != q;
        } else if i >= k {
          assert nodes[i + 1] != p && nodes[i + 1] != q;
        }
      }
      assert rest != [] ==> rest[|rest| - 1].link == null by {
        if k < |nodes| - 1 {
          assert nodes[|nodes| - 1] != p && nodes[|nodes| - 1] != q;
        }
      }
    }
    assert Distinct(rest) by {
      forall i, i' | 0 <= i < i' < |rest| ensures rest[i] != rest[i'] {
        var a := if i < k then i else i + 1;
        var b := if i' < k then i' else i' + 1;
        assert rest[i] == nodes[a] && rest[i'] == nodes[b];
      }
    }
    forall i | 0 <= i < |nodes| ensures old(RecOf(nodes[i])) == RecOf(nodes[i]) { }
    RecsUnchanged(nodes);
  }

  /** utility_functions.c `list_len`. */
  method ListLen(root: Node?, ghost nodes: seq<Node>) returns (count: int)
    requires IsList(root, nodes)
    ensures count == |nodes|
  {
    var cur := root;
    count := 0;
    while cur != null
      invariant 0 <= count <= |nodes|
      invariant cur == if count < |nodes| then nodes[count] else null
      decreases |nodes| - count
    {
      count := count + 1;
      cur := cur.link;
    }
  }

  /** base multiplied by itself n - 1 times, for n >= 1. */
  function Power(base: real, n: nat): real
    decreases n
  {
    if n <= 1 then base else base * Power(base, n - 1)
  }

  /** How often the loop of `potency` runs: the number of integers i >= 0 with
      i < expo - 1. */
  function Iterations(expo: real): (n: nat) {
    if expo <= 1.0 then 0
    else
      var f := (expo - 1.0).Floor;
      if f as real == expo - 1.0 then f else f + 1
  }

  lemma IterationsCount(expo: real, i: nat)
    ensures (i as real) < expo - 1.0 <==> i < Iterations(expo)
  {
  }

  /** utility_functions.c `potency`, with the float loop counter compared as a real. The
      C `int` counter is taken to be wide enough. */
  method Potency(base: real, expo: real) returns (result: real)
    ensures result == Power(base, Iterations(expo) + 1)
  {
    var i: nat := 0;
    result := base;
    IterationsCount(expo, 0);
    while (i as real) < expo - 1.0
      invariant i <= Iterations(expo)
      invariant result == Power(base, i + 1)
      decreases Iterations(expo) - i
    {
      result := result * base;
      i := i + 1;
      IterationsCount(expo, i);
    }
    IterationsCount(expo, i);
  }

  /** For a whole exponent n >= 1, `potency` is the n-th power; for any exponent up to 1,
      0 included, the loop does not run and the base comes back. */
  lemma PotencyWhole(base: real, n: nat)
    ensures n >= 1 ==> Iterations(n as real) + 1 == n
    ensures n <= 1 ==> Power(base, Iterations(n as real) + 1) == base
  {
    if n >= 1 {
      assert ((n as real) - 1.0).Floor == n - 1;
    }
  }

  /** The exponent laws of the power `potency` computes. */
  lemma {:induction false} PowerAdd(base: real, m: nat, n: nat)
    requires m >= 1 && n >= 1
    ensures Power(base, m + n) == Power(base, m) * Power(base, n)
    decreases n
  {
    if n > 1 {
      PowerAdd(base, m, n - 1);
    }
  }

  /** utility_functions.c `end_program`: the program ends when the line starts with '0';
      an empty line reads its terminating NUL. */
  function EndProgram(input: string): (r: int)
    ensures r == 1 || r == 0
    ensures r == 1 <==> |input| > 0 && input[0] == '0'
  {
    if |input| > 0 && input[0] == '0' then 1 else 0
  }
}
