/** The evaluation of the C engine (calculate.c): three passes over the node list, one per
    precedence class, each folding every node of its class into its successor. */
module Reduction {
  import opened Head
  import opened Utility

  /** The value `do_the_math` computes from a node and its successor. C float division
      by zero yields an infinity or NaN; the model yields 0 there (see `Engine.NoZeroDivisor`
      for why lists the converter builds never get there). */
  function Combine(cur: Rec, next: Rec): real {
    match cur.operand
    case '+' => cur.value + next.value
    case '-' => cur.value - next.value
    case '*' => cur.value * next.value
    case '/' => if next.value == 0.0 then 0.0 else cur.value / next.value
    case '^' => Power(cur.value, Iterations(next.value) + 1)
    case _ => cur.value
  }

  /** calculate.c `do_the_math`. */
  method DoTheMath(cur: Node) returns (result: real)
    requires cur.link != null
    ensures result == Combine(RecOf(cur), RecOf(cur.link))
  {
    result := cur.value;
    match cur.operand {
      case '+' =>
        result := result + cur.link.value;
      case '-' =>
        result := result - cur.link.value;
      case '*' =>
        result := result * cur.link.value;
      case '/' =>
        if cur.link.value == 0.0 {
          result := 0.0;
        } else {
          result := result / cur.link.value;
        }
      case '^' =>
        result := Potency(result, cur.link.value);
      case _ =>
        result := cur.value;
    }
  }

  /** Every node of a class 1..3 has a successor: only the last node could lack one, and
      its class is none of those. */
  predicate Foldable(rs: seq<Rec>) {
    rs == [] || !(1 <= rs[|rs| - 1].countOrder <= 3)
  }

  /** One pass of `calculate` for class `level`, left to right: a node of that class
      hands the combined value to its successor and disappears; the successor is looked
      at next. */
  function Pass(rs: seq<Rec>, level: int): seq<Rec>
    decreases |rs|
  {
    if |rs| < 2 then rs
    else if rs[0].countOrder == level then Pass([rs[1].(value := Combine(rs[0], rs[1]))] + rs[2..], level)
    else [rs[0]] + Pass(rs[1..], level)
  }

  /** The passes for classes 1 to n, in order. */
  function Passes(rs: seq<Rec>, n: nat): seq<Rec>
    decreases n
  {
    if n == 0 then rs else Pass(Passes(rs, n - 1), n)
  }

  /** What `calculate` leaves: the power pass, then multiplication and division, then
      addition and subtraction. */
  function Calc(rs: seq<Rec>): seq<Rec> {
    Pass(Pass(Pass(rs, 1), 2), 3)
  }

  // ----- the shape a pass leaves -----

  /** A node without its value: operator and class. */
  function Kind(r: Rec): Rec {
    r.(value := 0.0)
  }

  function Kinds(rs: seq<Rec>): (ks: seq<Rec>)
    ensures |ks| == |rs|
  {
    seq(|rs|, k requires 0 <= k < |rs| => Kind(rs[k]))
  }

  /** The nodes not of class `level`, in order. */
  function DropLevel(rs: seq<Rec>, level: int): (r: seq<Rec>)
    ensures |r| <= |rs|
    decreases |rs|
  {
    if rs == [] then []
    else (if rs[0].countOrder == level then [] else [rs[0]]) + DropLevel(rs[1..], level)
  }

  lemma KindsAppend(a: seq<Rec>, b: seq<Rec>)
    ensures Kinds(a + b) == Kinds(a) + Kinds(b)
  {
  }

  /** The last node is kept when it is not of the class dropped. */
  lemma {:induction false} DropLevelKeepsLast(rs: seq<Rec>, level: int)
    requires rs != [] && rs[|rs| - 1].countOrder != level
    ensures DropLevel(rs, level) != [] && DropLevel(rs, level)[|DropLevel(rs, level)| - 1] == rs[|rs| - 1]
    decreases |rs|
  {
    if |rs| > 1 {
      assert rs[1..][|rs| - 2] == rs[|rs| - 1];
      DropLevelKeepsLast(rs[1..], level);
    }
  }

  /** Dropping a class depends on the kinds only. */
  lemma {:induction false} DropLevelSameKinds(a: seq<Rec>, b: seq<Rec>, level: int)
    requires Kinds(a) == Kinds(b)
    ensures Kinds(DropLevel(a, level)) == Kinds(DropLevel(b, level))
    decreases |a|
  {
    if a != [] {
      assert Kind(a[0]) == Kinds(a)[0] == Kinds(b)[0] == Kind(b[0]);
      assert Kinds(a[1..]) == Kinds(a)[1..] == Kinds(b)[1..] == Kinds(b[1..]);
      DropLevelSameKinds(a[1..], b[1..], level);
      var ha := if a[0].countOrder == level then [] else [a[0]];
      var hb := if b[0].countOrder == level then [] else [b[0]];
      KindsAppend(ha, DropLevel(a[1..], level));
      KindsAppend(hb, DropLevel(b[1..], level));
    }
  }

  /** A pass removes exactly the nodes of its class and keeps the others in order, with
      their operators and classes; only values change. */
  lemma {:induction false} PassKinds(rs: seq<Rec>, level: int)
    requires rs == [] || rs[|rs| - 1].countOrder != level
    ensures Kinds(Pass(rs, level)) == Kinds(DropLevel(rs, level))
    decreases |rs|
  {
    if |rs| == 1 {
      assert rs[1..] == [];
      assert DropLevel(rs, level) == [rs[0]] + [];
    } else if |rs| >= 2 {
      if rs[0].countOrder == level {
        PassKindsFold(rs, level);
      } else {
        assert rs[1..][|rs| - 2] == rs[|rs| - 1];
        PassKinds(rs[1..], level);
        KindsAppend([rs[0]], Pass(rs[1..], level));
        KindsAppend([rs[0]], DropLevel(rs[1..], level));
      }
    }
  }

  lemma {:induction false} PassKindsFold(rs: seq<Rec>, level: int)
    requires |rs| >= 2 && rs[0].countOrder == level && rs[|rs| - 1].countOrder != level
    ensures Kinds(Pass(rs, level)) == Kinds(DropLevel(rs, level))
    decreases |rs|, 0
  {
    var next := [rs[1].(value := Combine(rs[0], rs[1]))] + rs[2..];
    assert next[|next| - 1] == rs[|rs| - 1] || (|rs| == 2 && next[0].countOrder == rs[1].countOrder);
    PassKinds(next, level);
    assert Kinds(next) == Kinds(rs[1..]);
    DropLevelSameKinds(next, rs[1..], level);
  }

  /** After a pass no node of its class is left, the list is as long as the nodes of the
      other classes, and every class-1..3 node still has a successor. */
  lemma PassShape(rs: seq<Rec>, level: int)
    requires 1 <= level <= 3 && Foldable(rs)
    ensures |Pass(rs, level)| == |DropLevel(rs, level)|
    ensures forall k :: 0 <= k < |Pass(rs, level)| ==> Pass(rs, level)[k].countOrder != level
    ensures Foldable(Pass(rs, level)) && (rs != [] ==> Pass(rs, level) != [])
  {
    PassKinds(rs, level);
    var p := Pass(rs, level);
    var d := DropLevel(rs, level);
    forall k | 0 <= k < |p| ensures p[k].countOrder != level {
      assert Kinds(p)[k] == Kind(p[k]) && Kinds(d)[k] == Kind(d[k]);
      NotDropped(rs, level, k);
    }
    if rs != [] {
      DropLevelKeepsLast(rs, level);
      assert Kinds(p)[|p| - 1] == Kinds(d)[|d| - 1];
    }
  }

  lemma {:induction false} NotDropped(rs: seq<Rec>, level: int, k: int)
    requires 0 <= k < |DropLevel(rs, level)|
    ensures DropLevel(rs, level)[k].countOrder != level
    decreases |rs|
  {
    if rs[0].countOrder == level {
      NotDropped(rs[1..], level, k);
    } else if k > 0 {
      NotDropped(rs[1..], level, k - 1);
    }
  }

  // ----- the loop of calculate -----

  /** The records after the node at k has folded into its successor. */
  function Folded(rs: seq<Rec>, k: nat): (s: seq<Rec>)
    requires k + 1 < |rs|
    ensures |s| == |rs| - 1
  {
    rs[..k] + [rs[k + 1].(value := Combine(rs[k], rs[k + 1]))] + rs[k + 2..]
  }

  /** The inner loop of `calculate` at position k: the records before k are final, and the
      pass still to be made over the rest completes `target`. */
  predicate Pending(rs: seq<Rec>, k: nat, level: int, target: seq<Rec>) {
    k <= |rs| && rs[..k] + Pass(rs[k..], level) == target && Foldable(rs)
  }

  /** A node of class 1..3 that is reached has a successor. */
  lemma PendingLead(rs: seq<Rec>, k: nat, level: int, target: seq<Rec>)
    requires Pending(rs, k, level, target) && k < |rs| && rs[k].countOrder == level && 1 <= level <= 3
    ensures k + 1 < |rs|
  {
  }

  /** The node at k folds into its successor: what is left to do of the pass is the same. */
  lemma FoldStep(rs: seq<Rec>, k: nat, level: int, target: seq<Rec>)
    requires Pending(rs, k, level, target) && k + 1 < |rs| && rs[k].countOrder == level
    ensures Pending(Folded(rs, k), k, level, target)
  {
    var s := Folded(rs, k);
    assert s[..k] == rs[..k];
    assert s[k..] == [rs[k + 1].(value := Combine(rs[k], rs[k + 1]))] + rs[k..][2..];
    assert rs[k..][0] == rs[k] && rs[k..][1] == rs[k + 1];
    assert s[|s| - 1].countOrder == rs[|rs| - 1].countOrder;
  }

  /** The node at k is not of the class: it stays, and the pass goes on after it. */
  lemma SkipStep(rs: seq<Rec>, k: nat, level: int, target: seq<Rec>)
    requires Pending(rs, k, level, target) && k < |rs| && rs[k].countOrder != level
    ensures Pending(rs, k + 1, level, target)
  {
    assert rs[k..][1..] == rs[k + 1..];
    assert rs[..k + 1] == rs[..k] + [rs[k]];
    if k + 1 == |rs| {
      assert rs[k..] == [rs[k]];
    }
  }

  /** Every node of a is one of b. */
  predicate Within(a: seq<Node>, b: seq<Node>) {
    forall j :: 0 <= j < |a| ==> a[j] in b
  }

  /** The then-branch of the inner loop of `calculate`: the node cur at position k writes
      `do_the_math` into its successor and is unlinked. */
  method FoldNode(cur: Node, root: Node?, ghost nodes: seq<Node>, ghost k: nat) returns (r: Node?, ghost rest: seq<Node>)
    requires IsList(root, nodes) && k + 1 < |nodes| && nodes[k] == cur
    modifies nodes
    ensures IsList(r, rest) && rest == nodes[..k] + nodes[k + 1..]
    ensures Within(rest, nodes)
    ensures Recs(rest) == Folded(old(Recs(nodes)), k)
  {
    ghost var before := Recs(nodes);
    assert before[k] == RecOf(cur) && cur.link == nodes[k + 1];
    var v := DoTheMath(cur);
    cur.link.value := v;
    assert Recs(nodes) == before[k + 1 := before[k + 1].(value := v)] by {
      forall j | 0 <= j < |nodes| ensures Recs(nodes)[j] == before[k + 1 := before[k + 1].(value := v)][j] {
        if j != k + 1 {
          assert nodes[j] != nodes[k + 1];
        }
      }
    }
    ghost var written := before[k + 1 := before[k + 1].(value := v)];
    r := DeleteNode(cur, root, nodes, k);
    rest := nodes[..k] + nodes[k + 1..];
    RecsRemove(nodes, k);
    assert written[..k] + written[k + 1..] == Folded(before, k);
  }

  /** One pass of the outer loop of `calculate` for class `level`. */
  method ReducePass(root: Node?, ghost nodes: seq<Node>, level: int) returns (r: Node?, ghost rest: seq<Node>)
    requires IsList(root, nodes) && Foldable(Recs(nodes)) && 1 <= level <= 3
    modifies nodes
    ensures IsList(r, rest) && Recs(rest) == Pass(old(Recs(nodes)), level)
    ensures Within(rest, nodes)
  {
    ghost var target := Pass(Recs(nodes), level);
    r := root;
    rest := nodes;
    var cur := root;
    ghost var k: nat := 0;
    ghost var rs := Recs(nodes);
    assert rs[..0] == [] && rs[0..] == rs;
    while cur != null
      invariant IsList(r, rest) && Within(rest, nodes)
      invariant cur == if k < |rest| then rest[k] else null
      invariant Recs(rest) == rs && Pending(rs, k, level, target)
      decreases |rest| - k
    {
      assert rs[k] == RecOf(cur);
      if cur.countOrder == level {
        PendingLead(rs, k, level, target);
        var next := cur.link;
        FoldStep(rs, k, level, target);
        r, rest := FoldNode(cur, r, rest, k);
        rs := Folded(rs, k);
        cur := next;
      } else {
        SkipStep(rs, k, level, target);
        cur := cur.link;
        k := k + 1;
      }
    }
    assert rs[..k] == rs;
  }

  /** calculate.c `calculate`: for each class 1, 2, 3 in turn (stopping early on an empty
      list) the list is walked once, each node of the class handing `do_the_math` of
      itself and its successor to that successor and being unlinked. What is left holds
      the records `Calc` gives. */
  method Calculate(root: Node?, ghost nodes: seq<Node>) returns (r: Node?, ghost rest: seq<Node>)
    requires IsList(root, nodes) && Foldable(Recs(nodes))
    modifies nodes
    ensures IsList(r, rest) && Recs(rest) == Calc(old(Recs(nodes)))
    ensures Within(rest, nodes)
  {
    ghost var orig := Recs(nodes);
    r := root;
    rest := nodes;
    var cur := r;
    var i := 1;
    while i <= 3
      invariant 1 <= i <= 4 && cur == r
      invariant IsList(r, rest) && Within(rest, nodes)
      invariant Recs(rest) == Passes(orig, i - 1) && Foldable(Recs(rest))
      decreases 4 - i
    {
      var len := ListLen(cur, rest);
      if len == 0 {
        break;
      }
      PassShape(Recs(rest), i);
      r, rest := ReducePass(r, rest, i);
      i := i + 1;
      cur := r;
    }
    assert Calc(orig) == Passes(orig, 3);
  }
}
