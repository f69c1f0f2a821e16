/** The reader of the C engine (convert_str_to_data.c): it turns a line such as "12+3*4="
    into a list of nodes, one per number and the operator character after it. */
module ConvertStr {
  import opened Base
  import opened Head
  import opened Utility
  import Number

  /** The character at i of a NUL-terminated C string holding s: past the end it is the
      terminating NUL. */
  function CharAt(s: string, i: nat): char {
    if i < |s| then s[i] else '\0'
  }

  predicate IsDigit(c: char) {
    '0' <= c <= '9'
  }

  /** The precedence class `operand_detect` gives an operator character: 1 binds tightest,
      0 ends the expression, -1 is no operator. */
  function CountOrder(c: char): (order: int)
    ensures -1 <= order <= 3
    ensures order == -1 <==> c !in "+-*/^="
  {
    if c == '+' || c == '-' then 3
    else if c == '*' || c == '/' then 2
    else if c == '^' then 1
    else if c == '=' then 0
    else -1
  }

  /** convert_str_to_data.c `operand_detect`: the class of ch goes into the node, which
      comes back unless ch is no operator. */
  method OperandDetect(ch: char, newNode: Node) returns (r: Node?)
    modifies newNode
    ensures newNode.countOrder == CountOrder(ch)
    ensures r == if CountOrder(ch) == -1 then null else newNode
    ensures newNode.value == old(newNode.value) && newNode.operand == old(newNode.operand)
    ensures newNode.link == old(newNode.link)
  {
    if ch == '+' || ch == '-' {
      newNode.countOrder := 3;
    } else if ch == '*' || ch == '/' {
      newNode.countOrder := 2;
    } else if ch == '^' {
      newNode.countOrder := 1;
    } else if ch == '=' {
      newNode.countOrder := 0;
    } else {
      newNode.countOrder := -1;
      return null;
    }
    r := newNode;
  }

  /** The length of the run of decimal digits starting at i. */
  function RunLength(s: string, i: nat): (n: nat)
    requires i <= |s|
    ensures i + n <= |s|
    ensures forall k :: i <= k < i + n ==> IsDigit(s[k])
    ensures !IsDigit(CharAt(s, i + n))
    decreases |s| - i
  {
    if i < |s| && IsDigit(s[i]) then 1 + RunLength(s, i + 1) else 0
  }

  /** No digit run of s overflows the MAX_ARR-element buffers of `digits_detect` and
      `transform_to_one` (the latter also stores the terminating NUL). */
  predicate FitsBuffers(s: string) {
    forall i :: 0 <= i <= |s| ==> RunLength(s, i) < MAX_ARR
  }

  /** A float holding one decimal digit, as `digits_detect` stores it. */
  predicate IsDigitValue(x: real) {
    0 <= x.Floor <= 9 && x.Floor as real == x
  }

  /** The character `transform_to_one` writes for a digit float, `(char)x + 48`. */
  function DigitCharOf(x: real): char
    requires IsDigitValue(x)
  {
    (x.Floor + 48) as char
  }

  /** The number whose decimal digits, most significant first, are ds. */
  function DigitsNumber(ds: seq<real>): nat
    requires forall k :: 0 <= k < |ds| ==> IsDigitValue(ds[k])
    decreases |ds|
  {
    if ds == [] then 0
    else
      assert IsDigitValue(ds[|ds| - 1]);
      10 * DigitsNumber(ds[..|ds| - 1]) + ds[|ds| - 1].Floor
  }

  /** What `strtod` reads from a string that starts with decimal digits: their value. */
  function StrtodDigits(s: string): nat {
    Number.DigitsValue(s[..RunLength(s, 0)])
  }

  /** The digit characters in ds are those of the number DigitsNumber(ds). */
  lemma {:induction false} DigitCharsValue(str: string, ds: seq<real>)
    requires |str| == |ds| && (forall k :: 0 <= k < |ds| ==> IsDigitValue(ds[k]))
    requires forall k :: 0 <= k < |ds| ==> str[k] == DigitCharOf(ds[k])
    ensures Number.AllDigits(str) && Number.DigitsValue(str) == DigitsNumber(ds)
    decreases |ds|
  {
    if ds != [] {
      var n := |ds| - 1;
      DigitCharsValue(str[..n], ds[..n]);
    }
  }

  /** convert_str_to_data.c `transform_to_one`: the n digits are written out as characters,
      NUL-terminated, and read back with `strtod`; no digits read as 0. */
  method TransformToOne(arr: array<real>, n: int) returns (finalVal: real)
    requires 0 <= n < MAX_ARR && n <= arr.Length
    requires forall k :: 0 <= k < n ==> IsDigitValue(arr[k])
    ensures finalVal == DigitsNumber(arr[..n]) as real
  {
    var str := new char[MAX_ARR];
    for i := 0 to n
      invariant forall k :: 0 <= k < i ==> str[k] == DigitCharOf(arr[k])
    {
      str[i] := DigitCharOf(arr[i]);
    }
    str[n] := '\0';
    DigitCharsValue(str[..n], arr[..n]);
    assert RunLength(str[..], 0) == n by {
      RunLengthOfDigits(str[..], n);
    }
    assert str[..][..n] == str[..n];
    finalVal := StrtodDigits(str[..]) as real;
  }

  /** A string of n digits followed by a non-digit has a run of n at its start. */
  lemma {:induction false} RunLengthOfDigits(s: string, n: nat)
    requires n < |s| && Number.AllDigits(s[..n]) && !IsDigit(s[n])
    ensures RunLength(s, 0) == n
  {
    assert forall k :: 0 <= k < n ==> s[..n][k] == s[k];
  }

  /** The digits of a run, one float each. */
  function DigitValues(s: string): (ds: seq<real>)
    requires Number.AllDigits(s)
    ensures |ds| == |s| && forall k :: 0 <= k < |s| ==> IsDigitValue(ds[k])
  {
    seq(|s|, k requires 0 <= k < |s| => Number.DigitValue(s[k]) as real)
  }

  lemma {:induction false} DigitValuesNumber(s: string)
    requires Number.AllDigits(s)
    ensures DigitsNumber(DigitValues(s)) == Number.DigitsValue(s)
    decreases |s|
  {
    if s != [] {
      var n := |s| - 1;
      assert DigitValues(s)[..n] == DigitValues(s[..n]);
      DigitValuesNumber(s[..n]);
    }
  }

  /** convert_str_to_data.c `digits_detect`: the run of digits at i, stored one digit per
      float, is turned into its value; i is advanced past the run. */
  method DigitsDetect(str: string, i: nat) returns (r: real, jumps: nat)
    requires i <= |str| && RunLength(str, i) < MAX_ARR
    ensures jumps == i + RunLength(str, i)
    ensures r == NumberAt(str, i) as real
  {
    var digitArr := new real[MAX_ARR];
    var n := 0;
    jumps := i;
    ghost var run := RunLength(str, i);
    while IsDigit(CharAt(str, jumps))
      invariant n == jumps - i && n <= run
      invariant forall k :: 0 <= k < n ==> digitArr[k] == Number.DigitValue(str[i + k]) as real
      decreases run - n
    {
      digitArr[n] := ((str[jumps] as int) - 48) as real;
      n := n + 1;
      jumps := jumps + 1;
    }
    assert digitArr[..n] == DigitValues(str[i..jumps]);
    DigitValuesNumber(str[i..jumps]);
    r := TransformToOne(digitArr, n);
  }

  /** The number whose digits start at i (0 when there are none). */
  function NumberAt(s: string, i: nat): nat
    requires i <= |s|
  {
    Number.DigitsValue(s[i..i + RunLength(s, i)])
  }

  /** The character after the digits that start at i. */
  function OperatorAt(s: string, i: nat): char
    requires i <= |s|
  {
    CharAt(s, i + RunLength(s, i))
  }

  /** What `convert_str_to_data` reads from position i on: None where it gives up (a number
      that is 0 or missing, or a character after it that is no operator), otherwise the
      records of the nodes it appends. It stops after the '=' node, or at the end of the
      string. */
  function Convert(s: string, i: nat): Option<seq<Rec>>
    requires i <= |s|
    decreases |s| - i
  {
    if CharAt(s, i) == '\0' then Some([])
    else
      var j := i + RunLength(s, i);
      var v := NumberAt(s, i);
      var c := OperatorAt(s, i);
      if v == 0 || CountOrder(c) == -1 then Option.None
      else if CountOrder(c) == 0 then Some([Rec(v as real, c, 0)])
      else
        match Convert(s, j + 1)
        case None => Option.None
        case Some(rs) => Some([Rec(v as real, c, CountOrder(c))] + rs)
  }

  /** The records read so far, in front of what is still to be read. */
  function Prepend(acc: seq<Rec>, rest: Option<seq<Rec>>): Option<seq<Rec>> {
    match rest
    case None => Option.None
    case Some(rs) => Some(acc + rs)
  }

  lemma PrependAppend(acc: seq<Rec>, x: Rec, rest: Option<seq<Rec>>)
    ensures Prepend(acc, Prepend([x], rest)) == Prepend(acc + [x], rest)
  {
    if rest.Some? {
      assert acc + ([x] + rest.value) == (acc + [x]) + rest.value;
    }
  }

  /** One round of the reader at i, in terms of what has been read before it: the number
      runs to `next` and the operator character follows it. */
  lemma ConvertRound(s: string, i: nat, next: nat, acc: seq<Rec>, target: Option<seq<Rec>>)
    requires i <= |s| && CharAt(s, i) != '\0' && next == i + RunLength(s, i)
    requires target == Prepend(acc, Convert(s, i))
    ensures var v := NumberAt(s, i);
      var c := OperatorAt(s, i);
      var rec := Rec(v as real, c, CountOrder(c));
      && (v == 0 || CountOrder(c) == -1 ==> target == Option.None)
      && (v != 0 && CountOrder(c) == 0 ==> target == Some(acc + [rec]))
      && (v != 0 && CountOrder(c) > 0 ==>
            next < |s| && target == Prepend(acc + [rec], Convert(s, next + 1)))
  {
    var v := NumberAt(s, i);
    var c := OperatorAt(s, i);
    var rec := Rec(v as real, c, CountOrder(c));
    if v != 0 && CountOrder(c) > 0 {
      assert Convert(s, i) == Prepend([rec], Convert(s, next + 1));
      PrependAppend(acc, rec, Convert(s, next + 1));
    }
  }

  /** At the terminating NUL the reader has read everything. */
  lemma ConvertEnd(s: string, i: nat, acc: seq<Rec>, target: Option<seq<Rec>>)
    requires i <= |s| && CharAt(s, i) == '\0' && target == Prepend(acc, Convert(s, i))
    ensures target == Some(acc)
  {
    assert acc + [] == acc;
  }

  /** Nothing read yet. */
  lemma ConvertStart(s: string)
    ensures Convert(s, 0) == Prepend([], Convert(s, 0))
  {
    if Convert(s, 0).Some? {
      assert [] + Convert(s, 0).value == Convert(s, 0).value;
    }
  }

  /** The start of a round of `convert_str_to_data` (lines 7-19): a fresh node gets the
      number at i and, when the character after it is an operator, that operator. `pass`
      counts the two parts found. */
  method ReadNode(str: string, i: nat) returns (newNode: Node, pass: int, next: nat)
    requires i <= |str| && RunLength(str, i) < MAX_ARR
    ensures fresh(newNode) && newNode.link == null
    ensures next == i + RunLength(str, i)
    ensures pass == (if NumberAt(str, i) != 0 then 1 else 0) + (if CountOrder(OperatorAt(str, i)) != -1 then 1 else 0)
    ensures pass >= 2 ==> RecOf(newNode) == Rec(NumberAt(str, i) as real, OperatorAt(str, i), CountOrder(OperatorAt(str, i)))
  {
    pass := 0;
    newNode := new Node();
    var v;
    v, next := DigitsDetect(str, i);
    newNode.value := v;
    if v != 0.0 {
      pass := pass + 1;
    }
    var c := CharAt(str, next);
    var detected := OperandDetect(c, newNode);
    if detected != null {
      pass := pass + 1;
      newNode.operand := c;
    }
  }

  /** The records read so far, rs, stand in front of what the reader still finds from i
      on, and together they make up target. */
  predicate Unread(str: string, i: nat, rs: seq<Rec>, target: Option<seq<Rec>>) {
    i <= |str| && target == Prepend(rs, Convert(str, i))
  }

  /** A round of `convert_str_to_data` (lines 7-29) on the list so far, whose records
      stand in front of what the reader still finds from i on: the node read at i is
      appended when both its parts were found. The class of the node comes back as
      `order`, -1 when the round failed. */
  method Round(str: string, i: nat, root: Node?, ghost nodes: seq<Node>, ghost target: Option<seq<Rec>>)
    returns (r: Node?, ghost all: seq<Node>, order: int, next: nat)
    requires Unread(str, i, Recs(nodes), target) && CharAt(str, i) != '\0' && RunLength(str, i) < MAX_ARR
    requires IsList(root, nodes)
    modifies LastNode(nodes)
    ensures next == i + RunLength(str, i) && -1 <= order <= 3
    ensures order == -1 ==> target == Option.None
    ensures order != -1 ==> IsList(r, all) && |all| == |nodes| + 1 && all[..|nodes|] == nodes && fresh(all[|nodes|])
    ensures order == 0 ==> target == Some(Recs(all))
    ensures order > 0 ==> Unread(str, next + 1, Recs(all), target)
  {
    var newNode, pass;
    ghost var rs := Recs(nodes);
    newNode, pass, next := ReadNode(str, i);
    ConvertRound(str, i, next, rs, target);
    if pass >= 2 {
      ghost var rec := Rec(NumberAt(str, i) as real, OperatorAt(str, i), CountOrder(OperatorAt(str, i)));
      assert RecOf(newNode) == rec;
      order := newNode.countOrder;
      r := AddToList(newNode, root, nodes);
      all := nodes + [newNode];
      assert Recs(all) == rs + [rec];
      assert all[..|nodes|] == nodes;
    } else {
      r, all, order := root, nodes, -1;
    }
  }

  /** convert_str_to_data.c `convert_str_to_data`: each round reads a number and the
      character after it into a fresh node and appends it, or frees the list and gives
      NULL when either is missing. The list it builds holds the records `Convert` reads.
      Its one caller (main.c) always hands it an empty list. */
  method ConvertStrToData(str: string, root: Node?) returns (r: Node?, ghost all: seq<Node>)
    requires root == null && FitsBuffers(str)
    ensures Convert(str, 0).None? ==> r == null
    ensures Convert(str, 0).Some? ==> IsList(r, all) && Recs(all) == Convert(str, 0).value
    ensures r == null <==> Convert(str, 0).None? || Convert(str, 0) == Some([])
  {
    var i: nat := 0;
    r := root;
    all := [];
    ghost var target := Convert(str, 0);
    ConvertStart(str);
    while CharAt(str, i) != '\0'
      invariant IsList(r, all) && Unread(str, i, Recs(all), target)
      invariant all != [] ==> fresh(all[|all| - 1])
      decreases |str| - i
    {
      var order, next;
      r, all, order, next := Round(str, i, r, all, target);
      if order == -1 {
        return null, [];
      }
      if order == 0 {
        return;
      }
      i := next + 1;
    }
    ConvertEnd(str, i, Recs(all), target);
  }
}
