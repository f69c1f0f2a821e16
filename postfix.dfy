/** The infix-to-postfix conversion of the Rust engine, `get_reverse_polish_notation` and
    `flush_operator_stack` (src/lib.rs:221-281). The operator stack is a sequence whose
    last element is the top. */
module Postfix {
  import opened Classifier

  /** src/lib.rs `get_character_precedence`. */
  function CharacterPrecedence(c: char): (p: nat)
    ensures p <= 3
    ensures p == 0 <==> !(c == PLUS || c == MINUS || c == MULTIPLY || c == DIVIDE || c == POWER)
  {
    match c
    case '+' => 1
    case '-' => 1
    case 'x' => 2
    case '/' => 2
    case '^' => 3
    case _ => 0
  }

  /** src/lib.rs `get_precedence`: only a one-character text has a precedence above 0. */
  function Precedence(text: string): (p: nat)
    ensures p <= 3
    ensures p > 0 ==> IsOperatorToken(text) && text[0] != EQUAL
  {
    if |text| == 1 then CharacterPrecedence(text[0]) else 0
  }

  /** The ladder the precedences form: exponent above multiplication and division, which
      are above addition and subtraction; '=' is below all of them. */
  lemma PrecedenceLadder()
    ensures Precedence("+") == Precedence("-") < Precedence("x") == Precedence("/") < Precedence("^")
    ensures Precedence("=") == 0 < Precedence("+")
  {
  }

  /** The stack read from the top down, as `iter().rev()` visits it. */
  function Reversed(s: seq<string>): (r: seq<string>)
    ensures |r| == |s|
  {
    if s == [] then [] else [s[|s| - 1]] + Reversed(s[..|s| - 1])
  }

  /** Reading from the top down visits element |s| - 1 - i at step i. */
  lemma {:induction false} ReversedIndex(s: seq<string>, i: int)
    requires 0 <= i < |s|
    ensures Reversed(s)[i] == s[|s| - 1 - i]
    decreases |s|
  {
    if i > 0 {
      ReversedIndex(s[..|s| - 1], i - 1);
    }
  }

  lemma ReversedPrepend(x: string, s: seq<string>)
    ensures Reversed([x] + s) == Reversed(s) + [x]
  {
    var l := [x] + s;
    forall i | 0 <= i < |l| ensures Reversed(l)[i] == (Reversed(s) + [x])[i] {
      ReversedIndex(l, i);
      if i < |s| {
        ReversedIndex(s, i);
      }
    }
  }

  /** How many operators `flush_operator_stack` moves for an incoming token of precedence
      p: the longest run at the top whose precedences are all at least p. */
  function PopCount(stack: seq<string>, p: nat): (n: nat)
    ensures n <= |stack|
    ensures forall i :: |stack| - n <= i < |stack| ==> Precedence(stack[i]) >= p
    ensures n < |stack| ==> Precedence(stack[|stack| - 1 - n]) < p
    decreases |stack|
  {
    if stack == [] || Precedence(stack[|stack| - 1]) < p then 0
    else 1 + PopCount(stack[..|stack| - 1], p)
  }

  /** src/lib.rs `flush_operator_stack`: walks the operator stack from the top and copies
      operators to the output while their precedence is at least that of the incoming
      token, returning how many it copied. */
  method FlushOperatorStack(output: seq<string>, operatorStack: seq<string>, currentToken: string)
    returns (newOutput: seq<string>, popCount: nat)
    ensures popCount == PopCount(operatorStack, Precedence(currentToken))
    ensures newOutput == output + Reversed(operatorStack[|operatorStack| - popCount..])
  {
    var p := Precedence(currentToken);
    newOutput := output;
    popCount := 0;
    var n := |operatorStack|;
    while popCount < n
      invariant popCount <= n
      invariant forall i :: n - popCount <= i < n ==> Precedence(operatorStack[i]) >= p
      invariant newOutput == output + Reversed(operatorStack[n - popCount..])
    {
      var operator := operatorStack[n - 1 - popCount];
      if Precedence(operator) >= p {
        ReversedPrepend(operator, operatorStack[n - popCount..]);
        assert [operator] + operatorStack[n - popCount..] == operatorStack[n - 1 - popCount..];
        newOutput := newOutput + [operator];
        popCount := popCount + 1;
      } else {
        break;
      }
    }
    PopCountMaximal(operatorStack, p, popCount);
  }

  /** A top run of high-precedence operators bounded by a lower one (or the bottom) has
      exactly PopCount elements. */
  lemma {:induction false} PopCountMaximal(stack: seq<string>, p: nat, n: nat)
    requires n <= |stack|
    requires forall i :: |stack| - n <= i < |stack| ==> Precedence(stack[i]) >= p
    requires n < |stack| ==> Precedence(stack[|stack| - 1 - n]) < p
    ensures PopCount(stack, p) == n
    decreases |stack|
  {
    if n > 0 {
      var s := stack[..|stack| - 1];
      assert forall i :: |s| - (n - 1) <= i < |s| ==> s[i] == stack[i];
      if n - 1 < |s| {
        assert s[|s| - 1 - (n - 1)] == stack[|stack| - 1 - n];
      }
      PopCountMaximal(s, p, n - 1);
    }
  }

  /** The output and the operator stack of the conversion. */
  datatype Conversion = Conversion(output: seq<string>, stack: seq<string>)

  /** One iteration of the token loop of `get_reverse_polish_notation`: a numeric token goes
      to the output; an operator token first moves the operators `flush_operator_stack`
      selects to the output and off the stack, then is pushed; any other token is ignored. */
  function Push(c: Conversion, token: string): Conversion {
    if IsNumericLiteral(token) then
      Conversion(c.output + [token], c.stack)
    else if IsOperatorToken(token) then PushOperatorOnto(c, token)
    else c
  }

  /** The operator branch of `Push`. */
  function PushOperatorOnto(c: Conversion, token: string): Conversion {
    var n := PopCount(c.stack, Precedence(token));
    Conversion(c.output + Reversed(c.stack[|c.stack| - n..]), c.stack[..|c.stack| - n] + [token])
  }

  /** The conversion state after the token loop has seen `tokens`. */
  function Scan(tokens: seq<string>): Conversion
    decreases |tokens|
  {
    if tokens == [] then Conversion([], [])
    else Push(Scan(tokens[..|tokens| - 1]), tokens[|tokens| - 1])
  }

  /** The postfix form: the output of the token loop followed by the remaining operators,
      top first. */
  function ToPostfix(tokens: seq<string>): seq<string> {
    var c := Scan(tokens);
    c.output + Reversed(c.stack)
  }

  /** The operator branch of the token loop of `get_reverse_polish_notation`
      (src/lib.rs:227-237). The source flushes only when the stack is non-empty and the
      incoming precedence does not exceed the top's; in every other case
      `flush_operator_stack` would move nothing, so the two agree. */
  method PushOperator(output: seq<string>, operatorStack: seq<string>, token: string)
    returns (newOutput: seq<string>, newStack: seq<string>)
    ensures Conversion(newOutput, newStack) == PushOperatorOnto(Conversion(output, operatorStack), token)
  {
    newOutput, newStack := output, operatorStack;
    if |newStack| > 0 && Precedence(token) <= Precedence(newStack[|newStack| - 1]) {
      var popCount;
      newOutput, popCount := FlushOperatorStack(newOutput, newStack, token);
      var j := 0;
      while j < popCount
        invariant j <= popCount <= |operatorStack|
        invariant newStack == operatorStack[..|operatorStack| - j]
      {
        newStack := newStack[..|newStack| - 1];
        j := j + 1;
      }
    } else {
      NothingToFlush(output, operatorStack, Precedence(token));
    }
    newStack := newStack + [token];
  }

  /** Below an empty stack or a top of lower precedence nothing is popped. */
  lemma NothingToFlush(output: seq<string>, stack: seq<string>, p: nat)
    requires stack == [] || Precedence(stack[|stack| - 1]) < p
    ensures PopCount(stack, p) == 0
    ensures output + Reversed(stack[|stack| - PopCount(stack, p)..]) == output
    ensures stack[..|stack| - PopCount(stack, p)] == stack
  {
    assert stack[|stack|..] == [];
  }

  /** src/lib.rs `get_reverse_polish_notation`. */
  method GetReversePolishNotation(tokens: seq<string>) returns (output: seq<string>)
    ensures output == ToPostfix(tokens)
  {
    output := [];
    var operatorStack: seq<string> := [];
    var i := 0;
    while i < |tokens|
      invariant 0 <= i <= |tokens|
      invariant Conversion(output, operatorStack) == Scan(tokens[..i])
    {
      var token := tokens[i];
      assert tokens[..i + 1][..i] == tokens[..i];
      var isNumber := ContainsOnlyNumbers(token);
      var isOperator := StrIsOperator(token);
      if isNumber {
        output := output + [token];
      } else if isOperator {
        output, operatorStack := PushOperator(output, operatorStack, token);
      }
      i := i + 1;
    }
    assert tokens[..i] == tokens;
    var k := |operatorStack|;
    ghost var out := output;
    while k > 0
      invariant 0 <= k <= |operatorStack|
      invariant output == out + Reversed(operatorStack[k..])
    {
      ReversedPrepend(operatorStack[k - 1], operatorStack[k..]);
      assert [operatorStack[k - 1]] + operatorStack[k..] == operatorStack[k - 1..];
      output := output + [operatorStack[k - 1]];
      k := k - 1;
    }
    assert operatorStack[0..] == operatorStack;
  }

  // ----- what the conversion preserves -----

  /** Precedences strictly increase from the bottom of the operator stack to its top. */
  predicate Ascending(stack: seq<string>) {
    forall i :: 0 < i < |stack| ==> Precedence(stack[i - 1]) < Precedence(stack[i])
  }

  /** After any prefix of the tokens, the operator stack is strictly ascending in
      precedence, holds only operator tokens, and so has at most four entries. */
  lemma {:induction false} ScanStackAscending(tokens: seq<string>)
    ensures Ascending(Scan(tokens).stack)
    ensures forall i :: 0 <= i < |Scan(tokens).stack| ==> IsOperatorToken(Scan(tokens).stack[i])
    decreases |tokens|
  {
    if tokens != [] {
      var c := Scan(tokens[..|tokens| - 1]);
      ScanStackAscending(tokens[..|tokens| - 1]);
      var token := tokens[|tokens| - 1];
      if !IsNumericLiteral(token) && IsOperatorToken(token) {
        var n := PopCount(c.stack, Precedence(token));
        var s := c.stack[..|c.stack| - n] + [token];
        forall i | 0 < i < |s| ensures Precedence(s[i - 1]) < Precedence(s[i]) {
          if i < |s| - 1 {
            assert s[i - 1] == c.stack[i - 1] && s[i] == c.stack[i];
          }
        }
      }
    }
  }

  /** An ascending stack holds at most four operators: precedences 0, 1, 2 and 3. */
  lemma {:induction false} AscendingBound(stack: seq<string>)
    requires Ascending(stack)
    ensures |stack| <= 4
  {
    if |stack| > 4 {
      AscendingLower(stack, 4);
      assert false;
    }
  }

  lemma {:induction false} AscendingLower(stack: seq<string>, i: nat)
    requires Ascending(stack) && i < |stack|
    ensures Precedence(stack[i]) >= i
  {
    if i > 0 {
      AscendingLower(stack, i - 1);
    }
  }

  /** The tokens the conversion keeps: numeric and operator tokens. */
  function Kept(tokens: seq<string>): (r: seq<string>)
    ensures |r| <= |tokens|
  {
    if tokens == [] then []
    else
      var last := tokens[|tokens| - 1];
      Kept(tokens[..|tokens| - 1]) + (if IsNumericLiteral(last) || IsOperatorToken(last) then [last] else [])
  }

  /** The numeric tokens, in order. */
  function Numbers(tokens: seq<string>): seq<string> {
    if tokens == [] then []
    else
      var last := tokens[|tokens| - 1];
      Numbers(tokens[..|tokens| - 1]) + (if IsNumericLiteral(last) then [last] else [])
  }

  lemma {:induction false} NumbersAppend(a: seq<string>, b: seq<string>)
    ensures Numbers(a + b) == Numbers(a) + Numbers(b)
    decreases |b|
  {
    if b == [] {
      assert a + b == a;
    } else {
      assert (a + b)[..|a + b| - 1] == a + b[..|b| - 1];
      NumbersAppend(a, b[..|b| - 1]);
    }
  }

  lemma {:induction false} NumbersOfOperators(s: seq<string>)
    requires forall i :: 0 <= i < |s| ==> IsOperatorToken(s[i])
    ensures Numbers(s) == []
    decreases |s|
  {
    if s != [] {
      OperatorTokenNotNumeric(s[|s| - 1]);
      NumbersOfOperators(s[..|s| - 1]);
    }
  }

  lemma ReversedOperators(s: seq<string>)
    requires forall i :: 0 <= i < |s| ==> IsOperatorToken(s[i])
    ensures forall i :: 0 <= i < |s| ==> IsOperatorToken(Reversed(s)[i])
  {
    forall i | 0 <= i < |s| ensures IsOperatorToken(Reversed(s)[i]) {
      ReversedIndex(s, i);
    }
  }

  /** The conversion only reorders: no token is lost or invented, apart from those that are
      neither numeric nor operators. */
  lemma {:induction false} ScanPermutes(tokens: seq<string>)
    ensures multiset(Scan(tokens).output) + multiset(Scan(tokens).stack) == multiset(Kept(tokens))
    decreases |tokens|
  {
    if tokens != [] {
      var token := tokens[|tokens| - 1];
      ScanPermutes(tokens[..|tokens| - 1]);
      PushPermutes(Scan(tokens[..|tokens| - 1]), token);
    }
  }

  /** One step of the conversion adds the token to what it holds, unless it ignores it. */
  lemma PushPermutes(c: Conversion, token: string)
    ensures multiset(Push(c, token).output) + multiset(Push(c, token).stack)
      == multiset(c.output) + multiset(c.stack) + multiset(if IsNumericLiteral(token) || IsOperatorToken(token) then [token] else [])
  {
    if !IsNumericLiteral(token) && IsOperatorToken(token) {
      var n := PopCount(c.stack, Precedence(token));
      var k := |c.stack| - n;
      assert c.stack == c.stack[..k] + c.stack[k..];
      ReversedMultiset(c.stack[k..]);
    }
  }

  lemma {:induction false} ReversedMultiset(s: seq<string>)
    ensures multiset(Reversed(s)) == multiset(s)
    decreases |s|
  {
    if s != [] {
      ReversedMultiset(s[..|s| - 1]);
      assert s == s[..|s| - 1] + [s[|s| - 1]];
    }
  }

  /** The postfix form is a permutation of the numeric and operator tokens. */
  lemma ToPostfixPermutes(tokens: seq<string>)
    ensures multiset(ToPostfix(tokens)) == multiset(Kept(tokens))
  {
    ScanPermutes(tokens);
    ReversedMultiset(Scan(tokens).stack);
  }

  /** Numeric tokens leave the conversion in the order they came in. */
  lemma {:induction false} ScanKeepsNumberOrder(tokens: seq<string>)
    ensures Numbers(Scan(tokens).output) == Numbers(tokens)
    decreases |tokens|
  {
    if tokens != [] {
      ScanKeepsNumberOrder(tokens[..|tokens| - 1]);
      ScanStackAscending(tokens[..|tokens| - 1]);
      PushKeepsNumberOrder(Scan(tokens[..|tokens| - 1]), tokens[|tokens| - 1]);
    }
  }

  /** One step of the conversion appends a numeric token to the numbers of the output and
      moves only operators otherwise. */
  lemma PushKeepsNumberOrder(c: Conversion, token: string)
    requires forall i :: 0 <= i < |c.stack| ==> IsOperatorToken(c.stack[i])
    ensures Numbers(Push(c, token).output) == Numbers(c.output) + (if IsNumericLiteral(token) then [token] else [])
  {
    if IsNumericLiteral(token) {
      NumbersAppend(c.output, [token]);
      assert Numbers([token]) == Numbers([]) + [token];
    } else if IsOperatorToken(token) {
      OperatorsMoveNoNumbers(c, token);
    }
  }

  lemma OperatorsMoveNoNumbers(c: Conversion, token: string)
    requires forall i :: 0 <= i < |c.stack| ==> IsOperatorToken(c.stack[i])
    ensures Numbers(PushOperatorOnto(c, token).output) == Numbers(c.output)
  {
    var n := PopCount(c.stack, Precedence(token));
    var moved := Reversed(c.stack[|c.stack| - n..]);
    NumbersAppend(c.output, moved);
    ReversedOperators(c.stack[|c.stack| - n..]);
    NumbersOfOperators(moved);
  }

  lemma ToPostfixKeepsNumberOrder(tokens: seq<string>)
    ensures Numbers(ToPostfix(tokens)) == Numbers(tokens)
  {
    ScanKeepsNumberOrder(tokens);
    ScanStackAscending(tokens);
    var c := Scan(tokens);
    NumbersAppend(c.output, Reversed(c.stack));
    ReversedOperators(c.stack);
    NumbersOfOperators(Reversed(c.stack));
  }
}

/** How the conversion orders two operators of equal or different precedence. */
module Associativity {
  import opened Classifier
  import opened Postfix

  /** The first three tokens of a o1 b: both numbers out, the operator on the stack. */
  lemma ScanThree(a: string, o1: string, b: string)
    requires IsNumericLiteral(a) && IsNumericLiteral(b) && IsOperatorToken(o1)
    ensures Scan([a, o1, b]) == Conversion([a, b], [o1])
  {
    assert Scan([a]) == Conversion([a], []) by {
      assert [a][..0] == [];
      PushNumber(Conversion([], []), a);
    }
    assert Scan([a, o1]) == Conversion([a], [o1]) by {
      assert [a, o1][..1] == [a];
      PushOntoEmpty([a], o1);
    }
    assert Scan([a, o1, b]) == Push(Scan([a, o1]), b) by {
      assert [a, o1, b][..2] == [a, o1];
    }
    PushNumber(Conversion([a], [o1]), b);
  }

  /** A numeric token goes straight to the output. */
  lemma PushNumber(c: Conversion, x: string)
    requires IsNumericLiteral(x)
    ensures Push(c, x) == Conversion(c.output + [x], c.stack)
  {
  }

  /** An operator token is pushed onto an empty stack without moving anything. */
  lemma PushOntoEmpty(out: seq<string>, o: string)
    requires IsOperatorToken(o)
    ensures Push(Conversion(out, []), o) == Conversion(out, [o])
  {
    OperatorTokenNotNumeric(o);
  }

  /** An operator of no higher precedence than the one on the stack moves it out. */
  lemma PushReplaces(out: seq<string>, o1: string, o2: string)
    requires IsOperatorToken(o2) && Precedence(o2) <= Precedence(o1)
    ensures Push(Conversion(out, [o1]), o2) == Conversion(out + [o1], [o2])
  {
    OperatorTokenNotNumeric(o2);
    assert PopCount([o1], Precedence(o2)) == 1;
    assert [o1][0..] == [o1];
    assert Reversed([o1]) == [o1];
  }

  /** An operator of higher precedence than the one on the stack is stacked above it. */
  lemma PushAbove(out: seq<string>, o1: string, o2: string)
    requires IsOperatorToken(o2) && Precedence(o1) < Precedence(o2)
    ensures Push(Conversion(out, [o1]), o2) == Conversion(out, [o1, o2])
  {
    OperatorTokenNotNumeric(o2);
    assert PopCount([o1], Precedence(o2)) == 0;
    assert [o1][1..] == [];
    assert [o1][..1] == [o1];
  }

  /** Operators of equal precedence associate to the left, and a lower-precedence operator
      on the right waits for the left one: a o1 b o2 c becomes a b o1 c o2. This holds for
      '^' too, so 2^3^2 is (2^3)^2 here. */
  lemma LeftFirst(a: string, o1: string, b: string, o2: string, c: string)
    requires IsNumericLiteral(a) && IsNumericLiteral(b) && IsNumericLiteral(c)
    requires IsOperatorToken(o1) && IsOperatorToken(o2)
    requires Precedence(o2) <= Precedence(o1)
    ensures ToPostfix([a, o1, b, o2, c]) == [a, b, o1, c, o2]
  {
    assert Scan([a, o1, b, o2]) == Conversion([a, b, o1], [o2]) by {
      assert [a, o1, b, o2][..3] == [a, o1, b];
      ScanThree(a, o1, b);
      PushReplaces([a, b], o1, o2);
    }
    assert Scan([a, o1, b, o2, c]) == Conversion([a, b, o1, c], [o2]) by {
      assert [a, o1, b, o2, c][..4] == [a, o1, b, o2];
      PushNumber(Conversion([a, b, o1], [o2]), c);
    }
    assert Reversed([o2]) == [o2];
  }

  /** A higher-precedence operator on the right binds first: a o1 b o2 c becomes
      a b c o2 o1. */
  lemma RightFirst(a: string, o1: string, b: string, o2: string, c: string)
    requires IsNumericLiteral(a) && IsNumericLiteral(b) && IsNumericLiteral(c)
    requires IsOperatorToken(o1) && IsOperatorToken(o2)
    requires Precedence(o1) < Precedence(o2)
    ensures ToPostfix([a, o1, b, o2, c]) == [a, b, c, o2, o1]
  {
    assert Scan([a, o1, b, o2]) == Conversion([a, b], [o1, o2]) by {
      assert [a, o1, b, o2][..3] == [a, o1, b];
      ScanThree(a, o1, b);
      PushAbove([a, b], o1, o2);
    }
    assert Scan([a, o1, b, o2, c]) == Conversion([a, b, c], [o1, o2]) by {
      assert [a, o1, b, o2, c][..4] == [a, o1, b, o2];
      PushNumber(Conversion([a, b], [o1, o2]), c);
    }
    ReversedPair(o1, o2);
  }

  lemma ReversedPair(x: string, y: string)
    ensures Reversed([x, y]) == [y, x]
  {
    assert [x, y][..1] == [x];
    assert Reversed([x]) == [x];
  }
}
