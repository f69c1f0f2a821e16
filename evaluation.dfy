/** What `calculate_expression` (src/lib.rs:156-178) computes: the stages of the Rust
    engine composed, tokenizer, conversion to postfix and evaluation of the postfix list.
    Expressions of any length evaluate to one value or to the divide error; those with one
    and with two operators are worked out exactly. */
module Evaluation {
  import opened Base
  import opened Classifier
  import opened Tokenizer
  import opened Postfix
  import opened Associativity
  import opened Number
  import opened Evaluator

  /** The value of a numeric text, and 0 for a text that does not parse. */
  function NumberValue(x: string): real {
    match ParseNumber(x)
    case Some(v) => v
    case None => 0.0
  }

  // ----- one token of the evaluation loop -----

  lemma NumberStep(stack: seq<real>, t: seq<string>, pow: (real, real) -> real)
    requires |t| > 0 && IsNumericLiteral(t[0]) && ParseNumber(t[0]).Some?
    ensures EvalFrom(stack, t, pow) == EvalFrom(stack + [NumberValue(t[0])], t[1..], pow)
  {
  }

  lemma OperatorStep(stack: seq<real>, t: seq<string>, pow: (real, real) -> real)
    requires |t| > 0 && ParseStrOperator(t[0]).Some? && |stack| >= 2
    ensures EvalFrom(stack, t, pow) ==
      match Calculate(stack[|stack| - 2], stack[|stack| - 1], ParseStrOperator(t[0]).value, pow)
      case Err(e) => Err(e)
      case Ok(v) => EvalFrom(stack[..|stack| - 2] + [v], t[1..], pow)
  {
    OperatorTokenNotNumeric(t[0]);
  }

  /** Every segment of a well-formed token list parses as a number. */
  lemma SegmentParses(t: seq<string>, k: int)
    requires WellFormed(t) && 0 <= k < |t| && k % 2 == 0
    ensures ParseNumber(t[k]) == Some(NumberValue(t[k]))
  {
    assert NoOperatorIn(t[k], 1);
    ParseNumberComplete(t[k]);
  }

  // ----- conversions of short token lists -----

  lemma ToPostfixSingle(x: string)
    requires IsNumericLiteral(x)
    ensures ToPostfix([x]) == [x]
  {
    assert [x][..0] == [];
    assert Scan([x]) == Push(Conversion([], []), x);
    PushNumber(Conversion([], []), x);
    assert Reversed([]) == [];
  }

  lemma ToPostfixThree(x: string, o: string, y: string)
    requires IsNumericLiteral(x) && IsNumericLiteral(y) && IsOperatorToken(o)
    ensures ToPostfix([x, o, y]) == [x, y, o]
  {
    ScanThree(x, o, y);
    assert Reversed([o]) == [o];
  }

  // ----- evaluations of short postfix lists -----

  /** The postfix list x y o. */
  lemma EvalThree(x: string, y: string, o: string, pow: (real, real) -> real)
    requires IsNumericLiteral(x) && IsNumericLiteral(y)
    requires ParseNumber(x).Some? && ParseNumber(y).Some? && ParseStrOperator(o).Some?
    ensures EvalPostfix([x, y, o], pow) ==
      match Calculate(NumberValue(x), NumberValue(y), ParseStrOperator(o).value, pow)
      case Err(e) => Err(e)
      case Ok(v) => Ok([v])
  {
    var vx, vy := NumberValue(x), NumberValue(y);
    var t := [x, y, o];
    NumberStep([], t, pow);
    assert t[1..] == [y, o];
    assert [] + [vx] == [vx];
    NumberStep([vx], [y, o], pow);
    assert [y, o][1..] == [o];
    assert [vx] + [vy] == [vx, vy];
    EvalLast(vx, vy, o, pow);
  }

  /** The tail v c o of a postfix list, evaluated on a stack holding v. */
  lemma EvalTail(v: real, c: string, o: string, pow: (real, real) -> real)
    requires IsNumericLiteral(c) && ParseNumber(c).Some? && ParseStrOperator(o).Some?
    ensures EvalFrom([v], [c, o], pow) ==
      match Calculate(v, NumberValue(c), ParseStrOperator(o).value, pow)
      case Err(e) => Err(e)
      case Ok(w) => Ok([w])
  {
    var vc := NumberValue(c);
    NumberStep([v], [c, o], pow);
    assert [c, o][1..] == [o];
    assert [v] + [vc] == [v, vc];
    EvalLast(v, vc, o, pow);
  }

  /** The postfix list a b o1 c o2: o1 is applied first. */
  lemma EvalLeftFirst(a: string, o1: string, b: string, o2: string, c: string, pow: (real, real) -> real)
    requires IsNumericLiteral(a) && IsNumericLiteral(b) && IsNumericLiteral(c)
    requires ParseNumber(a).Some? && ParseNumber(b).Some? && ParseNumber(c).Some?
    requires ParseStrOperator(o1).Some? && ParseStrOperator(o2).Some?
    ensures EvalPostfix([a, b, o1, c, o2], pow) ==
      match Calculate(NumberValue(a), NumberValue(b), ParseStrOperator(o1).value, pow)
      case Err(e) => Err(e)
      case Ok(v) => EvalFrom([v], [c, o2], pow)
  {
    var va, vb := NumberValue(a), NumberValue(b);
    var t := [a, b, o1, c, o2];
    NumberStep([], t, pow);
    assert t[1..] == [b, o1, c, o2];
    assert [] + [va] == [va];
    NumberStep([va], [b, o1, c, o2], pow);
    assert [b, o1, c, o2][1..] == [o1, c, o2];
    assert [va] + [vb] == [va, vb];
    OperatorStep([va, vb], [o1, c, o2], pow);
    assert [va, vb][..0] == [];
    assert [o1, c, o2][1..] == [c, o2];
    assert forall v: real :: [] + [v] == [v];
  }

  /** The postfix list a b c o2 o1: o2 is applied first. */
  lemma EvalRightFirst(a: string, o1: string, b: string, o2: string, c: string, pow: (real, real) -> real)
    requires IsNumericLiteral(a) && IsNumericLiteral(b) && IsNumericLiteral(c)
    requires ParseNumber(a).Some? && ParseNumber(b).Some? && ParseNumber(c).Some?
    requires ParseStrOperator(o1).Some? && ParseStrOperator(o2).Some?
    ensures EvalPostfix([a, b, c, o2, o1], pow) ==
      match Calculate(NumberValue(b), NumberValue(c), ParseStrOperator(o2).value, pow)
      case Err(e) => Err(e)
      case Ok(v) => EvalFrom([NumberValue(a), v], [o1], pow)
  {
    var va, vb, vc := NumberValue(a), NumberValue(b), NumberValue(c);
    var t := [a, b, c, o2, o1];
    NumberStep([], t, pow);
    assert t[1..] == [b, c, o2, o1];
    assert [] + [va] == [va];
    NumberStep([va], [b, c, o2, o1], pow);
    assert [b, c, o2, o1][1..] == [c, o2, o1];
    assert [va] + [vb] == [va, vb];
    NumberStep([va, vb], [c, o2, o1], pow);
    assert [c, o2, o1][1..] == [o2, o1];
    assert [va, vb] + [vc] == [va, vb, vc];
    OperatorStep([va, vb, vc], [o2, o1], pow);
    assert [va, vb, vc][..1] == [va];
    assert [o2, o1][1..] == [o1];
    assert forall v: real :: [va] + [v] == [va, v];
  }

  /** The last operator o on a stack a v. */
  lemma EvalLast(a: real, v: real, o: string, pow: (real, real) -> real)
    requires ParseStrOperator(o).Some?
    ensures EvalFrom([a, v], [o], pow) ==
      match Calculate(a, v, ParseStrOperator(o).value, pow)
      case Err(e) => Err(e)
      case Ok(w) => Ok([w])
  {
    OperatorStep([a, v], [o], pow);
    assert [a, v][..0] == [];
    assert [o][1..] == [];
    var r := Calculate(a, v, ParseStrOperator(o).value, pow);
    if r.Ok? {
      assert [] + [r.value] == [r.value];
    }
  }

  // ----- whole expressions -----

  /** A lone number evaluates to its value. */
  lemma EvaluateSingle(x: string, pow: (real, real) -> real)
    requires WellFormed([x])
    ensures ParseNumber(x).Some? && Evaluate(Concat([x]), pow) == Ok(NumberValue(x))
  {
    TokenizeConcat([x]);
    SegmentParses([x], 0);
    ToPostfixSingle(x);
    NumberStep([], [x], pow);
    assert [x][1..] == [];
    assert [] + [NumberValue(x)] == [NumberValue(x)];
  }

  /** With one operator the expression evaluates to `calculate` of its two operands, its
      error included. */
  lemma EvaluateBinary(x: string, o: string, y: string, pow: (real, real) -> real)
    requires WellFormed([x, o, y]) && ParseStrOperator(o).Some?
    ensures Evaluate(Concat([x, o, y]), pow) ==
      Calculate(NumberValue(x), NumberValue(y), ParseStrOperator(o).value, pow)
  {
    var t := [x, o, y];
    TokenizeConcat(t);
    SegmentParses(t, 0);
    SegmentParses(t, 2);
    ToPostfixThree(x, o, y);
    EvalThree(x, y, o, pow);
  }

  /** The '=' character is an operator token that names no operation: it consumes both
      operands and leaves nothing, so the expression is invalid. */
  lemma EvaluateEqualSign(x: string, y: string, pow: (real, real) -> real)
    requires WellFormed([x, [EQUAL], y])
    ensures Evaluate(Concat([x, [EQUAL], y]), pow) == Err(InvalidExpression)
  {
    var o := [EQUAL];
    var t := [x, o, y];
    TokenizeConcat(t);
    SegmentParses(t, 0);
    SegmentParses(t, 2);
    ToPostfixThree(x, o, y);
    var vx, vy := NumberValue(x), NumberValue(y);
    NumberStep([], [x, y, o], pow);
    assert [x, y, o][1..] == [y, o];
    assert [] + [vx] == [vx];
    NumberStep([vx], [y, o], pow);
    assert [y, o][1..] == [o];
    assert [vx] + [vy] == [vx, vy];
    OperatorTokenNotNumeric(o);
    assert [o][1..] == [];
  }

  /** Two operators where the right one does not bind tighter: the left operation is
      done first, and the first error stops the evaluation. */
  lemma EvaluateLeftFirst(a: string, o1: string, b: string, o2: string, c: string, pow: (real, real) -> real)
    requires WellFormed([a, o1, b, o2, c])
    requires ParseStrOperator(o1).Some? && ParseStrOperator(o2).Some?
    requires Precedence(o2) <= Precedence(o1)
    ensures Evaluate(Concat([a, o1, b, o2, c]), pow) ==
      match Calculate(NumberValue(a), NumberValue(b), ParseStrOperator(o1).value, pow)
      case Err(e) => Err(e)
      case Ok(v) => Calculate(v, NumberValue(c), ParseStrOperator(o2).value, pow)
  {
    var t := [a, o1, b, o2, c];
    TokenizeConcat(t);
    SegmentParses(t, 0);
    SegmentParses(t, 2);
    SegmentParses(t, 4);
    LeftFirst(a, o1, b, o2, c);
    EvalLeftFirst(a, o1, b, o2, c, pow);
    var first := Calculate(NumberValue(a), NumberValue(b), ParseStrOperator(o1).value, pow);
    if first.Ok? {
      EvalTail(first.value, c, o2, pow);
    }
  }

  /** Two operators where the right one binds tighter: the right operation is done
      first. */
  lemma EvaluateRightFirst(a: string, o1: string, b: string, o2: string, c: string, pow: (real, real) -> real)
    requires WellFormed([a, o1, b, o2, c])
    requires ParseStrOperator(o1).Some? && ParseStrOperator(o2).Some?
    requires Precedence(o1) < Precedence(o2)
    ensures Evaluate(Concat([a, o1, b, o2, c]), pow) ==
      match Calculate(NumberValue(b), NumberValue(c), ParseStrOperator(o2).value, pow)
      case Err(e) => Err(e)
      case Ok(v) => Calculate(NumberValue(a), v, ParseStrOperator(o1).value, pow)
  {
    var t := [a, o1, b, o2, c];
    TokenizeConcat(t);
    SegmentParses(t, 0);
    SegmentParses(t, 2);
    SegmentParses(t, 4);
    RightFirst(a, o1, b, o2, c);
    EvalRightFirst(a, o1, b, o2, c, pow);
    var first := Calculate(NumberValue(b), NumberValue(c), ParseStrOperator(o2).value, pow);
    if first.Ok? {
      EvalLast(NumberValue(a), first.value, o1, pow);
    }
  }

  // ----- expressions of any length -----

  /** How the value stack of `shunting_yard` grows over a postfix list with no skipped
      token: one value more per numeric token, one fewer per operator. */
  function Depth(s: seq<string>): int
    decreases |s|
  {
    if s == [] then 0
    else Depth(s[..|s| - 1]) + (if IsNumericLiteral(s[|s| - 1]) then 1 else -1)
  }

  /** A postfix list `shunting_yard` evaluates without running short of values: every
      numeric token parses, every other token is an operator other than '=', and before
      each operator the stack holds at least two values. */
  predicate Evaluable(s: seq<string>) {
    forall i :: 0 <= i < |s| ==>
      if IsNumericLiteral(s[i]) then ParseNumber(s[i]).Some?
      else Precedence(s[i]) > 0 && Depth(s[..i]) >= 2
  }

  /** Operator tokens that name an operation. */
  predicate Operations(s: seq<string>) {
    forall i :: 0 <= i < |s| ==> Precedence(s[i]) > 0
  }

  lemma EvaluableAppend(s: seq<string>, x: string)
    requires Evaluable(s)
    requires if IsNumericLiteral(x) then ParseNumber(x).Some? else Precedence(x) > 0 && Depth(s) >= 2
    ensures Evaluable(s + [x])
    ensures Depth(s + [x]) == Depth(s) + (if IsNumericLiteral(x) then 1 else -1)
  {
    var l := s + [x];
    assert l[..|s|] == s;
    forall i | 0 <= i < |s| ensures l[i] == s[i] && l[..i] == s[..i] {
    }
  }

  lemma EvaluablePrefix(s: seq<string>)
    requires Evaluable(s) && s != []
    ensures Evaluable(s[..|s| - 1])
  {
    var p := s[..|s| - 1];
    forall i | 0 <= i < |p| ensures p[i] == s[i] && p[..i] == s[..i] {
    }
  }

  /** Appending operators to a list deep enough for all of them. */
  lemma {:induction false} AppendOperations(out: seq<string>, ops: seq<string>)
    requires Evaluable(out) && Operations(ops) && Depth(out) > |ops|
    ensures Evaluable(out + ops) && Depth(out + ops) == Depth(out) - |ops|
    decreases |ops|
  {
    if ops == [] {
      assert out + ops == out;
    } else {
      var front := ops[..|ops| - 1];
      var o := ops[|ops| - 1];
      AppendOperations(out, front);
      assert out + ops == (out + front) + [o];
      OperatorTokenNotNumeric(o);
      EvaluableAppend(out + front, o);
    }
  }

  lemma ReversedOperations(s: seq<string>)
    requires Operations(s)
    ensures Operations(Reversed(s))
  {
    forall i | 0 <= i < |s| ensures Precedence(Reversed(s)[i]) > 0 {
      ReversedIndex(s, i);
    }
  }

  /** The loop of `shunting_yard` over a list and one more token. */
  lemma {:induction false} EvalFromAppend(stack: seq<real>, a: seq<string>, x: string, pow: (real, real) -> real)
    ensures EvalFrom(stack, a + [x], pow) ==
      match EvalFrom(stack, a, pow)
      case Err(e) => Err(e)
      case Ok(s) => EvalToken(s, x, pow)
    decreases |a|
  {
    if a == [] {
      assert [x][1..] == [];
      assert a + [x] == [x];
    } else {
      assert (a + [x])[0] == a[0];
      assert (a + [x])[1..] == a[1..] + [x];
      match EvalToken(stack, a[0], pow)
      case Err(e) =>
      case Ok(next) => EvalFromAppend(next, a[1..], x, pow);
    }
  }

  /** An evaluable postfix list ends, whatever its length, either in the divide error or
      with exactly `Depth` values on the stack. */
  lemma {:induction false} EvaluableDepth(s: seq<string>, pow: (real, real) -> real)
    requires Evaluable(s)
    ensures EvalPostfix(s, pow) == Err(DivideByZero) ||
      (EvalPostfix(s, pow).Ok? && |EvalPostfix(s, pow).value| == Depth(s))
    decreases |s|
  {
    if s != [] {
      var a := s[..|s| - 1];
      var x := s[|s| - 1];
      assert s == a + [x];
      EvaluablePrefix(s);
      EvaluableDepth(a, pow);
      EvalFromAppend([], a, x, pow);
      if !IsNumericLiteral(x) {
        OperatorsHavePrecedence(x);
      }
    }
  }

  /** Numbers that parse at even positions and operations at odd ones, odd in length. */
  predicate Infix(t: seq<string>) {
    && |t| % 2 == 1
    && forall k :: 0 <= k < |t| ==>
      if k % 2 == 0 then IsNumericLiteral(t[k]) && ParseNumber(t[k]).Some?
      else Precedence(t[k]) > 0 && !IsNumericLiteral(t[k])
  }

  /** A well-formed token list without "=" is infix. */
  lemma WellFormedInfix(t: seq<string>)
    requires WellFormed(t) && "=" !in t
    ensures Infix(t)
  {
    forall k | 0 <= k < |t|
      ensures if k % 2 == 0 then IsNumericLiteral(t[k]) && ParseNumber(t[k]).Some?
        else Precedence(t[k]) > 0 && !IsNumericLiteral(t[k])
    {
      if k % 2 == 0 {
        SegmentParses(t, k);
      } else {
        var x := t[k];
        assert IsOperatorToken(x) && x != "=";
        assert x == [x[0]];
        OperatorTokenNotNumeric(x);
      }
    }
  }

  lemma InfixAt(t: seq<string>, k: nat)
    requires Infix(t) && k < |t|
    ensures k % 2 == 0 ==> IsNumericLiteral(t[k]) && ParseNumber(t[k]).Some?
    ensures k % 2 == 1 ==> Precedence(t[k]) > 0 && !IsNumericLiteral(t[k])
  {
  }

  /** The state of the conversion loop part way through an infix list: the output is
      evaluable, the stack holds operations, and the output leaves one value more than the
      stack has operators after a number and as many after an operator. */
  predicate Converting(c: Conversion, afterNumber: bool) {
    && Evaluable(c.output)
    && Operations(c.stack)
    && Depth(c.output) == |c.stack| + (if afterNumber then 1 else 0)
  }

  /** A number goes straight to the output. */
  lemma NumberThrough(c: Conversion, x: string)
    requires Converting(c, false) && IsNumericLiteral(x) && ParseNumber(x).Some?
    ensures Converting(Push(c, x), true)
  {
    EvaluableAppend(c.output, x);
  }

  /** An operator appends the operators it pops to an output deep enough for them, and
      the stack keeps holding operations. */
  lemma OperationThrough(c: Conversion, x: string)
    requires Converting(c, true) && Precedence(x) > 0 && !IsNumericLiteral(x)
    ensures Converting(Push(c, x), false)
  {
    var n := PopCount(c.stack, Precedence(x));
    var popped := c.stack[|c.stack| - n..];
    assert Operations(popped) by {
      forall i | 0 <= i < |popped| ensures Precedence(popped[i]) > 0 {
        assert popped[i] == c.stack[|c.stack| - n + i];
      }
    }
    ReversedOperations(popped);
    AppendOperations(c.output, Reversed(popped));
    var rest := c.stack[..|c.stack| - n];
    assert Operations(rest + [x]) by {
      forall i | 0 <= i < |rest| + 1 ensures Precedence((rest + [x])[i]) > 0 {
        if i < |rest| {
          assert (rest + [x])[i] == c.stack[i];
        }
      }
    }
  }

  /** One more token through the conversion loop: a number after an operator (or at the
      start), an operation after a number. */
  lemma ScanStep(p: seq<string>, x: string, afterNumber: bool)
    requires Converting(Scan(p), afterNumber)
    requires if afterNumber then Precedence(x) > 0 && !IsNumericLiteral(x)
      else IsNumericLiteral(x) && ParseNumber(x).Some?
    ensures Converting(Scan(p + [x]), !afterNumber)
  {
    assert (p + [x])[..|p|] == p;
    if afterNumber {
      OperationThrough(Scan(p), x);
    } else {
      NumberThrough(Scan(p), x);
    }
  }

  lemma ParityStep(k: nat)
    requires k > 0
    ensures (k % 2 == 1) == !((k - 1) % 2 == 1)
  {
  }

  lemma PrefixSnoc(t: seq<string>, k: nat)
    requires 0 < k <= |t|
    ensures t[..k] == t[..k - 1] + [t[k - 1]]
  {
  }

  /** The conversion loop over the first k tokens of an infix list. */
  lemma {:induction false} ScanEvaluable(t: seq<string>, k: nat)
    requires Infix(t) && k <= |t|
    ensures Converting(Scan(t[..k]), k % 2 == 1)
    decreases k
  {
    if k == 0 {
      assert t[..0] == [];
    } else {
      ScanEvaluable(t, k - 1);
      InfixAt(t, k - 1);
      var before := (k - 1) % 2 == 1;
      ParityStep(k);
      PrefixSnoc(t, k);
      ScanStep(t[..k - 1], t[k - 1], before);
    }
  }

  /** The value stack whose top `calculate_expression` returns holds one value: for every
      well-formed token list without "=", however long, the conversion yields an evaluable
      postfix list of depth one, and evaluating it leaves exactly one value unless a
      division by zero stops it. */
  lemma PostfixSingleValue(t: seq<string>, pow: (real, real) -> real)
    requires WellFormed(t) && "=" !in t
    ensures Evaluable(ToPostfix(t)) && Depth(ToPostfix(t)) == 1
    ensures EvalPostfix(ToPostfix(t), pow) == Err(DivideByZero) ||
      (EvalPostfix(ToPostfix(t), pow).Ok? && |EvalPostfix(ToPostfix(t), pow).value| == 1)
  {
    WellFormedInfix(t);
    ScanEvaluable(t, |t|);
    assert t[..|t|] == t;
    var c := Scan(t);
    ReversedOperations(c.stack);
    AppendOperations(c.output, Reversed(c.stack));
    EvaluableDepth(ToPostfix(t), pow);
  }

  /** Every character of a token occurs in the concatenation. */
  lemma {:induction false} ConcatContains(t: seq<string>, k: nat, j: nat)
    requires k < |t| && j < |t[k]|
    ensures t[k][j] in Concat(t)
    decreases k
  {
    if k == 0 {
      assert (t[0] + Concat(t[1..]))[j] == t[0][j];
    } else {
      ConcatContains(t[1..], k - 1, j);
      assert t[1..][k - 1] == t[k];
      assert (t[0] + Concat(t[1..]))[|t[0]| + |Concat(t[1..])| - |Concat(t[1..])|..] == Concat(t[1..]);
    }
  }

  /** For a buffer without '=', of any length, `calculate_expression` reports
      InvalidExpression exactly when the tokenizer refuses the buffer; otherwise it returns
      a value or DivideByZero. */
  lemma EvaluateFailsOnlyOnDivide(e: string, pow: (real, real) -> real)
    requires EQUAL !in e
    ensures Evaluate(e, pow) == Err(InvalidExpression) <==> Tokenize(e).Err?
    ensures Tokenize(e).Ok? ==> Evaluate(e, pow).Ok? || Evaluate(e, pow) == Err(DivideByZero)
  {
    if Tokenize(e).Ok? {
      var t := Tokenize(e).value;
      TokenizeSound(e);
      if "=" in t {
        var k :| 0 <= k < |t| && t[k] == "=";
        ConcatContains(t, k, 0);
        assert false;
      }
      PostfixSingleValue(t, pow);
    }
  }

  // ----- examples -----

  /** A one-digit text is a well-formed segment whose value is the digit. */
  lemma OneDigit(s: string, d: nat)
    requires |s| == 1 && IsNumber(s[0]) && d == DigitValue(s[0])
    ensures IsNumericLiteral(s) && NoOperatorIn(s, 0) && NumberValue(s) == d as real
  {
    DigitsAccepted(s);
    assert s[..0] == [];
    assert DigitsValue(s) == d;
  }

  lemma WellFormedThree(a: string, o: string, b: string)
    requires IsNumericLiteral(a) && NoOperatorIn(a, 0) && IsNumericLiteral(b) && NoOperatorIn(b, 0)
    requires IsOperatorToken(o)
    ensures WellFormed([a, o, b]) && Concat([a, o, b]) == a + o + b
  {
    WellFormedSingle(b);
    WellFormedPrepend(a, o, [b]);
    assert [a, o] + [b] == [a, o, b];
  }

  lemma WellFormedFive(a: string, o1: string, b: string, o2: string, c: string)
    requires IsNumericLiteral(a) && NoOperatorIn(a, 0) && IsNumericLiteral(b) && NoOperatorIn(b, 0)
    requires IsNumericLiteral(c) && NoOperatorIn(c, 0)
    requires IsOperatorToken(o1) && IsOperatorToken(o2)
    ensures WellFormed([a, o1, b, o2, c]) && Concat([a, o1, b, o2, c]) == a + o1 + (b + o2 + c)
  {
    WellFormedThree(b, o2, c);
    WellFormedPrepend(a, o1, [b, o2, c]);
    assert [a, o1] + [b, o2, c] == [a, o1, b, o2, c];
  }

  /** Subtraction associates to the left: 8-2-1 is (8-2)-1. */
  lemma SubtractionExample(pow: (real, real) -> real)
    ensures Evaluate("8-2-1", pow) == Ok(5.0)
  {
    OneDigit("8", 8); OneDigit("2", 2); OneDigit("1", 1);
    WellFormedFive("8", "-", "2", "-", "1");
    assert "8" + "-" + ("2" + "-" + "1") == "8-2-1";
    EvaluateLeftFirst("8", "-", "2", "-", "1", pow);
  }

  /** Multiplication binds tighter than addition: 2+3x4 is 2+(3x4). */
  lemma PrecedenceExample(pow: (real, real) -> real)
    ensures Evaluate("2+3x4", pow) == Ok(14.0)
  {
    OneDigit("2", 2); OneDigit("3", 3); OneDigit("4", 4);
    WellFormedFive("2", "+", "3", "x", "4");
    assert "2" + "+" + ("3" + "x" + "4") == "2+3x4";
    EvaluateRightFirst("2", "+", "3", "x", "4", pow);
  }

  /** Dividing by zero is reported. */
  lemma DivideByZeroExample(pow: (real, real) -> real)
    ensures Evaluate("5/0", pow) == Err(DivideByZero)
  {
    OneDigit("5", 5); OneDigit("0", 0);
    WellFormedThree("5", "/", "0");
    assert "5" + "/" + "0" == "5/0";
    EvaluateBinary("5", "/", "0", pow);
  }
}
