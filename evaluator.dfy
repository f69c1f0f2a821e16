/** The arithmetic and the postfix evaluation of the Rust engine: `calculate`,
    `parse_operator`, `parse_str_operator`, `calculate_prev_two_from_stack`, `shunting_yard`
    and `calculate_expression` (src/lib.rs:136-219, 321-339). Values are exact reals;
    `f64::powf` is the parameter `pow`. The value stack is a sequence whose last element is
    the top. */
module Evaluator {
  import opened Base
  import opened Classifier
  import opened Tokenizer
  import opened Postfix
  import opened Number

  /** src/lib.rs `calculate`. Division reports DivideByZero for every divisor that is not
      positive, as the guard `next_value <= 0.0` reads; states that are not arithmetic
      return the left operand. */
  function Calculate(a: real, b: real, state: State, pow: (real, real) -> real): (r: Result<real>)
    ensures r.Err? <==> state == Divide && b <= 0.0
    ensures r.Err? ==> r.error == DivideByZero
    ensures !(state.Plus? || state.Minus? || state.Multiply? || state.Divide? || state.Power?) ==> r == Ok(a)
  {
    match state
    case Plus => Ok(a + b)
    case Minus => Ok(a - b)
    case Multiply => Ok(a * b)
    case Divide => if b <= 0.0 then Err(DivideByZero) else Ok(a / b)
    case Power => Ok(pow(a, b))
    case _ => Ok(a)
  }

  /** Subtraction undoes addition, and multiplication undoes a successful division. */
  lemma CalculateInverses(a: real, b: real, pow: (real, real) -> real)
    ensures Calculate(Calculate(a, b, Plus, pow).value, b, Minus, pow) == Ok(a)
    ensures Calculate(Calculate(a, b, Minus, pow).value, b, Plus, pow) == Ok(a)
    ensures b > 0.0 ==> Calculate(Calculate(a, b, Divide, pow).value, b, Multiply, pow) == Ok(a)
  {
    if b > 0.0 {
      var q := Calculate(a, b, Divide, pow).value;
      QuotientTimesDivisor(a, b, q);
      MultiplyCase(q, b, pow);
    }
  }

  lemma QuotientTimesDivisor(a: real, b: real, q: real)
    requires b > 0.0 && q == a / b
    ensures q * b == a
  {
  }

  lemma MultiplyCase(a: real, b: real, pow: (real, real) -> real)
    ensures Calculate(a, b, Multiply, pow) == Ok(a * b)
  {
  }

  /** src/lib.rs `parse_operator`: '=' is an operator character but names no operation. */
  function ParseOperator(c: char): (r: Option<State>)
    ensures r.Some? <==> IsOperator(c) && c != EQUAL
    ensures r.Some? ==> r.value.Plus? || r.value.Minus? || r.value.Multiply? || r.value.Divide? || r.value.Power?
  {
    match c
    case '+' => Some(Plus)
    case '-' => Some(Minus)
    case 'x' => Some(Multiply)
    case '/' => Some(Divide)
    case '^' => Some(Power)
    case _ => Option.None
  }

  /** src/lib.rs `parse_str_operator`. */
  function ParseStrOperator(text: string): (r: Option<State>)
    ensures r.Some? <==> IsOperatorToken(text) && text[0] != EQUAL
  {
    if |text| == 1 then ParseOperator(text[0]) else Option.None
  }

  /** The operator and precedence tables agree: exactly the texts with a positive
      precedence name an operation. */
  lemma OperatorsHavePrecedence(text: string)
    ensures ParseStrOperator(text).Some? <==> Precedence(text) > 0
  {
  }

  /** What `calculate_prev_two_from_stack` does to the value stack: it pops the top and the
      value below it; with fewer than two values the pops empty the stack and nothing more
      happens; an operator text that names no operation drops both values; otherwise the
      result of `calculate` is pushed, or its error returned. */
  function Reduce(stack: seq<real>, operation: string, pow: (real, real) -> real): (r: Result<seq<real>>)
    ensures |stack| < 2 ==> r == Ok([])
    ensures r.Ok? && |stack| >= 2 ==> stack[..|stack| - 2] <= r.value && |r.value| <= |stack| - 1
    ensures r.Err? ==> r.error == DivideByZero
  {
    if |stack| < 2 then Ok([])
    else
      var a := stack[|stack| - 2];
      var b := stack[|stack| - 1];
      var rest := stack[..|stack| - 2];
      match ParseStrOperator(operation)
      case None => Ok(rest)
      case Some(state) =>
        match Calculate(a, b, state, pow)
        case Ok(v) => Ok(rest + [v])
        case Err(e) => Err(e)
  }

  /** src/lib.rs `calculate_prev_two_from_stack`, on a stack passed in and handed back. */
  method CalculatePrevTwoFromStack(resultStack: seq<real>, operation: string, pow: (real, real) -> real)
    returns (newStack: seq<real>, status: Result<()>)
    ensures status.Ok? ==> Reduce(resultStack, operation, pow) == Ok(newStack)
    ensures status.Err? ==> Reduce(resultStack, operation, pow) == Err(status.error)
  {
    newStack := resultStack;
    var top: Option<real> := Option.None;
    if |newStack| > 0 {
      top := Some(newStack[|newStack| - 1]);
      newStack := newStack[..|newStack| - 1];
    }
    var prev: Option<real> := Option.None;
    if |newStack| > 0 {
      prev := Some(newStack[|newStack| - 1]);
      newStack := newStack[..|newStack| - 1];
    }
    if prev.Some? && top.Some? {
      assert newStack == resultStack[..|resultStack| - 2];
      var operator := ParseStrOperator(operation);
      if operator.Some? {
        var result := Calculate(prev.value, top.value, operator.value, pow);
        if result.Ok? {
          newStack := newStack + [result.value];
        }
        if result.Err? {
          return newStack, Err(result.error);
        }
      }
    }
    return newStack, Ok(());
  }

  /** One iteration of the loop of `shunting_yard`: a numeric token is parsed and pushed
      (and skipped when it does not parse), an operator token reduces the stack, any other
      token is ignored. */
  function EvalToken(stack: seq<real>, token: string, pow: (real, real) -> real): Result<seq<real>> {
    if IsNumericLiteral(token) then
      match ParseNumber(token)
      case Some(v) => Ok(stack + [v])
      case None => Ok(stack)
    else if IsOperatorToken(token) then Reduce(stack, token, pow)
    else Ok(stack)
  }

  /** The loop of `shunting_yard` from a given value stack: it stops at the first error. */
  function EvalFrom(stack: seq<real>, tokens: seq<string>, pow: (real, real) -> real): Result<seq<real>>
    decreases |tokens|
  {
    if tokens == [] then Ok(stack)
    else
      match EvalToken(stack, tokens[0], pow)
      case Err(e) => Err(e)
      case Ok(next) => EvalFrom(next, tokens[1..], pow)
  }

  /** The value stack `shunting_yard` returns for a postfix token list. */
  function EvalPostfix(tokens: seq<string>, pow: (real, real) -> real): Result<seq<real>> {
    EvalFrom([], tokens, pow)
  }

  /** src/lib.rs `shunting_yard`. */
  method ShuntingYard(polishNotation: seq<string>, pow: (real, real) -> real) returns (r: Result<seq<real>>)
    ensures r == EvalPostfix(polishNotation, pow)
  {
    var resultStack: seq<real> := [];
    var i := 0;
    while i < |polishNotation|
      invariant 0 <= i <= |polishNotation|
      invariant EvalFrom(resultStack, polishNotation[i..], pow) == EvalPostfix(polishNotation, pow)
    {
      var token := polishNotation[i];
      assert polishNotation[i..][1..] == polishNotation[i + 1..];
      var isNumber := ContainsOnlyNumbers(token);
      var isOperator := StrIsOperator(token);
      if isNumber {
        var result := ParseNumber(token);
        if result.Some? {
          resultStack := resultStack + [result.value];
        }
      } else if isOperator {
        var status;
        resultStack, status := CalculatePrevTwoFromStack(resultStack, token, pow);
        if status.Err? {
          return Err(status.error);
        }
      }
      i := i + 1;
    }
    return Ok(resultStack);
  }

  /** What `calculate_expression` returns: the tokenizer's error, the evaluation's error,
      the top of the final value stack, or InvalidExpression when that stack is empty. */
  function Evaluate(expression: string, pow: (real, real) -> real): Result<real> {
    match Tokenize(expression)
    case Err(e) => Err(e)
    case Ok(tokens) =>
      match EvalPostfix(ToPostfix(tokens), pow)
      case Err(e) => Err(e)
      case Ok(values) => if values == [] then Err(InvalidExpression) else Ok(values[|values| - 1])
  }

  /** src/lib.rs `calculate_expression`. */
  method CalculateExpression(expression: string, pow: (real, real) -> real) returns (r: Result<real>)
    ensures r == Evaluate(expression, pow)
  {
    var parseResult := ParseExpression(expression);
    if parseResult.Ok? {
      var polishNotation := GetReversePolishNotation(parseResult.value);
      var result := ShuntingYard(polishNotation, pow);
      match result {
        case Ok(values) =>
          if |values| > 0 {
            return Ok(values[|values| - 1]);
          }
        case Err(error) =>
          return Err(error);
      }
    }
    if parseResult.Err? {
      return Err(parseResult.error);
    }
    return Err(InvalidExpression);
  }
}
