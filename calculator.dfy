/** The calculator object of the Rust engine (src/lib.rs:22-26, 306-314, 346-398): a text
    buffer the keys append to, the last result and the last operator key. `f64::powf` and
    the decimal rendering of an `f64` (`to_string` and `format!("{}")`, which agree) are the
    parameters `pow` and `render`. */
module Calculator {
  import opened Base
  import opened Classifier
  import opened Tokenizer
  import opened Evaluator
  import opened Evaluation

  const INVALID_EXPRESSION_TEXT := "Invalid expression"
  const DIVIDE_BY_ZERO_TEXT := "Error divide by zero"

  /** The three fields of the calculator. */
  datatype Snapshot = Snapshot(textBuffer: string, value: real, state: State)

  /** The calculator `Default` builds. */
  const INITIAL := Snapshot([], 0.0, State.None)

  /** The text an evaluation result puts in the buffer. */
  function ResultText(r: Result<real>, render: real -> string): string {
    match r
    case Ok(v) => render(v)
    case Err(InvalidExpression) => INVALID_EXPRESSION_TEXT
    case Err(DivideByZero) => DIVIDE_BY_ZERO_TEXT
  }

  /** What `update` does with one key. */
  function Next(s: Snapshot, key: State, pow: (real, real) -> real, render: real -> string): Snapshot {
    match key
    case Value(v) => s.(textBuffer := s.textBuffer + render(v))
    case Plus => Snapshot(s.textBuffer + [PLUS], s.value, Plus)
    case Minus => Snapshot(s.textBuffer + [MINUS], s.value, Minus)
    case Multiply => Snapshot(s.textBuffer + [MULTIPLY], s.value, Multiply)
    case Divide => Snapshot(s.textBuffer + [DIVIDE], s.value, Divide)
    case Power => Snapshot(s.textBuffer + [POWER], s.value, Power)
    case Comma => s.(textBuffer := s.textBuffer + ['.'])
    case Remove => s.(textBuffer := if s.textBuffer == [] then [] else s.textBuffer[..|s.textBuffer| - 1])
    case Equal =>
      var r := Evaluate(s.textBuffer, pow);
      Snapshot(ResultText(r, render), if r.Ok? then r.value else s.value, s.state)
    case ClearAll => s.(textBuffer := [])
    case None => s.(state := State.None)
  }

  /** The calculator after a sequence of keys, the first one first. */
  function Run(s: Snapshot, keys: seq<State>, pow: (real, real) -> real, render: real -> string): Snapshot
    decreases |keys|
  {
    if keys == [] then s else Run(Next(s, keys[0], pow, render), keys[1..], pow, render)
  }

  /** src/lib.rs `Calculator`. */
  class Calculator {
    var textBuffer: string
    var value: real
    var state: State

    function Current(): Snapshot
      reads this
    {
      Snapshot(textBuffer, value, state)
    }

    /** src/lib.rs `Default for Calculator`. */
    constructor()
      ensures Current() == INITIAL
    {
      textBuffer := [];
      value := 0.0;
      state := State.None;
    }

    /** src/lib.rs `update`. */
    method Update(key: State, pow: (real, real) -> real, render: real -> string)
      modifies this
      ensures Current() == Next(old(Current()), key, pow, render)
    {
      match key {
        case Value(v) =>
          textBuffer := textBuffer + render(v);
        case Plus =>
          state := Plus;
          textBuffer := textBuffer + [PLUS];
        case Minus =>
          state := Minus;
          textBuffer := textBuffer + [MINUS];
        case Multiply =>
          state := Multiply;
          textBuffer := textBuffer + [MULTIPLY];
        case Divide =>
          state := Divide;
          textBuffer := textBuffer + [DIVIDE];
        case Power =>
          state := Power;
          textBuffer := textBuffer + [POWER];
        case Comma =>
          textBuffer := textBuffer + ['.'];
        case Remove =>
          if |textBuffer| > 0 {
            textBuffer := textBuffer[..|textBuffer| - 1];
          }
        case Equal =>
          var result := CalculateExpression(textBuffer, pow);
          textBuffer := [];
          match result {
            case Ok(v) =>
              textBuffer := textBuffer + render(v);
              value := v;
            case Err(InvalidExpression) =>
              textBuffer := textBuffer + INVALID_EXPRESSION_TEXT;
            case Err(DivideByZero) =>
              textBuffer := textBuffer + DIVIDE_BY_ZERO_TEXT;
          }
        case ClearAll =>
          textBuffer := [];
        case None =>
          state := State.None;
      }
    }
  }

  // ----- properties of one key -----

  /** The keys that append exactly one character to the buffer. */
  predicate OneCharacterKey(key: State) {
    key.Plus? || key.Minus? || key.Multiply? || key.Divide? || key.Power? || key.Comma?
  }

  /** Remove takes back a key that typed one character, and leaves the result and the
      operator state as that key left them. */
  lemma RemoveUndoesKey(s: Snapshot, key: State, pow: (real, real) -> real, render: real -> string)
    requires OneCharacterKey(key) || (key.Value? && |render(key.value)| == 1)
    ensures Next(Next(s, key, pow, render), Remove, pow, render).textBuffer == s.textBuffer
    ensures Next(Next(s, key, pow, render), Remove, pow, render).value == s.value
  {
    var t := Next(s, key, pow, render).textBuffer;
    assert |t| == |s.textBuffer| + 1;
    assert t[..|t| - 1] == s.textBuffer;
  }

  /** Only the operator keys and None change the operator state, and each sets it to
      itself. */
  lemma StateFollowsOperatorKeys(s: Snapshot, key: State, pow: (real, real) -> real, render: real -> string)
    ensures Next(s, key, pow, render).state ==
      if key.Plus? || key.Minus? || key.Multiply? || key.Divide? || key.Power? || key.None? then key
      else s.state
  {
  }

  /** Only Equal changes the stored result, and only when the evaluation succeeds. */
  lemma ValueChangesOnlyOnSuccess(s: Snapshot, key: State, pow: (real, real) -> real, render: real -> string)
    ensures Next(s, key, pow, render).value != s.value ==>
      key == Equal && Evaluate(s.textBuffer, pow) == Ok(Next(s, key, pow, render).value)
  {
  }

  /** Equal replaces the buffer by the rendered result and stores it exactly when the
      buffer evaluates; otherwise the buffer shows the message of the error and the stored
      result stays. */
  lemma EqualShowsResult(s: Snapshot, pow: (real, real) -> real, render: real -> string)
    ensures forall v :: Evaluate(s.textBuffer, pow) == Ok(v) ==>
      Next(s, Equal, pow, render) == Snapshot(render(v), v, s.state)
    ensures Evaluate(s.textBuffer, pow) == Err(InvalidExpression) ==>
      Next(s, Equal, pow, render) == s.(textBuffer := INVALID_EXPRESSION_TEXT)
    ensures Evaluate(s.textBuffer, pow) == Err(DivideByZero) ==>
      Next(s, Equal, pow, render) == s.(textBuffer := DIVIDE_BY_ZERO_TEXT)
  {
  }

  // ----- sequences of keys -----

  lemma {:induction false} RunAppend(s: Snapshot, a: seq<State>, b: seq<State>, pow: (real, real) -> real, render: real -> string)
    ensures Run(s, a + b, pow, render) == Run(Run(s, a, pow, render), b, pow, render)
    decreases |a|
  {
    if a != [] {
      assert (a + b)[0] == a[0];
      assert (a + b)[1..] == a[1..] + b;
      RunAppend(Next(s, a[0], pow, render), a[1..], b, pow, render);
    } else {
      assert a + b == b;
    }
  }

  lemma RunOne(s: Snapshot, key: State, pow: (real, real) -> real, render: real -> string)
    ensures Run(s, [key], pow, render) == Next(s, key, pow, render)
  {
    assert [key][1..] == [];
  }

  /** A text beginning with a character that is neither a digit, a sign, an operator nor
      '.' never evaluates: its first segment is not numeric. */
  lemma LeadingLetterRejected(e: string, pow: (real, real) -> real)
    requires |e| > 0 && !IsNumber(e[0]) && !IsOperator(e[0]) && e[0] != '.'
    ensures Evaluate(e, pow) == Err(InvalidExpression)
  {
    var b := SegmentEnd(e, 0);
    assert !IsSeparator(e, 0);
    assert e[0..b][0] == e[0];
    assert !Admitted(e[0..b], 0);
    SegmentRejects(e, 0, b);
  }

  /** Pressing Equal again on an error message gives "Invalid expression": the messages do
      not evaluate. */
  lemma EqualOnMessage(s: Snapshot, pow: (real, real) -> real, render: real -> string)
    requires s.textBuffer == INVALID_EXPRESSION_TEXT || s.textBuffer == DIVIDE_BY_ZERO_TEXT
    ensures Next(s, Equal, pow, render) == s.(textBuffer := INVALID_EXPRESSION_TEXT)
  {
    LeadingLetterRejected(s.textBuffer, pow);
  }

  /** ClearAll followed by Equal evaluates the empty text, which is invalid. */
  lemma ClearThenEqual(s: Snapshot, pow: (real, real) -> real, render: real -> string)
    ensures Run(s, [ClearAll, Equal], pow, render) == s.(textBuffer := INVALID_EXPRESSION_TEXT)
  {
    EmptyRejected();
    assert [ClearAll, Equal][1..] == [Equal];
    assert [Equal][1..] == [];
  }

  /** Typing 5 / 0 = on a fresh calculator shows the division error and keeps the stored
      result 0. */
  lemma DivideByZeroKeys(pow: (real, real) -> real, render: real -> string)
    requires render(5.0) == "5" && render(0.0) == "0"
    ensures Run(INITIAL, [Value(5.0), Divide, Value(0.0), Equal], pow, render) ==
      Snapshot(DIVIDE_BY_ZERO_TEXT, 0.0, Divide)
  {
    var typed := [Value(5.0), Divide, Value(0.0)];
    assert [Value(5.0), Divide, Value(0.0), Equal] == typed + [Equal];
    RunAppend(INITIAL, typed, [Equal], pow, render);
    TypedDivision(pow, render);
    var s := Snapshot("5/0", 0.0, Divide);
    RunOne(s, Equal, pow, render);
    DivideByZeroExample(pow);
    EqualShowsResult(s, pow, render);
  }

  lemma TypedDivision(pow: (real, real) -> real, render: real -> string)
    requires render(5.0) == "5" && render(0.0) == "0"
    ensures Run(INITIAL, [Value(5.0), Divide, Value(0.0)], pow, render) == Snapshot("5/0", 0.0, Divide)
  {
    var keys := [Value(5.0), Divide, Value(0.0)];
    assert keys[1..] == [Divide, Value(0.0)];
    assert keys[1..][1..] == [Value(0.0)];
    RunOne(Snapshot("5/", 0.0, Divide), Value(0.0), pow, render);
    assert "5" + "/" + "0" == "5/0";
  }

  /** Typing 2 + 3 x 4 = on a fresh calculator shows and stores 14. */
  lemma PrecedenceKeys(pow: (real, real) -> real, render: real -> string)
    requires render(2.0) == "2" && render(3.0) == "3" && render(4.0) == "4"
    ensures Run(INITIAL, [Value(2.0), Plus, Value(3.0), Multiply, Value(4.0), Equal], pow, render) ==
      Snapshot(render(14.0), 14.0, Multiply)
  {
    var typed := [Value(2.0), Plus, Value(3.0), Multiply, Value(4.0)];
    assert [Value(2.0), Plus, Value(3.0), Multiply, Value(4.0), Equal] == typed + [Equal];
    RunAppend(INITIAL, typed, [Equal], pow, render);
    TypedExpression(pow, render);
    var s := Snapshot("2+3x4", 0.0, Multiply);
    RunOne(s, Equal, pow, render);
    PrecedenceExample(pow);
    EqualShowsResult(s, pow, render);
  }

  lemma TypedExpression(pow: (real, real) -> real, render: real -> string)
    requires render(2.0) == "2" && render(3.0) == "3" && render(4.0) == "4"
    ensures Run(INITIAL, [Value(2.0), Plus, Value(3.0), Multiply, Value(4.0)], pow, render) ==
      Snapshot("2+3x4", 0.0, Multiply)
  {
    var keys := [Value(2.0), Plus, Value(3.0), Multiply, Value(4.0)];
    assert keys[1..] == [Plus, Value(3.0), Multiply, Value(4.0)];
    assert keys[1..][1..] == [Value(3.0), Multiply, Value(4.0)];
    assert keys[1..][1..][1..] == [Multiply, Value(4.0)];
    assert keys[1..][1..][1..][1..] == [Value(4.0)];
    RunOne(Snapshot("2+3x", 0.0, Multiply), Value(4.0), pow, render);
    assert "2" + "+" + "3" + "x" + "4" == "2+3x4";
  }
}
