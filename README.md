# Calculator engines in Dafny

This project models the two expression engines of a small calculator. Neither engine
handles parentheses, and both prove their main properties.

**The Rust engine** (`src/lib.rs`) evaluates the text buffer of a GUI calculator in
four stages:
- **Classifiers.** `is_number` and `is_operator` test one character. `str_is_operator`
  and `contains_only_numbers` test a text.
- **Tokenizer.** `parse_expression` splits the buffer, which has no delimiters, at
  every operator character after the first.
- **Conversion to postfix.** `get_reverse_polish_notation` and `flush_operator_stack`
  form a shunting-yard converter that uses `get_precedence`.
- **Evaluator.** `shunting_yard`, `calculate_prev_two_from_stack` and `calculate` work
  on a value stack. The driver `calculate_expression` ties the stages together.

The `Calculator` object is a text buffer with the last result and the last operator
key. Its method `update` applies one key.

**The legacy C engine** reads a line such as `12+3*4=` with `convert_str_to_data`.
- **Nodes.** It builds a linked list of `node` records (`head.h`). Each record holds a
  number, the operator character after it, and that operator's precedence class.
- **Helpers.** `utility_functions.c` appends, deletes and counts nodes. It also
  computes `potency` and `end_program`.
- **Reduction.** `calculate` (`calculate.c`) makes three passes: `^`, then `*` and
  `/`, then `+` and `-`. Each pass folds every node of its class into its successor
  with `do_the_math`.

How the model is built:
- **Form.** Pure `match` code becomes functions. Loops become methods with loop
  invariants, each proved equal to a specification function. That function's
  properties are then proved as lemmas.
  - The calculator is a `class` whose `Update` is tied to the key function `Next`.
  - C nodes are heap objects of class `Head.Node`. A ghost `seq<Node>` (`IsList`) gives
    the list's shape, and `Recs` gives its contents as a sequence of `Rec` values.
- **Numbers.** Numbers are exact `real`s.
- **f64 parsing.** `parse::<f64>` becomes an exact decimal reader (`Number.ParseNumber`).
- **Floating-point power.** `powf` is the parameter `pow`.
- **Number rendering.** Rendering an `f64` as text (`to_string` and `format!`) is the
  parameter `render`.

Three behaviours of the code are worth knowing; the model keeps each of them.
- **Leading signs.** The test at `src/lib.rs:111` expects `parse_expression("+534-2")`
  to fail. The guard at `src/lib.rs:74` admits a `+` at the start of a segment and a
  `-` anywhere in it, so the code accepts that text
  (`Tokenizer.TokenizeAcceptsLeadingSign`). The test, as written, contradicts the code.
- **Divide guard.** The guard `next_value <= 0.0` at `src/lib.rs:330` reports
  `DivideByZero` for every divisor that is not positive, negative divisors included.
- **Exponent associativity.** `^` associates to the left in both engines:
  `Associativity.LeftFirst` proves it for the Rust engine and `Engine.ExamplePower` for
  the C engine.

## Model

| member | source | states |
|---|---|---|
| Classifier.DigitCharacters | src/lib.rs:35-40 | a character is a number exactly when it is one of the ten digits 0-9 |
| Classifier.OperatorCharacters | src/lib.rs:42-47 | a character is an operator exactly when it is one of + - x / = ^, '=' included, and no operator is a digit |
| Classifier.StrIsOperator | src/lib.rs:49-62 | the result is true exactly when the text is one character from + - x / = ^ |
| Classifier.ContainsOnlyNumbers | src/lib.rs:64-87 | the result is true exactly when the text has a digit and every character is admitted: a digit, a '-' anywhere, a '+' at index 0, or the first '.' |
| Classifier.SecondDotRejected | src/lib.rs:69-84 | a text with two '.' is never numeric |
| Classifier.DigitsAccepted | src/lib.rs:78-86 | every non-empty run of digits is numeric |
| Classifier.DecimalAccepted | src/lib.rs:69-86 | digits with at most one '.' and at least one digit are numeric |
| Classifier.OperatorTokenNotNumeric | src/lib.rs:49-87 | no one-character operator text is numeric |
| Classifier.ContainsOnlyNumbersExamples | src/lib.rs:95-102 | the test cases hold; "" and "." are refused for lack of a digit |
| Classifier.SignQuirkExamples | src/lib.rs:74 | "+534", "-5" and "5-3" are admitted; "5+3", "+" and "-" are not |
| Classifier.StrIsOperatorExamples | src/lib.rs:114-125 | the test cases hold: single operators pass, texts with a space fail |
| Tokenizer.ParseExpression | src/lib.rs:283-304 | the result is `Tokenize`: the split at every operator character after index 0, or InvalidExpression as soon as a segment fails `contains_only_numbers` |
| Tokenizer.SplitFromLossless | src/lib.rs:286-298 | concatenating the pieces of the scan gives back the scanned text |
| Tokenizer.SplitFromAlternates | src/lib.rs:286-298 | the pieces are odd in number, and every odd-position piece is a one-character operator |
| Tokenizer.SplitFromOperatorFree | src/lib.rs:286-298 | no segment holds an operator character, except the first character of the expression |
| Tokenizer.TokenizeSound | src/lib.rs:283-304 | on Ok the tokens alternate segment and operator, start and end with a segment, every segment is numeric, and their concatenation is the input |
| Tokenizer.TokenizeConcat | src/lib.rs:283-304 | conversely, every such token list is exactly what tokenizing its concatenation returns |
| Tokenizer.SegmentRejects | src/lib.rs:287-300 | one non-numeric segment makes the whole expression InvalidExpression |
| Tokenizer.EmptyRejected | src/lib.rs:297-301 | the empty text is InvalidExpression |
| Tokenizer.TrailingOperatorRejected | src/lib.rs:297-301 | a text ending in an operator character is InvalidExpression |
| Tokenizer.AdjacentOperatorsRejected | src/lib.rs:287-293 | two adjacent operator characters make the text InvalidExpression |
| Tokenizer.DoubleDotRejected | src/lib.rs:287-300 | two '.' with no separator between them make the text InvalidExpression |
| Tokenizer.TokenizeAcceptsTrailingDot | src/lib.rs:108 | "35.+12" tokenizes to ["35.", "+", "12"] |
| Tokenizer.TokenizeAcceptsLeadingDot | src/lib.rs:109 | ".5x54" tokenizes to [".5", "x", "54"] |
| Tokenizer.TokenizeAcceptsLeadingSign | src/lib.rs:111 | "+534-2" tokenizes to ["+534", "-", "2"], which is not the failure the test expects |
| Tokenizer.TokenizeRejectsDoubleDot | src/lib.rs:107 | "30..5+12-5x65" is InvalidExpression |
| Number.UnsignedExactly | src/lib.rs:184 | an unsigned text reads as a number exactly when it is digits with at most one '.' and at least one digit |
| Number.ParseNumberComplete | src/lib.rs:183-186 | every numeric token the tokenizer can produce has a value |
| Number.ParseNumberSound | src/lib.rs:183-186 | every text that has a value is numeric, with no operator character after its first |
| Number.ParseNumberExactly | src/lib.rs:183-186 | both directions together: the texts with a value are exactly the numeric segments |
| Number.NatTextValue | src/lib.rs:184 | the digits of a natural number's decimal text have that number as their value |
| Number.ParseNatText | src/lib.rs:184 | reading back the decimal text of a natural number gives the number |
| Number.ParseNumberExamples | src/lib.rs:184 | "12", "1.5" and "-5" read as 12, 1.5 and -5 |
| Number.ParseNumberEdgeExamples | src/lib.rs:184 | "35." and ".5" read as 35 and 0.5; "5-3" and "+" have no value |
| Postfix.CharacterPrecedence | src/lib.rs:263-272 | precedence is at most 3, and it is 0 exactly for characters other than + - x / ^ |
| Postfix.Precedence | src/lib.rs:274-281 | precedence is at most 3, and a positive one belongs to a one-character operator other than '=' |
| Postfix.PrecedenceLadder | src/lib.rs:263-281 | + and - are below x and /, which are below ^; '=' has 0 |
| Postfix.ReversedIndex | src/lib.rs:240-242 | the top-down reading of a stack visits at step i the element i places below the top |
| Postfix.PopCount | src/lib.rs:252-259 | the count is the top run whose precedences are all at least the incoming one, bounded below by a lower precedence or the bottom |
| Postfix.FlushOperatorStack | src/lib.rs:246-261 | it returns that count and appends exactly those operators, top first, to the output |
| Postfix.PopCountMaximal | src/lib.rs:252-259 | any run with those bounds has exactly that count |
| Postfix.PushOperator | src/lib.rs:227-237 | the flush-and-pop step pops the counted operators onto the output and pushes the token |
| Postfix.NothingToFlush | src/lib.rs:228-229 | when the source skips the flush (empty stack or lower top), the flush would move nothing |
| Postfix.GetReversePolishNotation | src/lib.rs:221-244 | the output is the token loop's output followed by the leftover stack, top first (`ToPostfix`) |
| Postfix.ScanStackAscending | src/lib.rs:224-238 | the operator stack holds only operator tokens, in strictly increasing precedence from the bottom |
| Postfix.AscendingBound | src/lib.rs:224-238 | so the stack never holds more than four operators |
| Postfix.ScanPermutes | src/lib.rs:224-238 | the output and the stack together are a permutation of the numeric and operator tokens seen |
| Postfix.PushPermutes | src/lib.rs:224-238 | one step adds the token to what output and stack hold, unless the token is ignored |
| Postfix.ReversedMultiset | src/lib.rs:240-242 | emitting the stack top first loses and invents nothing |
| Postfix.ToPostfixPermutes | src/lib.rs:221-244 | the postfix form is a permutation of the numeric and operator tokens |
| Postfix.ScanKeepsNumberOrder | src/lib.rs:224-238 | the numeric tokens reach the output in input order |
| Postfix.PushKeepsNumberOrder | src/lib.rs:224-238 | one step appends a numeric token to the output's numbers and otherwise moves only operators |
| Postfix.ToPostfixKeepsNumberOrder | src/lib.rs:221-244 | the numeric tokens of the postfix form are those of the input, in order |
| Associativity.ScanThree | src/lib.rs:224-238 | a o b leaves output [a, b] and stack [o] |
| Associativity.PushReplaces | src/lib.rs:228-236 | an operator of no higher precedence than the stacked one moves it to the output |
| Associativity.PushAbove | src/lib.rs:228-236 | an operator of higher precedence is stacked above the other |
| Associativity.LeftFirst | src/lib.rs:228-236 | when o2 does not bind tighter, a o1 b o2 c becomes a b o1 c o2; equal levels associate left, '^' included |
| Associativity.RightFirst | src/lib.rs:228-242 | when o2 binds tighter, a o1 b o2 c becomes a b c o2 o1 |
| Evaluator.Calculate | src/lib.rs:321-339 | an error occurs exactly for Divide with a divisor of at most 0, and it is DivideByZero; a state that is not arithmetic returns the left operand |
| Evaluator.CalculateInverses | src/lib.rs:327-334 | subtracting undoes adding and vice versa; multiplying undoes a successful division |
| Evaluator.ParseOperator | src/lib.rs:136-145 | there is an operation exactly for the operator characters other than '=', and it is one of the five arithmetic states |
| Evaluator.ParseStrOperator | src/lib.rs:147-154 | there is an operation exactly for one-character operator texts other than "=" |
| Evaluator.OperatorsHavePrecedence | src/lib.rs:147-154 | the texts that name an operation are exactly those with a positive precedence |
| Evaluator.Reduce | src/lib.rs:197-219 | with fewer than two values the stack ends empty and Ok; on Ok the values below the two popped survive and the stack shrinks by at least one; the only error is DivideByZero |
| Evaluator.CalculatePrevTwoFromStack | src/lib.rs:197-219 | the new stack and status are those of `Reduce` |
| Evaluator.ShuntingYard | src/lib.rs:180-195 | the result is the postfix evaluation: numbers pushed (skipped if they do not parse), operators reduce, the first error stops it; by `Evaluation.PostfixSingleValue` the converted form of any well-formed list without "=" leaves exactly one value or DivideByZero |
| Evaluator.CalculateExpression | src/lib.rs:156-178 | the result is the tokenizer's error, the evaluation's error, the top of the final stack, or InvalidExpression for an empty stack (`Evaluate`); by `Evaluation.EvaluateFailsOnlyOnDivide` a buffer without '=' gives InvalidExpression only when the tokenizer refuses it |
| Evaluation.NumberStep | src/lib.rs:183-187 | one-step unfolding of the loop: a parsable numeric token pushes its value |
| Evaluation.OperatorStep | src/lib.rs:188-191 | one-step unfolding of the loop: an operator on two or more values replaces the top two by `calculate` of them, or stops with its error |
| Evaluation.SegmentParses | src/lib.rs:183-187 | every segment of an accepted token list has a value, so none is skipped |
| Evaluation.ToPostfixSingle | src/lib.rs:221-244 | a lone number converts to itself |
| Evaluation.ToPostfixThree | src/lib.rs:221-244 | x o y converts to x y o |
| Evaluation.EvalThree | src/lib.rs:180-219 | the postfix list x y o evaluates to `calculate` of x and y |
| Evaluation.EvalLeftFirst | src/lib.rs:180-219 | a b o1 c o2 applies o1 first |
| Evaluation.EvalRightFirst | src/lib.rs:180-219 | a b c o2 o1 applies o2 first |
| Evaluation.EvaluateSingle | src/lib.rs:156-178 | a lone number evaluates to its value |
| Evaluation.EvaluateBinary | src/lib.rs:156-178 | with one operator the expression evaluates to `calculate` of its operands, error included |
| Evaluation.EvaluateEqualSign | src/lib.rs:204-218 | '=' between two numbers consumes both and leaves nothing, so the result is InvalidExpression |
| Evaluation.EvaluateLeftFirst | src/lib.rs:156-178 | with two operators where the right one does not bind tighter, the left one is applied first and the first error wins |
| Evaluation.EvaluateRightFirst | src/lib.rs:156-178 | with two operators where the right one binds tighter, the right one is applied first |
| Evaluation.EvalFromAppend | src/lib.rs:182-194 | evaluating a list and one more token is evaluating the list, then that token on its stack, unless the list already failed |
| Evaluation.EvaluableDepth | src/lib.rs:180-219 | a postfix list of any length whose numbers parse and whose operators always find two values ends in DivideByZero or with exactly `Depth` values, never InvalidExpression |
| Evaluation.ScanEvaluable | src/lib.rs:221-244 | after any prefix of an alternating number/operation list, the converter's output is such a list, its stack holds only operations, and the output's depth is the stack size plus one after a number, the stack size after an operator |
| Evaluation.WellFormedInfix | src/lib.rs:283-304 | an accepted token list without "=" alternates numbers that parse with operators of positive precedence |
| Evaluation.PostfixSingleValue | src/lib.rs:180-195 | for every well-formed token list without "=", of any length, the postfix form has depth 1 and evaluates to exactly one value or to DivideByZero |
| Evaluation.EvaluateFailsOnlyOnDivide | src/lib.rs:156-178 | for any buffer without '=', the result is InvalidExpression exactly when the tokenizer refuses it, and is otherwise a value or DivideByZero |
| Evaluation.SubtractionExample | src/lib.rs:156-178 | "8-2-1" evaluates to 5 |
| Evaluation.PrecedenceExample | src/lib.rs:156-178 | "2+3x4" evaluates to 14 |
| Evaluation.DivideByZeroExample | src/lib.rs:330-333 | "5/0" is DivideByZero |
| Calculator.Calculator.constructor | src/lib.rs:306-314 | the calculator starts with an empty buffer, value 0 and state None |
| Calculator.Calculator.Update | src/lib.rs:347-398 | the new fields are `Next` of the old ones for the key |
| Calculator.RemoveUndoesKey | src/lib.rs:347-377 | Remove after a one-character key restores the buffer and keeps the value |
| Calculator.StateFollowsOperatorKeys | src/lib.rs:347-398 | only the five operator keys and None set the state, each to itself |
| Calculator.ValueChangesOnlyOnSuccess | src/lib.rs:378-394 | the stored value changes only on Equal, and then to a successful result |
| Calculator.EqualShowsResult | src/lib.rs:378-394 | Equal shows and stores the result on success, otherwise shows the error's message and keeps the value |
| Calculator.RunAppend | src/lib.rs:347-398 | running two key sequences one after the other is running their concatenation |
| Calculator.LeadingLetterRejected | src/lib.rs:287-300 | a text starting with a character that is not a digit, sign, operator or '.' is InvalidExpression |
| Calculator.EqualOnMessage | src/lib.rs:387-392 | Equal on an error message gives "Invalid expression" |
| Calculator.ClearThenEqual | src/lib.rs:378-395 | ClearAll then Equal shows "Invalid expression" and changes nothing else |
| Calculator.DivideByZeroKeys | src/lib.rs:364-391 | the keys 5 / 0 = show "Error divide by zero" and keep the value 0 |
| Calculator.PrecedenceKeys | src/lib.rs:347-386 | the keys 2 + 3 x 4 = show and store 14 |
| Head.Node.constructor | convert_str_to_data.c:9 | a newly allocated node, unlinked as `add_to_list` sets it at utility_functions.c:4 |
| Head.RecsRemove | utility_functions.c:26-45 | unlinking the node at k removes exactly its record |
| Head.RecsAppend | utility_functions.c:3-15 | appending a node appends its record |
| Utility.AddToList | utility_functions.c:3-15 | the list becomes the old nodes followed by the new one; no record changes; the head is the new node for an empty list, the old head otherwise |
| Utility.DeleteNode | utility_functions.c:26-45 | for a listed node, the list loses exactly that node, the others keep their order, and the node's link is cleared; the head is the old successor when the node was the head; an empty list gives NULL; no record changes |
| Utility.ListLen | utility_functions.c:47-55 | the count is the number of nodes in the list |
| Utility.IterationsCount | utility_functions.c:70 | the loop test i < expo - 1 holds exactly for i below `Iterations(expo)` |
| Utility.Potency | utility_functions.c:67-74 | the result is base to the power `Iterations(expo) + 1` |
| Utility.PotencyWhole | utility_functions.c:67-74 | for a whole exponent n >= 1 that is base^n; for an exponent up to 1, 0 included, it is the base |
| Utility.PowerAdd | utility_functions.c:67-74 | base^(m+n) is base^m times base^n |
| Utility.EndProgram | utility_functions.c:76-82 | the result is 1 exactly when the line starts with '0', and 0 otherwise |
| ConvertStr.CountOrder | convert_str_to_data.c:80-94 | the class lies between -1 and 3, and it is -1 exactly for characters outside + - * / ^ = |
| ConvertStr.OperandDetect | convert_str_to_data.c:80-94 | the node gets the character's class; the node comes back, or NULL for a non-operator; other fields are unchanged |
| ConvertStr.RunLength | convert_str_to_data.c:45-54 | the run is the maximal run of digits at i, stopped by a non-digit or the NUL |
| ConvertStr.DigitCharsValue | convert_str_to_data.c:70-74 | the characters written for the digit floats are digits with the value those floats spell |
| ConvertStr.TransformToOne | convert_str_to_data.c:61-78 | the result is the number the n digits spell; no digits give 0 |
| ConvertStr.DigitsDetect | convert_str_to_data.c:36-59 | the position advances past the maximal digit run, and the result is that run's decimal value |
| ConvertStr.ConvertRound | convert_str_to_data.c:13-30 | a round at i fails on a zero or missing number or a non-operator, ends the list on '=', and otherwise continues after the operator |
| ConvertStr.ReadNode | convert_str_to_data.c:7-19 | a fresh, unlinked node; `pass` counts a non-zero number and a recognised operator; with both, the node holds the number, the operator and its class |
| ConvertStr.Round | convert_str_to_data.c:7-30 | a failed round means the whole line is refused; otherwise one fresh node is appended, and on class 0 the list is complete |
| ConvertStr.ConvertStrToData | convert_str_to_data.c:3-34 | NULL when `Convert` refuses the line; otherwise the list holds the records `Convert` reads, in input order; the result is NULL exactly when the line is refused or yields no record, as an empty text does |
| Engine.ConvertShape | convert_str_to_data.c:13-29 | an accepted list has positive numbers, classes that match their operators, none -1, and class 0 only at the end |
| Engine.ConvertLine | convert_str_to_data.c:16-29 | for a line with a newline before its NUL, an accepted list is non-empty and ends with '=' |
| Reduction.DoTheMath | calculate.c:26-49 | the result combines the node with its successor: + - * /, `potency` for '^', and the node's own value otherwise |
| Reduction.PassKinds | calculate.c:10-19 | a pass removes exactly the nodes of its class and keeps the others in order, with their operators and classes |
| Reduction.PassShape | calculate.c:10-19 | after a pass no node of its class remains, its length is the number of other nodes, and every class 1..3 node still has a successor |
| Reduction.FoldStep | calculate.c:11-15 | folding the node at k leaves the same pass still to be made |
| Reduction.SkipStep | calculate.c:16-18 | skipping a node of another class moves the pending pass past it |
| Reduction.FoldNode | calculate.c:11-15 | the successor takes `do_the_math` of the node, the node is unlinked, and the list shrinks by exactly that node |
| Reduction.ReducePass | calculate.c:10-19 | the list afterwards holds `Pass` of the records before |
| Reduction.Calculate | calculate.c:3-24 | the list afterwards holds the records after the power, product and sum passes (`Calc`) |
| Engine.CalcSingle | calculate.c:7-23 | a converted list ending in a class 0 node reduces to that one node |
| Engine.LineReduces | main.c:13-17 | an accepted line gives a list `calculate` can fold, and it folds to a single '=' node |
| Engine.PowerPositive | utility_functions.c:67-74 | a power of a positive base is positive |
| Engine.PassPositive | calculate.c:26-43 | the power and product passes over positive numbers never divide by zero and leave positive numbers |
| Engine.SumsDoNotDivide | calculate.c:29-34 | the sum pass never divides |
| Engine.NoZeroDivisor | calculate.c:38-39 | no pass over a converted list divides by zero |
| Engine.ExamplePrecedence | calculate.c:7-23 | 12+3*4= reduces to the single node 24 = |
| Engine.ExampleLeftAssociative | calculate.c:10-18 | 8-2-1= reduces to 5 |
| Engine.ExamplePower | calculate.c:41-42 | 2^3^2= reduces to (2^3)^2 = 64 |
| Engine.ExampleConvert | convert_str_to_data.c:3-34 | "12+3*4=" reads as (12,+,3) (3,*,2) (4,=,0) |
| Engine.ExampleZeroRejected | convert_str_to_data.c:13-27 | a literal 0 makes the line refused |
| Engine.ExampleMissingRejected | convert_str_to_data.c:13-27 | a missing number makes the line refused |
| Engine.ExampleNoEqualsRejected | convert_str_to_data.c:16-27 | a line without '=' is refused at its newline |
| Engine.ExampleUnterminatedLine | convert_str_to_data.c:6-33 | a last line "12+" without a newline is accepted as the single node (12,+,3), which is not foldable |
| Engine.ExampleStopsAtEquals | convert_str_to_data.c:28-29 | reading stops at the first '='; what follows is ignored |

## Left out

- `Calculator::view`, the button constants and the iced application in `src/main.rs` are user interface and are not modelled.
- main.c's `fgets`/`printf` loop, `print_list` and the error messages are I/O. `Engine.LineReduces` states the composition of converter and reducer on records; the heap-level composition of the two methods in one caller is not modelled.
- IEEE-754 arithmetic is not modelled; values are exact reals, in both engines. Rounding of `+ - * /`, overflow to infinity and NaN are therefore absent.
- `Number.ParseNumber`: `parse::<f64>` is modelled as an exact decimal reader of the texts the tokenizer produces. Rounding to the nearest binary64, exponent notation and "inf"/"nan" texts are not modelled, because the classifier never lets them through.
- `Evaluator.Calculate`: `powf` is the uninterpreted parameter `pow`, so nothing is stated about its values.
- `Calculator.Calculator.Update`: the `f64` rendering of `to_string` and `format!("{}")` is the uninterpreted parameter `render`.
- `Reduction.Combine`: a C float division by zero gives an infinity or NaN; the model gives 0.0 there instead. `Engine.NoZeroDivisor` proves that no list the converter accepts ever reaches that case.
- `utility_functions.c`: `malloc`, `free`, the out-of-memory `exit` paths and `free_list` are not modelled. Freed nodes stay allocated and unreachable. The leak in convert_str_to_data.c:16-24, where `new` is overwritten with NULL before `free`, is not modelled either.
- `Utility.Potency`: the loop counter is a C `int` compared with a float. The model takes it to be unbounded.
- `ConvertStr.ConvertStrToData` requires an empty starting list (`root == null`), which its one caller, main.c:6-13, always passes. Appending to an existing list is not modelled.
- `ConvertStr.ConvertStrToData` and `ConvertStr.DigitsDetect`: a digit run of MAX_ARR (26) or more would overflow the buffers of `digits_detect` and `transform_to_one`. This is a precondition (`FitsBuffers`), not modelled behaviour. The MAX_CHAR limit of `fgets` is not modelled.
- `ConvertStr.TransformToOne`: `strtod` and the cast to `float` are modelled as the exact value of the digits.
- `Reduction.Calculate` requires that every node of class 1..3 has a successor (`Foldable`). The source crashes on the inputs this excludes. main.c:8 ignores what `fgets` returns, so a last line without a newline, such as "12+" followed by NUL, reaches `convert_str_to_data`. That function accepts it as the one node (12,+,3) (`Engine.ExampleUnterminatedLine`), and calculate.c:13 then follows its NULL link. `Engine.LineReduces` covers only lines that contain a newline.
- A read at end of input that gets nothing leaves the `malloc`'d buffer of main.c:5 uninitialised; what the program then reads is not modelled.
- Longer tokenizer test cases (src/lib.rs:106 and 110) are not restated as lemmas. `Tokenizer.TokenizeConcat` and the evaluation lemmas cover them in general.
