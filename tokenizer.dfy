/** The tokenizer of the Rust engine, `parse_expression` (src/lib.rs:283-304): it splits a
    buffer with no delimiters at every operator character that is not the first character,
    and checks every numeric segment with `contains_only_numbers`. */
module Tokenizer {
  import opened Base
  import opened Classifier

  /** Position i ends a numeric segment: an operator character other than the first. */
  predicate IsSeparator(e: string, i: int)
    requires 0 <= i < |e|
  {
    IsOperator(e[i]) && i > 0
  }

  predicate NoSeparator(e: string, from: int, to: int)
    requires 0 <= from <= to <= |e|
  {
    forall p :: from <= p < to ==> !IsSeparator(e, p)
  }

  /** The pieces the scan of `parse_expression` produces from index i on, when the current
      segment began at `start`: segment, operator, segment, ..., segment. */
  function SplitFrom(e: string, start: nat, i: nat): seq<string>
    requires start <= i <= |e|
    decreases |e| - i
  {
    if i == |e| then [e[start..]]
    else if IsSeparator(e, i) then [e[start..i], e[i..i + 1]] + SplitFrom(e, i + 1, i + 1)
    else SplitFrom(e, start, i + 1)
  }

  function Split(e: string): seq<string> {
    SplitFrom(e, 0, 0)
  }

  predicate SegmentsNumeric(pieces: seq<string>) {
    forall k :: 0 <= k < |pieces| && k % 2 == 0 ==> IsNumericLiteral(pieces[k])
  }

  /** What `parse_expression` returns: the pieces, or InvalidExpression as soon as one
      segment is not numeric. */
  function Tokenize(e: string): Result<seq<string>> {
    var pieces := Split(e);
    if SegmentsNumeric(pieces) then Ok(pieces) else Err(InvalidExpression)
  }

  function Concat(pieces: seq<string>): string {
    if pieces == [] then [] else pieces[0] + Concat(pieces[1..])
  }

  /** Segment and operator tokens alternate, starting and ending with a segment. */
  predicate Alternates(tokens: seq<string>) {
    && |tokens| % 2 == 1
    && forall k :: 0 <= k < |tokens| && k % 2 == 1 ==> IsOperatorToken(tokens[k])
  }

  /** No segment holds an operator character, except possibly the very first character of
      the expression (the tokenizer never splits at index 0). */
  predicate OperatorFreeSegments(tokens: seq<string>) {
    forall k, j :: 0 <= k < |tokens| && k % 2 == 0 && 0 <= j < |tokens[k]| && IsOperator(tokens[k][j]) ==>
      k == 0 && j == 0
  }

  /** The token lists `parse_expression` can return. */
  predicate WellFormed(tokens: seq<string>) {
    Alternates(tokens) && SegmentsNumeric(tokens) && OperatorFreeSegments(tokens)
  }

  /** src/lib.rs `parse_expression`. Characters and bytes coincide (the buffer is ASCII). */
  method ParseExpression(expression: string) returns (r: Result<seq<string>>)
    ensures r == Tokenize(expression)
  {
    var parsed: seq<string> := [];
    var start := 0;
    var i := 0;
    while i < |expression|
      invariant start <= i <= |expression|
      invariant |parsed| % 2 == 0
      invariant SegmentsNumeric(parsed)
      invariant parsed + SplitFrom(expression, start, i) == Split(expression)
    {
      var character := expression[i];
      if IsOperator(character) && i > 0 {
        var segment := expression[start..i];
        var numeric := ContainsOnlyNumbers(segment);
        assert Split(expression) == parsed + [segment, expression[i..i + 1]] + SplitFrom(expression, i + 1, i + 1);
        if numeric {
          parsed := parsed + [segment];
          start := i + 1;
        } else {
          assert Split(expression)[|parsed|] == segment;
          return Err(InvalidExpression);
        }
        parsed := parsed + [expression[i..start]];
      }
      i := i + 1;
    }
    var last := expression[start..|expression|];
    var numeric := ContainsOnlyNumbers(last);
    assert i == |expression| && last == expression[start..];
    assert SplitFrom(expression, start, i) == [last];
    if numeric {
      parsed := parsed + [last];
    } else {
      assert Split(expression)[|parsed|] == last;
      return Err(InvalidExpression);
    }
    return Ok(parsed);
  }

  // ----- lossless and alternating -----

  lemma {:induction false} ConcatAppend(a: seq<string>, b: seq<string>)
    ensures Concat(a + b) == Concat(a) + Concat(b)
  {
    if a != [] {
      assert (a + b)[0] == a[0];
      assert (a + b)[1..] == a[1..] + b;
      ConcatAppend(a[1..], b);
      calc {
        Concat(a + b);
        a[0] + Concat(a[1..] + b);
        a[0] + (Concat(a[1..]) + Concat(b));
        (a[0] + Concat(a[1..])) + Concat(b);
        Concat(a) + Concat(b);
      }
    } else {
      assert a + b == b;
    }
  }

  lemma {:induction false} SplitFromLossless(e: string, start: nat, i: nat)
    requires start <= i <= |e|
    ensures Concat(SplitFrom(e, start, i)) == e[start..]
    decreases |e| - i
  {
    var p := SplitFrom(e, start, i);
    if i == |e| {
      assert Concat(p) == e[start..] + Concat([]);
    } else if IsSeparator(e, i) {
      var rest := SplitFrom(e, i + 1, i + 1);
      SplitFromLossless(e, i + 1, i + 1);
      ConcatAppend([e[start..i], e[i..i + 1]], rest);
      assert Concat([e[start..i], e[i..i + 1]]) == e[start..i] + e[i..i + 1] + Concat([]);
      assert e[start..] == e[start..i] + e[i..i + 1] + e[i + 1..];
    } else {
      SplitFromLossless(e, start, i + 1);
    }
  }

  lemma {:induction false} SplitFromAlternates(e: string, start: nat, i: nat)
    requires start <= i <= |e|
    ensures Alternates(SplitFrom(e, start, i))
    decreases |e| - i
  {
    var p := SplitFrom(e, start, i);
    if i < |e| && IsSeparator(e, i) {
      var rest := SplitFrom(e, i + 1, i + 1);
      SplitFromAlternates(e, i + 1, i + 1);
      forall k | 0 <= k < |p| && k % 2 == 1 ensures IsOperatorToken(p[k]) {
        if k > 1 { assert p[k] == rest[k - 2]; }
      }
    } else if i < |e| {
      SplitFromAlternates(e, start, i + 1);
    }
  }

  /** No operator character in s at index `from` or later. */
  predicate NoOperatorIn(s: string, from: nat) {
    forall j :: from <= j < |s| ==> !IsOperator(s[j])
  }

  lemma {:induction false} SplitFromOperatorFree(e: string, start: nat, i: nat)
    requires start <= i <= |e| && NoSeparator(e, start, i)
    ensures var p := SplitFrom(e, start, i);
      && |p| > 0
      && NoOperatorIn(p[0], if start == 0 then 1 else 0)
      && forall k :: 0 < k < |p| && k % 2 == 0 ==> NoOperatorIn(p[k], 0)
    decreases |e| - i
  {
    var p := SplitFrom(e, start, i);
    if i == |e| || IsSeparator(e, i) {
      assert |p| > 0;
      assert p[0] == e[start..i];
      forall j | (if start == 0 then 1 else 0) <= j < |p[0]| ensures !IsOperator(p[0][j]) {
        assert p[0][j] == e[start + j];
        assert !IsSeparator(e, start + j);
      }
    }
    if i < |e| && IsSeparator(e, i) {
      var rest := SplitFrom(e, i + 1, i + 1);
      SplitFromOperatorFree(e, i + 1, i + 1);
      assert p == [e[start..i], e[i..i + 1]] + rest;
      forall k | 2 <= k < |p| && k % 2 == 0 ensures NoOperatorIn(p[k], 0) {
        assert p[k] == rest[k - 2];
        if k > 2 {
          assert NoOperatorIn(rest[k - 2], 0);
        }
      }
    } else if i < |e| {
      SplitFromOperatorFree(e, start, i + 1);
    }
  }

  /** Tokenization is lossless and alternating, and every segment is numeric. */
  lemma TokenizeSound(e: string)
    requires Tokenize(e).Ok?
    ensures WellFormed(Tokenize(e).value)
    ensures Concat(Tokenize(e).value) == e
  {
    SplitFromLossless(e, 0, 0);
    SplitFromAlternates(e, 0, 0);
    SplitFromOperatorFree(e, 0, 0);
  }

  // ----- the round trip: tokens back to text and back to tokens -----

  lemma {:induction false} SplitSkip(e: string, start: nat, i: nat, j: nat)
    requires start <= i <= j <= |e| && NoSeparator(e, i, j)
    ensures SplitFrom(e, start, i) == SplitFrom(e, start, j)
    decreases j - i
  {
    if i < j {
      SplitSkip(e, start, i + 1, j);
    }
  }

  lemma {:induction false} SplitFromConcat(e: string, start: nat, t: seq<string>)
    requires start <= |e| && e[start..] == Concat(t)
    requires Alternates(t)
    requires forall k :: 0 <= k < |t| && k % 2 == 0 ==> |t[k]| > 0
    requires forall k, j :: 0 <= k < |t| && k % 2 == 0 && 0 <= j < |t[k]| && IsOperator(t[k][j]) ==>
      start == 0 && k == 0 && j == 0
    ensures SplitFrom(e, start, start) == t
    decreases |t|
  {
    var s := t[0];
    var m := start + |s|;
    assert Concat(t) == s + Concat(t[1..]);
    assert e[start..m] == s;
    forall p | start <= p < m ensures !IsSeparator(e, p) {
      assert e[p] == s[p - start];
    }
    if |t| == 1 {
      assert Concat(t[1..]) == [];
      assert m == |e|;
      SplitSkip(e, start, start, m);
      assert SplitFrom(e, start, m) == [e[start..]];
      assert e[start..] == e[start..m];
      assert t == [s];
      assert SplitFrom(e, start, start) == [s];
    } else {
      var o := t[1];
      var rest := t[2..];
      assert t[1..] == [o] + rest;
      ConcatAppend([o], rest);
      assert Concat([o]) == o + Concat([]);
      assert e[start..] == s + o + Concat(rest);
      assert e[m] == o[0];
      assert e[m..m + 1] == o;
      assert e[m + 1..] == Concat(rest);
      SplitSkip(e, start, start, m);
      assert IsSeparator(e, m);
      forall k | 0 <= k < |rest| && k % 2 == 1 ensures IsOperatorToken(rest[k]) {
        assert rest[k] == t[k + 2];
      }
      forall k | 0 <= k < |rest| && k % 2 == 0 ensures |rest[k]| > 0 {
        assert rest[k] == t[k + 2];
      }
      forall k, j | 0 <= k < |rest| && k % 2 == 0 && 0 <= j < |rest[k]| ensures !IsOperator(rest[k][j]) {
        assert rest[k] == t[k + 2];
      }
      SplitFromConcat(e, m + 1, rest);
    }
  }

  /** Every well-formed token list is what the tokenizer makes of its own concatenation:
      together with TokenizeSound this characterizes the Ok results completely. */
  lemma TokenizeConcat(t: seq<string>)
    requires WellFormed(t)
    ensures Tokenize(Concat(t)) == Ok(t)
  {
    var e := Concat(t);
    assert e[0..] == e;
    forall k | 0 <= k < |t| && k % 2 == 0 ensures |t[k]| > 0 {
      assert IsNumericLiteral(t[k]);
    }
    SplitFromConcat(e, 0, t);
  }

  // ----- the error cases -----

  /** e[a..b] is one numeric segment of the scan: it starts at the beginning or after a
      separator, ends at the end or at a separator, and holds no separator. */
  predicate IsSegment(e: string, a: int, b: int) {
    && 0 <= a <= b <= |e|
    && (a == 0 || IsSeparator(e, a - 1))
    && (b == |e| || IsSeparator(e, b))
    && NoSeparator(e, a, b)
  }

  lemma {:induction false} SegmentInSplitFrom(e: string, start: nat, i: nat, a: int, b: int)
    requires start <= i <= |e| && NoSeparator(e, start, i)
    requires IsSegment(e, a, b) && start <= a
    ensures exists k :: 0 <= k < |SplitFrom(e, start, i)| && k % 2 == 0 && SplitFrom(e, start, i)[k] == e[a..b]
    decreases |e| - i
  {
    var p := SplitFrom(e, start, i);
    if a > start {
      assert IsSeparator(e, a - 1);
      assert a - 1 >= i;
    }
    if i == |e| {
      assert a == start;
      assert b == |e|;
      assert p[0] == e[a..b];
    } else if IsSeparator(e, i) {
      var rest := SplitFrom(e, i + 1, i + 1);
      assert p == [e[start..i], e[i..i + 1]] + rest;
      if a == start {
        assert b == i;
        assert p[0] == e[a..b];
      } else {
        SegmentInSplitFrom(e, i + 1, i + 1, a, b);
        var k :| 0 <= k < |rest| && k % 2 == 0 && rest[k] == e[a..b];
        assert p[k + 2] == e[a..b];
      }
    } else {
      SegmentInSplitFrom(e, start, i + 1, a, b);
    }
  }

  /** A segment that is not a numeric literal makes the whole expression invalid. */
  lemma SegmentRejects(e: string, a: int, b: int)
    requires IsSegment(e, a, b) && !IsNumericLiteral(e[a..b])
    ensures Tokenize(e) == Err(InvalidExpression)
  {
    SegmentInSplitFrom(e, 0, 0, a, b);
  }

  lemma EmptyRejected()
    ensures Tokenize("") == Err(InvalidExpression)
  {
    SegmentRejects("", 0, 0);
  }

  /** An expression that ends with an operator character is invalid. */
  lemma TrailingOperatorRejected(e: string)
    requires |e| > 0 && IsOperator(e[|e| - 1])
    ensures Tokenize(e) == Err(InvalidExpression)
  {
    if |e| == 1 {
      assert e[0..1] == e;
      OperatorTokenNotNumeric(e);
      SegmentRejects(e, 0, 1);
    } else {
      SegmentRejects(e, |e|, |e|);
    }
  }

  /** Two adjacent operator characters make the expression invalid. */
  lemma AdjacentOperatorsRejected(e: string, i: int)
    requires 0 <= i && i + 1 < |e| && IsOperator(e[i]) && IsOperator(e[i + 1])
    ensures Tokenize(e) == Err(InvalidExpression)
  {
    if i == 0 {
      OperatorTokenNotNumeric(e[0..1]);
      SegmentRejects(e, 0, 1);
    } else {
      SegmentRejects(e, i + 1, i + 1);
    }
  }

  /** Where the segment around position i begins. */
  function SegmentStart(e: string, i: nat): (a: nat)
    requires i <= |e|
    ensures a <= i && (a == 0 || IsSeparator(e, a - 1)) && NoSeparator(e, a, i)
  {
    if i == 0 || IsSeparator(e, i - 1) then i else SegmentStart(e, i - 1)
  }

  /** Where the segment around position j ends. */
  function SegmentEnd(e: string, j: nat): (b: nat)
    requires j <= |e|
    ensures j <= b <= |e| && (b == |e| || IsSeparator(e, b)) && NoSeparator(e, j, b)
    decreases |e| - j
  {
    if j == |e| || IsSeparator(e, j) then j else SegmentEnd(e, j + 1)
  }

  /** Two '.' in one segment make the expression invalid. */
  lemma DoubleDotRejected(e: string, i: int, j: int)
    requires 0 <= i < j < |e| && e[i] == '.' && e[j] == '.' && NoSeparator(e, i, j)
    ensures Tokenize(e) == Err(InvalidExpression)
  {
    var a := SegmentStart(e, i);
    var b := SegmentEnd(e, j);
    assert !IsSeparator(e, j);
    assert IsSegment(e, a, b);
    var seg := e[a..b];
    assert seg[i - a] == '.' && seg[j - a] == '.';
    SecondDotRejected(seg, i - a, j - a);
    SegmentRejects(e, a, b);
  }

  /** The test case at src/lib.rs:108. */
  lemma TokenizeAcceptsTrailingDot()
    ensures Tokenize("35.+12") == Ok(["35.", "+", "12"])
  {
    DecimalAccepted("35.", 2, 0); DecimalAccepted("12", -1, 0);
    WellFormedSingle("12");
    WellFormedPrepend("35.", "+", ["12"]);
    assert ["35.", "+"] + ["12"] == ["35.", "+", "12"];
    assert "35." + "+" + "12" == "35.+12";
    TokenizeConcat(["35.", "+", "12"]);
  }

  /** The test case at src/lib.rs:109. */
  lemma TokenizeAcceptsLeadingDot()
    ensures Tokenize(".5x54") == Ok([".5", "x", "54"])
  {
    DecimalAccepted(".5", 0, 1); DecimalAccepted("54", -1, 0);
    WellFormedSingle("54");
    WellFormedPrepend(".5", "x", ["54"]);
    assert [".5", "x"] + ["54"] == [".5", "x", "54"];
    assert ".5" + "x" + "54" == ".5x54";
    TokenizeConcat([".5", "x", "54"]);
  }

  /** The test case at src/lib.rs:111 expects "+534-2" to be refused, but the tokenizer
      accepts it: the leading '+' is never a separator and "+534" passes
      `contains_only_numbers`. */
  lemma TokenizeAcceptsLeadingSign()
    ensures Tokenize("+534-2") == Ok(["+534", "-", "2"])
  {
    SignQuirkExamples();
    DecimalAccepted("2", -1, 0);
    WellFormedSingle("2");
    WellFormedPrepend("+534", "-", ["2"]);
    assert ["+534", "-"] + ["2"] == ["+534", "-", "2"];
    assert "+534" + "-" + "2" == "+534-2";
    TokenizeConcat(["+534", "-", "2"]);
  }

  /** The test case at src/lib.rs:107: the second '.' of "30..5" is refused. */
  lemma TokenizeRejectsDoubleDot()
    ensures Tokenize("30..5+12-5x65") == Err(InvalidExpression)
  {
    DoubleDotRejected("30..5+12-5x65", 2, 3);
  }

  /** One numeric literal without operator characters is a well-formed token list. */
  lemma WellFormedSingle(s: string)
    requires IsNumericLiteral(s) && forall j :: 0 <= j < |s| ==> !IsOperator(s[j])
    ensures WellFormed([s]) && Concat([s]) == s
  {
    assert Concat([s]) == s + Concat([]);
  }

  /** Prepending a segment and an operator to a well-formed token list whose first segment
      holds no operator character keeps it well-formed. */
  lemma WellFormedPrepend(s: string, o: string, t: seq<string>)
    requires IsNumericLiteral(s) && forall j :: 1 <= j < |s| ==> !IsOperator(s[j])
    requires IsOperatorToken(o) && WellFormed(t)
    requires forall j :: 0 <= j < |t[0]| ==> !IsOperator(t[0][j])
    ensures WellFormed([s, o] + t) && Concat([s, o] + t) == s + o + Concat(t)
  {
    var u := [s, o] + t;
    forall k | 0 <= k < |u| && k >= 2 ensures u[k] == t[k - 2] { }
    assert Alternates(u);
    assert SegmentsNumeric(u);
    assert OperatorFreeSegments(u);
    ConcatPrepend(s, o, t);
  }

  lemma ConcatPrepend(s: string, o: string, t: seq<string>)
    ensures Concat([s, o] + t) == s + o + Concat(t)
  {
    var u := [s, o] + t;
    assert u[1..] == [o] + t;
    assert u[2..] == t;
    assert Concat(u) == s + Concat([o] + t);
    assert Concat([o] + t) == o + Concat(t);
  }
}
