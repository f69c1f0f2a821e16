/** The character and substring classifiers of the Rust engine (src/lib.rs:28-87). */
module Classifier {

  const PLUS := '+'
  const MINUS := '-'
  const MULTIPLY := 'x'
  const DIVIDE := '/'
  const EQUAL := '='
  const POWER := '^'

  /** src/lib.rs `is_number`. */
  predicate IsNumber(c: char) {
    '0' <= c <= '9'
  }

  /** src/lib.rs `is_operator`: note that '=' is an operator character here. */
  predicate IsOperator(c: char) {
    c == PLUS || c == MINUS || c == MULTIPLY || c == DIVIDE || c == EQUAL || c == POWER
  }

  /** `is_number` accepts exactly the ten decimal digits. */
  lemma DigitCharacters(c: char)
    ensures IsNumber(c) <==> c in "0123456789"
  {
  }

  /** `is_operator` accepts exactly six characters, '=' among them, and no digit. */
  lemma OperatorCharacters(c: char)
    ensures IsOperator(c) <==> c in "+-x/=^"
    ensures IsOperator(c) ==> !IsNumber(c)
  {
  }

  /** What `str_is_operator` decides: the text is exactly one operator character. */
  predicate IsOperatorToken(text: string) {
    |text| == 1 && IsOperator(text[0])
  }

  /** src/lib.rs `str_is_operator`: counts the characters and remembers whether any was an
      operator; only a one-character text can pass. */
  method StrIsOperator(text: string) returns (b: bool)
    ensures b == IsOperatorToken(text)
  {
    var i := 0;
    var operatorFound := false;
    while i < |text|
      invariant 0 <= i <= |text|
      invariant operatorFound <==> exists j :: 0 <= j < i && IsOperator(text[j])
    {
      if IsOperator(text[i]) {
        operatorFound := true;
      }
      i := i + 1;
    }
    b := i == 1 && operatorFound;
  }

  predicate HasDigit(text: string) {
    exists i :: 0 <= i < |text| && IsNumber(text[i])
  }

  /** Whether `contains_only_numbers` lets character i through. Because the guard at
      src/lib.rs:74 reads `(i == 0 && ch == PLUS) || ch == MINUS`, a '-' is skipped at
      every position and a '+' only at index 0; apart from those, only digits and the
      first '.' are admitted. */
  predicate Admitted(text: string, i: int)
    requires 0 <= i < |text|
  {
    || IsNumber(text[i])
    || text[i] == MINUS
    || (i == 0 && text[i] == PLUS)
    || (text[i] == '.' && '.' !in text[..i])
  }

  /** The numeric-segment predicate `contains_only_numbers` computes: every character is
      admitted and at least one is a digit. */
  predicate IsNumericLiteral(text: string) {
    HasDigit(text) && forall i :: 0 <= i < |text| ==> Admitted(text, i)
  }

  /** src/lib.rs `contains_only_numbers`, with its flag, its counter and its `continue`. */
  method ContainsOnlyNumbers(text: string) returns (b: bool)
    ensures b == IsNumericLiteral(text)
  {
    var onlyNumbersFound := false;
    var decimalPoint := false;
    var decimalPointCount := 0;
    var i := 0;
    while i < |text|
      invariant 0 <= i <= |text|
      invariant !decimalPoint
      invariant decimalPointCount == if '.' in text[..i] then 1 else 0
      invariant onlyNumbersFound == HasDigit(text[..i])
      invariant forall j :: 0 <= j < i ==> Admitted(text, j)
    {
      var ch := text[i];
      assert text[..i + 1] == text[..i] + [ch];
      if ch == '.' && decimalPointCount == 0 {
        decimalPoint := true;
        decimalPointCount := decimalPointCount + 1;
      }
      if (i == 0 && ch == PLUS) || ch == MINUS {
        i := i + 1;
        continue;
      }
      if IsNumber(ch) {
        onlyNumbersFound := true;
      } else if decimalPoint {
        decimalPoint := false;
      } else {
        assert !Admitted(text, i);
        return false;
      }
      i := i + 1;
    }
    assert text[..i] == text;
    return onlyNumbersFound;
  }

  /** A second '.' is never admitted, so a numeric literal has at most one. */
  lemma SecondDotRejected(text: string, i: int, j: int)
    requires 0 <= i < j < |text| && text[i] == '.' && text[j] == '.'
    ensures !IsNumericLiteral(text)
  {
    assert text[..j][i] == '.';
    assert !Admitted(text, j);
  }

  /** A non-empty run of digits is a numeric literal. */
  lemma DigitsAccepted(text: string)
    requires |text| > 0 && forall i :: 0 <= i < |text| ==> IsNumber(text[i])
    ensures IsNumericLiteral(text)
  {
    assert IsNumber(text[0]);
  }

  /** Digits with at most one '.', at position `dot`, and a digit at position d, form a
      numeric literal. */
  lemma DecimalAccepted(text: string, dot: int, d: int)
    requires forall i :: 0 <= i < |text| && i != dot ==> IsNumber(text[i])
    requires 0 <= dot < |text| ==> text[dot] == '.' || IsNumber(text[dot])
    requires 0 <= d < |text| && d != dot
    ensures IsNumericLiteral(text)
  {
    assert IsNumber(text[d]);
    forall i | 0 <= i < |text| ensures Admitted(text, i) {
      if i == dot && !IsNumber(text[i]) {
        assert forall p :: 0 <= p < i ==> text[..i][p] == text[p] && text[p] != '.';
      }
    }
  }

  /** A numeric literal is never an operator token, and vice versa: one-character
      operator texts have no digit. */
  lemma OperatorTokenNotNumeric(text: string)
    requires IsOperatorToken(text)
    ensures !IsNumericLiteral(text)
  {
  }

  /** The test cases of src/lib.rs:95-101 and the two edge cases without a digit. */
  lemma ContainsOnlyNumbersExamples()
    ensures IsNumericLiteral("231") && IsNumericLiteral("2") && IsNumericLiteral("1200")
    ensures !IsNumericLiteral("213+213") && !IsNumericLiteral("ee22") && !IsNumericLiteral("as")
    ensures !IsNumericLiteral("") && !IsNumericLiteral(".")
  {
    DigitsAccepted("231");
    DigitsAccepted("2");
    DigitsAccepted("1200");
    assert !Admitted("213+213", 3);
    assert !Admitted("ee22", 0);
    assert !Admitted("as", 0);
    assert !HasDigit(".");
  }

  /** The grouping at src/lib.rs:74 admits a leading sign, and also a '-' in the middle
      of a segment. */
  lemma SignQuirkExamples()
    ensures IsNumericLiteral("+534") && IsNumericLiteral("-5") && IsNumericLiteral("5-3")
    ensures !IsNumericLiteral("5+3") && !IsNumericLiteral("+") && !IsNumericLiteral("-")
  {
    assert IsNumber("+534"[1]);
    assert IsNumber("-5"[1]);
    assert IsNumber("5-3"[0]);
    assert !Admitted("5+3", 1);
    assert !HasDigit("+");
    assert !HasDigit("-");
  }

  /** `str_is_operator` on the test cases of src/lib.rs:115-125. */
  lemma StrIsOperatorExamples()
    ensures IsOperatorToken("+") && IsOperatorToken("-") && IsOperatorToken("x")
    ensures IsOperatorToken("/") && IsOperatorToken("^")
    ensures !IsOperatorToken(" ^") && !IsOperatorToken("^ ") && !IsOperatorToken(" ")
    ensures !IsOperatorToken("/ ")
  {
  }
}
