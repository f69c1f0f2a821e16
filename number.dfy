/** Reading a numeric token as a number, the role `str::parse::<f64>` plays at
    src/lib.rs:184. The value is the exact decimal the text denotes; rounding to the nearest
    binary64 is not modelled. */
module Number {
  import opened Base
  import opened Classifier
  import Tokenizer

  predicate AllDigits(s: string) {
    forall i :: 0 <= i < |s| ==> IsNumber(s[i])
  }

  function DigitValue(c: char): (d: nat)
    requires IsNumber(c)
    ensures d <= 9
  {
    (c as int) - ('0' as int)
  }

  /** The character of a decimal digit. */
  function DigitChar(d: nat): (c: char)
    requires d <= 9
    ensures IsNumber(c) && DigitValue(c) == d
  {
    (('0' as int) + d) as char
  }

  /** The value of a run of decimal digits, most significant first. */
  function DigitsValue(s: string): nat
    requires AllDigits(s)
    decreases |s|
  {
    if s == [] then 0 else 10 * DigitsValue(s[..|s| - 1]) + DigitValue(s[|s| - 1])
  }

  function Pow10(n: nat): (p: nat)
    ensures p > 0
  {
    if n == 0 then 1 else 10 * Pow10(n - 1)
  }

  /** Index of the first '.' of a text that has one. */
  function DotIndex(s: string): (d: nat)
    requires '.' in s
    ensures d < |s| && s[d] == '.' && '.' !in s[..d]
    decreases |s|
  {
    if s[0] == '.' then 0
    else
      assert '.' in s[1..] by {
        var k :| 0 <= k < |s| && s[k] == '.';
        assert s[1..][k - 1] == '.';
      }
      var d := 1 + DotIndex(s[1..]);
      assert s[..d] == [s[0]] + s[1..][..d - 1];
      d
  }

  /** An unsigned decimal: digits with at most one '.', and at least one digit. */
  function Unsigned(body: string): Option<real> {
    if '.' in body then
      var d := DotIndex(body);
      var whole := body[..d];
      var frac := body[d + 1..];
      if AllDigits(whole) && AllDigits(frac) && |whole| + |frac| > 0 then
        Some(DigitsValue(whole) as real + DigitsValue(frac) as real / Pow10(|frac|) as real)
      else Option.None
    else if AllDigits(body) && |body| > 0 then Some(DigitsValue(body) as real)
    else Option.None
  }

  /** A decimal with an optional leading sign, as `parse::<f64>` reads the texts the
      classifier lets through. */
  function ParseNumber(text: string): Option<real> {
    if |text| > 0 && (text[0] == PLUS || text[0] == MINUS) then
      match Unsigned(text[1..])
      case None => Option.None
      case Some(v) => Some(if text[0] == MINUS then -v else v)
    else Unsigned(text)
  }

  // ----- which texts parse -----

  /** Every character a digit or the first '.', and at least one digit. */
  predicate PlainDecimal(body: string) {
    && HasDigit(body)
    && forall i :: 0 <= i < |body| ==> IsNumber(body[i]) || (body[i] == '.' && '.' !in body[..i])
  }

  lemma UnsignedExactly(body: string)
    ensures Unsigned(body).Some? <==> PlainDecimal(body)
  {
    if '.' in body {
      var d := DotIndex(body);
      var whole := body[..d];
      var frac := body[d + 1..];
      if PlainDecimal(body) {
        forall i | 0 <= i < |whole| ensures IsNumber(whole[i]) {
          assert whole[i] == body[i];
          assert body[i] != '.' by {
            assert body[..d][i] == body[i];
          }
        }
        forall i | 0 <= i < |frac| ensures IsNumber(frac[i]) {
          assert frac[i] == body[d + 1 + i];
          assert body[..d + 1 + i][d] == '.';
        }
        var k :| 0 <= k < |body| && IsNumber(body[k]);
        assert k != d;
      }
      if Unsigned(body).Some? {
        forall i | 0 <= i < |body| ensures IsNumber(body[i]) || (body[i] == '.' && '.' !in body[..i]) {
          if i < d {
            assert body[i] == whole[i];
          } else if i > d {
            assert body[i] == frac[i - d - 1];
          }
        }
        if |whole| > 0 {
          assert IsNumber(body[0]) by { assert body[0] == whole[0]; }
        } else {
          assert IsNumber(body[d + 1]) by { assert body[d + 1] == frac[0]; }
        }
      }
    } else {
      if PlainDecimal(body) {
        var k :| 0 <= k < |body| && IsNumber(body[k]);
      }
      if Unsigned(body).Some? {
        assert IsNumber(body[0]);
      }
    }
  }

  /** The text after an optional leading sign. */
  function Body(text: string): string {
    if |text| > 0 && (text[0] == PLUS || text[0] == MINUS) then text[1..] else text
  }

  /** A numeric literal with no operator character after its first parses. */
  lemma ParseNumberComplete(text: string)
    requires IsNumericLiteral(text) && Tokenizer.NoOperatorIn(text, 1)
    ensures ParseNumber(text).Some?
  {
    var signed := |text| > 0 && (text[0] == PLUS || text[0] == MINUS);
    var body := Body(text);
    forall i | 0 <= i < |body| ensures IsNumber(body[i]) || (body[i] == '.' && '.' !in body[..i]) {
      var j := if signed then i + 1 else i;
      assert body[i] == text[j];
      assert Admitted(text, j);
      if signed {
        assert body[..i] == text[1..j];
        if '.' in body[..i] {
          var p :| 0 <= p < |body[..i]| && body[..i][p] == '.';
          assert text[..j][p + 1] == '.';
        }
      } else {
        assert body[..i] == text[..j];
      }
    }
    var k :| 0 <= k < |text| && IsNumber(text[k]);
    if signed {
      assert body[k - 1] == text[k];
    }
    UnsignedExactly(body);
  }

  /** Every text that parses is a numeric literal with no operator character after its
      first. */
  lemma ParseNumberSound(text: string)
    requires ParseNumber(text).Some?
    ensures IsNumericLiteral(text) && Tokenizer.NoOperatorIn(text, 1)
  {
    var body := Body(text);
    UnsignedExactly(body);
    forall j | 0 <= j < |text| ensures Admitted(text, j) && (j >= 1 ==> !IsOperator(text[j])) {
      SoundAt(text, j);
    }
    var k :| 0 <= k < |body| && IsNumber(body[k]);
    if body != text {
      assert text[k + 1] == body[k];
    }
  }

  lemma SoundAt(text: string, j: int)
    requires 0 <= j < |text| && PlainDecimal(Body(text))
    ensures Admitted(text, j) && (j >= 1 ==> !IsOperator(text[j]))
  {
    var signed := text[0] == PLUS || text[0] == MINUS;
    var body := Body(text);
    if !(signed && j == 0) {
      var i := if signed then j - 1 else j;
      assert body[i] == text[j];
      if signed {
        assert text[..j] == [text[0]] + body[..i];
      } else {
        assert body[..i] == text[..j];
      }
    }
  }

  /** The numeric tokens the tokenizer can produce are exactly the texts that parse. */
  lemma ParseNumberExactly(text: string)
    ensures ParseNumber(text).Some? <==> IsNumericLiteral(text) && Tokenizer.NoOperatorIn(text, 1)
  {
    if ParseNumber(text).Some? {
      ParseNumberSound(text);
    }
    if IsNumericLiteral(text) && Tokenizer.NoOperatorIn(text, 1) {
      ParseNumberComplete(text);
    }
  }

  // ----- the round trip from a natural number to its decimal text -----

  /** The decimal text of a natural number, without leading zeros. */
  function NatText(n: nat): (s: string)
    ensures |s| > 0 && AllDigits(s)
  {
    if n < 10 then [DigitChar(n)] else NatText(n / 10) + [DigitChar(n % 10)]
  }

  lemma {:induction false} NatTextValue(n: nat)
    ensures DigitsValue(NatText(n)) == n
  {
    var s := NatText(n);
    if n >= 10 {
      NatTextValue(n / 10);
      assert s[..|s| - 1] == NatText(n / 10);
    } else {
      assert s[..0] == [];
    }
  }

  /** Reading back the decimal text of a natural number gives the number. */
  lemma ParseNatText(n: nat)
    ensures ParseNumber(NatText(n)) == Some(n as real)
  {
    var s := NatText(n);
    NatTextValue(n);
    assert '.' !in s by {
      forall i | 0 <= i < |s| ensures s[i] != '.' {
        assert IsNumber(s[i]);
      }
    }
    assert IsNumber(s[0]);
  }

  /** Readings of a whole number, a decimal and a signed number. */
  lemma ParseNumberExamples()
    ensures ParseNumber("12") == Some(12.0)
    ensures ParseNumber("1.5") == Some(1.5)
    ensures ParseNumber("-5") == Some(-5.0)
  {
    assert "12"[..1] == "1";
    assert DigitsValue("12") == 12;
    assert DotIndex("1.5") == 1;
    assert "1.5"[..1] == "1" && "1.5"[2..] == "5";
    assert "-5"[1..] == "5";
  }

  /** A trailing or a leading '.' is accepted; a '-' inside and a lone sign are not. */
  lemma ParseNumberEdgeExamples()
    ensures ParseNumber("35.") == Some(35.0)
    ensures ParseNumber(".5") == Some(0.5)
    ensures ParseNumber("5-3") == Option.None
    ensures ParseNumber("+") == Option.None
  {
    assert DotIndex("35.") == 2;
    assert "35."[..2] == "35" && "35."[3..] == "";
    assert "35"[..1] == "3";
    assert DotIndex(".5") == 0;
    assert ".5"[..0] == "" && ".5"[1..] == "5";
    assert !AllDigits("5-3") by { assert !IsNumber("5-3"[1]); }
    assert "+"[1..] == "";
  }
}
