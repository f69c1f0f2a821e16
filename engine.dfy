/** The two halves of the C engine together (main.c:13-17): the list `convert_str_to_data`
    builds from a line is one `calculate` can reduce, it reduces to a single '=' node that
    holds the answer, and no division on the way has a zero divisor. */
module Engine {
  import opened Base
  import opened Head
  import opened Utility
  import opened Reduction
  import opened ConvertStr

  // ----- what the converter accepts -----

  /** The records of a list the converter built: every number is positive, every class is
      the one `operand_detect` gives the node's operator and none is -1, and only the last
      node may be of class 0. */
  predicate Converted(rs: seq<Rec>) {
    && (forall k :: 0 <= k < |rs| ==> rs[k].value > 0.0)
    && (forall k :: 0 <= k < |rs| ==> rs[k].countOrder == CountOrder(rs[k].operand) && rs[k].countOrder != -1)
    && (forall k :: 0 <= k < |rs| - 1 ==> rs[k].countOrder != 0)
  }

  /** Every list the converter accepts has the shape of `Converted`. */
  lemma {:induction false} ConvertShape(s: string, i: nat)
    requires i <= |s|
    ensures Convert(s, i).Some? ==> Converted(Convert(s, i).value)
    decreases |s| - i
  {
    if CharAt(s, i) != '\0' {
      var j := i + RunLength(s, i);
      if NumberAt(s, i) != 0 && CountOrder(OperatorAt(s, i)) > 0 {
        assert CharAt(s, j) != '\0';
        ConvertShape(s, j + 1);
      }
    }
  }

  /** A line read by `fgets` holds a newline, at p, before its NUL. The newline is no
      operator, so the converter either gives up or stops at an '=' node: an accepted line
      ends in '='. */
  lemma {:induction false} ConvertLine(s: string, i: nat, p: nat)
    requires i <= p < |s| && s[p] == '\n' && forall k :: i <= k < p ==> s[k] != '\0'
    ensures Convert(s, i).Some? ==> Convert(s, i).value != [] && Convert(s, i).value[|Convert(s, i).value| - 1].operand == '='
    decreases |s| - i
  {
    assert CharAt(s, i) != '\0';
    var j := i + RunLength(s, i);
    if NumberAt(s, i) != 0 && CountOrder(OperatorAt(s, i)) > 0 {
      assert !IsDigit(s[p]) && OperatorAt(s, i) != '\n';
      assert j < p;
      ConvertLine(s, j + 1, p);
    }
  }

  // ----- what the passes leave of a converted list -----

  lemma {:induction false} DropLevelAppend(a: seq<Rec>, b: seq<Rec>, level: int)
    ensures DropLevel(a + b, level) == DropLevel(a, level) + DropLevel(b, level)
    decreases |a|
  {
    if a == [] {
      assert a + b == b;
    } else {
      assert (a + b)[1..] == a[1..] + b;
      DropLevelAppend(a[1..], b, level);
    }
  }

  /** Dropping classes 1, 2 and 3 from a list of such nodes ended by a class 0 node leaves
      that last node alone. */
  lemma {:induction false} DropToLast(rs: seq<Rec>)
    requires rs != [] && rs[|rs| - 1].countOrder == 0
    requires forall k :: 0 <= k < |rs| - 1 ==> 1 <= rs[k].countOrder <= 3
    ensures DropLevel(DropLevel(DropLevel(rs, 1), 2), 3) == [rs[|rs| - 1]]
    decreases |rs|
  {
    if |rs| > 1 {
      var x, t := [rs[0]], rs[1..];
      assert rs == x + t;
      DropToLast(t);
      assert DropLevel(DropLevel(DropLevel(x, 1), 2), 3) == [] by {
        assert x[1..] == [];
      }
      DropLevelAppend(x, t, 1);
      DropLevelAppend(DropLevel(x, 1), DropLevel(t, 1), 2);
      DropLevelAppend(DropLevel(DropLevel(x, 1), 2), DropLevel(DropLevel(t, 1), 2), 3);
    } else {
      assert rs[1..] == [];
    }
  }

  /** Lists with the same kinds end in nodes of the same kind. */
  lemma LastKind(a: seq<Rec>, b: seq<Rec>)
    requires Kinds(a) == Kinds(b) && a != []
    ensures b != [] && Kind(a[|a| - 1]) == Kind(b[|b| - 1])
  {
    assert Kinds(a)[|a| - 1] == Kinds(b)[|b| - 1];
  }

  /** calculate.c:7-23 with main.c:16-17: a converted list ending in '=' is reduced to one
      node, the '=' node, whose value main prints. */
  lemma CalcSingle(rs: seq<Rec>)
    requires Converted(rs) && rs != [] && rs[|rs| - 1].countOrder == 0
    ensures |Calc(rs)| == 1 && Calc(rs)[0].operand == rs[|rs| - 1].operand && Calc(rs)[0].countOrder == 0
  {
    var last := rs[|rs| - 1];
    var d1 := DropLevel(rs, 1);
    var d2 := DropLevel(d1, 2);
    var d3 := DropLevel(d2, 3);
    var p1 := Pass(rs, 1);
    var p2 := Pass(p1, 2);
    var p3 := Pass(p2, 3);
    DropLevelKeepsLast(rs, 1);
    DropLevelKeepsLast(d1, 2);
    PassShape(rs, 1);
    PassKinds(rs, 1);
    LastKind(d1, p1);
    PassShape(p1, 2);
    PassKinds(p1, 2);
    DropLevelSameKinds(p1, d1, 2);
    LastKind(d2, p2);
    PassKinds(p2, 3);
    DropLevelSameKinds(p2, d2, 3);
    DropToLast(rs);
    assert Kinds(p3) == Kinds(d3) == Kinds([last]);
    assert Kind(p3[0]) == Kinds([last])[0];
  }

  /** main.c:13-17 on records: a line that `fgets` read (no NUL inside, a newline before
      the end) and the converter accepts is a list `calculate` can fold, and it folds to a
      single '=' node, whose value main prints. */
  lemma LineReduces(line: string)
    requires '\0' !in line && '\n' in line && Convert(line, 0).Some?
    ensures var rs := Convert(line, 0).value;
      && rs != [] && Foldable(rs)
      && |Calc(rs)| == 1 && Calc(rs)[0].operand == '=' && Calc(rs)[0].countOrder == 0
  {
    var p :| 0 <= p < |line| && line[p] == '\n';
    ConvertLine(line, 0, p);
    ConvertShape(line, 0);
    var rs := Convert(line, 0).value;
    assert rs[|rs| - 1].countOrder == 0;
    CalcSingle(rs);
  }

  // ----- division by zero -----

  /** The pass for class `level` folds a '/' node into a successor whose value is 0: the one
      case where `do_the_math` leaves real arithmetic (C float gives an infinity or NaN). */
  predicate DividesByZero(rs: seq<Rec>, level: int)
    decreases |rs|
  {
    if |rs| < 2 then false
    else if rs[0].countOrder == level then
      (rs[0].operand == '/' && rs[1].value == 0.0)
      || DividesByZero([rs[1].(value := Combine(rs[0], rs[1]))] + rs[2..], level)
    else DividesByZero(rs[1..], level)
  }

  predicate Positive(rs: seq<Rec>) {
    forall k :: 0 <= k < |rs| ==> rs[k].value > 0.0
  }

  /** Every node's class is the one its operator gets. */
  predicate Classed(rs: seq<Rec>) {
    forall k :: 0 <= k < |rs| ==> rs[k].countOrder == CountOrder(rs[k].operand)
  }

  lemma {:induction false} PowerPositive(base: real, n: nat)
    requires base > 0.0
    ensures Utility.Power(base, n) > 0.0
    decreases n
  {
    if n > 1 {
      PowerPositive(base, n - 1);
    }
  }

  /** The power pass and the product pass over positive numbers never divide by zero and
      leave positive numbers: powers, products and quotients of positive numbers are
      positive. */
  lemma {:induction false} PassPositive(rs: seq<Rec>, level: int)
    requires Positive(rs) && Classed(rs) && (level == 1 || level == 2)
    ensures !DividesByZero(rs, level) && Positive(Pass(rs, level)) && Classed(Pass(rs, level))
    decreases |rs|
  {
    if |rs| >= 2 {
      if rs[0].countOrder == level {
        var v := Combine(rs[0], rs[1]);
        assert v > 0.0 by {
          if rs[0].operand == '^' {
            PowerPositive(rs[0].value, Iterations(rs[1].value) + 1);
          }
        }
        var t := [rs[1].(value := v)] + rs[2..];
        assert Positive(t) && Classed(t) by {
          forall k | 1 <= k < |t| ensures t[k] == rs[k + 1] { }
        }
        PassPositive(t, level);
      } else {
        PassPositive(rs[1..], level);
      }
    }
  }

  /** The sum pass folds only '+' and '-' nodes, so it never divides. */
  lemma {:induction false} SumsDoNotDivide(rs: seq<Rec>)
    requires Classed(rs)
    ensures !DividesByZero(rs, 3)
    decreases |rs|
  {
    if |rs| >= 2 {
      if rs[0].countOrder == 3 {
        var t := [rs[1].(value := Combine(rs[0], rs[1]))] + rs[2..];
        assert Classed(t) by {
          forall k | 1 <= k < |t| ensures t[k] == rs[k + 1] { }
        }
        SumsDoNotDivide(t);
      } else {
        SumsDoNotDivide(rs[1..]);
      }
    }
  }

  /** No pass of `calculate` over a converted list divides by zero: the zero-divisor case of
      `Combine` is never reached. */
  lemma NoZeroDivisor(rs: seq<Rec>)
    requires Converted(rs)
    ensures !DividesByZero(rs, 1)
    ensures !DividesByZero(Pass(rs, 1), 2)
    ensures !DividesByZero(Pass(Pass(rs, 1), 2), 3)
  {
    PassPositive(rs, 1);
    PassPositive(Pass(rs, 1), 2);
    SumsDoNotDivide(Pass(Pass(rs, 1), 2));
  }

  // ----- examples -----

  /** "12+3*4=": the product is taken first. */
  lemma ExamplePrecedence()
    ensures Calc([Rec(12.0, '+', 3), Rec(3.0, '*', 2), Rec(4.0, '=', 0)]) == [Rec(24.0, '=', 0)]
  {
  }

  /** "8-2-1=": operators of one class associate to the left. */
  lemma ExampleLeftAssociative()
    ensures Calc([Rec(8.0, '-', 3), Rec(2.0, '-', 3), Rec(1.0, '=', 0)]) == [Rec(5.0, '=', 0)]
  {
    var rs := [Rec(8.0, '-', 3), Rec(2.0, '-', 3), Rec(1.0, '=', 0)];
    assert Pass(rs, 1) == rs && Pass(rs, 2) == rs;
    assert Pass(rs, 3) == Pass([Rec(6.0, '-', 3), Rec(1.0, '=', 0)], 3) == [Rec(5.0, '=', 0)];
  }

  /** "2^3^2=": powers too associate to the left, (2^3)^2. */
  lemma ExamplePower()
    ensures Calc([Rec(2.0, '^', 1), Rec(3.0, '^', 1), Rec(2.0, '=', 0)]) == [Rec(64.0, '=', 0)]
  {
    var rs := [Rec(2.0, '^', 1), Rec(3.0, '^', 1), Rec(2.0, '=', 0)];
    PotencyWhole(2.0, 3);
    PotencyWhole(8.0, 2);
    assert Utility.Power(2.0, 3) == 8.0 && Utility.Power(8.0, 2) == 64.0;
    assert Pass(rs, 1) == Pass([Rec(8.0, '^', 1), Rec(2.0, '=', 0)], 1) == [Rec(64.0, '=', 0)];
  }

  const Line := "12+3*4=\n"

  lemma ReadLine5()
    ensures RunLength(Line, 5) == 1 && NumberAt(Line, 5) == 4 && OperatorAt(Line, 5) == '='
  {
    assert RunLength(Line, 6) == 0;
    assert Line[5..6] == "4";
  }

  lemma ReadLine3()
    ensures RunLength(Line, 3) == 1 && NumberAt(Line, 3) == 3 && OperatorAt(Line, 3) == '*'
  {
    assert RunLength(Line, 4) == 0;
    assert Line[3..4] == "3";
  }

  lemma ReadLine0()
    ensures RunLength(Line, 0) == 2 && NumberAt(Line, 0) == 12 && OperatorAt(Line, 0) == '+'
  {
    assert RunLength(Line, 2) == 0;
    assert RunLength(Line, 1) == 1;
    assert Line[0..2] == "12";
    assert Number.DigitsValue("12") == 12 by {
      assert "12"[..1] == "1";
    }
  }

  /** "12+3*4=" read from a line: one node per number, each with the operator after it. */
  lemma ExampleConvert()
    ensures Convert(Line, 0) == Some([Rec(12.0, '+', 3), Rec(3.0, '*', 2), Rec(4.0, '=', 0)])
  {
    var r3, r4 := Rec(3.0, '*', 2), Rec(4.0, '=', 0);
    ReadLine5();
    assert Convert(Line, 5) == Some([r4]);
    ReadLine3();
    assert Convert(Line, 3) == Some([r3] + [r4]);
    ReadLine0();
    assert Convert(Line, 0) == Some([Rec(12.0, '+', 3)] + ([r3] + [r4]));
    assert [Rec(12.0, '+', 3)] + ([r3] + [r4]) == [Rec(12.0, '+', 3), r3, r4];
  }

  /** A literal 0 is refused. */
  lemma ExampleZeroRejected()
    ensures Convert("0+5=\n", 0) == Option.None
  {
    var s := "0+5=\n";
    assert RunLength(s, 1) == 0;
    assert RunLength(s, 0) == 1;
    assert s[0..1] == "0";
  }

  /** A missing number is refused. */
  lemma ExampleMissingRejected()
    ensures Convert("5+=\n", 0) == Option.None
  {
    var s := "5+=\n";
    assert RunLength(s, 2) == 0;
    assert RunLength(s, 1) == 0;
    assert RunLength(s, 0) == 1;
    assert s[0..1] == "5" && s[2..2] == [];
  }

  /** A line without '=' is refused at its newline. */
  lemma ExampleNoEqualsRejected()
    ensures Convert("12\n", 0) == Option.None
  {
    var s := "12\n";
    assert RunLength(s, 2) == 0;
    assert RunLength(s, 1) == 1;
    assert RunLength(s, 0) == 2;
  }

  /** A last line that ends in an operator without a newline, "12+" then NUL, is accepted
      with one node of class 3 and no successor: it is not foldable, and calculate.c:13
      would follow that node's NULL link. */
  lemma ExampleUnterminatedLine()
    ensures Convert("12+", 0) == Some([Rec(12.0, '+', 3)])
    ensures !Foldable(Convert("12+", 0).value)
  {
    var s := "12+";
    assert RunLength(s, 2) == 0;
    assert RunLength(s, 1) == 1;
    assert RunLength(s, 0) == 2;
    assert s[0..2] == "12";
    assert Number.DigitsValue("12") == 12 by {
      assert "12"[..1] == "1";
    }
    assert NumberAt(s, 0) == 12 && OperatorAt(s, 0) == '+' && CountOrder('+') == 3;
    assert Convert(s, 3) == Some([]);
    assert [Rec(12.0, '+', 3)] + [] == [Rec(12.0, '+', 3)];
  }

  /** Reading stops at the first '=': what follows it is never looked at. */
  lemma ExampleStopsAtEquals()
    ensures Convert("7=oops\n", 0) == Some([Rec(7.0, '=', 0)])
  {
    var s := "7=oops\n";
    assert RunLength(s, 1) == 0;
    assert RunLength(s, 0) == 1;
    assert s[0..1] == "7";
  }
}
