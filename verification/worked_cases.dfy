/** Particular expressions and what the calculator does with them, for any
    arithmetic: grouping, precedence, brackets, and the error answers. */
module WorkedCases {
  import opened Operators
  import opened Strings
  import opened Tokens
  import opened ShuntingYard
  import opened Rpn
  import opened Expressions
  import opened InfixConversion
  import opened Calculator

  /** `1 m 2 m 3` is converted to `1 2 m 3 m`. */
  lemma SubtractionConversion(ts: seq<Token>)
    requires ts == [Num("1"), Op(Minus), Num("2"), Op(Minus), Num("3")]
    ensures Matched(ts, 0)
    ensures Convert(ts) == [Num("1"), Num("2"), Op(Minus), Num("3"), Op(Minus)]
  {
    var e := Bin(Minus, Bin(Minus, Lit("1"), Lit("2")), Lit("3"));
    SubtractionTree(e, ts, [Num("1"), Num("2"), Op(Minus), Num("3"), Op(Minus)]);
    ConvertInfix(e);
  }

  /** The tree of `1 m 2 m 3`, grouped to the left, written both ways. */
  lemma SubtractionTree(e: Expr, ts: seq<Token>, rpn: seq<Token>)
    requires e == Bin(Minus, Bin(Minus, Lit("1"), Lit("2")), Lit("3"))
    requires ts == [Num("1"), Op(Minus), Num("2"), Op(Minus), Num("3")]
    requires rpn == [Num("1"), Num("2"), Op(Minus), Num("3"), Op(Minus)]
    ensures WellFormed(e) && Infix(e) == ts && Postfix(e) == rpn
  {
  }

  /** `2 ^ 3 ^ 2` is converted to `2 3 2 ^ ^`. */
  lemma PowerConversion(ts: seq<Token>)
    requires ts == [Num("2"), Op(Power), Num("3"), Op(Power), Num("2")]
    ensures Matched(ts, 0)
    ensures Convert(ts) == [Num("2"), Num("3"), Num("2"), Op(Power), Op(Power)]
  {
    var e := Bin(Power, Lit("2"), Bin(Power, Lit("3"), Lit("2")));
    PowerTree(e, ts, [Num("2"), Num("3"), Num("2"), Op(Power), Op(Power)]);
    ConvertInfix(e);
  }

  /** The tree of `2 ^ 3 ^ 2`, grouped to the right, written both ways. */
  lemma PowerTree(e: Expr, ts: seq<Token>, rpn: seq<Token>)
    requires e == Bin(Power, Lit("2"), Bin(Power, Lit("3"), Lit("2")))
    requires ts == [Num("2"), Op(Power), Num("3"), Op(Power), Num("2")]
    requires rpn == [Num("2"), Num("3"), Num("2"), Op(Power), Op(Power)]
    ensures WellFormed(e) && Infix(e) == ts && Postfix(e) == rpn
  {
  }

  /** `1 m 2 m 3` is how the left-grouped difference is written. */
  lemma SubtractionRendered(e: Expr, ws: seq<string>, exp: string)
    requires e == Bin(Minus, Bin(Minus, Lit("1"), Lit("2")), Lit("3"))
    requires ws == ["1", "m", "2", "m", "3"]
    requires exp == "1 m 2 m 3"
    ensures Render(e) == exp
  {
    var ts := Infix(e);
    assert ts == [Num("1"), Op(Minus), Num("2"), Op(Minus), Num("3")];
    assert forall k :: 0 <= k < 5 ==> Words(ts)[k] == ws[k];
    assert Words(ts) == ws;
    var w1 := ws[1..];
    var w2 := w1[1..];
    var w3 := w2[1..];
    var w4 := w3[1..];
    assert Join(w4, ' ') == "3";
    assert Join(w3, ' ') == "m 3";
    assert Join(w2, ' ') == "2 m 3";
    assert Join(w1, ' ') == "m 2 m 3";
  }

  /** Subtraction groups to the left. */
  lemma SubtractionGroupsLeft<V>(ar: Arithmetic<V>, exp: string)
    requires exp == "1 m 2 m 3"
    ensures Closable(exp)
    ensures AnswerOf(ar, exp) == Value(Eval(ar, Bin(Minus, Bin(Minus, Lit("1"), Lit("2")), Lit("3"))))
  {
    var e := Bin(Minus, Bin(Minus, Lit("1"), Lit("2")), Lit("3"));
    SubtractionRendered(e, ["1", "m", "2", "m", "3"], exp);
    AnswerOfRender(ar, e);
  }

  /** The keypad can write a number with a bare point, as `5.` or `.5`;
      both are numerals, a lone `.` is not. */
  lemma PointNumerals(a: string, b: string, c: string)
    requires a == "5." && b == ".5" && c == "."
    ensures IsNumeral(a) && IsNumeral(b) && !IsNumeral(c)
  {
    assert PointAt(a, 1) by {
      assert a[..1] == "5" && a[2..] == "";
    }
    assert PointAt(b, 0) by {
      assert b[..0] == "" && b[1..] == "5";
    }
    assert !HasDigit(c);
  }

  /** `5. p 3` is how the sum of `5.` and `3` is written. */
  lemma PointRendered(e: Expr, ws: seq<string>, exp: string)
    requires e == Bin(Plus, Lit("5."), Lit("3"))
    requires ws == ["5.", "p", "3"]
    requires exp == "5. p 3"
    ensures WellFormed(e)
    ensures Render(e) == exp
  {
    PointNumerals("5.", ".5", ".");
    var ts := Infix(e);
    assert ts == [Num("5."), Op(Plus), Num("3")];
    assert forall k :: 0 <= k < 3 ==> Words(ts)[k] == ws[k];
    assert Words(ts) == ws;
    var w1 := ws[1..];
    var w2 := w1[1..];
    assert Join(w2, ' ') == "3";
    assert Join(w1, ' ') == "p 3";
  }

  /** A number written with a trailing point takes part in a sum. */
  lemma TrailingPoint<V>(ar: Arithmetic<V>, exp: string)
    requires exp == "5. p 3"
    ensures Closable(exp)
    ensures AnswerOf(ar, exp) == Value(ar.add(ar.literal("5."), ar.literal("3")))
  {
    var e := Bin(Plus, Lit("5."), Lit("3"));
    PointRendered(e, ["5.", "p", "3"], exp);
    AnswerOfRender(ar, e);
    SumOfLiterals(ar, e, "5.", "3");
  }

  lemma SumOfLiterals<V>(ar: Arithmetic<V>, e: Expr, a: string, b: string)
    requires e == Bin(Plus, Lit(a), Lit(b))
    ensures Eval(ar, e) == ar.add(ar.literal(a), ar.literal(b))
  {
  }

  /** Exponentiation groups to the right. */
  lemma PowerGroupsRight<V>(ar: Arithmetic<V>, ts: seq<Token>)
    requires ts == [Num("2"), Op(Power), Num("3"), Op(Power), Num("2")]
    ensures Matched(ts, 0)
    ensures EvalRpn(ar, Convert(ts), []) == Value(Eval(ar, Bin(Power, Lit("2"), Bin(Power, Lit("3"), Lit("2")))))
  {
    var e := Bin(Power, Lit("2"), Bin(Power, Lit("3"), Lit("2")));
    assert Infix(e) == ts;
    SolvesInfix(ar, e);
  }

  /** Multiplication binds more tightly than addition. */
  lemma ProductBeforeSum<V>(ar: Arithmetic<V>, ts: seq<Token>)
    requires ts == [Num("1"), Op(Plus), Num("2"), Op(Multiply), Num("3")]
    ensures Matched(ts, 0)
    ensures EvalRpn(ar, Convert(ts), []) == Value(Eval(ar, Bin(Plus, Lit("1"), Bin(Multiply, Lit("2"), Lit("3")))))
  {
    var e := Bin(Plus, Lit("1"), Bin(Multiply, Lit("2"), Lit("3")));
    assert Infix(e) == ts;
    SolvesInfix(ar, e);
  }

  /** Brackets override precedence. */
  lemma BracketsFirst<V>(ar: Arithmetic<V>, ts: seq<Token>)
    requires ts == [LParen, Num("1"), Op(Plus), Num("2"), RParen, Op(Multiply), Num("3")]
    ensures Matched(ts, 0)
    ensures EvalRpn(ar, Convert(ts), []) == Value(Eval(ar, Bin(Multiply, Group(Bin(Plus, Lit("1"), Lit("2"))), Lit("3"))))
  {
    var e := Bin(Multiply, Group(Bin(Plus, Lit("1"), Lit("2"))), Lit("3"));
    assert Infix(e) == ts;
    SolvesInfix(ar, e);
  }

  /** Division by zero is left to the arithmetic: no error is raised. */
  lemma DivisionByZero<V>(ar: Arithmetic<V>, ts: seq<Token>)
    requires ts == [Num("1"), Op(Divide), Num("0")]
    ensures Matched(ts, 0)
    ensures EvalRpn(ar, Convert(ts), []) == Value(ar.divide(ar.literal("1"), ar.literal("0")))
  {
    var e := Bin(Divide, Lit("1"), Lit("0"));
    assert Infix(e) == ts;
    SolvesInfix(ar, e);
  }

  /** An operator without a right operand is a syntax error. */
  lemma MissingOperand<V>(ar: Arithmetic<V>, ts: seq<Token>)
    requires ts == [Num("1"), Op(Plus)]
    ensures Matched(ts, 0)
    ensures Convert(ts) == ts
    ensures EvalRpn(ar, ts, []) == Thrown(SyntaxError)
  {
    TrailingOperator(ts, Num("1"), Op(Plus));
    var t1 := ts[1..];
    assert ts[0] == Num("1") && t1[0] == Op(Plus);
    assert EvalRpn(ar, t1, [ar.literal("1")]) == Thrown(SyntaxError);
  }

  /** A number followed by an operator converts to itself. */
  lemma TrailingOperator(ts: seq<Token>, n: Token, o: Token)
    requires n.Num? && o.Op? && ts == [n, o]
    ensures Matched(ts, 0)
    ensures Convert(ts) == ts
  {
    var s0, s1, s2 := Shunt([], []), Shunt([], [n]), Shunt([o], [n]);
    var t1 := ts[1..];
    assert ts[0] == n && t1[0] == o && t1[1..] == [];
    assert Step(s0, n) == s1;
    assert !TopPopsBefore([], o.op);
    assert Step(s1, o) == s2;
    assert Run(t1, s1) == s2;
    assert Popped([o]) == [o];
  }

  /** The empty expression has one word, the empty one, which is neither a
      number nor an operator nor a bracket. */
  lemma EmptyWords(exp: string)
    requires |exp| == 0
    ensures Tokenize(Trim(exp)) == [Other(exp)]
  {
    TrimKeeps(exp);
    EmptyTokens(exp);
  }

  lemma EmptyTokens(exp: string)
    requires |exp| == 0
    ensures Tokenize(exp) == [Other(exp)]
  {
    var ws := Split(exp, ' ');
    assert ws == [exp];
    assert !HasDigit(exp);
    var ts := Tokenize(exp);
    assert |ts| == 1 && ts[0] == Classify(exp);
  }

  /** An empty expression answers `undefined`: the converter ignores its
      one word. */
  lemma EmptyExpression<V>(ar: Arithmetic<V>, exp: string)
    requires |exp| == 0
    ensures Closable(exp)
    ensures AnswerOf(ar, exp) == Undefined
  {
    EmptyWords(exp);
    IgnoredWord(ar, exp, Other(exp));
  }

  /** An expression whose one word the converter ignores answers `undefined`. */
  lemma IgnoredWord<V>(ar: Arithmetic<V>, exp: string, t: Token)
    requires t.Other? && Tokenize(Trim(exp)) == [t]
    ensures Closable(exp)
    ensures AnswerOf(ar, exp) == Undefined
  {
    var ts := [t];
    assert ts[0] == t && |ts[1..]| == 0;
    assert Run(ts, Shunt([], [])) == Shunt([], []);
    assert Convert(ts) == [];
    assert EvalRpn(ar, [], []) == Undefined;
  }

  /** An unclosed `(` is left on the stack and reaches the output last. */
  lemma UnclosedBracket(ts: seq<Token>, rpn: seq<Token>)
    requires ts == [LParen, Num("1"), Op(Plus), Num("2")]
    requires rpn == [Num("1"), Num("2"), Op(Plus), LParen]
    ensures Matched(ts, 0)
    ensures Convert(ts) == rpn
  {
    var e := Bin(Plus, Lit("1"), Lit("2"));
    UnclosedTree(e, ts, rpn);
    ConvertUnclosed(e);
  }

  /** The tree of `1 p 2`, written after an opening bracket. */
  lemma UnclosedTree(e: Expr, ts: seq<Token>, rpn: seq<Token>)
    requires e == Bin(Plus, Lit("1"), Lit("2"))
    requires ts == [LParen, Num("1"), Op(Plus), Num("2")]
    requires rpn == [Num("1"), Num("2"), Op(Plus), LParen]
    ensures WellFormed(e) && [LParen] + Infix(e) == ts && Postfix(e) + [LParen] == rpn
  {
    assert [LParen] + Infix(e) == ts;
  }

  /** ... and the evaluator finds too few operands for it. */
  lemma UnclosedBracketThrows<V>(ar: Arithmetic<V>, rpn: seq<Token>)
    requires rpn == [Num("1"), Num("2"), Op(Plus), LParen]
    ensures EvalRpn(ar, rpn, []) == Thrown(SyntaxError)
  {
    var one, two := ar.literal("1"), ar.literal("2");
    var r1 := rpn[1..];
    var r2 := r1[1..];
    var r3 := r2[1..];
    assert rpn[0] == Num("1") && r1[0] == Num("2") && r2[0] == Op(Plus) && r3 == [LParen];
    assert [] + [one] == [one] && [one] + [two] == [one, two];
    assert EvalRpn(ar, rpn, []) == EvalRpn(ar, r1, [one]);
    assert EvalRpn(ar, r1, [one]) == EvalRpn(ar, r2, [one, two]);
    OperateDispatches(ar, one, two, Plus);
    assert EvalRpn(ar, r2, [one, two]) == EvalRpn(ar, r3, [ar.add(one, two)]);
  }

  /** A `)` with no `(` before it is outside what the calculator can answer:
      the converter would never stop. */
  lemma StrayClose(ts: seq<Token>)
    requires ts == [Num("1"), Op(Plus), Num("2"), RParen]
    ensures !Matched(ts, 0)
  {
    var t1 := ts[1..];
    var t2 := t1[1..];
    var t3 := t2[1..];
    assert ts[0] == Num("1") && t1[0] == Op(Plus) && t2[0] == Num("2") && t3[0] == RParen;
    assert !Matched(t3, 0);
    assert Matched(ts, 0) == Matched(t1, 0) == Matched(t2, 0) == Matched(t3, 0);
  }

  /** The operand count is checked before the operator: a stray token with
      one value below it is a syntax error, with two it is "not supported". */
  lemma SizeCheckedFirst<V>(ar: Arithmetic<V>, ts: seq<Token>, us: seq<Token>)
    requires ts == [Num("1"), LParen]
    requires us == [Num("1"), Num("2"), LParen]
    ensures EvalRpn(ar, ts, []) == Thrown(SyntaxError)
    ensures EvalRpn(ar, us, []) == Thrown(NotSupported(LParen))
  {
    var one, two := ar.literal("1"), ar.literal("2");
    assert ts[1..] == [LParen] && us[1..] == [Num("2"), LParen] && us[1..][1..] == [LParen];
    assert EvalRpn(ar, us, []) == EvalRpn(ar, [Num("2"), LParen], [one]);
    assert EvalRpn(ar, [Num("2"), LParen], [one]) == EvalRpn(ar, [LParen], [one, two]);
  }
}
