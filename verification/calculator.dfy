/** `getAnswer` (script.js lines 253-257): trim the expression, convert it
    to reverse Polish order, evaluate that. Together with the correctness
    of the conversion, the calculator computes what the reference
    evaluator gives for every expression written from a well-formed tree. */
module Calculator {
  import opened Operators
  import opened Strings
  import opened Tokens
  import opened ShuntingYard
  import opened Rpn
  import opened Expressions
  import opened ConversionFacts
  import opened InfixConversion

  /** Every `)` in the words of `exp` closes an earlier `(`. Without it the
      converter's inner loop for `)` never stops. */
  predicate Closable(exp: string) {
    Matched(Tokenize(Trim(exp)), 0)
  }

  /** What `getAnswer(exp)` gives. Unrecognised words never reach the
      evaluator, so the only token it can report as "not supported" is an
      unclosed `(`. */
  function AnswerOf<V>(ar: Arithmetic<V>, exp: string): (r: Answer<V>)
    requires Closable(exp)
    ensures r.Thrown? && r.error.NotSupported? ==> r.error.token == LParen
  {
    var ts := Tokenize(Trim(exp));
    var r := EvalRpn(ar, Convert(ts), []);
    OutputTokens(ts);
    if r.Thrown? && r.error.NotSupported? then
      NotSupportedNamesToken(ar, Convert(ts), [], r.error.token);
      r
    else
      r
  }

  /** `getAnswer(exp)`. */
  method GetAnswer<V>(ar: Arithmetic<V>, exp: string) returns (r: Answer<V>)
    requires Closable(exp)
    ensures r == AnswerOf(ar, exp)
  {
    var trimmed := Trim(exp);
    var rpn := ParseExpression(trimmed);
    r := SolveRpn(ar, rpn);
  }

  /** Evaluating a tree's reverse Polish form pushes the tree's value. */
  lemma {:induction false} EvalPostfix<V>(ar: Arithmetic<V>, e: Expr, rest: seq<Token>, stack: seq<V>)
    ensures EvalRpn(ar, Postfix(e) + rest, stack) == EvalRpn(ar, rest, stack + [Eval(ar, e)])
  {
    match e
    case Lit(lit) =>
      assert ([Num(lit)] + rest)[0] == Num(lit) && ([Num(lit)] + rest)[1..] == rest;
    case Group(x) =>
      EvalPostfix(ar, x, rest, stack);
    case Bin(op, l, r) =>
      var vl, vr := Eval(ar, l), Eval(ar, r);
      var tail := [Op(op)] + rest;
      AppendAssoc(Postfix(l) + Postfix(r), [Op(op)], rest);
      AppendAssoc(Postfix(l), Postfix(r), tail);
      EvalPostfix(ar, l, Postfix(r) + tail, stack);
      EvalPostfix(ar, r, tail, stack + [vl]);
      var s := stack + [vl] + [vr];
      assert s[|s| - 2] == vl && s[|s| - 1] == vr && s[..|s| - 2] == stack;
      assert tail[0] == Op(op) && tail[1..] == rest;
      OperateDispatches(ar, vl, vr, op);
  }

  /** Converting and evaluating the infix form of a well-formed tree gives
      the tree's value. */
  lemma SolvesInfix<V>(ar: Arithmetic<V>, e: Expr)
    requires WellFormed(e)
    ensures Matched(Infix(e), 0)
    ensures EvalRpn(ar, Convert(Infix(e)), []) == Value(Eval(ar, e))
  {
    ConvertInfix(e);
    EvalPostfix(ar, e, [], []);
    assert Postfix(e) + [] == Postfix(e);
  }

  /** The words of printable tokens hold no space. */
  lemma WordsSpaceFree(ts: seq<Token>)
    requires forall t :: t in ts ==> Printable(t)
    ensures forall w :: w in Words(ts) ==> ' ' !in w
  {
    forall w | w in Words(ts)
      ensures ' ' !in w
    {
      var k :| 0 <= k < |ts| && Words(ts)[k] == w;
      assert ts[k] in ts;
      TextShape(ts[k]);
    }
  }

  /** Printable tokens, written out, have nothing to trim. */
  lemma WrittenTrimmed(ts: seq<Token>)
    requires |ts| >= 1
    requires forall t :: t in ts ==> Printable(t)
    ensures Trim(Written(ts)) == Written(ts)
  {
    assert ts[0] in ts && ts[|ts| - 1] in ts;
    TextShape(ts[0]);
    TextShape(ts[|ts| - 1]);
    JoinEnds(Words(ts), ' ');
    TrimKeeps(Written(ts));
  }

  /** Splitting printable tokens written out gives the tokens back. */
  lemma TokenizeWritten(ts: seq<Token>)
    requires |ts| >= 1
    requires forall t :: t in ts ==> Printable(t)
    ensures Tokenize(Written(ts)) == ts
  {
    WordsSpaceFree(ts);
    SplitOfJoin(Words(ts), ' ');
    forall k | 0 <= k < |ts|
      ensures Tokenize(Written(ts))[k] == ts[k]
    {
      assert ts[k] in ts;
      ClassifyText(ts[k]);
    }
  }

  /** What the calculator answers for printable tokens written out. */
  lemma AnswerOfWritten<V>(ar: Arithmetic<V>, ts: seq<Token>)
    requires |ts| >= 1
    requires forall t :: t in ts ==> Printable(t)
    ensures Closable(Written(ts)) <==> Matched(ts, 0)
    ensures Matched(ts, 0) ==> AnswerOf(ar, Written(ts)) == EvalRpn(ar, Convert(ts), [])
  {
    WrittenTrimmed(ts);
    TokenizeWritten(ts);
  }

  /** The calculator answers the written form of every well-formed tree
      with the tree's value. */
  lemma AnswerOfRender<V>(ar: Arithmetic<V>, e: Expr)
    requires WellFormed(e)
    ensures Closable(Render(e))
    ensures AnswerOf(ar, Render(e)) == Value(Eval(ar, e))
  {
    InfixPrintable(e);
    AnswerOfWritten(ar, Infix(e));
    SolvesInfix(ar, e);
  }

  /** A `(` that is never closed makes the calculator throw. */
  lemma UnclosedThrows<V>(ar: Arithmetic<V>, exp: string)
    requires Closable(exp)
    requires Depth(Tokenize(Trim(exp))) > 0
    ensures AnswerOf(ar, exp).Thrown?
  {
    var rpn := Convert(Tokenize(Trim(exp)));
    UnbalancedOutput(Tokenize(Trim(exp)));
    var k :| 0 <= k < |rpn| && rpn[k] == LParen;
    UnsupportedThrows(ar, rpn, [], k);
  }
}
