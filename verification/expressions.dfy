/** A reference meaning for the calculator's expressions, independent of
    the shunting-yard algorithm: an expression tree, the rule of which trees
    a precedence table allows to be written without extra brackets, and a
    recursive evaluator. */
module Expressions {
  import opened Operators
  import opened Strings
  import opened Tokens

  /** A number, a binary operation, or a bracketed expression. */
  datatype Expr = Lit(lit: string) | Bin(op: Operator, left: Expr, right: Expr) | Group(inner: Expr)

  /** `left` may be written unbracketed as the left operand of `op`: it is
      not an operation, or it binds more tightly than `op`, or as tightly
      when `op` groups to the left. */
  predicate FitsLeft(op: Operator, left: Expr) {
    left.Bin? ==>
      Precedence(left.op) > Precedence(op) ||
      (Precedence(left.op) == Precedence(op) && AssociativityOf(op) == Left)
  }

  /** `right` may be written unbracketed as the right operand of `op`: as
      for the left operand, but ties are allowed when `op` groups to the
      right. */
  predicate FitsRight(op: Operator, right: Expr) {
    right.Bin? ==>
      Precedence(right.op) > Precedence(op) ||
      (Precedence(right.op) == Precedence(op) && AssociativityOf(op) == Right)
  }

  /** The trees an expression written with the precedence table denotes:
      numbers are numerals and every unbracketed operand fits its place. */
  predicate WellFormed(e: Expr) {
    match e
    case Lit(lit) => IsNumeral(lit)
    case Bin(op, l, r) => WellFormed(l) && WellFormed(r) && FitsLeft(op, l) && FitsRight(op, r)
    case Group(x) => WellFormed(x)
  }

  /** The value of a tree. */
  function Eval<V>(ar: Arithmetic<V>, e: Expr): V {
    match e
    case Lit(lit) => ar.literal(lit)
    case Bin(op, l, r) => Primitive(ar, op)(Eval(ar, l), Eval(ar, r))
    case Group(x) => Eval(ar, x)
  }

  /** The tree written in infix order, one token per word. */
  function Infix(e: Expr): (ts: seq<Token>)
    ensures |ts| > 0
  {
    match e
    case Lit(lit) => [Num(lit)]
    case Bin(op, l, r) => Infix(l) + [Op(op)] + Infix(r)
    case Group(x) => [LParen] + Infix(x) + [RParen]
  }

  /** The tree in reverse Polish order: operands first, then the operator;
      brackets vanish. */
  function Postfix(e: Expr): seq<Token> {
    match e
    case Lit(lit) => [Num(lit)]
    case Bin(op, l, r) => Postfix(l) + Postfix(r) + [Op(op)]
    case Group(x) => Postfix(x)
  }

  /** Tokens written as the calculator expects them: their words separated
      by single spaces. */
  function Written(ts: seq<Token>): string
    requires |ts| >= 1
  {
    Join(Words(ts), ' ')
  }

  /** The tree written out in infix form. */
  function Render(e: Expr): string {
    Written(Infix(e))
  }

  /** A well-formed tree is written with printable tokens only. */
  lemma {:induction false} InfixPrintable(e: Expr)
    requires WellFormed(e)
    ensures forall t :: t in Infix(e) ==> Printable(t)
  {
    match e
    case Lit(_) =>
    case Bin(_, l, r) =>
      InfixPrintable(l);
      InfixPrintable(r);
    case Group(x) =>
      InfixPrintable(x);
  }
}
