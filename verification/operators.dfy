/** The arithmetic half of the calculator (script.js lines 1-74): the five
    binary operators, the symbols that name them in an expression, their
    precedence and associativity, and `operate`, which dispatches a symbol
    to the arithmetic primitive it names. */
module Operators {
  import opened Options

  /** The five binary operators. Addition and subtraction are written `p`
      and `m` in an expression, so that `-` stays free for negative numbers. */
  datatype Operator = Power | Divide | Multiply | Plus | Minus

  /** The symbol that stands for `op` in an expression. */
  function Symbol(op: Operator): string {
    match op
    case Power => "^"
    case Divide => "/"
    case Multiply => "*"
    case Plus => "p"
    case Minus => "m"
  }

  /** The operator a word names, if any: the membership test
      `operators.indexOf(w) != -1` together with the lookup. */
  function OperatorOf(w: string): (r: Option<Operator>)
    ensures r.Some? ==> Symbol(r.value) == w
    ensures r.None? ==> forall op: Operator :: Symbol(op) != w
  {
    if w == "^" then Some(Power)
    else if w == "/" then Some(Divide)
    else if w == "*" then Some(Multiply)
    else if w == "p" then Some(Plus)
    else if w == "m" then Some(Minus)
    else None
  }

  /** Every operator is recognised from its own symbol, so no two share one. */
  lemma OperatorOfSymbol(op: Operator)
    ensures OperatorOf(Symbol(op)) == Some(op)
  {
  }

  datatype Associativity = Left | Right

  /** The precedence table: higher binds tighter, and `^` binds tightest
      of all, alone at its level. */
  function Precedence(op: Operator): (p: nat)
    ensures 2 <= p <= 4
    ensures p == 4 <==> op == Power
  {
    match op
    case Power => 4
    case Divide => 3
    case Multiply => 3
    case Plus => 2
    case Minus => 2
  }

  /** Only the tightest level, that of `^`, groups to the right. */
  function AssociativityOf(op: Operator): (a: Associativity)
    ensures a == Right <==> Precedence(op) == 4
  {
    if op == Power then Right else Left
  }

  /** Operators of one precedence share one associativity, so an expression
      never mixes the two groupings at one level. */
  lemma RankDeterminesAssociativity(a: Operator, b: Operator)
    requires Precedence(a) == Precedence(b)
    ensures AssociativityOf(a) == AssociativityOf(b)
  {
  }

  /** Whether an operator `top` waiting on the operator stack is output
      before the operator `incoming` is pushed: it binds more tightly, or
      equally tightly with both grouping to the left. */
  function PopsBefore(top: Operator, incoming: Operator): (b: bool)
    ensures b ==> Precedence(top) >= Precedence(incoming)
    ensures Precedence(top) > Precedence(incoming) ==> b
    ensures incoming == Power ==> !b
  {
    Precedence(top) > Precedence(incoming) ||
    (Precedence(top) == Precedence(incoming) &&
     AssociativityOf(top) == Left && AssociativityOf(incoming) == Left)
  }

  /** The popping rule in plain terms: a waiting operator is popped exactly
      when it outranks the newcomer or ties with it at a level other than
      that of the right-associative `^`. */
  lemma PopsBeforeCharacterised(top: Operator, incoming: Operator)
    ensures PopsBefore(top, incoming) <==>
            Precedence(top) > Precedence(incoming) ||
            (Precedence(top) == Precedence(incoming) && incoming != Power)
  {
  }

  /** The numeric side of the calculator, which the model leaves abstract:
      `literal` reads a numeral as a number (JavaScript's `Number`), and the
      other five are the functions `add`, `subtract`, `multiply`, `divide`
      and `pow`. */
  datatype Arithmetic<!V> = Arithmetic(
    literal: string -> V,
    add: (V, V) -> V,
    subtract: (V, V) -> V,
    multiply: (V, V) -> V,
    divide: (V, V) -> V,
    pow: (V, V) -> V)

  /** The primitive an operator stands for. */
  function Primitive<V>(ar: Arithmetic<V>, op: Operator): (V, V) -> V {
    match op
    case Power => ar.pow
    case Divide => ar.divide
    case Multiply => ar.multiply
    case Plus => ar.add
    case Minus => ar.subtract
  }

  /** `operate(a, b, operator)`: a switch over the symbol. An unknown
      symbol falls through to `undefined`. */
  function Operate<V>(ar: Arithmetic<V>, a: V, b: V, operator: string): (r: Option<V>)
    ensures r.Some? <==> OperatorOf(operator).Some?
  {
    if operator == "p" then Some(ar.add(a, b))
    else if operator == "m" then Some(ar.subtract(a, b))
    else if operator == "/" then Some(ar.divide(a, b))
    else if operator == "*" then Some(ar.multiply(a, b))
    else if operator == "^" then Some(ar.pow(a, b))
    else None
  }

  /** Each symbol reaches the primitive of the operator it names, with the
      left operand first. */
  lemma OperateDispatches<V>(ar: Arithmetic<V>, a: V, b: V, op: Operator)
    ensures Operate(ar, a, b, Symbol(op)) == Some(Primitive(ar, op)(a, b))
  {
  }
}
