/** The shunting-yard conversion is correct: on the infix form of any tree
    the precedence table allows, it produces exactly the tree's reverse
    Polish form.

    The proof follows the stack through one subtree at a time: reading a
    subtree emits part of its reverse Polish form and leaves its
    right-spine operators on the stack (`Emitted`, `Pending`), provided the
    operator below never needs to be popped by it (`Guarded`). */
module InfixConversion {
  import opened Operators
  import opened Tokens
  import opened ShuntingYard
  import opened Expressions
  import opened ConversionFacts

  /** The operators of `e` left on the stack once `e` is read: its root,
      then the root of its right operand and so on, bottom first. */
  function Pending(e: Expr): (p: seq<Token>)
    ensures forall t :: t in p ==> t.Op?
  {
    match e
    case Lit(_) => []
    case Bin(op, _, r) => [Op(op)] + Pending(r)
    case Group(_) => []
  }

  /** What reading `e` adds to the output. */
  function Emitted(e: Expr): seq<Token> {
    match e
    case Lit(lit) => [Num(lit)]
    case Bin(_, l, r) => Postfix(l) + Emitted(r)
    case Group(x) => Postfix(x)
  }

  /** No operator of `e` pops an operator `s` that waits below it. */
  predicate NoPop(e: Expr, s: Operator) {
    match e
    case Bin(op, l, r) => !PopsBefore(s, op) && NoPop(l, s) && NoPop(r, s)
    case _ => true
  }

  /** Reading `e` on top of stack `s` leaves `s` as it is. */
  predicate Guarded(s: seq<Token>, e: Expr) {
    s == [] || !s[|s| - 1].Op? || NoPop(e, s[|s| - 1].op)
  }

  /** Every entry of `p` is an operator that an incoming `o` pops. */
  predicate AllPopBefore(p: seq<Token>, o: Operator) {
    forall t :: t in p ==> t.Op? && PopsBefore(t.op, o)
  }

  /** A subtree's pending operators, popped after what it emitted, complete
      its reverse Polish form. */
  lemma {:induction false} EmittedThenPending(e: Expr)
    ensures Emitted(e) + Popped(Pending(e)) == Postfix(e)
  {
    match e
    case Lit(_) =>
    case Bin(op, l, r) =>
      EmittedThenPending(r);
      PoppedAppend([Op(op)], Pending(r));
      assert Popped([Op(op)]) == [Op(op)];
      AppendAssoc(Postfix(l), Emitted(r), Popped(Pending(r)) + [Op(op)]);
      AppendAssoc(Emitted(r), Popped(Pending(r)), [Op(op)]);
      AppendAssoc(Postfix(l), Postfix(r), [Op(op)]);
    case Group(x) =>
  }

  /** The infix form of any tree opens as many brackets as it closes, in
      order. */
  lemma {:induction false} MatchedInfix(e: Expr, rest: seq<Token>, open: nat)
    ensures Matched(Infix(e) + rest, open) == Matched(rest, open)
  {
    match e
    case Lit(lit) =>
      assert ([Num(lit)] + rest)[1..] == rest;
    case Bin(op, l, r) =>
      var tail := [Op(op)] + (Infix(r) + rest);
      assert Infix(e) + rest == Infix(l) + tail;
      MatchedInfix(l, tail, open);
      assert tail[1..] == Infix(r) + rest;
      MatchedInfix(r, rest, open);
    case Group(x) =>
      var tail := [RParen] + rest;
      assert Infix(e) + rest == [LParen] + (Infix(x) + tail);
      MatchedInfix(x, tail, open + 1);
      assert tail[1..] == rest;
  }

  lemma {:induction false} OpenedOperators(s: seq<Token>, p: seq<Token>)
    requires forall t :: t in p ==> t.Op?
    ensures Opened(s + p) == Opened(s)
    decreases |p|
  {
    if p == [] {
      assert s + p == s;
    } else {
      var q, x := p[..|p| - 1], p[|p| - 1];
      assert x in p;
      assert forall t :: t in q ==> t in p;
      assert s + p == (s + q) + [x];
      assert (s + p)[..|s + p| - 1] == s + q;
      OpenedOperators(s, q);
    }
  }

  /** An operator arriving on top of entries it all pops, sitting on a
      stack it does not pop, pops exactly those entries. */
  lemma {:induction false} OutrankingExactly(s: seq<Token>, p: seq<Token>, o: Operator)
    requires AllPopBefore(p, o)
    requires !TopPopsBefore(s, o)
    ensures Outranking(s + p, o) == p
    decreases |p|
  {
    if p == [] {
      assert s + p == s;
    } else {
      var q, x := p[..|p| - 1], p[|p| - 1];
      assert x in p;
      assert forall t :: t in q ==> t in p;
      OutrankingExactly(s, q, o);
      var sp := s + p;
      assert sp[|sp| - 1] == x;
      assert sp[..|sp| - 1] == s + q;
      assert TopPopsBefore(sp, o);
      assert p == q + [x];
    }
  }

  /** ... and leaves the stack beneath them as it was. */
  lemma BeneathExactly(s: seq<Token>, p: seq<Token>, o: Operator)
    requires AllPopBefore(p, o)
    requires !TopPopsBefore(s, o)
    ensures Beneath(s + p, o) == s
  {
    OutrankingExactly(s, p, o);
    var b := Beneath(s + p, o);
    assert s + p == b + p;
    assert b == (b + p)[..|b|];
    assert s == (s + p)[..|s|];
  }

  /** A `)` arriving on operators above a `(` pops exactly those operators. */
  lemma ParenExactly(s: seq<Token>, p: seq<Token>)
    requires forall t :: t in p ==> t.Op?
    ensures Opened(s + [LParen] + p) > 0
    ensures AboveParen(s + [LParen] + p) == p
    ensures BelowParen(s + [LParen] + p) == s
  {
    ParenBelow(s + [LParen], s, p);
  }

  lemma {:induction false} ParenBelow(b: seq<Token>, s: seq<Token>, p: seq<Token>)
    requires b == s + [LParen]
    requires forall t :: t in p ==> t.Op?
    ensures Opened(b + p) > 0
    ensures AboveParen(b + p) == p
    ensures BelowParen(b + p) == s
    decreases |p|
  {
    if p == [] {
      assert b + p == b;
      assert b[..|b| - 1] == s;
    } else {
      var q, x := p[..|p| - 1], p[|p| - 1];
      assert x in p;
      assert forall t :: t in q ==> t in p;
      ParenBelow(b, s, q);
      var bp := b + p;
      assert bp[|bp| - 1] == x;
      assert bp[..|bp| - 1] == b + q;
      assert p == q + [x];
    }
  }

  /** The right-spine operators of a tree that may stand unbracketed as the
      left operand of `o` are all popped by `o`. */
  lemma {:induction false} PendingPopsBefore(e: Expr, o: Operator)
    requires WellFormed(e)
    requires e.Bin? ==> PopsBefore(e.op, o)
    ensures AllPopBefore(Pending(e), o)
  {
    match e
    case Lit(_) =>
    case Group(_) =>
    case Bin(op, l, r) =>
      PendingPopsBefore(r, o);
  }

  /** Operators that bind more tightly than `s`, or as tightly when `s`
      groups to the right, never pop `s`. */
  lemma {:induction false} NoPopBelow(e: Expr, s: Operator)
    requires WellFormed(e)
    requires e.Bin? ==>
      Precedence(e.op) > Precedence(s) ||
      (Precedence(e.op) == Precedence(s) && AssociativityOf(s) == Right)
    ensures NoPop(e, s)
  {
    match e
    case Lit(_) =>
    case Group(_) =>
    case Bin(op, l, r) =>
      NoPopBelow(l, s);
      NoPopBelow(r, s);
  }

  /** One token taken off the front of the input. */
  lemma RunCons(t: Token, rest: seq<Token>, st: Shunt)
    requires Matched([t] + rest, Opened(st.stack))
    ensures t == RParen ==> Opened(st.stack) > 0
    ensures Matched(rest, Opened(Step(st, t).stack))
    ensures Run([t] + rest, st) == Run(rest, Step(st, t))
  {
    assert ([t] + rest)[0] == t && ([t] + rest)[1..] == rest;
  }

  /** Reading the infix form of a well-formed tree on a guarded stack pushes
      its pending operators and emits its emitted part. */
  lemma {:induction false} RunInfix(e: Expr, rest: seq<Token>, st: Shunt)
    requires WellFormed(e)
    requires Matched(rest, Opened(st.stack))
    requires Guarded(st.stack, e)
    ensures Matched(Infix(e) + rest, Opened(st.stack))
    ensures Opened(st.stack + Pending(e)) == Opened(st.stack)
    ensures Run(Infix(e) + rest, st) == Run(rest, Shunt(st.stack + Pending(e), st.out + Emitted(e)))
    decreases e, 2
  {
    MatchedInfix(e, rest, Opened(st.stack));
    OpenedOperators(st.stack, Pending(e));
    match e
    case Lit(lit) =>
      RunCons(Num(lit), rest, st);
      assert st.stack + [] == st.stack;
    case Bin(op, l, r) =>
      RunBin(op, l, r, rest, st);
    case Group(x) =>
      RunGroup(x, rest, st);
      assert st.stack + [] == st.stack;
  }

  /** The operator of `Bin(op, l, r)`, arriving after `l`, pops exactly
      `l`'s pending operators and completes `l`'s reverse Polish form. */
  lemma OperatorAfterLeft(s: seq<Token>, out: seq<Token>, op: Operator, l: Expr)
    requires WellFormed(l) && FitsLeft(op, l)
    requires !TopPopsBefore(s, op)
    ensures Step(Shunt(s + Pending(l), out + Emitted(l)), Op(op)) == Shunt(s + [Op(op)], out + Postfix(l))
  {
    PendingPopsBefore(l, op);
    OutrankingExactly(s, Pending(l), op);
    BeneathExactly(s, Pending(l), op);
    EmittedThenPending(l);
    AppendAssoc(out, Emitted(l), Popped(Pending(l)));
  }

  lemma InfixBin(op: Operator, l: Expr, r: Expr, rest: seq<Token>)
    ensures Infix(Bin(op, l, r)) + rest == Infix(l) + ([Op(op)] + (Infix(r) + rest))
  {
    AppendAssoc(Infix(l) + [Op(op)], Infix(r), rest);
    AppendAssoc(Infix(l), [Op(op)], Infix(r) + rest);
  }

  /** Reading the left operand and the operator of `Bin(op, l, r)` leaves
      `op` on the stack and `l`'s reverse Polish form on the output. */
  lemma {:induction false} RunLeftThenOperator(op: Operator, l: Expr, r: Expr, tail: seq<Token>, st: Shunt)
    requires WellFormed(Bin(op, l, r))
    requires Guarded(st.stack, Bin(op, l, r))
    requires Matched(tail, Opened(st.stack))
    ensures Matched(Infix(l) + ([Op(op)] + tail), Opened(st.stack))
    ensures Run(Infix(l) + ([Op(op)] + tail), st) == Run(tail, Shunt(st.stack + [Op(op)], st.out + Postfix(l)))
    decreases Bin(op, l, r), 0
  {
    var s := st.stack;
    assert ([Op(op)] + tail)[0] == Op(op) && ([Op(op)] + tail)[1..] == tail;
    assert Guarded(s, l);
    RunInfix(l, [Op(op)] + tail, st);
    var afterLeft := Shunt(s + Pending(l), st.out + Emitted(l));
    OperatorAfterLeft(s, st.out, op, l);
    RunCons(Op(op), tail, afterLeft);
  }

  lemma {:induction false} RunBin(op: Operator, l: Expr, r: Expr, rest: seq<Token>, st: Shunt)
    requires WellFormed(Bin(op, l, r))
    requires Matched(rest, Opened(st.stack))
    requires Guarded(st.stack, Bin(op, l, r))
    requires Matched(Infix(Bin(op, l, r)) + rest, Opened(st.stack))
    requires Opened(st.stack + Pending(Bin(op, l, r))) == Opened(st.stack)
    ensures Run(Infix(Bin(op, l, r)) + rest, st) ==
            Run(rest, Shunt(st.stack + Pending(Bin(op, l, r)), st.out + Emitted(Bin(op, l, r))))
    decreases Bin(op, l, r), 1
  {
    var s := st.stack;
    InfixBin(op, l, r, rest);
    MatchedInfix(r, rest, Opened(s));
    RunLeftThenOperator(op, l, r, Infix(r) + rest, st);
    // the right operand
    var afterOp := Shunt(s + [Op(op)], st.out + Postfix(l));
    NoPopBelow(r, op);
    OpenedOperators(s, [Op(op)]);
    RunInfix(r, rest, afterOp);
    AppendAssoc(s, [Op(op)], Pending(r));
    AppendAssoc(st.out, Postfix(l), Emitted(r));
  }

  lemma InfixGroup(x: Expr, rest: seq<Token>)
    ensures Infix(Group(x)) + rest == [LParen] + (Infix(x) + ([RParen] + rest))
  {
    AppendAssoc([LParen] + Infix(x), [RParen], rest);
    AppendAssoc([LParen], Infix(x), [RParen] + rest);
  }

  /** The `)` closing a bracketed `x` pops `x`'s pending operators and the
      `(`, completing `x`'s reverse Polish form. */
  lemma CloseAfterGroup(s: seq<Token>, out: seq<Token>, x: Expr)
    ensures Opened(s + [LParen] + Pending(x)) > 0
    ensures Step(Shunt(s + [LParen] + Pending(x), out + Emitted(x)), RParen) == Shunt(s, out + Postfix(x))
  {
    ParenExactly(s, Pending(x));
    EmittedThenPending(x);
    AppendAssoc(out, Emitted(x), Popped(Pending(x)));
  }

  lemma {:induction false} RunGroup(x: Expr, rest: seq<Token>, st: Shunt)
    requires WellFormed(x)
    requires Matched(rest, Opened(st.stack))
    requires Matched(Infix(Group(x)) + rest, Opened(st.stack))
    ensures Run(Infix(Group(x)) + rest, st) == Run(rest, Shunt(st.stack, st.out + Postfix(x)))
    decreases Group(x), 1
  {
    var s := st.stack;
    var tail := [RParen] + rest;
    InfixGroup(x, rest);
    RunCons(LParen, Infix(x) + tail, st);
    var afterOpen := Shunt(s + [LParen], st.out);
    assert tail[0] == RParen && tail[1..] == rest;
    RunInfix(x, tail, afterOpen);
    var inside := Shunt(s + [LParen] + Pending(x), st.out + Emitted(x));
    CloseAfterGroup(s, st.out, x);
    RunCons(RParen, rest, inside);
  }

  /** The conversion turns the infix form of a well-formed tree into the
      tree's reverse Polish form. */
  lemma ConvertInfix(e: Expr)
    requires WellFormed(e)
    ensures Matched(Infix(e), 0)
    ensures Convert(Infix(e)) == Postfix(e)
  {
    assert Infix(e) + [] == Infix(e);
    RunInfix(e, [], Shunt([], []));
    assert [] + Pending(e) == Pending(e) && [] + Emitted(e) == Emitted(e);
    EmittedThenPending(e);
  }

  /** A `(` that is never closed, before a well-formed tree's infix form,
      stays on the stack beneath the tree's operators and leaves last. */
  lemma ConvertUnclosed(e: Expr)
    requires WellFormed(e)
    ensures Matched([LParen] + Infix(e), 0)
    ensures Convert([LParen] + Infix(e)) == Postfix(e) + [LParen]
  {
    var ts := [LParen] + Infix(e);
    MatchedInfix(e, [], 1);
    assert Infix(e) + [] == Infix(e);
    assert ts[0] == LParen && ts[1..] == Infix(e);
    RunCons(LParen, Infix(e), Shunt([], []));
    var afterOpen := Shunt([LParen], []);
    assert Step(Shunt([], []), LParen) == afterOpen;
    RunInfix(e, [], afterOpen);
    assert [] + Emitted(e) == Emitted(e);
    PoppedAppend([LParen], Pending(e));
    assert Popped([LParen]) == [LParen];
    EmittedThenPending(e);
    AppendAssoc(Emitted(e), Popped(Pending(e)), [LParen]);
  }
}
