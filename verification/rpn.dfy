/** `solveRpn` (script.js lines 224-246): evaluation of a reverse Polish
    token sequence on a stack of values.

    `EvalRpn` is the evaluation as a function; `SolveRpn` is the source's
    loop over a `Stack`, proved to compute it. */
module Rpn {
  import opened Options
  import opened Operators
  import opened Tokens
  import opened Containers

  /** The two exceptions `solveRpn` throws: "Syntax Error!" (too few
      operands for an operator, or more than one value left at the end) and
      "The operator [token] is not supported.". */
  datatype Error = SyntaxError | NotSupported(token: Token)

  /** What a call gives back: a value, `undefined` (the stack was empty at
      the end), or a thrown error. */
  datatype Answer<V> = Value(v: V) | Undefined | Thrown(error: Error)

  /** Evaluate `ts` starting from the value stack `stack` (top last). A value
      only ever comes from input made of numbers and operators alone. */
  function EvalRpn<V>(ar: Arithmetic<V>, ts: seq<Token>, stack: seq<V>): (r: Answer<V>)
    ensures r.Value? ==> forall t :: t in ts ==> t.Num? || t.Op?
    decreases |ts|
  {
    if ts == [] then
      if |stack| > 1 then Thrown(SyntaxError)
      else if stack == [] then Undefined
      else Value(stack[0])
    else if ts[0].Num? then
      EvalRpn(ar, ts[1..], stack + [ar.literal(ts[0].lit)])
    else if |stack| < 2 then
      Thrown(SyntaxError)
    else if ts[0].Op? then
      var left, right := stack[|stack| - 2], stack[|stack| - 1];
      var v := Operate(ar, left, right, Symbol(ts[0].op));
      OperatorOfSymbol(ts[0].op);
      EvalRpn(ar, ts[1..], stack[..|stack| - 2] + [v.value])
    else
      Thrown(NotSupported(ts[0]))
  }

  /** `solveRpn(exp)`. */
  method SolveRpn<V>(ar: Arithmetic<V>, rpn: seq<Token>) returns (r: Answer<V>)
    ensures r == EvalRpn(ar, rpn, [])
  {
    var stack := new Stack<V>();
    for i := 0 to |rpn|
      invariant EvalRpn(ar, rpn[i..], stack.items) == EvalRpn(ar, rpn, [])
    {
      var token := rpn[i];
      assert rpn[i..][0] == token && rpn[i..][1..] == rpn[i + 1..];
      if token.Num? {
        var _ := stack.Add(ar.literal(token.lit));
      } else {
        var size := stack.Size();
        if size < 2 {
          return Thrown(SyntaxError);
        }
        ghost var values := stack.items;
        var o2 := stack.Remove();
        var o1 := stack.Remove();
        assert stack.items == values[..|values| - 2];
        assert o1.value == values[|values| - 2] && o2.value == values[|values| - 1];
        if token.Op? {
          OperatorOfSymbol(token.op);
          var _ := stack.Add(Operate(ar, o1.value, o2.value, Symbol(token.op)).value);
        } else {
          return Thrown(NotSupported(token));
        }
      }
    }
    var size := stack.Size();
    if size > 1 {
      return Thrown(SyntaxError);
    }
    var top := stack.Peek();
    r := if top.Some? then Value(top.value) else Undefined;
  }

  /** `ts` is a complete reverse Polish expression on top of `h` values
      already on the stack: no operator finds fewer than two values, and
      exactly one value is left at the end. */
  predicate Completes(ts: seq<Token>, h: nat)
    decreases |ts|
  {
    if ts == [] then h == 1
    else if ts[0].Num? then Completes(ts[1..], h + 1)
    else ts[0].Op? && h >= 2 && Completes(ts[1..], h - 1)
  }

  /** The evaluation gives a value exactly for complete expressions. */
  lemma {:induction false} ValueIffCompletes<V>(ar: Arithmetic<V>, ts: seq<Token>, stack: seq<V>)
    ensures EvalRpn(ar, ts, stack).Value? <==> Completes(ts, |stack|)
    decreases |ts|
  {
    if ts != [] {
      if ts[0].Num? {
        ValueIffCompletes(ar, ts[1..], stack + [ar.literal(ts[0].lit)]);
      } else if |stack| >= 2 && ts[0].Op? {
        OperatorOfSymbol(ts[0].op);
        var v := Operate(ar, stack[|stack| - 2], stack[|stack| - 1], Symbol(ts[0].op)).value;
        ValueIffCompletes(ar, ts[1..], stack[..|stack| - 2] + [v]);
      }
    }
  }

  /** `undefined` comes back only for empty input on an empty stack. */
  lemma {:induction false} UndefinedIffEmpty<V>(ar: Arithmetic<V>, ts: seq<Token>, stack: seq<V>)
    ensures EvalRpn(ar, ts, stack) == Undefined <==> ts == [] && stack == []
    decreases |ts|
  {
    if ts != [] {
      if ts[0].Num? {
        UndefinedIffEmpty(ar, ts[1..], stack + [ar.literal(ts[0].lit)]);
      } else if |stack| >= 2 && ts[0].Op? {
        OperatorOfSymbol(ts[0].op);
        var v := Operate(ar, stack[|stack| - 2], stack[|stack| - 1], Symbol(ts[0].op)).value;
        UndefinedIffEmpty(ar, ts[1..], stack[..|stack| - 2] + [v]);
      }
    }
  }

  /** A token that is neither a number nor an operator makes the
      evaluation throw, whatever else the input holds. */
  lemma {:induction false} UnsupportedThrows<V>(ar: Arithmetic<V>, ts: seq<Token>, stack: seq<V>, k: nat)
    requires k < |ts| && !ts[k].Num? && !ts[k].Op?
    ensures EvalRpn(ar, ts, stack).Thrown?
    decreases k
  {
    if k > 0 {
      if ts[0].Num? {
        UnsupportedThrows(ar, ts[1..], stack + [ar.literal(ts[0].lit)], k - 1);
      } else if |stack| >= 2 && ts[0].Op? {
        OperatorOfSymbol(ts[0].op);
        var v := Operate(ar, stack[|stack| - 2], stack[|stack| - 1], Symbol(ts[0].op)).value;
        UnsupportedThrows(ar, ts[1..], stack[..|stack| - 2] + [v], k - 1);
      }
    }
  }

  /** "not supported" always names a token of the input that is neither a
      number nor an operator. */
  lemma {:induction false} NotSupportedNamesToken<V>(ar: Arithmetic<V>, ts: seq<Token>, stack: seq<V>, t: Token)
    requires EvalRpn(ar, ts, stack) == Thrown(NotSupported(t))
    ensures t in ts && !t.Num? && !t.Op?
    decreases |ts|
  {
    if ts[0].Num? {
      NotSupportedNamesToken(ar, ts[1..], stack + [ar.literal(ts[0].lit)], t);
    } else if |stack| >= 2 && ts[0].Op? {
      OperatorOfSymbol(ts[0].op);
      var v := Operate(ar, stack[|stack| - 2], stack[|stack| - 1], Symbol(ts[0].op)).value;
      NotSupportedNamesToken(ar, ts[1..], stack[..|stack| - 2] + [v], t);
    }
  }

  /** An operator applies to the two values below it, the deeper one as its
      left operand. */
  lemma OperandOrder<V>(ar: Arithmetic<V>, a: string, b: string, op: Operator)
    ensures EvalRpn(ar, [Num(a), Num(b), Op(op)], []) ==
            Value(Primitive(ar, op)(ar.literal(a), ar.literal(b)))
  {
    var x, y := ar.literal(a), ar.literal(b);
    var v := Primitive(ar, op)(x, y);
    OperateDispatches(ar, x, y, op);
    assert [Num(a), Num(b), Op(op)][1..] == [Num(b), Op(op)];
    assert [Num(b), Op(op)][1..] == [Op(op)];
    assert [] + [x] == [x] && [x] + [y] == [x, y] && [x, y][..0] + [v] == [v];
    assert EvalRpn(ar, [Op(op)], [x, y]) == EvalRpn(ar, [], [v]);
  }
}
