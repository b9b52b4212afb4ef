/** `parseExpression` (script.js lines 165-217): Dijkstra's shunting-yard
    conversion of an infix expression to reverse Polish order.

    `Convert` is the conversion as a function over the token sequence,
    step by step as the source takes it; `ParseExpression` is the source's
    loop over a `Queue` and a `Stack`, proved to compute `Convert`. */
module ShuntingYard {
  import opened Options
  import opened Operators
  import opened Strings
  import opened Tokens
  import opened Containers

  /** The converter's state: the operator stack (top last) and the output. */
  datatype Shunt = Shunt(stack: seq<Token>, out: seq<Token>)

  /** The number of `(` markers on an operator stack. */
  function Opened(s: seq<Token>): nat {
    if s == [] then 0 else Opened(s[..|s| - 1]) + (if s[|s| - 1] == LParen then 1 else 0)
  }

  /** The entries of a stack in the order repeated `pop`s return them. */
  function Popped(s: seq<Token>): (r: seq<Token>)
    ensures |r| == |s|
  {
    if s == [] then [] else [s[|s| - 1]] + Popped(s[..|s| - 1])
  }

  /** The `(`s a token sequence opens minus the `)`s it closes. */
  function Depth(ts: seq<Token>): int {
    if ts == [] then 0
    else (if ts[0] == LParen then 1 else if ts[0] == RParen then -1 else 0) + Depth(ts[1..])
  }

  /** Every `)` in `ts` closes a `(` that is still open: one of `open`
      already on the stack, or an earlier one in `ts`. */
  predicate Matched(ts: seq<Token>, open: nat) {
    if ts == [] then true
    else if ts[0] == LParen then Matched(ts[1..], open + 1)
    else if ts[0] == RParen then open > 0 && Matched(ts[1..], open - 1)
    else Matched(ts[1..], open)
  }

  /** The top of stack `s` is an operator that is popped before `o` is pushed. */
  predicate TopPopsBefore(s: seq<Token>, o: Operator) {
    s != [] && s[|s| - 1].Op? && PopsBefore(s[|s| - 1].op, o)
  }

  /** The entries at the top of a stack that an incoming `o` pops, bottom
      first: operators that bind more tightly than `o`, or as tightly with
      both grouping left, up to a `(` or the bottom. */
  function Outranking(s: seq<Token>, o: Operator): (p: seq<Token>)
    ensures |p| <= |s|
    ensures forall t :: t in p ==> t.Op? && PopsBefore(t.op, o)
  {
    if TopPopsBefore(s, o) then Outranking(s[..|s| - 1], o) + [s[|s| - 1]] else []
  }

  /** What stays on the stack when `o` arrives. */
  function Beneath(s: seq<Token>, o: Operator): (b: seq<Token>)
    ensures s == b + Outranking(s, o)
    ensures !TopPopsBefore(b, o)
    ensures Opened(b) == Opened(s)
  {
    if TopPopsBefore(s, o) then
      var b := Beneath(s[..|s| - 1], o);
      assert s == s[..|s| - 1] + [s[|s| - 1]];
      b
    else s
  }

  /** The inner loop for an incoming operator `o`: entries leave the top of
      the stack for the end of the output, each one an operator that `o`
      pops, no `(` among them, until the top is one that `o` does not pop. */
  function PopWhile(st: Shunt, o: Operator): (r: Shunt)
    ensures r.stack <= st.stack && st.out <= r.out
    ensures |r.stack| + |r.out| == |st.stack| + |st.out|
    ensures forall t :: t in r.out[|st.out|..] ==> t.Op? && PopsBefore(t.op, o)
    ensures !TopPopsBefore(r.stack, o)
  {
    var moved := Popped(Outranking(st.stack, o));
    PoppedMembers(Outranking(st.stack, o));
    assert (st.out + moved)[|st.out|..] == moved;
    Shunt(Beneath(st.stack, o), st.out + moved)
  }

  /** Popping a stack with `x` on top returns `x` first. */
  lemma PoppedSnoc(a: seq<Token>, x: Token)
    ensures Popped(a + [x]) == [x] + Popped(a)
  {
    assert (a + [x])[..|a|] == a;
  }

  /** The entries of a stack above its topmost `(`. */
  function AboveParen(s: seq<Token>): (a: seq<Token>)
    requires Opened(s) > 0
    ensures LParen !in a
    ensures |a| < |s|
  {
    if s[|s| - 1] == LParen then [] else AboveParen(s[..|s| - 1]) + [s[|s| - 1]]
  }

  /** The entries of a stack below its topmost `(`. */
  function BelowParen(s: seq<Token>): (b: seq<Token>)
    requires Opened(s) > 0
    ensures Opened(b) == Opened(s) - 1
    ensures s == b + [LParen] + AboveParen(s)
  {
    if s[|s| - 1] == LParen then s[..|s| - 1]
    else
      var b := BelowParen(s[..|s| - 1]);
      assert s == s[..|s| - 1] + [s[|s| - 1]];
      b
  }

  /** The loop for `)`: pop to the output everything above the nearest
      `(`, then discard that `(`. */
  function PopToParen(st: Shunt): (r: Shunt)
    requires Opened(st.stack) > 0
    ensures r.stack <= st.stack && st.out <= r.out
    ensures |r.stack| + |r.out| + 1 == |st.stack| + |st.out|
    ensures Opened(r.stack) == Opened(st.stack) - 1
    ensures LParen !in r.out[|st.out|..]
  {
    var moved := Popped(AboveParen(st.stack));
    PoppedMembers(AboveParen(st.stack));
    assert (st.out + moved)[|st.out|..] == moved;
    Shunt(BelowParen(st.stack), st.out + moved)
  }

  /** One pass of the converter's `for` loop. */
  function Step(st: Shunt, t: Token): (r: Shunt)
    requires t == RParen ==> Opened(st.stack) > 0
    ensures Opened(r.stack) == Opened(st.stack) + Depth([t])
    ensures st.out <= r.out
    ensures |r.stack| + |r.out| <= |st.stack| + |st.out| + 1
  {
    match t
    case Num(_) => Shunt(st.stack, st.out + [t])
    case Op(o) =>
      var p := PopWhile(st, o);
      Shunt(p.stack + [t], p.out)
    case LParen => Shunt(st.stack + [t], st.out)
    case RParen => PopToParen(st)
    case Other(_) => st
  }

  /** The `for` loop over all tokens. */
  function Run(ts: seq<Token>, st: Shunt): (r: Shunt)
    requires Matched(ts, Opened(st.stack))
    ensures Opened(r.stack) == Opened(st.stack) + Depth(ts)
    ensures st.out <= r.out
    ensures |r.stack| + |r.out| <= |st.stack| + |st.out| + |ts|
    decreases |ts|
  {
    if ts == [] then st else Run(ts[1..], Step(st, ts[0]))
  }

  /** The final loop: what is left on the stack goes to the output, top first. */
  function Flush(st: Shunt): (r: seq<Token>)
    ensures st.out <= r
    ensures multiset(r) == multiset(st.out) + multiset(st.stack)
  {
    PoppedPermutes(st.stack);
    st.out + Popped(st.stack)
  }

  /** Popping a whole stack hands out each entry once. */
  lemma {:induction false} PoppedPermutes(s: seq<Token>)
    ensures multiset(Popped(s)) == multiset(s)
  {
    if s != [] {
      PoppedPermutes(s[..|s| - 1]);
      assert s == s[..|s| - 1] + [s[|s| - 1]];
    }
  }

  /** Popping a stack hands out exactly its entries. */
  lemma PoppedMembers(s: seq<Token>)
    ensures forall t :: t in Popped(s) <==> t in s
  {
    PoppedPermutes(s);
    assert forall t :: t in Popped(s) <==> t in multiset(Popped(s));
  }

  /** The reverse Polish form of an infix token sequence, never longer
      than the sequence itself. */
  function Convert(ts: seq<Token>): (r: seq<Token>)
    requires Matched(ts, 0)
    ensures |r| <= |ts|
  {
    Flush(Run(ts, Shunt([], [])))
  }

  /** One pass of the inner loop for an incoming operator pops the top. */
  lemma PopOneOutranking(s: seq<Token>, o: Operator)
    requires TopPopsBefore(s, o)
    ensures Beneath(s, o) == Beneath(s[..|s| - 1], o)
    ensures Popped(Outranking(s, o)) == [s[|s| - 1]] + Popped(Outranking(s[..|s| - 1], o))
  {
    PoppedSnoc(Outranking(s[..|s| - 1], o), s[|s| - 1]);
  }

  /** One pass of the loop for `)` pops the top. */
  lemma PopOneAboveParen(s: seq<Token>)
    requires Opened(s) > 0 && s != [] && s[|s| - 1] != LParen
    ensures Opened(s[..|s| - 1]) > 0
    ensures BelowParen(s) == BelowParen(s[..|s| - 1])
    ensures Popped(AboveParen(s)) == [s[|s| - 1]] + Popped(AboveParen(s[..|s| - 1]))
  {
    PoppedSnoc(AboveParen(s[..|s| - 1]), s[|s| - 1]);
  }

  lemma AppendAssoc(a: seq<Token>, b: seq<Token>, c: seq<Token>)
    ensures (a + b) + c == a + (b + c)
  {
  }

  /** Running from position `i` is one step on `ts[i]` and then running on. */
  lemma RunStep(ts: seq<Token>, i: nat, st: Shunt)
    requires i < |ts|
    requires Matched(ts[i..], Opened(st.stack))
    ensures ts[i] == RParen ==> Opened(st.stack) > 0
    ensures Matched(ts[i + 1..], Opened(Step(st, ts[i]).stack))
    ensures Run(ts[i..], st) == Run(ts[i + 1..], Step(st, ts[i]))
  {
    assert ts[i..][0] == ts[i] && ts[i..][1..] == ts[i + 1..];
  }

  /** The inner `while` for an incoming operator `o` (script.js lines
      186-193): move waiting operators from the stack to the output while
      the top outranks `o`. */
  method PopOutranking(o: Operator, output: Queue<Token>, operatorStack: Stack<Token>)
    modifies output, operatorStack
    ensures operatorStack.items == Beneath(old(operatorStack.items), o)
    ensures output.items == old(output.items) + Popped(Outranking(old(operatorStack.items), o))
  {
    var top := operatorStack.Peek();
    while top.Some? && top.value.Op? && PopsBefore(top.value.op, o)
      invariant top.None? <==> operatorStack.items == []
      invariant top.Some? ==> top.value == operatorStack.items[|operatorStack.items| - 1]
      invariant Beneath(operatorStack.items, o) == Beneath(old(operatorStack.items), o)
      invariant output.items + Popped(Outranking(operatorStack.items, o)) ==
                old(output.items) + Popped(Outranking(old(operatorStack.items), o))
      decreases |operatorStack.items|
    {
      ghost var s, out := operatorStack.items, output.items;
      PopOneOutranking(s, o);
      AppendAssoc(out, [s[|s| - 1]], Popped(Outranking(s[..|s| - 1], o)));
      var popped := operatorStack.Remove();
      var _ := output.Enqueue(popped.value);
      top := operatorStack.Peek();
    }
  }

  /** The `while` for `)` (script.js lines 200-206): move everything above
      the nearest `(` to the output, then discard the `(`. */
  method PopUntilParen(output: Queue<Token>, operatorStack: Stack<Token>)
    requires Opened(operatorStack.items) > 0
    modifies output, operatorStack
    ensures operatorStack.items == BelowParen(old(operatorStack.items))
    ensures output.items == old(output.items) + Popped(AboveParen(old(operatorStack.items)))
  {
    var top := operatorStack.Peek();
    while top != Some(LParen)
      invariant top.None? <==> operatorStack.items == []
      invariant top.Some? ==> top.value == operatorStack.items[|operatorStack.items| - 1]
      invariant Opened(operatorStack.items) > 0
      invariant BelowParen(operatorStack.items) == BelowParen(old(operatorStack.items))
      invariant output.items + Popped(AboveParen(operatorStack.items)) ==
                old(output.items) + Popped(AboveParen(old(operatorStack.items)))
      decreases |operatorStack.items|
    {
      ghost var s, out := operatorStack.items, output.items;
      PopOneAboveParen(s);
      AppendAssoc(out, [s[|s| - 1]], Popped(AboveParen(s[..|s| - 1])));
      var popped := operatorStack.Remove();
      var _ := output.Enqueue(popped.value);
      top := operatorStack.Peek();
    }
    ghost var s := operatorStack.items;
    assert s != [] && s[|s| - 1] == LParen;
    assert AboveParen(s) == [] && BelowParen(s) == s[..|s| - 1];
    var _ := operatorStack.Remove();
  }

  /** The final `while` (script.js lines 211-215): empty the stack into the
      output, top first. */
  method FlushStack(output: Queue<Token>, operatorStack: Stack<Token>)
    modifies output, operatorStack
    ensures operatorStack.items == []
    ensures output.items == old(output.items) + Popped(old(operatorStack.items))
  {
    var size := operatorStack.Size();
    while size != 0
      invariant size == |operatorStack.items|
      invariant output.items + Popped(operatorStack.items) ==
                old(output.items) + Popped(old(operatorStack.items))
      decreases |operatorStack.items|
    {
      ghost var s, out := operatorStack.items, output.items;
      PoppedSnoc(s[..|s| - 1], s[|s| - 1]);
      assert s == s[..|s| - 1] + [s[|s| - 1]];
      AppendAssoc(out, [s[|s| - 1]], Popped(s[..|s| - 1]));
      var popped := operatorStack.Remove();
      var _ := output.Enqueue(popped.value);
      size := operatorStack.Size();
    }
  }

  /** The body of the converter's `for` loop (script.js lines 181-207):
      one token moves the converter's state on by one `Step`. */
  method ShuntToken(token: Token, output: Queue<Token>, operatorStack: Stack<Token>)
    requires token == RParen ==> Opened(operatorStack.items) > 0
    modifies output, operatorStack
    ensures Shunt(operatorStack.items, output.items) == Step(Shunt(old(operatorStack.items), old(output.items)), token)
  {
    match token {
      case Num(_) =>
        var _ := output.Enqueue(token);
      case Op(o) =>
        PopOutranking(o, output, operatorStack);
        var _ := operatorStack.Add(token);
      case LParen =>
        var _ := operatorStack.Add(token);
      case RParen =>
        PopUntilParen(output, operatorStack);
      case Other(_) =>
    }
  }

  /** `parseExpression(exp)`: split on single spaces, then convert with an
      output queue and an operator stack. The source never leaves its `)`
      loop when a `)` has no `(` to close, so callers must not pass one. */
  method ParseExpression(exp: string) returns (rpn: seq<Token>)
    requires Matched(Tokenize(exp), 0)
    ensures rpn == Convert(Tokenize(exp))
  {
    var words := Split(exp, ' ');
    ghost var ts := Tokenize(exp);
    var output := new Queue<Token>();
    var operatorStack := new Stack<Token>();
    for i := 0 to |words|
      invariant Matched(ts[i..], Opened(operatorStack.items))
      invariant Flush(Run(ts[i..], Shunt(operatorStack.items, output.items))) == Convert(ts)
    {
      var token := Classify(words[i]);
      RunStep(ts, i, Shunt(operatorStack.items, output.items));
      ShuntToken(token, output, operatorStack);
    }
    FlushStack(output, operatorStack);
    rpn := output.items;
  }
}
