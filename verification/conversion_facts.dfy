/** What the shunting-yard conversion promises for every input: numbers
    reach the output unchanged and in order, unrecognised words and `)`
    never reach it, every number and operator reaches it exactly once, and
    a `(` reaches it only when it was never closed. */
module ConversionFacts {
  import opened Operators
  import opened Tokens
  import opened ShuntingYard

  /** The tokens of `s` that satisfy `keep`, in order. */
  function Filter(s: seq<Token>, keep: Token -> bool): (r: seq<Token>)
    ensures |r| <= |s|
  {
    if s == [] then [] else (if keep(s[0]) then [s[0]] else []) + Filter(s[1..], keep)
  }

  predicate IsNumber(t: Token) { t.Num? }

  /** Numbers and operators: what the output is made of. */
  predicate IsArithmetic(t: Token) { t.Num? || t.Op? }

  predicate IsRecognised(t: Token) { !t.Other? }

  /** What the operator stack ever holds: operators and `(` markers. */
  predicate StackShape(s: seq<Token>) {
    forall t :: t in s ==> t.Op? || t == LParen
  }

  /** The number of `(` tokens in `ts` that are never closed. */
  function Unclosed(ts: seq<Token>): nat
    requires Matched(ts, 0)
  {
    Opened(Run(ts, Shunt([], [])).stack)
  }

  lemma {:induction false} FilterMembers(s: seq<Token>, keep: Token -> bool)
    ensures forall t :: t in Filter(s, keep) ==> t in s && keep(t)
  {
    if s != [] {
      FilterMembers(s[1..], keep);
    }
  }

  lemma {:induction false} FilterAppend(a: seq<Token>, b: seq<Token>, keep: Token -> bool)
    ensures Filter(a + b, keep) == Filter(a, keep) + Filter(b, keep)
  {
    if a != [] {
      assert (a + b)[0] == a[0] && (a + b)[1..] == a[1..] + b;
      FilterAppend(a[1..], b, keep);
    } else {
      assert a + b == b;
    }
  }

  lemma FilterOne(t: Token, keep: Token -> bool)
    ensures Filter([t], keep) == if keep(t) then [t] else []
  {
    assert [t][0] == t && [t][1..] == [];
  }

  lemma {:induction false} FilterNone(s: seq<Token>, keep: Token -> bool)
    requires forall t :: t in s ==> !keep(t)
    ensures Filter(s, keep) == []
  {
    if s != [] {
      assert s[0] in s;
      FilterNone(s[1..], keep);
    }
  }

  lemma {:induction false} FilterAll(s: seq<Token>, keep: Token -> bool)
    requires forall t :: t in s ==> keep(t)
    ensures Filter(s, keep) == s
  {
    if s != [] {
      assert s[0] in s;
      FilterAll(s[1..], keep);
    }
  }

  lemma {:induction false} PoppedAppend(a: seq<Token>, b: seq<Token>)
    ensures Popped(a + b) == Popped(b) + Popped(a)
    decreases |b|
  {
    if b == [] {
      assert a + b == a;
    } else {
      var c := b[..|b| - 1];
      assert a + b == (a + c) + [b[|b| - 1]];
      PoppedSnoc(a + c, b[|b| - 1]);
      PoppedAppend(a, c);
      PoppedSnoc(c, b[|b| - 1]);
    }
  }

  lemma {:induction false} FilterPopped(s: seq<Token>, keep: Token -> bool)
    ensures multiset(Filter(Popped(s), keep)) == multiset(Filter(s, keep))
  {
    if s != [] {
      var c, x := s[..|s| - 1], s[|s| - 1];
      assert s == c + [x];
      FilterAppend([x], Popped(c), keep);
      FilterAppend(c, [x], keep);
      FilterPopped(c, keep);
    }
  }

  /** `Opened` counts exactly the `(` entries. */
  lemma {:induction false} OpenedCounts(s: seq<Token>)
    ensures Opened(s) == multiset(s)[LParen]
  {
    if s != [] {
      OpenedCounts(s[..|s| - 1]);
      assert s == s[..|s| - 1] + [s[|s| - 1]];
    }
  }

  /** The number tokens of `s`, in order. */
  function Numbers(s: seq<Token>): seq<Token> {
    Filter(s, IsNumber)
  }

  /** The number and operator tokens of `s`, counted by occurrence. */
  function Counted(s: seq<Token>): multiset<Token> {
    multiset(Filter(s, IsArithmetic))
  }

  lemma NumbersAppend(a: seq<Token>, b: seq<Token>)
    ensures Numbers(a + b) == Numbers(a) + Numbers(b)
  {
    FilterAppend(a, b, IsNumber);
  }

  lemma CountedAppend(a: seq<Token>, b: seq<Token>)
    ensures Counted(a + b) == Counted(a) + Counted(b)
  {
    FilterAppend(a, b, IsArithmetic);
  }

  /** Going from `st` to `r` on the input `ts` kept the stack's shape, sent
      on the numbers of `ts` in order, neither lost nor invented a number or
      an operator, and added nothing else to the output. */
  predicate Accounts(st: Shunt, ts: seq<Token>, r: Shunt) {
    && StackShape(r.stack)
    && Numbers(r.out) == Numbers(st.out) + Numbers(ts)
    && Counted(r.out) + Counted(r.stack) == Counted(st.out) + Counted(st.stack) + Counted(ts)
    && forall u :: u in r.out ==> u in st.out || IsArithmetic(u)
  }

  lemma AccountsChain(a: Shunt, x: seq<Token>, b: Shunt, y: seq<Token>, c: Shunt)
    requires Accounts(a, x, b) && Accounts(b, y, c)
    ensures Accounts(a, x + y, c)
  {
    NumbersAppend(x, y);
    CountedAppend(x, y);
    AppendAssoc(Numbers(a.out), Numbers(x), Numbers(y));
    var ca, cb, cc := Counted(a.out) + Counted(a.stack), Counted(b.out) + Counted(b.stack), Counted(c.out) + Counted(c.stack);
    assert cc == cb + Counted(y) == (ca + Counted(x)) + Counted(y);
  }

  /** Popping the entries `moved` off a well-shaped stack onto the output. */
  lemma Transfer(out: seq<Token>, moved: seq<Token>)
    requires StackShape(moved)
    ensures Numbers(out + Popped(moved)) == Numbers(out)
    ensures Counted(out + Popped(moved)) == Counted(out) + Counted(moved)
    ensures forall u :: u in out + Popped(moved) ==> u in out || u in moved
  {
    PoppedMembers(moved);
    FilterNone(Popped(moved), IsNumber);
    NumbersAppend(out, Popped(moved));
    CountedAppend(out, Popped(moved));
    FilterPopped(moved, IsArithmetic);
  }

  /** The entries an incoming operator leaves on the stack and those it pops. */
  lemma OperatorParts(s: seq<Token>, o: Operator)
    requires StackShape(s)
    ensures StackShape(Beneath(s, o) + [Op(o)]) && StackShape(Outranking(s, o))
    ensures Counted(s) + Counted([Op(o)]) == Counted(Beneath(s, o) + [Op(o)]) + Counted(Outranking(s, o))
  {
    var below, moved := Beneath(s, o), Outranking(s, o);
    assert forall u :: u in below ==> u in s;
    CountedAppend(below, moved);
    CountedAppend(below, [Op(o)]);
  }

  lemma StepOperatorAccounts(st: Shunt, o: Operator)
    requires StackShape(st.stack)
    ensures Accounts(st, [Op(o)], Step(st, Op(o)))
  {
    var moved, kept := Outranking(st.stack, o), Beneath(st.stack, o) + [Op(o)];
    assert Step(st, Op(o)) == Shunt(kept, st.out + Popped(moved));
    OperatorParts(st.stack, o);
    Transfer(st.out, moved);
    var a, m, k := Counted(st.out), Counted(moved), Counted(kept);
    calc {
      Counted(st.out + Popped(moved)) + k;
      (a + m) + k;
      a + (k + m);
      a + (Counted(st.stack) + Counted([Op(o)]));
    }
  }

  /** The entries a `)` leaves on the stack and those it pops. */
  lemma CloseParts(s: seq<Token>)
    requires Opened(s) > 0
    requires StackShape(s)
    ensures StackShape(BelowParen(s)) && StackShape(AboveParen(s))
    ensures forall u :: u in AboveParen(s) ==> u.Op?
    ensures Counted(s) == Counted(BelowParen(s)) + Counted(AboveParen(s))
  {
    var below, moved := BelowParen(s), AboveParen(s);
    assert s == below + [LParen] + moved;
    assert forall u :: u in moved ==> u in s;
    assert forall u :: u in below ==> u in s;
    CountedAroundParen(below, LParen, moved);
  }

  lemma CountedAroundParen(below: seq<Token>, t: Token, moved: seq<Token>)
    requires t == LParen
    ensures Counted(below + [t] + moved) == Counted(below) + Counted(moved)
  {
    CountedAppend(below + [t], moved);
    CountedAppend(below, [t]);
    FilterOne(t, IsArithmetic);
  }

  lemma StepCloseAccounts(st: Shunt, t: Token)
    requires t == RParen
    requires Opened(st.stack) > 0
    requires StackShape(st.stack)
    ensures Accounts(st, [t], Step(st, t))
  {
    var moved, kept := AboveParen(st.stack), BelowParen(st.stack);
    assert Step(st, t) == Shunt(kept, st.out + Popped(moved));
    CloseParts(st.stack);
    Transfer(st.out, moved);
    var a, m, k := Counted(st.out), Counted(moved), Counted(kept);
    calc {
      Counted(st.out + Popped(moved)) + k;
      (a + m) + k;
      a + (k + m);
    }
    FilterOne(t, IsArithmetic);
    FilterOne(t, IsNumber);
  }

  lemma StepNumberAccounts(st: Shunt, t: Token)
    requires t.Num?
    requires StackShape(st.stack)
    ensures Accounts(st, [t], Step(st, t))
  {
    NumbersAppend(st.out, [t]);
    CountedAppend(st.out, [t]);
  }

  lemma StepOpenAccounts(st: Shunt, t: Token)
    requires t == LParen
    requires StackShape(st.stack)
    ensures Accounts(st, [t], Step(st, t))
  {
    assert Step(st, t) == Shunt(st.stack + [t], st.out);
    assert forall u :: u in st.stack + [t] ==> u in st.stack || u == t;
    FilterOne(t, IsArithmetic);
    CountedAppend(st.stack, [t]);
  }

  lemma StepOtherAccounts(st: Shunt, t: Token)
    requires t.Other?
    requires StackShape(st.stack)
    ensures Accounts(st, [t], Step(st, t))
  {
    FilterOne(t, IsArithmetic);
    FilterOne(t, IsNumber);
  }

  /** One step of the conversion accounts for its token. */
  lemma StepAccounts(st: Shunt, t: Token)
    requires t == RParen ==> Opened(st.stack) > 0
    requires StackShape(st.stack)
    ensures Accounts(st, [t], Step(st, t))
  {
    match t
    case Num(_) => StepNumberAccounts(st, t);
    case Op(o) => StepOperatorAccounts(st, o);
    case LParen => StepOpenAccounts(st, t);
    case RParen => StepCloseAccounts(st, t);
    case Other(_) => StepOtherAccounts(st, t);
  }

  /** A whole run accounts for its tokens. */
  lemma {:induction false} RunAccounts(ts: seq<Token>, st: Shunt)
    requires Matched(ts, Opened(st.stack))
    requires StackShape(st.stack)
    ensures Accounts(st, ts, Run(ts, st))
    decreases |ts|
  {
    if ts != [] {
      var t, rest := ts[0], ts[1..];
      RunStep(ts, 0, st);
      assert ts[0..] == ts && ts == [t] + rest;
      var next := Step(st, t);
      StepAccounts(st, t);
      RunAccounts(rest, next);
      AccountsChain(st, [t], next, rest, Run(rest, next));
    }
  }

  /** Numbers reach the output unchanged and in their input order. */
  lemma NumbersKeepOrder(ts: seq<Token>)
    requires Matched(ts, 0)
    ensures Numbers(Convert(ts)) == Numbers(ts)
  {
    var r := Run(ts, Shunt([], []));
    RunAccounts(ts, Shunt([], []));
    Transfer(r.out, r.stack);
  }

  /** The output holds numbers, operators and unclosed `(` only: a `)` or
      an unrecognised word never reaches it. */
  lemma OutputTokens(ts: seq<Token>)
    requires Matched(ts, 0)
    ensures forall t :: t in Convert(ts) ==> t.Num? || t.Op? || t == LParen
  {
    var r := Run(ts, Shunt([], []));
    RunAccounts(ts, Shunt([], []));
    Transfer(r.out, r.stack);
  }

  /** Flushing a well-shaped stack onto an output without brackets. */
  lemma FlushCounts(r: Shunt)
    requires StackShape(r.stack)
    requires forall u :: u in r.out ==> IsArithmetic(u)
    ensures Counted(Flush(r)) == Counted(r.out) + Counted(r.stack)
    ensures multiset(Flush(r))[LParen] == Opened(r.stack)
  {
    Transfer(r.out, r.stack);
    assert LParen !in r.out;
    PoppedPermutes(r.stack);
    OpenedCounts(r.stack);
    calc {
      multiset(Flush(r))[LParen];
      multiset(r.out)[LParen] + multiset(Popped(r.stack))[LParen];
      multiset(r.stack)[LParen];
    }
  }

  /** Every number and operator of the input appears in the output exactly
      as often as in the input, and `(` appears once for each `(` that is
      never closed. */
  lemma OutputCounts(ts: seq<Token>)
    requires Matched(ts, 0)
    ensures Counted(Convert(ts)) == Counted(ts)
    ensures multiset(Convert(ts))[LParen] == Unclosed(ts)
  {
    var st := Shunt([], []);
    var r := Run(ts, st);
    RunAccounts(ts, st);
    assert Counted(st.out) == multiset{};
    FlushCounts(r);
  }

  /** With every `(` closed, the output is exactly the numbers and operators
      of the input, rearranged: no parenthesis is left and its length is the
      number of number tokens plus operator tokens. */
  lemma BalancedOutput(ts: seq<Token>)
    requires Matched(ts, 0) && Depth(ts) == 0
    ensures forall t :: t in Convert(ts) ==> t.Num? || t.Op?
    ensures multiset(Convert(ts)) == multiset(Filter(ts, IsArithmetic))
    ensures |Convert(ts)| == |Filter(ts, IsArithmetic)|
  {
    OutputTokens(ts);
    OutputCounts(ts);
    assert LParen !in multiset(Convert(ts));
    FilterAll(Convert(ts), IsArithmetic);
    assert |multiset(Convert(ts))| == |multiset(Filter(ts, IsArithmetic))|;
  }

  /** An unclosed `(` is flushed into the output. */
  lemma UnbalancedOutput(ts: seq<Token>)
    requires Matched(ts, 0) && Depth(ts) > 0
    ensures LParen in Convert(ts)
  {
    OutputCounts(ts);
  }

  /** The input without its unrecognised words. */
  function Recognised(ts: seq<Token>): seq<Token> {
    Filter(ts, IsRecognised)
  }

  lemma RecognisedCons(ts: seq<Token>)
    requires ts != []
    ensures !ts[0].Other? ==> Recognised(ts) == [ts[0]] + Recognised(ts[1..])
    ensures ts[0].Other? ==> Recognised(ts) == Recognised(ts[1..])
  {
  }

  lemma {:induction false} RecognisedMatched(ts: seq<Token>, open: nat)
    ensures Matched(Recognised(ts), open) == Matched(ts, open)
    ensures Depth(Recognised(ts)) == Depth(ts)
    decreases |ts|
  {
    if ts != [] {
      var rest := Recognised(ts[1..]);
      RecognisedCons(ts);
      RecognisedMatched(ts[1..], open);
      if ts[0] == LParen {
        RecognisedMatched(ts[1..], open + 1);
      } else if ts[0] == RParen && open > 0 {
        RecognisedMatched(ts[1..], open - 1);
      }
      if !ts[0].Other? {
        assert ([ts[0]] + rest)[0] == ts[0] && ([ts[0]] + rest)[1..] == rest;
      }
    }
  }

  lemma {:induction false} RunIgnoresOther(ts: seq<Token>, st: Shunt)
    requires Matched(ts, Opened(st.stack))
    ensures Matched(Recognised(ts), Opened(st.stack))
    ensures Run(Recognised(ts), st) == Run(ts, st)
    decreases |ts|
  {
    RecognisedMatched(ts, Opened(st.stack));
    if ts != [] {
      var next := Step(st, ts[0]);
      var rest := Recognised(ts[1..]);
      RecognisedCons(ts);
      RunIgnoresOther(ts[1..], next);
      if !ts[0].Other? {
        assert ([ts[0]] + rest)[0] == ts[0] && ([ts[0]] + rest)[1..] == rest;
      }
    }
  }

  /** Unrecognised words are dropped without any effect on the output. */
  lemma OthersIgnored(ts: seq<Token>)
    requires Matched(ts, 0)
    ensures Matched(Recognised(ts), 0)
    ensures Convert(Recognised(ts)) == Convert(ts)
  {
    RunIgnoresOther(ts, Shunt([], []));
  }
}
