/** The words of an expression and what each one is taken for: a number,
    one of the five operator symbols, a parenthesis, or something the
    converter ignores. */
module Tokens {
  import opened Options
  import opened Operators
  import opened Strings

  /** A word of the expression after classification. A number keeps the
      numeral it was written as; `Other` keeps an unrecognised word. */
  datatype Token = Num(lit: string) | Op(op: Operator) | LParen | RParen | Other(w: string)

  predicate IsDigit(c: char) {
    '0' <= c <= '9'
  }

  /** Digits only; the empty string counts. */
  predicate IsDigitRun(s: string) {
    forall k :: 0 <= k < |s| ==> IsDigit(s[k])
  }

  predicate IsDigits(s: string) {
    |s| > 0 && IsDigitRun(s)
  }

  /** Some character of `s` is a digit. */
  predicate HasDigit(s: string) {
    exists k :: 0 <= k < |s| && IsDigit(s[k])
  }

  /** Every character of `s` is a digit, a minus sign or a point. */
  predicate InNumeralAlphabet(s: string) {
    forall k :: 0 <= k < |s| ==> IsDigit(s[k]) || s[k] == '-' || s[k] == '.'
  }

  /** The point of `u` sits at `k`, with digits (possibly none) on either
      side and at least one digit in all. */
  predicate PointAt(u: string, k: int) {
    0 <= k < |u| && |u| > 1 && u[k] == '.' && IsDigitRun(u[..k]) && IsDigitRun(u[k + 1..])
  }

  /** A numeral with a point holds a digit and nothing but digits and the point. */
  lemma PointedChars(u: string)
    ensures (exists k :: 0 <= k < |u| && PointAt(u, k)) ==>
      HasDigit(u) && forall j :: 0 <= j < |u| ==> IsDigit(u[j]) || u[j] == '.'
  {
    if exists k :: 0 <= k < |u| && PointAt(u, k) {
      var k :| 0 <= k < |u| && PointAt(u, k);
      forall j | 0 <= j < |u|
        ensures IsDigit(u[j]) || u[j] == '.'
      {
        if j < k {
          assert u[j] == u[..k][j];
        } else if j > k {
          assert u[j] == u[k + 1..][j - k - 1];
        }
      }
      if k > 0 {
        assert u[0] == u[..k][0];
        assert IsDigit(u[0]);
      } else {
        assert u[1] == u[k + 1..][0];
        assert IsDigit(u[1]);
      }
    }
  }

  /** Digits with at most one point among them: `5`, `5.25`, `5.` and `.25`,
      but not a lone `.`. */
  function IsUnsignedNumeral(u: string): (b: bool)
    ensures b ==> HasDigit(u) && forall k :: 0 <= k < |u| ==> IsDigit(u[k]) || u[k] == '.'
  {
    PointedChars(u);
    assert IsDigits(u) ==> IsDigit(u[0]);
    IsDigits(u) || exists k :: 0 <= k < |u| && PointAt(u, k)
  }

  /** A decimal numeral, optionally negative: the words the converter sends
      straight to its output. */
  function IsNumeral(w: string): (b: bool)
    ensures b ==> HasDigit(w) && InNumeralAlphabet(w)
  {
    if |w| > 0 && w[0] == '-' then
      var u := w[1..];
      assert forall k :: 0 < k < |w| ==> w[k] == u[k - 1];
      assert HasDigit(u) ==> HasDigit(w) by {
        if HasDigit(u) {
          var k :| 0 <= k < |u| && IsDigit(u[k]);
          assert w[k + 1] == u[k];
        }
      }
      IsUnsignedNumeral(u)
    else
      IsUnsignedNumeral(w)
  }

  /** The tests of the converter's `if` chain, in the source's order: number,
      operator symbol, `(`, `)`, anything else. */
  function Classify(w: string): (t: Token)
    ensures t.Num? <==> IsNumeral(w)
    ensures t.Op? <==> !IsNumeral(w) && OperatorOf(w).Some?
    ensures t == Other(w) || Text(t) == w
  {
    if IsNumeral(w) then Num(w)
    else if OperatorOf(w).Some? then Op(OperatorOf(w).value)
    else if w == "(" then LParen
    else if w == ")" then RParen
    else Other(w)
  }

  /** The word a token is written as. */
  function Text(t: Token): string {
    match t
    case Num(lit) => lit
    case Op(op) => Symbol(op)
    case LParen => "("
    case RParen => ")"
    case Other(w) => w
  }

  /** Tokens that an expression can be written with: numbers written as
      numerals, operators and parentheses. */
  predicate Printable(t: Token) {
    (t.Num? && IsNumeral(t.lit)) || t.Op? || t == LParen || t == RParen
  }

  /** A word with a character outside the numeral alphabet is no numeral. */
  lemma NotNumeral(w: string, k: nat)
    requires k < |w| && !IsDigit(w[k]) && w[k] != '-' && w[k] != '.'
    ensures !IsNumeral(w)
  {
  }

  /** Writing a printable token and classifying the word gives the token back. */
  lemma ClassifyText(t: Token)
    requires Printable(t)
    ensures Classify(Text(t)) == t
  {
    if t.Op? {
      OperatorOfSymbol(t.op);
      NotNumeral(Symbol(t.op), 0);
    } else if t == LParen || t == RParen {
      NotNumeral(Text(t), 0);
    }
  }

  /** A printable token is written as a non-empty word without spaces whose
      first and last characters are not whitespace. */
  lemma TextShape(t: Token)
    requires Printable(t)
    ensures Text(t) != [] && ' ' !in Text(t)
    ensures !IsWhitespace(Text(t)[0]) && !IsWhitespace(Text(t)[|Text(t)| - 1])
  {
    if t.Num? {
      var w := t.lit;
      assert w[0] == w[0] && w[|w| - 1] == w[|w| - 1];
    }
  }

  /** The words of a token sequence. */
  function Words(ts: seq<Token>): (ws: seq<string>)
    ensures |ws| == |ts|
    ensures forall k :: 0 <= k < |ts| ==> ws[k] == Text(ts[k])
  {
    seq(|ts|, k requires 0 <= k < |ts| => Text(ts[k]))
  }

  /** `exp.split(" ")` followed by classification of every word. Nothing is
      lost: the words of the tokens, joined by single spaces, are `exp`. */
  function Tokenize(exp: string): (ts: seq<Token>)
    ensures |ts| == |Split(exp, ' ')|
    ensures forall k :: 0 <= k < |ts| ==> ts[k] == Classify(Split(exp, ' ')[k])
    ensures Join(Words(ts), ' ') == exp
  {
    var words := Split(exp, ' ');
    var ts := seq(|words|, k requires 0 <= k < |words| => Classify(words[k]));
    assert Words(ts) == words;
    JoinOfSplit(exp, ' ');
    ts
  }
}
