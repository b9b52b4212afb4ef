# Shunting-yard calculator, modelled in Dafny

This project models the arithmetic engine of a small browser calculator,
`scripts/script.js` lines 1-257. The engine has five parts:

- The five arithmetic primitives, and `operate`, which picks one of them
  from an operator symbol. The symbols are `p`, `m`, `*`, `/` and `^`.
- The array-backed `Queue` and `Stack` classes.
- `parseExpression`. It splits an expression on single spaces and runs
  Dijkstra's shunting-yard algorithm over the words. The algorithm uses the
  precedence table `^` 4 right, `*` `/` 3 left, `p` `m` 2 left. The result is
  the expression in reverse Polish order.
- `solveRpn`. It evaluates a reverse Polish sequence on a value stack and
  throws "Syntax Error!" or "not supported" on malformed input.
- `getAnswer`. It trims the expression, converts it and evaluates it.

Numbers are abstract. `Arithmetic<V>` bundles a numeral reader with the five
primitives, so every result holds for any number type. Words are classified
into `Token`s: `Num`, `Op`, `LParen`, `RParen`, and `Other` for anything else.

The files follow the program's structure:

| file | contents |
|---|---|
| `operators.dfy` | operators, symbols, precedence and associativity, `Operate` |
| `strings.dfy` | `trim` and `split(" ")` on strings |
| `tokens.dfy` | what each word is taken for |
| `containers.dfy` | `Queue` and `Stack` as classes over `seq` |
| `shunting_yard.dfy` | the conversion as functions (`Step`, `Run`, `Convert`) and as the source's loops (`ParseExpression`) |
| `rpn.dfy` | evaluation as a function (`EvalRpn`) and as the source's loop (`SolveRpn`) |
| `conversion_facts.dfy` | what the conversion promises for every input |
| `expressions.dfy` | expression trees, which trees the precedence table lets one write without brackets, and a recursive evaluator |
| `infix_conversion.dfy` | correctness of the conversion: the infix form of a well-formed tree becomes its reverse Polish form |
| `calculator.dfy` | `GetAnswer` and the end-to-end theorem |
| `worked_cases.dfy` | particular expressions |

Each loop of the source is a method. Each method is proved to compute a
specification function, and the properties are proved about those functions:

- `ParseExpression` computes `Convert(Tokenize(exp))`.
- `SolveRpn` computes `EvalRpn(rpn, [])`.
- `GetAnswer` computes `AnswerOf(exp)`.

The main theorem is `Calculator.AnswerOfRender`. Write any well-formed
expression tree out with its tokens separated by single spaces. The
calculator answers that string with the tree's value, computed by a
recursive evaluator that knows nothing of stacks.

## Model

| member | source | states |
|---|---|---|
| Operators.OperatorOf | scripts/script.js:179-185 | a word names an operator exactly when it is one of the five symbols, and the operator found has that symbol |
| Operators.OperatorOfSymbol | scripts/script.js:179 | each operator is recognised from its own symbol, so no two operators share a symbol |
| Operators.Precedence | scripts/script.js:172-178 | precedences run from 2 to 4, and only `^` has the top precedence 4 |
| Operators.AssociativityOf | scripts/script.js:172-178 | an operator groups to the right exactly when it has the top precedence, which makes `^` the only right-associative operator |
| Operators.PopsBefore | scripts/script.js:186-190 | a waiting operator is popped only if it binds at least as tightly as the incoming one, and always if it binds more tightly; an incoming `^` pops nothing |
| Operators.RankDeterminesAssociativity | scripts/script.js:172-178 | in the precedence table, operators of equal precedence have the same associativity |
| Operators.PopsBeforeCharacterised | scripts/script.js:186-190 | a waiting operator is popped exactly when it has higher precedence than the incoming one, or the same precedence with the incoming one not `^` |
| Operators.Operate | scripts/script.js:58-74 | `operate` gives a value exactly for the five symbols; any other symbol gives `undefined` |
| Operators.OperateDispatches | scripts/script.js:10-74 | each symbol applies the primitive it names to the operands, left operand first |
| Strings.TrimStart | scripts/script.js:254 | the result is a suffix of the input, does not start with whitespace, and only whitespace was removed |
| Strings.TrimEnd | scripts/script.js:254 | the result is a prefix of the input, does not end with whitespace, and only whitespace was removed |
| Strings.Trim | scripts/script.js:254 | the result is a slice `s[i..j]` of the input with only whitespace before `i` and after `j`, and it is empty or starts and ends with non-whitespace |
| Strings.TrimKeeps | scripts/script.js:254 | a string that neither starts nor ends with whitespace is left unchanged |
| Strings.TrimIdempotent | scripts/script.js:254 | trimming twice equals trimming once |
| Strings.Split | scripts/script.js:167 | splitting gives at least one piece, and no piece contains the separator |
| Strings.JoinOfSplit | scripts/script.js:167 | joining the pieces back with the separator gives the original string |
| Strings.SplitOfJoin | scripts/script.js:167 | splitting pieces that were joined with a separator they do not contain gives the pieces back |
| Tokens.Classify | scripts/script.js:182-207 | a word is a number exactly when it is a numeral; it is an operator exactly when it is not a numeral and is one of the five symbols; any other token writes back to the same word |
| Tokens.ClassifyText | scripts/script.js:182-199 | writing a printable token out and classifying the word gives the same token back |
| Tokens.IsUnsignedNumeral | scripts/script.js:182 | an unsigned numeral such as `5`, `5.25`, `5.` or `.25` holds at least one digit and nothing but digits and a point |
| Tokens.IsNumeral | scripts/script.js:182 | a numeral, optionally with a leading `-`, holds a digit and only digits, `-` and `.`, so it never collides with an operator symbol or a bracket |
| Tokens.TextShape | scripts/script.js:167-182 | a printable token is written as a non-empty word with no space in it and no whitespace at either end |
| Tokens.Tokenize | scripts/script.js:167-182 | there is one token per space-separated word, each token is that word's classification, and the tokens' words joined by single spaces give back the expression, so nothing is lost |
| Containers.Queue.constructor | scripts/script.js:81-83 | a new queue is empty |
| Containers.Queue.Enqueue | scripts/script.js:86-88 | the element is appended at the back; the new length is returned |
| Containers.Queue.Dequeue | scripts/script.js:91-95 | a non-empty queue loses its front element and returns it; an empty queue is unchanged and returns nothing |
| Containers.Queue.Peek | scripts/script.js:98-100 | returns the BACK element (the last one added), or nothing when the queue is empty |
| Containers.Queue.IsEmpty | scripts/script.js:103-105 | true exactly when the queue holds nothing |
| Containers.Queue.Size | scripts/script.js:108-110 | returns the number of elements |
| Containers.Queue.Clear | scripts/script.js:113-115 | the queue becomes empty |
| Containers.Stack.constructor | scripts/script.js:123-125 | a new stack is empty |
| Containers.Stack.Add | scripts/script.js:128-130 | the element becomes the new top; the new size is returned |
| Containers.Stack.Remove | scripts/script.js:133-137 | a non-empty stack loses its top and returns it, with the rest unchanged; an empty stack is unchanged and returns nothing |
| Containers.Stack.Peek | scripts/script.js:140-142 | returns the top without changing the stack, or nothing when it is empty |
| Containers.Stack.IsEmpty | scripts/script.js:145-147 | true exactly when the stack holds nothing |
| Containers.Stack.Size | scripts/script.js:150-152 | returns the number of elements |
| Containers.Stack.Clear | scripts/script.js:155-157 | the stack becomes empty |
| Containers.AddThenRemove | scripts/script.js:128-137 | removing right after adding returns the added element and restores the stack |
| Containers.LastInFirstOut | scripts/script.js:128-137 | a stack returns its elements newest first, then nothing |
| Containers.FirstInFirstOut | scripts/script.js:86-100 | a queue returns its elements oldest first, then nothing, while `peek` shows the newest |
| ShuntingYard.Outranking | scripts/script.js:186-192 | every entry an incoming operator pops is an operator that binds more tightly, or as tightly with both left-associative |
| ShuntingYard.Beneath | scripts/script.js:186-194 | the stack splits into what stays and what is popped; the top of what stays is not popped by the incoming operator, so popping never crosses a `(` |
| ShuntingYard.AboveParen | scripts/script.js:200-204 | what a `)` pops holds no `(` |
| ShuntingYard.BelowParen | scripts/script.js:200-206 | the stack is what stays, then the nearest `(`, then what is popped; exactly one `(` is discarded |
| ShuntingYard.PopWhile | scripts/script.js:186-192 | entries leave the top of the stack for the end of the output, stack and output together keep their size, every moved entry is an operator the incoming one pops, and the loop stops when the top is one it does not pop |
| ShuntingYard.PopToParen | scripts/script.js:199-206 | the stack only shrinks from the top and the output only grows at the end, exactly one entry disappears, it is a `(`, and no `(` reaches the output |
| ShuntingYard.Step | scripts/script.js:181-207 | one token changes the number of `(` on the stack by that token's bracket balance, only appends to the output, and adds at most one entry to stack and output together |
| ShuntingYard.Run | scripts/script.js:181-209 | the `(` left on the stack after the loop are the input's opened brackets minus its closed ones; the output only grows, by at most one entry per token |
| ShuntingYard.Flush | scripts/script.js:211-215 | the final loop keeps the output as a prefix and adds exactly the stack's entries, each once |
| ShuntingYard.Convert | scripts/script.js:165-217 | the reverse Polish form is never longer than the token sequence |
| ShuntingYard.PopOutranking | scripts/script.js:186-192 | the inner `while` leaves the stack the operator does not pop, and appends the popped entries to the output, top first |
| ShuntingYard.PopUntilParen | scripts/script.js:200-206 | the `)` loop appends everything above the nearest `(` to the output, top first, and discards that `(` |
| ShuntingYard.FlushStack | scripts/script.js:211-215 | the final loop empties the stack into the output, last pushed first |
| ShuntingYard.ShuntToken | scripts/script.js:181-207 | one pass of the `for` loop moves the queue and the stack on by exactly one `Step` |
| ShuntingYard.ParseExpression | scripts/script.js:165-217 | `parseExpression` returns `Convert` of the expression's tokens |
| ConversionFacts.RunAccounts | scripts/script.js:181-209 | over the loop, the stack holds only operators and `(`; numbers reach the output in order; numbers and operators are neither lost nor invented; nothing else reaches the output |
| ConversionFacts.NumbersKeepOrder | scripts/script.js:181-184 | the numbers of the output are the numbers of the input, in the same order |
| ConversionFacts.OutputTokens | scripts/script.js:181-215 | the output holds only numbers, operators and `(`; a `)` or an unrecognised word never reaches it |
| ConversionFacts.OutputCounts | scripts/script.js:181-215 | each number and operator occurs in the output as often as in the input, and `(` occurs once per bracket never closed |
| ConversionFacts.BalancedOutput | scripts/script.js:199-215 | with brackets matched, the output holds no bracket, is a rearrangement of the input's numbers and operators, and its length is their count |
| ConversionFacts.UnbalancedOutput | scripts/script.js:211-215 | an unclosed `(` is flushed into the output |
| ConversionFacts.OthersIgnored | scripts/script.js:181-208 | dropping the unrecognised words from the input does not change the output |
| InfixConversion.EmittedThenPending | scripts/script.js:211-215 | for a subtree, what reading it emits, followed by its waiting operators in pop order, is its reverse Polish form |
| InfixConversion.OutrankingExactly | scripts/script.js:186-192 | an operator that pops every entry above a stack it does not pop pops exactly those entries |
| InfixConversion.ParenExactly | scripts/script.js:199-206 | a `)` arriving on operators above a `(` pops exactly those operators and discards the `(` |
| InfixConversion.PendingPopsBefore | scripts/script.js:186-190 | the waiting operators of a left operand are all popped by the operator that follows it |
| InfixConversion.NoPopBelow | scripts/script.js:186-190 | operators of a right operand never pop the operator waiting below them |
| InfixConversion.RunInfix | scripts/script.js:181-209 | reading a well-formed subtree pushes its waiting operators and emits its part of the reverse Polish form, leaving the stack below untouched |
| InfixConversion.ConvertInfix | scripts/script.js:165-217 | the conversion turns the infix form of every well-formed tree into that tree's reverse Polish form |
| InfixConversion.ConvertUnclosed | scripts/script.js:196-215 | a `(` never closed before a well-formed expression ends up last in the output, after the expression's reverse Polish form |
| Rpn.EvalRpn | scripts/script.js:224-246 | a value only ever comes from input whose tokens are all numbers and operators |
| Rpn.SolveRpn | scripts/script.js:224-246 | `solveRpn` returns `EvalRpn` of its input from an empty stack |
| Rpn.ValueIffCompletes | scripts/script.js:227-245 | a value comes back exactly when every token is a number or an operator, no operator finds fewer than two values, and exactly one value is left at the end |
| Rpn.UndefinedIffEmpty | scripts/script.js:243-245 | `undefined` comes back exactly for empty input on an empty stack |
| Rpn.UnsupportedThrows | scripts/script.js:237-240 | a token that is neither a number nor an operator anywhere in the input makes the evaluation throw |
| Rpn.NotSupportedNamesToken | scripts/script.js:240 | a "not supported" error names a token of the input that is neither a number nor an operator |
| Rpn.OperandOrder | scripts/script.js:236-239 | the first value popped is the right operand and the second the left; the primitive's result is the answer |
| Calculator.AnswerOf | scripts/script.js:253-257 | the only token `getAnswer` can report as "not supported" is an unclosed `(`, since unrecognised words never reach the evaluator |
| Calculator.GetAnswer | scripts/script.js:253-257 | `getAnswer` trims, converts and evaluates: it returns `AnswerOf` |
| Calculator.EvalPostfix | scripts/script.js:227-242 | evaluating a tree's reverse Polish form pushes exactly the tree's value |
| Calculator.SolvesInfix | scripts/script.js:224-246 | converting and evaluating the infix form of a well-formed tree gives the tree's value |
| Calculator.TokenizeWritten | scripts/script.js:167-182 | splitting printable tokens written with single spaces gives the tokens back |
| Calculator.WrittenTrimmed | scripts/script.js:254 | printable tokens written with single spaces have nothing to trim |
| Calculator.AnswerOfWritten | scripts/script.js:253-256 | for tokens written out, the expression can be answered exactly when its brackets match, and the answer is the evaluation of the converted tokens |
| Calculator.AnswerOfRender | scripts/script.js:253-257 | every well-formed tree, written out, is answered with the tree's value |
| Calculator.UnclosedThrows | scripts/script.js:253-256 | an expression with a `(` never closed always throws |
| WorkedCases.SubtractionConversion | scripts/script.js:185-195 | `1 m 2 m 3` converts to `1 2 m 3 m` |
| WorkedCases.PowerConversion | scripts/script.js:185-195 | `2 ^ 3 ^ 2` converts to `2 3 2 ^ ^` |
| WorkedCases.SubtractionGroupsLeft | scripts/script.js:253-257 | the string `1 m 2 m 3` is answered with (1 − 2) − 3 |
| WorkedCases.PointNumerals | scripts/script.js:182 | `5.` and `.5`, which the keypad can produce, are numerals; a lone `.` is not |
| WorkedCases.TrailingPoint | scripts/script.js:253-257 | the string `5. p 3` is answered with the sum of `5.` and `3` |
| WorkedCases.PowerGroupsRight | scripts/script.js:172-178 | `2 ^ 3 ^ 2` evaluates to 2 ^ (3 ^ 2) |
| WorkedCases.ProductBeforeSum | scripts/script.js:172-178 | `1 p 2 * 3` evaluates to 1 + (2 · 3) |
| WorkedCases.BracketsFirst | scripts/script.js:196-206 | `( 1 p 2 ) * 3` evaluates to (1 + 2) · 3 |
| WorkedCases.DivisionByZero | scripts/script.js:40-42 | `1 / 0` raises no error; its value is whatever the divide primitive gives |
| WorkedCases.MissingOperand | scripts/script.js:235 | `1 p` converts to itself and evaluating it throws a syntax error |
| WorkedCases.EmptyExpression | scripts/script.js:243-245 | the empty expression is answered with `undefined` |
| WorkedCases.UnclosedBracket | scripts/script.js:211-215 | `( 1 p 2` converts to `1 2 p (` |
| WorkedCases.UnclosedBracketThrows | scripts/script.js:235 | evaluating `1 2 p (` throws a syntax error, because one value is below the `(` |
| WorkedCases.StrayClose | scripts/script.js:200-204 | `1 p 2 )` has a `)` with nothing to close, so it is outside what the calculator can answer |
| WorkedCases.SizeCheckedFirst | scripts/script.js:235-240 | a stray token with one value below it is a syntax error; with two below it, it is "not supported" |

## Left out

- The DOM and UI code from line 259 on, including the `replaceAll` chain in `solve` and `sciNotation`. They are display state and string formatting, not the engine.
- Floating-point arithmetic. IEEE-754 behaviour of the primitives is not modelled: rounding, `Infinity` and `NaN` from division by zero, and `**` on reals. The numeric type and the five primitives are parameters. Every result holds for any choice of them, and none depends on their values.
- JavaScript's `isNaN`/`parseFloat`/`Number` coercions. A number is a word made of digits with at most one point among them and at least one digit, optionally after a `-`: `5`, `5.25`, `5.`, `.25`, `-.5`. `Number` is the parameter `literal`. Words JavaScript would also accept, such as `+5`, `1e5`, `0x10`, `Infinity` or ` 1`, are classified as `Other` here, so an expression using them is answered differently.
- Tokens.Classify: the empty word is never a number. `parseExpression` also drops it. `solveRpn` would read `""` as 0, but its input never holds `""`, because the conversion never outputs an unrecognised word (`ConversionFacts.OutputTokens`).
- A `)` with no `(` to close. The source's `)` loop never terminates on it. `ParseExpression`, `AnswerOf` and `GetAnswer` therefore require matched closing brackets (`Matched`, `Closable`). No error is invented for this case.
- `console.assert` and `console.log` in `parseExpression` and `operate`. They only print diagnostics and change nothing.
- Calculator.AnswerOfRender: correctness is proved for every expression written out from a well-formed tree. There is no separate infix grammar saying which strings are expressions. Other inputs are covered by the general facts instead: token order and counts, errors, and unclosed brackets.
- Rpn.SolveRpn: when a token is "not supported", the source has already popped two values before throwing. The model returns the error without showing that stack, since the stack is discarded with the exception.
- ShuntingYard.ParseExpression: the source's inner `while` loops are methods of their own (`PopOutranking`, `PopUntilParen`, `FlushStack`, `ShuntToken`), each proved against the corresponding specification function.
