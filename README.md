# Logic equivalence checker — a Dafny model of its engine

The Android app compares two propositional formulas over the variables `p`
and `q`. The formulas use the constants `t`/`f`, the operators `~`, `&`,
`V`, `->` and `<->`, and parentheses. The app first runs a one-pass syntax
check on each formula. It then evaluates both formulas on the four rows of
the truth table with a two-stack operator-precedence evaluator. It stops at
the first row where the values differ and reports "equivalent" or "not
equivalent" together with the rows computed so far.

This project models that engine in `MainActivity.java`, as the code is
written:

- `stacks.dfy` models `java.util.Stack` as a class over a sequence. A pop
  from an empty stack returns `None`.
- `symbols.dfy` holds the valid characters and the character classes.
- `validator.dfy` models `isValidExpression`. The method `IsValidExpression`
  keeps the source's loop, counter and stack, with the loop body in
  `ScanCharacter`. It is proved equal to the
  specification function `Accepts`. `Accepts` is then characterised
  declaratively (`WellFormed`), and its rejections and its gaps are stated
  as lemmas.
- `evaluator.dfy` models `evaluate`, `precedence` and `applyOperator`.
  - `Evaluate` keeps the two stacks and the loops.
  - Each branch of the main loop is its own method: `ReadSingle`,
    `CloseGroup` and `ReadOperator`, which uses `Lookahead`.
  - Each loop is its own method: `ReduceUntilOpen`, `ReduceBefore` and
    `ApplyRemaining`.
  - Each method is proved against a specification function: `Run`,
    `ReduceToParen`, `ReduceFor`, `Drain` or `Apply`.
  - Wherever the source throws `EmptyStackException`, the model yields
    `None`.
- `formulas.dfy` is a reference semantics: formula trees, their truth value
  `Denote`, and a printer `Print` that puts parentheses around every
  compound formula. Against it, the lemmas prove two things:
  - the validator accepts every printed formula;
  - the evaluator computes `Denote` for every printed formula without `<->`.
- `grouping.dfy` states what the evaluator does with unparenthesised input.
  It covers precedence and left grouping, the binding of `~`, and the
  strings that the validator accepts but on which `evaluate` throws.
- `checker.dfy` models `evaluateExpressions`. The HTML page becomes a
  `Report` datatype that holds the same rows. The lemmas characterise each
  verdict.
- `input.dfy` models the whitespace removal that the button handler
  applies before the comparison.

Behaviour of the code that these lemmas record:

- The lookahead joins `-` with `>` and `<` with `-`, so `<->` is read as the
  two tokens `<-` and `>`. Every token of precedence -1 (`<-`, `>`, a lone
  `-` or `<`) applies any precedence -1 token below it, `(` included, as
  an unknown binary operator: it pops two operands and pushes nothing
  (`Grouping.OpenBarrierBroken`). In `a<->b`, `>` applies `<-` while only
  `a` is stacked, and the second pop throws; `b` is never read. In
  `(a<->b)`, `<-` meets `(` with only `a` stacked and applies it. Both make
  `evaluate` throw on every row (`Grouping.IffUnderflows`). Parentheses do
  not protect what lies outside them: `a&(b<->c)` is accepted, `<-`
  applies `(` and drops `a` and `b`, and `&` then finds no operand
  (`Grouping.IffInGroupUnderflows`). With more operands stacked the loss
  does not always underflow: `a~b~c~d<->e` is accepted and evaluates to
  the value of `a` (`Grouping.StackedIffReturnsFirst`; `p~p~p~q<->q`
  evaluates to `p`).
- No operator stack ever holds the three-character token `"<->"`: every
  token the scan pushes has at most two characters, and the loops only pop
  (`Grouping.IffTokenNeverStacked`). So the `"<->"` cases of `precedence`
  and `applyOperator` are never reached.
- The app's description advertises a biconditional, but its text holds
  `â†”`, the UTF-8 bytes of `↔` decoded as another charset. Neither that
  text nor `↔` is in `validCharacters`, so the validator rejects both. The
  model follows the code.
- The validator never checks what precedes an operator character. It
  therefore accepts `&p`, `p&&q`, `p-q` and `p~q`. On the first three the
  evaluator underflows. On `p~q` it returns the value of `~q`, because the
  final pop ignores the operand left below.

## Model

| member | source | states |
|---|---|---|
| Stacks.Stack.Push | app/src/main/java/com/example/logicequivalencechecker/MainActivity.java:156 | pushing appends the element on top and changes nothing else |
| Stacks.Stack.Pop | app/src/main/java/com/example/logicequivalencechecker/MainActivity.java:185 | popping a non-empty stack returns its top and removes exactly it; popping an empty one (where Java throws) returns `None` |
| Validator.IsValidExpression | app/src/main/java/com/example/logicequivalencechecker/MainActivity.java:78-119 | the loop with its counter, flag and parenthesis stack returns exactly `Accepts(expression)`, the character-by-character scan with its early returns and final test |
| Validator.ScanCharacter | app/src/main/java/com/example/logicequivalencechecker/MainActivity.java:85-111 | one iteration: fails exactly where `Step` fails (the source returns false) and otherwise sets the flag and counter as `Step` does, the stack holding as many `(` as the counter says |
| Validator.AcceptsIffWellFormed | app/src/main/java/com/example/logicequivalencechecker/MainActivity.java:84-118 | a string is accepted iff every character is valid, every operand or `(` comes where an operand is expected, every `)` closes an open group after an operand, parentheses balance, and the string ends after an operand |
| Validator.RejectsForeignCharacter | app/src/main/java/com/example/logicequivalencechecker/MainActivity.java:79-89 | any character outside `pqtfPQTF&V~-><->()`, whitespace included, makes the string invalid |
| Validator.RejectsIncomplete | app/src/main/java/com/example/logicequivalencechecker/MainActivity.java:114-116 | the empty string, a trailing operator or `(`, and unbalanced parentheses are rejected |
| Validator.AcceptedDepths | app/src/main/java/com/example/logicequivalencechecker/MainActivity.java:97-102 | in an accepted string parentheses balance and no prefix closes more groups than it opens |
| Validator.RejectsMissingOperator | app/src/main/java/com/example/logicequivalencechecker/MainActivity.java:91-107 | an operand or `)` directly followed by an operand or `(` is rejected |
| Validator.RejectsMissingOperand | app/src/main/java/com/example/logicequivalencechecker/MainActivity.java:97-100 | a `)` at the start, after `(` or after an operator is rejected |
| Validator.ScanAppend | app/src/main/java/com/example/logicequivalencechecker/MainActivity.java:84-116 | scanning a concatenation is scanning the prefix, then the rest from the state the prefix leaves |
| Validator.OperatorRunAccepted | app/src/main/java/com/example/logicequivalencechecker/MainActivity.java:108-111 | doubling an operator character never changes the verdict (`p&&q` passes iff `p&q` does) |
| Validator.LeadingOperatorAccepted | app/src/main/java/com/example/logicequivalencechecker/MainActivity.java:82 | an operator character in front of a string never changes the verdict (`&p` passes) |
| Evaluator.Precedence | app/src/main/java/com/example/logicequivalencechecker/MainActivity.java:167-182 | the result lies between -1 and 4; the value of each token is stated by `Formulas.PrecedenceOfSymbol` |
| Evaluator.ApplyOperator | app/src/main/java/com/example/logicequivalencechecker/MainActivity.java:184-211 | succeeds exactly when `Apply` does and then leaves both stacks as `Apply` computes: `~` negates the top operand; any other token pops right then left operand and pushes the result for `&`, `V`, `->`, `<->`, nothing otherwise |
| Evaluator.ReduceUntilOpen | app/src/main/java/com/example/logicequivalencechecker/MainActivity.java:140-142 | applies operators until a `(` or the bottom is reached, exactly as `ReduceToParen`, failing exactly when it does |
| Evaluator.ReduceBefore | app/src/main/java/com/example/logicequivalencechecker/MainActivity.java:153-155 | applies operators while the new token's precedence is at most the top's, exactly as `ReduceFor` |
| Evaluator.ApplyRemaining | app/src/main/java/com/example/logicequivalencechecker/MainActivity.java:160-162 | applies every remaining operator, exactly as `Drain` |
| Evaluator.Lookahead | app/src/main/java/com/example/logicequivalencechecker/MainActivity.java:145-152 | the token is `->` or `<-` when those two characters start the rest, otherwise the single character, and `last` is the index of its final character |
| Evaluator.ReadSingle | app/src/main/java/com/example/logicequivalencechecker/MainActivity.java:127-138 | an operand character leaves the operators as they were and pushes exactly its value (`p`, `q`, true for `t`/`T`, false otherwise); `~` or `(` is pushed as a token and the operands stay as they were; the rest of the run continues from the new stacks |
| Evaluator.CloseGroup | app/src/main/java/com/example/logicequivalencechecker/MainActivity.java:139-143 | the `)` step succeeds iff reducing to the `(` succeeds and leaves an operator on top; the new operator stack is the reduced one without its top, the new operand stack the reduced one; the rest of the run continues from the new stacks |
| Evaluator.ReadOperator | app/src/main/java/com/example/logicequivalencechecker/MainActivity.java:144-157 | the operator step: `last` ends the lexed token; it succeeds iff reducing for the token succeeds, and the new stacks are the reduced ones with the token pushed; the rest of the run continues after the token |
| Evaluator.Conclude | app/src/main/java/com/example/logicequivalencechecker/MainActivity.java:160-164 | drains the operator stack, then returns the top operand, `None` where a pop would throw |
| Evaluator.Evaluate | app/src/main/java/com/example/logicequivalencechecker/MainActivity.java:121-165 | the two-stack loop returns exactly `Eval(expr, p, q)`, the value `evaluate` returns, or `None` where it throws |
| Formulas.PrintedAccepted | app/src/main/java/com/example/logicequivalencechecker/MainActivity.java:78-119 | every fully parenthesised formula passes the syntax check |
| Formulas.PrecedenceOfSymbol | app/src/main/java/com/example/logicequivalencechecker/MainActivity.java:167-182 | `~` 4, `&` 3, `V` 2, `->` 1, `<->` 0; every other token, `(`, `<-` and `>` among them, gets -1 |
| Formulas.ApplyBinary | app/src/main/java/com/example/logicequivalencechecker/MainActivity.java:190-206 | a binary operator replaces the two top operands by their conjunction, disjunction, implication or equivalence, in left-right order |
| Formulas.ApplyNegation | app/src/main/java/com/example/logicequivalencechecker/MainActivity.java:187-189 | `~` replaces the top operand by its negation |
| Formulas.ApplyUnknown | app/src/main/java/com/example/logicequivalencechecker/MainActivity.java:191-208 | any other token pops two operands and pushes nothing |
| Formulas.RunPrinted | app/src/main/java/com/example/logicequivalencechecker/MainActivity.java:125-158 | reading a fully parenthesised formula without `<->` pushes exactly its truth value and leaves the operator stack unchanged |
| Formulas.EvalPrinted | app/src/main/java/com/example/logicequivalencechecker/MainActivity.java:121-165 | `evaluate` returns the truth value of every fully parenthesised formula without `<->` |
| Grouping.EvalBinary | app/src/main/java/com/example/logicequivalencechecker/MainActivity.java:144-164 | `a op b` (operators other than `<->`, operands without `<->`) is accepted and evaluates to `op` of the two values |
| Grouping.PrecedenceAndAssociativity | app/src/main/java/com/example/logicequivalencechecker/MainActivity.java:153-156 | `a o1 b o2 c` (operators other than `<->`, operands without `<->`) groups left when `o1` binds at least as tightly as `o2` (so equal operators associate to the left), and right otherwise |
| Grouping.NegationBindsTightest | app/src/main/java/com/example/logicequivalencechecker/MainActivity.java:135-136 | `~a op b` (operators other than `<->`, operands without `<->`) is accepted and is `(~a) op b` |
| Grouping.NegationAfterOperator | app/src/main/java/com/example/logicequivalencechecker/MainActivity.java:135-136 | `a op ~b` (operators other than `<->`, operands without `<->`) is accepted and is `a op (~b)` |
| Grouping.IffUnderflows | app/src/main/java/com/example/logicequivalencechecker/MainActivity.java:146-151 | `a<->b` and `(a<->b)` pass the syntax check, yet `evaluate` throws on every row |
| Grouping.OpenBarrierBroken | app/src/main/java/com/example/logicequivalencechecker/MainActivity.java:153-155 | a token of precedence -1 arriving over `(` with two operands above it applies the `(`, dropping both operands, and carries on reducing below it |
| Grouping.IffInGroupUnderflows | app/src/main/java/com/example/logicequivalencechecker/MainActivity.java:146-164 | `a o (b<->c)` (`o` other than `<->`, operands without `<->`) is accepted, yet `evaluate` throws |
| Grouping.ApplyKeepsShort | app/src/main/java/com/example/logicequivalencechecker/MainActivity.java:184-211 | applying an operator keeps every stacked token at most two characters long, and the token it applies is not `"<->"` |
| Grouping.ReduceToParenKeepsShort | app/src/main/java/com/example/logicequivalencechecker/MainActivity.java:140-142 | the loop at `)` keeps every stacked token at most two characters long |
| Grouping.ReduceForKeepsShort | app/src/main/java/com/example/logicequivalencechecker/MainActivity.java:153-155 | the loop before pushing an operator keeps every stacked token at most two characters long |
| Grouping.DrainKeepsShort | app/src/main/java/com/example/logicequivalencechecker/MainActivity.java:160-162 | the final loop keeps every stacked token at most two characters long |
| Grouping.RunKeepsShort | app/src/main/java/com/example/logicequivalencechecker/MainActivity.java:125-158 | the scan keeps every stacked token at most two characters long |
| Grouping.IffTokenNeverStacked | app/src/main/java/com/example/logicequivalencechecker/MainActivity.java:125-158 | from empty stacks, the scan never leaves `"<->"` on the operator stack, so the `"<->"` cases of `precedence` and `applyOperator` are unreachable |
| Grouping.StackedIffReturnsFirst | app/src/main/java/com/example/logicequivalencechecker/MainActivity.java:146-164 | `a~b~c~d<->e` is accepted and evaluates to the value of `a`: the three `~` all apply to `d`; `<-`, applied when `>` arrives, drops `c` and `~d`; `>`, applied by the final loop, drops `b` and `e` |
| Grouping.StackedIffExample | app/src/main/java/com/example/logicequivalencechecker/MainActivity.java:146-164 | `p~p~p~q<->q` is accepted and evaluates to `p` on every row |
| Grouping.LeadingOperatorUnderflows | app/src/main/java/com/example/logicequivalencechecker/MainActivity.java:160-164 | `&a` (any binary operator other than `<->` first) is accepted, yet `evaluate` throws |
| Grouping.DoubledOperatorUnderflows | app/src/main/java/com/example/logicequivalencechecker/MainActivity.java:153-164 | `a o1 o2 b` (two binary operators other than `<->`) is accepted, yet `evaluate` throws |
| Grouping.StrayCharacterUnderflows | app/src/main/java/com/example/logicequivalencechecker/MainActivity.java:144-164 | a lone `-`, `<` or `>` between two formulas is accepted, read as a token that drops both operands, and `evaluate` throws |
| Grouping.LeftoverOperandIgnored | app/src/main/java/com/example/logicequivalencechecker/MainActivity.java:164 | `a~b` is accepted and evaluates to `~b` |
| Checker.EvaluateExpressions | app/src/main/java/com/example/logicequivalencechecker/MainActivity.java:55-76 | validation, the row loop with its early exit, and the final verdict return exactly `Check(expr1, expr2)` |
| Checker.ColumnRow | app/src/main/java/com/example/logicequivalencechecker/MainActivity.java:60-66 | row `j` of the table is evaluated with `p[j]`, `q[j]` of the source's arrays |
| Checker.TabulatesAppend | app/src/main/java/com/example/logicequivalencechecker/MainActivity.java:68 | appending the next row keeps the table in step with the evaluated values |
| Checker.CheckRowsNotInvalid | app/src/main/java/com/example/logicequivalencechecker/MainActivity.java:64-75 | the row loop never reports invalid input |
| Checker.CheckRowsEquivalent | app/src/main/java/com/example/logicequivalencechecker/MainActivity.java:64-75 | when the loop finishes, the table has all four rows, all agreeing |
| Checker.CheckRowsNotEquivalent | app/src/main/java/com/example/logicequivalencechecker/MainActivity.java:64-72 | when the loop exits early, the table ends with the first differing row |
| Checker.CheckRowsOutcome | app/src/main/java/com/example/logicequivalencechecker/MainActivity.java:64-75 | the loop finishes iff every row agrees, and throws iff a row without an earlier disagreement throws |
| Checker.ReportRows | app/src/main/java/com/example/logicequivalencechecker/MainActivity.java:60-75 | an equivalent report holds the four rows as `evaluate` computes them, all agreeing; a non-equivalent one holds the rows up to and including the first that differs |
| Checker.InvalidIffRejected | app/src/main/java/com/example/logicequivalencechecker/MainActivity.java:56-58 | the report is "Invalid expression(s)" iff either formula fails the syntax check |
| Checker.AllRows | app/src/main/java/com/example/logicequivalencechecker/MainActivity.java:60-61 | agreeing on the four rows is agreeing on every assignment of `p` and `q` |
| Checker.EquivalentIff | app/src/main/java/com/example/logicequivalencechecker/MainActivity.java:55-76 | "equivalent" iff both formulas pass and evaluate, without throwing, to the same value for every `p` and `q` |
| Checker.UnderflowIff | app/src/main/java/com/example/logicequivalencechecker/MainActivity.java:64-66 | an exception escapes iff both formulas pass and, on the first row where they do not agree, one of them throws |
| Checker.EquivalentSymmetric | app/src/main/java/com/example/logicequivalencechecker/MainActivity.java:55-76 | swapping the two formulas keeps an "equivalent" verdict |
| Checker.PrintedColumn | app/src/main/java/com/example/logicequivalencechecker/MainActivity.java:60-66 | a fully parenthesised formula without `<->` evaluates on the four rows to its truth values |
| Checker.TotalColumns | app/src/main/java/com/example/logicequivalencechecker/MainActivity.java:64-75 | when every row evaluates, the verdict is equivalent or not equivalent, and equivalent iff the two columns are equal |
| Checker.DenotedColumns | app/src/main/java/com/example/logicequivalencechecker/MainActivity.java:60-61 | two formulas' columns of values are equal iff the formulas are logically equivalent |
| Checker.ComparedAsFormulas | app/src/main/java/com/example/logicequivalencechecker/MainActivity.java:55-76 | two accepted strings whose values are those of two formulas get the formulas' verdict |
| Checker.PrintedFormulasCompared | app/src/main/java/com/example/logicequivalencechecker/MainActivity.java:55-76 | for fully parenthesised formulas without `<->` the verdict is never invalid or an exception, and is "equivalent" iff the formulas are logically equivalent |
| Input.StripWhitespace | app/src/main/java/com/example/logicequivalencechecker/MainActivity.java:45-46 | the stripped input is never longer than the input |
| Input.StripSingle | app/src/main/java/com/example/logicequivalencechecker/MainActivity.java:45-46 | a single character is removed iff it is whitespace |
| Input.StripAppend | app/src/main/java/com/example/logicequivalencechecker/MainActivity.java:45-46 | whitespace removal distributes over concatenation |
| Input.StripRemovesWhitespace | app/src/main/java/com/example/logicequivalencechecker/MainActivity.java:45-46 | the stripped input holds no whitespace |
| Input.StripKeepsClean | app/src/main/java/com/example/logicequivalencechecker/MainActivity.java:45-46 | an input without whitespace is unchanged |
| Input.StripIdempotent | app/src/main/java/com/example/logicequivalencechecker/MainActivity.java:45-46 | removing whitespace twice is removing it once |
| Input.WhitespaceIgnored | app/src/main/java/com/example/logicequivalencechecker/MainActivity.java:45-47 | inserting a whitespace character anywhere in an input changes neither the stripped text nor the report |

## Left out

- The Android activity: `onCreate`, the views, colours, the description text and the `WebView`. Reading the inputs and showing the result are I/O.
- The HTML strings: `evaluateExpressions` returns a `Report` that holds the verdict and the rows the page would show. `Underflow` stands for the `EmptyStackException` that escapes `evaluate` and the click handler, where the app has no handler for it.
- `java.util.Stack` is modelled only through the operations the engine uses: `push`, `pop`, `peek` and `isEmpty`. `Stacks.Stack.Peek` requires a non-empty stack because every call in the source is guarded by `isEmpty()`.
- `Evaluator.Apply` and `Evaluator.Run` compare operator tokens as character sequences, where Java uses `String.equals` and `switch` on strings. They mean the same.
- Evaluator.Precedence: its own contract states only the range -1 to 4. The value for each token is stated by the lemma `Formulas.PrecedenceOfSymbol`, which keeps the literal token comparisons out of every step of the evaluator's proofs.
- `Checker.CheckRows` reads each row's values from the column of `evaluate` results, while the source calls `evaluate` inside the loop. `evaluate` has no side effects, so the two yield the same report.
- The reference semantics `Formulas.Denote` is an independent definition. The evaluator's agreement with it is proved for fully parenthesised formulas without `<->`. With `<->` the evaluator does not compute `Denote`: `Grouping.IffUnderflows`, `Grouping.IffInGroupUnderflows` and `Grouping.StackedIffReturnsFirst` show what it does instead.
- Characters: the model reads a string as a sequence of Unicode scalar values, where Java's `charAt` reads UTF-16 code units. The two differ only on characters outside the Basic Multilingual Plane, which both validators reject, so `evaluateExpressions` never passes such text to `evaluate`; `Evaluator.Eval` on such text alone may differ from `evaluate`.
