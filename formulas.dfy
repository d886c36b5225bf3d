/**
  A reference semantics for the expressions the engine reads: formulas as
  trees, their truth value, and a printer that writes every compound
  formula inside its own parentheses. The lemmas compare the validator and
  the evaluator against it: the validator accepts every printed formula;
  the evaluator computes the right value for every printed formula without
  `<->`, groups operators by precedence and to the left, and underflows on
  `<->` and on several strings the validator accepts.
 */
module Formulas {
  import opened Wrappers
  import opened Symbols
  import opened Validator
  import opened Evaluator

  datatype Atom = PVar | QVar | Truth | Falsity

  datatype BinOp = AndOp | OrOp | ImpliesOp | IffOp

  datatype Formula =
    | Lit(atom: Atom, upper: bool)
    | Not(arg: Formula)
    | Bin(op: BinOp, left: Formula, right: Formula)

  function Combine(o: BinOp, a: bool, b: bool): bool {
    match o
    case AndOp => a && b
    case OrOp => a || b
    case ImpliesOp => !a || b
    case IffOp => a == b
  }

  function Denote(f: Formula, p: bool, q: bool): bool {
    match f
    case Lit(PVar, _) => p
    case Lit(QVar, _) => q
    case Lit(Truth, _) => true
    case Lit(Falsity, _) => false
    case Not(g) => !Denote(g, p, q)
    case Bin(o, l, r) => Combine(o, Denote(l, p, q), Denote(r, p, q))
  }

  /** Two formulas with the same value under every assignment. */
  predicate LogicallyEquivalent(f: Formula, g: Formula) {
    forall p, q :: Denote(f, p, q) == Denote(g, p, q)
  }

  /** Binding strength: `&` binds tighter than `V`, `V` than `->`, `->`
      than `<->`. */
  function Rank(o: BinOp): int {
    match o
    case AndOp => 3
    case OrOp => 2
    case ImpliesOp => 1
    case IffOp => 0
  }

  function Symbol(o: BinOp): seq<char> {
    match o
    case AndOp => "&"
    case OrOp => "V"
    case ImpliesOp => "->"
    case IffOp => "<->"
  }

  function AtomChar(a: Atom, upper: bool): char {
    match a
    case PVar => if upper then 'P' else 'p'
    case QVar => if upper then 'Q' else 'q'
    case Truth => if upper then 'T' else 't'
    case Falsity => if upper then 'F' else 'f'
  }

  /** Fully parenthesised text: a literal, `(~g)` or `(l op r)`. */
  function Print(f: Formula): (s: seq<char>)
    ensures |s| > 0 && (IsAtomChar(s[0]) || s[0] == '(')
  {
    match f
    case Lit(a, upper) => [AtomChar(a, upper)]
    case Not(g) => "(~" + Print(g) + ")"
    case Bin(o, l, r) => "(" + Print(l) + Symbol(o) + Print(r) + ")"
  }

  lemma PrintNotSplit(g: Formula, rest: seq<char>)
    ensures Print(Not(g)) + rest == "(" + ("~" + (Print(g) + (")" + rest)))
  {
  }

  lemma PrintBinSplit(o: BinOp, l: Formula, r: Formula, rest: seq<char>)
    ensures Print(Bin(o, l, r)) + rest == "(" + (Print(l) + (Symbol(o) + (Print(r) + (")" + rest))))
  {
  }

  predicate NoIff(f: Formula) {
    match f
    case Lit(_, _) => true
    case Not(g) => NoIff(g)
    case Bin(o, l, r) => o != IffOp && NoIff(l) && NoIff(r)
  }

  // ---------------------------------------------------------------------
  // The validator accepts every printed formula.
  // ---------------------------------------------------------------------

  lemma {:induction false} ScanOperatorChars(t: seq<char>, rest: seq<char>, st: ScanState)
    requires |t| > 0 && forall i :: 0 <= i < |t| ==> IsOperatorChar(t[i])
    ensures Scan(t + rest, st) == Scan(rest, ScanState(true, st.open))
    decreases |t|
  {
    assert (t + rest)[0] == t[0] && (t + rest)[1..] == t[1..] + rest;
    if |t| > 1 {
      ScanOperatorChars(t[1..], rest, ScanState(true, st.open));
    }
  }

  lemma SymbolIsOperatorChars(o: BinOp)
    ensures |Symbol(o)| > 0 && forall i :: 0 <= i < |Symbol(o)| ==> IsOperatorChar(Symbol(o)[i])
  {
    match o
    case AndOp =>
    case OrOp =>
    case ImpliesOp =>
    case IffOp =>
  }

  lemma ScanClose(rest: seq<char>, open: int)
    requires open > 0
    ensures Scan(")" + rest, ScanState(false, open)) == Scan(rest, ScanState(false, open - 1))
  {
    assert (")" + rest)[0] == ')' && (")" + rest)[1..] == rest;
  }

  lemma ScanTilde(rest: seq<char>, open: int)
    ensures Scan("~" + rest, ScanState(true, open)) == Scan(rest, ScanState(true, open))
  {
    assert ("~" + rest)[0] == '~' && ("~" + rest)[1..] == rest;
    assert IsOperatorChar('~');
  }

  lemma ScanOpen(rest: seq<char>, open: int)
    ensures Scan("(" + rest, ScanState(true, open)) == Scan(rest, ScanState(true, open + 1))
  {
    assert ("(" + rest)[0] == '(' && ("(" + rest)[1..] == rest;
  }

  lemma {:induction false} ScanPrinted(f: Formula, rest: seq<char>, open: int)
    requires open >= 0
    ensures Scan(Print(f) + rest, ScanState(true, open)) == Scan(rest, ScanState(false, open))
    decreases f, 1
  {
    match f
    case Lit(a, upper) =>
      assert (Print(f) + rest)[0] == AtomChar(a, upper) && (Print(f) + rest)[1..] == rest;
    case Not(g) =>
      ScanPrintedNot(g, rest, open);
    case Bin(o, l, r) =>
      ScanPrintedBin(o, l, r, rest, open);
  }

  lemma {:induction false} ScanPrintedNot(g: Formula, rest: seq<char>, open: int)
    requires open >= 0
    ensures Scan(Print(Not(g)) + rest, ScanState(true, open)) == Scan(rest, ScanState(false, open))
    decreases Not(g), 0
  {
    var afterTilde := Print(g) + (")" + rest);
    PrintNotSplit(g, rest);
    ScanOpen("~" + afterTilde, open);
    ScanTilde(afterTilde, open + 1);
    ScanPrinted(g, ")" + rest, open + 1);
    ScanClose(rest, open + 1);
  }

  lemma {:induction false} ScanPrintedBin(o: BinOp, l: Formula, r: Formula, rest: seq<char>, open: int)
    requires open >= 0
    ensures Scan(Print(Bin(o, l, r)) + rest, ScanState(true, open)) == Scan(rest, ScanState(false, open))
    decreases Bin(o, l, r), 0
  {
    var afterOp := Print(r) + (")" + rest);
    var afterL := Symbol(o) + afterOp;
    PrintBinSplit(o, l, r, rest);
    ScanOpen(Print(l) + afterL, open);
    ScanPrinted(l, afterL, open + 1);
    SymbolIsOperatorChars(o);
    ScanOperatorChars(Symbol(o), afterOp, ScanState(false, open + 1));
    ScanPrinted(r, ")" + rest, open + 1);
    ScanClose(rest, open + 1);
  }

  /** `isValidExpression` accepts the text of every formula, `<->`
      included. */
  lemma PrintedAccepted(f: Formula)
    ensures Accepts(Print(f))
  {
    ScanPrinted(f, [], 0);
    assert Print(f) + [] == Print(f);
  }

  // ---------------------------------------------------------------------
  // The operator table.
  // ---------------------------------------------------------------------

  /** The `precedence` switch gives `~` 4, ranks the four binary operator
      symbols as `Rank` does, and gives -1 to every other token: `(`, the
      tokens `<-` and `>`, and anything else. */
  lemma PrecedenceOfSymbol(o: BinOp)
    ensures Precedence("~") == 4
    ensures Precedence(Symbol(o)) == Rank(o)
    ensures Precedence("(") == Precedence("<-") == Precedence(">") == -1
    ensures forall t: Token :: t != "~" && t != "&" && t != "V" && t != "->" && t != "<->" ==> Precedence(t) == -1
  {
  }

  /** `applyOperator` on a binary operator pops the right operand, then the
      left one, and pushes their combination. The `<->` case of the source
      computes `(!a || b) && (!b || a)`, which is `a == b`. */
  lemma ApplyBinary(o: BinOp, ops: seq<Token>, vals: seq<bool>, a: bool, b: bool)
    ensures Apply(State(ops + [Symbol(o)], vals + [a, b])) == Some(State(ops, vals + [Combine(o, a, b)]))
  {
    assert (vals + [a, b])[..|vals|] == vals;
    assert (ops + [Symbol(o)])[..|ops|] == ops;
  }

  /** `applyOperator` on `~` negates the top operand. */
  lemma ApplyNegation(ops: seq<Token>, vals: seq<bool>, a: bool)
    ensures Apply(State(ops + ["~"], vals + [a])) == Some(State(ops, vals + [!a]))
  {
    assert (vals + [a])[..|vals|] == vals;
    assert (ops + ["~"])[..|ops|] == ops;
  }

  /** `applyOperator` on a token no case matches pops two operands and
      pushes nothing. */
  lemma ApplyUnknown(t: Token, ops: seq<Token>, vals: seq<bool>, a: bool, b: bool)
    requires Precedence(t) < 0
    ensures Apply(State(ops + [t], vals + [a, b])) == Some(State(ops, vals))
  {
    assert (vals + [a, b])[..|vals|] == vals;
    assert (ops + [t])[..|ops|] == ops;
  }

  // ---------------------------------------------------------------------
  // The evaluator on printed formulas.
  // ---------------------------------------------------------------------

  /** Reading one operator token `t` (as the lexer splits it off) applies
      the operators it outranks or equals, then pushes `t`. */
  lemma RunOperatorToken(t: Token, rest: seq<char>, st: State, p: bool, q: bool)
    requires |t| > 0 && t[0] in "&V-<>"
    requires Lexeme(t + rest) == (t, |t|)
    ensures Run(t + rest, st, p, q) ==
            match ReduceFor(t, st)
            case None => None
            case Some(st') => Run(rest, PushOperator(st', t), p, q)
  {
    assert (t + rest)[0] == t[0];
    assert (t + rest)[|t|..] == rest;
  }

  lemma SymbolLexeme(o: BinOp, rest: seq<char>)
    requires o != IffOp
    ensures Lexeme(Symbol(o) + rest) == (Symbol(o), |Symbol(o)|)
  {
    assert (Symbol(o) + rest)[0] == Symbol(o)[0];
    assert |Symbol(o)| == 2 ==> (Symbol(o) + rest)[1] == Symbol(o)[1];
    assert (Symbol(o) + rest)[..|Symbol(o)|] == Symbol(o);
  }

  /** Reading the symbol of a binary operator other than `<->`. */
  lemma RunSymbol(o: BinOp, rest: seq<char>, st: State, p: bool, q: bool)
    requires o != IffOp
    ensures Run(Symbol(o) + rest, st, p, q) ==
            match ReduceFor(Symbol(o), st)
            case None => None
            case Some(st') => Run(rest, PushOperator(st', Symbol(o)), p, q)
  {
    SymbolLexeme(o, rest);
    RunOperatorToken(Symbol(o), rest, st, p, q);
  }

  lemma RunOpen(rest: seq<char>, st: State, p: bool, q: bool)
    ensures Run("(" + rest, st, p, q) == Run(rest, PushOperator(st, "("), p, q)
  {
    assert ("(" + rest)[0] == '(' && ("(" + rest)[1..] == rest;
  }

  lemma RunTilde(rest: seq<char>, st: State, p: bool, q: bool)
    ensures Run("~" + rest, st, p, q) == Run(rest, PushOperator(st, "~"), p, q)
  {
    assert ("~" + rest)[0] == '~' && ("~" + rest)[1..] == rest;
  }

  /** The `)` of `(~g)`. */
  lemma RunCloseNot(rest: seq<char>, st: State, v: bool, p: bool, q: bool)
    ensures Run(")" + rest, PushOperand(PushOperator(PushOperator(st, "("), "~"), v), p, q)
         == Run(rest, PushOperand(st, !v), p, q)
  {
    var inner := State(st.operators + ["("], st.operands);
    ApplyNegation(inner.operators, st.operands, v);
    var full := PushOperand(PushOperator(PushOperator(st, "("), "~"), v);
    assert full == State(inner.operators + ["~"], st.operands + [v]);
    assert ReduceToParen(full) == Some(PushOperand(inner, !v));
    assert (")" + rest)[0] == ')' && (")" + rest)[1..] == rest;
    assert (st.operators + ["("])[..|st.operators|] == st.operators;
  }

  /** The `)` of `(l op r)`. */
  lemma RunCloseBin(o: BinOp, rest: seq<char>, st: State, l: bool, r: bool, p: bool, q: bool)
    ensures Run(")" + rest, PushOperand(PushOperator(PushOperand(PushOperator(st, "("), l), Symbol(o)), r), p, q)
         == Run(rest, PushOperand(st, Combine(o, l, r)), p, q)
  {
    var inner := State(st.operators + ["("], st.operands);
    ApplyBinary(o, inner.operators, st.operands, l, r);
    var full := PushOperand(PushOperator(PushOperand(PushOperator(st, "("), l), Symbol(o)), r);
    assert full == State(inner.operators + [Symbol(o)], st.operands + [l, r]);
    assert ReduceToParen(full) == Some(PushOperand(inner, Combine(o, l, r)));
    assert (")" + rest)[0] == ')' && (")" + rest)[1..] == rest;
    assert (st.operators + ["("])[..|st.operators|] == st.operators;
  }

  /** Reading the text of a formula without `<->` pushes its value and
      leaves the operator stack as it was, whatever lies below. */
  lemma {:induction false} RunPrinted(f: Formula, rest: seq<char>, st: State, p: bool, q: bool)
    requires NoIff(f)
    ensures Run(Print(f) + rest, st, p, q) == Run(rest, PushOperand(st, Denote(f, p, q)), p, q)
    decreases f, 1
  {
    match f
    case Lit(a, upper) =>
      assert (Print(f) + rest)[0] == AtomChar(a, upper) && (Print(f) + rest)[1..] == rest;
    case Not(g) => RunPrintedNot(g, rest, st, p, q);
    case Bin(o, l, r) => RunPrintedBin(o, l, r, rest, st, p, q);
  }

  lemma {:induction false} RunPrintedNot(g: Formula, rest: seq<char>, st: State, p: bool, q: bool)
    requires NoIff(g)
    ensures Run(Print(Not(g)) + rest, st, p, q) == Run(rest, PushOperand(st, !Denote(g, p, q)), p, q)
    decreases Not(g), 0
  {
    var afterTilde := Print(g) + (")" + rest);
    PrintNotSplit(g, rest);
    var st2 := PushOperator(PushOperator(st, "("), "~");
    RunOpen("~" + afterTilde, st, p, q);
    RunTilde(afterTilde, PushOperator(st, "("), p, q);
    RunPrinted(g, ")" + rest, st2, p, q);
    RunCloseNot(rest, st, Denote(g, p, q), p, q);
  }

  lemma {:induction false} RunPrintedBin(o: BinOp, l: Formula, r: Formula, rest: seq<char>, st: State, p: bool, q: bool)
    requires o != IffOp && NoIff(l) && NoIff(r)
    ensures Run(Print(Bin(o, l, r)) + rest, st, p, q) ==
            Run(rest, PushOperand(st, Combine(o, Denote(l, p, q), Denote(r, p, q))), p, q)
    decreases Bin(o, l, r), 0
  {
    var afterOp := Print(r) + (")" + rest);
    var afterL := Symbol(o) + afterOp;
    PrintBinSplit(o, l, r, rest);
    var st1 := PushOperator(st, "(");
    RunOpen(Print(l) + afterL, st, p, q);
    RunPrinted(l, afterL, st1, p, q);
    var st2 := PushOperand(st1, Denote(l, p, q));
    PrecedenceOfSymbol(o);
    assert ReduceFor(Symbol(o), st2) == Some(st2);
    RunSymbol(o, afterOp, st2, p, q);
    var st3 := PushOperator(st2, Symbol(o));
    RunPrinted(r, ")" + rest, st3, p, q);
    RunCloseBin(o, rest, st, Denote(l, p, q), Denote(r, p, q), p, q);
  }

  /** `evaluate` computes the truth value of every fully parenthesised
      formula without `<->`. */
  lemma EvalPrinted(f: Formula, p: bool, q: bool)
    requires NoIff(f)
    ensures Eval(Print(f), p, q) == Some(Denote(f, p, q))
  {
    RunPrinted(f, [], Initial, p, q);
    assert Print(f) + [] == Print(f);
    assert [] + [Denote(f, p, q)] == [Denote(f, p, q)];
  }
}
