/**
  How `evaluate` groups text that is not fully parenthesised, and the
  strings `isValidExpression` accepts that `evaluate` cannot evaluate. The
  operands `a`, `b`, `c` below are arbitrary formulas, printed as a
  literal or a parenthesised group.
 */
module Grouping {
  import opened Wrappers
  import opened Symbols
  import opened Validator
  import opened Evaluator
  import opened Formulas

  lemma Assoc3(x: seq<char>, y: seq<char>, z: seq<char>)
    ensures x + y + z == x + (y + z)
  {
  }

  lemma Assoc4(v: seq<char>, w: seq<char>, x: seq<char>, y: seq<char>)
    ensures v + w + x + y == v + (w + (x + y))
    ensures v + (w + x) + y == v + (w + (x + y))
  {
  }

  lemma Assoc5(v: seq<char>, w: seq<char>, x: seq<char>, y: seq<char>, z: seq<char>)
    ensures v + w + x + y + z == v + (w + (x + (y + z)))
  {
  }

  // ---------------------------------------------------------------------
  // Scanning printed formulas joined by operator characters.
  // ---------------------------------------------------------------------

  /** A printed formula, a run of operator characters and a printed formula
      are accepted together. */
  lemma ScanJoined(a: Formula, t: seq<char>, b: Formula, rest: seq<char>, open: int)
    requires open >= 0
    requires |t| > 0 && forall i :: 0 <= i < |t| ==> IsOperatorChar(t[i])
    ensures Scan(Print(a) + (t + (Print(b) + rest)), ScanState(true, open)) == Scan(rest, ScanState(false, open))
  {
    ScanPrinted(a, t + (Print(b) + rest), open);
    ScanOperatorChars(t, Print(b) + rest, ScanState(false, open));
    ScanPrinted(b, rest, open);
  }

  lemma AcceptsJoined(a: Formula, t: seq<char>, b: Formula)
    requires |t| > 0 && forall i :: 0 <= i < |t| ==> IsOperatorChar(t[i])
    ensures Accepts(Print(a) + t + Print(b))
  {
    Assoc3(Print(a), t, Print(b));
    assert Print(b) == Print(b) + [];
    ScanJoined(a, t, b, [], 0);
  }

  lemma AcceptsLeading(t: seq<char>, a: Formula)
    requires |t| > 0 && forall i :: 0 <= i < |t| ==> IsOperatorChar(t[i])
    ensures Accepts(t + Print(a))
  {
    ScanOperatorChars(t, Print(a) + [], Start);
    ScanPrinted(a, [], 0);
    assert Print(a) + [] == Print(a);
  }

  /** One step of the final loop of `evaluate`. */
  lemma DrainStep(st: State, st': State)
    requires st.operators != [] && Apply(st) == Some(st')
    ensures Drain(st) == Drain(st')
  {
  }

  /** `evaluate` returns the top operand left by the final loop. */
  lemma EvalResult(s: seq<char>, st: State, vals: seq<bool>, v: bool, p: bool, q: bool)
    requires Run(s, Initial, p, q) == Some(st)
    requires Drain(st) == Some(State([], vals + [v]))
    ensures Eval(s, p, q) == Some(v)
  {
  }

  /** `evaluate` returns the single operand left by the final loop. */
  lemma EvalSingle(s: seq<char>, st: State, v: bool, p: bool, q: bool)
    requires Run(s, Initial, p, q) == Some(st)
    requires Drain(st) == Some(State([], [v]))
    ensures Eval(s, p, q) == Some(v)
  {
  }

  lemma OneOperatorShape(t: Token, w: bool, z: bool)
    ensures State([] + [t], [w] + [z]) == State([t], [w, z])
  {
    assert [] + [t] == [t] && [w] + [z] == [w, z];
  }

  lemma TwoOperatorShape(t1: Token, t2: Token, x: bool, y: bool, z: bool)
    ensures State([t1] + [t2], [x, y] + [z]) == State([t1, t2], [x, y, z])
  {
    assert [t1] + [t2] == [t1, t2] && [x, y] + [z] == [x, y, z];
  }

  lemma OperatorPairShape(t1: Token, t2: Token, x: bool, y: bool)
    ensures State([t1] + [t2], [x] + [y]) == State([t1, t2], [x, y])
  {
    assert [t1] + [t2] == [t1, t2] && [x] + [y] == [x, y];
  }

  /** The main loop stops at the end of the input. */
  lemma RunEmpty(st: State, p: bool, q: bool)
    ensures Run([], st, p, q) == Some(st)
  {
  }

  /** `evaluate` throws when the final loop leaves no operand to pop. */
  lemma EvalUnderflowEmpty(s: seq<char>, st: State, p: bool, q: bool)
    requires Run(s, Initial, p, q) == Some(st)
    requires Drain(st) == Some(State([], []))
    ensures Eval(s, p, q) == None
  {
  }

  /** `evaluate` throws when the final loop underflows. */
  lemma EvalUnderflow(s: seq<char>, st: State, p: bool, q: bool)
    requires Run(s, Initial, p, q) == Some(st)
    requires Drain(st) == None
    ensures Eval(s, p, q) == None
  {
  }

  /** Reading `a` from the initial state. */
  lemma RunFirst(a: Formula, rest: seq<char>, p: bool, q: bool)
    requires NoIff(a)
    ensures Run(Print(a) + rest, Initial, p, q) == Run(rest, State([], [Denote(a, p, q)]), p, q)
  {
    RunPrinted(a, rest, Initial, p, q);
    assert PushOperand(Initial, Denote(a, p, q)) == State([], [Denote(a, p, q)]);
  }

  /** Reading the symbol of `o` onto a state whose top operator `o`
      strictly outranks, or whose operator stack is empty. */
  lemma RunSymbolPush(o: BinOp, rest: seq<char>, st: State, p: bool, q: bool)
    requires o != IffOp
    requires st.operators == [] || Precedence(st.operators[|st.operators| - 1]) < Rank(o)
    ensures Run(Symbol(o) + rest, st, p, q) == Run(rest, PushOperator(st, Symbol(o)), p, q)
  {
    PrecedenceOfSymbol(o);
    RunSymbol(o, rest, st, p, q);
    assert ReduceFor(Symbol(o), st) == Some(st);
  }

  /** Reading the symbol of `o` once the operators it does not outrank
      have been applied. */
  lemma RunSymbolAfter(o: BinOp, rest: seq<char>, st: State, st': State, p: bool, q: bool)
    requires o != IffOp && ReduceFor(Symbol(o), st) == Some(st')
    ensures Run(Symbol(o) + rest, st, p, q) == Run(rest, PushOperator(st', Symbol(o)), p, q)
  {
    RunSymbol(o, rest, st, p, q);
  }

  // ---------------------------------------------------------------------
  // Precedence and associativity.
  // ---------------------------------------------------------------------

  /** Reading `a o` from the initial state. */
  lemma RunFirstSymbol(a: Formula, o: BinOp, rest: seq<char>, p: bool, q: bool)
    requires NoIff(a) && o != IffOp
    ensures Run(Print(a) + (Symbol(o) + rest), Initial, p, q) ==
            Run(rest, State([Symbol(o)], [Denote(a, p, q)]), p, q)
  {
    var x := Denote(a, p, q);
    RunFirst(a, Symbol(o) + rest, p, q);
    RunSymbolPush(o, rest, State([], [x]), p, q);
    assert PushOperator(State([], [x]), Symbol(o)) == State([Symbol(o)], [x]);
  }

  lemma RunPair(a: Formula, o: BinOp, b: Formula, rest: seq<char>, p: bool, q: bool)
    requires NoIff(a) && NoIff(b) && o != IffOp
    ensures Run(Print(a) + (Symbol(o) + (Print(b) + rest)), Initial, p, q) ==
            Run(rest, State([Symbol(o)], [Denote(a, p, q), Denote(b, p, q)]), p, q)
  {
    var x, y := Denote(a, p, q), Denote(b, p, q);
    RunFirstSymbol(a, o, Print(b) + rest, p, q);
    RunPrinted(b, rest, State([Symbol(o)], [x]), p, q);
    assert PushOperand(State([Symbol(o)], [x]), y) == State([Symbol(o)], [x, y]);
  }

  lemma DrainPair(o: BinOp, x: bool, y: bool)
    ensures Drain(State([Symbol(o)], [x, y])) == Some(State([], [Combine(o, x, y)]))
  {
    ApplyBinary(o, [], [], x, y);
    assert [] + [Symbol(o)] == [Symbol(o)] && [] + [x, y] == [x, y] && [] + [Combine(o, x, y)] == [Combine(o, x, y)];
    DrainStep(State([Symbol(o)], [x, y]), State([], [Combine(o, x, y)]));
  }

  lemma EvalPair(a: Formula, o: BinOp, b: Formula, p: bool, q: bool)
    requires NoIff(a) && NoIff(b) && o != IffOp
    ensures Eval(Print(a) + (Symbol(o) + (Print(b) + [])), p, q) == Some(Combine(o, Denote(a, p, q), Denote(b, p, q)))
  {
    var x, y := Denote(a, p, q), Denote(b, p, q);
    RunPair(a, o, b, [], p, q);
    RunEmpty(State([Symbol(o)], [x, y]), p, q);
    DrainPair(o, x, y);
    EvalSingle(Print(a) + (Symbol(o) + (Print(b) + [])), State([Symbol(o)], [x, y]), Combine(o, x, y), p, q);
  }

  /** `a op b` is accepted and evaluates to `op` applied to the two
      values. */
  lemma EvalBinary(a: Formula, o: BinOp, b: Formula, p: bool, q: bool)
    requires NoIff(a) && NoIff(b) && o != IffOp
    ensures Accepts(Print(a) + Symbol(o) + Print(b))
    ensures Eval(Print(a) + Symbol(o) + Print(b), p, q) == Some(Combine(o, Denote(a, p, q), Denote(b, p, q)))
  {
    SymbolIsOperatorChars(o);
    AcceptsJoined(a, Symbol(o), b);
    EvalPair(a, o, b, p, q);
    Assoc3(Print(a), Symbol(o), Print(b));
    assert Print(b) + [] == Print(b);
  }

  lemma AcceptsTernary(a: Formula, o1: BinOp, b: Formula, o2: BinOp, c: Formula)
    ensures Accepts(Print(a) + Symbol(o1) + Print(b) + Symbol(o2) + Print(c))
  {
    var s1, s2 := Symbol(o1), Symbol(o2);
    Assoc5(Print(a), s1, Print(b), s2, Print(c));
    var rest2 := s2 + (Print(c) + []);
    assert Print(c) + [] == Print(c);
    SymbolIsOperatorChars(o1);
    SymbolIsOperatorChars(o2);
    ScanJoined(b, s2, c, [], 0);
    ScanPrinted(a, s1 + (Print(b) + rest2), 0);
    ScanOperatorChars(s1, Print(b) + rest2, ScanState(false, 0));
  }

  /** `o2` after `x o1 y` applies `o1` first when `o1` binds at least as
      tightly... */
  lemma ReduceLeft(o1: BinOp, o2: BinOp, x: bool, y: bool)
    requires Rank(o2) <= Rank(o1)
    ensures ReduceFor(Symbol(o2), State([Symbol(o1)], [x, y])) == Some(State([], [Combine(o1, x, y)]))
  {
    PrecedenceOfSymbol(o1);
    PrecedenceOfSymbol(o2);
    ApplyBinary(o1, [], [], x, y);
    assert [] + [Symbol(o1)] == [Symbol(o1)] && [] + [x, y] == [x, y] && [] + [Combine(o1, x, y)] == [Combine(o1, x, y)];
  }

  /** ... and is stacked above it otherwise. */
  lemma ReduceRight(o1: BinOp, o2: BinOp, x: bool, y: bool)
    requires Rank(o2) > Rank(o1)
    ensures ReduceFor(Symbol(o2), State([Symbol(o1)], [x, y])) == Some(State([Symbol(o1)], [x, y]))
  {
    PrecedenceOfSymbol(o1);
    PrecedenceOfSymbol(o2);
  }

  /** Reading the last operand. */
  lemma RunLast(c: Formula, ops: seq<Token>, vals: seq<bool>, p: bool, q: bool)
    requires NoIff(c)
    ensures Run(Print(c) + [], State(ops, vals), p, q) == Some(State(ops, vals + [Denote(c, p, q)]))
  {
    RunPrinted(c, [], State(ops, vals), p, q);
  }

  /** Reading `o2 c` at the end of the input once `o2` has reduced `st`
      to `st'`. */
  lemma RunSymbolLast(o2: BinOp, c: Formula, st: State, st': State, p: bool, q: bool)
    requires NoIff(c) && o2 != IffOp && ReduceFor(Symbol(o2), st) == Some(st')
    ensures Run(Symbol(o2) + (Print(c) + []), st, p, q) ==
            Some(State(st'.operators + [Symbol(o2)], st'.operands + [Denote(c, p, q)]))
  {
    RunSymbolAfter(o2, Print(c) + [], st, st', p, q);
    RunLast(c, st'.operators + [Symbol(o2)], st'.operands, p, q);
  }

  /** Reading `a o1 b o2 c` once `o2` has reduced the state after `a o1 b`
      to `st'`. */
  lemma RunTernary(a: Formula, o1: BinOp, b: Formula, o2: BinOp, c: Formula, st': State, p: bool, q: bool)
    requires NoIff(a) && NoIff(b) && NoIff(c) && o1 != IffOp && o2 != IffOp
    requires ReduceFor(Symbol(o2), State([Symbol(o1)], [Denote(a, p, q), Denote(b, p, q)])) == Some(st')
    ensures Run(Print(a) + (Symbol(o1) + (Print(b) + (Symbol(o2) + (Print(c) + [])))), Initial, p, q) ==
            Some(State(st'.operators + [Symbol(o2)], st'.operands + [Denote(c, p, q)]))
  {
    RunPair(a, o1, b, Symbol(o2) + (Print(c) + []), p, q);
    RunSymbolLast(o2, c, State([Symbol(o1)], [Denote(a, p, q), Denote(b, p, q)]), st', p, q);
  }

  /** Reading `a o1 b o2 c` when `o1` binds at least as tightly as `o2`. */
  lemma RunAfterLeft(a: Formula, o1: BinOp, b: Formula, o2: BinOp, c: Formula, p: bool, q: bool)
    requires NoIff(a) && NoIff(b) && NoIff(c) && o1 != IffOp && o2 != IffOp && Rank(o2) <= Rank(o1)
    ensures Run(Print(a) + (Symbol(o1) + (Print(b) + (Symbol(o2) + (Print(c) + [])))), Initial, p, q) ==
            Some(State([] + [Symbol(o2)], [Combine(o1, Denote(a, p, q), Denote(b, p, q))] + [Denote(c, p, q)]))
  {
    var w := Combine(o1, Denote(a, p, q), Denote(b, p, q));
    ReduceLeft(o1, o2, Denote(a, p, q), Denote(b, p, q));
    RunTernary(a, o1, b, o2, c, State([], [w]), p, q);
  }

  lemma RunTernaryLeft(a: Formula, o1: BinOp, b: Formula, o2: BinOp, c: Formula, p: bool, q: bool)
    requires NoIff(a) && NoIff(b) && NoIff(c) && o1 != IffOp && o2 != IffOp && Rank(o2) <= Rank(o1)
    ensures Run(Print(a) + (Symbol(o1) + (Print(b) + (Symbol(o2) + (Print(c) + [])))), Initial, p, q) ==
            Some(State([Symbol(o2)], [Combine(o1, Denote(a, p, q), Denote(b, p, q)), Denote(c, p, q)]))
  {
    RunAfterLeft(a, o1, b, o2, c, p, q);
    OneOperatorShape(Symbol(o2), Combine(o1, Denote(a, p, q), Denote(b, p, q)), Denote(c, p, q));
  }

  /** Reading `a o1 b o2 c` when `o2` binds more tightly than `o1`. */
  lemma RunAfterRight(a: Formula, o1: BinOp, b: Formula, o2: BinOp, c: Formula, p: bool, q: bool)
    requires NoIff(a) && NoIff(b) && NoIff(c) && o1 != IffOp && o2 != IffOp && Rank(o2) > Rank(o1)
    ensures Run(Print(a) + (Symbol(o1) + (Print(b) + (Symbol(o2) + (Print(c) + [])))), Initial, p, q) ==
            Some(State([Symbol(o1)] + [Symbol(o2)], [Denote(a, p, q), Denote(b, p, q)] + [Denote(c, p, q)]))
  {
    ReduceRight(o1, o2, Denote(a, p, q), Denote(b, p, q));
    RunTernary(a, o1, b, o2, c, State([Symbol(o1)], [Denote(a, p, q), Denote(b, p, q)]), p, q);
  }

  lemma RunTernaryRight(a: Formula, o1: BinOp, b: Formula, o2: BinOp, c: Formula, p: bool, q: bool)
    requires NoIff(a) && NoIff(b) && NoIff(c) && o1 != IffOp && o2 != IffOp && Rank(o2) > Rank(o1)
    ensures Run(Print(a) + (Symbol(o1) + (Print(b) + (Symbol(o2) + (Print(c) + [])))), Initial, p, q) ==
            Some(State([Symbol(o1), Symbol(o2)], [Denote(a, p, q), Denote(b, p, q), Denote(c, p, q)]))
  {
    RunAfterRight(a, o1, b, o2, c, p, q);
    TwoOperatorShape(Symbol(o1), Symbol(o2), Denote(a, p, q), Denote(b, p, q), Denote(c, p, q));
  }

  /** The final loop after `x o1 y o2 z` with `o2` stacked above `o1`. */
  lemma DrainTernary(o1: BinOp, o2: BinOp, x: bool, y: bool, z: bool)
    ensures Drain(State([Symbol(o1), Symbol(o2)], [x, y, z])) == Some(State([], [Combine(o1, x, Combine(o2, y, z))]))
  {
    var s1, s2 := Symbol(o1), Symbol(o2);
    var v := Combine(o2, y, z);
    ApplyBinary(o2, [s1], [x], y, z);
    assert [s1] + [s2] == [s1, s2] && [x] + [y, z] == [x, y, z] && [x] + [v] == [x, v];
    DrainStep(State([s1, s2], [x, y, z]), State([s1], [x, v]));
    DrainPair(o1, x, v);
  }

  lemma EvalTernaryLeft(a: Formula, o1: BinOp, b: Formula, o2: BinOp, c: Formula, p: bool, q: bool)
    requires NoIff(a) && NoIff(b) && NoIff(c) && o1 != IffOp && o2 != IffOp && Rank(o2) <= Rank(o1)
    ensures Eval(Print(a) + (Symbol(o1) + (Print(b) + (Symbol(o2) + (Print(c) + [])))), p, q) ==
            Some(Combine(o2, Combine(o1, Denote(a, p, q), Denote(b, p, q)), Denote(c, p, q)))
  {
    var w, z := Combine(o1, Denote(a, p, q), Denote(b, p, q)), Denote(c, p, q);
    RunTernaryLeft(a, o1, b, o2, c, p, q);
    DrainPair(o2, w, z);
    EvalSingle(Print(a) + (Symbol(o1) + (Print(b) + (Symbol(o2) + (Print(c) + [])))), State([Symbol(o2)], [w, z]), Combine(o2, w, z), p, q);
  }

  lemma EvalTernaryRight(a: Formula, o1: BinOp, b: Formula, o2: BinOp, c: Formula, p: bool, q: bool)
    requires NoIff(a) && NoIff(b) && NoIff(c) && o1 != IffOp && o2 != IffOp && Rank(o2) > Rank(o1)
    ensures Eval(Print(a) + (Symbol(o1) + (Print(b) + (Symbol(o2) + (Print(c) + [])))), p, q) ==
            Some(Combine(o1, Denote(a, p, q), Combine(o2, Denote(b, p, q), Denote(c, p, q))))
  {
    var x, y, z := Denote(a, p, q), Denote(b, p, q), Denote(c, p, q);
    RunTernaryRight(a, o1, b, o2, c, p, q);
    DrainTernary(o1, o2, x, y, z);
    EvalSingle(Print(a) + (Symbol(o1) + (Print(b) + (Symbol(o2) + (Print(c) + [])))), State([Symbol(o1), Symbol(o2)], [x, y, z]), Combine(o1, x, Combine(o2, y, z)), p, q);
  }

  lemma EvalTernary(a: Formula, o1: BinOp, b: Formula, o2: BinOp, c: Formula, p: bool, q: bool)
    requires NoIff(a) && NoIff(b) && NoIff(c) && o1 != IffOp && o2 != IffOp
    ensures Eval(Print(a) + (Symbol(o1) + (Print(b) + (Symbol(o2) + (Print(c) + [])))), p, q) ==
            var x, y, z := Denote(a, p, q), Denote(b, p, q), Denote(c, p, q);
            Some(if Rank(o2) <= Rank(o1) then Combine(o2, Combine(o1, x, y), z) else Combine(o1, x, Combine(o2, y, z)))
  {
    if Rank(o2) <= Rank(o1) {
      EvalTernaryLeft(a, o1, b, o2, c, p, q);
    } else {
      EvalTernaryRight(a, o1, b, o2, c, p, q);
    }
  }

  /** `a o1 b o2 c` groups to the left when `o1` binds at least as tightly
      as `o2`, and to the right otherwise: `p->q->p` is `(p->q)->p`,
      `pVq&q` is `pV(q&q)`. */
  lemma PrecedenceAndAssociativity(a: Formula, o1: BinOp, b: Formula, o2: BinOp, c: Formula, p: bool, q: bool)
    requires NoIff(a) && NoIff(b) && NoIff(c) && o1 != IffOp && o2 != IffOp
    ensures Accepts(Print(a) + Symbol(o1) + Print(b) + Symbol(o2) + Print(c))
    ensures Eval(Print(a) + Symbol(o1) + Print(b) + Symbol(o2) + Print(c), p, q) ==
            var x, y, z := Denote(a, p, q), Denote(b, p, q), Denote(c, p, q);
            Some(if Rank(o2) <= Rank(o1) then Combine(o2, Combine(o1, x, y), z) else Combine(o1, x, Combine(o2, y, z)))
  {
    AcceptsTernary(a, o1, b, o2, c);
    EvalTernary(a, o1, b, o2, c, p, q);
    Assoc5(Print(a), Symbol(o1), Print(b), Symbol(o2), Print(c));
    assert Print(c) + [] == Print(c);
  }

  /** Reading `~a` from the initial state. */
  lemma RunNegatedPrefix(a: Formula, rest: seq<char>, p: bool, q: bool)
    requires NoIff(a)
    ensures Run("~" + (Print(a) + rest), Initial, p, q) == Run(rest, State(["~"], [Denote(a, p, q)]), p, q)
  {
    RunTilde(Print(a) + rest, Initial, p, q);
    assert PushOperator(Initial, "~") == State(["~"], []);
    RunPrinted(a, rest, State(["~"], []), p, q);
    assert PushOperand(State(["~"], []), Denote(a, p, q)) == State(["~"], [Denote(a, p, q)]);
  }

  lemma RunNegatedFirst(a: Formula, o: BinOp, b: Formula, p: bool, q: bool)
    requires NoIff(a) && NoIff(b) && o != IffOp
    ensures Run("~" + (Print(a) + (Symbol(o) + (Print(b) + []))), Initial, p, q) ==
            Some(State([Symbol(o)], [!Denote(a, p, q), Denote(b, p, q)]))
  {
    var x := Denote(a, p, q);
    RunNegatedPrefix(a, Symbol(o) + (Print(b) + []), p, q);
    ReduceNegation(o, x);
    RunSymbolLast(o, b, State(["~"], [x]), State([], [!x]), p, q);
    OneOperatorShape(Symbol(o), !x, Denote(b, p, q));
  }

  /** A binary operator after `~x` applies the `~` first. */
  lemma ReduceNegation(o: BinOp, x: bool)
    ensures ReduceFor(Symbol(o), State(["~"], [x])) == Some(State([], [!x]))
  {
    PrecedenceOfSymbol(o);
    ApplyNegation([], [], x);
    assert [] + ["~"] == ["~"] && [] + [x] == [x] && [] + [!x] == [!x];
  }

  lemma EvalNegatedFirst(a: Formula, o: BinOp, b: Formula, p: bool, q: bool)
    requires NoIff(a) && NoIff(b) && o != IffOp
    ensures Eval("~" + (Print(a) + (Symbol(o) + (Print(b) + []))), p, q) == Some(Combine(o, !Denote(a, p, q), Denote(b, p, q)))
  {
    var x, y := Denote(a, p, q), Denote(b, p, q);
    RunNegatedFirst(a, o, b, p, q);
    DrainPair(o, !x, y);
    EvalSingle("~" + (Print(a) + (Symbol(o) + (Print(b) + []))), State([Symbol(o)], [!x, y]), Combine(o, !x, y), p, q);
  }

  lemma AcceptsNegatedFirst(a: Formula, o: BinOp, b: Formula)
    ensures Accepts("~" + (Print(a) + (Symbol(o) + (Print(b) + []))))
  {
    SymbolIsOperatorChars(o);
    ScanTilde(Print(a) + (Symbol(o) + (Print(b) + [])), 0);
    ScanJoined(a, Symbol(o), b, [], 0);
  }

  /** `~` binds tighter than every binary operator: `~a op b` is
      `(~a) op b`. */
  lemma NegationBindsTightest(a: Formula, o: BinOp, b: Formula, p: bool, q: bool)
    requires NoIff(a) && NoIff(b) && o != IffOp
    ensures Accepts("~" + Print(a) + Symbol(o) + Print(b))
    ensures Eval("~" + Print(a) + Symbol(o) + Print(b), p, q) == Some(Combine(o, !Denote(a, p, q), Denote(b, p, q)))
  {
    AcceptsNegatedFirst(a, o, b);
    EvalNegatedFirst(a, o, b, p, q);
    Assoc4("~", Print(a), Symbol(o), Print(b));
    assert Print(b) + [] == Print(b);
  }

  lemma RunNegatedSecond(a: Formula, o: BinOp, b: Formula, p: bool, q: bool)
    requires NoIff(a) && NoIff(b) && o != IffOp
    ensures Run(Print(a) + (Symbol(o) + ("~" + (Print(b) + []))), Initial, p, q) ==
            Some(State([Symbol(o), "~"], [Denote(a, p, q), Denote(b, p, q)]))
  {
    var x, y := Denote(a, p, q), Denote(b, p, q);
    RunFirstSymbol(a, o, "~" + (Print(b) + []), p, q);
    RunTildeOperand(b, [], State([Symbol(o)], [x]), p, q);
    OperatorPairShape(Symbol(o), "~", x, y);
    RunEmpty(State([Symbol(o), "~"], [x, y]), p, q);
  }

  /** The final loop after `a o ~b`: `~` first, then `o`. */
  lemma DrainNegatedLast(o: BinOp, x: bool, y: bool)
    ensures Drain(State([Symbol(o), "~"], [x, y])) == Some(State([], [Combine(o, x, !y)]))
  {
    var s := Symbol(o);
    ApplyNegation([s], [x], y);
    assert [s] + ["~"] == [s, "~"] && [x] + [y] == [x, y] && [x] + [!y] == [x, !y];
    DrainStep(State([s, "~"], [x, y]), State([s], [x, !y]));
    DrainPair(o, x, !y);
  }

  lemma EvalNegatedSecond(a: Formula, o: BinOp, b: Formula, p: bool, q: bool)
    requires NoIff(a) && NoIff(b) && o != IffOp
    ensures Eval(Print(a) + (Symbol(o) + ("~" + (Print(b) + []))), p, q) == Some(Combine(o, Denote(a, p, q), !Denote(b, p, q)))
  {
    var x, y := Denote(a, p, q), Denote(b, p, q);
    RunNegatedSecond(a, o, b, p, q);
    DrainNegatedLast(o, x, y);
    EvalSingle(Print(a) + (Symbol(o) + ("~" + (Print(b) + []))), State([Symbol(o), "~"], [x, y]), Combine(o, x, !y), p, q);
  }

  /** A `~` after a binary operator is pushed without applying anything:
      `a op ~b` is `a op (~b)`. */
  lemma NegationAfterOperator(a: Formula, o: BinOp, b: Formula, p: bool, q: bool)
    requires NoIff(a) && NoIff(b) && o != IffOp
    ensures Accepts(Print(a) + Symbol(o) + "~" + Print(b))
    ensures Eval(Print(a) + Symbol(o) + "~" + Print(b), p, q) == Some(Combine(o, Denote(a, p, q), !Denote(b, p, q)))
  {
    var s := Symbol(o);
    SymbolIsOperatorChars(o);
    AcceptsJoined(a, s + "~", b);
    EvalNegatedSecond(a, o, b, p, q);
    Assoc4(Print(a), s, "~", Print(b));
    assert Print(b) + [] == Print(b);
  }

  // ---------------------------------------------------------------------
  // Accepted by the validator, yet not evaluated as a formula.
  // ---------------------------------------------------------------------

  lemma RunIffTopLevel(a: Formula, b: Formula, p: bool, q: bool)
    requires NoIff(a) && NoIff(b)
    ensures Run(Print(a) + ("<-" + (">" + Print(b))), Initial, p, q) == None
  {
    var x := Denote(a, p, q);
    var gt := ">" + Print(b);
    RunFirst(a, "<-" + gt, p, q);
    assert ("<-" + gt)[0] == '<' && ("<-" + gt)[1] == '-';
    assert Lexeme("<-" + gt) == ("<-", 2);
    RunOperatorToken("<-", gt, State([], [x]), p, q);
    assert ReduceFor("<-", State([], [x])) == Some(State([], [x]));
    assert PushOperator(State([], [x]), "<-") == State(["<-"], [x]);
    assert gt[0] == '>' && gt[1] == Print(b)[0];
    assert Lexeme(gt) == (">", 1);
    RunOperatorToken(">", Print(b), State(["<-"], [x]), p, q);
    assert Apply(State(["<-"], [x])) == None;
    assert ReduceFor(">", State(["<-"], [x])) == None;
  }

  lemma IffSplit(t: seq<char>)
    ensures "<->" + t == "<-" + (">" + t)
  {
    assert "<->" == "<-" + ">";
  }

  lemma EvalIffTopLevel(a: Formula, b: Formula, p: bool, q: bool)
    requires NoIff(a) && NoIff(b)
    ensures Eval(Print(a) + "<->" + Print(b), p, q) == None
  {
    RunIffTopLevel(a, b, p, q);
    Assoc3(Print(a), "<->", Print(b));
    IffSplit(Print(b));
  }

  /** Reading `(a` from the initial state. */
  lemma RunOpenFirst(a: Formula, rest: seq<char>, p: bool, q: bool)
    requires NoIff(a)
    ensures Run("(" + (Print(a) + rest), Initial, p, q) == Run(rest, State(["("], [Denote(a, p, q)]), p, q)
  {
    RunOpen(Print(a) + rest, Initial, p, q);
    assert PushOperator(Initial, "(") == State(["("], []);
    RunPrinted(a, rest, State(["("], []), p, q);
    assert PushOperand(State(["("], []), Denote(a, p, q)) == State(["("], [Denote(a, p, q)]);
  }

  /** `<-` after `(` and one operand applies `(` as a binary operator and
      underflows. */
  lemma RunLeftArrowAfterOpen(rest: seq<char>, x: bool, p: bool, q: bool)
    ensures Run("<-" + rest, State(["("], [x]), p, q) == None
  {
    LexemeLeftArrow(rest);
    RunOperatorToken("<-", rest, State(["("], [x]), p, q);
    assert Apply(State(["("], [x])) == None;
    assert ReduceFor("<-", State(["("], [x])) == None;
  }

  lemma RunIffGroup(a: Formula, b: Formula, p: bool, q: bool)
    requires NoIff(a) && NoIff(b)
    ensures Run(Print(Bin(IffOp, a, b)), Initial, p, q) == None
  {
    var gt := ">" + (Print(b) + (")" + []));
    PrintBinSplit(IffOp, a, b, []);
    IffSplit(Print(b) + (")" + []));
    assert Print(Bin(IffOp, a, b)) + [] == Print(Bin(IffOp, a, b));
    RunOpenFirst(a, "<-" + gt, p, q);
    RunLeftArrowAfterOpen(gt, Denote(a, p, q), p, q);
  }

  /** `<->` is read as the tokens `<-` and `>`, both of precedence -1: the
      first unknown token that finds another on the stack applies it as a
      binary operator with a single operand available, and `evaluate`
      throws. `IffTokenNeverStacked` shows that the source's `<->` cases are
      never reached. */
  lemma IffUnderflows(a: Formula, b: Formula, p: bool, q: bool)
    requires NoIff(a) && NoIff(b)
    ensures Accepts(Print(a) + "<->" + Print(b))
    ensures Eval(Print(a) + "<->" + Print(b), p, q) == None
    ensures Accepts(Print(Bin(IffOp, a, b)))
    ensures Eval(Print(Bin(IffOp, a, b)), p, q) == None
  {
    SymbolIsOperatorChars(IffOp);
    AcceptsJoined(a, Symbol(IffOp), b);
    PrintedAccepted(Bin(IffOp, a, b));
    EvalIffTopLevel(a, b, p, q);
    RunIffGroup(a, b, p, q);
  }

  /** A token of precedence -1 does not stop at a `(`: it applies the `(`
      as a binary operator that pushes nothing, so the two operands above
      the ones below are dropped and the loop carries on beneath it. */
  lemma OpenBarrierBroken(t: Token, ops: seq<Token>, vals: seq<bool>, x: bool, y: bool)
    requires Precedence(t) == -1
    ensures ReduceFor(t, State(ops + ["("], vals + [x, y])) == ReduceFor(t, State(ops, vals))
  {
    assert Precedence("(") == -1;
    ApplyUnknown("(", ops, vals, x, y);
    ReduceForStep(t, State(ops + ["("], vals + [x, y]), State(ops, vals));
  }

  /** The `<-` of `a o (b<->c)` applies the `(`, then finds `o` with no
      operand left. */
  lemma RunLeftArrowInGroup(o: BinOp, rest: seq<char>, x: bool, y: bool, p: bool, q: bool)
    ensures Run("<-" + rest, State([Symbol(o), "("], [x, y]), p, q) == None
  {
    LexemeLeftArrow(rest);
    RunOperatorToken("<-", rest, State([Symbol(o), "("], [x, y]), p, q);
    OpenBarrierBroken("<-", [Symbol(o)], [], x, y);
    assert [Symbol(o)] + ["("] == [Symbol(o), "("] && [] + [x, y] == [x, y];
    PrecedenceOfSymbol(o);
    assert Apply(State([Symbol(o)], [])) == None;
    assert ReduceFor("<-", State([Symbol(o)], [])) == None;
  }

  /** Reading `(b` after the symbol of `o`. */
  lemma RunGroupOperand(o: BinOp, b: Formula, rest: seq<char>, x: bool, p: bool, q: bool)
    requires NoIff(b)
    ensures Run("(" + (Print(b) + rest), State([Symbol(o)], [x]), p, q) ==
            Run(rest, State([Symbol(o), "("], [x, Denote(b, p, q)]), p, q)
  {
    RunOpen(Print(b) + rest, State([Symbol(o)], [x]), p, q);
    assert PushOperator(State([Symbol(o)], [x]), "(") == State([Symbol(o), "("], [x]);
    RunPrinted(b, rest, State([Symbol(o), "("], [x]), p, q);
    assert PushOperand(State([Symbol(o), "("], [x]), Denote(b, p, q)) == State([Symbol(o), "("], [x, Denote(b, p, q)]);
  }

  lemma RunIffInGroup(a: Formula, o: BinOp, b: Formula, c: Formula, p: bool, q: bool)
    requires NoIff(a) && NoIff(b) && NoIff(c) && o != IffOp
    ensures Run(Print(a) + Symbol(o) + Print(Bin(IffOp, b, c)), Initial, p, q) == None
  {
    var x, y := Denote(a, p, q), Denote(b, p, q);
    var gt := ">" + (Print(c) + (")" + []));
    PrintBinSplit(IffOp, b, c, []);
    IffSplit(Print(c) + (")" + []));
    assert Print(Bin(IffOp, b, c)) + [] == Print(Bin(IffOp, b, c));
    Assoc3(Print(a), Symbol(o), Print(Bin(IffOp, b, c)));
    RunFirstSymbol(a, o, "(" + (Print(b) + ("<-" + gt)), p, q);
    RunGroupOperand(o, b, "<-" + gt, x, p, q);
    RunLeftArrowInGroup(o, gt, x, y, p, q);
  }

  /** `a o (b<->c)`, for `o` other than `<->`, is accepted and `evaluate`
      throws: the parentheses do not protect the operand `a`. */
  lemma IffInGroupUnderflows(a: Formula, o: BinOp, b: Formula, c: Formula, p: bool, q: bool)
    requires NoIff(a) && NoIff(b) && NoIff(c) && o != IffOp
    ensures Accepts(Print(a) + Symbol(o) + Print(Bin(IffOp, b, c)))
    ensures Eval(Print(a) + Symbol(o) + Print(Bin(IffOp, b, c)), p, q) == None
  {
    SymbolIsOperatorChars(o);
    AcceptsJoined(a, Symbol(o), Bin(IffOp, b, c));
    RunIffInGroup(a, o, b, c, p, q);
  }

  // ---------------------------------------------------------------------
  // `<->` with more operands stacked: the stray tokens drop operands
  // without underflowing.
  // ---------------------------------------------------------------------

  /** The string `a~b~c~d<->e`, nested to the right. */
  function StackedIff(a: Formula, b: Formula, c: Formula, d: Formula, e: Formula): seq<char> {
    Print(a) + ("~" + (Print(b) + ("~" + (Print(c) + ("~" + (Print(d) + ("<->" + (Print(e) + []))))))))
  }

  /** Scanning an operator token followed by a printed formula. */
  lemma ScanTokenOperand(t: seq<char>, b: Formula, rest: seq<char>, open: int)
    requires open >= 0
    requires |t| > 0 && forall i :: 0 <= i < |t| ==> IsOperatorChar(t[i])
    ensures Scan(t + (Print(b) + rest), ScanState(false, open)) == Scan(rest, ScanState(false, open))
  {
    ScanOperatorChars(t, Print(b) + rest, ScanState(false, open));
    ScanPrinted(b, rest, open);
  }

  lemma ScanTildeOperand(b: Formula, rest: seq<char>, open: int)
    requires open >= 0
    ensures Scan("~" + (Print(b) + rest), ScanState(false, open)) == Scan(rest, ScanState(false, open))
  {
    assert IsOperatorChar("~"[0]);
    ScanTokenOperand("~", b, rest, open);
  }

  lemma ScanIffOperand(b: Formula, rest: seq<char>, open: int)
    requires open >= 0
    ensures Scan("<->" + (Print(b) + rest), ScanState(false, open)) == Scan(rest, ScanState(false, open))
  {
    assert IsOperatorChar("<->"[0]) && IsOperatorChar("<->"[1]) && IsOperatorChar("<->"[2]);
    ScanTokenOperand("<->", b, rest, open);
  }

  lemma AcceptsStackedIff(a: Formula, b: Formula, c: Formula, d: Formula, e: Formula)
    ensures Accepts(StackedIff(a, b, c, d, e))
  {
    var tail := "<->" + (Print(e) + []);
    var rd := "~" + (Print(d) + tail);
    var rc := "~" + (Print(c) + rd);
    ScanPrinted(a, "~" + (Print(b) + rc), 0);
    ScanTildeOperand(b, rc, 0);
    ScanTildeOperand(c, rd, 0);
    ScanTildeOperand(d, tail, 0);
    ScanIffOperand(e, [], 0);
  }

  /** Reading `~b` pushes `~` and then the value of `b`. */
  lemma RunTildeOperand(b: Formula, rest: seq<char>, st: State, p: bool, q: bool)
    requires NoIff(b)
    ensures Run("~" + (Print(b) + rest), st, p, q) ==
            Run(rest, State(st.operators + ["~"], st.operands + [Denote(b, p, q)]), p, q)
  {
    RunTilde(Print(b) + rest, st, p, q);
    RunPrinted(b, rest, PushOperator(st, "~"), p, q);
  }

  /** Reading `a~b` from the initial state. */
  lemma RunTildePair(a: Formula, b: Formula, rest: seq<char>, p: bool, q: bool)
    requires NoIff(a) && NoIff(b)
    ensures Run(Print(a) + ("~" + (Print(b) + rest)), Initial, p, q) ==
            Run(rest, State(["~"], [Denote(a, p, q), Denote(b, p, q)]), p, q)
  {
    var w, x := Denote(a, p, q), Denote(b, p, q);
    RunFirst(a, "~" + (Print(b) + rest), p, q);
    RunTildeOperand(b, rest, State([], [w]), p, q);
    assert State([] + ["~"], [w] + [x]) == State(["~"], [w, x]);
  }

  /** Reading `~c~d` pushes two `~` and the two values. */
  lemma RunTildeTwice(c: Formula, d: Formula, rest: seq<char>, st: State, p: bool, q: bool)
    requires NoIff(c) && NoIff(d)
    ensures Run("~" + (Print(c) + ("~" + (Print(d) + rest))), st, p, q) ==
            Run(rest, State(st.operators + ["~", "~"], st.operands + [Denote(c, p, q), Denote(d, p, q)]), p, q)
  {
    var y, z := Denote(c, p, q), Denote(d, p, q);
    RunTildeOperand(c, "~" + (Print(d) + rest), st, p, q);
    RunTildeOperand(d, rest, State(st.operators + ["~"], st.operands + [y]), p, q);
    assert st.operators + ["~"] + ["~"] == st.operators + ["~", "~"];
    assert st.operands + [y] + [z] == st.operands + [y, z];
  }

  lemma RunTildeTwiceAfterPair(c: Formula, d: Formula, rest: seq<char>, w: bool, x: bool, p: bool, q: bool)
    requires NoIff(c) && NoIff(d)
    ensures Run("~" + (Print(c) + ("~" + (Print(d) + rest))), State(["~"], [w, x]), p, q) ==
            Run(rest, State(["~", "~", "~"], [w, x, Denote(c, p, q), Denote(d, p, q)]), p, q)
  {
    RunTildeTwice(c, d, rest, State(["~"], [w, x]), p, q);
    assert ["~"] + ["~", "~"] == ["~", "~", "~"];
    assert [w, x] + [Denote(c, p, q), Denote(d, p, q)] == [w, x, Denote(c, p, q), Denote(d, p, q)];
  }

  /** Reading `a~b~c~d` stacks the four values under three `~`. */
  lemma RunStackedNegations(a: Formula, b: Formula, c: Formula, d: Formula, rest: seq<char>, p: bool, q: bool)
    requires NoIff(a) && NoIff(b) && NoIff(c) && NoIff(d)
    ensures Run(Print(a) + ("~" + (Print(b) + ("~" + (Print(c) + ("~" + (Print(d) + rest)))))), Initial, p, q) ==
            Run(rest, State(["~", "~", "~"], [Denote(a, p, q), Denote(b, p, q), Denote(c, p, q), Denote(d, p, q)]), p, q)
  {
    RunTildePair(a, b, "~" + (Print(c) + ("~" + (Print(d) + rest))), p, q);
    RunTildeTwiceAfterPair(c, d, rest, Denote(a, p, q), Denote(b, p, q), p, q);
  }

  /** One round of the loop before pushing `op`. */
  lemma ReduceForStep(op: Token, st: State, st': State)
    requires st.operators != [] && Precedence(op) <= Precedence(st.operators[|st.operators| - 1])
    requires Apply(st) == Some(st')
    ensures ReduceFor(op, st) == ReduceFor(op, st')
  {
  }

  /** The token `<-` first applies the three `~` to the top operand. */
  lemma ReduceStackedNegations(w: bool, x: bool, y: bool, z: bool)
    ensures ReduceFor("<-", State(["~", "~", "~"], [w, x, y, z])) == Some(State([], [w, x, y, !z]))
  {
    var s3, s2, s1, s0 := State(["~", "~", "~"], [w, x, y, z]), State(["~", "~"], [w, x, y, !z]),
                          State(["~"], [w, x, y, z]), State([], [w, x, y, !z]);
    ApplyNegation(["~", "~"], [w, x, y], z);
    assert State(["~", "~"] + ["~"], [w, x, y] + [z]) == s3 && State(["~", "~"], [w, x, y] + [!z]) == s2;
    ReduceForStep("<-", s3, s2);
    ApplyNegation(["~"], [w, x, y], !z);
    assert State(["~"] + ["~"], [w, x, y] + [!z]) == s2 && State(["~"], [w, x, y] + [!!z]) == s1;
    ReduceForStep("<-", s2, s1);
    ApplyNegation([], [w, x, y], z);
    assert State([] + ["~"], [w, x, y] + [z]) == s1 && State([], [w, x, y] + [!z]) == s0;
    ReduceForStep("<-", s1, s0);
  }

  lemma LexemeLeftArrow(rest: seq<char>)
    ensures Lexeme("<-" + rest) == ("<-", 2)
  {
    assert ("<-" + rest)[0] == '<' && ("<-" + rest)[1] == '-';
  }

  lemma LexemeGreater(rest: seq<char>)
    ensures Lexeme(">" + rest) == (">", 1)
  {
    assert (">" + rest)[0] == '>';
  }

  /** The token `<-` applies the three `~` and is pushed. */
  lemma RunStackedLeftArrow(rest: seq<char>, w: bool, x: bool, y: bool, z: bool, p: bool, q: bool)
    ensures Run("<-" + rest, State(["~", "~", "~"], [w, x, y, z]), p, q) ==
            Run(rest, State(["<-"], [w, x, y, !z]), p, q)
  {
    LexemeLeftArrow(rest);
    RunOperatorToken("<-", rest, State(["~", "~", "~"], [w, x, y, z]), p, q);
    ReduceStackedNegations(w, x, y, z);
    assert PushOperator(State([], [w, x, y, !z]), "<-") == State(["<-"], [w, x, y, !z]);
  }

  /** The token `>` applies `<-` as an unknown binary operator, which drops
      the two top operands, and is pushed; then `e` is pushed. */
  lemma RunGreaterLast(e: Formula, vals: seq<bool>, y: bool, z: bool, p: bool, q: bool)
    requires NoIff(e)
    ensures Run(">" + (Print(e) + []), State(["<-"], vals + [y, z]), p, q) ==
            Some(State([">"], vals + [Denote(e, p, q)]))
  {
    LexemeGreater(Print(e) + []);
    RunOperatorToken(">", Print(e) + [], State(["<-"], vals + [y, z]), p, q);
    ApplyUnknown("<-", [], vals, y, z);
    assert [] + ["<-"] == ["<-"];
    ReduceForStep(">", State(["<-"], vals + [y, z]), State([], vals));
    assert PushOperator(State([], vals), ">") == State([">"], vals);
    RunLast(e, [">"], vals, p, q);
  }

  /** Then `<-` is pushed, `>` applies it as an unknown binary operator
      that drops the two top operands, and `e` is pushed above the rest. */
  lemma RunStackedTokens(e: Formula, w: bool, x: bool, y: bool, z: bool, p: bool, q: bool)
    requires NoIff(e)
    ensures Run("<-" + (">" + (Print(e) + [])), State(["~", "~", "~"], [w, x, y, z]), p, q) ==
            Some(State([">"], [w, x, Denote(e, p, q)]))
  {
    RunStackedLeftArrow(">" + (Print(e) + []), w, x, y, z, p, q);
    assert [w, x, y, !z] == [w, x] + [y, !z];
    RunGreaterLast(e, [w, x], y, !z, p, q);
    assert [w, x] + [Denote(e, p, q)] == [w, x, Denote(e, p, q)];
  }

  /** The main loop on `a~b~c~d<->e` leaves `>` above three operands. */
  lemma RunStackedIff(a: Formula, b: Formula, c: Formula, d: Formula, e: Formula, p: bool, q: bool)
    requires NoIff(a) && NoIff(b) && NoIff(c) && NoIff(d) && NoIff(e)
    ensures Run(StackedIff(a, b, c, d, e), Initial, p, q) ==
            Some(State([">"], [Denote(a, p, q), Denote(b, p, q), Denote(e, p, q)]))
  {
    var tail := "<->" + (Print(e) + []);
    IffSplit(Print(e) + []);
    RunStackedNegations(a, b, c, d, tail, p, q);
    RunStackedTokens(e, Denote(a, p, q), Denote(b, p, q), Denote(c, p, q), Denote(d, p, q), p, q);
  }

  /** The final loop applies `>` as an unknown binary operator. */
  lemma DrainGreater(w: bool, x: bool, v: bool)
    ensures Drain(State([">"], [w, x, v])) == Some(State([], [] + [w]))
  {
    ApplyUnknown(">", [], [w], x, v);
    assert [] + [">"] == [">"] && [w] + [x, v] == [w, x, v];
    DrainStep(State([">"], [w, x, v]), State([], [w]));
    assert Drain(State([], [w])) == Some(State([], [w]));
    assert [] + [w] == [w];
  }

  lemma EvalStackedIff(a: Formula, b: Formula, c: Formula, d: Formula, e: Formula, p: bool, q: bool)
    requires NoIff(a) && NoIff(b) && NoIff(c) && NoIff(d) && NoIff(e)
    ensures Eval(StackedIff(a, b, c, d, e), p, q) == Some(Denote(a, p, q))
  {
    var w, x, v := Denote(a, p, q), Denote(b, p, q), Denote(e, p, q);
    RunStackedIff(a, b, c, d, e, p, q);
    DrainGreater(w, x, v);
    EvalResult(StackedIff(a, b, c, d, e), State([">"], [w, x, v]), [], w, p, q);
  }

  /** `<->` does not always underflow: with four operands stacked before
      it, `<-` and `>` each drop two, and `evaluate` returns the first
      operand (`p~p~p~q<->q` evaluates to `p`). */
  lemma StackedIffReturnsFirst(a: Formula, b: Formula, c: Formula, d: Formula, e: Formula, p: bool, q: bool)
    requires NoIff(a) && NoIff(b) && NoIff(c) && NoIff(d) && NoIff(e)
    ensures Accepts(StackedIff(a, b, c, d, e))
    ensures Eval(StackedIff(a, b, c, d, e), p, q) == Some(Denote(a, p, q))
  {
    AcceptsStackedIff(a, b, c, d, e);
    EvalStackedIff(a, b, c, d, e, p, q);
  }

  lemma StackedIffText()
    ensures StackedIff(Lit(PVar, false), Lit(PVar, false), Lit(PVar, false), Lit(QVar, false), Lit(QVar, false)) == "p~p~p~q<->q"
  {
    assert Print(Lit(PVar, false)) == "p" && Print(Lit(QVar, false)) == "q";
  }

  /** The instance `p~p~p~q<->q`. */
  lemma StackedIffExample(p: bool, q: bool)
    ensures var P, Q := Lit(PVar, false), Lit(QVar, false);
            StackedIff(P, P, P, Q, Q) == "p~p~p~q<->q" &&
            Accepts(StackedIff(P, P, P, Q, Q)) && Eval(StackedIff(P, P, P, Q, Q), p, q) == Some(p)
  {
    StackedIffText();
    StackedIffReturnsFirst(Lit(PVar, false), Lit(PVar, false), Lit(PVar, false), Lit(QVar, false), Lit(QVar, false), p, q);
  }

  /** An operator with nothing before it is accepted, and the operand stack
      underflows (`&p`). */
  lemma LeadingOperatorUnderflows(o: BinOp, a: Formula, p: bool, q: bool)
    requires NoIff(a) && o != IffOp
    ensures Accepts(Symbol(o) + Print(a))
    ensures Eval(Symbol(o) + Print(a), p, q) == None
  {
    var x := Denote(a, p, q);
    var s := Symbol(o);
    SymbolIsOperatorChars(o);
    AcceptsLeading(s, a);
    assert s + Print(a) == s + (Print(a) + []);
    RunSymbolPush(o, Print(a) + [], Initial, p, q);
    assert PushOperator(Initial, s) == State([s], []);
    RunLast(a, [s], [], p, q);
    assert [] + [x] == [x];
    assert Apply(State([s], [x])) == None;
    EvalUnderflow(s + Print(a), State([s], [x]), p, q);
  }

  /** The second of two operators meets the first above a single operand:
      it underflows when it does not outrank the first. */
  lemma ReduceOverSingle(o1: BinOp, o2: BinOp, x: bool)
    ensures ReduceFor(Symbol(o2), State([Symbol(o1)], [x])) ==
            if Rank(o2) <= Rank(o1) then None else Some(State([Symbol(o1)], [x]))
  {
    PrecedenceOfSymbol(o1);
    PrecedenceOfSymbol(o2);
    if Rank(o2) <= Rank(o1) {
      assert Apply(State([Symbol(o1)], [x])) == None;
    }
  }

  lemma RunDoubled(a: Formula, o1: BinOp, o2: BinOp, b: Formula, p: bool, q: bool)
    requires NoIff(a) && NoIff(b) && o1 != IffOp && o2 != IffOp
    ensures Run(Print(a) + (Symbol(o1) + (Symbol(o2) + (Print(b) + []))), Initial, p, q) ==
            if Rank(o2) <= Rank(o1) then None
            else Some(State([Symbol(o1), Symbol(o2)], [Denote(a, p, q), Denote(b, p, q)]))
  {
    var s1, s2 := Symbol(o1), Symbol(o2);
    var x, y := Denote(a, p, q), Denote(b, p, q);
    RunFirstSymbol(a, o1, s2 + (Print(b) + []), p, q);
    ReduceOverSingle(o1, o2, x);
    if Rank(o2) <= Rank(o1) {
      RunSymbol(o2, Print(b) + [], State([s1], [x]), p, q);
    } else {
      RunSymbolLast(o2, b, State([s1], [x]), State([s1], [x]), p, q);
      OperatorPairShape(s1, s2, x, y);
    }
  }

  /** The final loop underflows when an operator meets a single operand. */
  lemma DrainUnderflow(st: State)
    requires st.operators != [] && Apply(st) == None
    ensures Drain(st) == None
  {
  }

  /** A binary operator above a single operand underflows. */
  lemma ApplyShort(o: BinOp, v: bool)
    ensures Apply(State([Symbol(o)], [v])) == None
  {
    assert Symbol(o) != "~" by {
      assert Symbol(o)[0] != '~';
    }
  }

  lemma DrainDoubled(o1: BinOp, o2: BinOp, x: bool, y: bool)
    ensures Drain(State([Symbol(o1), Symbol(o2)], [x, y])) == None
  {
    var s1, s2 := Symbol(o1), Symbol(o2);
    var v := Combine(o2, x, y);
    ApplyBinary(o2, [s1], [], x, y);
    assert State([s1] + [s2], [] + [x, y]) == State([s1, s2], [x, y]);
    assert State([s1], [] + [v]) == State([s1], [v]);
    DrainStep(State([s1, s2], [x, y]), State([s1], [v]));
    ApplyShort(o1, v);
    DrainUnderflow(State([s1], [v]));
  }

  lemma EvalDoubled(a: Formula, o1: BinOp, o2: BinOp, b: Formula, p: bool, q: bool)
    requires NoIff(a) && NoIff(b) && o1 != IffOp && o2 != IffOp
    ensures Eval(Print(a) + (Symbol(o1) + (Symbol(o2) + (Print(b) + []))), p, q) == None
  {
    RunDoubled(a, o1, o2, b, p, q);
    if Rank(o2) > Rank(o1) {
      DrainDoubled(o1, o2, Denote(a, p, q), Denote(b, p, q));
      EvalUnderflow(Print(a) + (Symbol(o1) + (Symbol(o2) + (Print(b) + []))),
                    State([Symbol(o1), Symbol(o2)], [Denote(a, p, q), Denote(b, p, q)]), p, q);
    }
  }

  lemma AcceptsDoubled(a: Formula, o1: BinOp, o2: BinOp, b: Formula)
    ensures Accepts(Print(a) + (Symbol(o1) + Symbol(o2)) + Print(b))
  {
    var s1, s2 := Symbol(o1), Symbol(o2);
    SymbolIsOperatorChars(o1);
    SymbolIsOperatorChars(o2);
    assert forall i :: 0 <= i < |s1 + s2| ==> (s1 + s2)[i] == if i < |s1| then s1[i] else s2[i - |s1|];
    AcceptsJoined(a, s1 + s2, b);
  }

  /** Two binary operators in a row are accepted, and the operand stack
      underflows (`p&&q`, `pV&q`). */
  lemma DoubledOperatorUnderflows(a: Formula, o1: BinOp, o2: BinOp, b: Formula, p: bool, q: bool)
    requires NoIff(a) && NoIff(b) && o1 != IffOp && o2 != IffOp
    ensures Accepts(Print(a) + (Symbol(o1) + Symbol(o2)) + Print(b))
    ensures Eval(Print(a) + (Symbol(o1) + Symbol(o2)) + Print(b), p, q) == None
  {
    AcceptsDoubled(a, o1, o2, b);
    EvalDoubled(a, o1, o2, b, p, q);
    Assoc4(Print(a), Symbol(o1), Symbol(o2), Print(b));
    assert Print(b) + [] == Print(b);
  }

  /** A lone `-`, `<` or `>` followed by a formula is a token of its own. */
  lemma LexemeStray(c: char, b: Formula)
    requires c in "-<>"
    ensures Lexeme([c] + (Print(b) + [])) == ([c], 1)
  {
    assert ([c] + (Print(b) + []))[0] == c && ([c] + (Print(b) + []))[1] == Print(b)[0];
  }

  lemma RunStrayToken(c: char, b: Formula, x: bool, p: bool, q: bool)
    requires NoIff(b) && c in "-<>"
    ensures Run([c] + (Print(b) + []), State([], [x]), p, q) == Some(State([[c]], [x, Denote(b, p, q)]))
  {
    LexemeStray(c, b);
    RunOperatorToken([c], Print(b) + [], State([], [x]), p, q);
    assert ReduceFor([c], State([], [x])) == Some(State([], [x]));
    assert PushOperator(State([], [x]), [c]) == State([[c]], [x]);
    assert [x] + [Denote(b, p, q)] == [x, Denote(b, p, q)];
    RunLast(b, [[c]], [x], p, q);
  }

  lemma RunStray(a: Formula, c: char, b: Formula, p: bool, q: bool)
    requires NoIff(a) && NoIff(b) && c in "-<>"
    ensures Run(Print(a) + ([c] + (Print(b) + [])), Initial, p, q) ==
            Some(State([[c]], [Denote(a, p, q), Denote(b, p, q)]))
  {
    RunFirst(a, [c] + (Print(b) + []), p, q);
    RunStrayToken(c, b, Denote(a, p, q), p, q);
  }

  /** The final loop applies the stray token as an unknown binary
      operator, which leaves no operand. */
  lemma DrainStray(c: char, x: bool, y: bool)
    requires c in "-<>"
    ensures Drain(State([[c]], [x, y])) == Some(State([], []))
  {
    ApplyUnknown([c], [], [], x, y);
    assert [] + [[c]] == [[c]] && [] + [x, y] == [x, y];
    DrainStep(State([[c]], [x, y]), State([], []));
  }

  lemma EvalStray(a: Formula, c: char, b: Formula, p: bool, q: bool)
    requires NoIff(a) && NoIff(b) && c in "-<>"
    ensures Eval(Print(a) + ([c] + (Print(b) + [])), p, q) == None
  {
    RunStray(a, c, b, p, q);
    DrainStray(c, Denote(a, p, q), Denote(b, p, q));
    EvalUnderflowEmpty(Print(a) + ([c] + (Print(b) + [])), State([[c]], [Denote(a, p, q), Denote(b, p, q)]), p, q);
  }

  /** A `-`, `<` or `>` that forms no two-character token is accepted, is
      read as an unknown operator of precedence -1 that pops both operands
      and pushes nothing, and the final pop underflows (`p-q`). */
  lemma StrayCharacterUnderflows(a: Formula, c: char, b: Formula, p: bool, q: bool)
    requires NoIff(a) && NoIff(b) && c in "-<>"
    ensures Accepts(Print(a) + [c] + Print(b))
    ensures Eval(Print(a) + [c] + Print(b), p, q) == None
  {
    assert IsOperatorChar(c);
    AcceptsJoined(a, [c], b);
    EvalStray(a, c, b, p, q);
    Assoc3(Print(a), [c], Print(b));
    assert Print(b) + [] == Print(b);
  }

  lemma RunLeftover(a: Formula, b: Formula, p: bool, q: bool)
    requires NoIff(a) && NoIff(b)
    ensures Run(Print(a) + ("~" + (Print(b) + [])), Initial, p, q) ==
            Some(State(["~"], [Denote(a, p, q), Denote(b, p, q)]))
  {
    RunTildePair(a, b, [], p, q);
    RunEmpty(State(["~"], [Denote(a, p, q), Denote(b, p, q)]), p, q);
  }

  /** The final loop after `a~b` negates `b` and leaves `a` below it. */
  lemma DrainLeftover(x: bool, y: bool)
    ensures Drain(State(["~"], [x, y])) == Some(State([], [x] + [!y]))
  {
    ApplyNegation([], [x], y);
    assert [] + ["~"] == ["~"] && [x] + [y] == [x, y];
    DrainStep(State(["~"], [x, y]), State([], [x] + [!y]));
  }

  lemma EvalLeftover(a: Formula, b: Formula, p: bool, q: bool)
    requires NoIff(a) && NoIff(b)
    ensures Eval(Print(a) + ("~" + (Print(b) + [])), p, q) == Some(!Denote(b, p, q))
  {
    var x, y := Denote(a, p, q), Denote(b, p, q);
    RunLeftover(a, b, p, q);
    DrainLeftover(x, y);
    EvalResult(Print(a) + ("~" + (Print(b) + [])), State(["~"], [x, y]), [x], !y, p, q);
  }

  /** `a~b` is accepted and evaluates to `~b`: the operand left below is
      ignored by the final pop. */
  lemma LeftoverOperandIgnored(a: Formula, b: Formula, p: bool, q: bool)
    requires NoIff(a) && NoIff(b)
    ensures Accepts(Print(a) + "~" + Print(b))
    ensures Eval(Print(a) + "~" + Print(b), p, q) == Some(!Denote(b, p, q))
  {
    AcceptsJoined(a, "~", b);
    EvalLeftover(a, b, p, q);
    Assoc3(Print(a), "~", Print(b));
    assert Print(b) + [] == Print(b);
  }

  // ---------------------------------------------------------------------
  // The token `<->` never reaches the stack.
  // ---------------------------------------------------------------------

  /** Every operator on the stack is at most two characters long. */
  ghost predicate ShortTokens(st: State) {
    forall k :: 0 <= k < |st.operators| ==> |st.operators[k]| <= 2
  }

  /** Applying an operator pops it and keeps the operators below. */
  lemma ApplyKeepsShort(st: State)
    requires ShortTokens(st) && Apply(st).Some?
    ensures ShortTokens(Apply(st).value)
    ensures st.operators[|st.operators| - 1] != "<->"
  {
    assert Apply(st).value.operators == st.operators[..|st.operators| - 1];
  }

  lemma {:induction false} ReduceToParenKeepsShort(st: State)
    requires ShortTokens(st) && ReduceToParen(st).Some?
    ensures ShortTokens(ReduceToParen(st).value)
    decreases |st.operators|
  {
    if st.operators != [] && st.operators[|st.operators| - 1] != "(" {
      ApplyKeepsShort(st);
      ReduceToParenKeepsShort(Apply(st).value);
    }
  }

  lemma {:induction false} ReduceForKeepsShort(op: Token, st: State)
    requires ShortTokens(st) && ReduceFor(op, st).Some?
    ensures ShortTokens(ReduceFor(op, st).value)
    decreases |st.operators|
  {
    if st.operators != [] && Precedence(op) <= Precedence(st.operators[|st.operators| - 1]) {
      ApplyKeepsShort(st);
      ReduceForKeepsShort(op, Apply(st).value);
    }
  }

  lemma {:induction false} DrainKeepsShort(st: State)
    requires ShortTokens(st) && Drain(st).Some?
    ensures ShortTokens(Drain(st).value)
    decreases |st.operators|
  {
    if st.operators != [] {
      ApplyKeepsShort(st);
      DrainKeepsShort(Apply(st).value);
    }
  }

  lemma PushKeepsShort(st: State, t: Token)
    requires ShortTokens(st) && |t| <= 2
    ensures ShortTokens(PushOperator(st, t))
  {
  }

  /** An operand character leaves the operator stack as it is. */
  lemma RunOperandStep(s: seq<char>, st: State, p: bool, q: bool)
    requires s != [] && IsAtomChar(s[0])
    ensures Run(s, st, p, q) == Run(s[1..], PushOperand(st, OperandValue(s[0], p, q)), p, q)
    ensures PushOperand(st, OperandValue(s[0], p, q)).operators == st.operators
  {
  }

  /** `~` and `(` are pushed as one-character tokens. */
  lemma RunOpenerStep(s: seq<char>, st: State, p: bool, q: bool)
    requires s != [] && (s[0] == '~' || s[0] == '(')
    requires ShortTokens(st)
    ensures Run(s, st, p, q) == Run(s[1..], PushOperator(st, [s[0]]), p, q)
    ensures ShortTokens(PushOperator(st, [s[0]]))
  {
    PushKeepsShort(st, [s[0]]);
  }

  /** The `)` step: the reduced stack without its top. */
  lemma {:induction false} RunCloseKeepsShort(s: seq<char>, st: State, p: bool, q: bool)
    requires s != [] && s[0] == ')'
    requires ShortTokens(st) && Run(s, st, p, q).Some?
    ensures ReduceToParen(st).Some? && ReduceToParen(st).value.operators != []
    ensures var st' := ReduceToParen(st).value;
      var next := State(st'.operators[..|st'.operators| - 1], st'.operands);
      ShortTokens(next) && Run(s, st, p, q) == Run(s[1..], next, p, q)
  {
    ReduceToParenKeepsShort(st);
  }

  /** An operator token: the reduced stack with the token pushed. */
  lemma {:induction false} RunOperatorKeepsShort(s: seq<char>, st: State, p: bool, q: bool)
    requires s != [] && !IsAtomChar(s[0]) && s[0] !in "~()"
    requires ShortTokens(st) && Run(s, st, p, q).Some?
    ensures ReduceFor(Lexeme(s).0, st).Some?
    ensures var next := PushOperator(ReduceFor(Lexeme(s).0, st).value, Lexeme(s).0);
      ShortTokens(next) && Run(s, st, p, q) == Run(s[Lexeme(s).1..], next, p, q)
  {
    ReduceForKeepsShort(Lexeme(s).0, st);
    PushKeepsShort(ReduceFor(Lexeme(s).0, st).value, Lexeme(s).0);
  }

  /** One step of the scan from a state with short tokens leads to another
      such state, on a shorter rest of the input. */
  lemma RunStepKeepsShort(s: seq<char>, st: State, p: bool, q: bool) returns (s': seq<char>, next: State)
    requires s != [] && ShortTokens(st) && Run(s, st, p, q).Some?
    ensures |s'| < |s| && ShortTokens(next) && Run(s, st, p, q) == Run(s', next, p, q)
  {
    var c := s[0];
    if IsAtomChar(c) {
      RunOperandStep(s, st, p, q);
      s', next := s[1..], PushOperand(st, OperandValue(c, p, q));
    } else if c == '~' || c == '(' {
      RunOpenerStep(s, st, p, q);
      s', next := s[1..], PushOperator(st, [c]);
    } else if c == ')' {
      RunCloseKeepsShort(s, st, p, q);
      var st' := ReduceToParen(st).value;
      s', next := s[1..], State(st'.operators[..|st'.operators| - 1], st'.operands);
    } else {
      RunOperatorKeepsShort(s, st, p, q);
      s', next := s[Lexeme(s).1..], PushOperator(ReduceFor(Lexeme(s).0, st).value, Lexeme(s).0);
    }
  }

  /** The scan pushes only one-character tokens and the tokens `Lexeme`
      reads, which are at most two characters long; every reduction only
      pops. */
  lemma {:induction false} RunKeepsShort(s: seq<char>, st: State, p: bool, q: bool)
    requires ShortTokens(st) && Run(s, st, p, q).Some?
    ensures ShortTokens(Run(s, st, p, q).value)
    decreases |s|
  {
    if s != [] {
      var s', next := RunStepKeepsShort(s, st, p, q);
      RunKeepsShort(s', next, p, q);
    }
  }

  /** From the initial state, no stack the scan leaves holds `<->`. Every
      state any loop applies an operator to is such a stack or one popped
      from it (the lemmas above), and `ApplyKeepsShort` rules out `<->` on
      top of each: the `<->` cases of `precedence` and `applyOperator` are
      never reached. */
  lemma IffTokenNeverStacked(s: seq<char>, p: bool, q: bool)
    ensures Run(s, Initial, p, q).Some? ==>
      ShortTokens(Run(s, Initial, p, q).value) && "<->" !in Run(s, Initial, p, q).value.operators
  {
    if Run(s, Initial, p, q).Some? {
      RunKeepsShort(s, Initial, p, q);
    }
  }
}
