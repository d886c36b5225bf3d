/**
  `evaluate`, `precedence` and `applyOperator` (MainActivity.java:121-211):
  a two-stack operator-precedence evaluator for given values of `p` and `q`.
  The specification functions below follow the source's loop step by step,
  with `None` wherever a `Stack.pop()` of the source would throw.
 */
module Evaluator {
  import opened Wrappers
  import opened Stacks
  import opened Symbols

  /** An entry of the operator stack: one or two characters. */
  type Token = seq<char>

  /** Both stacks, tops at the end. */
  datatype State = State(operators: seq<Token>, operands: seq<bool>)

  const Initial := State([], [])

  function PushOperand(st: State, v: bool): State {
    State(st.operators, st.operands + [v])
  }

  function PushOperator(st: State, op: Token): State {
    State(st.operators + [op], st.operands)
  }

  /** The `precedence` switch: 0 to 4 for the five operators, -1 for any
      other token. */
  function Precedence(op: Token): (r: int)
    ensures -1 <= r <= 4
  {
    if op == "~" then 4
    else if op == "&" then 3
    else if op == "V" then 2
    else if op == "->" then 1
    else if op == "<->" then 0
    else -1
  }

  /** Pops one operator and applies it: `~` negates the top operand; any
      other token pops the right operand, then the left one, and pushes the
      result for `&`, `V`, `->` and `<->`, or nothing for any other token. */
  function Apply(st: State): (r: Option<State>)
    ensures r.Some? ==> |r.value.operators| == |st.operators| - 1
  {
    if st.operators == [] then None
    else
      var op := st.operators[|st.operators| - 1];
      var ops := st.operators[..|st.operators| - 1];
      var n := |st.operands|;
      if op == "~" then
        if n == 0 then None
        else Some(State(ops, st.operands[..n - 1] + [!st.operands[n - 1]]))
      else if n < 2 then None
      else
        var right := st.operands[n - 1];
        var left := st.operands[n - 2];
        var rest := st.operands[..n - 2];
        if op == "&" then Some(State(ops, rest + [left && right]))
        else if op == "V" then Some(State(ops, rest + [left || right]))
        else if op == "->" then Some(State(ops, rest + [!left || right]))
        else if op == "<->" then Some(State(ops, rest + [(!left || right) && (!right || left)]))
        else Some(State(ops, rest))
  }

  /** The loop at a `)`: apply operators until a `(` is on top. */
  function ReduceToParen(st: State): Option<State>
    decreases |st.operators|
  {
    if st.operators == [] || st.operators[|st.operators| - 1] == "(" then Some(st)
    else
      match Apply(st)
      case None => None
      case Some(st') => ReduceToParen(st')
  }

  /** The loop before pushing `op`: apply operators while the precedence of
      `op` is at most that of the top operator. */
  function ReduceFor(op: Token, st: State): Option<State>
    decreases |st.operators|
  {
    if st.operators == [] || Precedence(op) > Precedence(st.operators[|st.operators| - 1]) then Some(st)
    else
      match Apply(st)
      case None => None
      case Some(st') => ReduceFor(op, st')
  }

  /** The loop after the scan: apply every remaining operator. */
  function Drain(st: State): Option<State>
    decreases |st.operators|
  {
    if st.operators == [] then Some(st)
    else
      match Apply(st)
      case None => None
      case Some(st') => Drain(st')
  }

  /** The operator token that starts `s` and its length: a `-` followed by
      `>` or a `<` followed by `-` forms a two-character token, anything
      else is one character. */
  function Lexeme(s: seq<char>): (r: (Token, nat))
    requires |s| > 0
    ensures 1 <= r.1 <= 2 && r.1 <= |s| && r.0 == s[..r.1]
  {
    if |s| > 1 && ((s[0] == '-' && s[1] == '>') || (s[0] == '<' && s[1] == '-')) then ([s[0], s[1]], 2)
    else ([s[0]], 1)
  }

  /** The value an operand character (`Symbols.IsAtomChar`) stands for. */
  function OperandValue(c: char, p: bool, q: bool): bool
    requires IsAtomChar(c)
  {
    if c == 'p' || c == 'P' then p
    else if c == 'q' || c == 'Q' then q
    else c == 't' || c == 'T'
  }

  /** The main loop over the rest `s` of the expression, from state `st`. */
  function Run(s: seq<char>, st: State, p: bool, q: bool): Option<State>
    decreases |s|
  {
    if s == [] then Some(st)
    else
      var c := s[0];
      if c == 'p' || c == 'P' then Run(s[1..], PushOperand(st, p), p, q)
      else if c == 'q' || c == 'Q' then Run(s[1..], PushOperand(st, q), p, q)
      else if c == 't' || c == 'T' then Run(s[1..], PushOperand(st, true), p, q)
      else if c == 'f' || c == 'F' then Run(s[1..], PushOperand(st, false), p, q)
      else if c == '~' || c == '(' then Run(s[1..], PushOperator(st, [c]), p, q)
      else if c == ')' then
        match ReduceToParen(st)
        case None => None
        case Some(st') =>
          if st'.operators == [] then None
          else Run(s[1..], State(st'.operators[..|st'.operators| - 1], st'.operands), p, q)
      else
        var (op, n) := Lexeme(s);
        match ReduceFor(op, st)
        case None => None
        case Some(st') => Run(s[n..], PushOperator(st', op), p, q)
  }

  /** What `evaluate` returns, or `None` where it throws. The final pop
      returns the top operand and ignores whatever lies below it. */
  function Eval(s: seq<char>, p: bool, q: bool): Option<bool> {
    match Run(s, Initial, p, q)
    case None => None
    case Some(st) => Finish(st)
  }

  /** The final loop, then the final pop. */
  function Finish(st: State): Option<bool> {
    match Drain(st)
    case None => None
    case Some(st') =>
      if st'.operands == [] then None else Some(st'.operands[|st'.operands| - 1])
  }

  method ApplyOperator(operators: Stack<Token>, operands: Stack<bool>) returns (ok: bool)
    requires operators as object != operands as object
    modifies operators, operands
    ensures ok == Apply(State(old(operators.elems), old(operands.elems))).Some?
    ensures ok ==> Apply(State(old(operators.elems), old(operands.elems))) == Some(State(operators.elems, operands.elems))
  {
    ghost var st := State(operators.elems, operands.elems);
    ghost var n := |operands.elems|;
    var top := operators.Pop();
    if top.None? {
      return false;
    }
    var operator := top.value;
    assert operator == st.operators[|st.operators| - 1];
    if operator == "~" {
      var operand := operands.Pop();
      if operand.None? {
        return false;
      }
      operands.Push(!operand.value);
    } else {
      var operand2 := operands.Pop();
      if operand2.None? {
        return false;
      }
      var operand1 := operands.Pop();
      if operand1.None? {
        return false;
      }
      var a, b := operand1.value, operand2.value;
      assert operands.elems == st.operands[..n - 2];
      assert a == st.operands[n - 2] && b == st.operands[n - 1];
      if operator == "&" {
        operands.Push(a && b);
      } else if operator == "V" {
        operands.Push(a || b);
      } else if operator == "->" {
        operands.Push(!a || b);
      } else if operator == "<->" {
        operands.Push((!a || b) && (!b || a));
      }
    }
    ok := true;
  }

  /** The loop at a `)` (MainActivity.java:140-142). */
  method ReduceUntilOpen(operators: Stack<Token>, operands: Stack<bool>) returns (ok: bool)
    requires operators as object != operands as object
    modifies operators, operands
    ensures ok == ReduceToParen(State(old(operators.elems), old(operands.elems))).Some?
    ensures ok ==> ReduceToParen(State(old(operators.elems), old(operands.elems))) == Some(State(operators.elems, operands.elems))
  {
    while !operators.IsEmpty() && operators.Peek() != "("
      invariant ReduceToParen(State(operators.elems, operands.elems)) == ReduceToParen(State(old(operators.elems), old(operands.elems)))
      decreases |operators.elems|
    {
      ok := ApplyOperator(operators, operands);
      if !ok {
        return;
      }
    }
    ok := true;
  }

  /** The loop before pushing a binary operator (MainActivity.java:153-155). */
  method ReduceBefore(op: Token, operators: Stack<Token>, operands: Stack<bool>) returns (ok: bool)
    requires operators as object != operands as object
    modifies operators, operands
    ensures ok == ReduceFor(op, State(old(operators.elems), old(operands.elems))).Some?
    ensures ok ==> ReduceFor(op, State(old(operators.elems), old(operands.elems))) == Some(State(operators.elems, operands.elems))
  {
    while !operators.IsEmpty() && Precedence(op) <= Precedence(operators.Peek())
      invariant ReduceFor(op, State(operators.elems, operands.elems)) == ReduceFor(op, State(old(operators.elems), old(operands.elems)))
      decreases |operators.elems|
    {
      ok := ApplyOperator(operators, operands);
      if !ok {
        return;
      }
    }
    ok := true;
  }

  /** The loop after the scan (MainActivity.java:160-162). */
  method ApplyRemaining(operators: Stack<Token>, operands: Stack<bool>) returns (ok: bool)
    requires operators as object != operands as object
    modifies operators, operands
    ensures ok == Drain(State(old(operators.elems), old(operands.elems))).Some?
    ensures ok ==> Drain(State(old(operators.elems), old(operands.elems))) == Some(State(operators.elems, operands.elems))
  {
    while !operators.IsEmpty()
      invariant Drain(State(operators.elems, operands.elems)) == Drain(State(old(operators.elems), old(operands.elems)))
      decreases |operators.elems|
    {
      ok := ApplyOperator(operators, operands);
      if !ok {
        return;
      }
    }
    ok := true;
  }

  /** The lookahead of MainActivity.java:146-151: the operator token at
      position `i` and the position of its last character. */
  method Lookahead(expr: seq<char>, i: nat) returns (op: Token, last: nat)
    requires i < |expr|
    ensures i <= last < |expr| && Lexeme(expr[i..]) == (op, last - i + 1)
  {
    var c := expr[i];
    op := [c];
    last := i;
    if i + 1 < |expr| {
      var nextChar := expr[i + 1];
      if (c == '-' && nextChar == '>') || (c == '<' && nextChar == '-') {
        op := op + [nextChar];
        last := i + 1;
        assert op == [c, nextChar];
      }
    }
    assert expr[i..][0] == c;
    assert i + 1 < |expr| ==> expr[i..][1] == expr[i + 1];
  }

  /** The `)` case of the main loop (MainActivity.java:139-143): apply
      operators down to the `(`, then pop it. */
  method CloseGroup(ghost rest: seq<char>, ghost p: bool, ghost q: bool, operators: Stack<Token>, operands: Stack<bool>)
    returns (ok: bool)
    requires operators as object != operands as object
    requires |rest| > 0 && rest[0] == ')'
    modifies operators, operands
    ensures var reduced := ReduceToParen(State(old(operators.elems), old(operands.elems)));
            ok == (reduced.Some? && reduced.value.operators != [])
    ensures var reduced := ReduceToParen(State(old(operators.elems), old(operands.elems)));
            ok ==> reduced.Some? && reduced.value.operators != [] &&
                   operators.elems == reduced.value.operators[..|reduced.value.operators| - 1] &&
                   operands.elems == reduced.value.operands
    ensures !ok ==> Run(rest, State(old(operators.elems), old(operands.elems)), p, q) == None
    ensures ok ==> Run(rest, State(old(operators.elems), old(operands.elems)), p, q) ==
                   Run(rest[1..], State(operators.elems, operands.elems), p, q)
  {
    ok := ReduceUntilOpen(operators, operands);
    if !ok {
      return;
    }
    var open := operators.Pop();
    ok := open.Some?;
  }

  /** The operator case of the main loop (MainActivity.java:144-157): read
      the token, apply the operators it does not outrank, push it. `last`
      is the position of the token's last character. */
  method ReadOperator(expr: seq<char>, i: nat, ghost p: bool, ghost q: bool, operators: Stack<Token>, operands: Stack<bool>)
    returns (ok: bool, last: nat)
    requires operators as object != operands as object
    requires i < |expr| && !IsAtomChar(expr[i]) && expr[i] != '~' && expr[i] != '(' && expr[i] != ')'
    modifies operators, operands
    ensures i <= last < |expr|
    ensures last == i + Lexeme(expr[i..]).1 - 1
    ensures var token := Lexeme(expr[i..]).0;
            var reduced := ReduceFor(token, State(old(operators.elems), old(operands.elems)));
            ok == reduced.Some? &&
            (ok ==> State(operators.elems, operands.elems) == PushOperator(reduced.value, token))
    ensures !ok ==> Run(expr[i..], State(old(operators.elems), old(operands.elems)), p, q) == None
    ensures ok ==> Run(expr[i..], State(old(operators.elems), old(operands.elems)), p, q) ==
                   Run(expr[last + 1..], State(operators.elems, operands.elems), p, q)
  {
    ghost var rest := expr[i..];
    assert rest[0] == expr[i];
    var op;
    op, last := Lookahead(expr, i);
    ok := ReduceBefore(op, operators, operands);
    if !ok {
      return;
    }
    operators.Push(op);
    assert rest[|op|..] == expr[last + 1..];
  }

  /** The final loop and the final pop (MainActivity.java:160-164). */
  method Conclude(operators: Stack<Token>, operands: Stack<bool>) returns (r: Option<bool>)
    requires operators as object != operands as object
    modifies operators, operands
    ensures r == Finish(State(old(operators.elems), old(operands.elems)))
  {
    var ok := ApplyRemaining(operators, operands);
    if !ok {
      return None;
    }
    r := operands.Pop();
  }

  /** The one-character cases of the main loop (MainActivity.java:127-138):
      an operand pushes its value, `~` and `(` push themselves. */
  method ReadSingle(expr: seq<char>, i: nat, p: bool, q: bool, operators: Stack<Token>, operands: Stack<bool>)
    requires operators as object != operands as object
    requires i < |expr| && (IsAtomChar(expr[i]) || expr[i] == '~' || expr[i] == '(')
    modifies operators, operands
    ensures IsAtomChar(expr[i]) ==>
              operators.elems == old(operators.elems) && operands.elems == old(operands.elems) + [OperandValue(expr[i], p, q)]
    ensures !IsAtomChar(expr[i]) ==>
              operators.elems == old(operators.elems) + [[expr[i]]] && operands.elems == old(operands.elems)
    ensures Run(expr[i..], State(old(operators.elems), old(operands.elems)), p, q) ==
            Run(expr[i + 1..], State(operators.elems, operands.elems), p, q)
  {
    var c := expr[i];
    ghost var rest := expr[i..];
    ghost var st := State(operators.elems, operands.elems);
    assert rest[0] == c && rest[1..] == expr[i + 1..];
    if c == 'p' || c == 'P' {
      operands.Push(p);
      assert Run(rest, st, p, q) == Run(expr[i + 1..], PushOperand(st, p), p, q);
    } else if c == 'q' || c == 'Q' {
      operands.Push(q);
      assert Run(rest, st, p, q) == Run(expr[i + 1..], PushOperand(st, q), p, q);
    } else if c == 't' || c == 'T' {
      operands.Push(true);
      assert Run(rest, st, p, q) == Run(expr[i + 1..], PushOperand(st, true), p, q);
    } else if c == 'f' || c == 'F' {
      operands.Push(false);
      assert Run(rest, st, p, q) == Run(expr[i + 1..], PushOperand(st, false), p, q);
    } else if c == '~' {
      operators.Push([c]);
      assert Run(rest, st, p, q) == Run(expr[i + 1..], PushOperator(st, [c]), p, q);
    } else {
      operators.Push([c]);
      assert Run(rest, st, p, q) == Run(expr[i + 1..], PushOperator(st, [c]), p, q);
    }
  }

  method Evaluate(expr: seq<char>, p: bool, q: bool) returns (r: Option<bool>)
    ensures r == Eval(expr, p, q)
  {
    var operators := new Stack<Token>();
    var operands := new Stack<bool>();

    var i := 0;
    while i < |expr|
      invariant 0 <= i <= |expr|
      invariant Run(expr[i..], State(operators.elems, operands.elems), p, q) == Run(expr, Initial, p, q)
    {
      var c := expr[i];
      ghost var rest := expr[i..];
      assert rest[0] == c && rest[1..] == expr[i + 1..];
      if IsAtomChar(c) || c == '~' || c == '(' {
        ReadSingle(expr, i, p, q, operators, operands);
      } else if c == ')' {
        var ok := CloseGroup(rest, p, q, operators, operands);
        if !ok {
          return None;
        }
      } else {
        var ok, last := ReadOperator(expr, i, p, q, operators, operands);
        if !ok {
          return None;
        }
        i := last;
      }
      i := i + 1;
    }

    assert expr[i..] == [];
    r := Conclude(operators, operands);
  }
}
