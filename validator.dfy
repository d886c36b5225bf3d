/**
  `isValidExpression` (MainActivity.java:78-119): a one-pass syntax check
  that tracks whether the previous character left an operand expected
  ("prevCharIsOperator"), a counter of open parentheses and a stack of the
  pending `(` characters.
 */
module Validator {
  import opened Wrappers
  import opened Symbols
  import opened Stacks

  /** The scanner's state between two characters. */
  datatype ScanState = ScanState(prevIsOperator: bool, open: int)

  /** One iteration of the validator's loop: the new state, or `None` where
      the source returns false. */
  function Step(c: char, st: ScanState): Option<ScanState> {
    if c !in ValidCharacters then None
    else if c == '(' then
      if !st.prevIsOperator then None else Some(ScanState(st.prevIsOperator, st.open + 1))
    else if c == ')' then
      if st.open == 0 || st.prevIsOperator then None else Some(ScanState(st.prevIsOperator, st.open - 1))
    else if IsAtomChar(c) then
      if !st.prevIsOperator then None else Some(ScanState(false, st.open))
    else
      Some(ScanState(true, st.open))
  }

  /** Runs the loop over `s` from state `st`, then applies the final test. */
  function Scan(s: seq<char>, st: ScanState): bool
    decreases |s|
  {
    if s == [] then st.open == 0 && !st.prevIsOperator
    else
      match Step(s[0], st)
      case None => false
      case Some(st') => Scan(s[1..], st')
  }

  const Start := ScanState(true, 0)

  /** What `isValidExpression` returns. */
  predicate Accepts(s: seq<char>) {
    Scan(s, Start)
  }

  /** The stack of pending `(` characters, as many as the counter says. */
  predicate PendingOpen(stack: Stack<char>, openParentheses: int)
    reads stack
  {
    && 0 <= openParentheses == |stack.elems|
    && forall k :: 0 <= k < |stack.elems| ==> stack.elems[k] == '('
  }

  /** One iteration of the loop (MainActivity.java:85-111): `ok` is false
      where the source returns false, otherwise the flag and the counter
      are updated as `Step` says and the stack follows the counter. */
  method ScanCharacter(c: char, prevCharIsOperator: bool, openParentheses: int, stack: Stack<char>)
    returns (ok: bool, prev: bool, open: int)
    requires PendingOpen(stack, openParentheses)
    modifies stack
    ensures ok == Step(c, ScanState(prevCharIsOperator, openParentheses)).Some?
    ensures ok ==> Step(c, ScanState(prevCharIsOperator, openParentheses)) == Some(ScanState(prev, open))
    ensures ok ==> PendingOpen(stack, open)
  {
    prev, open := prevCharIsOperator, openParentheses;
    if c !in ValidCharacters {
      return false, prev, open;
    }
    if c == '(' {
      if !prevCharIsOperator {
        return false, prev, open;
      }
      open := open + 1;
      stack.Push(c);
    } else if c == ')' {
      if openParentheses == 0 || prevCharIsOperator {
        return false, prev, open;
      }
      open := open - 1;
      var _ := stack.Pop();
    } else if c == 'p' || c == 'q' || c == 't' || c == 'f' || c == 'P' || c == 'Q' || c == 'T' || c == 'F' {
      if !prevCharIsOperator {
        return false, prev, open;
      }
      prev := false;
    } else {
      prev := true;
    }
    ok := true;
  }

  method IsValidExpression(expression: seq<char>) returns (valid: bool)
    ensures valid == Accepts(expression)
  {
    var openParentheses := 0;
    var stack := new Stack<char>();
    var prevCharIsOperator := true;

    for i := 0 to |expression|
      invariant PendingOpen(stack, openParentheses)
      invariant Scan(expression[i..], ScanState(prevCharIsOperator, openParentheses)) == Accepts(expression)
    {
      var c := expression[i];
      assert expression[i..][0] == c && expression[i..][1..] == expression[i + 1..];
      var ok;
      ok, prevCharIsOperator, openParentheses := ScanCharacter(c, prevCharIsOperator, openParentheses, stack);
      if !ok {
        return false;
      }
    }

    valid := openParentheses == 0 && !prevCharIsOperator;
  }

  // ---------------------------------------------------------------------
  // A declarative description of the accepted strings.
  // ---------------------------------------------------------------------

  function Delta(c: char): int {
    if c == '(' then 1 else if c == ')' then -1 else 0
  }

  /** Number of `(` minus number of `)`. */
  function Depth(s: seq<char>): int {
    if s == [] then 0 else Depth(s[..|s| - 1]) + Delta(s[|s| - 1])
  }

  /** An operand (or `(`) is expected at position `i`: at the start, or
      right after `(` or an operator character. */
  predicate ExpectsOperand(s: seq<char>, i: int)
    requires 0 <= i <= |s|
  {
    i == 0 || s[i - 1] == '(' || IsOperatorChar(s[i - 1])
  }

  /** The conditions position `i` must meet. Nothing is required of the
      character before an operator character. */
  predicate LocallyOk(s: seq<char>, i: int)
    requires 0 <= i < |s|
  {
    && s[i] in ValidCharacters
    && ((s[i] == '(' || IsAtomChar(s[i])) ==> ExpectsOperand(s, i))
    && (s[i] == ')' ==> !ExpectsOperand(s, i) && Depth(s[..i]) > 0)
  }

  predicate WellFormed(s: seq<char>) {
    && (forall i :: 0 <= i < |s| ==> LocallyOk(s, i))
    && Depth(s) == 0
    && !ExpectsOperand(s, |s|)
  }

  lemma {:induction false} PrefixDepthNonNegative(s: seq<char>, i: int)
    requires 0 <= i <= |s|
    requires forall j :: 0 <= j < i ==> LocallyOk(s, j)
    ensures Depth(s[..i]) >= 0
  {
    if i > 0 {
      PrefixDepthNonNegative(s, i - 1);
      assert s[..i][..i - 1] == s[..i - 1];
      assert LocallyOk(s, i - 1);
      assert Depth(s[..i]) == Depth(s[..i - 1]) + Delta(s[i - 1]);
    }
  }

  lemma {:induction false} ScanFrom(s: seq<char>, i: int)
    requires 0 <= i <= |s|
    requires forall j :: 0 <= j < i ==> LocallyOk(s, j)
    ensures Scan(s[i..], ScanState(ExpectsOperand(s, i), Depth(s[..i]))) == WellFormed(s)
    decreases |s| - i
  {
    var st := ScanState(ExpectsOperand(s, i), Depth(s[..i]));
    if i == |s| {
      assert s[..i] == s;
    } else {
      PrefixDepthNonNegative(s, i);
      var c := s[i];
      assert s[i..][0] == c && s[i..][1..] == s[i + 1..];
      assert s[..i + 1][..i] == s[..i];
      if LocallyOk(s, i) {
        assert Step(c, st) == Some(ScanState(ExpectsOperand(s, i + 1), Depth(s[..i + 1])));
        ScanFrom(s, i + 1);
      } else {
        assert Step(c, st) == None;
      }
    }
  }

  /** The validator accepts exactly the well-formed strings. */
  lemma AcceptsIffWellFormed(s: seq<char>)
    ensures Accepts(s) <==> WellFormed(s)
  {
    ScanFrom(s, 0);
    assert s[0..] == s;
  }

  // ---------------------------------------------------------------------
  // Rejections.
  // ---------------------------------------------------------------------

  /** A character outside `ValidCharacters` (whitespace included) anywhere
      makes the string invalid. */
  lemma RejectsForeignCharacter(s: seq<char>, i: int)
    requires 0 <= i < |s| && (s[i] !in ValidCharacters || IsWhitespace(s[i]))
    ensures !Accepts(s)
  {
    AcceptsIffWellFormed(s);
    assert !LocallyOk(s, i);
  }

  /** The empty string, a string ending in an operator character or `(`,
      and a string with a `(` never closed are rejected. */
  lemma RejectsIncomplete(s: seq<char>)
    requires s == [] || IsOperatorChar(s[|s| - 1]) || s[|s| - 1] == '(' || Depth(s) != 0
    ensures !Accepts(s)
  {
    AcceptsIffWellFormed(s);
  }

  /** A `)` with no pending `(` is rejected: in an accepted string no
      prefix closes more parentheses than it opens. */
  lemma AcceptedDepths(s: seq<char>)
    requires Accepts(s)
    ensures Depth(s) == 0
    ensures forall i :: 0 <= i <= |s| ==> Depth(s[..i]) >= 0
  {
    AcceptsIffWellFormed(s);
    forall i | 0 <= i <= |s|
      ensures Depth(s[..i]) >= 0
    {
      PrefixDepthNonNegative(s, i);
    }
  }

  /** An operand or `)` directly followed by an operand or `(` is rejected
      (`pq`, `p(`, `(p)(q)`). */
  lemma RejectsMissingOperator(s: seq<char>, i: int)
    requires 0 <= i < |s| - 1
    requires IsAtomChar(s[i]) || s[i] == ')'
    requires IsAtomChar(s[i + 1]) || s[i + 1] == '('
    ensures !Accepts(s)
  {
    AcceptsIffWellFormed(s);
    assert !LocallyOk(s, i + 1);
  }

  /** A `)` at the start, right after `(` or right after an operator
      character is rejected (`()`, `(p&)`). */
  lemma RejectsMissingOperand(s: seq<char>, i: int)
    requires 0 <= i < |s| && s[i] == ')'
    requires i == 0 || s[i - 1] == '(' || IsOperatorChar(s[i - 1])
    ensures !Accepts(s)
  {
    AcceptsIffWellFormed(s);
    assert !LocallyOk(s, i);
  }

  // ---------------------------------------------------------------------
  // Operator characters are accepted wherever an operand may follow.
  // ---------------------------------------------------------------------

  /** The state after scanning a prefix, or `None` if the loop returned. */
  function ScanPrefix(a: seq<char>, st: ScanState): Option<ScanState>
    decreases |a|
  {
    if a == [] then Some(st)
    else
      match Step(a[0], st)
      case None => None
      case Some(st') => ScanPrefix(a[1..], st')
  }

  lemma {:induction false} ScanAppend(a: seq<char>, b: seq<char>, st: ScanState)
    ensures Scan(a + b, st) == (ScanPrefix(a, st).Some? && Scan(b, ScanPrefix(a, st).value))
    decreases |a|
  {
    if a == [] {
      assert a + b == b;
    } else {
      assert (a + b)[0] == a[0] && (a + b)[1..] == a[1..] + b;
      match Step(a[0], st)
      case None =>
      case Some(st') => ScanAppend(a[1..], b, st');
    }
  }

  /** A run of operator characters is validated like a single one, so
      `p&&q`, `p~q` and `p-q` pass whenever `p&q` does. */
  lemma OperatorRunAccepted(a: seq<char>, c: char, d: char, b: seq<char>)
    requires IsOperatorChar(c) && IsOperatorChar(d)
    ensures Accepts(a + [c, d] + b) == Accepts(a + [c] + b)
  {
    assert a + [c, d] + b == a + ([c, d] + b);
    assert a + [c] + b == a + ([c] + b);
    ScanAppend(a, [c, d] + b, Start);
    ScanAppend(a, [c] + b, Start);
    match ScanPrefix(a, Start)
    case None =>
    case Some(st) =>
      assert ([c, d] + b)[0] == c && ([c, d] + b)[1..] == [d] + b;
      assert ([d] + b)[0] == d && ([d] + b)[1..] == b;
      assert ([c] + b)[0] == c && ([c] + b)[1..] == b;
  }

  /** An operator character in front of an accepted string keeps it
      accepted: nothing checks what precedes an operator (`&p`). */
  lemma LeadingOperatorAccepted(c: char, s: seq<char>)
    requires IsOperatorChar(c)
    ensures Accepts([c] + s) == Accepts(s)
  {
    assert ([c] + s)[0] == c && ([c] + s)[1..] == s;
  }
}
