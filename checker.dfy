/**
  `evaluateExpressions` (MainActivity.java:55-76): validate both
  expressions, then evaluate them on the four rows of the truth table for
  `p` and `q`, stopping at the first row where they differ. The HTML the
  source assembles is replaced by a `Report` holding the same rows, and an
  `EmptyStackException` escaping `evaluate` becomes `Underflow`.
 */
module Checker {
  import opened Wrappers
  import opened Symbols
  import opened Validator
  import opened Evaluator
  import opened Formulas

  /** One line of the truth table: `p`, `q`, then the two values. */
  datatype Row = Row(p: bool, q: bool, v1: bool, v2: bool)

  datatype Report =
    | Invalid                       // "Invalid expression(s)"
    | Equivalent(rows: seq<Row>)    // "The expressions are logically equivalent."
    | NotEquivalent(rows: seq<Row>) // "The expressions are not logically equivalent."
    | Underflow                     // `evaluate` threw on some row

  /** The rows of the table, in the source's order. */
  const PValues: seq<bool> := [true, true, false, false]
  const QValues: seq<bool> := [true, false, true, false]

  /** What `evaluate` returns for `e` on each of the four rows, `None`
      where it throws. */
  function Column(e: seq<char>): (c: seq<Option<bool>>)
    ensures |c| == 4
  {
    [Eval(e, true, true), Eval(e, true, false), Eval(e, false, true), Eval(e, false, false)]
  }

  /** The loop from row `i` on, with `rows` already appended; `c1` and `c2`
      hold the values of the two expressions. The source evaluates each
      row inside the loop; `evaluate` has no side effects, so reading the
      values from the columns yields the same report. */
  function CheckRows(c1: seq<Option<bool>>, c2: seq<Option<bool>>, i: nat, rows: seq<Row>): Report
    requires |c1| == |c2| == 4 && i <= 4
    decreases 4 - i
  {
    if i == 4 then Equivalent(rows)
    else
      match c1[i]
      case None => Underflow
      case Some(v1) =>
        match c2[i]
        case None => Underflow
        case Some(v2) =>
          var rows' := rows + [Row(PValues[i], QValues[i], v1, v2)];
          if v1 != v2 then NotEquivalent(rows') else CheckRows(c1, c2, i + 1, rows')
  }

  /** What `evaluateExpressions` reports. */
  function Check(e1: seq<char>, e2: seq<char>): Report {
    if !Accepts(e1) || !Accepts(e2) then Invalid else CheckRows(Column(e1), Column(e2), 0, [])
  }

  /** Row `j` of a column is the value of `evaluate` for row `j`'s `p` and `q`. */
  lemma ColumnRow(e: seq<char>, j: nat)
    requires j < 4
    ensures Column(e)[j] == Eval(e, PValues[j], QValues[j])
  {
  }

  method EvaluateExpressions(expr1: seq<char>, expr2: seq<char>) returns (r: Report)
    ensures r == Check(expr1, expr2)
  {
    var valid1 := IsValidExpression(expr1);
    if !valid1 {
      return Invalid;
    }
    var valid2 := IsValidExpression(expr2);
    if !valid2 {
      return Invalid;
    }

    var p := PValues;
    var q := QValues;
    var truthTable: seq<Row> := [];
    ghost var c1, c2 := Column(expr1), Column(expr2);

    for i := 0 to 4
      invariant CheckRows(c1, c2, i, truthTable) == Check(expr1, expr2)
    {
      ColumnRow(expr1, i);
      ColumnRow(expr2, i);
      var val1 := Evaluate(expr1, p[i], q[i]);
      if val1.None? {
        return Underflow;
      }
      var val2 := Evaluate(expr2, p[i], q[i]);
      if val2.None? {
        return Underflow;
      }
      truthTable := truthTable + [Row(p[i], q[i], val1.value, val2.value)];
      if val1.value != val2.value {
        return NotEquivalent(truthTable);
      }
    }

    return Equivalent(truthTable);
  }

  // ---------------------------------------------------------------------
  // What the report means.
  // ---------------------------------------------------------------------

  /** The rows hold, in order, the table's `p` and `q` and the two
      columns' values. */
  predicate Tabulates(c1: seq<Option<bool>>, c2: seq<Option<bool>>, rows: seq<Row>)
    requires |c1| == |c2| == 4
  {
    && |rows| <= 4
    && forall j :: 0 <= j < |rows| ==>
         && rows[j].p == PValues[j] && rows[j].q == QValues[j]
         && c1[j] == Some(rows[j].v1) && c2[j] == Some(rows[j].v2)
  }

  /** All rows agree. */
  predicate Agree(rows: seq<Row>) {
    forall j :: 0 <= j < |rows| ==> rows[j].v1 == rows[j].v2
  }

  /** Both columns hold a value, the same one, on the rows before `k`. */
  predicate AgreeBefore(c1: seq<Option<bool>>, c2: seq<Option<bool>>, k: nat)
    requires |c1| == |c2| == 4 && k <= 4
  {
    forall j :: 0 <= j < k ==> c1[j].Some? && c1[j] == c2[j]
  }

  /** Appending the next row keeps the table in step with the columns. */
  lemma TabulatesAppend(c1: seq<Option<bool>>, c2: seq<Option<bool>>, rows: seq<Row>, v1: bool, v2: bool)
    requires |c1| == |c2| == 4 && Tabulates(c1, c2, rows) && |rows| < 4
    requires c1[|rows|] == Some(v1) && c2[|rows|] == Some(v2)
    ensures Tabulates(c1, c2, rows + [Row(PValues[|rows|], QValues[|rows|], v1, v2)])
  {
    var rows' := rows + [Row(PValues[|rows|], QValues[|rows|], v1, v2)];
    forall j | 0 <= j < |rows'|
      ensures rows'[j].p == PValues[j] && rows'[j].q == QValues[j]
      ensures c1[j] == Some(rows'[j].v1) && c2[j] == Some(rows'[j].v2)
    {
      if j < |rows| {
        assert rows'[j] == rows[j];
      }
    }
  }

  /** The loop never reports `Invalid`. */
  lemma {:induction false} CheckRowsNotInvalid(c1: seq<Option<bool>>, c2: seq<Option<bool>>, i: nat, rows: seq<Row>)
    requires |c1| == |c2| == 4 && i <= 4
    ensures CheckRows(c1, c2, i, rows) != Invalid
    decreases 4 - i
  {
    if i < 4 && c1[i].Some? && c2[i].Some? && c1[i] == c2[i] {
      CheckRowsNotInvalid(c1, c2, i + 1, rows + [Row(PValues[i], QValues[i], c1[i].value, c2[i].value)]);
    }
  }

  /** An `Equivalent` report from row `i` on extends the agreeing rows to
      all four. */
  lemma {:induction false} CheckRowsEquivalent(c1: seq<Option<bool>>, c2: seq<Option<bool>>, i: nat, rows: seq<Row>)
    requires |c1| == |c2| == 4 && i <= 4 && |rows| == i && Tabulates(c1, c2, rows) && Agree(rows)
    requires CheckRows(c1, c2, i, rows).Equivalent?
    ensures var rs := CheckRows(c1, c2, i, rows).rows;
            |rs| == 4 && Tabulates(c1, c2, rs) && Agree(rs)
    decreases 4 - i
  {
    if i < 4 {
      var v1, v2 := c1[i].value, c2[i].value;
      var rows' := rows + [Row(PValues[i], QValues[i], v1, v2)];
      TabulatesAppend(c1, c2, rows, v1, v2);
      assert Agree(rows');
      CheckRowsEquivalent(c1, c2, i + 1, rows');
    }
  }

  lemma AgreeAppend(rows: seq<Row>, row: Row)
    requires Agree(rows) && row.v1 == row.v2
    ensures Agree(rows + [row])
  {
    forall j | 0 <= j < |rows| + 1
      ensures (rows + [row])[j].v1 == (rows + [row])[j].v2
    {
      if j < |rows| {
        assert (rows + [row])[j] == rows[j];
      }
    }
  }

  /** A `NotEquivalent` report from row `i` on ends with the first row
      that differs, all rows before it agreeing. */
  lemma {:induction false} CheckRowsNotEquivalent(c1: seq<Option<bool>>, c2: seq<Option<bool>>, i: nat, rows: seq<Row>)
    requires |c1| == |c2| == 4 && i <= 4 && |rows| == i && Tabulates(c1, c2, rows) && Agree(rows)
    requires CheckRows(c1, c2, i, rows).NotEquivalent?
    ensures var rs := CheckRows(c1, c2, i, rows).rows;
            && i < |rs| <= 4 && Tabulates(c1, c2, rs)
            && Agree(rs[..|rs| - 1]) && rs[|rs| - 1].v1 != rs[|rs| - 1].v2
    decreases 4 - i
  {
    var v1, v2 := c1[i].value, c2[i].value;
    var row := Row(PValues[i], QValues[i], v1, v2);
    TabulatesAppend(c1, c2, rows, v1, v2);
    if v1 == v2 {
      AgreeAppend(rows, row);
      CheckRowsNotEquivalent(c1, c2, i + 1, rows + [row]);
    } else {
      assert (rows + [row])[..|rows|] == rows;
    }
  }

  /** An `Equivalent` report holds the four rows, each as `evaluate`
      computes it and each with equal values; a `NotEquivalent` report
      holds the rows up to the first that differs, which is its last. */
  lemma ReportRows(e1: seq<char>, e2: seq<char>)
    ensures Check(e1, e2).Equivalent? ==>
              var rs := Check(e1, e2).rows;
              |rs| == 4 && Tabulates(Column(e1), Column(e2), rs) && Agree(rs)
    ensures Check(e1, e2).NotEquivalent? ==>
              var rs := Check(e1, e2).rows;
              && 1 <= |rs| <= 4 && Tabulates(Column(e1), Column(e2), rs)
              && Agree(rs[..|rs| - 1]) && rs[|rs| - 1].v1 != rs[|rs| - 1].v2
  {
    var c1, c2 := Column(e1), Column(e2);
    if Accepts(e1) && Accepts(e2) && CheckRows(c1, c2, 0, []).Equivalent? {
      CheckRowsEquivalent(c1, c2, 0, []);
    }
    if Accepts(e1) && Accepts(e2) && CheckRows(c1, c2, 0, []).NotEquivalent? {
      CheckRowsNotEquivalent(c1, c2, 0, []);
    }
  }

  /** The report is `Invalid` exactly when one of the expressions fails the
      syntax check. */
  lemma InvalidIffRejected(e1: seq<char>, e2: seq<char>)
    ensures Check(e1, e2) == Invalid <==> !Accepts(e1) || !Accepts(e2)
  {
    if Accepts(e1) && Accepts(e2) {
      CheckRowsNotInvalid(Column(e1), Column(e2), 0, []);
    }
  }

  lemma {:induction false} CheckRowsOutcome(c1: seq<Option<bool>>, c2: seq<Option<bool>>, i: nat, rows: seq<Row>)
    requires |c1| == |c2| == 4 && i <= 4 && AgreeBefore(c1, c2, i)
    ensures CheckRows(c1, c2, i, rows).Equivalent? <==> AgreeBefore(c1, c2, 4)
    ensures CheckRows(c1, c2, i, rows) == Underflow <==>
            exists k :: i <= k < 4 && AgreeBefore(c1, c2, k) && (c1[k].None? || c2[k].None?)
    decreases 4 - i
  {
    if i < 4 {
      if c1[i].None? || c2[i].None? {
        assert !AgreeBefore(c1, c2, 4);
      } else if c1[i] != c2[i] {
        assert !AgreeBefore(c1, c2, 4);
        forall k | i <= k < 4 && AgreeBefore(c1, c2, k)
          ensures c1[k].Some? && c2[k].Some?
        {
          assert k == i;
        }
      } else {
        var rows' := rows + [Row(PValues[i], QValues[i], c1[i].value, c2[i].value)];
        assert AgreeBefore(c1, c2, i + 1);
        CheckRowsOutcome(c1, c2, i + 1, rows');
        forall k | i <= k < 4 && AgreeBefore(c1, c2, k) && k == i
          ensures c1[k].Some? && c2[k].Some?
        {
        }
      }
    }
  }

  /** The four rows cover every pair of values of `p` and `q`. */
  lemma AllRows(e1: seq<char>, e2: seq<char>)
    ensures AgreeBefore(Column(e1), Column(e2), 4) <==>
            forall p, q :: Eval(e1, p, q).Some? && Eval(e1, p, q) == Eval(e2, p, q)
  {
    var c1, c2 := Column(e1), Column(e2);
    if AgreeBefore(c1, c2, 4) {
      forall p, q
        ensures Eval(e1, p, q).Some? && Eval(e1, p, q) == Eval(e2, p, q)
      {
        var j := if p && q then 0 else if p then 1 else if q then 2 else 3;
        assert c1[j].Some? && c1[j] == c2[j];
      }
    }
  }

  /** The report is `Equivalent` exactly when both expressions pass the
      syntax check and evaluate, without throwing, to the same value for
      every `p` and `q`. */
  lemma EquivalentIff(e1: seq<char>, e2: seq<char>)
    ensures Check(e1, e2).Equivalent? <==>
            && Accepts(e1) && Accepts(e2)
            && forall p, q :: Eval(e1, p, q).Some? && Eval(e1, p, q) == Eval(e2, p, q)
  {
    AllRows(e1, e2);
    if Accepts(e1) && Accepts(e2) {
      CheckRowsOutcome(Column(e1), Column(e2), 0, []);
    }
  }

  /** The report is `Underflow` exactly when both expressions pass the
      syntax check and, at the first row where they do not both evaluate
      to the same value, one of them throws. */
  lemma UnderflowIff(e1: seq<char>, e2: seq<char>)
    ensures Check(e1, e2) == Underflow <==>
            && Accepts(e1) && Accepts(e2)
            && exists k :: 0 <= k < 4 && AgreeBefore(Column(e1), Column(e2), k) &&
                 (Column(e1)[k].None? || Column(e2)[k].None?)
  {
    if Accepts(e1) && Accepts(e2) {
      CheckRowsOutcome(Column(e1), Column(e2), 0, []);
    }
  }

  /** Exchanging the two expressions keeps an `Equivalent` verdict. */
  lemma EquivalentSymmetric(e1: seq<char>, e2: seq<char>)
    ensures Check(e1, e2).Equivalent? <==> Check(e2, e1).Equivalent?
  {
    EquivalentIff(e1, e2);
    EquivalentIff(e2, e1);
  }

  /** The truth values of a formula on the four rows, as a column. */
  function Truths(f: Formula): (c: seq<Option<bool>>)
    ensures |c| == 4
  {
    [Some(Denote(f, true, true)), Some(Denote(f, true, false)), Some(Denote(f, false, true)), Some(Denote(f, false, false))]
  }

  /** A printed formula without `<->` evaluates on every row, to its value. */
  lemma PrintedColumn(f: Formula)
    requires NoIff(f)
    ensures Column(Print(f)) == Truths(f)
  {
    EvalPrinted(f, true, true);
    EvalPrinted(f, true, false);
    EvalPrinted(f, false, true);
    EvalPrinted(f, false, false);
  }

  /** Columns holding a value on every row report `Equivalent` or
      `NotEquivalent`, and `Equivalent` exactly when they are equal. */
  lemma TotalColumns(c1: seq<Option<bool>>, c2: seq<Option<bool>>)
    requires |c1| == |c2| == 4
    requires forall j :: 0 <= j < 4 ==> c1[j].Some? && c2[j].Some?
    ensures CheckRows(c1, c2, 0, []).Equivalent? || CheckRows(c1, c2, 0, []).NotEquivalent?
    ensures CheckRows(c1, c2, 0, []).Equivalent? <==> c1 == c2
  {
    CheckRowsOutcome(c1, c2, 0, []);
    CheckRowsNotInvalid(c1, c2, 0, []);
    if AgreeBefore(c1, c2, 4) {
      assert c1 == c2;
    }
  }

  /** Two formulas' columns of truth values are equal exactly when the
      formulas are logically equivalent. */
  lemma ColumnsOfEquivalent(f: Formula, g: Formula)
    requires LogicallyEquivalent(f, g)
    ensures Truths(f) == Truths(g)
  {
    assert Denote(f, true, true) == Denote(g, true, true);
    assert Denote(f, true, false) == Denote(g, true, false);
    assert Denote(f, false, true) == Denote(g, false, true);
    assert Denote(f, false, false) == Denote(g, false, false);
  }

  lemma EquivalentOfColumns(f: Formula, g: Formula)
    requires Truths(f) == Truths(g)
    ensures LogicallyEquivalent(f, g)
  {
    forall p: bool, q: bool
      ensures Denote(f, p, q) == Denote(g, p, q)
    {
      var j := if p && q then 0 else if p then 1 else if q then 2 else 3;
      assert Truths(f)[j] == Some(Denote(f, p, q));
      assert Truths(g)[j] == Some(Denote(g, p, q));
    }
  }

  lemma DenotedColumns(f: Formula, g: Formula)
    ensures Truths(f) == Truths(g) <==> LogicallyEquivalent(f, g)
  {
    if LogicallyEquivalent(f, g) {
      ColumnsOfEquivalent(f, g);
    }
    if Truths(f) == Truths(g) {
      EquivalentOfColumns(f, g);
    }
  }

  /** Two accepted expressions that evaluate on every row as `f` and `g`
      are compared as the formulas' truth tables. */
  lemma ComparedAsFormulas(e1: seq<char>, e2: seq<char>, f: Formula, g: Formula)
    requires Accepts(e1) && Accepts(e2)
    requires Column(e1) == Truths(f) && Column(e2) == Truths(g)
    ensures Check(e1, e2).Equivalent? || Check(e1, e2).NotEquivalent?
    ensures Check(e1, e2).Equivalent? <==> LogicallyEquivalent(f, g)
  {
    TotalColumns(Truths(f), Truths(g));
    DenotedColumns(f, g);
  }

  /** For fully parenthesised formulas without `<->`, the report is never
      `Invalid` or `Underflow`, and is `Equivalent` exactly when the two
      formulas are logically equivalent. */
  lemma PrintedFormulasCompared(f: Formula, g: Formula)
    requires NoIff(f) && NoIff(g)
    ensures Check(Print(f), Print(g)).Equivalent? || Check(Print(f), Print(g)).NotEquivalent?
    ensures Check(Print(f), Print(g)).Equivalent? <==> LogicallyEquivalent(f, g)
  {
    PrintedAccepted(f);
    PrintedAccepted(g);
    PrintedColumn(f);
    PrintedColumn(g);
    ComparedAsFormulas(Print(f), Print(g), f, g);
  }
}
