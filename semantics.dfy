/** What a predicate tree means when the database applies it to one row:
    SQL's three-valued logic, where a comparison with NULL, or between values
    the database does not order against each other, is UNKNOWN (None). This
    is the reference the query-builder predicates are proved against. */
module Semantics {
  import opened Text
  import opened Values
  import opened Nodes

  /** One row of the builder's table: column name to value; a column the
      row does not hold reads as NULL. */
  type Row = map<string, Scalar>

  function Lookup(row: Row, name: string): Scalar
  {
    if name in row then row[name] else Nil
  }

  /** The value an operand denotes in a row: a column's value, or the
      literal; any other node denotes NULL here. */
  function ValueOf(n: Node, row: Row): Scalar
  {
    match n
    case Attribute(_, name) => Lookup(row, name)
    case Quoted(v) => v
    case Bare(v) => v
    case _ => Nil
  }

  /** Whether a comparison outcome (-1, 0 or 1) satisfies the operator. */
  predicate Satisfies(op: CompareOp, c: int)
  {
    match op
    case Eq => c == 0
    case Lt => c < 0
    case Gt => c > 0
    case LtEq => c <= 0
    case GtEq => c >= 0
  }

  /** `a op b`: UNKNOWN unless the two values are comparable. */
  function CompareIn(op: CompareOp, a: Scalar, b: Scalar): (r: Option<bool>)
    ensures r.Some? <==> SameKind(a, b)
  {
    match CompareValues(a, b)
    case None => None
    case Some(c) => Some(Satisfies(op, c))
  }

  /** SQL AND: FALSE wins, then UNKNOWN. */
  function And3(a: Option<bool>, b: Option<bool>): (r: Option<bool>)
    ensures r == Some(true) <==> a == Some(true) && b == Some(true)
    ensures r == Some(false) <==> a == Some(false) || b == Some(false)
  {
    if a == Some(false) || b == Some(false) then Some(false)
    else if a == Some(true) && b == Some(true) then Some(true)
    else None
  }

  /** SQL OR: TRUE wins, then UNKNOWN. */
  function Or3(a: Option<bool>, b: Option<bool>): (r: Option<bool>)
    ensures r == Some(true) <==> a == Some(true) || b == Some(true)
    ensures r == Some(false) <==> a == Some(false) && b == Some(false)
  {
    if a == Some(true) || b == Some(true) then Some(true)
    else if a == Some(false) && b == Some(false) then Some(false)
    else None
  }

  /** The truth of a predicate node in a row: TRUE, FALSE or UNKNOWN (None).
      `x = NULL` is Arel's `x IS NULL`; `x BETWEEN lo AND hi` is
      `x >= lo AND x <= hi`. */
  function Eval(n: Node, row: Row): Option<bool>
    decreases n
  {
    match n
    case Compare(op, l, r) =>
      if op == Eq && IsNil(r) then Some(ValueOf(l, row) == Nil)
      else CompareIn(op, ValueOf(l, row), ValueOf(r, row))
    case Between(l, r) =>
      if r.And? && |r.children| == 2 then
        And3(CompareIn(GtEq, ValueOf(l, row), ValueOf(r.children[0], row)),
             CompareIn(LtEq, ValueOf(l, row), ValueOf(r.children[1], row)))
      else None
    case And(cs) => EvalAll(cs, row)
    case Or(l, r) => Or3(Eval(l, row), Eval(r, row))
    case Grouping(e) => Eval(e, row)
    case _ => None
  }

  /** The conjunction of every child. */
  function EvalAll(cs: seq<Node>, row: Row): Option<bool>
    decreases cs, 0
  {
    if |cs| == 0 then Some(true) else And3(EvalAll(cs[..|cs| - 1], row), Eval(cs[|cs| - 1], row))
  }

  /** A two-child conjunction holds exactly when both children hold. */
  lemma EvalPair(a: Node, b: Node, row: Row)
    ensures EvalAll([a, b], row) == And3(Eval(a, row), Eval(b, row))
  {
    assert [a, b][..1] == [a];
    assert [a][..0] == [];
    assert EvalAll([a], row) == And3(Some(true), Eval(a, row));
    match Eval(a, row)
    case None =>
    case Some(_) =>
  }
}
