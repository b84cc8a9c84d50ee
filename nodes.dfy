/** The Arel expression tree the helpers build and Arel's PostgreSQL visitor
    that prints it, including the two visitor rules this library adds: the
    text-array rule and the four JSON infix rules. */
module Nodes {
  import opened Text
  import opened Values

  datatype CompareOp = Eq | Lt | Gt | LtEq | GtEq

  /** The four JSON operator node classes. */
  datatype JsonKind = JSONGet | JSONGetAsText | JSONGetByPath | JSONGetByPathAsText

  datatype Node =
    | Attribute(relation: string, name: string)     // arel_table[:name]
    | Quoted(value: Scalar)                          // Nodes::Quoted / Nodes::Casted
    | SqlLiteral(text: string)                       // Arel.sql(text)
    | Bare(raw: Scalar)                              // a raw Ruby value left in the tree
    | ArrayValue(elements: seq<Node>)                // a raw Ruby Array left in the tree
    | NamedFunction(name: string, args: seq<Node>)
    | Sum(exprs: seq<Node>)
    | Case(conditions: seq<Node>, default: Option<Node>)
    | When(condition: Node, result: Node)
    | Compare(op: CompareOp, left: Node, right: Node)
    | Between(left: Node, right: Node)
    | And(children: seq<Node>)
    | Or(left: Node, right: Node)
    | Grouping(expr: Node)
    | As(left: Node, right: Node)
    | TableAlias(aliased: Node, alias: string)
    | Ascending(expr: Node)
    | Descending(expr: Node)
    | TextArray(values: seq<Node>)
    | JSONOperator(kind: JsonKind, left: Node, right: Node)

  /** A Ruby argument where a node or a plain value may be passed. A plain
      Ruby value is always a `ValArg`: `Bare` and `ArrayValue` are what the
      builder itself leaves in a tree, never a node a caller passes in. */
  datatype Arg = NodeArg(node: Node) | ValArg(value: Scalar)

  /** A Ruby argument that may also be a (nested) Array. */
  datatype Item = Leaf(arg: Arg) | List(items: seq<Item>)

  /** `Arel::Nodes.build_quoted`: a node is kept, a plain value is wrapped
      to be quoted when printed. */
  function BuildQuoted(a: Arg): (r: Node)
    ensures a.NodeArg? ==> r == a.node
    ensures a.ValArg? ==> r == Quoted(a.value)
  {
    match a
    case NodeArg(n) => n
    case ValArg(v) => Quoted(v)
  }

  /** An argument stored in the tree as it is, without `build_quoted`. */
  function RawNode(a: Arg): Node
  {
    match a
    case NodeArg(n) => n
    case ValArg(v) => Bare(v)
  }

  /** A Ruby value, nested Arrays included, stored in the tree as it is. */
  function RawItem(it: Item): Node
  {
    match it
    case Leaf(a) => RawNode(a)
    case List(items) => ArrayValue(RawItems(items))
  }

  function RawItems(items: seq<Item>): (r: seq<Node>)
    ensures |r| == |items|
  {
    if |items| == 0 then [] else RawItems(items[..|items| - 1]) + [RawItem(items[|items| - 1])]
  }

  /** Every item is stored as it is, in order. */
  lemma {:induction false} RawItemsEach(items: seq<Item>)
    ensures forall i :: 0 <= i < |items| ==> RawItems(items)[i] == RawItem(items[i])
  {
    if |items| > 0 {
      RawItemsEach(items[..|items| - 1]);
    }
  }

  /** `Array#flatten`: the non-list leaves, left to right. */
  function Flatten(items: seq<Item>): seq<Arg>
    decreases items, 1
  {
    if |items| == 0 then [] else Flatten(items[..|items| - 1]) + Leaves(items[|items| - 1])
  }

  /** The non-list leaves of one item, left to right. */
  function Leaves(it: Item): seq<Arg>
    decreases it, 0
  {
    match it
    case Leaf(a) => [a]
    case List(inner) => Flatten(inner)
  }

  // ------------------------------------------------------------- rendering

  /** `a`, then `sep`, then `b`, failing with the first failure. */
  function Infix(a: Result<string>, sep: string, b: Result<string>): Result<string>
  {
    match a
    case Err(e) => Err(e)
    case Ok(x) =>
      match b
      case Err(e) => Err(e)
      case Ok(y) => Ok(x + sep + y)
  }

  /** `r` between `pre` and `post`, or the failure of `r`. */
  function Around(pre: string, r: Result<string>, post: string): Result<string>
  {
    match r
    case Err(e) => Err(e)
    case Ok(x) => Ok(pre + x + post)
  }

  /** The operator of a comparison with the spaces the visitor puts around it. */
  function OpText(op: CompareOp): string
  {
    match op
    case Eq => " = "
    case Lt => " < "
    case Gt => " > "
    case LtEq => " <= "
    case GtEq => " >= "
  }

  /** The infix text each JSON visitor rule writes between its operands. */
  function JsonInfix(k: JsonKind): string
  {
    match k
    case JSONGet => " -> "
    case JSONGetAsText => " ->> "
    case JSONGetByPath => " #> "
    case JSONGetByPathAsText => " #>> "
  }

  const ArrayStart := "ARRAY["
  const ArraySep := ","
  const ArrayEnd := "]::text[]"

  /** Ruby's `nil?` on a right operand: a quoted or raw nil. */
  predicate IsNil(n: Node)
  {
    n == Quoted(Nil) || n == Bare(Nil)
  }

  /** The SQL text of a node, as the PostgreSQL visitor prints it, or the
      first raw value it cannot print. Raw Integers print as digits. */
  function Render(n: Node): Result<string>
    decreases n
  {
    match n
    case Attribute(rel, name) => Ok(QuoteTableName(rel) + "." + QuoteColumnName(name))
    case Quoted(v) => Ok(Quote(v))
    case SqlLiteral(t) => Ok(t)
    case Bare(v) => if v.Int? then Ok(IntToString(v.i)) else Err(UnsupportedVisit(v))
    case ArrayValue(es) => RenderJoined(es, ", ")
    case NamedFunction(name, args) => Around(name + "(", RenderJoined(args, ", "), ")")
    case Sum(es) => Around("SUM(", RenderJoined(es, ", "), ")")
    case Case(conds, default) =>
      (match RenderAll(conds)
       case Err(e) => Err(e)
       case Ok(ps) =>
         if default.None? then Ok("CASE " + Terminated(ps, " ") + "END")
         else Around("CASE " + Terminated(ps, " ") + "ELSE ", Render(default.value), " END"))
    case When(c, r) => Around("WHEN ", Infix(Render(c), " THEN ", Render(r)), "")
    case Compare(op, l, r) =>
      if op == Eq && IsNil(r) then Around("", Render(l), " IS NULL")
      else Infix(Render(l), OpText(op), Render(r))
    case Between(l, r) => Infix(Render(l), " BETWEEN ", Render(r))
    case And(cs) => RenderJoined(cs, " AND ")
    case Or(l, r) => Infix(Render(l), " OR ", Render(r))
    case Grouping(e) => if e.Grouping? then Render(e) else Around("(", Render(e), ")")
    case As(l, r) => Infix(Render(l), " AS ", Render(r))
    case TableAlias(rel, name) => Around("", Render(rel), " " + QuoteTableName(name))
    case Ascending(e) => Around("", Render(e), " ASC")
    case Descending(e) => Around("", Render(e), " DESC")
    case TextArray(vs) => Around(ArrayStart, RenderJoined(vs, ArraySep), ArrayEnd)
    case JSONOperator(k, l, r) => Infix(Render(l), JsonInfix(k), Render(r))
  }

  /** Every node rendered, left to right, or the first failure. */
  function RenderAll(ns: seq<Node>): (r: Result<seq<string>>)
    ensures r.Ok? ==> |r.value| == |ns|
    decreases ns, 0
  {
    if |ns| == 0 then Ok([])
    else
      match RenderAll(ns[..|ns| - 1])
      case Err(e) => Err(e)
      case Ok(ps) =>
        match Render(ns[|ns| - 1])
        case Err(e) => Err(e)
        case Ok(p) => Ok(ps + [p])
  }

  function RenderJoined(ns: seq<Node>, sep: string): Result<string>
    decreases ns, 1
  {
    match RenderAll(ns)
    case Err(e) => Err(e)
    case Ok(ps) => Ok(Join(ps, sep))
  }

  /** Rendering a list fails with the failure of the first element that fails. */
  lemma {:induction false} RenderAllPrefixFailure(ns: seq<Node>, k: nat)
    requires k <= |ns| && RenderAll(ns[..k]).Err?
    ensures RenderAll(ns) == RenderAll(ns[..k])
    decreases |ns| - k
  {
    if k < |ns| {
      assert ns[..k + 1][..k] == ns[..k];
      RenderAllPrefixFailure(ns, k + 1);
    } else {
      assert ns[..k] == ns;
    }
  }

  /** A list renders to its elements' texts when every element renders. */
  lemma {:induction false} RenderAllEach(ns: seq<Node>, ps: seq<string>)
    requires |ns| == |ps|
    requires forall i :: 0 <= i < |ns| ==> Render(ns[i]) == Ok(ps[i])
    ensures RenderAll(ns) == Ok(ps)
  {
    if |ns| > 0 {
      var k := |ns| - 1;
      RenderAllEach(ns[..k], ps[..k]);
      assert ps[..k] + [ps[k]] == ps;
    }
  }

  /** Three nodes that render list their three texts in order. */
  lemma RenderAllThree(a: Node, b: Node, c: Node, pa: string, pb: string, pc: string)
    requires Render(a) == Ok(pa) && Render(b) == Ok(pb) && Render(c) == Ok(pc)
    ensures RenderAll([a, b, c]) == Ok([pa, pb, pc])
  {
    RenderAllEach([a, b, c], [pa, pb, pc]);
  }

  /** Four nodes that render list their four texts in order. */
  lemma RenderAllFour(a: Node, b: Node, c: Node, d: Node, pa: string, pb: string, pc: string, pd: string)
    requires Render(a) == Ok(pa) && Render(b) == Ok(pb) && Render(c) == Ok(pc) && Render(d) == Ok(pd)
    ensures RenderAll([a, b, c, d]) == Ok([pa, pb, pc, pd])
  {
    RenderAllEach([a, b, c, d], [pa, pb, pc, pd]);
  }

  /** A WHEN branch prints `WHEN condition THEN result`. */
  lemma WhenRendering(c: Node, r: Node, cs: string, rs: string)
    requires Render(c) == Ok(cs) && Render(r) == Ok(rs)
    ensures Render(When(c, r)) == Ok("WHEN " + cs + " THEN " + rs)
  {
    assert "WHEN " + (cs + " THEN " + rs) + "" == "WHEN " + cs + " THEN " + rs;
  }

  /** A CASE with a single branch prints that branch between `CASE` and
      `END`, with the ELSE part before `END` when there is one. */
  lemma SingleBranchCase(w: Node, d: Option<Node>, ws: string)
    requires Render(w) == Ok(ws)
    ensures d.None? ==> Render(Case([w], d)) == Ok("CASE " + ws + " END")
    ensures d.Some? && Render(d.value).Ok? ==>
              Render(Case([w], d)) == Ok("CASE " + ws + " ELSE " + Render(d.value).value + " END")
  {
    RenderAllEach([w], [ws]);
    OneTerminated(ws);
    if d.None? {
      CaseEndText(ws);
    } else if Render(d.value).Ok? {
      CaseElseText(ws, Render(d.value).value);
    }
  }

  lemma OneTerminated(ws: string)
    ensures Terminated([ws], " ") == ws + " "
  {
    assert [ws][..0] == [];
  }

  lemma CaseEndText(ws: string)
    ensures "CASE " + (ws + " ") + "END" == "CASE " + ws + " END"
  {
    AppendAssoc("CASE ", ws, " ");
    AppendAssoc("CASE " + ws, " ", "END");
    assert " " + "END" == " END";
  }

  lemma CaseElseText(ws: string, ds: string)
    ensures "CASE " + (ws + " ") + "ELSE " + ds + " END" == "CASE " + ws + " ELSE " + ds + " END"
  {
    AppendAssoc("CASE ", ws, " ");
    AppendAssoc("CASE " + ws, " ", "ELSE ");
    assert " " + "ELSE " == " ELSE ";
  }

  /** A comparison other than `= NULL` prints its operator between its operands. */
  lemma CompareRendering(op: CompareOp, l: Node, r: Node, ls: string, rs: string)
    requires Render(l) == Ok(ls) && Render(r) == Ok(rs)
    requires !(op == Eq && IsNil(r))
    ensures Render(Compare(op, l, r)) == Ok(ls + OpText(op) + rs)
  {
  }

  /** A function or SUM of one argument prints that argument in parentheses. */
  lemma SingleArgument(name: string, k: Node)
    ensures Render(NamedFunction(name, [k])) == Around(name + "(", Render(k), ")")
    ensures Render(Sum([k])) == Around("SUM(", Render(k), ")")
  {
    match Render(k)
    case Err(e) => assert [k][..0] == []; assert RenderAll([k]) == Err(e);
    case Ok(x) => RenderAllEach([k], [x]);
  }

  /** Two nodes joined: both texts around the separator, or the first failure. */
  lemma RenderPair(a: Node, b: Node, sep: string)
    ensures RenderJoined([a, b], sep) == Infix(Render(a), sep, Render(b))
  {
    assert [a, b][..1] == [a];
    match Render(a)
    case Err(_) =>
      RenderAllPrefixFailure([a, b], 1);
    case Ok(x) =>
      match Render(b)
      case Err(_) =>
        RenderAllEach([a], [x]);
        RenderAllStep([a, b], 1);
      case Ok(y) =>
        RenderAllEach([a, b], [x, y]);
        assert [x, y][..1] == [x];
        assert Join([x, y], sep) == Join([x], sep) + sep + y;
  }

  /** Rendering a list one element further extends the rendered parts by
      that element's text. */
  lemma RenderAllStep(ns: seq<Node>, k: nat)
    requires k < |ns|
    ensures ns[..k + 1][..k] == ns[..k] && ns[..k + 1][k] == ns[k]
    ensures RenderAll(ns[..k + 1]) ==
            match RenderAll(ns[..k])
            case Err(e) => Err(e)
            case Ok(ps) => match Render(ns[k]) case Err(e) => Err(e) case Ok(p) => Ok(ps + [p])
  {
    assert ns[..k + 1][..k] == ns[..k];
  }
}
