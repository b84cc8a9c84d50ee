/** `ArelHelpers::QueryBuilder` (lib/arel_helpers/query_builder.rb): helpers
    that build Arel expression trees over the columns of one model's table. */
module Builder {
  import opened Text
  import opened Values
  import opened Nodes
  import opened Semantics

  /** The node `.or` builds: Arel wraps the disjunction in a grouping. */
  function OrNode(l: Node, r: Node): (n: Node)
    ensures n.Grouping? && n.expr.Or? && n.expr.left == l && n.expr.right == r
  {
    Grouping(Or(l, r))
  }

  /** Whether `a <=> b` answers for two different plain values: two of one
      ordered kind, two Strings, two Symbols, a Date or a Time with a Number
      (`Date#<=>` reads it as a Julian day number), or a Date and a Time or
      an Integer and a Duration, which ActiveSupport compares by coercion. */
  predicate RubyComparable(a: Scalar, b: Scalar)
  {
    SameKind(a, b) || (a.Str? && b.Str?) || (a.Sym? && b.Sym?) ||
    (a.DateValue? && b.TimeValue?) || (a.TimeValue? && b.DateValue?) ||
    ((a.DateValue? || a.TimeValue?) && b.Int?) ||
    (a.Int? && b.Duration?) || (a.Duration? && b.Int?)
  }

  /** A Range bound as `<=>` sees it: a plain value, or raw SQL, which is a
      Ruby String; any other node has only `Object#<=>`. */
  function RangeValue(a: Arg): (r: Option<Scalar>)
    ensures a.ValArg? ==> r == Some(a.value)
    ensures a.NodeArg? && a.node.SqlLiteral? ==> r == Some(Str(a.node.text))
    ensures a.NodeArg? && !a.node.SqlLiteral? ==> r == None
  {
    match a
    case ValArg(v) => Some(v)
    case NodeArg(n) => if n.SqlLiteral? then Some(Str(n.text)) else None
  }

  /** Ruby accepts `min..max` as a Range only when `min <=> max` answers:
      two comparable values (raw SQL counting as a String), or two equal
      values or nodes (`Object#<=>` answers 0 for equal objects and nil
      otherwise). Any other pair raises ArgumentError. */
  predicate RangeBounds(lo: Arg, hi: Arg)
  {
    lo == hi ||
    (RangeValue(lo).Some? && RangeValue(hi).Some? && RubyComparable(RangeValue(lo).value, RangeValue(hi).value))
  }

  /** A plain Ruby String argument (what `is_a? String` accepts). */
  predicate IsStringItem(it: Item)
  {
    it.Leaf? && it.arg.ValArg? && it.arg.value.Str?
  }

  /** `map_strings_to_quoted_nodes`, one argument: a String goes through
      `arel_quote`, anything else is kept. */
  function QuoteIfString(it: Item): Item
  {
    if IsStringItem(it) then Leaf(NodeArg(Quoted(it.arg.value))) else it
  }

  /** One item of `cast_as_array`: a String or Symbol single-quoted by
      interpolation (no escaping), anything else interpolated bare. */
  function CastItem(v: Scalar): (r: string)
    ensures |r| >= 2 && r[0] == '('
  {
    if v.Str? || v.Sym? then "('" + ToS(v) + "')" else "(" + ToS(v) + ")"
  }

  /** `ids * ','`: every id's `to_s`, comma-separated. */
  function IdsText(ids: seq<Scalar>): string
  {
    Join(seq(|ids|, i requires 0 <= i < |ids| => ToS(ids[i])), ",")
  }

  /** The default `:truthy` / `:falsey` of `sum_by_boolean` when the option is absent. */
  function FetchOption(option: Option<Arg>, default: int): Arg
  {
    if option.Some? then option.value else ValArg(Int(default))
  }

  /** ASCII case folding, as a case-insensitive Ruby regexp applies it to letters A-Z. */
  function FoldCase(c: char): char
  {
    if 'A' <= c <= 'Z' then (c as int + 32) as char else c
  }

  /** `word` (lower-case) occurs case-insensitively at index i, which starts a line. */
  predicate WordAtLineStart(s: string, word: string, i: int)
  {
    0 <= i && i + |word| <= |s| && (i == 0 || s[i - 1] == '\n') &&
    forall j :: 0 <= j < |word| ==> FoldCase(s[i + j]) == word[j]
  }

  /** Ruby's `/^word/i` matches the text: `^` matches at the start of any line. */
  predicate LineStartsWith(s: string, word: string)
  {
    exists i :: 0 <= i <= |s| && WordAtLineStart(s, word, i)
  }

  /** `when :word, /^word/i`: the Symbol itself, or a String or Symbol the
      regexp matches (`Regexp#===` is false for any other value). */
  predicate MatchesDirection(direction: Scalar, word: string)
  {
    direction == Sym(word) ||
    (direction.Str? && LineStartsWith(direction.s, word)) ||
    (direction.Sym? && LineStartsWith(direction.name, word))
  }

  class QueryBuilder {
    /** The name of the model's table (`klass.arel_table`). */
    const tableName: string

    /** `QueryBuilder.new(klass)`. */
    constructor (tableName: string)
      ensures this.tableName == tableName
    {
      this.tableName := tableName;
    }

    /** `arel_table[name]`. */
    function Column(name: string): (r: Node)
      ensures r.Attribute? && r.relation == tableName && r.name == name
    {
      Attribute(tableName, name)
    }

    /** `ensure_arel_attribute!`: a node passes through; a String or Symbol
        names a column of the table; anything else names the column its
        `to_s` gives. Raw SQL (`Arel.sql`) is a Ruby String, so it too names
        a column. */
    function EnsureArelAttribute(column: Arg): (r: Node)
      ensures column.NodeArg? && !column.node.SqlLiteral? ==> r == column.node
      ensures column.NodeArg? && column.node.SqlLiteral? ==> r == Attribute(tableName, column.node.text)
      ensures column.ValArg? ==> r.Attribute? && r.relation == tableName
      ensures column.ValArg? && column.value.Str? ==> r.name == column.value.s
      ensures column.ValArg? && column.value.Sym? ==> r.name == column.value.name
      ensures column.ValArg? ==> r.name == ToS(column.value)
    {
      match column
      case NodeArg(n) => if n.SqlLiteral? then Column(n.text) else n
      case ValArg(v) =>
        match v
        case Str(s) => Column(s)
        case Sym(name) => Column(name)
        case _ => Column(ToS(v))
    }

    /** `function(name, *args)` (alias `fn`): a named function over the
        arguments exactly as given, in order; nothing is quoted. */
    function Function(name: string, args: seq<Item>): (r: Node)
      ensures r.NamedFunction? && r.name == name && |r.args| == |args|
      ensures forall i :: 0 <= i < |args| ==> r.args[i] == RawItem(args[i])
    {
      RawItemsEach(args);
      NamedFunction(name, RawItems(args))
    }

    /** `map_strings_to_quoted_nodes(*args)`: exactly the String arguments
        become quoted literals; every other argument is kept, in order. */
    function MapStringsToQuotedNodes(args: seq<Item>): (r: seq<Item>)
      ensures |r| == |args|
      ensures forall i :: 0 <= i < |args| && IsStringItem(args[i]) ==> r[i] == Leaf(NodeArg(Quoted(args[i].arg.value)))
      ensures forall i :: 0 <= i < |args| && !IsStringItem(args[i]) ==> r[i] == args[i]
    {
      seq(|args|, i requires 0 <= i < |args| => QuoteIfString(args[i]))
    }

    /** `coalesce(*args)`: COALESCE over the arguments, Strings quoted, the
        rest passed through unchanged, order and count kept. */
    function Coalesce(args: seq<Item>): (r: Node)
      ensures r.NamedFunction? && r.name == "COALESCE" && |r.args| == |args|
      ensures forall i :: 0 <= i < |args| ==>
                r.args[i] == if IsStringItem(args[i]) then Quoted(args[i].arg.value) else RawItem(args[i])
    {
      Function("COALESCE", MapStringsToQuotedNodes(args))
    }

    /** `concat(*args)`: as `coalesce`, with CONCAT. */
    function Concat(args: seq<Item>): (r: Node)
      ensures r.NamedFunction? && r.name == "CONCAT" && |r.args| == |args|
      ensures forall i :: 0 <= i < |args| ==>
                r.args[i] == if IsStringItem(args[i]) then Quoted(args[i].arg.value) else RawItem(args[i])
    {
      Function("CONCAT", MapStringsToQuotedNodes(args))
    }

    /** `case_expr` without a block: a CASE with no branch and no ELSE. */
    function CaseExpr(): (r: Node)
      ensures r.Case? && |r.conditions| == 0 && r.default.None?
    {
      Case([], None)
    }

    /** `arel_quote(quotable)`: `build_quoted`. */
    function ArelQuote(quotable: Arg): (r: Node)
      ensures quotable.ValArg? ==> Render(r) == Ok(Quote(quotable.value))
      ensures quotable.NodeArg? ==> r == quotable.node
    {
      BuildQuoted(quotable)
    }

    /** `cast_as_array(items)`: each item in parentheses, Strings and
        Symbols also single-quoted, joined with ", ". */
    function CastAsArray(items: seq<Scalar>): (r: string)
      ensures r == "" <==> |items| == 0
      ensures |items| >= 1 ==> r[0] == '('
    {
      var parts := seq(|items|, i requires 0 <= i < |items| => CastItem(items[i]));
      JoinStartsWithFirst(parts, ", ");
      assert |items| >= 1 ==> parts[0] == CastItem(items[0]) && Join(parts, ", ")[0] == parts[0][0];
      Join(parts, ", ")
    }

    /** `is_null(column)`: `column = NULL`, which Arel prints `IS NULL`. */
    function IsNull(column: Arg): (r: Node)
      ensures r.Compare? && r.op == Eq && r.left == EnsureArelAttribute(column) && IsNil(r.right)
    {
      Compare(Eq, EnsureArelAttribute(column), Quoted(Nil))
    }

    /** `count_by_boolean(column)`: COUNT over `CASE WHEN column THEN 1 END`. */
    function CountByBoolean(column: Arg): (r: Node)
      ensures r.NamedFunction? && r.name == "COUNT" && |r.args| == 1
      ensures r.args[0] == Case([When(EnsureArelAttribute(column), Quoted(Int(1)))], None)
    {
      FunctionOfOne(this, "COUNT", Case([When(EnsureArelAttribute(column), Quoted(Int(1)))], None));
      Function("COUNT", [Leaf(NodeArg(Case([When(EnsureArelAttribute(column), Quoted(Int(1)))], None)))])
    }

    /** `sum_by_boolean(attr, truthy:, falsey:)`: SUM over
        `CASE WHEN attr THEN truthy ELSE falsey END`, the options 1 and 0 by default. */
    function SumByBoolean(attr: Arg, truthy: Option<Arg>, falsey: Option<Arg>): (r: Node)
      ensures r.Sum? && |r.exprs| == 1 && r.exprs[0].Case?
      ensures r.exprs[0].conditions == [When(EnsureArelAttribute(attr), BuildQuoted(FetchOption(truthy, 1)))]
      ensures r.exprs[0].default == Some(BuildQuoted(FetchOption(falsey, 0)))
      ensures truthy.None? ==> r.exprs[0].conditions[0].result == Quoted(Int(1))
      ensures falsey.None? ==> r.exprs[0].default == Some(Quoted(Int(0)))
    {
      Sum([Case([When(EnsureArelAttribute(attr), BuildQuoted(FetchOption(truthy, 1)))],
                Some(BuildQuoted(FetchOption(falsey, 0))))])
    }

    /** `date_in_year(column, year)`: BETWEEN January 1 and December 31 of the year. */
    function DateInYear(column: Arg, year: int): (r: Node)
      ensures r.Between? && r.right.And? && |r.right.children| == 2
      ensures r.right.children[0] == Quoted(DateValue(Date(year, 1, 1)))
      ensures r.right.children[1] == Quoted(DateValue(Date(year, 12, 31)))
      ensures CompareDates(Date(year, 1, 1), Date(year, 12, 31)) < 0
    {
      var yearStart := Date(year, 1, 1);
      var yearEnd := Date(year, 12, 31);
      Between(EnsureArelAttribute(column), And([Quoted(DateValue(yearStart)), Quoted(DateValue(yearEnd))]))
    }

    /** `date_before(column, date)`: `column <= date`. */
    function DateBefore(column: Arg, date: Arg): (r: Node)
      ensures r.Compare? && r.op == LtEq && r.left == EnsureArelAttribute(column) && r.right == BuildQuoted(date)
    {
      Compare(LtEq, EnsureArelAttribute(column), BuildQuoted(date))
    }

    /** `date_after(column, date)`: `column >= date`. */
    function DateAfter(column: Arg, date: Arg): (r: Node)
      ensures r.Compare? && r.op == GtEq && r.left == EnsureArelAttribute(column) && r.right == BuildQuoted(date)
    {
      Compare(GtEq, EnsureArelAttribute(column), BuildQuoted(date))
    }

    /** `interval_from_now(string)`: raw SQL subtracting the quoted interval
        from the current timestamp. */
    function IntervalFromNow(interval: Scalar): (r: Node)
      ensures r.SqlLiteral? && r.text == "CURRENT_TIMESTAMP - INTERVAL " + Quote(interval)
    {
      var quotedInterval := BuildQuoted(ValArg(interval));
      SqlLiteral("CURRENT_TIMESTAMP - INTERVAL " + Render(quotedInterval).value)
    }

    /** `date_before_interval(column, interval)`: `column <= CURRENT_TIMESTAMP - INTERVAL i`. */
    function DateBeforeInterval(column: Arg, interval: Scalar): (r: Node)
      ensures r.Compare? && r.op == LtEq && r.left == EnsureArelAttribute(column)
      ensures r.right.SqlLiteral? && r.right.text == "CURRENT_TIMESTAMP - INTERVAL " + Quote(interval)
    {
      Compare(LtEq, EnsureArelAttribute(column), IntervalFromNow(interval))
    }

    /** `date_after_interval(column, interval)`: `column >= CURRENT_TIMESTAMP - INTERVAL i`. */
    function DateAfterInterval(column: Arg, interval: Scalar): (r: Node)
      ensures r.Compare? && r.op == GtEq && r.left == EnsureArelAttribute(column)
      ensures r.right.SqlLiteral? && r.right.text == "CURRENT_TIMESTAMP - INTERVAL " + Quote(interval)
    {
      Compare(GtEq, EnsureArelAttribute(column), IntervalFromNow(interval))
    }

    /** `earlier_entries(column, date, id)`: `column < date OR (column = date AND id < id)`. */
    function EarlierEntries(column: Arg, date: Arg, id: Arg): (r: Node)
      ensures r.Grouping? && r.expr.Or?
      ensures r.expr.left == Compare(Lt, EnsureArelAttribute(column), BuildQuoted(date))
      ensures r.expr.right == And([Compare(Eq, EnsureArelAttribute(column), BuildQuoted(date)),
                                   Compare(Lt, Column("id"), BuildQuoted(id))])
    {
      var col := EnsureArelAttribute(column);
      var idColumn := EnsureArelAttribute(ValArg(Sym("id")));
      OrNode(Compare(Lt, col, BuildQuoted(date)),
             And([Compare(Eq, col, BuildQuoted(date)), Compare(Lt, idColumn, BuildQuoted(id))]))
    }

    /** `later_entries(column, date, id)`: `column > date OR (column = date AND id > id)`. */
    function LaterEntries(column: Arg, date: Arg, id: Arg): (r: Node)
      ensures r.Grouping? && r.expr.Or?
      ensures r.expr.left == Compare(Gt, EnsureArelAttribute(column), BuildQuoted(date))
      ensures r.expr.right == And([Compare(Eq, EnsureArelAttribute(column), BuildQuoted(date)),
                                   Compare(Gt, Column("id"), BuildQuoted(id))])
    {
      var col := EnsureArelAttribute(column);
      var idColumn := EnsureArelAttribute(ValArg(Sym("id")));
      OrNode(Compare(Gt, col, BuildQuoted(date)),
             And([Compare(Eq, col, BuildQuoted(date)), Compare(Gt, idColumn, BuildQuoted(id))]))
    }

    /** `date_between(column, min, max)`: `column BETWEEN min AND max`, once
        Ruby has accepted `min..max` as a Range. */
    function DateBetween(column: Arg, minDate: Arg, maxDate: Arg): (r: Result<Node>)
      ensures r.Ok? <==> RangeBounds(minDate, maxDate)
      ensures r.Err? ==> r.error == ArgumentError
      ensures r.Ok? ==> r.value == Between(EnsureArelAttribute(column), And([BuildQuoted(minDate), BuildQuoted(maxDate)]))
    {
      if RangeBounds(minDate, maxDate) then
        Ok(Between(EnsureArelAttribute(column), And([BuildQuoted(minDate), BuildQuoted(maxDate)])))
      else Err(ArgumentError)
    }

    /** `date_null_or_before(column, date)`: `(column IS NULL OR column <= date)`. */
    function DateNullOrBefore(column: Arg, date: Arg): (r: Node)
      ensures r.Grouping? && r.expr == Or(IsNull(column), DateBefore(column, date))
    {
      OrNode(IsNull(column), DateBefore(column, date))
    }

    /** `date_null_or_after(column, date)`: `(column IS NULL OR column >= date)`. */
    function DateNullOrAfter(column: Arg, date: Arg): (r: Node)
      ensures r.Grouping? && r.expr == Or(IsNull(column), DateAfter(column, date))
    {
      OrNode(IsNull(column), DateAfter(column, date))
    }

    /** `date_on_day(column, time)`: from the beginning to the end of the
        time's day, `column >= 00:00:00 AND column <= 23:59:59.999999`. */
    function DateOnDay(column: Arg, day: Time): (r: Node)
      ensures r.And? && |r.children| == 2
      ensures r.children[0] == DateAfter(column, ValArg(TimeValue(Time(day.date, 0, 0, 0, 0))))
      ensures r.children[1] == DateBefore(column, ValArg(TimeValue(Time(day.date, 23, 59, 59, 999999))))
    {
      var beginning := Time(day.date, 0, 0, 0, 0);
      var ending := Time(day.date, 23, 59, 59, 999999);
      And([DateAfter(column, ValArg(TimeValue(beginning))), DateBefore(column, ValArg(TimeValue(ending)))])
    }

    /** `date_before_now(column)`: `date_before` at the current time, which is passed in. */
    function DateBeforeNow(column: Arg, now: Time): (r: Node)
      ensures r.Compare? && r.op == LtEq && r.right == Quoted(TimeValue(now))
      ensures r == DateBefore(column, ValArg(TimeValue(now)))
    {
      DateBefore(column, ValArg(TimeValue(now)))
    }

    /** `date_after_now(column)`: `date_after` at the current time, which is passed in. */
    function DateAfterNow(column: Arg, now: Time): (r: Node)
      ensures r.Compare? && r.op == GtEq && r.right == Quoted(TimeValue(now))
      ensures r == DateAfter(column, ValArg(TimeValue(now)))
    {
      DateAfter(column, ValArg(TimeValue(now)))
    }

    /** `date_null_or_before_now(column)`. */
    function DateNullOrBeforeNow(column: Arg, now: Time): (r: Node)
      ensures r == DateNullOrBefore(column, ValArg(TimeValue(now)))
    {
      OrNode(IsNull(column), DateBeforeNow(column, now))
    }

    /** `date_null_or_after_now(column)`. */
    function DateNullOrAfterNow(column: Arg, now: Time): (r: Node)
      ensures r == DateNullOrAfter(column, ValArg(TimeValue(now)))
    {
      OrNode(IsNull(column), DateAfterNow(column, now))
    }

    /** `arel_ids_to_pg_array(ids)`: raw SQL `ARRAY[` ids joined by "," `]`. */
    function ArelIdsToPgArray(ids: seq<Scalar>): (r: Node)
      ensures r.SqlLiteral? && |r.text| >= 7
      ensures r.text[..6] == "ARRAY[" && r.text[|r.text| - 1] == ']'
      ensures r.text[6..|r.text| - 1] == IdsText(ids)
      ensures |ids| == 0 ==> r.text == "ARRAY[]"
    {
      SqlLiteral("ARRAY[" + IdsText(ids) + "]")
    }

    /** The ordering `order_by` hands to `scope.order`: ascending for `:asc`
        or a text with a line starting "asc" in any case, else descending
        for the same with "desc", else the column unchanged. */
    function OrderDirection(column: Node, direction: Scalar): (r: Node)
      ensures MatchesDirection(direction, "asc") ==> r == Ascending(column)
      ensures !MatchesDirection(direction, "asc") && MatchesDirection(direction, "desc") ==> r == Descending(column)
      ensures !MatchesDirection(direction, "asc") && !MatchesDirection(direction, "desc") ==> r == column
    {
      if MatchesDirection(direction, "asc") then Ascending(column)
      else if MatchesDirection(direction, "desc") then Descending(column)
      else column
    }

    /** `arel_array_position_fn(ids, column, quoted:)`: `array_position` over
        one Ruby Array holding the ids array (each id first quoted when
        `quoted`) and the column as given. */
    function ArelArrayPositionFn(ids: seq<Scalar>, column: Arg, quoted: bool): (r: Node)
      ensures r.NamedFunction? && r.name == "array_position" && |r.args| == 1 && r.args[0].ArrayValue?
      ensures !quoted ==> r.args[0].elements == [ArelIdsToPgArray(ids), RawNode(column)]
      ensures quoted ==> (r.args[0].elements ==
                           [ArelIdsToPgArray(seq(|ids|, i requires 0 <= i < |ids| => Str(Quote(ids[i])))), RawNode(column)])
    {
      var shown := if quoted then seq(|ids|, i requires 0 <= i < |ids| => Str(Quote(ids[i]))) else ids;
      var pair := [Leaf(NodeArg(ArelIdsToPgArray(shown))), Leaf(column)];
      RawItemsEach(pair);
      assert RawItems(pair) == [ArelIdsToPgArray(shown), RawNode(column)];
      Function("array_position", [List(pair)])
    }

    /** `arel_idx_fn(ids, column = arel_table[:id])`. */
    function ArelIdxFn(ids: seq<Scalar>, column: Option<Arg>): (r: Node)
      ensures r.NamedFunction? && r.name == "idx" && |r.args| == 1 && r.args[0].ArrayValue?
      ensures column.Some? ==> r.args[0].elements == [ArelIdsToPgArray(ids), RawNode(column.value)]
      ensures column.None? ==> r.args[0].elements == [ArelIdsToPgArray(ids), Column("id")]
    {
      var col := if column.Some? then column.value else NodeArg(Column("id"));
      var pair := [Leaf(NodeArg(ArelIdsToPgArray(ids))), Leaf(col)];
      RawItemsEach(pair);
      assert RawItems(pair) == [ArelIdsToPgArray(ids), RawNode(col)];
      Function("idx", [List(pair)])
    }
  }

  // ------------------------------------------------------------ rendering

  /** `function(name, *args)` prints `name(a1, a2, ..., an)`: every argument's
      text in order, separated by ", ". */
  lemma FunctionRendering(qb: QueryBuilder, name: string, args: seq<Item>, parts: seq<string>)
    requires RenderAll(RawItems(args)) == Ok(parts)
    ensures Render(qb.Function(name, args)) == Ok(name + "(" + Join(parts, ", ") + ")")
  {
  }

  /** Nothing is quoted by `function`: a String argument is left raw, and the
      visitor rejects the first one it meets. */
  lemma {:induction false} FunctionRawStringFails(qb: QueryBuilder, name: string, args: seq<Item>, k: nat, s: string)
    requires k < |args| && args[k] == Leaf(ValArg(Str(s)))
    requires RenderAll(RawItems(args[..k])).Ok?
    ensures Render(qb.Function(name, args)) == Err(UnsupportedVisit(Str(s)))
  {
    var raw := RawItems(args);
    RawItemsEach(args);
    RawItemsEach(args[..k]);
    assert raw[..k] == RawItems(args[..k]);
    RenderAllStep(raw, k);
    RenderAllPrefixFailure(raw, k + 1);
  }

  /** `coalesce` and `concat` never leave a String raw: each String argument
      prints as its quoted literal, so a String can never make them fail. */
  lemma CoalesceQuotesStrings(qb: QueryBuilder, args: seq<Item>, i: nat)
    requires i < |args| && IsStringItem(args[i])
    ensures Render(qb.Coalesce(args).args[i]) == Ok(Enclosed('\'', args[i].arg.value.s))
    ensures Render(qb.Concat(args).args[i]) == Ok(Enclosed('\'', args[i].arg.value.s))
  {
  }

  /** `cast_as_array` keeps order: one more item appends ", " and its
      parenthesised text. */
  lemma CastAsArrayAppend(qb: QueryBuilder, items: seq<Scalar>, v: Scalar)
    ensures qb.CastAsArray(items + [v]) ==
            if |items| == 0 then CastItem(v) else qb.CastAsArray(items) + ", " + CastItem(v)
  {
    var parts := seq(|items|, i requires 0 <= i < |items| => CastItem(items[i]));
    var all := items + [v];
    assert seq(|all|, i requires 0 <= i < |all| => CastItem(all[i])) == parts + [CastItem(v)];
    JoinAppend(parts, CastItem(v), ", ");
  }

  /** `is_null` prints the column followed by IS NULL. */
  lemma IsNullRendering(qb: QueryBuilder, column: Arg, c: string)
    requires Render(qb.EnsureArelAttribute(column)) == Ok(c)
    ensures Render(qb.IsNull(column)) == Ok(c + " IS NULL")
  {
    assert "" + c + " IS NULL" == c + " IS NULL";
  }

  /** `count_by_boolean` prints `COUNT(CASE WHEN column THEN 1 END)`: one
      branch and no ELSE. */
  lemma CountByBooleanRendering(qb: QueryBuilder, column: Arg, c: string)
    requires Render(qb.EnsureArelAttribute(column)) == Ok(c)
    ensures Render(qb.CountByBoolean(column)) == Ok("COUNT(CASE WHEN " + c + " THEN 1 END)")
  {
    var w := When(qb.EnsureArelAttribute(column), Quoted(Int(1)));
    assert Render(Quoted(Int(1))) == Ok("1");
    WhenRendering(qb.EnsureArelAttribute(column), Quoted(Int(1)), c, "1");
    SingleBranchCase(w, None, "WHEN " + c + " THEN " + "1");
    var k := Case([w], None);
    FunctionOfOne(qb, "COUNT", k);
    SingleArgument("COUNT", k);
    CountText(c);
  }

  /** A function over one node argument holds that node as it is. */
  lemma FunctionOfOne(qb: QueryBuilder, name: string, k: Node)
    ensures qb.Function(name, [Leaf(NodeArg(k))]) == NamedFunction(name, [k])
  {
    assert RawItems([Leaf(NodeArg(k))]) == [k] by {
      assert [Leaf(NodeArg(k))][..0] == [];
    }
  }

  lemma CountText(c: string)
    ensures "COUNT" + "(" + ("CASE " + ("WHEN " + c + " THEN " + "1") + " END") + ")" == "COUNT(CASE WHEN " + c + " THEN 1 END)"
  {
  }

  /** `sum_by_boolean` prints `SUM(CASE WHEN attr THEN t ELSE f END)`. */
  lemma SumByBooleanRendering(qb: QueryBuilder, attr: Arg, truthy: Option<Arg>, falsey: Option<Arg>, c: string, t: string, f: string)
    requires Render(qb.EnsureArelAttribute(attr)) == Ok(c)
    requires Render(BuildQuoted(FetchOption(truthy, 1))) == Ok(t)
    requires Render(BuildQuoted(FetchOption(falsey, 0))) == Ok(f)
    ensures Render(qb.SumByBoolean(attr, truthy, falsey)) == Ok("SUM(CASE WHEN " + c + " THEN " + t + " ELSE " + f + " END)")
  {
    var a, yes, no := qb.EnsureArelAttribute(attr), BuildQuoted(FetchOption(truthy, 1)), BuildQuoted(FetchOption(falsey, 0));
    WhenRendering(a, yes, c, t);
    SingleBranchCase(When(a, yes), Some(no), "WHEN " + c + " THEN " + t);
    var k := Case([When(a, yes)], Some(no));
    SingleArgument("SUM", k);
    SumText(c, t, f);
  }

  lemma SumText(c: string, t: string, f: string)
    ensures "SUM(" + ("CASE " + ("WHEN " + c + " THEN " + t) + " ELSE " + f + " END") + ")"
            == "SUM(CASE WHEN " + c + " THEN " + t + " ELSE " + f + " END)"
  {
  }

  /** Without options `sum_by_boolean` counts 1 for a true row and 0 otherwise. */
  lemma SumByBooleanDefaults(qb: QueryBuilder, attr: Arg, c: string)
    requires Render(qb.EnsureArelAttribute(attr)) == Ok(c)
    ensures Render(qb.SumByBoolean(attr, None, None)) == Ok("SUM(CASE WHEN " + c + " THEN 1 ELSE 0 END)")
  {
    OneAndZero();
    SumByBooleanRendering(qb, attr, None, None, c, "1", "0");
    SumDefaultsText(c);
  }

  lemma OneAndZero()
    ensures Render(BuildQuoted(FetchOption(None, 1))) == Ok("1")
    ensures Render(BuildQuoted(FetchOption(None, 0))) == Ok("0")
  {
    assert NatToString(1) == "1";
    assert NatToString(0) == "0";
  }

  lemma SumDefaultsText(c: string)
    ensures "SUM(CASE WHEN " + c + " THEN " + "1" + " ELSE " + "0" + " END)" == "SUM(CASE WHEN " + c + " THEN 1 ELSE 0 END)"
  {
    AppendAssoc("SUM(CASE WHEN " + c, " THEN ", "1");
    AppendAssoc("SUM(CASE WHEN " + c, " THEN " + "1", " ELSE ");
    AppendAssoc("SUM(CASE WHEN " + c, " THEN " + "1" + " ELSE ", "0");
    AppendAssoc("SUM(CASE WHEN " + c, " THEN " + "1" + " ELSE " + "0", " END)");
  }

  /** `date_before` and `date_after` print `column <= date` and `column >= date`. */
  lemma DateBoundRendering(qb: QueryBuilder, column: Arg, date: Arg, c: string, d: string)
    requires Render(qb.EnsureArelAttribute(column)) == Ok(c)
    requires Render(BuildQuoted(date)) == Ok(d)
    ensures Render(qb.DateBefore(column, date)) == Ok(c + " <= " + d)
    ensures Render(qb.DateAfter(column, date)) == Ok(c + " >= " + d)
  {
    CompareRendering(LtEq, qb.EnsureArelAttribute(column), BuildQuoted(date), c, d);
    CompareRendering(GtEq, qb.EnsureArelAttribute(column), BuildQuoted(date), c, d);
  }

  /** `date_between` prints `c BETWEEN lo AND hi` once the Range is accepted. */
  lemma DateBetweenRendering(qb: QueryBuilder, column: Arg, minDate: Arg, maxDate: Arg, c: string, lo: string, hi: string)
    requires RangeBounds(minDate, maxDate)
    requires Render(qb.EnsureArelAttribute(column)) == Ok(c)
    requires Render(BuildQuoted(minDate)) == Ok(lo) && Render(BuildQuoted(maxDate)) == Ok(hi)
    ensures qb.DateBetween(column, minDate, maxDate).Ok?
    ensures Render(qb.DateBetween(column, minDate, maxDate).value) == Ok(c + " BETWEEN " + (lo + " AND " + hi))
  {
    BetweenRendering(qb.EnsureArelAttribute(column), BuildQuoted(minDate), BuildQuoted(maxDate), c, lo, hi);
  }

  /** A BETWEEN over a pair of bounds prints `c BETWEEN lo AND hi`. */
  lemma BetweenRendering(l: Node, a: Node, b: Node, c: string, lo: string, hi: string)
    requires Render(l) == Ok(c) && Render(a) == Ok(lo) && Render(b) == Ok(hi)
    ensures Render(Between(l, And([a, b]))) == Ok(c + " BETWEEN " + (lo + " AND " + hi))
  {
    RenderPair(a, b, " AND ");
  }

  /** `date_in_year` prints `c BETWEEN 'y-01-01' AND 'y-12-31'`. */
  lemma DateInYearRendering(qb: QueryBuilder, column: Arg, year: int, c: string)
    requires Render(qb.EnsureArelAttribute(column)) == Ok(c)
    ensures Render(qb.DateInYear(column, year)) ==
            Ok(c + " BETWEEN " + (("'" + DateText(Date(year, 1, 1)) + "'") + " AND " + ("'" + DateText(Date(year, 12, 31)) + "'")))
  {
    var first, last := Quoted(DateValue(Date(year, 1, 1))), Quoted(DateValue(Date(year, 12, 31)));
    assert qb.DateInYear(column, year) == Between(qb.EnsureArelAttribute(column), And([first, last]));
    BetweenRendering(qb.EnsureArelAttribute(column), first, last, c,
                     "'" + DateText(Date(year, 1, 1)) + "'", "'" + DateText(Date(year, 12, 31)) + "'");
  }

  /** `date_before_interval` compares the column with the current timestamp
      minus the interval, quoted as a literal of its own. */
  lemma BeforeIntervalRendering(qb: QueryBuilder, column: Arg, interval: Scalar, c: string)
    requires Render(qb.EnsureArelAttribute(column)) == Ok(c)
    ensures Render(qb.DateBeforeInterval(column, interval)) == Ok(c + " <= " + "CURRENT_TIMESTAMP - INTERVAL " + Quote(interval))
  {
    var bound := qb.IntervalFromNow(interval);
    CompareRendering(LtEq, qb.EnsureArelAttribute(column), bound, c, bound.text);
    AppendAssoc(c + " <= ", "CURRENT_TIMESTAMP - INTERVAL ", Quote(interval));
  }

  /** `date_after_interval`: the same bound, from the other side. */
  lemma AfterIntervalRendering(qb: QueryBuilder, column: Arg, interval: Scalar, c: string)
    requires Render(qb.EnsureArelAttribute(column)) == Ok(c)
    ensures Render(qb.DateAfterInterval(column, interval)) == Ok(c + " >= " + "CURRENT_TIMESTAMP - INTERVAL " + Quote(interval))
  {
    var bound := qb.IntervalFromNow(interval);
    CompareRendering(GtEq, qb.EnsureArelAttribute(column), bound, c, bound.text);
    AppendAssoc(c + " >= ", "CURRENT_TIMESTAMP - INTERVAL ", Quote(interval));
  }

  /** A String interval cannot escape its literal: the text after `INTERVAL `
      reads back as exactly that string, up to the end of the SQL. */
  lemma IntervalQuotedSafely(qb: QueryBuilder, s: string)
    ensures var t := qb.IntervalFromNow(Str(s)).text;
            var p := |"CURRENT_TIMESTAMP - INTERVAL "|;
            p < |t| && t[p] == '\'' && ReadQuotedBody('\'', t[p + 1..]) == Some((s, ""))
  {
    var t := qb.IntervalFromNow(Str(s)).text;
    var lit := Quote(Str(s));
    QuotedStringReadsBack(s, "");
    assert t[|"CURRENT_TIMESTAMP - INTERVAL "| + 1..] == lit[1..] + "";
  }

  /** `.or` prints both sides in one pair of parentheses. */
  lemma OrNodeRendering(l: Node, r: Node, ls: string, rs: string)
    requires Render(l) == Ok(ls) && Render(r) == Ok(rs)
    ensures Render(OrNode(l, r)) == Ok("(" + (ls + " OR " + rs) + ")")
  {
    assert Render(Or(l, r)) == Ok(ls + " OR " + rs);
  }

  /** The cursor condition `l OR (e AND k)` prints its three comparisons in order. */
  lemma CursorRendering(l: Node, e: Node, k: Node, ls: string, es: string, ks: string)
    requires Render(l) == Ok(ls) && Render(e) == Ok(es) && Render(k) == Ok(ks)
    ensures Render(OrNode(l, And([e, k]))) == Ok("(" + (ls + " OR " + (es + " AND " + ks)) + ")")
  {
    RenderPair(e, k, " AND ");
    OrNodeRendering(l, And([e, k]), ls, es + " AND " + ks);
  }

  /** `earlier_entries` prints `(c < d OR c = d AND t."id" < i)`. */
  lemma EarlierEntriesRendering(qb: QueryBuilder, column: Arg, date: Arg, id: Arg, c: string, d: string, i: string)
    requires !IsNil(BuildQuoted(date))
    requires Render(qb.EnsureArelAttribute(column)) == Ok(c)
    requires Render(BuildQuoted(date)) == Ok(d) && Render(BuildQuoted(id)) == Ok(i)
    ensures var idc := QuoteTableName(qb.tableName) + "." + QuoteColumnName("id");
            Render(qb.EarlierEntries(column, date, id)) ==
              Ok("(" + ((c + " < " + d) + " OR " + ((c + " = " + d) + " AND " + (idc + " < " + i))) + ")")
  {
    var col, dq, iq := qb.EnsureArelAttribute(column), BuildQuoted(date), BuildQuoted(id);
    var idColumn := qb.EnsureArelAttribute(ValArg(Sym("id")));
    var idc := QuoteTableName(qb.tableName) + "." + QuoteColumnName("id");
    assert Render(idColumn) == Ok(idc);
    CompareRendering(Lt, col, dq, c, d);
    CompareRendering(Eq, col, dq, c, d);
    CompareRendering(Lt, idColumn, iq, idc, i);
    CursorRendering(Compare(Lt, col, dq), Compare(Eq, col, dq), Compare(Lt, idColumn, iq), c + " < " + d, c + " = " + d, idc + " < " + i);
  }

  /** `later_entries` prints `(c > d OR c = d AND t."id" > i)`. */
  lemma LaterEntriesRendering(qb: QueryBuilder, column: Arg, date: Arg, id: Arg, c: string, d: string, i: string)
    requires !IsNil(BuildQuoted(date))
    requires Render(qb.EnsureArelAttribute(column)) == Ok(c)
    requires Render(BuildQuoted(date)) == Ok(d) && Render(BuildQuoted(id)) == Ok(i)
    ensures var idc := QuoteTableName(qb.tableName) + "." + QuoteColumnName("id");
            Render(qb.LaterEntries(column, date, id)) ==
              Ok("(" + ((c + " > " + d) + " OR " + ((c + " = " + d) + " AND " + (idc + " > " + i))) + ")")
  {
    var col, dq, iq := qb.EnsureArelAttribute(column), BuildQuoted(date), BuildQuoted(id);
    var idColumn := qb.EnsureArelAttribute(ValArg(Sym("id")));
    var idc := QuoteTableName(qb.tableName) + "." + QuoteColumnName("id");
    assert Render(idColumn) == Ok(idc);
    CompareRendering(Gt, col, dq, c, d);
    CompareRendering(Eq, col, dq, c, d);
    CompareRendering(Gt, idColumn, iq, idc, i);
    CursorRendering(Compare(Gt, col, dq), Compare(Eq, col, dq), Compare(Gt, idColumn, iq), c + " > " + d, c + " = " + d, idc + " > " + i);
  }

  /** The ids array of integer ids has one element per id: exactly one comma
      between neighbours and none inside an id. */
  lemma ArelIdsCommaCount(qb: QueryBuilder, ids: seq<Scalar>)
    requires |ids| >= 1 && forall i :: 0 <= i < |ids| ==> ids[i].Int?
    ensures Occurrences(qb.ArelIdsToPgArray(ids).text, ',') == |ids| - 1
  {
    var parts := seq(|ids|, i requires 0 <= i < |ids| => ToS(ids[i]));
    forall i | 0 <= i < |parts|
      ensures ',' !in parts[i]
    {
      IntTextHasNoComma(ids[i].i);
    }
    OccurrencesInAbsent(parts, ',');
    JoinSeparatorCount(parts, ',');
    var joined := Join(parts, ",");
    OccurrencesAppend("ARRAY[", joined, ',');
    OccurrencesAppend("ARRAY[" + joined, "]", ',');
    OccurrencesAbsent("ARRAY[", ',');
    OccurrencesAbsent("]", ',');
  }

  /** The ids array round-trips: cutting the text between the brackets at
      every comma gives back each id's `to_s`, in order, provided no id's
      text holds a comma (integer ids never do). */
  lemma ArelIdsSplitBack(qb: QueryBuilder, ids: seq<Scalar>)
    requires |ids| >= 1
    requires forall i :: 0 <= i < |ids| ==> ',' !in ToS(ids[i])
    ensures var t := qb.ArelIdsToPgArray(ids).text;
            Split(t[6..|t| - 1], ',') == seq(|ids|, i requires 0 <= i < |ids| => ToS(ids[i]))
  {
    var parts := seq(|ids|, i requires 0 <= i < |ids| => ToS(ids[i]));
    SplitJoin(parts, ',');
  }

  /** Integer ids always round-trip through the ids array. */
  lemma IntIdsSplitBack(qb: QueryBuilder, ids: seq<Scalar>)
    requires |ids| >= 1 && forall i :: 0 <= i < |ids| ==> ids[i].Int?
    ensures var t := qb.ArelIdsToPgArray(ids).text;
            Split(t[6..|t| - 1], ',') == seq(|ids|, i requires 0 <= i < |ids| => IntToString(ids[i].i))
  {
    forall i | 0 <= i < |ids|
      ensures ',' !in ToS(ids[i])
    {
      IntTextHasNoComma(ids[i].i);
    }
    ArelIdsSplitBack(qb, ids);
    assert seq(|ids|, i requires 0 <= i < |ids| => ToS(ids[i])) ==
           seq(|ids|, i requires 0 <= i < |ids| => IntToString(ids[i].i));
  }

  /** A function over one Ruby Array of two values prints both values, in
      order, inside its parentheses. */
  lemma FunctionOfPairList(qb: QueryBuilder, name: string, a: Node, column: Arg, at: string, cs: string)
    requires Render(a) == Ok(at) && Render(RawNode(column)) == Ok(cs)
    ensures Render(qb.Function(name, [List([Leaf(NodeArg(a)), Leaf(column)])])) == Ok(name + "(" + (at + ", " + cs) + ")")
  {
    var pair := ArrayValue([a, RawNode(column)]);
    assert RawItem(List([Leaf(NodeArg(a)), Leaf(column)])) == pair by {
      RawItemsEach([Leaf(NodeArg(a)), Leaf(column)]);
    }
    assert qb.Function(name, [List([Leaf(NodeArg(a)), Leaf(column)])]) == NamedFunction(name, [pair]);
    RenderPair(a, RawNode(column), ", ");
    SingleArgument(name, pair);
  }

  /** Quoting the ids first shows each id's quoted literal between the commas. */
  lemma QuotedIdsText(ids: seq<Scalar>)
    ensures IdsText(seq(|ids|, i requires 0 <= i < |ids| => Str(Quote(ids[i])))) ==
            Join(seq(|ids|, i requires 0 <= i < |ids| => Quote(ids[i])), ",")
  {
    var shown := seq(|ids|, i requires 0 <= i < |ids| => Str(Quote(ids[i])));
    assert seq(|shown|, i requires 0 <= i < |shown| => ToS(shown[i])) ==
           seq(|ids|, i requires 0 <= i < |ids| => Quote(ids[i]));
  }

  /** `arel_array_position_fn` prints `array_position(ARRAY[ids], column)`,
      the ids quoted first when asked, the column as given. */
  lemma ArrayPositionRendering(qb: QueryBuilder, ids: seq<Scalar>, column: Arg, quoted: bool, c: string)
    requires Render(RawNode(column)) == Ok(c)
    ensures var shown := if quoted then Join(seq(|ids|, i requires 0 <= i < |ids| => Quote(ids[i])), ",") else IdsText(ids);
            Render(qb.ArelArrayPositionFn(ids, column, quoted)) == Ok("array_position(" + (("ARRAY[" + shown + "]") + ", " + c) + ")")
  {
    var shownIds := if quoted then seq(|ids|, i requires 0 <= i < |ids| => Str(Quote(ids[i]))) else ids;
    var arr := qb.ArelIdsToPgArray(shownIds);
    FunctionOfPairList(qb, "array_position", arr, column, arr.text, c);
    if quoted {
      QuotedIdsText(ids);
    }
    assert "array_position" + "(" == "array_position(";
  }

  /** `arel_idx_fn` without a column uses the table's `id` column. */
  lemma ArelIdxDefault(qb: QueryBuilder, ids: seq<Scalar>)
    ensures Render(qb.ArelIdxFn(ids, None)) == Ok("idx(" + (("ARRAY[" + IdsText(ids) + "]") + ", " + (QuoteTableName(qb.tableName) + "." + QuoteColumnName("id"))) + ")")
  {
    var arr := qb.ArelIdsToPgArray(ids);
    var col := qb.Column("id");
    FunctionOfPairList(qb, "idx", arr, NodeArg(col), arr.text, QuoteTableName(qb.tableName) + "." + QuoteColumnName("id"));
    assert "idx" + "(" == "idx(";
  }

  /** `arel_idx_fn` with a column prints `idx(ARRAY[ids], column)`, the
      column as given. */
  lemma ArelIdxRendering(qb: QueryBuilder, ids: seq<Scalar>, column: Arg, c: string)
    requires Render(RawNode(column)) == Ok(c)
    ensures Render(qb.ArelIdxFn(ids, Some(column))) == Ok("idx(" + (("ARRAY[" + IdsText(ids) + "]") + ", " + c) + ")")
  {
    var arr := qb.ArelIdsToPgArray(ids);
    FunctionOfPairList(qb, "idx", arr, column, arr.text, c);
    assert "idx" + "(" == "idx(";
  }

  /** A column that is already an attribute passes through unchanged. */
  lemma EnsureArelAttributeIdempotent(qb: QueryBuilder, column: Arg)
    ensures qb.EnsureArelAttribute(NodeArg(qb.EnsureArelAttribute(column))) == qb.EnsureArelAttribute(column)
  {
  }

  /** A Symbol direction orders like the String of the same text: `:asc`
      and `:desc` are also matched by the case-insensitive patterns. */
  lemma OrderDirectionSymbolAsString(qb: QueryBuilder, column: Node, s: string)
    ensures qb.OrderDirection(column, Sym(s)) == qb.OrderDirection(column, Str(s))
  {
    if s == "asc" {
      assert WordAtLineStart(s, "asc", 0);
    }
    if s == "desc" {
      assert WordAtLineStart(s, "desc", 0);
    }
  }

  /** Directions as callers write them: `"DESC"` in capitals orders
      descending, a line of its own starting "asc" orders ascending, and any
      other value leaves the column as it is. */
  lemma OrderDirectionExamples(qb: QueryBuilder, column: Node)
    ensures qb.OrderDirection(column, Str("DESC")) == Descending(column)
    ensures qb.OrderDirection(column, Str("x\nAscending")) == Ascending(column)
    ensures qb.OrderDirection(column, Str("up")) == column
  {
    CapitalDesc();
    AscOnSecondLine();
    NeitherDirection();
  }

  lemma CapitalDesc()
    ensures MatchesDirection(Str("DESC"), "desc") && !MatchesDirection(Str("DESC"), "asc")
  {
    var d := "DESC";
    assert WordAtLineStart(d, "desc", 0);
    forall i | 0 <= i <= |d|
      ensures !WordAtLineStart(d, "asc", i)
    {
      if i == 0 {
        assert FoldCase(d[0]) == 'd' && "asc"[0] == 'a';
      } else {
        assert d[i - 1] != '\n';
      }
    }
  }

  lemma AscOnSecondLine()
    ensures MatchesDirection(Str("x\nAscending"), "asc")
  {
    assert WordAtLineStart("x\nAscending", "asc", 2);
  }

  lemma NeitherDirection()
    ensures !MatchesDirection(Str("up"), "asc") && !MatchesDirection(Str("up"), "desc")
  {
    var u := "up";
    forall i | 0 <= i <= |u|
      ensures !WordAtLineStart(u, "asc", i) && !WordAtLineStart(u, "desc", i)
    {
      if i == 0 {
        assert FoldCase(u[0]) == 'u' && "asc"[0] == 'a' && "desc"[0] == 'd';
      } else {
        assert u[i - 1] != '\n';
      }
    }
  }

  // ------------------------------------------------------------ meaning

  /** `is_null` is never UNKNOWN: it holds exactly of the rows whose column is NULL. */
  lemma IsNullMeaning(qb: QueryBuilder, column: Arg, row: Row)
    ensures Eval(qb.IsNull(column), row) == Some(ValueOf(qb.EnsureArelAttribute(column), row) == Nil)
  {
  }

  /** `date_before` keeps the rows whose value is comparable with the date
      and not after it; `date_after`, not before it. */
  lemma DateBoundMeaning(qb: QueryBuilder, column: Arg, date: Arg, row: Row)
    ensures var v, d := ValueOf(qb.EnsureArelAttribute(column), row), ValueOf(BuildQuoted(date), row);
            (Eval(qb.DateBefore(column, date), row) == Some(true) <==> SameKind(v, d) && CompareValues(v, d).value <= 0) &&
            (Eval(qb.DateAfter(column, date), row) == Some(true) <==> SameKind(v, d) && CompareValues(v, d).value >= 0)
  {
  }

  /** `date_null_or_before` also keeps every row whose column is NULL, and is
      never UNKNOWN on such a row. */
  lemma DateNullOrBeforeMeaning(qb: QueryBuilder, column: Arg, date: Arg, row: Row)
    ensures var v, d := ValueOf(qb.EnsureArelAttribute(column), row), ValueOf(BuildQuoted(date), row);
            (Eval(qb.DateNullOrBefore(column, date), row) == Some(true) <==>
               v == Nil || (SameKind(v, d) && CompareValues(v, d).value <= 0)) &&
            (v == Nil ==> Eval(qb.DateNullOrBefore(column, date), row) == Some(true))
  {
    DateBoundMeaning(qb, column, date, row);
    IsNullMeaning(qb, column, row);
  }

  /** `date_null_or_after`: NULL, or not before the date. */
  lemma DateNullOrAfterMeaning(qb: QueryBuilder, column: Arg, date: Arg, row: Row)
    ensures var v, d := ValueOf(qb.EnsureArelAttribute(column), row), ValueOf(BuildQuoted(date), row);
            (Eval(qb.DateNullOrAfter(column, date), row) == Some(true) <==>
               v == Nil || (SameKind(v, d) && CompareValues(v, d).value >= 0)) &&
            (v == Nil ==> Eval(qb.DateNullOrAfter(column, date), row) == Some(true))
  {
    DateBoundMeaning(qb, column, date, row);
    IsNullMeaning(qb, column, row);
  }

  /** `date_between` keeps the rows between the two bounds, both included. */
  lemma DateBetweenMeaning(qb: QueryBuilder, column: Arg, minDate: Arg, maxDate: Arg, row: Row)
    ensures var v := ValueOf(qb.EnsureArelAttribute(column), row);
            var lo, hi := ValueOf(BuildQuoted(minDate), row), ValueOf(BuildQuoted(maxDate), row);
            qb.DateBetween(column, minDate, maxDate).Ok? ==>
            (Eval(qb.DateBetween(column, minDate, maxDate).value, row) == Some(true) <==>
               SameKind(v, lo) && SameKind(v, hi) && CompareValues(v, lo).value >= 0 && CompareValues(v, hi).value <= 0)
  {
  }

  /** `date_in_year` keeps exactly the rows whose (valid) date falls in the year. */
  lemma DateInYearMeaning(qb: QueryBuilder, column: Arg, year: int, row: Row)
    requires ValueOf(qb.EnsureArelAttribute(column), row).DateValue?
    requires ValidDate(ValueOf(qb.EnsureArelAttribute(column), row).date)
    ensures Eval(qb.DateInYear(column, year), row) == Some(ValueOf(qb.EnsureArelAttribute(column), row).date.year == year)
  {
    var d := ValueOf(qb.EnsureArelAttribute(column), row).date;
    var n := qb.DateInYear(column, year);
    assert ValueOf(n.right.children[0], row) == DateValue(Date(year, 1, 1));
    assert ValueOf(n.right.children[1], row) == DateValue(Date(year, 12, 31));
    assert CompareDates(d, Date(year, 1, 1)) >= 0 <==> d.year >= year;
    assert CompareDates(d, Date(year, 12, 31)) <= 0 <==> d.year <= year;
  }

  /** `date_on_day` keeps exactly the rows whose (valid) timestamp falls on
      the given day, from midnight to the last microsecond. */
  lemma DateOnDayMeaning(qb: QueryBuilder, column: Arg, day: Time, row: Row)
    requires ValueOf(qb.EnsureArelAttribute(column), row).TimeValue?
    requires ValidTime(ValueOf(qb.EnsureArelAttribute(column), row).time)
    ensures Eval(qb.DateOnDay(column, day), row) == Some(ValueOf(qb.EnsureArelAttribute(column), row).time.date == day.date)
  {
    var t := ValueOf(qb.EnsureArelAttribute(column), row).time;
    var beginning := Time(day.date, 0, 0, 0, 0);
    var ending := Time(day.date, 23, 59, 59, 999999);
    EvalPair(qb.DateAfter(column, ValArg(TimeValue(beginning))), qb.DateBefore(column, ValArg(TimeValue(ending))), row);
    assert CompareTimes(t, beginning) >= 0 <==> t.date == day.date || CompareDates(t.date, day.date) > 0;
    assert CompareTimes(t, ending) <= 0 <==> t.date == day.date || CompareDates(t.date, day.date) < 0;
  }

  /** A row's (date, id) pair comes strictly before another pair: an earlier
      date, or the same date and a lower id. */
  predicate EntryBefore(date: Scalar, id: Scalar, otherDate: Scalar, otherId: Scalar)
  {
    CompareValues(date, otherDate) == Some(-1) ||
    (CompareValues(date, otherDate) == Some(0) && CompareValues(id, otherId) == Some(-1))
  }

  /** The cursor condition `col op d OR (col = d AND id op i)` is SQL's OR
      of the first comparison and the AND of the other two. */
  lemma CursorEval(op: CompareOp, col: Node, dq: Node, idColumn: Node, iq: Node, row: Row)
    requires op != Eq && !IsNil(dq)
    ensures var v, d := ValueOf(col, row), ValueOf(dq, row);
            var rowId, i := ValueOf(idColumn, row), ValueOf(iq, row);
            Eval(OrNode(Compare(op, col, dq), And([Compare(Eq, col, dq), Compare(op, idColumn, iq)])), row) ==
              Or3(CompareIn(op, v, d), And3(CompareIn(Eq, v, d), CompareIn(op, rowId, i)))
  {
    var l, e, k := Compare(op, col, dq), Compare(Eq, col, dq), Compare(op, idColumn, iq);
    EvalPair(e, k, row);
    assert Eval(And([e, k]), row) == EvalAll([e, k], row);
    assert Eval(l, row) == CompareIn(op, ValueOf(col, row), ValueOf(dq, row));
    assert Eval(e, row) == CompareIn(Eq, ValueOf(col, row), ValueOf(dq, row));
    assert Eval(k, row) == CompareIn(op, ValueOf(idColumn, row), ValueOf(iq, row));
    assert Eval(OrNode(l, And([e, k])), row) == Eval(Or(l, And([e, k])), row);
  }

  /** `earlier_entries(column, date, id)` keeps the rows whose (column, id)
      comes before (date, id): the entries before a cursor. */
  lemma EarlierEntriesMeaning(qb: QueryBuilder, column: Arg, date: Arg, id: Arg, row: Row)
    requires !IsNil(BuildQuoted(date))
    ensures Eval(qb.EarlierEntries(column, date, id), row) == Some(true) <==>
            EntryBefore(ValueOf(qb.EnsureArelAttribute(column), row), Lookup(row, "id"),
                        ValueOf(BuildQuoted(date), row), ValueOf(BuildQuoted(id), row))
    ensures SameKind(ValueOf(qb.EnsureArelAttribute(column), row), ValueOf(BuildQuoted(date), row)) &&
            SameKind(Lookup(row, "id"), ValueOf(BuildQuoted(id), row)) ==>
              Eval(qb.EarlierEntries(column, date, id), row).Some?
  {
    var col, dq, iq := qb.EnsureArelAttribute(column), BuildQuoted(date), BuildQuoted(id);
    var idColumn := qb.EnsureArelAttribute(ValArg(Sym("id")));
    var v, d := ValueOf(col, row), ValueOf(dq, row);
    var rowId, i := Lookup(row, "id"), ValueOf(iq, row);
    assert ValueOf(idColumn, row) == rowId;
    assert qb.EarlierEntries(column, date, id) ==
           OrNode(Compare(Lt, col, dq), And([Compare(Eq, col, dq), Compare(Lt, idColumn, iq)]));
    CursorEval(Lt, col, dq, idColumn, iq, row);
    CompareInOutcomes(v, d);
    CompareInOutcomes(rowId, i);
  }

  /** What a comparison's TRUE says about the two values' order. */
  lemma CompareInOutcomes(a: Scalar, b: Scalar)
    ensures CompareIn(Lt, a, b) == Some(true) <==> CompareValues(a, b) == Some(-1)
    ensures CompareIn(Gt, a, b) == Some(true) <==> CompareValues(a, b) == Some(1)
    ensures CompareIn(Eq, a, b) == Some(true) <==> CompareValues(a, b) == Some(0)
    ensures SameKind(a, b) ==> CompareValues(b, a) == Some(-CompareValues(a, b).value)
  {
    if SameKind(a, b) {
      CompareValuesAntisymmetric(a, b);
    }
  }

  /** `later_entries(column, date, id)` keeps the rows whose (column, id)
      comes after (date, id). */
  lemma LaterEntriesMeaning(qb: QueryBuilder, column: Arg, date: Arg, id: Arg, row: Row)
    requires !IsNil(BuildQuoted(date))
    ensures Eval(qb.LaterEntries(column, date, id), row) == Some(true) <==>
            EntryBefore(ValueOf(BuildQuoted(date), row), ValueOf(BuildQuoted(id), row),
                        ValueOf(qb.EnsureArelAttribute(column), row), Lookup(row, "id"))
    ensures SameKind(ValueOf(qb.EnsureArelAttribute(column), row), ValueOf(BuildQuoted(date), row)) &&
            SameKind(Lookup(row, "id"), ValueOf(BuildQuoted(id), row)) ==>
              Eval(qb.LaterEntries(column, date, id), row).Some?
  {
    var col, dq, iq := qb.EnsureArelAttribute(column), BuildQuoted(date), BuildQuoted(id);
    var idColumn := qb.EnsureArelAttribute(ValArg(Sym("id")));
    var v, d := ValueOf(col, row), ValueOf(dq, row);
    var rowId, i := Lookup(row, "id"), ValueOf(iq, row);
    assert ValueOf(idColumn, row) == rowId;
    assert qb.LaterEntries(column, date, id) ==
           OrNode(Compare(Gt, col, dq), And([Compare(Eq, col, dq), Compare(Gt, idColumn, iq)]));
    CursorEval(Gt, col, dq, idColumn, iq, row);
    CompareInOutcomes(v, d);
    CompareInOutcomes(rowId, i);
    CompareInOutcomes(d, v);
    CompareInOutcomes(i, rowId);
  }

  /** On comparable values the two cursors split the table: every row is
      earlier than the cursor, later than it, or the cursor's own entry, and
      exactly one of the three; neither predicate is ever UNKNOWN. */
  lemma EntriesPartition(qb: QueryBuilder, column: Arg, date: Arg, id: Arg, row: Row)
    requires SameKind(ValueOf(qb.EnsureArelAttribute(column), row), ValueOf(BuildQuoted(date), row))
    requires SameKind(Lookup(row, "id"), ValueOf(BuildQuoted(id), row))
    ensures Eval(qb.EarlierEntries(column, date, id), row).Some?
    ensures Eval(qb.LaterEntries(column, date, id), row).Some?
    ensures var v, d := ValueOf(qb.EnsureArelAttribute(column), row), ValueOf(BuildQuoted(date), row);
            var rowId, i := Lookup(row, "id"), ValueOf(BuildQuoted(id), row);
            (if Eval(qb.EarlierEntries(column, date, id), row) == Some(true) then 1 else 0) +
            (if Eval(qb.LaterEntries(column, date, id), row) == Some(true) then 1 else 0) +
            (if v == d && rowId == i then 1 else 0) == 1
  {
    var v, d := ValueOf(qb.EnsureArelAttribute(column), row), ValueOf(BuildQuoted(date), row);
    var rowId, i := Lookup(row, "id"), ValueOf(BuildQuoted(id), row);
    assert !IsNil(BuildQuoted(date));
    EarlierEntriesMeaning(qb, column, date, id, row);
    LaterEntriesMeaning(qb, column, date, id, row);
    CompareValuesAntisymmetric(v, d);
    CompareValuesAntisymmetric(rowId, i);
  }
}
