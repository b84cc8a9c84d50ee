/** `ArelHelpers::ActiveRecordHelpers` (lib/arel_helpers/active_record_helpers.rb):
    class methods mixed into every model: the memoised query builder, the
    functions that delegate to it, CAST, CROSS JOIN and sub-select helpers. */
module ActiveRecordHelpers {
  import opened Text
  import opened Values
  import opened Nodes
  import Builder

  /** `AREL_NOW`: the SQL function call `NOW()`. */
  const AREL_NOW: Node := NamedFunction("NOW", [])

  /** One model class, with the builder it creates on first use. */
  class ModelClass {
    /** The model's table name. */
    const tableName: string
    /** `@query_builder`: unset until `query_builder` is first called. */
    var queryBuilder: Builder.QueryBuilder?

    /** The memoised builder, once there is one, is over this model's table. */
    predicate Valid()
      reads this
    {
      queryBuilder != null ==> queryBuilder.tableName == tableName
    }

    constructor (tableName: string)
      ensures this.tableName == tableName && queryBuilder == null && Valid()
    {
      this.tableName := tableName;
      queryBuilder := null;
    }

    /** `query_builder`: `@query_builder ||= QueryBuilder.new(self)`. The
        first call creates a builder over this table; every later call
        returns that same object. */
    method QueryBuilder() returns (qb: Builder.QueryBuilder)
      requires Valid()
      modifies this
      ensures Valid() && queryBuilder == qb && qb.tableName == tableName
      ensures old(queryBuilder) != null ==> qb == old(queryBuilder)
      ensures old(queryBuilder) == null ==> fresh(qb)
    {
      if queryBuilder == null {
        queryBuilder := new Builder.QueryBuilder(tableName);
      }
      qb := queryBuilder;
    }

    /** `arel_helper`: an alias of `query_builder`. */
    method ArelHelper() returns (qb: Builder.QueryBuilder)
      requires Valid()
      modifies this
      ensures Valid() && queryBuilder == qb && qb.tableName == tableName
      ensures old(queryBuilder) != null ==> qb == old(queryBuilder)
      ensures old(queryBuilder) == null ==> fresh(qb)
    {
      qb := QueryBuilder();
    }

    /** `arel_fn(name, *args)`: the builder's `function`. */
    method ArelFn(name: string, args: seq<Item>) returns (r: Node)
      requires Valid()
      modifies this
      ensures Valid() && queryBuilder != null && r == queryBuilder.Function(name, args)
      ensures old(queryBuilder) != null ==> queryBuilder == old(queryBuilder)
      ensures old(queryBuilder) == null ==> fresh(queryBuilder)
    {
      var qb := QueryBuilder();
      r := qb.Function(name, args);
    }

    /** `arel_coalesce(*args)`: the builder's `coalesce`. */
    method ArelCoalesce(args: seq<Item>) returns (r: Node)
      requires Valid()
      modifies this
      ensures Valid() && queryBuilder != null && r == queryBuilder.Coalesce(args)
      ensures old(queryBuilder) != null ==> queryBuilder == old(queryBuilder)
      ensures old(queryBuilder) == null ==> fresh(queryBuilder)
    {
      var qb := QueryBuilder();
      r := qb.Coalesce(args);
    }

    /** `arel_concat(*args)`: the builder's `concat`. */
    method ArelConcat(args: seq<Item>) returns (r: Node)
      requires Valid()
      modifies this
      ensures Valid() && queryBuilder != null && r == queryBuilder.Concat(args)
      ensures old(queryBuilder) != null ==> queryBuilder == old(queryBuilder)
      ensures old(queryBuilder) == null ==> fresh(queryBuilder)
    {
      var qb := QueryBuilder();
      r := qb.Concat(args);
    }
  }

  /** Calling `query_builder` twice hands back one object: the second call
      returns the builder the first one made, and both are over the model's
      table. */
  method QueryBuilderMemoised(m: ModelClass) returns (first: Builder.QueryBuilder, second: Builder.QueryBuilder)
    requires m.Valid()
    modifies m
    ensures first == second && first.tableName == m.tableName
  {
    first := m.QueryBuilder();
    second := m.ArelHelper();
  }

  // ------------------------------------------------------------ CAST

  /** `arel_cast(thing, type)` without the delegation: `CAST(thing AS type)`,
      the thing passed through `build_quoted`, a String or Symbol type made
      raw SQL, any other type kept as given. */
  function ArelCast(thing: Arg, castType: Arg): (r: Node)
    ensures r.NamedFunction? && r.name == "CAST" && |r.args| == 1
    ensures r.args[0].As? && r.args[0].left == BuildQuoted(thing)
    ensures castType.ValArg? && (castType.value.Str? || castType.value.Sym?) ==> r.args[0].right == SqlLiteral(ToS(castType.value))
    ensures castType.NodeArg? ==> r.args[0].right == castType.node
  {
    var ty := if castType.ValArg? && (castType.value.Str? || castType.value.Sym?) then SqlLiteral(ToS(castType.value)) else RawNode(castType);
    NamedFunction("CAST", [As(BuildQuoted(thing), ty)])
  }

  /** `arel_cast` prints `CAST(thing AS type)`. */
  lemma ArelCastRendering(thing: Arg, castType: Arg, t: string, ty: string)
    requires Render(BuildQuoted(thing)) == Ok(t)
    requires Render(ArelCast(thing, castType).args[0].right) == Ok(ty)
    ensures Render(ArelCast(thing, castType)) == Ok("CAST(" + (t + " AS " + ty) + ")")
  {
    var body := As(BuildQuoted(thing), ArelCast(thing, castType).args[0].right);
    SingleArgument("CAST", body);
    assert "CAST" + "(" == "CAST(";
  }

  /** The type may be written as a String, a Symbol or raw SQL: all three
      build the same CAST. */
  lemma ArelCastTypeSpellings(thing: Arg, ty: string)
    ensures ArelCast(thing, ValArg(Str(ty))) == ArelCast(thing, ValArg(Sym(ty)))
    ensures ArelCast(thing, ValArg(Str(ty))) == ArelCast(thing, NodeArg(SqlLiteral(ty)))
  {
  }

  // ------------------------------------------------------------ CROSS JOIN

  /** What `arel_cross_join` may be given: a node (a `TableAlias` is
      accepted, and so is a `SqlLiteral`, which is a Ruby String), an
      `Arel::Table`, an object answering `table_name` (a model or a
      relation), or a plain value (a String or Symbol is accepted). */
  datatype JoinTarget =
    | NodeTarget(node: Node)
    | ArelTable(name: string)
    | TableNamed(tableName: string)
    | ValueTarget(value: Scalar)

  /** `arel_cross_join(against)`: against a table alias, `CROSS JOIN` and the
      alias's own SQL; against a table, a model or a name (raw SQL included,
      being a String), `CROSS JOIN` and the quoted table name; anything else
      raises a TypeError. */
  function ArelCrossJoin(against: JoinTarget): (r: Result<Node>)
    ensures r.Ok? ==> r.value.SqlLiteral?
    ensures against.NodeTarget? && against.node.TableAlias? && Render(against.node).Ok? ==>
              r == Ok(SqlLiteral("CROSS JOIN " + Render(against.node).value))
    ensures against.ArelTable? ==> r == Ok(SqlLiteral("CROSS JOIN " + QuoteTableName(against.name)))
    ensures against.TableNamed? ==> r == Ok(SqlLiteral("CROSS JOIN " + QuoteTableName(against.tableName)))
    ensures against.ValueTarget? && (against.value.Str? || against.value.Sym?) ==>
              r == Ok(SqlLiteral("CROSS JOIN " + QuoteTableName(ToS(against.value))))
    ensures against.NodeTarget? && against.node.SqlLiteral? ==>
              r == Ok(SqlLiteral("CROSS JOIN " + QuoteTableName(against.node.text)))
    ensures ((against.NodeTarget? && !against.node.TableAlias? && !against.node.SqlLiteral?) ||
             (against.ValueTarget? && !against.value.Str? && !against.value.Sym?)) ==> r == Err(TypeError)
  {
    match against
    case NodeTarget(n) =>
      if n.TableAlias? then
        match Render(n)
        case Err(e) => Err(e)
        case Ok(sql) => Ok(SqlLiteral("CROSS JOIN " + sql))
      else if n.SqlLiteral? then Ok(SqlLiteral("CROSS JOIN " + QuoteTableName(n.text)))
      else Err(TypeError)
    case ArelTable(name) => Ok(SqlLiteral("CROSS JOIN " + QuoteTableName(name)))
    case TableNamed(name) => Ok(SqlLiteral("CROSS JOIN " + QuoteTableName(name)))
    case ValueTarget(v) =>
      if v.Str? || v.Sym? then Ok(SqlLiteral("CROSS JOIN " + QuoteTableName(ToS(v))))
      else Err(TypeError)
  }

  /** Every way of naming a table joins against the same quoted name. */
  lemma CrossJoinNamesAgree(name: string)
    ensures ArelCrossJoin(ArelTable(name)) == ArelCrossJoin(TableNamed(name))
    ensures ArelCrossJoin(ArelTable(name)) == ArelCrossJoin(ValueTarget(Str(name)))
    ensures ArelCrossJoin(ArelTable(name)) == ArelCrossJoin(ValueTarget(Sym(name)))
    ensures ArelCrossJoin(ArelTable(name)) == ArelCrossJoin(NodeTarget(SqlLiteral(name)))
  {
  }

  // ------------------------------------------------------------ sub-selects

  /** `arel_table_from_query(query, table_name)`: the query's SQL (given as
      text) in parentheses, aliased as `table_name.to_s`, and the name of the
      table to refer to it by. */
  function ArelTableFromQuery(querySql: string, tableName: Scalar): (r: (Node, string))
    ensures r.0 == TableAlias(Grouping(SqlLiteral(querySql)), r.1) && r.1 == ToS(tableName)
  {
    (TableAlias(Grouping(SqlLiteral(querySql)), ToS(tableName)), ToS(tableName))
  }

  /** The alias prints `(query) "name"`, and cross joining against it joins
      the sub-select under that name. */
  lemma TableFromQueryRendering(querySql: string, tableName: Scalar)
    ensures var name := QuoteTableName(ToS(tableName));
            Render(ArelTableFromQuery(querySql, tableName).0) == Ok("(" + querySql + ") " + name) &&
            ArelCrossJoin(NodeTarget(ArelTableFromQuery(querySql, tableName).0)) ==
              Ok(SqlLiteral("CROSS JOIN " + ("(" + querySql + ") " + name)))
  {
    var name := QuoteTableName(ToS(tableName));
    GroupedLiteralRendering(querySql);
    AliasRendering(Grouping(SqlLiteral(querySql)), ToS(tableName), "(" + querySql + ")");
    AliasText(querySql, name);
  }

  lemma GroupedLiteralRendering(querySql: string)
    ensures Render(Grouping(SqlLiteral(querySql))) == Ok("(" + querySql + ")")
  {
  }

  lemma AliasRendering(aliased: Node, name: string, text: string)
    requires Render(aliased) == Ok(text)
    ensures Render(TableAlias(aliased, name)) == Ok("" + text + (" " + QuoteTableName(name)))
  {
  }

  lemma AliasText(querySql: string, name: string)
    ensures "" + ("(" + querySql + ")") + (" " + name) == "(" + querySql + ") " + name
  {
    AppendAssoc("(" + querySql, ")", " " + name);
    AppendAssoc("(" + querySql, ")", " ");
    AppendAssoc("(" + querySql + ")", " ", name);
    assert "" + ("(" + querySql + ")") == "(" + querySql + ")";
    assert ")" + " " == ") ";
  }

  /** `Arel::SelectManager` for a `SELECT ... FROM table` with projections only. */
  datatype SelectManager = SelectManager(projections: seq<Node>, table: string)

  /** A projection as `project` stores it: a String or Symbol becomes raw
      SQL, anything else is kept. */
  function Projection(key: Arg): (r: Node)
    ensures key.ValArg? && (key.value.Str? || key.value.Sym?) ==> Render(r) == Ok(ToS(key.value))
    ensures key.NodeArg? ==> r == key.node
  {
    if key.ValArg? && (key.value.Str? || key.value.Sym?) then SqlLiteral(ToS(key.value)) else RawNode(key)
  }

  /** `arel_from_with(keys:, table_name:)`: `Arel::Table.new(table_name).project(*keys)`. */
  function ArelFromWith(keys: seq<Arg>, tableName: Scalar): (r: SelectManager)
    ensures r.table == ToS(tableName) && |r.projections| == |keys|
    ensures forall i :: 0 <= i < |keys| && keys[i].ValArg? && (keys[i].value.Str? || keys[i].value.Sym?) ==>
              r.projections[i] == SqlLiteral(ToS(keys[i].value))
  {
    SelectManager(seq(|keys|, i requires 0 <= i < |keys| => Projection(keys[i])), ToS(tableName))
  }

  /** The SQL of such a select: `SELECT`, the projections joined by ", "
      when there are any, then `FROM` and the quoted table. */
  function SelectSql(sm: SelectManager): (r: Result<string>)
    ensures r.Ok? <==> RenderAll(sm.projections).Ok?
    ensures r.Ok? ==> var tail := " FROM " + QuoteTableName(sm.table);
              |r.value| >= 6 + |tail| && r.value[..6] == "SELECT" && r.value[|r.value| - |tail|..] == tail
  {
    match RenderAll(sm.projections)
    case Err(e) => Err(e)
    case Ok(ps) =>
      var cols := if |ps| == 0 then "" else " " + Join(ps, ", ");
      var tail := " FROM " + QuoteTableName(sm.table);
      var head := "SELECT" + cols;
      assert head[..6] == "SELECT" && (head + tail)[..6] == head[..6];
      assert (head + tail)[|head|..] == tail;
      AppendAssoc(head, " FROM ", QuoteTableName(sm.table));
      Ok("SELECT" + cols + " FROM " + QuoteTableName(sm.table))
  }

  /** With String or Symbol keys the select names exactly those columns,
      unquoted and in order, from the quoted table. */
  lemma ArelFromWithRendering(names: seq<string>, tableName: Scalar)
    requires |names| >= 1
    ensures var keys := seq(|names|, i requires 0 <= i < |names| => ValArg(Sym(names[i])));
            SelectSql(ArelFromWith(keys, tableName)) ==
              Ok("SELECT " + Join(names, ", ") + " FROM " + QuoteTableName(ToS(tableName)))
  {
    var keys := seq(|names|, i requires 0 <= i < |names| => ValArg(Sym(names[i])));
    var sm := ArelFromWith(keys, tableName);
    ProjectionsAsNamed(names, tableName);
    assert SelectSql(sm) == Ok("SELECT" + (" " + Join(names, ", ")) + " FROM " + QuoteTableName(ToS(tableName)));
    SelectText(Join(names, ", "), QuoteTableName(ToS(tableName)));
  }

  /** Symbol keys are projected as raw SQL of their names, in order. */
  lemma ProjectionsAsNamed(names: seq<string>, tableName: Scalar)
    ensures var keys := seq(|names|, i requires 0 <= i < |names| => ValArg(Sym(names[i])));
            RenderAll(ArelFromWith(keys, tableName).projections) == Ok(names)
  {
    var keys := seq(|names|, i requires 0 <= i < |names| => ValArg(Sym(names[i])));
    var sm := ArelFromWith(keys, tableName);
    forall i | 0 <= i < |names|
      ensures Render(sm.projections[i]) == Ok(names[i])
    {
      assert sm.projections[i] == SqlLiteral(names[i]);
    }
    RenderAllEach(sm.projections, names);
  }

  lemma SelectText(cols: string, table: string)
    ensures "SELECT" + (" " + cols) + " FROM " + table == "SELECT " + cols + " FROM " + table
  {
    AppendAssoc("SELECT", " ", cols);
    assert "SELECT" + " " == "SELECT ";
  }

  /** `AREL_NOW` prints `NOW()`. */
  lemma ArelNowRendering()
    ensures Render(AREL_NOW) == Ok("NOW()")
  {
    assert RenderAll([]) == Ok([]);
    assert "NOW" + "(" + Join([], ", ") + ")" == "NOW()";
  }
}
