/** The SQL the query builder produces for the `Article` model (table
    `articles`), worked out from the general rendering lemmas. */
module BuilderExamples {
  import opened Text
  import opened Values
  import opened Nodes
  import opened TextArrays
  import opened Builder

  lemma PublishedAtName()
    ensures QuoteColumnName("published_at") == "\"published_at\""
  {
    PlainName("published_at", "\"published_at\"");
  }

  lemma FeaturedName()
    ensures QuoteColumnName("featured") == "\"featured\""
  {
    PlainName("featured", "\"featured\"");
  }

  lemma PublishedAtText()
    ensures "\"articles\"" + "." + "\"published_at\"" == "\"articles\".\"published_at\""
  {
  }

  lemma FeaturedText()
    ensures "\"articles\"" + "." + "\"featured\"" == "\"articles\".\"featured\""
  {
  }

  lemma PublishedAt()
    ensures Render(Attribute("articles", "published_at")) == Ok("\"articles\".\"published_at\"")
  {
    ArticlesQuoted();
    PublishedAtName();
    PublishedAtText();
  }

  lemma Featured()
    ensures Render(Attribute("articles", "featured")) == Ok("\"articles\".\"featured\"")
  {
    ArticlesQuoted();
    FeaturedName();
    FeaturedText();
  }

  /** `function('SOMEFN', 0, 1, 2)` prints `SOMEFN(0, 1, 2)`. */
  lemma FunctionExample(qb: QueryBuilder)
    ensures Render(qb.Function("SOMEFN", [Leaf(ValArg(Int(0))), Leaf(ValArg(Int(1))), Leaf(ValArg(Int(2)))])) == Ok("SOMEFN(0, 1, 2)")
  {
    var args := [Leaf(ValArg(Int(0))), Leaf(ValArg(Int(1))), Leaf(ValArg(Int(2)))];
    RawItemsEach(args);
    assert RawItems(args) == [Bare(Int(0)), Bare(Int(1)), Bare(Int(2))];
    assert NatToString(0) == "0" && NatToString(1) == "1" && NatToString(2) == "2";
    RenderAllEach(RawItems(args), ["0", "1", "2"]);
    FunctionRendering(qb, "SOMEFN", args, ["0", "1", "2"]);
    SomeFnText();
  }

  lemma SomeFnText()
    ensures "SOMEFN" + "(" + Join(["0", "1", "2"], ", ") + ")" == "SOMEFN(0, 1, 2)"
  {
    assert ["0", "1", "2"][..2] == ["0", "1"];
    assert ["0", "1"][..1] == ["0"];
  }

  /** `coalesce(arel_table[:id], 2, 'foo')` prints
      `COALESCE("articles"."id", 2, 'foo')`: the String is quoted, the
      Integer is not. */
  lemma CoalesceExample(qb: QueryBuilder)
    requires qb.tableName == "articles"
    ensures Render(qb.Coalesce([Leaf(NodeArg(qb.Column("id"))), Leaf(ValArg(Int(2))), Leaf(ValArg(Str("foo")))]))
            == Ok("COALESCE(\"articles\".\"id\", 2, 'foo')")
  {
    var args := [Leaf(NodeArg(qb.Column("id"))), Leaf(ValArg(Int(2))), Leaf(ValArg(Str("foo")))];
    var r := qb.Coalesce(args);
    assert RawItem(args[0]) == Attribute("articles", "id");
    assert RawItem(args[1]) == Bare(Int(2));
    assert r.args == [Attribute("articles", "id"), Bare(Int(2)), Quoted(Str("foo"))];
    ArticlesId();
    TwoBare();
    FooQuoted();
    RenderAllThree(Attribute("articles", "id"), Bare(Int(2)), Quoted(Str("foo")), "\"articles\".\"id\"", "2", "'foo'");
    CoalesceText();
  }

  lemma TwoBare()
    ensures Render(Bare(Int(2))) == Ok("2")
  {
    assert NatToString(2) == "2";
  }

  lemma CoalesceText()
    ensures "COALESCE" + "(" + Join(["\"articles\".\"id\"", "2", "'foo'"], ", ") + ")" == "COALESCE(\"articles\".\"id\", 2, 'foo')"
  {
    assert ["\"articles\".\"id\"", "2", "'foo'"][..2] == ["\"articles\".\"id\"", "2"];
    assert ["\"articles\".\"id\"", "2"][..1] == ["\"articles\".\"id\""];
  }

  /** `cast_as_array([1, 'foo', :bar])` is `(1), ('foo'), ('bar')`. */
  lemma CastAsArrayExample(qb: QueryBuilder)
    ensures qb.CastAsArray([Int(1), Str("foo"), Sym("bar")]) == "(1), ('foo'), ('bar')"
  {
    assert NatToString(1) == "1";
    var items := [Int(1), Str("foo"), Sym("bar")];
    assert CastItem(items[0]) == "(1)";
    assert CastItem(items[1]) == "('foo')";
    assert CastItem(items[2]) == "('bar')";
    assert seq(3, i requires 0 <= i < 3 => CastItem(items[i])) == ["(1)", "('foo')", "('bar')"];
    CastAsArrayText();
  }

  lemma CastAsArrayText()
    ensures Join(["(1)", "('foo')", "('bar')"], ", ") == "(1), ('foo'), ('bar')"
  {
    assert ["(1)", "('foo')", "('bar')"][..2] == ["(1)", "('foo')"];
    assert ["(1)", "('foo')"][..1] == ["(1)"];
  }

  /** `is_null(:published_at)` prints `"articles"."published_at" IS NULL`. */
  lemma IsNullExample(qb: QueryBuilder)
    requires qb.tableName == "articles"
    ensures Render(qb.IsNull(ValArg(Sym("published_at")))) == Ok("\"articles\".\"published_at\" IS NULL")
  {
    PublishedAt();
    IsNullRendering(qb, ValArg(Sym("published_at")), "\"articles\".\"published_at\"");
    IsNullText();
  }

  lemma IsNullText()
    ensures "\"articles\".\"published_at\"" + " IS NULL" == "\"articles\".\"published_at\" IS NULL"
  {
  }

  /** `count_by_boolean(:published_at)`. */
  lemma CountByBooleanExample(qb: QueryBuilder)
    requires qb.tableName == "articles"
    ensures Render(qb.CountByBoolean(ValArg(Sym("published_at")))) == Ok("COUNT(CASE WHEN \"articles\".\"published_at\" THEN 1 END)")
  {
    PublishedAt();
    CountByBooleanRendering(qb, ValArg(Sym("published_at")), "\"articles\".\"published_at\"");
    PublishedCountText();
  }

  lemma PublishedCountText()
    ensures "COUNT(CASE WHEN " + "\"articles\".\"published_at\"" + " THEN 1 END)" == "COUNT(CASE WHEN \"articles\".\"published_at\" THEN 1 END)"
  {
  }

  /** `sum_by_boolean(:featured)`. */
  lemma SumByBooleanExample(qb: QueryBuilder)
    requires qb.tableName == "articles"
    ensures Render(qb.SumByBoolean(ValArg(Sym("featured")), None, None)) == Ok("SUM(CASE WHEN \"articles\".\"featured\" THEN 1 ELSE 0 END)")
  {
    Featured();
    SumByBooleanDefaults(qb, ValArg(Sym("featured")), "\"articles\".\"featured\"");
    FeaturedSumText();
  }

  lemma FeaturedSumText()
    ensures "SUM(CASE WHEN " + "\"articles\".\"featured\"" + " THEN 1 ELSE 0 END)" == "SUM(CASE WHEN \"articles\".\"featured\" THEN 1 ELSE 0 END)"
  {
  }

  /** `date_before_interval(:published_at, 30.days)`: a Duration is quoted
      as its number of seconds. */
  lemma BeforeIntervalExample(qb: QueryBuilder)
    requires qb.tableName == "articles"
    ensures Render(qb.DateBeforeInterval(ValArg(Sym("published_at")), Duration(2592000)))
            == Ok("\"articles\".\"published_at\" <= CURRENT_TIMESTAMP - INTERVAL 2592000")
  {
    PublishedAt();
    BeforeIntervalRendering(qb, ValArg(Sym("published_at")), Duration(2592000), "\"articles\".\"published_at\"");
    ThirtyDays();
    IntervalText();
  }

  lemma ThirtyDays()
    ensures Quote(Duration(2592000)) == "2592000"
  {
    SecondsDigits();
  }

  lemma SecondsDigits()
    ensures NatToString(2592000) == "2592000"
  {
    assert NatToString(2) == "2";
    assert NatToString(25) == "25";
    assert NatToString(259) == "259";
    assert NatToString(2592) == "2592";
    assert NatToString(25920) == "25920";
    assert NatToString(259200) == "259200";
  }

  lemma IntervalText()
    ensures "\"articles\".\"published_at\"" + " <= " + "CURRENT_TIMESTAMP - INTERVAL " + "2592000"
            == "\"articles\".\"published_at\" <= CURRENT_TIMESTAMP - INTERVAL 2592000"
  {
  }

  /** Raw SQL bounds are Ruby Strings, so they form a Range:
      `date_between(:published_at, Arel.sql('CURRENT_DATE - 7'), Arel.sql('CURRENT_DATE'))`
      prints `"articles"."published_at" BETWEEN CURRENT_DATE - 7 AND CURRENT_DATE`. */
  lemma DateBetweenRawSqlExample(qb: QueryBuilder)
    requires qb.tableName == "articles"
    ensures var r := qb.DateBetween(ValArg(Sym("published_at")), NodeArg(SqlLiteral("CURRENT_DATE - 7")), NodeArg(SqlLiteral("CURRENT_DATE")));
            r.Ok? && Render(r.value) == Ok("\"articles\".\"published_at\" BETWEEN CURRENT_DATE - 7 AND CURRENT_DATE")
  {
    PublishedAt();
    DateBetweenRendering(qb, ValArg(Sym("published_at")), NodeArg(SqlLiteral("CURRENT_DATE - 7")), NodeArg(SqlLiteral("CURRENT_DATE")),
                         "\"articles\".\"published_at\"", "CURRENT_DATE - 7", "CURRENT_DATE");
    BetweenRawSqlText();
  }

  lemma BetweenRawSqlText()
    ensures "\"articles\".\"published_at\"" + " BETWEEN " + ("CURRENT_DATE - 7" + " AND " + "CURRENT_DATE")
            == "\"articles\".\"published_at\" BETWEEN CURRENT_DATE - 7 AND CURRENT_DATE"
  {
  }

  /** Which bounds `Range.new` accepts: a String with raw SQL, a Date with an
      Integer, a Date with a Time; and which it refuses with ArgumentError: an
      Integer with a Date or a String, two different attribute nodes. */
  lemma DateBetweenBounds(qb: QueryBuilder, column: Arg)
    ensures qb.DateBetween(column, ValArg(Str("2024-01-01")), NodeArg(SqlLiteral("CURRENT_DATE"))).Ok?
    ensures qb.DateBetween(column, ValArg(DateValue(Date(2024, 1, 1))), ValArg(Int(5))).Ok?
    ensures qb.DateBetween(column, ValArg(DateValue(Date(2024, 1, 1))), ValArg(TimeValue(Time(Date(2024, 1, 2), 0, 0, 0, 0)))).Ok?
    ensures qb.DateBetween(column, ValArg(Int(5)), ValArg(DateValue(Date(2024, 1, 1)))) == Err(ArgumentError)
    ensures qb.DateBetween(column, ValArg(Int(5)), ValArg(Str("x"))) == Err(ArgumentError)
    ensures qb.DateBetween(column, NodeArg(Attribute("articles", "a")), NodeArg(Attribute("articles", "b"))) == Err(ArgumentError)
  {
  }
}
