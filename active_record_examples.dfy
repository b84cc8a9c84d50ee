/** The SQL of the model helpers for the `Article` model, worked out from the
    general lemmas. */
module ActiveRecordExamples {
  import opened Text
  import opened Values
  import opened Nodes
  import opened TextArrays
  import opened ActiveRecordHelpers

  lemma AuthorsName()
    ensures QuoteTableName("authors") == "\"authors\""
  {
    PlainName("authors", "\"authors\"");
  }

  lemma CrossJoinAuthorsText()
    ensures "CROSS JOIN " + "\"authors\"" == "CROSS JOIN \"authors\""
  {
  }

  /** A table, a model, a String (raw SQL included) and a Symbol all give
      `CROSS JOIN "authors"`. */
  lemma CrossJoinAuthors()
    ensures ArelCrossJoin(ArelTable("authors")) == Ok(SqlLiteral("CROSS JOIN \"authors\""))
    ensures ArelCrossJoin(TableNamed("authors")) == Ok(SqlLiteral("CROSS JOIN \"authors\""))
    ensures ArelCrossJoin(ValueTarget(Str("authors"))) == Ok(SqlLiteral("CROSS JOIN \"authors\""))
    ensures ArelCrossJoin(ValueTarget(Sym("authors"))) == Ok(SqlLiteral("CROSS JOIN \"authors\""))
    ensures ArelCrossJoin(NodeTarget(SqlLiteral("authors"))) == Ok(SqlLiteral("CROSS JOIN \"authors\""))
  {
    AuthorsName();
    CrossJoinAuthorsText();
    CrossJoinNamesAgree("authors");
  }

  lemma CrossJoinAliasText()
    ensures "CROSS JOIN " + ("(" + "1 AS t" + ") " + "\"authors\"") == "CROSS JOIN (1 AS t) \"authors\""
  {
  }

  /** A table alias is joined by its own SQL: `CROSS JOIN (1 AS t) "authors"`. */
  lemma CrossJoinAlias()
    ensures ArelCrossJoin(NodeTarget(TableAlias(Grouping(SqlLiteral("1 AS t")), "authors")))
            == Ok(SqlLiteral("CROSS JOIN (1 AS t) \"authors\""))
  {
    AuthorsName();
    TableFromQueryRendering("1 AS t", Str("authors"));
    CrossJoinAliasText();
  }

  /** Anything that names no table is refused. */
  lemma CrossJoinRefused()
    ensures ArelCrossJoin(ValueTarget(Int(5))) == Err(TypeError)
    ensures ArelCrossJoin(ValueTarget(Nil)) == Err(TypeError)
    ensures ArelCrossJoin(NodeTarget(Attribute("articles", "id"))) == Err(TypeError)
  {
  }

  lemma CastText()
    ensures "CAST(" + ("\"articles\".\"id\"" + " AS " + "String") + ")" == "CAST(\"articles\".\"id\" AS String)"
  {
  }

  /** `arel_cast(table[:id], 'String')` prints `CAST("articles"."id" AS String)`. */
  lemma ArelCastExample()
    ensures Render(ArelCast(NodeArg(Attribute("articles", "id")), ValArg(Str("String")))) == Ok("CAST(\"articles\".\"id\" AS String)")
  {
    ArticlesId();
    ArelCastRendering(NodeArg(Attribute("articles", "id")), ValArg(Str("String")), "\"articles\".\"id\"", "String");
    CastText();
  }

  lemma FooName()
    ensures QuoteTableName("foo") == "\"foo\""
  {
    PlainName("foo", "\"foo\"");
  }

  lemma FooSelectText()
    ensures "SELECT " + "id, published_at" + " FROM " + "\"foo\"" == "SELECT id, published_at FROM \"foo\""
  {
  }

  /** `arel_from_with(keys: [:id, :published_at], table_name: 'foo')`. */
  lemma ArelFromWithExample()
    ensures SelectSql(ArelFromWith([ValArg(Sym("id")), ValArg(Sym("published_at"))], Str("foo")))
            == Ok("SELECT id, published_at FROM \"foo\"")
  {
    var names := ["id", "published_at"];
    ArelFromWithRendering(names, Str("foo"));
    assert seq(|names|, i requires 0 <= i < |names| => ValArg(Sym(names[i]))) == [ValArg(Sym("id")), ValArg(Sym("published_at"))];
    assert Join(names, ", ") == "id, published_at" by {
      assert names[..1] == ["id"];
    }
    FooName();
    FooSelectText();
  }
}
