/** PostgreSQL text arrays: the `TextArray` node (lib/arel_helpers/arel/nodes/text_array.rb)
    and its support module (lib/arel_helpers/arel/text_array_support.rb): the
    visitor rule that prints `ARRAY[v1,v2,...]::text[]` and `build_text_array`. */
module TextArrays {
  import opened Text
  import opened Values
  import opened Nodes

  /** Number of non-list leaves in nested Ruby Arrays. */
  function LeafCount(items: seq<Item>): nat
  {
    if |items| == 0 then 0
    else
      LeafCount(items[1..]) +
      match items[0]
      case Leaf(_) => 1
      case List(inner) => LeafCount(inner)
  }

  /** `TextArray.new(*values)`: the values flattened, each passed through
      `build_quoted`, and stored in that order. */
  function NewTextArray(values: seq<Item>): (r: Node)
    ensures r.TextArray?
    ensures |r.values| == |Flatten(values)|
    ensures forall i :: 0 <= i < |r.values| ==> r.values[i] == BuildQuoted(Flatten(values)[i])
  {
    var flat := Flatten(values);
    TextArray(seq(|flat|, i requires 0 <= i < |flat| => BuildQuoted(flat[i])))
  }

  /** `Arel::Nodes.build_text_array(*values)` is `TextArray.new(*values)`. */
  function BuildTextArray(values: seq<Item>): (r: Node)
    ensures r == NewTextArray(values)
  {
    NewTextArray(values)
  }

  lemma {:induction false} FlattenAppend(a: seq<Item>, b: seq<Item>)
    ensures Flatten(a + b) == Flatten(a) + Flatten(b)
    decreases |b|
  {
    if |b| == 0 {
      assert a + b == a;
    } else {
      var b' := b[..|b| - 1];
      var ab := a + b;
      assert ab[..|ab| - 1] == a + b';
      assert ab[|ab| - 1] == b[|b| - 1];
      FlattenAppend(a, b');
      assert Flatten(ab) == Flatten(a + b') + Leaves(b[|b| - 1]);
      assert Flatten(b) == Flatten(b') + Leaves(b[|b| - 1]);
    }
  }

  /** Flattening keeps every leaf: the stored count is the number of leaves. */
  lemma {:induction false} FlattenCount(items: seq<Item>)
    ensures |Flatten(items)| == LeafCount(items)
  {
    if |items| > 0 {
      assert items == [items[0]] + items[1..];
      FlattenAppend([items[0]], items[1..]);
      FlattenCount(items[1..]);
      assert [items[0]][..0] == [];
      match items[0]
      case Leaf(_) =>
      case List(inner) => FlattenCount(inner);
    }
  }

  /** Arguments that are not lists are stored in the order given. */
  lemma {:induction false} FlattenFlat(args: seq<Arg>)
    ensures Flatten(seq(|args|, i requires 0 <= i < |args| => Leaf(args[i]))) == args
  {
    if |args| > 0 {
      var init := args[..|args| - 1];
      FlattenFlat(init);
      assert seq(|args|, i requires 0 <= i < |args| => Leaf(args[i]))[..|args| - 1] ==
             seq(|init|, i requires 0 <= i < |init| => Leaf(init[i]));
    }
  }

  /** Each stored element prints by its own rule: a plain value as its
      quoted literal, a node (an attribute, say) as that node. */
  lemma StoredElementRendering(values: seq<Item>, i: nat)
    requires i < |Flatten(values)|
    ensures var a := Flatten(values)[i];
            var stored := NewTextArray(values).values[i];
            Render(stored) == if a.ValArg? then Ok(Quote(a.value)) else Render(a.node)
  {
  }

  /** The text-array visitor rule: the joined elements between the array
      start and end markers, or the first element's failure. */
  lemma TextArrayRule(o: seq<Node>)
    ensures Render(TextArray(o)) ==
            match RenderAll(o)
            case Err(e) => Err(e)
            case Ok(parts) => Ok(ArrayStart + Join(parts, ArraySep) + ArrayEnd)
  {
  }

  /** `visit_Arel_Nodes_TextArray`: writes ARRAY_START, then each element
      followed by ARRAY_SEP unless it is the last one, then ARRAY_END. */
  method VisitTextArray(o: seq<Node>) returns (r: Result<string>)
    ensures r == Render(TextArray(o))
  {
    var collector := ArrayStart;
    var lastIndex := |o| - 1;
    ghost var parts: seq<string> := [];
    var index := 0;
    while index < |o|
      invariant 0 <= index <= |o|
      invariant RenderAll(o[..index]) == Ok(parts)
      invariant index == 0 ==> collector == ArrayStart
      invariant 0 < index < |o| ==> collector == ArrayStart + Join(parts, ArraySep) + ArraySep
      invariant 0 < index == |o| ==> collector == ArrayStart + Join(parts, ArraySep)
    {
      RenderAllStep(o, index);
      var val := Render(o[index]);
      if val.Err? {
        RenderAllPrefixFailure(o, index + 1);
        TextArrayRule(o);
        return Err(val.error);
      }
      ghost var before := collector;
      collector := collector + val.value;
      CollectorStep(parts, val.value, before, index);
      if index != lastIndex {
        collector := collector + ArraySep;
      }
      parts := parts + [val.value];
      index := index + 1;
    }
    assert o[..|o|] == o;
    TextArrayRule(o);
    if |o| == 0 {
      assert ArrayStart + Join(parts, ArraySep) == ArrayStart;
    }
    r := Ok(collector + ArrayEnd);
  }

  /** One more element written after the separator (or first) extends the
      collected text to the join of one more part. */
  lemma CollectorStep(parts: seq<string>, v: string, before: string, index: nat)
    requires |parts| == index
    requires index == 0 ==> before == ArrayStart
    requires index > 0 ==> before == ArrayStart + Join(parts, ArraySep) + ArraySep
    ensures before + v == ArrayStart + Join(parts + [v], ArraySep)
  {
    JoinAppend(parts, v, ArraySep);
    if index > 0 {
      AppendAssoc(ArrayStart, Join(parts, ArraySep) + ArraySep, v);
      AppendAssoc(ArrayStart, Join(parts, ArraySep), ArraySep);
    }
  }

  /** A rendered text array starts with `ARRAY[`, ends with `]::text[]`, and
      between them holds the elements' texts in stored order with exactly
      n - 1 separators for n >= 1 elements, none after the last. */
  lemma TextArrayShape(o: seq<Node>, parts: seq<string>)
    requires RenderAll(o) == Ok(parts)
    ensures Render(TextArray(o)) == Ok(ArrayStart + Join(parts, ArraySep) + ArrayEnd)
    ensures |o| >= 1 ==> Occurrences(Join(parts, ArraySep), ',') == OccurrencesIn(parts, ',') + |o| - 1
  {
    TextArrayRule(o);
    if |o| >= 1 {
      JoinSeparatorCount(parts, ',');
    }
  }

  /** An empty text array prints no element and no separator. */
  lemma EmptyTextArray()
    ensures Render(BuildTextArray([])) == Ok("ARRAY[]::text[]")
  {
    var t := BuildTextArray([]);
    assert t.values == [];
    assert RenderAll(t.values) == Ok([]);
    TextArrayShape(t.values, []);
    assert Join([], ArraySep) == "";
    assert ArrayStart + "" + ArrayEnd == "ARRAY[]::text[]";
  }

  /** `build_text_array('foo', 'bar', 2, Article.arel_table[:id])`. */
  lemma MixedTextArrayExample()
    ensures Render(BuildTextArray([Leaf(ValArg(Str("foo"))), Leaf(ValArg(Str("bar"))), Leaf(ValArg(Int(2))),
                                   Leaf(NodeArg(Attribute("articles", "id")))]))
            == Ok("ARRAY['foo','bar',2,\"articles\".\"id\"]::text[]")
  {
    var args := [ValArg(Str("foo")), ValArg(Str("bar")), ValArg(Int(2)), NodeArg(Attribute("articles", "id"))];
    var items := seq(|args|, i requires 0 <= i < |args| => Leaf(args[i]));
    assert items == [Leaf(ValArg(Str("foo"))), Leaf(ValArg(Str("bar"))), Leaf(ValArg(Int(2))),
                     Leaf(NodeArg(Attribute("articles", "id")))];
    FlattenFlat(args);
    var stored := [Quoted(Str("foo")), Quoted(Str("bar")), Quoted(Int(2)), Attribute("articles", "id")];
    assert BuildTextArray(items) == TextArray(stored);
    var parts := ["'foo'", "'bar'", "2", "\"articles\".\"id\""];
    MixedParts();
    TextArrayShape(stored, parts);
    MixedJoin();
  }

  lemma MixedJoin()
    ensures ArrayStart + Join(["'foo'", "'bar'", "2", "\"articles\".\"id\""], ArraySep) + ArrayEnd
            == "ARRAY['foo','bar',2,\"articles\".\"id\"]::text[]"
  {
    var parts := ["'foo'", "'bar'", "2", "\"articles\".\"id\""];
    MixedJoinPrefix();
    assert parts[..3] == ["'foo'", "'bar'", "2"];
    assert Join(parts, ArraySep) == "'foo','bar',2" + "," + "\"articles\".\"id\"";
    MixedJoinText();
  }

  lemma MixedJoinText()
    ensures "ARRAY[" + ("'foo','bar',2" + "," + "\"articles\".\"id\"") + "]::text[]"
            == "ARRAY['foo','bar',2,\"articles\".\"id\"]::text[]"
  {
  }

  lemma MixedJoinPrefix()
    ensures Join(["'foo'", "'bar'", "2"], ArraySep) == "'foo','bar',2"
  {
    var parts := ["'foo'", "'bar'", "2"];
    assert parts[..2][..1] == ["'foo'"];
    assert Join(parts[..2], ArraySep) == "'foo','bar'";
  }

  lemma MixedParts()
    ensures RenderAll([Quoted(Str("foo")), Quoted(Str("bar")), Quoted(Int(2)), Attribute("articles", "id")])
            == Ok(["'foo'", "'bar'", "2", "\"articles\".\"id\""])
  {
    FooQuoted();
    BarQuoted();
    TwoQuoted();
    ArticlesId();
    RenderAllFour(Quoted(Str("foo")), Quoted(Str("bar")), Quoted(Int(2)), Attribute("articles", "id"),
                  "'foo'", "'bar'", "2", "\"articles\".\"id\"");
  }

  lemma ArticlesId()
    ensures Render(Attribute("articles", "id")) == Ok("\"articles\".\"id\"")
  {
    ArticlesQuoted();
    IdQuoted();
    ArticlesIdText();
  }

  lemma ArticlesQuoted()
    ensures QuoteTableName("articles") == "\"articles\""
  {
    PlainName("articles", "\"articles\"");
  }

  lemma IdQuoted()
    ensures QuoteColumnName("id") == "\"id\""
  {
    PlainName("id", "\"id\"");
  }

  lemma ArticlesIdText()
    ensures "\"articles\"" + "." + "\"id\"" == "\"articles\".\"id\""
  {
  }

  lemma FooQuoted()
    ensures Render(Quoted(Str("foo"))) == Ok("'foo'")
  {
    QuotedWord("foo", "'foo'");
  }

  lemma BarQuoted()
    ensures Render(Quoted(Str("bar"))) == Ok("'bar'")
  {
    QuotedWord("bar", "'bar'");
  }

  lemma BazQuoted()
    ensures Render(Quoted(Str("baz"))) == Ok("'baz'")
  {
    QuotedWord("baz", "'baz'");
  }

  lemma TwoQuoted()
    ensures Render(Quoted(Int(2))) == Ok("2")
  {
    assert NatToString(2) == "2";
  }

  lemma PlainName(w: string, lit: string)
    requires '"' !in w && lit == "\"" + w + "\""
    ensures QuoteTableName(w) == lit && QuoteColumnName(w) == lit
  {
    DoubledWithoutQuote('"', w);
  }

  lemma QuotedWord(w: string, lit: string)
    requires '\'' !in w && lit == "'" + w + "'"
    ensures Render(Quoted(Str(w))) == Ok(lit)
  {
    DoubledWithoutQuote('\'', w);
  }
}
