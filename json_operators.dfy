/** The JSON operator node family (lib/arel_helpers/arel/nodes/json_operator.rb,
    lib/arel_helpers/arel/nodes/json_get_by_path.rb and its three siblings),
    the `json_get*` predications and their infix visitor rules
    (lib/arel_helpers/arel/json_operator_support.rb). */
module JsonOperators {
  import opened Text
  import opened Values
  import opened Nodes
  import opened TextArrays

  /** The node classes whose right operand is a path (`#>`, `#>>`). */
  predicate IsPathKind(k: JsonKind)
  {
    k == JSONGetByPath || k == JSONGetByPathAsText
  }

  /** The operator each node class declares in its body with `operator '...'`. */
  function DeclaredOperator(k: JsonKind): (r: string)
    ensures |r| >= 2 && r[|r| - 1] == '>'
    ensures IsPathKind(k) <==> r[0] == '#'
    ensures (k == JSONGetAsText || k == JSONGetByPathAsText) <==> r[|r| - 2] == '>'
  {
    match k
    case JSONGet => "->"
    case JSONGetAsText => "->>"
    case JSONGetByPath => "#>"
    case JSONGetByPathAsText => "#>>"
  }

  /** Each visitor rule writes its class's declared operator with exactly one
      space on each side, and the operator itself holds no space. */
  lemma OperatorSpacing(k: JsonKind)
    ensures JsonInfix(k) == " " + DeclaredOperator(k) + " "
    ensures ' ' !in DeclaredOperator(k) && |DeclaredOperator(k)| >= 2
  {
  }

  /** Each node kind maps to exactly one operator: different kinds print
      different operators. */
  lemma OperatorsDistinct(k1: JsonKind, k2: JsonKind)
    requires k1 != k2
    ensures JsonInfix(k1) != JsonInfix(k2)
    ensures DeclaredOperator(k1) != DeclaredOperator(k2)
  {
    OperatorSpacing(k1);
    OperatorSpacing(k2);
    assert |DeclaredOperator(k1)| != |DeclaredOperator(k2)| || DeclaredOperator(k1)[0] != DeclaredOperator(k2)[0];
    assert JsonInfix(k1)[1..|JsonInfix(k1)| - 1] == DeclaredOperator(k1);
    assert JsonInfix(k2)[1..|JsonInfix(k2)| - 1] == DeclaredOperator(k2);
  }

  /** An array given to the constructor as one argument is flattened into its leaves. */
  lemma FlattenSingleList(path: seq<Item>)
    ensures Flatten([List(path)]) == Flatten(path)
  {
    assert [List(path)][..0] == [];
  }

  /** `JSONOperator.new(left, right)`: stores `cast_left(left)` and
      `cast_right(right)`. The default casts are the identity; the path
      classes' `cast_right` is `build_text_array(right)`. */
  function NewJSONOperator(k: JsonKind, left: Node, right: Item): (r: Node)
    ensures r.JSONOperator? && r.kind == k
    ensures r.left == left
    ensures IsPathKind(k) ==> r.right == BuildTextArray([right])
    ensures !IsPathKind(k) && right.Leaf? && right.arg.NodeArg? ==> r.right == right.arg.node
  {
    var castRight := if IsPathKind(k) then BuildTextArray([right]) else RawItem(right);
    JSONOperator(k, left, castRight)
  }

  /** `json_get(other)`: the receiver on the left, `other` through
      `build_quoted` on the right, printed `L -> R`. */
  function JsonGet(self: Node, other: Arg): (r: Node)
    ensures r.JSONOperator? && r.kind == JSONGet && r.left == self
    ensures other.ValArg? ==> r.right == Quoted(other.value)
    ensures other.NodeArg? ==> r.right == other.node
    ensures Render(r) == Infix(Render(self), " -> ", Render(BuildQuoted(other)))
  {
    NewJSONOperator(JSONGet, self, Leaf(NodeArg(BuildQuoted(other))))
  }

  /** `json_get_as_text(other)`: as `json_get`, printed `L ->> R`. */
  function JsonGetAsText(self: Node, other: Arg): (r: Node)
    ensures r.JSONOperator? && r.kind == JSONGetAsText && r.left == self
    ensures other.ValArg? ==> r.right == Quoted(other.value)
    ensures other.NodeArg? ==> r.right == other.node
    ensures Render(r) == Infix(Render(self), " ->> ", Render(BuildQuoted(other)))
  {
    NewJSONOperator(JSONGetAsText, self, Leaf(NodeArg(BuildQuoted(other))))
  }

  /** `json_get_by_path(*path)`: the path list, unquoted, goes to the node,
      whose `cast_right` turns it into a text array of the flattened path
      with every segment through `build_quoted`; printed `L #> ARRAY[...]::text[]`. */
  function JsonGetByPath(self: Node, path: seq<Item>): (r: Node)
    ensures r.JSONOperator? && r.kind == JSONGetByPath && r.left == self
    ensures r.right.TextArray? && |r.right.values| == |Flatten(path)|
    ensures forall i :: 0 <= i < |r.right.values| ==> r.right.values[i] == BuildQuoted(Flatten(path)[i])
    ensures Render(r) == Infix(Render(self), " #> ", Render(r.right))
  {
    FlattenSingleList(path);
    NewJSONOperator(JSONGetByPath, self, List(path))
  }

  /** `json_get_by_path_as_text(*path)`: as `json_get_by_path`, printed with `#>>`. */
  function JsonGetByPathAsText(self: Node, path: seq<Item>): (r: Node)
    ensures r.JSONOperator? && r.kind == JSONGetByPathAsText && r.left == self
    ensures r.right.TextArray? && |r.right.values| == |Flatten(path)|
    ensures forall i :: 0 <= i < |r.right.values| ==> r.right.values[i] == BuildQuoted(Flatten(path)[i])
    ensures Render(r) == Infix(Render(self), " #>> ", Render(r.right))
  {
    FlattenSingleList(path);
    NewJSONOperator(JSONGetByPathAsText, self, List(path))
  }

  /** Ruby's `blank?` on a String: nothing but whitespace. */
  predicate Blank(s: string)
  {
    forall i :: 0 <= i < |s| ==> s[i] in {' ', '\t', '\n', '\U{B}', '\U{C}', '\r'}
  }

  /** Every declared operator is present (not blank), so declaring it sets it. */
  lemma DeclaredNotBlank(k: JsonKind)
    ensures !Blank(DeclaredOperator(k))
  {
    assert DeclaredOperator(k)[0] in {'-', '#'};
  }

  /** The class-level configuration of one JSON operator node class
      (`ActiveSupport::Configurable`'s `config.operator`). */
  class OperatorConfig {
    /** The class this configuration belongs to; None for the abstract base `JSONOperator`. */
    const kind: Option<JsonKind>
    /** `config.operator`: unset (nil) until the class body declares it. */
    var operator: Option<Node>

    /** Defining the class: its body runs `operator '<op>'` once. */
    constructor Define(kind: Option<JsonKind>)
      ensures this.kind == kind
      ensures operator == if kind.Some? then Some(SqlLiteral(DeclaredOperator(kind.value))) else None
    {
      this.kind := kind;
      operator := None;
      new;
      if kind.Some? {
        DeclaredNotBlank(kind.value);
        var _ := Operator(Some(DeclaredOperator(kind.value)));
      }
    }

    /** `self.operator(operator = nil)`: a present (non-blank) argument
        becomes the configured operator as raw SQL; a blank or absent one
        changes nothing. Either way the current setting is returned. */
    method Operator(x: Option<string>) returns (r: Option<Node>)
      modifies this
      ensures x.Some? && !Blank(x.value) ==> operator == Some(SqlLiteral(x.value))
      ensures !(x.Some? && !Blank(x.value)) ==> operator == old(operator)
      ensures r == operator
    {
      if x.Some? && !Blank(x.value) {
        operator := Some(SqlLiteral(x.value));
      }
      r := operator;
    }

    /** The instance `operator` of a node of this class reads the class
        configuration; once declared, it is the text the visitor writes
        between the operands, without the surrounding spaces. */
    function InstanceOperator(n: Node): (r: Option<Node>)
      reads this
      requires n.JSONOperator? && kind == Some(n.kind)
      ensures r == operator
      ensures operator == Some(SqlLiteral(DeclaredOperator(n.kind))) ==>
                r.Some? && r.value.SqlLiteral? && JsonInfix(n.kind) == " " + r.value.text + " "
    {
      OperatorSpacing(n.kind);
      operator
    }
  }

  // ------------------------------------------------------------- examples

  /** `Article.arel_table[:id].json_get 'foo'`. */
  lemma JsonGetExample()
    ensures Render(JsonGet(Attribute("articles", "id"), ValArg(Str("foo")))) == Ok("\"articles\".\"id\" -> 'foo'")
  {
    ArticlesId();
    FooQuoted();
    JsonGetExampleText();
  }

  /** `Article.arel_table[:id].json_get_as_text 'foo'`. */
  lemma JsonGetAsTextExample()
    ensures Render(JsonGetAsText(Attribute("articles", "id"), ValArg(Str("foo")))) == Ok("\"articles\".\"id\" ->> 'foo'")
  {
    ArticlesId();
    FooQuoted();
    JsonGetAsTextExampleText();
  }

  /** `Article.arel_table[:id].json_get_by_path 'foo', 'bar', 'baz'`. */
  lemma JsonGetByPathExample()
    ensures Render(JsonGetByPath(Attribute("articles", "id"), FooBarBaz()))
            == Ok("\"articles\".\"id\" #> ARRAY['foo','bar','baz']::text[]")
  {
    var r := JsonGetByPath(Attribute("articles", "id"), FooBarBaz());
    FooBarBazArray(r.right);
    ArticlesId();
    JsonGetByPathExampleText();
  }

  /** `Article.arel_table[:id].json_get_by_path_as_text 'foo', 'bar', 'baz'`. */
  lemma JsonGetByPathAsTextExample()
    ensures Render(JsonGetByPathAsText(Attribute("articles", "id"), FooBarBaz()))
            == Ok("\"articles\".\"id\" #>> ARRAY['foo','bar','baz']::text[]")
  {
    var r := JsonGetByPathAsText(Attribute("articles", "id"), FooBarBaz());
    FooBarBazArray(r.right);
    ArticlesId();
    JsonGetByPathAsTextExampleText();
  }

  lemma JsonGetExampleText()
    ensures "\"articles\".\"id\"" + " -> " + "'foo'" == "\"articles\".\"id\" -> 'foo'"
  {
  }

  lemma JsonGetAsTextExampleText()
    ensures "\"articles\".\"id\"" + " ->> " + "'foo'" == "\"articles\".\"id\" ->> 'foo'"
  {
  }

  lemma JsonGetByPathExampleText()
    ensures "\"articles\".\"id\"" + " #> " + "ARRAY['foo','bar','baz']::text[]"
        == "\"articles\".\"id\" #> ARRAY['foo','bar','baz']::text[]"
  {
  }

  lemma JsonGetByPathAsTextExampleText()
    ensures "\"articles\".\"id\"" + " #>> " + "ARRAY['foo','bar','baz']::text[]"
        == "\"articles\".\"id\" #>> ARRAY['foo','bar','baz']::text[]"
  {
  }

  /** The path `'foo', 'bar', 'baz'` as given to the predication. */
  function FooBarBaz(): seq<Item>
  {
    [Leaf(ValArg(Str("foo"))), Leaf(ValArg(Str("bar"))), Leaf(ValArg(Str("baz")))]
  }

  /** A text array storing the quoted path segments prints them in order. */
  lemma FooBarBazArray(t: Node)
    requires t.TextArray? && |t.values| == |Flatten(FooBarBaz())|
    requires forall i :: 0 <= i < |t.values| ==> t.values[i] == BuildQuoted(Flatten(FooBarBaz())[i])
    ensures Render(t) == Ok("ARRAY['foo','bar','baz']::text[]")
  {
    var args := [ValArg(Str("foo")), ValArg(Str("bar")), ValArg(Str("baz"))];
    assert FooBarBaz() == seq(|args|, i requires 0 <= i < |args| => Leaf(args[i]));
    FlattenFlat(args);
    assert t.values == [Quoted(Str("foo")), Quoted(Str("bar")), Quoted(Str("baz"))];
    var parts := ["'foo'", "'bar'", "'baz'"];
    FooQuoted();
    BarQuoted();
    BazQuoted();
    RenderAllThree(Quoted(Str("foo")), Quoted(Str("bar")), Quoted(Str("baz")), "'foo'", "'bar'", "'baz'");
    TextArrayShape(t.values, parts);
    FooBarBazJoin();
  }

  lemma FooBarBazJoin()
    ensures ArrayStart + Join(["'foo'", "'bar'", "'baz'"], ArraySep) + ArrayEnd == "ARRAY['foo','bar','baz']::text[]"
  {
    var parts := ["'foo'", "'bar'", "'baz'"];
    assert parts[..2][..1] == ["'foo'"];
    assert Join(parts[..2], ArraySep) == "'foo','bar'";
    assert Join(parts, ArraySep) == "'foo','bar'" + "," + "'baz'";
  }
}
