/**
 * The tree-to-AST back-end of the template parser (draco_macros/src/parser.rs).
 *
 * The pest grammar is not part of this model: the tree of rule-tagged pairs it
 * produces is the input here.  Every `panic!`, failed `assert_eq!` and `unwrap()`
 * of the source is a `Fail` result, so that no parse tree is excluded by a
 * precondition.
 */
module Parser {
  import opened Wrappers

  /** The grammar rules the back-end inspects, spelled as in the grammar. */
  datatype Rule =
    | html | nodes | nodes_opt | node | tag | tag_short | tag_full
    | tagname_regular | tagname_component | args_opt | args | arg | word
    | block_regular | block_hashed | literal_string | literal

  /** A pest pair: the rule that matched, the text it spans and its inner pairs in order. */
  datatype Pair = Pair(rule: Rule, text: string, inner: seq<Pair>)

  // The template AST.
  datatype Expression = Str(s: string) | Block(code: string, hashed: bool)
  datatype Arg = Arg(name: string, value: Option<Expression>)
  datatype Tag = Tag(name: string, args: seq<Arg>, children: seq<Node>)
  datatype Node = Expr(expr: Expression) | TagNode(tag: Tag) | List(items: seq<Node>)

  /** The places where a rule the back-end does not expect ends in a panic. */
  datatype Position = InExpression | InTagname | InTagKind | InNode

  datatype Failure =
    | SyntaxError(message: string)                 // the grammar rejected the input (an Err result)
    | InvalidRule(at: Position, found: Rule)       // panic! on an unexpected rule
    | UnexpectedRule(expected: Rule, found: Rule)  // a failed assert_eq! on a pair's rule
    | MissingPair(parent: Rule)                    // unwrap() of an exhausted iterator of pairs
    | SliceOutOfRange(text: string)                // a string literal too short to hold its two quotes
    | NoNodes                                      // pop().unwrap() on a document without nodes

  /** Unicode White_Space, the characters `str::trim` removes. */
  const WhiteSpace: set<char> :=
    {'\t', '\n', '\U{000B}', '\U{000C}', '\r', ' ', '\U{0085}', '\U{00A0}', '\U{1680}',
     '\U{2000}', '\U{2001}', '\U{2002}', '\U{2003}', '\U{2004}', '\U{2005}', '\U{2006}', '\U{2007}',
     '\U{2008}', '\U{2009}', '\U{200A}', '\U{2028}', '\U{2029}', '\U{202F}', '\U{205F}', '\U{3000}'}

  predicate IsWhitespace(c: char) {
    c in WhiteSpace
  }

  /** The first index at or after `i` that does not hold whitespace (or `|s|`). */
  function SkipStart(s: string, i: nat): (j: nat)
    requires i <= |s|
    ensures i <= j <= |s|
    ensures forall k :: i <= k < j ==> IsWhitespace(s[k])
    ensures j == |s| || !IsWhitespace(s[j])
    decreases |s| - i
  {
    if i < |s| && IsWhitespace(s[i]) then SkipStart(s, i + 1) else i
  }

  /** The end of `s[lo..j]` once its trailing whitespace is dropped. */
  function SkipEnd(s: string, lo: nat, j: nat): (i: nat)
    requires lo <= j <= |s|
    ensures lo <= i <= j
    ensures forall k :: i <= k < j ==> IsWhitespace(s[k])
    ensures i == lo || !IsWhitespace(s[i - 1])
    decreases j - lo
  {
    if lo < j && IsWhitespace(s[j - 1]) then SkipEnd(s, lo, j - 1) else j
  }

  /** `str::trim`: `s` without its leading and its trailing whitespace. */
  function Trim(s: string): (r: string)
    ensures |r| <= |s|
    ensures r == [] || (!IsWhitespace(r[0]) && !IsWhitespace(r[|r| - 1]))
  {
    var i := SkipStart(s, 0);
    s[i..SkipEnd(s, i, |s|)]
  }

  predicate AllWhitespace(s: string) {
    forall k :: 0 <= k < |s| ==> IsWhitespace(s[k])
  }

  /** What `Trim` keeps is one contiguous part of `s`; all it drops is whitespace. */
  lemma TrimIsMiddle(s: string)
    ensures exists a, b :: AllWhitespace(a) && AllWhitespace(b) && s == a + Trim(s) + b
  {
    var i := SkipStart(s, 0);
    var j := SkipEnd(s, i, |s|);
    assert Trim(s) == s[i..j];
    assert s == s[..i] + s[i..j] + s[j..];
    assert AllWhitespace(s[..i]) && AllWhitespace(s[j..]);
  }

  /**
   * The converse: wrapping text that neither starts nor ends with whitespace
   * in whitespace on both sides, `Trim` gives back exactly that text.
   */
  lemma TrimCharacterized(a: string, m: string, b: string)
    requires AllWhitespace(a) && AllWhitespace(b)
    requires m == [] || (!IsWhitespace(m[0]) && !IsWhitespace(m[|m| - 1]))
    ensures Trim(a + m + b) == m
  {
    var s := a + m + b;
    var i := SkipStart(s, 0);
    assert forall k :: 0 <= k < |a| ==> s[k] == a[k];
    assert forall k :: 0 <= k < |b| ==> s[|a| + |m| + k] == b[k];
    if m == [] {
      assert forall k :: 0 <= k < |s| ==> IsWhitespace(s[k]) by {
        forall k | 0 <= k < |s| ensures IsWhitespace(s[k]) {
          if k >= |a| { assert s[|a| + |m| + (k - |a|)] == b[k - |a|]; }
        }
      }
      assert i == |s|;
    } else {
      assert s[|a|] == m[0];
      assert s[|a| + |m| - 1] == m[|m| - 1];
      assert i == |a|;
      var j := SkipEnd(s, i, |s|);
      assert j == |a| + |m|;
      assert s[|a|..|a| + |m|] == m;
    }
  }

  /** Trimming twice is trimming once. */
  lemma TrimIdempotent(s: string)
    ensures Trim(Trim(s)) == Trim(s)
  {
    TrimCharacterized([], Trim(s), []);
    assert [] + Trim(s) + [] == Trim(s);
  }

  /** parse_expression: a block keeps its text (minus the `#` marker); a string literal loses its quotes. */
  function ParseExpression(p: Pair): (r: Result<Expression, Failure>)
    ensures r.Ok? <==> (p.rule == block_regular || p.rule == block_hashed
                       || (p.rule == literal_string && |p.text| >= 2))
    ensures r.Ok? && r.value.Block? ==>
              (r.value.hashed <==> p.rule == block_hashed && |p.text| > 0 && p.text[0] == '#')
              && (if r.value.hashed then "#" + r.value.code else r.value.code) == p.text
    ensures r.Ok? && r.value.Str? ==>
              p.rule == literal_string && [p.text[0]] + r.value.s + [p.text[|p.text| - 1]] == p.text
    ensures p.rule != block_regular && p.rule != block_hashed && p.rule != literal_string ==>
              r == Fail(InvalidRule(InExpression, p.rule))
  {
    if p.rule == block_regular || p.rule == block_hashed then
      var hashed := p.rule == block_hashed && |p.text| > 0 && p.text[0] == '#';
      Ok(Block(if hashed then p.text[1..] else p.text, hashed))
    else if p.rule == literal_string then
      if |p.text| < 2 then Fail(SliceOutOfRange(p.text))
      else
        var s := p.text[1..|p.text| - 1];
        assert [p.text[0]] + s + [p.text[|p.text| - 1]] == p.text;
        Ok(Str(s))
    else Fail(InvalidRule(InExpression, p.rule))
  }

  /** parse_arg: the name is the `word` pair; the value, if a second pair is present, is parsed from it. */
  function ParseArg(p: Pair): (r: Result<Arg, Failure>)
    ensures r.Ok? <==> (p.rule == arg && |p.inner| >= 1 && p.inner[0].rule == word
                       && (|p.inner| >= 2 ==> ParseExpression(p.inner[1]).Ok?))
    ensures r.Ok? ==> r.value.name == p.inner[0].text
    ensures r.Ok? ==> (r.value.value.None? <==> |p.inner| == 1)
    ensures r.Ok? && |p.inner| >= 2 ==> r.value.value == Some(ParseExpression(p.inner[1]).value)
  {
    if p.rule != arg then Fail(UnexpectedRule(arg, p.rule))
    else if |p.inner| == 0 then Fail(MissingPair(arg))
    else if p.inner[0].rule != word then Fail(UnexpectedRule(word, p.inner[0].rule))
    else if |p.inner| == 1 then Ok(Arg(p.inner[0].text, None))
    else
      var e :- ParseExpression(p.inner[1]);
      Ok(Arg(p.inner[0].text, Some(e)))
  }

  /** `map(parse_arg).collect()`: one argument per pair, in order; the first panic wins. */
  function ParseArgList(ps: seq<Pair>): (r: Result<seq<Arg>, Failure>)
    ensures r.Ok? <==> forall i :: 0 <= i < |ps| ==> ParseArg(ps[i]).Ok?
    ensures r.Ok? ==> |r.value| == |ps|
                      && forall i :: 0 <= i < |ps| ==> r.value[i] == ParseArg(ps[i]).value
  {
    if ps == [] then Ok([])
    else
      var a :- ParseArg(ps[0]);
      var rest :- ParseArgList(ps[1..]);
      Ok([a] + rest)
  }

  /** parse_args_opt: the arguments of the optional `args` pair, or none. */
  function ParseArgsOpt(p: Pair): (r: Result<seq<Arg>, Failure>)
    ensures p.rule == args_opt && p.inner == [] ==> r == Ok([])
    ensures p.rule == args_opt && p.inner != [] && p.inner[0].rule == args ==>
              r == ParseArgList(p.inner[0].inner)
    ensures p.rule == args_opt && p.inner != [] && p.inner[0].rule != args ==>
              r == Fail(UnexpectedRule(args, p.inner[0].rule))
    ensures p.rule != args_opt ==> r == Fail(UnexpectedRule(args_opt, p.rule))
  {
    if p.rule != args_opt then Fail(UnexpectedRule(args_opt, p.rule))
    else if p.inner == [] then Ok([])
    else if p.inner[0].rule != args then Fail(UnexpectedRule(args, p.inner[0].rule))
    else ParseArgList(p.inner[0].inner)
  }

  /** parse_tagname: a regular or a component tag name, as written. */
  function ParseTagname(p: Pair): (r: Result<string, Failure>)
    ensures r.Ok? <==> p.rule == tagname_regular || p.rule == tagname_component
    ensures r.Ok? ==> r.value == p.text
  {
    if p.rule == tagname_regular || p.rule == tagname_component then Ok(p.text)
    else Fail(InvalidRule(InTagname, p.rule))
  }

  /** parse_tag: name, arguments and, for a full tag only, the children. */
  function ParseTag(p: Pair): (r: Result<Tag, Failure>)
    ensures r.Ok? ==> p.rule == tag && p.inner != [] && |p.inner[0].inner| >= 2
                      && ParseTagname(p.inner[0].inner[0]) == Ok(r.value.name)
                      && ParseArgsOpt(p.inner[0].inner[1]) == Ok(r.value.args)
    ensures r.Ok? && p.inner[0].rule == tag_short ==> r.value.children == []
    ensures r.Ok? && p.inner[0].rule == tag_full ==>
              |p.inner[0].inner| >= 3 && ParseNodesOpt(p.inner[0].inner[2]) == Ok(r.value.children)
    ensures p.rule == tag && p.inner != [] && p.inner[0].rule != tag_short && p.inner[0].rule != tag_full ==>
              r == Fail(InvalidRule(InTagKind, p.inner[0].rule))
    decreases p
  {
    if p.rule != tag then Fail(UnexpectedRule(tag, p.rule))
    else if p.inner == [] then Fail(MissingPair(tag))
    else
      var kind := p.inner[0];
      if kind.rule != tag_short && kind.rule != tag_full then Fail(InvalidRule(InTagKind, kind.rule))
      else if |kind.inner| < 1 then Fail(MissingPair(kind.rule))
      else
        var name :- ParseTagname(kind.inner[0]);
        if |kind.inner| < 2 then Fail(MissingPair(kind.rule))
        else
          var arguments :- ParseArgsOpt(kind.inner[1]);
          if kind.rule == tag_short then Ok(Tag(name, arguments, []))
          else if |kind.inner| < 3 then Fail(MissingPair(kind.rule))
          else
            var children :- ParseNodesOpt(kind.inner[2]);
            Ok(Tag(name, arguments, children))
  }

  /** parse_node: a tag, an expression, or a bare literal trimmed of surrounding whitespace. */
  function ParseNode(p: Pair): (r: Result<Node, Failure>)
    ensures r.Ok? ==> p.rule == node && p.inner != [] && !r.value.List?
    ensures r.Ok? && p.inner[0].rule == literal ==> r.value == Expr(Str(Trim(p.inner[0].text)))
    ensures p.rule == node && p.inner != [] &&
            p.inner[0].rule !in {tag, block_hashed, literal_string, literal} ==>
              r == Fail(InvalidRule(InNode, p.inner[0].rule))
    decreases p
  {
    if p.rule != node then Fail(UnexpectedRule(node, p.rule))
    else if p.inner == [] then Fail(MissingPair(node))
    else
      var inner := p.inner[0];
      if inner.rule == tag then
        var t :- ParseTag(inner);
        Ok(TagNode(t))
      else if inner.rule == block_hashed || inner.rule == literal_string then
        var e :- ParseExpression(inner);
        Ok(Expr(e))
      else if inner.rule == literal then Ok(Expr(Str(Trim(inner.text))))
      else Fail(InvalidRule(InNode, inner.rule))
  }

  /** parse_nodes_opt: the nodes of a `nodes_opt` pair; any other rule fails its `assert_eq!`. */
  function ParseNodesOpt(p: Pair): (r: Result<seq<Node>, Failure>)
    ensures p.rule == nodes_opt ==> r == ParseNodeList(p.inner)
    ensures p.rule != nodes_opt ==> r == Fail(UnexpectedRule(nodes_opt, p.rule))
    decreases p
  {
    if p.rule != nodes_opt then Fail(UnexpectedRule(nodes_opt, p.rule))
    else ParseNodeList(p.inner)
  }

  /** `map(parse_node).collect()`: one node per pair, in order; the first panic wins. */
  function ParseNodeList(ps: seq<Pair>): (r: Result<seq<Node>, Failure>)
    ensures r.Ok? <==> forall i :: 0 <= i < |ps| ==> ParseNode(ps[i]).Ok?
    ensures r.Ok? ==> |r.value| == |ps|
                      && forall i :: 0 <= i < |ps| ==> Ok(r.value[i]) == ParseNode(ps[i])
    decreases ps
  {
    if ps == [] then Ok([])
    else
      var n :- ParseNode(ps[0]);
      var rest :- ParseNodeList(ps[1..]);
      Ok([n] + rest)
  }

  /**
   * parse_doc after the grammar has run: one top-level node is the document
   * itself, several are wrapped in a List, none is a panic.
   */
  function ParseDoc(parsed: Result<seq<Pair>, string>): (r: Result<Node, Failure>)
    ensures parsed.Fail? ==> r == Fail(SyntaxError(parsed.error))
    ensures r.Ok? ==> parsed.Ok? && parsed.value != [] && parsed.value[0].rule == nodes
    ensures r.Ok? ==> (r.value.List? <==> |parsed.value[0].inner| > 1)
    ensures r.Ok? && r.value.List? ==> ParseNodeList(parsed.value[0].inner) == Ok(r.value.items)
    ensures r.Ok? && !r.value.List? ==> ParseNodeList(parsed.value[0].inner) == Ok([r.value])
  {
    if parsed.Fail? then Fail(SyntaxError(parsed.error))
    else
    var pairs := parsed.value;
    if pairs == [] then Fail(MissingPair(html))
    else if pairs[0].rule != nodes then Fail(UnexpectedRule(nodes, pairs[0].rule))
    else
      var ns :- ParseNodeList(pairs[0].inner);
      if |ns| > 1 then Ok(List(ns))
      else if |ns| == 1 then assert ns == [ns[0]]; Ok(ns[0])
      else Fail(NoNodes)
  }

  // A reference emitter: the parse trees of the shape the grammar produces
  // for a given AST.  Parsing inverts it (NodeRoundTrip, DocRoundTrip).

  /** The pair of an expression in argument position. */
  function ValuePair(e: Expression): Pair {
    match e
    case Str(s) => Pair(literal_string, "\"" + s + "\"", [])
    case Block(c, h) => if h then Pair(block_hashed, "#" + c, []) else Pair(block_regular, c, [])
  }

  function ArgPair(a: Arg): Pair {
    Pair(arg, "", [Pair(word, a.name, [])] + if a.value.Some? then [ValuePair(a.value.value)] else [])
  }

  function ArgsOptPair(arguments: seq<Arg>): Pair {
    if arguments == [] then Pair(args_opt, "", [])
    else Pair(args_opt, "", [Pair(args, "", seq(|arguments|, i requires 0 <= i < |arguments| => ArgPair(arguments[i])))])
  }

  /**
   * The nodes parse_node can produce: never a List, and a block in node position
   * is marked hashed exactly when its text began with '#'.
   */
  predicate Parsable(n: Node) {
    match n
    case Expr(e) => e.Str? || e.hashed || e.code == [] || e.code[0] != '#'
    case TagNode(t) => forall i :: 0 <= i < |t.children| ==> Parsable(t.children[i])
    case List(_) => false
  }

  function NodePair(n: Node): Pair
    requires Parsable(n)
    decreases n
  {
    match n
    case Expr(Str(s)) => Pair(node, "", [Pair(literal_string, "\"" + s + "\"", [])])
    case Expr(Block(c, h)) => Pair(node, "", [Pair(block_hashed, if h then "#" + c else c, [])])
    case TagNode(t) =>
      Pair(node, "", [Pair(tag, "", [Pair(tag_full, "", [Pair(tagname_regular, t.name, []),
                                                        ArgsOptPair(t.args),
                                                        Pair(nodes_opt, "", NodePairs(t.children))])])])
  }

  function NodePairs(ns: seq<Node>): (ps: seq<Pair>)
    requires forall i :: 0 <= i < |ns| ==> Parsable(ns[i])
    ensures |ps| == |ns| && forall i :: 0 <= i < |ns| ==> ps[i] == NodePair(ns[i])
    decreases ns
  {
    if ns == [] then [] else [NodePair(ns[0])] + NodePairs(ns[1..])
  }

  lemma ValueRoundTrip(e: Expression)
    ensures ParseExpression(ValuePair(e)) == Ok(e)
  {
    if e.Str? {
      var t := "\"" + e.s + "\"";
      assert t[1..|t| - 1] == e.s;
    } else if e.hashed {
      assert ("#" + e.code)[1..] == e.code;
    }
  }

  /** Arguments come back complete and in source order. */
  lemma ArgsRoundTrip(arguments: seq<Arg>)
    ensures ParseArgsOpt(ArgsOptPair(arguments)) == Ok(arguments)
  {
    if arguments != [] {
      var ps := seq(|arguments|, i requires 0 <= i < |arguments| => ArgPair(arguments[i]));
      forall i | 0 <= i < |arguments| ensures ParseArg(ps[i]) == Ok(arguments[i]) {
        if arguments[i].value.Some? {
          ValueRoundTrip(arguments[i].value.value);
        }
      }
      assert ParseArgList(ps).value == arguments;
    }
  }

  /** A tag's pair parses back to the tag once its children's pairs do. */
  lemma TagRoundTrip(t: Tag)
    requires forall i :: 0 <= i < |t.children| ==> Parsable(t.children[i])
    requires ParseNodeList(NodePairs(t.children)) == Ok(t.children)
    ensures ParseNode(NodePair(TagNode(t))) == Ok(TagNode(t))
  {
    FullTagParses(tagname_regular, t.name, t.args, NodePairs(t.children), t.children);
  }

  /** The pairs of a full tag, whatever its children's pairs, parse to that tag. */
  lemma FullTagParses(nameRule: Rule, name: string, arguments: seq<Arg>, ps: seq<Pair>, children: seq<Node>)
    requires nameRule == tagname_regular || nameRule == tagname_component
    requires ParseNodeList(ps) == Ok(children)
    ensures ParseNode(Pair(node, "", [Pair(tag, "", [Pair(tag_full, "", [Pair(nameRule, name, []),
                                                                       ArgsOptPair(arguments),
                                                                       Pair(nodes_opt, "", ps)])])]))
            == Ok(TagNode(Tag(name, arguments, children)))
  {
    var kind := Pair(tag_full, "", [Pair(nameRule, name, []), ArgsOptPair(arguments), Pair(nodes_opt, "", ps)]);
    var tagPair := Pair(tag, "", [kind]);
    ArgsRoundTrip(arguments);
    assert ParseNodesOpt(kind.inner[2]) == Ok(children);
    assert ParseTag(tagPair) == Ok(Tag(name, arguments, children));
  }

  /** A self-closing tag, regular or component, parses to its name and arguments and no children. */
  lemma ShortTagParses(nameRule: Rule, name: string, arguments: seq<Arg>)
    requires nameRule == tagname_regular || nameRule == tagname_component
    ensures ParseNode(Pair(node, "", [Pair(tag, "", [Pair(tag_short, "", [Pair(nameRule, name, []),
                                                                        ArgsOptPair(arguments)])])]))
            == Ok(TagNode(Tag(name, arguments, [])))
  {
    var kind := Pair(tag_short, "", [Pair(nameRule, name, []), ArgsOptPair(arguments)]);
    ArgsRoundTrip(arguments);
    assert ParseTag(Pair(tag, "", [kind])) == Ok(Tag(name, arguments, []));
  }

  /** parse_node inverts the emitter on every node it can produce. */
  lemma {:induction false} NodeRoundTrip(n: Node)
    requires Parsable(n)
    ensures ParseNode(NodePair(n)) == Ok(n)
    decreases n
  {
    match n
    case Expr(e) =>
      if e.Str? {
        ValueRoundTrip(e);
      } else if e.hashed {
        assert ("#" + e.code)[1..] == e.code;
      }
    case TagNode(t) =>
      NodesRoundTrip(t.children);
      TagRoundTrip(t);
  }

  lemma {:induction false} NodesRoundTrip(ns: seq<Node>)
    requires forall i :: 0 <= i < |ns| ==> Parsable(ns[i])
    ensures ParseNodeList(NodePairs(ns)) == Ok(ns)
    decreases ns
  {
    var ps := NodePairs(ns);
    forall i | 0 <= i < |ns|
      ensures ParseNode(ps[i]) == Ok(ns[i])
    {
      NodeRoundTrip(ns[i]);
    }
    assert ParseNodeList(ps).value == ns;
  }

  /** A document of one node is that node; of several, a List of them in order. */
  lemma DocRoundTrip(ns: seq<Node>)
    requires |ns| >= 1 && forall i :: 0 <= i < |ns| ==> Parsable(ns[i])
    ensures ParseDoc(Ok([Pair(nodes, "", NodePairs(ns))])) == Ok(if |ns| == 1 then ns[0] else List(ns))
  {
    NodesRoundTrip(ns);
  }
}
