/**
 * The code generator of the template macro (draco_macros/src/builder.rs).
 *
 * It appends to one growing buffer the Rust source text that builds a template's
 * nodes with the draco::html API.  The text each AST node contributes is given by
 * the functions ExprCode, ArgCode, NodeCode and ChildCode; the methods, which
 * work on the buffer in place as the source does, are proved to append exactly
 * that text, and the lemmas state what the text looks like.
 */
module Builder {
  import opened Wrappers
  import opened Parser
  import opened Sequences

  predicate StartsWith(s: string, prefix: string) {
    |prefix| <= |s| && s[..|prefix|] == prefix
  }

  /** The text of an expression: a block verbatim (hashed or not), a string in double quotes. */
  function ExprCode(e: Expression): string {
    match e
    case Block(code, _) => code
    case Str(v) => "\"" + v + "\""
  }

  /** An attribute statement: the first of build_node's four match arms that applies. */
  function ArgCode(a: Arg): string {
    if a.value.Some? && a.value.value.Block? && StartsWith(a.name, "on") then
      HandlerCode(a.name[2..], a.value.value.code)
    else if a.value.Some? && a.value.value.Block? && (a.name == "disabled" || a.name == "checked") then
      ToggleCode(a.name, a.value.value.code)
    else
      AttrCode(a.name, a.value)
  }

  /** An event handler: `input` and `checked` have their own setters, any other event goes to `on`. */
  function HandlerCode(event: string, block: string): string {
    if event == "input" || event == "checked" then
      "node = node.on_" + event + "(" + block + ");\n"
    else
      "node = node.on(\"" + event + "\"," + block + ");\n"
  }

  /** A boolean attribute set only when its block evaluates to true. */
  function ToggleCode(name: string, block: string): string {
    "if " + block + " { node = node.attr(\"" + name + "\",\"\")};\n"
  }

  /** A plain attribute; one without a value gets the empty string. */
  function AttrCode(name: string, value: Option<Expression>): string {
    if value.None? then "node = node.attr(\"" + name + "\"," + "\"\"" + ");\n"
    else "node = node.attr(\"" + name + "\"," + ExprCode(value.value) + ");\n"
  }

  /** The attribute statements of `arguments`, one after the other. */
  function ArgsCode(arguments: seq<Arg>): string {
    if arguments == [] then ""
    else ArgsCode(arguments[..|arguments| - 1]) + ArgCode(arguments[|arguments| - 1])
  }

  /** The first line of a tag's block. */
  function TagHead(name: string): string {
    "{" + "let mut node = draco::html::" + name + "();\n"
  }

  /** build_node's output for `n`. */
  function NodeCode(n: Node): string
    decreases n, 0
  {
    match n
    case Expr(e) => "draco::Node::from(" + ExprCode(e) + ")"
    case TagNode(t) => TagHead(t.name) + ArgsCode(t.args) + "node" + ChildrenCode(t.children) + "}"
    case List(items) => "vec![" + ListCode(items) + "]\n"
  }

  /** The items of a top-level List, each followed by ", ". */
  function ListCode(items: seq<Node>): string
    decreases items, 2
  {
    if items == [] then ""
    else ListCode(items[..|items| - 1]) + NodeCode(items[|items| - 1]) + ", "
  }

  /** One `.push(...)` line per node of `items`. */
  function PushAll(items: seq<Node>): string
    decreases items, 2
  {
    if items == [] then ""
    else PushAll(items[..|items| - 1]) + ".push(" + NodeCode(items[|items| - 1]) + ")\n"
  }

  /** A child of a tag: a hashed block is appended, a List spliced, anything else pushed. */
  function ChildCode(c: Node): string
    decreases c, 1
  {
    if c.Expr? && c.expr.Block? && c.expr.hashed then ".append(" + c.expr.code + ")\n"
    else if c.List? then PushAll(c.items)
    else ".push(" + NodeCode(c) + ")\n"
  }

  function ChildrenCode(children: seq<Node>): string
    decreases children, 2
  {
    if children == [] then ""
    else ChildrenCode(children[..|children| - 1]) + ChildCode(children[|children| - 1])
  }

  // ---- What the generated text looks like ----

  /** Attribute statements come out in the attributes' order. */
  lemma ArgsCodeLast(arguments: seq<Arg>)
    requires arguments != []
    ensures ArgsCode(arguments)
         == ArgsCode(arguments[..|arguments| - 1]) + ArgCode(arguments[|arguments| - 1])
  {
  }

  lemma {:induction false} ArgsCodeConcat(xs: seq<Arg>, ys: seq<Arg>)
    ensures ArgsCode(xs + ys) == ArgsCode(xs) + ArgsCode(ys)
    decreases |ys|
  {
    if ys == [] {
      assert xs + ys == xs;
    } else {
      var zs := xs + ys;
      var init, last := ys[..|ys| - 1], ys[|ys| - 1];
      assert zs[..|zs| - 1] == xs + init && zs[|zs| - 1] == last;
      ArgsCodeConcat(xs, init);
      ArgsCodeLast(zs);
      ArgsCodeLast(ys);
      Regroup(ArgsCode(xs), ArgsCode(init), ArgCode(last));
    }
  }

  lemma ChildrenCodeLast(children: seq<Node>)
    requires children != []
    ensures ChildrenCode(children)
         == ChildrenCode(children[..|children| - 1]) + ChildCode(children[|children| - 1])
  {
  }

  lemma ListCodeLast(items: seq<Node>)
    requires items != []
    ensures ListCode(items) == ListCode(items[..|items| - 1]) + NodeCode(items[|items| - 1]) + ", "
  {
  }

  /** Children come out in the children's order. */
  lemma {:induction false} ChildrenCodeConcat(xs: seq<Node>, ys: seq<Node>)
    ensures ChildrenCode(xs + ys) == ChildrenCode(xs) + ChildrenCode(ys)
    decreases |ys|
  {
    if ys == [] {
      assert xs + ys == xs;
    } else {
      var zs := xs + ys;
      var init, last := ys[..|ys| - 1], ys[|ys| - 1];
      assert zs[..|zs| - 1] == xs + init && zs[|zs| - 1] == last;
      ChildrenCodeConcat(xs, init);
      ChildrenCodeLast(zs);
      ChildrenCodeLast(ys);
      Regroup(ChildrenCode(xs), ChildrenCode(init), ChildCode(last));
    }
  }

  /** The items of a top-level List come out in order. */
  lemma {:induction false} ListCodeConcat(xs: seq<Node>, ys: seq<Node>)
    ensures ListCode(xs + ys) == ListCode(xs) + ListCode(ys)
    decreases |ys|
  {
    if ys == [] {
      assert xs + ys == xs;
    } else {
      var zs := xs + ys;
      var init, last := ys[..|ys| - 1], ys[|ys| - 1];
      assert zs[..|zs| - 1] == xs + init && zs[|zs| - 1] == last;
      ListCodeConcat(xs, init);
      ListCodeLast(zs);
      ListCodeLast(ys);
      Regroup3(ListCode(xs), ListCode(init), NodeCode(last), ", ");
    }
  }

  /** A child that build_node pushes: neither a hashed block nor a List. */
  predicate Pushed(n: Node) {
    !(n.Expr? && n.expr.Block? && n.expr.hashed) && !n.List?
  }

  /**
   * A List child is flattened: it gives the same text as its items given as
   * children one by one, as long as none of them would have been appended or
   * flattened itself.
   */
  lemma {:induction false} ListChildSplices(items: seq<Node>)
    requires forall i :: 0 <= i < |items| ==> Pushed(items[i])
    ensures ChildCode(List(items)) == ChildrenCode(items)
    decreases |items|
  {
    if items != [] {
      var init := items[..|items| - 1];
      assert forall i :: 0 <= i < |init| ==> init[i] == items[i];
      ListChildSplices(init);
      assert Pushed(items[|items| - 1]);
    }
  }

  lemma SinglePush(n: Node)
    ensures PushAll([n]) == ".push(" + NodeCode(n) + ")\n"
  {
    assert [n][..0] == [];
  }

  /** A hashed block nested in a List child is pushed, not appended as it is on its own. */
  lemma HashedInListIsPushed(code: string)
    ensures ChildCode(List([Expr(Block(code, true))]))
         == ".push(" + "draco::Node::from(" + code + ")" + ")\n"
    ensures ChildCode(Expr(Block(code, true))) == ".append(" + code + ")\n"
  {
    SinglePush(Expr(Block(code, true)));
  }

  /** Every tag's text is one block: it opens with `{` and closes with `}`. */
  lemma TagCodeDelimited(t: Tag)
    ensures var c := NodeCode(TagNode(t)); |c| >= 2 && c[0] == '{' && c[|c| - 1] == '}'
  {
  }

  /** The text of a tag without attributes or children. */
  lemma EmptyTagCode(name: string)
    ensures NodeCode(TagNode(Tag(name, [], []))) == "{let mut node = draco::html::" + name + "();\nnode}"
  {
  }

  /**
   * An attribute with a block value whose name starts with `on` is an event
   * handler named by the rest of the name, whatever that rest is.
   */
  lemma HandlerArg(event: string, block: string, hashed: bool)
    ensures ArgCode(Arg("on" + event, Some(Block(block, hashed)))) == HandlerCode(event, block)
    ensures event == "input" ==> HandlerCode(event, block) == "node = node.on_input(" + block + ");\n"
    ensures event == "checked" ==> HandlerCode(event, block) == "node = node.on_checked(" + block + ");\n"
  {
    var name := "on" + event;
    assert name[..2] == "on" && name[2..] == event;
  }

  /** `checked` with a block value is a toggle although `checked` is also an event name. */
  lemma ToggleArg(name: string, block: string, hashed: bool)
    requires name == "disabled" || name == "checked"
    ensures ArgCode(Arg(name, Some(Block(block, hashed)))) == ToggleCode(name, block)
  {
    assert !StartsWith(name, "on") by {
      assert name[..2] != "on" by { assert name[1] != "on"[1] || name[0] != "on"[0]; }
    }
  }

  /**
   * An expression is emitted as it was written in the template: a string with
   * its quotes, a block as it is, without the `#` that marked it hashed.
   */
  lemma ExprCodeIsSourceText(e: Expression)
    ensures e.Str? ==> ExprCode(e) == ValuePair(e).text
    ensures e.Str? ==> |ExprCode(e)| == |e.s| + 2 && ExprCode(e)[1..|ExprCode(e)| - 1] == e.s
    ensures e.Block? ==> ExprCode(e) == ExprCode(Block(e.code, !e.hashed)) == e.code
    ensures e.Block? && e.hashed ==> ExprCode(e) == ValuePair(e).text[1..]
  {
    if e.Str? {
      var c := ExprCode(e);
      assert c[1..|c| - 1] == e.s;
    } else if e.hashed {
      assert ("#" + e.code)[1..] == e.code;
    }
  }

  /** An attribute without a value is set to the empty string, whatever its name. */
  lemma ValuelessArg(name: string)
    ensures ArgCode(Arg(name, None)) == "node = node.attr(\"" + name + "\",\"\");\n"
  {
  }

  /** A string value is always a plain attribute, even under an `on` name. */
  lemma StringArg(name: string, value: string)
    ensures ArgCode(Arg(name, Some(Str(value))))
         == "node = node.attr(\"" + name + "\"," + "\"" + value + "\"" + ");\n"
  {
  }

  // ---- The generator, working on a buffer in place ----

  /** The `String` buffer that build_node appends to. */
  class Buffer {
    var text: string

    constructor ()
      ensures text == ""
    {
      text := "";
    }

    method Push(c: char)
      modifies this
      ensures text == old(text) + [c]
    {
      text := text + [c];
    }

    method PushStr(s: string)
      modifies this
      ensures text == old(text) + s
    {
      text := text + s;
    }
  }

  /** build_expr */
  method BuildExpr(buffer: Buffer, e: Expression)
    modifies buffer
    ensures buffer.text == old(buffer.text) + ExprCode(e)
  {
    match e
    case Block(block, _) =>
      buffer.PushStr(block);
    case Str(val) =>
      buffer.Push('"');
      buffer.PushStr(val);
      buffer.Push('"');
      Regroup3(old(buffer.text), "\"", val, "\"");
  }

  /** The body of build_node's loop over a tag's attributes. */
  method BuildArg(buffer: Buffer, attr: Arg)
    modifies buffer
    ensures buffer.text == old(buffer.text) + ArgCode(attr)
  {
    if attr.value.Some? && attr.value.value.Block? && StartsWith(attr.name, "on") {
      BuildHandler(buffer, attr.name[2..], attr.value.value.code);
    } else if attr.value.Some? && attr.value.value.Block? && (attr.name == "disabled" || attr.name == "checked") {
      BuildToggle(buffer, attr.name, attr.value.value.code);
    } else {
      BuildAttr(buffer, attr.name, attr.value);
    }
  }

  method BuildHandler(buffer: Buffer, eventName: string, block: string)
    modifies buffer
    ensures buffer.text == old(buffer.text) + HandlerCode(eventName, block)
  {
    if eventName == "input" || eventName == "checked" {
      buffer.PushStr("node = node.on_");
      buffer.PushStr(eventName);
      buffer.Push('(');
      buffer.PushStr(block);
      buffer.PushStr(");\n");
      Regroup5(old(buffer.text), "node = node.on_", eventName, "(", block, ");\n");
    } else {
      buffer.PushStr("node = node.on(\"");
      buffer.PushStr(eventName);
      buffer.PushStr("\",");
      buffer.PushStr(block);
      buffer.PushStr(");\n");
      Regroup5(old(buffer.text), "node = node.on(\"", eventName, "\",", block, ");\n");
    }
  }

  method BuildToggle(buffer: Buffer, name: string, block: string)
    modifies buffer
    ensures buffer.text == old(buffer.text) + ToggleCode(name, block)
  {
    buffer.PushStr("if ");
    buffer.PushStr(block);
    buffer.PushStr(" { node = node.attr(\"");
    buffer.PushStr(name);
    buffer.PushStr("\",\"\")};\n");
    Regroup5(old(buffer.text), "if ", block, " { node = node.attr(\"", name, "\",\"\")};\n");
  }

  method BuildAttr(buffer: Buffer, name: string, value: Option<Expression>)
    modifies buffer
    ensures buffer.text == old(buffer.text) + AttrCode(name, value)
  {
    buffer.PushStr("node = node.attr(\"");
    buffer.PushStr(name);
    buffer.PushStr("\",");
    if value.None? {
      buffer.PushStr("\"\"");
    } else {
      BuildExpr(buffer, value.value);
    }
    buffer.PushStr(");\n");
    Regroup5(old(buffer.text), "node = node.attr(\"", name, "\",",
             if value.None? then "\"\"" else ExprCode(value.value), ");\n");
  }

  /** build_node: appends NodeCode(n). */
  method BuildNode(buffer: Buffer, n: Node)
    modifies buffer
    ensures buffer.text == old(buffer.text) + NodeCode(n)
    decreases n, 0
  {
    match n
    case Expr(e) =>
      buffer.PushStr("draco::Node::from(");
      BuildExpr(buffer, e);
      buffer.Push(')');
      Regroup3(old(buffer.text), "draco::Node::from(", ExprCode(e), ")");
    case TagNode(t) =>
      BuildTag(buffer, t);
    case List(items) =>
      BuildList(buffer, items);
  }

  /** build_node's arm for a tag: its first line, its attributes, `node`, its children, `}`. */
  method BuildTag(buffer: Buffer, t: Tag)
    modifies buffer
    ensures buffer.text == old(buffer.text) + NodeCode(TagNode(t))
    decreases TagNode(t), 0, 0
  {
    buffer.Push('{');
    buffer.PushStr("let mut node = draco::html::");
    buffer.PushStr(t.name);
    buffer.PushStr("();\n");
    Regroup4(old(buffer.text), "{", "let mut node = draco::html::", t.name, "();\n");
    BuildArgs(buffer, t.args);
    buffer.PushStr("node");
    BuildChildren(buffer, t.children);
    buffer.PushStr("}");
    Regroup5(old(buffer.text), TagHead(t.name), ArgsCode(t.args), "node", ChildrenCode(t.children), "}");
  }

  /** build_node's loop over a tag's attributes. */
  method BuildArgs(buffer: Buffer, args: seq<Arg>)
    modifies buffer
    ensures buffer.text == old(buffer.text) + ArgsCode(args)
  {
    for i := 0 to |args|
      invariant buffer.text == old(buffer.text) + ArgsCode(args[..i])
    {
      assert args[..i + 1][..i] == args[..i];
      BuildArg(buffer, args[i]);
      ArgsCodeLast(args[..i + 1]);
      Regroup(old(buffer.text), ArgsCode(args[..i]), ArgCode(args[i]));
    }
    assert args[..|args|] == args;
  }

  /** build_node's loop over a tag's children. */
  method BuildChildren(buffer: Buffer, children: seq<Node>)
    modifies buffer
    ensures buffer.text == old(buffer.text) + ChildrenCode(children)
    decreases children, 2
  {
    for i := 0 to |children|
      invariant buffer.text == old(buffer.text) + ChildrenCode(children[..i])
    {
      assert children[..i + 1][..i] == children[..i];
      BuildChild(buffer, children[i]);
      ChildrenCodeLast(children[..i + 1]);
      Regroup(old(buffer.text), ChildrenCode(children[..i]), ChildCode(children[i]));
    }
    assert children[..|children|] == children;
  }

  /** build_node's arm for a top-level List: `vec![`, each item and `, `, then `]`. */
  method BuildList(buffer: Buffer, items: seq<Node>)
    modifies buffer
    ensures buffer.text == old(buffer.text) + NodeCode(List(items))
    decreases List(items), 0, 0
  {
    buffer.PushStr("vec![");
    ghost var start := buffer.text;
    for i := 0 to |items|
      invariant buffer.text == start + ListCode(items[..i])
    {
      assert items[..i + 1][..i] == items[..i];
      BuildNode(buffer, items[i]);
      buffer.PushStr(", ");
      ListCodeLast(items[..i + 1]);
      Regroup3(start, ListCode(items[..i]), NodeCode(items[i]), ", ");
    }
    assert items[..|items|] == items;
    buffer.PushStr("]\n");
    Regroup3(old(buffer.text), "vec![", ListCode(items), "]\n");
  }

  /** The body of build_node's loop over a tag's children. */
  method BuildChild(buffer: Buffer, child: Node)
    modifies buffer
    ensures buffer.text == old(buffer.text) + ChildCode(child)
    decreases child, 1
  {
    if child.Expr? && child.expr.Block? && child.expr.hashed {
      buffer.PushStr(".append(");
      buffer.PushStr(child.expr.code);
      buffer.PushStr(")\n");
      Regroup3(old(buffer.text), ".append(", child.expr.code, ")\n");
    } else if child.List? {
      var items := child.items;
      ghost var start := buffer.text;
      for i := 0 to |items|
        invariant buffer.text == start + PushAll(items[..i])
      {
        assert items[..i + 1][..i] == items[..i];
        buffer.PushStr(".push(");
        BuildNode(buffer, items[i]);
        buffer.PushStr(")\n");
        Regroup4(start, PushAll(items[..i]), ".push(", NodeCode(items[i]), ")\n");
      }
      assert items[..|items|] == items;
    } else {
      buffer.PushStr(".push(");
      BuildNode(buffer, child);
      buffer.PushStr(")\n");
      Regroup3(old(buffer.text), ".push(", NodeCode(child), ")\n");
    }
  }

  /** build: the generated text for a whole document. */
  method Build(doc: Node) returns (output: string)
    ensures output == NodeCode(doc)
  {
    var buffer := new Buffer();
    BuildNode(buffer, doc);
    output := buffer.text;
  }
}
