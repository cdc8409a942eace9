# draco: the template macro and the Lazy memoiser, in Dafny

This project models four files of draco, a Rust/WebAssembly front-end framework.

- **Parser** (`parser.dfy`) models the back-end of the template parser, `draco_macros/src/parser.rs`. It turns the tree of rule-tagged pest pairs into the template AST: `Expression`, `Arg`, `Tag` and `Node`.
  - Every `panic!`, failed `assert_eq!` and `unwrap()` of the source becomes a `Fail` result carrying its reason.
  - A reference emitter (`NodePair`, `ArgsOptPair`) builds the pair tree of a given AST. The round-trip lemmas prove that parsing inverts it.
- **Builder** (`builder.dfy`) models the code generator, `draco_macros/src/builder.rs`.
  - The text each AST node contributes is a function: `ExprCode`, `ArgCode`, `NodeCode`, `ChildCode`.
  - The generator works as the source does: methods append to a `Buffer` object in place. Each method is proved to append exactly that text.
  - Lemmas state the shape of the text: order of attributes and children, handler/toggle/attribute selection, List splicing, and tag delimiting.
- **Lazy** (`lazy.dfy`) models the memoised subtree, `src/lazy.rs`, as a class.
  - It has a hash, a cached vnode, a view, and a ghost count of how many times the view has run.
  - `Patch` against the previous frame reuses that frame's cache without rendering when the hashes agree. Otherwise it renders once and patches.
- **Macro** (`macro.dfy`) models the macro crate's entry points, `draco_macros/src/lib.rs`.
  - `html` is `parse_doc` followed by `build`.
  - `Html::parse` is a token-driven reading of one element:
    - event-handler detection and the handler name;
    - the camelCase to kebab-case fix-up of attribute names;
    - the attribute loop and the child loop;
    - the closing-tag check.
  - Tokens are modelled by kind. The code `quote!` assembles is modelled by the calls it is made of (`Code`).
  - The loops are methods proved equal to recursive specification functions. A token emitter for markup (`MarkupTokens`) and round-trip lemmas show what `Html::parse` makes of well-formed markup.

Two points on the source as written:

- `Html::parse` in lib.rs is not used by the `html` macro, which goes through `parse_doc` and `build`. The two paths disagree in many places, and each model follows its own file. Among them:
  - Bare `on`: lib.rs treats a name as a handler only when `on` is followed by at least one character (lib.rs:55). builder.rs treats any name starting with `on` and carrying a block as a handler (builder.rs:34), so a bare `on={…}` becomes `node.on("",{…})`.
  - Event case: builder.rs keeps the event name as written (builder.rs:35), so `onClick={…}` becomes `node.on("Click",…)`. lib.rs lowers its first character to `click` (lib.rs:56-62).
  - Attribute names: builder.rs emits them unchanged (builder.rs:64-69). lib.rs converts camelCase to kebab-case (lib.rs:84-94).
  - Toggles: builder.rs turns `disabled`/`checked` with a block into a conditional attribute (builder.rs:50-56). lib.rs has no such arm.
  - Valueless attributes: builder.rs accepts them as an empty attribute (builder.rs:57-63). lib.rs requires `=` and reports a syn error without it (lib.rs:48).
  - Self-closing tags: `parse_doc` accepts `<div />` as a `tag_short` (parser.rs:106-107, 121-122). `Html::parse` requires `>` straight after the attributes (lib.rs:117), so `/` there is a syn error (`Macro.SelfClosingIsSynError`).
  - Bare text: the grammar's `literal` rule takes unquoted text as a child and trims it (parser.rs:140). `Html::parse`'s child loop accepts only a string literal, `#` + block, a block or `<` (lib.rs:122-146), so bare text is a syn error (`Macro.BareTextIsSynError`).
  - Top level: `Html::parse` reads exactly one element. `parse_doc` also takes a top-level string or block, and wraps several top-level nodes in a List (parser.rs:159-163).
  - Emitted code: builder.rs emits a block of statements, `{let mut node = …; node = node.attr(…); … node .push(…)}`, with string children as `draco::Node::from("…")` (builder.rs:27-96). lib.rs emits one chain `draco::html::tag() .attr(…) .push(…)` (lib.rs:158).
- `do_map` (lazy.rs:71-78) hashes only the original hash and the address of its own non-capturing closure. The closure is written inside the generic `do_map`, so Rust compiles one copy of it per mapper type, and its address (`mapViewId` in the model) depends on the mapper's type. The mapper's value is not mixed into the hash: two Lazys with equal hashes still have equal hashes after mapping with two mappers of one type. The model follows the code (`Lazy.MappedHashesAgree`).

## Model

| member | source | states |
|---|---|---|
| Parser.Trim | draco_macros/src/parser.rs:140 | `str::trim`: the result neither starts nor ends with Unicode White_Space and is no longer than the input |
| Parser.SkipStart | draco_macros/src/parser.rs:140 | the first non-whitespace index at or after `i`; everything skipped is whitespace |
| Parser.SkipEnd | draco_macros/src/parser.rs:140 | the end of a range once trailing whitespace is dropped; everything dropped is whitespace |
| Parser.TrimIsMiddle | draco_macros/src/parser.rs:140 | every string is whitespace + its trim + whitespace |
| Parser.TrimCharacterized | draco_macros/src/parser.rs:140 | conversely, text without outer whitespace wrapped in whitespace trims back to exactly that text |
| Parser.TrimIdempotent | draco_macros/src/parser.rs:140 | trimming twice is trimming once |
| Parser.ParseExpression | draco_macros/src/parser.rs:43-63 | succeeds exactly on the two block rules and on string literals of two or more characters. A block is hashed exactly when its rule is `block_hashed` and its text starts with `#`, and `#` + content gives back the text. A string is its text minus first and last character. Any other rule fails with InvalidRule |
| Parser.ParseArg | draco_macros/src/parser.rs:65-79 | succeeds exactly for an `arg` pair whose first child is a `word` and whose optional value parses. The name is the word's text; the value is None exactly when there is no second child |
| Parser.ParseArgList | draco_macros/src/parser.rs:86 | `map(parse_arg).collect()`: succeeds exactly when every pair parses, with one argument per pair in order |
| Parser.ParseArgsOpt | draco_macros/src/parser.rs:81-90 | an empty `args_opt` gives no arguments; one whose first child is `args` gives that child's argument list; any other first child or outer rule fails its `assert_eq!` with UnexpectedRule |
| Parser.ParseTagname | draco_macros/src/parser.rs:92-100 | succeeds exactly on the two tag-name rules, returning the text as written |
| Parser.ParseTag | draco_macros/src/parser.rs:102-132 | name and arguments come from the first two children. A self-closing tag has no children; a full tag's children come from its `nodes_opt`. Any other tag kind fails with InvalidRule |
| Parser.ParseNode | draco_macros/src/parser.rs:134-145 | a parsed node is never a List. A bare literal becomes Str of its trimmed text. Any other unexpected rule fails with InvalidRule |
| Parser.ParseNodesOpt | draco_macros/src/parser.rs:147-150 | a `nodes_opt` pair gives the nodes of its children as ParseNodeList does; any other rule fails the `assert_eq!` with UnexpectedRule |
| Parser.ParseNodeList | draco_macros/src/parser.rs:149 | `map(parse_node).collect()`: succeeds exactly when every node parses, one node per pair, in order |
| Parser.ParseDoc | draco_macros/src/parser.rs:152-165 | a grammar error is passed on. One top-level node is the document itself; several are a List of all of them in order; none is a failure |
| Parser.ValueRoundTrip | draco_macros/src/parser.rs:43-63 | parse_expression inverts the emitted pair of every expression |
| Parser.ArgsRoundTrip | draco_macros/src/parser.rs:81-90 | arguments come back complete and in source order |
| Parser.FullTagParses | draco_macros/src/parser.rs:102-132 | a full tag's pair, under a regular or a component name, parses to the tag whose children its `nodes_opt` parses to |
| Parser.ShortTagParses | draco_macros/src/parser.rs:102-132 | a self-closing tag's pair, under a regular or a component name, parses to its name and arguments with no children |
| Parser.TagRoundTrip | draco_macros/src/parser.rs:134-145 | a tag node's pair parses back to that tag once its children's pairs do |
| Parser.NodeRoundTrip | draco_macros/src/parser.rs:134-145 | parse_node inverts the emitter on every node it can produce |
| Parser.NodesRoundTrip | draco_macros/src/parser.rs:147-150 | a sequence of node pairs parses back to the nodes, in order |
| Parser.DocRoundTrip | draco_macros/src/parser.rs:159-163 | a document of one node is that node; of several, a List of them in order |
| Builder.ArgsCodeConcat | draco_macros/src/builder.rs:32-72 | attribute statements are emitted in the attributes' order |
| Builder.ChildrenCodeConcat | draco_macros/src/builder.rs:74-94 | children are emitted in the children's order |
| Builder.ListCodeConcat | draco_macros/src/builder.rs:98-105 | the items of a top-level List are emitted in order, each followed by `, ` |
| Builder.ListChildSplices | draco_macros/src/builder.rs:81-87 | a List child gives the same text as its items given one by one as children, when none of them is itself appended or spliced |
| Builder.SinglePush | draco_macros/src/builder.rs:82-86 | each item of a List child is emitted as `.push(` + its node text + `)` and a newline |
| Builder.HashedInListIsPushed | draco_macros/src/builder.rs:76-87 | a hashed block is appended when it is a child, but pushed when it is an item of a List child |
| Builder.TagCodeDelimited | draco_macros/src/builder.rs:26-97 | every tag's text starts with `{` and ends with `}` |
| Builder.EmptyTagCode | draco_macros/src/builder.rs:143-144 | a tag without attributes or children is exactly `{let mut node = draco::html::<name>();` + newline + `node}` |
| Builder.ExprCodeIsSourceText | draco_macros/src/builder.rs:3-15 | a string is emitted with its quotes, which wrap exactly its value. A block is emitted verbatim whether hashed or not; for a hashed block this is its source text minus the `#` |
| Builder.HandlerArg | draco_macros/src/builder.rs:34-49 | a block-valued attribute named `on` + event is a handler for that event. `input` and `checked` use `on_input` / `on_checked`; any other event uses `on("<event>",block)` |
| Builder.ToggleArg | draco_macros/src/builder.rs:50-56 | `disabled` and `checked` with a block are conditional attributes. `checked` is not taken by the handler arm |
| Builder.ValuelessArg | draco_macros/src/builder.rs:57-63 | an attribute without a value is set to `""` whatever its name |
| Builder.StringArg | draco_macros/src/builder.rs:64-70 | a string value is a plain attribute, even under an `on` name |
| Builder.BuildExpr | draco_macros/src/builder.rs:3-15 | appends exactly ExprCode(e) to the buffer |
| Builder.BuildArg | draco_macros/src/builder.rs:33-71 | appends exactly ArgCode(a): the first of the four match arms that applies |
| Builder.BuildHandler | draco_macros/src/builder.rs:34-49 | appends exactly HandlerCode(event, block) |
| Builder.BuildToggle | draco_macros/src/builder.rs:50-56 | appends exactly ToggleCode(name, block) |
| Builder.BuildAttr | draco_macros/src/builder.rs:57-70 | appends exactly AttrCode(name, value) |
| Builder.BuildNode | draco_macros/src/builder.rs:17-107 | appends exactly NodeCode(n) |
| Builder.BuildTag | draco_macros/src/builder.rs:26-97 | appends exactly the tag's text: head, attributes, `node`, children, `}` |
| Builder.BuildArgs | draco_macros/src/builder.rs:32-72 | the attribute loop appends exactly ArgsCode(args) |
| Builder.BuildChildren | draco_macros/src/builder.rs:74-94 | the child loop appends exactly ChildrenCode(children) |
| Builder.BuildChild | draco_macros/src/builder.rs:75-93 | one child: appends exactly ChildCode(child) |
| Builder.BuildList | draco_macros/src/builder.rs:98-105 | appends exactly the text of a top-level List |
| Builder.Build | draco_macros/src/builder.rs:109-113 | returns exactly NodeCode(doc), starting from an empty buffer |
| Builder.Buffer.constructor | draco_macros/src/builder.rs:110 | `String::new()`: the buffer starts empty |
| Lazy.New | src/lazy.rs:23-33 | the hash is the hasher's value on `t` and the view's address; the cache starts empty and nothing has rendered; the view is `view(t)` |
| Lazy.NewWith | src/lazy.rs:35-49 | as New; the extra argument reaches the view but not the hash |
| Lazy.Lazy.Node | src/lazy.rs:80-82 | None exactly when there is no cached vnode or it has no live node; otherwise the cached vnode's node |
| Lazy.Lazy.Create | src/lazy.rs:51-56 | renders exactly once, mounts the tree, caches it and returns its node; the page records one creation |
| Lazy.Lazy.Patch | src/lazy.rs:58-69 | always empties the previous cache and never renders the previous Lazy. With no previous node: throws and changes nothing else. On equal hashes: takes over the old vnode and node unrendered, touching nothing on the page. Otherwise: renders once and patches the new tree against the old one |
| Lazy.Lazy.DoMap | src/lazy.rs:71-78 | the mapped Lazy has an empty cache; its hash depends only on the original hash and the address of the mapping closure's copy for the mapper's type, and its view maps the original view's tree |
| Lazy.RerenderUnchanged | src/lazy.rs:58-64 | two frames from the same data: the second reuses the first frame's node, and the page sees only the first creation |
| Lazy.RerenderChanged | src/lazy.rs:65-68 | two frames whose data hash differently: the page sees the creation, then one patch from the old tree to the new |
| Lazy.MappedHashesAgree | src/lazy.rs:75 | equal hashes before mapping give equal hashes after for two mappers of one type (one `mapViewId`), whatever their values |
| Macro.ToLower | draco_macros/src/lib.rs:88-89 | an upper-case ASCII letter maps to its lower case; anything else is unchanged |
| Macro.IsHandler | draco_macros/src/lib.rs:55 | every handler name is `on` followed by a non-empty rest |
| Macro.HandlerOfRest | draco_macros/src/lib.rs:55 | `on` + rest is a handler exactly when the rest is not empty, so a bare `on` is not |
| Macro.HandlerName | draco_macros/src/lib.rs:56-62 | the handler's event name is two characters shorter than the attribute name |
| Macro.HandlerNameOfEvent | draco_macros/src/lib.rs:55-62 | `on` + event is a handler named event, and so is `on` + event with its first letter capitalised (`onClick` and `onclick` both give `click`) |
| Macro.HandlerCall | draco_macros/src/lib.rs:69-81 | `input` gives `on_input` and `checked` gives `on_checked`, both exactly; any other event gives `on(event, …)`; never a plain attribute |
| Macro.FixUpName | draco_macros/src/lib.rs:84-94 | the fix-up loop computes Kebab(name) |
| Macro.KebabConcat | draco_macros/src/lib.rs:84-94 | the fix-up works character by character: it distributes over concatenation |
| Macro.KebabLength | draco_macros/src/lib.rs:84-94 | the CSS name is never shorter, and as long exactly when the name has no upper case |
| Macro.KebabUnchanged | draco_macros/src/lib.rs:84-94 | a name is kept unchanged exactly when it has no upper case |
| Macro.KebabIsLower | draco_macros/src/lib.rs:84-94 | the CSS name has no upper-case letters |
| Macro.KebabRoundTrip | draco_macros/src/lib.rs:84-94 | for names without `-`, Camel undoes the fix-up |
| Macro.KebabInjective | draco_macros/src/lib.rs:84-94 | names without `-` have equal CSS names exactly when they are equal |
| Macro.AttrsSpec | draco_macros/src/lib.rs:45-114 | the attribute loop stops at the first token that is not an identifier and leaves it unread |
| Macro.ElementSpec | draco_macros/src/lib.rs:32-161 | a successful element consumes at least one token |
| Macro.ChildrenSpec | draco_macros/src/lib.rs:122-146 | the child loop, when it ends, stops in front of `<` `/` |
| Macro.CloseSpec | draco_macros/src/lib.rs:148-156 | the closing tag succeeds exactly on `</` + the opening name + `>`, leaving the tokens after it. It panics with Unclosed exactly on `</` + another name + `>`; anything else is a syn error |
| Macro.ParseHtml | draco_macros/src/lib.rs:32-161 | Html::parse computes ElementSpec: outcome, code and the tokens left |
| Macro.ParseAttrs | draco_macros/src/lib.rs:45-114 | the attribute loop computes AttrsSpec |
| Macro.ParseChildren | draco_macros/src/lib.rs:119-146 | the child loop computes ChildrenSpec |
| Macro.AttrStep | draco_macros/src/lib.rs:46-109 | one `name = value` attribute becomes its call and the loop continues after it |
| Macro.AttrsRoundTrip | draco_macros/src/lib.rs:45-114 | attributes of well-formed markup come back as their calls, in order, with the tokens after them untouched |
| Macro.ElementSteps | draco_macros/src/lib.rs:37-158 | an element is `<`, a name, attributes, `>`, children and then the closing-tag check |
| Macro.ElementReads | draco_macros/src/lib.rs:37-158 | for well-formed markup, the whole element is read before the closing tag is checked, whatever that tag names |
| Macro.ElementRoundTrip | draco_macros/src/lib.rs:32-161 | Html::parse reads the tokens of well-formed markup back as the code that markup stands for, leaving the tokens after it |
| Macro.ChildStep | draco_macros/src/lib.rs:124-130 | a string child is pushed, `#` + block appended, a block pushed, and the loop continues after it |
| Macro.NestedStep | draco_macros/src/lib.rs:139-144 | a child element is parsed recursively and pushed |
| Macro.ChildrenRoundTrip | draco_macros/src/lib.rs:122-146 | children of well-formed markup come back as their calls, in source order, stopping at `</` |
| Macro.MismatchedCloseTagPanics | draco_macros/src/lib.rs:148-156 | an element closed by another name panics with Unclosed(open, found) |
| Macro.SelfClosingIsSynError | draco_macros/src/lib.rs:116-117 | an element written `<tag attrs />` is a syn error: `>` must follow the attributes |
| Macro.BareTextIsSynError | draco_macros/src/lib.rs:122-146 | an element whose first child is unquoted text is a syn error |
| Macro.AttributeErrors | draco_macros/src/lib.rs:46-68 | a handler with a string literal panics with HandlerNeedsBlock; an attribute without `=` is a syn error |
| Macro.Html | draco_macros/src/lib.rs:10-26 | fails exactly when parse_doc fails, with its failure; otherwise returns build's text for the parsed document |

## Left out

- The pest grammar and `HtmlParser::parse` (`grammar.pest` is not part of this model). The pair tree is the input of `Parser.ParseDoc`; a grammar error arrives as an error string.
- The `TokenStream` round trip of the generated text (`TokenStream::from_str(...).expect(...)`, lib.rs:23-24): `Macro.Html` returns the text.
- syn and quote internals.
  - Tokens are modelled by kind. A `Brace` token stands for a block that `syn::Block` accepts; the statements inside it are not parsed.
  - `syn::Ident` refusing keywords is not modelled.
  - The token stream `quote!` builds is modelled as the `Code` datatype of calls.
- Macro.ToLower: ASCII only, because `char::is_uppercase` / `to_lowercase` follow the Unicode tables (one upper-case character can lower to several). Kebab and HandlerName inherit this.
- Parser.ParseExpression: works on characters. Rust's `&s[1..s.len() - 1]` slices bytes and would also panic on a multi-byte closing character.
- Lazy.New: FxHasher and `view as usize` are parameters: a hasher function and a view address.
- Lazy.Dom: the bodies of `VNode::create`, `VNode::patch` and `VNode::do_map`, `web::Node` and `Mailbox` stand outside the model (`draco/src/node.rs` is not part of this model). `Dom` records what they do to the page, and its contracts are all Lazy relies on. A tree is a generic value; `do_map` on a tree is the mapper applied to it.
- Lazy.Lazy.Patch: `unwrap_throw` throwing is the result None. Rust's borrow rules make `self` and `old` distinct, which is the precondition `prev != this`.
- The `Debug` impls, the unused `Node::empty`, the examples, the DOM start-up and panic hook in draco/src/lib.rs, and the compile-only macro test.
