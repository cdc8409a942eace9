/**
 * The procedural-macro crate's entry points (draco_macros/src/lib.rs).
 *
 * `html` runs the template parser and the code generator.  `Html::parse` is a
 * second, token-driven reading of the same markup: it walks the tokens of one
 * element, turns its attributes into builder calls (event handlers for `on…`
 * names, kebab-case names for the rest), collects its children in order and
 * checks that the closing tag names the opening one.  Tokens are modelled by
 * kind only; the code `quote!` builds is modelled by the calls it is made of.
 */
module Macro {
  import opened Wrappers
  import Parser
  import Builder
  import opened Sequences

  // ---- Attribute names ----

  /** ASCII upper case. */
  predicate IsUpper(c: char) {
    'A' <= c <= 'Z'
  }

  function ToLower(c: char): (r: char)
    ensures IsUpper(c) ==> 'a' <= r <= 'z' && r as int - c as int == 32
    ensures !IsUpper(c) ==> r == c
  {
    if IsUpper(c) then (c as int + 32) as char else c
  }

  function ToUpper(c: char): (r: char)
    ensures 'a' <= c <= 'z' ==> IsUpper(r) && ToLower(r) == c
    ensures !('a' <= c <= 'z') ==> r == c
  {
    if 'a' <= c <= 'z' then (c as int - 32) as char else c
  }

  /** An attribute is an event handler when its name is `on` followed by at least one character. */
  predicate IsHandler(name: string): (b: bool)
    ensures b ==> |name| > 2 && name == "on" + name[2..]
  {
    |name| > 2 && name[..2] == "on"
  }

  /** A name made of `on` and a rest is a handler exactly when the rest is not empty. */
  lemma HandlerOfRest(rest: string)
    ensures IsHandler("on" + rest) <==> rest != []
  {
    assert ("on" + rest)[..2] == "on";
  }

  /** The event a handler attribute names: the rest after `on`, its first character in lower case. */
  function HandlerName(name: string): (r: string)
    requires IsHandler(name)
    ensures |r| == |name| - 2
  {
    [ToLower(name[2])] + name[3..]
  }

  /** `onClick` and `onclick` both name the event `click`. */
  lemma HandlerNameOfEvent(event: string)
    requires event != [] && !IsUpper(event[0])
    ensures IsHandler("on" + event) && HandlerName("on" + event) == event
    ensures IsHandler("on" + [ToUpper(event[0])] + event[1..])
         && HandlerName("on" + [ToUpper(event[0])] + event[1..]) == event
  {
    var lower := "on" + event;
    assert lower[..2] == "on" && lower[2] == event[0] && lower[3..] == event[1..];
    var upper := "on" + [ToUpper(event[0])] + event[1..];
    assert upper[..2] == "on" && upper[2] == ToUpper(event[0]) && upper[3..] == event[1..];
  }

  /** What one character of an attribute name becomes in its CSS name. */
  function Piece(c: char): (r: string)
    ensures |r| >= 1 && r[|r| - 1] == ToLower(c)
  {
    if IsUpper(c) then ['-', ToLower(c)] else [c]
  }

  /** The CSS name of an attribute: each upper-case letter becomes `-` and its lower case. */
  function Kebab(name: string): string {
    if name == [] then []
    else Kebab(name[..|name| - 1]) + Piece(name[|name| - 1])
  }

  /** The name fix-up loop of Html::parse. */
  method FixUpName(name: string) returns (css: string)
    ensures css == Kebab(name)
  {
    css := "";
    for i := 0 to |name|
      invariant css == Kebab(name[..i])
    {
      var c := name[i];
      if IsUpper(c) {
        css := css + ['-'];
        css := css + [ToLower(c)];
      } else {
        css := css + [c];
      }
      assert name[..i + 1][..i] == name[..i];
    }
    assert name[..|name|] == name;
  }

  predicate NoUpper(s: string) {
    forall i :: 0 <= i < |s| ==> !IsUpper(s[i])
  }

  lemma {:induction false} KebabConcat(a: string, b: string)
    ensures Kebab(a + b) == Kebab(a) + Kebab(b)
    decreases |b|
  {
    if b == [] {
      assert a + b == a;
    } else {
      var ab := a + b;
      var front := b[..|b| - 1];
      var last := b[|b| - 1];
      assert ab[..|ab| - 1] == a + front && ab[|ab| - 1] == last;
      assert Kebab(ab) == Kebab(a + front) + Piece(last);
      KebabConcat(a, front);
      assert Kebab(b) == Kebab(front) + Piece(last);
      Regroup(Kebab(a), Kebab(front), Piece(last));
    }
  }

  lemma KebabFront(s: string)
    requires s != []
    ensures Kebab(s) == Piece(s[0]) + Kebab(s[1..])
  {
    assert s == [s[0]] + s[1..];
    KebabConcat([s[0]], s[1..]);
    assert Kebab([s[0]]) == Piece(s[0]) by {
      assert [s[0]][..0] == [];
    }
  }

  /** The CSS name is never shorter than the attribute name, and as long exactly when nothing changed. */
  lemma {:induction false} KebabLength(s: string)
    ensures |Kebab(s)| >= |s|
    ensures |Kebab(s)| == |s| <==> NoUpper(s)
  {
    if s != [] {
      var init := s[..|s| - 1];
      KebabLength(init);
      assert NoUpper(s) <==> NoUpper(init) && !IsUpper(s[|s| - 1]) by {
        if NoUpper(init) && !IsUpper(s[|s| - 1]) {
          forall i | 0 <= i < |s| ensures !IsUpper(s[i]) {
            if i < |s| - 1 { assert s[i] == init[i]; }
          }
        }
        if NoUpper(s) {
          forall i | 0 <= i < |init| ensures !IsUpper(init[i]) {
            assert init[i] == s[i];
          }
        }
      }
    }
  }

  /** A name without upper-case letters is kept as it is, and only such a name. */
  lemma {:induction false} KebabUnchanged(s: string)
    ensures Kebab(s) == s <==> NoUpper(s)
  {
    KebabLength(s);
    if NoUpper(s) && s != [] {
      var init := s[..|s| - 1];
      assert NoUpper(init) by {
        forall i | 0 <= i < |init| ensures !IsUpper(init[i]) {
          assert init[i] == s[i];
        }
      }
      KebabUnchanged(init);
      assert s == init + [s[|s| - 1]];
    }
  }

  /** The CSS name has no upper-case letters. */
  lemma {:induction false} KebabIsLower(s: string)
    ensures NoUpper(Kebab(s))
  {
    if s != [] {
      var init := s[..|s| - 1];
      KebabIsLower(init);
      var k, p := Kebab(init), Piece(s[|s| - 1]);
      assert NoUpper(p);
      forall i | 0 <= i < |k + p| ensures !IsUpper((k + p)[i]) {
        if i < |k| { assert (k + p)[i] == k[i]; } else { assert (k + p)[i] == p[i - |k|]; }
      }
    }
  }

  /** Back from a CSS name: `-` and a letter become that letter in upper case. */
  function Camel(css: string): (r: string)
    ensures |r| <= |css|
  {
    if css == [] then []
    else if css[0] == '-' && |css| >= 2 then [ToUpper(css[1])] + Camel(css[2..])
    else [css[0]] + Camel(css[1..])
  }

  /** For names without `-` (every identifier) the fix-up can be undone, so distinct names stay distinct. */
  lemma {:induction false} KebabRoundTrip(s: string)
    requires forall i :: 0 <= i < |s| ==> s[i] != '-'
    ensures Camel(Kebab(s)) == s
    decreases |s|
  {
    if s != [] {
      KebabFront(s);
      KebabRoundTrip(s[1..]);
      var k := Kebab(s);
      if IsUpper(s[0]) {
        assert k[0] == '-' && k[1] == ToLower(s[0]) && k[2..] == Kebab(s[1..]);
        assert ToUpper(ToLower(s[0])) == s[0];
      } else {
        assert k[0] == s[0] && k[1..] == Kebab(s[1..]);
      }
      assert s == [s[0]] + s[1..];
    }
  }

  lemma KebabInjective(a: string, b: string)
    requires forall i :: 0 <= i < |a| ==> a[i] != '-'
    requires forall i :: 0 <= i < |b| ==> b[i] != '-'
    ensures Kebab(a) == Kebab(b) <==> a == b
  {
    KebabRoundTrip(a);
    KebabRoundTrip(b);
  }

  // ---- Tokens and the code quote! builds ----

  /** A token tree as Html::parse sees it: `Brace` is a brace-delimited group (a block). */
  datatype Token = Punct(ch: char) | Ident(name: string) | LitStr(lit: string) | Brace(code: string) | Other(text: string)

  /** An attribute's value: a string literal or a block. */
  datatype Value = Lit(lit: string) | BlockValue(code: string)

  /** One call of the chain after `draco::html::<tag>()`. */
  datatype Call = OnInput(block: string) | OnChecked(block: string) | On(event: string, block: string) | Attr(name: string, value: Value)

  datatype ChildCall = PushLit(lit: string) | Append(block: string) | PushBlock(block: string) | PushTag(code: Code)

  /** `draco::html::<tag>()` followed by its attribute calls and then its child calls. */
  datatype Code = Code(tag: string, attrs: seq<Call>, children: seq<ChildCall>)

  /** Why Html::parse panicked. */
  datatype Panic = HandlerNeedsBlock(attr: string, tag: string) | Unclosed(open: string, found: string)

  /** The outcome of parsing a prefix of the tokens: a value and the tokens left, a syn error, or a panic. */
  datatype Step<T> = Done(value: T, rest: seq<Token>) | SynError | Panicked(reason: Panic)

  /** The call a handler attribute becomes. */
  function HandlerCall(name: string, block: string): (r: Call)
    requires IsHandler(name)
    ensures r.OnInput? <==> HandlerName(name) == "input"
    ensures r.OnChecked? <==> HandlerName(name) == "checked"
    ensures r.On? ==> r.event == HandlerName(name)
    ensures !r.Attr?
  {
    var event := HandlerName(name);
    if event == "input" then OnInput(block)
    else if event == "checked" then OnChecked(block)
    else On(event, block)
  }

  // ---- Html::parse, as functions over the remaining tokens ----

  /** The attribute loop: `acc` holds the calls of the attributes read so far. */
  function AttrsSpec(tag: string, ts: seq<Token>, acc: seq<Call>): (r: Step<seq<Call>>)
    ensures r.Done? ==> |r.rest| <= |ts| && (r.rest == [] || !r.rest[0].Ident?)
    decreases |ts|
  {
    if ts == [] || !ts[0].Ident? then Done(acc, ts)
    else if |ts| < 2 || ts[1] != Punct('=') then SynError
    else if IsHandler(ts[0].name) then
      if |ts| < 3 || !ts[2].Brace? then Panicked(HandlerNeedsBlock(ts[0].name, tag))
      else AttrsSpec(tag, ts[3..], acc + [HandlerCall(ts[0].name, ts[2].code)])
    else if |ts| >= 3 && ts[2].LitStr? then AttrsSpec(tag, ts[3..], acc + [Attr(Kebab(ts[0].name), Lit(ts[2].lit))])
    else if |ts| >= 3 && ts[2].Brace? then AttrsSpec(tag, ts[3..], acc + [Attr(Kebab(ts[0].name), BlockValue(ts[2].code))])
    else SynError
  }

  /** One element: `<tag attrs> children </tag>`. */
  function ElementSpec(ts: seq<Token>): (r: Step<Code>)
    ensures r.Done? ==> |r.rest| < |ts|
    decreases |ts|, 0
  {
    if |ts| < 2 || ts[0] != Punct('<') || !ts[1].Ident? then SynError
    else
      var tag := ts[1].name;
      match AttrsSpec(tag, ts[2..], [])
      case SynError => SynError
      case Panicked(p) => Panicked(p)
      case Done(attrs, rest) =>
        if rest == [] || rest[0] != Punct('>') then SynError
        else
          match ChildrenSpec(rest[1..], [])
          case SynError => SynError
          case Panicked(p) => Panicked(p)
          case Done(children, rest') => CloseSpec(Code(tag, attrs, children), rest')
  }

  /** The child loop: `acc` holds the calls of the children read so far; it stops before `</`. */
  function ChildrenSpec(ts: seq<Token>, acc: seq<ChildCall>): (r: Step<seq<ChildCall>>)
    ensures r.Done? ==> |r.rest| <= |ts| && |r.rest| >= 2 && r.rest[0] == Punct('<') && r.rest[1] == Punct('/')
    decreases |ts|, 1
  {
    if ts != [] && ts[0].LitStr? then ChildrenSpec(ts[1..], acc + [PushLit(ts[0].lit)])
    else if ts != [] && ts[0] == Punct('#') then
      if |ts| >= 2 && ts[1].Brace? then ChildrenSpec(ts[2..], acc + [Append(ts[1].code)]) else SynError
    else if ts != [] && ts[0].Brace? then ChildrenSpec(ts[1..], acc + [PushBlock(ts[0].code)])
    else if ts == [] || ts[0] != Punct('<') then SynError
    else if |ts| >= 2 && ts[1] == Punct('/') then Done(acc, ts)
    else
      match ElementSpec(ts)
      case SynError => SynError
      case Panicked(p) => Panicked(p)
      case Done(code, rest) => ChildrenSpec(rest, acc + [PushTag(code)])
  }

  /** The closing tag `</name>`: another name than the opening one panics. */
  function CloseSpec(code: Code, ts: seq<Token>): (r: Step<Code>)
    ensures r.Done? <==> |ts| >= 4 && ts[..2] == [Punct('<'), Punct('/')] && ts[2] == Ident(code.tag) && ts[3] == Punct('>')
    ensures r.Done? ==> r == Done(code, ts[4..])
    ensures r.Panicked? <==> |ts| >= 4 && ts[..2] == [Punct('<'), Punct('/')] && ts[2].Ident? && ts[2].name != code.tag && ts[3] == Punct('>')
    ensures r.Panicked? ==> r.reason == Unclosed(code.tag, ts[2].name)
  {
    if |ts| < 4 || ts[0] != Punct('<') || ts[1] != Punct('/') || !ts[2].Ident? || ts[3] != Punct('>') then SynError
    else if ts[2].name != code.tag then Panicked(Unclosed(code.tag, ts[2].name))
    else Done(code, ts[4..])
  }

  // ---- Html::parse, the loops ----

  /** Html::parse: reads one element from the front of `ts`. */
  method ParseHtml(ts: seq<Token>) returns (r: Step<Code>)
    ensures r == ElementSpec(ts)
    decreases |ts|, 0
  {
    if |ts| < 2 || ts[0] != Punct('<') || !ts[1].Ident? {
      return SynError;
    }
    var tag := ts[1].name;
    var attrsRead := ParseAttrs(tag, ts[2..]);
    if !attrsRead.Done? {
      return if attrsRead.SynError? then SynError else Panicked(attrsRead.reason);
    }
    var rest := attrsRead.rest;
    if rest == [] || rest[0] != Punct('>') {
      return SynError;
    }
    var childrenRead := ParseChildren(rest[1..]);
    if !childrenRead.Done? {
      return if childrenRead.SynError? then SynError else Panicked(childrenRead.reason);
    }
    var close := childrenRead.rest;
    if |close| < 4 || close[0] != Punct('<') || close[1] != Punct('/') || !close[2].Ident? || close[3] != Punct('>') {
      return SynError;
    }
    var closingTag := close[2].name;
    if tag != closingTag {
      return Panicked(Unclosed(tag, closingTag));
    }
    r := Done(Code(tag, attrsRead.value, childrenRead.value), close[4..]);
  }

  /** The attribute loop of Html::parse; `cur` is what is left of the input. */
  method ParseAttrs(tag: string, ts: seq<Token>) returns (r: Step<seq<Call>>)
    ensures r == AttrsSpec(tag, ts, [])
  {
    var attrs: seq<Call> := [];
    var cur := ts;
    while cur != [] && cur[0].Ident?
      invariant AttrsSpec(tag, cur, attrs) == AttrsSpec(tag, ts, [])
      decreases |cur|
    {
      var name := cur[0].name;
      if |cur| < 2 || cur[1] != Punct('=') {
        return SynError;
      }
      if IsHandler(name) {
        if |cur| < 3 || !cur[2].Brace? {
          return Panicked(HandlerNeedsBlock(name, tag));
        }
        attrs := attrs + [HandlerCall(name, cur[2].code)];
      } else {
        var css := FixUpName(name);
        if |cur| >= 3 && cur[2].LitStr? {
          attrs := attrs + [Attr(css, Lit(cur[2].lit))];
        } else if |cur| >= 3 && cur[2].Brace? {
          attrs := attrs + [Attr(css, BlockValue(cur[2].code))];
        } else {
          return SynError;
        }
      }
      cur := cur[3..];
    }
    r := Done(attrs, cur);
  }

  /** The child loop of Html::parse; it stops before `</`. */
  method ParseChildren(ts: seq<Token>) returns (r: Step<seq<ChildCall>>)
    ensures r == ChildrenSpec(ts, [])
    decreases |ts|, 1
  {
    var children: seq<ChildCall> := [];
    var cur := ts;
    while true
      invariant |cur| <= |ts|
      invariant ChildrenSpec(cur, children) == ChildrenSpec(ts, [])
      decreases |cur|
    {
      if cur != [] && cur[0].LitStr? {
        children := children + [PushLit(cur[0].lit)];
        cur := cur[1..];
      } else if cur != [] && cur[0] == Punct('#') {
        if |cur| < 2 || !cur[1].Brace? {
          return SynError;
        }
        children := children + [Append(cur[1].code)];
        cur := cur[2..];
      } else if cur != [] && cur[0].Brace? {
        children := children + [PushBlock(cur[0].code)];
        cur := cur[1..];
      } else if cur == [] || cur[0] != Punct('<') {
        return SynError;
      } else if |cur| >= 2 && cur[1] == Punct('/') {
        break;
      } else {
        var child := ParseHtml(cur);
        if !child.Done? {
          return if child.SynError? then SynError else Panicked(child.reason);
        }
        children := children + [PushTag(child.value)];
        cur := child.rest;
      }
    }
    r := Done(children, cur);
  }

  // ---- Markup and the tokens it is written as ----

  /** An attribute as written: `name = "lit"` or `name = {code}`. */
  datatype MarkupAttr = MarkupAttr(name: string, value: Value)

  /** What Html::parse reads: a string literal, `#{…}`, `{…}` or a nested element. */
  datatype Markup =
    | Text(lit: string)
    | Hashed(code: string)
    | Embedded(code: string)
    | Element(tag: string, attrs: seq<MarkupAttr>, children: seq<Markup>)

  function ValueToken(v: Value): Token {
    match v
    case Lit(lit) => LitStr(lit)
    case BlockValue(code) => Brace(code)
  }

  function AttrTokens(attrs: seq<MarkupAttr>): seq<Token> {
    if attrs == [] then []
    else [Ident(attrs[0].name), Punct('='), ValueToken(attrs[0].value)] + AttrTokens(attrs[1..])
  }

  function OpenTokens(tag: string, attrs: seq<MarkupAttr>): seq<Token> {
    [Punct('<'), Ident(tag)] + AttrTokens(attrs) + [Punct('>')]
  }

  function CloseTokens(tag: string): seq<Token> {
    [Punct('<'), Punct('/'), Ident(tag), Punct('>')]
  }

  function MarkupTokens(m: Markup): seq<Token>
    decreases m, 0
  {
    match m
    case Text(lit) => [LitStr(lit)]
    case Hashed(code) => [Punct('#'), Brace(code)]
    case Embedded(code) => [Brace(code)]
    case Element(tag, attrs, children) => OpenTokens(tag, attrs) + ChildrenTokens(children) + CloseTokens(tag)
  }

  function ChildrenTokens(children: seq<Markup>): seq<Token>
    decreases children, 1
  {
    if children == [] then []
    else MarkupTokens(children[0]) + ChildrenTokens(children[1..])
  }

  /** Handler attributes need a block (a literal one panics), here and in every nested element. */
  predicate HandlersHaveBlocks(attrs: seq<MarkupAttr>) {
    forall a | a in attrs :: IsHandler(a.name) ==> a.value.BlockValue?
  }

  predicate WellFormed(m: Markup) {
    match m
    case Element(_, attrs, children) =>
      HandlersHaveBlocks(attrs) && forall c | c in children :: WellFormed(c)
    case _ => true
  }

  function AttrCall(a: MarkupAttr): Call
    requires IsHandler(a.name) ==> a.value.BlockValue?
  {
    if IsHandler(a.name) then HandlerCall(a.name, a.value.code) else Attr(Kebab(a.name), a.value)
  }

  function AttrCalls(attrs: seq<MarkupAttr>): seq<Call>
    requires HandlersHaveBlocks(attrs)
  {
    if attrs == [] then [] else [AttrCall(attrs[0])] + AttrCalls(attrs[1..])
  }

  /** The code the quote! of Html::parse is made of for well-formed markup. */
  function Expected(m: Markup): Code
    requires m.Element? && WellFormed(m)
    decreases m, 0
  {
    Code(m.tag, AttrCalls(m.attrs), ChildCalls(m.children))
  }

  function ChildCalls(children: seq<Markup>): seq<ChildCall>
    requires forall c | c in children :: WellFormed(c)
    decreases children, 1
  {
    if children == [] then []
    else
      var c := children[0];
      var call := match c
        case Text(lit) => PushLit(lit)
        case Hashed(code) => Append(code)
        case Embedded(code) => PushBlock(code)
        case Element(_, _, _) => PushTag(Expected(c));
      [call] + ChildCalls(children[1..])
  }

  // ---- What Html::parse makes of markup ----

  /** One attribute read by the attribute loop. */
  lemma AttrStep(tag: string, a: MarkupAttr, tail: seq<Token>, acc: seq<Call>)
    requires IsHandler(a.name) ==> a.value.BlockValue?
    ensures AttrsSpec(tag, [Ident(a.name), Punct('='), ValueToken(a.value)] + tail, acc)
         == AttrsSpec(tag, tail, acc + [AttrCall(a)])
  {
    var ts := [Ident(a.name), Punct('='), ValueToken(a.value)] + tail;
    assert ts[0] == Ident(a.name) && ts[1] == Punct('=') && ts[2] == ValueToken(a.value) && ts[3..] == tail;
  }

  lemma {:induction false} AttrsRoundTrip(tag: string, attrs: seq<MarkupAttr>, acc: seq<Call>, rest: seq<Token>)
    requires HandlersHaveBlocks(attrs)
    requires rest == [] || !rest[0].Ident?
    ensures AttrsSpec(tag, AttrTokens(attrs) + rest, acc) == Done(acc + AttrCalls(attrs), rest)
    decreases |attrs|
  {
    if attrs == [] {
      assert AttrTokens(attrs) + rest == rest && acc + AttrCalls(attrs) == acc;
    } else {
      var a := attrs[0];
      var tail := AttrTokens(attrs[1..]) + rest;
      Regroup([Ident(a.name), Punct('='), ValueToken(a.value)], AttrTokens(attrs[1..]), rest);
      assert a in attrs;
      AttrStep(tag, a, tail, acc);
      assert HandlersHaveBlocks(attrs[1..]) by {
        forall b | b in attrs[1..] ensures IsHandler(b.name) ==> b.value.BlockValue? {
          assert b in attrs;
        }
      }
      AttrsRoundTrip(tag, attrs[1..], acc + [AttrCall(a)], rest);
      Regroup(acc, [AttrCall(a)], AttrCalls(attrs[1..]));
    }
  }

  /** How ElementSpec reads an element whose attributes and children it has read. */
  lemma ElementSteps(ts: seq<Token>, attrs: seq<Call>, afterAttrs: seq<Token>, children: seq<ChildCall>, close: seq<Token>)
    requires |ts| >= 2 && ts[0] == Punct('<') && ts[1].Ident?
    requires AttrsSpec(ts[1].name, ts[2..], []) == Done(attrs, afterAttrs)
    requires afterAttrs != [] && afterAttrs[0] == Punct('>')
    requires ChildrenSpec(afterAttrs[1..], []) == Done(children, close)
    ensures ElementSpec(ts) == CloseSpec(Code(ts[1].name, attrs, children), close)
  {
  }

  /**
   * The tokens of an element, its attribute tokens `attrs`, child tokens
   * `children` and closing tokens `close`, split where ElementSpec reads them.
   */
  lemma ElementTokensSplit(tag: string, attrs: seq<Token>, children: seq<Token>, close: seq<Token>, rest: seq<Token>)
    ensures var ts := [Punct('<'), Ident(tag)] + attrs + [Punct('>')] + children + close + rest;
            var afterAttrs := [Punct('>')] + (children + (close + rest));
            |ts| >= 2 && ts[0] == Punct('<') && ts[1] == Ident(tag)
            && ts[2..] == attrs + afterAttrs
            && afterAttrs[1..] == children + (close + rest)
  {
    var head: seq<Token> := [Punct('<'), Ident(tag)];
    var ts := head + attrs + [Punct('>')] + children + close + rest;
    var afterAttrs := [Punct('>')] + (children + (close + rest));
    assert ts == head + (attrs + afterAttrs);
    assert (head + (attrs + afterAttrs))[2..] == attrs + afterAttrs;
  }

  /**
   * Html::parse reads the attributes and children of well-formed markup back
   * as their calls, whatever closing tag follows them.
   */
  lemma ElementReads(m: Markup, found: string, rest: seq<Token>)
    requires m.Element? && WellFormed(m)
    ensures ElementSpec(OpenTokens(m.tag, m.attrs) + ChildrenTokens(m.children) + CloseTokens(found) + rest)
         == CloseSpec(Expected(m), CloseTokens(found) + rest)
    decreases m, 0
  {
    var ts := OpenTokens(m.tag, m.attrs) + ChildrenTokens(m.children) + CloseTokens(found) + rest;
    var close := CloseTokens(found) + rest;
    var afterAttrs := [Punct('>')] + (ChildrenTokens(m.children) + close);
    ElementTokensSplit(m.tag, AttrTokens(m.attrs), ChildrenTokens(m.children), CloseTokens(found), rest);
    assert AttrsSpec(m.tag, ts[2..], []) == Done(AttrCalls(m.attrs), afterAttrs) by {
      AttrsRoundTrip(m.tag, m.attrs, [], afterAttrs);
      assert [] + AttrCalls(m.attrs) == AttrCalls(m.attrs);
    }
    assert ChildrenSpec(afterAttrs[1..], []) == Done(ChildCalls(m.children), close) by {
      ChildrenRoundTrip(m.children, [], close);
      assert [] + ChildCalls(m.children) == ChildCalls(m.children);
    }
    ElementSteps(ts, AttrCalls(m.attrs), afterAttrs, ChildCalls(m.children), close);
  }

  /** Html::parse reads the tokens of well-formed markup back as the code that markup stands for. */
  lemma ElementRoundTrip(m: Markup, rest: seq<Token>)
    requires m.Element? && WellFormed(m)
    ensures ElementSpec(MarkupTokens(m) + rest) == Done(Expected(m), rest)
    decreases m, 1
  {
    assert MarkupTokens(m) == OpenTokens(m.tag, m.attrs) + ChildrenTokens(m.children) + CloseTokens(m.tag);
    ElementReads(m, m.tag, rest);
    var close := CloseTokens(m.tag) + rest;
    assert close[..2] == [Punct('<'), Punct('/')] && close[2] == Ident(m.tag) && close[3] == Punct('>');
    assert close[4..] == rest;
  }

  /** The child loop reads one child. */
  lemma ChildStep(c: Markup, tail: seq<Token>, acc: seq<ChildCall>, call: ChildCall)
    requires !c.Element?
    requires call == match c
               case Text(lit) => PushLit(lit)
               case Hashed(code) => Append(code)
               case Embedded(code) => PushBlock(code)
               case Element(_, _, _) => call
    ensures ChildrenSpec(MarkupTokens(c) + tail, acc) == ChildrenSpec(tail, acc + [call])
  {
    var ts := MarkupTokens(c) + tail;
    if c.Hashed? {
      assert ts[0] == Punct('#') && ts[1] == Brace(c.code) && ts[2..] == tail;
    } else {
      assert ts[1..] == tail;
    }
  }

  /** The child loop reads a nested element. */
  lemma NestedStep(ts: seq<Token>, acc: seq<ChildCall>, code: Code, rest: seq<Token>)
    requires |ts| >= 2 && ts[0] == Punct('<') && ts[1].Ident?
    requires ElementSpec(ts) == Done(code, rest)
    ensures ChildrenSpec(ts, acc) == ChildrenSpec(rest, acc + [PushTag(code)])
  {
  }

  lemma {:induction false} ChildrenRoundTrip(children: seq<Markup>, acc: seq<ChildCall>, rest: seq<Token>)
    requires forall c | c in children :: WellFormed(c)
    requires |rest| >= 2 && rest[0] == Punct('<') && rest[1] == Punct('/')
    ensures ChildrenSpec(ChildrenTokens(children) + rest, acc) == Done(acc + ChildCalls(children), rest)
    decreases children, 2
  {
    if children == [] {
      assert ChildrenTokens(children) + rest == rest && acc + ChildCalls(children) == acc;
    } else {
      var c := children[0];
      assert c in children;
      var tail := ChildrenTokens(children[1..]) + rest;
      Regroup(MarkupTokens(c), ChildrenTokens(children[1..]), rest);
      assert forall d | d in children[1..] :: d in children;
      var call := ChildCalls(children)[0];
      assert ChildCalls(children) == [call] + ChildCalls(children[1..]);
      if c.Element? {
        ElementRoundTrip(c, tail);
        var ts := MarkupTokens(c) + tail;
        assert ts[0] == Punct('<') && ts[1] == Ident(c.tag);
        NestedStep(ts, acc, Expected(c), tail);
      } else {
        ChildStep(c, tail, acc, call);
      }
      ChildrenRoundTrip(children[1..], acc + [call], rest);
      Regroup(acc, [call], ChildCalls(children[1..]));
    }
  }

  /** A closing tag that names another element panics, after the whole element has been read. */
  lemma MismatchedCloseTagPanics(m: Markup, found: string, rest: seq<Token>)
    requires m.Element? && WellFormed(m) && found != m.tag
    ensures ElementSpec(OpenTokens(m.tag, m.attrs) + ChildrenTokens(m.children) + CloseTokens(found) + rest)
         == Panicked(Unclosed(m.tag, found))
  {
    ElementReads(m, found, rest);
    var close := CloseTokens(found) + rest;
    assert close[..2] == [Punct('<'), Punct('/')] && close[2] == Ident(found) && close[3] == Punct('>');
  }

  /** `<tag attrs />`: Html::parse wants `>` straight after the attributes, so `/` is a syn error. */
  lemma SelfClosingIsSynError(tag: string, attrs: seq<MarkupAttr>, rest: seq<Token>)
    requires HandlersHaveBlocks(attrs)
    ensures ElementSpec([Punct('<'), Ident(tag)] + (AttrTokens(attrs) + ([Punct('/'), Punct('>')] + rest))) == SynError
  {
    var after := [Punct('/'), Punct('>')] + rest;
    AttrsRoundTrip(tag, attrs, [], after);
    var ts := [Punct('<'), Ident(tag)] + (AttrTokens(attrs) + after);
    assert ts[2..] == AttrTokens(attrs) + after;
  }

  /** Unquoted text as a child: the child loop takes no bare identifier, so the element is a syn error. */
  lemma BareTextIsSynError(tag: string, word: string, rest: seq<Token>)
    ensures ElementSpec([Punct('<'), Ident(tag), Punct('>'), Ident(word)] + rest) == SynError
  {
  }

  /**
   * A handler attribute with a string literal panics; an attribute without
   * `=` and a value is a syn error (Html::parse has no valueless attributes).
   */
  lemma AttributeErrors(tag: string, name: string, lit: string, acc: seq<Call>, rest: seq<Token>)
    ensures IsHandler(name) ==>
              AttrsSpec(tag, [Ident(name), Punct('='), LitStr(lit)] + rest, acc) == Panicked(HandlerNeedsBlock(name, tag))
    ensures AttrsSpec(tag, [Ident(name), Punct('>')] + rest, acc) == SynError
  {
  }

  // ---- The macro ----

  /**
   * html: parse_doc and then build.  A parse failure, which the macro turns
   * into a panic, is passed on as the failure.
   */
  method Html(parsed: Result<seq<Parser.Pair>, string>) returns (r: Result<string, Parser.Failure>)
    ensures r.Fail? <==> Parser.ParseDoc(parsed).Fail?
    ensures r.Fail? ==> r.error == Parser.ParseDoc(parsed).error
    ensures r.Ok? ==> r.value == Builder.NodeCode(Parser.ParseDoc(parsed).value)
  {
    var doc := Parser.ParseDoc(parsed);
    if doc.Fail? {
      return Fail(doc.error);
    }
    var output := Builder.Build(doc.value);
    return Ok(output);
  }
}
