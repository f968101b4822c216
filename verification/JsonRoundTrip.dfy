/** Well-nested runs of the writer API, the text they print, and what a JSON
    reader makes of it. */
module JsonRoundTrip {
  import opened Wrappers
  import opened Escapers
  import opened JsonText
  import opened JsonWriter
  import opened Sequences

  /** A well-nested run, as the tree of sections it opens and closes. */
  datatype Tree = Tree(section: Section, items: seq<Item>)

  datatype Item =
    | Leaf(event: Event)
    | Child(tree: Tree)

  function Events(t: Tree): seq<Event>
    decreases t, 1
  {
    [Header(t.section)] + ItemEvents(t.items) + [Footer]
  }

  function ItemEvents(items: seq<Item>): seq<Event>
    decreases items, 0
  {
    if items == [] then [] else
    (match items[0] case Leaf(e) => [e] case Child(t) => assert t < items[0]; Events(t)) + ItemEvents(items[1..])
  }

  function Max(a: nat, b: nat): nat { if a < b then b else a }

  /** How many levels a run has open at once. */
  function Depth(t: Tree): nat
    decreases t, 1
  {
    1 + ItemsDepth(t.items)
  }

  function ItemsDepth(items: seq<Item>): nat
    decreases items, 0
  {
    if items == [] then 0 else
    Max(match items[0] case Leaf(_) => 0 case Child(t) => assert t < items[0]; Depth(t), ItemsDepth(items[1..]))
  }

  /** Only item calls are leaves. */
  ghost predicate Nested(t: Tree)
    decreases t, 1
  {
    NestedItems(t.items)
  }

  ghost predicate NestedItems(items: seq<Item>)
    decreases items, 0
  {
    items == [] ||
    ((match items[0]
      case Leaf(e) => e.Integer? || e.Text?
      case Child(t) => assert t < items[0]; Nested(t)) &&
     NestedItems(items[1..]))
  }

  // ---------- the text of a run ----------

  function Render(o: Options, parent: Option<Level>, t: Tree, indent: int): string
    requires Nested(t)
    decreases t, 1
  {
    HeaderText(o, parent, t.section, indent) +
    (RenderItems(o, t.section, t.items, 0, indent + 1) + FooterText(o, parent, t.section, indent))
  }

  function RenderItems(o: Options, section: Section, items: seq<Item>, count: nat, indent: int): string
    requires NestedItems(items)
    decreases items, 0
  {
    if items == [] then "" else
    match items[0]
    case Leaf(e) =>
      var f := ItemFate(o, section, e);
      FateText(o, count, indent, f) +
      RenderItems(o, section, items[1..], if f == Skipped then count else count + 1, indent)
    case Child(t) =>
      assert t < items[0];
      Render(o, Some(Level(section, count)), t, indent) +
      RenderItems(o, section, items[1..], count + 1, indent)
  }

  function Counted(o: Options, section: Section, items: seq<Item>, count: nat): nat
    requires NestedItems(items)
  {
    if items == [] then count else
    Counted(o, section, items[1..],
            if items[0].Leaf? && ItemFate(o, section, items[0].event) == Skipped then count else count + 1)
  }

  lemma RunStep(o: Options, s: State, e: Event, es: seq<Event>)
    requires Step(o, s, e).Some?
    ensures Run(o, s, [e] + es) == Run(o, Step(o, s, e).value, es)
  {
    assert ([e] + es)[1..] == es;
  }

  /** A run prints its text after what was there and counts as one item of the
      section it happened in; nothing else is left behind. */
  lemma {:induction false} RunTree(o: Options, s: State, t: Tree, rest: seq<Event>)
    requires Nested(t) && |s.levels| + Depth(t) <= SECTION_MAX_NB_LEVELS
    ensures Run(o, s, Events(t) + rest) ==
            Run(o, State(Bump(s.levels), s.indent, s.out + Render(o, Top(s.levels), t, s.indent)), rest)
    decreases t, 1
  {
    var header, body, footer := HeaderText(o, Top(s.levels), t.section, s.indent),
      RenderItems(o, t.section, t.items, 0, s.indent + 1), FooterText(o, Top(s.levels), t.section, s.indent);
    var s1 := State(s.levels + [Level(t.section, 0)], s.indent + 1, s.out + header);
    assert Events(t) + rest == [Header(t.section)] + (ItemEvents(t.items) + ([Footer] + rest));
    RunStep(o, s, Header(t.section), ItemEvents(t.items) + ([Footer] + rest));
    assert s1.levels[..|s.levels|] == s.levels;
    RunItems(o, s1, t.section, t.items, 0, [Footer] + rest);
    var n := Counted(o, t.section, t.items, 0);
    var s2 := State(s.levels + [Level(t.section, n)], s1.indent, s1.out + body);
    assert s2.levels[..|s2.levels| - 1] == s.levels;
    RunStep(o, s2, Footer, rest);
    Cat(s.out + header, body, footer);
    Cat(s.out, header, body + footer);
  }

  lemma {:induction false} RunItems(o: Options, s: State, section: Section, items: seq<Item>, count: nat,
                                    rest: seq<Event>)
    requires s.levels != [] && Top(s.levels) == Some(Level(section, count))
    requires NestedItems(items) && |s.levels| + ItemsDepth(items) <= SECTION_MAX_NB_LEVELS
    ensures Run(o, s, ItemEvents(items) + rest) ==
            Run(o, State(s.levels[..|s.levels| - 1] + [Level(section, Counted(o, section, items, count))], s.indent,
                         s.out + RenderItems(o, section, items, count, s.indent)), rest)
    decreases items, 0
  {
    var below := s.levels[..|s.levels| - 1];
    assert s.levels == below + [Level(section, count)];
    if items == [] {
      assert ItemEvents(items) + rest == rest;
      assert s.out + "" == s.out;
    } else {
      var more := ItemEvents(items[1..]) + rest;
      match items[0] {
        case Leaf(e) =>
          assert ItemEvents(items) + rest == [e] + more;
          RunStep(o, s, e, more);
          var s1 := Step(o, s, e).value;
          var f := ItemFate(o, section, e);
          var count1 := if f == Skipped then count else count + 1;
          assert s1.levels == below + [Level(section, count1)];
          RunItems(o, s1, section, items[1..], count1, rest);
          Cat(s.out, FateText(o, count, s.indent, f), RenderItems(o, section, items[1..], count1, s.indent));
        case Child(t) =>
          assert t < items[0];
          assert ItemEvents(items) + rest == Events(t) + more;
          RunTree(o, s, t, more);
          var text := Render(o, Some(Level(section, count)), t, s.indent);
          var s1 := State(Bump(s.levels), s.indent, s.out + text);
          assert s1.levels == below + [Level(section, count + 1)];
          RunItems(o, s1, section, items[1..], count + 1, rest);
          Cat(s.out, text, RenderItems(o, section, items[1..], count + 1, s.indent));
      }
    }
  }

  // ---------- the tokens of a run ----------

  function OpeningTokens(parent: Option<Level>, section: Section): seq<Token> {
    if section.wrapper then [LBrace]
    else if section.arr then [Str(section.name), Colon, LBracket]
    else if parent.Some? && !parent.value.section.arr then [Str(section.name), Colon, LBrace]
    else if parent.Some? && parent.value.section.id == PACKETS_AND_FRAMES then
      [LBrace, Str("type"), Colon, Str(section.name), Comma]
    else [LBrace]
  }

  function CommaTokens(count: nat): seq<Token> { if count > 0 then [Comma] else [] }

  function FateTokens(count: nat, f: Fate): seq<Token> {
    match f
    case PrintedInt(k, n) => CommaTokens(count) + [Str(k), Colon, Num(n)]
    case PrintedText(k, t) => CommaTokens(count) + [Str(k), Colon, Str(t)]
    case _ => []
  }

  function CloseToken(parent: Option<Level>, section: Section): Token {
    if parent.Some? && section.arr then RBracket else RBrace
  }

  function RunTokens(o: Options, parent: Option<Level>, t: Tree): seq<Token>
    requires Nested(t)
    decreases t, 1
  {
    CommaTokens(if parent.Some? then parent.value.items else 0) + OpeningTokens(parent, t.section) +
    (RunItemTokens(o, t.section, t.items, 0) + [CloseToken(parent, t.section)])
  }

  function RunItemTokens(o: Options, section: Section, items: seq<Item>, count: nat): seq<Token>
    requires NestedItems(items)
    decreases items, 0
  {
    if items == [] then [] else
    match items[0]
    case Leaf(e) =>
      var f := ItemFate(o, section, e);
      FateTokens(count, f) + RunItemTokens(o, section, items[1..], if f == Skipped then count else count + 1)
    case Child(t) =>
      assert t < items[0];
      RunTokens(o, Some(Level(section, count)), t) + RunItemTokens(o, section, items[1..], count + 1)
  }

  /** A name JSON escaping leaves alone; the `"type"` member is printed unescaped. */
  ghost predicate Plain(name: string) { Escape(JsonCode, name) == name }

  /** Elements of `packets_and_frames` have plain names. */
  ghost predicate PlainTypes(t: Tree)
    decreases t, 1
  {
    PlainTypesOfItems(t.section, t.items)
  }

  ghost predicate PlainTypesOfItems(section: Section, items: seq<Item>)
    decreases items, 0
  {
    items == [] ||
    ((items[0].Child? ==>
        assert items[0].tree < items[0];
        (section.id == PACKETS_AND_FRAMES ==> Plain(items[0].tree.section.name)) && PlainTypes(items[0].tree)) &&
     PlainTypesOfItems(section, items[1..]))
  }

  lemma SpacesBlank(n: nat)
    ensures Blank(Spaces(n))
  {
  }

  lemma LexComma(o: Options, sep: string, rest: string)
    requires sep == ", " || sep == ",\n"
    ensures Lex(sep + rest) == Prepend([Comma], Lex(rest))
  {
    var blank := sep[1..];
    assert sep == [','] + blank;
    assert sep + rest == [','] + (blank + rest);
    LexStructural(',', blank + rest);
    LexBlank(blank, rest);
  }

  lemma LexQuoted(s: string, rest: string)
    ensures Lex(Quoted(s) + rest) == Prepend([Str(s)], Lex(rest))
  {
    LexString(s, rest);
  }

  /** A structural character and the blanks after it. */
  lemma LexMark(mark: string, rest: string)
    requires mark != "" && Structural(mark[0]).Some? && Blank(mark[1..])
    ensures Lex(mark + rest) == Prepend([Structural(mark[0]).value], Lex(rest))
  {
    assert mark + rest == [mark[0]] + (mark[1..] + rest);
    LexStructural(mark[0], mark[1..] + rest);
    LexBlank(mark[1..], rest);
  }

  lemma LexThen(text: string, more: string, rest: string, a: seq<Token>, b: seq<Token>)
    requires Lex(text + (more + rest)) == Prepend(a, Lex(more + rest))
    requires Lex(more + rest) == Prepend(b, Lex(rest))
    ensures Lex(text + more + rest) == Prepend(a + b, Lex(rest))
  {
    Cat(text, more, rest);
    PrependPrepend(a, b, Lex(rest));
  }

  /** A quoted name, a colon and some text that reads as one token. */
  lemma LexPair(name: string, value: string, token: Token, rest: string)
    requires Lex(value + rest) == Prepend([token], Lex(rest))
    ensures Lex(Quoted(name) + (": " + value) + rest) == Prepend([Str(name), Colon, token], Lex(rest))
  {
    var tail := value + rest;
    Cat(": ", value, rest);
    Cat(Quoted(name), ": " + value, rest);
    assert Lex(": " + tail) == Prepend([Colon], Lex(tail)) by { LexMark(": ", tail); }
    PrependPrepend([Colon], [token], Lex(rest));
    assert [Colon] + [token] == [Colon, token];
    LexQuoted(name, ": " + tail);
    PrependPrepend([Str(name)], [Colon, token], Lex(rest));
    assert [Str(name)] + [Colon, token] == [Str(name), Colon, token];
  }

  /** A quoted name, a colon and an opening bracket. */
  lemma LexNamed(name: string, bracket: string, rest: string)
    requires bracket != "" && Structural(bracket[0]).Some? && Blank(bracket[1..])
    ensures Lex(Quoted(name) + (": " + bracket) + rest) ==
            Prepend([Str(name), Colon, Structural(bracket[0]).value], Lex(rest))
  {
    LexMark(bracket, rest);
    LexPair(name, bracket, Structural(bracket[0]).value, rest);
  }

  lemma LexType(o: Options, name: string, rest: string)
    requires Plain(name)
    ensures Lex("\"type\": \"" + name + ("\"" + o.ItemSep()) + rest) ==
            Prepend([Str("type"), Colon, Str(name), Comma], Lex(rest))
  {
    TypeIsPlain();
    TypeText(name, o.ItemSep(), rest);
    LexQuoted(name, o.ItemSep() + rest);
    LexPair("type", Quoted(name), Str(name), o.ItemSep() + rest);
    LexComma(o, o.ItemSep(), rest);
    PrependPrepend([Str("type"), Colon, Str(name)], [Comma], Lex(rest));
    assert [Str("type"), Colon, Str(name)] + [Comma] == [Str("type"), Colon, Str(name), Comma];
  }

  lemma TypeIsPlain()
    ensures Plain("type")
  {
    assert "type"[1..] == "ype" && "ype"[1..] == "pe" && "pe"[1..] == "e" && "e"[1..] == "";
    assert Escape(JsonCode, "e") == "e";
    assert Escape(JsonCode, "pe") == "pe";
    assert Escape(JsonCode, "ype") == "ype";
  }

  lemma TypeText(name: string, sep: string, rest: string)
    requires Plain(name) && Plain("type")
    ensures "\"type\": \"" + name + ("\"" + sep) + rest ==
            Quoted("type") + (": " + Quoted(name)) + (sep + rest)
  {
    assert Quoted("type") == "\"type\"";
    assert Quoted(name) == "\"" + name + "\"";
    assert "\"type\"" + ": " + "\"" == "\"type\": \"";
    Regroup("\"type\"", ": ", "\"", name, sep, rest);
  }

  lemma Regroup(key: string, colon: string, quote: string, name: string, sep: string, rest: string)
    ensures key + colon + quote + name + (quote + sep) + rest ==
            key + (colon + (quote + name + quote)) + (sep + rest)
  {
  }

  lemma LexOpening(o: Options, parent: Option<Level>, section: Section, indent: int, rest: string)
    requires parent.Some? && parent.value.section.id == PACKETS_AND_FRAMES ==> Plain(section.name)
    ensures Lex(Opening(o, parent, section, indent) + rest) ==
            Prepend(OpeningTokens(parent, section), Lex(rest))
  {
    var pad := Indent(indent);
    SpacesBlank(|pad|);
    var brace := "{" + o.ItemStartEnd();
    assert Blank(brace[1..]);
    if section.wrapper {
      LexMark("{\n", rest);
    } else if section.arr {
      var named := Quoted(section.name) + (": " + "[\n");
      assert ": " + "[\n" == ": [\n";
      Cat(pad, Quoted(section.name), ": [\n");
      assert Opening(o, parent, section, indent) + rest == pad + (named + rest) by { Cat(pad, named, rest); }
      LexBlank(pad, named + rest);
      LexNamed(section.name, "[\n", rest);
    } else if parent.Some? && !parent.value.section.arr {
      var named := Quoted(section.name) + (": " + brace);
      assert ": " + brace == ": {" + o.ItemStartEnd();
      Cat(pad, Quoted(section.name), ": " + brace);
      assert Opening(o, parent, section, indent) + rest == pad + (named + rest) by { Cat(pad, named, rest); }
      LexBlank(pad, named + rest);
      LexNamed(section.name, brace, rest);
    } else if parent.Some? && parent.value.section.id == PACKETS_AND_FRAMES {
      var pad1 := if o.compact then "" else Indent(indent + 1);
      var kind := "\"type\": \"" + section.name + ("\"" + o.ItemSep());
      var tail := pad1 + (kind + rest);
      assert Opening(o, parent, section, indent) == pad + brace + (pad1 + kind);
      assert Opening(o, parent, section, indent) + rest == pad + (brace + tail) by {
        OpeningGroup(pad, brace, pad1, kind, rest);
      }
      LexBlank(pad, brace + tail);
      LexMark(brace, tail);
      LexBlank(pad1, kind + rest);
      LexType(o, section.name, rest);
      PrependPrepend([LBrace], [Str("type"), Colon, Str(section.name), Comma], Lex(rest));
      assert [LBrace] + [Str("type"), Colon, Str(section.name), Comma] == OpeningTokens(parent, section);
    } else {
      assert Opening(o, parent, section, indent) + rest == pad + (brace + rest);
      LexBlank(pad, brace + rest);
      LexMark(brace, rest);
    }
  }

  lemma OpeningGroup(a: string, b: string, c: string, d: string, rest: string)
    ensures a + b + (c + d) + rest == a + (b + (c + (d + rest)))
  {
  }

  lemma LexHeader(o: Options, parent: Option<Level>, section: Section, indent: int, rest: string)
    requires parent.Some? && parent.value.section.id == PACKETS_AND_FRAMES ==> Plain(section.name)
    ensures Lex(HeaderText(o, parent, section, indent) + rest) ==
            Prepend(CommaTokens(if parent.Some? then parent.value.items else 0) + OpeningTokens(parent, section),
                    Lex(rest))
  {
    var opening := Opening(o, parent, section, indent);
    LexOpening(o, parent, section, indent, rest);
    if parent.Some? && parent.value.items > 0 {
      Cat(",\n", opening, rest);
      LexComma(o, ",\n", opening + rest);
      PrependPrepend([Comma], OpeningTokens(parent, section), Lex(rest));
    } else {
      assert "" + opening == opening;
      assert [] + OpeningTokens(parent, section) == OpeningTokens(parent, section);
    }
  }

  lemma FooterGroup(a: string, b: string, c: string, rest: string)
    ensures a + (b + c) + rest == a + b + (c + rest)
  {
  }

  lemma LexFooter(o: Options, parent: Option<Level>, section: Section, indent: int, rest: string)
    ensures Lex(FooterText(o, parent, section, indent) + rest) ==
            Prepend([CloseToken(parent, section)], Lex(rest))
    ensures IsSpace(FooterText(o, parent, section, indent)[0])
  {
    var pad := Indent(indent);
    SpacesBlank(|pad|);
    if parent.None? {
      assert "\n}\n" + rest == "\n" + ("}\n" + rest);
      LexBlank("\n", "}\n" + rest);
      LexMark("}\n", rest);
    } else if section.arr {
      FooterGroup("\n", pad, "]", rest);
      LexBlank("\n" + pad, "]" + rest);
      LexMark("]", rest);
    } else {
      var pad1 := if o.compact then "" else pad;
      FooterGroup(o.ItemStartEnd(), pad1, "}", rest);
      LexBlank(o.ItemStartEnd() + pad1, "}" + rest);
      LexMark("}", rest);
    }
  }

  lemma LexLead(o: Options, count: nat, indent: int, rest: string)
    ensures Lex(ItemLead(o, count, indent) + rest) == Prepend(CommaTokens(count), Lex(rest))
  {
    var pad := if o.compact then "" else Indent(indent);
    SpacesBlank(|pad|);
    LexBlank(pad, rest);
    if count > 0 {
      assert ItemLead(o, count, indent) + rest == o.ItemSep() + (pad + rest);
      LexComma(o, o.ItemSep(), pad + rest);
    } else {
      assert ItemLead(o, count, indent) + rest == pad + rest;
      assert Lex(rest).Some? ==> [] + Lex(rest).value == Lex(rest).value;
    }
  }

  /** A key, a colon and a value after the lead of an item. */
  lemma LexItem(o: Options, count: nat, indent: int, key: string, value: string, token: Token, rest: string)
    requires Lex(value + rest) == Prepend([token], Lex(rest))
    ensures Lex(ItemLead(o, count, indent) + (Quoted(key) + (": " + value)) + rest) ==
            Prepend(CommaTokens(count) + [Str(key), Colon, token], Lex(rest))
  {
    var pair := Quoted(key) + (": " + value);
    Cat(ItemLead(o, count, indent), pair, rest);
    LexPair(key, value, token, rest);
    LexLead(o, count, indent, pair + rest);
    PrependPrepend(CommaTokens(count), [Str(key), Colon, token], Lex(rest));
  }

  lemma LexFate(o: Options, count: nat, indent: int, f: Fate, rest: string)
    requires rest != "" && !IsDigit(rest[0])
    ensures Lex(FateText(o, count, indent, f) + rest) == Prepend(FateTokens(count, f), Lex(rest))
  {
    match f
    case PrintedInt(k, n) =>
      LexInt(n, rest);
      LexItem(o, count, indent, k, IntText(n), Num(n), rest);
    case PrintedText(k, t) =>
      LexQuoted(t, rest);
      LexItem(o, count, indent, k, Quoted(t), Str(t), rest);
    case _ =>
      assert "" + rest == rest;
      assert Lex(rest).Some? ==> [] + Lex(rest).value == Lex(rest).value;
  }

  /** After the first item, the next text starts with a comma. */
  lemma {:induction false} RenderItemsLead(o: Options, section: Section, items: seq<Item>, count: nat, indent: int)
    requires NestedItems(items) && count > 0
    ensures var text := RenderItems(o, section, items, count, indent); text == "" || text[0] == ','
  {
    if items != [] {
      match items[0] {
        case Leaf(e) =>
          var f := ItemFate(o, section, e);
          RenderItemsLead(o, section, items[1..], if f == Skipped then count else count + 1, indent);
        case Child(t) =>
          assert HeaderText(o, Some(Level(section, count)), t.section, indent)[0] == ',';
      }
    }
  }

  /** Reading the text of any run as tokens. */
  lemma {:induction false} LexTree(o: Options, parent: Option<Level>, t: Tree, indent: int, rest: string)
    requires Nested(t) && PlainTypes(t)
    requires parent.Some? && parent.value.section.id == PACKETS_AND_FRAMES ==> Plain(t.section.name)
    ensures Lex(Render(o, parent, t, indent) + rest) == Prepend(RunTokens(o, parent, t), Lex(rest))
    decreases t, 1
  {
    var header, body, footer := HeaderText(o, parent, t.section, indent),
      RenderItems(o, t.section, t.items, 0, indent + 1), FooterText(o, parent, t.section, indent);
    Cat(header, body + footer, rest);
    Cat(body, footer, rest);
    LexHeader(o, parent, t.section, indent, body + (footer + rest));
    LexFooter(o, parent, t.section, indent, rest);
    assert (footer + rest)[0] == footer[0];
    LexItems(o, t.section, t.items, 0, indent + 1, footer + rest);
    var bodyTokens, close := RunItemTokens(o, t.section, t.items, 0), [CloseToken(parent, t.section)];
    PrependPrepend(bodyTokens, close, Lex(rest));
    PrependPrepend(CommaTokens(if parent.Some? then parent.value.items else 0) + OpeningTokens(parent, t.section),
                   bodyTokens + close, Lex(rest));
  }

  lemma {:induction false} LexItems(o: Options, section: Section, items: seq<Item>, count: nat, indent: int,
                                    rest: string)
    requires NestedItems(items) && PlainTypesOfItems(section, items)
    requires rest != "" && IsSpace(rest[0])
    ensures Lex(RenderItems(o, section, items, count, indent) + rest) ==
            Prepend(RunItemTokens(o, section, items, count), Lex(rest))
    decreases items, 0
  {
    hide Lex, RunTokens, Render, ItemFate, Nested, PlainTypes;
    if items == [] {
      assert "" + rest == rest;
      PrependNone(Lex(rest));
    } else if items[0].Leaf? {
      var f := ItemFate(o, section, items[0].event);
      var count1 := if f == Skipped then count else count + 1;
      var more := RenderItems(o, section, items[1..], count1, indent);
      var tokens := RunItemTokens(o, section, items[1..], count1);
      LexItems(o, section, items[1..], count1, indent, rest);
      if f == Skipped {
        assert "" + more == more && [] + tokens == tokens;
      } else {
        RenderItemsLead(o, section, items[1..], count1, indent);
        LexLeaf(o, count, f, indent, more, tokens, rest);
      }
    } else {
      var t, level := items[0].tree, Some(Level(section, count));
      assert t < items[0];
      var text, more := Render(o, level, t, indent), RenderItems(o, section, items[1..], count + 1, indent);
      LexItems(o, section, items[1..], count + 1, indent, rest);
      LexTree(o, level, t, indent, more + rest);
      LexThen(text, more, rest, RunTokens(o, level, t), RunItemTokens(o, section, items[1..], count + 1));
    }
  }

  lemma PrependNone(r: Option<seq<Token>>)
    ensures Prepend([], r) == r
  {
    if r.Some? {
      assert [] + r.value == r.value;
    }
  }

  lemma LexLeaf(o: Options, count: nat, f: Fate, indent: int, more: string, tokens: seq<Token>, rest: string)
    requires f != Skipped && (more == "" || more[0] == ',') && rest != "" && IsSpace(rest[0])
    requires Lex(more + rest) == Prepend(tokens, Lex(rest))
    ensures Lex(FateText(o, count, indent, f) + more + rest) == Prepend(FateTokens(count, f) + tokens, Lex(rest))
  {
    assert (more + rest)[0] == if more == "" then rest[0] else ',';
    LexFate(o, count, indent, f, more + rest);
    LexThen(FateText(o, count, indent, f), more, rest, FateTokens(count, f), tokens);
  }

  // ---------- the value a run stands for ----------

  /** Arrays hold only objects; objects hold items, objects and arrays; only
      the root is a wrapper. This is how the section table is laid out. */
  ghost predicate WellFormed(t: Tree)
    requires Nested(t)
    decreases t, 1
  {
    (t.section.id == PACKETS_AND_FRAMES ==> t.section.arr) && WellFormedItems(t.section, t.items)
  }

  ghost predicate WellFormedItems(section: Section, items: seq<Item>)
    requires NestedItems(items)
    decreases items, 0
  {
    items == [] ||
    ((match items[0]
      case Leaf(_) => !section.arr
      case Child(t) =>
        assert t < items[0];
        !t.section.wrapper && (section.arr ==> !t.section.arr) && WellFormed(t)) &&
     WellFormedItems(section, items[1..]))
  }

  ghost predicate WellFormedRoot(t: Tree) {
    Nested(t) && t.section.wrapper && !t.section.arr && WellFormed(t) && PlainTypes(t)
  }

  /** The JSON value of a section: the shown items and the subsections, in order. */
  function Value(o: Options, parent: Option<Section>, t: Tree): Json
    requires Nested(t)
    decreases t, 1
  {
    if t.section.arr then JArr(Elements(o, t.section, t.items))
    else if parent.Some? && parent.value.id == PACKETS_AND_FRAMES then
      JObj([Member("type", JStr(t.section.name))] + Members(o, t.section, t.items))
    else JObj(Members(o, t.section, t.items))
  }

  function Members(o: Options, section: Section, items: seq<Item>): seq<Member>
    requires NestedItems(items)
    decreases items, 0
  {
    if items == [] then [] else
    (match items[0]
     case Leaf(e) => ItemMembers(o, section, e)
     case Child(t) => assert t < items[0]; [Member(t.section.name, Value(o, Some(section), t))])
    + Members(o, section, items[1..])
  }

  /** What an item stands for: its key and its value, both as validation left
      them, or nothing. */
  function ItemMembers(o: Options, section: Section, e: Event): seq<Member>
    requires e.Integer? || e.Text?
  {
    if Hidden(section, e) || Invalid(o, e) then []
    else match e
      case Integer(key, value) => [Member(key, JNum(value))]
      case Text(key, text, _, validated) =>
        if validated then [Member(o.validate(key).value, JStr(o.validate(text).value))] else [Member(key, JStr(text))]
  }

  /** The writer prints of an item just that, and leaves a gap exactly for an invalid one. */
  lemma FateIs(o: Options, section: Section, e: Event)
    requires e.Integer? || e.Text?
    ensures FateMembers(ItemFate(o, section, e)) == ItemMembers(o, section, e)
    ensures ItemFate(o, section, e) == Skipped <==> Hidden(section, e)
    ensures ItemFate(o, section, e) == Failed <==> !Hidden(section, e) && Invalid(o, e)
  {
  }

  function FateMembers(f: Fate): seq<Member> {
    match f
    case PrintedInt(k, n) => [Member(k, JNum(n))]
    case PrintedText(k, t) => [Member(k, JStr(t))]
    case _ => []
  }

  function Elements(o: Options, section: Section, items: seq<Item>): seq<Json>
    requires NestedItems(items)
    decreases items, 0
  {
    if items == [] then [] else
    (match items[0] case Leaf(_) => [] case Child(t) => assert t < items[0]; [Value(o, Some(section), t)])
    + Elements(o, section, items[1..])
  }

  /** What the first item that is counted does: a failed one leaves a comma with nothing before it. */
  datatype Lead = Nothing | Shown | Hole

  function LeadOf(o: Options, section: Section, items: seq<Item>): Lead
    requires NestedItems(items)
  {
    if items == [] then Nothing
    else if items[0].Child? then Shown
    else if Hidden(section, items[0].event) then LeadOf(o, section, items[1..])
    else if Invalid(o, items[0].event) then Hole else Shown
  }

  /** In every object a failed string may only come first when nothing is shown
      after it, and an element of `packets_and_frames` must start with something shown. */
  ghost predicate Clean(o: Options, parent: Option<Section>, t: Tree)
    requires Nested(t)
    decreases t, 1
  {
    (!t.section.arr ==>
       var lead := LeadOf(o, t.section, t.items);
       if parent.Some? && parent.value.id == PACKETS_AND_FRAMES then lead == Shown
       else lead == Hole ==> Members(o, t.section, t.items) == []) &&
    CleanItems(o, t.section, t.items)
  }

  ghost predicate CleanItems(o: Options, section: Section, items: seq<Item>)
    requires NestedItems(items)
    decreases items, 0
  {
    items == [] ||
    ((items[0].Child? ==> assert items[0].tree < items[0]; Clean(o, Some(section), items[0].tree)) &&
     CleanItems(o, section, items[1..]))
  }

  lemma MemberTokensCons(m: Member, ms: seq<Member>)
    ensures MemberTokens([m] + ms) ==
            [Str(m.key), Colon] + Tokens(m.value) + (if ms == [] then [] else [Comma] + MemberTokens(ms))
  {
    assert ([m] + ms)[1..] == ms;
    var head := [Str(m.key), Colon] + Tokens(m.value);
    if ms == [] {
      assert head + [] == head;
    } else {
      assert head + [Comma] + MemberTokens(ms) == head + ([Comma] + MemberTokens(ms));
    }
  }

  lemma ElementTokensCons(e: Json, es: seq<Json>)
    ensures ElementTokens([e] + es) == Tokens(e) + (if es == [] then [] else [Comma] + ElementTokens(es))
  {
    assert ([e] + es)[1..] == es;
    if es == [] {
      assert Tokens(e) + [] == Tokens(e);
    } else {
      assert Tokens(e) + [Comma] + ElementTokens(es) == Tokens(e) + ([Comma] + ElementTokens(es));
    }
  }

  /** Members after something counted all come with a comma in front. */
  function Tail(ms: seq<Member>): seq<Token> {
    if ms == [] then [] else [Comma] + MemberTokens(ms)
  }

  lemma TailAppend(m: Member, ms: seq<Member>)
    ensures Tail([m] + ms) == [Comma] + ([Str(m.key), Colon] + Tokens(m.value)) + Tail(ms)
    ensures MemberTokens([m] + ms) == [Str(m.key), Colon] + Tokens(m.value) + Tail(ms)
  {
    MemberTokensCons(m, ms);
    assert [Comma] + ([Str(m.key), Colon] + Tokens(m.value) + Tail(ms)) ==
           [Comma] + ([Str(m.key), Colon] + Tokens(m.value)) + Tail(ms);
  }

  lemma FateTail(f: Fate, count: nat, ms: seq<Member>)
    ensures f.PrintedInt? || f.PrintedText? ==>
              FateMembers(f) + ms != [] &&
              (if count > 0 then Tail(FateMembers(f) + ms) else MemberTokens(FateMembers(f) + ms)) ==
              FateTokens(count, f) + Tail(ms)
    ensures f.Skipped? || f.Failed? ==> FateMembers(f) + ms == ms && FateTokens(count, f) + Tail(ms) == Tail(ms)
  {
    if f.PrintedInt? {
      TailAppend(Member(f.k, JNum(f.n)), ms);
      assert [] + [Str(f.k), Colon, Num(f.n)] == [Str(f.k), Colon] + [Num(f.n)];
    } else if f.PrintedText? {
      TailAppend(Member(f.k, JStr(f.t)), ms);
      assert [] + [Str(f.k), Colon, Str(f.t)] == [Str(f.k), Colon] + [Str(f.t)];
    }
  }

  /** A subsection of an object, given that its own tokens are right. */
  lemma ChildTail(name: string, v: Json, count: nat, tokens: seq<Token>, ms: seq<Member>)
    requires tokens == CommaTokens(count) + [Str(name), Colon] + Tokens(v)
    ensures (if count > 0 then Tail([Member(name, v)] + ms) else MemberTokens([Member(name, v)] + ms)) ==
            tokens + Tail(ms)
  {
    TailAppend(Member(name, v), ms);
    assert [Comma] + ([Str(name), Colon] + Tokens(v)) == [Comma] + [Str(name), Colon] + Tokens(v);
    assert [] + [Str(name), Colon] + Tokens(v) == [Str(name), Colon] + Tokens(v);
  }

  ghost function NameTokens(parent: Option<Level>, t: Tree): seq<Token> {
    if parent.Some? && !parent.value.section.arr then [Str(t.section.name), Colon] else []
  }

  ghost function Before(parent: Option<Level>): seq<Token> {
    CommaTokens(if parent.Some? then parent.value.items else 0)
  }

  ghost function SectionOf(parent: Option<Level>): Option<Section> {
    if parent.Some? then Some(parent.value.section) else None
  }

  /** Where a section may stand. */
  ghost predicate Fits(parent: Option<Level>, section: Section) {
    if parent.None? then section.wrapper && !section.arr
    else !section.wrapper && (parent.value.section.arr ==> !section.arr) &&
         (parent.value.section.id == PACKETS_AND_FRAMES ==> parent.value.section.arr)
  }

  /** The tokens of a clean section are those of its value, after its comma and its name. */
  lemma {:induction false} TreeTokens(o: Options, parent: Option<Level>, t: Tree)
    requires Nested(t) && WellFormed(t) && Clean(o, SectionOf(parent), t) && Fits(parent, t.section)
    ensures RunTokens(o, parent, t) ==
            Before(parent) + NameTokens(parent, t) + Tokens(Value(o, SectionOf(parent), t))
    decreases t, 1
  {
    var body := RunItemTokens(o, t.section, t.items, 0);
    if t.section.arr {
      ArrayTokens(o, t.section, t.items, 0);
      assert body == ElementTokens(Elements(o, t.section, t.items));
      OpenGroup(Before(parent), NameTokens(parent, t), [LBracket], body, [RBracket]);
      assert OpeningTokens(parent, t.section) == NameTokens(parent, t) + [LBracket];
    } else {
      ObjectTokens(o, t.section, t.items);
      ObjectClose(parent, t, body, Members(o, t.section, t.items), LeadOf(o, t.section, t.items));
    }
  }

  lemma ObjectClose(parent: Option<Level>, t: Tree, body: seq<Token>, ms: seq<Member>, lead: Lead)
    requires !t.section.arr && Fits(parent, t.section)
    requires match lead
      case Nothing => body == [] && ms == []
      case Shown => body == MemberTokens(ms) && ms != []
      case Hole => body == Tail(ms)
    requires if parent.Some? && parent.value.section.id == PACKETS_AND_FRAMES then lead == Shown
             else lead == Hole ==> ms == []
    ensures Before(parent) + OpeningTokens(parent, t.section) + (body + [CloseToken(parent, t.section)]) ==
            Before(parent) + NameTokens(parent, t) +
            Tokens(JObj(if parent.Some? && parent.value.section.id == PACKETS_AND_FRAMES
                        then [Member("type", JStr(t.section.name))] + ms else ms))
  {
    assert body == MemberTokens(ms);
    if parent.Some? && parent.value.section.id == PACKETS_AND_FRAMES {
      var head := [Str("type"), Colon, Str(t.section.name)];
      MemberTokensCons(Member("type", JStr(t.section.name)), ms);
      assert [Str("type"), Colon] + Tokens(JStr(t.section.name)) == head;
      assert head + ([Comma] + body) == head + [Comma] + body;
      assert OpeningTokens(parent, t.section) == [LBrace] + (head + [Comma]);
      TypeGroup(Before(parent), head + [Comma], body);
    } else {
      OpenGroup(Before(parent), NameTokens(parent, t), [LBrace], body, [RBrace]);
      assert OpeningTokens(parent, t.section) == NameTokens(parent, t) + [LBrace];
    }
  }

  lemma OpenGroup(a: seq<Token>, b: seq<Token>, c: seq<Token>, d: seq<Token>, e: seq<Token>)
    ensures a + (b + c) + (d + e) == a + b + (c + d + e)
  {
  }

  lemma TypeGroup(a: seq<Token>, b: seq<Token>, d: seq<Token>)
    ensures a + ([LBrace] + b) + (d + [RBrace]) == a + [] + ([LBrace] + (b + d) + [RBrace])
  {
  }

  lemma {:induction false} ArrayTokens(o: Options, section: Section, items: seq<Item>, count: nat)
    requires NestedItems(items) && section.arr && WellFormedItems(section, items) && CleanItems(o, section, items)
    ensures var es := Elements(o, section, items);
      RunItemTokens(o, section, items, count) ==
      (if es == [] || count == 0 then [] else [Comma]) + ElementTokens(es)
    decreases items, 0
  {
    hide RunTokens, Value, Clean, WellFormed, Nested, Tokens;
    if items != [] {
      var t := items[0].tree;
      assert t < items[0];
      TreeTokens(o, Some(Level(section, count)), t);
      ArrayTokens(o, section, items[1..], count + 1);
      var v := Value(o, Some(section), t);
      ElementTokensCons(v, Elements(o, section, items[1..]));
      assert CommaTokens(count) + [] + Tokens(v) == CommaTokens(count) + Tokens(v);
    }
  }

  /** The shown items after at least one that was counted. */
  lemma {:induction false} TailTokens(o: Options, section: Section, items: seq<Item>, count: nat)
    requires NestedItems(items) && !section.arr && WellFormedItems(section, items) && CleanItems(o, section, items)
    requires section.id != PACKETS_AND_FRAMES && count > 0
    ensures RunItemTokens(o, section, items, count) == Tail(Members(o, section, items))
    decreases items, 0
  {
    if items != [] {
      var ms := Members(o, section, items[1..]);
      if items[0].Leaf? {
        var f := ItemFate(o, section, items[0].event);
        FateIs(o, section, items[0].event);
        TailTokens(o, section, items[1..], if f == Skipped then count else count + 1);
        FateTail(f, count, ms);
      } else {
        var t := items[0].tree;
        assert t < items[0];
        TreeTokens(o, Some(Level(section, count)), t);
        TailTokens(o, section, items[1..], count + 1);
        ChildTail(t.section.name, Value(o, Some(section), t), count, RunTokens(o, Some(Level(section, count)), t), ms);
      }
    }
  }

  lemma {:induction false} ObjectTokens(o: Options, section: Section, items: seq<Item>)
    requires NestedItems(items) && !section.arr && WellFormedItems(section, items) && CleanItems(o, section, items)
    requires section.id != PACKETS_AND_FRAMES
    ensures var body, ms := RunItemTokens(o, section, items, 0), Members(o, section, items);
      match LeadOf(o, section, items)
      case Nothing => body == [] && ms == []
      case Shown => body == MemberTokens(ms) && ms != []
      case Hole => body == Tail(ms)
    decreases items, 0
  {
    if items != [] {
      var ms := Members(o, section, items[1..]);
      if items[0].Leaf? {
        var f := ItemFate(o, section, items[0].event);
        FateIs(o, section, items[0].event);
        FateTail(f, 0, ms);
        if f == Skipped {
          ObjectTokens(o, section, items[1..]);
          assert RunItemTokens(o, section, items, 0) == [] + RunItemTokens(o, section, items[1..], 0);
        } else {
          TailTokens(o, section, items[1..], 1);
        }
      } else {
        var t := items[0].tree;
        assert t < items[0];
        TreeTokens(o, Some(Level(section, 0)), t);
        TailTokens(o, section, items[1..], 1);
        ChildTail(t.section.name, Value(o, Some(section), t), 0, RunTokens(o, Some(Level(section, 0)), t), ms);
      }
    }
  }

  // ---------- runs that leave a stray comma ----------

  lemma StrayInside(a: seq<Token>, b: seq<Token>, c: seq<Token>)
    requires !NoStrayComma(b)
    ensures !NoStrayComma(a + b + c)
  {
    var i :| 0 <= i < |b| - 1 && StrayPair(b[i], b[i + 1]);
    var t := a + b + c;
    assert t[|a| + i] == b[i] && t[|a| + i + 1] == b[i + 1];
  }

  lemma StrayAt(a: seq<Token>, b: seq<Token>)
    requires a != [] && b != [] && StrayPair(a[|a| - 1], b[0])
    ensures !NoStrayComma(a + b)
  {
    var t := a + b;
    assert t[|a| - 1] == a[|a| - 1] && t[|a| - 1 + 1] == b[0];
  }

  lemma {:induction false} CountedTokens(o: Options, section: Section, items: seq<Item>, count: nat)
    requires NestedItems(items) && count > 0
    ensures var body := RunItemTokens(o, section, items, count);
      (body != [] ==> body[0] == Comma) && (Members(o, section, items) != [] ==> body != [])
  {
    if items != [] {
      if items[0].Leaf? {
        var f := ItemFate(o, section, items[0].event);
        FateIs(o, section, items[0].event);
        CountedTokens(o, section, items[1..], if f == Skipped then count else count + 1);
        assert FateMembers(f) == [] ==> FateTokens(count, f) == [];
      } else {
        assert RunTokens(o, Some(Level(section, count)), items[0].tree)[0] == Comma;
      }
    }
  }

  lemma {:induction false} LeadTokens(o: Options, section: Section, items: seq<Item>)
    requires NestedItems(items)
    ensures var body := RunItemTokens(o, section, items, 0);
      match LeadOf(o, section, items)
      case Nothing => body == []
      case Hole => (body != [] ==> body[0] == Comma) && (Members(o, section, items) != [] ==> body != [])
      case Shown => true
  {
    if items != [] && items[0].Leaf? {
      var f := ItemFate(o, section, items[0].event);
      FateIs(o, section, items[0].event);
      if f == Skipped {
        LeadTokens(o, section, items[1..]);
      } else if f == Failed {
        CountedTokens(o, section, items[1..], 1);
      }
    }
  }

  lemma {:induction false} UncleanStray(o: Options, parent: Option<Level>, t: Tree)
    requires Nested(t) && WellFormed(t) && !Clean(o, SectionOf(parent), t) && Fits(parent, t.section)
    ensures !NoStrayComma(RunTokens(o, parent, t))
    decreases t, 1
  {
    var opening := Before(parent) + OpeningTokens(parent, t.section);
    var body, close := RunItemTokens(o, t.section, t.items, 0), [CloseToken(parent, t.section)];
    if !CleanItems(o, t.section, t.items) {
      UncleanItemsStray(o, t.section, t.items, 0);
      StrayInside(opening, body, close);
      assert opening + body + close == opening + (body + close);
    } else {
      LeadTokens(o, t.section, t.items);
      assert (body + close)[0] == if body == [] then CloseToken(parent, t.section) else body[0];
      StrayAt(opening, body + close);
    }
  }

  lemma {:induction false} UncleanItemsStray(o: Options, section: Section, items: seq<Item>, count: nat)
    requires NestedItems(items) && WellFormedItems(section, items) && !CleanItems(o, section, items)
    requires section.id == PACKETS_AND_FRAMES ==> section.arr
    ensures !NoStrayComma(RunItemTokens(o, section, items, count))
    decreases items, 0
  {
    hide RunTokens, Clean, WellFormed, Nested, NoStrayComma, FateTokens, ItemFate;
    if items[0].Leaf? {
      var f := ItemFate(o, section, items[0].event);
      var count1 := if f == Skipped then count else count + 1;
      var more := RunItemTokens(o, section, items[1..], count1);
      UncleanItemsStray(o, section, items[1..], count1);
      StrayInside(FateTokens(count, f), more, []);
      assert FateTokens(count, f) + more + [] == FateTokens(count, f) + more;
    } else {
      var t, level := items[0].tree, Some(Level(section, count));
      assert t < items[0];
      var tokens, more := RunTokens(o, level, t), RunItemTokens(o, section, items[1..], count + 1);
      if !Clean(o, Some(section), t) {
        UncleanStray(o, level, t);
        StrayInside([], tokens, more);
        assert [] + tokens + more == tokens + more;
      } else {
        UncleanItemsStray(o, section, items[1..], count + 1);
        StrayInside(tokens, more, []);
        assert tokens + more + [] == tokens + more;
      }
    }
  }

  // ---------- the round trip ----------

  const START := State([], 0, "")

  /** A complete run, compact or not, closes every level and prints a JSON text
      exactly when it is clean; read back, the text is the tree of what was shown. */
  lemma JsonRoundTripIff(o: Options, t: Tree)
    requires WellFormedRoot(t) && Depth(t) <= SECTION_MAX_NB_LEVELS
    ensures Run(o, START, Events(t)).Some?
    ensures Run(o, START, Events(t)).value.levels == []
    ensures var text := Run(o, START, Events(t)).value.out;
      (Parse(text).Some? <==> Clean(o, None, t)) &&
      (Clean(o, None, t) ==> Parse(text) == Some(Value(o, None, t)))
  {
    var text, tokens := Render(o, None, t, 0), RunTokens(o, None, t);
    RunTree(o, START, t, []);
    assert Events(t) + [] == Events(t);
    assert "" + text == text;
    LexTree(o, None, t, 0, "");
    assert text + "" == text;
    assert Lex(text) == Some(tokens) by { assert tokens + [] == tokens; }
    if Clean(o, None, t) {
      TreeTokens(o, None, t);
      var v := Value(o, None, t);
      assert tokens == Tokens(v) by { assert [] + [] + Tokens(v) == Tokens(v); }
      ParseInverse(v, []);
      assert Tokens(v) + [] == Tokens(v);
    } else {
      UncleanStray(o, None, t);
      if Parse(text).Some? {
        ParseSound(tokens);
        var v := ParseValue(tokens).value.0;
        assert tokens == Tokens(v) + [];
        TokensNoStray(v);
        assert false;
      }
    }
  }

  /** Nothing fails, and every element of `packets_and_frames` shows a field or a subsection. */
  ghost predicate AllShown(o: Options, parent: Option<Section>, t: Tree)
    requires Nested(t)
    decreases t, 1
  {
    (parent.Some? && parent.value.id == PACKETS_AND_FRAMES && !t.section.arr ==>
       Members(o, t.section, t.items) != []) &&
    AllShownItems(o, t.section, t.items)
  }

  ghost predicate AllShownItems(o: Options, section: Section, items: seq<Item>)
    requires NestedItems(items)
    decreases items, 0
  {
    items == [] ||
    ((match items[0]
      case Leaf(e) => Hidden(section, e) || !Invalid(o, e)
      case Child(t) => assert t < items[0]; AllShown(o, Some(section), t)) &&
     AllShownItems(o, section, items[1..]))
  }

  lemma {:induction false} AllShownLead(o: Options, section: Section, items: seq<Item>)
    requires NestedItems(items) && AllShownItems(o, section, items)
    ensures LeadOf(o, section, items) != Hole
    ensures LeadOf(o, section, items) == Nothing ==> Members(o, section, items) == []
  {
    if items != [] && items[0].Leaf? && Hidden(section, items[0].event) {
      AllShownLead(o, section, items[1..]);
    }
  }

  lemma {:induction false} AllShownClean(o: Options, parent: Option<Section>, t: Tree)
    requires Nested(t) && AllShown(o, parent, t)
    ensures Clean(o, parent, t)
    decreases t, 1
  {
    AllShownLead(o, t.section, t.items);
    AllShownCleanItems(o, t.section, t.items);
  }

  lemma {:induction false} AllShownCleanItems(o: Options, section: Section, items: seq<Item>)
    requires NestedItems(items) && AllShownItems(o, section, items)
    ensures CleanItems(o, section, items)
    decreases items, 0
  {
    if items != [] {
      if items[0].Child? {
        assert items[0].tree < items[0];
        AllShownClean(o, Some(section), items[0].tree);
      }
      AllShownCleanItems(o, section, items[1..]);
    }
  }

  /** Without failed strings and empty `packets_and_frames` elements the text reads back as the tree. */
  lemma JsonRoundTrip(o: Options, t: Tree)
    requires WellFormedRoot(t) && Depth(t) <= SECTION_MAX_NB_LEVELS && AllShown(o, None, t)
    ensures Run(o, START, Events(t)).Some?
    ensures Parse(Run(o, START, Events(t)).value.out) == Some(Value(o, None, t))
  {
    AllShownClean(o, None, t);
    JsonRoundTripIff(o, t);
  }
}
