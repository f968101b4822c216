/** Which configuration files are accepted: exactly the renderings of documents
    made of loose lines and well-formed blocks, and their sections are read back. */
module ConfigGrammar {
  import opened Wrappers
  import opened ConfigLists

  datatype Item =
    | Loose(line: Line)
    | Block(kind: Kind, opening: Line, body: seq<Line>, closing: Line)

  function Render(doc: seq<Item>): seq<Line> {
    if doc == [] then [] else RenderItem(doc[0]) + Render(doc[1..])
  }

  function RenderItem(item: Item): seq<Line> {
    match item
    case Loose(line) => [line]
    case Block(_, opening, body, closing) => [opening] + body + [closing]
  }

  // ---------- what a document says ----------

  /** The argument of the last line with this word. */
  function LastArg(body: seq<Line>, word: Word): Option<string> {
    if body == [] then None
    else if LastArg(body[1..], word).Some? then LastArg(body[1..], word)
    else if body[0].Directive? && body[0].word == word then Some(body[0].arg) else None
  }


  /** A section after the directives of its body. */
  function After(info: Info, body: seq<Line>): Info {
    var file := LastArg(body, FileWord(info.kind));
    var feed := if info.kind == Stream then LastArg(body, FeedWord) else None;
    info.(feedFilename := if file.Some? then file.value else info.feedFilename,
          feed := if feed.Some? then feed else info.feed)
  }

  function BlockInfo(k: Kind, opening: Line, body: seq<Line>): Info
    requires opening.Directive?
  {
    After(NewInfo(k, NameOf(opening.arg)), body)
  }

  /** A line that may stand in a section when these sections come before it. */
  predicate GoodLine(k: Kind, before: seq<Info>, line: Line) {
    line.Blank? ||
    (!line.word.Opening? && !line.word.Closing? &&
     if line.word == FileWord(k) then true
     else if k == Redirect then false
     else if k == Stream && line.word == FeedWord then HasFeed(before, line.arg)
     else line.errors == 0 && !line.fatal)
  }

  predicate GoodBlock(before: seq<Info>, k: Kind, opening: Line, body: seq<Line>, closing: Line) {
    opening.Directive? && opening.word == Opening(k) && !opening.fatal && !Unbracketed(k, opening.arg) &&
    (forall s <- Rivals(before, k) :: s.filename != NameOf(opening.arg)) &&
    (forall line <- body :: GoodLine(k, before, line)) &&
    closing.Directive? && closing.word == Closing(k) &&
    (k == Stream ==> closing.errors == 0) &&
    (k == Redirect ==> BlockInfo(k, opening, body).feedFilename != "")
  }

  predicate GoodItem(before: seq<Info>, item: Item) {
    match item
    case Loose(line) => line.Blank? || (!line.word.Opening? && !line.word.Closing? && line.errors == 0)
    case Block(k, opening, body, closing) => GoodBlock(before, k, opening, body, closing)
  }

  function ItemSections(before: seq<Info>, item: Item): seq<Info>
    requires GoodItem(before, item)
  {
    match item case Loose(_) => [] case Block(k, opening, body, _) => [BlockInfo(k, opening, body)]
  }

  predicate GoodDoc(before: seq<Info>, doc: seq<Item>)
    decreases |doc|
  {
    doc == [] ||
    (GoodItem(before, doc[0]) && GoodDoc(before + ItemSections(before, doc[0]), doc[1..]))
  }

  /** The sections before a document and its own, in order. */
  function Sections(before: seq<Info>, doc: seq<Item>): seq<Info>
    requires GoodDoc(before, doc)
    decreases |doc|
  {
    if doc == [] then before else Sections(before + ItemSections(before, doc[0]), doc[1..])
  }

  // ---------- reading a document ----------

  lemma CountZeroIff(sections: seq<Info>, name: string)
    ensures Count(sections, name) == 0 <==> forall s <- sections :: s.filename != name
  {
    if sections != [] {
      CountZeroIff(sections[1..], name);
      assert sections == [sections[0]] + sections[1..];
    }
  }

  lemma {:induction false} ParseCons(p: Parse, line: Line, rest: seq<Line>)
    requires p.failed.None? && (p.open.Some? ==> p.sections != [])
    ensures ParseLines(p, [line] + rest) == ParseLines(Step(p, line), rest)
  {
    assert ([line] + rest)[1..] == rest;
  }

  /** Whether a feed is known does not depend on the stream that asks. */
  lemma HasFeedLast(before: seq<Info>, info: Info, name: string)
    requires info.kind != Feed
    ensures HasFeed(before + [info], name) <==> HasFeed(before, name)
  {
    if HasFeed(before, name) {
      var i :| 0 <= i < |before| && before[i].kind == Feed && before[i].filename == name;
      assert (before + [info])[i] == before[i];
    }
  }

  lemma LastArgCons(line: Line, body: seq<Line>, word: Word)
    ensures LastArg([line] + body, word) ==
            if LastArg(body, word).Some? then LastArg(body, word)
            else if line.Directive? && line.word == word then Some(line.arg) else None
  {
    assert ([line] + body)[1..] == body;
  }

  /** A good line inside a section changes it as the document says. */
  lemma StepGoodLine(p: Parse, before: seq<Info>, info: Info, line: Line)
    requires p == Parse(before + [info], Some(info.kind), p.errors, None)
    requires GoodLine(info.kind, before, line)
    ensures Step(p, line) == p.(sections := before + [After(info, [line])])
  {
    assert (before + [info])[..|before|] == before;
    LastArgCons(line, [], FileWord(info.kind));
    LastArgCons(line, [], FeedWord);
    assert [line] + [] == [line];
    if info.kind == Stream && line.Directive? {
      HasFeedLast(before, info, line.arg);
    }
  }

  /** A line inside a section that neither closes it nor reports an error is good. */
  lemma GoodIfSilent(p: Parse, before: seq<Info>, info: Info, line: Line)
    requires p == Parse(before + [info], Some(info.kind), p.errors, None)
    requires Step(p, line).errors == p.errors && Step(p, line).failed.None? && Step(p, line).open.Some?
    ensures GoodLine(info.kind, before, line)
  {
    if info.kind == Stream && line.Directive? {
      HasFeedLast(before, info, line.arg);
    }
  }

  lemma AfterCons(info: Info, line: Line, body: seq<Line>)
    ensures After(info, [line] + body) == After(After(info, [line]), body)
  {
    LastArgCons(line, body, FileWord(info.kind));
    LastArgCons(line, body, FeedWord);
    LastArgCons(line, [], FileWord(info.kind));
    LastArgCons(line, [], FeedWord);
    assert [line] + [] == [line];
  }

  lemma {:induction false} ParseBody(p: Parse, before: seq<Info>, info: Info, body: seq<Line>, rest: seq<Line>)
    requires p == Parse(before + [info], Some(info.kind), p.errors, None)
    requires forall line <- body :: GoodLine(info.kind, before, line)
    ensures ParseLines(p, body + rest) == ParseLines(p.(sections := before + [After(info, body)]), rest)
    decreases |body|
  {
    if body == [] {
      assert body + rest == rest;
    } else {
      var next := After(info, [body[0]]);
      StepGoodLine(p, before, info, body[0]);
      assert body + rest == [body[0]] + (body[1..] + rest);
      ParseCons(p, body[0], body[1..] + rest);
      ParseBody(p.(sections := before + [next]), before, next, body[1..], rest);
      AfterCons(info, body[0], body[1..]);
      assert [body[0]] + body[1..] == body;
    }
  }

  lemma StepOpening(p: Parse, k: Kind, line: Line)
    requires p.open.None? && p.failed.None? && line.Directive? && line.word == Opening(k)
    ensures Step(p, line) == OpenLine(p, k, line)
  {
  }

  /** The opening tag of a good block opens its section. */
  lemma OpenGood(p: Parse, k: Kind, opening: Line, body: seq<Line>, closing: Line)
    requires p.open.None? && p.failed.None? && GoodBlock(p.sections, k, opening, body, closing)
    ensures Step(p, opening) == p.(sections := p.sections + [NewInfo(k, NameOf(opening.arg))], open := Some(k))
  {
    CountZeroIff(Rivals(p.sections, k), NameOf(opening.arg));
    StepOpening(p, k, opening);
  }

  /** Its closing tag closes it without an error. */
  lemma CloseGood(p: Parse, before: seq<Info>, k: Kind, opening: Line, body: seq<Line>, closing: Line)
    requires GoodBlock(before, k, opening, body, closing)
    requires p == Parse(before + [BlockInfo(k, opening, body)], Some(k), p.errors, None)
    ensures Step(p, closing) == p.(open := None)
  {
  }

  /** A good block is read as its section. */
  lemma ParseBlock(p: Parse, k: Kind, opening: Line, body: seq<Line>, closing: Line, rest: seq<Line>)
    requires p.open.None? && p.failed.None? && GoodBlock(p.sections, k, opening, body, closing)
    ensures ParseLines(p, [opening] + body + [closing] + rest)
         == ParseLines(p.(sections := p.sections + [BlockInfo(k, opening, body)]), rest)
  {
    hide ParseLines, Step, NewInfo, NameOf, After, Rivals;
    var info := NewInfo(k, NameOf(opening.arg));
    var inside := p.(sections := p.sections + [info], open := Some(k));
    assert info.kind == k by { NewInfoKind(k, NameOf(opening.arg)); }
    assert [opening] + body + [closing] + rest == [opening] + (body + ([closing] + rest));
    ParseCons(p, opening, body + ([closing] + rest));
    OpenGood(p, k, opening, body, closing);
    ParseBody(inside, p.sections, info, body, [closing] + rest);
    ParseCons(inside.(sections := p.sections + [After(info, body)]), closing, rest);
    CloseGood(inside.(sections := p.sections + [After(info, body)]), p.sections, k, opening, body, closing);
  }

  lemma ParseNothing(p: Parse)
    requires p.open.None?
    ensures ParseLines(p, []) == p
  {
  }

  lemma NewInfoKind(k: Kind, name: string)
    ensures NewInfo(k, name).kind == k
  {
  }

  /** Reading a good document gives its sections and no errors. */
  lemma {:induction false} ReadsBack(p: Parse, doc: seq<Item>)
    requires p.open.None? && p.failed.None? && GoodDoc(p.sections, doc)
    ensures ParseLines(p, Render(doc)) == p.(sections := Sections(p.sections, doc))
    decreases |doc|
  {
    hide ParseLines, BlockInfo;
    if doc == [] {
      ParseNothing(p);
    } else {
      var next := p.(sections := p.sections + ItemSections(p.sections, doc[0]));
      match doc[0] {
        case Loose(line) =>
          ParseCons(p, line, Render(doc[1..]));
          assert p.sections + [] == p.sections;
        case Block(k, opening, body, closing) =>
          ParseBlock(p, k, opening, body, closing, Render(doc[1..]));
      }
      ReadsBack(next, doc[1..]);
    }
  }

  // ---------- every accepted file is a document ----------

  predicate Quiet(p: Parse, lines: seq<Line>)
    requires p.open.Some? ==> p.sections != []
  {
    var r := ParseLines(p, lines);
    r.failed.None? && r.errors == p.errors && r.open.None?
  }

  /** The lines of an open section up to its closing tag. */
  lemma {:induction false} FindClosing(p: Parse, before: seq<Info>, info: Info, lines: seq<Line>)
      returns (body: seq<Line>, closing: Line, rest: seq<Line>)
    requires p == Parse(before + [info], Some(info.kind), p.errors, None) && Quiet(p, lines)
    ensures lines == body + [closing] + rest
    ensures forall line <- body :: GoodLine(info.kind, before, line)
    ensures closing.Directive? && closing.word == Closing(info.kind)
    ensures info.kind == Stream ==> closing.errors == 0
    ensures info.kind == Redirect ==> After(info, body).feedFilename != ""
    ensures Quiet(p.(open := None, sections := before + [After(info, body)]), rest)
    decreases |lines|
  {
    var line := lines[0];
    var q := Step(p, line);
    assert lines == [line] + lines[1..];
    assert ParseLines(p, lines) == ParseLines(q, lines[1..]);
    if line.Directive? && line.word == Closing(info.kind) {
      body, closing, rest := [], line, lines[1..];
      assert After(info, body) == info;
      assert body + [closing] + rest == lines;
    } else {
      assert q.open.Some?;
      GoodIfSilent(p, before, info, line);
      StepGoodLine(p, before, info, line);
      var tail;
      tail, closing, rest := FindClosing(q, before, After(info, [line]), lines[1..]);
      body := [line] + tail;
      AfterCons(info, line, tail);
      assert body + [closing] + rest == [line] + (tail + [closing] + rest);
    }
  }

  lemma {:induction false} Rebuild(p: Parse, lines: seq<Line>) returns (doc: seq<Item>)
    requires p.open.None? && p.failed.None? && Quiet(p, lines)
    ensures GoodDoc(p.sections, doc) && Render(doc) == lines
    decreases |lines|
  {
    if lines == [] {
      doc := [];
    } else {
      var line := lines[0];
      assert lines == [line] + lines[1..];
      assert ParseLines(p, lines) == ParseLines(Step(p, line), lines[1..]);
      if line.Directive? && line.word.Opening? {
        doc := RebuildBlock(p, line, lines[1..]);
      } else {
        var more := Rebuild(Step(p, line), lines[1..]);
        doc := [Loose(line)] + more;
        assert doc[1..] == more;
        assert p.sections + [] == p.sections;
      }
    }
  }

  /** Lines that add no error start with a line that adds none. */
  lemma QuietStep(p: Parse, line: Line, lines: seq<Line>)
    requires p.failed.None? && (p.open.Some? ==> p.sections != []) && Quiet(p, [line] + lines)
    ensures Step(p, line).failed.None? && Step(p, line).errors == p.errors && Quiet(Step(p, line), lines)
  {
    hide Step;
    ParseCons(p, line, lines);
  }

  lemma {:induction false} RebuildBlock(p: Parse, line: Line, lines: seq<Line>) returns (doc: seq<Item>)
    requires p.open.None? && p.failed.None? && line.Directive? && line.word.Opening?
    requires Step(p, line).errors >= p.errors && Quiet(p, [line] + lines)
    ensures GoodDoc(p.sections, doc) && Render(doc) == [line] + lines
    decreases |lines|
  {
    hide ParseLines, NewInfo, NameOf, LastArg, Rivals;
    var k := line.word.kind;
    NewInfoKind(k, NameOf(line.arg));
    StepOpening(p, k, line);
    QuietStep(p, line, lines);
    CountZeroIff(Rivals(p.sections, k), NameOf(line.arg));
    var info := NewInfo(k, NameOf(line.arg));
    var body, closing, rest := FindClosing(Step(p, line), p.sections, info, lines);
    var block := Block(k, line, body, closing);
    assert GoodItem(p.sections, block);
    var more := Rebuild(p.(sections := p.sections + [After(info, body)]), rest);
    doc := [block] + more;
    assert doc[1..] == more;
    assert [line] + body + [closing] + rest == [line] + (body + [closing] + rest);
  }

  /** A file is accepted if and only if it is the rendering of a good document. */
  lemma AcceptedIff(lines: seq<Line>)
    ensures VerdictOf(ParseLines(NOTHING, lines)) == Good <==>
            exists doc :: GoodDoc([], doc) && Render(doc) == lines
  {
    if VerdictOf(ParseLines(NOTHING, lines)) == Good {
      var doc := Rebuild(NOTHING, lines);
    }
    forall doc | GoodDoc([], doc) && Render(doc) == lines
      ensures VerdictOf(ParseLines(NOTHING, lines)) == Good
    {
      ReadsBack(NOTHING, doc);
    }
  }
}
