/** Small runs of the writer: what is read back of one item, and two runs whose
    output is no JSON text. */
module JsonRuns {
  import opened Wrappers
  import opened Escapers
  import opened JsonText
  import opened JsonWriter
  import opened JsonRoundTrip

  // ---------- small trees ----------

  /** A section of items only. */
  lemma {:induction false} OnlyLeaves(section: Section, items: seq<Item>)
    requires !section.arr && forall i :: 0 <= i < |items| ==> items[i].Leaf? && Plainly(items[i].event)
    ensures NestedItems(items) && WellFormedItems(section, items) && PlainTypesOfItems(section, items)
    ensures ItemsDepth(items) == 0
  {
    if items != [] {
      OnlyLeaves(section, items[1..]);
    }
  }

  predicate Plainly(e: Event) { e.Integer? || e.Text? }

  /** A section that holds one other. */
  lemma OneChild(o: Options, section: Section, t: Tree)
    requires Nested(t) && WellFormed(t) && PlainTypes(t) && !t.section.wrapper && (section.arr ==> !t.section.arr)
    requires section.id == PACKETS_AND_FRAMES ==> section.arr && Plain(t.section.name)
    ensures var u := Tree(section, [Child(t)]);
      Nested(u) && WellFormed(u) && PlainTypes(u) && Depth(u) == Depth(t) + 1
    ensures var u := Tree(section, [Child(t)]); forall p :: Nested(u) && Clean(o, p, u) ==> Clean(o, Some(section), t)
  {
    hide Nested, WellFormed, PlainTypes, Depth;
    var items := [Child(t)];
    assert t < items[0] && items[1..] == [];
    OneChildDepth(t);
    assert NestedItems([]) && WellFormedItems(section, []) && PlainTypesOfItems(section, []);
    assert NestedItems(items);
    assert WellFormedItems(section, items);
    assert PlainTypesOfItems(section, items);
    assert Tree(section, items).items == items;
    TreeIs(Tree(section, items));
    forall p | Clean(o, p, Tree(section, items)) ensures Clean(o, Some(section), t) {
      assert CleanItems(o, section, items);
    }
  }

  lemma OneChildDepth(t: Tree)
    ensures ItemsDepth([Child(t)]) == Depth(t)
  {
    assert [Child(t)][1..] == [];
  }

  lemma TreeIs(t: Tree)
    ensures Nested(t) == NestedItems(t.items) && PlainTypes(t) == PlainTypesOfItems(t.section, t.items)
    ensures Depth(t) == 1 + ItemsDepth(t.items)
    ensures Nested(t) ==>
              (WellFormed(t) <==>
                 (t.section.id == PACKETS_AND_FRAMES ==> t.section.arr) && WellFormedItems(t.section, t.items))
  {
  }

  // ---------- one item ----------

  const ROOT := Section(31, "root", true, false, true, {})

  predicate AsksFor(section: Section, key: string) { section.showAllEntries || key in section.entriesToShow }

  function OneItem(section: Section, e: Event): Tree { Tree(ROOT, [Child(Tree(section, [Leaf(e)]))]) }

  /** What is read back of a run that prints one item in one section. */
  ghost function ReadBack(o: Options, section: Section, e: Event): Option<Json> {
    match Run(o, JsonRoundTrip.START, [Header(ROOT), Header(section), e, Footer, Footer])
    case None => None
    case Some(s) => Parse(s.out)
  }

  function Holding(section: Section, ms: seq<Member>): Json { JObj([Member(section.name, JObj(ms))]) }

  lemma OneItemIs(o: Options, section: Section, e: Event)
    requires !section.arr && !section.wrapper && section.id != PACKETS_AND_FRAMES && Plainly(e)
    ensures ReadBack(o, section, e) == Some(Holding(section, ItemMembers(o, section, e)))
  {
    hide Run, Nested, WellFormed, PlainTypes, Depth, ItemMembers;
    var t := Tree(section, [Leaf(e)]);
    OnlyLeaves(section, t.items);
    TreeIs(t);
    OneChild(o, ROOT, t);
    OneItemClean(o, section, e);
    JsonRoundTripIff(o, OneItem(section, e));
    EventsOfOne(section, e);
  }

  lemma EventsOfOne(section: Section, e: Event)
    ensures Events(OneItem(section, e)) == [Header(ROOT), Header(section), e, Footer, Footer]
  {
    var items := [Leaf(e)];
    assert items[1..] == [] && ItemEvents([]) == [];
    assert ItemEvents(items) == [e];
    var t := Tree(section, items);
    assert Events(t) == [Header(section)] + [e] + [Footer];
    assert [Child(t)][1..] == [];
    assert ItemEvents([Child(t)]) == Events(t);
    assert Events(OneItem(section, e)) == [Header(ROOT)] + Events(t) + [Footer];
  }

  lemma OneItemClean(o: Options, section: Section, e: Event)
    requires !section.arr && section.id != PACKETS_AND_FRAMES && Plainly(e)
    ensures Nested(OneItem(section, e)) && Clean(o, None, OneItem(section, e))
    ensures Value(o, None, OneItem(section, e)) == Holding(section, ItemMembers(o, section, e))
  {
    var t := Tree(section, [Leaf(e)]);
    assert t.items[1..] == [] && [Child(t)][1..] == [];
    assert t < Child(t);
    assert Members(o, section, []) == [];
    assert Members(o, section, t.items) == ItemMembers(o, section, e);
    assert LeadOf(o, section, t.items) == Hole ==> ItemMembers(o, section, e) == [];
    assert Clean(o, Some(ROOT), t);
    assert Members(o, ROOT, [Child(t)]) == [Member(section.name, Value(o, Some(ROOT), t))];
  }

  /** A number that is asked for is read back under its key, another is not there. */
  lemma IntegerReadsBack(o: Options, section: Section, key: string, value: int)
    requires !section.arr && !section.wrapper && section.id != PACKETS_AND_FRAMES
    ensures ReadBack(o, section, Integer(key, value)) ==
            Some(Holding(section, if AsksFor(section, key) then [Member(key, JNum(value))] else []))
  {
    OneItemIs(o, section, Integer(key, value));
  }

  /** A string that is asked for is read back under its key, as it is or as
      validation leaves both; one that is optional, not asked for, or invalid is not there. */
  lemma TextReadsBack(o: Options, section: Section, key: string, text: string, optional: bool, validated: bool)
    requires !section.arr && !section.wrapper && section.id != PACKETS_AND_FRAMES
    ensures ReadBack(o, section, Text(key, text, optional, validated)) ==
            Some(Holding(section,
              if optional || !AsksFor(section, key) then []
              else if !validated then [Member(key, JStr(text))]
              else match (o.validate(key), o.validate(text))
                case (Some(k), Some(t)) => [Member(k, JStr(t))]
                case _ => []))
  {
    OneItemIs(o, section, Text(key, text, optional, validated));
  }

  // ---------- a frame that shows nothing ----------

  const BOTH := Section(PACKETS_AND_FRAMES, "packets_and_frames", false, true, true, {})

  /** A frame of which only an entry it does not have is to be shown. */
  const FRAME := Section(6, "frame", false, false, false, {"nope"})
  const HIDDEN := Text("media_type", "video", false, false)

  function OneFrame(): Tree { Tree(ROOT, [Child(Tree(BOTH, [Child(Tree(FRAME, [Leaf(HIDDEN)]))]))]) }

  lemma FrameIsPlain()
    ensures Plain("frame")
  {
    assert "frame"[1..] == "rame" && "rame"[1..] == "ame" && "ame"[1..] == "me" && "me"[1..] == "e" && "e"[1..] == "";
    assert Escape(JsonCode, "e") == "e";
    assert Escape(JsonCode, "me") == "me";
    assert Escape(JsonCode, "ame") == "ame";
    assert Escape(JsonCode, "rame") == "rame";
  }

  /** A frame that shows nothing leaves the comma after its "type" with nothing behind it. */
  lemma EmptyFrameUnreadable(o: Options)
    ensures WellFormedRoot(OneFrame()) && Depth(OneFrame()) <= SECTION_MAX_NB_LEVELS
    ensures Run(o, JsonRoundTrip.START, Events(OneFrame())).Some?
    ensures Parse(Run(o, JsonRoundTrip.START, Events(OneFrame())).value.out) == None
  {
    hide Run, Nested, WellFormed, PlainTypes, Depth, Plain;
    FrameIsPlain();
    var frame := Tree(FRAME, [Leaf(HIDDEN)]);
    var both := Tree(BOTH, [Child(frame)]);
    OnlyLeaves(FRAME, frame.items);
    TreeIs(frame);
    OneChild(o, BOTH, frame);
    OneChild(o, ROOT, both);
    NotShownFirst(o, frame);
    JsonRoundTripIff(o, OneFrame());
  }

  lemma NotShownFirst(o: Options, frame: Tree)
    requires frame == Tree(FRAME, [Leaf(HIDDEN)]) && Nested(frame)
    ensures !Clean(o, Some(BOTH), frame)
  {
    assert frame.items[1..] == [];
    assert LeadOf(o, FRAME, frame.items) == Nothing;
  }

  // ---------- a field that does not validate ----------

  const FORMAT := Section(4, "format", false, false, true, {})

  const SCORE := Integer("probe_score", 100)

  /** A format whose first field does not validate and whose second is shown. */
  function BadFirst(key: string, text: string): Tree {
    Tree(ROOT, [Child(Tree(FORMAT, [Leaf(Text(key, text, false, true)), Leaf(SCORE)]))])
  }

  /** A string that fails validation first in an object leaves a comma before what follows. */
  lemma BadFirstUnreadable(o: Options, key: string, text: string)
    requires o.validate(key).None? || o.validate(text).None?
    ensures WellFormedRoot(BadFirst(key, text)) && Depth(BadFirst(key, text)) <= SECTION_MAX_NB_LEVELS
    ensures Run(o, JsonRoundTrip.START, Events(BadFirst(key, text))).Some?
    ensures Parse(Run(o, JsonRoundTrip.START, Events(BadFirst(key, text))).value.out) == None
  {
    hide Run, Nested, WellFormed, PlainTypes, Depth;
    var format := Tree(FORMAT, [Leaf(Text(key, text, false, true)), Leaf(SCORE)]);
    OnlyLeaves(FORMAT, format.items);
    TreeIs(format);
    OneChild(o, ROOT, format);
    FailedFirst(o, key, text, format);
    JsonRoundTripIff(o, BadFirst(key, text));
  }

  lemma FailedFirst(o: Options, key: string, text: string, format: Tree)
    requires format == Tree(FORMAT, [Leaf(Text(key, text, false, true)), Leaf(SCORE)]) && Nested(format)
    requires o.validate(key).None? || o.validate(text).None?
    ensures !Clean(o, Some(ROOT), format)
  {
    assert LeadOf(o, FORMAT, format.items) == Hole;
    assert format.items[1..] == [Leaf(SCORE)] && [Leaf(SCORE)][1..] == [];
    assert ItemMembers(o, FORMAT, SCORE) != [];
    assert Members(o, FORMAT, [Leaf(SCORE)]) != [];
  }
}
