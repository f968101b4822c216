/** The writer API of ffprobe with its JSON writer: sections are opened and
    closed, items are printed in between, and per-level item counters decide
    where commas go. */
module JsonWriter {
  import opened Wrappers
  import opened Escapers
  import opened JsonText
  import opened Sequences

  const SECTION_MAX_NB_LEVELS: nat := 10

  /** The section identifier the writers treat specially. */
  const PACKETS_AND_FRAMES: nat := 15

  datatype Section = Section(
    id: nat,
    name: string,
    wrapper: bool,
    arr: bool,
    showAllEntries: bool,
    entriesToShow: set<string>)
  {
    predicate Shows(key: string) { showAllEntries || key in entriesToShow }
  }

  /** `validate` is the UTF-8 validation and replacement of a string; `None` when it fails. */
  datatype Options = Options(compact: bool, validate: string -> Option<string>) {
    function ItemSep(): string { if compact then ", " else ",\n" }
    function ItemStartEnd(): string { if compact then " " else "\n" }
  }

  datatype Level = Level(section: Section, items: nat)

  datatype State = State(levels: seq<Level>, indent: int, out: string)

  /** One call of the writer API. */
  datatype Event =
    | Header(section: Section)
    | Footer
    | Integer(key: string, value: int)
    | Text(key: string, text: string, optional: bool, validated: bool)

  // ---------- what one call prints ----------

  function Spaces(n: nat): string { seq(n, _ => ' ') }

  /** `printf("%*c", n * 4, ' ')`: at least the one space. */
  function Indent(n: int): string { Spaces(if n > 0 then 4 * n else 1) }

  /** Four spaces a level outside compact runs, which put a section on one line. */
  lemma LayoutIs(o: Options, n: int)
    ensures |Indent(n)| == (if n > 0 then 4 * n else 1) && forall i :: 0 <= i < |Indent(n)| ==> Indent(n)[i] == ' '
    ensures o.compact ==> o.ItemSep() == ", " && o.ItemStartEnd() == " "
    ensures !o.compact ==> o.ItemSep() == ",\n" && o.ItemStartEnd() == "\n"
  {
  }

  function Quoted(s: string): string { "\"" + Escape(JsonCode, s) + "\"" }

  function Opening(o: Options, parent: Option<Level>, section: Section, indent: int): string {
    if section.wrapper then "{\n"
    else if section.arr then Indent(indent) + Quoted(section.name) + ": [\n"
    else if parent.Some? && !parent.value.section.arr then
      Indent(indent) + Quoted(section.name) + (": {" + o.ItemStartEnd())
    else
      Indent(indent) + ("{" + o.ItemStartEnd()) +
      if parent.Some? && parent.value.section.id == PACKETS_AND_FRAMES then
        (if o.compact then "" else Indent(indent + 1)) + ("\"type\": \"" + section.name + ("\"" + o.ItemSep()))
      else ""
  }

  function HeaderText(o: Options, parent: Option<Level>, section: Section, indent: int): string {
    (if parent.Some? && parent.value.items > 0 then ",\n" else "") + Opening(o, parent, section, indent)
  }

  function FooterText(o: Options, parent: Option<Level>, section: Section, indent: int): string {
    if parent.None? then "\n}\n"
    else if section.arr then "\n" + (Indent(indent) + "]")
    else o.ItemStartEnd() + ((if o.compact then "" else Indent(indent)) + "}")
  }

  /** A footer depends on whether there is a parent, not on its count. */
  lemma FooterOfParent(o: Options, p: Option<Level>, q: Option<Level>, section: Section, indent: int)
    requires p.None? == q.None?
    ensures FooterText(o, p, section, indent) == FooterText(o, q, section, indent)
  {
  }

  function ItemLead(o: Options, items: nat, indent: int): string {
    (if items > 0 then o.ItemSep() else "") + (if o.compact then "" else Indent(indent))
  }

  function IntegerText(o: Options, items: nat, indent: int, key: string, value: int): string {
    ItemLead(o, items, indent) + (Quoted(key) + (": " + IntText(value)))
  }

  function StringText(o: Options, items: nat, indent: int, key: string, text: string): string {
    ItemLead(o, items, indent) + (Quoted(key) + (": " + Quoted(text)))
  }

  /** What becomes of a call that prints an item. */
  datatype Fate =
    | Skipped                               // not to be shown: nothing printed, nothing counted
    | Failed                                // invalid string: nothing printed, but counted
    | PrintedInt(k: string, n: int)
    | PrintedText(k: string, t: string)

  function ItemFate(o: Options, section: Section, e: Event): Fate
    requires e.Integer? || e.Text?
  {
    match e
    case Integer(key, value) => if section.Shows(key) then PrintedInt(key, value) else Skipped
    case Text(key, text, optional, validated) =>
      if optional || !section.Shows(key) then Skipped
      else if !validated then PrintedText(key, text)
      else match (o.validate(key), o.validate(text))
        case (Some(k), Some(t)) => PrintedText(k, t)
        case _ => Failed
  }

  /** An item that is not to be shown: an optional string, or a key that was not asked for. */
  predicate Hidden(section: Section, e: Event)
    requires e.Integer? || e.Text?
  {
    (e.Text? && e.optional) || !(section.showAllEntries || e.key in section.entriesToShow)
  }

  /** A string whose key or text fails validation. */
  predicate Invalid(o: Options, e: Event) {
    e.Text? && e.validated && (o.validate(e.key).None? || o.validate(e.text).None?)
  }

  function FateText(o: Options, items: nat, indent: int, f: Fate): string {
    match f
    case PrintedInt(k, n) => IntegerText(o, items, indent, k, n)
    case PrintedText(k, t) => StringText(o, items, indent, k, t)
    case _ => ""
  }

  function Top(levels: seq<Level>): Option<Level> {
    if levels == [] then None else Some(levels[|levels| - 1])
  }

  function Bump(levels: seq<Level>): seq<Level> {
    if levels == [] then [] else levels[|levels| - 1 := levels[|levels| - 1].(items := levels[|levels| - 1].items + 1)]
  }

  /** The effect of one call; `None` when the program asserts or the call has no open section. */
  function Step(o: Options, s: State, e: Event): Option<State> {
    match e
    case Header(section) =>
      if |s.levels| >= SECTION_MAX_NB_LEVELS then None else
      Some(State(s.levels + [Level(section, 0)], s.indent + 1,
                 s.out + HeaderText(o, Top(s.levels), section, s.indent)))
    case Footer =>
      if s.levels == [] then None else
      var below := s.levels[..|s.levels| - 1];
      Some(State(Bump(below), s.indent - 1,
                 s.out + FooterText(o, Top(below), Top(s.levels).value.section, s.indent - 1)))
    case _ =>
      if s.levels == [] then None else
      var top := Top(s.levels).value;
      var f := ItemFate(o, top.section, e);
      Some(s.(levels := if f == Skipped then s.levels else Bump(s.levels),
              out := s.out + FateText(o, top.items, s.indent, f)))
  }

  function Run(o: Options, s: State, es: seq<Event>): Option<State>
    decreases |es|
  {
    if es == [] then Some(s) else
    match Step(o, s, es[0]) case None => None case Some(s') => Run(o, s', es[1..])
  }

  lemma StepHeader(o: Options, s: State, section: Section)
    requires |s.levels| < SECTION_MAX_NB_LEVELS
    ensures Step(o, s, Header(section)) ==
            Some(State(s.levels + [Level(section, 0)], s.indent + 1,
                       s.out + HeaderText(o, Top(s.levels), section, s.indent)))
  {
  }

  /** Ten sections may be open at once, not more; items and footers want an open one. */
  lemma StepsIff(o: Options, s: State, e: Event)
    ensures Step(o, s, e).Some? <==> if e.Header? then |s.levels| < 10 else s.levels != []
  {
  }

  lemma StepFooter(o: Options, s: State)
    requires s.levels != []
    ensures var below := s.levels[..|s.levels| - 1];
      Step(o, s, Footer) ==
      Some(State(Bump(below), s.indent - 1,
                 s.out + FooterText(o, Top(below), Top(s.levels).value.section, s.indent - 1)))
  {
  }

  lemma BumpNone()
    ensures Bump([]) == []
  {
  }

  // ---------- the writer object ----------

  function Levels(sections: seq<Section>, items: seq<nat>): (r: seq<Level>)
    requires |sections| == |items|
    ensures |r| == |sections|
    ensures forall i :: 0 <= i < |r| ==> r[i] == Level(sections[i], items[i])
  {
    seq(|sections|, i requires 0 <= i < |sections| => Level(sections[i], items[i]))
  }

  lemma LevelsPush(sections: seq<Section>, items: seq<nat>, s: Section)
    requires |sections| == |items|
    ensures Levels(sections + [s], items + [0]) == Levels(sections, items) + [Level(s, 0)]
  {
  }

  lemma LevelsPop(sections: seq<Section>, items: seq<nat>)
    requires |sections| == |items| > 0
    ensures var n := |sections| - 1; Levels(sections[..n], items[..n]) == Levels(sections, items)[..n]
  {
  }

  lemma LevelsBump(sections: seq<Section>, items: seq<nat>)
    requires |sections| == |items| > 0
    ensures var n := |items| - 1;
      Levels(sections, items[n := items[n] + 1]) == Bump(Levels(sections, items))
  {
  }

  class WriterContext {
    const o: Options
    var level: int
    var nbItem: array<nat>
    var section: array<Section>
    var indentLevel: int
    var out: string

    ghost predicate Valid()
      reads this
    {
      nbItem.Length == SECTION_MAX_NB_LEVELS == section.Length && -1 <= level < SECTION_MAX_NB_LEVELS
    }

    ghost function Contents(): State
      requires Valid()
      reads this, nbItem, section
    {
      State(Levels(section[..level + 1], nbItem[..level + 1]), indentLevel, out)
    }

    constructor (options: Options)
      ensures Valid() && fresh(nbItem) && fresh(section) && o == options
      ensures Contents() == State([], 0, "")
    {
      o := options;
      level := -1;
      nbItem := new nat[SECTION_MAX_NB_LEVELS];
      section := new Section[SECTION_MAX_NB_LEVELS];
      indentLevel := 0;
      out := "";
    }

    method PrintSectionHeader(s: Section)
      requires Valid() && level + 1 < SECTION_MAX_NB_LEVELS
      modifies this`level, this`indentLevel, this`out, nbItem, section
      ensures Valid() && Some(Contents()) == Step(o, old(Contents()), Header(s))
    {
      hide HeaderText, Step;
      ghost var was := Contents();
      ghost var sections, items := section[..level + 1], nbItem[..level + 1];
      StepHeader(o, was, s);
      level := level + 1;
      nbItem[level] := 0;
      section[level] := s;
      assert section[..level + 1] == sections + [s];
      assert nbItem[..level + 1] == items + [0];
      LevelsPush(sections, items, s);
      assert Parent() == Top(was.levels);
      JsonPrintSectionHeader();
    }

    method JsonPrintSectionHeader()
      requires Valid() && level >= 0
      modifies this`indentLevel, this`out
      ensures indentLevel == old(indentLevel) + 1
      ensures out == old(out) + HeaderText(o, Parent(), section[level], old(indentLevel))
    {
      var s := section[level];
      ghost var comma := if level > 0 && nbItem[level - 1] > 0 then ",\n" else "";
      if level > 0 && nbItem[level - 1] > 0 {
        out := out + ",\n";
      }
      assert out == old(out) + comma;
      ghost var before := out;
      JsonPrintOpening();
      Cat(old(out), comma, Opening(o, Parent(), s, old(indentLevel)));
    }

    method JsonPrintOpening()
      requires Valid() && level >= 0
      modifies this`indentLevel, this`out
      ensures indentLevel == old(indentLevel) + 1
      ensures out == old(out) + Opening(o, Parent(), section[level], old(indentLevel))
    {
      var s := section[level];
      if s.wrapper {
        out := out + "{\n";
        indentLevel := indentLevel + 1;
      } else {
        var buf := JsonEscapeStr(s.name);
        ghost var indent := Indent(indentLevel);
        out := out + Indent(indentLevel);
        indentLevel := indentLevel + 1;
        if s.arr {
          out := out + ("\"" + buf + "\"" + ": [\n");
          Cat(old(out), indent, Quoted(s.name) + ": [\n");
          Cat(indent, Quoted(s.name), ": [\n");
        } else if level > 0 && !section[level - 1].arr {
          out := out + ("\"" + buf + "\"" + (": {" + o.ItemStartEnd()));
          Cat(old(out), indent, Quoted(s.name) + (": {" + o.ItemStartEnd()));
          Cat(indent, Quoted(s.name), ": {" + o.ItemStartEnd());
        } else {
          out := out + ("{" + o.ItemStartEnd());
          Cat(old(out), indent, "{" + o.ItemStartEnd());
          ghost var brace := indent + ("{" + o.ItemStartEnd());
          if level > 0 && section[level - 1].id == PACKETS_AND_FRAMES {
            ghost var pad := if o.compact then "" else Indent(indentLevel);
            if !o.compact {
              out := out + Indent(indentLevel);
            }
            assert out == old(out) + brace + pad;
            out := out + ("\"type\": \"" + s.name + ("\"" + o.ItemSep()));
            Cat(old(out) + brace, pad, "\"type\": \"" + s.name + ("\"" + o.ItemSep()));
            Cat(old(out), brace, pad + ("\"type\": \"" + s.name + ("\"" + o.ItemSep())));
          } else {
            assert brace + "" == brace;
          }
        }
      }
    }

    /** The level below the current one. */
    ghost function Parent(): Option<Level>
      requires Valid() && level >= 0
      reads this, nbItem, section
    {
      if level == 0 then None else Some(Level(section[level - 1], nbItem[level - 1]))
    }

    method PrintSectionFooter()
      requires Valid() && level >= 0
      modifies this`level, this`indentLevel, this`out, nbItem
      ensures Valid() && Some(Contents()) == Step(o, old(Contents()), Footer)
    {
      hide FooterText, Step, Bump;
      ghost var was := Contents();
      ghost var sections, items := section[..level + 1], nbItem[..level + 1];
      LevelsPop(sections, items);
      StepFooter(o, was);
      assert section[..level] == sections[..level] && nbItem[..level] == items[..level];
      if level > 0 {
        nbItem[level - 1] := nbItem[level - 1] + 1;
        LevelsBump(section[..level], items[..level]);
        assert nbItem[..level] == items[..level][level - 1 := items[level - 1] + 1];
      } else {
        BumpNone();
      }
      JsonPrintSectionFooter();
      FooterOfParent(o, Parent(), Top(Levels(sections[..level], items[..level])), section[level], indentLevel);
      level := level - 1;
    }

    method JsonPrintSectionFooter()
      requires Valid() && level >= 0
      modifies this`indentLevel, this`out
      ensures indentLevel == old(indentLevel) - 1
      ensures out == old(out) + FooterText(o, Parent(), section[level], indentLevel)
    {
      if level == 0 {
        indentLevel := indentLevel - 1;
        out := out + "\n}\n";
      } else if section[level].arr {
        out := out + "\n";
        indentLevel := indentLevel - 1;
        out := out + Indent(indentLevel);
        out := out + "]";
        Cat(old(out) + "\n", Indent(indentLevel), "]");
        Cat(old(out), "\n", Indent(indentLevel) + "]");
      } else {
        ghost var pad := if o.compact then "" else Indent(indentLevel - 1);
        out := out + o.ItemStartEnd();
        indentLevel := indentLevel - 1;
        if !o.compact {
          out := out + Indent(indentLevel);
        }
        assert out == old(out) + o.ItemStartEnd() + pad;
        out := out + "}";
        Cat(old(out) + o.ItemStartEnd(), pad, "}");
        Cat(old(out), o.ItemStartEnd(), pad + "}");
      }
    }

    method JsonPrintLead()
      requires Valid() && level >= 0
      modifies this`out
      ensures out == old(out) + ItemLead(o, nbItem[level], indentLevel)
    {
      ghost var sep := if nbItem[level] > 0 then o.ItemSep() else "";
      if nbItem[level] > 0 {
        out := out + o.ItemSep();
      }
      assert out == old(out) + sep;
      if !o.compact {
        out := out + Indent(indentLevel);
        Cat(old(out), sep, Indent(indentLevel));
      }
    }

    method JsonPrintInt(key: string, value: int)
      requires Valid() && level >= 0
      modifies this`out
      ensures out == old(out) + IntegerText(o, nbItem[level], indentLevel, key, value)
    {
      JsonPrintLead();
      var buf := JsonEscapeStr(key);
      out := out + ("\"" + buf + "\"" + (": " + IntText(value)));
      Cat(old(out), ItemLead(o, nbItem[level], indentLevel), Quoted(key) + (": " + IntText(value)));
    }

    method JsonPrintStr(key: string, text: string)
      requires Valid() && level >= 0
      modifies this`out
      ensures out == old(out) + StringText(o, nbItem[level], indentLevel, key, text)
    {
      JsonPrintLead();
      ghost var led := out;
      var buf := JsonEscapeStr(key);
      out := out + ("\"" + buf + "\"" + ":");
      buf := JsonEscapeStr(text);
      out := out + (" \"" + buf + "\"");
      StringTextSplit(led, Quoted(key), Escape(JsonCode, text));
      Cat(old(out), ItemLead(o, nbItem[level], indentLevel), Quoted(key) + (": " + Quoted(text)));
    }

    lemma StringTextSplit(led: string, key: string, text: string)
      ensures led + (key + ":") + (" \"" + text + "\"") == led + (key + (": " + ("\"" + text + "\"")))
    {
    }

    method PrintInteger(key: string, value: int)
      requires Valid() && level >= 0
      modifies this`out, nbItem
      ensures Valid() && Some(Contents()) == Step(o, old(Contents()), Integer(key, value))
    {
      hide IntegerText, StringText, Levels, Bump;
      ghost var before := nbItem[..level + 1];
      if section[level].Shows(key) {
        JsonPrintInt(key, value);
        nbItem[level] := nbItem[level] + 1;
        assert nbItem[..level + 1] == before[level := before[level] + 1];
        LevelsBump(section[..level + 1], before);
      } else {
        assert out == old(out) + "";
      }
    }

    method PrintString(key: string, text: string, optional: bool, validated: bool) returns (ok: bool)
      requires Valid() && level >= 0
      modifies this`out, nbItem
      ensures Valid() && Some(Contents()) == Step(o, old(Contents()), Text(key, text, optional, validated))
      ensures var e := Text(key, text, optional, validated); ok <==> Hidden(section[level], e) || !Invalid(o, e)
    {
      hide IntegerText, StringText, Levels, Bump;
      ok := true;
      ghost var before := nbItem[..level + 1];
      assert out == old(out) + "";
      if optional {
        return;
      }
      if section[level].Shows(key) {
        if validated {
          match (o.validate(key), o.validate(text)) {
            case (Some(key1), Some(text1)) => JsonPrintStr(key1, text1);
            case _ => ok := false;
          }
        } else {
          JsonPrintStr(key, text);
        }
        nbItem[level] := nbItem[level] + 1;
        assert nbItem[..level + 1] == before[level := before[level] + 1];
        LevelsBump(section[..level + 1], before);
      }
    }
  }
}
