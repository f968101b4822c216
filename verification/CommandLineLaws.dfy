/** What splitting a command line keeps: every token, in order, is used once;
    the groups hold exactly the options since the previous separator; and the
    context can be printed and split again. */
module CommandLineLaws {
  import opened Wrappers
  import opened CommandLine
  import opened Sequences

  // ---------- an order-preserving partition ----------

  function Flatten(items: seq<Item>): seq<string> {
    if items == [] then [] else Tokens(items[0]) + Flatten(items[1..])
  }

  /** Each item is what its own tokens and the following ones are read as. */
  predicate ReadInTurn(s: Setup, items: seq<Item>, protected: bool) {
    items == [] ||
    (Tokens(items[0]) != [] && ReadItem(s, Flatten(items), protected) == Read(items[0]) &&
     ReadInTurn(s, items[1..], items[0].DashDash?))
  }

  function ApplyAll(c: Context, items: seq<Item>): (r: Context)
    ensures |r.groups| == |c.groups|
  {
    if items == [] then c else Apply(ApplyAll(c, items[..|items| - 1]), items[|items| - 1])
  }

  lemma {:induction false} ApplyFront(c: Context, item: Item, items: seq<Item>)
    ensures ApplyAll(c, [item] + items) == ApplyAll(Apply(c, item), items)
    decreases |items|
  {
    var all := [item] + items;
    if items == [] {
      assert all[..0] == [] && ApplyAll(c, all[..0]) == c;
    } else {
      ApplyFront(c, item, items[..|items| - 1]);
      assert all[..|all| - 1] == [item] + items[..|items| - 1];
    }
  }

  /** The items a command line is read as, up to the first that is refused. */
  function ItemsOf(s: Setup, args: seq<string>, protected: bool): seq<Item>
    decreases |args|
  {
    if args == [] then []
    else
      match ReadItem(s, args, protected)
      case Refused(_) => []
      case Read(item) =>
        ReadsTokens(s, args, protected);
        [item] + ItemsOf(s, args[|Tokens(item)|..], item.DashDash?)
  }

  /** A successful split uses every token once, in order. */
  lemma {:induction false} Partition(s: Setup, args: seq<string>, protected: bool, c: Context)
    requires SplitFrom(s, args, protected, c).Done?
    ensures var items := ItemsOf(s, args, protected);
      Flatten(items) == args && ReadInTurn(s, items, protected) &&
      SplitFrom(s, args, protected, c) == Done(ApplyAll(c, items))
    decreases |args|
  {
    hide ReadItem, Tokens, Apply;
    if args != [] {
      var item := ReadItem(s, args, protected).item;
      ReadsTokens(s, args, protected);
      var n := |Tokens(item)|;
      var more := ItemsOf(s, args[n..], item.DashDash?);
      Partition(s, args[n..], item.DashDash?, Apply(c, item));
      assert ([item] + more)[1..] == more;
      assert args == Tokens(item) + args[n..];
      ApplyFront(c, item, more);
    }
  }

  /** "--" lets the next token, and no other, be unnamed whatever it looks like. */
  lemma {:induction false} ProtectsOnlyNext(s: Setup, items: seq<Item>, protected: bool, j: nat)
    requires ReadInTurn(s, items, protected) && j < |items|
    ensures items[j].Unnamed? && LooksLikeOption(items[j].arg) ==>
              if j == 0 then protected else items[j - 1].DashDash?
    ensures (if j == 0 then protected else items[j - 1].DashDash?) ==> items[j].Unnamed? || items[j].DashDash?
    ensures items[j].Unnamed? ==> items[j].arg != "--"
    decreases j
  {
    if j > 0 {
      ProtectsOnlyNext(s, items[1..], items[0].DashDash?, j - 1);
    }
  }

  // ---------- what the context means ----------

  predicate EndsGroup(item: Item) { item.Unnamed? || item.Named? }

  /** The options that are not per file, in order. */
  function Globals(items: seq<Item>): seq<Opt> {
    if items == [] then []
    else
      var last := items[|items| - 1];
      Globals(items[..|items| - 1]) +
      if (last.Table? || last.NoBool?) && IsGlobal(last.opt.def) then [last.opt] else []
  }

  function PerFile(items: seq<Item>): seq<Opt> {
    if items == [] then []
    else
      var last := items[|items| - 1];
      PerFile(items[..|items| - 1]) +
      if (last.Table? || last.NoBool?) && !IsGlobal(last.opt.def) then [last.opt] else []
  }

  function AvOptions(items: seq<Item>): seq<AvOption> {
    if items == [] then []
    else
      var last := items[|items| - 1];
      AvOptions(items[..|items| - 1]) + if last.Library? then [last.avOption] else []
  }

  /** The items since the last separator. */
  function SinceSeparator(items: seq<Item>): seq<Item> {
    if items == [] || EndsGroup(items[|items| - 1]) then []
    else SinceSeparator(items[..|items| - 1]) + [items[|items| - 1]]
  }

  function GroupNumber(item: Item): nat { if item.Named? then item.group else 0 }

  /** One group for each separator of a definition, with the options since the separator before it. */
  function GroupList(items: seq<Item>, g: nat): seq<Group> {
    if items == [] then []
    else
      var before, last := items[..|items| - 1], items[|items| - 1];
      var mine := SinceSeparator(before);
      GroupList(before, g) +
      if EndsGroup(last) && GroupNumber(last) == g then [Group(last.arg, PerFile(mine), AvOptions(mine))] else []
  }

  function Meaning(n: nat, items: seq<Item>): Context {
    var mine := SinceSeparator(items);
    Context(Globals(items), seq(n, g requires 0 <= g < n => GroupList(items, g)), PerFile(mine), AvOptions(mine))
  }

  lemma SinceSeparatorSnoc(items: seq<Item>, item: Item)
    ensures SinceSeparator(items + [item]) == if EndsGroup(item) then [] else SinceSeparator(items) + [item]
  {
    assert (items + [item])[..|items|] == items;
  }

  lemma FilterSnoc(items: seq<Item>, item: Item)
    ensures PerFile(items + [item]) ==
            PerFile(items) + if (item.Table? || item.NoBool?) && !IsGlobal(item.opt.def) then [item.opt] else []
    ensures AvOptions(items + [item]) == AvOptions(items) + if item.Library? then [item.avOption] else []
    ensures Globals(items + [item]) ==
            Globals(items) + if (item.Table? || item.NoBool?) && IsGlobal(item.opt.def) then [item.opt] else []
  {
    assert (items + [item])[..|items|] == items;
  }

  lemma GroupListSnoc(items: seq<Item>, item: Item, g: nat)
    ensures var mine := SinceSeparator(items);
      GroupList(items + [item], g) == GroupList(items, g) +
        if EndsGroup(item) && GroupNumber(item) == g then [Group(item.arg, PerFile(mine), AvOptions(mine))] else []
  {
    assert (items + [item])[..|items|] == items;
  }

  lemma NoneYet()
    ensures PerFile([]) == [] && AvOptions([]) == []
  {
  }

  lemma MeaningSnoc(n: nat, items: seq<Item>, item: Item)
    requires n >= 1 && GroupNumber(item) < n
    ensures Apply(Meaning(n, items), item) == Meaning(n, items + [item])
  {
    hide Globals, PerFile, AvOptions, SinceSeparator, GroupList, IsGlobal;
    var c, next := Apply(Meaning(n, items), item), Meaning(n, items + [item]);
    SinceSeparatorSnoc(items, item);
    FilterSnoc(items, item);
    FilterSnoc(SinceSeparator(items), item);
    NoneYet();
    forall g | 0 <= g < n ensures c.groups[g] == next.groups[g] {
      GroupListSnoc(items, item, g);
      assert GroupList(items, g) + [] == GroupList(items, g);
    }
    assert c.groups == next.groups;
  }

  /** Applying items in turn collects them as the meaning says. */
  lemma {:induction false} ApplyAllMeaning(n: nat, items: seq<Item>)
    requires n >= 1 && forall item <- items :: GroupNumber(item) < n
    ensures ApplyAll(EmptyContext(n), items) == Meaning(n, items)
    decreases |items|
  {
    if items == [] {
      assert EmptyContext(n).groups == Meaning(n, items).groups;
    } else {
      var before, last := items[..|items| - 1], items[|items| - 1];
      ApplyAllMeaning(n, before);
      assert items == before + [last];
      assert last in items;
      MeaningSnoc(n, before, last);
    }
  }

  lemma {:induction false} GroupsInRange(s: Setup, items: seq<Item>, protected: bool)
    requires ReadInTurn(s, items, protected) && |s.groups| >= 1
    ensures forall item <- items :: GroupNumber(item) < |s.groups|
  {
    if items != [] {
      GroupsInRange(s, items[1..], items[0].DashDash?);
      assert items == [items[0]] + items[1..];
    }
  }

  /** The context of a command line: global options in order, and in each group
      exactly the per-file options since the previous separator. */
  lemma SplitMeaning(s: Setup, args: seq<string>)
    requires |s.groups| >= 1 && Split(s, args).Done?
    ensures Flatten(ItemsOf(s, args, false)) == args && ReadInTurn(s, ItemsOf(s, args, false), false)
    ensures Split(s, args) == Done(Meaning(|s.groups|, ItemsOf(s, args, false)))
  {
    Partition(s, args, false, EmptyContext(|s.groups|));
    GroupsInRange(s, ItemsOf(s, args, false), false);
    ApplyAllMeaning(|s.groups|, ItemsOf(s, args, false));
  }

  // ---------- printing a context ----------

  /** Whether the libraries know a name does not depend on the value. */
  ghost predicate KnowsNames(s: Setup) {
    forall key, val :: s.libraries(key, val).Unknown? <==> s.libraries(key, "").Unknown?
  }

  predicate IsName(s: Setup, key: string) {
    key != "" && key != "-" && FindSeparator(s.groups, key).None?
  }

  /** An option as the splitter stores it. */
  predicate Stored(s: Setup, o: Opt) {
    IsName(s, o.key) &&
    if FindOption(s.options, o.key).Some? then
      FindOption(s.options, o.key) == Some(o.def) &&
      (!o.def.exits ==> if o.def.hasArg then o.val.Some? else o.val == Some("1"))
    else
      Negated(s.options, o.key) == Some(o.def) && o.val == Some("0")
  }

  /** A stored option that is read as such only from the last token: an exit
      option without argument, or a negated one the libraries know as well. */
  predicate NeedsEnd(s: Setup, o: Opt) {
    if FindOption(s.options, o.key).Some? then o.def.exits && o.val.None?
    else !s.libraries(o.key, "").Unknown?
  }

  predicate Settled(s: Setup, o: Opt) { Stored(s, o) && !NeedsEnd(s, o) }

  predicate StoredAv(s: Setup, o: AvOption) {
    IsName(s, o.key) && FindOption(s.options, o.key).None? && s.libraries(o.key, o.val).Consumed?
  }

  predicate StoredGroup(s: Setup, g: nat, group: Group) {
    g < |s.groups| &&
    (forall o <- group.opts :: Settled(s, o) && !IsGlobal(o.def)) &&
    (forall o <- group.avOptions :: StoredAv(s, o)) &&
    if g == 0 && group.arg != "--" then true
    else s.groups[g].sep.Some? && s.groups[g].sep.value !in ["", "-"] &&
         FindSeparator(s.groups, s.groups[g].sep.value) == Some(g)
  }

  predicate StoredList(s: Setup, g: nat, groups: seq<Group>) {
    forall i :: 0 <= i < |groups| ==> StoredGroup(s, g, groups[i])
  }

  predicate StoredLists(s: Setup, groups: seq<seq<Group>>) {
    |groups| == |s.groups| && forall g :: 0 <= g < |groups| ==> StoredList(s, g, groups[g])
  }

  /** A context all of whose parts can be read in any place. */
  predicate StoredContext(s: Setup, c: Context) {
    StoredLists(s, c.groups) &&
    (forall o <- c.globals :: Settled(s, o) && IsGlobal(o.def)) &&
    (forall o <- c.opts :: Settled(s, o) && !IsGlobal(o.def)) &&
    (forall o <- c.avOptions :: StoredAv(s, o))
  }

  function PrintOpt(s: Setup, o: Opt): seq<string> {
    if FindOption(s.options, o.key).Some? then Tokens(Table(o)) else Tokens(NoBool(o))
  }

  function PrintOpts(s: Setup, opts: seq<Opt>): seq<string> {
    if opts == [] then [] else PrintOpt(s, opts[0]) + PrintOpts(s, opts[1..])
  }

  function PrintAv(avOptions: seq<AvOption>): seq<string> {
    if avOptions == [] then [] else Tokens(Library(avOptions[0])) + PrintAv(avOptions[1..])
  }

  function PrintSeparator(s: Setup, g: nat, arg: string): seq<string> {
    if g == 0 && arg != "--" then ["--", arg]
    else if g < |s.groups| && s.groups[g].sep.Some? then ["-" + s.groups[g].sep.value, arg] else []
  }

  function PrintGroup(s: Setup, g: nat, group: Group): seq<string> {
    PrintAv(group.avOptions) + PrintOpts(s, group.opts) + PrintSeparator(s, g, group.arg)
  }

  function PrintList(s: Setup, g: nat, groups: seq<Group>): seq<string> {
    if groups == [] then [] else PrintGroup(s, g, groups[0]) + PrintList(s, g, groups[1..])
  }

  /** The group lists from the g-th on. */
  function PrintLists(s: Setup, g: nat, groups: seq<seq<Group>>): seq<string>
    requires g <= |groups|
    decreases |groups| - g
  {
    if g == |groups| then [] else PrintList(s, g, groups[g]) + PrintLists(s, g + 1, groups)
  }

  /** Groups, trailing options and global options; the trailing options come
      last if the last of them has to. */
  function Print(s: Setup, c: Context): seq<string> {
    var groups, globals := PrintLists(s, 0, c.groups), PrintOpts(s, c.globals);
    var trailing := PrintAv(c.avOptions) + PrintOpts(s, c.opts);
    if EndsLast(s, c.opts) then groups + globals + trailing
    else groups + trailing + globals
  }

  // ---------- what a split stores ----------

  /** Such a context, or one with a last option that came from the last token. */
  ghost predicate SplitContext(s: Setup, c: Context) {
    StoredContext(s, c) ||
    exists c0: Context, o: Opt :: StoredContext(s, c0) && Stored(s, o) && NeedsEnd(s, o) && c == AddOpt(c0, o)
  }

  predicate StoredItem(s: Setup, item: Item) {
    match item
    case DashDash => true
    case Unnamed(arg) => arg != "--"
    case Named(g, sep, arg) =>
      g < |s.groups| && s.groups[g].sep == Some(sep) && sep !in ["", "-"] && FindSeparator(s.groups, sep) == Some(g)
    case Table(o) => Stored(s, o)
    case NoBool(o) => Stored(s, o)
    case Library(o) => StoredAv(s, o)
  }

  lemma SeparatorFound(groups: seq<GroupDef>, key: string)
    requires FindSeparator(groups, key).Some?
    ensures groups[FindSeparator(groups, key).value].sep == Some(key)
  {
  }

  lemma ReadIsStored(s: Setup, args: seq<string>, protected: bool)
    requires args != [] && ReadItem(s, args, protected).Read? && KnowsNames(s)
    ensures StoredItem(s, ReadItem(s, args, protected).item)
    ensures var item := ReadItem(s, args, protected).item;
            (item.Table? || item.NoBool?) && NeedsEnd(s, item.opt) ==> |args| == 1
  {
    if args[0] != "--" && LooksLikeOption(args[0]) && !protected {
      var key := args[0][1..];
      assert args[0] == "-" + key;
      if FindSeparator(s.groups, key).Some? {
        SeparatorFound(s.groups, key);
      }
    }
  }

  lemma StoredApply(s: Setup, c: Context, item: Item)
    requires StoredContext(s, c) && StoredItem(s, item) && |s.groups| >= 1
    requires (item.Table? || item.NoBool?) ==> !NeedsEnd(s, item.opt)
    ensures StoredContext(s, Apply(c, item))
  {
  }

  /** Everything a split stores can be read again. */
  lemma {:induction false} SplitStores(s: Setup, args: seq<string>, protected: bool, c: Context)
    requires StoredContext(s, c) && |s.groups| >= 1 && KnowsNames(s)
    requires SplitFrom(s, args, protected, c).Done?
    ensures SplitContext(s, SplitFrom(s, args, protected, c).context)
    decreases |args|
  {
    if args != [] {
      var item := ReadItem(s, args, protected).item;
      ReadsTokens(s, args, protected);
      ReadIsStored(s, args, protected);
      if (item.Table? || item.NoBool?) && NeedsEnd(s, item.opt) {
        assert args[|Tokens(item)|..] == [];
        assert SplitFrom(s, args, protected, c) == Done(AddOpt(c, item.opt));
      } else {
        StoredApply(s, c, item);
        SplitStores(s, args[|Tokens(item)|..], item.DashDash?, Apply(c, item));
      }
    }
  }

  // ---------- reading it back ----------

  lemma SnocCons<T>(a: seq<T>, b: seq<T>)
    requires b != []
    ensures a + [b[0]] + b[1..] == a + b
  {
  }

  lemma NextItem(s: Setup, tokens: seq<string>, rest: seq<string>, protected: bool, c: Context, item: Item)
    requires tokens != [] && tokens == Tokens(item)
    requires ReadItem(s, tokens + rest, protected) == Read(item)
    ensures SplitFrom(s, tokens + rest, protected, c) == SplitFrom(s, rest, item.DashDash?, Apply(c, item))
  {
    ReadsTokens(s, tokens + rest, protected);
    assert (tokens + rest)[|tokens|..] == rest;
  }

  lemma ReadOpt(s: Setup, o: Opt, rest: seq<string>, c: Context)
    requires Stored(s, o) && KnowsNames(s) && (NeedsEnd(s, o) ==> rest == [])
    ensures SplitFrom(s, PrintOpt(s, o) + rest, false, c) == SplitFrom(s, rest, false, AddOpt(c, o))
  {
    var tokens := PrintOpt(s, o);
    assert (tokens + rest)[0] == "-" + o.key && ("-" + o.key)[1..] == o.key;
    assert LooksLikeOption("-" + o.key) && "-" + o.key != "--" by {
      assert ("-" + o.key)[1..] != "-";
    }
    NextItem(s, tokens, rest, false, c, if FindOption(s.options, o.key).Some? then Table(o) else NoBool(o));
  }

  lemma ReadAv(s: Setup, o: AvOption, rest: seq<string>, c: Context)
    requires StoredAv(s, o)
    ensures SplitFrom(s, Tokens(Library(o)) + rest, false, c)
         == SplitFrom(s, rest, false, c.(avOptions := c.avOptions + [o]))
  {
    var tokens := Tokens(Library(o));
    assert (tokens + rest)[0] == "-" + o.key && ("-" + o.key)[1..] == o.key;
    assert LooksLikeOption("-" + o.key) && "-" + o.key != "--" by {
      assert ("-" + o.key)[1..] != "-";
    }
    NextItem(s, tokens, rest, false, c, Library(o));
  }

  lemma ReadSeparator(s: Setup, g: nat, group: Group, rest: seq<string>, c: Context)
    requires StoredGroup(s, g, group) && |c.groups| == |s.groups|
    ensures SplitFrom(s, PrintSeparator(s, g, group.arg) + rest, false, c)
         == SplitFrom(s, rest, false, FinishGroup(c, g, group.arg))
  {
    if g == 0 && group.arg != "--" {
      assert PrintSeparator(s, g, group.arg) + rest == ["--"] + ([group.arg] + rest);
      NextItem(s, ["--"], [group.arg] + rest, false, c, DashDash);
      NextItem(s, [group.arg], rest, true, c, Unnamed(group.arg));
    } else {
      var sep := s.groups[g].sep.value;
      var tokens := ["-" + sep, group.arg];
      assert (tokens + rest)[0] == "-" + sep && ("-" + sep)[1..] == sep;
      assert LooksLikeOption("-" + sep) && "-" + sep != "--" by {
        assert ("-" + sep)[1..] != "-";
      }
      NextItem(s, tokens, rest, false, c, Named(g, sep, group.arg));
    }
  }

  lemma {:induction false} ReadGlobals(s: Setup, opts: seq<Opt>, rest: seq<string>, c: Context)
    requires KnowsNames(s) && forall o <- opts :: Stored(s, o) && IsGlobal(o.def)
    requires forall i :: 0 <= i < |opts| && NeedsEnd(s, opts[i]) ==> i == |opts| - 1 && rest == []
    ensures SplitFrom(s, PrintOpts(s, opts) + rest, false, c)
         == SplitFrom(s, rest, false, c.(globals := c.globals + opts))
    decreases |opts|
  {
    if opts == [] {
      assert PrintOpts(s, opts) + rest == rest && c.globals + opts == c.globals;
    } else {
      var more := PrintOpts(s, opts[1..]) + rest;
      Cat(PrintOpt(s, opts[0]), PrintOpts(s, opts[1..]), rest);
      if NeedsEnd(s, opts[0]) {
        assert opts[1..] == [];
      }
      ReadOpt(s, opts[0], more, c);
      ReadGlobals(s, opts[1..], rest, c.(globals := c.globals + [opts[0]]));
      SnocCons(c.globals, opts);
    }
  }

  lemma {:induction false} ReadPerFile(s: Setup, opts: seq<Opt>, rest: seq<string>, c: Context)
    requires KnowsNames(s) && forall o <- opts :: Stored(s, o) && !IsGlobal(o.def)
    requires forall i :: 0 <= i < |opts| && NeedsEnd(s, opts[i]) ==> i == |opts| - 1 && rest == []
    ensures SplitFrom(s, PrintOpts(s, opts) + rest, false, c) == SplitFrom(s, rest, false, c.(opts := c.opts + opts))
    decreases |opts|
  {
    if opts == [] {
      assert PrintOpts(s, opts) + rest == rest && c.opts + opts == c.opts;
    } else {
      var more := PrintOpts(s, opts[1..]) + rest;
      Cat(PrintOpt(s, opts[0]), PrintOpts(s, opts[1..]), rest);
      if NeedsEnd(s, opts[0]) {
        assert opts[1..] == [];
      }
      ReadOpt(s, opts[0], more, c);
      ReadPerFile(s, opts[1..], rest, c.(opts := c.opts + [opts[0]]));
      SnocCons(c.opts, opts);
    }
  }

  lemma {:induction false} ReadAvOptions(s: Setup, avOptions: seq<AvOption>, rest: seq<string>, c: Context)
    requires forall o <- avOptions :: StoredAv(s, o)
    ensures SplitFrom(s, PrintAv(avOptions) + rest, false, c)
         == SplitFrom(s, rest, false, c.(avOptions := c.avOptions + avOptions))
    decreases |avOptions|
  {
    if avOptions == [] {
      assert PrintAv(avOptions) + rest == rest && c.avOptions + avOptions == c.avOptions;
    } else {
      var more := PrintAv(avOptions[1..]) + rest;
      Cat(Tokens(Library(avOptions[0])), PrintAv(avOptions[1..]), rest);
      ReadAv(s, avOptions[0], more, c);
      ReadAvOptions(s, avOptions[1..], rest, c.(avOptions := c.avOptions + [avOptions[0]]));
      SnocCons(c.avOptions, avOptions);
    }
  }

  /** The options of a group, printed, are read into the current group. */
  lemma ReadTrailing(s: Setup, avOptions: seq<AvOption>, opts: seq<Opt>, rest: seq<string>, c: Context)
    requires KnowsNames(s) && c.opts == [] && c.avOptions == []
    requires (forall o <- avOptions :: StoredAv(s, o)) && forall o <- opts :: Stored(s, o) && !IsGlobal(o.def)
    requires forall i :: 0 <= i < |opts| && NeedsEnd(s, opts[i]) ==> i == |opts| - 1 && rest == []
    ensures SplitFrom(s, PrintAv(avOptions) + PrintOpts(s, opts) + rest, false, c)
         == SplitFrom(s, rest, false, c.(opts := opts, avOptions := avOptions))
  {
    Cat(PrintAv(avOptions), PrintOpts(s, opts), rest);
    assert c.avOptions + avOptions == avOptions && c.opts + opts == opts;
    ReadAvOptions(s, avOptions, PrintOpts(s, opts) + rest, c);
    ReadPerFile(s, opts, rest, c.(avOptions := avOptions));
  }

  lemma ReadGroup(s: Setup, g: nat, group: Group, rest: seq<string>, c: Context)
    requires KnowsNames(s) && StoredGroup(s, g, group)
    requires |c.groups| == |s.groups| && c.opts == [] && c.avOptions == []
    ensures SplitFrom(s, PrintGroup(s, g, group) + rest, false, c)
         == SplitFrom(s, rest, false, c.(groups := c.groups[g := c.groups[g] + [group]]))
  {
    var sep := PrintSeparator(s, g, group.arg);
    Cat(PrintAv(group.avOptions) + PrintOpts(s, group.opts), sep, rest);
    ReadTrailing(s, group.avOptions, group.opts, sep + rest, c);
    ReadSeparator(s, g, group, rest, c.(opts := group.opts, avOptions := group.avOptions));
  }

  lemma {:induction false} ReadList(s: Setup, g: nat, groups: seq<Group>, rest: seq<string>, c: Context)
    requires KnowsNames(s) && g < |c.groups| && StoredList(s, g, groups)
    requires |c.groups| == |s.groups| && c.opts == [] && c.avOptions == []
    ensures SplitFrom(s, PrintList(s, g, groups) + rest, false, c)
         == SplitFrom(s, rest, false, c.(groups := c.groups[g := c.groups[g] + groups]))
    decreases |groups|
  {
    if groups == [] {
      assert PrintList(s, g, groups) + rest == rest;
      assert c.groups[g] + groups == c.groups[g];
      assert c.groups[g := c.groups[g] + groups] == c.groups;
    } else {
      var more := PrintList(s, g, groups[1..]) + rest;
      Cat(PrintGroup(s, g, groups[0]), PrintList(s, g, groups[1..]), rest);
      ReadGroup(s, g, groups[0], more, c);
      var c1 := c.(groups := c.groups[g := c.groups[g] + [groups[0]]]);
      ReadList(s, g, groups[1..], rest, c1);
      SnocCons(c.groups[g], groups);
      assert c1.groups[g := c1.groups[g] + groups[1..]] == c.groups[g := c.groups[g] + groups];
    }
  }

  /** The first g group lists, the rest still empty. */
  function FirstLists(groups: seq<seq<Group>>, g: nat): seq<seq<Group>> {
    seq(|groups|, i requires 0 <= i < |groups| => if i < g then groups[i] else [])
  }

  lemma FirstListsNext(groups: seq<seq<Group>>, g: nat)
    requires g < |groups|
    ensures var first := FirstLists(groups, g);
            first[g] == [] && first[g := groups[g]] == FirstLists(groups, g + 1)
  {
  }

  lemma {:induction false} ReadLists(s: Setup, g: nat, groups: seq<seq<Group>>, rest: seq<string>)
    requires KnowsNames(s) && StoredLists(s, groups) && g <= |groups|
    ensures SplitFrom(s, PrintLists(s, g, groups) + rest, false, Context([], FirstLists(groups, g), [], []))
         == SplitFrom(s, rest, false, Context([], groups, [], []))
    decreases |groups| - g
  {
    hide SplitFrom, PrintList, StoredList;
    if g == |groups| {
      assert PrintLists(s, g, groups) + rest == rest;
      assert FirstLists(groups, g) == groups;
    } else {
      var first, more := FirstLists(groups, g), PrintLists(s, g + 1, groups) + rest;
      Cat(PrintList(s, g, groups[g]), PrintLists(s, g + 1, groups), rest);
      FirstListsNext(groups, g);
      assert first[g] + groups[g] == groups[g];
      ReadList(s, g, groups[g], more, Context([], first, [], []));
      ReadLists(s, g + 1, groups, rest);
    }
  }

  /** Only the last option of a list may need the end. */
  predicate Readable(s: Setup, opts: seq<Opt>, global: bool) {
    (forall o <- opts :: Stored(s, o) && IsGlobal(o.def) == global) &&
    forall i :: 0 <= i < |opts| - 1 ==> !NeedsEnd(s, opts[i])
  }

  predicate EndsLast(s: Setup, opts: seq<Opt>) { opts != [] && NeedsEnd(s, opts[|opts| - 1]) }

  lemma SettledReadable(s: Setup, opts: seq<Opt>, global: bool)
    requires forall o <- opts :: Settled(s, o) && IsGlobal(o.def) == global
    ensures Readable(s, opts, global) && !EndsLast(s, opts)
  {
  }

  lemma AddedReadable(s: Setup, opts: seq<Opt>, global: bool, o: Opt)
    requires forall o <- opts :: Settled(s, o) && IsGlobal(o.def) == global
    requires Stored(s, o) && IsGlobal(o.def) == global
    ensures Readable(s, opts + [o], global)
  {
    SettledReadable(s, opts, global);
    forall i | 0 <= i < |opts| ensures !NeedsEnd(s, (opts + [o])[i]) {
      assert (opts + [o])[i] in opts;
    }
  }

  lemma SplitContextParts(s: Setup, c: Context)
    requires SplitContext(s, c)
    ensures StoredLists(s, c.groups) && Readable(s, c.globals, true) && Readable(s, c.opts, false)
    ensures forall o <- c.avOptions :: StoredAv(s, o)
    ensures !(EndsLast(s, c.globals) && EndsLast(s, c.opts))
  {
    if StoredContext(s, c) {
      SettledReadable(s, c.globals, true);
      SettledReadable(s, c.opts, false);
    } else {
      var c0: Context, o: Opt :| StoredContext(s, c0) && Stored(s, o) && NeedsEnd(s, o) && c == AddOpt(c0, o);
      SettledReadable(s, c0.globals, true);
      SettledReadable(s, c0.opts, false);
      if IsGlobal(o.def) {
        AddedReadable(s, c0.globals, true, o);
      } else {
        AddedReadable(s, c0.opts, false, o);
      }
    }
  }

  /** Groups first, then the rest of the context in the order printed. */
  lemma ReadsBack(s: Setup, c: Context)
    requires KnowsNames(s) && SplitContext(s, c)
    ensures Split(s, Print(s, c)) == Done(c)
  {
    SplitContextParts(s, c);
    var c0 := Context([], c.groups, [], []);
    var groups, globals := PrintLists(s, 0, c.groups), PrintOpts(s, c.globals);
    var trailing := PrintAv(c.avOptions) + PrintOpts(s, c.opts);
    var rest := if EndsLast(s, c.opts) then globals + trailing else trailing + globals;
    Cat(groups, globals, trailing);
    Cat(groups, trailing, globals);
    assert FirstLists(c.groups, 0) == EmptyContext(|s.groups|).groups;
    ReadLists(s, 0, c.groups, rest);
    if EndsLast(s, c.opts) {
      ReadRest(s, c, c0, true);
    } else {
      ReadRest(s, c, c0, false);
    }
  }

  lemma ReadRest(s: Setup, c: Context, c0: Context, globalsFirst: bool)
    requires KnowsNames(s) && c0 == Context([], c.groups, [], [])
    requires Readable(s, c.globals, true) && Readable(s, c.opts, false) && forall o <- c.avOptions :: StoredAv(s, o)
    requires if globalsFirst then !EndsLast(s, c.globals) else !EndsLast(s, c.opts)
    ensures var globals, trailing := PrintOpts(s, c.globals), PrintAv(c.avOptions) + PrintOpts(s, c.opts);
            SplitFrom(s, if globalsFirst then globals + trailing else trailing + globals, false, c0) == Done(c)
  {
    var globals, trailing := PrintOpts(s, c.globals), PrintAv(c.avOptions) + PrintOpts(s, c.opts);
    assert globals + [] == globals && trailing + [] == trailing && [] + c.globals == c.globals;
    if globalsFirst {
      ReadGlobals(s, c.globals, trailing, c0);
      ReadTrailing(s, c.avOptions, c.opts, [], c0.(globals := c.globals));
    } else {
      ReadTrailing(s, c.avOptions, c.opts, globals, c0);
      ReadGlobals(s, c.globals, [], c0.(opts := c.opts, avOptions := c.avOptions));
    }
  }

  /** Printing what a command line splits into and splitting it again gives the
      same context. */
  lemma PrintSplit(s: Setup, args: seq<string>)
    requires |s.groups| >= 1 && KnowsNames(s) && Split(s, args).Done?
    ensures Split(s, Print(s, Split(s, args).context)) == Split(s, args)
  {
    SplitStores(s, args, false, EmptyContext(|s.groups|));
    ReadsBack(s, Split(s, args).context);
  }
}
