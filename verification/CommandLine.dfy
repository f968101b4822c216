/** Splitting a command line into global options and groups of per-file options. */
module CommandLine {
  import opened Wrappers

  /** A table option; the flags are the ones the splitter looks at. */
  datatype OptionDef = OptionDef(name: string, hasArg: bool, isBool: bool, exits: bool,
                                 perFile: bool, spec: bool, offset: bool)

  datatype GroupDef = GroupDef(name: string, sep: Option<string>)

  /** An option instance: its definition, the name as typed, and its value if any. */
  datatype Opt = Opt(def: OptionDef, key: string, val: Option<string>)

  /** An option of the libraries, with its value. */
  datatype AvOption = AvOption(key: string, val: string)

  datatype Group = Group(arg: string, opts: seq<Opt>, avOptions: seq<AvOption>)

  /** Global options, one list of groups for each definition, and the group being read. */
  datatype Context = Context(globals: seq<Opt>, groups: seq<seq<Group>>, opts: seq<Opt>, avOptions: seq<AvOption>)

  datatype Lookup = Consumed | Unknown | Failed(code: int)

  datatype Error = MissingArgument | BadAvOption(code: int) | NotFound

  /** The option table, the group definitions, and how the libraries take an option. */
  datatype Setup = Setup(options: seq<OptionDef>, groups: seq<GroupDef>, libraries: (string, string) -> Lookup)

  datatype Item =
    | DashDash
    | Unnamed(arg: string)
    | Named(group: nat, sep: string, arg: string)
    | Table(opt: Opt)
    | Library(avOption: AvOption)
    | NoBool(opt: Opt)

  datatype Reading = Read(item: Item) | Refused(error: Error)

  datatype Result = Done(context: Context) | Stopped(error: Error)

  predicate IsGlobal(def: OptionDef) { !(def.perFile || def.spec || def.offset) }

  /** The part of a name before its stream specifier. */
  function Stem(key: string): string {
    if key == "" || key[0] == ':' then "" else [key[0]] + Stem(key[1..])
  }

  function FindOption(options: seq<OptionDef>, key: string): Option<OptionDef> {
    if options == [] then None
    else if options[0].name == Stem(key) then Some(options[0]) else FindOption(options[1..], key)
  }

  function FindSeparator(groups: seq<GroupDef>, key: string): (r: Option<nat>)
    ensures r.Some? ==> r.value < |groups|
  {
    if groups == [] then None
    else if groups[0].sep == Some(key) then Some(0)
    else match FindSeparator(groups[1..], key) case Some(i) => Some(i + 1) case None => None
  }

  /** A boolean option written with "no" in front. */
  function Negated(options: seq<OptionDef>, key: string): Option<OptionDef> {
    if |key| >= 2 && key[..2] == "no" && FindOption(options, key[2..]).Some? &&
       FindOption(options, key[2..]).value.isBool
    then FindOption(options, key[2..]) else None
  }

  predicate LooksLikeOption(token: string) { |token| >= 2 && token[0] == '-' }

  /** What the first tokens are read as; `protected` after "--". */
  function ReadItem(s: Setup, args: seq<string>, protected: bool): Reading
    requires args != []
  {
    var next := if |args| > 1 then Some(args[1]) else None;
    if args[0] == "--" then Read(DashDash)
    else if !LooksLikeOption(args[0]) || protected then Read(Unnamed(args[0]))
    else ReadOption(s, args[0][1..], next)
  }

  function ReadOption(s: Setup, key: string, next: Option<string>): Reading {
    var group, def := FindSeparator(s.groups, key), FindOption(s.options, key);
    if group.Some? then
      if next.Some? then Read(Named(group.value, key, next.value)) else Refused(MissingArgument)
    else if def.Some? then
      if def.value.exits then Read(Table(Opt(def.value, key, next)))
      else if !def.value.hasArg then Read(Table(Opt(def.value, key, Some("1"))))
      else if next.Some? then Read(Table(Opt(def.value, key, next))) else Refused(MissingArgument)
    else if next.Some? && s.libraries(key, next.value).Consumed? then Read(Library(AvOption(key, next.value)))
    else if next.Some? && s.libraries(key, next.value).Failed? then
      Refused(BadAvOption(s.libraries(key, next.value).code))
    else if Negated(s.options, key).Some? then
      Read(NoBool(Opt(Negated(s.options, key).value, key, Some("0"))))
    else Refused(NotFound)
  }

  /** The tokens an item is read from. */
  function Tokens(item: Item): seq<string> {
    match item
    case DashDash => ["--"]
    case Unnamed(arg) => [arg]
    case Named(_, sep, arg) => ["-" + sep, arg]
    case Table(opt) =>
      ["-" + opt.key] + if (opt.def.exits || opt.def.hasArg) && opt.val.Some? then [opt.val.value] else []
    case Library(avOption) => ["-" + avOption.key, avOption.val]
    case NoBool(opt) => ["-" + opt.key]
  }

  function AddOpt(c: Context, opt: Opt): (r: Context)
    ensures opt.def.perFile || opt.def.spec || opt.def.offset ==> r == c.(opts := c.opts + [opt])
    ensures !opt.def.perFile && !opt.def.spec && !opt.def.offset ==> r == c.(globals := c.globals + [opt])
  {
    if IsGlobal(opt.def) then c.(globals := c.globals + [opt]) else c.(opts := c.opts + [opt])
  }

  function FinishGroup(c: Context, g: nat, arg: string): Context {
    if g < |c.groups| then
      Context(c.globals, c.groups[g := c.groups[g] + [Group(arg, c.opts, c.avOptions)]], [], [])
    else c
  }

  function Apply(c: Context, item: Item): (r: Context)
    ensures |r.groups| == |c.groups|
  {
    match item
    case DashDash => c
    case Unnamed(arg) => FinishGroup(c, 0, arg)
    case Named(g, _, arg) => FinishGroup(c, g, arg)
    case Table(opt) => AddOpt(c, opt)
    case Library(avOption) => c.(avOptions := c.avOptions + [avOption])
    case NoBool(opt) => AddOpt(c, opt)
  }

  function EmptyContext(n: nat): Context { Context([], seq(n, _ => []), [], []) }

  /** An item is read from the tokens in front. */
  lemma ReadsTokens(s: Setup, args: seq<string>, protected: bool)
    requires args != [] && ReadItem(s, args, protected).Read?
    ensures Tokens(ReadItem(s, args, protected).item) <= args
    ensures Tokens(ReadItem(s, args, protected).item) != []
  {
    if LooksLikeOption(args[0]) {
      assert args[0] == "-" + args[0][1..];
    }
  }

  function SplitFrom(s: Setup, args: seq<string>, protected: bool, c: Context): Result
    decreases |args|
  {
    if args == [] then Done(c)
    else
      match ReadItem(s, args, protected)
      case Refused(error) => Stopped(error)
      case Read(item) =>
        ReadsTokens(s, args, protected);
        SplitFrom(s, args[|Tokens(item)|..], item.DashDash?, Apply(c, item))
  }

  /** The context a command line (without the program name) splits into. */
  function Split(s: Setup, args: seq<string>): Result {
    SplitFrom(s, args, false, EmptyContext(|s.groups|))
  }

  // ---------- what a name finds ----------

  /** A key names an option: its name alone, or followed by a stream specifier. */
  predicate Names(def: OptionDef, key: string) {
    ':' !in def.name && (key == def.name || def.name + ":" <= key)
  }

  predicate FirstNamed(options: seq<OptionDef>, key: string, i: int) {
    0 <= i < |options| && Names(options[i], key) && forall j :: 0 <= j < i ==> !Names(options[j], key)
  }

  predicate Separates(group: GroupDef, key: string) { group.sep.Some? && group.sep.value == key }

  predicate FirstSeparator(groups: seq<GroupDef>, key: string, i: int) {
    0 <= i < |groups| && Separates(groups[i], key) && forall j :: 0 <= j < i ==> !Separates(groups[j], key)
  }

  lemma {:induction false} StemIs(key: string, def: OptionDef)
    ensures def.name == Stem(key) <==> Names(def, key)
  {
    StemSplits(key);
    var stem := Stem(key);
    if Names(def, key) {
      NameEnds(key, def.name, stem);
    }
  }

  lemma {:induction false} StemSplits(key: string)
    ensures ':' !in Stem(key) && (key == Stem(key) || Stem(key) + ":" <= key)
  {
    if key != "" && key[0] != ':' {
      StemSplits(key[1..]);
      assert key == [key[0]] + key[1..];
    }
  }

  /** Where the first colon stands there is no choice. */
  lemma NameEnds(key: string, a: string, b: string)
    requires ':' !in a && (key == a || a + ":" <= key)
    requires ':' !in b && (key == b || b + ":" <= key)
    ensures a == b
  {
    if |a| < |b| {
      ColonInside(key, a, b);
    } else if |b| < |a| {
      ColonInside(key, b, a);
    }
    assert a == key[..|a|] && b == key[..|b|];
  }

  lemma ColonInside(key: string, a: string, b: string)
    requires a + ":" <= key && b <= key && |a| < |b|
    ensures ':' in b
  {
    assert (a + ":")[|a|] == ':' && key[|a|] == b[|a|];
  }

  /** The lookup finds the first option that is named, and none exactly if none is. */
  lemma {:induction false} FindOptionIs(options: seq<OptionDef>, key: string)
    ensures FindOption(options, key).Some? ==>
              exists i :: FirstNamed(options, key, i) && options[i] == FindOption(options, key).value
    ensures FindOption(options, key).None? ==> forall i :: 0 <= i < |options| ==> !Names(options[i], key)
  {
    if options != [] {
      StemIs(key, options[0]);
      FindOptionIs(options[1..], key);
      if options[0].name == Stem(key) {
        assert FirstNamed(options, key, 0);
      } else if FindOption(options, key).Some? {
        var i :| FirstNamed(options[1..], key, i) && options[1..][i] == FindOption(options[1..], key).value;
        assert options[i + 1] == options[1..][i];
        forall j | 0 <= j < i + 1 ensures !Names(options[j], key) {
          assert j > 0 ==> options[j] == options[1..][j - 1];
        }
        assert FirstNamed(options, key, i + 1);
      } else {
        forall j | 0 <= j < |options| ensures !Names(options[j], key) {
          assert j > 0 ==> options[j] == options[1..][j - 1];
        }
      }
    }
  }

  lemma {:induction false} FindSeparatorIs(groups: seq<GroupDef>, key: string)
    ensures FindSeparator(groups, key).Some? ==> FirstSeparator(groups, key, FindSeparator(groups, key).value)
    ensures FindSeparator(groups, key).None? ==> forall i :: 0 <= i < |groups| ==> !Separates(groups[i], key)
  {
    if groups != [] {
      FindSeparatorIs(groups[1..], key);
      forall j | 0 < j < |groups| ensures groups[j] == groups[1..][j - 1] {
      }
    }
  }

  // ---------- the splitter ----------

  /** The length of a name up to its stream specifier. */
  method StemLength(key: string) returns (len: nat)
    ensures len <= |key| && key[..len] == Stem(key)
  {
    len := 0;
    while len < |key| && key[len] != ':'
      invariant len <= |key| && Stem(key) == key[..len] + Stem(key[len..])
    {
      assert key[..len + 1] == key[..len] + [key[len]];
      assert key[len..][1..] == key[len + 1..];
      len := len + 1;
    }
  }

  method LookUpOption(options: seq<OptionDef>, key: string) returns (def: Option<OptionDef>)
    ensures def == FindOption(options, key)
    ensures match def
            case Some(d) => exists i :: FirstNamed(options, key, i) && options[i] == d
            case None => forall i :: 0 <= i < |options| ==> !Names(options[i], key)
  {
    FindOptionIs(options, key);
    var len := StemLength(key);
    var i := 0;
    while i < |options|
      invariant i <= |options| && FindOption(options, key) == FindOption(options[i..], key)
    {
      if |options[i].name| == len && options[i].name == key[..len] {
        return Some(options[i]);
      }
      assert options[i..][1..] == options[i + 1..];
      i := i + 1;
    }
    def := None;
  }

  method MatchGroupSeparator(groups: seq<GroupDef>, opt: string) returns (r: int)
    ensures r == match FindSeparator(groups, opt) case Some(i) => i case None => -1
    ensures if r >= 0 then FirstSeparator(groups, opt, r)
            else r == -1 && forall i :: 0 <= i < |groups| ==> !Separates(groups[i], opt)
  {
    FindSeparatorIs(groups, opt);
    var i := 0;
    while i < |groups|
      invariant i <= |groups|
      invariant FindSeparator(groups, opt) ==
        match FindSeparator(groups[i..], opt) case Some(k) => Some(k + i) case None => None
    {
      if groups[i].sep.Some? && groups[i].sep.value == opt {
        return i;
      }
      assert groups[i..][1..] == groups[i + 1..];
      i := i + 1;
    }
    r := -1;
  }

  /** The tokens from an index on, which may be one past the end. */
  function From(argv: seq<string>, i: nat): seq<string> { if i <= |argv| then argv[i..] else [] }

  function At(argv: seq<string>, i: nat): Option<string> { if i < |argv| then Some(argv[i]) else None }

  class OptionParseContext {
    var globals: seq<Opt>
    var groups: seq<seq<Group>>
    var opts: seq<Opt>             // of the current group
    var avOptions: seq<AvOption>   // of the current group

    ghost function Contents(): Context
      reads this
    {
      Context(globals, groups, opts, avOptions)
    }

    constructor (n: nat)
      ensures Contents() == EmptyContext(n)
    {
      globals, groups, opts, avOptions := [], seq(n, _ => []), [], [];
    }

    method Finish(g: nat, arg: string)
      requires g < |groups|
      modifies this
      ensures Contents() == FinishGroup(old(Contents()), g, arg)
    {
      groups := groups[g := groups[g] + [Group(arg, opts, avOptions)]];
      opts, avOptions := [], [];
    }

    method Add(opt: OptionDef, key: string, val: Option<string>)
      modifies this
      ensures Contents() == AddOpt(old(Contents()), Opt(opt, key, val))
    {
      var global := !(opt.perFile || opt.spec || opt.offset);
      if global {
        globals := globals + [Opt(opt, key, val)];
      } else {
        opts := opts + [Opt(opt, key, val)];
      }
    }

    /** The part of the loop that handles a token with an option's form;
        `optindex` is the index after it. */
    method SplitOption(s: Setup, argv: seq<string>, opt: string, start: nat)
        returns (optindex: nat, error: Option<Error>)
      requires |groups| == |s.groups| && 1 <= start <= |argv|
      modifies this
      ensures match ReadOption(s, opt, At(argv, start))
              case Refused(e) => error == Some(e)
              case Read(item) =>
                (error == None && Contents() == Apply(old(Contents()), item) &&
                 !item.DashDash? && start <= optindex <= |argv| + 1 &&
                 start - 1 + |Tokens(item)| == if optindex > |argv| then |argv| else optindex)
    {
      optindex, error := start, None;
      var ret := MatchGroupSeparator(s.groups, opt);
      if ret >= 0 {
        var arg := At(argv, optindex);
        optindex := optindex + 1;
        if arg.None? {
          return optindex, Some(MissingArgument);
        }
        Finish(ret, arg.value);
        return;
      }
      var po := LookUpOption(s.options, opt);
      if po.Some? {
        var arg;
        if po.value.exits {
          arg := At(argv, optindex);
          optindex := optindex + 1;
        } else if po.value.hasArg {
          arg := At(argv, optindex);
          optindex := optindex + 1;
          if arg.None? {
            return optindex, Some(MissingArgument);
          }
        } else {
          arg := Some("1");
        }
        Add(po.value, opt, arg);
        return;
      }
      if At(argv, optindex).Some? {
        var r := s.libraries(opt, argv[optindex]);
        if r.Consumed? {
          avOptions := avOptions + [AvOption(opt, argv[optindex])];
          optindex := optindex + 1;
          return;
        } else if !r.Unknown? {
          return optindex, Some(BadAvOption(r.code));
        }
      }
      if |opt| >= 2 && opt[0] == 'n' && opt[1] == 'o' {
        po := LookUpOption(s.options, opt[2..]);
        if po.Some? && po.value.isBool {
          Add(po.value, opt, Some("0"));
          return;
        }
      }
      error := Some(NotFound);
    }

    /** The main loop. */
    method SplitCommandline(s: Setup, argv: seq<string>) returns (error: Option<Error>)
      requires |argv| >= 1 && |s.groups| >= 1 && Contents() == EmptyContext(|s.groups|)
      modifies this
      ensures Split(s, argv[1..]) == match error case None => Done(Contents()) case Some(e) => Stopped(e)
    {
      var optindex: nat, dashdash: int := 1, -2;
      error := None;
      while optindex < |argv|
        invariant dashdash <= optindex <= |argv| + 1 && |groups| == |s.groups| && error == None
        invariant SplitFrom(s, From(argv, optindex), dashdash == optindex, Contents()) == Split(s, argv[1..])
      {
        ghost var rest, protected, before := argv[optindex..], dashdash == optindex, Contents();
        var opt := argv[optindex];
        optindex := optindex + 1;
        assert rest[0] == opt && rest[1..] == argv[optindex..];
        if opt == "--" {
          dashdash := optindex;
          continue;
        }
        if opt == "" || opt[0] != '-' || opt == "-" || dashdash + 1 == optindex {
          Finish(0, opt);
          continue;
        }
        assert At(argv, optindex) == if |rest| > 1 then Some(rest[1]) else None;
        assert ReadItem(s, rest, protected) == ReadOption(s, opt[1..], At(argv, optindex));
        optindex, error := SplitOption(s, argv, opt[1..], optindex);
        if error.Some? {
          assert SplitFrom(s, rest, protected, before) == Stopped(error.value);
          return;
        }
        assert !ReadItem(s, rest, protected).item.DashDash? && dashdash != optindex;
        assert rest[|Tokens(ReadItem(s, rest, protected).item)|..] == From(argv, optindex);
      }
    }
  }
}
