/** How each form of token is read, from the option table, the separators and
    the libraries alone. */
module CommandLineTokens {
  import opened Wrappers
  import opened CommandLine

  predicate IsSeparator(s: Setup, key: string) {
    exists i :: 0 <= i < |s.groups| && CommandLine.Separates(s.groups[i], key)
  }

  predicate InTable(s: Setup, key: string) { exists i :: 0 <= i < |s.options| && Names(s.options[i], key) }

  /** The first option a key names is the only one that is first. */
  lemma FirstIsFound(s: Setup, key: string, i: int)
    requires FirstNamed(s.options, key, i)
    ensures FindOption(s.options, key) == Some(s.options[i])
  {
    FindOptionIs(s.options, key);
    var j :| FirstNamed(s.options, key, j) && s.options[j] == FindOption(s.options, key).value;
    assert i == j;
  }

  lemma NoneIsFound(s: Setup, key: string)
    requires !InTable(s, key)
    ensures FindOption(s.options, key).None?
  {
    FindOptionIs(s.options, key);
    if i :| FirstNamed(s.options, key, i) {
      assert Names(s.options[i], key);
    }
  }

  /** A group separator takes the next token as the group's argument. */
  lemma ReadsSeparator(s: Setup, key: string, next: Option<string>, g: nat)
    requires FirstSeparator(s.groups, key, g)
    ensures ReadOption(s, key, next) ==
            if next.Some? then Read(Named(g, key, next.value)) else Refused(MissingArgument)
  {
    FindSeparatorIs(s.groups, key);
  }

  lemma NoSeparator(s: Setup, key: string)
    requires !IsSeparator(s, key)
    ensures FindSeparator(s.groups, key).None?
  {
    FindSeparatorIs(s.groups, key);
  }

  /** A table option: one that ends the program takes the next token if there is
      one, one with an argument takes the next token, any other counts as 1. */
  lemma ReadsTable(s: Setup, key: string, next: Option<string>, i: int)
    requires !IsSeparator(s, key) && FirstNamed(s.options, key, i)
    ensures var d, r := s.options[i], ReadOption(s, key, next);
      (d.exits ==> r == Read(Table(Opt(d, key, next)))) &&
      (!d.exits && !d.hasArg ==> r == Read(Table(Opt(d, key, Some("1"))))) &&
      (!d.exits && d.hasArg && next.Some? ==> r == Read(Table(Opt(d, key, next)))) &&
      (!d.exits && d.hasArg && next.None? ==> r == Refused(MissingArgument))
  {
    NoSeparator(s, key);
    FirstIsFound(s, key, i);
  }

  /** An option of the libraries takes the next token; an error of theirs stops the split. */
  lemma ReadsLibrary(s: Setup, key: string, next: string)
    requires !IsSeparator(s, key) && !InTable(s, key)
    ensures match s.libraries(key, next)
            case Consumed => ReadOption(s, key, Some(next)) == Read(Library(AvOption(key, next)))
            case Failed(code) => ReadOption(s, key, Some(next)) == Refused(BadAvOption(code))
            case Unknown => true
  {
    NoSeparator(s, key);
    NoneIsFound(s, key);
  }

  /** Any other token is a Boolean option with "no" in front, or refused. */
  lemma ReadsRest(s: Setup, key: string, next: Option<string>)
    requires !IsSeparator(s, key) && !InTable(s, key)
    requires next.Some? ==> s.libraries(key, next.value).Unknown?
    ensures forall name, i :: key == "no" + name && FirstNamed(s.options, name, i) && s.options[i].isBool ==>
              ReadOption(s, key, next) == Read(NoBool(Opt(s.options[i], key, Some("0"))))
    ensures (forall name, i :: key == "no" + name && FirstNamed(s.options, name, i) ==> !s.options[i].isBool) ==>
              ReadOption(s, key, next) == Refused(NotFound)
  {
    NoSeparator(s, key);
    NoneIsFound(s, key);
    forall name, i | key == "no" + name && FirstNamed(s.options, name, i)
      ensures FindOption(s.options, name) == Some(s.options[i]) && key[2..] == name
    {
      FirstIsFound(s, name, i);
    }
    if |key| >= 2 && key[..2] == "no" {
      var name := key[2..];
      assert key == "no" + name;
      FindOptionIs(s.options, name);
    }
  }

  /** `-name:spec argument` is the table option of that name, whatever the specifier. */
  lemma SpecifierIsRead(s: Setup, i: nat, spec: string, argument: string, more: seq<string>)
    requires i < |s.options| && ':' !in s.options[i].name && s.options[i].name != ""
    requires forall j :: 0 <= j < i ==> s.options[j].name != s.options[i].name
    requires s.options[i].hasArg && !s.options[i].exits && !IsSeparator(s, s.options[i].name + ":" + spec)
    ensures var key := s.options[i].name + ":" + spec;
      ReadItem(s, ["-" + key, argument] + more, false) == Read(Table(Opt(s.options[i], key, Some(argument))))
  {
    var name := s.options[i].name;
    var key := name + ":" + spec;
    assert name + ":" <= key;
    forall j | 0 <= j < i ensures !Names(s.options[j], key) {
      if Names(s.options[j], key) {
        NameEnds(key, s.options[j].name, name);
      }
    }
    assert FirstNamed(s.options, key, i);
    ReadsTable(s, key, Some(argument), i);
    var args := ["-" + key, argument] + more;
    assert args[0] == "-" + key && args[0][1..] == key && args[1] == argument;
    assert args[0][1] == name[0];
    NotDashDash(key);
  }

  lemma NotDashDash(key: string)
    requires |key| >= 2
    ensures "-" + key != "--"
  {
    assert |"-" + key| > 2;
  }

  /** A token of an option's form that is not protected is read by its name and the next token. */
  lemma ReadsOption(s: Setup, key: string, more: seq<string>)
    requires key != "" && key != "-"
    ensures ReadItem(s, ["-" + key] + more, false) ==
            ReadOption(s, key, if more == [] then None else Some(more[0]))
  {
    var args := ["-" + key] + more;
    assert args[0] == "-" + key && args[0][1..] == key && args[0][1] == key[0];
    assert more != [] ==> args[1] == more[0];
  }

  /** Tokens without an option's form, and the token after "--", end a group. */
  lemma ReadsUnnamed(s: Setup, args: seq<string>, protected: bool)
    requires args != [] && args[0] != "--" && (protected || |args[0]| < 2 || args[0][0] != '-')
    ensures ReadItem(s, args, protected) == Read(Unnamed(args[0]))
  {
  }
}
