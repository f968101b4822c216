/** What a tag makes of its argument and of the sections before it. */
module ConfigNames {
  import opened ConfigLists
  import opened Wrappers

  /** The name is what stands before the last '>', or all if there is none. */
  lemma {:induction false} NameIs(arg: string)
    ensures '>' !in arg ==> NameOf(arg) == arg
    ensures '>' in arg ==> exists rest: string :: arg == NameOf(arg) + ">" + rest && '>' !in rest
  {
    if arg != "" {
      var front, last := arg[..|arg| - 1], arg[|arg| - 1];
      assert arg == front + [last];
      if last == '>' {
        assert arg == NameOf(arg) + ">" + "" && '>' !in "";
      } else if '>' in arg {
        NameIs(front);
        var rest: string :| front == NameOf(front) + ">" + rest && '>' !in rest;
        assert arg == NameOf(arg) + ">" + (rest + [last]) && '>' !in rest + [last];
      }
    }
  }

  lemma BracketInRest(a: string, afterA: string, b: string, afterB: string)
    requires a + ">" + afterA == b + ">" + afterB && |a| > |b|
    ensures '>' in afterB
  {
    assert (a + ">" + afterA)[|a|] == '>';
    assert (b + ">" + afterB)[|a|] == afterB[|a| - |b| - 1];
  }

  /** What stands before a last '>' is the name. */
  lemma CutName(name: string, rest: string)
    requires '>' !in rest
    ensures NameOf(name + ">" + rest) == name
  {
    var arg := name + ">" + rest;
    NameIs(arg);
    var other: string :| arg == NameOf(arg) + ">" + other && '>' !in other;
    if |NameOf(arg)| < |name| {
      BracketInRest(name, rest, NameOf(arg), other);
    } else if |NameOf(arg)| > |name| {
      BracketInRest(NameOf(arg), other, name, rest);
    }
    assert NameOf(arg) == arg[..|NameOf(arg)|] && name == arg[..|name|];
  }

  /** A feed is its own feed and has a file of its name; the others start with neither. */
  lemma NewSectionIs(name: string)
    ensures NewInfo(Feed, name) == Info(Feed, name, Some(name), "/tmp/" + name + ".ffm")
    ensures NewInfo(Stream, name) == Info(Stream, name, None, "")
    ensures NewInfo(Redirect, name) == Info(Redirect, name, None, "")
  {
  }

  /** Some section from the first feed on has the name. */
  ghost predicate TakenAfterFeed(sections: seq<Info>, name: string) {
    exists f, i :: FeedThen(sections, f, i, name)
  }

  ghost predicate FeedThen(sections: seq<Info>, f: int, i: int, name: string) {
    0 <= f <= i < |sections| && sections[f].kind == Feed && sections[i].filename == name
  }

  lemma {:induction false} CountIs(sections: seq<Info>, name: string)
    ensures Count(sections, name) > 0 <==> exists i :: 0 <= i < |sections| && sections[i].filename == name
  {
    if sections != [] {
      CountIs(sections[1..], name);
      if i :| 0 <= i < |sections| && sections[i].filename == name && i > 0 {
        assert sections[1..][i - 1] == sections[i];
      }
      if i :| 0 <= i < |sections[1..]| && sections[1..][i].filename == name {
        assert sections[i + 1] == sections[1..][i];
      }
    }
  }

  lemma {:induction false} FromFirstFeedIs(sections: seq<Info>, name: string)
    ensures (exists i :: 0 <= i < |FromFirstFeed(sections)| && FromFirstFeed(sections)[i].filename == name) <==>
            TakenAfterFeed(sections, name)
  {
    if sections != [] {
      FromFirstFeedIs(sections[1..], name);
      if sections[0].kind == Feed {
        assert FromFirstFeed(sections) == sections;
        if i :| 0 <= i < |sections| && sections[i].filename == name {
          assert FeedThen(sections, 0, i, name);
        }
        if f, i :| FeedThen(sections, f, i, name) {
          assert sections[i].filename == name;
        }
      } else {
        assert FromFirstFeed(sections) == FromFirstFeed(sections[1..]);
        assert TakenAfterFeed(sections[1..], name) ==> exists f, i :: FeedThen(sections[1..], f, i, name);
        if f, i :| FeedThen(sections, f, i, name) {
          assert FeedThen(sections[1..], f - 1, i - 1, name);
        }
        if f, i :| FeedThen(sections[1..], f, i, name) {
          assert FeedThen(sections, f + 1, i + 1, name);
        }
      }
    }
  }

  lemma StepOpens(p: Parse, k: Kind, line: Line)
    requires p.open.None? && line.Directive? && line.word == Opening(k)
    ensures Step(p, line) == OpenLine(p, k, line)
  {
  }

  /** A new name is refused exactly if it is taken: by any section, for a stream, by one
      from the first feed on, for a feed; a redirect may have any. */
  lemma TakenIff(p: Parse, k: Kind, arg: string, errors: nat)
    requires p.open.None? && p.failed.None? && (k != Stream ==> '>' in arg)
    ensures var p', name := Step(p, Directive(Opening(k), arg, errors, false)), NameOf(arg);
      p'.open == Some(k) && p'.failed.None? && p'.sections == p.sections + [NewInfo(k, name)] &&
      (p'.errors > p.errors <==>
         match k
         case Stream => exists i :: 0 <= i < |p.sections| && p.sections[i].filename == name
         case Feed => TakenAfterFeed(p.sections, name)
         case Redirect => false)
  {
    hide NewInfo, NameOf, Count, FromFirstFeed;
    CountIs(Rivals(p.sections, k), NameOf(arg));
    FromFirstFeedIs(p.sections, NameOf(arg));
    StepOpens(p, k, Directive(Opening(k), arg, errors, false));
    match k {
      case Feed =>
      case Stream =>
      case Redirect =>
    }
  }

  /** Directives that set a file or a target: the last one counts, and only the own kind of each section. */
  lemma FileIsSet(p: Parse, k: Kind, arg: string, errors: nat, fatal: bool)
    requires p.open == Some(k) && p.failed.None? && p.sections != []
    ensures var last := p.sections[|p.sections| - 1];
      var set_ := p.(sections := p.sections[..|p.sections| - 1] + [last.(feedFilename := arg)]);
      (k != Redirect ==> Step(p, Directive(File, arg, errors, fatal)) == set_) &&
      (k == Redirect ==> Step(p, Directive(Url, arg, errors, fatal)) == set_ &&
                         Step(p, Directive(File, arg, errors, fatal)) == p.(errors := p.errors + 1))
  {
  }

  /** Every duplicate is one error. */
  lemma {:induction false} CountAppend(sections: seq<Info>, s: Info, name: string)
    ensures Count([], name) == 0
    ensures Count([s] + sections, name) == Count(sections, name) + if s.filename == name then 1 else 0
  {
    assert ([s] + sections)[1..] == sections;
  }

  /** A tag in the wrong place, a directive a redirect does not know, a missing target
      and an unknown feed are one error each. */
  lemma MisplacedIsOneError(p: Parse, line: Line)
    requires p.failed.None? && line.Directive? && (p.open.Some? ==> p.sections != [])
    ensures p.open.Some? && (line.word.Opening? || (line.word.Closing? && p.open != Some(line.word.kind))) ==>
              Step(p, line) == p.(errors := p.errors + 1)
    ensures p.open.None? && line.word.Closing? ==> Step(p, line) == p.(errors := p.errors + 1)
    ensures p.open == Some(Redirect) && line.word in {FeedWord, File, Other} ==>
              Step(p, line) == p.(errors := p.errors + 1)
    ensures p.open == Some(Redirect) && line.word == Closing(Redirect) ==>
              Step(p, line).errors == p.errors + if p.sections[|p.sections| - 1].feedFilename == "" then 1 else 0
    ensures p.open == Some(Feed) && line.word == Closing(Feed) ==> Step(p, line) == p.(open := None)
    ensures p.open == Some(Stream) && line.word == FeedWord &&
            (forall i :: 0 <= i < |p.sections| && p.sections[i].kind == Feed ==> p.sections[i].filename != line.arg) ==>
              Step(p, line) == p.(errors := p.errors + 1)
  {
    hide Count, Rivals, NewInfo, NameOf, UpdateLast;
    match p.open {
      case None =>
      case Some(k) =>
        match k {
          case Feed =>
          case Stream =>
          case Redirect =>
        }
    }
  }

  /** The verdict: failures before all else, then errors and an open tag. */
  lemma VerdictIs(p: Parse)
    ensures VerdictOf(p) == Good <==> p.failed.None? && p.errors == 0 && p.open.None?
    ensures VerdictOf(p) == Crashed <==> p.failed == Some(NullPointer)
    ensures VerdictOf(p) == OutOfMemory <==> p.failed == Some(NoMemory)
  {
  }
}
