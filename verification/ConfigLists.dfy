/** The section structure of ffserver's configuration file: feeds, streams and
    redirects are opened and closed by tags and kept in two linked lists that
    run through the same nodes. */
module ConfigLists {
  import opened Wrappers

  datatype Kind = Feed | Stream | Redirect

  /** The first word of a line, compared with the keywords without regard to case. */
  datatype Word = Opening(kind: Kind) | Closing(kind: Kind) | Url | FeedWord | File | Other

  /** A line of the file: its first word and argument, how many errors the
      handling of another directive reports, and whether it runs out of memory. */
  datatype Line = Blank | Directive(word: Word, arg: string, errors: nat, fatal: bool)

  /** The directive that sets a section's file name or URL. */
  function FileWord(k: Kind): Word { if k == Redirect then Url else File }

  /** The name of a section: the argument up to its last '>'. */
  function NameOf(arg: string): string {
    if arg == "" then "" else if arg[|arg| - 1] == '>' then arg[..|arg| - 1]
    else if '>' in arg then NameOf(arg[..|arg| - 1]) else arg
  }

  // ---------- what each line does ----------

  /** A section: its kind and name, the feed it reads, its file name or target. */
  datatype Info = Info(kind: Kind, filename: string, feed: Option<string>, feedFilename: string)

  /** What ends the reading before the end of the file: running out of memory,
      or following the null pointer that the search for a missing '>' returns. */
  datatype Failure = NoMemory | NullPointer

  /** Sections in file order; while one is open it is the last. */
  datatype Parse = Parse(sections: seq<Info>, open: Option<Kind>, errors: nat, failed: Option<Failure>)

  const NOTHING := Parse([], None, 0, None)

  function FatalIf(fatal: bool): Option<Failure> { if fatal then Some(NoMemory) else None }

  /** A stream's tag may come without its '>', the other two may not. */
  predicate Unbracketed(k: Kind, arg: string) { k != Stream && '>' !in arg }

  function DefaultFile(k: Kind, name: string): string { if k == Feed then "/tmp/" + name + ".ffm" else "" }

  function NewInfo(k: Kind, name: string): Info {
    Info(k, name, if k == Feed then Some(name) else None, DefaultFile(k, name))
  }

  function Count(sections: seq<Info>, name: string): nat {
    if sections == [] then 0 else (if sections[0].filename == name then 1 else 0) + Count(sections[1..], name)
  }

  /** The sections from the first feed on. */
  function FromFirstFeed(sections: seq<Info>): seq<Info> {
    if sections == [] || sections[0].kind == Feed then sections else FromFirstFeed(sections[1..])
  }

  /** The sections whose names a new one must avoid. */
  function Rivals(sections: seq<Info>, k: Kind): seq<Info> {
    match k case Feed => FromFirstFeed(sections) case Stream => sections case Redirect => []
  }

  predicate HasFeed(sections: seq<Info>, name: string) {
    exists i :: 0 <= i < |sections| && sections[i].kind == Feed && sections[i].filename == name
  }

  function OpenLine(p: Parse, k: Kind, line: Line): Parse
    requires line.Directive?
  {
    if p.open.Some? then p.(errors := p.errors + 1)
    else if line.fatal then p.(failed := Some(NoMemory))
    else if Unbracketed(k, line.arg) then p.(failed := Some(NullPointer))
    else
      var name := NameOf(line.arg);
      p.(sections := p.sections + [NewInfo(k, name)], open := Some(k),
         errors := p.errors + Count(Rivals(p.sections, k), name))
  }

  function UpdateLast(sections: seq<Info>, info: Info): (r: seq<Info>)
    requires sections != []
    ensures |r| == |sections|
  {
    sections[..|sections| - 1] + [info]
  }

  /** A line inside an open section. */
  function InsideLine(p: Parse, k: Kind, line: Line): Parse
    requires line.Directive? && p.sections != []
  {
    var last := p.sections[|p.sections| - 1];
    if line.word == Closing(k) then
      p.(open := None,
         errors := p.errors + (match k case Feed => 0 case Stream => line.errors
                               case Redirect => if last.feedFilename == "" then 1 else 0))
    else if line.word.Opening? || line.word.Closing? then p.(errors := p.errors + 1)
    else if line.word == FileWord(k) then
      p.(sections := UpdateLast(p.sections, last.(feedFilename := line.arg)))
    else if k == Redirect then p.(errors := p.errors + 1)
    else if k == Stream && line.word == FeedWord then
      if HasFeed(p.sections, line.arg) then
        p.(sections := UpdateLast(p.sections, last.(feed := Some(line.arg))))
      else p.(errors := p.errors + 1)
    else p.(errors := p.errors + line.errors, failed := FatalIf(line.fatal))
  }

  function Step(p: Parse, line: Line): (r: Parse)
    requires p.open.Some? ==> p.sections != []
    ensures r.open.Some? ==> r.sections != []
    ensures r.errors >= p.errors
  {
    if line.Blank? then p
    else if line.word == Opening(Feed) then OpenLine(p, Feed, line)
    else if p.open == Some(Feed) then InsideLine(p, Feed, line)
    else if line.word == Opening(Stream) then OpenLine(p, Stream, line)
    else if p.open == Some(Stream) then InsideLine(p, Stream, line)
    else if line.word == Opening(Redirect) then OpenLine(p, Redirect, line)
    else if p.open == Some(Redirect) then InsideLine(p, Redirect, line)
    else p.(errors := p.errors + if line.word.Closing? then 1 else line.errors)
  }

  /** Reading the lines in turn, up to a failure. */
  function ParseLines(p: Parse, lines: seq<Line>): (r: Parse)
    requires p.open.Some? ==> p.sections != []
    ensures r.open.Some? ==> r.sections != []
    ensures r.errors >= p.errors
    decreases |lines|
  {
    if lines == [] || p.failed.Some? then p else ParseLines(Step(p, lines[0]), lines[1..])
  }

  datatype Verdict = Good | Invalid | OutOfMemory | Crashed

  function VerdictOf(p: Parse): Verdict {
    match p.failed
    case Some(NoMemory) => OutOfMemory
    case Some(NullPointer) => Crashed
    case None => if p.errors > 0 || p.open.Some? then Invalid else Good
  }

  // ---------- the two lists ----------

  class Section {
    const kind: Kind
    const filename: string
    var feed: Section?
    var feedFilename: string
    var next: Section?
    var nextFeed: Section?
    ghost const place: nat       // its place among the sections
    ghost const feedPlace: nat   // and, for a feed, among the feeds

    constructor (kind: Kind, filename: string, ghost place: nat, ghost feedPlace: nat)
      ensures this.kind == kind && this.filename == filename
      ensures this.place == place && this.feedPlace == feedPlace
      ensures feed == (if kind == Feed then this else null) && feedFilename == DefaultFile(kind, filename)
      ensures next == null && nextFeed == null
    {
      this.kind, this.filename, this.place, this.feedPlace := kind, filename, place, feedPlace;
      next, nextFeed := null, null;
      feedFilename := DefaultFile(kind, filename);
      feed := null;
      new;
      if kind == Feed {
        feed := this;
      }
    }
  }

  /** The `next` links run through exactly these sections, in this order. */
  ghost predicate Chain(all: seq<Section>)
    reads all`next
  {
    (forall i {:trigger all[i].next} :: 0 <= i < |all| - 1 ==> all[i].next == all[i + 1]) &&
    (all != [] ==> all[|all| - 1].next == null) &&
    forall i {:trigger all[i].place} :: 0 <= i < |all| ==> all[i].place == i
  }

  /** The `nextFeed` links run through exactly these feeds, in this order. */
  ghost predicate FeedChain(feeds: seq<Section>)
    reads feeds`nextFeed
  {
    (forall i {:trigger feeds[i].nextFeed} :: 0 <= i < |feeds| - 1 ==> feeds[i].nextFeed == feeds[i + 1]) &&
    (feeds != [] ==> feeds[|feeds| - 1].nextFeed == null) &&
    forall i {:trigger feeds[i].feedPlace} :: 0 <= i < |feeds| ==> feeds[i].feedPlace == i
  }

  ghost function FeedsOf(all: seq<Section>): seq<Section> {
    if all == [] then [] else (if all[0].kind == Feed then [all[0]] else []) + FeedsOf(all[1..])
  }

  lemma {:induction false} FeedsOfMembers(all: seq<Section>)
    ensures forall i :: 0 <= i < |FeedsOf(all)| ==> FeedsOf(all)[i] in all && FeedsOf(all)[i].kind == Feed
    ensures forall s <- all :: s.kind == Feed ==> s in FeedsOf(all)
  {
    if all != [] {
      FeedsOfMembers(all[1..]);
      assert all == [all[0]] + all[1..];
    }
  }

  ghost function FeedName(feed: Section?): Option<string> { if feed == null then None else Some(feed.filename) }

  /** The sections hold exactly this data. */
  ghost predicate Hold(all: seq<Section>, data: seq<Info>)
    reads all`feed, all`feedFilename
  {
    |data| == |all| &&
    forall i {:trigger data[i]} :: 0 <= i < |all| ==>
      data[i] == Info(all[i].kind, all[i].filename, FeedName(all[i].feed), all[i].feedFilename)
  }

  lemma {:induction false} FeedsOfAppend(all: seq<Section>, s: Section)
    ensures FeedsOf(all + [s]) == FeedsOf(all) + if s.kind == Feed then [s] else []
  {
    if all == [] {
      assert FeedsOf([]) == [];
    } else {
      FeedsOfAppend(all[1..], s);
      assert (all + [s])[1..] == all[1..] + [s];
      var h, t := if all[0].kind == Feed then [all[0]] else [], FeedsOf(all[1..]);
      var l := if s.kind == Feed then [s] else [];
      assert h + (t + l) == (h + t) + l;
    }
  }

  /** The first feed of the file is the first of the feeds. */
  lemma {:induction false} FirstFeedAt(all: seq<Section>, data: seq<Info>) returns (i: nat)
    requires |data| == |all| && forall i :: 0 <= i < |all| ==> data[i].kind == all[i].kind
    ensures i <= |all| && FromFirstFeed(data) == data[i..]
    ensures FeedsOf(all) == [] <==> i == |all|
    ensures i < |all| ==> FeedsOf(all)[0] == all[i]
  {
    if all == [] || all[0].kind == Feed {
      i := 0;
    } else {
      var j := FirstFeedAt(all[1..], data[1..]);
      i := j + 1;
      assert data[1..][j..] == data[i..];
    }
  }

  /** The two list heads and their tails. */
  class SectionLists {
    var firstFeed: Section?
    var firstStream: Section?
    var lastFeed: Section?     // where the next feed is linked, at the head if null
    var lastStream: Section?   // where the next section is linked, at the head if null
    ghost var all: seq<Section>
    ghost var feeds: seq<Section>
    ghost var data: seq<Info>

    /** The list of all sections. */
    ghost predicate SectionList()
      reads this`all, this`firstStream, this`lastStream, all`next
    {
      Chain(all) &&
      firstStream == (if all == [] then null else all[0]) &&
      lastStream == (if all == [] then null else all[|all| - 1])
    }

    /** The list of the feeds among them, in the same order. */
    ghost predicate FeedList()
      reads this`all, this`feeds, this`firstFeed, this`lastFeed, feeds`nextFeed
    {
      FeedChain(feeds) && feeds == FeedsOf(all) &&
      firstFeed == (if feeds == [] then null else feeds[0]) &&
      lastFeed == (if feeds == [] then null else feeds[|feeds| - 1])
    }

    ghost predicate Holds()
      reads this`all, this`data, all`feed, all`feedFilename
    {
      Hold(all, data)
    }

    ghost predicate Valid()
      reads this, all, feeds
    {
      SectionList() && FeedList() && Holds()
    }

    constructor ()
      ensures Valid() && all == [] && data == []
    {
      firstFeed, firstStream, lastFeed, lastStream := null, null, null, null;
      all, feeds, data := [], [], [];
    }

    /** The loop over `next` links that looks for a name, from the i-th section on. */
    method CountNamed(start: Section?, ghost i: nat, name: string) returns (n: nat)
      requires Chain(all) && Holds() && i <= |all| && start == if i < |all| then all[i] else null
      ensures n == Count(data[i..], name)
    {
      n := 0;
      var s := start;
      ghost var j := i;
      while s != null
        invariant i <= j <= |all| && s == if j < |all| then all[j] else null
        invariant n + Count(data[j..], name) == Count(data[i..], name)
        decreases |all| - j
      {
        if s.filename == name {
          n := n + 1;
        }
        assert data[j..][1..] == data[j + 1..];
        s, j := s.next, j + 1;
      }
    }

    /** How many sections already have the name a new one is given. */
    method CountRivals(k: Kind, name: string) returns (n: nat)
      requires Valid()
      ensures n == Count(Rivals(data, k), name)
    {
      n := 0;
      if k == Feed {
        ghost var i := FirstFeedAt(all, data);
        n := CountNamed(firstFeed, i, name);
      } else if k == Stream {
        assert data[0..] == data;
        n := CountNamed(firstStream, 0, name);
      }
    }

    /** The loop over `nextFeed` links that looks for a feed. */
    method FindFeed(name: string) returns (found: Section?)
      requires Valid()
      ensures found != null <==> HasFeed(data, name)
      ensures found != null ==> found.filename == name
    {
      FeedsOfMembers(all);
      found := firstFeed;
      ghost var j := 0;
      while found != null && found.filename != name
        invariant j <= |feeds| && found == if j < |feeds| then feeds[j] else null
        invariant forall k :: 0 <= k < j ==> feeds[k].filename != name
        decreases |feeds| - j
      {
        found, j := found.nextFeed, j + 1;
      }
      if found != null {
        assert found in feeds;
        ghost var k :| 0 <= k < |all| && all[k] == found;
        assert data[k].kind == Feed;
      } else {
        forall k | 0 <= k < |all| && all[k].kind == Feed ensures all[k].filename != name {
          assert all[k] in feeds;
        }
      }
    }

    /** Links a new section at the end of the list. */
    method LinkSection(s: Section)
      requires SectionList() && s.place == |all| && s.next == null
      modifies this`firstStream, this`lastStream, this`all, all`next
      ensures SectionList() && all == old(all) + [s]
    {
      if lastStream == null {
        firstStream := s;
      } else {
        lastStream.next := s;
      }
      lastStream := s;
      all := all + [s];
    }

    /** Links the section just added at the end of the feeds if it is one. */
    method LinkFeed(s: Section)
      requires all != [] && s == all[|all| - 1] && s.feedPlace == |feeds| && s.nextFeed == null
      requires FeedChain(feeds) && feeds == FeedsOf(all[..|all| - 1])
      requires firstFeed == (if feeds == [] then null else feeds[0])
      requires lastFeed == (if feeds == [] then null else feeds[|feeds| - 1])
      modifies this`firstFeed, this`lastFeed, this`feeds, feeds`nextFeed
      ensures FeedList() && feeds == old(feeds) + if s.kind == Feed then [s] else []
    {
      FeedsOfAppend(all[..|all| - 1], s);
      assert all == all[..|all| - 1] + [s];
      if s.kind == Feed {
        if lastFeed == null {
          firstFeed := s;
        } else {
          lastFeed.nextFeed := s;
        }
        lastFeed := s;
        feeds := feeds + [s];
      }
    }

    /** Links a new section into the list, and a feed into both. */
    method Link(s: Section)
      requires SectionList() && FeedList() && s.next == null && s.nextFeed == null
      requires s.place == |all| && s.feedPlace == |feeds|
      modifies this`firstStream, this`lastStream, this`firstFeed, this`lastFeed, this`all, this`feeds,
               all`next, feeds`nextFeed
      ensures SectionList() && FeedList() && all == old(all) + [s]
      ensures feeds == old(feeds) + if s.kind == Feed then [s] else []
    {
      LinkSection(s);
      assert all[..|all| - 1] == old(all);
      LinkFeed(s);
    }

    /** Sets the file name of the last section. */
    method SetFilename(s: Section, name: string)
      requires Valid() && all != [] && s == all[|all| - 1]
      modifies s`feedFilename, this`data
      ensures Valid() && data == UpdateLast(old(data), old(data)[|all| - 1].(feedFilename := name))
    {
      s.feedFilename := name;
      data := UpdateLast(data, data[|all| - 1].(feedFilename := name));
    }

    /** Sets the feed of the last section. */
    method SetFeed(s: Section, f: Section)
      requires Valid() && all != [] && s == all[|all| - 1]
      modifies s`feed, this`data
      ensures Valid() && data == UpdateLast(old(data), old(data)[|all| - 1].(feed := Some(f.filename)))
    {
      s.feed := f;
      data := UpdateLast(data, data[|all| - 1].(feed := Some(f.filename)));
    }

    /** Records the section just linked. */
    method Record(s: Section)
      requires all != [] && s == all[|all| - 1] && Hold(all[..|all| - 1], data)
      requires s.feed == (if s.kind == Feed then s else null) && s.feedFilename == DefaultFile(s.kind, s.filename)
      modifies this`data
      ensures Holds() && data == old(data) + [NewInfo(s.kind, s.filename)]
    {
      data := data + [NewInfo(s.kind, s.filename)];
    }

    /** Links and records a new section. */
    method Join(s: Section)
      requires Valid() && s.next == null && s.nextFeed == null && s.place == |all| && s.feedPlace == |feeds|
      requires s.feed == (if s.kind == Feed then s else null) && s.feedFilename == DefaultFile(s.kind, s.filename)
      modifies this, all`next, feeds`nextFeed
      ensures Valid() && all == old(all) + [s] && data == old(data) + [NewInfo(s.kind, s.filename)]
      ensures feeds == old(feeds) + if s.kind == Feed then [s] else []
    {
      Link(s);
      assert all[..|all| - 1] == old(all);
      Record(s);
    }

    /** A new section, compared with its rivals and linked. */
    method Add(k: Kind, name: string) returns (s: Section, n: nat)
      requires Valid()
      modifies this, all`next, feeds`nextFeed
      ensures Valid() && s.kind == k && fresh(s)
      ensures all == old(all) + [s] && data == old(data) + [NewInfo(k, name)] && Grown(old(all), old(feeds))
      ensures n == Count(Rivals(old(data), k), name)
    {
      hide Count, Rivals, NewInfo;
      n := CountRivals(k, name);
      s := new Section(k, name, |all|, |feeds|);
      Join(s);
    }

    /** The lists hold no sections but these and new ones. */
    twostate predicate Grown(were: seq<Section>, wereFeeds: seq<Section>)
      reads this`all, this`feeds
    {
      (forall i :: 0 <= i < |all| ==> all[i] in were || fresh(all[i])) &&
      forall i :: 0 <= i < |feeds| ==> feeds[i] in wereFeeds || fresh(feeds[i])
    }
  }

  class Config {
    const lists: SectionLists
    var errors: nat
    var feed: Section?
    var stream: Section?
    var redirect: Section?
    var failed: Option<Failure>

    ghost function OpenSection(): Section?
      reads this
    {
      if feed != null then feed else if stream != null then stream else redirect
    }

    /** At most one section is open, and it is the last of the list. */
    ghost predicate OneOpen()
      reads this, lists
    {
      (feed != null ==> stream == null && redirect == null && feed.kind == Feed) &&
      (stream != null ==> feed == null && redirect == null && stream.kind == Stream) &&
      (redirect != null ==> feed == null && stream == null && redirect.kind == Redirect) &&
      (OpenSection() != null ==> lists.all != [] && OpenSection() == lists.all[|lists.all| - 1])
    }

    ghost predicate Valid()
      reads this, lists, lists.all, lists.feeds
    {
      lists.Valid() && OneOpen()
    }

    ghost function OpenKind(): Option<Kind>
      reads this
    {
      if feed != null then Some(Feed) else if stream != null then Some(Stream)
      else if redirect != null then Some(Redirect) else None
    }

    ghost function Contents(): Parse
      reads this, lists
    {
      Parse(lists.data, OpenKind(), errors, failed)
    }

    constructor ()
      ensures Valid() && Contents() == NOTHING && fresh(lists)
    {
      lists := new SectionLists();
      feed, stream, redirect := null, null, null;
      errors, failed := 0, None;
    }

    /** The opening parts of the three section parsers and the linking after them. */
    method OpenFeed(line: Line)
      requires Valid() && line.Directive? && !line.fatal && OpenSection() == null
      modifies this, lists, lists.all`next, lists.feeds`nextFeed
      ensures Valid() && Contents() == OpenLine(old(Contents()), Feed, line)
      ensures lists.Grown(old(lists.all), old(lists.feeds))
    {
      hide Count, Rivals, NewInfo, NameOf;
      if '>' !in line.arg {
        failed := Some(NullPointer);
        return;
      }
      var s, n := lists.Add(Feed, NameOf(line.arg));
      feed, errors := s, errors + n;
    }

    method OpenStream(line: Line)
      requires Valid() && line.Directive? && !line.fatal && OpenSection() == null
      modifies this, lists, lists.all`next, lists.feeds`nextFeed
      ensures Valid() && Contents() == OpenLine(old(Contents()), Stream, line)
      ensures lists.Grown(old(lists.all), old(lists.feeds))
    {
      hide Count, Rivals, NewInfo, NameOf;
      var s, n := lists.Add(Stream, NameOf(line.arg));
      stream, errors := s, errors + n;
    }

    method OpenRedirect(line: Line)
      requires Valid() && line.Directive? && !line.fatal && OpenSection() == null
      modifies this, lists, lists.all`next, lists.feeds`nextFeed
      ensures Valid() && Contents() == OpenLine(old(Contents()), Redirect, line)
      ensures lists.Grown(old(lists.all), old(lists.feeds))
    {
      hide Count, Rivals, NewInfo, NameOf;
      if '>' !in line.arg {
        failed := Some(NullPointer);
        return;
      }
      var s, n := lists.Add(Redirect, NameOf(line.arg));
      redirect, errors := s, errors + n;
    }

    /** A directive inside an open feed. */
    method InsideFeed(line: Line)
      requires Valid() && line.Directive? && failed.None? && feed != null && line.word != Opening(Feed)
      modifies this, lists`data, feed`feedFilename
      ensures Valid() && Contents() == InsideLine(old(Contents()), Feed, line)
      ensures lists.all == old(lists.all)
    {
      if line.word == File {
        lists.SetFilename(feed, line.arg);
      } else if line.word == Closing(Feed) {
        feed := null;
      } else if line.word.Opening? || line.word.Closing? {
        errors := errors + 1;
      } else {
        errors, failed := errors + line.errors, FatalIf(line.fatal);
      }
    }

    /** The feed directive of a stream. */
    method FeedOfStream(name: string)
      requires Valid() && stream != null
      modifies this`errors, lists`data, stream`feed
      ensures Valid() && lists.all == old(lists.all)
      ensures var was := old(Contents());
              Contents() == if HasFeed(was.sections, name)
                then was.(sections := UpdateLast(was.sections, was.sections[|was.sections| - 1].(feed := Some(name))))
                else was.(errors := was.errors + 1)
    {
      var sfeed := lists.FindFeed(name);
      if sfeed == null {
        errors := errors + 1;
      } else {
        lists.SetFeed(stream, sfeed);
      }
    }

    /** A directive inside an open stream. */
    method InsideStream(line: Line)
      requires Valid() && line.Directive? && failed.None? && stream != null
      requires line.word != Opening(Feed) && line.word != Opening(Stream)
      modifies this, lists`data, stream`feedFilename, stream`feed
      ensures Valid() && Contents() == InsideLine(old(Contents()), Stream, line)
      ensures lists.all == old(lists.all)
    {
      if line.word == FeedWord {
        FeedOfStream(line.arg);
      } else if line.word == File {
        lists.SetFilename(stream, line.arg);
      } else if line.word == Closing(Stream) {
        errors, stream := errors + line.errors, null;
      } else if line.word.Opening? || line.word.Closing? {
        errors := errors + 1;
      } else {
        errors, failed := errors + line.errors, FatalIf(line.fatal);
      }
    }

    /** A directive inside an open redirect. */
    method InsideRedirect(line: Line)
      requires Valid() && line.Directive? && failed.None? && redirect != null && !line.word.Opening?
      modifies this, lists`data, redirect`feedFilename
      ensures Valid() && Contents() == InsideLine(old(Contents()), Redirect, line)
      ensures lists.all == old(lists.all)
    {
      if line.word == Url {
        lists.SetFilename(redirect, line.arg);
      } else if line.word == Closing(Redirect) {
        if redirect.feedFilename == "" {
          errors := errors + 1;
        }
        redirect := null;
      } else {
        errors := errors + 1;
      }
    }

    /** The three branches for lines that belong to a section. */
    method FeedLine(line: Line)
      requires Valid() && line.Directive? && failed.None? && (line.word == Opening(Feed) || feed != null)
      modifies this, lists, lists.all, lists.feeds
      ensures Valid() && Contents() == Step(old(Contents()), line)
      ensures lists.Grown(old(lists.all), old(lists.feeds))
    {
      var opening := line.word == Opening(Feed);
      if opening && (stream != null || feed != null || redirect != null) {
        errors := errors + 1;
      } else if opening && line.fatal {
        failed := Some(NoMemory);
      } else if opening {
        OpenFeed(line);
      } else {
        InsideFeed(line);
      }
    }

    method StreamLine(line: Line)
      requires Valid() && line.Directive? && failed.None? && (line.word == Opening(Stream) || stream != null)
      requires feed == null && line.word != Opening(Feed)
      modifies this, lists, lists.all, lists.feeds
      ensures Valid() && Contents() == Step(old(Contents()), line)
      ensures lists.Grown(old(lists.all), old(lists.feeds))
    {
      var opening := line.word == Opening(Stream);
      if opening && (stream != null || feed != null || redirect != null) {
        errors := errors + 1;
      } else if opening && line.fatal {
        failed := Some(NoMemory);
      } else if opening {
        OpenStream(line);
      } else {
        InsideStream(line);
      }
    }

    method RedirectLine(line: Line)
      requires Valid() && line.Directive? && failed.None? && (line.word == Opening(Redirect) || redirect != null)
      requires feed == null && stream == null && line.word != Opening(Feed) && line.word != Opening(Stream)
      modifies this, lists, lists.all, lists.feeds
      ensures Valid() && Contents() == Step(old(Contents()), line)
      ensures lists.Grown(old(lists.all), old(lists.feeds))
    {
      var opening := line.word == Opening(Redirect);
      if opening && (stream != null || feed != null || redirect != null) {
        errors := errors + 1;
      } else if opening && line.fatal {
        failed := Some(NoMemory);
      } else if opening {
        OpenRedirect(line);
      } else {
        InsideRedirect(line);
      }
    }

    /** One line of the file. */
    method ParseLine(line: Line)
      requires Valid() && failed.None?
      modifies this, lists, lists.all, lists.feeds
      ensures Valid() && Contents() == Step(old(Contents()), line)
      ensures lists.Grown(old(lists.all), old(lists.feeds))
    {
      if line.Blank? {
        return;
      }
      if feed != null || line.word == Opening(Feed) {
        FeedLine(line);
      } else if stream != null || line.word == Opening(Stream) {
        StreamLine(line);
      } else if redirect != null || line.word == Opening(Redirect) {
        RedirectLine(line);
      } else {
        errors := errors + if line.word.Closing? then 1 else line.errors;
      }
    }

    /** The loop over the lines of the file. */
    method ParseFfconfig(lines: seq<Line>) returns (verdict: Verdict)
      requires Valid() && Contents() == NOTHING
      modifies this, lists
      ensures Valid()
      ensures var p := ParseLines(NOTHING, lines);
              lists.data == p.sections && OpenKind() == p.open && verdict == VerdictOf(p)
    {
      var i := 0;
      while i < |lines| && failed.None?
        invariant i <= |lines| && Valid() && lists.Grown([], [])
        invariant ParseLines(Contents(), lines[i..]) == ParseLines(NOTHING, lines)
      {
        assert lines[i..][0] == lines[i] && lines[i..][1..] == lines[i + 1..];
        ParseLine(lines[i]);
        i := i + 1;
      }
      assert Contents() == ParseLines(NOTHING, lines);
      if stream != null || feed != null || redirect != null {
        errors := errors + 1;
      }
      verdict := match failed
        case Some(NoMemory) => OutOfMemory
        case Some(NullPointer) => Crashed
        case None => if errors > 0 then Invalid else Good;
    }
  }
}
