/** When reading a configuration file ends before its last line: what the tags
    and the lines up to there tell, whatever the names and errors are. */
module ConfigFailures {
  import opened Wrappers
  import opened ConfigLists
  import opened ConfigGrammar

  // ---------- which tag is open ----------

  /** The open tag after a line. */
  function OpenNext(open: Option<Kind>, line: Line): Option<Kind> {
    if line.Blank? then open
    else match open
      case None => if line.word.Opening? then Some(line.word.kind) else None
      case Some(k) => if line.word == Closing(k) then None else open
  }

  /** The open tag after some lines. */
  function OpenAfter(open: Option<Kind>, lines: seq<Line>): Option<Kind>
    decreases |lines|
  {
    if lines == [] then open else OpenAfter(OpenNext(open, lines[0]), lines[1..])
  }

  /** A directive inside a section that may run out of memory: none that the
      section handles by itself. */
  predicate Handled(k: Kind, word: Word) {
    word.Opening? || word.Closing? || k == Redirect || word == FileWord(k) || (k == Stream && word == FeedWord)
  }

  /** What is wrong with a line under an open tag. */
  function FailureOf(open: Option<Kind>, line: Line): Option<Failure> {
    if line.Blank? then None
    else match open
      case None =>
        if !line.word.Opening? then None
        else if line.fatal then Some(NoMemory)
        else if Unbracketed(line.word.kind, line.arg) then Some(NullPointer) else None
      case Some(k) => if line.fatal && !Handled(k, line.word) then Some(NoMemory) else None
  }

  lemma StepFails(p: Parse, line: Line)
    requires p.failed.None? && (p.open.Some? ==> p.sections != [])
    ensures Step(p, line).failed == FailureOf(p.open, line)
    ensures Step(p, line).failed.None? ==> Step(p, line).open == OpenNext(p.open, line)
  {
    hide Count, Rivals, NewInfo, NameOf, HasFeed, UpdateLast;
    if line.Directive? {
      match p.open {
        case None => if line.word.Opening? { StepOpening(p, line.word.kind, line); }
        case Some(k) => StepInside(p, k, line);
      }
    }
  }

  lemma StepInside(p: Parse, k: Kind, line: Line)
    requires p.failed.None? && p.open == Some(k) && p.sections != [] && line.Directive?
    ensures Step(p, line).failed == FatalIf(line.fatal && !Handled(k, line.word))
    ensures Step(p, line).open == if line.word == Closing(k) then None else Some(k)
  {
    hide Count, Rivals, NewInfo, NameOf, HasFeed, UpdateLast;
    match k {
      case Feed =>
      case Stream =>
      case Redirect =>
    }
  }

  // ---------- the first failure ----------

  ghost predicate FailsAt(open: Option<Kind>, lines: seq<Line>, i: nat, f: Failure)
    requires i < |lines|
  {
    FailureOf(OpenAfter(open, lines[..i]), lines[i]) == Some(f)
  }

  ghost predicate PassesAt(open: Option<Kind>, lines: seq<Line>, i: nat)
    requires i < |lines|
  {
    FailureOf(OpenAfter(open, lines[..i]), lines[i]).None?
  }

  /** Line i is the first to fail, and it fails like this. */
  ghost predicate FirstFailure(open: Option<Kind>, lines: seq<Line>, i: nat, f: Failure) {
    i < |lines| && FailsAt(open, lines, i, f) && forall j: nat :: j < i ==> PassesAt(open, lines, j)
  }

  lemma OpenAfterTail(open: Option<Kind>, lines: seq<Line>, i: nat)
    requires 0 < i <= |lines|
    ensures OpenAfter(open, lines[..i]) == OpenAfter(OpenNext(open, lines[0]), lines[1..][..i - 1])
  {
    assert lines[..i][1..] == lines[1..][..i - 1];
  }

  /** Past a first line that does not fail the failure is one line nearer. */
  lemma FirstFailureTail(open: Option<Kind>, lines: seq<Line>, i: nat, f: Failure)
    requires lines != [] && FailureOf(open, lines[0]).None?
    ensures FirstFailure(open, lines, i + 1, f) <==> FirstFailure(OpenNext(open, lines[0]), lines[1..], i, f)
  {
    var next, rest := OpenNext(open, lines[0]), lines[1..];
    forall j: nat | j < |rest|
      ensures PassesAt(open, lines, j + 1) == PassesAt(next, rest, j)
      ensures FailsAt(open, lines, j + 1, f) == FailsAt(next, rest, j, f)
    {
      OpenAfterTail(open, lines, j + 1);
    }
    assert lines[..0] == [];
    assert PassesAt(open, lines, 0);
    if FirstFailure(next, rest, i, f) {
      forall j: nat | j < i + 1 ensures PassesAt(open, lines, j) {
        if j > 0 {
          assert PassesAt(next, rest, j - 1);
        }
      }
    }
    if FirstFailure(open, lines, i + 1, f) {
      forall j: nat | j < i ensures PassesAt(next, rest, j) {
        assert PassesAt(open, lines, j + 1);
      }
    }
  }

  lemma FailsHere(open: Option<Kind>, lines: seq<Line>, f: Failure)
    requires lines != [] && FailureOf(open, lines[0]).Some?
    ensures (exists i :: FirstFailure(open, lines, i, f)) <==> FailureOf(open, lines[0]) == Some(f)
  {
    assert lines[..0] == [];
    assert !PassesAt(open, lines, 0);
    if FailureOf(open, lines[0]) == Some(f) {
      assert FirstFailure(open, lines, 0, f);
    }
    forall i | FirstFailure(open, lines, i, f) ensures FailureOf(open, lines[0]) == Some(f) {
      assert FailsAt(open, lines, 0, f) || i > 0;
    }
  }

  lemma {:induction false} ParseFailsIff(p: Parse, lines: seq<Line>, f: Failure)
    requires p.failed.None? && (p.open.Some? ==> p.sections != [])
    ensures ParseLines(p, lines).failed == Some(f) <==> exists i :: FirstFailure(p.open, lines, i, f)
    decreases |lines|
  {
    hide Step, FailureOf;
    if lines != [] {
      var q := Step(p, lines[0]);
      StepFails(p, lines[0]);
      if q.failed.Some? {
        FailsHere(p.open, lines, f);
      } else {
        ParseFailsIff(q, lines[1..], f);
        if i: nat :| FirstFailure(q.open, lines[1..], i, f) {
          FirstFailureTail(p.open, lines, i, f);
        }
        if i: nat :| FirstFailure(p.open, lines, i, f) {
          assert lines[..0] == [];
          assert i > 0;
          FirstFailureTail(p.open, lines, i - 1, f);
        }
      }
    }
  }

  /** A file crashes the parser exactly if a feed or a redirect is opened without
      a '>' while no tag is open and nothing has failed before. */
  lemma CrashesIff(lines: seq<Line>)
    ensures VerdictOf(ParseLines(NOTHING, lines)) == Crashed <==> exists i :: FirstFailure(None, lines, i, NullPointer)
  {
    ParseFailsIff(NOTHING, lines, NullPointer);
  }

  lemma OutOfMemoryIff(lines: seq<Line>)
    ensures VerdictOf(ParseLines(NOTHING, lines)) == OutOfMemory <==> exists i :: FirstFailure(None, lines, i, NoMemory)
  {
    ParseFailsIff(NOTHING, lines, NoMemory);
  }

  const FEED_X := Directive(Opening(Feed), "x", 0, false)
  const STREAM_X := Directive(Opening(Stream), "x", 0, false)
  const END_STREAM := Directive(Closing(Stream), "", 0, false)

  /** `<Feed x` on the first line crashes it, whatever follows. */
  lemma FeedWithoutBracket(rest: seq<Line>)
    ensures VerdictOf(ParseLines(NOTHING, [FEED_X] + rest)) == Crashed
  {
    var lines := [FEED_X] + rest;
    assert lines[..0] == [];
    assert FailsAt(None, lines, 0, NullPointer);
    assert FirstFailure(None, lines, 0, NullPointer);
    CrashesIff(lines);
  }

  /** `<Stream x` is a tag as good as `<Stream x>`. */
  lemma StreamWithoutBracket()
    ensures VerdictOf(ParseLines(NOTHING, [STREAM_X, END_STREAM])) == Good
  {
    hide ParseLines;
    var doc := [Block(Stream, STREAM_X, [], END_STREAM)];
    assert GoodItem([], doc[0]);
    assert Render(doc[1..]) == [];
    assert Render(doc) == [STREAM_X, END_STREAM];
    AcceptedIff([STREAM_X, END_STREAM]);
  }
}
