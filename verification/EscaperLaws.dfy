/** What the escapers guard: no character that has a meaning to the format stands
    unprotected in escaped text, and plain text is left as it is. */
module EscaperLaws {
  import opened Escapers

  /** The characters of a text that no backslash stands before. */
  function Bare(s: string): string
    decreases |s|
  {
    if s == "" then ""
    else if s[0] == '\\' then (if |s| >= 2 then Bare(s[2..]) else s)
    else [s[0]] + Bare(s[1..])
  }

  /** A code word: a plain character, or a backslash, one character, and plain ones. */
  predicate Guarded(special: set<char>, w: string) {
    w != "" && (w[0] == '\\' ==> |w| >= 2) &&
    forall i :: (if w[0] == '\\' then 2 else 0) <= i < |w| ==> w[i] != '\\' && w[i] !in special
  }

  lemma {:induction false} BarePlain(special: set<char>, w: string, rest: string)
    requires forall i :: 0 <= i < |w| ==> w[i] != '\\' && w[i] !in special
    requires forall i :: 0 <= i < |Bare(rest)| ==> Bare(rest)[i] !in special
    ensures forall i :: 0 <= i < |Bare(w + rest)| ==> Bare(w + rest)[i] !in special
    decreases |w|
  {
    if w == "" {
      assert w + rest == rest;
    } else {
      BarePlain(special, w[1..], rest);
      assert (w + rest)[1..] == w[1..] + rest;
    }
  }

  /** Text escaped by guarded code words has no bare special character. */
  lemma {:induction false} EscapedGuarded(code: char -> string, special: set<char>, s: string)
    requires forall c: char :: Guarded(special, code(c))
    ensures forall i :: 0 <= i < |Bare(Escape(code, s))| ==> Bare(Escape(code, s))[i] !in special
  {
    if s != "" {
      var w, rest := code(s[0]), Escape(code, s[1..]);
      assert Guarded(special, w);
      EscapedGuarded(code, special, s[1..]);
      if w[0] == '\\' {
        assert (w + rest)[2..] == w[2..] + rest;
        BarePlain(special, w[2..], rest);
      } else {
        BarePlain(special, w, rest);
      }
    }
  }

  /** Characters that stand for themselves leave a text as it is. */
  lemma {:induction false} PlainUnchanged(code: char -> string, s: string)
    requires forall c <- s :: code(c) == [c]
    ensures Escape(code, s) == s
  {
    if s != "" {
      assert s[0] in s;
      PlainUnchanged(code, s[1..]);
      assert [s[0]] + s[1..] == s;
    }
  }

  ghost predicate NoneBare(special: set<char>, s: string) {
    forall i :: 0 <= i < |Bare(s)| ==> Bare(s)[i] !in special
  }

  /** C escaping: neither the separator nor a line or page break stands bare. */
  lemma CEscapeGuards(sep: char, s: string)
    ensures sep != '\\' ==> NoneBare({sep, '\n', '\r', BACKSPACE, FORM_FEED}, Escape(CEscaper(sep), s))
    ensures (forall c <- s :: c !in {sep, '\\', '\n', '\r', BACKSPACE, FORM_FEED}) ==> Escape(CEscaper(sep), s) == s
  {
    if sep != '\\' {
      EscapedGuarded(CEscaper(sep), {sep, '\n', '\r', BACKSPACE, FORM_FEED}, s);
    }
    if forall c <- s :: c !in {sep, '\\', '\n', '\r', BACKSPACE, FORM_FEED} {
      PlainUnchanged(CEscaper(sep), s);
    }
  }

  /** Flat values: nothing a shell would act on between double quotes stands bare. */
  lemma FlatEscapeGuards(s: string)
    ensures NoneBare({'"', '`', '$', '\n', '\r'}, Escape(FlatCode, s))
    ensures (forall c <- s :: c !in {'"', '`', '$', '\n', '\r', '\\'}) ==> Escape(FlatCode, s) == s
  {
    EscapedGuarded(FlatCode, {'"', '`', '$', '\n', '\r'}, s);
    if forall c <- s :: c !in {'"', '`', '$', '\n', '\r', '\\'} {
      PlainUnchanged(FlatCode, s);
    }
  }

  /** INI values: no comment sign, key separator or control character stands bare. */
  lemma IniEscapeGuards(s: string)
    ensures NoneBare({'#', '=', ':', '\n', '\r', '\t', BACKSPACE, FORM_FEED}, Escape(IniCode, s))
    ensures forall c: char :: c as int < 32 ==> |IniCode(c)| >= 2 && IniCode(c)[0] == '\\'
    ensures (forall c <- s :: c as int >= 32 && c !in {'#', '=', ':', '\\'}) ==> Escape(IniCode, s) == s
  {
    forall c: char ensures Guarded({'#', '=', ':', '\n', '\r', '\t', BACKSPACE, FORM_FEED}, IniCode(c)) {
      if c as int < 32 {
        HexPlain(c);
      }
    }
    EscapedGuarded(IniCode, {'#', '=', ':', '\n', '\r', '\t', BACKSPACE, FORM_FEED}, s);
    if forall c <- s :: c as int >= 32 && c !in {'#', '=', ':', '\\'} {
      PlainUnchanged(IniCode, s);
    }
  }

  lemma HexPlain(c: char)
    requires c as int < 32
    ensures forall i :: 0 <= i < 2 ==> '0' <= Hex2(c)[i] <= '9' || 'a' <= Hex2(c)[i] <= 'f'
  {
  }

  /** XML: characters without a meaning to markup are left as they are. */
  lemma XmlPlainUnchanged(s: string)
    requires forall c <- s :: c !in {'&', '<', '>', '"', '\''}
    ensures Escape(XmlCode, s) == s
  {
    PlainUnchanged(XmlCode, s);
  }

  /** CSV: a field is quoted exactly if it holds the separator, a quote or a line break. */
  lemma CsvQuotesIff(sep: char, s: string)
    requires sep != '"'
    ensures CsvEscape(sep, s) == s <==> forall c <- s :: c !in {sep, '"', '\n', '\r'}
    ensures CsvEscape(sep, s) != s ==>
              |CsvEscape(sep, s)| >= 2 && CsvEscape(sep, s)[0] == CsvEscape(sep, s)[|CsvEscape(sep, s)| - 1] == '"'
  {
    if exists c :: c in s && c in {sep, '"', '\n', '\r'} {
      NotShorter(s);
      assert |CsvEscape(sep, s)| > |s|;
    }
  }

  lemma {:induction false} NotShorter(s: string)
    ensures |Escape(QuoteCode, s)| >= |s|
  {
    if s != "" {
      NotShorter(s[1..]);
    }
  }
}
