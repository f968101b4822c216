/** The string escapers of the ffprobe writers and their left inverses.

    A C string never holds the character 0; nothing below depends on that. */
module Escapers {
  import opened Wrappers

  const BACKSPACE: char := '\U{8}'
  const FORM_FEED: char := '\U{C}'

  // ---------- character-wise escaping ----------

  /** Replaces every character of `s` by its code word. */
  function Escape(code: char -> string, s: string): string {
    if s == "" then "" else code(s[0]) + Escape(code, s[1..])
  }

  lemma {:induction false} EscapeAppend(code: char -> string, s: string, t: string)
    ensures Escape(code, s + t) == Escape(code, s) + Escape(code, t)
  {
    if s == "" {
      assert s + t == t;
    } else {
      assert (s + t)[1..] == s[1..] + t;
      EscapeAppend(code, s[1..], t);
    }
  }

  /** The step of every escaping loop: one more character, one more code word. */
  lemma EscapeStep(code: char -> string, s: string, i: nat)
    requires i < |s|
    ensures Escape(code, s[..i + 1]) == Escape(code, s[..i]) + code(s[i])
  {
    assert s[..i + 1] == s[..i] + [s[i]];
    EscapeAppend(code, s[..i], [s[i]]);
    assert [s[i]][1..] == "";
    assert Escape(code, [s[i]]) == code(s[i]) + "";
  }

  /** A reader of one code word: the character it stands for and its length. */
  type Decoder = string -> Option<(char, nat)>

  function Unescape(decode: Decoder, s: string): Option<string>
    decreases |s|
  {
    if s == "" then Some("") else
    match decode(s)
    case None => None
    case Some((c, n)) =>
      if n == 0 || n > |s| then None else
      match Unescape(decode, s[n..])
      case None => None
      case Some(t) => Some([c] + t)
  }

  /** No code word is cut short or run over, whatever follows it. */
  ghost predicate Decodes(code: char -> string, decode: Decoder) {
    forall c: char, rest: string ::
      |code(c)| > 0 && decode(code(c) + rest) == Some((c, |code(c)|))
  }

  /** A left inverse on single code words is one on whole strings. */
  lemma {:induction false} UnescapeEscape(code: char -> string, decode: Decoder, s: string)
    requires Decodes(code, decode)
    ensures Unescape(decode, Escape(code, s)) == Some(s)
  {
    if s != "" {
      var w, rest := code(s[0]), Escape(code, s[1..]);
      assert decode(w + rest) == Some((s[0], |w|));
      assert (w + rest)[|w|..] == rest;
      UnescapeEscape(code, decode, s[1..]);
      assert [s[0]] + s[1..] == s;
    }
  }

  // ---------- hexadecimal digits ----------

  function HexDigit(n: nat): char
    requires n < 16
  {
    if n < 10 then '0' + n as char else 'a' + (n - 10) as char
  }

  function HexValue(c: char): Option<nat> {
    if '0' <= c <= '9' then Some((c - '0') as nat)
    else if 'a' <= c <= 'f' then Some((c - 'a') as nat + 10)
    else if 'A' <= c <= 'F' then Some((c - 'A') as nat + 10)
    else None
  }

  /** The two lower-case digits of `%02x`. */
  function Hex2(c: char): string
    requires c as int < 32
  {
    [HexDigit(c as int / 16), HexDigit(c as int % 16)]
  }

  function Hex2Value(hi: char, lo: char): Option<char> {
    match (HexValue(hi), HexValue(lo))
    case (Some(h), Some(l)) => Some((16 * h + l) as char)
    case _ => None
  }

  lemma Hex2Inverse(c: char)
    requires c as int < 32
    ensures Hex2Value(Hex2(c)[0], Hex2(c)[1]) == Some(c)
  {
    var n := c as int;
    assert HexValue(HexDigit(n / 16)) == Some(n / 16);
    assert HexValue(HexDigit(n % 16)) == Some(n % 16);
    assert 16 * (n / 16) + n % 16 == n;
  }

  // ---------- C escaping (compact writer) ----------

  function CCode(sep: char, c: char): string {
    if c == BACKSPACE then "\\b"
    else if c == FORM_FEED then "\\f"
    else if c == '\n' then "\\n"
    else if c == '\r' then "\\r"
    else if c == '\\' then "\\\\"
    else if c == sep then ['\\', c]
    else [c]
  }

  function CEscaper(sep: char): char -> string { c => CCode(sep, c) }

  function CDecode(s: string): Option<(char, nat)> {
    if s == "" then None
    else if s[0] != '\\' then Some((s[0], 1))
    else if |s| == 1 then None
    else if s[1] == 'b' then Some((BACKSPACE, 2))
    else if s[1] == 'f' then Some((FORM_FEED, 2))
    else if s[1] == 'n' then Some(('\n', 2))
    else if s[1] == 'r' then Some(('\r', 2))
    else Some((s[1], 2))
  }

  method CEscapeStr(src: string, sep: char) returns (dst: string)
    ensures dst == Escape(CEscaper(sep), src)
  {
    dst := "";
    for i := 0 to |src|
      invariant dst == Escape(CEscaper(sep), src[..i])
    {
      EscapeStep(CEscaper(sep), src, i);
      var p := src[i];
      if p == BACKSPACE {
        dst := dst + "\\b";
      } else if p == FORM_FEED {
        dst := dst + "\\f";
      } else if p == '\n' {
        dst := dst + "\\n";
      } else if p == '\r' {
        dst := dst + "\\r";
      } else if p == '\\' {
        dst := dst + "\\\\";
      } else {
        if p == sep {
          dst := dst + "\\";
        }
        dst := dst + [p];
      }
    }
    assert src[..|src|] == src;
  }

  ghost predicate LosesNothing(code: char -> string) {
    forall s: string, t: string :: Escape(code, s) == Escape(code, t) ==> s == t
  }

  /** C escaping loses nothing exactly when the separator is not one of the
      letters it uses for control characters. */
  lemma CEscapeInvertibleIff(sep: char)
    ensures LosesNothing(CEscaper(sep)) <==> sep !in {'b', 'f', 'n', 'r'}
    ensures sep !in {'b', 'f', 'n', 'r'} ==>
              forall s: string :: Unescape(CDecode, Escape(CEscaper(sep), s)) == Some(s)
  {
    var code := CEscaper(sep);
    if sep in {'b', 'f', 'n', 'r'} {
      var control := if sep == 'b' then BACKSPACE else if sep == 'f' then FORM_FEED
                     else if sep == 'n' then '\n' else '\r';
      var s, t := [sep], [control];
      assert code(sep) == ['\\', sep] == code(control);
      assert Escape(code, s) == ['\\', sep] by { assert s[1..] == ""; }
      assert Escape(code, t) == ['\\', sep] by { assert t[1..] == ""; }
      assert s[0] != t[0];
      assert !LosesNothing(code);
    } else {
      assert Decodes(code, CDecode);
      forall s: string ensures Unescape(CDecode, Escape(code, s)) == Some(s) {
        UnescapeEscape(code, CDecode, s);
      }
      forall s: string, t: string | Escape(code, s) == Escape(code, t) ensures s == t {
        assert Unescape(CDecode, Escape(code, s)) == Some(s);
        assert Unescape(CDecode, Escape(code, t)) == Some(t);
      }
    }
  }

  // ---------- flat values ----------

  function FlatCode(c: char): string {
    if c == '\n' then "\\n"
    else if c == '\r' then "\\r"
    else if c == '\\' || c == '"' || c == '`' || c == '$' then ['\\', c]
    else [c]
  }

  function FlatDecode(s: string): Option<(char, nat)> {
    if s == "" then None
    else if s[0] != '\\' then Some((s[0], 1))
    else if |s| == 1 then None
    else if s[1] == 'n' then Some(('\n', 2))
    else if s[1] == 'r' then Some(('\r', 2))
    else Some((s[1], 2))
  }

  method FlatEscapeValueStr(src: string) returns (dst: string)
    ensures dst == Escape(FlatCode, src)
  {
    dst := "";
    for i := 0 to |src|
      invariant dst == Escape(FlatCode, src[..i])
    {
      EscapeStep(FlatCode, src, i);
      match src[i] {
        case '\n' => dst := dst + "\\n";
        case '\r' => dst := dst + "\\r";
        case '\\' => dst := dst + "\\\\";
        case '"' => dst := dst + "\\\"";
        case '`' => dst := dst + "\\`";
        case '$' => dst := dst + "\\$";
        case p => dst := dst + [p];
      }
    }
    assert src[..|src|] == src;
  }

  lemma FlatEscapeInvertible(s: string)
    ensures Unescape(FlatDecode, Escape(FlatCode, s)) == Some(s)
  {
    assert Decodes(FlatCode, FlatDecode);
    UnescapeEscape(FlatCode, FlatDecode, s);
  }

  // ---------- INI ----------

  function IniCode(c: char): string {
    if c == BACKSPACE then "\\b"
    else if c == FORM_FEED then "\\f"
    else if c == '\n' then "\\n"
    else if c == '\r' then "\\r"
    else if c == '\t' then "\\t"
    else if c == '\\' || c == '#' || c == '=' || c == ':' then ['\\', c]
    else if c as int < 32 then "\\x00" + Hex2(c)
    else [c]
  }

  function IniDecode(s: string): Option<(char, nat)> {
    if s == "" then None
    else if s[0] != '\\' then Some((s[0], 1))
    else if |s| == 1 then None
    else match s[1]
      case 'b' => Some((BACKSPACE, 2))
      case 'f' => Some((FORM_FEED, 2))
      case 'n' => Some(('\n', 2))
      case 'r' => Some(('\r', 2))
      case 't' => Some(('\t', 2))
      case 'x' =>
        if |s| < 6 || s[2] != '0' || s[3] != '0' then None
        else (match Hex2Value(s[4], s[5]) case None => None case Some(c) => Some((c, 6)))
      case c => Some((c, 2))
  }

  method IniEscapeStr(src: string) returns (dst: string)
    ensures dst == Escape(IniCode, src)
  {
    dst := "";
    for i := 0 to |src|
      invariant dst == Escape(IniCode, src[..i])
    {
      EscapeStep(IniCode, src, i);
      var c := src[i];
      if c == BACKSPACE {
        dst := dst + "\\b";
      } else if c == FORM_FEED {
        dst := dst + "\\f";
      } else if c == '\n' {
        dst := dst + "\\n";
      } else if c == '\r' {
        dst := dst + "\\r";
      } else if c == '\t' {
        dst := dst + "\\t";
      } else {
        if c == '\\' || c == '#' || c == '=' || c == ':' {
          dst := dst + "\\";
        }
        if c as int < 32 {
          dst := dst + "\\x00" + Hex2(c);
        } else {
          dst := dst + [c];
        }
      }
    }
    assert src[..|src|] == src;
  }

  lemma IniEscapeInvertible(s: string)
    ensures Unescape(IniDecode, Escape(IniCode, s)) == Some(s)
  {
    forall c: char, rest: string
      ensures |IniCode(c)| > 0 && IniDecode(IniCode(c) + rest) == Some((c, |IniCode(c)|))
    {
      if c as int < 32 {
        Hex2Inverse(c);
      }
    }
    assert Decodes(IniCode, IniDecode);
    UnescapeEscape(IniCode, IniDecode, s);
  }

  // ---------- XML ----------

  function XmlCode(c: char): string {
    match c
    case '&' => "&amp;"
    case '<' => "&lt;"
    case '>' => "&gt;"
    case '"' => "&quot;"
    case '\'' => "&apos;"
    case _ => [c]
  }

  /** Reads the five predefined entities of section 4.6 of XML 1.0. */
  function XmlDecode(s: string): Option<(char, nat)> {
    if s == "" then None
    else if s[0] != '&' then Some((s[0], 1))
    else if "&amp;" <= s then Some(('&', 5))
    else if "&lt;" <= s then Some(('<', 4))
    else if "&gt;" <= s then Some(('>', 4))
    else if "&quot;" <= s then Some(('"', 6))
    else if "&apos;" <= s then Some(('\'', 6))
    else None
  }

  method XmlEscapeStr(src: string) returns (dst: string)
    ensures dst == Escape(XmlCode, src)
  {
    dst := "";
    for i := 0 to |src|
      invariant dst == Escape(XmlCode, src[..i])
    {
      EscapeStep(XmlCode, src, i);
      match src[i] {
        case '&' => dst := dst + "&amp;";
        case '<' => dst := dst + "&lt;";
        case '>' => dst := dst + "&gt;";
        case '"' => dst := dst + "&quot;";
        case '\'' => dst := dst + "&apos;";
        case p => dst := dst + [p];
      }
    }
    assert src[..|src|] == src;
  }

  lemma NotPrefix(p: string, w: string, i: nat)
    requires i < |p| && i < |w| && p[i] != w[i]
    ensures !(p <= w)
  {
  }

  lemma XmlDecodeCode(c: char, rest: string)
    ensures |XmlCode(c)| > 0 && XmlDecode(XmlCode(c) + rest) == Some((c, |XmlCode(c)|))
  {
    var code := XmlCode(c);
    var w := code + rest;
    assert code <= w;
    assert w[0] == code[0];
    if c in {'&', '<', '>', '"', '\''} {
      assert w[1] == code[1] && w[2] == code[2];
      if c == '<' {
        NotPrefix("&amp;", w, 1);
      } else if c == '>' {
        NotPrefix("&amp;", w, 1);
        NotPrefix("&lt;", w, 1);
      } else if c == '"' {
        NotPrefix("&amp;", w, 1);
        NotPrefix("&lt;", w, 1);
        NotPrefix("&gt;", w, 1);
      } else if c == '\'' {
        NotPrefix("&amp;", w, 2);
        NotPrefix("&lt;", w, 1);
        NotPrefix("&gt;", w, 1);
        NotPrefix("&quot;", w, 1);
      }
    }
  }

  lemma XmlEscapeInvertible(s: string)
    ensures Unescape(XmlDecode, Escape(XmlCode, s)) == Some(s)
    ensures forall i :: 0 <= i < |Escape(XmlCode, s)| ==>
              Escape(XmlCode, s)[i] !in {'<', '>', '"', '\''}
  {
    forall c: char, rest: string
      ensures |XmlCode(c)| > 0 && XmlDecode(XmlCode(c) + rest) == Some((c, |XmlCode(c)|))
    {
      XmlDecodeCode(c, rest);
    }
    UnescapeEscape(XmlCode, XmlDecode, s);
    XmlEscapeHasNoMarkup(s);
  }

  lemma {:induction false} XmlEscapeHasNoMarkup(s: string)
    ensures forall i :: 0 <= i < |Escape(XmlCode, s)| ==>
              Escape(XmlCode, s)[i] !in {'<', '>', '"', '\''}
  {
    if s != "" {
      XmlEscapeHasNoMarkup(s[1..]);
    }
  }

  // ---------- CSV ----------

  predicate CsvNeedsQuoting(sep: char, s: string) {
    sep in s || '"' in s || '\n' in s || '\r' in s
  }

  function QuoteCode(c: char): string { if c == '"' then "\"\"" else [c] }

  function CsvEscape(sep: char, s: string): string {
    if CsvNeedsQuoting(sep, s) then "\"" + Escape(QuoteCode, s) + "\"" else s
  }

  method CsvEscapeStr(src: string, sep: char) returns (dst: string)
    ensures dst == CsvEscape(sep, src)
  {
    dst := "";
    var span := 0;
    while span < |src| && src[span] != sep && src[span] != '"' && src[span] != '\n' && src[span] != '\r'
      invariant span <= |src|
      invariant !CsvNeedsQuoting(sep, src[..span])
    {
      span := span + 1;
    }
    var needsQuoting := span < |src|;
    if needsQuoting {
      assert src[span] in src;
      dst := "\"";
    } else {
      assert src[..span] == src;
    }
    ghost var opening := dst;
    for i := 0 to |src|
      invariant dst == opening + Escape(QuoteCode, src[..i])
    {
      EscapeStep(QuoteCode, src, i);
      if src[i] == '"' {
        dst := dst + "\"";
      }
      dst := dst + [src[i]];
    }
    assert src[..|src|] == src;
    if needsQuoting {
      dst := dst + "\"";
    } else {
      QuoteFree(src);
    }
  }

  lemma {:induction false} QuoteFree(s: string)
    requires '"' !in s
    ensures Escape(QuoteCode, s) == s
  {
    if s != "" {
      QuoteFree(s[1..]);
      assert [s[0]] + s[1..] == s;
    }
  }

  /** One line of the CSV writer: escaped fields joined by the separator. */
  function CsvRecord(sep: char, fields: seq<string>): string
    requires fields != []
  {
    if |fields| == 1 then CsvEscape(sep, fields[0])
    else CsvEscape(sep, fields[0]) + [sep] + CsvRecord(sep, fields[1..])
  }

  /** The rest of a quoted field, after its opening quote (section 2 of RFC 4180, rules 5 to 7). */
  function ReadQuoted(s: string): Option<(string, string)>
    decreases |s|
  {
    if s == "" then None
    else if s[0] != '"' then
      (match ReadQuoted(s[1..]) case None => None case Some((f, rest)) => Some(([s[0]] + f, rest)))
    else if |s| > 1 && s[1] == '"' then
      (match ReadQuoted(s[2..]) case None => None case Some((f, rest)) => Some((['"'] + f, rest)))
    else Some(("", s[1..]))
  }

  function ReadBare(sep: char, s: string): Option<(string, string)> {
    if s == "" || s[0] == sep then Some(("", s))
    else if s[0] == '"' || s[0] == '\r' || s[0] == '\n' then None
    else
      match ReadBare(sep, s[1..]) case None => None case Some((f, rest)) => Some(([s[0]] + f, rest))
  }

  function ReadField(sep: char, s: string): Option<(string, string)> {
    if s != "" && s[0] == '"' then ReadQuoted(s[1..]) else ReadBare(sep, s)
  }

  /** Splits a line of section 2 of RFC 4180 into its fields. */
  function CsvSplit(sep: char, s: string): Option<seq<string>>
    decreases |s|
  {
    match ReadField(sep, s)
    case None => None
    case Some((f, rest)) =>
      if rest == "" then Some([f])
      else if rest[0] != sep || |rest| > |s| then None
      else match CsvSplit(sep, rest[1..]) case None => None case Some(fs) => Some([f] + fs)
  }

  lemma {:induction false} ReadQuotedInverse(s: string, rest: string)
    requires rest == "" || rest[0] != '"'
    ensures ReadQuoted(Escape(QuoteCode, s) + "\"" + rest) == Some((s, rest))
  {
    var text := Escape(QuoteCode, s) + "\"" + rest;
    if s == "" {
      assert text == "\"" + rest;
      assert text[1..] == rest;
    } else {
      ReadQuotedInverse(s[1..], rest);
      assert text[|QuoteCode(s[0])|..] == Escape(QuoteCode, s[1..]) + "\"" + rest;
      assert [s[0]] + s[1..] == s;
    }
  }

  lemma {:induction false} ReadBareInverse(sep: char, s: string, rest: string)
    requires !CsvNeedsQuoting(sep, s) && (rest == "" || rest[0] == sep)
    ensures ReadBare(sep, s + rest) == Some((s, rest))
  {
    if s == "" {
      assert s + rest == rest;
    } else {
      assert s[0] in s;
      ReadBareInverse(sep, s[1..], rest);
      assert (s + rest)[1..] == s[1..] + rest;
      assert [s[0]] + s[1..] == s;
    }
  }

  lemma ReadFieldInverse(sep: char, s: string, rest: string)
    requires sep != '"' && (rest == "" || rest[0] == sep)
    ensures ReadField(sep, CsvEscape(sep, s) + rest) == Some((s, rest))
  {
    hide ReadQuoted, ReadBare, Escape;
    if CsvNeedsQuoting(sep, s) {
      var body := Escape(QuoteCode, s) + "\"" + rest;
      assert ReadQuoted(body) == Some((s, rest)) by { ReadQuotedInverse(s, rest); }
      assert CsvEscape(sep, s) + rest == "\"" + body;
      assert ("\"" + body)[1..] == body;
    } else {
      assert ReadBare(sep, s + rest) == Some((s, rest)) by { ReadBareInverse(sep, s, rest); }
      if s != "" {
        assert s[0] in s && (s + rest)[0] == s[0];
      }
    }
  }

  lemma {:induction false} CsvSplitRecord(sep: char, fields: seq<string>)
    requires sep != '"' && fields != []
    ensures CsvSplit(sep, CsvRecord(sep, fields)) == Some(fields)
  {
    var first := CsvEscape(sep, fields[0]);
    if |fields| == 1 {
      ReadFieldInverse(sep, fields[0], "");
      assert first + "" == first;
      assert [fields[0]] == fields;
    } else {
      var rest := [sep] + CsvRecord(sep, fields[1..]);
      assert CsvRecord(sep, fields) == first + rest;
      ReadFieldInverse(sep, fields[0], rest);
      assert rest[1..] == CsvRecord(sep, fields[1..]);
      CsvSplitRecord(sep, fields[1..]);
      assert [fields[0]] + fields[1..] == fields;
    }
  }

  /** A CSV line splits back into the record it was made of, for every record,
      exactly when the separator is not the quote itself. */
  lemma CsvRoundTripIff(sep: char)
    ensures (forall fields: seq<string> :: fields != [] ==>
               CsvSplit(sep, CsvRecord(sep, fields)) == Some(fields))
            <==> sep != '"'
  {
    if sep == '"' {
      var fields := ["", ""];
      assert CsvRecord(sep, fields) == "\"";
      assert "\""[1..] == "";
      assert ReadField(sep, "\"") == None;
      assert CsvSplit(sep, CsvRecord(sep, fields)) == None;
    } else {
      forall fields: seq<string> | fields != []
        ensures CsvSplit(sep, CsvRecord(sep, fields)) == Some(fields)
      {
        CsvSplitRecord(sep, fields);
      }
    }
  }
}
