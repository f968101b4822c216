/** A reader for the JSON texts (RFC 8259) that have strings, integers, arrays
    and objects in them, and the escaper of ffprobe's JSON writer.

    Reading is split in two: `Lex` removes insignificant white space (section 2)
    and decodes strings (section 7) and integers (section 6); `ParseValue`
    follows the grammar of values, objects and arrays (sections 3 to 5). */
module JsonText {
  import opened Wrappers
  import opened Escapers

  datatype Json =
    | JStr(text: string)
    | JNum(number: int)
    | JArr(elements: seq<Json>)
    | JObj(members: seq<Member>)

  datatype Member = Member(key: string, value: Json)

  datatype Token = LBrace | RBrace | LBracket | RBracket | Colon | Comma | Str(text: string) | Num(number: int)

  // ---------- from tokens to values ----------

  function Tokens(v: Json): seq<Token>
    decreases v, 1
  {
    match v
    case JStr(s) => [Str(s)]
    case JNum(n) => [Num(n)]
    case JArr(es) => [LBracket] + ElementTokens(es) + [RBracket]
    case JObj(ms) => [LBrace] + MemberTokens(ms) + [RBrace]
  }

  function ElementTokens(es: seq<Json>): seq<Token>
    decreases es, 0
  {
    if es == [] then []
    else if |es| == 1 then Tokens(es[0])
    else Tokens(es[0]) + [Comma] + ElementTokens(es[1..])
  }

  function MemberTokens(ms: seq<Member>): seq<Token>
    decreases ms, 0
  {
    if ms == [] then []
    else if |ms| == 1 then [Str(ms[0].key), Colon] + Tokens(ms[0].value)
    else [Str(ms[0].key), Colon] + Tokens(ms[0].value) + [Comma] + MemberTokens(ms[1..])
  }

  /** A value at the head of `t`, and what follows it. */
  function ParseValue(t: seq<Token>): (r: Option<(Json, seq<Token>)>)
    ensures r.Some? ==> |r.value.1| < |t|
    decreases |t|, 1
  {
    if t == [] then None else
    match t[0]
    case Str(s) => Some((JStr(s), t[1..]))
    case Num(n) => Some((JNum(n), t[1..]))
    case LBracket =>
      if |t| > 1 && t[1] == RBracket then Some((JArr([]), t[2..])) else
      (match ParseElements(t[1..]) case None => None case Some((es, rest)) => Some((JArr(es), rest)))
    case LBrace =>
      if |t| > 1 && t[1] == RBrace then Some((JObj([]), t[2..])) else
      (match ParseMembers(t[1..]) case None => None case Some((ms, rest)) => Some((JObj(ms), rest)))
    case _ => None
  }

  /** One or more elements and the closing bracket. */
  function ParseElements(t: seq<Token>): (r: Option<(seq<Json>, seq<Token>)>)
    ensures r.Some? ==> |r.value.1| < |t|
    decreases |t|, 2
  {
    match ParseValue(t)
    case None => None
    case Some((v, rest)) =>
      if rest == [] then None
      else if rest[0] == RBracket then Some(([v], rest[1..]))
      else if rest[0] == Comma then
        (match ParseElements(rest[1..]) case None => None case Some((vs, rest')) => Some(([v] + vs, rest')))
      else None
  }

  /** One or more members and the closing brace. */
  function ParseMembers(t: seq<Token>): (r: Option<(seq<Member>, seq<Token>)>)
    ensures r.Some? ==> |r.value.1| < |t|
    decreases |t|, 2
  {
    if |t| < 2 || !t[0].Str? || t[1] != Colon then None else
    match ParseValue(t[2..])
    case None => None
    case Some((v, rest)) =>
      var m := Member(t[0].text, v);
      if rest == [] then None
      else if rest[0] == RBrace then Some(([m], rest[1..]))
      else if rest[0] == Comma then
        (match ParseMembers(rest[1..]) case None => None case Some((ms, rest')) => Some(([m] + ms, rest')))
      else None
  }

  lemma {:induction false} FirstToken(v: Json)
    ensures Tokens(v) != [] && Tokens(v)[0] !in {RBrace, RBracket, Comma, Colon}
  {
  }

  lemma {:induction false} ParseInverse(v: Json, rest: seq<Token>)
    ensures ParseValue(Tokens(v) + rest) == Some((v, rest))
    decreases v, 1
  {
    var t := Tokens(v) + rest;
    match v
    case JStr(s) => assert t[1..] == rest;
    case JNum(n) => assert t[1..] == rest;
    case JArr(es) =>
      if es == [] {
        assert ElementTokens(es) == [];
        assert t == [LBracket, RBracket] + rest;
        assert t[2..] == rest;
      } else {
        assert t[1..] == ElementTokens(es) + [RBracket] + rest;
        FirstToken(es[0]);
        assert t[1] == Tokens(es[0])[0];
        ParseElementsInverse(es, rest);
      }
    case JObj(ms) =>
      if ms == [] {
        assert MemberTokens(ms) == [];
        assert t == [LBrace, RBrace] + rest;
        assert t[2..] == rest;
      } else {
        assert t[1..] == MemberTokens(ms) + [RBrace] + rest;
        assert t[1] == Str(ms[0].key);
        ParseMembersInverse(ms, rest);
      }
  }

  lemma {:induction false} ParseElementsInverse(es: seq<Json>, rest: seq<Token>)
    requires es != []
    ensures ParseElements(ElementTokens(es) + [RBracket] + rest) == Some((es, rest))
    decreases es, 0
  {
    hide Tokens, ParseValue;
    var t := ElementTokens(es) + [RBracket] + rest;
    if |es| == 1 {
      var tail := [RBracket] + rest;
      assert t == Tokens(es[0]) + tail;
      ParseInverse(es[0], tail);
      assert tail[1..] == rest;
      assert [es[0]] == es;
    } else {
      var more := ElementTokens(es[1..]) + [RBracket] + rest;
      var tail := [Comma] + more;
      assert t == Tokens(es[0]) + tail;
      ParseInverse(es[0], tail);
      assert tail[1..] == more;
      ParseElementsInverse(es[1..], rest);
      assert [es[0]] + es[1..] == es;
    }
  }

  lemma {:induction false} ParseMembersInverse(ms: seq<Member>, rest: seq<Token>)
    requires ms != []
    ensures ParseMembers(MemberTokens(ms) + [RBrace] + rest) == Some((ms, rest))
    decreases ms, 0
  {
    var head, v := [Str(ms[0].key), Colon], Tokens(ms[0].value);
    assert Member(ms[0].key, ms[0].value) == ms[0];
    if |ms| == 1 {
      var tail := [RBrace] + rest;
      assert MemberTokens(ms) + [RBrace] + rest == head + (v + tail);
      assert (head + (v + tail))[2..] == v + tail;
      ParseInverse(ms[0].value, tail);
      assert tail[1..] == rest;
      assert [ms[0]] == ms;
    } else {
      var more := MemberTokens(ms[1..]) + [RBrace] + rest;
      var tail := [Comma] + more;
      assert MemberTokens(ms) + [RBrace] + rest == head + (v + tail) by {
        MemberTokensSplit(head, v, MemberTokens(ms[1..]), rest);
      }
      assert (head + (v + tail))[2..] == v + tail;
      ParseInverse(ms[0].value, tail);
      assert tail[1..] == more;
      ParseMembersInverse(ms[1..], rest);
      assert [ms[0]] + ms[1..] == ms;
    }
  }

  lemma MemberTokensSplit(head: seq<Token>, v: seq<Token>, more: seq<Token>, rest: seq<Token>)
    ensures head + v + [Comma] + more + [RBrace] + rest == head + (v + ([Comma] + (more + [RBrace] + rest)))
  {
  }

  /** The grammar is unambiguous: a parsed prefix is exactly the tokens of its value. */
  lemma {:induction false} ParseSound(t: seq<Token>)
    ensures ParseValue(t).Some? ==> t == Tokens(ParseValue(t).value.0) + ParseValue(t).value.1
    decreases |t|, 1
  {
    if ParseValue(t).Some? {
      match t[0]
      case Str(s) =>
      case Num(n) =>
      case LBracket =>
        if |t| > 1 && t[1] == RBracket {
          assert t == [LBracket] + ElementTokens([]) + [RBracket] + t[2..];
        } else {
          ParseElementsSound(t[1..]);
          assert t == [LBracket] + t[1..];
        }
      case LBrace =>
        if |t| > 1 && t[1] == RBrace {
          assert t == [LBrace] + MemberTokens([]) + [RBrace] + t[2..];
        } else {
          ParseMembersSound(t[1..]);
          assert t == [LBrace] + t[1..];
        }
    }
  }

  lemma {:induction false} ParseElementsSound(t: seq<Token>)
    requires ParseElements(t).Some?
    ensures ParseElements(t).value.0 != []
    ensures t == ElementTokens(ParseElements(t).value.0) + ([RBracket] + ParseElements(t).value.1)
    decreases |t|, 2
  {
    ParseSound(t);
    var (v, rest) := ParseValue(t).value;
    if rest[0] == RBracket {
      assert rest == [RBracket] + rest[1..];
      assert ElementTokens([v]) == Tokens(v);
    } else {
      ParseElementsSound(rest[1..]);
      var (vs, rest') := ParseElements(rest[1..]).value;
      assert ([v] + vs)[1..] == vs;
      assert rest == [Comma] + rest[1..];
      Regroup(Tokens(v), ElementTokens(vs), [RBracket] + rest');
    }
  }

  lemma Regroup(v: seq<Token>, vs: seq<Token>, rest: seq<Token>)
    ensures v + ([Comma] + (vs + rest)) == v + [Comma] + vs + rest
  {
  }

  lemma {:induction false} ParseMembersSound(t: seq<Token>)
    requires ParseMembers(t).Some?
    ensures ParseMembers(t).value.0 != []
    ensures t == MemberTokens(ParseMembers(t).value.0) + ([RBrace] + ParseMembers(t).value.1)
    decreases |t|, 2
  {
    ParseSound(t[2..]);
    var (v, rest) := ParseValue(t[2..]).value;
    var m := Member(t[0].text, v);
    var head := [Str(m.key), Colon] + Tokens(v);
    assert t == head + rest;
    if rest[0] == RBrace {
      assert rest == [RBrace] + rest[1..];
      assert MemberTokens([m]) == head;
    } else {
      ParseMembersSound(rest[1..]);
      var (ms, rest') := ParseMembers(rest[1..]).value;
      assert ([m] + ms)[1..] == ms;
      assert rest == [Comma] + rest[1..];
      Regroup(head, MemberTokens(ms), [RBrace] + rest');
      assert MemberTokens([m] + ms) == head + [Comma] + MemberTokens(ms);
    }
  }

  /** Commas stand between values: never after an opening bracket or a comma,
      never before a closing one. */
  predicate StrayPair(a: Token, b: Token) {
    (a == Comma && b in {RBrace, RBracket, Comma}) || (a in {LBrace, LBracket} && b == Comma)
  }

  ghost predicate NoStrayComma(t: seq<Token>) {
    forall i :: 0 <= i < |t| - 1 ==> !StrayPair(t[i], t[i + 1])
  }

  lemma JoinNoStray(a: seq<Token>, b: seq<Token>)
    requires NoStrayComma(a) && NoStrayComma(b)
    requires a == [] || b == [] || !StrayPair(a[|a| - 1], b[0])
    ensures NoStrayComma(a + b)
  {
  }

  /** The first and the last token of a list of values. */
  ghost predicate Ends(t: seq<Token>) {
    t != [] && t[0] !in {RBrace, RBracket, Comma} && t[|t| - 1] !in {LBrace, LBracket, Comma}
  }

  lemma {:induction false} TokensNoStray(v: Json)
    ensures NoStrayComma(Tokens(v)) && Ends(Tokens(v))
    decreases v, 1
  {
    match v
    case JStr(s) =>
    case JNum(n) =>
    case JArr(es) =>
      ElementsNoStray(es);
      JoinNoStray([LBracket], ElementTokens(es));
      JoinNoStray([LBracket] + ElementTokens(es), [RBracket]);
    case JObj(ms) =>
      MembersNoStray(ms);
      JoinNoStray([LBrace], MemberTokens(ms));
      JoinNoStray([LBrace] + MemberTokens(ms), [RBrace]);
  }

  lemma {:induction false} ElementsNoStray(es: seq<Json>)
    ensures NoStrayComma(ElementTokens(es)) && (es != [] ==> Ends(ElementTokens(es)))
    decreases es, 0
  {
    if es != [] {
      TokensNoStray(es[0]);
      if |es| > 1 {
        ElementsNoStray(es[1..]);
        JoinNoStray(Tokens(es[0]), [Comma]);
        JoinNoStray(Tokens(es[0]) + [Comma], ElementTokens(es[1..]));
      }
    }
  }

  lemma {:induction false} MembersNoStray(ms: seq<Member>)
    ensures NoStrayComma(MemberTokens(ms)) && (ms != [] ==> Ends(MemberTokens(ms)))
    decreases ms, 0
  {
    if ms != [] {
      TokensNoStray(ms[0].value);
      var head := [Str(ms[0].key), Colon] + Tokens(ms[0].value);
      JoinNoStray([Str(ms[0].key), Colon], Tokens(ms[0].value));
      if |ms| > 1 {
        MembersNoStray(ms[1..]);
        JoinNoStray(head, [Comma]);
        JoinNoStray(head + [Comma], MemberTokens(ms[1..]));
      }
    }
  }

  // ---------- strings ----------

  /** json_escape_str */
  function JsonCode(c: char): string {
    if c == '"' then "\\\""
    else if c == '\\' then "\\\\"
    else if c == BACKSPACE then "\\b"
    else if c == FORM_FEED then "\\f"
    else if c == '\n' then "\\n"
    else if c == '\r' then "\\r"
    else if c == '\t' then "\\t"
    else if c as int < 32 then "\\u00" + Hex2(c)
    else [c]
  }

  method JsonEscapeStr(src: string) returns (dst: string)
    ensures dst == Escape(JsonCode, src)
  {
    var jsonEscape: string := ['"', '\\', BACKSPACE, FORM_FEED, '\n', '\r', '\t'];
    var jsonSubst := ['"', '\\', 'b', 'f', 'n', 'r', 't'];
    dst := "";
    for i := 0 to |src|
      invariant dst == Escape(JsonCode, src[..i])
    {
      EscapeStep(JsonCode, src, i);
      var s := 0;
      while s < |jsonEscape| && jsonEscape[s] != src[i]
        invariant s <= |jsonEscape|
        invariant forall k :: 0 <= k < s ==> jsonEscape[k] != src[i]
      {
        s := s + 1;
      }
      if s < |jsonEscape| {
        dst := dst + ['\\'];
        dst := dst + [jsonSubst[s]];
        assert JsonCode(src[i]) == ['\\', jsonSubst[s]];
      } else {
        assert forall k :: 0 <= k < 7 ==> src[i] != jsonEscape[k];
        assert src[i] != jsonEscape[0] && src[i] != jsonEscape[1] && src[i] != jsonEscape[2] && src[i] != jsonEscape[3];
        assert src[i] != jsonEscape[4] && src[i] != jsonEscape[5] && src[i] != jsonEscape[6];
        if src[i] as int < 32 {
          dst := dst + "\\u00" + Hex2(src[i]);
        } else {
          dst := dst + [src[i]];
        }
      }
    }
    assert src[..|src|] == src;
  }

  /** One character of a string (section 7); a `\u` escape must not be a surrogate. */
  function ReadJsonChar(s: string): Option<(char, nat)> {
    if s == "" || s[0] as int < 32 || s[0] == '"' then None
    else if s[0] != '\\' then Some((s[0], 1))
    else if |s| == 1 then None
    else match s[1]
      case '"' => Some(('"', 2))
      case '\\' => Some(('\\', 2))
      case '/' => Some(('/', 2))
      case 'b' => Some((BACKSPACE, 2))
      case 'f' => Some((FORM_FEED, 2))
      case 'n' => Some(('\n', 2))
      case 'r' => Some(('\r', 2))
      case 't' => Some(('\t', 2))
      case 'u' =>
        if |s| < 6 then None else
        (match (HexValue(s[2]), HexValue(s[3]), HexValue(s[4]), HexValue(s[5]))
         case (Some(a), Some(b), Some(c), Some(d)) =>
           var code := ((a * 16 + b) * 16 + c) * 16 + d;
           if 0xD800 <= code < 0xE000 || code >= 0x10000 then None else Some((code as char, 6))
         case _ => None)
      case _ => None
  }

  /** The rest of a string, after its opening quotation mark. */
  function ReadString(s: string): (r: Option<(string, string)>)
    ensures r.Some? ==> |r.value.1| < |s|
    decreases |s|
  {
    if s == "" then None
    else if s[0] == '"' then Some(("", s[1..]))
    else
      match ReadJsonChar(s)
      case None => None
      case Some((c, n)) =>
        if n == 0 || n > |s| then None else
        match ReadString(s[n..]) case None => None case Some((t, rest)) => Some(([c] + t, rest))
  }

  lemma ReadJsonCharInverse(c: char, rest: string)
    ensures JsonCode(c) != "" && JsonCode(c)[0] != '"'
    ensures ReadJsonChar(JsonCode(c) + rest) == Some((c, |JsonCode(c)|))
  {
    var s := JsonCode(c) + rest;
    if c as int < 32 && c !in {BACKSPACE, FORM_FEED, '\n', '\r', '\t'} {
      var n := c as int;
      assert s[4] == HexDigit(n / 16) && s[5] == HexDigit(n % 16);
      assert HexValue(s[2]) == Some(0) && HexValue(s[3]) == Some(0);
      assert HexValue(s[4]) == Some(n / 16) && HexValue(s[5]) == Some(n % 16);
      assert 16 * (n / 16) + n % 16 == n;
    }
  }

  lemma {:induction false} ReadStringInverse(s: string, rest: string)
    ensures ReadString(Escape(JsonCode, s) + ("\"" + rest)) == Some((s, rest))
  {
    var close := "\"" + rest;
    if s == "" {
      assert Escape(JsonCode, s) + close == close;
      assert close[1..] == rest;
    } else {
      var w, more := JsonCode(s[0]), Escape(JsonCode, s[1..]) + close;
      assert Escape(JsonCode, s) + close == w + more;
      ReadJsonCharInverse(s[0], more);
      assert (w + more)[|w|..] == more;
      ReadStringInverse(s[1..], rest);
      assert [s[0]] + s[1..] == s;
    }
  }

  // ---------- integers ----------

  predicate IsDigit(c: char) { '0' <= c <= '9' }

  function DigitChar(n: nat): char
    requires n < 10
  {
    '0' + n as char
  }

  /** The digits `%lld` prints for a number that is not negative. */
  function NatDigits(n: nat): (s: string)
    ensures s != "" && forall i :: 0 <= i < |s| ==> IsDigit(s[i])
  {
    if n < 10 then [DigitChar(n)] else NatDigits(n / 10) + [DigitChar(n % 10)]
  }

  function IntText(n: int): string {
    if n < 0 then "-" + NatDigits(-n) else NatDigits(n)
  }

  function DigitsValue(s: string): nat
    requires forall i :: 0 <= i < |s| ==> IsDigit(s[i])
  {
    if s == "" then 0 else
    assert IsDigit(s[|s| - 1]);
    10 * DigitsValue(s[..|s| - 1]) + (s[|s| - 1] - '0') as nat
  }

  lemma {:induction false} NatDigitsValue(n: nat)
    ensures DigitsValue(NatDigits(n)) == n
    ensures |NatDigits(n)| > 1 ==> NatDigits(n)[0] != '0'
    ensures n > 0 ==> NatDigits(n)[0] != '0'
  {
    var s := NatDigits(n);
    if n < 10 {
      assert s[..|s| - 1] == "";
    } else {
      NatDigitsValue(n / 10);
      assert s[..|s| - 1] == NatDigits(n / 10);
    }
  }

  function DigitSpan(s: string): (n: nat)
    ensures n <= |s|
    ensures forall i :: 0 <= i < n ==> IsDigit(s[i])
  {
    if s == "" || !IsDigit(s[0]) then 0 else 1 + DigitSpan(s[1..])
  }

  lemma {:induction false} DigitSpanAppend(digits: string, rest: string)
    requires forall i :: 0 <= i < |digits| ==> IsDigit(digits[i])
    requires rest == "" || !IsDigit(rest[0])
    ensures DigitSpan(digits + rest) == |digits|
  {
    if digits == "" {
      assert digits + rest == rest;
    } else {
      assert (digits + rest)[1..] == digits[1..] + rest;
      DigitSpanAppend(digits[1..], rest);
    }
  }

  /** An integer (section 6): no superfluous zero in front. */
  function ReadNat(s: string): (r: Option<(nat, string)>)
    ensures r.Some? ==> |r.value.1| < |s|
  {
    var n := DigitSpan(s);
    if n == 0 || (n > 1 && s[0] == '0') then None else Some((DigitsValue(s[..n]), s[n..]))
  }

  lemma ReadNatInverse(n: nat, rest: string)
    requires rest == "" || !IsDigit(rest[0])
    ensures ReadNat(NatDigits(n) + rest) == Some((n, rest))
  {
    var digits := NatDigits(n);
    var s := digits + rest;
    DigitSpanAppend(digits, rest);
    NatDigitsValue(n);
    assert s[..|digits|] == digits && s[|digits|..] == rest;
  }

  // ---------- from characters to tokens ----------

  predicate IsSpace(c: char) { c == ' ' || c == '\t' || c == '\n' || c == '\r' }

  function Structural(c: char): Option<Token> {
    match c
    case '{' => Some(LBrace)
    case '}' => Some(RBrace)
    case '[' => Some(LBracket)
    case ']' => Some(RBracket)
    case ':' => Some(Colon)
    case ',' => Some(Comma)
    case _ => None
  }

  function Prepend(t: seq<Token>, r: Option<seq<Token>>): Option<seq<Token>> {
    match r case None => None case Some(u) => Some(t + u)
  }

  function Lex(s: string): Option<seq<Token>>
    decreases |s|
  {
    if s == "" then Some([])
    else if IsSpace(s[0]) then Lex(s[1..])
    else if Structural(s[0]).Some? then Prepend([Structural(s[0]).value], Lex(s[1..]))
    else if s[0] == '"' then
      (match ReadString(s[1..]) case None => None case Some((t, rest)) => Prepend([Str(t)], Lex(rest)))
    else if s[0] == '-' then
      (match ReadNat(s[1..]) case None => None case Some((n, rest)) => Prepend([Num(-(n as int))], Lex(rest)))
    else
      match ReadNat(s) case None => None case Some((n, rest)) => Prepend([Num(n)], Lex(rest))
  }

  /** The value a whole text stands for, if it is a text of the grammar. */
  function Parse(s: string): Option<Json> {
    match Lex(s)
    case None => None
    case Some(t) =>
      match ParseValue(t)
      case None => None
      case Some((v, rest)) => if rest == [] then Some(v) else None
  }

  lemma PrependPrepend(t: seq<Token>, u: seq<Token>, r: Option<seq<Token>>)
    ensures Prepend(t, Prepend(u, r)) == Prepend(t + u, r)
  {
    if r.Some? {
      assert t + (u + r.value) == t + u + r.value;
    }
  }

  ghost predicate Blank(s: string) {
    forall i :: 0 <= i < |s| ==> IsSpace(s[i])
  }

  lemma {:induction false} LexBlank(s: string, rest: string)
    requires Blank(s)
    ensures Lex(s + rest) == Lex(rest)
  {
    if s == "" {
      assert s + rest == rest;
    } else {
      assert (s + rest)[1..] == s[1..] + rest;
      LexBlank(s[1..], rest);
    }
  }

  lemma LexStructural(c: char, rest: string)
    requires Structural(c).Some?
    ensures Lex([c] + rest) == Prepend([Structural(c).value], Lex(rest))
  {
    assert ([c] + rest)[1..] == rest;
  }

  lemma LexString(s: string, rest: string)
    ensures Lex("\"" + Escape(JsonCode, s) + "\"" + rest) == Prepend([Str(s)], Lex(rest))
  {
    hide ReadString, ReadNat, Escape, JsonCode;
    var body := Escape(JsonCode, s) + ("\"" + rest);
    assert "\"" + Escape(JsonCode, s) + "\"" + rest == "\"" + body;
    assert ("\"" + body)[1..] == body;
    ReadStringInverse(s, rest);
  }

  lemma LexMinus(s: string, n: nat, rest: string)
    requires ReadNat(s) == Some((n, rest))
    ensures Lex("-" + s) == Prepend([Num(-(n as int))], Lex(rest))
  {
    hide ReadString, ReadNat;
    assert ("-" + s)[1..] == s;
  }

  lemma LexDigits(s: string, n: nat, rest: string)
    requires ReadNat(s) == Some((n, rest))
    ensures Lex(s) == Prepend([Num(n)], Lex(rest))
  {
    assert IsDigit(s[0]);
    StartsNumber(s);
  }

  lemma StartsNumber(s: string)
    requires s != "" && IsDigit(s[0])
    ensures Lex(s) == match ReadNat(s) case None => None case Some((n, rest)) => Prepend([Num(n)], Lex(rest))
  {
    hide ReadString, ReadNat;
  }

  lemma LexInt(n: int, rest: string)
    requires rest == "" || !IsDigit(rest[0])
    ensures Lex(IntText(n) + rest) == Prepend([Num(n)], Lex(rest))
  {
    hide ReadString, ReadNat, NatDigits, Lex;
    if n < 0 {
      ReadNatInverse(-n, rest);
      LexMinus(NatDigits(-n) + rest, -n, rest);
      assert IntText(n) + rest == "-" + (NatDigits(-n) + rest);
    } else {
      ReadNatInverse(n, rest);
      LexDigits(NatDigits(n) + rest, n, rest);
    }
  }
}
