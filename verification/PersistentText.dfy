/** The quoted text of the persistent file: escaping, unescaping and the tokeniser of string arrays. */
module PersistentText {
  import opened Wrappers

  // ---------------------------------------------------------------- escaping

  function HexDigit(d: nat): char
    requires d < 16
  {
    if d < 10 then '0' + d as char else 'a' + (d - 10) as char
  }

  function HexValue(c: char): Option<nat> {
    if '0' <= c <= '9' then Some(c as int - '0' as int)
    else if 'a' <= c <= 'f' then Some(c as int - 'a' as int + 10)
    else if 'A' <= c <= 'F' then Some(c as int - 'A' as int + 10)
    else None
  }

  /** One row of the translation table; characters above 255 have none. */
  function EscapeChar(c: char): string {
    if c == '"' then "\\\""
    else if c == '\\' then "\\\\"
    else if c == '\n' then "\\n"
    else if c == '\t' then "\\t"
    else if c == '\r' then "\\r"
    else if 32 <= c as int < 127 || c as int >= 256 then [c]
    else "\\x" + [HexDigit(c as int / 16), HexDigit(c as int % 16)]
  }

  function Escape(s: string): string {
    if s == "" then "" else EscapeChar(s[0]) + Escape(s[1..])
  }

  // ---------------------------------------------------------------- unescaping

  function SimpleEscape(c: char): Option<char> {
    if c == '\\' || c == '"' || c == '\'' then Some(c)
    else if c == 'n' then Some('\n')
    else if c == 't' then Some('\t')
    else if c == 'r' then Some('\r')
    else if c == 'a' then Some(7 as char)
    else if c == 'b' then Some(8 as char)
    else if c == 'v' then Some(11 as char)
    else if c == 'f' then Some(12 as char)
    else None
  }

  function Cons(c: char, rest: Option<string>): Option<string> {
    if rest.Some? then Some([c] + rest.value) else None
  }

  /**
   * The value of a Python literal with this text between its quotes. None: the text is no literal,
   * or it has an escape that saving never writes (octal, `\N`, `\u`, `\U`, or a bare quote between two literals).
   */
  function Literal(s: string): Option<string> {
    if s == "" then Some("")
    else if s[0] == '"' || s[0] == '\n' || s[0] == '\r' || s[0] == '\0' then None
    else if s[0] != '\\' then Cons(s[0], Literal(s[1..]))
    else if |s| == 1 then None
    else if SimpleEscape(s[1]).Some? then Cons(SimpleEscape(s[1]).value, Literal(s[2..]))
    else if s[1] == '\n' then Literal(s[2..])
    else if s[1] == 'x' then
      if |s| < 4 || HexValue(s[2]).None? || HexValue(s[3]).None? then None
      else Cons((16 * HexValue(s[2]).value + HexValue(s[3]).value) as char, Literal(s[4..]))
    else if '0' <= s[1] <= '7' || s[1] in "NuU\r\0" then None
    else Cons('\\', Cons(s[1], Literal(s[2..])))
  }

  function Unescape(s: string): Option<string> {
    if '\\' !in s then Some(s) else Literal(s)
  }

  lemma LiteralOfEscaped(c: char, rest: string)
    ensures Literal(EscapeChar(c) + rest) == Cons(c, Literal(rest))
  {
    var t := EscapeChar(c) + rest;
    if |EscapeChar(c)| == 1 {
      assert t[1..] == rest;
    } else if |EscapeChar(c)| == 2 {
      assert t[2..] == rest;
    } else {
      assert t[4..] == rest;
    }
  }

  lemma {:induction false} LiteralUndoesEscape(s: string)
    ensures Literal(Escape(s)) == Some(s)
  {
    if s != "" {
      LiteralOfEscaped(s[0], Escape(s[1..]));
      LiteralUndoesEscape(s[1..]);
      assert [s[0]] + s[1..] == s;
    }
  }

  lemma {:induction false} NothingEscaped(s: string)
    requires '\\' !in Escape(s)
    ensures Escape(s) == s
  {
    if s != "" {
      assert EscapeChar(s[0])[0] in Escape(s);
      forall c | c in Escape(s[1..]) ensures c in Escape(s) {
      }
      NothingEscaped(s[1..]);
    }
  }

  /** Unescaping undoes escaping, with and without the shortcut for text that has no escapes. */
  lemma UnescapeUndoesEscape(s: string)
    ensures Unescape(Escape(s)) == Some(s)
  {
    LiteralUndoesEscape(s);
    if '\\' !in Escape(s) {
      NothingEscaped(s);
    }
  }

  // ---------------------------------------------------------------- bare quotes

  /** The number of backslashes at the end of a string. */
  function Backslashes(s: string): nat {
    if s == "" || s[|s| - 1] != '\\' then 0 else 1 + Backslashes(s[..|s| - 1])
  }

  /** A quote that no backslash escapes. */
  predicate BareQuote(s: string, i: nat)
    requires i < |s|
  {
    s[i] == '"' && Backslashes(s[..i]) % 2 == 0
  }

  lemma {:induction false} EscapeLast(s: string, c: char)
    ensures Escape(s + [c]) == Escape(s) + EscapeChar(c)
  {
    if s == "" {
      assert [c][1..] == "";
    } else {
      assert (s + [c])[1..] == s[1..] + [c];
      EscapeLast(s[1..], c);
      assert EscapeChar(s[0]) + (Escape(s[1..]) + EscapeChar(c)) == Escape(s) + EscapeChar(c);
    }
  }

  lemma EscapedChar(e: string, c: char)
    requires Backslashes(e) % 2 == 0
    ensures Backslashes(e + EscapeChar(c)) % 2 == 0
    ensures forall i :: |e| <= i < |e + EscapeChar(c)| ==> !BareQuote(e + EscapeChar(c), i)
  {
    var t := e + EscapeChar(c);
    assert t[..|t| - 1] == e + EscapeChar(c)[..|EscapeChar(c)| - 1];
    if |EscapeChar(c)| == 2 {
      assert t[..|t| - 1] == e + ['\\'];
      assert (e + ['\\'])[..|e|] == e;
    }
  }

  /** An escaped string has no quote that would end it, and does not end in half an escape. */
  lemma {:induction false} NoBareQuote(s: string)
    ensures Backslashes(Escape(s)) % 2 == 0
    ensures forall i :: 0 <= i < |Escape(s)| ==> !BareQuote(Escape(s), i)
    decreases |s|
  {
    if s != "" {
      var t, c := s[..|s| - 1], s[|s| - 1];
      assert s == t + [c];
      NoBareQuote(t);
      EscapeLast(t, c);
      EscapedChar(Escape(t), c);
      forall i | 0 <= i < |Escape(t)| ensures !BareQuote(Escape(s), i) {
        assert Escape(s)[..i] == Escape(t)[..i];
        assert !BareQuote(Escape(t), i);
      }
    }
  }

  // ---------------------------------------------------------------- the tokeniser

  /** Matches `((?:\\.|[^"\\])*)"`: the group, and what follows the closing quote. The alternatives never overlap. */
  function MatchBody(s: string): (r: Option<(string, string)>)
    ensures r.Some? ==> |r.value.1| < |s|
  {
    if s == "" then None
    else if s[0] == '"' then Some(("", s[1..]))
    else
      var n := if s[0] == '\\' then 2 else 1;
      if n > |s| || (n == 2 && s[1] == '\n') then None
      else
        Prepend(s[..n], MatchBody(s[n..]))
  }

  /** Matches `"((?:\\.|[^"\\])*)",?`. */
  function MatchString(s: string): (r: Option<(string, string)>)
    ensures r.Some? ==> |r.value.1| < |s|
  {
    if s == "" || s[0] != '"' then None
    else
      var m := MatchBody(s[1..]);
      if m.Some? && m.value.1 != "" && m.value.1[0] == ',' then Some((m.value.0, m.value.1[1..])) else m
  }

  /** The groups of all matches, left to right; characters that begin no match are passed over. */
  function FindAll(s: string): seq<string>
    decreases |s|
  {
    if s == "" then []
    else
      var m := MatchString(s);
      if m.Some? then [m.value.0] + FindAll(m.value.1) else FindAll(s[1..])
  }

  lemma MatchPlain(c: char, rest: string)
    requires c != '"' && c != '\\'
    ensures MatchBody([c] + rest) == Prepend([c], MatchBody(rest))
  {
    assert ([c] + rest)[1..] == rest && ([c] + rest)[..1] == [c];
  }

  lemma MatchPair(c: char, rest: string)
    requires c != '\n'
    ensures MatchBody(['\\', c] + rest) == Prepend(['\\', c], MatchBody(rest))
  {
    var t := ['\\', c] + rest;
    assert t[2..] == rest && t[..2] == ['\\', c];
  }

  lemma PrependTwice(a: string, b: string, m: Option<(string, string)>)
    ensures Prepend(a, Prepend(b, m)) == Prepend(a + b, m)
  {
    if m.Some? {
      assert a + (b + m.value.0) == a + b + m.value.0;
    }
  }

  function Prepend(s: string, m: Option<(string, string)>): Option<(string, string)> {
    if m.Some? then Some((s + m.value.0, m.value.1)) else None
  }

  lemma MatchEscaped(c: char, rest: string)
    ensures MatchBody(EscapeChar(c) + rest) == Prepend(EscapeChar(c), MatchBody(rest))
  {
    hide MatchBody;
    var e := EscapeChar(c);
    if |e| == 1 {
      MatchPlain(c, rest);
    } else if |e| == 2 {
      MatchPair(e[1], rest);
      assert e == ['\\', e[1]];
    } else {
      MatchPlain(e[3], rest);
      MatchPlain(e[2], [e[3]] + rest);
      MatchPair('x', [e[2]] + ([e[3]] + rest));
      PrependTwice([e[2]], [e[3]], MatchBody(rest));
      PrependTwice(['\\', 'x'], [e[2]] + [e[3]], MatchBody(rest));
      assert e + rest == ['\\', 'x'] + ([e[2]] + ([e[3]] + rest));
      assert e == ['\\', 'x'] + ([e[2]] + [e[3]]);
    }
  }

  /** The first quote that can close an escaped string is the one that was printed after it. */
  lemma {:induction false} MatchesToClosingQuote(s: string, rest: string)
    ensures MatchBody(Escape(s) + "\"" + rest) == Some((Escape(s), rest))
  {
    hide MatchBody, EscapeChar;
    var tail := "\"" + rest;
    assert Escape(s) + "\"" + rest == Escape(s) + tail;
    if s == "" {
      ClosesAtOnce(rest);
      assert Escape(s) + tail == tail;
    } else {
      MatchesToClosingQuote(s[1..], rest);
      assert Escape(s[1..]) + "\"" + rest == Escape(s[1..]) + tail;
      MatchEscaped(s[0], Escape(s[1..]) + tail);
      assert Escape(s) + tail == EscapeChar(s[0]) + (Escape(s[1..]) + tail);
    }
  }

  lemma ClosesAtOnce(rest: string)
    ensures MatchBody("\"" + rest) == Some(("", rest))
  {
    assert ("\"" + rest)[1..] == rest;
  }

  // ---------------------------------------------------------------- printing strings

  function Quoted(s: string): string {
    "\"" + Escape(s) + "\""
  }

  function Joined(separator: string, parts: seq<string>): string {
    if parts == [] then ""
    else if |parts| == 1 then parts[0]
    else parts[0] + separator + Joined(separator, parts[1..])
  }

  function EscapeEach(ss: seq<string>): seq<string> {
    if ss == [] then [] else [Escape(ss[0])] + EscapeEach(ss[1..])
  }

  function PrintStrings(ss: seq<string>): string {
    var joined := Joined("\",\"", EscapeEach(ss));
    if joined == "" then "" else "\"" + joined + "\""
  }

  lemma QuotedMatches(s: string, rest: string)
    ensures MatchString(Quoted(s) + "," + rest) == Some((Escape(s), rest))
  {
    hide MatchBody, Escape;
    MatchesToClosingQuote(s, "," + rest);
    assert (Quoted(s) + "," + rest)[1..] == Escape(s) + "\"" + ("," + rest);
    assert ("," + rest)[1..] == rest;
  }

  lemma LastQuotedMatches(s: string)
    ensures MatchString(Quoted(s)) == Some((Escape(s), ""))
  {
    hide MatchBody, Escape;
    MatchesToClosingQuote(s, "");
    assert Quoted(s)[1..] == Escape(s) + "\"" + "";
  }

  /** What follows the first opening quote, printed as one comma-separated list of quoted strings. */
  lemma {:induction false} TokensOfQuotedList(ss: seq<string>)
    requires ss != []
    ensures FindAll("\"" + Joined("\",\"", EscapeEach(ss)) + "\"") == EscapeEach(ss)
  {
    var text := "\"" + Joined("\",\"", EscapeEach(ss)) + "\"";
    if |ss| == 1 {
      assert EscapeEach(ss) == [Escape(ss[0])];
      assert text == Quoted(ss[0]);
      LastQuotedMatches(ss[0]);
      assert FindAll("") == [];
    } else {
      var rest := "\"" + Joined("\",\"", EscapeEach(ss[1..])) + "\"";
      assert EscapeEach(ss)[1..] == EscapeEach(ss[1..]);
      assert text == Quoted(ss[0]) + "," + rest;
      QuotedMatches(ss[0], rest);
      TokensOfQuotedList(ss[1..]);
    }
  }

  lemma {:induction false} JoinedIsEmpty(ss: seq<string>)
    ensures Joined("\",\"", EscapeEach(ss)) == "" <==> ss == [] || ss == [""]
  {
    if ss != [] {
      assert EscapeEach(ss)[1..] == EscapeEach(ss[1..]);
      assert |EscapeEach(ss)| == 1 <==> ss[1..] == [];
      assert ss[0] != "" ==> |EscapeChar(ss[0][0])| > 0;
    }
  }

  function UnescapeEach(ss: seq<string>): Option<seq<string>> {
    if ss == [] then Some([])
    else
      var first, rest := Unescape(ss[0]), UnescapeEach(ss[1..]);
      if first.Some? && rest.Some? then Some([first.value] + rest.value) else None
  }

  function ReadStrings(text: string): Option<seq<string>> {
    UnescapeEach(FindAll(text))
  }

  lemma {:induction false} UnescapeEachUndoes(ss: seq<string>)
    ensures UnescapeEach(EscapeEach(ss)) == Some(ss)
  {
    if ss != [] {
      UnescapeUndoesEscape(ss[0]);
      UnescapeEachUndoes(ss[1..]);
      assert [ss[0]] + ss[1..] == ss;
      assert EscapeEach(ss)[1..] == EscapeEach(ss[1..]);
    }
  }

  /** A printed array of strings is read back, except the array of one empty string, which is read as no strings. */
  lemma StringArrayRoundTrip(ss: seq<string>)
    ensures ReadStrings(PrintStrings(ss)) == Some(if ss == [""] then [] else ss)
    ensures ReadStrings(PrintStrings(ss)) == Some(ss) <==> ss != [""]
  {
    JoinedIsEmpty(ss);
    if ss != [] && ss != [""] {
      TokensOfQuotedList(ss);
      UnescapeEachUndoes(ss);
    }
  }

  /** Reading a single string uses the first match and ignores what follows it. */
  function ReadString(text: string): Option<Option<string>> {
    var m := MatchString(text);
    if m.Some? then Some(Unescape(m.value.0)) else None
  }

  lemma StringRoundTrip(s: string)
    ensures ReadString(Quoted(s)) == Some(Some(s))
  {
    LastQuotedMatches(s);
    UnescapeUndoesEscape(s);
  }
}
