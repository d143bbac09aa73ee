/**
 How the patterns of the loader go through any text, printed or not: where a quoted string ends, what the tokeniser
 passes over, how an array is cut up, and what a key is.
 */
module PersistentScan {
  import opened Wrappers
  import opened PersistentText
  import opened PersistentFile

  // ---------------------------------------------------------------- quoted strings

  /** A character that the backslash before it takes part in: an odd number of backslashes leads up to it. */
  predicate Escaped(s: string, j: nat)
    requires j <= |s|
  {
    Backslashes(s[..j]) % 2 == 1
  }

  /** The first quote that is not escaped; before it no end of line is, for the pattern's dot does not match one. */
  predicate ClosesAt(s: string, k: nat): (closes: bool)
    ensures closes ==> k < |s|
  {
    && k < |s| && s[k] == '"' && !Escaped(s, k)
    && (forall j :: 0 <= j < k && s[j] == '"' ==> Escaped(s, j))
    && (forall j :: 0 <= j < k && s[j] == '\n' ==> !Escaped(s, j))
  }

  /** One plain character, or a backslash and what it escapes. */
  predicate Unit(u: string) {
    (|u| == 1 && u[0] != '\\') || (|u| == 2 && u[0] == '\\')
  }

  lemma {:induction false} UnitKeepsParity(u: string, t: string)
    requires Unit(u)
    ensures Backslashes(u + t) % 2 == Backslashes(t) % 2
    decreases |t|
  {
    if t == "" {
      assert u + t == u;
      if |u| == 2 {
        assert u[..1] == ['\\'] && ['\\'][..0] == "";
        assert Backslashes(u[..1]) == 1;
      }
    } else {
      assert (u + t)[..|u + t| - 1] == u + t[..|t| - 1];
      UnitKeepsParity(u, t[..|t| - 1]);
    }
  }

  /** Whether a character is escaped does not depend on the units before it. */
  lemma AfterUnit(s: string, n: nat, j: nat)
    requires n <= j <= |s| && Unit(s[..n])
    ensures Escaped(s, j) <==> Escaped(s[n..], j - n)
  {
    UnitKeepsParity(s[..n], s[n..j]);
    assert s[..j] == s[..n] + s[n..j];
    assert s[n..][..j - n] == s[n..j];
  }

  lemma StartsUnescaped(s: string)
    ensures !Escaped(s, 0)
    ensures |s| >= 1 ==> (Escaped(s, 1) <==> s[0] == '\\')
  {
    assert s[..0] == "";
    if |s| >= 1 { assert s[..1][..0] == ""; }
  }

  lemma ClosesAfterUnit(s: string, n: nat, k: nat)
    requires n <= |s| && Unit(s[..n]) && s[0] != '"' && !(n == 2 && s[1] == '\n')
    ensures ClosesAt(s[n..], k) <==> ClosesAt(s, k + n)
  {
    hide Backslashes, Escaped;
    StartsUnescaped(s);
    forall j | n <= j <= |s| ensures Escaped(s, j) <==> Escaped(s[n..], j - n) { AfterUnit(s, n, j); }
  }

  /** The closing quote at the beginning. */
  lemma ClosesAtOnce(s: string, k: nat)
    requires s != "" && s[0] == '"'
    ensures ClosesAt(s, k) <==> k == 0
  {
    StartsUnescaped(s);
  }

  /** Half an escape, or an escaped end of line: the string never closes. */
  lemma NeverCloses(s: string, k: nat)
    requires s != "" && s[0] == '\\' && (|s| == 1 || s[1] == '\n')
    ensures !ClosesAt(s, k)
  {
    StartsUnescaped(s);
  }

  /** A string ends at its first quote that is not escaped, unless an end of line is escaped before it. */
  lemma {:induction false} StringEnds(s: string, k: nat)
    requires ClosesAt(s, k)
    ensures MatchBody(s) == Some((s[..k], s[k + 1..]))
    decreases |s|
  {
    hide Backslashes, Escaped, ClosesAt;
    if s[0] == '"' {
      ClosesAtOnce(s, k);
    } else if s[0] == '\\' && (|s| == 1 || s[1] == '\n') {
      NeverCloses(s, k);
    } else {
      var n := if s[0] == '\\' then 2 else 1;
      NotInside(s, n, k);
      ClosesAfterUnit(s, n, k - n);
      StringEnds(s[n..], k - n);
      assert s[..n] + s[n..][..k - n] == s[..k] && s[n..][k - n + 1..] == s[k + 1..];
    }
  }

  lemma NotInside(s: string, n: nat, k: nat)
    requires ClosesAt(s, k) && s != "" && s[0] != '"' && n == (if s[0] == '\\' then 2 else 1) && n <= |s|
    ensures n <= k < |s|
  {
    StartsUnescaped(s);
  }

  lemma {:induction false} StringDoesNotEnd(s: string)
    requires forall k: nat :: !ClosesAt(s, k)
    ensures MatchBody(s).None?
    decreases |s|
  {
    hide Backslashes, Escaped, ClosesAt;
    if s != "" {
      if s[0] == '"' { ClosesAtOnce(s, 0); }
      else if !(s[0] == '\\' && (|s| == 1 || s[1] == '\n')) {
        var n := if s[0] == '\\' then 2 else 1;
        forall k: nat ensures !ClosesAt(s[n..], k) { ClosesAfterUnit(s, n, k); }
        StringDoesNotEnd(s[n..]);
      }
    }
  }

  /** A single string is what its opening quote and the end so found enclose; what follows is ignored. */
  lemma SingleString(text: string, k: nat)
    ensures text == "" || text[0] != '"' ==> ReadString(text).None?
    ensures text != "" && text[0] == '"' && ClosesAt(text[1..], k) ==>
              ReadString(text) == Some(Unescape(text[1..][..k]))
    ensures text != "" && text[0] == '"' && (forall j: nat :: !ClosesAt(text[1..], j)) ==> ReadString(text).None?
  {
    hide ClosesAt, MatchBody, Unescape;
    if text != "" && text[0] == '"' {
      if ClosesAt(text[1..], k) { StringEnds(text[1..], k); }
      if forall j: nat :: !ClosesAt(text[1..], j) { StringDoesNotEnd(text[1..]); }
    }
  }

  /** The tokeniser passes over what is no string, one character at a time, and over one comma after each string. */
  lemma TokensGoOn(text: string, k: nat)
    requires text != ""
    ensures text[0] != '"' || (forall j: nat :: !ClosesAt(text[1..], j)) ==> FindAll(text) == FindAll(text[1..])
    ensures text[0] == '"' && ClosesAt(text[1..], k) ==>
              var rest := text[1..][k + 1..];
              FindAll(text) == [text[1..][..k]] + FindAll(if rest != "" && rest[0] == ',' then rest[1..] else rest)
  {
    hide ClosesAt, MatchBody;
    if text[0] == '"' {
      if ClosesAt(text[1..], k) { StringEnds(text[1..], k); }
      if forall j: nat :: !ClosesAt(text[1..], j) { StringDoesNotEnd(text[1..]); }
    }
  }

  /** Text without a backslash is taken as it is; otherwise it is a literal, which has no quote and no end of line. */
  lemma UnescapeLooks(s: string)
    ensures '\\' !in s ==> Unescape(s) == Some(s)
    ensures '\\' in s ==> Unescape(s) == Literal(s)
    ensures s != "" && (s[0] == '"' || s[0] as int == 10 || s[0] as int == 13 || s[0] as int == 0) ==> Literal(s).None?
    ensures s != "" && s[0] != '\\' && s[0] != '"' && s[0] as int !in {0, 10, 13} ==>
              (Literal(s).Some? <==> Literal(s[1..]).Some?)
              && (Literal(s).Some? ==> Literal(s).value == [s[0]] + Literal(s[1..]).value)
  {
  }

  // ---------------------------------------------------------------- arrays and keys

  /** The parts of an array are what its commas separate: none is lost, and none has a comma. */
  lemma {:induction false} PartsMakeText(s: string)
    ensures Joined(",", Split(s)) == s && forall i :: 0 <= i < |Split(s)| ==> ',' !in Split(s)[i]
  {
    if s != "" {
      PartsMakeText(s[1..]);
      var rest := Split(s[1..]);
      if s[0] == ',' {
        assert ([""] + rest)[1..] == rest;
        assert [','] + s[1..] == s;
      } else {
        assert ([[s[0]] + rest[0]] + rest[1..])[1..] == rest[1..];
        JoinedFirst(",", s[0], rest);
        assert [s[0]] + s[1..] == s;
      }
    }
  }

  lemma JoinedFirst(separator: string, c: char, parts: seq<string>)
    requires parts != []
    ensures Joined(separator, [[c] + parts[0]] + parts[1..]) == [c] + Joined(separator, parts)
  {
    var more := [[c] + parts[0]] + parts[1..];
    assert more[1..] == parts[1..];
    if |parts| > 1 {
      assert ([c] + parts[0]) + separator + Joined(separator, parts[1..])
             == [c] + (parts[0] + separator + Joined(separator, parts[1..]));
    }
  }

  predicate Blank(s: string) {
    forall i :: 0 <= i < |s| ==> Space(s[i])
  }

  lemma StripIs(s: string)
    ensures s == "" ==> Strip(s) == ""
    ensures s != "" && Space(s[0]) ==> Strip(s) == Strip(s[1..])
    ensures s != "" && !Space(s[0]) && Space(s[|s| - 1]) ==> Strip(s) == Strip(s[..|s| - 1])
    ensures s != "" && !Space(s[0]) && !Space(s[|s| - 1]) ==> Strip(s) == s
  {
    hide Space;
  }

  /** Stripping takes away white space at both ends, and all of it. */
  lemma {:induction false} Stripped(s: string) returns (a: string, b: string)
    ensures Blank(a) && Blank(b) && s == a + Strip(s) + b
    ensures Strip(s) != "" ==> !Space(Strip(s)[0]) && !Space(Strip(s)[|Strip(s)| - 1])
    decreases |s|
  {
    hide Space, Strip;
    StripIs(s);
    a, b := "", "";
    if s != "" && Space(s[0]) {
      a, b := Stripped(s[1..]);
      assert s == [s[0]] + s[1..];
      a := [s[0]] + a;
    } else if s != "" && Space(s[|s| - 1]) {
      a, b := Stripped(s[..|s| - 1]);
      assert s == s[..|s| - 1] + [s[|s| - 1]];
      b := b + [s[|s| - 1]];
    }
  }

  /** The white space of Python's strings. */
  lemma SpaceLooks(c: char)
    ensures Space(c) <==>
              c as int in {9, 10, 11, 12, 13, 28, 29, 30, 31, 32, 0x85, 0xA0, 0x1680, 0x2000, 0x2001, 0x2002, 0x2003,
                           0x2004, 0x2005, 0x2006, 0x2007, 0x2008, 0x2009, 0x200A, 0x2028, 0x2029, 0x202F, 0x205F,
                           0x3000}
  {
  }

  /** The first line of what follows the opening quote of a key. */
  predicate IsFirstLine(line: string, text: string) {
    line <= text && '\n' !in line && (|line| < |text| ==> text[|line|] == '\n')
  }

  lemma {:induction false} FirstLineIs(text: string)
    ensures IsFirstLine(FirstLine(text), text)
  {
    if text != "" && text[0] != '\n' {
      FirstLineIs(text[1..]);
      var line := FirstLine(text);
      assert line[1..] == FirstLine(text[1..]);
      if |line| < |text| { assert text[1..][|line| - 1] == text[|line|]; }
    }
  }

  lemma {:induction false} LastQuoteIs(s: string, k: nat)
    ensures LastQuote(s) == Some(k) <==> 0 < k < |s| && s[k] == '"' && forall j :: k < j < |s| ==> s[j] != '"'
    decreases |s|
  {
    if |s| >= 2 && s[|s| - 1] != '"' {
      LastQuoteIs(s[..|s| - 1], k);
    }
  }

  /** A key has the name of its type, a space, a quote, and then everything up to the last quote of the line. */
  lemma KeyIs(kind: string, key: string, group: string)
    ensures MatchKey(kind, key) == Some(group)
            <==> group != "" && kind + " \"" <= key
                 && var line := FirstLine(key[|kind| + 2..]);
                    group + "\"" <= line && forall j :: |group| < j < |line| ==> line[j] != '"'
  {
    hide FirstLine, LastQuote;
    var start := kind + " \"";
    if start <= key {
      var line := FirstLine(key[|start|..]);
      LastQuoteIs(line, |group|);
      if LastQuote(line).Some? {
        var k := LastQuote(line).value;
        LastQuoteIs(line, k);
        assert line[..k] + "\"" == line[..k + 1];
      }
      if group + "\"" <= line { assert line[..|group|] == group && line[|group|] == (group + "\"")[|group|]; }
    }
  }
}
