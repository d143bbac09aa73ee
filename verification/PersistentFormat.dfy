/** The text of the persistent file, item by item: what is printed, and what becomes of text that is not as printed. */
module PersistentFormat {
  import opened Wrappers
  import opened Protocol
  import opened PersistentText
  import opened PersistentFile

  // ---------------------------------------------------------------- strings

  /** A character that stands for itself in the file. */
  predicate Plain(c: char) {
    (' ' <= c <= '~' && c != '"' && c != '\\') || c as int >= 0x100
  }

  /** Two digits of a number in base 16, in lower case. */
  predicate Hex(n: nat, hi: char, lo: char) {
    HexValue(hi).Some? && HexValue(lo).Some? && n == 16 * HexValue(hi).value + HexValue(lo).value
    && (hi < 'A' || hi >= 'a') && (lo < 'A' || lo >= 'a')
  }

  /** Quotes and backslashes get a backslash, three characters have letters of their own, and the rest a number. */
  lemma EscapeLooks(c: char)
    ensures var e := EscapeChar(c);
            if Plain(c) then e == [c]
            else if c == '"' || c == '\\' then e == ['\\', c]
            else if c == '\n' then e == ['\\', 'n']
            else if c == '\t' then e == ['\\', 't']
            else if c == '\r' then e == ['\\', 'r']
            else |e| == 4 && e[..2] == ['\\', 'x'] && Hex(c as int, e[2], e[3])
  {
  }

  /** The one-letter escapes of Python's string literals, and the numbers of their characters. */
  function PythonCode(c: char): Option<int> {
    match c
    case '\\' => Some(92)
    case '"' => Some(34)
    case '\'' => Some(39)
    case 'a' => Some(7)
    case 'b' => Some(8)
    case 't' => Some(9)
    case 'n' => Some(10)
    case 'v' => Some(11)
    case 'f' => Some(12)
    case 'r' => Some(13)
    case _ => None
  }

  /** A backslash before another character stays, before the end of a line both go. */
  lemma OneEscape(c: char)
    requires c != 'x' && c !in "01234567NuU\r\0"
    ensures match Literal(['\\', c])
            case None => false
            case Some(s) =>
              if PythonCode(c).Some? then |s| == 1 && s[0] as int == PythonCode(c).value
              else if c == '\n' then s == "" else s == ['\\', c]
  {
    var t := ['\\', c];
    assert t[2..] == "";
    assert Literal("") == Some("");
    assert [c] + "" == [c] && Cons(c, Some("")) == Some([c] + "");
  }

  /** A number of two digits, in either case; nothing less will do. */
  lemma HexEscape(hi: char, lo: char)
    ensures var s := Literal(['\\', 'x', hi, lo]);
            if HexValue(hi).None? || HexValue(lo).None? then s == None
            else s.Some? && |s.value| == 1 && s.value[0] as int == 16 * HexValue(hi).value + HexValue(lo).value
    ensures Literal(['\\', 'x', hi]) == None && Literal(['\\', 'x']) == None && Literal(['\\']) == None
  {
    var t := ['\\', 'x', hi, lo];
    assert t[4..] == "";
    assert Literal("") == Some("");
    assert t[..3] == ['\\', 'x', hi];
  }

  // ---------------------------------------------------------------- items

  const KINDS := {"boolean", "double", "string", "raw", "array boolean", "array double", "array string"}

  /** The key of an item is the name of its type, a space and the quoted name. */
  lemma KeyLooks(lib: Library, name: string, v: Datum)
    ensures v.RpcDatum? ==> Saved(lib, [(name, v)]) == []
    ensures !v.RpcDatum? ==>
              && |Saved(lib, [(name, v)])| == 1 && Saved(lib, [(name, v)])[0].1 == PrintDatum(lib, v)
              && var key := Saved(lib, [(name, v)])[0].0;
                 match v
                 case BooleanDatum(_) => key == "boolean \"" + Escape(name) + "\""
                 case DoubleDatum(_) => key == "double \"" + Escape(name) + "\""
                 case StringDatum(_) => key == "string \"" + Escape(name) + "\""
                 case RawDatum(_) => key == "raw \"" + Escape(name) + "\""
                 case BooleansDatum(_) => key == "array boolean \"" + Escape(name) + "\""
                 case DoublesDatum(_) => key == "array double \"" + Escape(name) + "\""
                 case StringsDatum(_) => key == "array string \"" + Escape(name) + "\""
                 case RpcDatum(_) => true
  {
    hide Escape, PrintDatum;
    assert [(name, v)][1..] == [];
    var kind, e := KindOf(v), Escape(name);
    assert kind + " " + ("\"" + e + "\"") == kind + " \"" + e + "\"";
  }

  /** A value is printed as its type says; the elements of arrays are separated by commas. */
  lemma ValueLooks(lib: Library, b: bool, b': bool, d: Double, d': Double)
    ensures PrintDatum(lib, BooleanDatum(b)) == if b then "true" else "false"
    ensures PrintDatum(lib, BooleansDatum([b, b']))
            == (if b then "true" else "false") + "," + (if b' then "true" else "false")
    ensures PrintDatum(lib, DoublesDatum([d, d'])) == lib.printDouble(d) + "," + lib.printDouble(d')
    ensures PrintDatum(lib, BooleansDatum([])) == PrintDatum(lib, DoublesDatum([])) == ""
  {
    hide PrintBool;
    var one: seq<Double>, two: seq<Double> := [d'], [d, d'];
    assert [b, b'][1..] == [b'] && [b'][1..] == [] && two[1..] == one && one[1..] == [];
    JoinedTwo(",", PrintBool(b), PrintBool(b'));
    JoinedTwo(",", lib.printDouble(d), lib.printDouble(d'));
    assert PrintBools([b']) == [PrintBool(b')];
    PrintOneDouble(lib, one);
    assert PrintBools([b, b']) == [PrintBool(b), PrintBool(b')];
    assert PrintDoubles(lib, two) == [lib.printDouble(d), lib.printDouble(d')];
    PrintBoolLooks(b);
    PrintBoolLooks(b');
  }

  lemma TextLooks(lib: Library, s: string, s': string)
    ensures PrintDatum(lib, StringDatum(s)) == "\"" + Escape(s) + "\""
    ensures PrintDatum(lib, StringsDatum([s, s'])) == "\"" + Escape(s) + "\",\"" + Escape(s') + "\""
    ensures PrintDatum(lib, StringsDatum([])) == ""
  {
    hide Escape;
    assert [s, s'][1..] == [s'] && [s'][1..] == [];
    JoinedTwo("\",\"", Escape(s), Escape(s'));
    assert EscapeEach([s']) == [Escape(s')];
    assert EscapeEach([s, s']) == [Escape(s), Escape(s')];
    var e, e' := Escape(s), Escape(s');
    assert "\"" + (e + "\",\"" + e') + "\"" == "\"" + e + "\",\"" + e' + "\"";
  }

  lemma PrintOneDouble(lib: Library, ds: seq<Double>)
    requires |ds| == 1
    ensures PrintDoubles(lib, ds) == [lib.printDouble(ds[0])]
  {
    assert ds[1..] == [];
    assert PrintDoubles(lib, ds[1..]) == [];
  }

  lemma PrintBoolLooks(b: bool)
    ensures PrintBool(b) == if b then "true" else "false"
  {
  }

  lemma JoinedTwo(separator: string, a: string, b: string)
    ensures Joined(separator, [a, b]) == a + separator + b
  {
    assert [a, b][1..] == [b];
  }

  // ---------------------------------------------------------------- text that is not as printed

  /** What becomes of the text of one item under a printed key, for any text. */
  lemma TextIsRead(lib: Library, name: string, text: string)
    requires name != ""
    ensures ParseItem(lib, KeyOf("boolean", name), text)
            == if text == "true" || text == "false" then Kept(Escape(name), BooleanDatum(text == "true")) else Skipped
    ensures ParseItem(lib, KeyOf("double", name), text)
            == match lib.parseDouble(text)
               case Some(d) => Kept(Escape(name), DoubleDatum(d))
               case None => Skipped
    ensures ParseItem(lib, KeyOf("raw", name), text)
            == if exists i :: 0 <= i < |text| && text[i] as int >= 128 then Raised
               else match lib.parseRaw(text)
                    case Some(raw) => Kept(Escape(name), RawDatum(raw))
                    case None => Skipped
  {
    hide Escape, MatchKey, KeyOf, ReadString, ReadStrings, ParseBools, ParseDoubles, Parts;
    OnlyThisKind("boolean", name);
    OnlyThisKind("double", name);
    OnlyThisKind("raw", name);
  }

  lemma OnlyThisKind(kind: string, name: string)
    requires kind in KINDS && name != ""
    ensures MatchKey(kind, KeyOf(kind, name)) == Some(Escape(name))
    ensures forall other :: other in KINDS && other != kind ==> MatchKey(other, KeyOf(kind, name)).None?
  {
    KeyMatches(kind, name);
    forall other | other in KINDS && other != kind ensures MatchKey(other, KeyOf(kind, name)).None? {
      OnlyItsKind(kind, other, name);
    }
  }

  lemma {:induction false} BoolPartsAre(parts: seq<string>)
    ensures ParseBools(parts).Some?
            <==> forall i :: 0 <= i < |parts| ==> Strip(parts[i]) == "true" || Strip(parts[i]) == "false"
    ensures ParseBools(parts).Some? ==>
              |ParseBools(parts).value| == |parts|
              && forall i :: 0 <= i < |parts| ==> (ParseBools(parts).value[i] <==> Strip(parts[i]) == "true")
  {
    hide Strip;
    if parts != [] {
      BoolPartsAre(parts[1..]);
      assert forall i :: 1 <= i < |parts| ==> parts[1..][i - 1] == parts[i];
    }
  }

  lemma {:induction false} DoublePartsAre(lib: Library, parts: seq<string>)
    ensures ParseDoubles(lib, parts).Some? <==> forall i :: 0 <= i < |parts| ==> lib.parseDouble(parts[i]).Some?
    ensures ParseDoubles(lib, parts).Some? ==>
              |ParseDoubles(lib, parts).value| == |parts|
              && forall i :: 0 <= i < |parts| ==> Some(ParseDoubles(lib, parts).value[i]) == lib.parseDouble(parts[i])
  {
    if parts != [] {
      DoublePartsAre(lib, parts[1..]);
      assert forall i :: 1 <= i < |parts| ==> parts[1..][i - 1] == parts[i];
    }
  }

  /** One bad element: an array of booleans is passed over as a whole, one of doubles ends the load. */
  lemma ArraysAreRead(lib: Library, name: string, text: string)
    requires name != ""
    ensures ParseItem(lib, KeyOf("array boolean", name), text)
            == if ParseBools(Parts(text)).Some? then Kept(Escape(name), BooleansDatum(ParseBools(Parts(text)).value))
               else Skipped
    ensures ParseItem(lib, KeyOf("array double", name), text)
            == if ParseDoubles(lib, Parts(text)).Some? then
                 Kept(Escape(name), DoublesDatum(ParseDoubles(lib, Parts(text)).value))
               else Raised
    ensures ParseItem(lib, KeyOf("array string", name), text)
            == if ReadStrings(text).Some? then Kept(Escape(name), StringsDatum(ReadStrings(text).value)) else Raised
    ensures ParseItem(lib, KeyOf("string", name), text)
            == match ReadString(text)
               case None => Skipped
               case Some(None) => Raised
               case Some(Some(s)) => Kept(Escape(name), StringDatum(s))
  {
    hide Escape, MatchKey, KeyOf, ReadString, ReadStrings, ParseBools, ParseDoubles, Parts;
    OnlyThisKind("array boolean", name);
    OnlyThisKind("array double", name);
    OnlyThisKind("array string", name);
    OnlyThisKind("string", name);
  }

  /** White space around the elements does not matter; blank text is an array without elements. */
  lemma SpacesAround(text: string)
    requires text != "" && Space(text[0])
    ensures Parts(text) == Parts(text[1..])
  {
  }

  lemma SpacesBehind(text: string, c: char)
    requires Space(c)
    ensures Parts(text + [c]) == Parts(text)
  {
    StripLast(text, c);
  }

  lemma {:induction false} StripLast(text: string, c: char)
    requires Space(c)
    ensures Strip(text + [c]) == Strip(text)
    decreases |text|
  {
    hide Space;
    var t := text + [c];
    if text == "" {
      assert t[1..] == "";
    } else if Space(text[0]) {
      assert t[1..] == text[1..] + [c];
      StripLast(text[1..], c);
    } else {
      assert t[..|t| - 1] == text;
    }
  }

  /** A name that cannot be unescaped ends the load, as does an item that raises; one that is passed over does not. */
  lemma LoadStopsIff(lib: Library, item: (string, string), rest: Items, prefix: string)
    ensures Loaded(lib, [item] + rest, prefix).None?
            <==> Loaded(lib, rest, prefix).None? || ParseItem(lib, item.0, item.1).Raised?
                 || (ParseItem(lib, item.0, item.1).Kept? && Unescape(ParseItem(lib, item.0, item.1).key).None?)
    ensures Loaded(lib, rest, prefix).Some? && ParseItem(lib, item.0, item.1).Skipped? ==>
              Loaded(lib, [item] + rest, prefix) == Loaded(lib, rest, prefix)
  {
    hide ParseItem, Unescape;
    assert ([item] + rest)[1..] == rest;
  }
}
