/** The items of the persistent file: printing entries, and loading items in the delayed-commit loop. */
module PersistentFile {
  import opened Wrappers
  import opened Protocol
  import opened PersistentText

  /** A value with its strings decoded. */
  datatype Datum =
    | BooleanDatum(b: bool)
    | DoubleDatum(d: Double)
    | StringDatum(s: string)
    | RawDatum(raw: seq<Byte>)
    | BooleansDatum(bs: seq<bool>)
    | DoublesDatum(ds: seq<Double>)
    | StringsDatum(ss: seq<string>)
    | RpcDatum(definition: string)

  /** What the language's library does: `str` and `float` on doubles, and base64. */
  datatype Library = Library(
    printDouble: Double -> string, parseDouble: string -> Option<Double>,
    printRaw: seq<Byte> -> string, parseRaw: string -> Option<seq<Byte>>)

  // ---------------------------------------------------------------- text helpers

  /** The white space that `strip` removes. */
  predicate Space(c: char) {
    var n := c as int;
    9 <= n <= 13 || 28 <= n <= 32 || n == 0x85 || n == 0xA0 || n == 0x1680 || 0x2000 <= n <= 0x200A
    || n == 0x2028 || n == 0x2029 || n == 0x202F || n == 0x205F || n == 0x3000
  }

  function Strip(s: string): string
    decreases |s|
  {
    if s == "" then ""
    else if Space(s[0]) then Strip(s[1..])
    else if Space(s[|s| - 1]) then Strip(s[..|s| - 1])
    else s
  }

  /** The parts of a string between its commas: one more than there are commas. */
  function Split(s: string): (r: seq<string>)
    ensures r != []
  {
    if s == "" then [""]
    else
      var rest := Split(s[1..]);
      if s[0] == ',' then [""] + rest else [[s[0]] + rest[0]] + rest[1..]
  }

  /** A non-empty text without commas and white space. */
  predicate Word(s: string) {
    s != "" && forall i :: 0 <= i < |s| ==> s[i] != ',' && !Space(s[i])
  }

  lemma WordIsStripped(s: string)
    requires Word(s)
    ensures Strip(s) == s
  {
  }

  lemma {:induction false} SplitWord(w: string, rest: string)
    requires forall i :: 0 <= i < |w| ==> w[i] != ','
    ensures Split(w) == [w]
    ensures Split(w + "," + rest) == [w] + Split(rest)
  {
    if w == "" {
      assert ("" + "," + rest)[1..] == rest;
    } else {
      SplitWord(w[1..], rest);
      assert (w + "," + rest)[1..] == w[1..] + "," + rest;
      assert [w[0]] + w[1..] == w;
    }
  }

  /** Splitting undoes joining by commas. */
  lemma {:induction false} SplitUndoesJoin(words: seq<string>)
    requires words != [] && forall i :: 0 <= i < |words| ==> Word(words[i])
    ensures Split(Joined(",", words)) == words
  {
    assert Word(words[0]);
    if |words| == 1 {
      SplitWord(words[0], "");
    } else {
      SplitWord(words[0], Joined(",", words[1..]));
      SplitUndoesJoin(words[1..]);
      assert words == [words[0]] + words[1..];
    }
  }

  lemma {:induction false} JoinOfWordsIsStripped(words: seq<string>)
    requires words != [] && forall i :: 0 <= i < |words| ==> Word(words[i])
    ensures var s := Joined(",", words); s != "" && !Space(s[0]) && !Space(s[|s| - 1]) && Strip(s) == s
  {
    assert Word(words[0]);
    if |words| > 1 {
      JoinOfWordsIsStripped(words[1..]);
    }
  }

  // ---------------------------------------------------------------- keys

  /** The last quote that has something before it. */
  function LastQuote(s: string): (r: Option<nat>)
    ensures r.Some? ==> 0 < r.value < |s| && s[r.value] == '"'
  {
    if |s| < 2 then None
    else if s[|s| - 1] == '"' then Some(|s| - 1)
    else LastQuote(s[..|s| - 1])
  }

  function FirstLine(s: string): string {
    if s == "" || s[0] == '\n' then "" else [s[0]] + FirstLine(s[1..])
  }

  /** Matches a type name followed by ` "(.+)"`: the group, which is as long as possible. */
  function MatchKey(kind: string, key: string): Option<string> {
    var start := kind + " \"";
    if start <= key then
      var line := FirstLine(key[|start|..]);
      var end := LastQuote(line);
      if end.Some? then Some(line[..end.value]) else None
    else None
  }

  function KindOf(v: Datum): string {
    match v
    case BooleanDatum(_) => "boolean"
    case DoubleDatum(_) => "double"
    case StringDatum(_) => "string"
    case RawDatum(_) => "raw"
    case BooleansDatum(_) => "array boolean"
    case DoublesDatum(_) => "array double"
    case StringsDatum(_) => "array string"
    case RpcDatum(_) => ""
  }

  function KeyOf(kind: string, name: string): string {
    kind + " " + Quoted(name)
  }

  lemma {:induction false} EscapedIsOneLine(s: string)
    ensures '\n' !in Escape(s)
    ensures Escape(s) == "" <==> s == ""
  {
    if s != "" {
      EscapedIsOneLine(s[1..]);
      EscapedCharIsOneLine(s[0]);
    }
  }

  lemma EscapedCharIsOneLine(c: char)
    ensures '\n' !in EscapeChar(c) && EscapeChar(c) != ""
  {
  }

  lemma {:induction false} OneLine(s: string)
    requires '\n' !in s
    ensures FirstLine(s) == s
  {
    if s != "" {
      OneLine(s[1..]);
    }
  }

  /** A printed key gives its escaped name back, unless the name is empty. */
  lemma KeyMatches(kind: string, name: string)
    ensures MatchKey(kind, KeyOf(kind, name)) == if name == "" then None else Some(Escape(name))
  {
    hide Escape;
    var start := kind + " \"";
    var rest := Escape(name) + "\"";
    assert KeyOf(kind, name) == start + rest;
    EscapedIsOneLine(name);
    OneLine(rest);
  }

  // ---------------------------------------------------------------- values

  function PrintBool(b: bool): string {
    if b then "true" else "false"
  }

  function PrintBools(bs: seq<bool>): seq<string> {
    if bs == [] then [] else [PrintBool(bs[0])] + PrintBools(bs[1..])
  }

  function PrintDoubles(lib: Library, ds: seq<Double>): seq<string> {
    if ds == [] then [] else [lib.printDouble(ds[0])] + PrintDoubles(lib, ds[1..])
  }

  function PrintDatum(lib: Library, v: Datum): string {
    match v
    case BooleanDatum(b) => PrintBool(b)
    case DoubleDatum(d) => lib.printDouble(d)
    case StringDatum(s) => Quoted(s)
    case RawDatum(raw) => lib.printRaw(raw)
    case BooleansDatum(bs) => Joined(",", PrintBools(bs))
    case DoublesDatum(ds) => Joined(",", PrintDoubles(lib, ds))
    case StringsDatum(ss) => PrintStrings(ss)
    case RpcDatum(_) => ""
  }

  function ParseBool(s: string): Option<bool> {
    if s == "true" then Some(true) else if s == "false" then Some(false) else None
  }

  function ParseBools(parts: seq<string>): Option<seq<bool>> {
    if parts == [] then Some([])
    else
      var first := ParseBool(Strip(parts[0]));
      var rest := ParseBools(parts[1..]);
      if first.Some? && rest.Some? then Some([first.value] + rest.value) else None
  }

  function ParseDoubles(lib: Library, parts: seq<string>): Option<seq<Double>> {
    if parts == [] then Some([])
    else
      var first := lib.parseDouble(parts[0]);
      var rest := ParseDoubles(lib, parts[1..]);
      if first.Some? && rest.Some? then Some([first.value] + rest.value) else None
  }

  /** The parts of an array; blank text is an array without elements. */
  function Parts(text: string): seq<string> {
    if Strip(text) == "" then [] else Split(Strip(text))
  }

  /**
   What one item of the file gives: nothing, a value under a key that is still escaped, or an exception that ends the
   load.
   */
  datatype Item = Skipped | Kept(key: string, value: Datum) | Raised

  function Keep<T>(key: string, v: Option<T>, wrap: T -> Datum): Item {
    if v.Some? then Kept(key, wrap(v.value)) else Skipped
  }

  predicate Ascii(s: string) {
    forall i :: 0 <= i < |s| ==> s[i] < 128 as char
  }

  /**
   A bad double in an array, text that is not ASCII in place of raw bytes, and an escape that cannot be read raise an
   exception; any other bad text only skips the item.
   */
  function ParseItem(lib: Library, key: string, text: string): Item {
    if MatchKey("boolean", key).Some? then
      Keep(MatchKey("boolean", key).value, ParseBool(text), b => BooleanDatum(b))
    else if MatchKey("double", key).Some? then
      Keep(MatchKey("double", key).value, lib.parseDouble(text), d => DoubleDatum(d))
    else if MatchKey("string", key).Some? then
      var s := ReadString(text);
      if s.None? then Skipped
      else if s.value.None? then Raised
      else Kept(MatchKey("string", key).value, StringDatum(s.value.value))
    else if MatchKey("raw", key).Some? then
      if !Ascii(text) then Raised
      else Keep(MatchKey("raw", key).value, lib.parseRaw(text), raw => RawDatum(raw))
    else if MatchKey("array boolean", key).Some? then
      Keep(MatchKey("array boolean", key).value, ParseBools(Parts(text)), bs => BooleansDatum(bs))
    else if MatchKey("array double", key).Some? then
      var ds := ParseDoubles(lib, Parts(text));
      if ds.None? then Raised else Kept(MatchKey("array double", key).value, DoublesDatum(ds.value))
    else if MatchKey("array string", key).Some? then
      var ss := ReadStrings(text);
      if ss.None? then Raised else Kept(MatchKey("array string", key).value, StringsDatum(ss.value))
    else Skipped
  }

  // ---------------------------------------------------------------- one item

  /** The library reads back what it prints of this double, as one word. */
  ghost predicate GoodDouble(lib: Library, d: Double) {
    Word(lib.printDouble(d)) && lib.parseDouble(lib.printDouble(d)) == Some(d)
  }

  ghost predicate Trusted(lib: Library, v: Datum) {
    match v
    case DoubleDatum(d) => GoodDouble(lib, d)
    case DoublesDatum(ds) => forall i :: 0 <= i < |ds| ==> GoodDouble(lib, ds[i])
    case RawDatum(raw) => Ascii(lib.printRaw(raw)) && lib.parseRaw(lib.printRaw(raw)) == Some(raw)
    case _ => true
  }

  lemma {:induction false} BoolsReadBack(bs: seq<bool>)
    ensures var words := PrintBools(bs);
            (words == [] <==> bs == []) && (forall i :: 0 <= i < |words| ==> Word(words[i]))
                && ParseBools(words) == Some(bs)
  {
    if bs != [] {
      BoolsReadBack(bs[1..]);
      assert Word(PrintBool(bs[0]));
      WordIsStripped(PrintBool(bs[0]));
      assert [bs[0]] + bs[1..] == bs;
    }
  }

  lemma {:induction false} DoublesReadBack(lib: Library, ds: seq<Double>)
    requires forall i :: 0 <= i < |ds| ==> GoodDouble(lib, ds[i])
    ensures var words := PrintDoubles(lib, ds);
            (words == [] <==> ds == []) && (forall i :: 0 <= i < |words| ==> Word(words[i]))
            && ParseDoubles(lib, words) == Some(ds)
  {
    if ds != [] {
      DoublesReadBack(lib, ds[1..]);
      assert GoodDouble(lib, ds[0]);
      assert [ds[0]] + ds[1..] == ds;
    }
  }

  lemma PartsOfJoin(words: seq<string>)
    requires forall i :: 0 <= i < |words| ==> Word(words[i])
    ensures Parts(Joined(",", words)) == words
  {
    if words != [] {
      JoinOfWordsIsStripped(words);
      SplitUndoesJoin(words);
    }
  }

  /** What a value is after saving and loading. */
  function Reread(v: Datum): Datum {
    if v == StringsDatum([""]) then StringsDatum([]) else v
  }

  /** The kinds of keys cannot be taken for each other. */
  lemma OnlyItsKind(kind: string, other: string, name: string)
    requires kind in {"boolean", "double", "string", "raw", "array boolean", "array double", "array string"}
    requires other in {"boolean", "double", "string", "raw", "array boolean", "array double", "array string"}
    ensures other != kind ==> MatchKey(other, KeyOf(kind, name)).None?
  {
    hide Quoted, LastQuote, FirstLine;
    var key, start := KeyOf(kind, name), other + " \"";
    assert key[0] == kind[0] && (|kind| > 6 ==> key[6] == kind[6]);
    assert start[0] == other[0] && (|other| > 6 ==> start[6] == other[6]);
  }

  /** A printed value, by itself, is read back as its re-read form. */
  lemma DatumRoundTrip(lib: Library, v: Datum)
    requires Trusted(lib, v)
    ensures match v
            case BooleanDatum(b) => ParseBool(PrintDatum(lib, v)) == Some(b)
            case BooleansDatum(bs) => ParseBools(Parts(PrintDatum(lib, v))) == Some(bs)
            case DoublesDatum(ds) => ParseDoubles(lib, Parts(PrintDatum(lib, v))) == Some(ds)
            case StringDatum(s) => ReadString(PrintDatum(lib, v)) == Some(Some(s))
            case StringsDatum(ss) => ReadStrings(PrintDatum(lib, v)) == Some(Reread(v).ss)
            case _ => true
  {
    match v
    case BooleansDatum(bs) =>
      BoolsReadBack(bs);
      PartsOfJoin(PrintBools(bs));
    case DoublesDatum(ds) =>
      DoublesReadBack(lib, ds);
      PartsOfJoin(PrintDoubles(lib, ds));
    case StringDatum(s) => StringRoundTrip(s);
    case StringsDatum(ss) => StringArrayRoundTrip(ss);
    case _ =>
  }

  /** A saved entry of any type is loaded with its value, unless its name is empty. */
  lemma ItemRoundTrip(lib: Library, name: string, v: Datum)
    requires Trusted(lib, v) && !v.RpcDatum?
    ensures ParseItem(lib, KeyOf(KindOf(v), name), PrintDatum(lib, v)) ==
            if name == "" then Skipped else Kept(Escape(name), Reread(v))
  {
    hide PrintDatum, MatchKey, KeyOf, ReadString, ReadStrings, Parts, Escape;
    var kind := KindOf(v);
    KeyMatches(kind, name);
    OnlyItsKind(kind, "boolean", name);
    OnlyItsKind(kind, "double", name);
    OnlyItsKind(kind, "string", name);
    OnlyItsKind(kind, "raw", name);
    OnlyItsKind(kind, "array boolean", name);
    OnlyItsKind(kind, "array double", name);
    OnlyItsKind(kind, "array string", name);
    DatumRoundTrip(lib, v);
    PrintedAlone(lib, v);
  }

  lemma PrintedAlone(lib: Library, v: Datum)
    ensures v.DoubleDatum? ==> PrintDatum(lib, v) == lib.printDouble(v.d)
    ensures v.RawDatum? ==> PrintDatum(lib, v) == lib.printRaw(v.raw)
  {
  }

  // ---------------------------------------------------------------- whole files

  type Entries = seq<(string, Datum)>
  type Items = seq<(string, string)>

  /** Saving prints one item for each entry that is not an RPC definition. */
  function Saved(lib: Library, entries: Entries): Items {
    if entries == [] then []
    else
      var (name, v) := entries[0];
      (if v.RpcDatum? then [] else [(KeyOf(KindOf(v), name), PrintDatum(lib, v))]) + Saved(lib, entries[1..])
  }

  /** Loading parses the items in order and stops at the first exception. */
  function Loaded(lib: Library, items: Items, prefix: string): Option<Entries> {
    if items == [] then Some([])
    else
      var rest := Loaded(lib, items[1..], prefix);
      match ParseItem(lib, items[0].0, items[0].1)
      case Skipped => rest
      case Raised => None
      case Kept(key, v) => Committed(Unescape(key), v, prefix, rest)
  }

  function Committed(name: Option<string>, v: Datum, prefix: string, rest: Option<Entries>): Option<Entries> {
    if name.None? || rest.None? then None
    else Some((if prefix <= name.value then [(name.value, v)] else []) + rest.value)
  }

  /** The entries that come back: named, of a type that is saved, and under the prefix. */
  function ComesBack(entries: Entries, prefix: string): Entries {
    if entries == [] then []
    else
      var (name, v) := entries[0];
      (if name != "" && !v.RpcDatum? && prefix <= name then [(name, Reread(v))] else [])
          + ComesBack(entries[1..], prefix)
  }

  /** Loading what was saved gives exactly the entries that can come back, in order. */
  lemma {:induction false} FileRoundTrip(lib: Library, entries: Entries, prefix: string)
    requires forall i :: 0 <= i < |entries| ==> Trusted(lib, entries[i].1)
    ensures Loaded(lib, Saved(lib, entries), prefix) == Some(ComesBack(entries, prefix))
  {
    hide ParseItem, PrintDatum, KeyOf, Unescape, Escape, Trusted;
    if entries != [] {
      var (name, v) := entries[0];
      var rest := ComesBack(entries[1..], prefix);
      FileRoundTrip(lib, entries[1..], prefix);
      assert [] + rest == rest && [] + Saved(lib, entries[1..]) == Saved(lib, entries[1..]);
      if !v.RpcDatum? {
        assert Trusted(lib, entries[0].1);
        ItemRoundTrip(lib, name, v);
        UnescapeUndoesEscape(name);
        assert Saved(lib, entries)[1..] == Saved(lib, entries[1..]);
      }
    }
  }

  predicate Durable(e: (string, Datum)) {
    e.0 != "" && !e.1.RpcDatum? && e.1 != StringsDatum([""])
  }

  lemma DurableComesBack(entries: Entries)
    requires entries != [] && Durable(entries[0])
    ensures ComesBack(entries, "") == [entries[0]] + ComesBack(entries[1..], "")
  {
  }

  lemma OtherDoesNotComeBack(entries: Entries)
    requires entries != [] && !Durable(entries[0])
    ensures |ComesBack(entries, "")| <= 1 + |ComesBack(entries[1..], "")|
    ensures |ComesBack(entries, "")| > |ComesBack(entries[1..], "")| ==> ComesBack(entries, "")[0] != entries[0]
  {
  }

  lemma {:induction false} ComesBackUnchangedIff(entries: Entries)
    ensures |ComesBack(entries, "")| <= |entries|
    ensures ComesBack(entries, "") == entries <==> forall e :: e in entries ==> Durable(e)
  {
    if entries == [] {
      assert ComesBack(entries, "") == [];
    } else {
      hide ComesBack, Durable;
      var rest := ComesBack(entries[1..], "");
      ComesBackUnchangedIff(entries[1..]);
      assert entries == [entries[0]] + entries[1..];
      if Durable(entries[0]) {
        DurableComesBack(entries);
        assert ([entries[0]] + rest)[1..] == rest;
      } else {
        OtherDoesNotComeBack(entries);
        assert entries[0] in entries;
      }
    }
  }

  /**
   A whole file comes back as it was exactly when every entry is named, is no RPC, and is not the array of one empty
   string.
   */
  lemma FileIsUnchangedIff(lib: Library, entries: Entries)
    requires forall i :: 0 <= i < |entries| ==> Trusted(lib, entries[i].1)
    ensures Loaded(lib, Saved(lib, entries), "") == Some(entries) <==> forall e :: e in entries ==> Durable(e)
  {
    FileRoundTrip(lib, entries, "");
    ComesBackUnchangedIff(entries);
  }

  // ---------------------------------------------------------------- the loops

  function After<T>(soFar: seq<T>, more: Option<seq<T>>): Option<seq<T>> {
    if more.Some? then Some(soFar + more.value) else None
  }

  lemma AfterNothing<T>(all: Option<seq<T>>)
    ensures After([], all) == all
  {
    if all.Some? {
      assert [] + all.value == all.value;
    }
  }

  lemma AfterOne<T>(soFar: seq<T>, x: T, rest: Option<seq<T>>)
    ensures After(soFar, After([x], rest)) == After(soFar + [x], rest)
  {
    if rest.Some? {
      assert soFar + ([x] + rest.value) == soFar + [x] + rest.value;
    }
  }

  method SaveEntries(lib: Library, entries: Entries) returns (items: Items)
    ensures items == Saved(lib, entries)
  {
    hide PrintDatum, KeyOf, KindOf;
    items := [];
    assert entries[0..] == entries;
    for i := 0 to |entries|
      invariant items + Saved(lib, entries[i..]) == Saved(lib, entries)
    {
      var (name, v) := entries[i];
      ghost var was, tail := items, Saved(lib, entries[i + 1..]);
      assert entries[i..][1..] == entries[i + 1..];
      if !v.RpcDatum? {
        items := items + [(KeyOf(KindOf(v), name), PrintDatum(lib, v))];
        assert items + tail == was + ([(KeyOf(KindOf(v), name), PrintDatum(lib, v))] + tail);
      } else {
        assert [] + tail == tail;
      }
    }
  }

  method ReadBooleanArray(parts: seq<string>) returns (r: Option<seq<bool>>)
    ensures r == ParseBools(parts)
  {
    hide Strip;
    var bools: seq<bool> := [];
    AfterNothing(ParseBools(parts));
    assert parts[0..] == parts;
    for i := 0 to |parts|
      invariant ParseBools(parts) == After(bools, ParseBools(parts[i..]))
    {
      var b := ParseBool(Strip(parts[i]));
      assert parts[i..][1..] == parts[i + 1..];
      if b.None? {
        return None;
      }
      AfterOne(bools, b.value, ParseBools(parts[i + 1..]));
      bools := bools + [b.value];
    }
    assert bools + [] == bools;
    r := Some(bools);
  }

  method ReadDoubleArray(lib: Library, parts: seq<string>) returns (r: Option<seq<Double>>)
    ensures r == ParseDoubles(lib, parts)
  {
    var doubles: seq<Double> := [];
    AfterNothing(ParseDoubles(lib, parts));
    assert parts[0..] == parts;
    for i := 0 to |parts|
      invariant ParseDoubles(lib, parts) == After(doubles, ParseDoubles(lib, parts[i..]))
    {
      var d := lib.parseDouble(parts[i]);
      assert parts[i..][1..] == parts[i + 1..];
      if d.None? {
        return None;
      }
      AfterOne<Double>(doubles, d.value, ParseDoubles(lib, parts[i + 1..]));
      doubles := doubles + [d.value];
    }
    assert doubles + [] == doubles;
    r := Some(doubles);
  }

  /** The entry that is committed at the start of the next round, if any, followed by what the other items give. */
  function Pending(m: string, value: Option<Datum>, prefix: string, rest: Option<Entries>): Option<Entries> {
    if value.Some? then Committed(Unescape(m), value.value, prefix, rest) else rest
  }

  /** The loop keeps the last value and match, and commits them a round later; this changes nothing. */
  method LoadEntries(lib: Library, items: Items, prefix: string) returns (r: Option<Entries>)
    ensures r == Loaded(lib, items, prefix)
  {
    hide ParseItem, Unescape;
    var entries: Entries := [];
    var value: Option<Datum>, m := None, "";
    AfterNothing(Loaded(lib, items, prefix));
    assert items[0..] == items;
    for i := 0 to |items|
      invariant Loaded(lib, items, prefix) == After(entries, Pending(m, value, prefix, Loaded(lib, items[i..], prefix)))
    {
      ghost var rest := Loaded(lib, items[i..], prefix);
      ghost var tail := Loaded(lib, items[i + 1..], prefix);
      assert items[i..][1..] == items[i + 1..];
      if value.Some? {
        var key := Unescape(m);
        if key.None? {
          return None;
        }
        CommitIs(entries, key.value, value.value, prefix, rest);
        if prefix <= key.value {
          entries := entries + [(key.value, value.value)];
        }
      }
      value := None;
      var item := ParseItem(lib, items[i].0, items[i].1);
      match item {
        case Skipped =>
        case Raised => return None;
        case Kept(key, v) => m, value := key, Some(v);
      }
    }
    if value.Some? {
      var key := Unescape(m);
      if key.None? {
        return None;
      }
      CommitIs(entries, key.value, value.value, prefix, Some([]));
      if prefix <= key.value {
        entries := entries + [(key.value, value.value)];
      }
    }
    assert entries + [] == entries;
    r := Some(entries);
  }

  lemma CommitIs(entries: Entries, name: string, v: Datum, prefix: string, rest: Option<Entries>)
    ensures After(entries, Committed(Some(name), v, prefix, rest)) ==
            After(if prefix <= name then entries + [(name, v)] else entries, rest)
  {
    if rest.Some? {
      assert entries + ([(name, v)] + rest.value) == entries + [(name, v)] + rest.value;
      assert [] + rest.value == rest.value;
    }
  }
}
