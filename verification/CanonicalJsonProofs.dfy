/** Reading canonical text back, and injectivity up to key order. */
module CanonicalJsonProofs {
  import opened Basics
  import opened CanonicalJson

  // ---- A reader for the printed form -----------------------------------------------------------

  function HexValue(u: CodeUnit): Option<int> {
    if 0x30 <= u <= 0x39 then Some(u - 0x30) else if 0x61 <= u <= 0x66 then Some(u - 0x61 + 10) else None
  }

  function ShortUnescape(u: CodeUnit): Option<CodeUnit> {
    if u == QUOTE || u == BACKSLASH then Some(u)
    else if u == 0x62 then Some(0x08)
    else if u == 0x66 then Some(0x0c)
    else if u == 0x6e then Some(0x0a)
    else if u == 0x72 then Some(0x0d)
    else if u == 0x74 then Some(0x09)
    else None
  }

  function ReadHex(t: Text): (r: Option<CodeUnit>)
    requires |t| == 4
  {
    var a, b, c, d := HexValue(t[0]), HexValue(t[1]), HexValue(t[2]), HexValue(t[3]);
    if a.Some? && b.Some? && c.Some? && d.Some? && 0 <= a.value < 16 && 0 <= b.value < 16 && 0 <= c.value < 16 && 0 <= d.value < 16
    then Some(a.value * 4096 + b.value * 256 + c.value * 16 + d.value) else None
  }

  function Prepend(u: Text, r: Option<(Text, Text)>): Option<(Text, Text)> {
    if r.None? then None else Some((u + r.value.0, r.value.1))
  }

  /** The rest of a string whose opening quote has been read, and what follows it. */
  function ReadString(t: Text): (r: Option<(Text, Text)>)
    ensures r.Some? ==> |r.value.1| < |t|
  {
    if t == [] then None
    else if t[0] == QUOTE then Some(([], t[1..]))
    else if t[0] != BACKSLASH then Prepend([t[0]], ReadString(t[1..]))
    else if |t| >= 6 && t[1] == LOWER_U then
      var u := ReadHex(t[2..6]);
      if u.None? then None else Prepend([u.value], ReadString(t[6..]))
    else if |t| >= 2 && ShortUnescape(t[1]).Some? then Prepend([ShortUnescape(t[1]).value], ReadString(t[2..]))
    else None
  }

  function NumberRun(t: Text): (n: nat)
    ensures n <= |t|
  {
    if t == [] || !NumberUnit(t[0]) then 0 else 1 + NumberRun(t[1..])
  }

  /** One value from the front of a text, and what follows it. */
  function Parse(t: Text): (r: Option<(Value, Text)>)
    ensures r.Some? ==> |r.value.1| < |t|
    decreases |t|, 0
  {
    if t == [] then None
    else if NULL_TEXT <= t then Some((VNull, t[4..]))
    else if TRUE_TEXT <= t then Some((VBool(true), t[4..]))
    else if FALSE_TEXT <= t then Some((VBool(false), t[5..]))
    else if t[0] == QUOTE then
      var s := ReadString(t[1..]);
      if s.None? then None else Some((VStr(s.value.0), s.value.1))
    else if t[0] == OPEN_BRACKET then
      if |t| > 1 && t[1] == CLOSE_BRACKET then Some((VArr([]), t[2..]))
      else
        var items := ParseItems(t[1..]);
        if items.None? then None else Some((VArr(items.value.0), items.value.1))
    else if t[0] == OPEN_BRACE then
      if |t| > 1 && t[1] == CLOSE_BRACE then Some((VObj(map[]), t[2..]))
      else
        var members := ParseMembers(t[1..]);
        if members.None? then None else Some((VObj(members.value.0), members.value.1))
    else
      var n := NumberRun(t);
      if n == 0 then None else Some((VNum(t[..n]), t[n..]))
  }

  function ParseItems(t: Text): (r: Option<(seq<Value>, Text)>)
    ensures r.Some? ==> |r.value.1| < |t|
    decreases |t|, 1
  {
    var first := Parse(t);
    if first.None? then None
    else
      var rest := first.value.1;
      if rest != [] && rest[0] == CLOSE_BRACKET then Some(([first.value.0], rest[1..]))
      else if rest != [] && rest[0] == COMMA then
        var more := ParseItems(rest[1..]);
        if more.None? then None else Some(([first.value.0] + more.value.0, more.value.1))
      else None
  }

  function ParseMembers(t: Text): (r: Option<(map<Text, Value>, Text)>)
    ensures r.Some? ==> |r.value.1| < |t|
    decreases |t|, 1
  {
    if t == [] || t[0] != QUOTE then None
    else
      var key := ReadString(t[1..]);
      if key.None? || key.value.1 == [] || key.value.1[0] != COLON then None
      else
        var value := Parse(key.value.1[1..]);
        if value.None? then None
        else
          var rest := value.value.1;
          if rest != [] && rest[0] == CLOSE_BRACE then Some((map[key.value.0 := value.value.0], rest[1..]))
          else if rest != [] && rest[0] == COMMA then
            var more := ParseMembers(rest[1..]);
            if more.None? then None else Some((more.value.0[key.value.0 := value.value.0], more.value.1))
          else None
  }

  // ---- Strings read back -------------------------------------------------------------------------

  lemma DigitReadsBack(d: int)
    requires 0 <= d < 16
    ensures HexValue(HexDigit(d)) == Some(d)
  {
  }

  lemma HexReadsBack(u: CodeUnit)
    ensures ReadHex(UnicodeEscape(u)[2..6]) == Some(u)
  {
    hide HexValue, HexDigit;
    var t := UnicodeEscape(u);
    var a, b, c, d := u / 4096, u / 256 % 16, u / 16 % 16, u % 16;
    DigitReadsBack(a);
    DigitReadsBack(b);
    DigitReadsBack(c);
    DigitReadsBack(d);
    assert t[2..6] == [HexDigit(a), HexDigit(b), HexDigit(c), HexDigit(d)];
    DigitsAddUp(u);
  }

  lemma DigitsAddUp(u: CodeUnit)
    ensures u == u / 4096 * 4096 + u / 256 % 16 * 256 + u / 16 % 16 * 16 + u % 16
  {
    var x := u / 16;
    var y := x / 16;
    assert u == 16 * x + u % 16 && x == 16 * y + x % 16 && y == 16 * (y / 16) + y % 16;
    DividedTwice(u);
    DividedAgain(u);
  }

  lemma DividedTwice(u: CodeUnit)
    ensures u / 16 / 16 == u / 256
  {
  }

  lemma DividedAgain(u: CodeUnit)
    ensures u / 256 / 16 == u / 4096
  {
  }

  lemma UnitReadsBack(u: CodeUnit, rest: Text)
    ensures ReadString(EscapeUnit(u) + rest) == Prepend([u], ReadString(rest))
  {
    var e := EscapeUnit(u);
    assert (e + rest)[|e|..] == rest;
    if ShortEscape(u).None? && (u < 0x20 || High(u) || Low(u)) {
      assert (e + rest)[2..6] == UnicodeEscape(u)[2..6];
      HexReadsBack(u);
    }
  }

  lemma PlainUnit(u: CodeUnit, t: Text)
    requires u != QUOTE && u != BACKSLASH
    ensures ReadString([u] + t) == Prepend([u], ReadString(t))
  {
    assert ([u] + t)[1..] == t;
  }

  lemma {:induction false} StringReadsBack(s: Text, rest: Text)
    ensures ReadString(Escape(s) + [QUOTE] + rest) == Some((s, rest))
    decreases s, 1
  {
    if s == [] {
      assert Escape(s) + [QUOTE] + rest == [QUOTE] + rest;
    } else if |s| > 1 && High(s[0]) && Low(s[1]) {
      PairReadsBack(s, rest);
    } else {
      var t := Escape(s[1..]) + [QUOTE] + rest;
      assert Escape(s) + [QUOTE] + rest == EscapeUnit(s[0]) + t;
      UnitReadsBack(s[0], t);
      StringReadsBack(s[1..], rest);
      assert s == [s[0]] + s[1..];
    }
  }

  lemma PairReadsBack(s: Text, rest: Text)
    requires |s| > 1 && High(s[0]) && Low(s[1])
    ensures ReadString(Escape(s) + [QUOTE] + rest) == Some((s, rest))
    decreases s, 0
  {
    var t := Escape(s[2..]) + [QUOTE] + rest;
    var u := [s[1]] + t;
    assert s[..2] == [s[0]] + [s[1]];
    assert Escape(s) + [QUOTE] + rest == [s[0]] + u;
    StringReadsBack(s[2..], rest);
    PlainUnit(s[1], t);
    PlainUnit(s[0], u);
    assert s == [s[0]] + ([s[1]] + s[2..]);
  }

  // ---- And is the text JSON.stringify writes ------------------------------------------------------------

  /** Every high surrogate is followed by a low one, and no low one stands alone. */
  predicate WellPaired(t: Text) {
    t == [] || if High(t[0]) then |t| > 1 && Low(t[1]) && WellPaired(t[2..]) else !Low(t[0]) && WellPaired(t[1..])
  }

  lemma {:induction false} PlainBefore(a: Text, t: Text)
    requires WellPaired(t) && forall i :: 0 <= i < |a| ==> !High(a[i]) && !Low(a[i])
    ensures WellPaired(a + t)
  {
    if a == [] {
      assert a + t == t;
    } else {
      PlainBefore(a[1..], t);
      assert (a + t)[1..] == a[1..] + t;
    }
  }

  lemma EscapeUnitIsPlain(u: CodeUnit)
    ensures forall i :: 0 <= i < |EscapeUnit(u)| ==> EscapeUnit(u)[i] >= 0x20 && !High(EscapeUnit(u)[i]) && !Low(EscapeUnit(u)[i])
  {
  }

  /** What is written is well-formed UTF-16 without control characters, whatever the string holds. */
  lemma {:induction false} EscapedIsWellFormed(s: Text)
    ensures WellPaired(Escape(s)) && forall i :: 0 <= i < |Escape(s)| ==> Escape(s)[i] >= 0x20
    decreases |s|
  {
    hide EscapeUnit;
    if s != [] {
      if |s| > 1 && High(s[0]) && Low(s[1]) {
        EscapedIsWellFormed(s[2..]);
        assert Escape(s)[2..] == Escape(s[2..]);
      } else {
        EscapedIsWellFormed(s[1..]);
        EscapeUnitIsPlain(s[0]);
        PlainBefore(EscapeUnit(s[0]), Escape(s[1..]));
      }
    }
  }

  /** A well-formed string without quotes, backslashes or control characters is written as it is. */
  lemma {:induction false} PlainIsItself(s: Text)
    requires WellPaired(s) && forall i :: 0 <= i < |s| ==> s[i] >= 0x20 && s[i] != 0x22 && s[i] != 0x5c
    ensures Escape(s) == s
    decreases |s|
  {
    if s != [] {
      if |s| > 1 && High(s[0]) && Low(s[1]) {
        PlainIsItself(s[2..]);
        assert s == s[..2] + s[2..];
      } else {
        PlainIsItself(s[1..]);
        assert s == [s[0]] + s[1..];
      }
    }
  }

  /** Seven units have a two-unit escape; every other one that is escaped takes six. */
  lemma EscapesAreShort(u: CodeUnit)
    ensures |EscapeUnit(u)| == 2 <==> u in {0x08, 0x09, 0x0a, 0x0c, 0x0d, 0x22, 0x5c}
    ensures |EscapeUnit(u)| in {1, 2, 6} && (|EscapeUnit(u)| == 1 ==> EscapeUnit(u) == [u])
  {
  }

  /** The code units of characters inside the basic plane. */
  function Units(s: string): (r: Text)
    ensures |r| == |s| && forall i :: 0 <= i < |s| ==> r[i] == s[i] as int % 0x1_0000
  {
    seq(|s|, i requires 0 <= i < |s| => s[i] as int % 0x1_0000)
  }

  /** The grammar's own spellings: sections 2, 3 and 7 of RFC 8259, hexadecimal digits in lower case. */
  lemma SpelledAsJson()
    ensures Print(Null) == Print(Undefined) == Print(NonFinite) == Units("null")
    ensures Print(Bool(true)) == Units("true") && Print(Bool(false)) == Units("false")
    ensures [OPEN_BRACKET, COMMA, CLOSE_BRACKET, OPEN_BRACE, COLON, CLOSE_BRACE] == Units("[,]{:}")
    ensures [QUOTE, BACKSLASH, LOWER_U] == Units("\"\\u")
    ensures seq(16, d requires 0 <= d < 16 => HexDigit(d)) == Units("0123456789abcdef")
  {
    assert Units("null") == ['n' as int, 'u' as int, 'l' as int, 'l' as int];
    assert Units("true") == ['t' as int, 'r' as int, 'u' as int, 'e' as int];
    assert Units("false") == ['f' as int, 'a' as int, 'l' as int, 's' as int, 'e' as int];
  }

  // ---- Values read back -----------------------------------------------------------------------------

  /** A text that can follow a number without being read as part of it. */
  predicate Ends(rest: Text) { rest == [] || !NumberUnit(rest[0]) }

  lemma {:induction false} NumberReadsBack(d: Text, rest: Text)
    requires (forall i :: 0 <= i < |d| ==> NumberUnit(d[i])) && Ends(rest)
    ensures NumberRun(d + rest) == |d|
  {
    if d == [] {
      assert d + rest == rest;
    } else {
      assert (d + rest)[1..] == d[1..] + rest;
      NumberReadsBack(d[1..], rest);
    }
  }

  lemma {:induction false} ValueReadsBack(v: Json, rest: Text)
    requires WellFormed(v) && !HasForeign(v) && Ends(rest)
    ensures Parse(Print(v) + rest) == Some((Meaning(v), rest))
    decreases v, 1, 0
  {
    hide ReadString, Escape, ParseItems, ParseMembers, PrintItems, PrintEntries;
    var t := Print(v) + rest;
    match v
    case Undefined => assert t[4..] == rest;
    case Null => assert t[4..] == rest;
    case NonFinite => assert t[4..] == rest;
    case Bool(b) => assert t[0] == Print(v)[0] && Print(v) <= t && t[|Print(v)|..] == rest;
    case Num(digits) =>
      NumberReadsBack(digits, rest);
      assert t[0] == digits[0] && t[..|digits|] == digits && t[|digits|..] == rest;
    case Str(s) =>
      assert t == [QUOTE] + (Escape(s) + [QUOTE] + rest);
      assert t[1..] == Escape(s) + [QUOTE] + rest;
      StringReadsBack(s, rest);
    case Arr(items) => ArrayReadsBack(items, v, rest);
    case Obj(entries) => ObjectReadsBack(entries, v, rest);
  }

  ghost function Meanings(items: seq<Json>): seq<Value> {
    seq(|items|, i requires 0 <= i < |items| => Meaning(items[i]))
  }

  lemma ArrayReadsBack(items: seq<Json>, v: Json, rest: Text)
    requires v == Arr(items) && WellFormed(v) && !HasForeign(v) && Ends(rest)
    ensures Parse(Print(v) + rest) == Some((Meaning(v), rest))
    decreases v, 0, |items| + 1
  {
    var t := Print(v) + rest;
    var tail := PrintItems(items, v) + ([CLOSE_BRACKET] + rest);
    assert t == [OPEN_BRACKET] + tail && t[1..] == tail;
    assert Meaning(v) == VArr(Meanings(items));
    if items == [] {
      assert t[2..] == rest;
      assert Meanings(items) == [];
    } else {
      ItemsReadBack(items, v, rest);
      FirstUnit(items[0]);
      ItemsStart(items, v, [CLOSE_BRACKET] + rest);
    }
  }

  /** No value's text begins with a closing bracket or brace, or is empty. */
  lemma FirstUnit(v: Json)
    requires WellFormed(v) && !HasForeign(v)
    ensures Print(v) != [] && Print(v)[0] != CLOSE_BRACKET && Print(v)[0] != CLOSE_BRACE
  {
  }

  lemma ItemsStart(items: seq<Json>, whole: Json, tail: Text)
    requires items != [] && forall i :: 0 <= i < |items| ==> items[i] < whole
    requires WellFormed(items[0]) && !HasForeign(items[0])
    ensures PrintItems(items, whole) != [] && (PrintItems(items, whole) + tail)[0] == Print(items[0])[0]
  {
    FirstUnit(items[0]);
  }

  lemma {:induction false} ItemsReadBack(items: seq<Json>, whole: Json, rest: Text)
    requires items != [] && forall i :: 0 <= i < |items| ==> items[i] < whole && WellFormed(items[i]) && !HasForeign(items[i])
    ensures ParseItems(PrintItems(items, whole) + ([CLOSE_BRACKET] + rest)) == Some((Meanings(items), rest))
    decreases whole, 0, |items|
  {
    hide Print, Parse, Meaning, ReadString, WellFormed, HasForeign;
    var close := [CLOSE_BRACKET] + rest;
    assert close[1..] == rest;
    if |items| == 1 {
      ValueReadsBack(items[0], close);
      assert Meanings(items) == [Meaning(items[0])];
    } else {
      var tail := PrintItems(items[1..], whole) + close;
      assert PrintItems(items, whole) + close == Print(items[0]) + ([COMMA] + tail);
      assert ([COMMA] + tail)[1..] == tail;
      ValueReadsBack(items[0], [COMMA] + tail);
      ItemsReadBack(items[1..], whole, rest);
      assert Meanings(items) == [Meaning(items[0])] + Meanings(items[1..]);
    }
  }

  // ---- Objects ------------------------------------------------------------------------------------------

  ghost predicate Printable(entries: seq<Entry>, whole: Json) {
    forall e :: e in entries ==> e.value < whole && Kept(e) && WellFormed(e.value) && !HasForeign(e.value)
  }

  lemma EntryReadsBack(e: Entry, whole: Json, rest: Text)
    requires e.value < whole && WellFormed(e.value) && !HasForeign(e.value) && Ends(rest)
    ensures var t := PrintEntry(e, whole) + rest;
            && t[0] == QUOTE
            && ReadString(t[1..]) == Some((e.key, [COLON] + (Print(e.value) + rest)))
            && Parse(([COLON] + (Print(e.value) + rest))[1..]) == Some((Meaning(e.value), rest))
    decreases whole, 0, 0
  {
    hide Print, Parse, Meaning, ReadString, Escape, WellFormed, HasForeign;
    var after := [COLON] + (Print(e.value) + rest);
    var t := PrintEntry(e, whole) + rest;
    assert t == [QUOTE] + (Escape(e.key) + [QUOTE] + after);
    assert t[1..] == Escape(e.key) + [QUOTE] + after;
    StringReadsBack(e.key, after);
    assert after[1..] == Print(e.value) + rest;
    ValueReadsBack(e.value, rest);
  }

  lemma {:induction false} EntriesReadBack(entries: seq<Entry>, whole: Json, rest: Text)
    requires entries != [] && Printable(entries, whole)
    ensures ParseMembers(PrintEntries(entries, whole) + ([CLOSE_BRACE] + rest)) == Some((Members(entries, whole), rest))
    decreases whole, 0, |entries|
  {
    hide Print, Parse, Meaning, ReadString, Escape, WellFormed, HasForeign, ParseMembers, PrintEntry;
    var close := [CLOSE_BRACE] + rest;
    assert close[1..] == rest;
    assert entries[0] in entries;
    HeadTail(entries);
    if |entries| == 1 {
      EntryReadsBack(entries[0], whole, close);
      LastMember(PrintEntry(entries[0], whole) + close, entries[0].key, Meaning(entries[0].value), rest);
      assert Members(entries[1..], whole) == map[];
    } else {
      var tail := PrintEntries(entries[1..], whole) + close;
      var after := [COMMA] + tail;
      assert after[1..] == tail;
      var t := PrintEntry(entries[0], whole) + after;
      assert PrintEntries(entries, whole) + close == t;
      EntryReadsBack(entries[0], whole, after);
      EntriesReadBack(entries[1..], whole, rest);
      OneMember(t, entries[0].key, Meaning(entries[0].value), tail);
    }
  }

  /** The reader's step over the last member. */
  lemma LastMember(t: Text, key: Text, value: Value, rest: Text)
    requires t != [] && t[0] == QUOTE
    requires var k := ReadString(t[1..]);
             k.Some? && k.value.0 == key && k.value.1 != [] && k.value.1[0] == COLON
             && Parse(k.value.1[1..]) == Some((value, [CLOSE_BRACE] + rest))
    ensures ParseMembers(t) == Some((map[key := value], rest))
  {
    hide ReadString, Parse;
    assert ([CLOSE_BRACE] + rest)[1..] == rest;
  }

  /** The reader's step over one member that a comma follows. */
  lemma OneMember(t: Text, key: Text, value: Value, tail: Text)
    requires t != [] && t[0] == QUOTE
    requires var k := ReadString(t[1..]);
             k.Some? && k.value.0 == key && k.value.1 != [] && k.value.1[0] == COLON
             && Parse(k.value.1[1..]) == Some((value, [COMMA] + tail))
    ensures ParseMembers(t) == var more := ParseMembers(tail);
              if more.None? then None else Some((more.value.0[key := value], more.value.1))
  {
    assert ([COMMA] + tail)[1..] == tail;
  }

  ghost predicate DistinctKeys(entries: seq<Entry>) {
    entries == [] || ((forall e :: e in entries[1..] ==> e.key != entries[0].key) && DistinctKeys(entries[1..]))
  }

  ghost predicate KeptUnder(entries: seq<Entry>, k: Text) { exists e :: e in entries && Kept(e) && e.key == k }

  lemma KeptUnderStep(entries: seq<Entry>, k: Text)
    requires entries != []
    ensures KeptUnder(entries, k) <==> (Kept(entries[0]) && entries[0].key == k) || KeptUnder(entries[1..], k)
  {
    HeadTail(entries);
  }

  /** With distinct keys, membership in the map is membership in the list. */
  lemma {:induction false} MembersByKey(entries: seq<Entry>, whole: Json)
    requires DistinctKeys(entries) && forall e :: e in entries ==> e.value < whole
    ensures var m := Members(entries, whole);
            && (forall e :: e in entries && Kept(e) ==> e.key in m && m[e.key] == Meaning(e.value))
            && (forall k :: k in m ==> KeptUnder(entries, k))
  {
    if entries != [] {
      HeadTail(entries);
      MembersByKey(entries[1..], whole);
      hide KeptUnder;
      forall k | k in Members(entries, whole) ensures KeptUnder(entries, k) { KeptUnderStep(entries, k); }
    }
  }

  lemma {:induction false} IndexedKeysDistinct(entries: seq<Entry>)
    requires forall i, j :: 0 <= i < j < |entries| ==> entries[i].key != entries[j].key
    ensures DistinctKeys(entries)
  {
    if entries != [] {
      IndexedKeysDistinct(entries[1..]);
    }
  }

  lemma {:induction false} KeptDistinct(entries: seq<Entry>)
    requires DistinctKeys(entries)
    ensures DistinctKeys(Filter(Kept, entries)) && Distinct(Filter(Kept, entries))
  {
    if entries != [] {
      KeptDistinct(entries[1..]);
      FilterMembers(Kept, entries[1..]);
      var f := Filter(Kept, entries);
      if Kept(entries[0]) { assert f[1..] == Filter(Kept, entries[1..]); }
    }
  }

  lemma {:induction false} SameKeySameEntry(entries: seq<Entry>, a: Entry, b: Entry)
    requires DistinctKeys(entries) && a in entries && b in entries && a.key == b.key
    ensures a == b
  {
    HeadTail(entries);
    if a != entries[0] && b != entries[0] {
      SameKeySameEntry(entries[1..], a, b);
    }
  }

  /** Keys order the entries of an object. */
  lemma KeysOrder(entries: seq<Entry>)
    requires DistinctKeys(entries)
    ensures OrdersAll(KeyBefore, entries)
  {
    forall x, y | x in entries && y in entries
      ensures x != y ==> KeyBefore(x, y) || KeyBefore(y, x)
      ensures !(KeyBefore(x, y) && KeyBefore(y, x))
    {
      BeforeTotal(x.key, y.key);
      if x.key == y.key { SameKeySameEntry(entries, x, y); }
    }
    forall x, y, z | x in entries && y in entries && z in entries && KeyBefore(x, y) && KeyBefore(y, z)
      ensures KeyBefore(x, z)
    {
      BeforeTransitive(x.key, y.key, z.key);
    }
  }

  /** What an object prints: ascending by key, with distinct keys. */
  lemma PrintedAscends(entries: seq<Entry>)
    requires DistinctKeys(entries)
    ensures AscendingBy(KeyBefore, Printed(entries)) && DistinctKeys(Printed(entries))
  {
    var kept := Filter(Kept, entries);
    KeptDistinct(entries);
    KeysOrder(kept);
    SortByAscending(KeyBefore, kept, kept);
    AscendingDistinct(Printed(entries));
  }

  /** So in print each key stands before the next by code units, at whatever depth the object is. */
  lemma KeysArePrintedInOrder(entries: seq<Entry>, i: nat, j: nat)
    requires DistinctKeys(entries) && i < j < |Printed(entries)|
    ensures Before(Printed(entries)[i].key, Printed(entries)[j].key)
  {
    PrintedAscends(entries);
    AscendingAt(KeyBefore, Printed(entries), i, j);
  }

  lemma {:induction false} AscendingDistinct(entries: seq<Entry>)
    requires AscendingBy(KeyBefore, entries)
    ensures DistinctKeys(entries)
  {
    if entries != [] {
      AscendingDistinct(entries[1..]);
      forall e | e in entries[1..] ensures e.key != entries[0].key {
        BeforeTotal(e.key, e.key);
        assert KeyBefore(entries[0], e);
      }
    }
  }

  lemma SortingKeepsMembers(entries: seq<Entry>, whole: Json)
    requires DistinctKeys(entries) && forall e :: e in entries ==> e.value < whole
    ensures Members(Printed(entries), whole) == Members(entries, whole)
  {
    hide Meaning;
    PrintedAscends(entries);
    MembersByKey(entries, whole);
    MembersByKey(Printed(entries), whole);
  }

  lemma PrintedPrintable(entries: seq<Entry>, v: Json)
    requires v == Obj(entries) && WellFormed(v) && !HasForeign(v)
    ensures Printable(Printed(entries), v)
  {
    forall e | e in Printed(entries) ensures e.value < v && Kept(e) && WellFormed(e.value) && !HasForeign(e.value) {
      var i :| 0 <= i < |entries| && entries[i] == e;
    }
  }

  /** The reader on a brace and what follows it. */
  lemma OpenBrace(t: Text, tail: Text)
    requires t == [OPEN_BRACE] + tail && tail != []
    ensures Parse(t) == if tail[0] == CLOSE_BRACE then Some((VObj(map[]), tail[1..])) else
              var m := ParseMembers(tail); if m.None? then None else Some((VObj(m.value.0), m.value.1))
  {
    assert t[1..] == tail && t[2..] == tail[1..];
  }

  lemma ObjectReadsBack(entries: seq<Entry>, v: Json, rest: Text)
    requires v == Obj(entries) && WellFormed(v) && !HasForeign(v) && Ends(rest)
    ensures Parse(Print(v) + rest) == Some((Meaning(v), rest))
    decreases v, 0, |Printed(entries)| + 1
  {
    var printed, close := Printed(entries), [CLOSE_BRACE] + rest;
    var tail := PrintEntries(printed, v) + close;
    assert Print(v) + rest == [OPEN_BRACE] + tail;
    OpenBrace(Print(v) + rest, tail);
    IndexedKeysDistinct(entries);
    SortingKeepsMembers(entries, v);
    PrintedPrintable(entries, v);
    if printed == [] {
      assert tail == close && close[1..] == rest;
    } else {
      EntriesReadBack(printed, v, rest);
      assert tail[0] == QUOTE;
    }
  }

  // ---- Main results ---------------------------------------------------------------------------------------

  /** The printed text determines the value. */
  lemma SameTextSameMeaning(a: Json, b: Json)
    requires WellFormed(a) && !HasForeign(a) && WellFormed(b) && !HasForeign(b) && Print(a) == Print(b)
    ensures Meaning(a) == Meaning(b)
  {
    ValueReadsBack(a, []);
    ValueReadsBack(b, []);
  }

  ghost function Keys(entries: seq<Entry>): (r: seq<Text>)
    ensures |r| == |entries| && forall i :: 0 <= i < |r| ==> r[i] == entries[i].key
  {
    seq(|entries|, i requires 0 <= i < |entries| => entries[i].key)
  }

  lemma {:induction false} KeysAscend(entries: seq<Entry>)
    requires AscendingBy(KeyBefore, entries)
    ensures AscendingBy(Before, Keys(entries))
  {
    if entries != [] {
      KeysAscend(entries[1..]);
      assert Keys(entries)[1..] == Keys(entries[1..]);
      forall k | k in Keys(entries[1..]) ensures Before(entries[0].key, k) {
        var i :| 0 <= i < |entries[1..]| && entries[1..][i].key == k;
        assert KeyBefore(entries[0], entries[1..][i]);
      }
    }
  }

  lemma TextsOrdered(all: seq<Text>)
    ensures OrdersAll(Before, all)
  {
    forall x, y | x in all && y in all
      ensures x != y ==> Before(x, y) || Before(y, x)
      ensures !(Before(x, y) && Before(y, x))
    {
      BeforeTotal(x, y);
    }
    forall x, y, z | x in all && y in all && z in all && Before(x, y) && Before(y, z) ensures Before(x, z) {
      BeforeTransitive(x, y, z);
    }
  }

  /** Objects with the same members print the same keys in the same order. */
  lemma SameMembersSameKeys(a: seq<Entry>, b: seq<Entry>, va: Json, vb: Json)
    requires DistinctKeys(a) && DistinctKeys(b)
    requires (forall e :: e in a ==> e.value < va) && (forall e :: e in b ==> e.value < vb)
    requires Members(a, va).Keys == Members(b, vb).Keys
    ensures Keys(Printed(a)) == Keys(Printed(b))
  {
    PrintedAscends(a);
    PrintedAscends(b);
    KeysAscend(Printed(a));
    KeysAscend(Printed(b));
    MembersByKey(Printed(a), va);
    MembersByKey(Printed(b), vb);
    SortingKeepsMembers(a, va);
    SortingKeepsMembers(b, vb);
    KeysAreMembers(Printed(a), va);
    KeysAreMembers(Printed(b), vb);
    TextsOrdered(Keys(Printed(a)));
    AscendingUnique(Before, Keys(Printed(a)), Keys(Printed(a)), Keys(Printed(b)));
  }

  lemma KeysAreMembers(entries: seq<Entry>, whole: Json)
    requires DistinctKeys(entries) && forall e :: e in entries ==> e.value < whole && Kept(e)
    ensures forall k :: k in Keys(entries) <==> k in Members(entries, whole)
  {
    MembersByKey(entries, whole);
    forall k ensures k in Keys(entries) <==> k in Members(entries, whole) {
      if k in Keys(entries) {
        var i :| 0 <= i < |entries| && entries[i].key == k;
        assert entries[i] in entries;
      }
      if k in Members(entries, whole) {
        var e :| e in entries && Kept(e) && e.key == k;
        var i :| 0 <= i < |entries| && entries[i] == e;
        assert Keys(entries)[i] == k;
      }
    }
  }

  lemma {:induction false} SameMeaningSameText(a: Json, b: Json)
    requires WellFormed(a) && !HasForeign(a) && WellFormed(b) && !HasForeign(b) && Meaning(a) == Meaning(b)
    ensures Print(a) == Print(b)
    decreases a, 1, 0
  {
    match a
    case Arr(items) =>
      assert b.Arr?;
      assert Meanings(items) == Meanings(b.items);
      SameItems(items, b.items, a, b);
    case Obj(entries) =>
      assert b.Obj?;
      IndexedKeysDistinct(entries);
      IndexedKeysDistinct(b.entries);
      SameMembersSameKeys(entries, b.entries, a, b);
      PrintedPrintable(entries, a);
      PrintedPrintable(b.entries, b);
      SameValuesUnderKeys(entries, b.entries, a, b);
      SameEntries(Printed(entries), Printed(b.entries), a, b);
    case _ =>
  }

  lemma SameValuesUnderKeys(ea: seq<Entry>, eb: seq<Entry>, a: Json, b: Json)
    requires DistinctKeys(ea) && DistinctKeys(eb) && Printable(Printed(ea), a) && Printable(Printed(eb), b)
    requires (forall e :: e in ea ==> e.value < a) && (forall e :: e in eb ==> e.value < b)
    requires Members(ea, a) == Members(eb, b) && Keys(Printed(ea)) == Keys(Printed(eb))
    ensures Alike(Printed(ea), Printed(eb))
  {
    var pa, pb := Printed(ea), Printed(eb);
    MembersByKey(ea, a);
    MembersByKey(eb, b);
    forall i | 0 <= i < |pa| ensures pa[i].key == pb[i].key && Meaning(pa[i].value) == Meaning(pb[i].value) {
      assert Keys(pa)[i] == Keys(pb)[i] && |Keys(pa)| == |Keys(pb)|;
      assert pa[i] in pa && pb[i] in pb;
    }
    assert |Keys(pa)| == |Keys(pb)|;
  }

  ghost predicate Alike(ea: seq<Entry>, eb: seq<Entry>) {
    |ea| == |eb| && forall i :: 0 <= i < |ea| ==> ea[i].key == eb[i].key && Meaning(ea[i].value) == Meaning(eb[i].value)
  }

  lemma {:induction false} SameItems(x: seq<Json>, y: seq<Json>, a: Json, b: Json)
    requires Meanings(x) == Meanings(y)
    requires forall i :: 0 <= i < |x| ==> x[i] < a && WellFormed(x[i]) && !HasForeign(x[i])
    requires forall i :: 0 <= i < |y| ==> y[i] < b && WellFormed(y[i]) && !HasForeign(y[i])
    ensures PrintItems(x, a) == PrintItems(y, b)
    decreases a, 0, |x|
  {
    assert |x| == |Meanings(x)| == |y|;
    if x != [] {
      assert Meanings(x)[0] == Meaning(x[0]) && Meanings(y)[0] == Meaning(y[0]);
      SameMeaningSameText(x[0], y[0]);
      assert Meanings(x[1..]) == Meanings(x)[1..] && Meanings(y[1..]) == Meanings(y)[1..];
      SameItems(x[1..], y[1..], a, b);
    }
  }

  lemma {:induction false} SameEntries(ea: seq<Entry>, eb: seq<Entry>, a: Json, b: Json)
    requires Alike(ea, eb) && Printable(ea, a) && Printable(eb, b)
    ensures PrintEntries(ea, a) == PrintEntries(eb, b)
    decreases a, 0, |ea|
  {
    hide Print, Meaning, Escape, WellFormed, HasForeign;
    if ea != [] {
      HeadTail(ea);
      HeadTail(eb);
      SameMeaningSameText(ea[0].value, eb[0].value);
      SameEntries(ea[1..], eb[1..], a, b);
    }
  }

  /**
    Canonical text is injective up to key order, and no finer: two printable values share a text if
    and only if they mean the same, objects being maps, an absent member and an `undefined` one being
    the same, and `undefined` or a non-finite number elsewhere standing for null.
   */
  lemma CanonicalIsInjective(a: Json, b: Json)
    requires WellFormed(a) && WellFormed(b)
    ensures Canonical(a).Some? && Canonical(b).Some? ==> (Canonical(a) == Canonical(b) <==> Meaning(a) == Meaning(b))
  {
    if !HasForeign(a) && !HasForeign(b) {
      if Print(a) == Print(b) { SameTextSameMeaning(a, b); }
      if Meaning(a) == Meaning(b) { SameMeaningSameText(a, b); }
    }
  }

  /** Why the value has to be plain: these are different values with one text. */
  lemma NonPlainValuesCollide()
    ensures Canonical(Arr([Undefined])) == Canonical(Arr([NonFinite])) == Canonical(Arr([Null]))
    ensures Arr([Undefined]) != Arr([Null]) && Arr([NonFinite]) != Arr([Null])
  {
    var u, n, z := Arr([Undefined]), Arr([NonFinite]), Arr([Null]);
    assert PrintItems([Undefined], u) == PrintItems([NonFinite], n) == PrintItems([Null], z) == NULL_TEXT;
  }
}
