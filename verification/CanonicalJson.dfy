/**
  Deterministic JSON with keys sorted at every depth, and why two values share a text exactly when
  they are the same value up to key order (packages/core/src/segments/hash.ts).
 */
module CanonicalJson {
  import opened Basics

  /**
    A JavaScript value as the printer sees it. A finite number is identified with the text
    `Number::toString` gives it; `NonFinite` is NaN or an infinity; `Foreign` is a class instance,
    Map, Date or anything else whose prototype is not a plain object's.
   */
  datatype Json =
    | Undefined
    | Null
    | Bool(b: bool)
    | Num(digits: Text)
    | NonFinite
    | Str(s: Text)
    | Arr(items: seq<Json>)
    | Obj(entries: seq<Entry>)
    | Foreign

  datatype Entry = Entry(key: Text, value: Json)

  /** What a value means as plain JSON: objects are maps, so key order is gone by construction. */
  datatype Value =
    | VNull
    | VBool(b: bool)
    | VNum(digits: Text)
    | VStr(s: Text)
    | VArr(items: seq<Value>)
    | VObj(members: map<Text, Value>)

  // ---- Character classes ---------------------------------------------------------------------

  const QUOTE: CodeUnit := 0x22
  const BACKSLASH: CodeUnit := 0x5c
  const COMMA: CodeUnit := 0x2c
  const COLON: CodeUnit := 0x3a
  const OPEN_BRACKET: CodeUnit := 0x5b
  const CLOSE_BRACKET: CodeUnit := 0x5d
  const OPEN_BRACE: CodeUnit := 0x7b
  const CLOSE_BRACE: CodeUnit := 0x7d
  const LOWER_U: CodeUnit := 0x75

  const NULL_TEXT: Text := [0x6e, 0x75, 0x6c, 0x6c]
  const TRUE_TEXT: Text := [0x74, 0x72, 0x75, 0x65]
  const FALSE_TEXT: Text := [0x66, 0x61, 0x6c, 0x73, 0x65]

  /** `0`-`9`, `-`, `+`, `.`, `e`: everything a printed number is made of. */
  predicate NumberUnit(u: CodeUnit) {
    0x30 <= u <= 0x39 || u == 0x2d || u == 0x2b || u == 0x2e || u == 0x65
  }

  predicate NumberText(t: Text) {
    t != [] && (0x30 <= t[0] <= 0x39 || t[0] == 0x2d) && forall i :: 0 <= i < |t| ==> NumberUnit(t[i])
  }

  predicate High(u: CodeUnit) { 0xd800 <= u < 0xdc00 }

  predicate Low(u: CodeUnit) { 0xdc00 <= u < 0xe000 }

  // ---- Strings: section 7 of RFC 8259, as JSON.stringify writes them ---------------------------

  function HexDigit(d: int): CodeUnit
    requires 0 <= d < 16
  {
    if d < 10 then 0x30 + d else 0x61 + d - 10
  }

  function UnicodeEscape(u: CodeUnit): Text {
    [BACKSLASH, LOWER_U, HexDigit(u / 4096), HexDigit(u / 256 % 16), HexDigit(u / 16 % 16), HexDigit(u % 16)]
  }

  /** The letter after the backslash, for the units that have a short escape. */
  function ShortEscape(u: CodeUnit): Option<CodeUnit> {
    if u == QUOTE || u == BACKSLASH then Some(u)
    else if u == 0x08 then Some(0x62)
    else if u == 0x0c then Some(0x66)
    else if u == 0x0a then Some(0x6e)
    else if u == 0x0d then Some(0x72)
    else if u == 0x09 then Some(0x74)
    else None
  }

  function EscapeUnit(u: CodeUnit): Text {
    if ShortEscape(u).Some? then [BACKSLASH, ShortEscape(u).value]
    else if u < 0x20 || High(u) || Low(u) then UnicodeEscape(u)
    else [u]
  }

  /** A surrogate pair is written as it is; a lone surrogate is escaped. */
  function Escape(s: Text): Text {
    if s == [] then []
    else if |s| > 1 && High(s[0]) && Low(s[1]) then s[..2] + Escape(s[2..])
    else EscapeUnit(s[0]) + Escape(s[1..])
  }

  function Quote(s: Text): Text { [QUOTE] + Escape(s) + [QUOTE] }

  // ---- The printer -------------------------------------------------------------------------------

  predicate KeyBefore(a: Entry, b: Entry) { Before(a.key, b.key) }

  predicate Kept(e: Entry) { e.value != Undefined }

  /** The entries an object prints, in the order it prints them. */
  function Printed(entries: seq<Entry>): (r: seq<Entry>)
    ensures forall e :: e in r <==> e in entries && Kept(e)
  {
    FilterMembers(Kept, entries);
    SortByMembers(KeyBefore, Filter(Kept, entries));
    SortBy(KeyBefore, Filter(Kept, entries))
  }

  function Print(v: Json): Text
    decreases v, 1, 0
  {
    match v
    case Undefined => NULL_TEXT
    case Null => NULL_TEXT
    case Bool(b) => if b then TRUE_TEXT else FALSE_TEXT
    case Num(digits) => digits
    case NonFinite => NULL_TEXT
    case Str(s) => Quote(s)
    case Arr(items) => [OPEN_BRACKET] + PrintItems(items, v) + [CLOSE_BRACKET]
    case Obj(entries) => [OPEN_BRACE] + PrintEntries(Printed(entries), v) + [CLOSE_BRACE]
    case Foreign => []
  }

  function PrintItems(items: seq<Json>, ghost whole: Json): Text
    requires forall i :: 0 <= i < |items| ==> items[i] < whole
    decreases whole, 0, |items|
  {
    if items == [] then []
    else if |items| == 1 then Print(items[0])
    else Print(items[0]) + [COMMA] + PrintItems(items[1..], whole)
  }

  function PrintEntry(e: Entry, ghost whole: Json): Text
    requires e.value < whole
    decreases whole, 0, 0
  {
    Quote(e.key) + [COLON] + Print(e.value)
  }

  function PrintEntries(entries: seq<Entry>, ghost whole: Json): Text
    requires forall e :: e in entries ==> e.value < whole
    decreases whole, 0, |entries| + 1
  {
    if entries == [] then []
    else if |entries| == 1 then PrintEntry(entries[0], whole)
    else PrintEntry(entries[0], whole) + [COMMA] + PrintEntries(entries[1..], whole)
  }

  /** A foreign object anywhere that would be printed. */
  predicate HasForeign(v: Json) {
    match v
    case Foreign => true
    case Arr(items) => exists i :: 0 <= i < |items| && HasForeign(items[i])
    case Obj(entries) => exists i :: 0 <= i < |entries| && HasForeign(entries[i].value)
    case _ => false
  }

  /** Refuses a foreign object; otherwise the text. */
  function Canonical(v: Json): Option<Text> {
    if HasForeign(v) then None else Some(Print(v))
  }

  // ---- What a value means -----------------------------------------------------------------------------

  /** JavaScript's own guarantees: distinct keys, and numbers that print as numbers. */
  ghost predicate WellFormed(v: Json) {
    match v
    case Num(digits) => NumberText(digits)
    case Arr(items) => forall i :: 0 <= i < |items| ==> WellFormed(items[i])
    case Obj(entries) =>
      && (forall i, j :: 0 <= i < j < |entries| ==> entries[i].key != entries[j].key)
      && forall i :: 0 <= i < |entries| ==> WellFormed(entries[i].value)
    case _ => true
  }

  ghost function Meaning(v: Json): Value {
    match v
    case Bool(b) => VBool(b)
    case Num(digits) => VNum(digits)
    case Str(s) => VStr(s)
    case Arr(items) => VArr(seq(|items|, i requires 0 <= i < |items| => Meaning(items[i])))
    case Obj(entries) => VObj(Members(entries, v))
    case _ => VNull
  }

  ghost function Members(entries: seq<Entry>, whole: Json): map<Text, Value>
    requires forall e :: e in entries ==> e.value < whole
    decreases whole, 0, |entries|
  {
    if entries == [] then map[]
    else
      var rest := Members(entries[1..], whole);
      if !entries[0].value.Undefined? then rest[entries[0].key := Meaning(entries[0].value)] else rest
  }
}
