/**
  What a migration file says, piece by piece, and that the splitter reads exactly that
  (packages/db/src/migrator.ts:54-130). Nothing here is defined by the scan.
 */
module SqlPieces {
  import opened Basics
  import opened StatementSplitter
  import opened StatementSplitterProofs

  /** A quoted piece holds any text, its own quote doubled; a dollar body stands between two equal tags. */
  datatype Piece =
    | Char(c: char)
    | Quoted(quote: char, text: string)
    | Dollar(name: string, body: string)
    | LineComment(text: string)
    | BlockComment(text: string)
    | Semicolon

  function Doubled(text: string, quote: char): string {
    if text == [] then []
    else (if text[0] == quote then [quote, quote] else [text[0]]) + Doubled(text[1..], quote)
  }

  function Tag(name: string): string { ['$'] + name + ['$'] }

  function Spell(p: Piece): string {
    match p
    case Char(c) => [c]
    case Quoted(quote, text) => [quote] + Doubled(text, quote) + [quote]
    case Dollar(name, body) => Tag(name) + body + Tag(name)
    case LineComment(text) => "--" + text + "\n"
    case BlockComment(text) => "/*" + text + "*/"
    case Semicolon => ";"
  }

  function Spelled(ps: seq<Piece>): string { if ps == [] then [] else Spell(ps[0]) + Spelled(ps[1..]) }

  // ---- Which spellings are that and nothing else -------------------------------------------------------

  predicate NameChar(c: char) { 65 <= c as int <= 90 || 97 <= c as int <= 122 || c as int == 95 }

  predicate IsName(s: string) { forall i :: 0 <= i < |s| ==> NameChar(s[i]) }

  /** Read after a `$`, the text completes a tag. */
  ghost predicate CompletesTag(s: string) { exists n :: 0 <= n < |s| && IsName(s[..n]) && s[n] == '$' }

  /** `mark` ends the text and does not begin anywhere in it before. */
  predicate EndsFirst(text: string, mark: string) { forall k :: 0 <= k < |text| ==> !(mark <= (text + mark)[k..]) }

  predicate Starts(s: string, c: char) { s != [] && s[0] == c }

  /** The piece, followed by `rest`, makes no other token: neither inside itself nor across the seam. */
  ghost predicate Stands(p: Piece, rest: string) {
    match p
    case Char(c) =>
      && c != '\'' && c != '"' && c != '`' && c != ';'
      && !(c == '-' && Starts(rest, '-')) && !(c == '/' && Starts(rest, '*'))
      && !(c == '$' && CompletesTag(rest))
    case Quoted(quote, _) => (quote == '\'' || quote == '"' || quote == '`') && !Starts(rest, quote)
    case Dollar(name, body) => IsName(name) && EndsFirst(body, Tag(name))
    case LineComment(text) => '\n' !in text
    case BlockComment(text) => EndsFirst(text, "*/")
    case Semicolon => true
  }

  ghost predicate AllStand(ps: seq<Piece>, rest: string) {
    ps == [] || (Stands(ps[0], Spelled(ps[1..]) + rest) && AllStand(ps[1..], rest))
  }

  // ---- What they say -------------------------------------------------------------------------------------

  /** What a piece leaves in its statement: comments nothing, everything else itself. */
  function Kept(p: Piece): string { if p.LineComment? || p.BlockComment? || p.Semicolon? then [] else Spell(p) }

  /** The text between semicolons, comments dropped. */
  function Parts(ps: seq<Piece>): (r: seq<string>)
    ensures r != []
  {
    if ps == [] then [[]]
    else if ps[0].Semicolon? then [[]] + Parts(ps[1..])
    else [Kept(ps[0]) + Parts(ps[1..])[0]] + Parts(ps[1..])[1..]
  }

  /** Each part trimmed, blank ones dropped. */
  function Trimmed(parts: seq<string>): seq<string> {
    if parts == [] then [] else (if Trim(parts[0]) == [] then [] else [Trim(parts[0])]) + Trimmed(parts[1..])
  }

  predicate Blank(s: string) { forall i :: 0 <= i < |s| ==> IsSpace(s[i]) }

  /** The characters `trim` takes: ECMAScript's white space and line terminators, by code point. */
  lemma WhitespaceIs(c: char)
    ensures IsSpace(c) <==> c as int in {9, 10, 11, 12, 13, 32, 160, 5760, 8192, 8193, 8194, 8195, 8196, 8197, 8198, 8199, 8200,
                                         8201, 8202, 8232, 8233, 8239, 8287, 12288, 65279}
  {
  }

  /** `trim` takes whitespace off both ends and nothing else. */
  lemma {:induction false} TrimIs(s: string) returns (a: string, b: string)
    ensures s == a + Trim(s) + b && Blank(a) && Blank(b)
    ensures Trim(s) != [] ==> !IsSpace(Trim(s)[0]) && !IsSpace(Trim(s)[|Trim(s)| - 1])
  {
    if s != [] && IsSpace(s[0]) {
      var a', b' := TrimIs(s[1..]);
      a, b := [s[0]] + a', b';
    } else {
      a := [];
      b := TrimRightIs(s);
    }
  }

  lemma {:induction false} TrimRightIs(s: string) returns (b: string)
    ensures s == TrimRight(s) + b && Blank(b)
    ensures TrimRight(s) != [] ==> !IsSpace(TrimRight(s)[|TrimRight(s)| - 1]) && TrimRight(s)[0] == s[0]
  {
    if s != [] && IsSpace(s[|s| - 1]) {
      var b' := TrimRightIs(s[..|s| - 1]);
      b := b' + [s[|s| - 1]];
    } else {
      b := [];
    }
  }

  // ---- The scan reads each piece -------------------------------------------------------------------------

  lemma {:induction false} FirstAt(s: string, needle: string, n: nat)
    requires n <= |s| && needle <= s[n..] && forall k :: 0 <= k < n ==> !(needle <= s[k..])
    ensures IndexOf(s, needle) == Some(n)
  {
    assert s[0..] == s;
    if n > 0 {
      assert !(needle <= s[0..]);
      forall k | 0 <= k < n - 1 ensures !(needle <= s[1..][k..]) { assert s[1..][k..] == s[k + 1..]; }
      assert s[1..][n - 1..] == s[n..];
      FirstAt(s[1..], needle, n - 1);
    }
  }

  /** A mark that first begins where the text ends is found there, whatever follows. */
  lemma MarkIsFound(text: string, mark: string, rest: string)
    requires mark != [] && EndsFirst(text, mark)
    ensures IndexOf(text + mark + rest, mark) == Some(|text|)
  {
    var s, t := text + mark + rest, text + mark;
    assert s[|text|..] == mark + rest;
    forall k | 0 <= k < |text| ensures !(mark <= s[k..]) {
      assert s[k..] == t[k..] + rest;
      PrefixLocal(mark, t[k..], rest);
    }
    FirstAt(s, mark, |text|);
  }

  lemma LineIsRead(text: string, rest: string)
    requires '\n' !in text
    ensures var s := Spell(LineComment(text)) + rest; Step(s) == (Comment, |text| + 3)
  {
    var s := Spell(LineComment(text)) + rest;
    assert s[..2] == "--";
    assert s == ("--" + text) + "\n" + rest;
    forall k | 0 <= k < |"--" + text| ensures !("\n" <= s[k..]) {
      assert s[k] == ("--" + text)[k] != '\n';
    }
    assert s[|"--" + text|..] == "\n" + rest;
    FirstAt(s, "\n", |"--" + text|);
  }

  lemma BlockIsRead(text: string, rest: string)
    requires EndsFirst(text, "*/")
    ensures var s := Spell(BlockComment(text)) + rest; Step(s) == (Comment, |text| + 4)
  {
    var s := Spell(BlockComment(text)) + rest;
    assert s[..2] == "/*" && s[0] == '/';
    assert s[2..] == text + "*/" + rest;
    MarkIsFound(text, "*/", rest);
  }

  /** From inside a quoted piece, having read `before`. */
  lemma {:induction false} QuoteIsRead(before: string, text: string, quote: char, rest: string)
    requires !Starts(rest, quote)
    ensures QuoteEnd(before + Doubled(text, quote) + [quote] + rest, |before|, quote) == |before| + |Doubled(text, quote)| + 1
    decreases |text|
  {
    var s := before + Doubled(text, quote) + [quote] + rest;
    if text == [] {
      assert s == before + [quote] + rest;
    } else {
      var here := if text[0] == quote then [quote, quote] else [text[0]];
      assert s == (before + here) + Doubled(text[1..], quote) + [quote] + rest;
      QuoteIsRead(before + here, text[1..], quote, rest);
    }
  }

  lemma QuotedIsRead(quote: char, text: string, rest: string)
    requires Stands(Quoted(quote, text), rest)
    ensures var s := Spell(Quoted(quote, text)) + rest; Step(s) == (Region, |Spell(Quoted(quote, text))|)
  {
    var s := Spell(Quoted(quote, text)) + rest;
    assert s == [quote] + Doubled(text, quote) + [quote] + rest;
    QuoteIsRead([quote], text, quote, rest);
    QuoteStep(s);
  }

  lemma {:induction false} NameIsRun(s: string, j: nat, n: nat)
    requires j <= n < |s| && IsName(s[j..n]) && !NameChar(s[n])
    ensures TagRun(s, j) == n
    decreases n - j
  {
    if j < n {
      assert NameChar(s[j..n][0]);
      assert s[j + 1..n] == s[j..n][1..];
      NameIsRun(s, j + 1, n);
    }
  }

  lemma TagIsRead(name: string, rest: string)
    requires IsName(name)
    ensures DollarTag(Tag(name) + rest) == Some(Tag(name))
  {
    var s := Tag(name) + rest;
    assert s[1..1 + |name|] == name && s[1 + |name|] == '$';
    NameIsRun(s, 1, 1 + |name|);
    assert s[..2 + |name|] == Tag(name);
  }

  lemma DollarIsRead(name: string, body: string, rest: string)
    requires Stands(Dollar(name, body), rest)
    ensures var s := Spell(Dollar(name, body)) + rest; Step(s) == (Region, |Spell(Dollar(name, body))|)
  {
    hide Step, DollarTag, IndexOf;
    var s, tag := Spell(Dollar(name, body)) + rest, Tag(name);
    assert s == tag + (body + tag + rest);
    TagIsRead(name, body + tag + rest);
    MarkIsFound(body, tag, rest);
    assert s[|tag|..] == body + tag + rest;
    DollarStep(s);
  }

  lemma {:induction false} RunIsName(s: string, j: nat)
    requires j <= |s|
    ensures IsName(s[j..TagRun(s, j)])
    decreases |s| - j
  {
    if j < |s| && IsTagChar(s[j]) {
      RunIsName(s, j + 1);
      var e := TagRun(s, j + 1);
      assert s[j..e] == [s[j]] + s[j + 1..e];
    }
  }

  lemma TagReadCompletes(s: string)
    requires DollarTag(s).Some?
    ensures s != [] && s[0] == '$' && CompletesTag(s[1..])
  {
    var e := TagRun(s, 1);
    RunIsName(s, 1);
    assert s[1..][..e - 1] == s[1..e] && s[1..][e - 1] == '$';
  }

  lemma NoTagIsRead(s: string)
    requires s != [] && !(s[0] == '$' && CompletesTag(s[1..]))
    ensures DollarTag(s).None?
  {
    hide DollarTag, CompletesTag;
    if DollarTag(s).Some? { TagReadCompletes(s); }
  }

  lemma CharIsRead(c: char, rest: string)
    requires Stands(Char(c), rest)
    ensures Step([c] + rest) == (Plain, 1)
  {
    hide Step, DollarTag;
    var s := [c] + rest;
    assert s[0] == c && s[1..] == rest;
    NoTagIsRead(s);
    PlainStep(s);
  }

  lemma SemicolonIsRead(rest: string)
    ensures Step(";" + rest) == (Break, 1)
  {
    var s := ";" + rest;
    NoComment(s);
    assert s[0] == ';';
  }

  function KindOf(p: Piece): Kind {
    match p
    case Char(_) => Plain
    case Quoted(_, _) => Region
    case Dollar(_, _) => Region
    case Semicolon => Break
    case _ => Comment
  }

  lemma PieceIsRead(p: Piece, rest: string)
    requires Stands(p, rest)
    ensures Step(Spell(p) + rest) == (KindOf(p), |Spell(p)|)
  {
    hide Step, Stands;
    match p
    case Char(c) => CharIsRead(c, rest);
    case Quoted(quote, text) => QuotedIsRead(quote, text, rest);
    case Dollar(name, body) => DollarIsRead(name, body, rest);
    case LineComment(text) => NoNewline(p, rest); LineIsRead(text, rest);
    case BlockComment(text) => NoNewline(p, rest); BlockIsRead(text, rest);
    case Semicolon => SemicolonIsRead(rest);
  }

  lemma NoNewline(p: Piece, rest: string)
    requires Stands(p, rest)
    ensures p.LineComment? ==> '\n' !in p.text
    ensures p.BlockComment? ==> EndsFirst(p.text, "*/")
  {
  }

  lemma PieceLexed(p: Piece, rest: string)
    requires Stands(p, rest)
    ensures Lex(Spell(p) + rest) == [Lexeme(KindOf(p), Spell(p))] + Lex(rest)
  {
    hide Step, Stands, Spell;
    PieceIsRead(p, rest);
    var s := Spell(p) + rest;
    assert s[..|Spell(p)|] == Spell(p) && s[|Spell(p)|..] == rest;
    assert s != [];
  }

  // ---- And the whole file ------------------------------------------------------------------------------------

  /** What the pieces have already put out, and what they leave in the current statement. */
  function Out(ps: seq<Piece>, current: string): seq<string> { Trimmed(AllButLast(PartsFrom(ps, current))) }

  function Open(ps: seq<Piece>, current: string): string { PartsFrom(ps, current)[|PartsFrom(ps, current)| - 1] }

  /** The parts, the first continuing `current`. */
  function PartsFrom(ps: seq<Piece>, current: string): (r: seq<string>)
    ensures r != []
  {
    [current + Parts(ps)[0]] + Parts(ps)[1..]
  }

  function AllButLast(parts: seq<string>): seq<string>
    requires parts != []
  {
    parts[..|parts| - 1]
  }

  lemma PartsFromStep(ps: seq<Piece>, current: string)
    requires ps != []
    ensures PartsFrom(ps, current)
         == if ps[0].Semicolon? then [current] + PartsFrom(ps[1..], []) else PartsFrom(ps[1..], current + Kept(ps[0]))
  {
    hide Kept;
    var rest := Parts(ps[1..]);
    if ps[0].Semicolon? {
      BreakParts(current, rest);
      assert Parts(ps) == [[]] + rest;
    } else {
      GrowParts(current, Kept(ps[0]), rest);
      assert Parts(ps) == [Kept(ps[0]) + rest[0]] + rest[1..];
    }
  }

  lemma BreakParts(current: string, rest: seq<string>)
    requires rest != []
    ensures var parts := [[]] + rest; [current + parts[0]] + parts[1..] == [current] + ([[] + rest[0]] + rest[1..])
  {
    var parts: seq<string> := [[]] + rest;
    assert parts[1..] == rest && current + [] == current && [] + rest[0] == rest[0];
    assert rest == [rest[0]] + rest[1..];
  }

  lemma GrowParts(current: string, kept: string, rest: seq<string>)
    requires rest != []
    ensures var parts := [kept + rest[0]] + rest[1..]; [current + parts[0]] + parts[1..] == [(current + kept) + rest[0]] + rest[1..]
  {
    var parts := [kept + rest[0]] + rest[1..];
    assert parts[1..] == rest[1..] && current + (kept + rest[0]) == (current + kept) + rest[0];
  }

  lemma OutStep(ps: seq<Piece>, current: string)
    requires ps != []
    ensures if ps[0].Semicolon? then Out(ps, current) == Pushed(current) + Out(ps[1..], []) && Open(ps, current) == Open(ps[1..], [])
            else Out(ps, current) == Out(ps[1..], current + Kept(ps[0])) && Open(ps, current) == Open(ps[1..], current + Kept(ps[0]))
  {
    hide PartsFrom, Kept, Trimmed, Pushed, AllButLast;
    PartsFromStep(ps, current);
    if ps[0].Semicolon? { AllButLastCons(current, PartsFrom(ps[1..], [])); }
  }

  lemma AllButLastCons(part: string, parts: seq<string>)
    requires parts != []
    ensures AllButLast([part] + parts) == [part] + AllButLast(parts)
    ensures ([part] + parts)[|parts|] == parts[|parts| - 1]
    ensures Trimmed([part] + AllButLast(parts)) == Pushed(part) + Trimmed(AllButLast(parts))
  {
    assert ([part] + AllButLast(parts))[1..] == AllButLast(parts);
  }

  lemma EmitPiece(p: Piece, lexemes: seq<Lexeme>, current: string)
    ensures Emit([Lexeme(KindOf(p), Spell(p))] + lexemes, current)
         == if p.Semicolon? then Pushed(current) + Emit(lexemes, []) else Emit(lexemes, current + Kept(p))
  {
    var all := [Lexeme(KindOf(p), Spell(p))] + lexemes;
    assert all[1..] == lexemes;
    assert current + [] == current;
  }

  lemma SpelledStep(ps: seq<Piece>, rest: string)
    requires ps != []
    ensures Spelled(ps) + rest == Spell(ps[0]) + (Spelled(ps[1..]) + rest)
  {
  }

  lemma EmitNothing(current: string)
    ensures Emit([], current) == Pushed(current) && Lex([]) == []
  {
  }

  /** Reading the pieces puts out their finished parts and goes on with the open one. */
  lemma {:induction false} PiecesEmit(ps: seq<Piece>, rest: string, current: string)
    requires AllStand(ps, rest)
    ensures Emit(Lex(Spelled(ps) + rest), current) == Out(ps, current) + Emit(Lex(rest), Open(ps, current))
  {
    hide Lex, Emit, Stands, Spell, Kept, Pushed, Out, Open, Spelled;
    if ps == [] {
      NoPieces(rest, current);
    } else {
      SpelledStep(ps, rest);
      PieceLexed(ps[0], Spelled(ps[1..]) + rest);
      EmitPiece(ps[0], Lex(Spelled(ps[1..]) + rest), current);
      OutStep(ps, current);
      if ps[0].Semicolon? {
        PiecesEmit(ps[1..], rest, []);
        Regroup(Pushed(current), Out(ps[1..], []), Emit(Lex(rest), Open(ps[1..], [])));
      } else {
        PiecesEmit(ps[1..], rest, current + Kept(ps[0]));
      }
    }
  }

  lemma Regroup(a: seq<string>, b: seq<string>, c: seq<string>)
    ensures a + (b + c) == (a + b) + c
  {
  }

  lemma NoPieces(rest: string, current: string)
    ensures Spelled([]) + rest == rest && Out([], current) == [] && Open([], current) == current
  {
    NoParts(current);
  }

  lemma NoParts(current: string)
    ensures PartsFrom([], current) == [current] && Trimmed(AllButLast([current])) == []
  {
    assert current + [] == current;
  }

  lemma {:induction false} TrimmedLast(parts: seq<string>)
    requires parts != []
    ensures Trimmed(parts) == Trimmed(AllButLast(parts)) + Pushed(parts[|parts| - 1])
  {
    hide Trim;
    if |parts| == 1 {
      assert parts[1..] == [];
    } else {
      TrimmedLast(parts[1..]);
      assert AllButLast(parts)[1..] == AllButLast(parts[1..]);
    }
  }

  // ---- What a file may break off in ------------------------------------------------------------------------

  /** The file ends, or ends inside something that was never closed. */
  datatype Tail =
    | Ended
    | OpenLine(text: string)
    | OpenBlock(text: string)
    | OpenQuote(quote: char, text: string)
    | OpenDollar(name: string, body: string)

  function SpellTail(t: Tail): string {
    match t
    case Ended => []
    case OpenLine(text) => "--" + text
    case OpenBlock(text) => "/*" + text
    case OpenQuote(quote, text) => [quote] + Doubled(text, quote)
    case OpenDollar(name, body) => Tag(name) + body
  }

  predicate Nowhere(text: string, mark: string) { forall k :: 0 <= k <= |text| ==> !(mark <= text[k..]) }

  predicate TailStands(t: Tail) {
    match t
    case Ended => true
    case OpenLine(text) => '\n' !in text
    case OpenBlock(text) => Nowhere(text, "*/")
    case OpenQuote(quote, _) => quote == '\'' || quote == '"' || quote == '`'
    case OpenDollar(name, body) => IsName(name) && Nowhere(body, Tag(name))
  }

  /** An unclosed comment leaves nothing; an unclosed region is gathered like a closed one. */
  function KeptTail(t: Tail): string { if t.OpenQuote? || t.OpenDollar? then SpellTail(t) else [] }

  lemma {:induction false} NotFound(s: string, needle: string)
    requires Nowhere(s, needle)
    ensures IndexOf(s, needle).None?
  {
    assert s[0..] == s;
    assert !(needle <= s[0..]);
    if s != [] {
      forall k | 0 <= k <= |s| - 1 ensures !(needle <= s[1..][k..]) { assert s[1..][k..] == s[k + 1..]; }
      NotFound(s[1..], needle);
    }
  }

  lemma OpenLineIsRead(text: string)
    requires '\n' !in text
    ensures Step("--" + text) == (Comment, |text| + 2)
  {
    var s := "--" + text;
    assert s[..2] == "--";
    forall k | 0 <= k <= |s| ensures !("\n" <= s[k..]) {
      if k < |s| { assert s[k..][0] == s[k] != '\n'; }
    }
    NotFound(s, "\n");
  }

  lemma OpenBlockIsRead(text: string)
    requires Nowhere(text, "*/")
    ensures Step("/*" + text) == (Comment, |text| + 2)
  {
    var s := "/*" + text;
    assert s[..2] == "/*" && s[0] == '/' && s[2..] == text;
    NotFound(text, "*/");
  }

  lemma {:induction false} OpenQuoteIsRead(before: string, text: string, quote: char)
    ensures QuoteEnd(before + Doubled(text, quote), |before|, quote) == |before| + |Doubled(text, quote)|
    decreases |text|
  {
    var s := before + Doubled(text, quote);
    if text != [] {
      var here := if text[0] == quote then [quote, quote] else [text[0]];
      assert s == (before + here) + Doubled(text[1..], quote);
      OpenQuoteIsRead(before + here, text[1..], quote);
    }
  }

  lemma OpenDollarIsRead(name: string, body: string)
    requires IsName(name) && Nowhere(body, Tag(name))
    ensures Step(Tag(name) + body) == (Region, |Tag(name) + body|)
  {
    hide Step, DollarTag, IndexOf;
    var s, tag := Tag(name) + body, Tag(name);
    TagIsRead(name, body);
    NotFound(body, tag);
    assert s[|tag|..] == body;
    DollarStep(s);
  }

  lemma TailIsRead(t: Tail)
    requires TailStands(t) && !t.Ended?
    ensures SpellTail(t) != []
    ensures Step(SpellTail(t)) == (if t.OpenQuote? || t.OpenDollar? then Region else Comment, |SpellTail(t)|)
  {
    hide Step;
    match t
    case OpenLine(text) => OpenLineIsRead(text);
    case OpenBlock(text) => OpenBlockIsRead(text);
    case OpenQuote(quote, text) =>
      OpenQuoteIsRead([quote], text, quote);
      QuoteStep([quote] + Doubled(text, quote));
    case OpenDollar(name, body) => OpenDollarIsRead(name, body);
  }

  lemma TailEmits(t: Tail, current: string)
    requires TailStands(t)
    ensures Emit(Lex(SpellTail(t)), current) == Pushed(current + KeptTail(t))
  {
    assert current + [] == current;
    if t.Ended? {
      EmitNothing(current);
    } else {
      hide Step, Pushed, SpellTail, TailStands;
      TailIsRead(t);
      WholeLexeme(SpellTail(t), Step(SpellTail(t)).0);
      EmitNothing(current);
      EmitNothing(current + SpellTail(t));
    }
  }

  lemma WholeLexeme(s: string, kind: Kind)
    requires s != [] && Step(s) == (kind, |s|)
    ensures Lex(s) == [Lexeme(kind, s)] && Lex(s)[1..] == []
  {
    hide Step;
    assert s[..|s|] == s && s[|s|..] == [];
    assert Lex([]) == [];
  }

  // ---- The theorem ---------------------------------------------------------------------------------------------

  /** The parts, the last ending in what the file breaks off in. */
  function WithTail(parts: seq<string>, tail: string): seq<string>
    requires parts != []
  {
    AllButLast(parts) + [parts[|parts| - 1] + tail]
  }

  /**
    For every file: splitting it gives the text between semicolons, comments dropped wherever they
    stand, trimmed, blank parts dropped.
   */
  lemma SplitReadsPieces(ps: seq<Piece>, t: Tail)
    requires AllStand(ps, SpellTail(t)) && TailStands(t)
    ensures Split(Spelled(ps) + SpellTail(t)) == Trimmed(WithTail(Parts(ps), KeptTail(t)))
  {
    hide Emit, Lex, Spelled, Trim, Pushed, Parts, AllStand, Trimmed, SpellTail, KeptTail, TailStands;
    PiecesEmit(ps, SpellTail(t), []);
    TailEmits(t, Open(ps, []));
    var parts := Parts(ps);
    assert PartsFrom(ps, []) == parts by { assert [] + parts[0] == parts[0] && parts == [parts[0]] + parts[1..]; }
    TrimmedLast(WithTail(parts, KeptTail(t)));
    assert AllButLast(WithTail(parts, KeptTail(t))) == AllButLast(parts);
  }

  // ---- Every file is pieces and a tail ----------------------------------------------------------------------------

  /** Before the place it is found, and anywhere at all when it is not, the mark does not begin. */
  lemma {:induction false} NotBefore(s: string, needle: string, k: nat)
    requires k <= |s| && (IndexOf(s, needle).Some? ==> k < IndexOf(s, needle).value)
    ensures !(needle <= s[k..])
  {
    assert s[0..] == s;
    if k > 0 {
      NotBefore(s[1..], needle, k - 1);
      assert s[k..] == s[1..][k - 1..];
    }
  }

  lemma FoundFirst(s: string, needle: string)
    ensures match IndexOf(s, needle)
      case Some(n) => n + |needle| <= |s| && s[n..n + |needle|] == needle && forall k :: 0 <= k < n ==> !(needle <= s[k..])
      case None => Nowhere(s, needle)
  {
    var at := IndexOf(s, needle);
    hide IndexOf;
    forall k | 0 <= k <= |s| && (at.Some? ==> k < at.value) ensures !(needle <= s[k..]) { NotBefore(s, needle, k); }
  }

  /** Cutting a text at the first place a mark begins. */
  lemma CutAtMark(s: string, mark: string) returns (text: string, rest: Option<string>)
    requires mark != []
    ensures rest.Some? ==> s == text + mark + rest.value && EndsFirst(text, mark)
    ensures rest.None? ==> s == text && Nowhere(text, mark)
  {
    hide IndexOf, EndsFirst;
    FoundFirst(s, mark);
    var at := IndexOf(s, mark);
    if at.None? {
      text, rest := s, None;
    } else {
      text, rest := s[..at.value], Some(s[at.value + |mark|..]);
      assert s == text + mark + rest.value;
      CutEndsFirst(s, text, mark, rest.value);
    }
  }

  lemma CutEndsFirst(s: string, text: string, mark: string, rest: string)
    requires s == text + mark + rest && forall k :: 0 <= k < |text| ==> !(mark <= s[k..])
    ensures EndsFirst(text, mark)
  {
    forall k | 0 <= k < |text| ensures !(mark <= (text + mark)[k..]) {
      assert s[k..] == (text + mark)[k..] + rest;
      PrefixLocal(mark, (text + mark)[k..], rest);
    }
  }

  lemma NoMarkNoChar(text: string)
    ensures EndsFirst(text, "\n") || Nowhere(text, "\n") ==> '\n' !in text
  {
    if '\n' in text {
      var k :| 0 <= k < |text| && text[k] == '\n';
      assert "\n" <= text[k..] && "\n" <= (text + "\n")[k..];
    }
  }

  lemma {:induction false} Unquoted(s: string, quote: char) returns (text: string, rest: Option<string>)
    ensures rest.Some? ==> s == Doubled(text, quote) + [quote] + rest.value && !Starts(rest.value, quote)
    ensures rest.None? ==> s == Doubled(text, quote)
    decreases |s|
  {
    if s == [] {
      text, rest := [], None;
    } else if s[0] != quote {
      var more, after := Unquoted(s[1..], quote);
      text, rest := [s[0]] + more, after;
      assert text[1..] == more;
      assert Doubled(text, quote) == [s[0]] + Doubled(more, quote);
    } else if |s| > 1 && s[1] == quote {
      var more, after := Unquoted(s[2..], quote);
      text, rest := [quote] + more, after;
      assert text[1..] == more;
      assert Doubled(text, quote) == [quote, quote] + Doubled(more, quote);
    } else {
      text, rest := [], Some(s[1..]);
    }
  }

  /** What a text opens with: a piece that stands, or something the text breaks off in. */
  lemma Opens(s: string) returns (p: Option<Piece>, t: Tail, rest: string)
    requires s != []
    ensures p.Some? ==> s == Spell(p.value) + rest && Stands(p.value, rest)
    ensures p.None? ==> s == SpellTail(t) && TailStands(t)
  {
    p, t, rest := None, Ended, [];
    if |s| >= 2 && s[0] == '-' && s[1] == '-' {
      assert s == "--" + s[2..];
      p, t, rest := OpensLine(s[2..]);
    } else if |s| >= 2 && s[0] == '/' && s[1] == '*' {
      assert s == "/*" + s[2..];
      p, t, rest := OpensBlock(s[2..]);
    } else if IsQuote(s[0]) {
      assert s == [s[0]] + s[1..];
      p, t, rest := OpensQuote(s[0], s[1..]);
    } else if s[0] == '$' && CompletesTag(s[1..]) {
      p, t, rest := OpensDollar(s);
    } else if s[0] == ';' {
      p, rest := Some(Semicolon), s[1..];
    } else {
      p, rest := Some(Char(s[0])), s[1..];
      assert s == [s[0]] + rest;
    }
  }

  lemma OpensLine(s: string) returns (p: Option<Piece>, t: Tail, rest: string)
    ensures p.Some? ==> "--" + s == Spell(p.value) + rest && Stands(p.value, rest)
    ensures p.None? ==> "--" + s == SpellTail(t) && TailStands(t)
  {
    var text, after := CutAtMark(s, "\n");
    NoMarkNoChar(text);
    if after.Some? {
      p, t, rest := Some(LineComment(text)), Ended, after.value;
      assert "--" + s == ("--" + text + "\n") + rest;
    } else {
      p, t, rest := None, OpenLine(text), [];
    }
  }

  lemma OpensBlock(s: string) returns (p: Option<Piece>, t: Tail, rest: string)
    ensures p.Some? ==> "/*" + s == Spell(p.value) + rest && Stands(p.value, rest)
    ensures p.None? ==> "/*" + s == SpellTail(t) && TailStands(t)
  {
    var text, after := CutAtMark(s, "*/");
    if after.Some? {
      p, t, rest := Some(BlockComment(text)), Ended, after.value;
      assert "/*" + s == ("/*" + text + "*/") + rest;
    } else {
      p, t, rest := None, OpenBlock(text), [];
    }
  }

  lemma OpensQuote(quote: char, s: string) returns (p: Option<Piece>, t: Tail, rest: string)
    requires IsQuote(quote)
    ensures p.Some? ==> [quote] + s == Spell(p.value) + rest && Stands(p.value, rest)
    ensures p.None? ==> [quote] + s == SpellTail(t) && TailStands(t)
  {
    var text, after := Unquoted(s, quote);
    if after.Some? {
      p, t, rest := Some(Quoted(quote, text)), Ended, after.value;
      assert [quote] + s == ([quote] + Doubled(text, quote) + [quote]) + rest;
    } else {
      p, t, rest := None, OpenQuote(quote, text), [];
    }
  }

  lemma OpensDollar(s: string) returns (p: Option<Piece>, t: Tail, rest: string)
    requires s != [] && s[0] == '$' && CompletesTag(s[1..])
    ensures p.Some? ==> s == Spell(p.value) + rest && Stands(p.value, rest)
    ensures p.None? ==> s == SpellTail(t) && TailStands(t)
  {
    var n :| 0 <= n < |s[1..]| && IsName(s[1..][..n]) && s[1..][n] == '$';
    var name := s[1..][..n];
    assert s == Tag(name) + s[n + 2..];
    var body, after := CutAtMark(s[n + 2..], Tag(name));
    if after.Some? {
      p, t, rest := Some(Dollar(name, body)), Ended, after.value;
      assert s == (Tag(name) + body + Tag(name)) + rest;
    } else {
      p, t, rest := None, OpenDollar(name, body), [];
    }
  }

  lemma {:induction false} EveryFileIsPieces(s: string) returns (ps: seq<Piece>, t: Tail)
    ensures s == Spelled(ps) + SpellTail(t) && AllStand(ps, SpellTail(t)) && TailStands(t)
    decreases |s|
  {
    hide Stands, SpellTail;
    if s == [] {
      ps, t := [], Ended;
      assert SpellTail(t) == [] by { NothingLeft(); }
    } else {
      var p, tail, rest := Opens(s);
      if p.None? {
        ps, t := [], tail;
        assert Spelled(ps) + SpellTail(t) == SpellTail(t);
      } else {
        SpellsSomething(p.value);
        var more, after := EveryFileIsPieces(rest);
        ps, t := [p.value] + more, after;
        assert ps[1..] == more;
        SpelledStep(ps, SpellTail(t));
      }
    }
  }

  lemma NothingLeft()
    ensures SpellTail(Ended) == []
  {
  }

  lemma SpellsSomething(p: Piece)
    ensures Spell(p) != []
  {
  }

  /** So the theorem leaves no file out. */
  lemma EveryFileIsRead(sql: string) returns (ps: seq<Piece>, t: Tail)
    ensures sql == Spelled(ps) + SpellTail(t) && AllStand(ps, SpellTail(t)) && TailStands(t)
    ensures Split(sql) == Trimmed(WithTail(Parts(ps), KeptTail(t)))
  {
    ps, t := EveryFileIsPieces(sql);
    SplitReadsPieces(ps, t);
  }

  // ---- Comments ------------------------------------------------------------------------------------------------------

  predicate IsComment(p: Piece) { p.LineComment? || p.BlockComment? }

  /** A comment between any pieces and any text at all might as well not be there. */
  lemma CommentsVanish(ps: seq<Piece>, c: Piece, rest: string)
    requires IsComment(c) && Stands(c, rest) && AllStand(ps, Spell(c) + rest) && AllStand(ps, rest)
    ensures Split(Spelled(ps) + (Spell(c) + rest)) == Split(Spelled(ps) + rest)
  {
    hide Lex, Stands, Spell, AllStand, Open, Out, Pushed;
    PiecesEmit(ps, Spell(c) + rest, []);
    PiecesEmit(ps, rest, []);
    PieceLexed(c, rest);
    EmitPiece(c, Lex(rest), Open(ps, []));
    assert Kept(c) == [] && Open(ps, []) + [] == Open(ps, []);
  }

  /** So might a comment the file ends in, closed or not. */
  lemma LastCommentVanishes(ps: seq<Piece>, t: Tail)
    requires (t.OpenLine? || t.OpenBlock?) && TailStands(t) && AllStand(ps, SpellTail(t)) && AllStand(ps, [])
    ensures Split(Spelled(ps) + SpellTail(t)) == Split(Spelled(ps))
  {
    NothingLeft();
    SplitReadsPieces(ps, t);
    SplitReadsPieces(ps, Ended);
    assert Spelled(ps) + [] == Spelled(ps);
  }

  /** Statements given as pieces, a semicolon between each two. */
  function Joined(statements: seq<seq<Piece>>): seq<Piece> {
    if statements == [] then []
    else if |statements| == 1 then statements[0]
    else statements[0] + [Semicolon] + Joined(statements[1..])
  }

  function KeptAll(ps: seq<Piece>): string { if ps == [] then [] else Kept(ps[0]) + KeptAll(ps[1..]) }

  predicate OneStatement(ps: seq<Piece>) { forall i :: 0 <= i < |ps| ==> !ps[i].Semicolon? }

  function KeptEach(statements: seq<seq<Piece>>): seq<string> {
    if statements == [] then [] else [KeptAll(statements[0])] + KeptEach(statements[1..])
  }

  lemma {:induction false} PartsOfOne(ps: seq<Piece>)
    requires OneStatement(ps)
    ensures Parts(ps) == [KeptAll(ps)]
  {
    if ps != [] { PartsOfOne(ps[1..]); }
  }

  lemma {:induction false} PartsAfterOne(ps: seq<Piece>, more: seq<Piece>)
    requires OneStatement(ps)
    ensures Parts(ps + [Semicolon] + more) == [KeptAll(ps)] + Parts(more)
  {
    var all := ps + [Semicolon] + more;
    if ps == [] {
      assert all == [Semicolon] + more && all[1..] == more;
    } else {
      assert all[1..] == ps[1..] + [Semicolon] + more;
      PartsAfterOne(ps[1..], more);
    }
  }

  lemma {:induction false} PartsOfJoined(statements: seq<seq<Piece>>)
    requires statements != [] && forall i :: 0 <= i < |statements| ==> OneStatement(statements[i])
    ensures Parts(Joined(statements)) == KeptEach(statements)
  {
    assert OneStatement(statements[0]);
    if |statements| == 1 {
      PartsOfOne(statements[0]);
      assert statements[1..] == [];
    } else {
      PartsAfterOne(statements[0], Joined(statements[1..]));
      PartsOfJoined(statements[1..]);
    }
  }

  /** Splitting undoes joining with comments anywhere, inside statements and between them: each comes back without its comments. */
  lemma SplitUndoesJoinWithComments(statements: seq<seq<Piece>>)
    requires statements != [] && forall i :: 0 <= i < |statements| ==> OneStatement(statements[i])
    requires AllStand(Joined(statements), [])
    ensures Split(Spelled(Joined(statements))) == Trimmed(KeptEach(statements))
  {
    hide Split, Parts, AllStand, Joined, Trimmed, KeptEach, Spelled, WithTail;
    PartsOfJoined(statements);
    NothingLeft();
    SplitReadsPieces(Joined(statements), Ended);
    assert Spelled(Joined(statements)) + [] == Spelled(Joined(statements));
    WithNoTail(Parts(Joined(statements)));
  }

  lemma WithNoTail(parts: seq<string>)
    requires parts != []
    ensures WithTail(parts, []) == parts
  {
    assert parts[|parts| - 1] + [] == parts[|parts| - 1];
  }
}
