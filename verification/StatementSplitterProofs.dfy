/** What the splitter keeps: it undoes joining, and copies closed regions whole. */
module StatementSplitterProofs {
  import opened Basics
  import opened StatementSplitter

  // ---- Closed statements ---------------------------------------------------------------------------

  /** The quoted or dollar-quoted region a text opens with is closed within it. */
  predicate RegionCloses(s: string)
    requires s != []
  {
    if IsQuote(s[0]) then QuoteCloses(s, 1, s[0])
    else DollarTag(s).Some? ==> IndexOf(s[|DollarTag(s).value|..], DollarTag(s).value).Some?
  }

  /** Read alone, the text is regions that close and plain characters: no comment, no `;` outside one. */
  predicate Closed(s: string) {
    s == [] || ((Step(s).0 == Region || Step(s).0 == Plain) && RegionCloses(s) && Closed(s[Step(s).1..]))
  }

  /** A statement as the splitter would return it. */
  predicate Statement(s: string) { s != [] && Trim(s) == s && Closed(s) }

  function Join(statements: seq<string>): string {
    if statements == [] then []
    else if |statements| == 1 then statements[0]
    else statements[0] + ";" + Join(statements[1..])
  }

  /** A text that can follow a closed statement: nothing, or its separator. */
  predicate Follows(tail: string) { tail == [] || tail[0] == ';' }

  lemma {:induction false} QuoteEndLocal(s: string, tail: string, j: nat, quote: char)
    requires j <= |s| && IsQuote(quote) && QuoteCloses(s, j, quote) && Follows(tail)
    ensures QuoteEnd(s + tail, j, quote) == QuoteEnd(s, j, quote)
    decreases |s| - j
  {
    var t := s + tail;
    assert t[j] == s[j];
    if s[j] != quote {
      QuoteEndLocal(s, tail, j + 1, quote);
    } else if j + 1 < |s| && s[j + 1] == quote {
      QuoteEndLocal(s, tail, j + 2, quote);
    }
  }

  lemma PrefixLocal(needle: string, s: string, tail: string)
    requires |needle| <= |s|
    ensures needle <= s + tail <==> needle <= s
  {
    assert (s + tail)[..|needle|] == s[..|needle|];
  }

  lemma {:induction false} IndexOfLocal(s: string, tail: string, needle: string)
    requires IndexOf(s, needle).Some?
    ensures IndexOf(s + tail, needle) == IndexOf(s, needle)
  {
    PrefixLocal(needle, s, tail);
    if !(needle <= s) {
      assert (s + tail)[1..] == s[1..] + tail;
      IndexOfLocal(s[1..], tail, needle);
    }
  }

  lemma {:induction false} TagRunLocal(s: string, tail: string, j: nat)
    requires j <= |s| && Follows(tail)
    ensures TagRun(s + tail, j) == TagRun(s, j)
    decreases |s| - j
  {
    if j < |s| && IsTagChar(s[j]) {
      TagRunLocal(s, tail, j + 1);
    }
  }

  lemma DollarTagLocal(s: string, tail: string)
    requires s != [] && Follows(tail)
    ensures DollarTag(s + tail) == DollarTag(s)
  {
    if s[0] == '$' {
      TagRunLocal(s, tail, 1);
      var e := TagRun(s, 1);
      if e < |s| { assert (s + tail)[..e + 1] == s[..e + 1]; }
    }
  }

  /** Whether a text opens with a comment shows in its first two characters. */
  predicate OpensComment(s: string) { |s| >= 2 && ((s[0] == '-' && s[1] == '-') || (s[0] == '/' && s[1] == '*')) }

  lemma CommentStep(s: string)
    requires s != []
    ensures Step(s).0 == Comment <==> OpensComment(s)
    ensures OpensComment(s) <==> "--" <= s || "/*" <= s
  {
    if |s| >= 2 { assert s[..2] == [s[0], s[1]]; }
  }

  lemma SplitBefore(s: string, tail: string, n: nat)
    requires n <= |s|
    ensures (s + tail)[..n] == s[..n] && (s + tail)[n..] == s[n..] + tail
  {
  }

  /** Reading a closed statement goes the same way whatever its separator leads to. */
  lemma StepLocal(s: string, tail: string)
    requires s != [] && Closed(s) && Follows(tail)
    ensures Step(s + tail) == Step(s)
  {
    DollarTagLocal(s, tail);
    if IsQuote(s[0]) {
      QuoteStepLocal(s, tail);
    } else if DollarTag(s).Some? {
      DollarStepLocal(s, tail);
    } else {
      PlainStepLocal(s, tail);
    }
  }

  lemma NoComment(s: string)
    requires s != [] && !OpensComment(s)
    ensures !("--" <= s) && !("/*" <= s)
  {
    CommentStep(s);
  }

  lemma QuoteStep(s: string)
    requires s != [] && IsQuote(s[0])
    ensures Step(s) == (Region, QuoteEnd(s, 1, s[0]))
  {
    NoComment(s);
  }

  lemma QuoteStepLocal(s: string, tail: string)
    requires s != [] && IsQuote(s[0]) && QuoteCloses(s, 1, s[0]) && Follows(tail)
    ensures Step(s + tail) == Step(s)
  {
    hide Step, QuoteEnd, QuoteCloses;
    assert (s + tail)[0] == s[0];
    QuoteStep(s);
    QuoteStep(s + tail);
    QuoteEndLocal(s, tail, 1, s[0]);
  }

  /** A text opening with a dollar tag reads to that tag's next occurrence. */
  lemma DollarStep(s: string)
    requires s != [] && DollarTag(s).Some?
    ensures var tag := DollarTag(s).value; var close := IndexOf(s[|tag|..], tag);
            Step(s) == (Region, if close.None? then |s| else close.value + 2 * |tag|)
  {
    assert s[0] == '$';
    hide IndexOf, DollarTag;
    NoComment(s);
  }

  lemma DollarStepLocal(s: string, tail: string)
    requires s != [] && Follows(tail) && DollarTag(s).Some?
    requires IndexOf(s[|DollarTag(s).value|..], DollarTag(s).value).Some?
    ensures Step(s + tail) == Step(s)
  {
    hide IndexOf, DollarTag, Step;
    var tag := DollarTag(s).value;
    DollarTagLocal(s, tail);
    DollarStep(s);
    DollarStep(s + tail);
    SplitBefore(s, tail, |tag|);
    IndexOfLocal(s[|tag|..], tail, tag);
  }

  /** One plain character, unless it and the next open a comment. */
  lemma PlainStep(s: string)
    requires s != [] && !IsQuote(s[0]) && DollarTag(s).None?
    ensures Step(s) == (Plain, 1) <==> !OpensComment(s) && s[0] != ';'
  {
    CommentStep(s);
  }

  lemma PlainStepLocal(s: string, tail: string)
    requires s != [] && !IsQuote(s[0]) && DollarTag(s).None? && DollarTag(s + tail).None? && Follows(tail)
    requires Step(s).0 == Plain || Step(s).0 == Region
    ensures Step(s + tail) == Step(s)
  {
    var t := s + tail;
    PlainKind(s);
    hide Step, DollarTag;
    assert t[0] == s[0] && (|s| > 1 ==> t[1] == s[1]) && (|s| == 1 && |t| > 1 ==> t[1] == ';');
    PlainStep(s);
    PlainStep(t);
  }

  lemma PlainKind(s: string)
    requires s != [] && !IsQuote(s[0]) && DollarTag(s).None? && (Step(s).0 == Plain || Step(s).0 == Region)
    ensures Step(s) == (Plain, 1)
  {
  }

  lemma EmitCopy(t: string, current: string)
    requires t != [] && (Step(t).0 == Region || Step(t).0 == Plain)
    ensures Emit(Lex(t), current) == Emit(Lex(t[Step(t).1..]), current + t[..Step(t).1])
  {
    var n := Step(t).1;
    assert Lex(t)[1..] == Lex(t[n..]);
  }

  lemma EmitCopyLocal(s: string, tail: string, current: string)
    requires s != [] && Closed(s) && Follows(tail)
    ensures Emit(Lex(s + tail), current) == Emit(Lex(s[Step(s).1..] + tail), current + s[..Step(s).1])
  {
    var n, t := Step(s).1, s + tail;
    hide Lex, Emit, Step, RegionCloses;
    StepLocal(s, tail);
    EmitCopy(t, current);
    SplitBefore(s, tail, n);
  }

  /** All of a closed statement ends up in the current statement. */
  lemma {:induction false} EmitClosed(s: string, tail: string, current: string)
    requires Closed(s) && Follows(tail)
    ensures Emit(Lex(s + tail), current) == Emit(Lex(tail), current + s)
  {
    hide Emit, Lex, Step, RegionCloses;
    if s == [] {
      assert s + tail == tail;
      assert current + s == current;
    } else {
      var head, rest := s[..Step(s).1], s[Step(s).1..];
      EmitCopyLocal(s, tail, current);
      EmitClosed(rest, tail, current + head);
      Reassembled(current, head, rest, s);
    }
  }

  lemma Reassembled(current: string, head: string, rest: string, s: string)
    requires s == head + rest
    ensures current + head + rest == current + s
  {
  }

  /** A closed statement, whatever follows it, is what the rest starts from. */
  lemma StatementRead(s: string, tail: string, whole: string)
    requires Statement(s) && Follows(tail) && whole == s + tail
    ensures Split(whole) == Emit(Lex(tail), s)
  {
    hide Emit, Lex, Closed, Trim;
    EmitClosed(s, tail, []);
    assert [] + s == s;
  }

  lemma LastStatement(s: string)
    requires Statement(s)
    ensures Split(s) == [s]
  {
    assert Lex([]) == [] && Trim(s) == s;
    assert Emit([], s) == [s];
    hide Lex, Emit, Statement;
    assert s + [] == s;
    StatementRead(s, [], s);
  }

  /** A separator ends the statement before it. */
  lemma EmitSeparator(rest: string, s: string, t: string)
    requires Trim(s) == s && s != [] && t == ";" + rest
    ensures Emit(Lex(t), s) == [s] + Split(rest)
  {
    assert t[0] == ';' && t[1..] == rest;
    NoComment(t);
    assert Step(t) == (Break, 1);
    assert Lex(t)[1..] == Lex(rest);
  }

  lemma FirstStatement(s: string, rest: string, whole: string)
    requires Statement(s) && whole == s + (";" + rest)
    ensures Split(whole) == [s] + Split(rest)
  {
    hide Emit, Lex, Closed, Trim, Split;
    var tail := ";" + rest;
    assert tail[0] == ';';
    StatementRead(s, tail, whole);
    EmitSeparator(rest, s, tail);
  }

  lemma JoinSplits(statements: seq<string>)
    requires |statements| > 1
    ensures Join(statements) == statements[0] + (";" + Join(statements[1..]))
  {
    var rest := Join(statements[1..]);
    Reassembled(statements[0], ";", rest, ";" + rest);
  }

  /** Splitting undoes joining by `;`, for any list of statements. */
  lemma {:induction false} SplitUndoesJoin(statements: seq<string>)
    requires forall s :: s in statements ==> Statement(s)
    ensures Split(Join(statements)) == statements
  {
    if statements == [] {
      assert Lex([]) == [];
    } else {
      hide Statement, Split;
      assert statements[0] in statements;
      if |statements| == 1 {
        LastStatement(statements[0]);
      } else {
        hide Join;
        JoinSplits(statements);
        FirstStatement(statements[0], Join(statements[1..]), Join(statements));
        SplitUndoesJoin(statements[1..]);
      }
    }
  }

  // ---- Regions are copied whole -----------------------------------------------------------------------

  function Concat(lexemes: seq<Lexeme>): string {
    if lexemes == [] then [] else lexemes[0].text + Concat(lexemes[1..])
  }

  /** The scan loses nothing: its lexemes spell out the file. */
  lemma {:induction false} LexIsLossless(s: string)
    ensures Concat(Lex(s)) == s
  {
    if s != [] {
      var n := Step(s).1;
      LexIsLossless(s[n..]);
      assert Lex(s)[1..] == Lex(s[n..]);
      assert s == s[..n] + s[n..];
    }
  }

  ghost predicate Contains(s: string, part: string) { exists a, b :: s == a + part + b }

  /** Text whose two ends `trim` leaves alone. */
  predicate Firm(s: string) { s != [] && !IsSpace(s[0]) && !IsSpace(s[|s| - 1]) }

  lemma {:induction false} TrimLeftKeeps(a: string, part: string, b: string) returns (a': string)
    requires Firm(part)
    ensures TrimLeft(a + part + b) == a' + part + b
  {
    var s := a + part + b;
    if a == [] {
      assert s[0] == part[0];
      a' := a;
    } else if IsSpace(a[0]) {
      assert s[1..] == a[1..] + part + b;
      a' := TrimLeftKeeps(a[1..], part, b);
    } else {
      a' := a;
    }
  }

  lemma {:induction false} TrimRightKeeps(a: string, part: string, b: string) returns (b': string)
    requires Firm(part)
    ensures TrimRight(a + part + b) == a + part + b'
    decreases |b|
  {
    var s := a + part + b;
    if b == [] {
      assert s[|s| - 1] == part[|part| - 1];
      b' := b;
    } else if IsSpace(b[|b| - 1]) {
      assert s[..|s| - 1] == a + part + b[..|b| - 1];
      b' := TrimRightKeeps(a, part, b[..|b| - 1]);
    } else {
      b' := b;
    }
  }

  lemma TrimKeeps(s: string, part: string)
    requires Firm(part) && Contains(s, part)
    ensures Contains(Trim(s), part) && Trim(s) != []
  {
    var a, b :| s == a + part + b;
    var a' := TrimLeftKeeps(a, part, b);
    var b' := TrimRightKeeps(a', part, b);
    assert Trim(s) == a' + part + b';
  }

  /** Once text is in the current statement, the next statement out holds it. */
  lemma {:induction false} CurrentIsEmitted(lexemes: seq<Lexeme>, current: string, part: string)
    requires Firm(part) && Contains(current, part)
    ensures Emit(lexemes, current) != [] && Contains(Emit(lexemes, current)[0], part)
  {
    if lexemes == [] || lexemes[0].kind == Break {
      TrimKeeps(current, part);
    } else if lexemes[0].kind == Comment {
      CurrentIsEmitted(lexemes[1..], current, part);
    } else {
      var a, b :| current == a + part + b;
      assert current + lexemes[0].text == a + part + (b + lexemes[0].text);
      CurrentIsEmitted(lexemes[1..], current + lexemes[0].text, part);
    }
  }

  lemma {:induction false} LexemeIsEmitted(lexemes: seq<Lexeme>, current: string, i: nat)
    requires i < |lexemes| && (lexemes[i].kind == Region || lexemes[i].kind == Plain) && Firm(lexemes[i].text)
    ensures exists k :: 0 <= k < |Emit(lexemes, current)| && Contains(Emit(lexemes, current)[k], lexemes[i].text)
  {
    var out, rest := Emit(lexemes, current), lexemes[1..];
    if i == 0 {
      assert current + lexemes[0].text == current + lexemes[0].text + [];
      CurrentIsEmitted(rest, current + lexemes[0].text, lexemes[0].text);
      assert out[0] == Emit(rest, current + lexemes[0].text)[0];
    } else {
      var next := if lexemes[0].kind == Comment then current else if lexemes[0].kind == Break then [] else current + lexemes[0].text;
      LexemeIsEmitted(rest, next, i - 1);
      var k :| 0 <= k < |Emit(rest, next)| && Contains(Emit(rest, next)[k], rest[i - 1].text);
      var shift := if lexemes[0].kind == Break then |Pushed(current)| else 0;
      assert out[k + shift] == Emit(rest, next)[k];
    }
  }

  /** A region the scan reads: where it starts, the file from there, and its text. */
  ghost predicate ReadsRegion(sql: string, i: nat, from: string)
    decreases i
  {
    sql != [] && if i == 0 then from == sql && Step(sql).0 == Region
                 else ReadsRegion(sql[Step(sql).1..], i - 1, from)
  }

  lemma {:induction false} RegionLexeme(sql: string, i: nat, from: string)
    requires ReadsRegion(sql, i, from)
    ensures from != [] && Step(from).0 == Region && i < |Lex(sql)| && Lex(sql)[i] == Lexeme(Region, from[..Step(from).1])
  {
    hide Step;
    if i > 0 {
      RegionLexeme(sql[Step(sql).1..], i - 1, from);
    }
  }

  lemma {:induction false} QuoteEndsFirm(s: string, j: nat, quote: char)
    requires j <= |s| && QuoteCloses(s, j, quote)
    ensures j < QuoteEnd(s, j, quote) && s[QuoteEnd(s, j, quote) - 1] == quote
    decreases |s| - j
  {
    if s[j] != quote {
      QuoteEndsFirm(s, j + 1, quote);
    } else if j + 1 < |s| && s[j + 1] == quote {
      QuoteEndsFirm(s, j + 2, quote);
    }
  }

  /** A closed region starts and ends on its own delimiters. */
  lemma ClosedRegionIsFirm(s: string)
    requires s != [] && Step(s).0 == Region && RegionCloses(s)
    ensures Firm(s[..Step(s).1])
  {
    hide QuoteEnd, QuoteCloses, IndexOf, DollarTag;
    CommentStep(s);
    if IsQuote(s[0]) {
      QuoteEndsFirm(s, 1, s[0]);
    } else {
      ClosedDollarIsFirm(s);
    }
  }

  lemma ClosedDollarIsFirm(s: string)
    requires s != [] && DollarTag(s).Some? && IndexOf(s[|DollarTag(s).value|..], DollarTag(s).value).Some?
    requires Step(s).0 == Region && !IsQuote(s[0])
    ensures Firm(s[..Step(s).1])
  {
    hide IndexOf;
    var tag := DollarTag(s).value;
    var close := IndexOf(s[|tag|..], tag).value;
    var n := Step(s).1;
    assert s[|tag|..][close..] == s[|tag| + close..];
    assert tag <= s[|tag| + close..];
    assert s[n - 1] == tag[|tag| - 1] == '$';
  }

  ghost predicate SomeHolds(statements: seq<string>, text: string) {
    exists k :: 0 <= k < |statements| && Contains(statements[k], text)
  }

  lemma WholeInOutput(lexemes: seq<Lexeme>, i: nat, text: string)
    requires i < |lexemes| && lexemes[i] == Lexeme(Region, text) && Firm(text)
    ensures SomeHolds(Emit(lexemes, []), text)
  {
    LexemeIsEmitted(lexemes, [], i);
  }

  lemma ClosedRegionLexeme(sql: string, i: nat, from: string)
    requires ReadsRegion(sql, i, from) && from != [] && RegionCloses(from)
    ensures i < |Lex(sql)| && Lex(sql)[i] == Lexeme(Region, from[..Step(from).1]) && Firm(from[..Step(from).1])
  {
    RegionLexeme(sql, i, from);
    ClosedRegionIsFirm(from);
  }

  /** On every input, each closed region the scan meets is whole inside one statement returned. */
  lemma ClosedRegionsCopiedWhole(sql: string, i: nat, from: string)
    requires ReadsRegion(sql, i, from) && from != [] && RegionCloses(from)
    ensures SomeHolds(Split(sql), from[..Step(from).1])
  {
    ClosedRegionLexeme(sql, i, from);
    WholeInOutput(Lex(sql), i, from[..Step(from).1]);
  }

  lemma RegionAlone(s: string)
    requires s != [] && Step(s) == (Region, |s|)
    ensures Split(s) == Pushed(s)
  {
    hide Step, Trim;
    assert s[..|s|] == s && s[|s|..] == [];
    assert Lex([]) == [];
    assert Lex(s) == [Lexeme(Region, s)];
    assert Emit(Lex(s)[1..], s) == Pushed(s) && [] + s == s;
  }

  /**
    Where wholeness stops: a region still open at the end of the file loses its trailing whitespace
    to the final trim, so a whole copy needs the region to close, or to end on a visible character.
   */
  lemma OpenRegionIsTrimmed()
    ensures Split("'a ") == ["'a"]
  {
    hide Step, Split, Lex, Emit, IndexOf, DollarTag;
    var s, t := "'a ", "'a";
    assert s[1] == 'a' && s[2] == ' ';
    QuoteStep(s);
    assert QuoteEnd(s, 3, '\'') == 3 && QuoteEnd(s, 2, '\'') == 3 && QuoteEnd(s, 1, '\'') == 3;
    RegionAlone(s);
    assert s[..2] == t && t[1] == 'a';
    assert TrimLeft(s) == s && TrimRight(t) == t && TrimRight(s) == TrimRight(s[..2]);
  }

  lemma {:induction false} TrimRightEnds(s: string)
    requires exists i :: 0 <= i < |s| && !IsSpace(s[i])
    ensures TrimRight(s) != [] && !IsSpace(TrimRight(s)[|TrimRight(s)| - 1])
  {
    if IsSpace(s[|s| - 1]) {
      var i :| 0 <= i < |s| && !IsSpace(s[i]);
      assert s[..|s| - 1][i] == s[i];
      TrimRightEnds(s[..|s| - 1]);
    }
  }

  lemma {:induction false} TrimShape(current: string, region: string)
    requires region != [] && !IsSpace(region[0])
    ensures Trim(current + region) != [] && !IsSpace(Trim(current + region)[|Trim(current + region)| - 1])
  {
    if current == [] {
      assert current + region == region;
      TrimRightEnds(region);
    } else if IsSpace(current[0]) {
      assert (current + region)[1..] == current[1..] + region;
      TrimShape(current[1..], region);
    } else {
      assert (current + region)[0] == current[0];
      TrimRightEnds(current + region);
    }
  }

  /** Reading past the end: an open quoted region is the rest of the file. */
  lemma {:induction false} OpenQuoteRunsOut(s: string, j: nat, quote: char)
    requires j <= |s| && !QuoteCloses(s, j, quote)
    ensures QuoteEnd(s, j, quote) == |s|
    decreases |s| - j
  {
    if j < |s| {
      if s[j] != quote {
        OpenQuoteRunsOut(s, j + 1, quote);
      } else if j + 1 < |s| && s[j + 1] == quote {
        OpenQuoteRunsOut(s, j + 2, quote);
      }
    }
  }

  lemma OpenRegionRunsOut(s: string)
    requires s != [] && Step(s).0 == Region && !RegionCloses(s)
    ensures Step(s).1 == |s| && !IsSpace(s[0])
  {
    hide QuoteEnd, QuoteCloses, IndexOf, Step;
    if IsQuote(s[0]) {
      QuoteStep(s);
      OpenQuoteRunsOut(s, 1, s[0]);
    } else {
      DollarStep(s);
    }
  }

  /** An open region is the last thing the scan reads. */
  lemma {:induction false} OpenRegionIsLast(sql: string, i: nat, from: string)
    requires ReadsRegion(sql, i, from) && from != [] && !RegionCloses(from)
    ensures |Lex(sql)| == i + 1 && Lex(sql)[i] == Lexeme(Region, from)
  {
    hide Step, RegionCloses;
    if i == 0 {
      OpenRegionRunsOut(sql);
      assert Lex(sql[|sql|..]) == [] && sql[..|sql|] == sql;
    } else {
      OpenRegionIsLast(sql[Step(sql).1..], i - 1, from);
    }
  }

  /** The last statement is what was being gathered, the last region at its end, trimmed. */
  lemma {:induction false} LastRegionIsEmitted(lexemes: seq<Lexeme>, current: string, region: string) returns (before: string)
    requires lexemes != [] && lexemes[|lexemes| - 1] == Lexeme(Region, region) && region != [] && !IsSpace(region[0])
    ensures var out := Emit(lexemes, current); out != [] && out[|out| - 1] == Trim(before + region)
  {
    hide Trim;
    var rest := lexemes[1..];
    if rest == [] {
      before := current;
      assert Emit(lexemes, current) == Pushed(current + region);
      TrimShape(current, region);
    } else if lexemes[0].kind == Break {
      before := LastRegionIsEmitted(rest, [], region);
    } else {
      before := LastRegionIsEmitted(rest, if lexemes[0].kind == Comment then current else current + lexemes[0].text, region);
    }
  }

  ghost predicate EndsIn(s: string, part: string) { exists a :: s == a + part }

  lemma {:induction false} TrimLeftStops(current: string, region: string) returns (a: string)
    requires region != [] && !IsSpace(region[0])
    ensures TrimLeft(current + region) == a + region
  {
    if current == [] {
      a := [];
      assert current + region == region && a + region == region;
    } else if IsSpace(current[0]) {
      assert (current + region)[1..] == current[1..] + region;
      a := TrimLeftStops(current[1..], region);
    } else {
      a := current;
      assert (current + region)[0] == current[0];
    }
  }

  lemma {:induction false} TrimRightStops(a: string, region: string)
    requires region != [] && !IsSpace(region[0])
    ensures TrimRight(a + region) == a + TrimRight(region) && TrimRight(region) <= region
    decreases |region|
  {
    var last := |region| - 1;
    if IsSpace(region[last]) {
      assert (a + region)[..|a| + last] == a + region[..last];
      TrimRightStops(a, region[..last]);
    }
  }

  lemma TrimmedAfter(before: string, region: string) returns (a: string)
    requires region != [] && !IsSpace(region[0])
    ensures Trim(before + region) == a + TrimRight(region)
    ensures Trim(before + region) != [] && !IsSpace(Trim(before + region)[|Trim(before + region)| - 1])
  {
    hide TrimLeft, TrimRight;
    a := TrimLeftStops(before, region);
    TrimRightStops(a, region);
    TrimShape(before, region);
  }

  /** A text without trailing whitespace, made of `a` and a trimmed region, ends in all of the region or not. */
  lemma EndsInAllIff(out: string, a: string, region: string)
    requires region != [] && out == a + TrimRight(region) && out != [] && !IsSpace(out[|out| - 1])
    ensures EndsIn(out, region) <==> !IsSpace(region[|region| - 1])
  {
    if EndsIn(out, region) {
      var b :| out == b + region;
      assert out[|out| - 1] == region[|region| - 1];
    }
  }

  /**
    The exact account of an unterminated region: it is the last lexeme, the last statement ends in it
    less its trailing whitespace, and so in all of it if and only if its last character is visible.
   */
  lemma OpenRegionKeptIff(sql: string, i: nat, from: string)
    requires ReadsRegion(sql, i, from) && from != [] && !RegionCloses(from)
    ensures |Lex(sql)| == i + 1 && Lex(sql)[i] == Lexeme(Region, from) && Split(sql) != []
    ensures var last := Split(sql)[|Split(sql)| - 1];
            && EndsIn(last, TrimRight(from))
            && (EndsIn(last, from) <==> !IsSpace(from[|from| - 1]))
  {
    hide Lex, Emit, Step, ReadsRegion, RegionCloses, Trim, TrimRight, IsSpace;
    RegionLexeme(sql, i, from);
    OpenRegionRunsOut(from);
    OpenRegionIsLast(sql, i, from);
    var before := LastRegionIsEmitted(Lex(sql), [], from);
    var a := TrimmedAfter(before, from);
    EndsInAllIff(Trim(before + from), a, from);
  }
}
