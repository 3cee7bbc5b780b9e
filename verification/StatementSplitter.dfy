/**
  Splitting a migration file into statements: quotes, dollar bodies and comments first
  (packages/db/src/migrator.ts:54-130).
 */
module StatementSplitter {
  import opened Basics

  /** One step of the scan: what it read and how the splitter treats it. */
  datatype Kind = Comment | Region | Plain | Break
  datatype Lexeme = Lexeme(kind: Kind, text: string)

  predicate IsQuote(c: char) { c == '\'' || c == '"' || c == '`' }

  predicate IsTagChar(c: char) { 'A' <= c <= 'Z' || 'a' <= c <= 'z' || c == '_' }

  /** The characters `String.prototype.trim` removes. */
  predicate IsSpace(c: char) {
    c == ' ' || '\U{0009}' <= c <= '\U{000D}' || c == '\U{00A0}' || c == '\U{FEFF}' || c == '\U{1680}'
    || '\U{2000}' <= c <= '\U{200A}' || c == '\U{2028}' || c == '\U{2029}' || c == '\U{202F}' || c == '\U{205F}' || c == '\U{3000}'
  }

  function TrimLeft(s: string): string { if s != [] && IsSpace(s[0]) then TrimLeft(s[1..]) else s }

  function TrimRight(s: string): string {
    if s != [] && IsSpace(s[|s| - 1]) then TrimRight(s[..|s| - 1]) else s
  }

  function Trim(s: string): string { TrimRight(TrimLeft(s)) }

  /** Just past the quote that closes a region, from inside it; doubled quotes do not close. */
  function QuoteEnd(s: string, j: nat, quote: char): (r: nat)
    requires j <= |s|
    ensures j <= r <= |s|
    decreases |s| - j
  {
    if j == |s| then j
    else if s[j] != quote then QuoteEnd(s, j + 1, quote)
    else if j + 1 < |s| && s[j + 1] == quote then QuoteEnd(s, j + 2, quote)
    else j + 1
  }

  /** The region is closed rather than cut off by the end of the file. */
  predicate QuoteCloses(s: string, j: nat, quote: char)
    requires j <= |s|
    decreases |s| - j
  {
    j < |s| && if s[j] != quote then QuoteCloses(s, j + 1, quote)
               else if j + 1 < |s| && s[j + 1] == quote then QuoteCloses(s, j + 2, quote)
               else true
  }

  /** Past the run of tag characters from `j`. */
  function TagRun(s: string, j: nat): (r: nat)
    requires j <= |s|
    ensures j <= r <= |s|
    decreases |s| - j
  {
    if j < |s| && IsTagChar(s[j]) then TagRun(s, j + 1) else j
  }

  /** The dollar tag a text opens with, if it does: `$`, tag characters, `$`. */
  function DollarTag(s: string): (r: Option<string>)
    ensures r.Some? ==> 2 <= |r.value| && r.value <= s
  {
    if s == [] || s[0] != '$' then None
    else
      var e := TagRun(s, 1);
      if e < |s| && s[e] == '$' then Some(s[..e + 1]) else None
  }

  /** What the scan reads from the front of a non-empty text: how it treats it, and how much. */
  function Step(s: string): (r: (Kind, nat))
    requires s != []
    ensures 0 < r.1 <= |s|
  {
    if "--" <= s then
      var nl := IndexOf(s, "\n");
      (Comment, if nl.None? then |s| else nl.value + 1)
    else if "/*" <= s then
      var end := IndexOf(s[2..], "*/");
      (Comment, if end.None? then |s| else end.value + 4)
    else if IsQuote(s[0]) then (Region, QuoteEnd(s, 1, s[0]))
    else if DollarTag(s).Some? then
      var tag := DollarTag(s).value;
      var close := IndexOf(s[|tag|..], tag);
      (Region, if close.None? then |s| else close.value + 2 * |tag|)
    else if s[0] == ';' then (Break, 1)
    else (Plain, 1)
  }

  function Lex(s: string): seq<Lexeme> {
    if s == [] then []
    else
      var (kind, n) := Step(s);
      [Lexeme(kind, s[..n])] + Lex(s[n..])
  }

  function Pushed(current: string): seq<string> { if Trim(current) == [] then [] else [Trim(current)] }

  /** The statements a list of lexemes stands for, given what the current statement already holds. */
  function Emit(lexemes: seq<Lexeme>, current: string): seq<string> {
    if lexemes == [] then Pushed(current)
    else if lexemes[0].kind == Comment then Emit(lexemes[1..], current)
    else if lexemes[0].kind == Break then Pushed(current) + Emit(lexemes[1..], [])
    else Emit(lexemes[1..], current + lexemes[0].text)
  }

  function Split(sql: string): seq<string> { Emit(Lex(sql), []) }

  // ---- The loop ------------------------------------------------------------------------------------

  method ScanQuoted(sql: string, start: nat) returns (j: nat)
    requires start < |sql|
    ensures j == start + QuoteEnd(sql[start..], 1, sql[start]) && start < j <= |sql|
  {
    var quote := sql[start];
    j := start + 1;
    while j < |sql|
      invariant start < j <= |sql|
      invariant QuoteEnd(sql[start..], 1, quote) == QuoteEnd(sql[start..], j - start, quote)
    {
      if sql[j] == quote {
        if j + 1 < |sql| && sql[j + 1] == quote {
          j := j + 2;
          continue;
        }
        j := j + 1;
        break;
      }
      j := j + 1;
    }
  }

  /** One turn of the scan at `i`: which branch it takes and where it leaves the index. */
  method ScanOne(sql: string, i: nat) returns (kind: Kind, next: nat)
    requires i < |sql|
    ensures (kind, next - i) == Step(sql[i..]) && i < next <= |sql|
  {
    hide QuoteEnd;
    var n, ch := |sql|, sql[i];
    ghost var here := sql[i..];
    if ch == '-' && i + 1 < n && sql[i + 1] == '-' {
      var nl := IndexOf(sql[i..], "\n");
      return Comment, if nl.None? then n else i + nl.value + 1;
    }
    if ch == '/' && i + 1 < n && sql[i + 1] == '*' {
      assert here[2..] == sql[i + 2..];
      var end := IndexOf(sql[i + 2..], "*/");
      return Comment, if end.None? then n else i + 2 + end.value + 2;
    }
    if IsQuote(ch) {
      var j := ScanQuoted(sql, i);
      return Region, j;
    }
    if ch == '$' {
      var tagMatch := DollarTag(sql[i..]);
      if tagMatch.Some? {
        var tag := tagMatch.value;
        assert here[|tag|..] == sql[i + |tag|..];
        var closeAt := IndexOf(sql[i + |tag|..], tag);
        return Region, if closeAt.None? then n else i + |tag| + closeAt.value + |tag|;
      }
    }
    return if ch == ';' then Break else Plain, i + 1;
  }

  /** Ends the current statement: pushed when anything but whitespace is in it. */
  method EndStatement(result: seq<string>, current: string) returns (next: seq<string>)
    ensures next == result + Pushed(current)
  {
    var trimmed := Trim(current);
    if |trimmed| > 0 { return result + [trimmed]; }
    return result;
  }

  /** Files one lexeme: into the current statement, ending it, or nowhere. `todo` is what is left. */
  method File(ghost todo: seq<Lexeme>, kind: Kind, text: string, result: seq<string>, current: string)
    returns (result': seq<string>, current': string)
    requires todo != [] && todo[0] == Lexeme(kind, text)
    ensures result' + Emit(todo[1..], current') == result + Emit(todo, current)
  {
    result', current' := result, current;
    if kind == Region || kind == Plain {
      current' := current + text;
    } else if kind == Break {
      result' := EndStatement(result, current);
      current' := [];
      assert result + (Pushed(current) + Emit(todo[1..], [])) == result' + Emit(todo[1..], []);
    }
  }

  lemma LexStep(sql: string, i: nat, kind: Kind, next: nat, todo: seq<Lexeme>)
    requires i < |sql| && i < next <= |sql| && (kind, next - i) == Step(sql[i..]) && todo == Lex(sql[i..])
    ensures todo != [] && todo[0] == Lexeme(kind, sql[i..next]) && todo[1..] == Lex(sql[next..])
  {
    var here := sql[i..];
    assert here[next - i..] == sql[next..] && here[..next - i] == sql[i..next];
  }

  method Turn(sql: string, i: nat, ghost todo: seq<Lexeme>) returns (kind: Kind, next: nat)
    requires i < |sql| && todo == Lex(sql[i..])
    ensures i < next <= |sql|
    ensures todo != [] && todo[0] == Lexeme(kind, sql[i..next]) && todo[1..] == Lex(sql[next..])
  {
    kind, next := ScanOne(sql, i);
    LexStep(sql, i, kind, next, todo);
  }

  method SplitStatements(sql: string) returns (result: seq<string>)
    ensures result == Split(sql)
  {
    result := [];
    var current: string := [];
    var i := 0;
    assert sql[0..] == sql;
    ghost var todo := Lex(sql);
    while i < |sql|
      invariant 0 <= i <= |sql| && todo == Lex(sql[i..])
      invariant result + Emit(todo, current) == Split(sql)
    {
      var kind, next := Turn(sql, i, todo);
      result, current := File(todo, kind, sql[i..next], result, current);
      i, todo := next, todo[1..];
    }
    assert sql[i..] == [];
    result := EndStatement(result, current);
  }
}
