/**
  The fragment of SQL the compilers emit, read back under ordinary precedence.

    disjunction  conjunction { OR conjunction }
    conjunction  negation { AND negation }
    negation     NOT negation | comparison
    comparison   postfix [ op postfix | BETWEEN postfix AND postfix | IN subquery ]
    postfix      primary { '[' disjunction ']' }
    primary      '(' disjunction ')' | name [ '(' arguments ')' ] | alias | parameter | number | text
 */
module SqlGrammar {
  import opened Basics

  datatype Comparison = Eq | Ne | Gt | Ge | Lt | Le

  datatype Token =
    | Open | Close | OpenBracket | CloseBracket | Comma
    | And | Or | Not | Between | In
    | Op(op: Comparison)
    | Name(name: string)
    | Alias(index: nat)
    | Param(index: nat)
    | Numeral(n: int)
    | Quoted(text: string)
    | Subquery(id: nat)

  datatype Expr =
    | Column(name: string)
    | Aggregate(index: nat)
    | Bound(index: nat)
    | Literal(n: int)
    | Text(text: string)
    | Call(f: string, args: seq<Expr>)
    | At(base: Expr, key: Expr)
    | Compare(op: Comparison, left: Expr, right: Expr)
    | Range(e: Expr, low: Expr, high: Expr)
    | Member(e: Expr, id: nat)
    | Negation(e: Expr)
    | All(es: seq<Expr>)
    | Any(es: seq<Expr>)

  // ---- The reader --------------------------------------------------------------------------------

  /** Precedence levels, tightest first. */
  const PRIMARY: nat := 0
  const POSTFIX: nat := 1
  const COMPARISON: nat := 2
  const NEGATION: nat := 3
  const CONJUNCTION: nat := 4
  const DISJUNCTION: nat := 5

  type Reading = Option<(Expr, seq<Token>)>

  function Starts(t: seq<Token>, k: Token): bool { t != [] && t[0] == k }

  function Parse(level: nat, t: seq<Token>): (r: Reading)
    requires level <= DISJUNCTION
    ensures r.Some? ==> |r.value.1| < |t|
    decreases |t|, level, 1
  {
    if level == PRIMARY then ParsePrimary(t)
    else if level == POSTFIX then
      var base := Parse(PRIMARY, t);
      if base.None? then None else ParseIndex(base.value.0, base.value.1, t)
    else if level == COMPARISON then ParseComparison(t)
    else if level == NEGATION then
      if Starts(t, Not) then
        var e := Parse(NEGATION, t[1..]);
        if e.None? then None else Some((Negation(e.value.0), e.value.1))
      else Parse(COMPARISON, t)
    else
      var list := ParseList(level, t);
      if list.None? then None
      else if |list.value.0| == 1 then Some((list.value.0[0], list.value.1))
      else Some((if level == CONJUNCTION then All(list.value.0) else Any(list.value.0), list.value.1))
  }

  function ParsePrimary(t: seq<Token>): (r: Reading)
    ensures r.Some? ==> |r.value.1| < |t|
    decreases |t|, 0, 0
  {
    if t == [] then None
    else match t[0]
      case Open =>
        var e := Parse(DISJUNCTION, t[1..]);
        if e.Some? && Starts(e.value.1, Close) then Some((e.value.0, e.value.1[1..])) else None
      case Name(name) =>
        if Starts(t[1..], Open) then
          if Starts(t[2..], Close) then Some((Call(name, []), t[3..]))
          else
            var args := ParseArguments(t[2..]);
            if args.None? then None else Some((Call(name, args.value.0), args.value.1))
        else Some((Column(name), t[1..]))
      case Alias(index) => Some((Aggregate(index), t[1..]))
      case Param(index) => Some((Bound(index), t[1..]))
      case Numeral(n) => Some((Literal(n), t[1..]))
      case Quoted(text) => Some((Text(text), t[1..]))
      case _ => None
  }

  function ParseArguments(t: seq<Token>): (r: Option<(seq<Expr>, seq<Token>)>)
    ensures r.Some? ==> |r.value.1| < |t|
    decreases |t|, 6, 0
  {
    var e := Parse(DISJUNCTION, t);
    if e.None? then None
    else if Starts(e.value.1, Close) then Some(([e.value.0], e.value.1[1..]))
    else if Starts(e.value.1, Comma) then
      var more := ParseArguments(e.value.1[1..]);
      if more.None? then None else Some(([e.value.0] + more.value.0, more.value.1))
    else None
  }

  /** Any number of `[key]` after a base that has been read from `whole`. */
  function ParseIndex(base: Expr, t: seq<Token>, ghost whole: seq<Token>): (r: Reading)
    requires |t| < |whole|
    ensures r.Some? ==> |r.value.1| < |whole|
    decreases |t|, 6, 0
  {
    if Starts(t, OpenBracket) then
      var key := Parse(DISJUNCTION, t[1..]);
      if key.Some? && Starts(key.value.1, CloseBracket) then ParseIndex(At(base, key.value.0), key.value.1[1..], whole) else None
    else Some((base, t))
  }

  function ParseComparison(t: seq<Token>): (r: Reading)
    ensures r.Some? ==> |r.value.1| < |t|
    decreases |t|, 2, 0
  {
    var left := Parse(POSTFIX, t);
    if left.None? || left.value.1 == [] then left
    else
      var (e, rest) := left.value;
      match rest[0]
      case Op(op) =>
        var right := Parse(POSTFIX, rest[1..]);
        if right.None? then None else Some((Compare(op, e, right.value.0), right.value.1))
      case Between =>
        var low := Parse(POSTFIX, rest[1..]);
        if low.None? || !Starts(low.value.1, And) then None
        else
          var high := Parse(POSTFIX, low.value.1[1..]);
          if high.None? then None else Some((Range(e, low.value.0, high.value.0), high.value.1))
      case In =>
        if |rest| > 1 && rest[1].Subquery? then Some((Member(e, rest[1].id), rest[2..])) else None
      case _ => left
  }

  function Joiner(level: nat): Token { if level == CONJUNCTION then And else Or }

  /** One or more operands of the level below, joined by the level's keyword. */
  function ParseList(level: nat, t: seq<Token>): (r: Option<(seq<Expr>, seq<Token>)>)
    requires CONJUNCTION <= level <= DISJUNCTION
    ensures r.Some? ==> |r.value.1| < |t| && |r.value.0| > 0
    decreases |t|, level, 0
  {
    var e := Parse(level - 1, t);
    if e.None? then None
    else if Starts(e.value.1, Joiner(level)) then
      var more := ParseList(level, e.value.1[1..]);
      if more.None? then None else Some(([e.value.0] + more.value.0, more.value.1))
    else Some(([e.value.0], e.value.1))
  }

  // ---- Texts that read as one expression -------------------------------------------------------------

  /** A token that does not carry an expression of this level on. */
  predicate Stops(level: nat, k: Token) {
    && k != Open
    && (level >= POSTFIX ==> k != OpenBracket)
    && (level >= COMPARISON ==> !k.Op? && k != Between && k != In)
    && (level >= CONJUNCTION ==> k != And)
    && (level >= DISJUNCTION ==> k != Or)
  }

  predicate Ends(level: nat, rest: seq<Token>) { rest == [] || Stops(level, rest[0]) }

  /** Wherever an expression of this level may stand, the text is read as exactly `e`. */
  ghost predicate Reads(t: seq<Token>, level: nat, e: Expr)
    requires level <= DISJUNCTION
  {
    t != [] && forall rest :: Ends(level, rest) ==> Parse(level, t + rest) == Some((e, rest))
  }

  /** A text opening with NOT is no comparison, nor anything tighter. */
  lemma {:induction false} NotReadsAsNothing(t: seq<Token>, level: nat)
    requires t != [] && t[0] == Not && level <= COMPARISON
    ensures Parse(level, t) == None
  {
    if level > PRIMARY { NotReadsAsNothing(t, level - 1); }
  }

  /** An expression stands wherever a looser one may. */
  lemma {:induction false} Looser(t: seq<Token>, level: nat, e: Expr, target: nat)
    requires level <= target <= DISJUNCTION && Reads(t, level, e)
    ensures Reads(t, target, e)
    decreases target - level
  {
    if level < target {
      OneLooser(t, level, e);
      Looser(t, level + 1, e, target);
    }
  }

  lemma OneLooser(t: seq<Token>, level: nat, e: Expr)
    requires level < DISJUNCTION && Reads(t, level, e)
    ensures Reads(t, level + 1, e)
  {
    forall rest | Ends(level + 1, rest) ensures Parse(level + 1, t + rest) == Some((e, rest)) {
      assert (t + rest)[0] == t[0];
      assert Parse(level, t + rest) == Some((e, rest));
      if level + 1 >= CONJUNCTION {
        assert ParseList(level + 1, t + rest) == Some(([e], rest));
      } else if level == COMPARISON && t[0] == Not {
        NotReadsAsNothing(t + rest, level);
      }
    }
  }

  lemma ReadsName(name: string)
    ensures Reads([Name(name)], PRIMARY, Column(name))
  {
    forall rest | Ends(PRIMARY, rest) ensures Parse(PRIMARY, [Name(name)] + rest) == Some((Column(name), rest)) {
      assert ([Name(name)] + rest)[1..] == rest;
    }
  }

  /** Aggregate aliases, parameters, numbers and quoted text. */
  lemma ReadsAtom(k: Token, e: Expr)
    requires (k.Alias? && e == Aggregate(k.index)) || (k.Param? && e == Bound(k.index)) || (k.Numeral? && e == Literal(k.n)) || (k.Quoted? && e == Text(k.text))
    ensures Reads([k], PRIMARY, e)
  {
    forall rest | Ends(PRIMARY, rest) ensures Parse(PRIMARY, [k] + rest) == Some((e, rest)) {
      assert ([k] + rest)[1..] == rest;
    }
  }

  lemma ReadsParens(t: seq<Token>, e: Expr)
    requires Reads(t, DISJUNCTION, e)
    ensures Reads([Open] + t + [Close], PRIMARY, e)
  {
    var whole := [Open] + t + [Close];
    forall rest | Ends(PRIMARY, rest) ensures Parse(PRIMARY, whole + rest) == Some((e, rest)) {
      var after := [Close] + rest;
      assert (whole + rest)[1..] == t + after;
      assert after[1..] == rest;
      assert Parse(DISJUNCTION, t + after) == Some((e, after));
    }
  }

  lemma ReadsIndex(base: seq<Token>, b: Expr, key: seq<Token>, k: Expr)
    requires Reads(base, PRIMARY, b) && Reads(key, DISJUNCTION, k)
    ensures Reads(base + [OpenBracket] + key + [CloseBracket], POSTFIX, At(b, k))
  {
    var whole := base + [OpenBracket] + key + [CloseBracket];
    forall rest | Ends(POSTFIX, rest) ensures Parse(POSTFIX, whole + rest) == Some((At(b, k), rest)) {
      var after := [CloseBracket] + rest;
      var tail := [OpenBracket] + (key + after);
      assert whole + rest == base + tail;
      assert Parse(PRIMARY, base + tail) == Some((b, tail));
      assert tail[1..] == key + after;
      assert Parse(DISJUNCTION, key + after) == Some((k, after));
      assert after[1..] == rest;
      assert ParseIndex(At(b, k), rest, base + tail) == Some((At(b, k), rest));
      assert ParseIndex(b, tail, base + tail) == Some((At(b, k), rest));
    }
  }

  lemma ReadsCompare(a: seq<Token>, ea: Expr, op: Comparison, b: seq<Token>, eb: Expr)
    requires Reads(a, POSTFIX, ea) && Reads(b, POSTFIX, eb)
    ensures Reads(a + [Op(op)] + b, COMPARISON, Compare(op, ea, eb))
  {
    var whole := a + [Op(op)] + b;
    forall rest | Ends(COMPARISON, rest) ensures Parse(COMPARISON, whole + rest) == Some((Compare(op, ea, eb), rest)) {
      var tail := [Op(op)] + (b + rest);
      assert whole + rest == a + tail;
      assert Parse(POSTFIX, a + tail) == Some((ea, tail));
      assert tail[1..] == b + rest;
      assert Parse(POSTFIX, b + rest) == Some((eb, rest));
    }
  }

  lemma ReadsBetween(a: seq<Token>, ea: Expr, low: seq<Token>, el: Expr, high: seq<Token>, eh: Expr)
    requires Reads(a, POSTFIX, ea) && Reads(low, POSTFIX, el) && Reads(high, POSTFIX, eh)
    ensures Reads(a + [Between] + low + [And] + high, COMPARISON, Range(ea, el, eh))
  {
    hide ParseIndex, ParsePrimary, ParseArguments, ParseList;
    var whole := a + [Between] + low + [And] + high;
    forall rest | Ends(COMPARISON, rest) ensures Parse(COMPARISON, whole + rest) == Some((Range(ea, el, eh), rest)) {
      var t2 := [And] + (high + rest);
      var t1 := [Between] + (low + t2);
      assert whole + rest == a + t1;
      assert Parse(POSTFIX, a + t1) == Some((ea, t1));
      assert t1[1..] == low + t2;
      assert Parse(POSTFIX, low + t2) == Some((el, t2));
      assert t2[1..] == high + rest;
      assert Parse(POSTFIX, high + rest) == Some((eh, rest));
    }
  }

  lemma ReadsIn(a: seq<Token>, ea: Expr, id: nat)
    requires Reads(a, POSTFIX, ea)
    ensures Reads(a + [In, Subquery(id)], COMPARISON, Member(ea, id))
  {
    var whole := a + [In, Subquery(id)];
    forall rest | Ends(COMPARISON, rest) ensures Parse(COMPARISON, whole + rest) == Some((Member(ea, id), rest)) {
      var tail := [In, Subquery(id)] + rest;
      assert whole + rest == a + tail;
      assert Parse(POSTFIX, a + tail) == Some((ea, tail));
      assert tail[2..] == rest;
    }
  }

  lemma ReadsNot(t: seq<Token>, e: Expr)
    requires Reads(t, NEGATION, e)
    ensures Reads([Not] + t, NEGATION, Negation(e))
  {
    forall rest | Ends(NEGATION, rest) ensures Parse(NEGATION, [Not] + t + rest) == Some((Negation(e), rest)) {
      assert ([Not] + t + rest)[1..] == t + rest;
      assert Parse(NEGATION, t + rest) == Some((e, rest));
    }
  }

  // ---- Lists ------------------------------------------------------------------------------------------

  /** `parts.join(separator)`. */
  function Joined(parts: seq<seq<Token>>, separator: Token): seq<Token> {
    if parts == [] then []
    else if |parts| == 1 then parts[0]
    else parts[0] + [separator] + Joined(parts[1..], separator)
  }

  ghost predicate ReadAll(parts: seq<seq<Token>>, level: nat, es: seq<Expr>)
    requires level <= DISJUNCTION
  {
    |parts| == |es| && forall i :: 0 <= i < |parts| ==> Reads(parts[i], level, es[i])
  }

  ghost predicate ListIs(level: nat, text: seq<Token>, es: seq<Expr>, rest: seq<Token>)
    requires CONJUNCTION <= level <= DISJUNCTION
  {
    ParseList(level, text) == Some((es, rest))
  }

  lemma JoinedCons(parts: seq<seq<Token>>, k: Token, rest: seq<Token>)
    requires |parts| > 1
    ensures Joined(parts, k) + rest == parts[0] + ([k] + (Joined(parts[1..], k) + rest))
  {
  }

  lemma {:induction false} ListReads(parts: seq<seq<Token>>, es: seq<Expr>, level: nat, rest: seq<Token>)
    requires CONJUNCTION <= level <= DISJUNCTION && parts != [] && ReadAll(parts, level - 1, es) && Ends(level, rest)
    ensures ListIs(level, Joined(parts, Joiner(level)) + rest, es, rest)
  {
    assert Reads(parts[0], level - 1, es[0]);
    if |parts| == 1 {
      ListOne(parts[0], es[0], level, rest);
      assert es == [es[0]];
    } else {
      ListReads(parts[1..], es[1..], level, rest);
      ListStep(parts[0], es[0], level, Joined(parts[1..], Joiner(level)) + rest, es[1..], rest);
      JoinedCons(parts, Joiner(level), rest);
      assert es == [es[0]] + es[1..];
    }
  }

  lemma ListOne(part: seq<Token>, e: Expr, level: nat, rest: seq<Token>)
    requires CONJUNCTION <= level <= DISJUNCTION && Reads(part, level - 1, e) && Ends(level, rest)
    ensures ListIs(level, part + rest, [e], rest)
  {
    assert Parse(level - 1, part + rest) == Some((e, rest));
  }

  lemma ListStep(part: seq<Token>, e: Expr, level: nat, more: seq<Token>, es: seq<Expr>, rest: seq<Token>)
    requires CONJUNCTION <= level <= DISJUNCTION && Reads(part, level - 1, e) && ListIs(level, more, es, rest)
    ensures ListIs(level, part + ([Joiner(level)] + more), [e] + es, rest)
  {
    var tail := [Joiner(level)] + more;
    assert Parse(level - 1, part + tail) == Some((e, tail));
    assert tail[1..] == more;
  }

  /** What joining operands at a level means: the operand itself when there is one. */
  function Chain(level: nat, es: seq<Expr>): Expr
    requires es != []
  {
    if |es| == 1 then es[0] else if level == CONJUNCTION then All(es) else Any(es)
  }

  lemma ReadsChain(parts: seq<seq<Token>>, es: seq<Expr>, level: nat)
    requires CONJUNCTION <= level <= DISJUNCTION && parts != [] && ReadAll(parts, level - 1, es)
    ensures Reads(Joined(parts, Joiner(level)), level, Chain(level, es))
  {
    assert Reads(parts[0], level - 1, es[0]);
    forall rest | Ends(level, rest)
      ensures Parse(level, Joined(parts, Joiner(level)) + rest) == Some((Chain(level, es), rest))
    {
      ListReads(parts, es, level, rest);
    }
  }

  lemma {:induction false} ArgumentsRead(parts: seq<seq<Token>>, es: seq<Expr>, rest: seq<Token>)
    requires parts != [] && ReadAll(parts, DISJUNCTION, es)
    ensures ParseArguments(Joined(parts, Comma) + ([Close] + rest)) == Some((es, rest))
  {
    hide Parse;
    var close := [Close] + rest;
    assert close[1..] == rest;
    assert Reads(parts[0], DISJUNCTION, es[0]);
    if |parts| == 1 {
      assert Parse(DISJUNCTION, parts[0] + close) == Some((es[0], close));
      assert es == [es[0]];
    } else {
      var tail := [Comma] + (Joined(parts[1..], Comma) + close);
      assert Joined(parts, Comma) + close == parts[0] + tail;
      assert Parse(DISJUNCTION, parts[0] + tail) == Some((es[0], tail));
      assert tail[1..] == Joined(parts[1..], Comma) + close;
      assert ReadAll(parts[1..], DISJUNCTION, es[1..]);
      ArgumentsRead(parts[1..], es[1..], rest);
      assert es == [es[0]] + es[1..];
    }
  }

  function CallTokens(f: string, parts: seq<seq<Token>>): seq<Token> { [Name(f), Open] + Joined(parts, Comma) + [Close] }

  lemma ReadsCall(f: string, parts: seq<seq<Token>>, es: seq<Expr>)
    requires parts != [] && ReadAll(parts, DISJUNCTION, es)
    ensures Reads(CallTokens(f, parts), PRIMARY, Call(f, es))
  {
    forall rest | Ends(PRIMARY, rest) ensures Parse(PRIMARY, CallTokens(f, parts) + rest) == Some((Call(f, es), rest)) {
      var t := CallTokens(f, parts) + rest;
      var inner := Joined(parts, Comma) + ([Close] + rest);
      assert t == [Name(f), Open] + inner;
      assert t[1..][0] == Open && t[2..] == inner;
      ArgumentsRead(parts, es, rest);
      FirstIsNotClose(parts[0], es[0]);
      assert inner[0] == parts[0][0];
    }
  }

  /** Nothing that reads as an expression begins with a closing parenthesis. */
  lemma FirstIsNotClose(t: seq<Token>, e: Expr)
    requires Reads(t, DISJUNCTION, e)
    ensures t[0] != Close
  {
    assert Ends(DISJUNCTION, []);
    assert t + [] == t;
    if t[0] == Close {
      CloseReadsAsNothing(t, DISJUNCTION);
    }
  }

  lemma {:induction false} CloseReadsAsNothing(t: seq<Token>, level: nat)
    requires t != [] && t[0] == Close && level <= DISJUNCTION
    ensures Parse(level, t) == None
  {
    if level > PRIMARY { CloseReadsAsNothing(t, level - 1); }
  }
}
