/**
  Who owned a device when: a gapless timeline derived from a set of bind events, and the pass that
  merges its same-person handoffs (packages/core/src/identity/ranges.ts).
 */
module IdentityRanges {
  import opened Basics

  datatype BindEvent = BindEvent(person: Text, at: int)

  datatype Bound = NegInfinity | Instant(at: int) | PosInfinity

  predicate AtMost(a: Bound, b: Bound) {
    a.NegInfinity? || b.PosInfinity? || (a.Instant? && b.Instant? && a.at <= b.at)
  }

  /** A half-open stretch of time, `from` included and `to` excluded. */
  datatype Tile = Tile(person: Text, from: Bound, to: Bound) {
    predicate Covers(t: int) { AtMost(from, Instant(t)) && !AtMost(to, Instant(t)) }
  }

  // ---- The reference: who owns an instant ----------------------------------------------------------

  /** The bind the rules pick: none at its own instant has a smaller person id. */
  ghost predicate WinsTie(binds: set<BindEvent>, b: BindEvent) {
    b in binds && forall c :: c in binds && c.at == b.at && c.person != b.person ==> Before(b.person, c.person)
  }

  /** The latest bind at or before `t`; before every bind, the earliest one. */
  ghost predicate Governs(binds: set<BindEvent>, b: BindEvent, t: int) {
    WinsTie(binds, b)
    && if b.at <= t then forall c :: c in binds && c.at <= t ==> c.at <= b.at
       else forall c :: c in binds ==> b.at <= c.at
  }

  ghost predicate Owns(binds: set<BindEvent>, person: Text, t: int) {
    exists b: BindEvent :: b.person == person && Governs(binds, b, t)
  }

  lemma OwnerIsUnique(binds: set<BindEvent>, p: Text, q: Text, t: int)
    requires Owns(binds, p, t) && Owns(binds, q, t)
    ensures p == q
  {
    var b: BindEvent :| b.person == p && Governs(binds, b, t);
    var c: BindEvent :| c.person == q && Governs(binds, c, t);
    BeforeTotal(p, q);
  }

  // ---- Deriving the tiling -----------------------------------------------------------------------------

  predicate Earlier(a: int, b: int) { a < b }

  /** One person per instant, the least of those bound at it; `order` is the map's insertion order. */
  ghost predicate Resolves(order: seq<int>, winners: map<int, Text>, binds: set<BindEvent>) {
    && Distinct(order)
    && (forall t :: t in order <==> t in winners)
    && (forall b :: b in binds ==> b.at in winners)
    && (forall t :: t in winners ==> WinsTie(binds, BindEvent(winners[t], t)))
  }

  lemma ResolvesUnique(oa: seq<int>, ob: seq<int>, a: map<int, Text>, b: map<int, Text>, binds: set<BindEvent>)
    requires Resolves(oa, a, binds) && Resolves(ob, b, binds)
    ensures a == b
  {
    forall t | t in a || t in b ensures t in a && t in b && a[t] == b[t] {
      if t in a { assert BindEvent(a[t], t) in binds; }
      if t in b { assert BindEvent(b[t], t) in binds; }
      BeforeTotal(a[t], b[t]);
    }
  }

  function TileAt(keys: seq<int>, winners: map<int, Text>, i: nat): Tile
    requires i < |keys| && keys[i] in winners
  {
    Tile(winners[keys[i]], if i == 0 then NegInfinity else Instant(keys[i]),
         if i + 1 < |keys| then Instant(keys[i + 1]) else PosInfinity)
  }

  ghost predicate InAll(keys: seq<int>, winners: map<int, Text>) { forall i :: 0 <= i < |keys| ==> keys[i] in winners }

  ghost function Tiles(keys: seq<int>, winners: map<int, Text>): seq<Tile>
    requires InAll(keys, winners)
  {
    seq(|keys|, i requires 0 <= i < |keys| => TileAt(keys, winners, i))
  }

  ghost function Binds(events: seq<BindEvent>): set<BindEvent> { set e | e in events }

  lemma SortedOrder(order: seq<int>, winners: map<int, Text>, binds: set<BindEvent>)
    requires Resolves(order, winners, binds)
    ensures var keys := SortBy(Earlier, order);
            InAll(keys, winners) && AscendingBy(Earlier, keys) && forall k :: k in keys <==> k in winners
  {
    SortByAscending(Earlier, order, order);
    SortByMembers(Earlier, order);
    var keys := SortBy(Earlier, order);
    assert forall k :: k in keys <==> k in winners;
    forall i | 0 <= i < |keys| ensures keys[i] in winners {
      assert keys[i] in keys;
    }
  }

  ghost function TilingOf(order: seq<int>, winners: map<int, Text>, binds: set<BindEvent>): seq<Tile>
    requires Resolves(order, winners, binds)
  {
    SortedOrder(order, winners, binds);
    Tiles(SortBy(Earlier, order), winners)
  }

  method ResolveTies(events: seq<BindEvent>) returns (order: seq<int>, byBoundAt: map<int, Text>)
    ensures Resolves(order, byBoundAt, Binds(events))
  {
    order, byBoundAt := [], map[];
    for i := 0 to |events|
      invariant Resolves(order, byBoundAt, Binds(events[..i]))
    {
      var e := events[i];
      assert events[..i + 1] == events[..i] + [e];
      assert Binds(events[..i + 1]) == Binds(events[..i]) + {e};
      ResolveOne(order, byBoundAt, Binds(events[..i]), e);
      if e.at !in byBoundAt {
        order, byBoundAt := order + [e.at], byBoundAt[e.at := e.person];
      } else if Before(e.person, byBoundAt[e.at]) {
        byBoundAt := byBoundAt[e.at := e.person];
      }
    }
    assert events[..|events|] == events;
  }

  lemma ResolveOne(order: seq<int>, winners: map<int, Text>, binds: set<BindEvent>, e: BindEvent)
    requires Resolves(order, winners, binds)
    ensures e.at !in winners ==> Resolves(order + [e.at], winners[e.at := e.person], binds + {e})
    ensures e.at in winners ==>
              Resolves(order, if Before(e.person, winners[e.at]) then winners[e.at := e.person] else winners, binds + {e})
  {
    if e.at in winners {
      BeforeTotal(e.person, winners[e.at]);
      var w := BindEvent(winners[e.at], e.at);
      assert WinsTie(binds, w);
      if Before(e.person, winners[e.at]) {
        forall c | c in binds && c.at == e.at && c.person != e.person ensures Before(e.person, c.person) {
          if c != w { BeforeTransitive(e.person, w.person, c.person); }
        }
      }
    } else {
      DistinctSnoc(order, e.at);
    }
  }

  lemma {:induction false} DistinctSnoc(s: seq<int>, x: int)
    requires Distinct(s) && x !in s
    ensures Distinct(s + [x])
  {
    if s != [] {
      HeadTail(s);
      DistinctSnoc(s[1..], x);
      assert (s + [x])[1..] == s[1..] + [x];
    }
  }

  /** The tiling, together with the tie resolution it was built from. */
  method DeriveTiling(events: seq<BindEvent>) returns (tiling: seq<Tile>, ghost order: seq<int>, ghost winners: map<int, Text>)
    ensures Resolves(order, winners, Binds(events)) && tiling == TilingOf(order, winners, Binds(events))
  {
    var entries, byBoundAt := ResolveTies(events);
    order, winners := entries, byBoundAt;
    var sorted := SortBy(Earlier, entries);
    SortedOrder(entries, byBoundAt, Binds(events));
    tiling := [];
    for i := 0 to |sorted|
      invariant tiling == Tiles(sorted, byBoundAt)[..i]
    {
      var next := if i + 1 < |sorted| then Instant(sorted[i + 1]) else PosInfinity;
      tiling := tiling + [Tile(byBoundAt[sorted[i]], if i == 0 then NegInfinity else Instant(sorted[i]), next)];
    }
  }

  /** The tiling depends only on which binds were seen: no order, no repeats. */
  lemma TilingDependsOnTheSet(binds: set<BindEvent>, oa: seq<int>, ob: seq<int>, wa: map<int, Text>, wb: map<int, Text>)
    requires Resolves(oa, wa, binds) && Resolves(ob, wb, binds)
    ensures TilingOf(oa, wa, binds) == TilingOf(ob, wb, binds)
  {
    ResolvesUnique(oa, ob, wa, wb, binds);
    SortedOrder(oa, wa, binds);
    SortedOrder(ob, wb, binds);
    AscendingUnique(Earlier, oa, SortBy(Earlier, oa), SortBy(Earlier, ob));
  }

  ghost predicate SoleHolder(binds: set<BindEvent>, tiles: seq<Tile>, i: int, t: int) {
    0 <= i < |tiles| && tiles[i].Covers(t) && Owns(binds, tiles[i].person, t)
    && forall j :: 0 <= j < |tiles| && tiles[j].Covers(t) ==> j == i
  }

  /** Every instant is covered by exactly one tile, and its person is the instant's owner. */
  lemma EveryInstantHasOneOwner(binds: set<BindEvent>, order: seq<int>, winners: map<int, Text>, t: int)
    requires binds != {} && Resolves(order, winners, binds)
    ensures exists i :: SoleHolder(binds, TilingOf(order, winners, binds), i, t)
  {
    var keys, tiles := SortBy(Earlier, order), TilingOf(order, winners, binds);
    SortedOrder(order, winners, binds);
    var b :| b in binds;
    assert b.at in winners && b.at in keys;
    var i := Covering(keys, t);
    KeyGoverns(binds, order, winners, i, t);
    assert tiles[i].person == BindEvent(winners[keys[i]], keys[i]).person;
    forall j | 0 <= j < |tiles| && tiles[j].Covers(t) ensures j == i {
      KeysAscend(keys, i, j);
    }
    assert SoleHolder(binds, tiles, i, t);
  }

  lemma KeysAscend(keys: seq<int>, i: nat, j: nat)
    requires AscendingBy(Earlier, keys) && i < |keys| && j < |keys|
    ensures i < j ==> keys[i] < keys[i + 1] <= keys[j]
    ensures j < i ==> keys[j] < keys[j + 1] <= keys[i]
  {
    var (a, b) := if i < j then (i, j) else (j, i);
    if a < b {
      AscendingAt(Earlier, keys, a, a + 1);
      if a + 1 < b { AscendingAt(Earlier, keys, a + 1, b); }
    }
  }

  lemma KeyGoverns(binds: set<BindEvent>, order: seq<int>, winners: map<int, Text>, i: nat, t: int)
    requires Resolves(order, winners, binds)
    requires var keys := SortBy(Earlier, order);
             i < |keys| && (i == 0 || keys[i] <= t) && (i + 1 < |keys| ==> t < keys[i + 1])
    ensures var k := SortBy(Earlier, order)[i]; k in winners && Governs(binds, BindEvent(winners[k], k), t)
  {
    var keys := SortBy(Earlier, order);
    SortedOrder(order, winners, binds);
    var k := keys[i];
    assert k in keys && WinsTie(binds, BindEvent(winners[k], k));
    forall c | c in binds
      ensures k <= t && c.at <= t ==> c.at <= k
      ensures t < k ==> k <= c.at
    {
      assert c.at in winners && c.at in keys;
      var j :| 0 <= j < |keys| && keys[j] == c.at;
      KeysAscend(keys, i, j);
    }
  }

  /** The last key at or before `t`, or the first key when all come later. */
  lemma Covering(keys: seq<int>, t: int) returns (i: nat)
    requires keys != []
    ensures i < |keys| && (i == 0 || keys[i] <= t) && (i + 1 < |keys| ==> t < keys[i + 1])
  {
    i := 0;
    while i + 1 < |keys| && keys[i + 1] <= t
      invariant i < |keys| && (i == 0 || keys[i] <= t)
    {
      i := i + 1;
    }
  }

  // ---- Merging handoffs ------------------------------------------------------------------------------------

  predicate Touches(a: Tile, b: Tile) { a.person == b.person && a.to == b.from }

  /** One more tile: it extends the last one when that is the same person's, else stands alone. */
  function Merged(out: seq<Tile>, b: Tile): seq<Tile> {
    if out != [] && Touches(out[|out| - 1], b) then out[..|out| - 1] + [out[|out| - 1].(to := b.to)] else out + [b]
  }

  function Coalesced(tiles: seq<Tile>): seq<Tile> {
    if tiles == [] then [] else Merged(Coalesced(tiles[..|tiles| - 1]), tiles[|tiles| - 1])
  }

  /** A tile as the object the pass mutates. */
  class Binding {
    var person: Text
    var from: Bound
    var to: Bound

    constructor (t: Tile)
      ensures Value() == t
    {
      person, from, to := t.person, t.from, t.to;
    }

    function Value(): Tile
      reads this
    {
      Tile(person, from, to)
    }
  }

  ghost function Values(bs: seq<Binding>): (r: seq<Tile>)
    reads bs
    ensures |r| == |bs| && forall i :: 0 <= i < |bs| ==> r[i] == bs[i].Value()
  {
    seq(|bs|, i requires 0 <= i < |bs| reads bs => bs[i].Value())
  }

  ghost predicate Apart(out: seq<Binding>) { forall j, k :: 0 <= j < k < |out| ==> out[j] != out[k] }

  method MergeOne(out: seq<Binding>, b: Binding) returns (next: seq<Binding>)
    requires Apart(out) && b !in out
    modifies out
    ensures Values(next) == Merged(old(Values(out)), old(b.Value()))
    ensures Apart(next) && forall x :: x in next ==> x in out || fresh(x)
  {
    ghost var was := Values(out);
    if out != [] && out[|out| - 1].person == b.person && out[|out| - 1].to == b.from {
      assert Touches(was[|was| - 1], b.Value());
      var last := out[|out| - 1];
      last.to := b.to;
      next := out;
      assert forall j :: 0 <= j < |out| - 1 ==> out[j].Value() == was[j];
    } else {
      assert out != [] ==> was[|was| - 1] == out[|out| - 1].Value();
      var copy := new Binding(b.Value());
      next := out + [copy];
    }
  }

  /** Nothing the caller passed is modified: every tile the pass updates is one it copied. */
  method CoalesceContiguous(bindings: seq<Binding>) returns (out: seq<Binding>)
    ensures forall b :: b in out ==> fresh(b)
    ensures Values(out) == Coalesced(Values(bindings))
  {
    out := [];
    ghost var input := Values(bindings);
    for i := 0 to |bindings|
      invariant Apart(out) && fresh(set b | b in out)
      invariant Values(bindings) == input
      invariant Values(out) == Coalesced(input[..i])
    {
      assert input[..i + 1][..i] == input[..i];
      out := MergeOne(out, bindings[i]);
      assert forall j :: 0 <= j < |bindings| ==> bindings[j].Value() == input[j];
    }
    assert input[..|bindings|] == input;
  }

  ghost predicate Forward(tiles: seq<Tile>) { forall i :: 0 <= i < |tiles| ==> AtMost(tiles[i].from, tiles[i].to) }

  ghost predicate Held(tiles: seq<Tile>, person: Text, t: int) {
    exists i :: 0 <= i < |tiles| && tiles[i].person == person && tiles[i].Covers(t)
  }

  lemma HeldSplit(a: seq<Tile>, b: Tile, person: Text, t: int)
    ensures Held(a + [b], person, t) <==> Held(a, person, t) || (b.person == person && b.Covers(t))
  {
    if Held(a, person, t) {
      var i :| 0 <= i < |a| && a[i].person == person && a[i].Covers(t);
      assert (a + [b])[i] == a[i];
    }
    if b.person == person && b.Covers(t) { assert (a + [b])[|a|] == b; }
    if Held(a + [b], person, t) {
      var i :| 0 <= i < |a + [b]| && (a + [b])[i].person == person && (a + [b])[i].Covers(t);
      assert i < |a| ==> a[i] == (a + [b])[i];
    }
  }

  /** Merging keeps the owner of every instant. */
  lemma {:induction false} CoalescingKeepsOwners(tiles: seq<Tile>, person: Text, t: int)
    requires Forward(tiles)
    ensures Forward(Coalesced(tiles))
    ensures Held(Coalesced(tiles), person, t) <==> Held(tiles, person, t)
  {
    if tiles != [] {
      var before, b := tiles[..|tiles| - 1], tiles[|tiles| - 1];
      var out := Coalesced(before);
      assert AtMost(b.from, b.to) && Forward(before);
      CoalescingKeepsOwners(before, person, t);
      assert tiles == before + [b];
      HeldSplit(before, b, person, t);
      if out != [] && Touches(out[|out| - 1], b) {
        MergeLast(out, b, person, t);
      } else {
        HeldSplit(out, b, person, t);
      }
    }
  }

  lemma MergeLast(out: seq<Tile>, b: Tile, person: Text, t: int)
    requires out != [] && Touches(out[|out| - 1], b) && Forward(out) && AtMost(b.from, b.to)
    ensures var merged := out[..|out| - 1] + [out[|out| - 1].(to := b.to)];
            Forward(merged) && (Held(merged, person, t) <==> Held(out, person, t) || (b.person == person && b.Covers(t)))
  {
    var init, last := out[..|out| - 1], out[|out| - 1];
    var joined := last.(to := b.to);
    assert out == init + [last] && AtMost(last.from, last.to);
    HeldSplit(init, last, person, t);
    HeldSplit(init, joined, person, t);
    assert joined.Covers(t) <==> last.Covers(t) || b.Covers(t);
    assert Forward(init + [joined]) by {
      assert forall i :: 0 <= i < |init| ==> (init + [joined])[i] == out[i];
    }
  }

  ghost predicate Separate(tiles: seq<Tile>) {
    forall i, j :: 0 <= i && j == i + 1 && j < |tiles| ==> !Touches(tiles[i], tiles[j])
  }

  lemma MergedIsSeparate(out: seq<Tile>, b: Tile)
    requires Separate(out)
    ensures Separate(Merged(out, b))
    ensures Merged(out, b) != [] && Merged(out, b)[|Merged(out, b)| - 1].to == b.to
  {
  }

  /** No two neighbours are left that one person holds back to back, and the last ends where it did. */
  lemma {:induction false} CoalescedIsSeparate(tiles: seq<Tile>)
    ensures Separate(Coalesced(tiles))
    ensures tiles != [] ==> Coalesced(tiles) != [] && Coalesced(tiles)[|Coalesced(tiles)| - 1].to == tiles[|tiles| - 1].to
  {
    hide Separate, Merged;
    if tiles == [] {
      NothingIsSeparate();
    } else {
      CoalescedIsSeparate(tiles[..|tiles| - 1]);
      MergedIsSeparate(Coalesced(tiles[..|tiles| - 1]), tiles[|tiles| - 1]);
    }
  }

  lemma NothingIsSeparate()
    ensures Separate([])
  {
  }

  lemma {:induction false} SeparateIsFixed(tiles: seq<Tile>)
    requires Separate(tiles)
    ensures Coalesced(tiles) == tiles
  {
    if tiles != [] {
      var before := tiles[..|tiles| - 1];
      assert Separate(before) by {
        assert forall i :: 0 <= i < |before| ==> before[i] == tiles[i];
      }
      SeparateIsFixed(before);
      if before != [] {
        assert !Touches(tiles[|tiles| - 2], tiles[|tiles| - 1]);
      }
    }
  }

  lemma CoalescingIsIdempotent(tiles: seq<Tile>)
    ensures Coalesced(Coalesced(tiles)) == Coalesced(tiles)
  {
    CoalescedIsSeparate(tiles);
    SeparateIsFixed(Coalesced(tiles));
  }

  /** The whole pipeline: after merging a derived tiling, each instant's holder is its owner, and only it. */
  lemma MergedTilingOwners(binds: set<BindEvent>, order: seq<int>, winners: map<int, Text>, person: Text, t: int)
    requires binds != {} && Resolves(order, winners, binds)
    ensures Held(Coalesced(TilingOf(order, winners, binds)), person, t) <==> Owns(binds, person, t)
  {
    var tiles := TilingOf(order, winners, binds);
    TilesForward(order, winners, binds);
    CoalescingKeepsOwners(tiles, person, t);
    EveryInstantHasOneOwner(binds, order, winners, t);
    var i :| SoleHolder(binds, tiles, i, t);
    if Owns(binds, person, t) {
      OwnerIsUnique(binds, person, tiles[i].person, t);
    }
  }

  lemma TilesForward(order: seq<int>, winners: map<int, Text>, binds: set<BindEvent>)
    requires Resolves(order, winners, binds)
    ensures Forward(TilingOf(order, winners, binds))
  {
    var keys, tiles := SortBy(Earlier, order), TilingOf(order, winners, binds);
    SortedOrder(order, winners, binds);
    forall i | 0 <= i < |tiles| ensures AtMost(tiles[i].from, tiles[i].to) {
      if i + 1 < |keys| { KeysAscend(keys, i, i + 1); }
    }
  }
}
