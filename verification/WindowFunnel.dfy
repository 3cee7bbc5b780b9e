/**
  The declarative meaning given to ClickHouse's `windowFunnel`: over rows in time order, the
  greatest `k` such that some rows, in order, meet the first `k` conditions with the last no later
  than `window` after the first (packages/core/src/funnels/compile.ts:68-71).
 */
module WindowFunnel {
  import opened Basics
  import opened Events
  import opened FunnelAst

  /** One compiled step condition; `before` is the entry bound only the first step carries. */
  datatype Condition = Condition(step: Step, before: Option<int>)

  predicate Meets(c: Condition, e: Event) {
    Matches(c.step, e) && (c.before.Some? ==> e.at < c.before.value)
  }

  ghost predicate Chain(c: seq<Event>, rows: seq<Event>, conds: seq<Condition>, window: int) {
    && |c| <= |conds|
    && Subseq(c, rows)
    && (forall j :: 0 <= j < |c| ==> Meets(conds[j], c[j]))
    && (c != [] ==> c[|c| - 1].at <= c[0].at + window)
  }

  ghost predicate Reaches(rows: seq<Event>, conds: seq<Condition>, window: int, k: nat) {
    exists c :: |c| == k && Chain(c, rows, conds, window)
  }

  /** The aggregate itself. */
  ghost function Level(rows: seq<Event>, conds: seq<Condition>, window: int): nat {
    GreatestFrom(rows, conds, window, |conds|)
  }

  ghost function GreatestFrom(rows: seq<Event>, conds: seq<Condition>, window: int, k: nat): nat {
    if k == 0 || Reaches(rows, conds, window, k) then k else GreatestFrom(rows, conds, window, k - 1)
  }

  /** A shorter chain is always available inside a longer one. */
  lemma ReachesFewer(rows: seq<Event>, conds: seq<Condition>, window: int, k: nat, m: nat)
    requires Sorted(rows) && m <= k && Reaches(rows, conds, window, k) && 0 <= window
    ensures Reaches(rows, conds, window, m)
  {
    var c :| |c| == k && Chain(c, rows, conds, window);
    SubseqTake(c, rows, m);
    SubseqSorted(c, rows);
    assert |c[..m]| == m && Chain(c[..m], rows, conds, window);
  }

  /** The aggregate is at least `k` exactly when a chain of length `k` exists. */
  lemma LevelAtLeast(rows: seq<Event>, conds: seq<Condition>, window: int, k: nat)
    requires Sorted(rows) && k <= |conds| && 0 <= window
    ensures Level(rows, conds, window) <= |conds|
    ensures k <= Level(rows, conds, window) <==> Reaches(rows, conds, window, k)
  {
    GreatestFromMeaning(rows, conds, window, |conds|, k);
  }

  lemma {:induction false} GreatestFromMeaning(rows: seq<Event>, conds: seq<Condition>, window: int, n: nat, k: nat)
    requires Sorted(rows) && k <= n <= |conds| && 0 <= window
    ensures GreatestFrom(rows, conds, window, n) <= n
    ensures k <= GreatestFrom(rows, conds, window, n) <==> Reaches(rows, conds, window, k)
  {
    var none: seq<Event> := [];
    assert Chain(none, rows, conds, window);
    assert Reaches(rows, conds, window, 0);
    if n == 0 {
    } else if Reaches(rows, conds, window, n) {
      ReachesFewer(rows, conds, window, n, k);
    } else if k == n {
      GreatestFromMeaning(rows, conds, window, n - 1, k - 1);
    } else {
      GreatestFromMeaning(rows, conds, window, n - 1, k);
    }
  }

  /** Prefix lemma: chains that share their first `m` conditions agree on every level up to `m`. */
  lemma SharedPrefix(rows: seq<Event>, a: seq<Condition>, b: seq<Condition>, window: int, m: nat)
    requires m <= |a| && m <= |b| && a[..m] == b[..m]
    ensures Reaches(rows, a, window, m) <==> Reaches(rows, b, window, m)
  {
    forall c | |c| == m
      ensures Chain(c, rows, a, window) <==> Chain(c, rows, b, window)
    {
      forall j | 0 <= j < m ensures a[j] == b[j] {
        assert a[..m][j] == b[..m][j];
      }
    }
  }

  lemma DropFromChain(c: seq<Event>, rows: seq<Event>, conds: seq<Condition>, window: int, d: nat)
    requires Sorted(rows) && 1 <= d < |conds| == |c| && Chain(c, rows, conds, window) && 0 <= window
    ensures Chain(c[..d] + c[d + 1..], rows, conds[..d] + conds[d + 1..], window)
  {
    var shorter, rest := c[..d] + c[d + 1..], conds[..d] + conds[d + 1..];
    SubseqDrop(c, rows, d);
    SubseqSorted(c, rows);
    forall j | 0 <= j < |shorter| ensures Meets(rest[j], shorter[j]) {
      var i := if j < d then j else j + 1;
      assert shorter[j] == c[i] && rest[j] == conds[i];
    }
    var last := if d < |c| - 1 then |c| - 1 else d - 1;
    assert shorter[0] == c[0] && shorter[|shorter| - 1] == c[last] && c[last].at <= c[|c| - 1].at;
  }

  /** Drop-one lemma: leaving out one condition after the first keeps a chain through the others. */
  lemma DropOne(rows: seq<Event>, conds: seq<Condition>, window: int, d: nat)
    requires Sorted(rows) && 1 <= d < |conds| && 0 <= window
    requires Reaches(rows, conds, window, |conds|)
    ensures Reaches(rows, conds[..d] + conds[d + 1..], window, |conds| - 1)
  {
    var c: seq<Event> :| |c| == |conds| && Chain(c, rows, conds, window);
    DropFromChain(c, rows, conds, window, d);
    var shorter := c[..d] + c[d + 1..];
    assert |shorter| == |conds| - 1 && Chain(shorter, rows, conds[..d] + conds[d + 1..], window);
  }
}
