/**
  One call of `migrate`, uncontended: the loop over migrations as it updates the database
  (packages/db/src/migrator.ts:262-338).
 */
module MigrateRun {
  import opened Basics
  import opened Migrator
  import opened MigratorProofs

  datatype Ending = Applied | TooNew | Failed

  class Database {
    var ledger: seq<nat>
    var postgres: seq<nat>
    var catalogue: Catalogue

    constructor ()
      ensures ledger == [] && postgres == [] && catalogue == map[]
    {
      ledger, postgres, catalogue := [], [], map[];
    }

    /** Every migration from one to before the other has something to run. */
    static ghost predicate HaveStatements(ms: seq<Migration>, from: nat, to_: nat) {
      forall i :: from <= i < to_ && i < |ms| ==> ms[i].statements != []
    }

    /** As every history leaves it: a prefix recorded, at least its statements run. */
    ghost predicate At(ms: seq<Migration>, ran: nat, recorded: nat)
      reads this
    {
      && recorded <= |ms| && ledger == Versions(ms, recorded) && postgres == Committed(ms, recorded)
      && |Flat(ms, recorded)| <= ran <= |Flat(ms, |ms|)|
      && catalogue == ExecuteAll(map[], Flat(ms, |ms|)[..ran])
    }

    method RunStatement(ms: seq<Migration>, i: nat, k: nat, ghost ran: nat) returns (ghost ran': nat)
      requires At(ms, ran, i) && i < |ms| && ms[i].store == ClickHouse && k < |ms[i].statements|
      requires |Flat(ms, i)| + k <= ran
      modifies this`catalogue
      ensures At(ms, ran', i) && ran <= ran' && |Flat(ms, i)| + k + 1 <= ran'
    {
      FlatAt(ms, i, k);
      ran' := ExecuteWithin(ms, ran, |Flat(ms, i)| + k);
      catalogue := Execute(catalogue, ms[i].statements[k]);
    }

    /** The split statements of one ClickHouse file, sent one at a time until one fails. */
    method RunStatements(ms: seq<Migration>, i: nat, outcome: (nat, nat) -> Outcome, ghost ran: nat)
      returns (ok: bool, ghost ran': nat)
      requires At(ms, ran, i) && i < |ms| && ms[i].store == ClickHouse
      modifies this`catalogue
      ensures At(ms, ran', i) && ran <= ran'
      ensures (forall k :: outcome(i, k) == Succeeds) ==> ok
      ensures ok ==> |Flat(ms, i + 1)| <= ran'
    {
      ran' := ran;
      for k := 0 to |ms[i].statements|
        invariant At(ms, ran', i) && ran <= ran' && |Flat(ms, i)| + k <= ran'
      {
        if outcome(i, k) == Fails { return false, ran'; }
        ran' := RunStatement(ms, i, k, ran');
        if outcome(i, k) == FailsAfterEffect { return false, ran'; }
      }
      return true, ran';
    }

    /** The ledger row, with the Postgres transaction when it is one. */
    method RecordRow(ms: seq<Migration>, i: nat, ghost ran: nat)
      requires At(ms, ran, i) && i < |ms| && |Flat(ms, i + 1)| <= ran
      modifies this
      ensures At(ms, ran, i + 1) && ledger == old(ledger) + [ms[i].version]
    {
      ledger := ledger + [ms[i].version];
      if ms[i].store == Postgres { postgres := postgres + [ms[i].version]; }
      assert ledger == Versions(ms, i + 1);
    }

    /** One migration that is not in the ledger yet. */
    method Apply(ms: seq<Migration>, i: nat, outcome: (nat, nat) -> Outcome, ghost ran: nat)
      returns (ok: bool, ghost ran': nat, ghost recorded: nat)
      requires At(ms, ran, i) && i < |ms|
      modifies this
      ensures At(ms, ran', recorded) && ran <= ran' && i <= recorded
      ensures ledger == old(ledger) || ledger == old(ledger) + [ms[i].version]
      ensures ok ==> recorded == i + 1 && ledger == old(ledger) + [ms[i].version]
      ensures recorded == i || (recorded == i + 1 && ms[i].statements != [])
      ensures ms[i].statements == [] ==> !ok && postgres == old(postgres) && catalogue == old(catalogue)
      ensures (forall k :: outcome(i, k) == Succeeds) && ms[i].statements != [] ==> ok
    {
      ran', recorded := ran, i;
      if ms[i].statements == [] { return false, ran', recorded; }
      if ms[i].store == ClickHouse {
        ok, ran' := RunStatements(ms, i, outcome, ran);
        if !ok { return false, ran', recorded; }
      } else {
        assert |Flat(ms, i + 1)| <= ran';
      }
      var verdict := outcome(i, |ms[i].statements|);
      if verdict == Fails { return false, ran', recorded; }
      RecordRow(ms, i, ran');
      return verdict == Succeeds, ran', i + 1;
    }

    /**
      `outcome(i, k)` is how statement `k` of migration `i` ends, and `outcome(i, |statements|)` how its
      ledger row, or its Postgres transaction, does. Whatever fails, the database stays one a retry
      can continue from; a run that returns has applied exactly what the ledger lacked.
     */
    method Migrate(ms: seq<Migration>, appVersion: nat, outcome: (nat, nat) -> Outcome, ghost start: nat, ghost begun: nat)
      returns (applied: seq<nat>, ending: Ending, ghost ran: nat, ghost recorded: nat)
      requires DistinctVersions(ms) && At(ms, start, begun)
      modifies this
      ensures At(ms, ran, recorded) && start <= ran && begun <= recorded
      ensures old(ledger) <= ledger
      ensures ending == Applied ==> recorded == |ms| && old(ledger) + applied == ledger
      ensures HaveStatements(ms, begun, recorded)
      ensures ending == TooNew <==> exists i :: 0 <= i < begun && ms[i].version > appVersion
      ensures (forall i, k :: outcome(i, k) == Succeeds) && (forall i :: 0 <= i < |ms| ==> ms[i].statements != [])
              ==> ending != Failed
    {
      applied := [];
      ran, recorded := start, begun;
      var done := set i | 0 <= i < |ledger| :: ledger[i];
      assert begun <= |ms| && ledger == Versions(ms, begun);
      hide At, Flat, ExecuteAll, Committed, Versions;
      NewerThan(ms, begun, appVersion);
      if exists i :: 0 <= i < |ledger| && ledger[i] > appVersion {
        return [], TooNew, ran, recorded;
      }
      for i := 0 to |ms|
        invariant At(ms, ran, recorded) && start <= ran && recorded == Max(begun, i)
        invariant ledger == old(ledger) + applied
        invariant HaveStatements(ms, begun, recorded)
      {
        DoneIsBegun(ms, begun, i);
        if ms[i].version in done { continue; }
        var ok;
        ok, ran, recorded := Apply(ms, i, outcome, ran);
        if !ok { return applied, Failed, ran, recorded; }
        applied := applied + [ms[i].version];
      }
      ending := Applied;
    }
  }

  lemma NewerThan(ms: seq<Migration>, begun: nat, appVersion: nat)
    requires begun <= |ms|
    ensures var recorded := Versions(ms, begun);
            (exists i :: 0 <= i < |recorded| && recorded[i] > appVersion) <==> exists i :: 0 <= i < begun && ms[i].version > appVersion
  {
    var recorded := Versions(ms, begun);
    assert forall i :: 0 <= i < begun ==> recorded[i] == ms[i].version;
  }

  /** A version is among the first `begun` exactly when its place is. */
  lemma DoneIsBegun(ms: seq<Migration>, begun: nat, i: nat)
    requires DistinctVersions(ms) && begun <= |ms| && i < |ms|
    ensures var recorded := Versions(ms, begun);
            ms[i].version in (set j | 0 <= j < |recorded| :: recorded[j]) <==> i < begun
  {
    var recorded := Versions(ms, begun);
    if i < begun { assert recorded[i] == ms[i].version; }
  }
}
