/**
  Migrations under one lock and one ledger, with crashes, failures and retries
  (packages/db/src/migrator.ts:225-338).
 */
module Migrator {
  import opened Basics

  datatype Store = Postgres | ClickHouse

  /** An additive ClickHouse statement, `CREATE ... IF NOT EXISTS name`. */
  datatype Statement = Create(name: string, definition: string)

  /** A loaded file. What a Postgres file does is one transaction; its statements only matter for being any. */
  datatype Migration = Migration(version: nat, name: string, store: Store, statements: seq<Statement>)

  type Catalogue = map<string, string>

  // ---- Loading -------------------------------------------------------------------------------

  predicate VersionBefore(a: Migration, b: Migration) { a.version < b.version }

  ghost predicate DistinctVersions(ms: seq<Migration>) {
    forall i, j :: 0 <= i < j < |ms| ==> ms[i].version != ms[j].version
  }

  ghost predicate Ascends(ms: seq<Migration>) { forall i, j :: 0 <= i < j < |ms| ==> ms[i].version < ms[j].version }

  /** Refuses a version used twice across both stores; otherwise ascending by version. */
  method LoadMigrations(all: seq<Migration>) returns (loaded: Option<seq<Migration>>)
    ensures loaded.Some? <==> DistinctVersions(all)
    ensures loaded.Some? ==> Ascends(loaded.value) && forall m :: m in loaded.value <==> m in all
  {
    var seen: set<nat> := {};
    for i := 0 to |all|
      invariant seen == set k | 0 <= k < i :: all[k].version
      invariant forall j, k :: 0 <= j < k < i ==> all[j].version != all[k].version
    {
      if all[i].version in seen {
        return None;
      }
      seen := seen + {all[i].version};
    }
    SortedByVersion(all);
    return Some(SortBy(VersionBefore, all));
  }

  lemma SortedByVersion(all: seq<Migration>)
    requires DistinctVersions(all)
    ensures var r := SortBy(VersionBefore, all);
            Ascends(r) && forall m :: m in r <==> m in all
  {
    DistinctMigrations(all);
    forall x, y | x in all && y in all && x != y ensures x.version != y.version {
      var i :| 0 <= i < |all| && all[i] == x;
      var j :| 0 <= j < |all| && all[j] == y;
    }
    SortByAscending(VersionBefore, all, all);
    SortByMembers(VersionBefore, all);
    var r := SortBy(VersionBefore, all);
    forall i, j | 0 <= i < j < |r| ensures r[i].version < r[j].version {
      AscendingAt(VersionBefore, r, i, j);
    }
  }

  lemma {:induction false} DistinctMigrations(all: seq<Migration>)
    requires DistinctVersions(all)
    ensures Distinct(all)
  {
    if all != [] {
      DistinctMigrations(all[1..]);
      assert forall j :: 0 < j < |all| ==> all[j] != all[0];
      assert all[0] !in all[1..];
    }
  }

  // ---- What running statements does -----------------------------------------------------------

  function Execute(c: Catalogue, s: Statement): Catalogue {
    if s.name in c then c else c[s.name := s.definition]
  }

  function ExecuteAll(c: Catalogue, s: seq<Statement>): Catalogue {
    if s == [] then c else Execute(ExecuteAll(c, s[..|s| - 1]), s[|s| - 1])
  }

  /** Every ClickHouse statement of the first `i` migrations, in order. */
  function Flat(ms: seq<Migration>, i: nat): seq<Statement>
    requires i <= |ms|
  {
    if i == 0 then []
    else Flat(ms, i - 1) + if ms[i - 1].store == ClickHouse then ms[i - 1].statements else []
  }

  function Versions(ms: seq<Migration>, i: nat): (r: seq<nat>)
    requires i <= |ms|
    ensures |r| == i && forall k :: 0 <= k < i ==> r[k] == ms[k].version
  {
    seq(i, k requires 0 <= k < i => ms[k].version)
  }

  /** The Postgres migrations among the first `i`: what has been committed there, in order. */
  function Committed(ms: seq<Migration>, i: nat): seq<nat>
    requires i <= |ms|
  {
    if i == 0 then []
    else Committed(ms, i - 1) + if ms[i - 1].store == Postgres then [ms[i - 1].version] else []
  }

  // ---- The system: a database, a lock and any number of processes ----------------------------------

  /**
    A process inside `migrate`: the migration it is at, how many of its statements it has run, the
    versions it found done when it took the lock, and those it has applied.
   */
  datatype Process =
    | Idle
    | Running(at: nat, statement: nat, done: set<nat>, applied: seq<nat>)
    | Finished(applied: seq<nat>)
    | Stopped

  /**
    `ledger` is `schema_migrations` in insertion order, `postgres` the committed Postgres
    migrations. `late` holds ClickHouse commands sent by processes that have since died, by their
    place among all statements; each may still take effect.
   */
  datatype System = System(ledger: seq<nat>, postgres: seq<nat>, catalogue: Catalogue, lock: Option<nat>,
                           processes: map<nat, Process>, late: set<nat>)

  /** How a command ends: as asked, not at all, or done but reported as failed. */
  datatype Outcome = Succeeds | Fails | FailsAfterEffect

  datatype Action =
    | Acquire(p: nat)
    | Work(p: nat, outcome: Outcome)
    | Disconnect(p: nat)
    | Crash(p: nat)
    | Land(command: nat)
    | Restart(p: nat)

  const FRESH := System([], [], map[], None, map[], {})

  function ProcessOf(s: System, p: nat): Process { if p in s.processes then s.processes[p] else Idle }

  /** The advisory lock goes when the session holding it does. */
  function Leave(s: System, p: nat, state: Process): System {
    s.(processes := s.processes[p := state], lock := if s.lock == Some(p) then None else s.lock)
  }

  /** The one place a version enters the ledger; the primary key refuses a second time. */
  function Record(s: System, ms: seq<Migration>, p: nat, r: Process, outcome: Outcome, committed: seq<nat>): System
    requires r.Running? && r.at < |ms|
  {
    var v := ms[r.at].version;
    if s.lock != Some(p) || outcome == Fails || v in s.ledger then Leave(s, p, Stopped)
    else
      var t := s.(ledger := s.ledger + [v], postgres := s.postgres + committed);
      if outcome == FailsAfterEffect then Leave(t, p, Stopped)
      else t.(processes := t.processes[p := Running(r.at + 1, 0, r.done, r.applied + [v])])
  }

  /** The next command of `migrate`'s loop. */
  function WorkStep(ms: seq<Migration>, s: System, p: nat, r: Process, outcome: Outcome): System
    requires r.Running?
  {
    if r.at >= |ms| then Leave(s, p, Finished(r.applied))
    else
      var m := ms[r.at];
      if m.version in r.done then s.(processes := s.processes[p := r.(at := r.at + 1, statement := 0)])
      else if m.statements == [] then Leave(s, p, Stopped)
      else if m.store == Postgres then Record(s, ms, p, r, outcome, [m.version])
      else if r.statement >= |m.statements| then Record(s, ms, p, r, outcome, [])
      else if outcome == Fails then Leave(s, p, Stopped)
      else
        var t := s.(catalogue := Execute(s.catalogue, m.statements[r.statement]));
        if outcome == FailsAfterEffect then Leave(t, p, Stopped)
        else t.(processes := t.processes[p := r.(statement := r.statement + 1)])
  }

  /** The command a running process is waiting on, by its place among all ClickHouse statements. */
  function InFlight(ms: seq<Migration>, r: Process): set<nat> {
    if r.Running? && r.at < |ms| && ms[r.at].store == ClickHouse && ms[r.at].version !in r.done
       && r.statement < |ms[r.at].statements|
    then {|Flat(ms, r.at)| + r.statement} else {}
  }

  function Act(ms: seq<Migration>, appVersion: nat, s: System, a: Action): System {
    match a
    case Acquire(p) =>
      if ProcessOf(s, p) != Idle || s.lock.Some? then s
      else if exists i :: 0 <= i < |s.ledger| && s.ledger[i] > appVersion then s.(processes := s.processes[p := Stopped])
      else s.(lock := Some(p),
              processes := s.processes[p := Running(0, 0, set i | 0 <= i < |s.ledger| :: s.ledger[i], [])])
    case Work(p, outcome) =>
      if ProcessOf(s, p).Running? then WorkStep(ms, s, p, ProcessOf(s, p), outcome) else s
    case Disconnect(p) => if s.lock == Some(p) then s.(lock := None) else s
    case Crash(p) =>
      if ProcessOf(s, p).Running? then Leave(s, p, Stopped).(late := s.late + InFlight(ms, ProcessOf(s, p))) else s
    case Land(command) =>
      if command in s.late && command < |Flat(ms, |ms|)|
      then s.(catalogue := Execute(s.catalogue, Flat(ms, |ms|)[command])) else s
    case Restart(p) =>
      if ProcessOf(s, p).Finished? || ProcessOf(s, p).Stopped? then s.(processes := s.processes[p := Idle]) else s
  }

  /** A whole history, from a fresh database. */
  function After(ms: seq<Migration>, appVersion: nat, actions: seq<Action>): System {
    if actions == [] then FRESH
    else Act(ms, appVersion, After(ms, appVersion, actions[..|actions| - 1]), actions[|actions| - 1])
  }

  // ---- The invariant ------------------------------------------------------------------------------------

  /** The first `ran` statements have run, the first `recorded` migrations are in the ledger. */
  ghost predicate Holds(ms: seq<Migration>, s: System, ran: nat, recorded: nat) {
    && recorded <= |ms| && s.ledger == Versions(ms, recorded) && s.postgres == Committed(ms, recorded)
    && |Flat(ms, recorded)| <= ran <= |Flat(ms, |ms|)|
    && s.catalogue == ExecuteAll(map[], Flat(ms, |ms|)[..ran])
    && (forall n :: n in s.late ==> n <= ran)
    && (forall p :: p in s.processes ==> ProcessHolds(ms, s, p, ran, recorded))
    && (s.lock.Some? ==> ProcessOf(s, s.lock.value).Running?)
  }

  /** Every running process is within what has run; the one with the lock saw the whole ledger. */
  ghost predicate ProcessHolds(ms: seq<Migration>, s: System, p: nat, ran: nat, recorded: nat)
    requires recorded <= |ms|
  {
    var r := ProcessOf(s, p);
    r.Running? ==>
      && r.at <= recorded
      && |Flat(ms, r.at)| + r.statement <= ran
      && exists seen: nat :: Saw(ms, r.done, seen) && seen <= recorded && (s.lock == Some(p) ==> recorded == Max(seen, r.at))
  }

  /** The versions found done were those of the first `seen` migrations. */
  ghost predicate Saw(ms: seq<Migration>, done: set<nat>, seen: nat) {
    seen <= |ms| && done == (set i | 0 <= i < seen :: ms[i].version)
  }

  ghost predicate Good(ms: seq<Migration>, s: System) { exists ran: nat, recorded: nat :: Holds(ms, s, ran, recorded) }
}
