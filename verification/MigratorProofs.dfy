/** Migration runs converge, whatever is interleaved, interrupted or retried. */
module MigratorProofs {
  import opened Basics
  import opened Migrator

  // ---- The flattened statement list -----------------------------------------------------------

  lemma {:induction false} FlatPrefix(ms: seq<Migration>, i: nat, j: nat)
    requires i <= j <= |ms|
    ensures Flat(ms, i) <= Flat(ms, j)
    decreases j - i
  {
    if i < j { FlatPrefix(ms, i, j - 1); }
  }

  /** Statement `k` of ClickHouse migration `i` sits at its place in the flattened list. */
  lemma FlatAt(ms: seq<Migration>, i: nat, k: nat)
    requires i < |ms| && ms[i].store == ClickHouse && k < |ms[i].statements|
    ensures |Flat(ms, i)| + k < |Flat(ms, i + 1)| <= |Flat(ms, |ms|)|
    ensures Flat(ms, |ms|)[|Flat(ms, i)| + k] == ms[i].statements[k]
  {
    FlatPrefix(ms, i + 1, |ms|);
    assert Flat(ms, i + 1)[|Flat(ms, i)| + k] == ms[i].statements[k];
  }

  /** Whatever has run is there: re-running an earlier statement changes nothing. */
  lemma {:induction false} ExecutedIsThere(c: Catalogue, s: seq<Statement>, n: nat)
    requires n < |s|
    ensures s[n].name in ExecuteAll(c, s)
  {
    var before := s[..|s| - 1];
    if n < |before| {
      ExecutedIsThere(c, before, n);
      assert before[n] == s[n];
    }
  }

  /** Running statement `n` when everything before it has run: either the next one, or nothing. */
  lemma ExecuteWithin(ms: seq<Migration>, ran: nat, n: nat) returns (ran': nat)
    requires n <= ran <= |Flat(ms, |ms|)| && n < |Flat(ms, |ms|)|
    ensures ran <= ran' <= |Flat(ms, |ms|)| && n < ran'
    ensures Execute(ExecuteAll(map[], Flat(ms, |ms|)[..ran]), Flat(ms, |ms|)[n]) == ExecuteAll(map[], Flat(ms, |ms|)[..ran'])
  {
    var all := Flat(ms, |ms|);
    if n == ran {
      ran' := ran + 1;
      assert all[..ran'][..ran] == all[..ran] && all[..ran'][|all[..ran']| - 1] == all[n];
    } else {
      ran' := ran;
      ExecutedIsThere(map[], all[..ran], n);
      assert all[..ran][n] == all[n];
    }
  }

  // ---- Every action keeps the invariant -------------------------------------------------------------

  /** A change to one process that leaves the database alone. */
  lemma KeepOthers(ms: seq<Migration>, s: System, t: System, p: nat, ran: nat, recorded: nat, ran': nat)
    requires Holds(ms, s, ran, recorded)
    requires t == s.(processes := t.processes, lock := t.lock, catalogue := t.catalogue)
    requires ran <= ran' <= |Flat(ms, |ms|)| && t.catalogue == ExecuteAll(map[], Flat(ms, |ms|)[..ran'])
    requires p in t.processes && t.processes == s.processes[p := t.processes[p]]
    requires t.lock == s.lock || t.lock.None? || (s.lock.None? && t.lock == Some(p))
    requires t.lock == Some(p) ==> t.processes[p].Running?
    requires ProcessHolds(ms, t, p, ran', recorded)
    ensures Holds(ms, t, ran', recorded)
  {
    forall q | q in t.processes ensures ProcessHolds(ms, t, q, ran', recorded) {
      if q != p { StillHolds(ms, s, t, q, ran, ran', recorded); }
    }
  }

  /** A process that did not move still fits when more has run and nobody took the lock from it. */
  lemma StillHolds(ms: seq<Migration>, s: System, t: System, q: nat, ran: nat, ran': nat, recorded: nat)
    requires recorded <= |ms| && ran <= ran' && ProcessHolds(ms, s, q, ran, recorded)
    requires ProcessOf(t, q) == ProcessOf(s, q) && (t.lock == Some(q) ==> s.lock == Some(q))
    ensures ProcessHolds(ms, t, q, ran', recorded)
  {
    var r := ProcessOf(s, q);
    if r.Running? {
      var seen: nat :| Saw(ms, r.done, seen) && seen <= recorded && (s.lock == Some(q) ==> recorded == Max(seen, r.at));
      assert Saw(ms, ProcessOf(t, q).done, seen);
    }
  }

  lemma LeaveKeeps(ms: seq<Migration>, s: System, p: nat, state: Process, ran: nat, recorded: nat)
    requires Holds(ms, s, ran, recorded) && !state.Running?
    ensures Holds(ms, Leave(s, p, state), ran, recorded)
  {
    KeepOthers(ms, s, Leave(s, p, state), p, ran, recorded, ran);
  }

  lemma AcquireKeeps(ms: seq<Migration>, app: nat, s: System, p: nat, ran: nat, recorded: nat)
    requires Holds(ms, s, ran, recorded)
    ensures Holds(ms, Act(ms, app, s, Acquire(p)), ran, recorded)
  {
    var t := Act(ms, app, s, Acquire(p));
    if t != s {
      if t.processes[p].Running? {
        assert Saw(ms, t.processes[p].done, recorded);
      }
      KeepOthers(ms, s, t, p, ran, recorded, ran);
    }
  }

  /** A version found done is one of those recorded when the lock was taken. */
  lemma SkipKeeps(ms: seq<Migration>, s: System, p: nat, ran: nat, recorded: nat)
    requires DistinctVersions(ms) && Holds(ms, s, ran, recorded)
    requires ProcessOf(s, p).Running? && ProcessOf(s, p).at < |ms| && ms[ProcessOf(s, p).at].version in ProcessOf(s, p).done
    ensures Holds(ms, s.(processes := s.processes[p := ProcessOf(s, p).(at := ProcessOf(s, p).at + 1, statement := 0)]), ran, recorded)
  {
    hide ExecuteAll;
    hide Flat;
    var r := ProcessOf(s, p);
    assert ProcessHolds(ms, s, p, ran, recorded);
    var seen: nat :| Saw(ms, r.done, seen) && seen <= recorded && (s.lock == Some(p) ==> recorded == Max(seen, r.at));
    var i :| 0 <= i < seen && ms[i].version == ms[r.at].version;
    assert i == r.at;
    FlatPrefix(ms, r.at + 1, recorded);
    var t := s.(processes := s.processes[p := r.(at := r.at + 1, statement := 0)]);
    assert ProcessHolds(ms, t, p, ran, recorded);
    KeepOthers(ms, s, t, p, ran, recorded, ran);
  }

  /** Recording extends the ledger by exactly the next migration, all of whose statements have run. */
  lemma RecordKeeps(ms: seq<Migration>, s: System, p: nat, outcome: Outcome, ran: nat, recorded: nat)
    requires DistinctVersions(ms) && Holds(ms, s, ran, recorded)
    requires ProcessOf(s, p).Running? && ProcessOf(s, p).at < |ms| && ms[ProcessOf(s, p).at].version !in ProcessOf(s, p).done
    requires |Flat(ms, ProcessOf(s, p).at + 1)| <= ran
    ensures var committed := if ms[ProcessOf(s, p).at].store == Postgres then [ms[ProcessOf(s, p).at].version] else [];
            Good(ms, Record(s, ms, p, ProcessOf(s, p), outcome, committed))
  {
    var r := ProcessOf(s, p);
    var v := ms[r.at].version;
    if s.lock != Some(p) || outcome == Fails || v in s.ledger {
      LeaveKeeps(ms, s, p, Stopped, ran, recorded);
      assert Holds(ms, Leave(s, p, Stopped), ran, recorded);
    } else {
      RecordExtends(ms, s, p, outcome, ran, recorded);
    }
  }

  /** Whoever records holds the lock, so it is recording the first migration not yet in the ledger. */
  lemma RecordsTheNext(ms: seq<Migration>, s: System, p: nat, ran: nat, recorded: nat) returns (seen: nat)
    requires Holds(ms, s, ran, recorded) && s.lock == Some(p)
    requires ProcessOf(s, p).Running? && ProcessOf(s, p).at < |ms| && ms[ProcessOf(s, p).at].version !in ProcessOf(s, p).done
    ensures recorded == ProcessOf(s, p).at && Saw(ms, ProcessOf(s, p).done, seen) && seen <= recorded
  {
    var r := ProcessOf(s, p);
    assert ProcessHolds(ms, s, p, ran, recorded);
    seen :| Saw(ms, r.done, seen) && seen <= recorded && recorded == Max(seen, r.at);
    assert forall i :: 0 <= i < seen ==> ms[i].version in r.done;
  }

  /** The row itself, before whatever becomes of the process that wrote it. */
  lemma RecordExtends(ms: seq<Migration>, s: System, p: nat, outcome: Outcome, ran: nat, recorded: nat)
    requires Holds(ms, s, ran, recorded) && s.lock == Some(p) && outcome != Fails
    requires ProcessOf(s, p).Running? && ProcessOf(s, p).at < |ms| && ms[ProcessOf(s, p).at].version !in ProcessOf(s, p).done
    requires ms[ProcessOf(s, p).at].version !in s.ledger
    requires |Flat(ms, ProcessOf(s, p).at + 1)| <= ran
    ensures var committed := if ms[ProcessOf(s, p).at].store == Postgres then [ms[ProcessOf(s, p).at].version] else [];
            Good(ms, Record(s, ms, p, ProcessOf(s, p), outcome, committed))
  {
    hide Flat, ExecuteAll;
    var r := ProcessOf(s, p);
    var committed := if ms[r.at].store == Postgres then [ms[r.at].version] else [];
    var u := Record(s, ms, p, r, outcome, committed);
    var seen := RecordsTheNext(ms, s, p, ran, recorded);
    RowExtends(ms, recorded);
    forall q | q in u.processes ensures ProcessHolds(ms, u, q, ran, recorded + 1) {
      if q != p {
        NotRecording(ms, s, u, q, ran, recorded);
      } else if u.processes[p].Running? {
        assert Saw(ms, u.processes[p].done, seen) && recorded + 1 == Max(seen, r.at + 1);
      }
    }
    assert Holds(ms, u, ran, recorded + 1);
  }

  lemma RowExtends(ms: seq<Migration>, recorded: nat)
    requires recorded < |ms|
    ensures Versions(ms, recorded + 1) == Versions(ms, recorded) + [ms[recorded].version]
    ensures Committed(ms, recorded + 1)
         == Committed(ms, recorded) + if ms[recorded].store == Postgres then [ms[recorded].version] else []
  {
  }

  /** A process without the lock still fits when the ledger grows. */
  lemma NotRecording(ms: seq<Migration>, s: System, t: System, q: nat, ran: nat, recorded: nat)
    requires recorded < |ms| && ProcessHolds(ms, s, q, ran, recorded)
    requires ProcessOf(t, q) == ProcessOf(s, q) && s.lock != Some(q) && t.lock != Some(q)
    ensures ProcessHolds(ms, t, q, ran, recorded + 1)
  {
    hide Flat;
    var r := ProcessOf(s, q);
    if r.Running? {
      var seen: nat :| Saw(ms, r.done, seen) && seen <= recorded;
      assert Saw(ms, ProcessOf(t, q).done, seen);
    }
  }

  lemma StatementKeeps(ms: seq<Migration>, s: System, p: nat, outcome: Outcome, ran: nat, recorded: nat)
    requires Holds(ms, s, ran, recorded) && ProcessOf(s, p).Running? && ProcessOf(s, p).at < |ms|
    requires ms[ProcessOf(s, p).at].store == ClickHouse && ProcessOf(s, p).statement < |ms[ProcessOf(s, p).at].statements|
    requires ms[ProcessOf(s, p).at].version !in ProcessOf(s, p).done
    ensures Good(ms, WorkStep(ms, s, p, ProcessOf(s, p), outcome))
  {
    var r := ProcessOf(s, p);
    var n := |Flat(ms, r.at)| + r.statement;
    assert ProcessHolds(ms, s, p, ran, recorded);
    FlatAt(ms, r.at, r.statement);
    var ran' := ExecuteWithin(ms, ran, n);
    var t := WorkStep(ms, s, p, r, outcome);
    if outcome == Fails {
      LeaveKeeps(ms, s, p, Stopped, ran, recorded);
      assert Holds(ms, t, ran, recorded);
    } else {
      KeepOthers(ms, s, t, p, ran, recorded, ran');
      assert Holds(ms, t, ran', recorded);
    }
  }

  lemma WorkKeeps(ms: seq<Migration>, s: System, p: nat, outcome: Outcome, ran: nat, recorded: nat)
    requires DistinctVersions(ms) && Holds(ms, s, ran, recorded) && ProcessOf(s, p).Running?
    ensures Good(ms, WorkStep(ms, s, p, ProcessOf(s, p), outcome))
  {
    var r := ProcessOf(s, p);
    var t := WorkStep(ms, s, p, r, outcome);
    assert ProcessHolds(ms, s, p, ran, recorded);
    if r.at >= |ms| {
      LeaveKeeps(ms, s, p, Finished(r.applied), ran, recorded);
      assert Holds(ms, t, ran, recorded);
    } else if ms[r.at].version in r.done {
      SkipKeeps(ms, s, p, ran, recorded);
      assert Holds(ms, t, ran, recorded);
    } else if ms[r.at].statements == [] {
      LeaveKeeps(ms, s, p, Stopped, ran, recorded);
      assert Holds(ms, t, ran, recorded);
    } else if ms[r.at].store == Postgres || r.statement >= |ms[r.at].statements| {
      RecordKeeps(ms, s, p, outcome, ran, recorded);
    } else {
      StatementKeeps(ms, s, p, outcome, ran, recorded);
    }
  }

  lemma LandKeeps(ms: seq<Migration>, app: nat, s: System, command: nat, ran: nat, recorded: nat)
    requires Holds(ms, s, ran, recorded)
    ensures Good(ms, Act(ms, app, s, Land(command)))
  {
    var t := Act(ms, app, s, Land(command));
    if command in s.late && command < |Flat(ms, |ms|)| {
      var ran' := ExecuteWithin(ms, ran, command);
      forall q | q in t.processes ensures ProcessHolds(ms, t, q, ran', recorded) {
        StillHolds(ms, s, t, q, ran, ran', recorded);
      }
      assert Holds(ms, t, ran', recorded);
    } else {
      assert Holds(ms, t, ran, recorded);
    }
  }

  lemma CrashKeeps(ms: seq<Migration>, app: nat, s: System, p: nat, ran: nat, recorded: nat)
    requires Holds(ms, s, ran, recorded)
    ensures Holds(ms, Act(ms, app, s, Crash(p)), ran, recorded)
  {
    if ProcessOf(s, p).Running? {
      assert ProcessHolds(ms, s, p, ran, recorded);
      LeaveKeeps(ms, s, p, Stopped, ran, recorded);
      var t, left := Act(ms, app, s, Crash(p)), Leave(s, p, Stopped);
      forall q | q in t.processes ensures ProcessHolds(ms, t, q, ran, recorded) {
        assert ProcessHolds(ms, left, q, ran, recorded);
      }
    }
  }

  lemma ActKeeps(ms: seq<Migration>, app: nat, s: System, a: Action)
    requires DistinctVersions(ms) && Good(ms, s)
    ensures Good(ms, Act(ms, app, s, a))
  {
    var ran: nat, recorded: nat :| Holds(ms, s, ran, recorded);
    var t := Act(ms, app, s, a);
    match a
    case Acquire(p) => AcquireKeeps(ms, app, s, p, ran, recorded); assert Holds(ms, t, ran, recorded);
    case Work(p, outcome) => if ProcessOf(s, p).Running? { WorkKeeps(ms, s, p, outcome, ran, recorded); }
    case Crash(p) => CrashKeeps(ms, app, s, p, ran, recorded); assert Holds(ms, t, ran, recorded);
    case Land(command) => LandKeeps(ms, app, s, command, ran, recorded);
    case Disconnect(p) =>
      forall q | q in t.processes ensures ProcessHolds(ms, t, q, ran, recorded) {
        assert ProcessHolds(ms, s, q, ran, recorded);
      }
      assert Holds(ms, t, ran, recorded);
    case Restart(p) =>
      if t != s { KeepOthers(ms, s, t, p, ran, recorded, ran); }
      assert Holds(ms, t, ran, recorded);
  }

  lemma {:induction false} EveryHistoryIsGood(ms: seq<Migration>, app: nat, actions: seq<Action>)
    requires DistinctVersions(ms)
    ensures Good(ms, After(ms, app, actions))
  {
    if actions == [] {
      FlatPrefix(ms, 0, |ms|);
      assert Holds(ms, FRESH, 0, 0);
    } else {
      EveryHistoryIsGood(ms, app, actions[..|actions| - 1]);
      ActKeeps(ms, app, After(ms, app, actions[..|actions| - 1]), actions[|actions| - 1]);
    }
  }

  // ---- Main results --------------------------------------------------------------------------------------

  /** In every history the ledger is the list's versions in order, so none is in it twice. */
  lemma NoVersionTwice(ms: seq<Migration>, app: nat, actions: seq<Action>)
    requires DistinctVersions(ms)
    ensures var ledger := After(ms, app, actions).ledger;
            && |ledger| <= |ms| && ledger == Versions(ms, |ledger|)
            && forall i, j :: 0 <= i < j < |ledger| ==> ledger[i] != ledger[j]
  {
    EveryHistoryIsGood(ms, app, actions);
    var s := After(ms, app, actions);
    var ran: nat, recorded: nat :| Holds(ms, s, ran, recorded);
    assert |Versions(ms, recorded)| == recorded;
  }

  // ---- Empty files ----------------------------------------------------------------------------------------------

  ghost predicate NoneEmpty(ms: seq<Migration>, ledger: seq<nat>) {
    forall i :: 0 <= i < |ms| && ms[i].version in ledger ==> ms[i].statements != []
  }

  lemma StepRecordsNoneEmpty(ms: seq<Migration>, app: nat, s: System, a: Action)
    requires DistinctVersions(ms) && NoneEmpty(ms, s.ledger)
    ensures NoneEmpty(ms, Act(ms, app, s, a).ledger)
  {
    hide Execute, Flat;
    if a.Work? && ProcessOf(s, a.p).Running? && ProcessOf(s, a.p).at < |ms| {
      var at := ProcessOf(s, a.p).at;
      forall i | 0 <= i < |ms| && ms[i].version == ms[at].version ensures i == at {
      }
    }
  }

  /** A file with nothing in it to run is refused: in no history is it recorded, nor so anything after it. */
  lemma {:induction false} EmptyIsNeverRecorded(ms: seq<Migration>, app: nat, actions: seq<Action>)
    requires DistinctVersions(ms)
    ensures NoneEmpty(ms, After(ms, app, actions).ledger)
    ensures forall i :: 0 <= i < |After(ms, app, actions).ledger| ==> i < |ms| && ms[i].statements != []
  {
    hide Act;
    if actions != [] {
      EmptyIsNeverRecorded(ms, app, actions[..|actions| - 1]);
      StepRecordsNoneEmpty(ms, app, After(ms, app, actions[..|actions| - 1]), actions[|actions| - 1]);
    }
    NoVersionTwice(ms, app, actions);
    var ledger := After(ms, app, actions).ledger;
    forall i | 0 <= i < |ledger| ensures ms[i].statements != [] {
      assert ledger[i] == ms[i].version && ledger[i] in ledger;
    }
  }

  // ---- A newer schema ---------------------------------------------------------------------------------------

  /** The ledger holds a version this application does not know, and nobody is migrating. */
  predicate TooNew(s: System, app: nat) {
    (exists i :: 0 <= i < |s.ledger| && s.ledger[i] > app) && forall p :: p in s.processes ==> !s.processes[p].Running?
  }

  function Onward(ms: seq<Migration>, app: nat, s: System, actions: seq<Action>): System {
    if actions == [] then s else Act(ms, app, Onward(ms, app, s, actions[..|actions| - 1]), actions[|actions| - 1])
  }

  /** Then no run of that application ever writes the ledger, or anything in Postgres, or begins a statement. */
  lemma {:induction false} NewerSchemaIsUntouched(ms: seq<Migration>, app: nat, s: System, actions: seq<Action>)
    requires TooNew(s, app)
    ensures var t := Onward(ms, app, s, actions);
            TooNew(t, app) && t.ledger == s.ledger && t.postgres == s.postgres && t.late == s.late
    ensures s.late == {} ==> Onward(ms, app, s, actions).catalogue == s.catalogue
  {
    hide Flat, Execute, WorkStep;
    if actions != [] { NewerSchemaIsUntouched(ms, app, s, actions[..|actions| - 1]); }
  }

  /** In every history a version is in the ledger only if all of its statements have run. */
  lemma RecordedMeansRan(ms: seq<Migration>, app: nat, actions: seq<Action>, i: nat)
    requires DistinctVersions(ms) && i < |ms| && ms[i].version in After(ms, app, actions).ledger
    ensures var s := After(ms, app, actions);
            if ms[i].store == Postgres then ms[i].version in s.postgres
            else forall k :: 0 <= k < |ms[i].statements| ==> ms[i].statements[k].name in s.catalogue
  {
    EveryHistoryIsGood(ms, app, actions);
    RecordedRan(ms, After(ms, app, actions), i);
  }

  lemma RecordedRan(ms: seq<Migration>, s: System, i: nat)
    requires DistinctVersions(ms) && Good(ms, s) && i < |ms| && ms[i].version in s.ledger
    ensures ms[i].store == Postgres ==> ms[i].version in s.postgres
    ensures ms[i].store == ClickHouse ==> forall k :: 0 <= k < |ms[i].statements| ==> ms[i].statements[k].name in s.catalogue
  {
    hide Flat, ExecuteAll, Committed;
    var ran: nat, recorded: nat :| Holds(ms, s, ran, recorded);
    var j :| 0 <= j < |s.ledger| && s.ledger[j] == ms[i].version;
    assert i == j;
    if ms[i].store == Postgres {
      CommittedHas(ms, recorded, i);
    } else {
      forall k | 0 <= k < |ms[i].statements| ensures ms[i].statements[k].name in s.catalogue {
        StatementRan(ms, ran, recorded, i, k);
      }
    }
  }

  lemma StatementRan(ms: seq<Migration>, ran: nat, recorded: nat, i: nat, k: nat)
    requires i < recorded <= |ms| && ms[i].store == ClickHouse && k < |ms[i].statements|
    requires |Flat(ms, recorded)| <= ran <= |Flat(ms, |ms|)|
    ensures ms[i].statements[k].name in ExecuteAll(map[], Flat(ms, |ms|)[..ran])
  {
    hide ExecuteAll, Flat;
    FlatAt(ms, i, k);
    FlatPrefix(ms, i + 1, recorded);
    ExecutedIsThere(map[], Flat(ms, |ms|)[..ran], |Flat(ms, i)| + k);
  }

  lemma {:induction false} CommittedHas(ms: seq<Migration>, n: nat, i: nat)
    requires i < n <= |ms| && ms[i].store == Postgres
    ensures ms[i].version in Committed(ms, n)
  {
    if i < n - 1 { CommittedHas(ms, n - 1, i); }
  }

  /** What one uninterrupted run leaves behind. */
  ghost predicate Complete(ms: seq<Migration>, s: System) {
    && s.ledger == Versions(ms, |ms|)
    && s.postgres == Committed(ms, |ms|)
    && s.catalogue == ExecuteAll(map[], Flat(ms, |ms|))
  }

  /**
    Runs converge: whenever any process completes a run, after any interleaving, crashes, lost locks
    and late commands, the ledger and both catalogues are those of one uninterrupted run.
   */
  lemma CompletedRunsConverge(ms: seq<Migration>, app: nat, actions: seq<Action>, p: nat, outcome: Outcome)
    requires DistinctVersions(ms)
    requires var s := After(ms, app, actions);
             ProcessOf(s, p).Running? && ProcessOf(Act(ms, app, s, Work(p, outcome)), p).Finished?
    ensures Complete(ms, Act(ms, app, After(ms, app, actions), Work(p, outcome)))
  {
    EveryHistoryIsGood(ms, app, actions);
    FinishingIsComplete(ms, After(ms, app, actions), p, outcome);
  }

  lemma FinishingIsComplete(ms: seq<Migration>, s: System, p: nat, outcome: Outcome)
    requires Good(ms, s) && ProcessOf(s, p).Running?
    requires ProcessOf(WorkStep(ms, s, p, ProcessOf(s, p), outcome), p).Finished?
    ensures Complete(ms, WorkStep(ms, s, p, ProcessOf(s, p), outcome))
  {
    var ran: nat, recorded: nat :| Holds(ms, s, ran, recorded);
    assert ProcessHolds(ms, s, p, ran, recorded);
    FinishesAtTheEnd(ms, s, p, outcome);
    AllRan(ms, s, ran, recorded);
  }

  lemma FinishesAtTheEnd(ms: seq<Migration>, s: System, p: nat, outcome: Outcome)
    requires ProcessOf(s, p).Running? && ProcessOf(WorkStep(ms, s, p, ProcessOf(s, p), outcome), p).Finished?
    ensures ProcessOf(s, p).at >= |ms|
    ensures WorkStep(ms, s, p, ProcessOf(s, p), outcome) == Leave(s, p, Finished(ProcessOf(s, p).applied))
  {
  }

  lemma AllRan(ms: seq<Migration>, s: System, ran: nat, recorded: nat)
    requires Holds(ms, s, ran, recorded) && recorded == |ms|
    ensures Complete(ms, s)
  {
    assert Flat(ms, |ms|)[..|Flat(ms, |ms|)|] == Flat(ms, |ms|);
  }
}
