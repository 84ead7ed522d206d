/** scripts/ci_lost_runner.py: the decision that a run can never finish any more. */
module LostRunner {
  // `Stalled` is that decision on one snapshot; the second half of the module is a transition system for the jobs of a
  // run, and `StalledIsExact` says the decision is right in both directions over every continuation.

  import opened Wrappers
  import opened QueueRetry

  const HOSTED_GROUP := "GitHub Actions"
  const IN_PROGRESS := "in_progress"
  const COMPLETED := "completed"

  /** One row of the jobs listing. */
  datatype Row = Row(
    name: string, status: string, runner: string, group: string, startedAt: int, stepStatuses: seq<string>)

  datatype Verdict =
    | NothingLost
    | StillRuns(name: string)
    | StillWaits(name: string)
    | RunnerLost(names: seq<string>)

  predicate RanEveryStep(row: Row) {
    row.stepStatuses != [] && forall i :: 0 <= i < |row.stepStatuses| ==> row.stepStatuses[i] == COMPLETED
  }

  predicate IsLost(row: Row, runners: set<string>, now: int, grace: int) {
    && row.status == IN_PROGRESS
    && row.runner != ""
    && row.runner !in runners
    && row.group != HOSTED_GROUP
    && now - row.startedAt >= grace
    && !RanEveryStep(row)
  }

  /** `lost_jobs`, a filter that keeps the listing's order. */
  function LostJobs(rows: seq<Row>, runners: set<string>, now: int, grace: int): (lost: seq<Row>)
    ensures forall row :: row in lost <==>
              && row in rows && row.status == "in_progress" && now - row.startedAt >= grace
              && row.runner !in runners + {""} && row.group != "GitHub Actions"
              && (row.stepStatuses == [] || exists i :: 0 <= i < |row.stepStatuses| && row.stepStatuses[i] != "completed")
  {
    if rows == [] then []
    else
      var rest := LostJobs(rows[1..], runners, now, grace);
      if IsLost(rows[0], runners, now, grace) then [rows[0]] + rest else rest
  }

  /** `job_ids`: of several jobs with one base name the last in the file wins. */
  function JobIdIn(w: Workflow, order: seq<JobId>, base: string): (id: Option<JobId>)
    requires forall j :: j in order ==> j in w.jobs
    ensures id.Some? ==> id.value in order && BaseName(Name(w, id.value)) == base
    ensures id.None? ==> forall j :: j in order ==> BaseName(Name(w, j)) != base
  {
    if order == [] then None
    else if BaseName(Name(w, order[|order| - 1])) == base then Some(order[|order| - 1])
    else JobIdIn(w, order[..|order| - 1], base)
  }

  predicate NamedAt(w: Workflow, order: seq<JobId>, k: nat, base: string)
    requires forall j :: j in order ==> j in w.jobs
  {
    k < |order| && BaseName(Name(w, order[k])) == base
  }

  /** The job found is that of the last name in the file with the base. */
  lemma {:induction false} JobIdIsLast(w: Workflow, order: seq<JobId>, base: string, k: nat)
    requires forall j :: j in order ==> j in w.jobs
    requires NamedAt(w, order, k, base) && forall j: nat :: k < j < |order| ==> !NamedAt(w, order, j, base)
    ensures JobIdIn(w, order, base) == Some(order[k])
  {
    var last := |order| - 1;
    if k < last {
      assert !NamedAt(w, order, last, base);
      forall j: nat | k < j < last
        ensures !NamedAt(w, order[..last], j, base)
      {
        assert !NamedAt(w, order, j, base);
      }
      JobIdIsLast(w, order[..last], base, k);
    }
  }

  function JobIdOf(w: Workflow, base: string): Option<JobId>
    requires w.Valid()
  {
    JobIdIn(w, w.order, base)
  }

  /** Some lost row's job is reachable from `j`. */
  ghost predicate DependsOnLost(w: Workflow, lost: seq<Row>, j: JobId)
    requires w.Valid()
  {
    exists row :: row in lost && DependsOnRow(w, row, j)
  }

  ghost predicate DependsOnRow(w: Workflow, row: Row, j: JobId)
    requires w.Valid()
  {
    var id := JobIdOf(w, BaseName(row.name));
    id.Some? && Reaches(w, j, id.value)
  }

  ghost predicate BlockedBase(w: Workflow, lost: seq<Row>, base: string)
    requires w.Valid()
  {
    exists j :: j in w.jobs && DependsOnLost(w, lost, j) && BaseName(Name(w, j)) == base
  }

  /** What keeps a row from ruling out a stall. */
  ghost predicate HeldUp(w: Workflow, lost: seq<Row>, row: Row)
    requires w.Valid()
  {
    || row in lost
    || row.status == COMPLETED
    || (&& (row.status == IN_PROGRESS ==> BaseName(row.name) in PollingJobs(w))
        && BlockedBase(w, lost, BaseName(row.name)))
  }

  function NamesOf(rows: seq<Row>): seq<string> {
    seq(|rows|, i requires 0 <= i < |rows| => rows[i].name)
  }

  method BlockedBases(w: Workflow, lost: seq<Row>) returns (blocked: set<string>)
    requires w.Valid()
    ensures forall base :: base in blocked <==> BlockedBase(w, lost, base)
  {
    blocked := {};
    for k := 0 to |lost|
      invariant forall base :: base in blocked <==> BlockedBase(w, lost[..k], base)
    {
      ghost var before := blocked;
      var root := JobIdOf(w, BaseName(lost[k].name));
      if root.Some? {
        var waiting := Dependents(w, root.value);
        blocked := blocked + set name | name in waiting :: BaseName(name);
      }
      assert lost[..k + 1] == lost[..k] + [lost[k]];
      forall base
        ensures base in blocked <==> BlockedBase(w, lost[..k + 1], base)
      {
        OneMoreLost(w, lost, k, base);
      }
    }
    assert lost[..|lost|] == lost;
  }

  lemma DependsOnOneMore(w: Workflow, lost: seq<Row>, k: nat, j: JobId)
    requires w.Valid() && k < |lost|
    ensures DependsOnLost(w, lost[..k + 1], j) <==> DependsOnLost(w, lost[..k], j) || DependsOnRow(w, lost[k], j)
  {
    assert lost[..k + 1] == lost[..k] + [lost[k]];
  }

  lemma OneMoreLost(w: Workflow, lost: seq<Row>, k: nat, base: string)
    requires w.Valid() && k < |lost|
    ensures BlockedBase(w, lost[..k + 1], base) <==>
            || BlockedBase(w, lost[..k], base)
            || exists j :: j in w.jobs && DependsOnRow(w, lost[k], j) && BaseName(Name(w, j)) == base
  {
    forall j | j in w.jobs {
      DependsOnOneMore(w, lost, k, j);
    }
  }

  /** The row's own work is going on: it runs, and not only to poll. */
  predicate Works(w: Workflow, row: Row) {
    row.status == IN_PROGRESS && BaseName(row.name) !in PollingJobs(w)
  }

  /** The first row that rules out a stall. */
  ghost predicate FirstAgainst(w: Workflow, rows: seq<Row>, lost: seq<Row>, k: nat)
    requires w.Valid()
  {
    k < |rows| && !HeldUp(w, lost, rows[k]) && forall i :: 0 <= i < k ==> HeldUp(w, lost, rows[i])
  }

  /** `stalled`, with its early returns. */
  method Stalled(rows: seq<Row>, lost: seq<Row>, w: Workflow) returns (verdict: Verdict)
    requires w.Valid()
    ensures verdict.NothingLost? <==> lost == []
    ensures verdict.RunnerLost? <==> lost != [] && forall row :: row in rows ==> HeldUp(w, lost, row)
    ensures verdict.RunnerLost? ==> verdict.names == NamesOf(lost)
    ensures verdict.StillRuns? ==> exists k: nat :: FirstAgainst(w, rows, lost, k) && rows[k].name == verdict.name && Works(w, rows[k])
    ensures verdict.StillWaits? ==> exists k: nat :: FirstAgainst(w, rows, lost, k) && rows[k].name == verdict.name && !Works(w, rows[k])
  {
    if lost == [] {
      return NothingLost;
    }
    var blocked := BlockedBases(w, lost);
    for k := 0 to |rows|
      invariant forall i :: 0 <= i < k ==> HeldUp(w, lost, rows[i])
    {
      var row := rows[k];
      if row in lost || row.status == COMPLETED {
        continue;
      }
      if row.status == IN_PROGRESS && BaseName(row.name) !in PollingJobs(w) {
        assert FirstAgainst(w, rows, lost, k);
        return StillRuns(row.name);
      }
      if BaseName(row.name) !in blocked {
        assert FirstAgainst(w, rows, lost, k);
        return StillWaits(row.name);
      }
    }
    return RunnerLost(NamesOf(lost));
  }

  /* ---- the jobs of a run as a transition system ---- */

  /** A listed row, or all the not yet listed rows of one job of the workflow. */
  datatype Unit = Listed(index: nat) | Hidden(id: JobId)

  datatype State = State(started: set<Unit>, done: set<Unit>)

  datatype Run = Run(w: Workflow, rows: seq<Row>, lost: seq<Row>) {

    predicate IsUnit(x: Unit)
      requires w.Valid()
    {
      match x
      case Listed(i) => i < |rows|
      case Hidden(id) => id in w.jobs && forall i :: 0 <= i < |rows| ==> JobIdOf(w, BaseName(rows[i].name)) != Some(id)
    }

    function JobOf(x: Unit): (id: Option<JobId>)
      requires w.Valid() && IsUnit(x)
      ensures id.Some? ==> id.value in w.jobs
    {
      match x
      case Listed(i) => JobIdOf(w, BaseName(rows[i].name))
      case Hidden(id) => Some(id)
    }

    ghost predicate LostUnit(x: Unit) {
      x.Listed? && x.index < |rows| && rows[x.index] in lost
    }

    /** Every unit of every job in `ids` is done. */
    ghost predicate AllDone(s: State, ids: set<JobId>)
      requires w.Valid()
    {
      forall y :: IsUnit(y) && JobOf(y).Some? && JobOf(y).value in ids ==> y in s.done
    }

    /** A job starts when every job it declares in `needs` is complete. */
    ghost predicate NeedsDone(s: State, x: Unit)
      requires w.Valid() && IsUnit(x)
    {
      JobOf(x).Some? ==> AllDone(s, Declared(w.jobs[JobOf(x).value]))
    }

    /** A job whose own steps poll completes after the unit and rerun jobs it watches. */
    ghost predicate WatchedDone(s: State, x: Unit)
      requires w.Valid() && IsUnit(x)
    {
      JobOf(x).Some? && Polls(w.jobs[JobOf(x).value]) ==> AllDone(s, {SHARD, RERUN_ID})
    }

    ghost predicate Start(s: State, s': State, x: Unit)
      requires w.Valid() && IsUnit(x)
    {
      && x !in s.started && x !in s.done && NeedsDone(s, x)
      && s' == s.(started := s.started + {x})
    }

    /** A job is skipped, instead of started, once its needs are complete. */
    ghost predicate Skip(s: State, s': State, x: Unit)
      requires w.Valid() && IsUnit(x)
    {
      && x !in s.started && x !in s.done && NeedsDone(s, x) && WatchedDone(s, x)
      && s' == s.(done := s.done + {x})
    }

    /** Only a job whose runner is not lost finishes. */
    ghost predicate Finish(s: State, s': State, x: Unit)
      requires w.Valid() && IsUnit(x)
    {
      && x in s.started && x !in s.done && !LostUnit(x) && WatchedDone(s, x)
      && s' == s.(done := s.done + {x})
    }

    ghost predicate Step(s: State, s': State)
      requires w.Valid()
    {
      exists x :: IsUnit(x) && (Start(s, s', x) || Skip(s, s', x) || Finish(s, s', x))
    }

    ghost predicate IsTrace(trace: seq<State>)
      requires w.Valid()
    {
      && trace != [] && trace[0] == Snapshot()
      && forall i :: 0 <= i < |trace| - 1 ==> Step(trace[i], trace[i + 1])
    }

    ghost function Snapshot(): State {
      State(
        set i | 0 <= i < |rows| && rows[i].status == IN_PROGRESS :: Listed(i),
        set i | 0 <= i < |rows| && rows[i].status == COMPLETED :: Listed(i))
    }

    /** No unit started or finished before what it waits for. */
    ghost predicate Consistent(s: State)
      requires w.Valid()
    {
      && (forall x :: x in s.started && IsUnit(x) ==> NeedsDone(s, x))
      && (forall x :: x in s.done && IsUnit(x) ==> NeedsDone(s, x) && WatchedDone(s, x))
    }

    /**
     * What the decision takes for granted about the workflow and the snapshot: base names tell jobs apart,
     * polling jobs carry no matrix suffix in their name, the graph is acyclic (`rank`), the lost rows are
     * running rows of the listing, the snapshot is consistent, and every job that could start is listed.
     */
    ghost predicate WellFormed(rank: map<JobId, nat>) {
      && w.Valid()
      && (forall i, j :: i in w.jobs && j in w.jobs && BaseName(Name(w, i)) == BaseName(Name(w, j)) ==> i == j)
      && (forall j :: j in w.jobs && Polls(w.jobs[j]) ==> BaseName(Name(w, j)) == Name(w, j))
      && rank.Keys == w.jobs.Keys
      && (forall j, n :: j in w.jobs && n in w.jobs && n in Edges(w, j) ==> rank[n] < rank[j])
      && (forall row :: row in lost ==> row in rows && row.status == IN_PROGRESS)
      && Consistent(Snapshot())
      && (forall x: Unit :: x.Hidden? && IsUnit(x) ==> !NeedsDone(Snapshot(), x))
    }

    /** The unit never becomes done: its runner is lost, or its job waits for one whose runner is. */
    ghost predicate Stuck(x: Unit)
      requires w.Valid() && IsUnit(x)
    {
      LostUnit(x) || (JobOf(x).Some? && DependsOnLost(w, lost, JobOf(x).value))
    }

    ghost predicate NothingFinishes()
      requires w.Valid()
    {
      forall trace: seq<State>, i :: IsTrace(trace) && 0 <= i < |trace| ==> trace[i].done == trace[0].done
    }
  }

  /** With distinct base names, watching by name is watching by one's own steps. */
  lemma EdgesAreOwn(r: Run, rank: map<JobId, nat>, j: JobId)
    requires r.WellFormed(rank) && j in r.w.jobs
    ensures Edges(r.w, j) == Declared(r.w.jobs[j]) + if Polls(r.w.jobs[j]) then {SHARD, RERUN_ID} else {}
  {
  }

  /** A unit is done only after every unit of every job it has an edge to. */
  ghost predicate Ordered(r: Run, s: State)
    requires r.w.Valid()
  {
    forall x, y :: r.IsUnit(x) && r.IsUnit(y) && Waits(r, x, y) && x in s.done ==> y in s.done
  }

  ghost predicate Waits(r: Run, x: Unit, y: Unit)
    requires r.w.Valid() && r.IsUnit(x) && r.IsUnit(y)
  {
    r.JobOf(x).Some? && r.JobOf(y).Some? && r.JobOf(y).value in Edges(r.w, r.JobOf(x).value)
  }

  lemma ConsistentIsOrdered(r: Run, rank: map<JobId, nat>, s: State)
    requires r.WellFormed(rank) && r.Consistent(s)
    ensures Ordered(r, s)
  {
    forall x, y | r.IsUnit(x) && r.IsUnit(y) && Waits(r, x, y) && x in s.done
      ensures y in s.done
    {
      EdgesAreOwn(r, rank, r.JobOf(x).value);
    }
  }

  /** Every job of the workflow has a unit. */
  lemma UnitOf(r: Run, j: JobId) returns (x: Unit)
    requires r.w.Valid() && j in r.w.jobs
    ensures r.IsUnit(x) && r.JobOf(x) == Some(j)
  {
    if i: nat :| i < |r.rows| && JobIdOf(r.w, BaseName(r.rows[i].name)) == Some(j) {
      x := Listed(i);
    } else {
      x := Hidden(j);
    }
  }

  lemma StepKeepsConsistent(r: Run, s: State, s': State)
    requires r.w.Valid() && r.Consistent(s) && r.Step(s, s')
    ensures r.Consistent(s') && s.done <= s'.done
  {
  }

  ghost predicate LostNotDone(r: Run, s: State) {
    forall x :: x in s.done ==> !r.LostUnit(x)
  }

  lemma PathFirst(w: Workflow, path: seq<JobId>, j: JobId, root: JobId)
    requires IsPath(w, path, j, root)
    ensures j in w.jobs && path[1] in Edges(w, j)
    ensures |path| == 2 ==> path[1] == root
    ensures |path| > 2 ==> path[1] in w.jobs && IsPath(w, path[1..], path[1], root)
  {
    assert path[0] in w.jobs && path[0 + 1] in Edges(w, path[0]);
    if |path| > 2 {
      assert path[1] in w.jobs && path[1 + 1] in Edges(w, path[1]);
    }
  }

  /** A unit whose job waits, over any number of edges, for a job with a lost row is never done. */
  lemma {:induction false} WaitingNotDone(r: Run, s: State, path: seq<JobId>, x: Unit, lostUnit: Unit)
    requires r.w.Valid() && Ordered(r, s) && lostUnit !in s.done
    requires r.IsUnit(x) && r.JobOf(x).Some?
    requires r.IsUnit(lostUnit) && r.JobOf(lostUnit).Some?
    requires IsPath(r.w, path, r.JobOf(x).value, r.JobOf(lostUnit).value)
    ensures x !in s.done
    decreases |path|
  {
    PathFirst(r.w, path, r.JobOf(x).value, r.JobOf(lostUnit).value);
    if |path| == 2 {
      assert Waits(r, x, lostUnit);
    } else {
      var y := UnitOf(r, path[1]);
      assert Waits(r, x, y);
      WaitingNotDone(r, s, path[1..], y, lostUnit);
    }
  }

  lemma StuckNotDone(r: Run, s: State, x: Unit)
    requires r.w.Valid() && Ordered(r, s) && LostNotDone(r, s)
    requires forall row :: row in r.lost ==> row in r.rows
    requires r.IsUnit(x) && r.Stuck(x)
    ensures x !in s.done
  {
    if !r.LostUnit(x) {
      var row :| row in r.lost && DependsOnRow(r.w, row, r.JobOf(x).value);
      var k :| 0 <= k < |r.rows| && r.rows[k] == row;
      var y := Listed(k);
      assert r.LostUnit(y);
      var path :| IsPath(r.w, path, r.JobOf(x).value, r.JobOf(y).value);
      WaitingNotDone(r, s, path, x, y);
    }
  }

  lemma BlockedRowDepends(r: Run, rank: map<JobId, nat>, i: nat)
    requires r.WellFormed(rank) && i < |r.rows|
    ensures BlockedBase(r.w, r.lost, BaseName(r.rows[i].name)) <==>
            r.JobOf(Listed(i)).Some? && DependsOnLost(r.w, r.lost, r.JobOf(Listed(i)).value)
  {
  }

  lemma NeedOfStuckIsStuck(r: Run, x: Unit, y: Unit)
    requires r.w.Valid() && r.IsUnit(x) && r.IsUnit(y) && r.Stuck(y)
    requires Waits(r, x, y)
    ensures DependsOnLost(r.w, r.lost, r.JobOf(x).value)
  {
    var j, n := r.JobOf(x).value, r.JobOf(y).value;
    if r.LostUnit(y) {
      EdgeReaches(r.w, j, n, n);
      assert DependsOnRow(r.w, r.rows[y.index], j);
    } else {
      var row :| row in r.lost && DependsOnRow(r.w, row, n);
      EdgeReaches(r.w, j, n, JobIdOf(r.w, BaseName(row.name)).value);
      assert DependsOnRow(r.w, row, j);
    }
  }

  lemma UnmetNeed(r: Run, s: State, x: Unit) returns (y: Unit)
    requires r.w.Valid() && r.IsUnit(x) && !r.NeedsDone(s, x)
    ensures r.IsUnit(y) && Waits(r, x, y) && y !in s.done
  {
    var needs := Declared(r.w.jobs[r.JobOf(x).value]);
    y :| r.IsUnit(y) && r.JobOf(y).Some? && r.JobOf(y).value in needs && y !in s.done;
  }

  /** When every row is held up, every unfinished unit, listed or not, is stuck. */
  lemma {:induction false} UnfinishedIsStuck(r: Run, rank: map<JobId, nat>, x: Unit)
    requires r.WellFormed(rank)
    requires forall row :: row in r.rows ==> HeldUp(r.w, r.lost, row)
    requires r.IsUnit(x) && x !in r.Snapshot().done
    ensures r.Stuck(x)
    decreases if x.Listed? then 0 else 1, if x.Hidden? then rank[x.id] else 0
  {
    match x
    case Listed(i) =>
      assert HeldUp(r.w, r.lost, r.rows[i]);
      BlockedRowDepends(r, rank, i);
    case Hidden(id) =>
      var y := UnmetNeed(r, r.Snapshot(), x);
      UnfinishedIsStuck(r, rank, y);
      NeedOfStuckIsStuck(r, x, y);
  }

  lemma LostUnitsRun(r: Run, rank: map<JobId, nat>)
    requires r.WellFormed(rank)
    ensures LostNotDone(r, r.Snapshot())
    ensures forall x :: r.LostUnit(x) ==> x in r.Snapshot().started
  {
  }

  lemma StuckCannotFinish(r: Run, s: State, s': State, x: Unit)
    requires r.w.Valid() && r.IsUnit(x) && (r.Skip(s, s', x) || r.Finish(s, s', x))
    requires LostNotDone(r, s) && (r.LostUnit(x) ==> x in s.started)
    requires forall row :: row in r.lost ==> row in r.rows
    requires Ordered(r, s')
    ensures !r.Stuck(x)
  {
    if r.Stuck(x) {
      StuckNotDone(r, s', x);
    }
  }

  /** Nothing finished since the snapshot. */
  ghost predicate Frozen(r: Run, s: State)
    requires r.w.Valid()
  {
    r.Consistent(s) && s.done == r.Snapshot().done && r.Snapshot().started <= s.started
  }

  lemma StepKeepsFrozen(r: Run, rank: map<JobId, nat>, s: State, s': State, x: Unit)
    requires r.WellFormed(rank)
    requires forall row :: row in r.rows ==> HeldUp(r.w, r.lost, row)
    requires Frozen(r, s)
    requires r.IsUnit(x) && (r.Start(s, s', x) || r.Skip(s, s', x) || r.Finish(s, s', x))
    ensures Frozen(r, s')
  {
    assert r.Step(s, s');
    StepKeepsConsistent(r, s, s');
    if r.Skip(s, s', x) || r.Finish(s, s', x) {
      UnfinishedIsStuck(r, rank, x);
      ConsistentIsOrdered(r, rank, s');
      LostUnitsRun(r, rank);
      StuckCannotFinish(r, s, s', x);
    }
  }

  lemma {:induction false} StuckRunStaysPut(r: Run, rank: map<JobId, nat>, trace: seq<State>, k: nat)
    requires r.WellFormed(rank)
    requires forall row :: row in r.rows ==> HeldUp(r.w, r.lost, row)
    requires r.IsTrace(trace) && k < |trace|
    ensures Frozen(r, trace[k])
  {
    if k > 0 {
      StuckRunStaysPut(r, rank, trace, k - 1);
      var s, s' := trace[k - 1], trace[k];
      assert r.Step(trace[k - 1], trace[k - 1 + 1]);
      var x :| r.IsUnit(x) && (r.Start(s, s', x) || r.Skip(s, s', x) || r.Finish(s, s', x));
      StepKeepsFrozen(r, rank, s, s', x);
    }
  }

  /** Among unfinished units that are not stuck, one has every unit it waits for done. */
  lemma {:induction false} ReadyUnit(r: Run, rank: map<JobId, nat>, x: Unit) returns (ready: Unit)
    requires r.WellFormed(rank)
    requires r.IsUnit(x) && x !in r.Snapshot().done && !r.Stuck(x)
    ensures r.IsUnit(ready) && ready !in r.Snapshot().done && !r.LostUnit(ready)
    ensures r.NeedsDone(r.Snapshot(), ready) && r.WatchedDone(r.Snapshot(), ready)
    decreases if r.JobOf(x).Some? then rank[r.JobOf(x).value] else 0
  {
    var s := r.Snapshot();
    if r.NeedsDone(s, x) && r.WatchedDone(s, x) {
      ready := x;
    } else {
      var j := r.JobOf(x).value;
      EdgesAreOwn(r, rank, j);
      var y :| r.IsUnit(y) && r.JobOf(y).Some? && r.JobOf(y).value in Edges(r.w, j) && y !in s.done;
      if r.Stuck(y) {
        NeedOfStuckIsStuck(r, x, y);
      }
      ready := ReadyUnit(r, rank, y);
    }
  }

  /** A unit that is not lost and waits for nothing finishes, after a start when it has not started. */
  lemma ReadyUnitFinishes(r: Run, x: Unit) returns (trace: seq<State>)
    requires r.w.Valid() && r.IsUnit(x) && x !in r.Snapshot().done && !r.LostUnit(x)
    requires x in r.Snapshot().started || r.NeedsDone(r.Snapshot(), x)
    requires r.WatchedDone(r.Snapshot(), x)
    ensures r.IsTrace(trace) && x in trace[|trace| - 1].done
  {
    var s := r.Snapshot();
    if x in s.started {
      var s' := s.(done := s.done + {x});
      assert r.Finish(s, s', x);
      trace := [s, s'];
    } else {
      var s' := s.(started := s.started + {x});
      var s'' := s'.(done := s'.done + {x});
      assert r.Start(s, s', x) && r.Finish(s', s'', x);
      trace := [s, s', s''];
    }
  }

  lemma RowNotHeldUpFinishes(r: Run, rank: map<JobId, nat>, i: nat) returns (trace: seq<State>)
    requires r.WellFormed(rank) && i < |r.rows| && !HeldUp(r.w, r.lost, r.rows[i])
    ensures r.IsTrace(trace) && trace[|trace| - 1].done != trace[0].done
  {
    var x := Listed(i);
    BlockedRowDepends(r, rank, i);
    assert !r.LostUnit(x) && x !in r.Snapshot().done;
    if !r.Stuck(x) {
      var y := ReadyUnit(r, rank, x);
      trace := ReadyUnitFinishes(r, y);
    } else {
      trace := ReadyUnitFinishes(r, x);
    }
  }

  /**
   * The decision is exact: with a runner lost, `Stalled` answers yes if and only if no unfinished job of the
   * run, listed or not, finishes in any continuation.
   */
  lemma StalledIsExact(r: Run, rank: map<JobId, nat>)
    requires r.WellFormed(rank) && r.lost != []
    ensures (forall row :: row in r.rows ==> HeldUp(r.w, r.lost, row)) <==> r.NothingFinishes()
  {
    if forall row :: row in r.rows ==> HeldUp(r.w, r.lost, row) {
      forall trace: seq<State>, i | r.IsTrace(trace) && 0 <= i < |trace|
        ensures trace[i].done == trace[0].done
      {
        StuckRunStaysPut(r, rank, trace, i);
      }
    } else {
      var row :| row in r.rows && !HeldUp(r.w, r.lost, row);
      var i :| 0 <= i < |r.rows| && r.rows[i] == row;
      var trace := RowNotHeldUpFinishes(r, rank, i);
      assert trace[|trace| - 1].done != trace[0].done;
    }
  }
}
