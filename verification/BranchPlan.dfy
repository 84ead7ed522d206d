/** scripts/ci_branch_plan.py: which tests a pull request run need not repeat. */
module BranchPlan {
  // What may be taken over is in the records that earlier runs of the same pull request left. Runs come newest first,
  // and the first unusable one ends the search.

  import opened Sorting
  import opened Wrappers

  type Test = string

  /**
   * One record: the tests its manifest knows, those of them that changes since its commit invalidate, and how
   * the tests it ran ended.
   */
  datatype Record = Record(
    run: int, attempt: int, commit: string, head: string,
    known: set<Test>, invalidated: set<Test>, passed: set<Test>, failed: set<Test>, flaky: set<Test>)

  /** An artifact of a run; without content when it could not be downloaded or holds no valid record. */
  datatype Artifact = Artifact(name: string, content: Option<Record>)

  /** The artifacts of a run that started test legs left, and the names those legs require. */
  datatype Listing = Refused | Listed(items: seq<Artifact>, required: set<string>, pages: nat)

  datatype Run = Run(completed: bool, listing: Listing)

  /** A record that counts: what it lets a later run reuse, and what it forbids. */
  datatype Finding = Finding(record: Record, passed: set<Test>, vetoes: set<Test>)

  const REQUESTS := 100

  /* ---- _blocked, _outcomes, _evaluate ---- */

  function Blocked(r: Record): set<Test> {
    r.failed + r.flaky
  }

  function Valid(r: Record): set<Test> {
    r.known - r.invalidated
  }

  function FindingOf(r: Record): Finding {
    Finding(r, r.passed * Valid(r), (Blocked(r) * Valid(r)) + (Blocked(r) - r.known))
  }

  function FindingsOf(records: seq<Record>): seq<Finding> {
    seq(|records|, i requires 0 <= i < |records| => FindingOf(records[i]))
  }

  /** What a record forbids when its run is given up because some commit cannot be fetched. */
  function VetoesOf(r: Record, fetched: string -> bool): set<Test> {
    if fetched(r.commit) then FindingOf(r).vetoes else Blocked(r)
  }

  function GivenUp(records: seq<Record>, fetched: string -> bool): set<Test> {
    if records == [] then {}
    else GivenUp(records[..|records| - 1], fetched) + VetoesOf(records[|records| - 1], fetched)
  }

  function AllVetoes(found: seq<Finding>): set<Test> {
    if found == [] then {} else AllVetoes(found[..|found| - 1]) + found[|found| - 1].vetoes
  }

  lemma {:induction false} InGivenUp(records: seq<Record>, fetched: string -> bool, t: Test)
    ensures t in GivenUp(records, fetched) <==> exists r :: r in records && t in VetoesOf(r, fetched)
  {
    if records != [] {
      var front, last := records[..|records| - 1], records[|records| - 1];
      assert records == front + [last];
      InGivenUp(front, fetched, t);
    }
  }

  lemma {:induction false} InAllVetoes(found: seq<Finding>, t: Test)
    ensures t in AllVetoes(found) <==> exists f :: f in found && t in f.vetoes
  {
    if found != [] {
      var front, last := found[..|found| - 1], found[|found| - 1];
      assert found == front + [last];
      InAllVetoes(front, t);
    }
  }

  lemma {:induction false} AllVetoesConcat(a: seq<Finding>, b: seq<Finding>)
    ensures AllVetoes(a + b) == AllVetoes(a) + AllVetoes(b)
  {
    if b == [] {
      assert a + b == a;
    } else {
      assert (a + b)[..|a + b| - 1] == a + b[..|b| - 1];
      AllVetoesConcat(a, b[..|b| - 1]);
    }
  }

  predicate AllFetched(records: seq<Record>, fetched: string -> bool) {
    forall r :: r in records ==> fetched(r.commit)
  }

  /** The records read so far are `records`; `missed` when one of their commits could not be fetched. */
  ghost predicate Evaluated(
    records: seq<Record>, fetched: string -> bool, usable: seq<Finding>, missed: bool, unfetched: set<Test>)
  {
    && (missed <==> !AllFetched(records, fetched))
    && (!missed ==> usable == FindingsOf(records))
    && unfetched + AllVetoes(usable) == GivenUp(records, fetched)
  }

  lemma OneMoreRecord(records: seq<Record>, record: Record, fetched: string -> bool)
    ensures AllFetched(records + [record], fetched) <==> AllFetched(records, fetched) && fetched(record.commit)
    ensures FindingsOf(records + [record]) == FindingsOf(records) + [FindingOf(record)]
    ensures GivenUp(records + [record], fetched) == GivenUp(records, fetched) + VetoesOf(record, fetched)
  {
    assert (records + [record])[..|records|] == records;
  }

  lemma OneMoreFinding(found: seq<Finding>, f: Finding)
    ensures AllVetoes(found + [f]) == AllVetoes(found) + f.vetoes
  {
    assert (found + [f])[..|found|] == found;
  }

  lemma EvaluatedStep(
    records: seq<Record>, record: Record, fetched: string -> bool, usable: seq<Finding>, missed: bool, unfetched: set<Test>)
    requires Evaluated(records, fetched, usable, missed, unfetched)
    ensures
      if fetched(record.commit) then
        Evaluated(records + [record], fetched, usable + [FindingOf(record)], missed, unfetched)
      else Evaluated(records + [record], fetched, usable, true, unfetched + Blocked(record))
  {
    OneMoreRecord(records, record, fetched);
    OneMoreFinding(usable, FindingOf(record));
  }

  /** `_evaluate`: the findings, or the vetoes of a barrier. */
  method Evaluate(records: seq<Record>, fetched: string -> bool) returns (r: Result<seq<Finding>, set<Test>>)
    ensures r == if AllFetched(records, fetched) then Ok(FindingsOf(records)) else Err(GivenUp(records, fetched))
  {
    var usable: seq<Finding>, missing: seq<string>, unfetched: set<Test> := [], [], {};
    for i := 0 to |records|
      invariant Evaluated(records[..i], fetched, usable, missing != [], unfetched)
    {
      var record := records[i];
      EvaluatedStep(records[..i], record, fetched, usable, missing != [], unfetched);
      assert records[..i + 1] == records[..i] + [record];
      if fetched(record.commit) {
        usable := usable + [FindingOf(record)];
      } else {
        missing := missing + [record.commit];
        unfetched := unfetched + Blocked(record);
      }
    }
    assert records[..|records|] == records;
    return if missing != [] then Err(unfetched + AllVetoes(usable)) else Ok(usable);
  }

  /* ---- considered ---- */

  function NewestAttempt(): Record -> int {
    (r: Record) => -r.attempt
  }

  function Contents(items: seq<Artifact>): seq<Record>
    requires forall item :: item in items ==> item.content.Some?
  {
    seq(|items|, i requires 0 <= i < |items| =>
      assert items[i] in items;
      items[i].content.value)
  }

  predicate Readable(run: Run) {
    && run.completed && run.listing.Listed?
    && run.listing.required <= (set item | item in run.listing.items :: item.name)
    && forall item :: item in run.listing.items ==> item.content.Some?
  }

  /** A run's records, the later attempts first. */
  function RecordsOf(run: Run): seq<Record>
    requires Readable(run)
  {
    Sorted(Contents(run.listing.items), NewestAttempt())
  }

  /** The run completed, left every required record, and all its records can be read and compared. */
  predicate Usable(run: Run, fetched: string -> bool) {
    Readable(run) && AllFetched(RecordsOf(run), fetched)
  }

  /** The requests that reading a listed run takes. */
  function Cost(run: Run): nat {
    if run.listing.Listed? then |run.listing.items| else 0
  }

  /** Why the search goes on, or where it ends and what that run forbids. */
  datatype Step = Take(found: seq<Finding>) | Stop(vetoes: set<Test>)

  predicate Complete(listing: Listing) {
    listing.Listed? && listing.required <= (set item | item in listing.items :: item.name)
  }

  function Judged(run: Run, requests: nat, fetched: string -> bool): Step {
    if !run.completed || !Complete(run.listing) || requests + Cost(run) > REQUESTS || !Readable(run) then Stop({})
    else if AllFetched(RecordsOf(run), fetched) then Take(FindingsOf(RecordsOf(run)))
    else Stop(GivenUp(RecordsOf(run), fetched))
  }

  /** The pages of the listings that are asked for before the search: those of the completed runs up front. */
  function ListingPages(runs: seq<Run>): nat {
    if runs == [] || !runs[0].completed then 0
    else (if runs[0].listing.Listed? then runs[0].listing.pages else 0) + ListingPages(runs[1..])
  }

  /** The requests made before the first record is read. */
  function Asked(runs: seq<Run>, polls: nat): nat {
    polls + ListingPages(runs)
  }

  /** What the search collects. */
  function Found(runs: seq<Run>, requests: nat, fetched: string -> bool): seq<Finding> {
    if runs == [] then []
    else
      match Judged(runs[0], requests, fetched)
      case Stop(_) => []
      case Take(found) => found + Found(runs[1..], requests + Cost(runs[0]), fetched)
  }

  /** What the run at which the search ends forbids. */
  function FinalVetoes(runs: seq<Run>, requests: nat, fetched: string -> bool): set<Test> {
    if runs == [] then {}
    else
      match Judged(runs[0], requests, fetched)
      case Stop(vetoes) => vetoes
      case Take(_) => FinalVetoes(runs[1..], requests + Cost(runs[0]), fetched)
  }

  /** One turn of the loop in `considered`. */
  method Judge(run: Run, requests: nat, fetched: string -> bool) returns (step: Step)
    ensures step == Judged(run, requests, fetched)
  {
    if !run.completed || !Complete(run.listing) || requests + |run.listing.items| > REQUESTS {
      return Stop({});
    }
    if exists item | item in run.listing.items :: item.content.None? {
      return Stop({});
    }
    var evaluated := Evaluate(RecordsOf(run), fetched);
    return if evaluated.Ok? then Take(evaluated.value) else Stop(evaluated.error);
  }

  /** The search stands before run `k` with `found` collected and so many requests spent. */
  ghost predicate Searching(runs: seq<Run>, k: nat, requests: nat, found: seq<Finding>, first: nat, fetched: string -> bool) {
    && k <= |runs|
    && Found(runs, first, fetched) == found + Found(runs[k..], requests, fetched)
    && FinalVetoes(runs, first, fetched) == FinalVetoes(runs[k..], requests, fetched)
  }

  lemma SearchingOn(
    runs: seq<Run>, k: nat, after: nat, requests: nat, next: nat, found: seq<Finding>, taken: seq<Finding>,
    first: nat, fetched: string -> bool)
    requires Searching(runs, k, requests, found, first, fetched)
    requires after == k + 1 <= |runs| && next == requests + Cost(runs[k])
    requires Judged(runs[k], requests, fetched) == Take(taken)
    ensures Searching(runs, after, next, found + taken, first, fetched)
  {
    var rest := runs[after..];
    assert runs[k..][1..] == rest;
    assert (found + taken) + Found(rest, next, fetched) == found + (taken + Found(rest, next, fetched));
  }

  /** `considered` over the listed runs, newest first. */
  method Considered(runs: seq<Run>, polls: nat, fetched: string -> bool) returns (found: seq<Finding>, vetoes: set<Test>)
    ensures found == Found(runs, Asked(runs, polls), fetched)
    ensures vetoes == FinalVetoes(runs, Asked(runs, polls), fetched)
  {
    var requests: nat := Asked(runs, polls);
    ghost var first := requests;
    found := [];
    assert runs[0..] == runs;
    for k := 0 to |runs|
      invariant Searching(runs, k, requests, found, first, fetched)
    {
      var step := Judge(runs[k], requests, fetched);
      if step.Stop? {
        return found, step.vetoes;
      }
      ghost var next := requests + Cost(runs[k]);
      SearchingOn(runs, k, k + 1, requests, next, found, step.found, first, fetched);
      requests := requests + Cost(runs[k]);
      found := found + step.found;
    }
    vetoes := {};
  }

  /** How many runs the search takes. */
  function Reach(runs: seq<Run>, requests: nat, fetched: string -> bool): (n: nat)
    ensures n <= |runs|
  {
    if runs == [] || Judged(runs[0], requests, fetched).Stop? then 0
    else 1 + Reach(runs[1..], requests + Cost(runs[0]), fetched)
  }

  function CostOf(runs: seq<Run>): nat {
    if runs == [] then 0 else Cost(runs[0]) + CostOf(runs[1..])
  }

  /** The first `n` runs are usable, and the next one is not or the requests run out at it. */
  predicate StopsAt(runs: seq<Run>, requests: nat, fetched: string -> bool, n: nat) {
    && n <= |runs|
    && (forall run :: run in runs[..n] ==> Usable(run, fetched))
    && (n < |runs| ==> !Usable(runs[n], fetched) || requests + CostOf(runs[..n + 1]) > REQUESTS)
  }

  /** Every run taken is usable, and the search ends at the first one that is not or that the requests run out at. */
  lemma {:induction false} SearchStops(runs: seq<Run>, requests: nat, fetched: string -> bool)
    ensures StopsAt(runs, requests, fetched, Reach(runs, requests, fetched))
  {
    if runs != [] && Judged(runs[0], requests, fetched).Take? {
      SearchStops(runs[1..], requests + Cost(runs[0]), fetched);
      StopsLater(runs, requests, fetched, Reach(runs[1..], requests + Cost(runs[0]), fetched));
    } else if runs != [] {
      assert runs[..1][1..] == [];
    }
  }

  lemma StopsLater(runs: seq<Run>, requests: nat, fetched: string -> bool, m: nat)
    requires runs != [] && Usable(runs[0], fetched) && StopsAt(runs[1..], requests + Cost(runs[0]), fetched, m)
    ensures StopsAt(runs, requests, fetched, m + 1)
  {
    TailOfRuns(runs, m + 1, m);
  }

  lemma TailOfRuns(runs: seq<Run>, n: nat, m: nat)
    requires n == m + 1 <= |runs|
    ensures runs[..n] == [runs[0]] + runs[1..][..m]
    ensures n < |runs| ==> runs[1..][m] == runs[n] && CostOf(runs[..n + 1]) == Cost(runs[0]) + CostOf(runs[1..][..m + 1])
  {
    if n < |runs| {
      assert runs[..n + 1][1..] == runs[1..][..m + 1];
    }
  }

  /**
   * The search takes the first `n` runs exactly when each of them is usable and all their artifacts can be asked for
   * within a hundred requests.
   */
  lemma {:induction false} ReachExactly(runs: seq<Run>, requests: nat, fetched: string -> bool, n: nat)
    requires n <= |runs|
    ensures n <= Reach(runs, requests, fetched) <==>
            n == 0 || ((forall i :: 0 <= i < n ==> Usable(runs[i], fetched)) && requests + CostOf(runs[..n]) <= 100)
    decreases n
  {
    if n > 0 {
      var m := n - 1;
      TakenRuns(runs, fetched, n, m);
      var spent := requests + Cost(runs[0]);
      ReachExactly(runs[1..], spent, fetched, m);
      assert Judged(runs[0], requests, fetched).Take? <==> Usable(runs[0], fetched) && spent <= REQUESTS;
    }
  }

  lemma TakenRuns(runs: seq<Run>, fetched: string -> bool, n: nat, m: nat)
    requires n == m + 1 <= |runs|
    ensures CostOf(runs[..n]) == Cost(runs[0]) + CostOf(runs[1..][..m]) && (m == 0 ==> CostOf(runs[1..][..m]) == 0)
    ensures (forall i :: 0 <= i < n ==> Usable(runs[i], fetched)) <==>
            Usable(runs[0], fetched) && forall i :: 0 <= i < m ==> Usable(runs[1..][i], fetched)
  {
    assert runs[..n][1..] == runs[1..][..m];
    forall i | 1 <= i < n
      ensures runs[i] == runs[1..][i - 1]
    {}
  }

  /** A request for each artifact. */
  lemma {:induction false} CostOneMore(runs: seq<Run>, run: Run)
    requires run.listing.Listed?
    ensures CostOf([]) == 0 && CostOf(runs + [run]) == CostOf(runs) + |run.listing.items|
  {
    if runs == [] {
      assert [] + [run] == [run] && [run][1..] == [];
    } else {
      assert (runs + [run])[1..] == runs[1..] + [run];
      CostOneMore(runs[1..], run);
    }
  }

  /** The pages of a completed run's listing count as long as every run before it is completed. */
  lemma {:induction false} PagesOneMore(done: seq<Run>, run: Run, rest: seq<Run>)
    requires forall i :: 0 <= i < |done| ==> done[i].completed
    ensures
      && ListingPages([]) == 0
      && (!run.completed ==> ListingPages(done + [run] + rest) == ListingPages(done))
      && (run.completed && run.listing.Refused? ==>
            ListingPages(done + [run] + rest) == ListingPages(done) + ListingPages(rest))
      && (run.completed && run.listing.Listed? ==>
            ListingPages(done + [run] + rest) == ListingPages(done) + run.listing.pages + ListingPages(rest))
  {
    var all := done + [run] + rest;
    if done == [] {
      assert all[0] == run && all[1..] == rest;
    } else {
      assert all[1..] == done[1..] + [run] + rest;
      PagesOneMore(done[1..], run, rest);
    }
  }

  /** The record was taken: it is one of a run that the search reached. */
  predicate FromTaken(runs: seq<Run>, requests: nat, fetched: string -> bool, r: Record) {
    exists run :: run in runs[..Reach(runs, requests, fetched)] && HasRecord(run, r)
  }

  predicate HasRecord(run: Run, r: Record) {
    Readable(run) && r in RecordsOf(run)
  }

  lemma TakenFirst(runs: seq<Run>, requests: nat, fetched: string -> bool, r: Record)
    requires runs != [] && Judged(runs[0], requests, fetched).Take?
    ensures FromTaken(runs, requests, fetched, r) <==>
            HasRecord(runs[0], r) || FromTaken(runs[1..], requests + Cost(runs[0]), fetched, r)
  {
    var n := Reach(runs, requests, fetched);
    assert runs[..n] == [runs[0]] + runs[1..][..n - 1];
  }

  lemma FoundFirst(runs: seq<Run>, requests: nat, fetched: string -> bool, f: Finding)
    requires runs != [] && Judged(runs[0], requests, fetched).Take?
    ensures f in Found(runs, requests, fetched) <==>
            || (HasRecord(runs[0], f.record) && f == FindingOf(f.record))
            || f in Found(runs[1..], requests + Cost(runs[0]), fetched)
  {
    InFindings(RecordsOf(runs[0]), f);
  }

  lemma {:induction false} FoundExactly(runs: seq<Run>, requests: nat, fetched: string -> bool, f: Finding)
    ensures f in Found(runs, requests, fetched) <==> FromTaken(runs, requests, fetched, f.record) && f == FindingOf(f.record)
  {
    if runs == [] || !Judged(runs[0], requests, fetched).Take? {
      FoundNothing(runs, requests, fetched, f);
    } else {
      var rest, spent := runs[1..], requests + Cost(runs[0]);
      FoundExactly(rest, spent, fetched, f);
      TakenFirst(runs, requests, fetched, f.record);
      FoundFirst(runs, requests, fetched, f);
      FoundOrLater(
        f in Found(runs, requests, fetched), f in Found(rest, spent, fetched), HasRecord(runs[0], f.record),
        FromTaken(rest, spent, fetched, f.record), FromTaken(runs, requests, fetched, f.record), f == FindingOf(f.record));
    }
  }

  lemma FoundOrLater(found: bool, later: bool, here: bool, takenLater: bool, taken: bool, own: bool)
    requires (later <==> takenLater && own) && (taken <==> here || takenLater) && (found <==> (here && own) || later)
    ensures found <==> taken && own
  {
  }

  lemma FoundNothing(runs: seq<Run>, requests: nat, fetched: string -> bool, f: Finding)
    requires runs == [] || !Judged(runs[0], requests, fetched).Take?
    ensures f !in Found(runs, requests, fetched) && !FromTaken(runs, requests, fetched, f.record)
  {
  }

  lemma InFindings(records: seq<Record>, f: Finding)
    ensures f in FindingsOf(records) <==> f.record in records && f == FindingOf(f.record)
  {
    if f.record in records && f == FindingOf(f.record) {
      var i :| 0 <= i < |records| && records[i] == f.record;
      assert FindingsOf(records)[i] == f;
    }
  }

  /** A run's records are looked at with the later attempts first, and none is left out. */
  lemma LaterAttemptsFirst(run: Run)
    requires Readable(run)
    ensures forall i, j :: 0 <= i < j < |RecordsOf(run)| ==> RecordsOf(run)[i].attempt >= RecordsOf(run)[j].attempt
    ensures forall r :: r in RecordsOf(run) <==> r in Contents(run.listing.items)
  {
    SortedFacts(Contents(run.listing.items), NewestAttempt());
    forall i, j | 0 <= i < j < |RecordsOf(run)|
      ensures RecordsOf(run)[i].attempt >= RecordsOf(run)[j].attempt
    {
      assert NewestAttempt()(RecordsOf(run)[i]) <= NewestAttempt()(RecordsOf(run)[j]);
    }
  }

  /** `x` is looked at before `y`: its run is listed before, or it is the same run and no earlier an attempt. */
  ghost predicate Before(runs: seq<Run>, x: Record, y: Record) {
    exists a: nat, b: nat :: BeforeAt(runs, a, b, x, y)
  }

  ghost predicate BeforeAt(runs: seq<Run>, a: nat, b: nat, x: Record, y: Record) {
    a <= b < |runs| && HasRecord(runs[a], x) && HasRecord(runs[b], y) && (a == b ==> x.attempt >= y.attempt)
  }

  lemma BeforeInTail(runs: seq<Run>, x: Record, y: Record)
    requires runs != [] && Before(runs[1..], x, y)
    ensures Before(runs, x, y)
  {
    var a: nat, b: nat :| BeforeAt(runs[1..], a, b, x, y);
    var c, d := a + 1, b + 1;
    assert BeforeAt(runs, c, d, x, y);
  }

  lemma BeforeInFirst(runs: seq<Run>, i: nat, j: nat)
    requires runs != [] && Readable(runs[0]) && i < j < |RecordsOf(runs[0])|
    ensures Before(runs, RecordsOf(runs[0])[i], RecordsOf(runs[0])[j])
  {
    LaterAttemptsFirst(runs[0]);
    assert BeforeAt(runs, 0, 0, RecordsOf(runs[0])[i], RecordsOf(runs[0])[j]);
  }

  lemma BeforeAcross(runs: seq<Run>, requests: nat, fetched: string -> bool, x: Record, y: Record)
    requires runs != [] && HasRecord(runs[0], x) && FromTaken(runs[1..], requests, fetched, y)
    ensures Before(runs, x, y)
  {
    var n := Reach(runs[1..], requests, fetched);
    var run :| run in runs[1..][..n] && HasRecord(run, y);
    var k :| 0 <= k < n && runs[1..][k] == run;
    var b: nat := k + 1;
    assert runs[b] == run;
    assert BeforeAt(runs, 0, b, x, y);
  }

  lemma FindingAt(records: seq<Record>, later: seq<Finding>, i: nat)
    requires i < |records| + |later|
    ensures (FindingsOf(records) + later)[i].record == if i < |records| then records[i] else later[i - |records|].record
  {
  }

  lemma BeforeHere(
    runs: seq<Run>, requests: nat, fetched: string -> bool, records: seq<Record>, later: seq<Finding>, i: nat, j: nat)
    requires runs != [] && Readable(runs[0]) && records == RecordsOf(runs[0]) && i < |records|
    requires later == Found(runs[1..], requests, fetched) && i < j < |records| + |later|
    ensures
      var all := FindingsOf(records) + later;
      Before(runs, all[i].record, all[j].record)
  {
    FindingAt(records, later, i);
    FindingAt(records, later, j);
    if j < |records| {
      BeforeInFirst(runs, i, j);
    } else {
      FoundExactly(runs[1..], requests, fetched, later[j - |records|]);
      BeforeAcross(runs, requests, fetched, records[i], later[j - |records|].record);
    }
  }

  lemma BeforeLater(runs: seq<Run>, records: seq<Record>, later: seq<Finding>, i: nat, j: nat)
    requires runs != [] && NewestFirst(runs[1..], later) && |records| <= i < j < |records| + |later|
    ensures
      var all := FindingsOf(records) + later;
      Before(runs, all[i].record, all[j].record)
  {
    var k, l := i - |records|, j - |records|;
    FindingAt(records, later, i);
    FindingAt(records, later, j);
    BeforeInTail(runs, later[k].record, later[l].record);
  }

  ghost predicate NewestFirst(runs: seq<Run>, found: seq<Finding>) {
    forall i: nat, j: nat :: i < j < |found| ==> Before(runs, found[i].record, found[j].record)
  }

  lemma OneRunMore(
    runs: seq<Run>, requests: nat, fetched: string -> bool, records: seq<Record>, later: seq<Finding>, all: seq<Finding>)
    requires runs != [] && Readable(runs[0]) && records == RecordsOf(runs[0])
    requires later == Found(runs[1..], requests, fetched) && NewestFirst(runs[1..], later)
    requires all == FindingsOf(records) + later
    ensures NewestFirst(runs, all)
  {
    forall i: nat, j: nat | i < j < |all|
      ensures Before(runs, all[i].record, all[j].record)
    {
      if i < |records| {
        BeforeHere(runs, requests, fetched, records, later, i, j);
      } else {
        BeforeLater(runs, records, later, i, j);
      }
    }
  }

  /** The findings come newest first: run by run as listed, and within a run the later attempts first. */
  lemma {:induction false} FoundNewestFirst(runs: seq<Run>, requests: nat, fetched: string -> bool)
    ensures NewestFirst(runs, Found(runs, requests, fetched))
  {
    if runs != [] && Judged(runs[0], requests, fetched).Take? {
      var spent := requests + Cost(runs[0]);
      FoundNewestFirst(runs[1..], spent, fetched);
      OneRunMore(
        runs, spent, fetched, RecordsOf(runs[0]), Found(runs[1..], spent, fetched), Found(runs, requests, fetched));
    }
  }

  /* ---- choose ---- */

  type Key = (int, int)

  datatype Entry = Entry(run: int, attempt: int, commit: string, head: string, tests: set<Test>)

  function KeyOf(r: Record): Key {
    (r.run, r.attempt)
  }

  function EntryKey(e: Entry): Key {
    (e.run, e.attempt)
  }

  /** The first finding, in the order they are looked at, that lets the test be reused. */
  predicate FirstToPass(found: seq<Finding>, i: nat, t: Test) {
    i < |found| && t in found[i].passed && forall j :: 0 <= j < i ==> t !in found[j].passed
  }

  ghost predicate Owns(found: seq<Finding>, key: Key, t: Test) {
    exists i: nat :: FirstToPass(found, i, t) && KeyOf(found[i].record) == key
  }

  function Place(entries: seq<Entry>, key: Key): (i: nat)
    ensures i <= |entries|
    ensures i < |entries| ==> EntryKey(entries[i]) == key
    ensures i == |entries| ==> forall e :: e in entries ==> EntryKey(e) != key
  {
    if entries == [] || EntryKey(entries[0]) == key then 0 else 1 + Place(entries[1..], key)
  }

  /** The entries for the findings so far: one for each record's run and attempt, with the tests it owns. */
  ghost predicate Entries(entries: seq<Entry>, found: seq<Finding>, barred: set<Test>) {
    && (forall i, j :: 0 <= i < j < |entries| ==> EntryKey(entries[i]) != EntryKey(entries[j]))
    && (forall e :: e in entries ==> EntryHolds(e, found, barred))
    && (forall f :: f in found ==> exists e :: e in entries && EntryKey(e) == KeyOf(f.record))
  }

  ghost predicate EntryHolds(e: Entry, found: seq<Finding>, barred: set<Test>) {
    && (forall t :: t in e.tests <==> t !in barred && Owns(found, EntryKey(e), t))
    && (exists f :: f in found && KeyOf(f.record) == EntryKey(e) && f.record.commit == e.commit && f.record.head == e.head)
  }

  predicate Passes(found: seq<Finding>, t: Test) {
    exists f :: f in found && t in f.passed
  }

  lemma {:induction false} PassesFirst(found: seq<Finding>, t: Test) returns (i: nat)
    requires Passes(found, t)
    ensures FirstToPass(found, i, t)
  {
    i := 0;
    while t !in found[i].passed
      invariant i < |found| && Passes(found[i..], t) && forall j :: 0 <= j < i ==> t !in found[j].passed
      decreases |found| - i
    {
      assert found[i..] == [found[i]] + found[i + 1..];
      i := i + 1;
    }
  }

  /** One more finding owns what nothing before it passed. */
  lemma OwnsOneMore(found: seq<Finding>, f: Finding, key: Key, t: Test)
    ensures Owns(found + [f], key, t) <==>
            Owns(found, key, t) || (KeyOf(f.record) == key && t in f.passed && !Passes(found, t))
  {
    var longer := found + [f];
    if i: nat :| FirstToPass(longer, i, t) && KeyOf(longer[i].record) == key {
      if i < |found| {
        assert forall j :: 0 <= j < i ==> longer[j] == found[j];
        assert FirstToPass(found, i, t);
      } else {
        forall g | g in found
          ensures t !in g.passed
        {
          var j :| 0 <= j < |found| && found[j] == g;
          assert longer[j] == g;
        }
      }
    }
    if i: nat :| FirstToPass(found, i, t) && KeyOf(found[i].record) == key {
      assert FirstToPass(longer, i, t);
    }
    if KeyOf(f.record) == key && t in f.passed && !Passes(found, t) {
      assert FirstToPass(longer, |found|, t);
    }
  }

  function Put(entries: seq<Entry>, r: Record, kept: set<Test>): seq<Entry> {
    var i := Place(entries, KeyOf(r));
    if i < |entries| then entries[i := entries[i].(tests := entries[i].tests + kept)]
    else entries + [Entry(r.run, r.attempt, r.commit, r.head, kept)]
  }

  lemma EntryStays(e: Entry, found: seq<Finding>, f: Finding, barred: set<Test>, kept: set<Test>)
    requires EntryHolds(e, found, barred)
    requires forall t :: t in kept <==> t in f.passed && t !in barred && !Passes(found, t)
    ensures EntryKey(e) != KeyOf(f.record) ==> EntryHolds(e, found + [f], barred)
    ensures EntryKey(e) == KeyOf(f.record) ==> EntryHolds(e.(tests := e.tests + kept), found + [f], barred)
  {
    forall t
      ensures Owns(found + [f], EntryKey(e), t) <==>
              Owns(found, EntryKey(e), t) || (KeyOf(f.record) == EntryKey(e) && t in f.passed && !Passes(found, t))
    {
      OwnsOneMore(found, f, EntryKey(e), t);
    }
  }

  lemma EntryBegins(found: seq<Finding>, f: Finding, barred: set<Test>, kept: set<Test>)
    requires forall g :: g in found ==> KeyOf(g.record) != KeyOf(f.record)
    requires forall t :: t in kept <==> t in f.passed && t !in barred && !Passes(found, t)
    ensures EntryHolds(Entry(f.record.run, f.record.attempt, f.record.commit, f.record.head, kept), found + [f], barred)
  {
    var key := KeyOf(f.record);
    assert f in found + [f];
    forall t
      ensures Owns(found + [f], key, t) <==> t in f.passed && !Passes(found, t)
    {
      OwnsOneMore(found, f, key, t);
      forall i: nat | FirstToPass(found, i, t)
        ensures KeyOf(found[i].record) != key
      {
        assert found[i] in found;
      }
    }
  }

  lemma PlaceOf(entries: seq<Entry>, key: Key, k: nat)
    requires forall i, j :: 0 <= i < j < |entries| ==> EntryKey(entries[i]) != EntryKey(entries[j])
    requires k < |entries|
    ensures k == Place(entries, key) <==> EntryKey(entries[k]) == key
  {
    assert entries[k] in entries;
  }

  /** What stands at a place after a `Put`: a new entry, the old one with more tests, or the old one. */
  lemma PutAt(entries: seq<Entry>, r: Record, kept: set<Test>, e: Entry)
    requires forall i, j :: 0 <= i < j < |entries| ==> EntryKey(entries[i]) != EntryKey(entries[j])
    requires e in Put(entries, r, kept)
    ensures
      || (exists d :: d in entries && EntryKey(d) == KeyOf(r) && e == d.(tests := d.tests + kept))
      || (e in entries && EntryKey(e) != KeyOf(r))
      || (e == Entry(r.run, r.attempt, r.commit, r.head, kept) && forall d :: d in entries ==> EntryKey(d) != KeyOf(r))
  {
    var put := Put(entries, r, kept);
    var k :| 0 <= k < |put| && put[k] == e;
    if k < |entries| {
      PlaceOf(entries, KeyOf(r), k);
      assert entries[k] in entries;
    }
  }

  lemma PutHolds(entries: seq<Entry>, found: seq<Finding>, f: Finding, barred: set<Test>, kept: set<Test>, e: Entry)
    requires Entries(entries, found, barred)
    requires forall t :: t in kept <==> t in f.passed && t !in barred && !Passes(found, t)
    requires e in Put(entries, f.record, kept)
    ensures EntryHolds(e, found + [f], barred)
  {
    PutAt(entries, f.record, kept, e);
    if d :| d in entries && EntryKey(d) == KeyOf(f.record) && e == d.(tests := d.tests + kept) {
      EntryStays(d, found, f, barred, kept);
    } else if e in entries && EntryKey(e) != KeyOf(f.record) {
      EntryStays(e, found, f, barred, kept);
    } else {
      EntryBegins(found, f, barred, kept);
    }
  }

  lemma PutAllHold(entries: seq<Entry>, found: seq<Finding>, f: Finding, barred: set<Test>, kept: set<Test>)
    requires Entries(entries, found, barred)
    requires forall t :: t in kept <==> t in f.passed && t !in barred && !Passes(found, t)
    ensures forall e :: e in Put(entries, f.record, kept) ==> EntryHolds(e, found + [f], barred)
  {
    var put := Put(entries, f.record, kept);
    forall e | e in put
      ensures EntryHolds(e, found + [f], barred)
    {
      PutHolds(entries, found, f, barred, kept, e);
    }
  }

  lemma PutKeepsKeys(entries: seq<Entry>, r: Record, kept: set<Test>)
    requires forall i, j :: 0 <= i < j < |entries| ==> EntryKey(entries[i]) != EntryKey(entries[j])
    ensures
      var put := Put(entries, r, kept);
      && (forall k :: 0 <= k < |entries| ==> k < |put| && EntryKey(put[k]) == EntryKey(entries[k]))
      && (forall i, j :: 0 <= i < j < |put| ==> EntryKey(put[i]) != EntryKey(put[j]))
      && Place(entries, KeyOf(r)) < |put| && EntryKey(put[Place(entries, KeyOf(r))]) == KeyOf(r)
  {
    var i := Place(entries, KeyOf(r));
    if i == |entries| {
      forall k | 0 <= k < |entries|
        ensures EntryKey(entries[k]) != KeyOf(r)
      {
        assert entries[k] in entries;
      }
    }
  }

  lemma PutKeys(entries: seq<Entry>, found: seq<Finding>, f: Finding, kept: set<Test>)
    requires forall i, j :: 0 <= i < j < |entries| ==> EntryKey(entries[i]) != EntryKey(entries[j])
    requires forall g :: g in found ==> exists e :: e in entries && EntryKey(e) == KeyOf(g.record)
    ensures
      var put := Put(entries, f.record, kept);
      && (forall i, j :: 0 <= i < j < |put| ==> EntryKey(put[i]) != EntryKey(put[j]))
      && (forall g :: g in found + [f] ==> exists e :: e in put && EntryKey(e) == KeyOf(g.record))
  {
    var put, i := Put(entries, f.record, kept), Place(entries, KeyOf(f.record));
    PutKeepsKeys(entries, f.record, kept);
    assert put[i] in put;
    forall g | g in found
      ensures exists e :: e in put && EntryKey(e) == KeyOf(g.record)
    {
      var e :| e in entries && EntryKey(e) == KeyOf(g.record);
      var k :| 0 <= k < |entries| && entries[k] == e;
      assert put[k] in put;
    }
  }

  /** Where a run's attempt is first looked at. */
  function FirstSeen(found: seq<Finding>, key: Key): (i: nat)
    ensures i <= |found|
    ensures (exists f :: f in found && KeyOf(f.record) == key) ==> i < |found|
  {
    if found == [] then 0
    else
      var i := FirstSeen(found[..|found| - 1], key);
      if i < |found| - 1 || KeyOf(found[|found| - 1].record) == key then i else |found|
  }

  /** The entries come in the order in which their findings were first looked at. */
  predicate InFindingOrder(entries: seq<Entry>, found: seq<Finding>) {
    forall i, j :: 0 <= i < j < |entries| ==>
      FirstSeen(found, EntryKey(entries[i])) < FirstSeen(found, EntryKey(entries[j]))
  }

  lemma SeenOneMore(found: seq<Finding>, f: Finding, key: Key)
    ensures FirstSeen(found, key) < |found| ==> FirstSeen(found + [f], key) == FirstSeen(found, key)
    ensures FirstSeen(found, key) == |found| && KeyOf(f.record) == key ==> FirstSeen(found + [f], key) == |found|
  {
    assert (found + [f])[..|found|] == found;
  }

  lemma EntrySeen(entries: seq<Entry>, found: seq<Finding>, barred: set<Test>, k: nat)
    requires Entries(entries, found, barred) && k < |entries|
    ensures FirstSeen(found, EntryKey(entries[k])) < |found|
  {
    assert entries[k] in entries;
    assert EntryHolds(entries[k], found, barred);
  }

  lemma NewSeen(entries: seq<Entry>, found: seq<Finding>, barred: set<Test>, key: Key)
    requires Entries(entries, found, barred) && Place(entries, key) == |entries|
    ensures FirstSeen(found, key) == |found|
  {
    forall g | g in found
      ensures KeyOf(g.record) != key
    {
      var e :| e in entries && EntryKey(e) == KeyOf(g.record);
    }
    NotSeen(found, key);
  }

  /** An entry's place in the order does not move when one more finding is looked at; a new one comes last. */
  lemma SeenAfterPut(entries: seq<Entry>, put: seq<Entry>, found: seq<Finding>, f: Finding, k: nat)
    requires k < |put| <= |entries| + 1
    requires k < |entries| ==>
               EntryKey(put[k]) == EntryKey(entries[k]) && FirstSeen(found, EntryKey(entries[k])) < |found|
    requires k == |entries| ==> EntryKey(put[k]) == KeyOf(f.record) && FirstSeen(found, KeyOf(f.record)) == |found|
    ensures FirstSeen(found + [f], EntryKey(put[k])) ==
            if k < |entries| then FirstSeen(found, EntryKey(entries[k])) else |found|
  {
    SeenOneMore(found, f, EntryKey(put[k]));
  }

  lemma OrderedPut(entries: seq<Entry>, put: seq<Entry>, found: seq<Finding>, f: Finding)
    requires InFindingOrder(entries, found) && |entries| <= |put| <= |entries| + 1
    requires forall k :: 0 <= k < |entries| ==>
               EntryKey(put[k]) == EntryKey(entries[k]) && FirstSeen(found, EntryKey(entries[k])) < |found|
    requires |put| > |entries| ==>
               EntryKey(put[|entries|]) == KeyOf(f.record) && FirstSeen(found, KeyOf(f.record)) == |found|
    ensures InFindingOrder(put, found + [f])
  {
    forall i, j | 0 <= i < j < |put|
      ensures FirstSeen(found + [f], EntryKey(put[i])) < FirstSeen(found + [f], EntryKey(put[j]))
    {
      SeenAfterPut(entries, put, found, f, i);
      SeenAfterPut(entries, put, found, f, j);
    }
  }

  lemma PutKeepsOrder(entries: seq<Entry>, found: seq<Finding>, f: Finding, kept: set<Test>, barred: set<Test>)
    requires Entries(entries, found, barred) && InFindingOrder(entries, found)
    ensures InFindingOrder(Put(entries, f.record, kept), found + [f])
  {
    PutKeepsKeys(entries, f.record, kept);
    forall k | 0 <= k < |entries|
      ensures FirstSeen(found, EntryKey(entries[k])) < |found|
    {
      EntrySeen(entries, found, barred, k);
    }
    if Place(entries, KeyOf(f.record)) == |entries| {
      NewSeen(entries, found, barred, KeyOf(f.record));
    }
    OrderedPut(entries, Put(entries, f.record, kept), found, f);
  }

  lemma {:induction false} NotSeen(found: seq<Finding>, key: Key)
    requires forall g :: g in found ==> KeyOf(g.record) != key
    ensures FirstSeen(found, key) == |found|
  {
    if found != [] {
      NotSeen(found[..|found| - 1], key);
      assert found[|found| - 1] in found;
    }
  }

  /** The loop of `choose` has looked at `found`. */
  ghost predicate Choosing(entries: seq<Entry>, taken: set<Test>, found: seq<Finding>, barred: set<Test>) {
    && Entries(entries, found, barred) && InFindingOrder(entries, found)
    && forall t :: t in taken <==> t !in barred && Passes(found, t)
  }

  lemma PassesOneMore(found: seq<Finding>, f: Finding, t: Test)
    ensures Passes(found + [f], t) <==> Passes(found, t) || t in f.passed
  {
    assert f in found + [f];
  }

  lemma TakenOn(taken: set<Test>, found: seq<Finding>, f: Finding, barred: set<Test>, kept: set<Test>)
    requires forall t :: t in taken <==> t !in barred && Passes(found, t)
    requires kept == f.passed - barred - taken
    ensures forall t :: t in taken + kept <==> t !in barred && Passes(found + [f], t)
    ensures forall t :: t in kept <==> t in f.passed && t !in barred && !Passes(found, t)
  {
    forall t
      ensures Passes(found + [f], t) <==> Passes(found, t) || t in f.passed
    {
      PassesOneMore(found, f, t);
    }
  }

  lemma EntriesOn(entries: seq<Entry>, found: seq<Finding>, f: Finding, barred: set<Test>, kept: set<Test>)
    requires Entries(entries, found, barred)
    requires forall t :: t in kept <==> t in f.passed && t !in barred && !Passes(found, t)
    ensures Entries(Put(entries, f.record, kept), found + [f], barred)
  {
    PutAllHold(entries, found, f, barred, kept);
    PutKeys(entries, found, f, kept);
  }

  lemma ChoosingOn(entries: seq<Entry>, taken: set<Test>, found: seq<Finding>, f: Finding, barred: set<Test>, kept: set<Test>)
    requires Choosing(entries, taken, found, barred) && kept == f.passed - barred - taken
    ensures Choosing(Put(entries, f.record, kept), taken + kept, found + [f], barred)
  {
    TakenOn(taken, found, f, barred, kept);
    EntriesOn(entries, found, f, barred, kept);
    PutKeepsOrder(entries, found, f, kept, barred);
  }

  lemma ChoosingStarts(barred: set<Test>)
    ensures Choosing([], {}, [], barred)
  {
  }

  /**
   * `choose`: every test that some finding passed and nothing forbids, under the first record that passed it, the
   * records in the order in which they are looked at.
   */
  method Choose(found: seq<Finding>, vetoed: set<Test>, dev: set<Test>) returns (entries: seq<Entry>)
    ensures Entries(entries, found, vetoed + AllVetoes(found) + dev) && InFindingOrder(entries, found)
  {
    var barred := vetoed + AllVetoes(found);
    entries := [];
    var taken: set<Test> := {};
    ChoosingStarts(barred + dev);
    assert found[..0] == [];
    for i := 0 to |found|
      invariant Choosing(entries, taken, found[..i], barred + dev)
    {
      var f := found[i];
      var kept := f.passed - barred - dev - taken;
      assert kept == f.passed - (barred + dev) - taken;
      ChoosingOn(entries, taken, found[..i], f, barred + dev, kept);
      assert found[..i + 1] == found[..i] + [f];
      entries := Put(entries, f.record, kept);
      taken := taken + kept;
    }
    assert found[..|found|] == found;
  }

  /* ---- what is reused ---- */

  /** No two entries share a test. */
  lemma EntriesAreDisjoint(entries: seq<Entry>, found: seq<Finding>, barred: set<Test>, i: nat, j: nat)
    requires Entries(entries, found, barred) && i < j < |entries|
    ensures entries[i].tests !! entries[j].tests
  {
    assert entries[i] in entries && entries[j] in entries;
    forall t | t in entries[i].tests
      ensures t !in entries[j].tests
    {
      if t in entries[j].tests {
        OneOwner(found, EntryKey(entries[i]), EntryKey(entries[j]), t);
      }
    }
  }

  lemma OneOwner(found: seq<Finding>, a: Key, b: Key, t: Test)
    requires Owns(found, a, t) && Owns(found, b, t)
    ensures a == b
  {
    var i: nat :| FirstToPass(found, i, t) && KeyOf(found[i].record) == a;
    var j: nat :| FirstToPass(found, j, t) && KeyOf(found[j].record) == b;
    assert i == j;
  }

  predicate Reused(entries: seq<Entry>, t: Test) {
    exists e :: e in entries && t in e.tests
  }

  lemma ReusedExactly(entries: seq<Entry>, found: seq<Finding>, barred: set<Test>, t: Test)
    requires Entries(entries, found, barred)
    ensures Reused(entries, t) <==> Passes(found, t) && t !in barred
  {
    if e :| e in entries && t in e.tests {
      var i: nat :| FirstToPass(found, i, t) && KeyOf(found[i].record) == EntryKey(e);
      assert found[i] in found;
    }
    if Passes(found, t) && t !in barred {
      var i := PassesFirst(found, t);
      assert found[i] in found;
      var e :| e in entries && EntryKey(e) == KeyOf(found[i].record);
      assert Owns(found, EntryKey(e), t);
    }
  }

  /** The plan for a list of earlier runs. */
  method BranchTests(runs: seq<Run>, polls: nat, fetched: string -> bool, dev: set<Test>) returns (entries: seq<Entry>)
    ensures ReusesExactly(entries, runs, Asked(runs, polls), fetched, dev)
    ensures
      var found := Found(runs, Asked(runs, polls), fetched);
      && Entries(entries, found, FinalVetoes(runs, Asked(runs, polls), fetched) + AllVetoes(found) + dev)
      && InFindingOrder(entries, found) && NewestFirst(runs, found)
  {
    var found, vetoes := Considered(runs, polls, fetched);
    entries := Choose(found, vetoes, dev);
    PlanReusesExactly(entries, runs, Asked(runs, polls), fetched, dev);
    FoundNewestFirst(runs, Asked(runs, polls), fetched);
  }

  ghost predicate ReusesExactly(
    entries: seq<Entry>, runs: seq<Run>, requests: nat, fetched: string -> bool, dev: set<Test>)
  {
    forall t :: Reused(entries, t) <==> MayReuse(runs, requests, fetched, dev, t)
  }

  lemma PlanReusesExactly(
    entries: seq<Entry>, runs: seq<Run>, requests: nat, fetched: string -> bool, dev: set<Test>)
    requires
      var found := Found(runs, requests, fetched);
      Entries(entries, found, FinalVetoes(runs, requests, fetched) + AllVetoes(found) + dev)
    ensures ReusesExactly(entries, runs, requests, fetched, dev)
  {
    forall t
      ensures Reused(entries, t) <==> MayReuse(runs, requests, fetched, dev, t)
    {
      ReusedByRuns(entries, runs, requests, fetched, dev, t);
    }
  }

  lemma ReusedByRuns(
    entries: seq<Entry>, runs: seq<Run>, requests: nat, fetched: string -> bool, dev: set<Test>, t: Test)
    requires
      var found := Found(runs, requests, fetched);
      Entries(entries, found, FinalVetoes(runs, requests, fetched) + AllVetoes(found) + dev)
    ensures Reused(entries, t) <==> MayReuse(runs, requests, fetched, dev, t)
  {
    var found := Found(runs, requests, fetched);
    ReusedExactly(entries, found, FinalVetoes(runs, requests, fetched) + AllVetoes(found) + dev, t);
    InAllVetoes(found, t);
    PassesByRecord(runs, requests, fetched, t);
  }

  /** The record says that the test passed, and nothing it depends on changed since. */
  predicate StillPasses(r: Record, t: Test) {
    t in r.passed && t in r.known && t !in r.invalidated
  }

  /** The test failed or was flaky, and nothing known says that this no longer holds. */
  predicate StillFails(r: Record, t: Test) {
    (t in r.failed || t in r.flaky) && (t in r.known ==> t !in r.invalidated)
  }

  /**
   * A test is reused exactly when a taken record says it still passes, no taken record says it still fails, the
   * run at which the search ends does not forbid it, and the base branch's plan does not cover it.
   */
  ghost predicate MayReuse(runs: seq<Run>, requests: nat, fetched: string -> bool, dev: set<Test>, t: Test) {
    && (exists r :: FromTaken(runs, requests, fetched, r) && StillPasses(r, t))
    && (forall r :: FromTaken(runs, requests, fetched, r) ==> !StillFails(r, t))
    && t !in FinalVetoes(runs, requests, fetched)
    && t !in dev
  }

  lemma PassesByRecord(runs: seq<Run>, requests: nat, fetched: string -> bool, t: Test)
    ensures Passes(Found(runs, requests, fetched), t) <==>
            exists r :: FromTaken(runs, requests, fetched, r) && StillPasses(r, t)
    ensures (exists f :: f in Found(runs, requests, fetched) && t in f.vetoes) <==>
            exists r :: FromTaken(runs, requests, fetched, r) && StillFails(r, t)
  {
    var found := Found(runs, requests, fetched);
    forall f | f in found
      ensures FromTaken(runs, requests, fetched, f.record) && f == FindingOf(f.record)
    {
      FoundExactly(runs, requests, fetched, f);
    }
    forall r | FromTaken(runs, requests, fetched, r)
      ensures FindingOf(r) in found
    {
      FoundExactly(runs, requests, fetched, FindingOf(r));
    }
    forall r
      ensures t in FindingOf(r).passed <==> StillPasses(r, t)
      ensures t in FindingOf(r).vetoes <==> StillFails(r, t)
    {}
  }

  /** The search ends at a run that could be read, but not compared: some commit of it is not there. */
  predicate EndsUncompared(runs: seq<Run>, requests: nat, fetched: string -> bool) {
    var n := Reach(runs, requests, fetched);
    n < |runs| && Readable(runs[n]) && requests + CostOf(runs[..n + 1]) <= REQUESTS
  }

  lemma EndsUncomparedLater(runs: seq<Run>, requests: nat, fetched: string -> bool)
    requires EndsUncompared(runs, requests, fetched) && Judged(runs[0], requests, fetched).Take?
    ensures EndsUncompared(runs[1..], requests + Cost(runs[0]), fetched)
    ensures runs[1..][Reach(runs[1..], requests + Cost(runs[0]), fetched)] == runs[Reach(runs, requests, fetched)]
  {
    var n := Reach(runs, requests, fetched);
    assert runs[..n + 1][1..] == runs[1..][..n];
  }

  lemma GivenUpForbids(records: seq<Record>, fetched: string -> bool, r: Record, t: Test)
    requires r in records && StillFails(r, t)
    ensures t in GivenUp(records, fetched)
  {
    InGivenUp(records, fetched, t);
    assert t in VetoesOf(r, fetched);
  }

  lemma CostOfOne(runs: seq<Run>)
    requires runs != []
    ensures CostOf(runs[..1]) == Cost(runs[0])
  {
    assert runs[..1][1..] == [];
  }

  /** Then what that run saw fail is not reused from a newer run either. */
  lemma {:induction false} LastRunForbids(runs: seq<Run>, requests: nat, fetched: string -> bool, r: Record, t: Test)
    requires EndsUncompared(runs, requests, fetched)
    requires HasRecord(runs[Reach(runs, requests, fetched)], r) && StillFails(r, t)
    ensures t in FinalVetoes(runs, requests, fetched)
  {
    if Judged(runs[0], requests, fetched).Take? {
      EndsUncomparedLater(runs, requests, fetched);
      LastRunForbids(runs[1..], requests + Cost(runs[0]), fetched, r, t);
    } else {
      CostOfOne(runs);
      GivenUpForbids(RecordsOf(runs[0]), fetched, r, t);
    }
  }
}
