/** The job graph of a workflow and its closure (scripts/ci_queue_retry.py). */
module QueueRetry {
  // The closure is a bounded loop; its specification is reachability over `needs` edges.

  import opened Wrappers
  import Text

  type JobId = string

  const SHARD := "unit"
  const RERUN_ID := "unit-rerun"
  const SHARD_POLLER := "python -m scripts.ci_gate_shards"
  const QUEUE_POLLER := "python3 -m scripts.ci_gate_queue"
  const SUMMARY_RULE := "${{ github.event_name == 'merge_group' && 'Queue gate summary' || 'Gate — Required' }}"
  const EARLY_RULE := "${{ github.event_name == 'merge_group' && 'Gate — Required' || 'queue-fail-fast' }}"

  datatype Needs = NoNeeds | OneNeed(id: JobId) | Needs(ids: seq<JobId>)

  /** One job of the workflow file: its `name`, its `needs` and the `run` text of its steps. */
  datatype Spec = Spec(name: Option<string>, needs: Needs, runs: seq<string>)

  /** The `jobs` mapping with its insertion order. */
  datatype Workflow = Workflow(order: seq<JobId>, jobs: map<JobId, Spec>) {
    ghost predicate Valid() {
      forall j :: j in order <==> j in jobs
    }
  }

  function BaseName(name: string): string {
    Text.Strip(Text.Before(name, " ("))
  }

  lemma BaseNameIdempotent(name: string)
    ensures BaseName(BaseName(name)) == BaseName(name)
  {
    var head := Text.Before(name, " (");
    Text.StripFacts(head);
    var base := Text.Strip(head);
    var lo: nat, hi: nat :| lo <= hi <= |head| && base == head[lo..hi];
    if Text.Contains(base, " (") {
      Text.PieceHoldsNoMore(head, lo, hi, " (");
    }
  }

  lemma {:induction false} BeforeParenthesis(base: string, rest: string)
    requires !Text.Contains(base, " (")
    ensures Text.Before(base + " (" + rest, " (") == base
  {
    var name := base + " (" + rest;
    if base == [] {
      assert name == " (" + rest;
    } else {
      TailOfName(base, rest, name);
      BeforeParenthesis(base[1..], rest);
    }
  }

  lemma TailOfName(base: string, rest: string, name: string)
    requires base != [] && name == base + " (" + rest && !Text.Contains(base, " (")
    ensures name[1..] == base[1..] + " (" + rest && name[0] == base[0] && !(" (" <= name)
  {
    assert name[1] == if |base| == 1 then ' ' else base[1];
  }

  /** A name is its own base, and the base of every matrix row that it heads, with white space at its ends or not. */
  lemma BaseOfMatrixRow(before: string, base: string, behind: string, rest: string)
    requires Text.AllSpace(before) && Text.AllSpace(behind) && Text.Trimmed(base)
    requires !Text.Contains(before + base + behind, " (")
    ensures BaseName(before + base + behind) == base
    ensures BaseName(before + base + behind + " (" + rest) == base
  {
    BeforeParenthesis(before + base + behind, rest);
    Text.StripPadded(before, base, behind);
  }

  lemma BaseOfShard(base: string, rest: string)
    requires !Text.Contains(base, " (") && Text.Trimmed(base)
    ensures BaseName(base) == base && BaseName(base + " (" + rest) == base
  {
    assert "" + base + "" == base;
    BaseOfMatrixRow("", base, "", rest);
  }

  function WrittenName(w: Workflow, j: JobId): string
    requires j in w.jobs
  {
    w.jobs[j].name.GetOr(j)
  }

  function JobNames(w: Workflow): (names: map<JobId, string>)
    ensures names.Keys == w.jobs.Keys
  {
    var names := map j | j in w.jobs :: WrittenName(w, j);
    if HasQueuePair(w) then
      names["gate-required" := "Queue gate summary"]["queue-fail-fast" := "Gate — Required"]
    else names
  }

  predicate HasQueuePair(w: Workflow) {
    && "gate-required" in w.jobs && WrittenName(w, "gate-required") == SUMMARY_RULE
    && "queue-fail-fast" in w.jobs && WrittenName(w, "queue-fail-fast") == EARLY_RULE
  }

  function Name(w: Workflow, j: JobId): string
    requires j in w.jobs
  {
    JobNames(w)[j]
  }

  /** A run of a merge group takes the second halves of the two rules as the names of their jobs. */
  lemma QueueNames(w: Workflow, j: JobId)
    requires "gate-required" in w.jobs && "queue-fail-fast" in w.jobs && j in w.jobs
    requires
      w.jobs["gate-required"].name ==
      Some("${{ github.event_name == 'merge_group' && 'Queue gate summary' || 'Gate — Required' }}")
    requires
      w.jobs["queue-fail-fast"].name ==
      Some("${{ github.event_name == 'merge_group' && 'Gate — Required' || 'queue-fail-fast' }}")
    ensures Name(w, "gate-required") == "Queue gate summary" && Name(w, "queue-fail-fast") == "Gate — Required"
    ensures j !in {"gate-required", "queue-fail-fast"} ==> Name(w, j) == w.jobs[j].name.GetOr(j)
  {
  }

  /** The job's own steps run one of the two polling scripts. */
  predicate Polls(spec: Spec) {
    exists i | 0 <= i < |spec.runs| ::
      Text.Contains(spec.runs[i], SHARD_POLLER) || Text.Contains(spec.runs[i], QUEUE_POLLER)
  }

  function PollingJobs(w: Workflow): set<string> {
    set j | j in w.jobs && Polls(w.jobs[j]) :: Name(w, j)
  }

  function Declared(spec: Spec): set<JobId> {
    match spec.needs
    case NoNeeds => {}
    case OneNeed(id) => {id}
    case Needs(ids) => set id | id in ids
  }

  /** The edges of one job: what it declares, and the shards that a job of a polling name watches. */
  function Edges(w: Workflow, j: JobId): set<JobId>
    requires j in w.jobs
  {
    Declared(w.jobs[j]) + if Name(w, j) in PollingJobs(w) then {SHARD, RERUN_ID} else {}
  }

  /** A job that runs a polling script waits for the shards and their reruns, whatever it declares. */
  lemma PollerWatchesShards(w: Workflow, j: JobId, before: string, behind: string)
    requires j in w.jobs
    requires
      || before + "python -m scripts.ci_gate_shards" + behind in w.jobs[j].runs
      || before + "python3 -m scripts.ci_gate_queue" + behind in w.jobs[j].runs
    ensures "unit" in Edges(w, j) && "unit-rerun" in Edges(w, j)
  {
    var shards, queue := before + SHARD_POLLER + behind, before + QUEUE_POLLER + behind;
    Text.ContainsAt(shards, SHARD_POLLER, |before|);
    Text.ContainsAt(queue, QUEUE_POLLER, |before|);
    var text := if shards in w.jobs[j].runs then shards else queue;
    var i :| 0 <= i < |w.jobs[j].runs| && w.jobs[j].runs[i] == text;
    assert Polls(w.jobs[j]);
  }

  /** A job waits for no more than it declares when no job of its name runs a polling script. */
  lemma OthersWatchNothing(w: Workflow, j: JobId)
    requires j in w.jobs
    requires forall k, run :: k in w.jobs && Name(w, k) == Name(w, j) && run in w.jobs[k].runs ==>
               && !Text.Contains(run, "python -m scripts.ci_gate_shards")
               && !Text.Contains(run, "python3 -m scripts.ci_gate_queue")
    ensures Edges(w, j) == Declared(w.jobs[j])
  {
    assert Name(w, j) !in PollingJobs(w);
  }

  /** `path` starts at `j`, follows at least one edge, and ends at `root`. */
  ghost predicate IsPath(w: Workflow, path: seq<JobId>, j: JobId, root: JobId) {
    && 2 <= |path| && path[0] == j && path[|path| - 1] == root
    && (forall i :: 0 <= i < |path| - 1 ==> path[i] in w.jobs && path[i + 1] in Edges(w, path[i]))
  }

  ghost predicate Reaches(w: Workflow, j: JobId, root: JobId) {
    exists path :: IsPath(w, path, j, root)
  }

  lemma EdgeReaches(w: Workflow, j: JobId, n: JobId, root: JobId)
    requires j in w.jobs && n in Edges(w, j)
    requires n == root || Reaches(w, n, root)
    ensures Reaches(w, j, root)
  {
    if n == root {
      assert IsPath(w, [j, n], j, root);
    } else {
      var path :| IsPath(w, path, n, root);
      assert IsPath(w, [j] + path, j, root);
    }
  }

  /** A job that reaches the root does so by an edge to the root or to another job that reaches it. */
  lemma ReachesByEdge(w: Workflow, j: JobId, root: JobId) returns (n: JobId)
    requires Reaches(w, j, root)
    ensures j in w.jobs && n in Edges(w, j) && (n == root || Reaches(w, n, root))
  {
    var path :| IsPath(w, path, j, root);
    assert path[0] in w.jobs && path[0 + 1] in Edges(w, path[0]);
    n := path[1];
    if 2 < |path| {
      assert IsPath(w, path[1..], n, root);
    }
  }

  /** The set added by one round of the closure loop. */
  function Round(w: Workflow, root: JobId, found: set<JobId>): set<JobId> {
    set j | j in w.jobs && Edges(w, j) * (found + {root}) != {}
  }

  lemma {:induction false} ClosedHoldsReaching(w: Workflow, root: JobId, found: set<JobId>, path: seq<JobId>, j: JobId)
    requires Round(w, root, found) <= found
    requires IsPath(w, path, j, root)
    ensures j in found
    decreases |path|
  {
    assert path[0] in w.jobs && path[0 + 1] in Edges(w, path[0]);
    if 2 < |path| {
      assert IsPath(w, path[1..], path[1], root);
      ClosedHoldsReaching(w, root, found, path[1..], path[1]);
    }
    assert path[1] in Edges(w, j) * (found + {root});
  }

  lemma RoundReaches(w: Workflow, root: JobId, found: set<JobId>, j: JobId)
    requires forall f :: f in found ==> Reaches(w, f, root)
    requires j in Round(w, root, found)
    ensures Reaches(w, j, root)
  {
    var n :| n in Edges(w, j) * (found + {root});
    EdgeReaches(w, j, n, root);
  }

  lemma ProperSubsetIsSmaller<T>(a: set<T>, b: set<T>)
    requires a < b
    ensures |a| < |b|
  {
    assert b == a + (b - a);
    assert |b| == |a| + |b - a|;
  }

  lemma SubsetOfEqualSize<T>(a: set<T>, b: set<T>)
    requires a <= b && |a| >= |b|
    ensures a == b
  {
    if a != b {
      ProperSubsetIsSmaller(a, b);
    }
  }

  /**
   * As many rounds as there are jobs reach the least fixed point on every graph, cyclic ones included:
   * until the set is closed every round adds a job.
   */
  method DependentIds(w: Workflow, root: JobId) returns (found: set<JobId>)
    ensures forall j :: j in found <==> Reaches(w, j, root)
  {
    found := {};
    for k := 0 to |w.jobs|
      invariant found <= w.jobs.Keys
      invariant forall j :: j in found ==> Reaches(w, j, root)
      invariant Round(w, root, found) <= found || k <= |found|
    {
      ghost var before := found;
      forall j | j in Round(w, root, found)
        ensures Reaches(w, j, root)
      {
        RoundReaches(w, root, found, j);
      }
      found := found + Round(w, root, found);
      if Round(w, root, before) <= before {
        assert found == before;
      } else {
        ProperSubsetIsSmaller(before, found);
      }
    }
    if !(Round(w, root, found) <= found) {
      SubsetOfEqualSize(found, w.jobs.Keys);
      assert false;
    }
    forall j | Reaches(w, j, root)
      ensures j in found
    {
      var path :| IsPath(w, path, j, root);
      ClosedHoldsReaching(w, root, found, path, j);
    }
  }

  /** `dependents`: the names of exactly the jobs from which the root is reachable. */
  method Dependents(w: Workflow, root: JobId) returns (names: set<string>)
    ensures forall name :: name in names <==> exists j :: j in w.jobs && Reaches(w, j, root) && Name(w, j) == name
  {
    var found := DependentIds(w, root);
    names := set j | j in found && j in w.jobs :: Name(w, j);
    forall j | Reaches(w, j, root)
      ensures j in w.jobs
    {
      var _ := ReachesByEdge(w, j, root);
    }
  }
}
