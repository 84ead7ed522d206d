/** scripts/ci_gate_queue.py: the early verdict on the job listing of a merge queue run. */
module GateQueue {
  // The listing is read again and again while the run is still going: what a verdict means, and whether a rejection of
  // a partial listing stands.

  import opened Wrappers
  import Text

  /** A job's name, split at its first " (". */
  datatype JobName = JobName(base: string, tail: string)

  datatype Job = Job(name: JobName, status: string, conclusion: Option<string>)

  datatype Error = BadPlan | BadListing | BadResult | BadOriginal | BadRecovery

  type Groups = map<JobName, Job>

  const UNIT := "unit"
  const RERUN := "unit rerun"
  const LOST := "unit-lost"
  const CHECKER := "shard-check"
  const REQUIRED := {"select", "split", "test-count", CHECKER}
  const SKIPPED := {
    "unit-selected", "coverage-ratchet", "lint", "docs", "sonar", "mutation-plan", "mutation-stats", "mutation",
    "swarm-image", "worker-image", "brain-smoke", "writer-lock", "install-smoke", "kind-due", "helm-kind", "semgrep",
    "ledger-load", "stage-budget", "reuse", "dep-manifest"}

  function NameOf(text: string): (name: JobName)
    ensures name.base + name.tail == text
    ensures name.tail == "" || " (" <= name.tail
    ensures !Text.Contains(name.base, " (")
  {
    var base := Text.Before(text, " (");
    var tail := text[|base|..];
    assert Text.Contains(text, " (") ==> tail[..2] == text[|base|..|base| + 2];
    JobName(base, tail)
  }

  predicate Watched(base: string) {
    base in REQUIRED || base in SKIPPED || base in {UNIT, RERUN, LOST}
  }

  /** The listing shows a matrix that is not expanded, or was skipped, as one entry under its template. */
  predicate Collapsed(name: JobName) {
    Text.Contains(name.tail, "${{")
  }

  function KeyOf(name: JobName): JobName {
    if name.base in {UNIT, RERUN} && !Collapsed(name) then name else JobName(name.base, "")
  }

  function RerunOf(original: JobName): JobName {
    JobName(RERUN, original.tail)
  }

  /** A watched name that no plan with these shards gives. */
  predicate Unplanned(name: JobName, expected: set<JobName>) {
    || (name.base == UNIT && name !in expected)
    || (name.base == RERUN && KeyOf(name).tail != "" && JobName(UNIT, name.tail) !in expected)
    || (name.base == CHECKER && name != JobName(CHECKER, " (3.12)"))
  }

  /* ---- inventory ---- */

  predicate GoodListing(jobs: seq<Job>, expected: set<JobName>) {
    && (forall i :: 0 <= i < |jobs| && Watched(jobs[i].name.base) ==> !Unplanned(jobs[i].name, expected))
    && (forall i, j :: 0 <= i < j < |jobs| && Watched(jobs[i].name.base) && Watched(jobs[j].name.base) ==>
          KeyOf(jobs[i].name) != KeyOf(jobs[j].name))
  }

  /** The watched jobs by key. */
  function GroupsOf(jobs: seq<Job>): Groups {
    if jobs == [] then map[]
    else
      var last := jobs[|jobs| - 1];
      var groups := GroupsOf(jobs[..|jobs| - 1]);
      if Watched(last.name.base) then groups[KeyOf(last.name) := last] else groups
  }

  lemma {:induction false} GroupsHold(jobs: seq<Job>, key: JobName)
    ensures key in GroupsOf(jobs) <==> exists i :: 0 <= i < |jobs| && Watched(jobs[i].name.base) && KeyOf(jobs[i].name) == key
    ensures key in GroupsOf(jobs) ==> GroupsOf(jobs)[key] in jobs && KeyOf(GroupsOf(jobs)[key].name) == key
  {
    if jobs != [] {
      var front, last := jobs[..|jobs| - 1], jobs[|jobs| - 1];
      GroupsHold(front, key);
      if Watched(last.name.base) && KeyOf(last.name) == key {
        assert jobs[|jobs| - 1] == last;
      } else if key in GroupsOf(front) {
        var i :| 0 <= i < |front| && Watched(front[i].name.base) && KeyOf(front[i].name) == key;
        assert jobs[i] == front[i];
      }
    }
  }

  lemma FrontIsGood(jobs: seq<Job>, expected: set<JobName>)
    requires GoodListing(jobs, expected) && jobs != []
    ensures GoodListing(jobs[..|jobs| - 1], expected)
  {
    var front := jobs[..|jobs| - 1];
    forall i | 0 <= i < |front|
      ensures front[i] == jobs[i]
    {}
  }

  /** In a good listing a watched job is what its key leads to. */
  lemma {:induction false} GroupsFind(jobs: seq<Job>, expected: set<JobName>, i: nat)
    requires GoodListing(jobs, expected) && i < |jobs| && Watched(jobs[i].name.base)
    ensures KeyOf(jobs[i].name) in GroupsOf(jobs) && GroupsOf(jobs)[KeyOf(jobs[i].name)] == jobs[i]
    decreases |jobs|
  {
    var last := |jobs| - 1;
    if i < last {
      var front := jobs[..last];
      assert front[i] == jobs[i];
      FrontIsGood(jobs, expected);
      GroupsFind(front, expected, i);
      assert Watched(jobs[last].name.base) ==> KeyOf(jobs[i].name) != KeyOf(jobs[last].name);
    }
  }

  /** One job more, whose key is new unless the listing is not good. */
  lemma ListingGrows(jobs: seq<Job>, job: Job, expected: set<JobName>)
    requires GoodListing(jobs, expected)
    ensures
      var newKey := KeyOf(job.name) !in GroupsOf(jobs) && !Unplanned(job.name, expected);
      GoodListing(jobs + [job], expected) <==> Watched(job.name.base) ==> newKey
    ensures GroupsOf(jobs + [job]) == if Watched(job.name.base) then GroupsOf(jobs)[KeyOf(job.name) := job] else GroupsOf(jobs)
  {
    var all := jobs + [job];
    assert all[..|jobs|] == jobs && all[|jobs|] == job;
    GroupsHold(jobs, KeyOf(job.name));
    forall i | 0 <= i < |jobs|
      ensures all[i] == jobs[i]
    {}
  }

  lemma BadStart(jobs: seq<Job>, n: nat, expected: set<JobName>)
    requires n <= |jobs| && !GoodListing(jobs[..n], expected)
    ensures !GoodListing(jobs, expected)
  {
    forall i | 0 <= i < n
      ensures jobs[..n][i] == jobs[i]
    {}
  }

  /** `inventory`, which stops at the first name that is unplanned or doubled. */
  method Inventory(jobs: seq<Job>, expected: set<JobName>) returns (r: Result<Groups, Error>)
    ensures r == if GoodListing(jobs, expected) then Ok(GroupsOf(jobs)) else Err(BadListing)
  {
    var groups: Groups := map[];
    for i := 0 to |jobs|
      invariant GoodListing(jobs[..i], expected)
      invariant groups == GroupsOf(jobs[..i])
    {
      var job := jobs[i];
      ListingGrows(jobs[..i], job, expected);
      assert jobs[..i + 1] == jobs[..i] + [job];
      if Watched(job.name.base) {
        var key := KeyOf(job.name);
        if key in groups {
          BadStart(jobs, i + 1, expected);
          return Err(BadListing);
        }
        groups := groups[key := job];
        if Unplanned(job.name, expected) {
          BadStart(jobs, i + 1, expected);
          return Err(BadListing);
        }
      }
    }
    assert jobs[..|jobs|] == jobs;
    return Ok(groups);
  }

  /* ---- checked, originals, recovery, verify ---- */

  predicate Completed(job: Job) {
    job.status == "completed"
  }

  predicate Ended(groups: Groups, key: JobName, conclusion: string) {
    key in groups && Completed(groups[key]) && groups[key].conclusion == Some(conclusion)
  }

  predicate EndedOtherwise(groups: Groups, key: JobName, conclusion: string) {
    key in groups && Completed(groups[key]) && groups[key].conclusion != Some(conclusion)
  }

  function Checked(groups: Groups, key: JobName, conclusion: string): (r: Result<bool, Error>)
    ensures r.Err? <==> EndedOtherwise(groups, key, conclusion)
    ensures r == Ok(true) <==> Ended(groups, key, conclusion)
  {
    if key !in groups || !Completed(groups[key]) then Ok(false)
    else if groups[key].conclusion != Some(conclusion) then Err(BadResult)
    else Ok(true)
  }

  predicate Failed(groups: Groups, original: JobName) {
    EndedOtherwise(groups, original, "success")
  }

  /** A failed original whose runner was not lost. */
  predicate Broken(groups: Groups, original: JobName, lost: Job -> bool) {
    && Failed(groups, original)
    && (groups[original].conclusion !in {Some("failure"), Some("cancelled")} || !lost(groups[original]))
  }

  function Recovered(groups: Groups, expected: set<JobName>): set<JobName> {
    set name | name in expected && Failed(groups, name) :: RerunOf(name)
  }

  predicate OriginalsEnded(groups: Groups, expected: set<JobName>) {
    forall name :: name in expected ==> name in groups && Completed(groups[name])
  }

  method Originals(groups: Groups, expected: set<JobName>, lost: Job -> bool)
      returns (r: Result<(set<JobName>, bool), Error>)
    ensures r.Err? <==> exists name :: name in expected && Broken(groups, name, lost)
    ensures r.Ok? ==> r.value == (Recovered(groups, expected), OriginalsEnded(groups, expected))
    ensures r.Err? ==> r.error == BadOriginal
  {
    var recovered: set<JobName>, finished := {}, true;
    var left := expected;
    while left != {}
      invariant left <= expected
      invariant recovered == Recovered(groups, expected - left)
      invariant finished == OriginalsEnded(groups, expected - left)
      invariant forall name :: name in expected - left ==> !Broken(groups, name, lost)
      decreases left
    {
      var name :| name in left;
      assert expected - (left - {name}) == (expected - left) + {name};
      left := left - {name};
      if name !in groups || !Completed(groups[name]) {
        finished := false;
      } else if groups[name].conclusion != Some("success") {
        if groups[name].conclusion !in {Some("failure"), Some("cancelled")} || !lost(groups[name]) {
          assert Broken(groups, name, lost);
          return Err(BadOriginal);
        }
        recovered := recovered + {RerunOf(name)};
      }
    }
    assert expected - left == expected;
    return Ok((recovered, finished));
  }

  function Reruns(groups: Groups): set<JobName> {
    set name | name in groups && name.base == RERUN && " (" <= name.tail
  }

  const LOST_KEY := JobName(LOST, "")
  const RERUN_KEY := JobName(RERUN, "")

  function LossVerdict(recovered: set<JobName>): string {
    if recovered != {} then "success" else "skipped"
  }

  function Recovery(groups: Groups, recovered: set<JobName>): Result<bool, Error> {
    var reruns := Reruns(groups);
    if reruns - recovered != {} then Err(BadRecovery)
    else
      var classified := Checked(groups, LOST_KEY, LossVerdict(recovered));
      if classified.Err? then classified
      else if recovered == {} then
        var skipped := Checked(groups, RERUN_KEY, "skipped");
        if skipped.Err? then skipped else Ok(classified.value && skipped.value)
      else if RERUN_KEY in groups then
        if !Completed(groups[RERUN_KEY]) then Ok(false) else Err(BadRecovery)
      else if exists name | name in reruns :: EndedOtherwise(groups, name, "success") then Err(BadResult)
      else Ok(classified.value && recovered == reruns && forall name | name in reruns :: Ended(groups, name, "success"))
  }

  predicate GoodPlan(shards: seq<int>) {
    && shards != []
    && (forall i :: 0 <= i < |shards| ==> shards[i] >= 1)
    && (forall i, j :: 0 <= i < j < |shards| ==> shards[i] != shards[j])
  }

  function Digits(n: nat): (text: string)
    ensures '$' !in text
  {
    if n < 10 then ["0123456789"[n]] else Digits(n / 10) + ["0123456789"[n % 10]]
  }

  function TailOf(shard: int): (tail: string) {
    " (3.12, " + (if shard < 0 then "-" + Digits(-shard) else Digits(shard)) + ")"
  }

  function Expected(shards: seq<int>): set<JobName> {
    set shard | shard in shards :: JobName(UNIT, TailOf(shard))
  }

  function Verdict(jobs: seq<Job>, shards: seq<int>, lost: Job -> bool): Result<bool, Error> {
    var expected, groups := Expected(shards), GroupsOf(jobs);
    if !GoodPlan(shards) then Err(BadPlan)
    else if !GoodListing(jobs, expected) then Err(BadListing)
    else if exists base | base in REQUIRED :: EndedOtherwise(groups, JobName(base, ""), "success") then Err(BadResult)
    else if exists name | name in expected :: Broken(groups, name, lost) then Err(BadOriginal)
    else
      var recovery :=
        if OriginalsEnded(groups, expected) then Recovery(groups, Recovered(groups, expected)) else Ok(false);
      if recovery.Err? then recovery
      else Ok(recovery.value && forall base | base in REQUIRED :: Ended(groups, JobName(base, ""), "success"))
  }

  /** `verify`. */
  method Verify(jobs: seq<Job>, shards: seq<int>, lost: Job -> bool) returns (r: Result<bool, Error>)
    ensures r == Verdict(jobs, shards, lost)
  {
    if !GoodPlan(shards) {
      return Err(BadPlan);
    }
    var expected := Expected(shards);
    var listing := Inventory(jobs, expected);
    if listing.Err? {
      return Err(listing.error);
    }
    var groups := listing.value;
    if exists base | base in REQUIRED :: Checked(groups, JobName(base, ""), "success").Err? {
      return Err(BadResult);
    }
    var finished := forall base | base in REQUIRED :: Checked(groups, JobName(base, ""), "success") == Ok(true);
    var originals := Originals(groups, expected, lost);
    if originals.Err? {
      return Err(originals.error);
    }
    var (recovered, ended) := originals.value;
    var recovery := if ended then Recovery(groups, recovered) else Ok(false);
    if recovery.Err? {
      return recovery;
    }
    return Ok(finished && ended && recovery.value);
  }

  /* ---- what a yes means ---- */

  lemma {:induction false} NoTemplateInside(text: string)
    requires '$' !in text
    ensures !Text.Contains(text, "${{")
  {
    if text != [] {
      var template := "${{";
      assert text[0] in text && text[0] != template[0];
      NoTemplateInside(text[1..]);
    }
  }

  /** A planned shard and its rerun are listed under their own names. */
  lemma PlannedKeys(shards: seq<int>, name: JobName)
    requires name in Expected(shards)
    ensures name.base == UNIT && " (" <= name.tail && KeyOf(name) == name && KeyOf(RerunOf(name)) == RerunOf(name)
  {
    var shard :| shard in shards && name == JobName(UNIT, TailOf(shard));
    NoTemplateInside(TailOf(shard));
    StartsTail(shard);
  }

  lemma StartsTail(shard: int)
    ensures " (" <= TailOf(shard)
  {
    assert TailOf(shard)[..2] == " (";
  }

  /** A shard counts when it passed, or when its runner was lost and its own rerun passed. */
  predicate ShardCounts(groups: Groups, original: JobName, lost: Job -> bool) {
    || Ended(groups, original, "success")
    || (&& (Ended(groups, original, "failure") || Ended(groups, original, "cancelled"))
        && lost(groups[original])
        && Ended(groups, RerunOf(original), "success"))
  }

  predicate Passed(groups: Groups, expected: set<JobName>, lost: Job -> bool) {
    var recovered := Recovered(groups, expected);
    && (forall base :: base in REQUIRED ==> Ended(groups, JobName(base, ""), "success"))
    && (forall name :: name in expected ==> ShardCounts(groups, name, lost))
    && Reruns(groups) == recovered
    && Ended(groups, LOST_KEY, LossVerdict(recovered))
    && (if recovered == {} then Ended(groups, RERUN_KEY, "skipped") else RERUN_KEY !in groups)
  }

  lemma RecoveryPasses(groups: Groups, recovered: set<JobName>)
    ensures Recovery(groups, recovered) == Ok(true) <==>
            && Reruns(groups) == recovered
            && (forall name :: name in recovered ==> Ended(groups, name, "success"))
            && Ended(groups, LOST_KEY, LossVerdict(recovered))
            && (if recovered == {} then Ended(groups, RERUN_KEY, "skipped") else RERUN_KEY !in groups)
  {
    var reruns := Reruns(groups);
    if reruns - recovered == {} {
      forall name | name in reruns
        ensures name in recovered
      {
        assert name !in reruns - recovered;
      }
    }
    forall name | name in reruns
      ensures EndedOtherwise(groups, name, "success") ==> !Ended(groups, name, "success")
    {}
  }

  lemma YesIsPassed(jobs: seq<Job>, shards: seq<int>, lost: Job -> bool)
    requires Verdict(jobs, shards, lost) == Ok(true)
    ensures Passed(GroupsOf(jobs), Expected(shards), lost)
  {
    var expected, groups := Expected(shards), GroupsOf(jobs);
    RecoveryPasses(groups, Recovered(groups, expected));
    forall name | name in expected
      ensures ShardCounts(groups, name, lost)
    {
      assert !Broken(groups, name, lost);
      if Failed(groups, name) {
        assert RerunOf(name) in Recovered(groups, expected);
      }
    }
  }

  lemma PassedIsYes(jobs: seq<Job>, shards: seq<int>, lost: Job -> bool)
    requires GoodPlan(shards) && GoodListing(jobs, Expected(shards)) && Passed(GroupsOf(jobs), Expected(shards), lost)
    ensures Verdict(jobs, shards, lost) == Ok(true)
  {
    var expected, groups := Expected(shards), GroupsOf(jobs);
    var recovered := Recovered(groups, expected);
    RecoveryPasses(groups, recovered);
    forall name | name in recovered
      ensures Ended(groups, name, "success")
    {
      var original :| original in expected && Failed(groups, original) && name == RerunOf(original);
      assert ShardCounts(groups, original, lost);
    }
    forall name | name in expected
      ensures !Broken(groups, name, lost) && name in groups && Completed(groups[name])
    {
      assert ShardCounts(groups, name, lost);
    }
  }

  /**
   * The verdict is yes exactly when the plan and the listing are in order, every required gate succeeded, every
   * planned shard succeeded or was a lost original whose own rerun did, and the reruns are those of the lost
   * originals and no others.
   */
  lemma YesExactly(jobs: seq<Job>, shards: seq<int>, lost: Job -> bool)
    ensures Verdict(jobs, shards, lost) == Ok(true) <==>
            GoodPlan(shards) && GoodListing(jobs, Expected(shards)) && Passed(GroupsOf(jobs), Expected(shards), lost)
  {
    if Verdict(jobs, shards, lost) == Ok(true) {
      YesIsPassed(jobs, shards, lost);
    } else if GoodPlan(shards) && GoodListing(jobs, Expected(shards)) && Passed(GroupsOf(jobs), Expected(shards), lost) {
      PassedIsYes(jobs, shards, lost);
    }
  }

  /** In the words of the listing: a yes rests on jobs of exactly these names. */
  lemma YesShowsEveryShard(jobs: seq<Job>, shards: seq<int>, lost: Job -> bool, shard: int)
    requires Verdict(jobs, shards, lost) == Ok(true) && shard in shards
    ensures exists job ::
              && job in jobs && Completed(job) && job.conclusion == Some("success")
              && (job.name == JobName(UNIT, TailOf(shard)) || job.name == JobName(RERUN, TailOf(shard)))
  {
    YesExactly(jobs, shards, lost);
    var groups, original := GroupsOf(jobs), JobName(UNIT, TailOf(shard));
    PlannedKeys(shards, original);
    assert ShardCounts(groups, original, lost);
    var key := if Ended(groups, original, "success") then original else RerunOf(original);
    GroupsHold(jobs, key);
    assert groups[key] in jobs && groups[key].name.tail == key.tail;
  }

  /* ---- whether a rejection stands ---- */

  /** What may happen to one job between two polls. */
  predicate JobAdvances(before: Job, after: Job) {
    before.name == after.name && (Completed(before) ==> after == before)
  }

  /** `later` lists every job of `earlier`, in any order, and perhaps more. */
  ghost predicate Advances(earlier: seq<Job>, later: seq<Job>) {
    exists place :: Moved(earlier, later, place)
  }

  predicate Moved(earlier: seq<Job>, later: seq<Job>, place: seq<nat>) {
    && |place| == |earlier|
    && (forall i :: 0 <= i < |place| ==> place[i] < |later| && JobAdvances(earlier[i], later[place[i]]))
    && (forall i, j :: 0 <= i < j < |place| ==> place[i] != place[j])
  }

  predicate GroupsAdvance(g: Groups, h: Groups) {
    forall key :: key in g ==> key in h && JobAdvances(g[key], h[key])
  }

  lemma BadListingStays(earlier: seq<Job>, later: seq<Job>, expected: set<JobName>)
    requires Advances(earlier, later) && GoodListing(later, expected)
    ensures GoodListing(earlier, expected)
  {
    var place :| Moved(earlier, later, place);
    forall i, j | 0 <= i < j < |earlier| && Watched(earlier[i].name.base) && Watched(earlier[j].name.base)
      ensures KeyOf(earlier[i].name) != KeyOf(earlier[j].name)
    {
      assert later[place[i]].name == earlier[i].name && later[place[j]].name == earlier[j].name;
      assert place[i] < place[j] || place[j] < place[i];
    }
    forall i | 0 <= i < |earlier| && Watched(earlier[i].name.base)
      ensures !Unplanned(earlier[i].name, expected)
    {
      assert later[place[i]].name == earlier[i].name;
    }
  }

  lemma GroupsOfAdvance(earlier: seq<Job>, later: seq<Job>, expected: set<JobName>)
    requires Advances(earlier, later) && GoodListing(later, expected)
    ensures GroupsAdvance(GroupsOf(earlier), GroupsOf(later))
  {
    BadListingStays(earlier, later, expected);
    var place :| Moved(earlier, later, place);
    forall key | key in GroupsOf(earlier)
      ensures key in GroupsOf(later) && JobAdvances(GroupsOf(earlier)[key], GroupsOf(later)[key])
    {
      GroupsHold(earlier, key);
      var i :| 0 <= i < |earlier| && Watched(earlier[i].name.base) && KeyOf(earlier[i].name) == key;
      GroupsFind(earlier, expected, i);
      GroupsFind(later, expected, place[i]);
    }
  }

  /** Recovery goes wrong in a way that no later listing can hide. */
  predicate FirmlyWrong(groups: Groups, recovered: set<JobName>) {
    || Reruns(groups) - recovered != {}
    || EndedOtherwise(groups, LOST_KEY, LossVerdict(recovered))
    || (if recovered == {} then EndedOtherwise(groups, RERUN_KEY, "skipped")
        else RERUN_KEY in groups && Completed(groups[RERUN_KEY]))
  }

  predicate RerunFailed(groups: Groups, recovered: set<JobName>) {
    recovered != {} && exists name :: name in Reruns(groups) && EndedOtherwise(groups, name, "success")
  }

  lemma RecoveryRejects(groups: Groups, recovered: set<JobName>)
    ensures Recovery(groups, recovered).Err? <==>
            FirmlyWrong(groups, recovered) || (RerunFailed(groups, recovered) && RERUN_KEY !in groups)
  {}

  /** Everything a listing can be rejected for but a failed rerun. */
  predicate Firm(jobs: seq<Job>, shards: seq<int>, lost: Job -> bool) {
    var expected, groups := Expected(shards), GroupsOf(jobs);
    || !GoodPlan(shards)
    || !GoodListing(jobs, expected)
    || (exists base :: base in REQUIRED && EndedOtherwise(groups, JobName(base, ""), "success"))
    || (exists name :: name in expected && Broken(groups, name, lost))
    || (OriginalsEnded(groups, expected) && FirmlyWrong(groups, Recovered(groups, expected)))
  }

  /** A rerun failed. */
  predicate Lapsed(jobs: seq<Job>, shards: seq<int>) {
    var expected, groups := Expected(shards), GroupsOf(jobs);
    OriginalsEnded(groups, expected) && RerunFailed(groups, Recovered(groups, expected))
  }

  lemma NoExactly(jobs: seq<Job>, shards: seq<int>, lost: Job -> bool)
    ensures Verdict(jobs, shards, lost).Err? <==>
            Firm(jobs, shards, lost) || (Lapsed(jobs, shards) && RERUN_KEY !in GroupsOf(jobs))
  {
    RecoveryRejects(GroupsOf(jobs), Recovered(GroupsOf(jobs), Expected(shards)));
  }

  lemma OriginalsStay(g: Groups, h: Groups, expected: set<JobName>)
    requires GroupsAdvance(g, h) && OriginalsEnded(g, expected)
    ensures OriginalsEnded(h, expected) && Recovered(h, expected) == Recovered(g, expected)
  {
    forall name | name in expected
      ensures name in h && h[name] == g[name] && Failed(h, name) == Failed(g, name)
    {}
  }

  lemma FirmStays(earlier: seq<Job>, later: seq<Job>, shards: seq<int>, lost: Job -> bool)
    requires Advances(earlier, later) && Firm(earlier, shards, lost)
    ensures Firm(later, shards, lost)
  {
    var expected := Expected(shards);
    if GoodListing(later, expected) {
      BadListingStays(earlier, later, expected);
      GroupsOfAdvance(earlier, later, expected);
      var g, h := GroupsOf(earlier), GroupsOf(later);
      if name :| name in expected && Broken(g, name, lost) {
        assert Broken(h, name, lost);
      } else if OriginalsEnded(g, expected) {
        OriginalsStay(g, h, expected);
        assert Reruns(g) <= Reruns(h);
      }
    }
  }

  lemma LapseStays(earlier: seq<Job>, later: seq<Job>, shards: seq<int>)
    requires Advances(earlier, later) && GoodListing(later, Expected(shards)) && Lapsed(earlier, shards)
    ensures Lapsed(later, shards)
  {
    var expected := Expected(shards);
    GroupsOfAdvance(earlier, later, expected);
    var g, h := GroupsOf(earlier), GroupsOf(later);
    OriginalsStay(g, h, expected);
    var name :| name in Reruns(g) && EndedOtherwise(g, name, "success");
    assert name in Reruns(h) && EndedOtherwise(h, name, "success");
  }

  /** A rejection for anything but a failed rerun is final. */
  lemma FirmRejectionIsFinal(earlier: seq<Job>, later: seq<Job>, shards: seq<int>, lost: Job -> bool)
    requires Advances(earlier, later) && Firm(earlier, shards, lost)
    ensures Verdict(earlier, shards, lost).Err? && Verdict(later, shards, lost).Err?
  {
    FirmStays(earlier, later, shards, lost);
    NoExactly(earlier, shards, lost);
    NoExactly(later, shards, lost);
  }

  /**
   * A later listing that is no longer rejected waits for a collapsed "unit rerun" entry that has not ended, and
   * the earlier one was rejected for a failed rerun alone.
   */
  lemma LapseOnlyWaits(earlier: seq<Job>, later: seq<Job>, shards: seq<int>, lost: Job -> bool)
    requires Advances(earlier, later) && Verdict(earlier, shards, lost).Err? && Verdict(later, shards, lost).Ok?
    ensures Verdict(later, shards, lost) == Ok(false) && !Firm(earlier, shards, lost)
    ensures RERUN_KEY in GroupsOf(later) && !Completed(GroupsOf(later)[RERUN_KEY])
  {
    NoExactly(earlier, shards, lost);
    NoExactly(later, shards, lost);
    YesExactly(later, shards, lost);
    if Firm(earlier, shards, lost) {
      FirmStays(earlier, later, shards, lost);
    } else {
      LapseStays(earlier, later, shards);
    }
  }

  /** So no listing that follows a rejected one is ever passed. */
  lemma RejectedNeverPasses(earlier: seq<Job>, later: seq<Job>, shards: seq<int>, lost: Job -> bool)
    requires Advances(earlier, later) && Verdict(earlier, shards, lost).Err?
    ensures Verdict(later, shards, lost) != Ok(true)
  {
    if Verdict(later, shards, lost).Ok? {
      LapseOnlyWaits(earlier, later, shards, lost);
    }
  }

  function LostShard(tail: string): seq<Job> {
    [Job(JobName(UNIT, tail), "completed", Some("failure")),
     Job(LOST_KEY, "completed", Some("success")),
     Job(JobName(RERUN, tail), "completed", Some("failure"))]
  }

  /** A rerun matrix that is listed as one entry and has not ended. */
  predicate PendingMatrix(job: Job) {
    job.name.base == RERUN && Collapsed(job.name) && !Completed(job)
  }

  lemma PendingMatrixIsListed()
    ensures PendingMatrix(Job(JobName(RERUN, " (${{ matrix.shard }})"), "queued", None))
  {
    var tail := " (${{ matrix.shard }})";
    assert "${{" <= tail[1..][1..];
    assert Text.Contains(tail[1..], "${{");
  }

  lemma GroupsOfOneMore(jobs: seq<Job>, job: Job)
    requires Watched(job.name.base)
    ensures GroupsOf(jobs + [job]) == GroupsOf(jobs)[KeyOf(job.name) := job]
  {
    assert (jobs + [job])[..|jobs|] == jobs;
  }

  lemma LostShardGroups(tail: string)
    requires !Text.Contains(tail, "${{")
    ensures
      var jobs := LostShard(tail);
      GroupsOf(jobs) == map[JobName(UNIT, tail) := jobs[0], LOST_KEY := jobs[1], JobName(RERUN, tail) := jobs[2]]
  {
    var jobs := LostShard(tail);
    assert jobs == (([] + [jobs[0]]) + [jobs[1]]) + [jobs[2]];
    GroupsOfOneMore([], jobs[0]);
    GroupsOfOneMore([] + [jobs[0]], jobs[1]);
    GroupsOfOneMore([] + [jobs[0]] + [jobs[1]], jobs[2]);
  }

  lemma OneShard(n: int)
    requires n >= 1
    ensures GoodPlan([n]) && Expected([n]) == {JobName(UNIT, TailOf(n))}
    ensures " (" <= TailOf(n) && !Text.Contains(TailOf(n), "${{")
  {
    var shards := [n];
    assert n in shards;
    assert JobName(UNIT, TailOf(n)) in Expected(shards);
    PlannedKeys(shards, JobName(UNIT, TailOf(n)));
    NoTemplateInside(TailOf(n));
  }

  /** The entry of a matrix behind a listing that has none. */
  lemma MatrixListing(jobs: seq<Job>, expected: set<JobName>, matrix: Job)
    requires GoodListing(jobs, expected) && RERUN_KEY !in GroupsOf(jobs) && PendingMatrix(matrix)
    ensures GoodListing(jobs + [matrix], expected) && GroupsOf(jobs + [matrix]) == GroupsOf(jobs)[RERUN_KEY := matrix]
  {
    var all := jobs + [matrix];
    assert KeyOf(matrix.name) == RERUN_KEY;
    GroupsOfOneMore(jobs, matrix);
    GroupsHold(jobs, RERUN_KEY);
    forall i | 0 <= i < |jobs|
      ensures all[i] == jobs[i]
      ensures Watched(jobs[i].name.base) ==> KeyOf(jobs[i].name) != RERUN_KEY
    {}
  }

  /** The entry changes nothing that a verdict looks at but itself. */
  lemma MatrixChangesNothing(groups: Groups, shards: seq<int>, lost: Job -> bool, matrix: Job)
    requires RERUN_KEY !in groups
    ensures
      var more, expected := groups[RERUN_KEY := matrix], Expected(shards);
      && (forall base :: base in REQUIRED ==>
            EndedOtherwise(more, JobName(base, ""), "success") == EndedOtherwise(groups, JobName(base, ""), "success"))
      && (forall name :: name in expected ==> Broken(more, name, lost) == Broken(groups, name, lost))
      && OriginalsEnded(more, expected) == OriginalsEnded(groups, expected)
      && Recovered(more, expected) == Recovered(groups, expected) && Reruns(more) == Reruns(groups)
      && (forall conclusion :: Checked(more, LOST_KEY, conclusion) == Checked(groups, LOST_KEY, conclusion))
  {
    var more, expected := groups[RERUN_KEY := matrix], Expected(shards);
    assert RERUN !in REQUIRED && RERUN != UNIT && RERUN != LOST;
    forall name | name in expected
      ensures name != RERUN_KEY
    {
      PlannedKeys(shards, name);
    }
  }

  /** Only a failed rerun is at fault: one more entry, the collapsed one, turns the rejection back into waiting. */
  lemma FailedRerunLapses(earlier: seq<Job>, shards: seq<int>, lost: Job -> bool, matrix: Job)
    requires Verdict(earlier, shards, lost).Err? && !Firm(earlier, shards, lost) && PendingMatrix(matrix)
    ensures Advances(earlier, earlier + [matrix]) && Verdict(earlier + [matrix], shards, lost) == Ok(false)
  {
    var later, expected, groups := earlier + [matrix], Expected(shards), GroupsOf(earlier);
    NoExactly(earlier, shards, lost);
    MatrixListing(earlier, expected, matrix);
    MatrixChangesNothing(groups, shards, lost, matrix);
    var place := seq(|earlier|, i requires 0 <= i < |earlier| => i);
    assert Moved(earlier, later, place);
    var more := groups[RERUN_KEY := matrix];
    var recovered := Recovered(groups, expected);
    assert Recovery(more, recovered) == Ok(false);
  }

  /** Every later listing is rejected too. */
  ghost predicate IsFinal(earlier: seq<Job>, shards: seq<int>, lost: Job -> bool) {
    forall later :: Advances(earlier, later) ==> Verdict(later, shards, lost).Err?
  }

  lemma FirmIsFinal(earlier: seq<Job>, shards: seq<int>, lost: Job -> bool)
    requires Firm(earlier, shards, lost)
    ensures IsFinal(earlier, shards, lost)
  {
    forall later | Advances(earlier, later)
      ensures Verdict(later, shards, lost).Err?
    {
      FirmRejectionIsFinal(earlier, later, shards, lost);
    }
  }

  lemma LapseIsNotFinal(earlier: seq<Job>, later: seq<Job>, shards: seq<int>, lost: Job -> bool)
    requires Advances(earlier, later) && Verdict(later, shards, lost) == Ok(false)
    ensures !IsFinal(earlier, shards, lost)
  {
    assert !Verdict(later, shards, lost).Err?;
  }

  /**
   * A rejection is final, whatever jobs are added and however they go on, exactly when the listing at hand is at
   * fault for something but a failed rerun.
   */
  lemma RejectionIsFinalExactly(earlier: seq<Job>, shards: seq<int>, lost: Job -> bool)
    requires Verdict(earlier, shards, lost).Err?
    ensures IsFinal(earlier, shards, lost) <==> Firm(earlier, shards, lost)
  {
    if Firm(earlier, shards, lost) {
      FirmIsFinal(earlier, shards, lost);
    } else {
      var matrix := Job(JobName(RERUN, " (${{ matrix.shard }})"), "queued", None);
      PendingMatrixIsListed();
      FailedRerunLapses(earlier, shards, lost, matrix);
      LapseIsNotFinal(earlier, earlier + [matrix], shards, lost);
    }
  }

  lemma LostShardSets(tail: string)
    requires " (" <= tail && !Text.Contains(tail, "${{")
    ensures
      var groups := GroupsOf(LostShard(tail));
      && Recovered(groups, {JobName(UNIT, tail)}) == {JobName(RERUN, tail)}
      && Reruns(groups) == {JobName(RERUN, tail)}
      && OriginalsEnded(groups, {JobName(UNIT, tail)})
      && Ended(groups, LOST_KEY, "success")
      && groups.Keys == {JobName(UNIT, tail), LOST_KEY, JobName(RERUN, tail)}
      && Ended(groups, JobName(UNIT, tail), "failure") && EndedOtherwise(groups, JobName(RERUN, tail), "success")
  {
    LostShardGroups(tail);
  }

  /** Such listings exist, with any one shard: its runner was lost, and its rerun failed. */
  lemma RejectionCanLapse(n: int)
    requires n >= 1
    ensures Verdict(LostShard(TailOf(n)), [n], _ => true).Err? && !Firm(LostShard(TailOf(n)), [n], _ => true)
  {
    var tail := TailOf(n);
    OneShard(n);
    LostShardSets(tail);
    var groups := GroupsOf(LostShard(tail));
    var recovered := Recovered(groups, {JobName(UNIT, tail)});
    assert !FirmlyWrong(groups, recovered);
    assert JobName(RERUN, tail) in Reruns(groups);
    assert Lapsed(LostShard(tail), [n]);
    NoExactly(LostShard(tail), [n], _ => true);
  }
}
