/** What scripts/ci_gate_queue.py says of whole runs, in the words of their job listings. */
module QueueRuns {
  // The listings are spelled out: which names stand in them and how each job ended. Nothing here is said through
  // the groups and keys in which the script keeps them.

  import opened Wrappers
  import opened GateQueue
  import Text

  /* ---- shard numbers ---- */

  function DigitValue(c: char): int {
    c as int - '0' as int
  }

  /** A text read as a decimal number. */
  function Value(text: string): int {
    if text == "" then 0 else 10 * Value(text[..|text| - 1]) + DigitValue(text[|text| - 1])
  }

  lemma OneDigit(n: nat)
    requires n < 10
    ensures '0' <= "0123456789"[n] <= '9' && DigitValue("0123456789"[n]) == n
  {
  }

  /** The digits of a number are its decimal notation, without a zero in front. */
  lemma {:induction false} DigitsAreDecimal(n: nat)
    ensures Value(Digits(n)) == n && Digits(n) != "" && (n > 0 ==> Digits(n)[0] != '0')
    ensures forall c :: c in Digits(n) ==> '0' <= c <= '9'
  {
    OneDigit(n % 10);
    if n < 10 {
      assert Digits(n)[..0] == "" && Digits(n) == ["0123456789"[n]];
    } else {
      DigitsAreDecimal(n / 10);
      assert Digits(n)[..|Digits(n)| - 1] == Digits(n / 10);
    }
  }

  /** The part of a shard's name behind its base is this, and no other shard's. */
  lemma ShardTail(shard: int, other: int)
    requires shard >= 1 && other >= 1
    ensures TailOf(shard) == " (3.12, " + Digits(shard) + ")"
    ensures TailOf(shard) == TailOf(other) ==> shard == other
    ensures " (" <= TailOf(shard) && !Text.Contains(TailOf(shard), "${{")
  {
    DigitsAreDecimal(shard);
    DigitsAreDecimal(other);
    StartsTail(shard);
    NoTemplateInside(TailOf(shard));
    MiddlesAgree(" (3.12, ", Digits(shard), Digits(other), ")");
  }

  lemma MiddlesAgree(a: string, b: string, c: string, d: string)
    ensures a + b + d == a + c + d ==> b == c
  {
    if a + b + d == a + c + d {
      assert |b| == |c|;
      assert (a + b + d)[|a|..|a| + |b|] == b;
      assert (a + c + d)[|a|..|a| + |c|] == c;
    }
  }

  /* ---- listings in order ---- */

  /** A matrix that is not expanded, or was skipped, is listed as one entry. */
  predicate OneEntry(tail: string) {
    tail == "" || Text.Contains(tail, "${{")
  }

  predicate PlannedTail(tail: string, shards: seq<int>) {
    exists shard :: shard in shards && tail == TailOf(shard)
  }

  predicate NameInOrder(name: JobName, shards: seq<int>) {
    && (name.base == "unit" ==> PlannedTail(name.tail, shards))
    && (name.base == "unit rerun" ==> OneEntry(name.tail) || PlannedTail(name.tail, shards))
    && (name.base == "shard-check" ==> name.tail == " (3.12)")
  }

  /** Two entries that the listing may not hold both. */
  predicate Doubled(a: JobName, b: JobName) {
    && a.base == b.base
    && (a.base in {"select", "split", "test-count", "shard-check", "unit-lost"} + SKIPPED
        || (a.base in {"unit", "unit rerun"} && (a.tail == b.tail || (OneEntry(a.tail) && OneEntry(b.tail)))))
  }

  /** Every shard and rerun is planned, and no job is listed twice; jobs of other names stand where they like. */
  predicate InOrder(jobs: seq<Job>, shards: seq<int>) {
    && (forall i :: 0 <= i < |jobs| ==> NameInOrder(jobs[i].name, shards))
    && (forall i, j :: 0 <= i < j < |jobs| ==> !Doubled(jobs[i].name, jobs[j].name))
  }

  lemma PlannedExactly(tail: string, shards: seq<int>)
    ensures JobName("unit", tail) in Expected(shards) <==> PlannedTail(tail, shards)
  {
  }

  lemma WatchedBases(base: string)
    ensures Watched(base) <==>
            base in {"select", "split", "test-count", "shard-check", "unit-lost"} + SKIPPED || base in {"unit", "unit rerun"}
  {
  }

  lemma MatrixBasesAreTheirOwn()
    ensures forall base :: base in {"unit", "unit rerun"} ==>
              base !in {"select", "split", "test-count", "shard-check", "unit-lost"} + SKIPPED
  {
  }

  lemma NameExactly(name: JobName, shards: seq<int>)
    ensures NameInOrder(name, shards) <==> !Unplanned(name, Expected(shards))
  {
    PlannedExactly(name.tail, shards);
  }

  /** No planned tail is that of a matrix in one entry. */
  lemma DoubledExactly(a: JobName, b: JobName, shards: seq<int>)
    requires NameInOrder(a, shards) && NameInOrder(b, shards) && forall shard :: shard in shards ==> shard >= 1
    ensures Doubled(a, b) <==> Watched(a.base) && Watched(b.base) && KeyOf(a) == KeyOf(b)
  {
    WatchedBases(a.base);
    MatrixBasesAreTheirOwn();
    PlannedIsNoEntry(a.tail, shards);
    PlannedIsNoEntry(b.tail, shards);
  }

  lemma PlannedIsNoEntry(tail: string, shards: seq<int>)
    requires forall shard :: shard in shards ==> shard >= 1
    ensures PlannedTail(tail, shards) ==> !OneEntry(tail) && " (" <= tail
  {
    if shard :| shard in shards && tail == TailOf(shard) {
      ShardTail(shard, shard);
    }
  }

  predicate PlanInOrder(shards: seq<int>) {
    && shards != [] && (forall shard :: shard in shards ==> shard >= 1)
    && (forall i, j :: 0 <= i < j < |shards| ==> shards[i] != shards[j])
  }

  lemma PlanExactly(shards: seq<int>)
    ensures PlanInOrder(shards) <==> GoodPlan(shards)
  {
    assert forall i :: 0 <= i < |shards| ==> shards[i] in shards;
  }

  lemma ListingInOrder(jobs: seq<Job>, shards: seq<int>)
    requires PlanInOrder(shards)
    ensures InOrder(jobs, shards) <==> GoodListing(jobs, Expected(shards))
  {
    forall i | 0 <= i < |jobs|
      ensures NameInOrder(jobs[i].name, shards) <==> !Unplanned(jobs[i].name, Expected(shards))
      ensures NameInOrder(jobs[i].name, shards) || Watched(jobs[i].name.base)
    {
      NameExactly(jobs[i].name, shards);
      WatchedBases(jobs[i].name.base);
    }
    if forall i :: 0 <= i < |jobs| ==> NameInOrder(jobs[i].name, shards) {
      forall i, j | 0 <= i < j < |jobs|
        ensures Doubled(jobs[i].name, jobs[j].name) <==>
          Watched(jobs[i].name.base) && Watched(jobs[j].name.base) && KeyOf(jobs[i].name) == KeyOf(jobs[j].name)
      {
        DoubledExactly(jobs[i].name, jobs[j].name, shards);
      }
    }
  }

  /* ---- how jobs ended ---- */

  predicate IsEnded(job: Job, conclusion: string) {
    job.status == "completed" && job.conclusion == Some(conclusion)
  }

  /** The listing shows a job of this base that ended so. */
  predicate Shows(jobs: seq<Job>, base: string, conclusion: string) {
    exists i :: 0 <= i < |jobs| && jobs[i].name.base == base && IsEnded(jobs[i], conclusion)
  }

  predicate ShowsJob(jobs: seq<Job>, name: JobName, conclusion: string) {
    exists i :: 0 <= i < |jobs| && jobs[i].name == name && IsEnded(jobs[i], conclusion)
  }

  predicate GatesSucceeded(jobs: seq<Job>) {
    && Shows(jobs, "select", "success") && Shows(jobs, "split", "success")
    && Shows(jobs, "test-count", "success") && Shows(jobs, "shard-check", "success")
  }

  lemma ShownGate(jobs: seq<Job>, expected: set<JobName>, base: string, conclusion: string)
    requires GoodListing(jobs, expected) && Shows(jobs, base, conclusion)
    requires base in {"select", "split", "test-count", "shard-check", "unit-lost"}
    ensures Ended(GroupsOf(jobs), JobName(base, ""), conclusion)
  {
    var i :| 0 <= i < |jobs| && jobs[i].name.base == base && IsEnded(jobs[i], conclusion);
    GroupsFind(jobs, expected, i);
  }

  lemma GatesEnded(jobs: seq<Job>, expected: set<JobName>)
    requires GoodListing(jobs, expected) && GatesSucceeded(jobs)
    ensures forall base :: base in REQUIRED ==> Ended(GroupsOf(jobs), JobName(base, ""), "success")
  {
    ShownGate(jobs, expected, "select", "success");
    ShownGate(jobs, expected, "split", "success");
    ShownGate(jobs, expected, "test-count", "success");
    ShownGate(jobs, expected, "shard-check", "success");
  }

  lemma ShownMatrix(jobs: seq<Job>, expected: set<JobName>, name: JobName, conclusion: string)
    requires GoodListing(jobs, expected) && ShowsJob(jobs, name, conclusion) && name.base in {"unit", "unit rerun"}
    ensures Ended(GroupsOf(jobs), if OneEntry(name.tail) then JobName(name.base, "") else name, conclusion)
  {
    var i :| 0 <= i < |jobs| && jobs[i].name == name && IsEnded(jobs[i], conclusion);
    GroupsFind(jobs, expected, i);
  }

  lemma PlannedNames(shards: seq<int>, name: JobName)
    requires name in Expected(shards)
    ensures exists shard :: shard in shards && name == JobName("unit", TailOf(shard))
  {
  }

  /* ---- runs in which nothing was lost ---- */

  /** Every entry of the rerun matrix is the one that says it was skipped. */
  predicate RerunsSkipped(jobs: seq<Job>) {
    && Shows(jobs, "unit rerun", "skipped")
    && forall i :: 0 <= i < |jobs| && jobs[i].name.base == "unit rerun" ==> OneEntry(jobs[i].name.tail)
  }

  lemma SkippedReruns(jobs: seq<Job>, expected: set<JobName>)
    requires GoodListing(jobs, expected) && RerunsSkipped(jobs)
    ensures Reruns(GroupsOf(jobs)) == {} && Ended(GroupsOf(jobs), JobName("unit rerun", ""), "skipped")
  {
    var i :| 0 <= i < |jobs| && jobs[i].name.base == "unit rerun" && IsEnded(jobs[i], "skipped");
    GroupsFind(jobs, expected, i);
    forall key | key in GroupsOf(jobs) && key.base == "unit rerun"
      ensures key.tail == ""
    {
      GroupsHold(jobs, key);
      var job := GroupsOf(jobs)[key];
      var k :| 0 <= k < |jobs| && jobs[k] == job;
      assert OneEntry(jobs[k].name.tail);
    }
  }

  /**
   * The ordinary green run is passed: every required gate and every planned shard succeeded, the loss job was
   * skipped, and so was the rerun matrix.
   */
  lemma GreenRunPasses(jobs: seq<Job>, shards: seq<int>, lost: Job -> bool)
    requires PlanInOrder(shards) && InOrder(jobs, shards) && GatesSucceeded(jobs)
    requires forall shard :: shard in shards ==> ShowsJob(jobs, JobName("unit", TailOf(shard)), "success")
    requires Shows(jobs, "unit-lost", "skipped") && RerunsSkipped(jobs)
    ensures Verdict(jobs, shards, lost) == Ok(true)
  {
    var expected, groups := Expected(shards), GroupsOf(jobs);
    PlanExactly(shards);
    ListingInOrder(jobs, shards);
    GatesEnded(jobs, expected);
    ShownGate(jobs, expected, "unit-lost", "skipped");
    SkippedReruns(jobs, expected);
    forall name | name in expected
      ensures Ended(groups, name, "success")
    {
      PlannedNames(shards, name);
      PlannedIsNoEntry(name.tail, shards);
      ShownMatrix(jobs, expected, name, "success");
    }
    assert Recovered(groups, expected) == {};
    PassedIsYes(jobs, shards, lost);
  }

  /* ---- runs with lost shards ---- */

  /** The shard's runner was lost, and its rerun succeeded. */
  predicate Replaced(jobs: seq<Job>, shard: int, lost: Job -> bool) {
    && (exists i :: 0 <= i < |jobs| && jobs[i].name == JobName("unit", TailOf(shard)) && lost(jobs[i])
          && (IsEnded(jobs[i], "failure") || IsEnded(jobs[i], "cancelled")))
    && ShowsJob(jobs, JobName("unit rerun", TailOf(shard)), "success")
  }

  predicate RerunsAreReplacements(jobs: seq<Job>, shards: seq<int>, lost: Job -> bool) {
    forall i :: 0 <= i < |jobs| && jobs[i].name.base == "unit rerun" ==>
      exists shard :: shard in shards && Replaced(jobs, shard, lost) && jobs[i].name.tail == TailOf(shard)
  }

  lemma ReplacedShard(jobs: seq<Job>, shards: seq<int>, shard: int, lost: Job -> bool)
    requires PlanInOrder(shards) && GoodListing(jobs, Expected(shards)) && shard in shards && Replaced(jobs, shard, lost)
    ensures
      var groups, name := GroupsOf(jobs), JobName("unit", TailOf(shard));
      && name in Expected(shards) && ShardCounts(groups, name, lost) && Failed(groups, name)
      && RerunOf(name) in Recovered(groups, Expected(shards)) && Ended(groups, RerunOf(name), "success")
      && RerunOf(name) in Reruns(groups)
  {
    var name := JobName("unit", TailOf(shard));
    var i :| 0 <= i < |jobs| && jobs[i].name == name && lost(jobs[i])
             && (IsEnded(jobs[i], "failure") || IsEnded(jobs[i], "cancelled"));
    ShardTail(shard, shard);
    GroupsFind(jobs, Expected(shards), i);
    ShownMatrix(jobs, Expected(shards), JobName("unit rerun", TailOf(shard)), "success");
  }

  lemma ListedReruns(jobs: seq<Job>, shards: seq<int>, lost: Job -> bool)
    requires PlanInOrder(shards) && GoodListing(jobs, Expected(shards)) && RerunsAreReplacements(jobs, shards, lost)
    ensures Reruns(GroupsOf(jobs)) <= Recovered(GroupsOf(jobs), Expected(shards))
    ensures JobName("unit rerun", "") !in GroupsOf(jobs)
  {
    forall key | key in GroupsOf(jobs) && key.base == "unit rerun"
      ensures key in Recovered(GroupsOf(jobs), Expected(shards)) && key.tail != ""
    {
      GroupsHold(jobs, key);
      var k :| 0 <= k < |jobs| && jobs[k] == GroupsOf(jobs)[key];
      var shard :| shard in shards && Replaced(jobs, shard, lost) && jobs[k].name.tail == TailOf(shard);
      ShardTail(shard, shard);
      ReplacedShard(jobs, shards, shard, lost);
      assert key == RerunOf(JobName("unit", TailOf(shard)));
    }
  }

  /**
   * A run that lost runners is passed as well: each planned shard succeeded or was replaced by its own rerun, one was,
   * the loss job succeeded, and no other rerun is listed, nor the matrix as one entry.
   */
  lemma ReplacedRunPasses(jobs: seq<Job>, shards: seq<int>, lost: Job -> bool, replaced: int)
    requires PlanInOrder(shards) && InOrder(jobs, shards) && GatesSucceeded(jobs)
    requires forall shard :: shard in shards ==>
               ShowsJob(jobs, JobName("unit", TailOf(shard)), "success") || Replaced(jobs, shard, lost)
    requires replaced in shards && Replaced(jobs, replaced, lost) && RerunsAreReplacements(jobs, shards, lost)
    requires Shows(jobs, "unit-lost", "success")
    ensures Verdict(jobs, shards, lost) == Ok(true)
  {
    var expected, groups := Expected(shards), GroupsOf(jobs);
    PlanExactly(shards);
    ListingInOrder(jobs, shards);
    GatesEnded(jobs, expected);
    ShownGate(jobs, expected, "unit-lost", "success");
    ListedReruns(jobs, shards, lost);
    ReplacedShard(jobs, shards, replaced, lost);
    forall name | name in expected
      ensures ShardCounts(groups, name, lost) && (Failed(groups, name) ==> RerunOf(name) in Reruns(groups))
    {
      CountedShard(jobs, shards, lost, name);
    }
    assert Reruns(groups) == Recovered(groups, expected);
    PassedIsYes(jobs, shards, lost);
  }

  lemma CountedShard(jobs: seq<Job>, shards: seq<int>, lost: Job -> bool, name: JobName)
    requires PlanInOrder(shards) && GoodListing(jobs, Expected(shards)) && name in Expected(shards)
    requires forall shard :: shard in shards ==>
               ShowsJob(jobs, JobName("unit", TailOf(shard)), "success") || Replaced(jobs, shard, lost)
    ensures ShardCounts(GroupsOf(jobs), name, lost)
    ensures Failed(GroupsOf(jobs), name) ==> RerunOf(name) in Reruns(GroupsOf(jobs))
  {
    PlannedNames(shards, name);
    var shard :| shard in shards && name == JobName("unit", TailOf(shard));
    if Replaced(jobs, shard, lost) {
      ReplacedShard(jobs, shards, shard, lost);
    } else {
      PlannedIsNoEntry(name.tail, shards);
      ShownMatrix(jobs, Expected(shards), name, "success");
    }
  }

  /* ---- runs that are not passed ---- */

  /** The plan and the listing come first, and whatever else they show is not looked at. */
  lemma DisorderIsRejected(jobs: seq<Job>, shards: seq<int>, lost: Job -> bool)
    ensures Verdict(jobs, shards, lost) == Err(BadPlan) <==> !PlanInOrder(shards)
    ensures Verdict(jobs, shards, lost) == Err(BadListing) <==> PlanInOrder(shards) && !InOrder(jobs, shards)
  {
    PlanExactly(shards);
    if PlanInOrder(shards) {
      ListingInOrder(jobs, shards);
    }
  }

  /** A required gate that ended in anything but success. */
  lemma FailedGateIsRejected(jobs: seq<Job>, shards: seq<int>, lost: Job -> bool, i: nat)
    requires i < |jobs| && jobs[i].name.base in {"select", "split", "test-count", "shard-check"}
    requires jobs[i].status == "completed" && jobs[i].conclusion != Some("success")
    ensures Verdict(jobs, shards, lost).Err?
  {
    if GoodListing(jobs, Expected(shards)) {
      GroupsFind(jobs, Expected(shards), i);
      assert EndedOtherwise(GroupsOf(jobs), JobName(jobs[i].name.base, ""), "success");
    }
  }

  /** A planned shard that failed on a runner that was not lost, or ended in a way that no lost runner explains. */
  lemma FailedShardIsRejected(jobs: seq<Job>, shards: seq<int>, lost: Job -> bool, i: nat)
    requires i < |jobs| && jobs[i].name.base == "unit"
    requires jobs[i].status == "completed" && jobs[i].conclusion != Some("success")
    requires !lost(jobs[i]) || jobs[i].conclusion !in {Some("failure"), Some("cancelled")}
    ensures Verdict(jobs, shards, lost).Err?
  {
    var name := jobs[i].name;
    PlanExactly(shards);
    NameExactly(name, shards);
    if PlanInOrder(shards) && GoodListing(jobs, Expected(shards)) {
      PlannedIsNoEntry(name.tail, shards);
      GroupsFind(jobs, Expected(shards), i);
      assert Broken(GroupsOf(jobs), name, lost);
    }
  }

  /** While no job has ended the run is waited for. */
  lemma NothingEndedWaits(jobs: seq<Job>, shards: seq<int>, lost: Job -> bool)
    requires PlanInOrder(shards) && InOrder(jobs, shards)
    requires forall i :: 0 <= i < |jobs| ==> jobs[i].status != "completed"
    ensures Verdict(jobs, shards, lost) == Ok(false)
  {
    var expected, groups := Expected(shards), GroupsOf(jobs);
    PlanExactly(shards);
    ListingInOrder(jobs, shards);
    forall key | key in groups
      ensures !Completed(groups[key])
    {
      GroupsHold(jobs, key);
      var k :| 0 <= k < |jobs| && jobs[k] == groups[key];
    }
    assert JobName(UNIT, TailOf(shards[0])) in expected;
  }

  /** With every shard green the loss job may only have been skipped. */
  lemma IdleLossJobIsSkipped(jobs: seq<Job>, shards: seq<int>, lost: Job -> bool, i: nat)
    requires forall shard :: shard in shards ==> ShowsJob(jobs, JobName("unit", TailOf(shard)), "success")
    requires i < |jobs| && jobs[i].name.base == "unit-lost"
    requires jobs[i].status == "completed" && jobs[i].conclusion != Some("skipped")
    ensures Verdict(jobs, shards, lost).Err?
  {
    var expected, groups := Expected(shards), GroupsOf(jobs);
    PlanExactly(shards);
    if PlanInOrder(shards) && GoodListing(jobs, expected) {
      GroupsFind(jobs, expected, i);
      forall name | name in expected
        ensures Ended(groups, name, "success")
      {
        PlannedNames(shards, name);
        PlannedIsNoEntry(name.tail, shards);
        ShownMatrix(jobs, expected, name, "success");
      }
      assert Recovered(groups, expected) == {};
      assert FirmlyWrong(groups, {});
      NoExactly(jobs, shards, lost);
    }
  }
}
