/** scripts/ci_storage.py: which stored artifacts go, and at what pace. */
module ArtifactStorage {
  // What a plan gives up, how many more rows go to meet a storage limit, and when each deletion starts.

  import opened Sorting
  import opened Wrappers

  datatype Row = Row(
    id: nat, name: string, branch: Option<string>, run: Option<nat>, created: int, size: nat, expired: bool)

  function Created(): Row -> int {
    (row: Row) => row.created
  }

  function Where(rows: seq<Row>, wanted: Row -> bool): (found: seq<Row>)
    ensures forall row :: row in found <==> row in rows && wanted(row)
  {
    if rows == [] then []
    else if wanted(rows[0]) then [rows[0]] + Where(rows[1..], wanted)
    else Where(rows[1..], wanted)
  }

  function Not(wanted: Row -> bool): Row -> bool {
    row => !wanted(row)
  }

  function Unexpired(): Row -> bool {
    (row: Row) => !row.expired
  }

  function IdIn(ids: set<nat>): Row -> bool {
    (row: Row) => row.id in ids
  }

  function CreatedBefore(time: int): Row -> bool {
    (row: Row) => row.created < time
  }

  lemma {:induction false} WhereSplits(rows: seq<Row>, wanted: Row -> bool)
    ensures multiset(rows) == multiset(Where(rows, wanted)) + multiset(Where(rows, Not(wanted)))
  {
    if rows != [] {
      WhereSplits(rows[1..], wanted);
      assert rows == [rows[0]] + rows[1..];
    }
  }

  /* ---- plan ---- */

  const BUILD_RECORD := ".dockerbuild"

  /** str.endswith(BUILD_RECORD) */
  predicate IsBuildRecord(name: string) {
    |name| >= |BUILD_RECORD| && name[|name| - |BUILD_RECORD|..] == BUILD_RECORD
  }

  type Slot = (string, Option<string>)

  function SlotOf(row: Row): Slot {
    (row.name, row.branch)
  }

  /** The row is one a later run may read. */
  predicate Readable(row: Row, branches: set<string>) {
    row.branch.Some? && row.branch.value in branches && !IsBuildRecord(row.name)
  }

  predicate FromPassed(row: Row, passed: set<nat>) {
    row.run.Some? && row.run.value in passed
  }

  predicate Counts(row: Row, branches: set<string>, passed: set<nat>, onlyPassed: bool) {
    Readable(row, branches) && (onlyPassed ==> FromPassed(row, passed))
  }

  /** The last row of its name and branch that counts. */
  predicate Newest(live: seq<Row>, i: nat, branches: set<string>, passed: set<nat>, onlyPassed: bool) {
    && i < |live| && Counts(live[i], branches, passed, onlyPassed)
    && forall j :: i < j < |live| && Counts(live[j], branches, passed, onlyPassed) ==> SlotOf(live[j]) != SlotOf(live[i])
  }

  ghost predicate IsKept(live: seq<Row>, id: nat, branches: set<string>, passed: set<nat>) {
    exists i: nat, onlyPassed: bool :: Newest(live, i, branches, passed, onlyPassed) && live[i].id == id
  }

  /** One dictionary of `plan`: the id of the last row in each slot. */
  ghost predicate Latest(newest: map<Slot, nat>, live: seq<Row>, branches: set<string>, passed: set<nat>, onlyPassed: bool) {
    && (forall i: nat :: Newest(live, i, branches, passed, onlyPassed) ==>
          SlotOf(live[i]) in newest && newest[SlotOf(live[i])] == live[i].id)
    && (forall slot :: slot in newest ==>
          exists i: nat :: Newest(live, i, branches, passed, onlyPassed) && SlotOf(live[i]) == slot)
  }

  lemma LatestStep(newest: map<Slot, nat>, live: seq<Row>, row: Row, branches: set<string>, passed: set<nat>, onlyPassed: bool)
    requires Latest(newest, live, branches, passed, onlyPassed)
    ensures
      var next := if Counts(row, branches, passed, onlyPassed) then newest[SlotOf(row) := row.id] else newest;
      Latest(next, live + [row], branches, passed, onlyPassed)
  {
    var longer, counts := live + [row], Counts(row, branches, passed, onlyPassed);
    var next := if counts then newest[SlotOf(row) := row.id] else newest;
    forall i: nat | Newest(longer, i, branches, passed, onlyPassed)
      ensures SlotOf(longer[i]) in next && next[SlotOf(longer[i])] == longer[i].id
    {
      if i < |live| {
        assert longer[|live|] == row;
        assert forall j :: i < j < |live| ==> longer[j] == live[j];
        assert Newest(live, i, branches, passed, onlyPassed);
      }
    }
    forall slot | slot in next
      ensures exists i: nat :: Newest(longer, i, branches, passed, onlyPassed) && SlotOf(longer[i]) == slot
    {
      if counts && slot == SlotOf(row) {
        assert Newest(longer, |live|, branches, passed, onlyPassed);
      } else {
        var i: nat :| Newest(live, i, branches, passed, onlyPassed) && SlotOf(live[i]) == slot;
        assert Newest(longer, i, branches, passed, onlyPassed);
      }
    }
  }

  /** The ids that `plan` keeps. */
  method KeptIds(live: seq<Row>, branches: set<string>, passed: set<nat>) returns (kept: set<nat>)
    ensures forall id :: id in kept <==> IsKept(live, id, branches, passed)
  {
    var newest: map<Slot, nat>, newestPassed: map<Slot, nat> := map[], map[];
    for i := 0 to |live|
      invariant Latest(newest, live[..i], branches, passed, false)
      invariant Latest(newestPassed, live[..i], branches, passed, true)
    {
      var row := live[i];
      assert live[..i + 1] == live[..i] + [row];
      LatestStep(newest, live[..i], row, branches, passed, false);
      LatestStep(newestPassed, live[..i], row, branches, passed, true);
      if Readable(row, branches) {
        newest := newest[SlotOf(row) := row.id];
        if FromPassed(row, passed) {
          newestPassed := newestPassed[SlotOf(row) := row.id];
        }
      }
    }
    assert live[..|live|] == live;
    kept := newest.Values + newestPassed.Values;
    forall id
      ensures id in kept <==> IsKept(live, id, branches, passed)
    {
      if id in newest.Values {
        var slot :| slot in newest && newest[slot] == id;
      }
      if id in newestPassed.Values {
        var slot :| slot in newestPassed && newestPassed[slot] == id;
      }
      if i: nat, onlyPassed: bool :| Newest(live, i, branches, passed, onlyPassed) && live[i].id == id {
        var _ := if onlyPassed then newestPassed[SlotOf(live[i])] else newest[SlotOf(live[i])];
      }
    }
  }

  function Live(found: seq<Row>): seq<Row> {
    Sorted(Where(found, Unexpired()), Created())
  }

  /** `plan`: what may be deleted at once, and what only the storage limit gives up. */
  method Plan(found: seq<Row>, branches: set<string>, passed: set<nat>, now: int, keep: int)
      returns (deletable: seq<Row>, young: seq<Row>, ghost kept: seq<Row>)
    ensures multiset(found) == multiset(deletable) + multiset(young) + multiset(kept)
    ensures forall row :: row in kept <==> row in found && !row.expired && IsKept(Live(found), row.id, branches, passed)
    ensures forall row :: row in young <==>
              row in found && !row.expired && !IsKept(Live(found), row.id, branches, passed) && row.created >= now - keep
    ensures forall row :: row in deletable <==>
              row in found && (row.expired || (!IsKept(Live(found), row.id, branches, passed) && row.created < now - keep))
  {
    var live := Live(found);
    var ids := KeptIds(live, branches, passed);
    var free := Where(live, Not(IdIn(ids)));
    var aged := Where(free, CreatedBefore(now - keep));
    young := Where(free, Not(CreatedBefore(now - keep)));
    deletable := aged + Where(found, Not(Unexpired()));
    kept := Where(live, IdIn(ids));
    WhereSplits(found, Unexpired());
    SortedFacts(Where(found, Unexpired()), Created());
    WhereSplits(live, IdIn(ids));
    WhereSplits(free, CreatedBefore(now - keep));
    InLive(found);
  }

  lemma InLive(found: seq<Row>)
    ensures forall row :: row in Live(found) <==> row in found && !row.expired
  {
    SortedFacts(Where(found, Unexpired()), Created());
  }

  /** Another row for the same slot, or the row itself. */
  predicate Rival(found: seq<Row>, other: Row, row: Row, branches: set<string>, passed: set<nat>, onlyPassed: bool) {
    other in found && !other.expired && Counts(other, branches, passed, onlyPassed) && SlotOf(other) == SlotOf(row)
  }

  /**
   * Of every name and branch, and again of those from passed runs, a row stays that is no older than any: the
   * newest one itself when no other was created at the same time.
   */
  lemma NewestIsKept(found: seq<Row>, row: Row, branches: set<string>, passed: set<nat>, onlyPassed: bool)
    requires row in found && !row.expired && Counts(row, branches, passed, onlyPassed)
    ensures exists k :: Rival(found, k, row, branches, passed, onlyPassed) && row.created <= k.created
                        && IsKept(Live(found), k.id, branches, passed)
    ensures (forall other :: Rival(found, other, row, branches, passed, onlyPassed) && other != row ==>
               other.created < row.created) ==>
            IsKept(Live(found), row.id, branches, passed)
  {
    var live := Live(found);
    InLive(found);
    SortedFacts(Where(found, Unexpired()), Created());
    var i := LastOf(live, row, branches, passed, onlyPassed);
    var k :| 0 <= k < |live| && live[k] == row;
    assert live[i] in live;
    assert live[k].created <= live[i].created;
    assert Newest(live, i, branches, passed, onlyPassed);
    assert Rival(found, live[i], row, branches, passed, onlyPassed);
  }

  lemma {:induction false} LastOf(live: seq<Row>, row: Row, branches: set<string>, passed: set<nat>, onlyPassed: bool)
      returns (i: nat)
    requires row in live && Counts(row, branches, passed, onlyPassed)
    ensures Newest(live, i, branches, passed, onlyPassed) && SlotOf(live[i]) == SlotOf(row)
    ensures forall k :: 0 <= k < |live| && live[k] == row ==> k <= i
  {
    i := |live| - 1;
    while !(Counts(live[i], branches, passed, onlyPassed) && SlotOf(live[i]) == SlotOf(row))
      invariant i < |live| && row in live[..i + 1]
      invariant forall j :: i < j < |live| && Counts(live[j], branches, passed, onlyPassed) ==> SlotOf(live[j]) != SlotOf(row)
      decreases i
    {
      assert live[..i + 1] == live[..i] + [live[i]];
      i := i - 1;
    }
  }

  lemma NewestIsLatest(live: seq<Row>, i: nat, other: Row, branches: set<string>, passed: set<nat>, onlyPassed: bool)
    requires InOrder(live, Created()) && Newest(live, i, branches, passed, onlyPassed)
    requires other in live && Counts(other, branches, passed, onlyPassed) && SlotOf(other) == SlotOf(live[i])
    ensures other.created <= live[i].created
  {
    var k :| 0 <= k < |live| && live[k] == other;
    assert k <= i;
    assert Created()(live[k]) <= Created()(live[i]);
  }

  /** And only such rows are kept. */
  lemma KeptIsNewest(found: seq<Row>, id: nat, branches: set<string>, passed: set<nat>)
    requires IsKept(Live(found), id, branches, passed)
    ensures exists row: Row, onlyPassed: bool ::
              && row.id == id && Rival(found, row, row, branches, passed, onlyPassed)
              && forall other :: Rival(found, other, row, branches, passed, onlyPassed) ==> other.created <= row.created
  {
    var live := Live(found);
    var i: nat, onlyPassed: bool :| Newest(live, i, branches, passed, onlyPassed) && live[i].id == id;
    var row := live[i];
    InLive(found);
    SortedFacts(Where(found, Unexpired()), Created());
    assert row in live;
    assert Rival(found, row, row, branches, passed, onlyPassed);
    forall other | Rival(found, other, row, branches, passed, onlyPassed)
      ensures other.created <= row.created
    {
      NewestIsLatest(live, i, other, branches, passed, onlyPassed);
    }
  }

  ghost predicate EndsInBuildRecord(name: string) {
    exists stem :: name == stem + ".dockerbuild"
  }

  lemma BuildRecords(name: string)
    ensures IsBuildRecord(name) <==> EndsInBuildRecord(name)
  {
    if IsBuildRecord(name) {
      assert name == name[..|name| - |BUILD_RECORD|] + BUILD_RECORD;
    }
  }

  /** On a branch that is kept, the newest row of its name stays, unless it is a build record. */
  lemma NewestReadableIsKept(found: seq<Row>, row: Row, branches: set<string>, passed: set<nat>)
    requires row in found && !row.expired && row.branch.Some? && row.branch.value in branches && !EndsInBuildRecord(row.name)
    requires forall other ::
               other in found && !other.expired && other != row && other.name == row.name && other.branch == row.branch ==>
               other.created < row.created
    ensures IsKept(Live(found), row.id, branches, passed)
  {
    BuildRecords(row.name);
    NewestIsKept(found, row, branches, passed, false);
  }

  /** So does the newest of those from runs that passed. */
  lemma NewestPassedIsKept(found: seq<Row>, row: Row, branches: set<string>, passed: set<nat>)
    requires row in found && !row.expired && row.branch.Some? && row.branch.value in branches && !EndsInBuildRecord(row.name)
    requires row.run.Some? && row.run.value in passed
    requires forall other ::
               && other in found && !other.expired && other != row && other.name == row.name && other.branch == row.branch
               && other.run.Some? && other.run.value in passed ==>
               other.created < row.created
    ensures IsKept(Live(found), row.id, branches, passed)
  {
    BuildRecords(row.name);
    NewestIsKept(found, row, branches, passed, true);
  }

  /** Nothing else does: a build record, a row of another branch, and one that a newer row of its kind stands behind. */
  lemma OthersAreNotKept(found: seq<Row>, row: Row, newer: Row, branches: set<string>, passed: set<nat>)
    requires row in found && !row.expired && forall other :: other in found && other.id == row.id ==> other == row
    requires
      || row.branch.None? || row.branch.value !in branches || EndsInBuildRecord(row.name)
      || (newer in found && !newer.expired && newer.name == row.name && newer.branch == row.branch
          && newer.run.Some? && newer.run.value in passed && newer.created > row.created)
    ensures !IsKept(Live(found), row.id, branches, passed)
  {
    BuildRecords(row.name);
    if IsKept(Live(found), row.id, branches, passed) {
      KeptIsNewest(found, row.id, branches, passed);
    }
  }

  /* ---- prune ---- */

  /** `_size`: the bytes of the rows that are not expired. */
  function Size(rows: seq<Row>): nat {
    if rows == [] then 0 else Size(rows[..|rows| - 1]) + Bytes(rows[|rows| - 1])
  }

  function Bytes(row: Row): nat {
    if row.expired then 0 else row.size
  }

  /** The bytes of a listing are those of its rows that are not expired. */
  lemma SizeOneMore(rows: seq<Row>, row: Row)
    ensures Size([]) == 0 && Size(rows + [row]) == Size(rows) + if row.expired then 0 else row.size
  {
    assert (rows + [row])[..|rows|] == rows;
  }

  lemma {:induction false} SizeConcat(a: seq<Row>, b: seq<Row>)
    ensures Size(a + b) == Size(a) + Size(b)
  {
    if b == [] {
      assert a + b == a;
    } else {
      assert (a + b)[..|a + b| - 1] == a + b[..|b| - 1];
      SizeConcat(a, b[..|b| - 1]);
    }
  }

  lemma SizeOfOne(row: Row)
    ensures Size([row]) == Bytes(row)
  {
    assert [row][..0] == [];
  }

  lemma SizeOfParts(before: seq<Row>, row: Row, behind: seq<Row>)
    ensures Size(before + ([row] + behind)) == Size(before + behind) + Bytes(row)
  {
    SizeConcat(before, behind);
    SizeConcat(before, [row] + behind);
    SizeConcat([row], behind);
    SizeOfOne(row);
  }

  lemma PartsOf(b: seq<Row>, k: nat)
    requires k < |b|
    ensures b == b[..k] + ([b[k]] + b[k + 1..])
  {}

  lemma TakenOut(b: seq<Row>, k: nat)
    requires k < |b|
    ensures multiset(b) == multiset(b[..k] + b[k + 1..]) + multiset{b[k]}
    ensures Size(b) == Size(b[..k] + b[k + 1..]) + Bytes(b[k])
  {
    PartsOf(b, k);
    SizeOfParts(b[..k], b[k], b[k + 1..]);
  }

  lemma {:induction false} SizePermuted(a: seq<Row>, b: seq<Row>)
    requires multiset(a) == multiset(b)
    ensures Size(a) == Size(b)
    decreases |a|
  {
    SameItems(a, b);
    if a == [] {
      assert |multiset(a)| == 0 && |multiset(b)| == |b|;
    } else {
      var front, last := a[..|a| - 1], a[|a| - 1];
      assert a == front + [last];
      assert a[|a| - 1] in a;
      assert last in b;
      var k :| 0 <= k < |b| && b[k] == last;
      TakenOut(b, k);
      assert multiset(front) == multiset(a) - multiset{last};
      assert multiset(b[..k] + b[k + 1..]) == multiset(b) - multiset{last};
      SizePermuted(front, b[..k] + b[k + 1..]);
    }
  }

  /** One repository: its rows as listed and what `plan` made of them. */
  datatype RepoPlan = RepoPlan(repo: string, found: seq<Row>, deletable: seq<Row>, young: seq<Row>)

  datatype Item = Item(repo: string, row: Row)

  function Tagged(repo: string, rows: seq<Row>): (items: seq<Item>)
    ensures RowsOf(items) == rows
    ensures forall item :: item in items <==> item.repo == repo && item.row in rows
  {
    if rows == [] then [] else Tagged(repo, rows[..|rows| - 1]) + [Item(repo, rows[|rows| - 1])]
  }

  function RowsOf(items: seq<Item>): seq<Row> {
    seq(|items|, i requires 0 <= i < |items| => items[i].row)
  }

  function AllDeletable(plans: seq<RepoPlan>): seq<Item> {
    if plans == [] then []
    else
      var last := plans[|plans| - 1];
      AllDeletable(plans[..|plans| - 1]) + Tagged(last.repo, last.deletable)
  }

  function AllYoung(plans: seq<RepoPlan>, time: int): (items: seq<Item>)
    ensures forall item :: item in items <==>
              exists p :: p in plans && item.repo == p.repo && item.row in p.young && item.row.created < time
  {
    if plans == [] then []
    else
      var last := plans[|plans| - 1];
      AllYoung(plans[..|plans| - 1], time) + Tagged(last.repo, Where(last.young, CreatedBefore(time)))
  }

  function ItemCreated(): Item -> int {
    (item: Item) => item.row.created
  }

  /** The young rows past the floor age, oldest first. */
  function Ripe(plans: seq<RepoPlan>, time: int): seq<Item> {
    Sorted(AllYoung(plans, time), ItemCreated())
  }

  function LiveBytes(plans: seq<RepoPlan>): nat {
    if plans == [] then 0 else LiveBytes(plans[..|plans| - 1]) + Size(plans[|plans| - 1].found)
  }

  function SizeOf(items: seq<Item>): nat {
    Size(RowsOf(items))
  }

  lemma SizeOfConcat(a: seq<Item>, b: seq<Item>)
    ensures SizeOf(a + b) == SizeOf(a) + SizeOf(b)
  {
    assert RowsOf(a + b) == RowsOf(a) + RowsOf(b);
    SizeConcat(RowsOf(a), RowsOf(b));
  }

  /** The live bytes that are not deletable. */
  function Total(plans: seq<RepoPlan>): int {
    if plans == [] then 0
    else Total(plans[..|plans| - 1]) + Size(plans[|plans| - 1].found) - Size(plans[|plans| - 1].deletable)
  }

  lemma {:induction false} TotalIsLeft(plans: seq<RepoPlan>)
    ensures Total(plans) == LiveBytes(plans) - SizeOf(AllDeletable(plans))
  {
    if plans != [] {
      var front, last := plans[..|plans| - 1], plans[|plans| - 1];
      TotalIsLeft(front);
      SizeOfConcat(AllDeletable(front), Tagged(last.repo, last.deletable));
    }
  }

  predicate Planned(plans: seq<RepoPlan>) {
    forall p :: p in plans ==> forall row :: row in p.young ==> !row.expired
  }

  lemma RipeFacts(plans: seq<RepoPlan>, time: int)
    requires Planned(plans)
    ensures forall item :: item in Ripe(plans, time) ==> !item.row.expired && item.row.created < time
    ensures InOrder(Ripe(plans, time), ItemCreated())
  {
    SortedFacts(AllYoung(plans, time), ItemCreated());
  }

  /** With only the `k` oldest ripe rows given up the total is still over the limit. */
  predicate TooMuch(plans: seq<RepoPlan>, ripe: seq<Item>, k: nat, limit: int)
    requires k <= |ripe|
  {
    LiveBytes(plans) - SizeOf(AllDeletable(plans) + ripe[..k]) > limit
  }

  predicate NoShorterSuffices(plans: seq<RepoPlan>, ripe: seq<Item>, extra: nat, limit: int)
    requires extra <= |ripe|
  {
    forall k :: 0 <= k < extra ==> TooMuch(plans, ripe, k, limit)
  }

  /** So as long as fewer are given up the bytes left stay over the limit. */
  lemma FewerStayOver(plans: seq<RepoPlan>, ripe: seq<Item>, extra: nat, limit: int, k: nat)
    requires k < extra <= |ripe| && NoShorterSuffices(plans, ripe, extra, limit)
    ensures LiveBytes(plans) - SizeOf(AllDeletable(plans) + ripe[..k]) > limit
  {
    assert TooMuch(plans, ripe, k, limit);
  }

  lemma NoShorterYet(plans: seq<RepoPlan>, ripe: seq<Item>, extra: nat, next: nat, limit: int)
    requires next == extra + 1 <= |ripe| && NoShorterSuffices(plans, ripe, extra, limit) && TooMuch(plans, ripe, extra, limit)
    ensures NoShorterSuffices(plans, ripe, next, limit)
  {
    forall k | 0 <= k < next
      ensures TooMuch(plans, ripe, k, limit)
    {
      if k == extra {
        assert TooMuch(plans, ripe, extra, limit);
      }
    }
  }

  /**
   * The limit loop of `prune`: everything deletable is doomed, and of the ripe rows the shortest run of oldest
   * ones that brings the total within the limit, or all of them when none does.
   */
  method Doom(plans: seq<RepoPlan>, time: int, limit: int) returns (doomed: seq<Item>, total: int, extra: nat)
    requires Planned(plans)
    ensures extra <= |Ripe(plans, time)| && doomed == AllDeletable(plans) + Ripe(plans, time)[..extra]
    ensures total == LiveBytes(plans) - SizeOf(doomed)
    ensures total <= limit || extra == |Ripe(plans, time)|
    ensures NoShorterSuffices(plans, Ripe(plans, time), extra, limit)
  {
    doomed, total := AllDeletable(plans), Total(plans);
    TotalIsLeft(plans);
    var ripe := Ripe(plans, time);
    RipeFacts(plans, time);
    ghost var first := doomed;
    extra := 0;
    assert first + ripe[..0] == first;
    while extra < |ripe|
      invariant extra <= |ripe| && doomed == first + ripe[..extra]
      invariant total == LiveBytes(plans) - SizeOf(doomed)
      invariant NoShorterSuffices(plans, ripe, extra, limit)
    {
      if total <= limit {
        break;
      }
      var item := ripe[extra];
      NoShorterYet(plans, ripe, extra, extra + 1, limit);
      OneMoreItem(first, ripe, extra);
      doomed := doomed + [item];
      total := total - item.row.size;
      extra := extra + 1;
    }
  }

  lemma OneMoreItem(first: seq<Item>, items: seq<Item>, k: nat)
    requires k < |items|
    ensures first + items[..k + 1] == (first + items[..k]) + [items[k]]
    ensures SizeOf(first + items[..k + 1]) == SizeOf(first + items[..k]) + Bytes(items[k].row)
  {
    var last := [items[k]];
    SizeOfConcat(first + items[..k], last);
    assert RowsOf(last) == [items[k].row];
    SizeOfOne(items[k].row);
    assert first + items[..k + 1] == (first + items[..k]) + last;
  }

  /** No row is spared that is older than one given up for the limit. */
  lemma OldestGoFirst(plans: seq<RepoPlan>, time: int, extra: nat, given: Item, spared: Item)
    requires Planned(plans) && extra <= |Ripe(plans, time)|
    requires given in Ripe(plans, time)[..extra] && spared in Ripe(plans, time)[extra..]
    ensures given.row.created <= spared.row.created
  {
    RipeFacts(plans, time);
    InOrderSplit(Ripe(plans, time), ItemCreated(), extra, given, spared);
    assert ItemCreated()(given) <= ItemCreated()(spared);
  }

  /** What a plan leaves behind when the deletable rows go: the kept and the young ones, byte by byte. */
  lemma PlanLeaves(found: seq<Row>, deletable: seq<Row>, young: seq<Row>, kept: seq<Row>)
    requires multiset(found) == multiset(deletable) + multiset(young) + multiset(kept)
    ensures Size(found) - Size(deletable) == Size(young) + Size(kept)
  {
    SizePermuted(found, deletable + young + kept);
    SizeConcat(deletable + young, kept);
    SizeConcat(deletable, young);
  }

  /* ---- delete_all: the pace ---- */

  function Later(a: real, b: real): real {
    if a >= b then a else b
  }

  /** The shared slot; the lock makes each `Take` one step, by whichever worker comes next. */
  class Pacer {
    const gap: real
    var slot: real

    constructor (perMinute: nat, now: real)
      requires perMinute > 0
      ensures gap == Gap(perMinute) && slot == now
    {
      gap := Gap(perMinute);
      slot := now;
    }

    /** What a worker that reads the clock at `now` does: when its deletion is to start. */
    method Take(now: real) returns (start: real)
      modifies this`slot
      ensures start == Later(old(slot), now) && slot == start + gap
    {
      var wait := slot - now;
      slot := Later(slot, now) + gap;
      start := if wait > 0.0 then now + wait else now;
    }
  }

  function Gap(perMinute: nat): real
    requires perMinute > 0
  {
    60.0 / perMinute as real
  }

  /** The starts of the deletions, by the clock readings of the workers in the order they take the lock. */
  function Starts(slot: real, gap: real, readings: seq<real>): (starts: seq<real>)
    ensures |starts| == |readings|
    decreases |readings|
  {
    if readings == [] then []
    else
      var start := Later(slot, readings[0]);
      [start] + Starts(start + gap, gap, readings[1..])
  }

  /** Every worker in turn gets the start that `Starts` gives it. */
  method DeleteAll(pacer: Pacer, readings: seq<real>) returns (starts: seq<real>)
    modifies pacer`slot
    ensures starts == Starts(old(pacer.slot), pacer.gap, readings)
  {
    starts := [];
    ghost var all := Starts(pacer.slot, pacer.gap, readings);
    for i := 0 to |readings|
      invariant starts + Starts(pacer.slot, pacer.gap, readings[i..]) == all
    {
      var start := pacer.Take(readings[i]);
      assert readings[i..][1..] == readings[i + 1..];
      starts := starts + [start];
    }
  }

  /**
   * Each deletion starts as soon as it may: at its worker's reading of the clock or one gap behind the start before it,
   * the first at the slot, whichever is later.
   */
  lemma {:induction false} StartsAsSoonAsItMay(slot: real, gap: real, readings: seq<real>, k: nat)
    requires k < |readings|
    ensures
      var starts := Starts(slot, gap, readings);
      var free := if k == 0 then slot else starts[k - 1] + gap;
      starts[k] >= readings[k] && starts[k] >= free && (starts[k] == readings[k] || starts[k] == free)
    decreases k
  {
    if k > 0 {
      StartsAsSoonAsItMay(Later(slot, readings[0]) + gap, gap, readings[1..], k - 1);
    }
  }

  /** The gap shares a minute out among the deletions that it may hold. */
  lemma GapsFillTheMinute(perMinute: nat)
    requires perMinute > 0
    ensures perMinute as real * Gap(perMinute) == 60.0
  {
  }

  lemma OneMoreTurn(k: nat, gap: real)
    requires k > 0
    ensures (k - 1) as real * gap + gap == k as real * gap
  {}

  lemma {:induction false} StartsBehindSlot(slot: real, gap: real, readings: seq<real>, k: nat)
    requires k < |readings| && gap >= 0.0
    ensures Starts(slot, gap, readings)[k] >= slot + k as real * gap
    decreases k
  {
    var start := Later(slot, readings[0]);
    if k > 0 {
      StartsBehindSlot(start + gap, gap, readings[1..], k - 1);
      OneMoreTurn(k, gap);
    }
  }

  /** Two starts with `k` turns between them are at least `k` gaps apart. */
  lemma {:induction false} StartsAreSpaced(slot: real, gap: real, readings: seq<real>, i: nat, k: nat)
    requires i + k < |readings| && gap >= 0.0
    ensures Starts(slot, gap, readings)[i + k] >= Starts(slot, gap, readings)[i] + k as real * gap
    decreases i
  {
    var start := Later(slot, readings[0]);
    if i > 0 {
      StartsAreSpaced(start + gap, gap, readings[1..], i - 1, k);
    } else if k > 0 {
      StartsBehindSlot(start + gap, gap, readings[1..], k - 1);
      OneMoreTurn(k, gap);
    }
  }

  function CountIn(starts: seq<real>, from: real, to: real): nat {
    if starts == [] then 0
    else CountIn(starts[1..], from, to) + if from <= starts[0] < to then 1 else 0
  }

  lemma {:induction false} CountOneMore(starts: seq<real>, start: real, from: real, to: real)
    ensures CountIn([], from, to) == 0
    ensures CountIn(starts + [start], from, to) == CountIn(starts, from, to) + if from <= start < to then 1 else 0
  {
    if starts == [] {
      assert [] + [start] == [start] && [start][1..] == [];
    } else {
      assert (starts + [start])[1..] == starts[1..] + [start];
      CountOneMore(starts[1..], start, from, to);
    }
  }

  lemma {:induction false} CountAtMost(starts: seq<real>, from: real, to: real, most: nat)
    requires forall k :: 0 <= k < |starts| && from <= starts[k] < to ==> k < most
    ensures CountIn(starts, from, to) <= most
  {
    if starts != [] {
      if most > 0 {
        CountAtMost(starts[1..], from, to, most - 1);
      } else {
        forall k | 0 <= k < |starts[1..]|
          ensures !(from <= starts[1..][k] < to)
        {
          assert starts[1..][k] == starts[k + 1];
        }
        CountAtMost(starts[1..], from, to, 0);
      }
    }
  }

  lemma AsManyGapsAsAMinute(perMinute: nat, turns: nat)
    requires 0 < perMinute <= turns
    ensures turns as real * Gap(perMinute) >= 60.0
  {
    var most, gap := perMinute as real, Gap(perMinute);
    assert most * gap == 60.0;
    assert (turns as real - most) * gap >= 0.0;
  }

  /** A minute that holds the first start holds no start that is `perMinute` turns behind it. */
  lemma MinuteOfTheFirst(slot: real, perMinute: nat, readings: seq<real>, from: real, k: nat)
    requires perMinute > 0 && k < |readings|
    requires
      var starts := Starts(slot, Gap(perMinute), readings);
      from <= starts[0] && starts[k] < from + 60.0
    ensures k < perMinute
  {
    if k >= perMinute {
      AsManyGapsAsAMinute(perMinute, k);
      StartsAreSpaced(slot, Gap(perMinute), readings, 0, k);
      assert false;
    }
  }

  /** Whatever the order of the workers, no half-open minute holds more than `perMinute` starts. */
  lemma {:induction false} MinuteHoldsAtMost(slot: real, perMinute: nat, readings: seq<real>, from: real)
    requires perMinute > 0
    ensures CountIn(Starts(slot, Gap(perMinute), readings), from, from + 60.0) <= perMinute
    decreases |readings|
  {
    if readings != [] {
      var gap := Gap(perMinute);
      var starts := Starts(slot, gap, readings);
      if from <= starts[0] < from + 60.0 {
        forall k | 0 <= k < |starts| && from <= starts[k] < from + 60.0
          ensures k < perMinute
        {
          MinuteOfTheFirst(slot, perMinute, readings, from, k);
        }
        CountAtMost(starts, from, from + 60.0, perMinute);
      } else {
        var next := Later(slot, readings[0]) + gap;
        MinuteHoldsAtMost(next, perMinute, readings[1..], from);
        assert starts[1..] == Starts(next, gap, readings[1..]);
      }
    }
  }
}
