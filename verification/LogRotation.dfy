/** hooks/logfile.py: a log that is moved aside when it is full. */
module LogRotation {
  // File 0 is the log, file k the backup with the suffix .k. Any replace of a rotation may fail, which ends that
  // rotation and nothing else.

  type Bytes = seq<bv8>
  type Files = map<nat, Bytes>

  /** What goes wrong in one rotation: nothing, the size cannot be read, or one file cannot be moved. */
  datatype Fault = NoFault | StatFails | MoveFails(file: nat)

  datatype Append = Append(text: Bytes, fault: Fault)

  /* ---- the two functions on the directory ---- */

  function Move(files: Files, from: nat, to: nat): Files
    requires from in files
  {
    (files - {from})[to := files[from]]
  }

  /** The loop over the backups from `index` down to 1; whether a replace failed, which leaves the loop. */
  function Shift(files: Files, index: int, fault: Fault): (Files, bool)
    decreases index
  {
    if index <= 0 then (files, false)
    else if index !in files then Shift(files, index - 1, fault)
    else if fault == MoveFails(index) then (files, true)
    else Shift(Move(files, index, index + 1), index - 1, fault)
  }

  predicate Full(files: Files, limit: int, fault: Fault) {
    0 in files && fault != StatFails && |files[0]| >= limit
  }

  function Rotate(files: Files, limit: int, backups: int, fault: Fault): Files {
    if !Full(files, limit, fault) then files
    else
      var (shifted, failed) := Shift(files, backups - 1, fault);
      if failed || fault == MoveFails(0) || 0 !in shifted then shifted
      else if backups > 0 then Move(shifted, 0, 1)
      else shifted - {0}
  }

  function Part(files: Files, k: nat): Bytes {
    if k in files then files[k] else []
  }

  function Written(files: Files, limit: int, backups: int, append: Append): Files {
    var rotated := Rotate(files, limit, backups, append.fault);
    rotated[0 := Part(rotated, 0) + append.text]
  }

  class LogFile {
    var files: Files

    constructor (initial: Files)
      ensures files == initial
    {
      files := initial;
    }

    /** `rotate_if_full` */
    method RotateIfFull(limit: int, backups: int, fault: Fault)
      modifies this
      ensures files == Rotate(old(files), limit, backups, fault)
    {
      if 0 !in files || fault == StatFails || |files[0]| < limit {
        return;
      }
      var index := backups - 1;
      while index > 0
        invariant Shift(old(files), backups - 1, fault) == Shift(files, index, fault)
      {
        if index in files {
          if fault == MoveFails(index) {
            return;
          }
          files := Move(files, index, index + 1);
        }
        index := index - 1;
      }
      ShiftKeepsLog(old(files), backups - 1, fault);
      if fault == MoveFails(0) {
        return;
      }
      if backups > 0 {
        files := Move(files, 0, 1);
      } else {
        files := files - {0};
      }
    }

    /** `append_text` */
    method AppendText(text: Bytes, limit: int, backups: int, fault: Fault)
      modifies this
      ensures files == Written(old(files), limit, backups, Append(text, fault))
    {
      RotateIfFull(limit, backups, fault);
      files := files[0 := Part(files, 0) + text];
    }
  }

  lemma {:induction false} ShiftKeepsLog(files: Files, index: int, fault: Fault)
    ensures 0 in files ==> 0 in Shift(files, index, fault).0 && Shift(files, index, fault).0[0] == files[0]
    decreases index
  {
    if index > 0 {
      if index !in files {
        ShiftKeepsLog(files, index - 1, fault);
      } else if fault != MoveFails(index) {
        ShiftKeepsLog(Move(files, index, index + 1), index - 1, fault);
      }
    }
  }

  /* ---- what is kept ---- */

  /** The backups from the highest to the lowest, and then the log. */
  function History(files: Files, top: nat): Bytes {
    if top == 0 then Part(files, 0) else Part(files, top) + History(files, top - 1)
  }

  ghost predicate EndsIn(whole: Bytes, end: Bytes) {
    exists dropped: Bytes :: whole == dropped + end
  }

  lemma EndsInTransitive(a: Bytes, b: Bytes, c: Bytes)
    requires EndsIn(a, b) && EndsIn(b, c)
    ensures EndsIn(a, c)
  {
    var x: Bytes :| a == x + b;
    var y: Bytes :| b == y + c;
    assert a == (x + y) + c;
  }

  lemma EndsInExtended(a: Bytes, b: Bytes, text: Bytes)
    requires EndsIn(a, b)
    ensures EndsIn(a + text, b + text)
  {
    var x: Bytes :| a == x + b;
    assert a + text == x + (b + text);
  }

  lemma EndsInItself(a: Bytes)
    ensures EndsIn(a, a)
  {
    assert a == [] + a;
  }

  lemma {:induction false} HistoryDependsOn(f: Files, g: Files, top: nat)
    requires forall k: nat :: k <= top ==> Part(f, k) == Part(g, k)
    ensures History(f, top) == History(g, top)
  {
    if top > 0 {
      HistoryDependsOn(f, g, top - 1);
    }
  }

  /** A move into a free place next above changes nothing in the order. */
  lemma {:induction false} MoveIntoGap(files: Files, from: nat, to: nat, top: nat)
    requires from in files && from < top && to == from + 1 && to !in files
    ensures History(Move(files, from, to), top) == History(files, top)
  {
    var moved := Move(files, from, to);
    if to == top {
      assert Part(moved, top) == files[from] && Part(files, top) == [];
      if from > 0 {
        NothingAt(moved, from);
        HistoryDependsOn(moved, files, from - 1);
      } else {
        assert files[from] + [] == [] + files[from];
      }
    } else {
      MoveIntoGap(files, from, to, top - 1);
    }
  }

  lemma NothingAt(files: Files, top: nat)
    requires 0 < top && top !in files
    ensures History(files, top) == History(files, top - 1)
  {}

  /** A move over the highest backup drops that one and nothing else. */
  lemma MoveOverTop(files: Files, top: nat)
    requires 0 < top && top - 1 in files
    ensures History(files, top) == Part(files, top) + History(Move(files, top - 1, top), top)
  {
    var moved := Move(files, top - 1, top);
    assert Part(moved, top) == files[top - 1];
    if top > 1 {
      NothingAt(moved, top - 1);
      HistoryDependsOn(moved, files, top - 2);
    } else {
      assert Part(moved, 1) + [] == Part(files, 0);
    }
  }

  lemma MoveKeepsEnd(files: Files, from: nat, top: nat)
    requires from in files && from < top && (from + 1 in files ==> from + 1 == top)
    ensures EndsIn(History(files, top), History(Move(files, from, from + 1), top))
  {
    if from + 1 == top {
      MoveOverTop(files, top);
    } else {
      MoveIntoGap(files, from, from + 1, top);
      EndsInItself(History(files, top));
    }
  }

  lemma {:induction false} ShiftKeepsEnd(files: Files, index: int, fault: Fault, top: nat)
    requires index < top && (index + 1 >= 0 && index + 1 in files ==> index + 1 >= top)
    ensures
      var (shifted, failed) := Shift(files, index, fault);
      && EndsIn(History(files, top), History(shifted, top))
      && (!failed && 0 <= index && 1 in shifted ==> 1 >= top)
    decreases index
  {
    if index <= 0 {
      EndsInItself(History(files, top));
    } else if index !in files {
      ShiftKeepsEnd(files, index - 1, fault, top);
    } else if fault == MoveFails(index) {
      EndsInItself(History(files, top));
    } else {
      var moved := Move(files, index, index + 1);
      MoveKeepsEnd(files, index, top);
      ShiftKeepsEnd(moved, index - 1, fault, top);
      EndsInTransitive(History(files, top), History(moved, top), History(Shift(moved, index - 1, fault).0, top));
    }
  }

  function Top(backups: int): nat {
    if backups > 0 then backups else 0
  }

  /** Wherever a rotation stops, what is left is the end of what there was. */
  lemma RotateKeepsEnd(files: Files, limit: int, backups: int, fault: Fault)
    ensures EndsIn(History(files, Top(backups)), History(Rotate(files, limit, backups, fault), Top(backups)))
  {
    var top := Top(backups);
    EndsInItself(History(files, top));
    if Full(files, limit, fault) {
      var (shifted, failed) := Shift(files, backups - 1, fault);
      ShiftKeepsLog(files, backups - 1, fault);
      if backups <= 0 {
        assert !failed && shifted == files;
        assert History(files - {0}, 0) == [];
        assert History(files, 0) == History(files, 0) + [];
      } else {
        ShiftKeepsEnd(files, backups - 1, fault, top);
        if !failed && fault != MoveFails(0) {
          MoveKeepsEnd(shifted, 0, top);
          EndsInTransitive(History(files, top), History(shifted, top), History(Move(shifted, 0, 1), top));
        }
      }
    }
  }

  lemma {:induction false} HistoryAppended(files: Files, text: Bytes, top: nat)
    ensures History(files[0 := Part(files, 0) + text], top) == History(files, top) + text
  {
    var longer := files[0 := Part(files, 0) + text];
    if top > 0 {
      HistoryAppended(files, text, top - 1);
      assert Part(files, top) + (History(files, top - 1) + text) == (Part(files, top) + History(files, top - 1)) + text;
    }
  }

  function After(files: Files, limit: int, backups: int, run: seq<Append>): Files {
    if run == [] then files else Written(After(files, limit, backups, run[..|run| - 1]), limit, backups, run[|run| - 1])
  }

  function AllText(run: seq<Append>): Bytes {
    if run == [] then [] else AllText(run[..|run| - 1]) + run[|run| - 1].text
  }

  lemma Assoc(a: Bytes, b: Bytes, c: Bytes)
    ensures (a + b) + c == a + (b + c)
  {}

  /**
   * After any appends, with faults anywhere, the backups from the highest to the lowest and then the log are the
   * end of everything that was there and was appended, in order and without a gap.
   */
  lemma {:induction false} HistoryIsTheEnd(files: Files, limit: int, backups: int, run: seq<Append>)
    ensures EndsIn(History(files, Top(backups)) + AllText(run), History(After(files, limit, backups, run), Top(backups)))
  {
    var top := Top(backups);
    if run == [] {
      EndsInItself(History(files, top));
      assert History(files, top) + [] == History(files, top);
    } else {
      var front, last := run[..|run| - 1], run[|run| - 1];
      var before := After(files, limit, backups, front);
      var rotated := Rotate(before, limit, backups, last.fault);
      var told := History(files, top) + AllText(front);
      HistoryIsTheEnd(files, limit, backups, front);
      RotateKeepsEnd(before, limit, backups, last.fault);
      EndsInTransitive(told, History(before, top), History(rotated, top));
      EndsInExtended(told, History(rotated, top), last.text);
      HistoryAppended(rotated, last.text, top);
      Assoc(History(files, top), AllText(front), last.text);
    }
  }

  /* ---- how large the files get and how much is kept, when nothing fails ---- */

  predicate NothingFails(run: seq<Append>) {
    forall a :: a in run ==> a.fault == NoFault
  }

  ghost predicate SizesWithin(files: Files, bound: int) {
    forall k: nat :: k in files ==> |files[k]| <= bound
  }

  lemma {:induction false} ShiftSizes(files: Files, index: int, fault: Fault, bound: int)
    requires SizesWithin(files, bound)
    ensures SizesWithin(Shift(files, index, fault).0, bound)
    decreases index
  {
    if index > 0 {
      if index !in files {
        ShiftSizes(files, index - 1, fault, bound);
      } else if fault != MoveFails(index) {
        ShiftSizes(Move(files, index, index + 1), index - 1, fault, bound);
      }
    }
  }

  lemma {:induction false} ShiftSucceeds(files: Files, index: int)
    ensures !Shift(files, index, NoFault).1
    decreases index
  {
    if index > 0 {
      if index in files {
        ShiftSucceeds(Move(files, index, index + 1), index - 1);
      } else {
        ShiftSucceeds(files, index - 1);
      }
    }
  }

  lemma RotateSizes(files: Files, limit: int, backups: int, bound: int)
    requires SizesWithin(files, bound)
    ensures
      var rotated := Rotate(files, limit, backups, NoFault);
      SizesWithin(rotated, bound) && (0 in rotated ==> |rotated[0]| < limit)
  {
    ShiftSizes(files, backups - 1, NoFault, bound);
    ShiftSucceeds(files, backups - 1);
    ShiftKeepsLog(files, backups - 1, NoFault);
  }

  /** No file outgrows the limit by more than the longest text appended. */
  lemma {:induction false} SizesStayWithin(files: Files, limit: int, backups: int, run: seq<Append>, longest: nat)
    requires NothingFails(run) && forall a :: a in run ==> |a.text| <= longest
    requires SizesWithin(files, (if limit > 0 then limit - 1 else 0) + longest)
    ensures SizesWithin(After(files, limit, backups, run), (if limit > 0 then limit - 1 else 0) + longest)
  {
    if run != [] {
      var front, last := run[..|run| - 1], run[|run| - 1];
      assert last in run;
      SizesStayWithin(files, limit, backups, front, longest);
      RotateSizes(After(files, limit, backups, front), limit, backups, (if limit > 0 then limit - 1 else 0) + longest);
    }
  }

  /** The backups have no gap, and each was full. */
  ghost predicate Neat(files: Files, limit: int) {
    forall k: nat :: 1 <= k && k in files ==> |files[k]| >= limit && (k == 1 || k - 1 in files)
  }

  predicate AllThere(files: Files, top: nat) {
    forall k: nat :: 1 <= k <= top ==> k in files
  }

  lemma {:induction false} NeatFillsUp(files: Files, limit: int, top: nat)
    requires Neat(files, limit) && 1 <= top && top in files
    ensures AllThere(files, top)
  {
    if top > 1 {
      NeatFillsUp(files, limit, top - 1);
    }
  }

  lemma {:induction false} ShiftLossless(files: Files, index: nat, above: nat, top: nat)
    requires above == index + 1 <= top && above !in files
    ensures
      var shifted := Shift(files, index, NoFault).0;
      History(shifted, top) == History(files, top) && 1 !in shifted
    decreases index
  {
    if index > 0 {
      if index in files {
        MoveIntoGap(files, index, above, top);
        ShiftLossless(Move(files, index, index + 1), index - 1, index, top);
      } else {
        ShiftLossless(files, index - 1, index, top);
      }
    }
  }

  /** What the loop makes of backups without a gap. */
  lemma {:induction false} ShiftAll(files: Files, index: nat)
    ensures
      var shifted := Shift(files, index, NoFault).0;
      && (forall k: nat :: k == 0 || k > index + 1 ==> (k in shifted <==> k in files) && Part(shifted, k) == Part(files, k))
      && (index > 0 ==> 1 !in shifted)
      && (forall k: nat :: 1 < k <= index + 1 && k - 1 in files ==> k in shifted && shifted[k] == files[k - 1])
      && (forall k: nat :: 1 < k <= index && k - 1 !in files ==> k !in shifted)
      && (0 < index && index !in files ==>
            (index + 1 in shifted <==> index + 1 in files) && Part(shifted, index + 1) == Part(files, index + 1))
    decreases index
  {
    if index > 0 {
      var next := if index in files then Move(files, index, index + 1) else files;
      ShiftAll(next, index - 1);
      if index in files {
        assert Part(Shift(next, index - 1, NoFault).0, index + 1) == files[index];
      }
      assert forall j: nat :: 0 < j < index && j in files ==> j in next && next[j] == files[j];
    }
  }

  lemma RotateNeat(files: Files, limit: int, backups: int)
    requires Neat(files, limit) && backups > 0 && forall k :: k in files ==> k <= backups
    ensures
      var rotated := Rotate(files, limit, backups, NoFault);
      && Neat(rotated, limit) && (forall k :: k in rotated ==> k <= backups)
      && (AllThere(files, backups) ==> AllThere(rotated, backups))
  {
    if Full(files, limit, NoFault) {
      var last := backups - 1;
      RotateInFull(files, limit, backups, last);
      ShiftAll(files, last);
    }
  }

  /** A rotation in which nothing fails. */
  lemma RotateInFull(files: Files, limit: int, backups: int, last: nat)
    requires Full(files, limit, NoFault) && last + 1 == backups
    ensures
      var shifted := Shift(files, last, NoFault).0;
      0 in shifted && Rotate(files, limit, backups, NoFault) == Move(shifted, 0, 1)
  {
    ShiftSucceeds(files, last);
    ShiftKeepsLog(files, last, NoFault);
  }

  lemma RotateLosesNothing(files: Files, limit: int, backups: nat)
    requires 0 < backups && backups !in files
    ensures History(Rotate(files, limit, backups, NoFault), backups) == History(files, backups)
  {
    if Full(files, limit, NoFault) {
      var last: nat := backups - 1;
      RotateInFull(files, limit, backups, last);
      ShiftLossless(files, last, backups, backups);
      MoveIntoGap(Shift(files, last, NoFault).0, 0, 1, backups);
    }
  }

  lemma {:induction false} AllThereIsLarge(files: Files, limit: nat, top: nat)
    requires Neat(files, limit) && AllThere(files, top)
    ensures |History(files, top)| >= top * limit
  {
    if top > 0 {
      AllThereIsLarge(files, limit, top - 1);
      assert top * limit == (top - 1) * limit + limit;
    }
  }

  lemma {:induction false} RunStaysNeat(limit: nat, backups: nat, run: seq<Append>)
    requires NothingFails(run) && backups > 0
    ensures
      var files := After(map[], limit, backups, run);
      && Neat(files, limit) && (forall k :: k in files ==> k <= backups)
      && (AllThere(files, backups) || History(files, backups) == AllText(run))
  {
    if run == [] {
      EmptyHistory(backups);
    } else {
      var front, last := run[..|run| - 1], run[|run| - 1];
      var before := After(map[], limit, backups, front);
      assert last in run;
      RunStaysNeat(limit, backups, front);
      RotateNeat(before, limit, backups);
      if backups in before {
        NeatFillsUp(before, limit, backups);
      } else {
        RotateLosesNothing(before, limit, backups);
      }
      HistoryAppended(Rotate(before, limit, backups, NoFault), last.text, backups);
    }
  }

  lemma {:induction false} EmptyHistory(top: nat)
    ensures History(map[], top) == []
  {
    if top > 0 {
      EmptyHistory(top - 1);
    }
  }

  /** A log that starts empty has either lost nothing or still holds as many full backups as it may. */
  lemma EnoughIsKept(limit: nat, backups: nat, run: seq<Append>)
    requires NothingFails(run) && backups > 0
    ensures
      var history := History(After(map[], limit, backups, run), backups);
      history == AllText(run) || (|history| >= backups * limit && EndsIn(AllText(run), history))
  {
    RunStaysNeat(limit, backups, run);
    HistoryIsTheEnd(map[], limit, backups, run);
    EmptyHistory(backups);
    assert [] + AllText(run) == AllText(run);
    if AllThere(After(map[], limit, backups, run), backups) {
      AllThereIsLarge(After(map[], limit, backups, run), limit, backups);
    }
  }
}
