/** hooks/prompt_budget.py: steps under an alarm that may go off between any two statements. */
module PromptBudget {
  // The module is the statement level machine of `guarded` and `run`: a schedule is any sequence of actions, the
  // alarm among them, and the theorems hold after every schedule.

  import opened Wrappers

  /** An ordinary exception; `kept` when it is of a type the budget was told to keep. */
  datatype Error = Error(id: nat, kept: bool)

  /**
   * An exception on its way: the cut that the alarm raises, with the exceptions that were being handled when
   * it was raised, innermost first, or an ordinary exception in front of those it was raised over.
   */
  datatype Flight = Cut(context: seq<Error>) | Fails(error: Error, context: seq<Error>)

  function Chain(f: Flight): seq<Error> {
    match f
    case Cut(context) => context
    case Fails(error, context) => [error] + context
  }

  /** `_kept`: the first kept exception behind a cut. */
  function FirstKept(chain: seq<Error>): Option<Error> {
    if chain == [] then None else if chain[0].kept then Some(chain[0]) else FirstKept(chain[1..])
  }

  /** Where `_settle` stands: before its try, inside it, with the flag cleared, and behind it. */
  datatype Settling = Before | Inside | Cleared | Behind

  /** Where one call of `run` stands. */
  datatype Stage =
    | Entered
    | Arming(flagSet: bool)
    | Ready
    | Running(handling: seq<Error>)
    | Disarming(flagCleared: bool)
    | Caught(context: seq<Error>)
    | Final(out: Option<Flight>, wasCut: bool, settling: Settling)

  datatype Phase =
    | Body
    | InRun(name: string, stage: Stage)
    | Unwinding(flight: Flight)
    | GuardCaught(context: seq<Error>)
    | GuardFinal(out: Option<Flight>, settling: Settling)
    | Done(out: Option<Flight>)

  datatype Outcome = Completed | RaisedOut | WasCut | Skipped

  /** The calls of `run` that are over, in order, each with how it ended. */
  datatype Trace = Start | Then(before: Trace, name: string, outcome: Outcome)

  function Names(t: Trace): seq<string> {
    if t.Start? then [] else Names(t.before) + [t.name]
  }

  function SkippedNames(t: Trace): seq<string> {
    if t.Start? then []
    else if t.outcome.Skipped? then SkippedNames(t.before) + [t.name]
    else SkippedNames(t.before)
  }

  function CutNames(t: Trace): seq<string> {
    if t.Start? then []
    else if t.outcome.WasCut? then CutNames(t.before) + [t.name]
    else CutNames(t.before)
  }

  datatype State = State(
    phase: Phase,
    installed: bool, armed: bool, timer: bool,
    spent: bool, cut: Option<string>, skipped: seq<string>,
    elapsed: nat, soft: nat, hard: nat,
    // what happened so far
    requested: seq<string>, trace: Trace, checkedAt: nat, owed: Option<Error>)

  datatype Action =
    | Alarm
    | Elapse(ticks: nat)
    | Go
    | Call(name: string)
    | EndBody
    | BodyRaises(error: Error, context: seq<Error>)
    | BodyCatches
    | StepHandles(handling: seq<Error>)
    | StepReturns
    | StepRaises(error: Error, context: seq<Error>)

  /** The state when the body of `guarded` begins; a timer of the program's own may be running. */
  predicate Initial(s: State) {
    && s.phase == Body && !s.armed && !s.spent && s.cut.None?
    && s.skipped == [] && s.requested == [] && s.trace == Start && s.owed.None?
  }

  function At(s: State, name: string, stage: Stage): State {
    s.(phase := InRun(name, stage))
  }

  function Log(s: State, phase: Phase, name: string, o: Outcome): State {
    s.(phase := phase, trace := Then(s.trace, name, o))
  }

  /** The cut raised while `run` is under way. */
  function RunInterrupted(s: State, name: string, stage: Stage): State {
    match stage
    case Entered => s.(phase := Unwinding(Cut([])))
    case Running(handling) => At(s, name, Caught(handling)).(owed := FirstKept(handling))
    case Caught(context) => At(s, name, Final(Some(Cut(context)), false, Before))
    case Final(out, wasCut, settling) =>
      if settling.Inside? then At(s, name, Final(out, wasCut, Behind)) else LeftBehind(s, name, out)
    case _ => At(s, name, Caught([]))
  }

  /** The cut raised in the `finally` of `run`, outside the try of `_settle`. */
  function LeftBehind(s: State, name: string, out: Option<Flight>): State {
    var context := if out.Some? then Chain(out.value) else [];
    var kept := FirstKept(context);
    Log(s, Unwinding(Cut(context)), name, if kept.Some? then RaisedOut else WasCut).(owed := kept)
  }

  /** The cut raised at this point of the program. */
  function Interrupted(s: State): State {
    match s.phase
    case Body => s.(phase := Unwinding(Cut([])))
    case InRun(name, stage) => RunInterrupted(s, name, stage)
    case Unwinding(flight) => s.(phase := Unwinding(Cut(Chain(flight))))
    case GuardCaught(context) => s.(phase := GuardFinal(Some(Cut(context)), Before))
    case GuardFinal(out, settling) =>
      if settling.Inside? then s.(phase := GuardFinal(out, Behind)) else s.(phase := Done(Some(Cut([]))))
    case Done(_) => s
  }

  /** What the next statement of `_settle` does: leave at once, or clear the flag and then the timer. */
  function Settled(s: State, settling: Settling): State {
    if settling.Inside? then s.(armed := false) else if settling.Cleared? then s.(timer := false) else s
  }

  function Onward(s: State, settling: Settling): Settling {
    if settling.Before? then Inside else if settling.Inside? && s.armed then Cleared else Behind
  }

  predicate Refuses(s: State) {
    s.spent || s.soft <= s.elapsed || (s.installed && s.hard <= s.elapsed)
  }

  function OutcomeOf(out: Option<Flight>, wasCut: bool): Outcome {
    if out.Some? then RaisedOut else if wasCut then WasCut else Completed
  }

  /** The test that opens `run`. */
  function Entry(s: State, name: string): State {
    if Refuses(s) then Log(s, Body, name, Skipped).(spent := true, skipped := s.skipped + [name])
    else At(s, name, Arming(false)).(checkedAt := s.elapsed)
  }

  /** The next statement of `_arm`, or the step's first one behind it. */
  function Arm(s: State, name: string, flagSet: bool): State {
    if !s.installed then At(s, name, Ready)
    else if !flagSet then At(s, name, Arming(true)).(armed := true)
    else At(s, name, Ready).(timer := true)
  }

  /** The next statement of `_disarm` behind the step. */
  function Disarm(s: State, name: string, flagCleared: bool): State {
    if flagCleared then At(s, name, Final(None, false, Before)).(timer := false)
    else if s.armed then At(s, name, Disarming(true)).(armed := false)
    else At(s, name, Final(None, false, Before))
  }

  /** The handler of `run`. What stands behind a kept exception is left out: nothing looks behind one. */
  function RunHandler(s: State, name: string, context: seq<Error>): State {
    var kept := FirstKept(context);
    if kept.Some? then At(s, name, Final(Some(Fails(kept.value, [])), false, Before))
    else At(s, name, Final(None, true, Before)).(spent := true, cut := Some(name))
  }

  /** The next statement of the `finally` of `run`. */
  function RunFinally(s: State, name: string, out: Option<Flight>, wasCut: bool, settling: Settling): State {
    if settling.Behind? then Log(s, if out.Some? then Unwinding(out.value) else Body, name, OutcomeOf(out, wasCut))
    else At(Settled(s, settling), name, Final(out, wasCut, Onward(s, settling)))
  }

  /** The handler of `guarded`. */
  function GuardHandler(s: State, context: seq<Error>): State {
    var kept := FirstKept(context);
    if kept.Some? then s.(phase := GuardFinal(Some(Fails(kept.value, [])), Before))
    else s.(phase := GuardFinal(None, Before), spent := true)
  }

  /** The next statement of the `finally` of `guarded`. */
  function GuardFinally(s: State, out: Option<Flight>, settling: Settling): State {
    if settling.Behind? then s.(phase := Done(out))
    else Settled(s, settling).(phase := GuardFinal(out, Onward(s, settling)))
  }

  /** The next statement, where there is only one. */
  function Statement(s: State): State {
    match s.phase
    case InRun(name, stage) =>
      (match stage
       case Entered => Entry(s, name)
       case Arming(flagSet) => Arm(s, name, flagSet)
       case Ready => At(s, name, Running([]))
       case Running(_) => s
       case Disarming(flagCleared) => Disarm(s, name, flagCleared)
       case Caught(context) => RunHandler(s, name, context)
       case Final(out, wasCut, settling) => RunFinally(s, name, out, wasCut, settling))
    case Unwinding(flight) =>
      s.(phase := if flight.Cut? then GuardCaught(flight.context) else GuardFinal(Some(flight), Before))
    case GuardCaught(context) => GuardHandler(s, context)
    case GuardFinal(out, settling) => GuardFinally(s, out, settling)
    case _ => s
  }

  /** One action; an action that the phase does not offer changes nothing. */
  function Do(s: State, a: Action): State {
    match a
    case Alarm =>
      // A timer goes off once; the handler raises only while the flag is set.
      if !s.timer then s
      else if s.armed then Interrupted(s.(timer := false))
      else s.(timer := false)
    case Elapse(ticks) => s.(elapsed := s.elapsed + ticks)
    case Go => Statement(s)
    case Call(name) =>
      if s.phase.Body? then At(s, name, Entered).(requested := s.requested + [name]) else s
    case EndBody => if s.phase.Body? then s.(phase := GuardFinal(None, Before)) else s
    case BodyRaises(error, context) => if s.phase.Body? then s.(phase := Unwinding(Fails(error, context))) else s
    case BodyCatches =>
      // The body never catches the cut, which is no Exception.
      if s.phase.Unwinding? && s.phase.flight.Fails? then s.(phase := Body, owed := None) else s
    case StepHandles(handling) => if InStep(s) then At(s, s.phase.name, Running(handling)) else s
    case StepReturns => if InStep(s) then At(s, s.phase.name, Disarming(false)) else s
    case StepRaises(error, context) =>
      if InStep(s) then At(s, s.phase.name, Final(Some(Fails(error, context)), false, Before)) else s
  }

  predicate InStep(s: State) {
    s.phase.InRun? && s.phase.stage.Running?
  }

  function After(s: State, schedule: seq<Action>): State {
    if schedule == [] then s else Do(After(s, schedule[..|schedule| - 1]), schedule[|schedule| - 1])
  }

  /* ---- the invariant ---- */

  /** The alarm can raise only inside `run`, up to the point where the flag is cleared. */
  predicate AlarmInside(s: State) {
    s.armed ==> s.installed && (s.timer ==> s.phase.InRun? && Raisable(s.phase.stage))
  }

  predicate Raisable(stage: Stage) {
    match stage
    case Arming(flagSet) => flagSet
    case Ready => true
    case Running(_) => true
    case Disarming(flagCleared) => !flagCleared
    case Final(out, _, settling) => out.Some? && (settling.Before? || settling.Inside?)
    case _ => false
  }

  /** Every requested step has its one outcome, in order, except the one under way. */
  predicate Accounted(s: State) {
    && s.requested == (if s.phase.InRun? then Names(s.trace) + [s.phase.name] else Names(s.trace))
    && s.skipped == SkippedNames(s.trace)
  }

  /** Between its check and its end a step runs on a budget that was not spent. */
  predicate InTime(s: State) {
    s.phase.InRun? && !s.phase.stage.Entered? && !s.phase.stage.Final? ==>
      !s.spent && s.checkedAt < s.soft && (s.installed ==> s.checkedAt < s.hard)
  }

  /** The body of `guarded` runs no more. */
  predicate Over(p: Phase) {
    (p.Unwinding? && p.flight.Cut?) || p.GuardCaught? || p.GuardFinal? || p.Done?
  }

  /** The budget names the step that was cut, from the handler of `run` on. */
  predicate CutNamed(s: State) {
    if s.phase.InRun? && s.phase.stage.Final? && s.phase.stage.wasCut then s.cut == Some(s.phase.name)
    else s.cut.Some? ==> CutNames(s.trace) == [s.cut.value]
  }

  predicate CutOnce(s: State) {
    && |CutNames(s.trace)| <= 1
    && (CutNames(s.trace) != [] ==> s.spent || Over(s.phase))
    && (s.phase.InRun? && s.phase.stage.Final? ==>
      CutNames(s.trace) == [] && (s.phase.stage.wasCut ==> s.spent))
    && CutNamed(s)
  }

  predicate NoCut(out: Option<Flight>) {
    out.Some? ==> out.value.Fails?
  }

  /** The cut is on its way only from a `finally` to the handler of `guarded`. */
  predicate CutContained(s: State) {
    && (s.phase.InRun? && s.phase.stage.Final? ==>
      NoCut(s.phase.stage.out) && (s.phase.stage.wasCut ==> s.phase.stage.out.None?))
    && (s.phase.GuardFinal? || s.phase.Done? ==> NoCut(s.phase.out))
  }

  /** A kept exception that the alarm broke into is still on its way out. */
  predicate KeptOnItsWay(s: State) {
    s.owed.Some? ==>
      match s.phase
      case Body => false
      case InRun(_, stage) =>
        if stage.Caught? then FirstKept(stage.context) == s.owed
        else stage.Final? && Leaves(stage.out, s.owed.value) && !(s.armed && s.timer)
      case Unwinding(flight) => if flight.Cut? then FirstKept(flight.context) == s.owed else flight.error == s.owed.value
      case GuardCaught(context) => FirstKept(context) == s.owed
      case GuardFinal(out, _) => Leaves(out, s.owed.value)
      case Done(out) => Leaves(out, s.owed.value)
  }

  predicate Leaves(out: Option<Flight>, error: Error) {
    out.Some? && out.value.Fails? && out.value.error == error
  }

  predicate Inv(s: State) {
    && AlarmInside(s) && Accounted(s) && InTime(s) && CutOnce(s) && CutContained(s) && KeptOnItsWay(s)
  }

  lemma RunInterruptedKeepsInv(s: State)
    requires Inv(s) && s.armed && s.timer && s.phase.InRun?
    ensures Inv(RunInterrupted(s.(timer := false), s.phase.name, s.phase.stage))
  {}

  lemma AlarmKeepsInv(s: State)
    requires Inv(s)
    ensures Inv(Do(s, Alarm))
  {
    if s.armed && s.timer {
      RunInterruptedKeepsInv(s);
    }
  }

  lemma ArmKeepsInv(s: State)
    requires Inv(s) && s.phase.InRun? && s.phase.stage.Arming?
    ensures Inv(Arm(s, s.phase.name, s.phase.stage.flagSet))
  {}

  lemma DisarmKeepsInv(s: State)
    requires Inv(s) && s.phase.InRun? && s.phase.stage.Disarming?
    ensures Inv(Disarm(s, s.phase.name, s.phase.stage.flagCleared))
  {}

  lemma EntryKeepsInv(s: State)
    requires Inv(s) && s.phase.InRun? && s.phase.stage.Entered?
    ensures Inv(Entry(s, s.phase.name))
  {}

  lemma RunHandlerKeepsInv(s: State)
    requires Inv(s) && s.phase.InRun? && s.phase.stage.Caught?
    ensures Inv(RunHandler(s, s.phase.name, s.phase.stage.context))
  {}

  lemma RunFinallyKeepsInv(s: State)
    requires Inv(s) && s.phase.InRun? && s.phase.stage.Final?
    ensures var stage := s.phase.stage; Inv(RunFinally(s, s.phase.name, stage.out, stage.wasCut, stage.settling))
  {}

  lemma GuardFinallyKeepsInv(s: State)
    requires Inv(s) && s.phase.GuardFinal?
    ensures Inv(GuardFinally(s, s.phase.out, s.phase.settling))
  {}

  lemma StatementKeepsInv(s: State)
    requires Inv(s)
    ensures Inv(Statement(s))
  {
    match s.phase
    case InRun(_, stage) =>
      match stage {
        case Entered => EntryKeepsInv(s);
        case Arming(_) => ArmKeepsInv(s);
        case Disarming(_) => DisarmKeepsInv(s);
        case Caught(_) => RunHandlerKeepsInv(s);
        case Final(_, _, _) => RunFinallyKeepsInv(s);
        case _ =>
      }
    case GuardFinal(_, _) => GuardFinallyKeepsInv(s);
    case _ =>
  }

  lemma ActionKeepsInv(s: State, a: Action)
    requires Inv(s)
    ensures Inv(Do(s, a))
  {
    match a
    case Alarm => AlarmKeepsInv(s);
    case Go => StatementKeepsInv(s);
    case _ =>
  }

  lemma {:induction false} ScheduleKeepsInv(s: State, schedule: seq<Action>)
    requires Initial(s)
    ensures Inv(After(s, schedule))
  {
    if schedule != [] {
      ScheduleKeepsInv(s, schedule[..|schedule| - 1]);
      ActionKeepsInv(After(s, schedule[..|schedule| - 1]), schedule[|schedule| - 1]);
    }
  }

  /* ---- what every run gives ---- */

  /**
   * However the alarm falls: the cut never leaves `guarded`, at most one step is cut, and every step that was
   * requested ended once, in order; the budget lists exactly the skipped ones, and names only a step that was cut.
   */
  lemma CutStaysInside(s: State, schedule: seq<Action>)
    requires Initial(s)
    ensures
      var end := After(s, schedule);
      && |CutNames(end.trace)| <= 1
      && end.skipped == SkippedNames(end.trace)
      && (end.phase.Done? && end.cut.Some? ==> CutNames(end.trace) == [end.cut.value])
      && (end.phase.Done? ==> NoCut(end.phase.out) && end.requested == Names(end.trace))
  {
    ScheduleKeepsInv(s, schedule);
  }

  /** A step that runs was let in while the budget lasted. */
  lemma StepsStartInTime(s: State, schedule: seq<Action>)
    requires Initial(s) && InStep(After(s, schedule))
    ensures
      var now := After(s, schedule);
      !now.spent && now.checkedAt < now.soft && (now.installed ==> now.checkedAt < now.hard)
  {
    ScheduleKeepsInv(s, schedule);
  }

  predicate BetweenSteps(p: Phase) {
    !p.InRun? || p.stage.Entered?
  }

  /** `later` is `earlier` with skipped steps behind it. */
  predicate OnlySkips(earlier: Trace, later: Trace) {
    later == earlier || (later.Then? && later.outcome.Skipped? && OnlySkips(earlier, later.before))
  }

  predicate OneSkip(earlier: Trace, later: Trace) {
    later.Then? && later.outcome.Skipped? && later.before == earlier
  }

  predicate StillRefuses(s: State, next: State) {
    && Refuses(next) && BetweenSteps(next.phase)
    && (next.trace == s.trace || OneSkip(s.trace, next.trace))
  }

  lemma EntryKeepsRefusal(s: State, name: string)
    requires Refuses(s)
    ensures StillRefuses(s, Entry(s, name))
  {}

  lemma GuardKeepsRefusal(s: State)
    requires Refuses(s) && !s.phase.InRun?
    ensures Refuses(Statement(s)) && !Statement(s).phase.InRun? && Statement(s).trace == s.trace
  {
    match s.phase
    case GuardCaught(context) => assert Statement(s) == GuardHandler(s, context);
    case GuardFinal(out, settling) => assert Statement(s) == GuardFinally(s, out, settling);
    case _ =>
  }

  lemma StatementKeepsRefusal(s: State)
    requires Refuses(s) && BetweenSteps(s.phase)
    ensures StillRefuses(s, Statement(s))
  {
    if s.phase.InRun? {
      EntryKeepsRefusal(s, s.phase.name);
    } else {
      GuardKeepsRefusal(s);
    }
  }

  lemma ActionKeepsRefusal(s: State, a: Action)
    requires Inv(s) && Refuses(s) && BetweenSteps(s.phase)
    ensures StillRefuses(s, Do(s, a))
  {
    match a
    case Go => StatementKeepsRefusal(s);
    case _ =>
  }

  /** Once the budget refuses, it refuses for good: no step runs any more, each one asked for is skipped. */
  lemma {:induction false} RefusalIsFinal(s: State, schedule: seq<Action>)
    requires Inv(s) && Refuses(s) && BetweenSteps(s.phase)
    ensures
      var later := After(s, schedule);
      Inv(later) && Refuses(later) && BetweenSteps(later.phase) && OnlySkips(s.trace, later.trace)
  {
    if schedule != [] {
      var before := After(s, schedule[..|schedule| - 1]);
      RefusalIsFinal(s, schedule[..|schedule| - 1]);
      ActionKeepsInv(before, schedule[|schedule| - 1]);
      ActionKeepsRefusal(before, schedule[|schedule| - 1]);
    }
  }

  lemma FirstKeptIsKept(chain: seq<Error>)
    ensures FirstKept(chain).Some? ==> FirstKept(chain).value.kept
  {}

  /** The one kept exception nearest to the cut is found behind others that are not kept, and none where none is. */
  lemma {:induction false} NearestIsKept(others: seq<Error>, e: Error, behind: seq<Error>)
    requires forall i :: 0 <= i < |others| ==> !others[i].kept
    ensures FirstKept(others) == None && (e.kept ==> FirstKept(others + [e] + behind) == Some(e))
  {
    var chain := others + [e] + behind;
    if others != [] {
      assert chain[1..] == others[1..] + [e] + behind;
      NearestIsKept(others[1..], e, behind);
    }
  }

  predicate Owing(s: State, e: Error) {
    Inv(s) && s.owed == Some(e) && e.kept
  }

  lemma ActionKeepsOwing(s: State, a: Action, e: Error)
    requires Owing(s, e) && a != BodyCatches
    ensures Owing(Do(s, a), e)
  {
    ActionKeepsInv(s, a);
  }

  lemma {:induction false} ScheduleKeepsOwing(s: State, schedule: seq<Action>, e: Error)
    requires Owing(s, e) && BodyCatches !in schedule
    ensures Owing(After(s, schedule), e)
  {
    if schedule != [] {
      ScheduleKeepsOwing(s, schedule[..|schedule| - 1], e);
      ActionKeepsOwing(After(s, schedule[..|schedule| - 1]), schedule[|schedule| - 1], e);
    }
  }

  /**
   * The kept exception that the alarm would break into: one that the step is handling, or one that is leaving `run`
   * through its `finally`, outside the try of `_settle`.
   */
  function OnItsWay(s: State): Option<Error> {
    if !s.phase.InRun? then None
    else
      match s.phase.stage
      case Running(handling) => FirstKept(handling)
      case Final(out, _, settling) => if out.Some? && !settling.Inside? then FirstKept(Chain(out.value)) else None
      case _ => None
  }

  lemma AlarmOwes(s: State, e: Error)
    requires Inv(s) && s.armed && s.timer && OnItsWay(s) == Some(e)
    ensures Owing(Do(s, Alarm), e)
  {
    AlarmKeepsInv(s);
    match s.phase.stage
    case Running(handling) => FirstKeptIsKept(handling);
    case Final(out, _, _) => FirstKeptIsKept(Chain(out.value));
  }

  /**
   * A cut that breaks into the handling of a kept exception, or meets one in the `finally` of `run`, does not
   * swallow it: unless the body catches it, the body never resumes and `guarded` ends by raising that very exception.
   */
  lemma KeptIsRaisedAgain(s: State, before: seq<Action>, later: seq<Action>, e: Error)
    requires Initial(s)
    requires
      var now := After(s, before);
      now.armed && now.timer && OnItsWay(now) == Some(e)
    requires BodyCatches !in later
    ensures
      var end := After(Do(After(s, before), Alarm), later);
      !end.phase.Body? && !InStep(end) && (end.phase.Done? ==> Leaves(end.phase.out, e))
  {
    ScheduleKeepsInv(s, before);
    AlarmOwes(After(s, before), e);
    ScheduleKeepsOwing(Do(After(s, before), Alarm), later, e);
  }

  /* ---- which steps are let in ---- */

  /** A step was cut, or time is up: the soft budget, or under an alarm the hard one. */
  predicate HasReason(s: State) {
    s.cut.Some? || s.soft <= s.elapsed || (s.installed && s.hard <= s.elapsed)
  }

  predicate SpentForReason(s: State) {
    (s.skipped != [] ==> HasReason(s)) && (s.spent ==> HasReason(s) || s.phase.GuardFinal? || s.phase.Done?)
  }

  predicate GuardEnds(p: Phase) {
    p.GuardFinal? || p.Done?
  }

  /** Nothing that `run` tests has changed. */
  predicate SameBudget(s: State, t: State) {
    && t.spent == s.spent && t.cut == s.cut && t.skipped == s.skipped && t.elapsed == s.elapsed
    && t.soft == s.soft && t.hard == s.hard && t.installed == s.installed && (GuardEnds(s.phase) ==> GuardEnds(t.phase))
  }

  lemma RunLeaves(s: State, name: string, stage: Stage)
    requires s.phase == InRun(name, stage)
    ensures stage.Arming? ==> SameBudget(s, Arm(s, name, stage.flagSet))
    ensures stage.Disarming? ==> SameBudget(s, Disarm(s, name, stage.flagCleared))
  {}

  lemma FinallyLeaves(s: State, name: string, stage: Stage)
    requires s.phase == InRun(name, stage) && stage.Final?
    ensures SameBudget(s, RunFinally(s, name, stage.out, stage.wasCut, stage.settling))
  {}

  lemma HandlerLeaves(s: State, name: string, context: seq<Error>)
    requires s.phase == InRun(name, Caught(context))
    ensures
      var t := RunHandler(s, name, context);
      SameBudget(s, t) || (t.cut.Some? && t.skipped == s.skipped)
  {}

  lemma GuardLeaves(s: State)
    requires !s.phase.InRun?
    ensures SameBudget(s, Statement(s)) || (GuardEnds(Statement(s).phase) && SameBudget(s, Statement(s).(spent := s.spent)))
  {
    match s.phase
    case GuardCaught(context) => assert Statement(s) == GuardHandler(s, context);
    case GuardFinal(out, settling) => assert Statement(s) == GuardFinally(s, out, settling);
    case _ =>
  }

  /** All that a statement does to the budget. */
  predicate Changes(s: State, t: State) {
    || SameBudget(s, t)
    || (s.phase.InRun? && t == Entry(s, s.phase.name))
    || (t.cut.Some? && t.skipped == s.skipped)
    || (GuardEnds(t.phase) && SameBudget(s, t.(spent := s.spent)))
  }

  lemma StatementChanges(s: State)
    ensures Changes(s, Statement(s))
  {
    if s.phase.InRun? {
      match s.phase.stage
      case Final(_, _, _) => FinallyLeaves(s, s.phase.name, s.phase.stage);
      case Caught(context) => HandlerLeaves(s, s.phase.name, context);
      case _ => RunLeaves(s, s.phase.name, s.phase.stage);
    } else {
      GuardLeaves(s);
    }
  }

  lemma ChangesKeepReason(s: State, t: State)
    requires SpentForReason(s) && Changes(s, t)
    ensures SpentForReason(t)
  {}

  lemma RunAlarmLeaves(s: State, name: string, stage: Stage)
    requires s.phase == InRun(name, stage)
    ensures SameBudget(s, RunInterrupted(s, name, stage))
  {}

  lemma AlarmLeaves(s: State)
    ensures SameBudget(s, Do(s, Alarm))
  {
    if s.phase.InRun? {
      RunAlarmLeaves(s.(timer := false), s.phase.name, s.phase.stage);
    }
  }

  lemma {:induction false} ScheduleKeepsReason(s: State, schedule: seq<Action>)
    requires Initial(s)
    ensures SpentForReason(After(s, schedule))
  {
    if schedule != [] {
      var before := After(s, schedule[..|schedule| - 1]);
      ScheduleKeepsReason(s, schedule[..|schedule| - 1]);
      match schedule[|schedule| - 1]
      case Alarm => AlarmLeaves(before);
      case Go =>
        StatementChanges(before);
        ChangesKeepReason(before, Statement(before));
      case _ =>
    }
  }

  lemma SkipsForReason(s: State, t: State)
    requires SpentForReason(s) && Changes(s, t) && t.skipped != s.skipped
    ensures HasReason(s)
  {}

  /**
   * No step is skipped for nothing: when one more is listed, another was cut before, or the soft budget had run out,
   * or the hard one under an alarm.
   */
  lemma SkippedForReason(s: State, schedule: seq<Action>, a: Action)
    requires Initial(s) && Do(After(s, schedule), a).skipped != After(s, schedule).skipped
    ensures
      var now := After(s, schedule);
      now.cut.Some? || now.soft <= now.elapsed || (now.installed && now.hard <= now.elapsed)
  {
    ScheduleKeepsReason(s, schedule);
    match a
    case Alarm => AlarmLeaves(After(s, schedule));
    case Go =>
      StatementChanges(After(s, schedule));
      SkipsForReason(After(s, schedule), Statement(After(s, schedule)));
    case _ =>
  }

  lemma AfterStep(s: State, schedule: seq<Action>, a: Action, longer: seq<Action>)
    requires longer == schedule + [a]
    ensures After(s, longer) == Do(After(s, schedule), a)
  {
    assert longer[..|longer| - 1] == schedule;
  }

  lemma AfterTwo(s: State, a: Action, b: Action)
    ensures After(s, [a, b]) == Do(Do(s, a), b)
  {
    AfterStep(s, [], a, [a]);
    AfterStep(s, [a], b, [a, b]);
  }

  lemma AfterFour(s: State, a: Action, b: Action, c: Action, d: Action)
    ensures After(s, [a, b, c, d]) == Do(Do(Do(Do(s, a), b), c), d)
  {
    AfterTwo(s, a, b);
    AfterStep(s, [a, b], c, [a, b, c]);
    AfterStep(s, [a, b, c], d, [a, b, c, d]);
  }

  /** The statements from the call of `run` to the first one of the step, with an alarm to set or without. */
  function UpToStep(name: string, installed: bool): seq<Action> {
    if installed then [Call(name), Go, Go, Go, Go] else [Call(name), Go, Go, Go]
  }

  /** The step under way, and under an alarm where there is one to set. */
  predicate StepRuns(now: State, name: string, running: State) {
    && running.phase == InRun(name, Running([]))
    && running.skipped == now.skipped && running.trace == now.trace && running.requested == now.requested + [name]
    && !running.spent && running.cut == now.cut && running.elapsed == now.elapsed && running.installed == now.installed
    && (if now.installed then running.armed && running.timer else running.armed == now.armed)
  }

  lemma LetIn(now: State, name: string)
    requires now.phase == Body && !now.spent && now.elapsed < now.soft && (now.installed ==> now.elapsed < now.hard)
    ensures StepRuns(now, name, After(now, UpToStep(name, now.installed)))
  {
    AfterFour(now, Call(name), Go, Go, Go);
    AfterStep(now, [Call(name), Go, Go, Go], Go, [Call(name), Go, Go, Go, Go]);
    var called := Do(now, Call(name));
    assert Do(called, Go) == Entry(called, name);
    assert Do(Do(called, Go), Go) == Arm(Do(called, Go), name, false);
  }

  /** A step asked for while time is left, and with no step cut before, runs after these statements. */
  lemma StepIsLetIn(s: State, schedule: seq<Action>, name: string)
    requires Initial(s)
    requires
      var now := After(s, schedule);
      now.phase == Body && now.cut.None? && now.elapsed < now.soft && (now.installed ==> now.elapsed < now.hard)
    ensures
      var now := After(s, schedule);
      var running := After(now, UpToStep(name, now.installed));
      && running.phase == InRun(name, Running([])) && running.skipped == now.skipped
      && (now.installed ==> running.armed && running.timer)
  {
    ScheduleKeepsReason(s, schedule);
    LetIn(After(s, schedule), name);
  }

  /** A step asked for when the time has run out or a step was cut is listed as skipped, and the body goes on. */
  lemma StepIsSkipped(s: State, schedule: seq<Action>, name: string)
    requires Initial(s)
    requires
      var now := After(s, schedule);
      now.phase == Body && (now.cut.Some? || now.soft <= now.elapsed || (now.installed && now.hard <= now.elapsed))
    ensures
      var now := After(s, schedule);
      var later := After(now, [Call(name), Go]);
      && later.phase == Body && later.spent && later.skipped == now.skipped + [name]
      && later.trace == Then(now.trace, name, Skipped)
  {
    ScheduleKeepsInv(s, schedule);
    SkippedAtOnce(After(s, schedule), name);
  }

  lemma SkippedAtOnce(now: State, name: string)
    requires Inv(now) && now.phase == Body && HasReason(now)
    ensures
      var later := After(now, [Call(name), Go]);
      && later.phase == Body && later.spent && later.skipped == now.skipped + [name]
      && later.trace == Then(now.trace, name, Skipped)
  {
    if now.cut.Some? {
      CutIsSpent(now);
    }
    AfterTwo(now, Call(name), Go);
    assert Do(Do(now, Call(name)), Go) == Entry(Do(now, Call(name)), name);
  }

  lemma CutIsSpent(now: State)
    requires Inv(now) && now.phase == Body && now.cut.Some?
    ensures now.spent
  {}

  lemma Disarmed(s: State, name: string)
    requires s.phase == InRun(name, Running([])) && s.armed
    ensures Do(Do(Do(s, StepReturns), Go), Go) ==
            s.(phase := InRun(name, Final(None, false, Before)), armed := false, timer := false)
  {
    var returned := At(s, name, Disarming(false));
    assert Do(s, StepReturns) == returned;
    assert Do(returned, Go) == Disarm(returned, name, false);
    assert Do(Do(returned, Go), Go) == Disarm(Do(returned, Go), name, true);
  }

  lemma SettledStep(s: State, name: string, wasCut: bool)
    requires s.phase == InRun(name, Final(None, wasCut, Before)) && !s.armed
    ensures Do(Do(Do(s, Go), Go), Go) == Log(s, Body, name, OutcomeOf(None, wasCut))
  {
    var inside := At(s, name, Final(None, wasCut, Inside));
    var behind := At(s, name, Final(None, wasCut, Behind));
    assert Do(s, Go) == RunFinally(s, name, None, wasCut, Before) == inside;
    assert Do(inside, Go) == RunFinally(inside, name, None, wasCut, Inside) == behind;
    assert Do(behind, Go) == RunFinally(behind, name, None, wasCut, Behind);
  }

  /** A step that returns before any alarm is over when the flag and the timer are cleared, and the body goes on. */
  lemma UncutStepCompletes(now: State, name: string, running: State)
    requires StepRuns(now, name, running) && now.installed
    ensures
      var over := After(running, [StepReturns, Go, Go, Go] + [Go, Go]);
      && over.phase == Body && over.trace == Then(now.trace, name, Completed) && !over.armed && !over.timer
      && over.skipped == now.skipped && over.cut == now.cut && !over.spent
  {
    AfterSix(running, StepReturns, Go, Go, Go, Go, Go);
    Disarmed(running, name);
    SettledStep(running.(phase := InRun(name, Final(None, false, Before)), armed := false, timer := false), name, false);
  }

  lemma AfterSix(s: State, a: Action, b: Action, c: Action, d: Action, e: Action, f: Action)
    ensures After(s, [a, b, c, d] + [e, f]) == Do(Do(Do(Do(Do(Do(s, a), b), c), d), e), f)
  {
    AfterFour(s, a, b, c, d);
    AfterStep(s, [a, b, c, d], e, [a, b, c, d] + [e]);
    AfterStep(s, [a, b, c, d] + [e], f, [a, b, c, d] + [e, f]);
  }

  lemma CutHere(s: State, name: string)
    requires s.phase == InRun(name, Running([])) && s.armed && s.timer
    ensures Do(Do(s, Alarm), Go) ==
            s.(phase := InRun(name, Final(None, true, Before)), timer := false, spent := true, cut := Some(name),
               owed := None)
  {
    var caught := s.(phase := InRun(name, Caught([])), timer := false, owed := None);
    assert Do(s, Alarm) == RunInterrupted(s.(timer := false), name, Running([])) == caught;
    assert Do(caught, Go) == RunHandler(caught, name, []);
  }

  lemma CutStepSettles(s: State, name: string)
    requires s.phase == InRun(name, Final(None, true, Before)) && s.armed
    ensures Do(Do(Do(Do(s, Go), Go), Go), Go) == Log(s, Body, name, WasCut).(armed := false, timer := false)
  {
    var inside := At(s, name, Final(None, true, Inside));
    var cleared := At(s, name, Final(None, true, Cleared)).(armed := false);
    var behind := At(s, name, Final(None, true, Behind)).(armed := false, timer := false);
    assert Do(s, Go) == RunFinally(s, name, None, true, Before) == inside;
    assert Do(inside, Go) == RunFinally(inside, name, None, true, Inside) == cleared;
    assert Do(cleared, Go) == RunFinally(cleared, name, None, true, Cleared) == behind;
    assert Do(behind, Go) == RunFinally(behind, name, None, true, Behind);
  }

  /** One that the alarm meets is cut: the budget is spent and names it, and the body goes on. */
  lemma MetStepIsCut(now: State, name: string, running: State)
    requires StepRuns(now, name, running) && now.installed
    ensures
      var over := After(running, [Alarm, Go, Go, Go] + [Go, Go]);
      && over.phase == Body && over.trace == Then(now.trace, name, WasCut) && over.spent && over.cut == Some(name)
      && over.skipped == now.skipped && !over.armed && !over.timer
  {
    AfterSix(running, Alarm, Go, Go, Go, Go, Go);
    CutHere(running, name);
    CutStepSettles(Do(Do(running, Alarm), Go), name);
  }

  lemma AfterFive(s: State, a: Action, b: Action, c: Action, d: Action, e: Action)
    ensures After(s, [a, b, c, d, e]) == Do(Do(Do(Do(Do(s, a), b), c), d), e)
  {
    AfterFour(s, a, b, c, d);
    AfterStep(s, [a, b, c, d], e, [a, b, c, d, e]);
  }

  lemma ErrorSettles(s: State, name: string, error: Error, context: seq<Error>)
    requires s.phase == InRun(name, Final(Some(Fails(error, context)), false, Before)) && s.armed
    ensures Do(Do(Do(Do(s, Go), Go), Go), Go) ==
            Log(s, Unwinding(Fails(error, context)), name, RaisedOut).(armed := false, timer := false)
  {
    var out := Some(Fails(error, context));
    var inside := At(s, name, Final(out, false, Inside));
    var cleared := At(s, name, Final(out, false, Cleared)).(armed := false);
    var behind := At(s, name, Final(out, false, Behind)).(armed := false, timer := false);
    assert Do(s, Go) == RunFinally(s, name, out, false, Before) == inside;
    assert Do(inside, Go) == RunFinally(inside, name, out, false, Inside) == cleared;
    assert Do(cleared, Go) == RunFinally(cleared, name, out, false, Cleared) == behind;
    assert Do(behind, Go) == RunFinally(behind, name, out, false, Behind);
  }

  /** What a step raises leaves `run` once the flag and the timer are cleared; the body may catch it and go on. */
  lemma StepErrorLeaves(now: State, name: string, running: State, error: Error, context: seq<Error>)
    requires StepRuns(now, name, running) && now.installed
    ensures
      var raised := After(running, [StepRaises(error, context), Go, Go, Go, Go]);
      && raised.phase == Unwinding(Fails(error, context)) && raised.trace == Then(now.trace, name, RaisedOut)
      && !raised.armed && !raised.timer && !raised.spent && raised.cut == now.cut && raised.skipped == now.skipped
      && Do(raised, BodyCatches).phase == Body
  {
    AfterFive(running, StepRaises(error, context), Go, Go, Go, Go);
    var raising := At(running, name, Final(Some(Fails(error, context)), false, Before));
    assert Do(running, StepRaises(error, context)) == raising;
    ErrorSettles(raising, name, error, context);
    CaughtByBody(Log(raising, Unwinding(Fails(error, context)), name, RaisedOut).(armed := false, timer := false));
  }

  lemma CaughtByBody(s: State)
    requires s.phase.Unwinding? && s.phase.flight.Fails?
    ensures Do(s, BodyCatches).phase == Body
  {
  }

  /** The exceptions that a step handles are those that a cut would find; the kept one nearest to it leaves instead. */
  lemma StepHandlesKept(now: State, name: string, running: State, handling: seq<Error>, e: Error)
    requires StepRuns(now, name, running) && now.installed && FirstKept(handling) == Some(e)
    ensures
      var cut := After(running, [StepHandles(handling), Alarm, Go]);
      cut.phase == InRun(name, Final(Some(Fails(e, [])), false, Before)) && !cut.spent && cut.cut == now.cut
  {
    AfterTwo(running, StepHandles(handling), Alarm);
    AfterStep(running, [StepHandles(handling), Alarm], Go, [StepHandles(handling), Alarm, Go]);
    var caught := Do(Do(running, StepHandles(handling)), Alarm);
    assert caught.phase == InRun(name, Caught(handling));
    assert Do(caught, Go) == RunHandler(caught, name, handling);
  }

  /** The statements of the `finally` of `guarded`; the flag may still be set, when a cut met its clearing in `run`. */
  function ToTheEnd(armed: bool): seq<Action> {
    if armed then [Go, Go, Go, Go] else [Go, Go, Go]
  }

  lemma GuardSettles(s: State, out: Option<Flight>)
    requires s.phase == GuardFinal(out, Before)
    ensures After(s, ToTheEnd(s.armed)).phase == Done(out) && !After(s, ToTheEnd(s.armed)).armed
  {
    var behind := s.(phase := GuardFinal(out, Behind), armed := false, timer := !s.armed && s.timer);
    GuardSteps(s, out, behind);
    AfterTwo(s, Go, Go);
    AfterStep(s, [Go, Go], Go, [Go, Go, Go]);
    AfterStep(s, [Go, Go, Go], Go, [Go, Go, Go, Go]);
    assert Do(behind, Go) == GuardFinally(behind, out, Behind);
  }

  lemma GuardSteps(s: State, out: Option<Flight>, behind: State)
    requires s.phase == GuardFinal(out, Before)
    requires behind == s.(phase := GuardFinal(out, Behind), armed := false, timer := !s.armed && s.timer)
    ensures if s.armed then Do(Do(Do(s, Go), Go), Go) == behind else Do(Do(s, Go), Go) == behind
  {
    var inside := s.(phase := GuardFinal(out, Inside));
    var cleared := s.(phase := GuardFinal(out, Cleared), armed := false);
    assert Do(s, Go) == GuardFinally(s, out, Before) == inside;
    assert Do(inside, Go) == GuardFinally(inside, out, Inside);
    assert s.armed ==> Do(inside, Go) == cleared;
    assert Do(cleared, Go) == GuardFinally(cleared, out, Cleared);
  }

  /** A body that ends ends `guarded`, and what it raises and does not catch leaves `guarded` as it was raised. */
  lemma BodyEndsGuarded(now: State, error: Error, context: seq<Error>)
    requires now.phase == Body
    ensures After(Do(now, EndBody), ToTheEnd(now.armed)).phase == Done(None)
    ensures !After(Do(now, EndBody), ToTheEnd(now.armed)).armed
    ensures
      var raised := Do(Do(now, BodyRaises(error, context)), Go);
      After(raised, ToTheEnd(now.armed)).phase == Done(Some(Fails(error, context)))
  {
    GuardSettles(Do(now, EndBody), None);
    GuardSettles(Do(Do(now, BodyRaises(error, context)), Go), Some(Fails(error, context)));
  }

  /** A cut raised inside the try of `_settle` goes no further: what was on its way out stays on it. */
  lemma CutInSettleIsSwallowed(s: State)
    requires s.armed && s.timer
    ensures
      s.phase.InRun? && s.phase.stage.Final? && s.phase.stage.settling.Inside? ==>
        var stage := s.phase.stage;
        Do(s, Alarm) == s.(timer := false, phase := InRun(s.phase.name, Final(stage.out, stage.wasCut, Behind)))
    ensures
      s.phase.GuardFinal? && s.phase.settling.Inside? ==>
        Do(s, Alarm) == s.(timer := false, phase := GuardFinal(s.phase.out, Behind))
  {
  }
}
