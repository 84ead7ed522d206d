/** Where the units of scripts/codex_input.py begin and end in the stream of events. */
module CodexSpans {
  // `UnitsAreSpans` says which events each unit is read from and what ends it; the lemmas on mouse reports follow whole
  // sequences through the stream.

  import opened CodexInput

  /* ---- units and events ---- */

  /** When the last byte came. */
  function LastKeyAt(events: seq<Event>): real {
    if events == [] then 0.0
    else
      var last := events[|events| - 1];
      if last.Key? then last.at else LastKeyAt(events[..|events| - 1])
  }

  /** No clock reading since the last byte shows the full wait. */
  predicate Patient(events: seq<Event>) {
    events == [] || events[|events| - 1].Key? ||
    (events[|events| - 1].now - LastKeyAt(events) < ESCAPE_WAIT && Patient(events[..|events| - 1]))
  }

  /** Where a unit ends that event number `n` completed: an event that only cut it off is not part of it. */
  function EndOf(u: Unit, e: Event, n: nat): nat
    requires 0 < n
  {
    if u.CutShort? || (u.Escape? && e.Key?) then n - 1 else n
  }

  function EndsOf(us: seq<Unit>, e: Event, n: nat): seq<nat>
    requires 0 < n
  {
    if us == [] then [] else EndsOf(us[..|us| - 1], e, n) + [EndOf(us[|us| - 1], e, n)]
  }

  /** How many events each unit ends behind. */
  function Ends(events: seq<Event>): seq<nat> {
    if events == [] then []
    else
      var rest, e := events[..|events| - 1], events[|events| - 1];
      Ends(rest) + EndsOf(Next(Tokenise(rest).open, e).1, e, |events|)
  }

  function LastEnd(ends: seq<nat>): nat {
    if ends == [] then 0 else ends[|ends| - 1]
  }

  predicate IsKey(e: Event, b: Byte) {
    e.Key? && e.b == b
  }

  /**
   * Why a unit ends where it does: Ctrl-C cuts anything short and a new Escape a started control sequence; a
   * held Escape key is released by a new Escape or by the first reading of the clock that shows the full
   * wait; every other unit ends with its own last byte.
   */
  predicate Finished(events: seq<Event>, end: nat, u: Unit)
    requires end <= |events|
  {
    match u
    case CutShort(_, held) =>
      end < |events| && (IsKey(events[end], INTERRUPT) || (IsKey(events[end], ESC) && IsPartial(held)))
    case Escape(_, _) =>
      || (end < |events| && IsKey(events[end], ESC) && Patient(events[..end]))
      || (0 < end && events[end - 1].Tick? && Patient(events[..end - 1]) && !Patient(events[..end]))
    case Chord(_, _, b) => 0 < end && IsKey(events[end - 1], b) && Patient(events[..end - 1])
    case _ => 0 < end && events[end - 1].Key?
  }

  /** The unit was read from the events from `start` to `end`. */
  predicate IsSpan(events: seq<Event>, start: nat, end: nat, u: Unit) {
    && start <= end <= |events|
    && BytesOf(events[start..end]) == Raw(u) && Finished(events, end, u)
  }

  /** One unit behind the other, each from a run of events of its own. */
  predicate AllSpans(events: seq<Event>, us: seq<Unit>, ends: seq<nat>) {
    if us == [] || ends == [] then us == [] && ends == []
    else
      var before := ends[..|ends| - 1];
      && IsSpan(events, LastEnd(before), ends[|ends| - 1], us[|us| - 1])
      && AllSpans(events, us[..|us| - 1], before)
  }

  /** The unfinished unit was read from the events from `start` on. */
  predicate OpenSpan(events: seq<Event>, start: nat, m: Mode) {
    && start <= |events| && BytesOf(events[start..]) == RawOpen(m)
    && (m.Escaped? ==> m.at == LastKeyAt(events) && Patient(events))
  }

  lemma LastDropped(events: seq<Event>, e: Event)
    ensures (events + [e])[..|events + [e]| - 1] == events
    ensures BytesOf(events + [e]) == BytesOf(events) + ByteOf(e)
    ensures LastKeyAt(events + [e]) == if e.Key? then e.at else LastKeyAt(events)
    ensures Patient(events + [e]) <==> e.Key? || (e.now - LastKeyAt(events) < ESCAPE_WAIT && Patient(events))
  {
    assert (events + [e])[..|events + [e]| - 1] == events;
  }

  /** More events do not change a unit that has ended. */
  lemma SpanStays(events: seq<Event>, e: Event, start: nat, end: nat, u: Unit)
    requires IsSpan(events, start, end, u)
    ensures IsSpan(events + [e], start, end, u)
  {
    var more := events + [e];
    assert more[start..end] == events[start..end] && more[..end] == events[..end];
    if 0 < end {
      assert more[..end - 1] == events[..end - 1];
    }
  }

  lemma SpanGrows(events: seq<Event>, e: Event, start: nat)
    requires start <= |events|
    ensures BytesOf((events + [e])[start..]) == BytesOf(events[start..]) + ByteOf(e)
    ensures (events + [e])[start..|events|] == events[start..]
    ensures (events + [e])[start..|events + [e]|] == (events + [e])[start..]
    ensures BytesOf((events + [e])[|events|..]) == ByteOf(e)
    ensures (events + [e])[..|events|] == events
  {
    assert (events + [e])[start..] == events[start..] + [e];
    LastDropped(events[start..], e);
    assert (events + [e])[|events|..] == [] + [e];
    LastDropped([], e);
  }

  lemma {:induction false} SpansStay(events: seq<Event>, e: Event, us: seq<Unit>, ends: seq<nat>)
    requires AllSpans(events, us, ends)
    ensures AllSpans(events + [e], us, ends)
  {
    if us != [] {
      var before := ends[..|ends| - 1];
      SpansStay(events, e, us[..|us| - 1], before);
      SpanStays(events, e, LastEnd(before), ends[|ends| - 1], us[|us| - 1]);
    }
  }

  lemma AddSpan(events: seq<Event>, us: seq<Unit>, ends: seq<nat>, u: Unit, end: nat)
    requires AllSpans(events, us, ends) && IsSpan(events, LastEnd(ends), end, u)
    ensures AllSpans(events, us + [u], ends + [end]) && LastEnd(ends + [end]) == end
  {
    assert (us + [u])[..|us|] == us && (ends + [end])[..|ends|] == ends;
  }

  /** What one event adds: nothing, or one unit that ends at `end` with `next` open behind it. */
  predicate OneSpan(events: seq<Event>, start: nat, m: Mode, e: Event) {
    ModeHolds(m) &&
    var (next, us) := Next(m, e);
    if us == [] then OpenSpan(events, start, next)
    else
      && us == [us[0]] && 0 < |events|
      && IsSpan(events, start, EndOf(us[0], e, |events|), us[0])
      && OpenSpan(events, EndOf(us[0], e, |events|), next)
  }

  /** A Tick either leaves everything open or releases a held Escape key. */
  lemma TickSpan(events: seq<Event>, now: real, start: nat, m: Mode)
    requires OpenSpan(events, start, m) && ModeHolds(m)
    ensures OneSpan(events + [Tick(now)], start, m, Tick(now))
  {
    SpanGrows(events, Tick(now), start);
    LastDropped(events, Tick(now));
    assert BytesOf(events[start..]) + [] == BytesOf(events[start..]);
    var more := events + [Tick(now)];
    assert more[..|more|] == more && more[|more|..] == [];
  }

  lemma ReleasedSpan(events: seq<Event>, at: real, start: nat, m: Mode)
    requires OpenSpan(events, start, m) && OpenUnit(m) && (m.Escaped? || m.Control?)
    ensures OneSpan(events + [Key(ESC, at)], start, m, Key(ESC, at))
  {
    SpanGrows(events, Key(ESC, at), start);
    LastDropped(events, Key(ESC, at));
  }

  lemma CancelledSpan(events: seq<Event>, at: real, start: nat, m: Mode)
    requires OpenSpan(events, start, m) && OpenUnit(m) && (m.Escaped? || m.Control?)
    ensures
      var more := events + [Key(INTERRUPT, at)];
      && IsSpan(more, start, |events|, CutShort(m.raw, if m.Escaped? then m.key else m.sequence))
      && IsSpan(more, |events|, |more|, Interrupt) && OpenSpan(more, |more|, Idle)
  {
    var more := events + [Key(INTERRUPT, at)];
    SpanGrows(events, Key(INTERRUPT, at), start);
    SpanGrows(events, Key(INTERRUPT, at), |events|);
    assert more[|more|..] == [];
  }

  lemma EndsHere(events: seq<Event>, b: Byte, at: real, start: nat, u: Unit)
    requires start <= |events| && BytesOf(events[start..]) + [b] == Raw(u)
    requires !u.CutShort? && !u.Escape? && (u.Chord? ==> u.b == b && Patient(events))
    ensures IsSpan(events + [Key(b, at)], start, |events| + 1, u)
  {
    SpanGrows(events, Key(b, at), start);
  }

  lemma GoesOn(events: seq<Event>, b: Byte, at: real, start: nat, m: Mode)
    requires start <= |events| && BytesOf(events[start..]) + [b] == RawOpen(m) && (m.Escaped? ==> m.at == at)
    ensures OpenSpan(events + [Key(b, at)], start, m)
  {
    SpanGrows(events, Key(b, at), start);
    LastDropped(events, Key(b, at));
  }

  lemma NothingOpen(events: seq<Event>, m: Mode)
    requires RawOpen(m) == [] && !m.Escaped?
    ensures OpenSpan(events, |events|, m)
  {
    assert events[|events|..] == [];
  }

  lemma GrowSpan(events: seq<Event>, b: Byte, at: real, start: nat, raw: seq<Byte>, sequence: seq<Byte>)
    requires OpenSpan(events, start, Control(raw, sequence)) && 2 <= |sequence| && b != ESC && b != INTERRUPT
    ensures OneSpan(events + [Key(b, at)], start, Control(raw, sequence), Key(b, at))
  {
    var (next, us) := Grow(raw + [b], sequence + [b], at);
    GrowGives(raw + [b], sequence + [b], at);
    GrownSpan(events, b, at, start, next, us, raw);
  }

  /** A grown sequence goes on or is complete, and then nothing of it is left open. */
  lemma GrowGives(raw: seq<Byte>, sequence: seq<Byte>, at: real)
    requires 2 < |sequence|
    ensures
      var (next, us) := Grow(raw, sequence, at);
      if us == [] then RawOpen(next) == raw && (next.Escaped? ==> next.at == at)
      else us == [us[0]] && Raw(us[0]) == raw && (us[0].Sequence? || us[0].Mouse?) && RawOpen(next) == [] && !next.Escaped?
  {
  }

  lemma GrownSpan(events: seq<Event>, b: Byte, at: real, start: nat, next: Mode, us: seq<Unit>, raw: seq<Byte>)
    requires start <= |events| && BytesOf(events[start..]) == raw
    requires
      if us == [] then RawOpen(next) == raw + [b] && (next.Escaped? ==> next.at == at)
      else us == [us[0]] && Raw(us[0]) == raw + [b] && (us[0].Sequence? || us[0].Mouse?)
           && RawOpen(next) == [] && !next.Escaped?
    ensures
      var more := events + [Key(b, at)];
      if us == [] then OpenSpan(more, start, next)
      else IsSpan(more, start, |more|, us[0]) && OpenSpan(more, |more|, next)
  {
    if us == [] {
      GoesOn(events, b, at, start, next);
    } else {
      EndsHere(events, b, at, start, us[0]);
      NothingOpen(events + [Key(b, at)], next);
    }
  }

  /** A byte that belongs to the open unit goes on with it or completes it. */
  lemma BelongsSpan(events: seq<Event>, b: Byte, at: real, start: nat, m: Mode)
    requires OpenSpan(events, start, m) && ModeHolds(m)
    requires m.Escaped? || m.Control? ==> b != ESC && b != INTERRUPT
    ensures OneSpan(events + [Key(b, at)], start, m, Key(b, at))
  {
    if m.Control? {
      GrowSpan(events, b, at, start, m.raw, m.sequence);
    } else {
      var (next, us) := Next(m, Key(b, at));
      if us == [] {
        GoesOn(events, b, at, start, next);
      } else {
        EndsHere(events, b, at, start, us[0]);
        NothingOpen(events + [Key(b, at)], next);
      }
    }
  }

  lemma OneEnd(u: Unit, e: Event, n: nat)
    requires 0 < n
    ensures EndsOf([u], e, n) == [EndOf(u, e, n)]
  {
    assert [u][..0] == [];
  }

  lemma OneByOne<T>(s: seq<T>, a: T, b: T)
    ensures s + [a, b] == s + [a] + [b]
  {
  }

  lemma TwoEnds(u: Unit, v: Unit, e: Event, n: nat)
    requires 0 < n
    ensures EndsOf([u, v], e, n) == [EndOf(u, e, n), EndOf(v, e, n)]
  {
    assert [u, v][..1] == [u];
    OneEnd(u, e, n);
  }

  /** What one event makes of the spans: `more` is the stream with the event. */
  predicate SpansAfter(more: seq<Event>, us: seq<Unit>, ends: seq<nat>, m: Mode, e: Event)
    requires ModeHolds(m) && more != []
  {
    var (next, added) := Next(m, e);
    var all := ends + EndsOf(added, e, |more|);
    AllSpans(more, us + added, all) && OpenSpan(more, LastEnd(all), next)
  }

  lemma AddOneSpan(more: seq<Event>, us: seq<Unit>, ends: seq<nat>, m: Mode, e: Event)
    requires AllSpans(more, us, ends) && OneSpan(more, LastEnd(ends), m, e) && 0 < |more|
    ensures SpansAfter(more, us, ends, m, e)
  {
    var added := Next(m, e).1;
    if added == [] {
      assert us + added == us && ends + EndsOf(added, e, |more|) == ends;
    } else {
      OneEnd(added[0], e, |more|);
      AddSpan(more, us, ends, added[0], EndOf(added[0], e, |more|));
    }
  }

  lemma AddTwoSpans(events: seq<Event>, us: seq<Unit>, ends: seq<nat>, u: Unit, v: Unit, e: Event, n: nat)
    requires AllSpans(events, us, ends) && 0 < n && EndOf(u, e, n) == n - 1 && EndOf(v, e, n) == n
    requires IsSpan(events, LastEnd(ends), n - 1, u) && IsSpan(events, n - 1, n, v)
    ensures AllSpans(events, us + [u, v], ends + EndsOf([u, v], e, n)) && LastEnd(ends + EndsOf([u, v], e, n)) == n
  {
    var k: nat := n - 1;
    AddSpan(events, us, ends, u, k);
    AddSpan(events, us + [u], ends + [k], v, n);
    TwoEnds(u, v, e, n);
    OneByOne(us, u, v);
    OneByOne(ends, k, n);
  }

  lemma AddCancelled(events: seq<Event>, more: seq<Event>, us: seq<Unit>, ends: seq<nat>, m: Mode, e: Event)
    requires more == events + [e] && IsKey(e, INTERRUPT)
    requires AllSpans(more, us, ends) && OpenSpan(events, LastEnd(ends), m)
    requires OpenUnit(m) && ModeHolds(m) && (m.Escaped? || m.Control?)
    ensures SpansAfter(more, us, ends, m, e)
  {
    var cut := CutShort(m.raw, if m.Escaped? then m.key else m.sequence);
    CancelledSpan(events, e.at, LastEnd(ends), m);
    CancelNext(m, e.at, cut);
    AddCut(more, us, ends, cut, e);
  }

  lemma AddCut(more: seq<Event>, us: seq<Unit>, ends: seq<nat>, cut: Unit, e: Event)
    requires AllSpans(more, us, ends) && more != [] && cut.CutShort?
    requires IsSpan(more, LastEnd(ends), |more| - 1, cut) && IsSpan(more, |more| - 1, |more|, Interrupt)
    requires OpenSpan(more, |more|, Idle)
    ensures
      var all := ends + EndsOf([cut, Interrupt], e, |more|);
      AllSpans(more, us + [cut, Interrupt], all) && OpenSpan(more, LastEnd(all), Idle)
  {
    AddTwoSpans(more, us, ends, cut, Interrupt, e, |more|);
  }

  lemma CancelNext(m: Mode, at: real, cut: Unit)
    requires ModeHolds(m) && (m.Escaped? || m.Control?)
    requires cut == CutShort(m.raw, if m.Escaped? then m.key else m.sequence)
    ensures Next(m, Key(INTERRUPT, at)) == (Idle, [cut, Interrupt])
  {
  }

  lemma EventSpan(events: seq<Event>, start: nat, m: Mode, e: Event)
    requires OpenSpan(events, start, m) && OpenUnit(m) && ModeHolds(m)
    requires !(m.Escaped? || m.Control?) || !IsKey(e, INTERRUPT)
    ensures OneSpan(events + [e], start, m, e)
  {
    if e.Tick? {
      TickSpan(events, e.now, start, m);
    } else if (m.Escaped? || m.Control?) && e.b == ESC {
      ReleasedSpan(events, e.at, start, m);
    } else {
      BelongsSpan(events, e.b, e.at, start, m);
    }
  }

  lemma AddOther(events: seq<Event>, more: seq<Event>, us: seq<Unit>, ends: seq<nat>, m: Mode, e: Event)
    requires more == events + [e] && AllSpans(more, us, ends) && OpenSpan(events, LastEnd(ends), m)
    requires OpenUnit(m) && ModeHolds(m) && (!(m.Escaped? || m.Control?) || !IsKey(e, INTERRUPT))
    ensures SpansAfter(more, us, ends, m, e)
  {
    EventSpan(events, LastEnd(ends), m, e);
    AddOneSpan(more, us, ends, m, e);
  }

  /** The spans behind one more event. */
  lemma NextSpans(events: seq<Event>, more: seq<Event>, us: seq<Unit>, ends: seq<nat>, m: Mode, e: Event)
    requires more == events + [e]
    requires AllSpans(events, us, ends) && OpenSpan(events, LastEnd(ends), m) && OpenUnit(m) && ModeHolds(m)
    ensures SpansAfter(more, us, ends, m, e)
  {
    SpansStay(events, e, us, ends);
    if (m.Escaped? || m.Control?) && IsKey(e, INTERRUPT) {
      AddCancelled(events, more, us, ends, m, e);
    } else {
      AddOther(events, more, us, ends, m, e);
    }
  }

  lemma EndsStep(events: seq<Event>, e: Event)
    ensures Ends(events + [e]) == Ends(events) + EndsOf(Next(Tokenise(events).open, e).1, e, |events| + 1)
  {
    assert (events + [e])[..|events + [e]| - 1] == events;
  }

  predicate SpansHold(events: seq<Event>, t: Tokens, ends: seq<nat>) {
    AllSpans(events, t.units, ends) && OpenSpan(events, LastEnd(ends), t.open)
  }

  lemma SpansStep(events: seq<Event>, e: Event, more: seq<Event>)
    requires SpansHold(events, Tokenise(events), Ends(events)) && OpenUnit(Tokenise(events).open) && more == events + [e]
    ensures SpansHold(more, Tokenise(more), Ends(more))
  {
    var before := Tokenise(events);
    NextSpans(events, more, before.units, Ends(events), before.open, e);
    TokeniseStep(events, e);
    EndsStep(events, e);
  }

  /**
   * Each unit is read from a run of events of its own, one run behind the other, and ends where it does for one
   * of the reasons in `Finished`: no control sequence is cut off without a Ctrl-C or a new Escape, and no
   * Escape key is released before the full wait.
   */
  lemma {:induction false} UnitsAreSpans(events: seq<Event>)
    ensures SpansHold(events, Tokenise(events), Ends(events))
  {
    if events == [] {
      NoSpans();
    } else {
      var rest, e := events[..|events| - 1], events[|events| - 1];
      UnitsAreSpans(rest);
      OpenIsUnit(rest);
      SpansStep(rest, e, events);
    }
  }

  lemma NoSpans()
    ensures SpansHold([], Tokenise([]), Ends([]))
  {
  }

  lemma OpenIsUnit(events: seq<Event>)
    ensures OpenUnit(Tokenise(events).open)
  {
    StreamIsTiled(events);
  }

  /** An Escape key is held no longer than the wait, counted from its last byte. */
  lemma EscapeWaits(events: seq<Event>)
    ensures Tokenise(events).open.Escaped? ==> Patient(events) && Tokenise(events).open.at == LastKeyAt(events)
  {
    UnitsAreSpans(events);
  }

  /* ---- mouse reports ---- */

  /** What a new Escape ends. */
  function BrokenOff(m: Mode): seq<Unit>
    requires ModeHolds(m)
  {
    Next(m, Key(ESC, 0.0)).1
  }

  /** While an Escape is all that was typed, no clock reading shows the full wait. */
  predicate InTime(keys: seq<Event>) {
    keys == [] || (InTime(keys[..|keys| - 1]) && (BytesOf(keys) == [ESC] ==> Patient(keys)))
  }

  /** `keys` types `s` from its Escape on, and the byte behind the Escape comes before the full wait. */
  predicate Types(keys: seq<Event>, s: seq<Byte>) {
    keys != [] && IsKey(keys[0], ESC) && BytesOf(keys) == s && InTime(keys)
  }

  lemma {:induction false} FirstByte(keys: seq<Event>)
    requires keys != [] && IsKey(keys[0], ESC)
    ensures [ESC] <= BytesOf(keys)
  {
    if |keys| == 1 {
      LastDropped([], keys[0]);
      assert keys == [] + [keys[0]];
    } else {
      FirstByte(keys[..|keys| - 1]);
    }
  }

  lemma {:induction false} PartialPrefix(s: seq<Byte>, t: seq<Byte>)
    requires IsPartial(s) && t <= s && 2 <= |t|
    ensures IsPartial(t)
  {
  }

  lemma TypesLess(keys: seq<Event>, s: seq<Byte>)
    requires Types(keys, s) && 1 < |keys|
    ensures Types(keys[..|keys| - 1], BytesOf(keys[..|keys| - 1]))
    ensures s == BytesOf(keys[..|keys| - 1]) + ByteOf(keys[|keys| - 1])
  {
  }

  /** Where a part of a control sequence leaves the tokeniser. */
  predicate Typed(m: Mode, keys: seq<Event>, s: seq<Byte>) {
    if s == [ESC] then m == Escaped([ESC], [ESC], LastKeyAt(keys)) else m == Control(s, s)
  }

  lemma TypedStep(m: Mode, keys: seq<Event>, s: seq<Byte>, e: Event)
    requires ModeHolds(m) && Typed(m, keys, s) && (s == [ESC] || IsPartial(s))
    requires e.Key? ==> IsPartial(s + [e.b])
    requires e.Tick? && s == [ESC] ==> Patient(keys + [e])
    ensures Next(m, e).1 == [] && Typed(Next(m, e).0, keys + [e], s + ByteOf(e))
  {
    LastDropped(keys, e);
    if e.Key? {
      var t := s + [e.b];
      assert t[|t| - 1] == e.b && t[1] != ESC && t[|t| - 1] != INTERRUPT && t[|t| - 1] != ESC;
    } else {
      assert s + [] == s;
    }
  }

  predicate TypedBehind(before: Tokens, after: Tokens, keys: seq<Event>, s: seq<Byte>)
    requires ModeHolds(before.open)
  {
    after.units == before.units + BrokenOff(before.open) && Typed(after.open, keys, s)
  }

  /** One more event of a control sequence that goes on. */
  lemma TypedOn(before: Tokens, mid: Tokens, after: Tokens, less: seq<Event>, e: Event, t: seq<Byte>)
    requires ModeHolds(before.open) && ModeHolds(mid.open)
    requires after == Tokens(mid.units + Next(mid.open, e).1, Next(mid.open, e).0)
    requires TypedBehind(before, mid, less, t) && (t == [ESC] || IsPartial(t))
    requires e.Key? ==> IsPartial(t + [e.b])
    requires e.Tick? && t == [ESC] ==> Patient(less + [e])
    ensures TypedBehind(before, after, less + [e], t + ByteOf(e))
  {
    TypedStep(mid.open, less, t, e);
  }

  lemma TokeniseBehind(events: seq<Event>, less: seq<Event>, e: Event, keys: seq<Event>)
    requires keys == less + [e]
    ensures
      var mid := Tokenise(events + less);
      Tokenise(events + keys) == Tokens(mid.units + Next(mid.open, e).1, Next(mid.open, e).0)
  {
    TokeniseStep(events + less, e);
    assert events + keys == events + less + [e];
  }

  /** The Escape that a control sequence begins with. */
  lemma TypedFirst(events: seq<Event>, e: Event)
    requires !Tokenise(events).open.Pasting? && IsKey(e, ESC)
    ensures TypedBehind(Tokenise(events), Tokenise(events + [e]), [e], [ESC])
  {
    TokeniseStep(events, e);
    LastDropped([], e);
    assert [e] == [] + [e];
  }

  lemma {:induction false} TypedPart(events: seq<Event>, keys: seq<Event>, s: seq<Byte>)
    requires !Tokenise(events).open.Pasting? && Types(keys, s) && (s == [ESC] || IsPartial(s))
    ensures TypedBehind(Tokenise(events), Tokenise(events + keys), keys, s)
  {
    var less, e := keys[..|keys| - 1], keys[|keys| - 1];
    assert keys == less + [e];
    if less == [] {
      TypedFirst(events, e);
      LastDropped([], e);
    } else {
      var t := BytesOf(less);
      TypesLess(keys, s);
      FirstByte(less);
      assert t <= s;
      if 2 <= |t| {
        PartialPrefix(s, t);
      }
      TypedPart(events, less, t);
      TokeniseBehind(events, less, e, keys);
      TypedOn(Tokenise(events), Tokenise(events + less), Tokenise(events + keys), less, e, t);
    }
  }

  lemma {:induction false} LastByte(keys: seq<Event>) returns (part: seq<Event>, e: Event, ticks: seq<Event>)
    requires BytesOf(keys) != []
    ensures keys == part + [e] + ticks && e.Key? && BytesOf(ticks) == []
    ensures BytesOf(keys) == BytesOf(part) + [e.b]
  {
    var less, last := keys[..|keys| - 1], keys[|keys| - 1];
    if last.Key? {
      part, e, ticks := less, last, [];
    } else {
      part, e, ticks := LastByte(less);
      LastDropped(ticks, last);
      ticks := ticks + [last];
    }
  }

  lemma {:induction false} StaysInTime(part: seq<Event>, ticks: seq<Event>)
    requires InTime(part + ticks)
    ensures InTime(part)
  {
    if ticks == [] {
      assert part + ticks == part;
    } else {
      assert (part + ticks)[..|part + ticks| - 1] == part + ticks[..|ticks| - 1];
      StaysInTime(part, ticks[..|ticks| - 1]);
    }
  }

  lemma {:induction false} TicksPass(events: seq<Event>, ticks: seq<Event>)
    requires !Tokenise(events).open.Escaped? && BytesOf(ticks) == []
    ensures Tokenise(events + ticks) == Tokenise(events)
  {
    if ticks == [] {
      assert events + ticks == events;
    } else {
      var less, e := ticks[..|ticks| - 1], ticks[|ticks| - 1];
      TicksPass(events, less);
      TokeniseStep(events + less, e);
      assert events + ticks == events + less + [e];
    }
  }

  /** No byte behind the first cancels or restarts the sequence. */
  predicate Unbroken(s: seq<Byte>) {
    forall i :: 1 <= i < |s| ==> s[i] != ESC && s[i] != INTERRUPT
  }

  lemma SequenceEnds(t: seq<Byte>, b: Byte, at: real)
    requires IsPartial(t) && b != ESC && b != INTERRUPT
    requires IsMouseReport(t + [b]) || (IsComplete(t + [b]) && !IsEscapeKey(t + [b]))
    ensures
      var s := t + [b];
      Next(Control(t, t), Key(b, at)) ==
      (if s == PASTE_START then Pasting([]) else Idle, [if IsMouseReport(s) then Mouse(s, s) else Sequence(s, s)])
  {
    var s := t + [b];
    assert s[|s| - 1] == b && s[0] == ESC;
    assert s[..2] == [ESC, CSI] <==> s[1] == CSI;
    if IsMouseReport(s) {
      NoPasteStart(s);
    }
  }

  lemma NoPasteStart(s: seq<Byte>)
    requires IsMouseReport(s)
    ensures s != PASTE_START
  {
    assert PASTE_START[2] != LEGACY_MOUSE[2] && !IsMouseFinal(PASTE_START[|PASTE_START| - 1]);
  }

  lemma StartIsPartial(t: seq<Byte>, b: Byte)
    requires IsMouseReport(t + [b]) || IsComplete(t + [b])
    requires Unbroken(t + [b])
    ensures IsPartial(t)
  {
    var s := t + [b];
    assert s[..|s| - 1] == t;
    if LEGACY_MOUSE <= s && |s| == 6 {
      assert forall i :: 1 <= i < |t| ==> t[i] == s[i];
      assert LEGACY_MOUSE <= t;
    }
  }

  /** A whole control sequence behind what was read: one unit, and nothing open but a paste that it began. */
  function WithSequence(before: Tokens, s: seq<Byte>): Tokens
    requires ModeHolds(before.open)
  {
    Tokens(
      before.units + BrokenOff(before.open) + [if IsMouseReport(s) then Mouse(s, s) else Sequence(s, s)],
      if s == PASTE_START then Pasting([]) else Idle)
  }

  /**
   * A control sequence typed outside a paste, with clock readings anywhere in it, is one unit: dropped when it is
   * a mouse report, and passed on whole when it is neither that nor an Escape key.
   */
  lemma SequenceIsOneUnit(events: seq<Event>, keys: seq<Event>, s: seq<Byte>)
    requires !Tokenise(events).open.Pasting? && Types(keys, s) && Unbroken(s)
    requires IsMouseReport(s) || (IsComplete(s) && !IsEscapeKey(s))
    ensures Tokenise(events + keys) == WithSequence(Tokenise(events), s)
  {
    var part, e, ticks := LastByte(keys);
    LastByteEnds(events, keys, part, e, ticks, s);
    TicksPass(events + part + [e], ticks);
    FourParts(events, part, [e], ticks);
  }

  lemma FourParts<T>(a: seq<T>, b: seq<T>, c: seq<T>, d: seq<T>)
    ensures a + (b + c + d) == a + b + c + d
  {
  }

  lemma LastByteEnds(
    events: seq<Event>, keys: seq<Event>, part: seq<Event>, e: Event, ticks: seq<Event>, s: seq<Byte>)
    requires !Tokenise(events).open.Pasting? && Types(keys, s) && Unbroken(s)
    requires IsMouseReport(s) || (IsComplete(s) && !IsEscapeKey(s))
    requires keys == part + [e] + ticks && e.Key? && s == BytesOf(part) + [e.b]
    ensures Tokenise(events + part + [e]) == WithSequence(Tokenise(events), s)
  {
    var t := BytesOf(part);
    assert keys == part + ([e] + ticks);
    StaysInTime(part, [e] + ticks);
    assert s[|t|] == e.b;
    StartIsPartial(t, e.b);
    TypedPart(events, part, t);
    TokeniseStep(events + part, e);
    SequenceEnds(t, e.b, e.at);
  }

  /** A mouse report typed outside a paste lets nothing out but an Escape key that was held before it. */
  lemma MouseReportIsDropped(events: seq<Event>, keys: seq<Event>, report: seq<Byte>)
    requires !Tokenise(events).open.Pasting? && Types(keys, report) && Unbroken(report) && IsMouseReport(report)
    ensures
      var open := Tokenise(events).open;
      Emitted(events + keys) == Emitted(events) + if open.Escaped? then open.key else []
  {
    SequenceIsOneUnit(events, keys, report);
    MouseOut(Tokenise(events), report);
  }

  lemma MouseOut(before: Tokens, report: seq<Byte>)
    requires IsMouseReport(report) && ModeHolds(before.open) && !before.open.Pasting?
    ensures
      var after := WithSequence(before, report);
      && OutOpen(after.open) == OutOpen(before.open) == []
      && OutAll(after.units) == OutAll(before.units) + if before.open.Escaped? then before.open.key else []
  {
    NoPasteStart(report);
    BrokenOut(before.open);
    DroppedOut(before.units, BrokenOff(before.open), Mouse(report, report));
  }

  lemma DroppedOut(us: seq<Unit>, vs: seq<Unit>, u: Unit)
    requires Out(u) == []
    ensures OutAll(us + vs + [u]) == OutAll(us) + OutAll(vs)
  {
    assert (us + vs + [u])[..|us + vs|] == us + vs;
    OutAllJoin(us, vs);
  }

  lemma BrokenOut(m: Mode)
    requires ModeHolds(m) && !m.Pasting?
    ensures OutAll(BrokenOff(m)) == if m.Escaped? then m.key else []
  {
    match m
    case Idle =>
    case Escaped(raw, key, _) => OneUnit(Escape(raw, key));
    case Control(raw, sequence) => OneUnit(CutShort(raw, sequence));
  }

  /** The unit that gives byte `p` of the output. */
  function UnitAt(us: seq<Unit>, p: nat): Unit
    requires p < |OutAll(us)|
  {
    if p < |OutAll(us[..|us| - 1])| then UnitAt(us[..|us| - 1], p) else us[|us| - 1]
  }

  lemma {:induction false} UnitAtPlace(us: seq<Unit>, p: nat) returns (lo: nat)
    requires p < |OutAll(us)|
    ensures UnitAt(us, p) in us
    ensures lo <= p < lo + |Out(UnitAt(us, p))| <= |OutAll(us)|
    ensures OutAll(us)[lo..lo + |Out(UnitAt(us, p))|] == Out(UnitAt(us, p))
  {
    var rest := us[..|us| - 1];
    if p < |OutAll(rest)| {
      lo := UnitAtPlace(rest, p);
    } else {
      lo := |OutAll(rest)|;
    }
  }

  /** One of two control sequences that begin alike is not the start of the other. */
  lemma NoMouseBehind(s: seq<Byte>, report: seq<Byte>)
    requires IsComplete(s) && !IsMouseReport(s) && IsMouseReport(report)
    ensures !(s <= report) && !(report <= s)
  {
  }

  lemma NoReportHere(s: seq<Byte>, output: seq<Byte>, p: nat, q: nat)
    requires IsComplete(s) && !IsMouseReport(s) && p + |s| <= |output| && output[p..p + |s|] == s
    requires p <= q <= |output|
    ensures !IsMouseReport(output[p..q])
  {
    if IsMouseReport(output[p..q]) {
      NoMouseBehind(s, output[p..q]);
      Prefixes(output, p, q, p + |s|);
    }
  }

  lemma EscapeKeyIsComplete(key: seq<Byte>)
    requires IsEscapeKey(key)
    ensures IsComplete(key) && !IsMouseReport(key)
  {
    assert key[2] != LEGACY_MOUSE[2];
    assert !(LEGACY_MOUSE <= key);
    assert key[..|key| - 1][..2] == [ESC, CSI];
    assert IsPartial(key[..|key| - 1]);
  }

  lemma OnlyFirstEscape(s: seq<Byte>, k: nat)
    requires IsComplete(s) && k < |s| && s[k] == ESC
    ensures k == 0
  {
    assert k < |s| - 1 ==> s[..|s| - 1][k] == s[k];
  }

  lemma KeyGivesNoReport(key: seq<Byte>, output: seq<Byte>, lo: nat, p: nat, q: nat)
    requires IsEscapeKey(key) && lo <= p < lo + |key| <= |output| && output[lo..lo + |key|] == key
    requires p <= q <= |output| && output[p] == ESC
    ensures !IsMouseReport(output[p..q])
  {
    EscapeKeyIsComplete(key);
    assert key[p - lo] == output[p];
    OnlyFirstEscape(key, p - lo);
    NoReportHere(key, output, p, q);
  }

  lemma SequenceGivesNoReport(s: seq<Byte>, output: seq<Byte>, lo: nat, p: nat, q: nat)
    requires IsComplete(s) && !IsMouseReport(s)
    requires lo <= p < lo + |s| <= |output| && output[lo..lo + |s|] == s
    requires p <= q <= |output| && output[p] == ESC
    ensures !IsMouseReport(output[p..q])
  {
    assert s[p - lo] == output[p];
    OnlyFirstEscape(s, p - lo);
    NoReportHere(s, output, p, q);
  }

  lemma ChordGivesNoReport(key: seq<Byte>, b: Byte, output: seq<Byte>, lo: nat, p: nat, q: nat)
    requires key == [ESC] || IsEscapeKey(key)
    requires b != ESC && b != CSI
    requires lo <= p < lo + |key| + 1 <= |output| && output[lo..lo + |key| + 1] == key + [b]
    requires p <= q <= |output| && output[p] == ESC
    ensures !IsMouseReport(output[p..q])
  {
    assert output[p] == (key + [b])[p - lo];
    if key == [ESC] {
      assert output[p + 1] == (key + [b])[1];
      assert 2 <= q - p ==> output[p..q][1] == output[p + 1];
    } else {
      assert output[lo..lo + |key|] == (key + [b])[..|key|] == key;
      KeyGivesNoReport(key, output, lo, p, q);
    }
  }

  /** A mouse report in the output that begins in this unit. */
  lemma ReportBegins(u: Unit, output: seq<Byte>, lo: nat, p: nat, q: nat)
    requires WholeUnit(u) && lo <= p < lo + |Out(u)| <= |output| && output[lo..lo + |Out(u)|] == Out(u)
    requires p <= q <= |output| && IsMouseReport(output[p..q])
    ensures u.Paste? || (u.Escape? && u.key == [ESC])
  {
    assert output[p..q][0] == output[p] == Out(u)[p - lo];
    match u
    case Sequence(_, s) => SequenceGivesNoReport(s, output, lo, p, q);
    case Escape(_, key) =>
      if key != [ESC] {
        KeyGivesNoReport(key, output, lo, p, q);
      }
    case Chord(_, key, b) => ChordGivesNoReport(key, b, output, lo, p, q);
    case _ =>
  }

  lemma Prefixes(output: seq<Byte>, p: nat, q: nat, r: nat)
    requires p <= q <= |output| && p <= r <= |output|
    ensures output[p..q] <= output[p..r] || output[p..r] <= output[p..q]
  {
  }

  /**
   * A mouse report anywhere in the output was pasted, or began with an Escape key that had been released: no
   * report passes the framer, and none comes about from the pieces of something else.
   */
  lemma NoMouseReportPassesOn(events: seq<Event>, p: nat, q: nat)
    requires p <= q <= |Emitted(events)| && IsMouseReport(Emitted(events)[p..q])
    ensures
      var t := Tokenise(events);
      if p < |OutAll(t.units)| then
        var u := UnitAt(t.units, p);
        u.Paste? || (u.Escape? && u.key == [ESC])
      else t.open.Pasting?
  {
    var t := Tokenise(events);
    StreamIsTiled(events);
    ReportAt(t.units, t.open, Emitted(events), p, q);
  }

  lemma ReportAt(us: seq<Unit>, open: Mode, output: seq<Byte>, p: nat, q: nat)
    requires AllWhole(us) && output == OutAll(us) + OutOpen(open)
    requires p <= q <= |output| && IsMouseReport(output[p..q])
    ensures
      if p < |OutAll(us)| then
        var u := UnitAt(us, p);
        u.Paste? || (u.Escape? && u.key == [ESC])
      else open.Pasting?
  {
    if p < |OutAll(us)| {
      var lo := UnitAtPlace(us, p);
      var u := UnitAt(us, p);
      SameSlice(output, OutAll(us), OutOpen(open), lo, lo + |Out(u)|);
      ReportBegins(u, output, lo, p, q);
    }
  }

  lemma SameSlice(whole: seq<Byte>, a: seq<Byte>, b: seq<Byte>, lo: nat, hi: nat)
    requires whole == a + b && lo <= hi <= |a|
    ensures whole[lo..hi] == a[lo..hi]
  {
  }
}
