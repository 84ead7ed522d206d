/** The terminal input framer of scripts/codex_input.py. */
module CodexInput {
  // The class is the byte machine; `Next` is a tokeniser that names whole units, and the class emits exactly what that
  // tokeniser says for every stream of bytes and clock ticks. The lemmas say what the units are.

  type Byte = x: int | 0 <= x < 256

  const INTERRUPT: Byte := 3
  const ESC: Byte := 27
  const CSI: Byte := 91
  const SS3: Byte := 79
  const ESCAPE_WAIT: real := 1.0
  const PASTE_START: seq<Byte> := [27, 91, 50, 48, 48, 126]
  const PASTE_END: seq<Byte> := [27, 91, 50, 48, 49, 126]
  const LEGACY_MOUSE: seq<Byte> := [27, 91, 77]

  /** The three encodings of a bare Escape key that terminals with the extended keyboard protocol send. */
  predicate IsEscapeKey(s: seq<Byte>) {
    || s == [27, 91, 50, 55, 117]
    || s == [27, 91, 50, 55, 59, 49, 117]
    || s == [27, 91, 50, 55, 59, 49, 58, 49, 117]
  }

  predicate IsFinal(b: Byte) {
    64 <= b <= 126
  }

  predicate IsMouseFinal(b: Byte) {
    b == 77 || b == 109
  }

  /* ---- the tokeniser ---- */

  datatype Event = Key(b: Byte, at: real) | Tick(now: real)

  /** A whole unit: the bytes it was read from (`Raw`) and the bytes it is passed on as (`Out`). */
  datatype Unit =
    | Plain(b: Byte)
    | Interrupt
    | Escape(raw: seq<Byte>, key: seq<Byte>)
    | Chord(raw: seq<Byte>, key: seq<Byte>, b: Byte)
    | Sequence(raw: seq<Byte>, sequence: seq<Byte>)
    | Mouse(raw: seq<Byte>, sequence: seq<Byte>)
    | CutShort(raw: seq<Byte>, held: seq<Byte>)
    | Paste(body: seq<Byte>)

  function Raw(u: Unit): seq<Byte> {
    match u
    case Plain(b) => [b]
    case Interrupt => [INTERRUPT]
    case Escape(raw, _) => raw
    case Chord(raw, _, b) => raw + [b]
    case Sequence(raw, _) => raw
    case Mouse(raw, _) => raw
    case CutShort(raw, _) => raw
    case Paste(body) => body
  }

  function Out(u: Unit): seq<Byte> {
    match u
    case Plain(b) => [b]
    case Interrupt => [INTERRUPT]
    case Escape(_, key) => key
    case Chord(_, key, b) => key + [b]
    case Sequence(_, sequence) => sequence
    case Mouse(_, _) => []
    case CutShort(_, _) => []
    case Paste(body) => body
  }

  /** An unfinished unit. */
  datatype Mode =
    | Idle
    | Escaped(raw: seq<Byte>, key: seq<Byte>, at: real)
    | Control(raw: seq<Byte>, sequence: seq<Byte>)
    | Pasting(body: seq<Byte>)

  predicate EndsWith<T(==)>(s: seq<T>, tail: seq<T>) {
    |tail| <= |s| && s[|s| - |tail|..] == tail
  }

  predicate ModeHolds(m: Mode) {
    m.Control? ==> 2 <= |m.sequence|
  }

  /** The unfinished unit after one event, and the units the event completed. */
  function Next(m: Mode, e: Event): (next: (Mode, seq<Unit>))
    requires ModeHolds(m)
    ensures ModeHolds(next.0)
  {
    match e
    case Tick(now) =>
      if m.Escaped? && now - m.at >= ESCAPE_WAIT then (Idle, [Escape(m.raw, m.key)]) else (m, [])
    case Key(b, at) =>
      match m
      case Pasting(body) =>
        if EndsWith(body + [b], PASTE_END) then (Idle, [Paste(body + [b])]) else (Pasting(body + [b]), [])
      case Idle =>
        if b == ESC then (Escaped([ESC], [ESC], at), [])
        else (Idle, [if b == INTERRUPT then Interrupt else Plain(b)])
      case Escaped(raw, key, _) =>
        if b == INTERRUPT then (Idle, [CutShort(raw, key), Interrupt])
        else if b == ESC then (Escaped([ESC], [ESC], at), [Escape(raw, key)])
        else if b == CSI || b == SS3 then (Control(raw + [b], [ESC, b]), [])
        else (Idle, [Chord(raw, key, b)])
      case Control(raw, sequence) =>
        if b == INTERRUPT then (Idle, [CutShort(raw, sequence), Interrupt])
        else if b == ESC then (Escaped([ESC], [ESC], at), [CutShort(raw, sequence)])
        else Grow(raw + [b], sequence + [b], at)
  }

  /** A control sequence that got one more byte. */
  function Grow(raw: seq<Byte>, sequence: seq<Byte>, at: real): (next: (Mode, seq<Unit>))
    requires 2 < |sequence|
    ensures ModeHolds(next.0)
  {
    var last := sequence[|sequence| - 1];
    if LEGACY_MOUSE <= sequence then
      if |sequence| == 6 then (Idle, [Mouse(raw, sequence)]) else (Control(raw, sequence), [])
    else if !IsFinal(last) then (Control(raw, sequence), [])
    else if sequence[..2] == [ESC, CSI] && IsMouseFinal(last) then (Idle, [Mouse(raw, sequence)])
    else if IsEscapeKey(sequence) then (Escaped(raw, sequence, at), [])
    else (if sequence == PASTE_START then Pasting([]) else Idle, [Sequence(raw, sequence)])
  }

  datatype Tokens = Tokens(units: seq<Unit>, open: Mode)

  function Tokenise(events: seq<Event>): (t: Tokens)
    ensures ModeHolds(t.open)
  {
    if events == [] then Tokens([], Idle)
    else
      var before := Tokenise(events[..|events| - 1]);
      var (m, us) := Next(before.open, events[|events| - 1]);
      Tokens(before.units + us, m)
  }

  function BytesOf(events: seq<Event>): seq<Byte> {
    if events == [] then []
    else
      var last := events[|events| - 1];
      BytesOf(events[..|events| - 1]) + if last.Key? then [last.b] else []
  }

  function RawAll(us: seq<Unit>): seq<Byte> {
    if us == [] then [] else RawAll(us[..|us| - 1]) + Raw(us[|us| - 1])
  }

  function OutAll(us: seq<Unit>): seq<Byte> {
    if us == [] then [] else OutAll(us[..|us| - 1]) + Out(us[|us| - 1])
  }

  function RawOpen(m: Mode): seq<Byte> {
    match m
    case Idle => []
    case Escaped(raw, _, _) => raw
    case Control(raw, _) => raw
    case Pasting(body) => body
  }

  /** The longest tail of a text that may still turn into the marker (`HeldIsLongest`). */
  function TailHeld(body: seq<Byte>, marker: seq<Byte>): (tail: seq<Byte>)
    ensures |tail| <= |body|
  {
    if body <= marker then body else TailHeld(body[1..], marker)
  }

  function HeldTail(body: seq<Byte>): (tail: seq<Byte>)
    ensures |tail| <= |body|
  {
    TailHeld(body, PASTE_END)
  }

  /** What the machine keeps back. */
  function Pending(m: Mode): seq<Byte> {
    match m
    case Idle => []
    case Escaped(_, _, _) => [ESC]
    case Control(_, sequence) => sequence
    case Pasting(body) => HeldTail(body)
  }

  /** What the machine already let out of an unfinished unit: only a paste is passed on as it comes. */
  function OutOpen(m: Mode): seq<Byte> {
    if m.Pasting? then m.body[..|m.body| - |HeldTail(m.body)|] else []
  }

  /* ---- paste ---- */

  lemma {:induction false} HeldIsTail(body: seq<Byte>, marker: seq<Byte>)
    ensures EndsWith(body, TailHeld(body, marker)) && TailHeld(body, marker) <= marker
  {
    if !(body <= marker) {
      HeldIsTail(body[1..], marker);
    }
  }

  lemma {:induction false} HeldIsLongest(body: seq<Byte>, marker: seq<Byte>, tail: seq<Byte>)
    requires EndsWith(body, tail) && tail <= marker
    ensures |tail| <= |TailHeld(body, marker)|
  {
    if !(body <= marker) {
      assert |tail| != |body| by {
        assert body[0..] == body;
      }
      assert body[1..][|body[1..]| - |tail|..] == tail;
      HeldIsLongest(body[1..], marker, tail);
    }
  }

  /** The held tail of a longer text depends only on the held tail. */
  lemma {:induction false} HeldGrows(body: seq<Byte>, marker: seq<Byte>, b: Byte)
    ensures TailHeld(body + [b], marker) == TailHeld(TailHeld(body, marker) + [b], marker)
  {
    if !(body <= marker) {
      assert body <= body + [b];
      assert (body + [b])[1..] == body[1..] + [b];
      HeldGrows(body[1..], marker, b);
    }
  }

  /** The marker is complete exactly when all of it is held. */
  lemma EndIsHeld(body: seq<Byte>, marker: seq<Byte>)
    ensures EndsWith(body, marker) <==> TailHeld(body, marker) == marker
  {
    HeldIsTail(body, marker);
    if EndsWith(body, marker) {
      HeldIsLongest(body, marker, marker);
    }
  }

  /* ---- what the units are ---- */

  /** `raw` was read as a held Escape key that is encoded as `key`. */
  predicate HeldKey(raw: seq<Byte>, key: seq<Byte>) {
    || raw == key == [ESC]
    || (IsEscapeKey(key) && raw != [] && raw[0] == ESC && |key| <= |raw| && EndsWith(raw, key[1..]))
  }

  /** A started control sequence with no byte yet that ends, cancels or restarts it. */
  predicate IsPartial(s: seq<Byte>) {
    && 2 <= |s| && s[0] == ESC && (s[1] == CSI || s[1] == SS3)
    && (forall i :: 1 <= i < |s| ==> s[i] != ESC && s[i] != INTERRUPT)
    && if LEGACY_MOUSE <= s then |s| < 6 else forall i :: 2 <= i < |s| ==> !IsFinal(s[i])
  }

  /** A control sequence from its Escape to its one final byte (ECMA-48, section 5.4). */
  predicate IsComplete(s: seq<Byte>) {
    3 <= |s| && IsPartial(s[..|s| - 1]) && IsFinal(s[|s| - 1]) && !(LEGACY_MOUSE <= s)
  }

  predicate IsMouseReport(s: seq<Byte>) {
    || (LEGACY_MOUSE <= s && |s| == 6)
    || (IsComplete(s) && s[1] == CSI && IsMouseFinal(s[|s| - 1]))
  }

  /** `raw` is the sequence itself, or the sequence behind a held Escape key that took the place of its Escape. */
  predicate ReadAs(raw: seq<Byte>, sequence: seq<Byte>) {
    raw != [] && sequence != [] && raw[0] == ESC == sequence[0]
    && |sequence| <= |raw| && EndsWith(raw, sequence[1..])
  }

  /** The marker is nowhere in the text. */
  predicate Unended(body: seq<Byte>, marker: seq<Byte>) {
    forall k :: 0 <= k <= |body| ==> !EndsWith(body[..k], marker)
  }

  lemma UnendedGrows(body: seq<Byte>, marker: seq<Byte>, b: Byte)
    requires Unended(body, marker)
    ensures (body + [b])[..|body|] == body
    ensures !EndsWith(body + [b], marker) ==> Unended(body + [b], marker)
  {
    var more := body + [b];
    assert more[..|more|] == more;
    forall k | 0 <= k <= |body|
      ensures !EndsWith(more[..k], marker)
    {
      assert more[..k] == body[..k];
    }
  }

  predicate WholeUnit(u: Unit) {
    match u
    case Plain(b) => b != ESC && b != INTERRUPT
    case Interrupt => true
    case Escape(raw, key) => HeldKey(raw, key)
    case Chord(raw, key, b) => HeldKey(raw, key) && b !in {ESC, INTERRUPT, CSI, SS3}
    case Sequence(raw, s) => ReadAs(raw, s) && IsComplete(s) && !IsMouseReport(s) && !IsEscapeKey(s)
    case Mouse(raw, s) => ReadAs(raw, s) && IsMouseReport(s)
    case CutShort(raw, s) => HeldKey(raw, s) || (ReadAs(raw, s) && IsPartial(s))
    case Paste(body) => EndsWith(body, PASTE_END) && Unended(body[..|body| - 1], PASTE_END)
  }

  predicate OpenUnit(m: Mode) {
    match m
    case Idle => true
    case Escaped(raw, key, _) => HeldKey(raw, key)
    case Control(raw, s) => ReadAs(raw, s) && IsPartial(s)
    case Pasting(body) => Unended(body, PASTE_END)
  }

  predicate AllWhole(us: seq<Unit>) {
    forall u :: u in us ==> WholeUnit(u)
  }

  lemma OneMoreByte(raw: seq<Byte>, sequence: seq<Byte>, b: Byte)
    requires ReadAs(raw, sequence) && IsPartial(sequence) && b != ESC && b != INTERRUPT
    ensures ReadAs(raw + [b], sequence + [b])
    ensures
      var s := sequence + [b];
      if LEGACY_MOUSE <= s then if |s| == 6 then IsMouseReport(s) else IsPartial(s)
      else if IsFinal(b) then IsComplete(s) else IsPartial(s)
  {
    var r, s := raw + [b], sequence + [b];
    assert s[..|s| - 1] == sequence;
    assert s[1..] == sequence[1..] + [b];
    if LEGACY_MOUSE <= sequence {
      assert LEGACY_MOUSE <= s;
    }
  }

  lemma OneUnit(u: Unit)
    ensures RawAll([u]) == Raw(u) && OutAll([u]) == Out(u)
  {
    assert [u][..0] == [];
  }

  lemma GrowTiles(raw: seq<Byte>, sequence: seq<Byte>, at: real)
    requires 2 < |sequence|
    ensures var (m, us) := Grow(raw, sequence, at); RawAll(us) + RawOpen(m) == raw
  {
    OneUnit(Mouse(raw, sequence));
    OneUnit(Sequence(raw, sequence));
  }

  lemma GrowKeepsShape(raw: seq<Byte>, sequence: seq<Byte>, b: Byte, at: real)
    requires ReadAs(raw, sequence) && IsPartial(sequence) && b != ESC && b != INTERRUPT
    ensures var (m, us) := Grow(raw + [b], sequence + [b], at); OpenUnit(m) && AllWhole(us)
  {
    var r, s := raw + [b], sequence + [b];
    OneMoreByte(raw, sequence, b);
    assert s[|s| - 1] == b;
    assert s[..2] == [ESC, CSI] <==> s[1] == CSI;
    if LEGACY_MOUSE <= s {
      assert |s| == 6 ==> WholeUnit(Mouse(r, s));
    } else if IsFinal(b) {
      if s[1] == CSI && IsMouseFinal(b) {
        assert WholeUnit(Mouse(r, s));
      } else if IsEscapeKey(s) {
        assert HeldKey(r, s);
      } else {
        assert WholeUnit(Sequence(r, s));
        assert !EndsWith<Byte>([], PASTE_END);
      }
    } else {
      assert OpenUnit(Control(r, s));
    }
  }

  function ByteOf(e: Event): seq<Byte> {
    if e.Key? then [e.b] else []
  }

  lemma NextKeepsShape(m: Mode, e: Event)
    requires ModeHolds(m) && OpenUnit(m)
    ensures var (m', us) := Next(m, e);
            && OpenUnit(m') && AllWhole(us)
            && RawOpen(m) + ByteOf(e) == RawAll(us) + RawOpen(m')
  {
    match e
    case Tick(_) =>
    case Key(b, at) =>
      match m
      case Idle =>
        if b == ESC {
          assert HeldKey([ESC], [ESC]);
        }
      case Escaped(raw, key, _) =>
        EscapedKeepsShape(raw, key, m.at, b, at);
      case Control(raw, sequence) =>
        if b == INTERRUPT {
          TwoUnits(CutShort(raw, sequence), Interrupt);
        } else if b != ESC {
          GrowKeepsShape(raw, sequence, b, at);
          GrowTiles(raw + [b], sequence + [b], at);
        }
      case Pasting(body) =>
        PastingKeepsShape(body, b, at);
  }

  lemma PastingKeepsShape(body: seq<Byte>, b: Byte, at: real)
    requires OpenUnit(Pasting(body))
    ensures var (m, us) := Next(Pasting(body), Key(b, at));
            && OpenUnit(m) && AllWhole(us)
            && body + [b] == RawAll(us) + RawOpen(m)
  {
    OneUnit(Paste(body + [b]));
    UnendedGrows(body, PASTE_END, b);
  }

  lemma TwoUnits(u: Unit, v: Unit)
    ensures RawAll([u, v]) == Raw(u) + Raw(v) && OutAll([u, v]) == Out(u) + Out(v)
  {
    assert [u, v][..1] == [u];
    OneUnit(u);
  }

  lemma EscapedKeepsShape(raw: seq<Byte>, key: seq<Byte>, since: real, b: Byte, at: real)
    requires HeldKey(raw, key)
    ensures var (m, us) := Next(Escaped(raw, key, since), Key(b, at));
            && OpenUnit(m) && AllWhole(us)
            && raw + [b] == RawAll(us) + RawOpen(m)
  {
    if b == INTERRUPT {
      CutShortIsWhole(raw, key);
    } else if b == ESC {
      OneUnit(Escape(raw, key));
      EscapeIsHeld();
    } else if b == CSI || b == SS3 {
      StartsControl(raw, b);
    } else {
      OneUnit(Chord(raw, key, b));
    }
  }

  lemma CutShortIsWhole(raw: seq<Byte>, key: seq<Byte>)
    requires HeldKey(raw, key)
    ensures AllWhole([CutShort(raw, key), Interrupt])
    ensures RawAll([CutShort(raw, key), Interrupt]) == raw + [INTERRUPT]
  {
    TwoUnits(CutShort(raw, key), Interrupt);
  }

  lemma EscapeIsHeld()
    ensures HeldKey([ESC], [ESC])
  {
  }

  lemma StartsControl(raw: seq<Byte>, b: Byte)
    requires raw != [] && raw[0] == ESC && (b == CSI || b == SS3)
    ensures OpenUnit(Control(raw + [b], [ESC, b]))
  {
    assert [ESC, b][1..] == [b];
  }

  lemma {:induction false} RawAllJoin(us: seq<Unit>, vs: seq<Unit>)
    ensures RawAll(us + vs) == RawAll(us) + RawAll(vs)
  {
    if vs == [] {
      assert us + vs == us;
    } else {
      var rest, last := vs[..|vs| - 1], vs[|vs| - 1];
      assert (us + vs)[..|us + vs| - 1] == us + rest;
      RawAllJoin(us, rest);
      assert RawAll(us) + RawAll(rest) + Raw(last) == RawAll(us) + (RawAll(rest) + Raw(last));
    }
  }

  lemma {:induction false} OutAllJoin(us: seq<Unit>, vs: seq<Unit>)
    ensures OutAll(us + vs) == OutAll(us) + OutAll(vs)
  {
    if vs == [] {
      assert us + vs == us;
    } else {
      var rest, last := vs[..|vs| - 1], vs[|vs| - 1];
      assert (us + vs)[..|us + vs| - 1] == us + rest;
      OutAllJoin(us, rest);
      assert OutAll(us) + OutAll(rest) + Out(last) == OutAll(us) + (OutAll(rest) + Out(last));
    }
  }

  /**
   * Every stream splits into whole units and one unfinished one: nothing is lost, doubled or reordered. Which
   * events a unit is read from, and what may end it, is in `CodexSpans.UnitsAreSpans`.
   */
  lemma {:induction false} StreamIsTiled(events: seq<Event>)
    ensures AllWhole(Tokenise(events).units) && OpenUnit(Tokenise(events).open)
    ensures RawAll(Tokenise(events).units) + RawOpen(Tokenise(events).open) == BytesOf(events)
  {
    if events != [] {
      var rest, e := events[..|events| - 1], events[|events| - 1];
      StreamIsTiled(rest);
      var before := Tokenise(rest);
      NextKeepsShape(before.open, e);
      var (m, us) := Next(before.open, e);
      RawAllJoin(before.units, us);
      Regroup(RawAll(before.units), RawAll(us), RawOpen(m), RawOpen(before.open), ByteOf(e));
    }
  }

  lemma Regroup(a: seq<Byte>, b: seq<Byte>, c: seq<Byte>, d: seq<Byte>, e: seq<Byte>)
    requires b + c == d + e
    ensures a + b + c == a + d + e
  {
    assert a + b + c == a + (b + c) && a + d + e == a + (d + e);
  }

  /* ---- output against input ---- */

  predicate Subsequence(a: seq<Byte>, b: seq<Byte>) {
    || a == []
    || (b != [] && Subsequence(a, b[..|b| - 1]))
    || (b != [] && a[|a| - 1] == b[|b| - 1] && Subsequence(a[..|a| - 1], b[..|b| - 1]))
  }

  lemma {:induction false} SubsequenceJoin(a: seq<Byte>, b: seq<Byte>, c: seq<Byte>, d: seq<Byte>)
    requires Subsequence(a, b) && Subsequence(c, d)
    ensures Subsequence(a + c, b + d)
    decreases |d|
  {
    if d == [] {
      assert a + c == a && b + d == b;
    } else {
      var d' := d[..|d| - 1];
      assert (b + d)[..|b + d| - 1] == b + d';
      if Subsequence(c, d') {
        SubsequenceJoin(a, b, c, d');
      } else {
        assert (a + c)[..|a + c| - 1] == a + c[..|c| - 1];
        SubsequenceJoin(a, b, c[..|c| - 1], d');
      }
    }
  }

  lemma {:induction false} SubsequenceSelf(a: seq<Byte>)
    ensures Subsequence(a, a)
  {
    if a != [] {
      SubsequenceSelf(a[..|a| - 1]);
    }
  }

  lemma {:induction false} HeadIsSubsequence(b: seq<Byte>)
    requires b != []
    ensures Subsequence([b[0]], b)
  {
    if 1 < |b| {
      HeadIsSubsequence(b[..|b| - 1]);
    } else {
      assert b == [b[0]];
      SubsequenceSelf(b);
    }
  }

  lemma ReadAsSubsequence(raw: seq<Byte>, sequence: seq<Byte>)
    requires ReadAs(raw, sequence)
    ensures Subsequence(sequence, raw)
    ensures |raw| == |sequence| ==> raw == sequence
  {
    var tail := sequence[1..];
    var lead := raw[..|raw| - |tail|];
    HeadIsSubsequence(lead);
    SubsequenceSelf(tail);
    SubsequenceJoin([ESC], lead, tail, tail);
    assert raw == lead + tail && sequence == [ESC] + tail;
  }

  lemma HeldKeySubsequence(raw: seq<Byte>, key: seq<Byte>)
    requires HeldKey(raw, key)
    ensures Subsequence(key, raw) && |key| <= |raw|
    ensures |raw| == |key| ==> raw == key
  {
    assert ReadAs(raw, key);
    ReadAsSubsequence(raw, key);
  }

  /** The unit is passed on byte for byte. */
  predicate Intact(u: Unit) {
    match u
    case Escape(raw, key) => raw == key
    case Chord(raw, key, _) => raw == key
    case Sequence(raw, sequence) => raw == sequence
    case Mouse(_, _) => false
    case CutShort(_, _) => false
    case _ => true
  }

  predicate AllIntact(us: seq<Unit>) {
    forall u :: u in us ==> Intact(u)
  }

  lemma ChordOutput(raw: seq<Byte>, key: seq<Byte>, b: Byte)
    requires HeldKey(raw, key)
    ensures Subsequence(key + [b], raw + [b]) && |key| <= |raw|
    ensures raw == key <==> |key| == |raw|
  {
    HeldKeySubsequence(raw, key);
    SubsequenceSelf([b]);
    SubsequenceJoin(key, raw, [b], [b]);
  }

  lemma UnitOutput(u: Unit)
    requires WholeUnit(u)
    ensures Subsequence(Out(u), Raw(u)) && |Out(u)| <= |Raw(u)|
    ensures Intact(u) <==> |Out(u)| == |Raw(u)|
    ensures Intact(u) ==> Out(u) == Raw(u)
  {
    match u
    case Escape(raw, key) => HeldKeySubsequence(raw, key);
    case Chord(raw, key, b) => ChordOutput(raw, key, b);
    case Sequence(raw, sequence) => ReadAsSubsequence(raw, sequence);
    case CutShort(raw, held) => CutShortIsLonger(raw, held);
    case Mouse(raw, _) => 
    case _ => SubsequenceSelf(Raw(u));
  }

  lemma CutShortIsLonger(raw: seq<Byte>, held: seq<Byte>)
    requires WholeUnit(CutShort(raw, held))
    ensures raw != []
  {
  }

  lemma {:induction false} UnitsOutput(us: seq<Unit>)
    requires AllWhole(us)
    ensures Subsequence(OutAll(us), RawAll(us)) && |OutAll(us)| <= |RawAll(us)|
    ensures AllIntact(us) <==> |OutAll(us)| == |RawAll(us)|
    ensures AllIntact(us) ==> OutAll(us) == RawAll(us)
  {
    if us != [] {
      var rest, last := us[..|us| - 1], us[|us| - 1];
      assert us == rest + [last];
      UnitsOutput(rest);
      UnitOutput(last);
      SubsequenceJoin(OutAll(rest), RawAll(rest), Out(last), Raw(last));
    }
  }

  /** What a reader would get if the unfinished unit were passed on now. */
  function HeldOut(m: Mode): seq<Byte> {
    if m.Escaped? then m.key else Pending(m)
  }

  predicate IntactOpen(m: Mode) {
    match m
    case Escaped(raw, key, _) => raw == key
    case Control(raw, sequence) => raw == sequence
    case _ => true
  }

  lemma OpenOutput(m: Mode)
    requires OpenUnit(m)
    ensures Subsequence(OutOpen(m), RawOpen(m)) && |OutOpen(m)| + |HeldOut(m)| <= |RawOpen(m)|
    ensures IntactOpen(m) <==> |OutOpen(m)| + |HeldOut(m)| == |RawOpen(m)|
    ensures IntactOpen(m) ==> OutOpen(m) + HeldOut(m) == RawOpen(m)
  {
    match m
    case Idle =>
    case Escaped(raw, key, _) => HeldKeySubsequence(raw, key);
    case Control(raw, sequence) => ReadAsSubsequence(raw, sequence);
    case Pasting(body) =>
      HeldIsTail(body, PASTE_END);
      var n := |body| - |HeldTail(body)|;
      assert body == body[..n] + HeldTail(body);
      SubsequenceSelf(body[..n]);
      SubsequenceJoin(body[..n], body[..n], [], HeldTail(body));
      assert body[..n] + [] == body[..n];
  }

  /** Everything passed on so far. */
  function Emitted(events: seq<Event>): seq<Byte> {
    OutAll(Tokenise(events).units) + OutOpen(Tokenise(events).open)
  }

  lemma OutputIsSubsequence(events: seq<Event>)
    ensures Subsequence(Emitted(events), BytesOf(events))
  {
    var t := Tokenise(events);
    StreamIsTiled(events);
    UnitsOutput(t.units);
    OpenOutput(t.open);
    SubsequenceJoin(OutAll(t.units), RawAll(t.units), OutOpen(t.open), RawOpen(t.open));
  }

  lemma ConservedParts(us: seq<Unit>, m: Mode)
    requires AllWhole(us) && OpenUnit(m)
    ensures OutAll(us) + OutOpen(m) + HeldOut(m) == RawAll(us) + RawOpen(m) <==>
            AllIntact(us) && IntactOpen(m)
  {
    UnitsOutput(us);
    OpenOutput(m);
    Balance(OutAll(us), OutOpen(m), HeldOut(m), RawAll(us), RawOpen(m), AllIntact(us), IntactOpen(m));
  }

  lemma Balance(a: seq<Byte>, o: seq<Byte>, h: seq<Byte>, c: seq<Byte>, d: seq<Byte>, x: bool, y: bool)
    requires |a| <= |c| && (x <==> |a| == |c|) && (x ==> a == c)
    requires |o| + |h| <= |d| && (y <==> |o| + |h| == |d|) && (y ==> o + h == d)
    ensures a + o + h == c + d <==> x && y
  {
    assert a + o + h == a + (o + h);
    assert a + o + h == c + d ==> |a| + |o| + |h| == |c| + |d|;
  }

  /**
   * Output and held bytes together are the input exactly when no unit was a mouse report or cut short and no
   * held Escape key became the start of a longer sequence.
   */
  lemma ConservedExactly(events: seq<Event>)
    ensures
      var t := Tokenise(events);
      Emitted(events) + HeldOut(t.open) == BytesOf(events) <==>
      AllIntact(t.units) && IntactOpen(t.open)
  {
    StreamIsTiled(events);
    ConservedParts(Tokenise(events).units, Tokenise(events).open);
  }

  /**
   * While a paste is open, the bytes passed on since it began and the bytes held are the bytes received
   * since, and what is held is the longest tail that can still become the end marker.
   */
  lemma PasteIsComplete(events: seq<Event>)
    requires Tokenise(events).open.Pasting?
    ensures
      var body := Tokenise(events).open.body;
      && OutOpen(Tokenise(events).open) + HeldTail(body) == body
      && (forall tail :: EndsWith(body, tail) && tail <= PASTE_END ==> |tail| <= |HeldTail(body)|)
      && Unended(body, PASTE_END)
  {
    var body := Tokenise(events).open.body;
    StreamIsTiled(events);
    OpenOutput(Tokenise(events).open);
    forall tail | EndsWith(body, tail) && tail <= PASTE_END
      ensures |tail| <= |HeldTail(body)|
    {
      HeldIsLongest(body, PASTE_END, tail);
    }
  }

  /** The paste goes on exactly until the end marker is complete for the first time, and then it is what is held. */
  lemma PasteEndsWithTheMarker(events: seq<Event>, b: Byte, at: real)
    requires Tokenise(events).open.Pasting?
    ensures
      var body := Tokenise(events).open.body;
      var after := Tokenise(events + [Key(b, at)]).open;
      && Unended(body, PASTE_END)
      && (after.Pasting? <==> Unended(body + [b], PASTE_END))
      && (after.Pasting? <==> HeldTail(body + [b]) != PASTE_END)
      && (after.Pasting? ==> after.body == body + [b])
  {
    var body := Tokenise(events).open.body;
    StreamIsTiled(events);
    TokeniseStep(events, Key(b, at));
    UnendedGrows(body, PASTE_END, b);
    EndIsHeld(body + [b], PASTE_END);
    assert (body + [b])[..|body| + 1] == body + [b];
  }

  /* ---- the machine ---- */

  /** `output` is what one event lets out. */
  ghost predicate LetsOut(m: Mode, e: Event, output: seq<Byte>)
    requires ModeHolds(m)
  {
    OutOpen(m) + output == OutAll(Next(m, e).1) + OutOpen(Next(m, e).0)
  }

  lemma TokeniseStep(events: seq<Event>, e: Event)
    ensures
      var before := Tokenise(events);
      Tokenise(events + [e]) == Tokens(before.units + Next(before.open, e).1, Next(before.open, e).0)
  {
    assert (events + [e])[..|events + [e]| - 1] == events;
  }

  lemma EmittedStep(events: seq<Event>, e: Event, output: seq<Byte>)
    requires LetsOut(Tokenise(events).open, e, output)
    ensures Tokenise(events + [e]).open == Next(Tokenise(events).open, e).0
    ensures Emitted(events + [e]) == Emitted(events) + output
  {
    var before := Tokenise(events);
    var (m, us) := Next(before.open, e);
    TokeniseStep(events, e);
    OutAllJoin(before.units, us);
    Regroup(OutAll(before.units), OutAll(us), OutOpen(m), OutOpen(before.open), output);
  }

  function KeyEvents(data: seq<Byte>, times: seq<real>): seq<Event>
    requires |data| == |times|
  {
    seq(|data|, i requires 0 <= i < |data| => Key(data[i], times[i]))
  }

  lemma Appended(before: seq<Event>, keys: seq<Event>, k: nat, emitted: seq<Byte>, output: seq<Byte>, more: seq<Byte>)
    requires k < |keys|
    ensures before + keys[..k] + [keys[k]] == before + keys[..k + 1]
    ensures emitted + output + more == emitted + (output + more)
  {
  }

  class InputFramer {
    var pending: seq<Byte>
    var paste: bool
    var escapeAt: real
    var escapeKey: seq<Byte>
    /** The unfinished unit the fields stand for. */
    ghost var open: Mode
    /** Every byte and clock reading so far. */
    ghost var events: seq<Event>

    ghost predicate Valid()
      reads this
    {
      ModeHolds(open) && Holds(open)
    }

    ghost predicate Holds(m: Mode)
      reads this`pending, this`paste, this`escapeAt, this`escapeKey
    {
      && pending == Pending(m) && paste == m.Pasting?
      && (m.Escaped? ==> escapeKey == m.key && escapeAt == m.at)
    }

    /** The fields stand for what the tokeniser leaves open after all events. */
    ghost predicate Tracks()
      reads this
    {
      Valid() && open == Tokenise(events).open
    }

    constructor ()
      ensures Tracks() && events == []
    {
      pending, paste, escapeAt, escapeKey := [], false, 0.0, [ESC];
      open, events := Idle, [];
    }

    /** The clock is read for every byte that needs it, at `times`. */
    method Feed(data: seq<Byte>, times: seq<real>) returns (output: seq<Byte>)
      requires Tracks() && |data| == |times|
      modifies this
      ensures Tracks() && events == old(events) + KeyEvents(data, times)
      ensures Emitted(events) == Emitted(old(events)) + output
    {
      output := [];
      ghost var keys, before, emitted := KeyEvents(data, times), events, Emitted(events);
      for k := 0 to |data|
        invariant Tracks() && events == before + keys[..k]
        invariant Emitted(events) == emitted + output
      {
        var more := FeedByte(data[k], times[k]);
        Appended(before, keys, k, emitted, output, more);
        output := output + more;
      }
      assert keys[..|data|] == keys;
    }

    method FeedByte(value: Byte, now: real) returns (output: seq<Byte>)
      requires Tracks()
      modifies this
      ensures Tracks() && events == old(events) + [Key(value, now)]
      ensures Emitted(events) == Emitted(old(events)) + output
    {
      ghost var before := open;
      output := Consume(value, now);
      EmittedStep(events, Key(value, now), output);
      events := events + [Key(value, now)];
    }

    method ExpireEscape(now: real) returns (output: seq<Byte>)
      requires Tracks()
      modifies this
      ensures Tracks() && events == old(events) + [Tick(now)]
      ensures Emitted(events) == Emitted(old(events)) + output
    {
      OneUnit(Escape(RawOpen(open), escapeKey));
      if !paste && pending == [ESC] && now - escapeAt >= ESCAPE_WAIT {
        pending := [];
        output := escapeKey;
      } else {
        output := [];
      }
      EmittedStep(events, Tick(now), output);
      open, events := Next(open, Tick(now)).0, events + [Tick(now)];
    }

    method Consume(value: Byte, now: real) returns (output: seq<Byte>)
      requires Valid()
      modifies this
      ensures Valid() && events == old(events) && open == Next(old(open), Key(value, now)).0
      ensures LetsOut(old(open), Key(value, now), output)
    {
      if paste {
        output := PasteByte(value, now);
      } else if value == INTERRUPT {
        output := Cancel(now);
      } else if value == ESC {
        output := Hold(now);
      } else {
        output := Continue(value, now);
      }
    }

    /** Ctrl-C drops whatever is pending. */
    method Cancel(now: real) returns (output: seq<Byte>)
      requires Valid() && !paste
      modifies this
      ensures Valid() && events == old(events) && open == Next(old(open), Key(INTERRUPT, now)).0
      ensures LetsOut(old(open), Key(INTERRUPT, now), output)
    {
      OneUnit(Interrupt);
      TwoUnits(CutShort(RawOpen(open), if open.Escaped? then open.key else pending), Interrupt);
      pending, open := [], Idle;
      output := [INTERRUPT];
    }

    /** An Escape releases a held Escape and drops any other unfinished sequence. */
    method Hold(now: real) returns (output: seq<Byte>)
      requires Valid() && !paste
      modifies this
      ensures Valid() && events == old(events) && open == Next(old(open), Key(ESC, now)).0
      ensures LetsOut(old(open), Key(ESC, now), output)
    {
      OneUnit(Escape(RawOpen(open), escapeKey));
      OneUnit(CutShort(RawOpen(open), pending));
      output := if pending == [ESC] then escapeKey else [];
      pending, escapeKey, escapeAt := [ESC], [ESC], now;
      open := Escaped([ESC], [ESC], now);
    }

    method Continue(value: Byte, now: real) returns (output: seq<Byte>)
      requires Valid() && !paste && value != INTERRUPT && value != ESC
      modifies this
      ensures Valid() && events == old(events) && open == Next(old(open), Key(value, now)).0
      ensures LetsOut(old(open), Key(value, now), output)
    {
      OneUnit(Plain(value));
      OneUnit(Chord(RawOpen(open), escapeKey, value));
      if pending == [] {
        return [value];
      }
      pending := pending + [value];
      if |pending| == 2 && value != CSI && value != SS3 {
        output := escapeKey + pending[1..];
        pending, open := [], Idle;
        return;
      }
      ghost var raw := RawOpen(open) + [value];
      output := EndSequence(now, raw);
      open := Next(open, Key(value, now)).0;
    }

    /** `_sequence`: the pending bytes are an Escape, an introducer and maybe more. */
    method EndSequence(now: real, ghost raw: seq<Byte>) returns (output: seq<Byte>)
      requires !paste && 2 <= |pending|
      modifies this
      ensures events == old(events) && open == old(open)
      ensures |old(pending)| == 2 ==> output == [] && Holds(Control(raw, old(pending)))
      ensures 2 < |old(pending)| ==>
                output == OutAll(Grow(raw, old(pending), now).1) && Holds(Grow(raw, old(pending), now).0)
    {
      OneUnit(Mouse(raw, pending));
      OneUnit(Sequence(raw, pending));
      NothingHeld();
      if LEGACY_MOUSE <= pending {
        if |pending| == 6 {
          pending := [];
        }
        return [];
      }
      if |pending| < 3 || !IsFinal(pending[|pending| - 1]) {
        return [];
      }
      var sequence := Take();
      output := Sort(sequence, now, raw);
    }

    /** A complete sequence that is no mouse report of the legacy form. */
    method Sort(sequence: seq<Byte>, now: real, ghost raw: seq<Byte>) returns (output: seq<Byte>)
      requires !paste && pending == [] && 2 < |sequence| && !(LEGACY_MOUSE <= sequence)
      requires IsFinal(sequence[|sequence| - 1])
      modifies this
      ensures events == old(events) && open == old(open)
      ensures output == OutAll(Grow(raw, sequence, now).1) && Holds(Grow(raw, sequence, now).0)
    {
      GrowSorts(raw, sequence, now);
      NothingHeld();
      if [ESC, CSI] <= sequence && IsMouseFinal(sequence[|sequence| - 1]) {
        return [];
      }
      if IsEscapeKey(sequence) {
        pending, escapeKey, escapeAt := [ESC], sequence, now;
        return [];
      }
      paste := sequence == PASTE_START;
      return sequence;
    }

    /** `_paste_byte`: the oldest held bytes go out until the rest can still become the end marker. */
    method PasteByte(value: Byte, now: real) returns (output: seq<Byte>)
      requires Valid() && paste
      modifies this
      ensures Valid() && events == old(events) && open == Next(old(open), Key(value, now)).0
      ensures LetsOut(old(open), Key(value, now), output)
    {
      ghost var body := open.body;
      output := DropUntilHeld(pending + [value]);
      PasteLetsOut(body, value, now);
      if pending == PASTE_END {
        var marker := Take();
        output := output + marker;
        paste, open := false, Idle;
      } else {
        open := Pasting(body + [value]);
      }
    }

    method DropUntilHeld(received: seq<Byte>) returns (output: seq<Byte>)
      modifies this`pending
      ensures pending == HeldTail(received) && output == received[..|received| - |HeldTail(received)|]
    {
      pending, output := received, [];
      for k := 0 to |received|
        invariant pending == received[k..] && output == received[..k]
        invariant HeldTail(pending) == HeldTail(received)
      {
        if pending <= PASTE_END {
          return;
        }
        output := output + [pending[0]];
        pending := pending[1..];
      }
    }

    method Take() returns (data: seq<Byte>)
      modifies this`pending
      ensures data == old(pending) && pending == []
    {
      data := pending;
      pending := [];
    }
  }

  /** What becomes of a complete sequence. */
  lemma GrowSorts(raw: seq<Byte>, sequence: seq<Byte>, now: real)
    requires 2 < |sequence| && !(LEGACY_MOUSE <= sequence) && IsFinal(sequence[|sequence| - 1])
    ensures
      var (next, us) := Grow(raw, sequence, now);
      if [ESC, CSI] <= sequence && IsMouseFinal(sequence[|sequence| - 1]) then next == Idle && OutAll(us) == []
      else if IsEscapeKey(sequence) then next == Escaped(raw, sequence, now) && OutAll(us) == []
      else next == (if sequence == PASTE_START then Pasting([]) else Idle) && OutAll(us) == sequence
  {
    OneUnit(Mouse(raw, sequence));
    OneUnit(Sequence(raw, sequence));
    assert [ESC, CSI] <= sequence <==> sequence[..2] == [ESC, CSI];
  }

  lemma NothingHeld()
    ensures Pending(Pasting([])) == [] && OutAll([]) == []
  {
  }

  /** One more paste byte lets out what can no longer be the marker, and the marker itself once complete. */
  lemma PasteLetsOut(body: seq<Byte>, b: Byte, now: real)
    ensures
      var received := HeldTail(body) + [b];
      var tail := HeldTail(received);
      var passed := received[..|received| - |tail|];
      && LetsOut(Pasting(body), Key(b, now), if tail == PASTE_END then passed + tail else passed)
      && Next(Pasting(body), Key(b, now)).0 == (if tail == PASTE_END then Idle else Pasting(body + [b]))
      && HeldTail(body + [b]) == tail
  {
    PasteGrows(body, PASTE_END, b);
    EndIsHeld(body + [b], PASTE_END);
    PasteUnitOut(body + [b]);
  }

  lemma PasteUnitOut(body: seq<Byte>)
    ensures OutAll([Paste(body)]) + OutOpen(Idle) == body
  {
    OneUnit(Paste(body));
  }

  /** Held bytes and a new one: where the passed on part of the text ends. */
  lemma PasteGrows(body: seq<Byte>, marker: seq<Byte>, b: Byte)
    ensures
      var held := TailHeld(body, marker);
      var tail := TailHeld(held + [b], marker);
      var lead, passed := body[..|body| - |held|], (held + [b])[..|held + [b]| - |tail|];
      && TailHeld(body + [b], marker) == tail
      && lead + passed == (body + [b])[..|body + [b]| - |tail|]
      && lead + (passed + tail) == body + [b]
  {
    var held := TailHeld(body, marker);
    HeldGrows(body, marker, b);
    EndsWithHeld(body, marker);
    EndsWithHeld(held + [b], marker);
    SplitTail(body, held, b, TailHeld(held + [b], marker));
  }

  lemma EndsWithHeld(body: seq<Byte>, marker: seq<Byte>)
    ensures EndsWith(body, TailHeld(body, marker))
  {
    HeldIsTail(body, marker);
  }

  lemma SplitTail(body: seq<Byte>, held: seq<Byte>, b: Byte, tail: seq<Byte>)
    requires EndsWith(body, held) && EndsWith(held + [b], tail)
    ensures
      var received := held + [b];
      var lead, passed := body[..|body| - |held|], received[..|received| - |tail|];
      && lead + passed == (body + [b])[..|body + [b]| - |tail|]
      && lead + (passed + tail) == body + [b]
  {
    assert body + [b] == body[..|body| - |held|] + (held + [b]);
  }
}
