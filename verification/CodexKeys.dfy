/** What the keys of a terminal come out as, byte by byte (scripts/codex_input.py). */
module CodexKeys {
  // Whole key presses, typed behind any stream that leaves no paste open: each lemma spells out the bytes that come in
  // and the bytes that come out.

  import opened CodexInput
  import opened CodexSpans

  /** A held Escape key is let out by the Escape that begins something else. */
  function HeldBefore(m: Mode): seq<Byte> {
    if m.Escaped? then m.key else []
  }

  /** Bytes that stand inside a control sequence: no final byte, no Escape and no Ctrl-C. */
  predicate Inner(middle: seq<Byte>) {
    forall i :: 0 <= i < |middle| ==> (middle[i] < 64 || 126 < middle[i]) && middle[i] != 3 && middle[i] != 27
  }

  /** Bytes that come without a reading of the clock are typed in time. */
  lemma {:induction false} KeysAreTyped(s: seq<Byte>, times: seq<real>)
    requires |times| == |s| && s != [] && s[0] == 27
    ensures Types(KeyEvents(s, times), s)
  {
    KeysInTime(s, times);
  }

  lemma {:induction false} KeysInTime(s: seq<Byte>, times: seq<real>)
    requires |times| == |s|
    ensures BytesOf(KeyEvents(s, times)) == s && InTime(KeyEvents(s, times))
  {
    if s != [] {
      var n := |s| - 1;
      KeysInTime(s[..n], times[..n]);
      assert KeyEvents(s, times)[..n] == KeyEvents(s[..n], times[..n]);
      assert s == s[..n] + [s[n]];
    }
  }

  /* ---- control sequences ---- */

  lemma InnerIsPartial(start: Byte, middle: seq<Byte>, s: seq<Byte>)
    requires (start == 91 || start == 79) && Inner(middle) && s == [27, start] + middle
    ensures IsPartial(s) && !(LEGACY_MOUSE <= s) && Unbroken(s)
  {
    assert forall i :: 2 <= i < |s| ==> s[i] == middle[i - 2];
    assert 3 <= |s| ==> s[2] == middle[0];
  }

  lemma LastOne(s: seq<Byte>, b: Byte, more: seq<Byte>)
    requires more == s + [b]
    ensures more[..|more| - 1] == s && more[|more| - 1] == b
  {
  }

  lemma SequenceIsComplete(start: Byte, middle: seq<Byte>, last: Byte, s: seq<Byte>)
    requires (start == 91 || start == 79) && Inner(middle) && 64 <= last <= 126
    requires s == [27, start] + middle + [last]
    ensures Unbroken(s) && (!(LEGACY_MOUSE <= s) ==> IsComplete(s)) && (LEGACY_MOUSE <= s ==> middle == [] && last == 77)
    ensures s[1] == start
  {
    var front := [27, start] + middle;
    InnerIsPartial(start, middle, front);
    LastOne(front, last, s);
    assert forall i :: 0 <= i < |front| ==> s[i] == front[i];
    assert LEGACY_MOUSE <= s && middle != [] ==> LEGACY_MOUSE <= front;
  }

  /** What a whole unit adds to the output. */
  lemma UnitAdds(before: Tokens, u: Unit, open: Mode)
    requires ModeHolds(before.open) && !before.open.Pasting? && (open == Idle || open == Pasting([]))
    ensures
      OutAll(before.units + BrokenOff(before.open) + [u]) + OutOpen(open) ==
      OutAll(before.units) + OutOpen(before.open) + HeldBefore(before.open) + Out(u)
  {
    var broken := BrokenOff(before.open);
    OutAllJoin(before.units + broken, [u]);
    OutAllJoin(before.units, broken);
    OneUnit(u);
    BrokenOut(before.open);
    NothingOut(before.open, open);
    NothingBetween(OutAll(before.units), HeldBefore(before.open), Out(u));
  }

  lemma NothingOut(m: Mode, open: Mode)
    requires !m.Pasting? && (open == Idle || open == Pasting([]))
    ensures OutOpen(m) == [] && OutOpen(open) == []
  {
  }

  lemma NothingBetween(a: seq<Byte>, b: seq<Byte>, c: seq<Byte>)
    ensures a + b + c + [] == a + [] + b + c
  {
  }

  /**
   * A control sequence or a function key that is typed outside a paste comes out whole: Escape, an opening bracket or
   * O, bytes that end nothing, and one byte from 64 to 126 that makes neither a mouse report nor an Escape key. The
   * sequence ESC [ 2 0 0 ~ leaves an empty paste open and every other one nothing.
   */
  lemma SequencePassesOn(events: seq<Event>, keys: seq<Event>, start: Byte, middle: seq<Byte>, last: Byte, s: seq<Byte>)
    requires !Tokenise(events).open.Pasting? && Types(keys, s) && s == [27, start] + middle + [last]
    requires (start == 91 || start == 79) && Inner(middle) && 64 <= last <= 126
    requires start == 91 ==> last != 77 && last != 109
    requires s != [27, 91, 50, 55, 117] && s != [27, 91, 50, 55, 59, 49, 117] && s != [27, 91, 50, 55, 59, 49, 58, 49, 117]
    ensures
      var before, after := Tokenise(events), Tokenise(events + keys);
      && after.units == before.units + BrokenOff(before.open) + [Sequence(s, s)]
      && after.open == (if s == [27, 91, 50, 48, 48, 126] then Pasting([]) else Idle)
      && Emitted(events + keys) == Emitted(events) + HeldBefore(before.open) + s
  {
    SequenceIsComplete(start, middle, last, s);
    LastOne([27, start] + middle, last, s);
    assert s[1] == start;
    SequenceIsOneUnit(events, keys, s);
    UnitAdds(Tokenise(events), Sequence(s, s), if s == PASTE_START then Pasting([]) else Idle);
  }

  /** A mouse report that is typed outside a paste, in either of its forms, does not come out. */
  lemma MouseIsDropped(events: seq<Event>, keys: seq<Event>, middle: seq<Byte>, last: Byte, s: seq<Byte>)
    requires !Tokenise(events).open.Pasting? && Types(keys, s)
    requires
      || (s == [27, 91] + middle + [last] && Inner(middle) && (last == 109 || (last == 77 && middle != [])))
      || (s == [27, 91, 77] + middle && |middle| == 3 && 3 !in middle && 27 !in middle)
    ensures
      var before, after := Tokenise(events), Tokenise(events + keys);
      && after.units == before.units + BrokenOff(before.open) + [Mouse(s, s)] && after.open == Idle
      && Emitted(events + keys) == Emitted(events) + HeldBefore(before.open)
  {
    if s == [27, 91] + middle + [last] && Inner(middle) && (last == 109 || (last == 77 && middle != [])) {
      SequenceIsComplete(91, middle, last, s);
      LastOne([27, 91] + middle, last, s);
    } else {
      assert forall i :: 3 <= i < 6 ==> s[i] == middle[i - 3] && middle[i - 3] in middle;
    }
    NoPasteStart(s);
    SequenceIsOneUnit(events, keys, s);
    UnitAdds(Tokenise(events), Mouse(s, s), Idle);
  }

  /* ---- Escape keys, chords, single keys ---- */

  lemma EscapeKeyParts(key: seq<Byte>)
    requires
      key == [27, 91, 50, 55, 117] || key == [27, 91, 50, 55, 59, 49, 117] || key == [27, 91, 50, 55, 59, 49, 58, 49, 117]
    ensures
      var t := key[..|key| - 1];
      && key == t + [117] && IsPartial(t) && IsComplete(key) && IsEscapeKey(key) && !IsMouseReport(key) && 2 < |key|
      && !(LEGACY_MOUSE <= key)
  {
    var t := key[..|key| - 1];
    assert forall i :: 0 <= i < |t| ==> t[i] == key[i];
    assert t[2] == 50;
  }

  lemma KeyGrows(key: seq<Byte>, at: real)
    requires
      key == [27, 91, 50, 55, 117] || key == [27, 91, 50, 55, 59, 49, 117] || key == [27, 91, 50, 55, 59, 49, 58, 49, 117]
    ensures
      var t := key[..|key| - 1];
      Next(Control(t, t), Key(117, at)) == (Escaped(key, key, at), [])
  {
    EscapeKeyParts(key);
    assert key[|key| - 1] == 117;
  }

  /** The Escape key of the extended keyboard, in each of its three encodings, is held like a bare Escape. */
  lemma EscapeKeyIsHeld(events: seq<Event>, part: seq<Event>, key: seq<Byte>, at: real)
    requires
      key == [27, 91, 50, 55, 117] || key == [27, 91, 50, 55, 59, 49, 117] || key == [27, 91, 50, 55, 59, 49, 58, 49, 117]
    requires !Tokenise(events).open.Pasting? && Types(part, key[..|key| - 1])
    ensures
      var before, after := Tokenise(events), Tokenise(events + part + [Key(117, at)]);
      after.units == before.units + BrokenOff(before.open) && after.open == Escaped(key, key, at)
  {
    EscapeKeyParts(key);
    TypedPart(events, part, key[..|key| - 1]);
    TokeniseStep(events + part, Key(117, at));
    KeyGrows(key, at);
  }

  /** A bare Escape is held, and lets out another that was. */
  lemma EscapeIsKept(events: seq<Event>, at: real)
    requires !Tokenise(events).open.Pasting?
    ensures
      var before, after := Tokenise(events), Tokenise(events + [Key(27, at)]);
      after.open == Escaped([27], [27], at) && Emitted(events + [Key(27, at)]) == Emitted(events) + HeldBefore(before.open)
  {
    var before := Tokenise(events);
    BrokenOut(before.open);
    assert Next(before.open, Key(27, at)).1 == BrokenOff(before.open);
    EmittedStep(events, Key(27, at), HeldBefore(before.open));
  }

  /** A held Escape key comes out, as it was sent, at the first reading of the clock one second after it. */
  lemma EscapeComesOut(events: seq<Event>, now: real)
    requires Tokenise(events).open.Escaped?
    ensures
      var held, after := Tokenise(events).open, Tokenise(events + [Tick(now)]);
      if now >= held.at + 1.0 then after.open == Idle && Emitted(events + [Tick(now)]) == Emitted(events) + held.key
      else after.open == held && Emitted(events + [Tick(now)]) == Emitted(events)
  {
    var held := Tokenise(events).open;
    if now >= held.at + 1.0 {
      OneUnit(Escape(held.raw, held.key));
      EmittedStep(events, Tick(now), held.key);
    } else {
      EmittedStep(events, Tick(now), []);
    }
  }

  /** A byte behind a held Escape key comes out together with it, whatever the key was sent as. */
  lemma ChordComesOut(events: seq<Event>, b: Byte, at: real)
    requires Tokenise(events).open.Escaped? && b !in [3, 27, 91, 79]
    ensures
      var held := Tokenise(events).open;
      && Tokenise(events + [Key(b, at)]).open == Idle
      && Emitted(events + [Key(b, at)]) == Emitted(events) + (held.key + [b])
  {
    var held := Tokenise(events).open;
    OneUnit(Chord(held.raw, held.key, b));
    EmittedStep(events, Key(b, at), held.key + [b]);
  }

  /** Where nothing is open every other byte comes out as it is. */
  lemma PlainByteComesOut(events: seq<Event>, b: Byte, at: real)
    requires Tokenise(events).open == Idle && b != 27
    ensures Tokenise(events + [Key(b, at)]).open == Idle
    ensures Emitted(events + [Key(b, at)]) == Emitted(events) + [b]
  {
    OneUnit(Interrupt);
    OneUnit(Plain(b));
    EmittedStep(events, Key(b, at), [b]);
  }

  /** Ctrl-C comes out alone outside a paste: what was held or begun is dropped. */
  lemma InterruptComesOut(events: seq<Event>, at: real)
    requires !Tokenise(events).open.Pasting?
    ensures Tokenise(events + [Key(3, at)]).open == Idle
    ensures Emitted(events + [Key(3, at)]) == Emitted(events) + [3]
  {
    match Tokenise(events).open
    case Idle => PlainByteComesOut(events, 3, at);
    case Escaped(raw, key, _) =>
      TwoUnits(CutShort(raw, key), Interrupt);
      EmittedStep(events, Key(3, at), [3]);
    case Control(raw, sequence) =>
      TwoUnits(CutShort(raw, sequence), Interrupt);
      EmittedStep(events, Key(3, at), [3]);
  }

  /* ---- pastes ---- */

  /** The bytes of the marker stand nowhere in the text. */
  predicate NoEnd(text: seq<Byte>) {
    forall k, n :: 0 <= k <= n == k + 6 <= |text| ==> text[k..n] != [27, 91, 50, 48, 49, 126]
  }

  /** With all of the marker but its last byte behind it the paste has not ended yet. */
  lemma NotEndedYet(body: seq<Byte>, text: seq<Byte>, j: nat)
    requires NoEnd(body) && j < 6 && text == body + PASTE_END[..j]
    ensures Unended(text, PASTE_END)
  {
    forall k | 0 <= k <= |text|
      ensures !EndsWith(text[..k], PASTE_END)
    {
      if 6 <= k {
        NoEndAt(body, text, j, k, k - 6);
      }
    }
  }

  lemma NoEndAt(body: seq<Byte>, text: seq<Byte>, j: nat, k: nat, start: nat)
    requires NoEnd(body) && j < 6 && text == body + PASTE_END[..j] && k <= |text| && k == start + 6
    ensures !EndsWith(text[..k], PASTE_END)
  {
    if k <= |body| {
      assert text[..k][start..] == body[start..k];
    } else {
      assert text[..k][start..][5] == text[k - 1] == PASTE_END[k - 1 - |body|];
    }
  }

  lemma {:induction false} PasteGrowsBy(events: seq<Event>, keys: seq<Event>)
    requires Tokenise(events).open.Pasting? && Unended(Tokenise(events).open.body + BytesOf(keys), PASTE_END)
    ensures
      var before := Tokenise(events);
      Tokenise(events + keys) == Tokens(before.units, Pasting(before.open.body + BytesOf(keys)))
  {
    var body := Tokenise(events).open.body;
    if keys == [] {
      assert events + keys == events && body + [] == body;
    } else {
      var less, e := keys[..|keys| - 1], keys[|keys| - 1];
      assert keys == less + [e];
      LessIsUnended(body, BytesOf(less), ByteOf(e));
      PasteGrowsBy(events, less);
      TokeniseBehind(events, less, e, keys);
    }
  }

  lemma LessIsUnended(body: seq<Byte>, less: seq<Byte>, last: seq<Byte>)
    requires Unended(body + (less + last), PASTE_END)
    ensures Unended(body + less, PASTE_END) && !EndsWith(body + less + last, PASTE_END)
    ensures body + (less + last) == body + less + last
  {
    var all := body + (less + last);
    assert all[..|all|] == all == body + less + last;
    forall k | 0 <= k <= |body + less|
      ensures !EndsWith((body + less)[..k], PASTE_END)
    {
      assert (body + less)[..k] == all[..k];
    }
  }

  lemma PasteCloses(before: Tokens, text: seq<Byte>, at: real)
    requires before.open == Pasting(text) && EndsWith(text + [126], PASTE_END)
    ensures Next(before.open, Key(126, at)) == (Idle, [Paste(text + [126])])
  {
  }

  /** A body in which the marker does not stand, and the marker behind it, come out whole, however often the clock is read. */
  lemma PasteComesOut(events: seq<Event>, part: seq<Event>, at: real, body: seq<Byte>)
    requires Tokenise(events).open == Pasting([]) && NoEnd(body)
    requires BytesOf(part) == body + [27, 91, 50, 48, 49]
    ensures
      var before, after := Tokenise(events), Tokenise(events + part + [Key(126, at)]);
      && after == Tokens(before.units + [Paste(body + [27, 91, 50, 48, 49, 126])], Idle)
      && Emitted(events + part + [Key(126, at)]) == Emitted(events) + body + [27, 91, 50, 48, 49, 126]
  {
    var text, whole := body + [27, 91, 50, 48, 49], body + PASTE_END;
    assert PASTE_END[..5] == [27, 91, 50, 48, 49] && text + [126] == whole && [] + text == text;
    assert EndsWith(whole, PASTE_END);
    NotEndedYet(body, text, 5);
    PasteGrowsBy(events, part);
    TokeniseStep(events + part, Key(126, at));
    PasteCloses(Tokenise(events + part), text, at);
    PasteOut(Tokenise(events).units, body, PASTE_END);
  }

  lemma PasteOut(us: seq<Unit>, body: seq<Byte>, marker: seq<Byte>)
    ensures OutAll(us + [Paste(body + marker)]) + OutOpen(Idle) == OutAll(us) + OutOpen(Pasting([])) + body + marker
  {
    OutAllJoin(us, [Paste(body + marker)]);
    OneUnit(Paste(body + marker));
    NothingOut(Idle, Pasting([]));
    NothingBehind(OutAll(us), body, marker);
  }

  lemma NothingBehind(a: seq<Byte>, b: seq<Byte>, c: seq<Byte>)
    ensures a + (b + c) + [] == a + [] + b + c
  {
  }

  /** From its first Escape to the end of its marker, a paste comes out as it was typed. */
  lemma PasteIsWhole(events: seq<Event>, start: seq<Event>, part: seq<Event>, at: real, body: seq<Byte>)
    requires !Tokenise(events).open.Pasting? && NoEnd(body)
    requires Types(start, [27, 91, 50, 48, 48, 126]) && BytesOf(part) == body + [27, 91, 50, 48, 49]
    ensures
      var all := events + start + part + [Key(126, at)];
      && Tokenise(all).open == Idle
      && Emitted(all) ==
         Emitted(events) + HeldBefore(Tokenise(events).open) + [27, 91, 50, 48, 48, 126] + body + [27, 91, 50, 48, 49, 126]
  {
    assert [27, 91] + [50, 48, 48] + [126] == PASTE_START;
    SequencePassesOn(events, start, 91, [50, 48, 48], 126, PASTE_START);
    PasteComesOut(events + start, part, at, body);
  }
}
