/** The lists of actions that a key or a text to be typed turns into. Which
    keys type which character is a parameter. */
module SyntheticKeys {
  import opened Wrappers
  import opened SyntheticInput

  // ------------------------------------------------------------ what a client makes of them

  /** A key pressed and released while others are held. */
  datatype Stroke = Stroke(held: seq<Code>, key: Code, clipboard: string)

  /** The keys held, outermost first; whether the last was pressed just now; the
      strokes so far; and whether every release was of the innermost held key. */
  datatype Receiver = Receiver(held: seq<Code>, justPressed: bool, clipboard: string, strokes: seq<Stroke>, nested: bool)

  function Receive(r: Receiver, a: Action): Receiver {
    match a
    case Key(code, true) => r.(held := r.held + [code], justPressed := true)
    case Key(code, false) =>
      if r.held == [] || r.held[|r.held| - 1] != code then r.(nested := false)
      else
        var outer := r.held[..|r.held| - 1];
        r.(held := outer, justPressed := false,
           strokes := if r.justPressed then r.strokes + [Stroke(outer, code, r.clipboard)] else r.strokes)
    case SetClipboard(text) => r.(clipboard := text, justPressed := false)
    case _ => r
  }

  function ReceiveAll(r: Receiver, actions: seq<Timed>): Receiver {
    if actions == [] then r
    else Receive(ReceiveAll(r, actions[..|actions| - 1]), actions[|actions| - 1].action)
  }

  lemma {:induction false} ReceiveConcat(r: Receiver, a: seq<Timed>, b: seq<Timed>)
    ensures ReceiveAll(r, a + b) == ReceiveAll(ReceiveAll(r, a), b)
  {
    if b == [] {
      assert a + b == a;
    } else {
      assert (a + b)[..|a + b| - 1] == a + b[..|b| - 1];
      ReceiveConcat(r, a, b[..|b| - 1]);
    }
  }

  // ------------------------------------------------------------ one stroke

  function Presses(mods: seq<Code>, delay: nat): seq<Timed> {
    seq(|mods|, i requires 0 <= i < |mods| => Timed(Key(mods[i], true), delay))
  }

  /** Innermost first; the outermost release has its own delay. */
  function Releases(mods: seq<Code>, delay: nat, last: nat): seq<Timed> {
    seq(|mods|, i requires 0 <= i < |mods| =>
      Timed(Key(mods[|mods| - 1 - i], false), if i + 1 == |mods| then last else delay))
  }

  lemma {:induction false} PressesAreHeld(r: Receiver, mods: seq<Code>, delay: nat)
    ensures ReceiveAll(r, Presses(mods, delay)) ==
            r.(held := r.held + mods, justPressed := r.justPressed || mods != [])
  {
    if mods == [] {
      assert r.held + mods == r.held;
    } else {
      var n := |mods| - 1;
      PressesAreHeld(r, mods[..n], delay);
      assert Presses(mods, delay)[..n] == Presses(mods[..n], delay);
      assert r.held + mods[..n] + [mods[n]] == r.held + mods;
    }
  }

  lemma {:induction false} ReleasesAreNested(r: Receiver, held: seq<Code>, mods: seq<Code>, delay: nat, last: nat)
    requires r.held == held + mods && !r.justPressed
    ensures ReceiveAll(r, Releases(mods, delay, last)) == r.(held := held)
    decreases |mods|
  {
    if mods == [] {
      assert r.held == held;
    } else {
      var n := |mods| - 1;
      var innermost := Timed(Key(mods[n], false), if n == 0 then last else delay);
      var all := Releases(mods, delay, last);
      assert all == [innermost] + Releases(mods[..n], delay, last);
      ReceiveConcat(r, [innermost], Releases(mods[..n], delay, last));
      assert r.held[..|r.held| - 1] == held + mods[..n];
      var once := Receive(r, innermost.action);
      assert [innermost][..0] == [];
      assert ReceiveAll(r, [innermost]) == once;
      ReleasesAreNested(once, held, mods[..n], delay, last);
    }
  }

  /** A key inside its modifiers. */
  function Tap(mods: seq<Code>, key: Code, pressDelay: nat, keyDelay: nat, releaseDelay: nat, last: nat): seq<Timed> {
    Presses(mods, pressDelay)
    + [Timed(Key(key, true), keyDelay), Timed(Key(key, false), if mods == [] then last else releaseDelay)]
    + Releases(mods, releaseDelay, last)
  }

  /** It is one stroke with exactly those modifiers held, and leaves nothing held. */
  lemma TapIsOneStroke(r: Receiver, mods: seq<Code>, key: Code, pressDelay: nat, keyDelay: nat, releaseDelay: nat, last: nat)
    ensures ReceiveAll(r, Tap(mods, key, pressDelay, keyDelay, releaseDelay, last)) ==
            r.(justPressed := false, strokes := r.strokes + [Stroke(r.held + mods, key, r.clipboard)])
  {
    var pressed := ReceiveAll(r, Presses(mods, pressDelay));
    PressesAreHeld(r, mods, pressDelay);
    var tap := [Timed(Key(key, true), keyDelay), Timed(Key(key, false), if mods == [] then last else releaseDelay)];
    DownUpIsOneStroke(pressed, key, tap);
    ReceiveConcat(r, Presses(mods, pressDelay), tap);
    ReceiveConcat(r, Presses(mods, pressDelay) + tap, Releases(mods, releaseDelay, last));
    ReleasesAreNested(ReceiveAll(pressed, tap), r.held, mods, releaseDelay, last);
    hide Presses, Releases, ReceiveAll;
  }

  lemma DownUpIsOneStroke(r: Receiver, key: Code, tap: seq<Timed>)
    requires |tap| == 2 && tap[0].action == Key(key, true) && tap[1].action == Key(key, false)
    ensures ReceiveAll(r, tap) == r.(justPressed := false, strokes := r.strokes + [Stroke(r.held, key, r.clipboard)])
  {
    assert tap[..1] == [tap[0]] && [tap[0]][..0] == [];
    assert ReceiveAll(r, [tap[0]]) == Receive(r, tap[0].action);
    assert (r.held + [key])[..|r.held|] == r.held;
  }

  /** Where the layout has the wanted key, and the modifier keys it has. */
  datatype Layout = Layout(found: Option<(Code, bool)>, shift: Option<Code>, ctrl: Option<Code>,
                           alt: Option<Code>, super: Option<Code>)

  /** The modifiers asked for. */
  datatype Mods = Mods(shift: bool, ctrl: bool, alt: bool, super: bool)

  /** The keys of those asked for, in order. */
  function Needed(asked: seq<(bool, Option<Code>)>): seq<Option<Code>> {
    if asked == [] then []
    else
      var (wanted, key) := asked[|asked| - 1];
      Needed(asked[..|asked| - 1]) + if wanted then [key] else []
  }

  function Asked(layout: Layout, mods: Mods): seq<(bool, Option<Code>)> {
    [(mods.shift, layout.shift), (mods.ctrl, layout.ctrl), (mods.alt, layout.alt), (mods.super, layout.super)]
  }

  /** The modifier keys to hold, outermost first: those asked for, and Shift
      for a key on the shifted level. */
  function Wanted(layout: Layout, mods: Mods): seq<Option<Code>>
    requires layout.found.Some?
  {
    Needed(Asked(layout, mods)) + if layout.found.value.1 && !mods.shift then [layout.shift] else []
  }

  function Values(s: seq<Option<Code>>): seq<Code>
    requires None !in s
  {
    seq(|s|, i requires 0 <= i < |s| =>
      assert s[i] in s;
      s[i].value)
  }

  lemma {:induction false} NeededSoFar(asked: seq<(bool, Option<Code>)>, k: nat)
    requires k <= |asked| && None in Needed(asked[..k])
    ensures None in Needed(asked)
    decreases |asked| - k
  {
    if k == |asked| {
      assert asked[..k] == asked;
    } else {
      assert asked[..k + 1][..k] == asked[..k];
      NeededSoFar(asked, k + 1);
    }
  }

  /** The keys of all modifiers asked for, if the layout has them. */
  method FindModifiers(asked: seq<(bool, Option<Code>)>) returns (modKeys: Option<seq<Code>>)
    ensures modKeys.None? <==> None in Needed(asked)
    ensures modKeys.Some? ==> modKeys.value == Values(Needed(asked))
  {
    var keys: seq<Code> := [];
    for i := 0 to |asked|
      invariant None !in Needed(asked[..i]) && keys == Values(Needed(asked[..i]))
    {
      assert asked[..i + 1][..i] == asked[..i];
      if asked[i].0 {
        if asked[i].1.None? {
          NeededSoFar(asked, i + 1);
          return None;
        }
        keys := keys + [asked[i].1.value];
      }
    }
    assert asked[..|asked|] == asked;
    modKeys := Some(keys);
  }

  /** The modifier keys a press needs are all in the layout: those asked for,
      and Shift for a key on the shifted level. */
  predicate HasKeys(layout: Layout, mods: Mods) {
    && layout.found.Some?
    && (mods.shift || layout.found.value.1 ==> layout.shift.Some?)
    && (mods.ctrl ==> layout.ctrl.Some?)
    && (mods.alt ==> layout.alt.Some?)
    && (mods.super ==> layout.super.Some?)
  }

  /** The keys held, outermost first: Shift, Ctrl, Alt and Super as asked for,
      then Shift if only the level needs it. */
  function HeldFor(layout: Layout, mods: Mods): seq<Code>
    requires HasKeys(layout, mods)
  {
    (if mods.shift then [layout.shift.value] else [])
    + (if mods.ctrl then [layout.ctrl.value] else [])
    + (if mods.alt then [layout.alt.value] else [])
    + (if mods.super then [layout.super.value] else [])
    + (if layout.found.value.1 && !mods.shift then [layout.shift.value] else [])
  }

  lemma WantedIsHeld(layout: Layout, mods: Mods)
    requires layout.found.Some?
    ensures None !in Wanted(layout, mods) <==> HasKeys(layout, mods)
    ensures HasKeys(layout, mods) ==> Values(Wanted(layout, mods)) == HeldFor(layout, mods)
  {
    var asked := Asked(layout, mods);
    assert asked[..3][..2] == asked[..2] && asked[..2][..1] == asked[..1];
    assert Needed(asked[..1]) == if mods.shift then [layout.shift] else [];
    assert Needed(asked[..2]) == Needed(asked[..1]) + if mods.ctrl then [layout.ctrl] else [];
    assert Needed(asked[..3]) == Needed(asked[..2]) + if mods.alt then [layout.alt] else [];
    assert Needed(asked) == Needed(asked[..3]) + if mods.super then [layout.super] else [];
  }

  /** Gives up exactly if the key or a modifier it needs is not in the layout;
      otherwise whoever gets the actions, 8 ms apart, sees one stroke of the
      key with those modifiers held and nothing left down. */
  method SendKey(layout: Layout, mods: Mods) returns (actions: Option<seq<Timed>>)
    ensures actions.Some? <==> HasKeys(layout, mods)
    ensures actions.Some? ==> actions.value == Tap(HeldFor(layout, mods), layout.found.value.0, 8, 8, 8, 8)
    ensures actions.Some? ==>
              && (forall r ::
                    ReceiveAll(r, actions.value) ==
                    r.(justPressed := false,
                       strokes := r.strokes + [Stroke(r.held + HeldFor(layout, mods), layout.found.value.0, r.clipboard)]))
              && (forall i :: 0 <= i < |actions.value| ==> actions.value[i].delayAfterMs == 8)
  {
    if layout.found.None? {
      return None;
    }
    WantedIsHeld(layout, mods);
    var (key, shifted) := layout.found.value;
    var modKeys := FindModifiers(Asked(layout, mods));
    hide Needed, Tap, HasKeys, HeldFor;
    if modKeys.None? {
      return None;
    }
    var held := modKeys.value;
    if shifted && !mods.shift {
      if layout.shift.None? {
        return None;
      }
      held := held + [layout.shift.value];
    }
    assert held == Values(Wanted(layout, mods));
    var taps := TapActions(held, key);
    forall r: Receiver
      ensures ReceiveAll(r, taps) ==
              r.(justPressed := false, strokes := r.strokes + [Stroke(r.held + held, key, r.clipboard)])
    {
      TapIsOneStroke(r, held, key, 8, 8, 8, 8);
    }
    actions := Some(taps);
  }

  method TapActions(mods: seq<Code>, key: Code) returns (actions: seq<Timed>)
    ensures actions == Tap(mods, key, 8, 8, 8, 8)
    ensures forall i :: 0 <= i < |actions| ==> actions[i].delayAfterMs == 8
  {
    actions := PressAll(mods, 8);
    actions := actions + [Timed(Key(key, true), 8)];
    actions := actions + [Timed(Key(key, false), 8)];
    var releases := ReleaseAll(mods, 8, 8);
    actions := actions + releases;
  }

  method PressAll(mods: seq<Code>, delay: nat) returns (actions: seq<Timed>)
    ensures actions == Presses(mods, delay)
  {
    actions := [];
    for i := 0 to |mods|
      invariant actions == Presses(mods[..i], delay)
    {
      actions := actions + [Timed(Key(mods[i], true), delay)];
    }
    assert mods[..|mods|] == mods;
  }

  method ReleaseAll(mods: seq<Code>, delay: nat, last: nat) returns (actions: seq<Timed>)
    ensures actions == Releases(mods, delay, last)
  {
    actions := [];
    for i := 0 to |mods|
      invariant |actions| == i && actions == Releases(mods, delay, last)[..i]
    {
      actions := actions + [Timed(Key(mods[|mods| - 1 - i], false), if i + 1 == |mods| then last else delay)];
    }
  }

  // ------------------------------------------------------------ a text

  /** The key for a character and the modifiers to hold. */
  datatype Route = Route(key: Code, mods: seq<Code>)

  /** The keys to paste with. */
  datatype Paste = Paste(ctrl: Code, v: Code)

  function CharActions(c: char, table: map<char, Route>, paste: Option<Paste>, trailing: nat): seq<Timed> {
    if c in table then Tap(table[c].mods, table[c].key, 0, 8, 0, trailing)
    else if paste.None? then []
    else
      [Timed(SetClipboard([c]), 0)]
      + Tap([paste.value.ctrl], paste.value.v, 0, 8, 0, if trailing < 30 then 30 else trailing)
  }

  function TextActions(text: string, done: nat, delayMs: nat, table: map<char, Route>, paste: Option<Paste>): seq<Timed>
    requires done <= |text|
  {
    if done == 0 then []
    else
      TextActions(text, done - 1, delayMs, table, paste)
      + CharActions(text[done - 1], table, paste, if done < |text| then delayMs else 0)
  }

  /** What typing the text should look like: a stroke for each character, a
      paste of it where no key types it, nothing where there is neither. */
  function Typed(r: Receiver, text: string, table: map<char, Route>, paste: Option<Paste>): Receiver {
    if text == [] then r
    else
      var c, before := text[|text| - 1], Typed(r, text[..|text| - 1], table, paste);
      if c in table then
        before.(strokes := before.strokes + [Stroke(r.held + table[c].mods, table[c].key, before.clipboard)])
      else if paste.Some? then
        before.(strokes := before.strokes + [Stroke(r.held + [paste.value.ctrl], paste.value.v, [c])], clipboard := [c])
      else before
  }

  lemma {:induction false} TypedKeepsHeld(r: Receiver, text: string, table: map<char, Route>, paste: Option<Paste>)
    ensures var t := Typed(r, text, table, paste); t.held == r.held && t.justPressed == r.justPressed && t.nested == r.nested
  {
    if text != [] {
      TypedKeepsHeld(r, text[..|text| - 1], table, paste);
    }
  }

  lemma {:induction false} TextIsTyped(r: Receiver, text: string, done: nat, delayMs: nat, table: map<char, Route>,
                                       paste: Option<Paste>)
    requires done <= |text| && !r.justPressed
    ensures ReceiveAll(r, TextActions(text, done, delayMs, table, paste)) == Typed(r, text[..done], table, paste)
  {
    if done > 0 {
      var c, trailing := text[done - 1], if done < |text| then delayMs else 0;
      TextIsTyped(r, text, done - 1, delayMs, table, paste);
      assert text[..done][..done - 1] == text[..done - 1];
      var before := Typed(r, text[..done - 1], table, paste);
      TypedKeepsHeld(r, text[..done - 1], table, paste);
      ReceiveConcat(r, TextActions(text, done - 1, delayMs, table, paste), CharActions(c, table, paste, trailing));
      CharIsTyped(before, c, table, paste, trailing);
    }
  }

  lemma CharIsTyped(before: Receiver, c: char, table: map<char, Route>, paste: Option<Paste>, trailing: nat)
    requires !before.justPressed
    ensures ReceiveAll(before, CharActions(c, table, paste, trailing)) ==
            if c in table then
              before.(strokes := before.strokes + [Stroke(before.held + table[c].mods, table[c].key, before.clipboard)])
            else if paste.Some? then
              before.(strokes := before.strokes + [Stroke(before.held + [paste.value.ctrl], paste.value.v, [c])],
                      clipboard := [c])
            else before
  {
    if c in table {
      TapIsOneStroke(before, table[c].mods, table[c].key, 0, 8, 0, trailing);
    } else if paste.Some? {
      var copy := [Timed(SetClipboard([c]), 0)];
      var tap := Tap([paste.value.ctrl], paste.value.v, 0, 8, 0, if trailing < 30 then 30 else trailing);
      ReceiveConcat(before, copy, tap);
      assert copy[..0] == [];
      var copied := Receive(before, SetClipboard([c]));
      assert ReceiveAll(before, copy) == copied;
      TapIsOneStroke(copied, [paste.value.ctrl], paste.value.v, 0, 8, 0, if trailing < 30 then 30 else trailing);
    }
  }

  method SendString(text: string, delayMs: nat, table: map<char, Route>, ctrl: Option<Code>) returns (actions: seq<Timed>)
    ensures actions == TextActions(text, |text|, delayMs, table,
                                   if ctrl.Some? && 'v' in table then Some(Paste(ctrl.value, table['v'].key)) else None)
  {
    var paste := if ctrl.Some? && 'v' in table then Some(Paste(ctrl.value, table['v'].key)) else None;
    actions := [];
    for i := 0 to |text|
      invariant actions == TextActions(text, i, delayMs, table, paste)
    {
      var trailing := if i + 1 < |text| then delayMs else 0;
      var more := SendChar(text[i], table, paste, trailing);
      actions := actions + more;
    }
  }

  method SendChar(c: char, table: map<char, Route>, paste: Option<Paste>, trailing: nat) returns (actions: seq<Timed>)
    ensures actions == CharActions(c, table, paste, trailing)
  {
    if c !in table {
      if paste.None? {
        return [];
      }
      var Paste(ctrl, v) := paste.value;
      actions := [Timed(SetClipboard([c]), 0), Timed(Key(ctrl, true), 0), Timed(Key(v, true), 8),
                  Timed(Key(v, false), 0), Timed(Key(ctrl, false), if trailing < 30 then 30 else trailing)];
      return;
    }
    var Route(key, mods) := table[c];
    actions := PressAll(mods, 0);
    actions := actions + [Timed(Key(key, true), 8)];
    actions := actions + [Timed(Key(key, false), if mods == [] then trailing else 0)];
    var releases := ReleaseAll(mods, 0, trailing);
    actions := actions + releases;
  }

  /** The key of a character stays down for 8 ms, and its last release is
      followed by the delay between characters, at least 30 ms when it is
      pasted; nothing else waits. */
  ghost predicate WaitsFor(part: seq<Timed>, c: char, table: map<char, Route>, paste: Option<Paste>, between: nat) {
    if c in table then
      && |part| == 2 * |table[c].mods| + 2
      && forall i :: 0 <= i < |part| ==>
           part[i].delayAfterMs == if i == |part| - 1 then between else if i == |table[c].mods| then 8 else 0
    else if paste.Some? then
      && |part| == 5 && part[4].delayAfterMs >= 30 && part[4].delayAfterMs >= between
      && part[4].delayAfterMs in {30, between}
      && forall i :: 0 <= i < 4 ==> part[i].delayAfterMs == if i == 2 then 8 else 0
    else part == []
  }

  lemma CharWaits(c: char, table: map<char, Route>, paste: Option<Paste>, between: nat)
    ensures WaitsFor(CharActions(c, table, paste, between), c, table, paste, between)
  {
  }

  /** The list has, character by character, what types each, the last without
      a delay behind it. */
  lemma {:induction false} CharsInOrder(text: string, k: nat, done: nat, delayMs: nat, table: map<char, Route>,
                                        paste: Option<Paste>)
    requires k < done <= |text|
    ensures TextActions(text, k, delayMs, table, paste)
            + CharActions(text[k], table, paste, if k == |text| - 1 then 0 else delayMs)
            <= TextActions(text, done, delayMs, table, paste)
    decreases done - k
  {
    if k + 1 < done {
      CharsInOrder(text, k + 1, done, delayMs, table, paste);
      hide CharActions;
      PrefixOfPrefix(TextActions(text, k + 1, delayMs, table, paste),
                     CharActions(text[k + 1], table, paste, if k + 1 == |text| - 1 then 0 else delayMs),
                     TextActions(text, done, delayMs, table, paste));
    }
  }

  lemma PrefixOfPrefix(a: seq<Timed>, b: seq<Timed>, all: seq<Timed>)
    requires a + b <= all
    ensures a <= all
  {
    assert a + b == all[..|a + b|];
  }

  /** Whatever is typed, no key stays down and every release is of the
      innermost held key. */
  lemma TypingLeavesNothingHeld(text: string, delayMs: nat, table: map<char, Route>, paste: Option<Paste>, clipboard: string)
    ensures var r := ReceiveAll(Receiver([], false, clipboard, [], true), TextActions(text, |text|, delayMs, table, paste));
            r.held == [] && r.nested && r.strokes == Typed(Receiver([], false, clipboard, [], true), text, table, paste).strokes
  {
    TextIsTyped(Receiver([], false, clipboard, [], true), text, |text|, delayMs, table, paste);
    TypedKeepsHeld(Receiver([], false, clipboard, [], true), text, table, paste);
    assert text[..|text|] == text;
  }

  // ------------------------------------------------------------ lists cut short

  /** How many keys are down after n actions of a tap. */
  function Depth(mods: seq<Code>, n: nat): nat
    requires n <= 2 * |mods| + 2
  {
    if n <= |mods| + 1 then n else 2 * |mods| + 2 - n
  }

  lemma TapAt(mods: seq<Code>, key: Code, pressDelay: nat, keyDelay: nat, releaseDelay: nat, last: nat, n: nat)
    requires n < 2 * |mods| + 2
    ensures |Tap(mods, key, pressDelay, keyDelay, releaseDelay, last)| == 2 * |mods| + 2
    ensures Tap(mods, key, pressDelay, keyDelay, releaseDelay, last)[n].action ==
            Key((mods + [key])[if n <= |mods| then n else 2 * |mods| + 1 - n], n <= |mods|)
  {
    if n > |mods| + 1 {
      assert Tap(mods, key, pressDelay, keyDelay, releaseDelay, last)[n] ==
             Releases(mods, releaseDelay, last)[n - |mods| - 2];
    }
  }

  /** A tap cut short has pressed its keys from the outside in and released
      them from the inside out. */
  lemma {:induction false} CutTapHolds(r: Receiver, mods: seq<Code>, key: Code, pressDelay: nat, keyDelay: nat,
                                       releaseDelay: nat, last: nat, n: nat)
    requires n <= 2 * |mods| + 2
    ensures |Tap(mods, key, pressDelay, keyDelay, releaseDelay, last)| == 2 * |mods| + 2
    ensures ReceiveAll(r, Tap(mods, key, pressDelay, keyDelay, releaseDelay, last)[..n]).held ==
            r.held + (mods + [key])[..Depth(mods, n)]
  {
    var tap := Tap(mods, key, pressDelay, keyDelay, releaseDelay, last);
    if n > 0 {
      CutTapHolds(r, mods, key, pressDelay, keyDelay, releaseDelay, last, n - 1);
      TapAt(mods, key, pressDelay, keyDelay, releaseDelay, last, n - 1);
      hide Tap;
      assert tap[..n][..n - 1] == tap[..n - 1];
      DeeperOrOut(ReceiveAll(r, tap[..n - 1]), r.held, mods + [key], Depth(mods, n - 1), tap[n - 1].action, n <= |mods| + 1);
    }
  }

  /** Pressing the next key inwards, or releasing the innermost. */
  lemma DeeperOrOut(before: Receiver, held: seq<Code>, keys: seq<Code>, depth: nat, a: Action, press: bool)
    requires depth <= |keys| && before.held == held + keys[..depth]
    requires if press then depth < |keys| && a == Key(keys[depth], true) else depth > 0 && a == Key(keys[depth - 1], false)
    ensures Receive(before, a).held == held + keys[..if press then depth + 1 else depth - 1]
  {
    if press {
      assert held + keys[..depth] + [keys[depth]] == held + keys[..depth + 1];
    } else {
      assert before.held[|before.held| - 1] == keys[depth - 1];
      assert before.held[..|before.held| - 1] == held + keys[..depth - 1];
    }
  }

  /** A tap cut short leaves nothing down exactly if it had not begun or was
      over. */
  lemma CutTapIsReleasedIff(mods: seq<Code>, key: Code, pressDelay: nat, keyDelay: nat, releaseDelay: nat, last: nat,
                            n: nat, clipboard: string)
    requires n <= |Tap(mods, key, pressDelay, keyDelay, releaseDelay, last)|
    ensures var tap := Tap(mods, key, pressDelay, keyDelay, releaseDelay, last);
            ReceiveAll(Receiver([], false, clipboard, [], true), tap[..n]).held == [] <==> n == 0 || n == |tap|
  {
    CutTapHolds(Receiver([], false, clipboard, [], true), mods, key, pressDelay, keyDelay, releaseDelay, last, n);
  }

  /** n actions of a text end between two characters, or right after what is
      to be pasted was copied. */
  predicate BetweenStrokes(text: string, done: nat, delayMs: nat, table: map<char, Route>, paste: Option<Paste>, n: nat)
    requires done <= |text|
  {
    exists k :: 0 <= k <= done && EndsStroke(text, done, k, delayMs, table, paste, n)
  }

  predicate EndsStroke(text: string, done: nat, k: nat, delayMs: nat, table: map<char, Route>, paste: Option<Paste>, n: nat)
    requires k <= done <= |text|
  {
    var at := |TextActions(text, k, delayMs, table, paste)|;
    n == at || (k < done && text[k] !in table && paste.Some? && n == at + 1)
  }

  lemma {:induction false} TextActionsGrow(text: string, k: nat, done: nat, delayMs: nat, table: map<char, Route>,
                                           paste: Option<Paste>)
    requires k <= done <= |text|
    ensures |TextActions(text, k, delayMs, table, paste)| <= |TextActions(text, done, delayMs, table, paste)|
    ensures k < done ==>
              |TextActions(text, k, delayMs, table, paste)|
              + |CharActions(text[k], table, paste, if k + 1 < |text| then delayMs else 0)|
              <= |TextActions(text, done, delayMs, table, paste)|
    decreases done - k
  {
    if k < done {
      TextActionsGrow(text, k + 1, done, delayMs, table, paste);
    }
  }

  /** Cut short inside one character. */
  lemma CutCharIsReleasedIff(r: Receiver, c: char, table: map<char, Route>, paste: Option<Paste>, trailing: nat, m: nat)
    requires r.held == [] && m <= |CharActions(c, table, paste, trailing)|
    ensures ReceiveAll(r, CharActions(c, table, paste, trailing)[..m]).held == [] <==>
            m == 0 || m == |CharActions(c, table, paste, trailing)| || (c !in table && m == 1)
  {
    var all := CharActions(c, table, paste, trailing);
    if c in table {
      CutTapHolds(r, table[c].mods, table[c].key, 0, 8, 0, trailing, m);
    } else if paste.Some? && m > 0 {
      var copy := [Timed(SetClipboard([c]), 0)];
      var last := if trailing < 30 then 30 else trailing;
      var tap := Tap([paste.value.ctrl], paste.value.v, 0, 8, 0, last);
      assert all[..m] == copy + tap[..m - 1];
      ReceiveConcat(r, copy, tap[..m - 1]);
      assert copy[..0] == [];
      var copied := Receive(r, SetClipboard([c]));
      assert ReceiveAll(r, copy) == copied;
      CutTapHolds(copied, [paste.value.ctrl], paste.value.v, 0, 8, 0, last, m - 1);
    }
  }

  /** A text cut short leaves nothing down exactly between its strokes. */
  lemma {:induction false} CutTextIsReleasedIff(r: Receiver, text: string, done: nat, delayMs: nat,
                                                table: map<char, Route>, paste: Option<Paste>, n: nat)
    requires done <= |text| && r.held == [] && !r.justPressed
    requires n <= |TextActions(text, done, delayMs, table, paste)|
    ensures ReceiveAll(r, TextActions(text, done, delayMs, table, paste)[..n]).held == [] <==>
            BetweenStrokes(text, done, delayMs, table, paste, n)
    decreases done
  {
    if done == 0 {
      assert EndsStroke(text, 0, 0, delayMs, table, paste, n);
    } else {
      var before := TextActions(text, done - 1, delayMs, table, paste);
      var c, trailing := text[done - 1], if done < |text| then delayMs else 0;
      var all, last := TextActions(text, done, delayMs, table, paste), CharActions(c, table, paste, trailing);
      assert all == before + last;
      hide TextActions, CharActions, BetweenStrokes;
      if n <= |before| {
        assert all[..n] == before[..n];
        CutTextIsReleasedIff(r, text, done - 1, delayMs, table, paste, n);
        BetweenEarlierStrokes(text, done, delayMs, table, paste, n);
      } else {
        var m := n - |before|;
        assert all[..n] == before + last[..m];
        ReceiveConcat(r, before, last[..m]);
        TextIsTyped(r, text, done - 1, delayMs, table, paste);
        TypedKeepsHeld(r, text[..done - 1], table, paste);
        hide Typed;
        CutCharIsReleasedIff(ReceiveAll(r, before), c, table, paste, trailing, m);
        BetweenLastStrokes(text, done, delayMs, table, paste, n);
      }
    }
  }

  lemma BetweenEarlierStrokes(text: string, done: nat, delayMs: nat, table: map<char, Route>, paste: Option<Paste>, n: nat)
    requires 0 < done <= |text| && n <= |TextActions(text, done - 1, delayMs, table, paste)|
    ensures BetweenStrokes(text, done, delayMs, table, paste, n) <==>
            BetweenStrokes(text, done - 1, delayMs, table, paste, n)
  {
    if BetweenStrokes(text, done - 1, delayMs, table, paste, n) {
      var k :| 0 <= k <= done - 1 && EndsStroke(text, done - 1, k, delayMs, table, paste, n);
      assert EndsStroke(text, done, k, delayMs, table, paste, n);
    }
    if BetweenStrokes(text, done, delayMs, table, paste, n) {
      var k :| 0 <= k <= done && EndsStroke(text, done, k, delayMs, table, paste, n);
      EndsStrokeEarlier(text, done, k, delayMs, table, paste, n);
      hide EndsStroke;
    }
  }

  lemma EndsStrokeEarlier(text: string, done: nat, k: nat, delayMs: nat, table: map<char, Route>, paste: Option<Paste>, n: nat)
    requires 0 < done <= |text| && n <= |TextActions(text, done - 1, delayMs, table, paste)| && k <= done
    requires EndsStroke(text, done, k, delayMs, table, paste, n)
    ensures EndsStroke(text, done - 1, if k < done then k else done - 1, delayMs, table, paste, n)
  {
    hide TextActions, CharActions;
    TextActionsGrow(text, done - 1, done, delayMs, table, paste);
  }

  lemma BetweenLastStrokes(text: string, done: nat, delayMs: nat, table: map<char, Route>, paste: Option<Paste>, n: nat)
    requires 0 < done <= |text| && n > |TextActions(text, done - 1, delayMs, table, paste)|
    ensures BetweenStrokes(text, done, delayMs, table, paste, n) <==>
              || n == |TextActions(text, done, delayMs, table, paste)|
              || (text[done - 1] !in table && paste.Some? && n == |TextActions(text, done - 1, delayMs, table, paste)| + 1)
  {
    hide TextActions;
    if n == |TextActions(text, done, delayMs, table, paste)| {
      assert EndsStroke(text, done, done, delayMs, table, paste, n);
    }
    if text[done - 1] !in table && paste.Some? && n == |TextActions(text, done - 1, delayMs, table, paste)| + 1 {
      assert EndsStroke(text, done, done - 1, delayMs, table, paste, n);
    }
    if BetweenStrokes(text, done, delayMs, table, paste, n) {
      var k :| 0 <= k <= done && EndsStroke(text, done, k, delayMs, table, paste, n);
      if k < done - 1 {
        TextActionsGrow(text, k, done - 1, delayMs, table, paste);
      }
    }
  }

  // ------------------------------------------------------------ losing the focus

  /** What is down after what ran of a pinned key press that was given up: nothing
      exactly if none of it had run. */
  lemma CancelledTapHoldsIff(r: Record, mods: seq<Code>, key: Code, delay: nat, clipboard: string)
    requires r.Plausible() && r.request.actions == Tap(mods, key, delay, delay, delay, delay)
    requires |r.times| < |r.request.actions|
    ensures ReceiveAll(Receiver([], false, clipboard, [], true), r.request.actions[..|r.times|]).held == [] <==>
            r.times == []
  {
    CutTapIsReleasedIff(mods, key, delay, delay, delay, delay, |r.times|, clipboard);
  }

  function Actions(executed: seq<Executed>): seq<Timed> {
    seq(|executed|, i requires 0 <= i < |executed| => executed[i].timed)
  }

  /** A concrete run: Shift and a key are to be pressed in one window, and the
      focus has moved to another when the queue looks for the second time. The
      queue drops the releases with the rest, and Shift stays down. */
  lemma LostFocusLeavesShiftDown(here: Surface, there: Surface, shift: Code, key: Code)
    requires here != there
    ensures var focusAt := (t: nat) => if t < 2 then Some(here) else Some(there);
            var always := (t: nat) => true;
            var request := Request(1, Tap([shift], key, 8, 8, 8, 8), Some(here));
            var first := Advanced(Progress(Items(request, 0), [], 1, false), focusAt, always);
            var second := Advanced(first.(armed := false), focusAt, always);
            && first.armed && second.queue == [] && !second.armed
            && ReceiveAll(Receiver([], false, "", [], true), Actions(second.executed)).held == [shift]
  {
    var focusAt := (t: nat) => if t < 2 then Some(here) else Some(there);
    var always := (t: nat) => true;
    var request := Request(1, Tap([shift], key, 8, 8, 8, 8), Some(here));
    var queue := Items(request, 0);
    TapAt([shift], key, 8, 8, 8, 8, 0);
    assert queue[0].timed == Timed(Key(shift, true), 8);
    var first := Advanced(Progress(queue, [], 1, false), focusAt, always);
    assert first == Progress(queue[1..], [Executed(1, Timed(Key(shift, true), 8), 1)], 2, true);
    assert first.queue[0].focus == Some(here) && first.queue[0].sequence == 1;
    assert !FocusIsThere(first.queue[0], 2, focusAt);
    WithoutOwn(first.queue[1..], 1);
    var empty := Progress([], first.executed, 3, false);
    assert Advanced(empty, focusAt, always) == empty;
    var second := Advanced(first.(armed := false), focusAt, always);
    assert second == Advanced(Progress(Without(first.queue[1..], 1), first.executed, 3, false), focusAt, always);
    assert second.executed == first.executed;
    assert Actions(second.executed) == [Timed(Key(shift, true), 8)];
    assert [Timed(Key(shift, true), 8)][..0] == [];
  }
}
