/** Output configurations: validated as a whole, applied head by head, and
    taken back head by head in reverse when the backend refuses one of them.
    What the backend does to a head is a parameter. */
module OutputConfig {
  import opened Wrappers

  type HeadId = nat
  type Transform = nat

  datatype Mode = Mode(w: int, h: int, refresh: int)
  datatype Location = Location(x: int, y: int)

  /** One head. `mapped` is where the space shows it, if it is enabled. */
  datatype Head = Head(mode: Option<Mode>, location: Location, scale: real, transform: Transform,
                       mapped: Option<Location>, positionExplicit: bool, adaptiveSync: Option<bool>,
                       modes: seq<Mode>, preferred: Option<Mode>)
  {
    predicate Enabled() { mapped.Some? }
    predicate Placed() { mapped.Some? ==> mapped == Some(location) }

    /** Leaves alone what is None; in particular a mode cannot be cleared. */
    function ChangeState(m: Option<Mode>, t: Option<Transform>, s: Option<real>, l: Option<Location>): Head {
      this.(mode := if m.Some? then m else mode,
            transform := if t.Some? then t.value else transform,
            scale := if s.Some? then s.value else scale,
            location := if l.Some? then l.value else location)
    }
  }

  /** What a client asks of one head. */
  datatype HeadChange = HeadChange(output: HeadId, enabled: bool, mode: Option<Mode>, customMode: Option<Mode>,
                                   position: Option<Location>, scale: Option<real>,
                                   transform: Option<Transform>, adaptiveSync: Option<bool>)
  {
    function RequestedMode(): Option<Mode> { if mode.Some? then mode else customMode }
  }

  datatype ConfigError = UnknownHead | ConfiguredTwice | NotAdvertised | NonPositiveSize | NoMode
                       | NonPositiveScale | NoAdaptiveSync | NoEnabledHead | Refused

  datatype Resolved = Resolved(change: HeadChange, mode: Option<Mode>, wasEnabled: bool)

  // ------------------------------------------------------------ validation

  function Abs(a: int): nat { if a < 0 then -a else a }

  predicate Near(m: Mode, wanted: Mode) {
    m.w == wanted.w && m.h == wanted.h && Abs(m.refresh - wanted.refresh) <= 1000
  }

  /** The earliest of the nearest advertised modes, if one is near enough. */
  method NearestAdvertisedMode(modes: seq<Mode>, wanted: Mode) returns (r: Option<Mode>)
    ensures r == NearestMode(modes, wanted)
    ensures r.None? <==> forall m :: m in modes ==> !Near(m, wanted)
    ensures r.Some? ==>
              exists i :: && 0 <= i < |modes| && modes[i] == r.value && Near(modes[i], wanted)
                          && (forall j :: 0 <= j < |modes| && Near(modes[j], wanted) ==>
                                Abs(modes[i].refresh - wanted.refresh) <= Abs(modes[j].refresh - wanted.refresh))
                          && (forall j :: 0 <= j < i && Near(modes[j], wanted) ==>
                                Abs(modes[i].refresh - wanted.refresh) < Abs(modes[j].refresh - wanted.refresh))
  {
    r := None;
    ghost var at := 0;
    for k := 0 to |modes|
      invariant r == NearestMode(modes[..k], wanted)
      invariant r.None? ==> forall j :: 0 <= j < k ==> !Near(modes[j], wanted)
      invariant r.Some? ==> at < k && modes[at] == r.value && Near(modes[at], wanted)
      invariant r.Some? ==> forall j :: 0 <= j < k && Near(modes[j], wanted) ==>
                  Abs(modes[at].refresh - wanted.refresh) <= Abs(modes[j].refresh - wanted.refresh)
      invariant r.Some? ==> forall j :: 0 <= j < at && Near(modes[j], wanted) ==>
                  Abs(modes[at].refresh - wanted.refresh) < Abs(modes[j].refresh - wanted.refresh)
    {
      assert modes[..k + 1][..k] == modes[..k];
      if Near(modes[k], wanted)
         && (r.None? || Abs(modes[k].refresh - wanted.refresh) < Abs(r.value.refresh - wanted.refresh))
      {
        r, at := Some(modes[k]), k;
      }
    }
    assert modes[..|modes|] == modes;
  }

  function NearestMode(modes: seq<Mode>, wanted: Mode): Option<Mode> {
    if modes == [] then None
    else
      var best, m := NearestMode(modes[..|modes| - 1], wanted), modes[|modes| - 1];
      if Near(m, wanted) && (best.None? || Abs(m.refresh - wanted.refresh) < Abs(best.value.refresh - wanted.refresh))
      then Some(m) else best
  }

  /** The mode a change stands for; None keeps the current one. */
  function ModeFor(head: Head, change: HeadChange): Option<Mode> {
    if !change.enabled then None
    else if change.mode.Some? then change.mode
    else if change.customMode.Some? then
      var near := NearestMode(head.modes, change.customMode.value);
      if near.Some? then near else change.customMode
    else if head.Enabled() then None
    else if head.preferred.Some? then head.preferred
    else head.mode
  }

  /** What is wrong with one change by itself, looking in the source's order. */
  function Fault(outputs: map<HeadId, Head>, earlier: set<HeadId>, change: HeadChange): Option<ConfigError> {
    if change.output !in outputs then Some(UnknownHead)
    else if change.output in earlier then Some(ConfiguredTwice)
    else if !change.enabled then None
    else
      var head := outputs[change.output];
      if change.mode.Some? && change.mode.value !in head.modes then Some(NotAdvertised)
      else if change.mode.None? && change.customMode.Some?
              && (change.customMode.value.w <= 0 || change.customMode.value.h <= 0) then Some(NonPositiveSize)
      else if change.RequestedMode().None? && !head.Enabled() && ModeFor(head, change).None? then Some(NoMode)
      else if change.scale.Some? && change.scale.value <= 0.0 then Some(NonPositiveScale)
      else if change.adaptiveSync == Some(true) && head.adaptiveSync.None? then Some(NoAdaptiveSync)
      else None
  }

  function Named(changes: seq<HeadChange>): set<HeadId> {
    set i | 0 <= i < |changes| :: changes[i].output
  }

  function FaultAt(outputs: map<HeadId, Head>, changes: seq<HeadChange>, i: nat): Option<ConfigError>
    requires i < |changes|
  {
    Fault(outputs, Named(changes[..i]), changes[i])
  }

  predicate EnabledAfter(outputs: map<HeadId, Head>, changes: seq<HeadChange>, id: HeadId)
    requires id in outputs
  {
    if id in Named(changes) then exists i :: 0 <= i < |changes| && changes[i].output == id && changes[i].enabled
    else outputs[id].Enabled()
  }

  /** No change is wrong, and a head stays enabled. */
  ghost predicate Acceptable(outputs: map<HeadId, Head>, changes: seq<HeadChange>, allowNoHeads: bool) {
    && (forall i :: 0 <= i < |changes| ==> FaultAt(outputs, changes, i).None?)
    && (outputs != map[] && !allowNoHeads ==> exists id :: id in outputs && EnabledAfter(outputs, changes, id))
  }

  /** A head takes a change: it advertises the mode, or the custom mode has a
      positive size, or it has a mode to fall back on if it was off; the scale
      is positive, and adaptive sync is on only where there is any. */
  ghost predicate Takes(head: Head, change: HeadChange) {
    change.enabled ==>
      && (change.mode.Some? ==> change.mode.value in head.modes)
      && (change.mode.None? && change.customMode.Some? ==>
            change.customMode.value.w > 0 && change.customMode.value.h > 0)
      && (change.mode.None? && change.customMode.None? && head.mapped.None? ==>
            head.preferred.Some? || head.mode.Some?)
      && (change.scale.Some? ==> change.scale.value > 0.0)
      && (change.adaptiveSync == Some(true) ==> head.adaptiveSync.Some?)
  }

  /** Exactly what an acceptable configuration is: known heads, each named
      once, that take their changes, and a head left enabled. */
  lemma AcceptableIff(outputs: map<HeadId, Head>, changes: seq<HeadChange>, allowNoHeads: bool)
    ensures Acceptable(outputs, changes, allowNoHeads) <==>
              && (forall i :: 0 <= i < |changes| ==>
                    changes[i].output in outputs && Takes(outputs[changes[i].output], changes[i]))
              && (forall i, j :: 0 <= i < j < |changes| ==> changes[i].output != changes[j].output)
              && (allowNoHeads || outputs == map[]
                  || (exists id :: id in outputs && outputs[id].mapped.Some?
                                   && forall i :: 0 <= i < |changes| ==> changes[i].output != id)
                  || (exists i :: 0 <= i < |changes| && changes[i].enabled))
  {
    forall i | 0 <= i < |changes|
      ensures FaultAt(outputs, changes, i).None? <==>
                && changes[i].output in outputs && Takes(outputs[changes[i].output], changes[i])
                && forall j :: 0 <= j < i ==> changes[j].output != changes[i].output
    {
      FaultIff(outputs, changes, i);
    }
    hide Takes, FaultAt;
    if forall i :: 0 <= i < |changes| ==> changes[i].output in outputs {
      SomeEnabledIff(outputs, changes);
    }
  }

  lemma FaultIff(outputs: map<HeadId, Head>, changes: seq<HeadChange>, i: nat)
    requires i < |changes|
    ensures FaultAt(outputs, changes, i).None? <==>
              && changes[i].output in outputs && Takes(outputs[changes[i].output], changes[i])
              && forall j :: 0 <= j < i ==> changes[j].output != changes[i].output
  {
    forall j | 0 <= j < i
      ensures changes[j].output in Named(changes[..i])
    {
      assert changes[..i][j].output == changes[j].output;
    }
  }

  lemma SomeEnabledIff(outputs: map<HeadId, Head>, changes: seq<HeadChange>)
    requires forall i :: 0 <= i < |changes| ==> changes[i].output in outputs
    ensures (exists id :: id in outputs && EnabledAfter(outputs, changes, id)) <==>
              || (exists id :: id in outputs && outputs[id].mapped.Some?
                               && forall i :: 0 <= i < |changes| ==> changes[i].output != id)
              || (exists i :: 0 <= i < |changes| && changes[i].enabled)
  {
    if i :| 0 <= i < |changes| && changes[i].enabled {
      assert changes[i].output in Named(changes);
      assert EnabledAfter(outputs, changes, changes[i].output);
    }
    if id :| id in outputs && outputs[id].mapped.Some? && forall i :: 0 <= i < |changes| ==> changes[i].output != id {
      assert id !in Named(changes);
      assert EnabledAfter(outputs, changes, id);
    }
  }

  /** Each head at most once, all of them known, each with its mode decided. */
  ghost predicate ResolvedFrom(outputs: map<HeadId, Head>, changes: seq<HeadChange>, resolved: seq<Resolved>) {
    && |resolved| == |changes|
    && (forall i :: 0 <= i < |changes| ==>
          && changes[i].output in outputs
          && resolved[i] == Resolved(changes[i], ModeFor(outputs[changes[i].output], changes[i]),
                                     outputs[changes[i].output].Enabled()))
    && (forall i, j :: 0 <= i < j < |changes| ==> changes[i].output != changes[j].output)
  }

  /** Accepts exactly the acceptable; otherwise names the first thing wrong. */
  method Validate(heads: seq<HeadId>, outputs: map<HeadId, Head>, changes: seq<HeadChange>, allowNoHeads: bool)
    returns (r: Result<seq<Resolved>, ConfigError>)
    requires forall id :: id in heads <==> id in outputs
    ensures r.Ok? <==> Acceptable(outputs, changes, allowNoHeads)
    ensures r.Ok? ==> ResolvedFrom(outputs, changes, r.value)
    ensures r.Err? ==>
              || (exists i :: && 0 <= i < |changes| && FaultAt(outputs, changes, i) == Some(r.error)
                              && forall j :: 0 <= j < i ==> FaultAt(outputs, changes, j).None?)
              || (r.error == NoEnabledHead && forall j :: 0 <= j < |changes| ==> FaultAt(outputs, changes, j).None?)
  {
    var resolved: seq<Resolved> := [];
    for i := 0 to |changes|
      invariant forall j :: 0 <= j < i ==> FaultAt(outputs, changes, j).None?
      invariant ResolvedFrom(outputs, changes[..i], resolved)
    {
      var change := changes[i];
      var fault := CheckChange(outputs, changes, i, resolved);
      if fault.Some? {
        return Err(fault.value);
      }
      var mode := ResolveMode(outputs[change.output], change);
      assert changes[..i + 1] == changes[..i] + [change];
      assert change.output !in Named(changes[..i]);
      resolved := resolved + [Resolved(change, mode, outputs[change.output].Enabled())];
    }
    assert changes[..|changes|] == changes;
    var enabledAfter := CountEnabled(heads, outputs, changes, resolved);
    if enabledAfter == 0 && !allowNoHeads && heads != [] {
      assert heads[0] in outputs;
      return Err(NoEnabledHead);
    }
    assert outputs != map[] ==> heads != [] by {
      if outputs != map[] {
        var id :| id in outputs;
        assert id in heads;
      }
    }
    return Ok(resolved);
  }

  method CheckChange(outputs: map<HeadId, Head>, changes: seq<HeadChange>, i: nat, resolved: seq<Resolved>)
    returns (fault: Option<ConfigError>)
    requires i < |changes| && ResolvedFrom(outputs, changes[..i], resolved)
    ensures fault == FaultAt(outputs, changes, i)
  {
    var change := changes[i];
    if change.output !in outputs {
      return Some(UnknownHead);
    }
    var twice := exists k :: 0 <= k < |resolved| && resolved[k].change.output == change.output;
    assert twice <==> change.output in Named(changes[..i]) by {
      if change.output in Named(changes[..i]) {
        var k :| 0 <= k < i && changes[..i][k].output == change.output;
        assert resolved[k].change.output == change.output;
      }
    }
    if twice {
      return Some(ConfiguredTwice);
    }
    fault := Fault(outputs, {}, change);
  }

  method ResolveMode(head: Head, change: HeadChange) returns (mode: Option<Mode>)
    ensures mode == ModeFor(head, change)
  {
    mode := None;
    if change.enabled {
      if change.mode.Some? {
        mode := change.mode;
      } else if change.customMode.Some? {
        mode := NearestAdvertisedMode(head.modes, change.customMode.value);
        if mode.None? {
          mode := change.customMode;
        }
      } else if !head.Enabled() {
        mode := if head.preferred.Some? then head.preferred else head.mode;
      }
    }
  }

  method CountEnabled(heads: seq<HeadId>, outputs: map<HeadId, Head>, changes: seq<HeadChange>, resolved: seq<Resolved>)
    returns (n: nat)
    requires forall id :: id in heads <==> id in outputs
    requires ResolvedFrom(outputs, changes, resolved)
    ensures n > 0 <==> exists id :: id in outputs && EnabledAfter(outputs, changes, id)
  {
    n := 0;
    for k := 0 to |heads|
      invariant n > 0 <==> exists j :: 0 <= j < k && EnabledAfter(outputs, changes, heads[j])
    {
      var id := heads[k];
      var after := outputs[id].Enabled();
      for i := 0 to |resolved|
        invariant id !in Named(changes[..i]) ==> after == outputs[id].Enabled()
        invariant forall j :: 0 <= j < i && changes[j].output == id ==> after == changes[j].enabled
      {
        assert changes[..i + 1] == changes[..i] + [changes[i]];
        if resolved[i].change.output == id {
          after := resolved[i].change.enabled;
        }
      }
      assert changes[..|changes|] == changes;
      assert after == EnabledAfter(outputs, changes, id);
      if after {
        n := n + 1;
      }
    }
    if n > 0 {
      var j :| 0 <= j < |heads| && EnabledAfter(outputs, changes, heads[j]);
      assert heads[j] in outputs;
    }
    if id :| id in outputs && EnabledAfter(outputs, changes, id) {
      assert id in heads;
    }
  }

  // ------------------------------------------------------------ one head

  /** What the backend did to a head when asked for a change: it may have
      changed its mode, its place and whether it is shown, even if it then
      refused. It cannot clear a mode. */
  datatype Answer = Answer(ok: bool, mode: Option<Mode>, location: Location, shown: bool, adaptiveSync: Option<bool>)

  /** Answers the n-th request. */
  type Backend = (nat, Head, HeadChange) -> Answer

  function Realized(head: Head, a: Answer): Head {
    head.ChangeState(a.mode, None, None, Some(a.location))
        .(mapped := if a.shown then Some(a.location) else None, adaptiveSync := a.adaptiveSync)
  }

  function Committed(head: Head, change: HeadChange): Head {
    if !change.enabled then head.(mapped := None)
    else
      var marked := if change.position.Some? then head.(positionExplicit := true) else head;
      var changed := marked.ChangeState(change.mode, change.transform, change.scale, change.position);
      if !changed.Enabled() || change.position.Some?
      then changed.(mapped := Some(if change.position.Some? then change.position.value else changed.location))
      else changed
  }

  datatype Backup = Backup(output: HeadId, before: Head, wasEnabled: bool)

  function UndoRequest(b: Backup): HeadChange {
    HeadChange(b.output, b.wasEnabled, b.before.mode, None, Some(b.before.location), None, None, b.before.adaptiveSync)
  }

  /** Puts back what was saved, whatever state the head is in. */
  function Restored(head: Head, b: Backup): Head {
    var h := head.ChangeState(b.before.mode, Some(b.before.transform), Some(b.before.scale), Some(b.before.location));
    h.(mapped := if b.wasEnabled then Some(b.before.location) else None,
       positionExplicit := h.positionExplicit && b.before.positionExplicit)
  }

  /** What is asked of the backend and committed: the resolved mode only. */
  function Effective(r: Resolved): HeadChange {
    r.change.(mode := r.mode, customMode := None)
  }

  // ------------------------------------------------------------ a whole configuration

  /** Where an application stands: the heads, how often the backend was asked,
      and whether nothing was refused. */
  datatype Run = Run(outputs: map<HeadId, Head>, asked: nat, ok: bool)

  function UndoOne(run: Run, b: Backup, backend: Backend): Run
    requires b.output in run.outputs
  {
    var answer := backend(run.asked, run.outputs[b.output], UndoRequest(b));
    run.(outputs := run.outputs[b.output := Restored(Realized(run.outputs[b.output], answer), b)], asked := run.asked + 1)
  }

  /** Applies the changes in turn; on a refusal takes back the refused one and,
      in reverse, all before it. */
  function Applied(outputs: map<HeadId, Head>, resolved: seq<Resolved>, backend: Backend, asked: nat): (run: Run)
    requires forall r :: r in resolved ==> r.change.output in outputs
    ensures run.outputs.Keys == outputs.Keys
    decreases |resolved|
  {
    if resolved == [] then Run(outputs, asked, true)
    else
      var id, change := resolved[0].change.output, Effective(resolved[0]);
      var answer := backend(asked, outputs[id], change);
      var realized := Realized(outputs[id], answer);
      var b := Backup(id, outputs[id], resolved[0].wasEnabled);
      if !answer.ok then UndoOne(Run(outputs[id := realized], asked + 1, false), b, backend)
      else
        var rest := Applied(outputs[id := Committed(realized, change)], resolved[1..], backend, asked + 1);
        if rest.ok then rest else UndoOne(rest, b, backend)
  }

  ghost predicate Distinct(resolved: seq<Resolved>) {
    forall i, j :: 0 <= i < j < |resolved| ==> resolved[i].change.output != resolved[j].change.output
  }

  ghost predicate AllKnown(outputs: map<HeadId, Head>, resolved: seq<Resolved>) {
    forall r :: r in resolved ==> r.change.output in outputs && r.wasEnabled == outputs[r.change.output].Enabled()
  }

  predicate Names(resolved: seq<Resolved>, id: HeadId) {
    exists i :: 0 <= i < |resolved| && resolved[i].change.output == id
  }

  /** A head that is not named is never touched, whether it goes well or not. */
  lemma {:induction false} UnnamedUntouched(outputs: map<HeadId, Head>, resolved: seq<Resolved>, backend: Backend,
                                            asked: nat, id: HeadId)
    requires AllKnown(outputs, resolved) && Distinct(resolved)
    requires id in outputs && !Names(resolved, id)
    ensures Applied(outputs, resolved, backend, asked).outputs[id] == outputs[id]
    decreases |resolved|
  {
    if resolved != [] {
      var first, change := resolved[0].change.output, Effective(resolved[0]);
      var answer := backend(asked, outputs[first], change);
      if answer.ok {
        var next := outputs[first := Committed(Realized(outputs[first], answer), change)];
        TailIsKnown(outputs, resolved, next[first]);
        UnnamedUntouched(next, resolved[1..], backend, asked + 1, id);
      }
    }
  }

  lemma TailIsKnown(outputs: map<HeadId, Head>, resolved: seq<Resolved>, head: Head)
    requires AllKnown(outputs, resolved) && Distinct(resolved) && resolved != []
    ensures AllKnown(outputs[resolved[0].change.output := head], resolved[1..]) && Distinct(resolved[1..])
    ensures !Names(resolved[1..], resolved[0].change.output)
    ensures forall id :: id != resolved[0].change.output ==> (Names(resolved, id) <==> Names(resolved[1..], id))
  {
    forall r | r in resolved[1..]
      ensures r in resolved && r.change.output != resolved[0].change.output
    {
      var i :| 0 <= i < |resolved| - 1 && resolved[1..][i] == r;
      assert resolved[i + 1] == r;
    }
    forall id | id != resolved[0].change.output && Names(resolved, id)
      ensures Names(resolved[1..], id)
    {
      var i :| 0 <= i < |resolved| && resolved[i].change.output == id;
      assert resolved[1..][i - 1].change.output == id;
    }
    forall id | id != resolved[0].change.output && Names(resolved[1..], id)
      ensures Names(resolved, id)
    {
      var i :| 0 <= i < |resolved| - 1 && resolved[1..][i].change.output == id;
      assert resolved[i + 1].change.output == id;
    }
  }

  /** Taken back in every respect the code answers for; a mode only if there
      was one. */
  ghost predicate RolledBack(before: Head, after: Head) {
    after == before.(adaptiveSync := after.adaptiveSync,
                     mode := if before.mode.Some? then before.mode else after.mode)
  }

  /** Wherever the backend refuses, and whatever it makes of being asked to go
      back, every head is as it was. */
  lemma {:induction false} RefusalRollsBack(outputs: map<HeadId, Head>, resolved: seq<Resolved>, backend: Backend,
                                            asked: nat, id: HeadId)
    requires AllKnown(outputs, resolved) && Distinct(resolved)
    requires id in outputs && outputs[id].Placed()
    requires !Applied(outputs, resolved, backend, asked).ok
    ensures RolledBack(outputs[id], Applied(outputs, resolved, backend, asked).outputs[id])
    decreases |resolved|
  {
    var first, change := resolved[0].change.output, Effective(resolved[0]);
    var answer := backend(asked, outputs[first], change);
    if answer.ok {
      var next := outputs[first := Committed(Realized(outputs[first], answer), change)];
      TailIsKnown(outputs, resolved, next[first]);
      if id == first {
        UnnamedUntouched(next, resolved[1..], backend, asked + 1, id);
      } else {
        RefusalRollsBack(next, resolved[1..], backend, asked + 1, id);
      }
    }
  }

  /** Nothing takes a mode away. */
  lemma {:induction false} ModesStay(outputs: map<HeadId, Head>, resolved: seq<Resolved>, backend: Backend,
                                     asked: nat, id: HeadId)
    requires AllKnown(outputs, resolved) && Distinct(resolved)
    requires id in outputs && outputs[id].mode.Some?
    ensures Applied(outputs, resolved, backend, asked).outputs[id].mode.Some?
    decreases |resolved|
  {
    if resolved != [] {
      var first, change := resolved[0].change.output, Effective(resolved[0]);
      var answer := backend(asked, outputs[first], change);
      if answer.ok {
        var next := outputs[first := Committed(Realized(outputs[first], answer), change)];
        TailIsKnown(outputs, resolved, next[first]);
        ModesStay(next, resolved[1..], backend, asked + 1, id);
      }
    }
  }

  /** With a mode to go back to, a refused configuration leaves a head as it
      was in everything the code answers for. */
  lemma RefusalRestores(outputs: map<HeadId, Head>, resolved: seq<Resolved>, backend: Backend, asked: nat, id: HeadId)
    requires AllKnown(outputs, resolved) && Distinct(resolved)
    requires id in outputs && outputs[id].Placed() && outputs[id].mode.Some?
    requires !Applied(outputs, resolved, backend, asked).ok
    ensures var after := Applied(outputs, resolved, backend, asked).outputs[id];
            after == outputs[id].(adaptiveSync := after.adaptiveSync)
  {
    RefusalRollsBack(outputs, resolved, backend, asked, id);
  }

  /** What an accepted change does to its head, whatever the backend did. */
  ghost predicate Configured(before: Head, r: Resolved, after: Head) {
    && after.Enabled() == r.change.enabled
    && (after.modes, after.preferred) == (before.modes, before.preferred)
    && (!r.change.enabled ==>
          (after.scale, after.transform, after.positionExplicit) == (before.scale, before.transform, before.positionExplicit))
    && (r.change.enabled ==>
          && (r.mode.Some? ==> after.mode == r.mode)
          && (r.change.position.Some? ==> after.location == r.change.position.value)
          && after.positionExplicit == (before.positionExplicit || r.change.position.Some?)
          && after.scale == (if r.change.scale.Some? then r.change.scale.value else before.scale)
          && after.transform == (if r.change.transform.Some? then r.change.transform.value else before.transform)
          && after.Placed())
  }

  lemma {:induction false} AcceptanceConfigures(outputs: map<HeadId, Head>, resolved: seq<Resolved>, backend: Backend,
                                                asked: nat, k: nat)
    requires AllKnown(outputs, resolved) && Distinct(resolved) && k < |resolved|
    requires Applied(outputs, resolved, backend, asked).ok
    ensures var id := resolved[k].change.output;
            Configured(outputs[id], resolved[k], Applied(outputs, resolved, backend, asked).outputs[id])
    decreases |resolved|
  {
    var first, change := resolved[0].change.output, Effective(resolved[0]);
    var answer := backend(asked, outputs[first], change);
    var next := outputs[first := Committed(Realized(outputs[first], answer), change)];
    TailIsKnown(outputs, resolved, next[first]);
    if k == 0 {
      UnnamedUntouched(next, resolved[1..], backend, asked + 1, first);
    } else {
      assert Names(resolved[1..], resolved[k].change.output) by {
        assert resolved[1..][k - 1].change.output == resolved[k].change.output;
      }
      AcceptanceConfigures(next, resolved[1..], backend, asked + 1, k - 1);
    }
  }

  // ------------------------------------------------------------ what is asked of the backend

  /** What is asked for the k-th change, and the answer. */
  function Reply(outputs: map<HeadId, Head>, resolved: seq<Resolved>, backend: Backend, asked: nat, k: nat): Answer
    requires k < |resolved| && resolved[k].change.output in outputs
  {
    var c, head := resolved[k].change, outputs[resolved[k].change.output];
    backend(asked + k, head,
            HeadChange(c.output, c.enabled, resolved[k].mode, None, c.position, c.scale, c.transform, c.adaptiveSync))
  }

  /** Accepted exactly if the backend takes every change, each asked of a head
      that is still as it was. */
  lemma {:induction false} AcceptedIff(outputs: map<HeadId, Head>, resolved: seq<Resolved>, backend: Backend, asked: nat)
    requires AllKnown(outputs, resolved) && Distinct(resolved)
    ensures Applied(outputs, resolved, backend, asked).ok <==>
            forall k :: 0 <= k < |resolved| ==> Reply(outputs, resolved, backend, asked, k).ok
    decreases |resolved|
  {
    if resolved != [] {
      var rest, later := resolved[1..], asked + 1;
      assert Reply(outputs, resolved, backend, asked, 0) ==
             backend(asked, outputs[resolved[0].change.output], Effective(resolved[0]));
      if Reply(outputs, resolved, backend, asked, 0).ok {
        var next := AfterFirst(outputs, resolved, backend, asked);
        TailIsKnown(outputs, resolved, next[resolved[0].change.output]);
        RepliesToRest(outputs, resolved, backend, asked);
        AcceptedIff(next, rest, backend, later);
        hide Reply, AllKnown, Distinct, Effective, Committed, Realized, UndoOne;
        assert forall k :: 0 <= k < |rest| ==>
            Reply(outputs, resolved, backend, asked, k + 1) == Reply(next, rest, backend, later, k);
        assert forall k :: 0 < k < |resolved| ==>
            Reply(outputs, resolved, backend, asked, k) == Reply(next, rest, backend, later, k - 1);
      }
    }
  }

  lemma RepliesToRest(outputs: map<HeadId, Head>, resolved: seq<Resolved>, backend: Backend, asked: nat)
    requires AllKnown(outputs, resolved) && Distinct(resolved) && resolved != []
    ensures AllKnown(AfterFirst(outputs, resolved, backend, asked), resolved[1..]) && Distinct(resolved[1..])
    ensures forall k :: 0 < k < |resolved| ==>
              && resolved[k].change.output in outputs && resolved[k].change.output != resolved[0].change.output
              && AfterFirst(outputs, resolved, backend, asked)[resolved[k].change.output] == outputs[resolved[k].change.output]
    ensures forall k :: 0 < k < |resolved| ==>
              Reply(outputs, resolved, backend, asked, k) ==
              Reply(AfterFirst(outputs, resolved, backend, asked), resolved[1..], backend, asked + 1, k - 1)
  {
    var next := AfterFirst(outputs, resolved, backend, asked);
    TailIsKnown(outputs, resolved, next[resolved[0].change.output]);
    forall k | 0 < k < |resolved|
      ensures Reply(outputs, resolved, backend, asked, k) == Reply(next, resolved[1..], backend, asked + 1, k - 1)
    {
      assert resolved[k].change.output != resolved[0].change.output && resolved[1..][k - 1] == resolved[k];
      assert next[resolved[k].change.output] == outputs[resolved[k].change.output];
    }
  }

  /** The head of the j-th of k + 1 requests was asked to go back to what it
      was, and is left with the adaptive sync it answered then. */
  ghost predicate AskedToGoBack(outputs: map<HeadId, Head>, resolved: seq<Resolved>, backend: Backend, asked: nat,
                                k: nat, j: nat, h: Head)
    requires AllKnown(outputs, resolved) && j <= k < |resolved|
  {
    var id := resolved[j].change.output;
    id in outputs &&
    Applied(outputs, resolved, backend, asked).outputs[id].adaptiveSync ==
    backend(asked + 2 * k + 1 - j, h, AskedBack(id, outputs[id])).adaptiveSync
  }

  /** When the k-th change is the first refused, its head and those before it
      are asked, last first, to go back. */
  lemma {:induction false} RefusalAsksBack(outputs: map<HeadId, Head>, resolved: seq<Resolved>, backend: Backend,
                                           asked: nat, k: nat, j: nat) returns (h: Head)
    requires AllKnown(outputs, resolved) && Distinct(resolved) && j <= k < |resolved|
    requires forall i :: 0 <= i < k ==> Reply(outputs, resolved, backend, asked, i).ok
    requires !Reply(outputs, resolved, backend, asked, k).ok
    ensures !Applied(outputs, resolved, backend, asked).ok
    ensures Applied(outputs, resolved, backend, asked).asked == asked + 2 * (k + 1)
    ensures AskedToGoBack(outputs, resolved, backend, asked, k, j, h)
    decreases |resolved|
  {
    FirstReply(outputs, resolved, backend, asked);
    RestRefuses(outputs, resolved, backend, asked, k);
    var next, rest := AfterFirst(outputs, resolved, backend, asked), RestOf(outputs, resolved, backend, asked);
    hide *;
    if k > 0 {
      h := RefusalAsksBack(next, resolved[1..], backend, asked + 1, k - 1, if j == 0 then 0 else j - 1);
    }
    assert !rest.ok && rest.asked == asked + 2 * k + 1;
    if j == 0 {
      h := AskedBackLast(outputs, resolved, backend, asked, k);
    } else {
      AskedBackBefore(outputs, resolved, backend, asked, k, j, h);
    }
  }

  lemma RestRefuses(outputs: map<HeadId, Head>, resolved: seq<Resolved>, backend: Backend, asked: nat, k: nat)
    requires AllKnown(outputs, resolved) && Distinct(resolved) && k < |resolved|
    requires forall i :: 0 <= i < k ==> Reply(outputs, resolved, backend, asked, i).ok
    requires !Reply(outputs, resolved, backend, asked, k).ok
    ensures var next, rest, later := AfterFirst(outputs, resolved, backend, asked), resolved[1..], asked + 1;
            && AllKnown(next, rest) && Distinct(rest)
            && (k == 0 ==> !RestOf(outputs, resolved, backend, asked).ok
                           && RestOf(outputs, resolved, backend, asked).asked == asked + 1)
            && (k > 0 ==>
                  && RestOf(outputs, resolved, backend, asked) == Applied(next, rest, backend, later)
                  && (forall i :: 0 <= i < k - 1 ==> Reply(next, rest, backend, later, i).ok)
                  && !Reply(next, rest, backend, later, k - 1).ok)
  {
    RepliesToRest(outputs, resolved, backend, asked);
    var next, rest, later := AfterFirst(outputs, resolved, backend, asked), resolved[1..], asked + 1;
    hide Reply, Distinct, Applied;
    forall i | 0 <= i < k - 1
      ensures Reply(next, rest, backend, later, i).ok
    {
      assert Reply(outputs, resolved, backend, asked, i + 1).ok;
    }
  }

  lemma AskedBackLast(outputs: map<HeadId, Head>, resolved: seq<Resolved>, backend: Backend, asked: nat, k: nat)
    returns (h: Head)
    requires AllKnown(outputs, resolved) && Distinct(resolved) && k < |resolved|
    requires var rest := RestOf(outputs, resolved, backend, asked); !rest.ok && rest.asked == asked + 2 * k + 1
    ensures AskedToGoBack(outputs, resolved, backend, asked, k, 0, h)
  {
    FirstReply(outputs, resolved, backend, asked);
    h := RestOf(outputs, resolved, backend, asked).outputs[resolved[0].change.output];
    hide AllKnown, Distinct, Reply, Applied, AfterFirst, AskedBack, Realized, RestOf;
  }

  lemma JthOfRest(outputs: map<HeadId, Head>, resolved: seq<Resolved>, backend: Backend, asked: nat, j: nat)
    requires AllKnown(outputs, resolved) && Distinct(resolved) && 0 < j < |resolved|
    requires !RestOf(outputs, resolved, backend, asked).ok
    ensures var id := resolved[j].change.output;
            && resolved[1..][j - 1] == resolved[j]
            && id in outputs && id in AfterFirst(outputs, resolved, backend, asked)
            && AfterFirst(outputs, resolved, backend, asked)[id] == outputs[id]
            && id in RestOf(outputs, resolved, backend, asked).outputs
            && Applied(outputs, resolved, backend, asked).outputs[id] ==
               RestOf(outputs, resolved, backend, asked).outputs[id]
  {
    FirstReply(outputs, resolved, backend, asked);
    RepliesToRest(outputs, resolved, backend, asked);
    hide AllKnown, Distinct, Reply, Applied, AfterFirst, AskedBack, RestOf;
  }

  lemma AskedBackBefore(outputs: map<HeadId, Head>, resolved: seq<Resolved>, backend: Backend, asked: nat,
                        k: nat, j: nat, h: Head)
    requires AllKnown(outputs, resolved) && Distinct(resolved) && 0 < j <= k < |resolved|
    requires AllKnown(AfterFirst(outputs, resolved, backend, asked), resolved[1..])
    requires !RestOf(outputs, resolved, backend, asked).ok
    requires RestOf(outputs, resolved, backend, asked) ==
             Applied(AfterFirst(outputs, resolved, backend, asked), resolved[1..], backend, asked + 1)
    requires AskedToGoBack(AfterFirst(outputs, resolved, backend, asked), resolved[1..], backend, asked + 1, k - 1, j - 1, h)
    ensures AskedToGoBack(outputs, resolved, backend, asked, k, j, h)
  {
    JthOfRest(outputs, resolved, backend, asked, j);
    hide AllKnown, Distinct, Reply, Applied, AfterFirst, AskedBack, RestOf;
  }

  /** To be asked to go back to what it was. */
  function AskedBack(id: HeadId, before: Head): HeadChange {
    HeadChange(id, before.mapped.Some?, before.mode, None, Some(before.location), None, None, before.adaptiveSync)
  }

  /** What is left to do once the first change was answered. */
  function RestOf(outputs: map<HeadId, Head>, resolved: seq<Resolved>, backend: Backend, asked: nat): Run
    requires AllKnown(outputs, resolved) && Distinct(resolved) && resolved != []
  {
    var id, reply := resolved[0].change.output, Reply(outputs, resolved, backend, asked, 0);
    TailIsKnown(outputs, resolved, AfterFirst(outputs, resolved, backend, asked)[id]);
    if reply.ok then Applied(AfterFirst(outputs, resolved, backend, asked), resolved[1..], backend, asked + 1)
    else Run(outputs[id := Realized(outputs[id], reply)], asked + 1, false)
  }

  lemma FirstReply(outputs: map<HeadId, Head>, resolved: seq<Resolved>, backend: Backend, asked: nat)
    requires AllKnown(outputs, resolved) && Distinct(resolved) && resolved != []
    ensures var run, rest := Applied(outputs, resolved, backend, asked), RestOf(outputs, resolved, backend, asked);
            var id := resolved[0].change.output;
            && run.ok == rest.ok
            && id in outputs && id in rest.outputs
            && (!rest.ok ==>
                  && run.asked == rest.asked + 1
                  && (forall other :: other in outputs && other != id ==>
                        other in rest.outputs && run.outputs[other] == rest.outputs[other])
                  && run.outputs[id].adaptiveSync ==
                     backend(rest.asked, rest.outputs[id], AskedBack(id, outputs[id])).adaptiveSync)
  {
    TailIsKnown(outputs, resolved, AfterFirst(outputs, resolved, backend, asked)[resolved[0].change.output]);
    assert Reply(outputs, resolved, backend, asked, 0) ==
           backend(asked, outputs[resolved[0].change.output], Effective(resolved[0]));
    hide Committed;
  }

  // ------------------------------------------------------------ heads without a mode

  /** A backend that sets no mode but the one asked for. */
  ghost predicate Obedient(backend: Backend) {
    forall n, h, c :: backend(n, h, c).mode.None? || backend(n, h, c).mode == c.RequestedMode()
  }

  ghost predicate ModeSurvivesRefusal(outputs: map<HeadId, Head>, resolved: seq<Resolved>, asked: nat, id: HeadId)
    requires AllKnown(outputs, resolved) && id in outputs
  {
    forall backend: Backend :: Obedient(backend) && !Applied(outputs, resolved, backend, asked).ok ==>
      Applied(outputs, resolved, backend, asked).outputs[id].mode == outputs[id].mode
  }

  lemma {:induction false} ModelessStaysModeless(outputs: map<HeadId, Head>, resolved: seq<Resolved>, backend: Backend,
                                                 asked: nat, k: nat)
    requires AllKnown(outputs, resolved) && Distinct(resolved) && k < |resolved|
    requires Obedient(backend)
    requires resolved[k].mode.None? && outputs[resolved[k].change.output].mode.None?
    ensures Applied(outputs, resolved, backend, asked).outputs[resolved[k].change.output].mode.None?
    decreases |resolved|
  {
    var first, change := resolved[0].change.output, Effective(resolved[0]);
    var answer := backend(asked, outputs[first], change);
    var realized := Realized(outputs[first], answer);
    var next := outputs[first := Committed(realized, change)];
    TailIsKnown(outputs, resolved, next[first]);
    if k == 0 {
      assert realized.mode.None? && Committed(realized, change).mode.None?;
      if answer.ok {
        UnnamedUntouched(next, resolved[1..], backend, asked + 1, first);
      }
    } else if answer.ok {
      ModelessStaysModeless(next, resolved[1..], backend, asked + 1, k - 1);
    }
  }

  /** Accepts everything and does nothing, but for one request, where it sets
      the mode and then refuses. */
  function RefusesAt(n: nat): Backend {
    (i: nat, h: Head, c: HeadChange) =>
      if i == n then Answer(false, c.RequestedMode(), h.location, h.Enabled(), h.adaptiveSync)
      else Answer(true, None, h.location, h.Enabled(), h.adaptiveSync)
  }

  lemma TriedModeStaysNow(outputs: map<HeadId, Head>, resolved: seq<Resolved>, asked: nat)
    requires AllKnown(outputs, resolved) && resolved != []
    requires resolved[0].mode.Some? && outputs[resolved[0].change.output].mode.None?
    ensures var run := Applied(outputs, resolved, RefusesAt(asked), asked);
            && !run.ok && run.asked > asked
            && run.outputs[resolved[0].change.output].mode == resolved[0].mode
  {
    var backend := RefusesAt(asked);
    var id, change := resolved[0].change.output, Effective(resolved[0]);
    var answer := backend(asked, outputs[id], change);
    var h := outputs[id];
    assert answer == Answer(false, change.RequestedMode(), h.location, h.Enabled(), h.adaptiveSync);
    assert change.RequestedMode() == resolved[0].mode;
    var refused := Run(outputs[id := Realized(outputs[id], answer)], asked + 1, false);
    var b := Backup(id, outputs[id], resolved[0].wasEnabled);
    assert Applied(outputs, resolved, backend, asked) == UndoOne(refused, b, backend);
    var undo := backend(asked + 1, refused.outputs[id], UndoRequest(b));
    assert undo.mode.None?;
  }

  lemma {:induction false} TriedModeStays(outputs: map<HeadId, Head>, resolved: seq<Resolved>, asked: nat, k: nat, at: nat)
    requires AllKnown(outputs, resolved) && Distinct(resolved) && k < |resolved| && at == asked + k
    requires resolved[k].mode.Some? && outputs[resolved[k].change.output].mode.None?
    ensures var run := Applied(outputs, resolved, RefusesAt(at), asked);
            && !run.ok && run.asked > at
            && run.outputs[resolved[k].change.output].mode == resolved[k].mode
    decreases |resolved|
  {
    if k == 0 {
      TriedModeStaysNow(outputs, resolved, asked);
    } else {
      NotRefusedYet(outputs, resolved, asked, at);
      var next := AfterFirst(outputs, resolved, RefusesAt(at), asked);
      TailIsKnown(outputs, resolved, next[resolved[0].change.output]);
      assert resolved[k].change.output != resolved[0].change.output && resolved[1..][k - 1] == resolved[k];
      assert next[resolved[k].change.output] == outputs[resolved[k].change.output];
      hide AllKnown, Distinct, Applied, AfterFirst, RefusesAt;
      TriedModeStays(next, resolved[1..], asked + 1, k - 1, at);
      RefusedLater(outputs, resolved, RefusesAt(at), asked, resolved[k].change.output);
    }
  }

  lemma NotRefusedYet(outputs: map<HeadId, Head>, resolved: seq<Resolved>, asked: nat, at: nat)
    requires resolved != [] && resolved[0].change.output in outputs && asked < at
    ensures RefusesAt(at)(asked, outputs[resolved[0].change.output], Effective(resolved[0])).ok
  {
  }

  /** The heads once the first change was accepted and committed. */
  function AfterFirst(outputs: map<HeadId, Head>, resolved: seq<Resolved>, backend: Backend, asked: nat): map<HeadId, Head>
    requires resolved != [] && resolved[0].change.output in outputs
  {
    var id, change := resolved[0].change.output, Effective(resolved[0]);
    outputs[id := Committed(Realized(outputs[id], backend(asked, outputs[id], change)), change)]
  }

  /** Going back past the first change touches only its head. */
  lemma RefusedLater(outputs: map<HeadId, Head>, resolved: seq<Resolved>, backend: Backend, asked: nat, id: HeadId)
    requires AllKnown(outputs, resolved) && Distinct(resolved) && resolved != []
    requires id in outputs && id != resolved[0].change.output
    requires backend(asked, outputs[resolved[0].change.output], Effective(resolved[0])).ok
    ensures AllKnown(AfterFirst(outputs, resolved, backend, asked), resolved[1..])
    ensures var rest := Applied(AfterFirst(outputs, resolved, backend, asked), resolved[1..], backend, asked + 1);
            var run := Applied(outputs, resolved, backend, asked);
            !rest.ok ==> !run.ok && run.asked > rest.asked && run.outputs[id] == rest.outputs[id]
  {
    var first := resolved[0].change.output;
    TailIsKnown(outputs, resolved, AfterFirst(outputs, resolved, backend, asked)[first]);
    hide AllKnown, Distinct, Committed, Realized, Restored, Effective;
  }

  lemma RefusesAtIsObedient(at: nat)
    ensures Obedient(RefusesAt(at))
  {
  }

  /** A refused configuration is bound to leave a named head's mode alone
      exactly if the head had one or was not to be given one: what was never
      set cannot be put back. */
  lemma ModeSurvivesRefusalIff(outputs: map<HeadId, Head>, resolved: seq<Resolved>, asked: nat, k: nat)
    requires AllKnown(outputs, resolved) && Distinct(resolved) && k < |resolved|
    requires forall id :: id in outputs ==> outputs[id].Placed()
    ensures var id := resolved[k].change.output;
            ModeSurvivesRefusal(outputs, resolved, asked, id) <==> outputs[id].mode.Some? || resolved[k].mode.None?
  {
    hide Applied, Obedient, RefusesAt, Distinct;
    var id := resolved[k].change.output;
    if outputs[id].mode.Some? {
      forall backend: Backend | !Applied(outputs, resolved, backend, asked).ok
        ensures Applied(outputs, resolved, backend, asked).outputs[id].mode == outputs[id].mode
      {
        RefusalRollsBack(outputs, resolved, backend, asked, id);
      }
    } else if resolved[k].mode.None? {
      forall backend: Backend | Obedient(backend)
        ensures Applied(outputs, resolved, backend, asked).outputs[id].mode == outputs[id].mode
      {
        ModelessStaysModeless(outputs, resolved, backend, asked, k);
      }
    } else {
      TriedModeStays(outputs, resolved, asked, k, asked + k);
      RefusesAtIsObedient(asked + k);
    }
  }

  // ------------------------------------------------------------ the compositor's side

  /** Takes back everything saved, last first. */
  function Unwound(run: Run, backups: seq<Backup>, backend: Backend): Run
    requires forall b :: b in backups ==> b.output in run.outputs
    decreases |backups|
  {
    if run.ok || backups == [] then run
    else Unwound(UndoOne(run, backups[|backups| - 1], backend), backups[..|backups| - 1], backend)
  }

  lemma UnwindLast(run: Run, backups: seq<Backup>, b: Backup, backend: Backend)
    requires forall b :: b in backups ==> b.output in run.outputs
    requires b.output in run.outputs && !run.ok
    ensures Unwound(run, backups + [b], backend) == Unwound(UndoOne(run, b, backend), backups, backend)
  {
    assert (backups + [b])[..|backups|] == backups;
  }

  ghost predicate Fits(outputs: map<HeadId, Head>, resolved: seq<Resolved>, backups: seq<Backup>) {
    && (forall r :: r in resolved ==> r.change.output in outputs)
    && (forall b :: b in backups ==> b.output in outputs)
  }

  function AfterOne(outputs: map<HeadId, Head>, change: HeadChange, a: Answer): map<HeadId, Head>
    requires change.output in outputs
  {
    var realized := Realized(outputs[change.output], a);
    outputs[change.output := if a.ok then Committed(realized, change) else realized]
  }

  /** How it will end from here: i changes dealt with, backups to go back by. */
  ghost function EndsAs(outputs: map<HeadId, Head>, resolved: seq<Resolved>, i: nat, backend: Backend, asked: nat,
                        backups: seq<Backup>, ok: bool): Run
    requires Fits(outputs, resolved, backups) && i <= |resolved|
  {
    Unwound(if ok then Applied(outputs, resolved[i..], backend, asked) else Run(outputs, asked, false), backups, backend)
  }

  /** One change more is asked of the backend and remembered for going back. */
  lemma EndsAsBefore(outputs: map<HeadId, Head>, resolved: seq<Resolved>, i: nat, backend: Backend, asked: nat,
                     backups: seq<Backup>)
    requires Fits(outputs, resolved, backups) && i < |resolved|
    ensures resolved[i].change.output in outputs
    ensures var r := resolved[i];
            var answer := backend(asked, outputs[r.change.output], Effective(r));
            var next := AfterOne(outputs, Effective(r), answer);
            var backups' := backups + [Backup(r.change.output, outputs[r.change.output], r.wasEnabled)];
            && Fits(next, resolved, backups')
            && EndsAs(outputs, resolved, i, backend, asked, backups, true) ==
               EndsAs(next, resolved, i + 1, backend, asked + 1, backups', answer.ok)
  {
    assert resolved[i..][0] == resolved[i] && resolved[i..][1..] == resolved[i + 1..];
    var r := resolved[i];
    var id, change := r.change.output, Effective(r);
    var answer, b := backend(asked, outputs[id], change), Backup(id, outputs[id], r.wasEnabled);
    var next := AfterOne(outputs, change, answer);
    hide Committed, Realized, Restored;
    if !answer.ok {
      UnwindLast(Run(next, asked + 1, false), backups, b, backend);
    } else {
      var rest := Applied(next, resolved[i + 1..], backend, asked + 1);
      if !rest.ok {
        UnwindLast(rest, backups, b, backend);
      }
    }
  }

  lemma EndsAsStart(outputs: map<HeadId, Head>, resolved: seq<Resolved>, backend: Backend, asked: nat)
    requires AllKnown(outputs, resolved)
    ensures Fits(outputs, resolved, [])
    ensures EndsAs(outputs, resolved, 0, backend, asked, [], true) == Applied(outputs, resolved, backend, asked)
  {
    assert resolved[0..] == resolved;
  }

  lemma EndsAsDone(outputs: map<HeadId, Head>, resolved: seq<Resolved>, backend: Backend, asked: nat, backups: seq<Backup>)
    requires Fits(outputs, resolved, backups)
    ensures EndsAs(outputs, resolved, |resolved|, backend, asked, backups, true) == Run(outputs, asked, true)
  {
  }

  function ResolvedOf(outputs: map<HeadId, Head>, changes: seq<HeadChange>): seq<Resolved>
    requires forall i :: 0 <= i < |changes| ==> changes[i].output in outputs
  {
    seq(|changes|, i requires 0 <= i < |changes| =>
      Resolved(changes[i], ModeFor(outputs[changes[i].output], changes[i]), outputs[changes[i].output].Enabled()))
  }

  /** The mode an enabled change leaves: the advertised one it asks for; for a
      custom one the nearest advertised of that size within 1000 mHz, or itself
      if there is none; for a head that was off and no mode asked for, the
      preferred one, or the one it had. */
  ghost predicate ModeAsAsked(before: Head, change: HeadChange, after: Head) {
    && (change.mode.Some? ==> change.mode.value in before.modes && after.mode == change.mode)
    && (change.mode.None? && change.customMode.Some? ==>
          && after.mode.Some?
          && NearestOrItself(before.modes, change.customMode.value, after.mode.value))
    && (change.mode.None? && change.customMode.None? && before.mapped.None? ==>
          after.mode.Some? && after.mode == if before.preferred.Some? then before.preferred else before.mode)
  }

  ghost predicate NearestOrItself(modes: seq<Mode>, wanted: Mode, m: Mode) {
    || (m == wanted && forall other :: other in modes && (other.w, other.h) == (wanted.w, wanted.h) ==>
          other.refresh < wanted.refresh - 1000 || other.refresh > wanted.refresh + 1000)
    || (&& m in modes && (m.w, m.h) == (wanted.w, wanted.h) && -1000 <= m.refresh - wanted.refresh <= 1000
        && forall other :: other in modes && (other.w, other.h) == (wanted.w, wanted.h) ==>
             Abs(m.refresh - wanted.refresh) <= Abs(other.refresh - wanted.refresh))
  }

  lemma {:induction false} NearestIsNearest(modes: seq<Mode>, wanted: Mode)
    ensures var near := NearestMode(modes, wanted);
            NearestOrItself(modes, wanted, if near.Some? then near.value else wanted)
    ensures NearestMode(modes, wanted).None? <==> forall m :: m in modes ==> !Near(m, wanted)
  {
    if modes != [] {
      NearestIsNearest(modes[..|modes| - 1], wanted);
      assert modes == modes[..|modes| - 1] + [modes[|modes| - 1]];
    }
  }

  lemma ConfiguredMode(outputs: map<HeadId, Head>, changes: seq<HeadChange>, i: nat, after: Head)
    requires i < |changes| && FaultAt(outputs, changes, i).None? && changes[i].enabled
    requires changes[i].output in outputs
    requires var before := outputs[changes[i].output];
             Configured(before, Resolved(changes[i], ModeFor(before, changes[i]), before.Enabled()), after)
    ensures ModeAsAsked(outputs[changes[i].output], changes[i], after)
  {
    if changes[i].customMode.Some? {
      NearestIsNearest(outputs[changes[i].output].modes, changes[i].customMode.value);
    }
  }

  /** Validation foretells which heads are enabled, whatever the backend does. */
  lemma EnabledAsForetold(outputs: map<HeadId, Head>, changes: seq<HeadChange>, resolved: seq<Resolved>,
                          backend: Backend, asked: nat, id: HeadId)
    requires ResolvedFrom(outputs, changes, resolved)
    requires AllKnown(outputs, resolved) && Distinct(resolved)
    requires id in outputs && Applied(outputs, resolved, backend, asked).ok
    ensures Applied(outputs, resolved, backend, asked).outputs[id].Enabled() <==> EnabledAfter(outputs, changes, id)
  {
    if id in Named(changes) {
      var i :| 0 <= i < |changes| && changes[i].output == id;
      assert resolved[i].change.output == id;
      AcceptanceConfigures(outputs, resolved, backend, asked, i);
    } else {
      assert !Names(resolved, id);
      UnnamedUntouched(outputs, resolved, backend, asked, id);
    }
  }

  const ORIGIN := Location(0, 0)

  function Others(heads: seq<HeadId>, id: HeadId): (r: seq<HeadId>)
    ensures forall other :: other in r <==> other in heads && other != id
  {
    if heads == [] then []
    else (if heads[0] == id then [] else [heads[0]]) + Others(heads[1..], id)
  }

  class OutputManagement {
    var heads: seq<HeadId>
    var outputs: map<HeadId, Head>
    var allowNoHeads: bool
    var applying: bool
    // How many requests the backend has answered.
    var asked: nat

    ghost predicate Valid()
      reads this
    {
      && (forall id :: id in heads <==> id in outputs)
      && (forall id :: id in outputs ==> outputs[id].Placed() && outputs[id].mode.Some?)
    }

    constructor (allowNoHeads: bool)
      ensures Valid() && heads == [] && !applying && this.allowNoHeads == allowNoHeads
    {
      this.allowNoHeads := allowNoHeads;
      heads, outputs, applying, asked := [], map[], false, 0;
    }

    /** A connector appears: its head is registered and enabled at its preferred
        mode. When its CRTC cannot be initialised it stays disabled, where it
        was placed before, but the mode stays: it cannot be cleared. */
    method ConnectHead(id: HeadId, preferred: Mode, modes: seq<Mode>, position: Location, initOk: bool)
      requires Valid() && id !in outputs
      modifies this`heads, this`outputs
      ensures Valid() && heads == old(heads) + [id]
      ensures id in outputs && outputs == old(outputs)[id := outputs[id]]
      ensures outputs[id].mode == Some(preferred) && outputs[id].Enabled() == initOk
      ensures outputs[id].location == (if initOk then position else ORIGIN) && !outputs[id].positionExplicit
    {
      var head := Head(None, ORIGIN, 1.0, 0, None, false, None, modes, Some(preferred));
      heads := heads + [id];
      var before := head;
      head := head.ChangeState(Some(preferred), None, None, Some(position)).(mapped := Some(position));
      if !initOk {
        head := head.(mapped := None);
        if before.mode.Some? || before.location != position {
          head := head.ChangeState(before.mode, None, None, Some(before.location));
        }
      }
      outputs := outputs[id := head];
    }

    /** A connector goes. */
    method DisconnectHead(id: HeadId)
      requires Valid()
      modifies this`heads, this`outputs
      ensures Valid() && outputs == old(outputs) - {id} && heads == Others(old(heads), id)
    {
      heads := Others(heads, id);
      outputs := outputs - {id};
    }

    method BackendRealizeHead(id: HeadId, change: HeadChange, backend: Backend) returns (ok: bool)
      requires id in outputs
      modifies this`outputs, this`asked
      ensures var a := backend(old(asked), old(outputs)[id], change);
              ok == a.ok && outputs == old(outputs)[id := Realized(old(outputs)[id], a)]
      ensures asked == old(asked) + 1
    {
      var a := backend(asked, outputs[id], change);
      outputs := outputs[id := Realized(outputs[id], a)];
      asked := asked + 1;
      ok := a.ok;
    }

    method CommitHead(change: HeadChange)
      requires change.output in outputs
      modifies this`outputs
      ensures outputs == old(outputs)[change.output := Committed(old(outputs)[change.output], change)]
    {
      var head := outputs[change.output];
      if !change.enabled {
        outputs := outputs[change.output := head.(mapped := None)];
        return;
      }
      if change.position.Some? {
        head := head.(positionExplicit := true);
      }
      head := head.ChangeState(change.mode, change.transform, change.scale, change.position);
      if !head.Enabled() || change.position.Some? {
        var at := if change.position.Some? then change.position.value else head.location;
        head := head.(mapped := Some(at));
      }
      outputs := outputs[change.output := head];
    }

    method Revert(b: Backup, backend: Backend)
      requires b.output in outputs
      modifies this`outputs, this`asked
      ensures var run := UndoOne(Run(old(outputs), old(asked), false), b, backend);
              outputs == run.outputs && asked == run.asked
    {
      var _ := BackendRealizeHead(b.output, UndoRequest(b), backend);
      var head := outputs[b.output];
      head := head.ChangeState(b.before.mode, Some(b.before.transform), Some(b.before.scale), Some(b.before.location));
      head := head.(mapped := if b.wasEnabled then Some(b.before.location) else None);
      if !b.before.positionExplicit {
        head := head.(positionExplicit := false);
      }
      outputs := outputs[b.output := head];
    }

    /** Head by head; stops at the first refusal and takes everything back. */
    method ApplyHead(change: HeadChange, backend: Backend) returns (ok: bool)
      requires change.output in outputs
      modifies this`outputs, this`asked
      ensures asked == old(asked) + 1
      ensures var a := backend(old(asked), old(outputs)[change.output], change);
              ok == a.ok && outputs == AfterOne(old(outputs), change, a)
    {
      ok := BackendRealizeHead(change.output, change, backend);
      if ok {
        CommitHead(change);
        assert outputs == old(outputs)[change.output := outputs[change.output]];
      }
    }

    /** Goes through the changes until one is refused, saving each head first. */
    method ApplyUntilRefused(resolved: seq<Resolved>, backend: Backend)
      returns (ok: bool, i: nat, backups: seq<Backup>)
      requires Fits(outputs, resolved, [])
      modifies this`outputs, this`asked
      ensures i <= |resolved| && (ok ==> i == |resolved|) && Fits(outputs, resolved, backups)
      ensures EndsAs(old(outputs), resolved, 0, backend, old(asked), [], true) ==
              EndsAs(outputs, resolved, i, backend, asked, backups, ok)
    {
      hide EndsAs, Fits, AfterOne;
      ok, i, backups := true, 0, [];
      while i < |resolved| && ok
        invariant i <= |resolved| && Fits(outputs, resolved, backups)
        invariant EndsAs(old(outputs), resolved, 0, backend, old(asked), [], true) ==
                  EndsAs(outputs, resolved, i, backend, asked, backups, ok)
      {
        EndsAsBefore(outputs, resolved, i, backend, asked, backups);
        var r := resolved[i];
        backups := backups + [Backup(r.change.output, outputs[r.change.output], r.wasEnabled)];
        ok := ApplyHead(Effective(r), backend);
        i := i + 1;
      }
    }

    method ApplyResolved(resolved: seq<Resolved>, backend: Backend) returns (ok: bool)
      requires AllKnown(outputs, resolved)
      modifies this`outputs, this`asked
      ensures Run(outputs, asked, ok) == Applied(old(outputs), resolved, backend, old(asked))
    {
      EndsAsStart(outputs, resolved, backend, asked);
      hide AllKnown, Applied, EndsAs, Fits;
      var i, backups;
      ok, i, backups := ApplyUntilRefused(resolved, backend);
      if ok {
        EndsAsDone(outputs, resolved, backend, asked, backups);
      } else {
        RevertAfterRefusal(resolved, i, backups, backend);
      }
    }

    method RevertAfterRefusal(resolved: seq<Resolved>, i: nat, backups: seq<Backup>, backend: Backend)
      requires Fits(outputs, resolved, backups) && i <= |resolved|
      modifies this`outputs, this`asked
      ensures Run(outputs, asked, false) == EndsAs(old(outputs), resolved, i, backend, old(asked), backups, false)
    {
      RevertAll(backups, backend);
    }

    method RevertAll(backups: seq<Backup>, backend: Backend)
      requires forall b :: b in backups ==> b.output in outputs
      modifies this`outputs, this`asked
      ensures Run(outputs, asked, false) == Unwound(Run(old(outputs), old(asked), false), backups, backend)
    {
      ghost var target := Unwound(Run(outputs, asked, false), backups, backend);
      var k := |backups|;
      assert backups[..k] == backups;
      while k > 0
        invariant 0 <= k <= |backups|
        invariant forall b :: b in backups ==> b.output in outputs
        invariant target == Unwound(Run(outputs, asked, false), backups[..k], backend)
      {
        assert backups[..k][..k - 1] == backups[..k - 1];
        Revert(backups[k - 1], backend);
        k := k - 1;
      }
    }

    /** All or nothing: an accepted configuration does what it says to the
        heads it names and leaves one enabled; a refused or invalid one
        leaves every head as it was. */
    method ApplyOutputConfiguration(changes: seq<HeadChange>, testOnly: bool, backend: Backend)
      returns (r: Result<(), ConfigError>)
      requires Valid()
      modifies this`outputs, this`asked, this`applying
      ensures Valid() && outputs.Keys == old(outputs.Keys)
      ensures !Acceptable(old(outputs), changes, allowNoHeads) ==> r.Err?
      ensures !Acceptable(old(outputs), changes, allowNoHeads) || testOnly ==>
                outputs == old(outputs) && asked == old(asked) && applying == old(applying)
      ensures Acceptable(old(outputs), changes, allowNoHeads) ==>
                && (forall i :: 0 <= i < |changes| ==> changes[i].output in old(outputs))
                && (testOnly ==> r.Ok?)
                && (!testOnly ==>
                      !applying && r == if Applied(old(outputs), ResolvedOf(old(outputs), changes), backend, old(asked)).ok
                                        then Ok(()) else Err(Refused))
      ensures r.Err? ==> forall id :: id in outputs ==>
                outputs[id] == old(outputs)[id].(adaptiveSync := outputs[id].adaptiveSync)
      ensures r.Ok? && !testOnly ==>
                && (forall id :: id in outputs && id !in Named(changes) ==> outputs[id] == old(outputs)[id])
                && (forall i :: 0 <= i < |changes| ==>
                      && changes[i].output in old(outputs)
                      && Configured(old(outputs)[changes[i].output],
                                    Resolved(changes[i], ModeFor(old(outputs)[changes[i].output], changes[i]),
                                             old(outputs)[changes[i].output].Enabled()),
                                    outputs[changes[i].output]))
                && (forall i :: 0 <= i < |changes| && changes[i].enabled ==>
                      ModeAsAsked(old(outputs)[changes[i].output], changes[i], outputs[changes[i].output]))
                && (!allowNoHeads && outputs != map[] ==> exists id :: id in outputs && outputs[id].Enabled())
    {
      var validated := Validate(heads, outputs, changes, allowNoHeads);
      if validated.Err? {
        return Err(validated.error);
      }
      var resolved := validated.value;
      assert resolved == ResolvedOf(outputs, changes);
      if testOnly {
        return Ok(());
      }
      ghost var before, start := outputs, asked;
      applying := true;
      var ok := ApplyResolved(resolved, backend);
      applying := false;
      OutcomeOf(before, changes, resolved, backend, start, allowNoHeads);
      r := if ok then Ok(()) else Err(Refused);
    }
  }

  /** What an application of a valid configuration comes to. */
  lemma OutcomeOf(outputs: map<HeadId, Head>, changes: seq<HeadChange>, resolved: seq<Resolved>, backend: Backend,
                  asked: nat, allowNoHeads: bool)
    requires ResolvedFrom(outputs, changes, resolved) && Acceptable(outputs, changes, allowNoHeads)
    requires AllKnown(outputs, resolved) && Distinct(resolved)
    requires forall id :: id in outputs ==> outputs[id].Placed() && outputs[id].mode.Some?
    ensures var run := Applied(outputs, resolved, backend, asked);
            && (forall id :: id in outputs ==> run.outputs[id].Placed() && run.outputs[id].mode.Some?)
            && (!run.ok ==> forall id :: id in outputs ==>
                  run.outputs[id] == outputs[id].(adaptiveSync := run.outputs[id].adaptiveSync))
            && (run.ok ==>
                  && (forall id :: id in outputs && id !in Named(changes) ==> run.outputs[id] == outputs[id])
                  && (forall i :: 0 <= i < |changes| ==>
                        Configured(outputs[changes[i].output], resolved[i], run.outputs[changes[i].output]))
                  && (forall i :: 0 <= i < |changes| && changes[i].enabled ==>
                        ModeAsAsked(outputs[changes[i].output], changes[i], run.outputs[changes[i].output]))
                  && (!allowNoHeads && outputs != map[] ==> exists id :: id in run.outputs && run.outputs[id].Enabled()))
  {
    var run := Applied(outputs, resolved, backend, asked);
    forall id | id in outputs
      ensures run.outputs[id].mode.Some?
    {
      ModesStay(outputs, resolved, backend, asked, id);
    }
    if run.ok {
      forall id | id in outputs && id !in Named(changes)
        ensures run.outputs[id] == outputs[id]
      {
        assert !Names(resolved, id);
        UnnamedUntouched(outputs, resolved, backend, asked, id);
      }
      forall i | 0 <= i < |changes|
        ensures Configured(outputs[changes[i].output], resolved[i], run.outputs[changes[i].output])
        ensures changes[i].enabled ==>
                  ModeAsAsked(outputs[changes[i].output], changes[i], run.outputs[changes[i].output])
      {
        AcceptanceConfigures(outputs, resolved, backend, asked, i);
        if changes[i].enabled {
          ConfiguredMode(outputs, changes, i, run.outputs[changes[i].output]);
        }
      }
      if !allowNoHeads && outputs != map[] {
        var id :| id in outputs && EnabledAfter(outputs, changes, id);
        EnabledAsForetold(outputs, changes, resolved, backend, asked, id);
      }
    } else {
      forall id | id in outputs
        ensures run.outputs[id] == outputs[id].(adaptiveSync := run.outputs[id].adaptiveSync)
      {
        RefusalRestores(outputs, resolved, backend, asked, id);
      }
    }
  }
}
