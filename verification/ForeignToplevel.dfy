/** Windows mirrored to other clients, one handle per window and manager. Every
    client is taken to have bound every output once. */
module ForeignToplevel {
  import opened Wrappers

  type Id = nat
  type Handle = nat
  type Manager = nat
  type Output = nat

  datatype Entry = Entry(title: string, appId: string, activated: bool, fullscreen: bool,
                         outputs: seq<Output>, handles: seq<Handle>)

  datatype Event = Title(title: string) | AppId(appId: string)
                 | OutputEnter(output: Output) | OutputLeave(output: Output)
                 | State(activated: bool, fullscreen: bool) | Done | Closed

  // ------------------------------------------------------------ what a client sees

  datatype Facts = Facts(title: string, appId: string, outputs: set<Output>, activated: bool, fullscreen: bool)

  /** What was announced so far, what it was at the last done, and whether the
      handle kept to the protocol: outputs entered and left in turn, nothing
      after closed. */
  datatype View = View(pending: Facts, shown: Option<Facts>, closed: bool, proper: bool)

  const nothing := Facts("", "", {}, false, false)

  function See(v: View, e: Event): View {
    if v.closed then v.(proper := false)
    else
      match e
      case Title(t) => v.(pending := v.pending.(title := t))
      case AppId(a) => v.(pending := v.pending.(appId := a))
      case OutputEnter(o) =>
        v.(pending := v.pending.(outputs := v.pending.outputs + {o}), proper := v.proper && o !in v.pending.outputs)
      case OutputLeave(o) =>
        v.(pending := v.pending.(outputs := v.pending.outputs - {o}), proper := v.proper && o in v.pending.outputs)
      case State(a, f) => v.(pending := v.pending.(activated := a, fullscreen := f))
      case Done => v.(shown := Some(v.pending))
      case Closed => v.(closed := true)
  }

  function Replay(events: seq<Event>): View {
    if events == [] then View(nothing, None, false, true)
    else See(Replay(events[..|events| - 1]), events[|events| - 1])
  }

  function SeeAll(v: View, events: seq<Event>): View
    decreases |events|
  {
    if events == [] then v else SeeAll(See(v, events[0]), events[1..])
  }

  lemma {:induction false} ReplayConcat(a: seq<Event>, b: seq<Event>)
    ensures Replay(a + b) == SeeAll(Replay(a), b)
    decreases |b|
  {
    if b == [] {
      assert a + b == a;
    } else {
      assert (a + [b[0]])[..|a|] == a;
      assert Replay(a + [b[0]]) == See(Replay(a), b[0]);
      assert a + b == a + [b[0]] + b[1..];
      ReplayConcat(a + [b[0]], b[1..]);
    }
  }

  lemma SeeTwo(v: View, a: Event, b: Event)
    ensures SeeAll(v, [a, b]) == See(See(v, a), b)
  {
    assert [a, b][1..] == [b] && [b][1..] == [];
    assert SeeAll(See(v, a), [b]) == SeeAll(See(See(v, a), b), []);
  }

  function SetOf(outputs: seq<Output>): set<Output> { set o | o in outputs }

  predicate NoRepeats(s: seq<nat>) {
    forall i, j :: 0 <= i < j < |s| ==> s[i] != s[j]
  }

  function FactsOf(e: Entry): Facts {
    Facts(e.title, e.appId, SetOf(e.outputs), e.activated, e.fullscreen)
  }

  /** The client shows the entry as it is, with nothing announced and not shown. */
  ghost predicate Mirrors(events: seq<Event>, e: Entry) {
    Replay(events) == View(FactsOf(e), Some(FactsOf(e)), false, true)
  }

  // ------------------------------------------------------------ what is sent

  function Enters(outputs: seq<Output>): seq<Event> {
    seq(|outputs|, i requires 0 <= i < |outputs| => OutputEnter(outputs[i]))
  }

  function Leaves(outputs: seq<Output>): seq<Event> {
    seq(|outputs|, i requires 0 <= i < |outputs| => OutputLeave(outputs[i]))
  }

  lemma {:induction false} SeeEnters(v: View, outputs: seq<Output>)
    requires !v.closed && NoRepeats(outputs) && SetOf(outputs) !! v.pending.outputs
    ensures SeeAll(v, Enters(outputs)) == v.(pending := v.pending.(outputs := v.pending.outputs + SetOf(outputs)))
    decreases |outputs|
  {
    if outputs != [] {
      assert Enters(outputs)[1..] == Enters(outputs[1..]);
      var next := See(v, OutputEnter(outputs[0]));
      assert SetOf(outputs) == {outputs[0]} + SetOf(outputs[1..]);
      assert outputs[0] !in SetOf(outputs[1..]);
      SeeEnters(next, outputs[1..]);
    } else {
      assert v.pending.outputs + SetOf(outputs) == v.pending.outputs;
    }
  }

  lemma {:induction false} SeeLeaves(v: View, outputs: seq<Output>)
    requires !v.closed && NoRepeats(outputs) && SetOf(outputs) <= v.pending.outputs
    ensures SeeAll(v, Leaves(outputs)) == v.(pending := v.pending.(outputs := v.pending.outputs - SetOf(outputs)))
    decreases |outputs|
  {
    if outputs != [] {
      assert Leaves(outputs)[1..] == Leaves(outputs[1..]);
      var next := See(v, OutputLeave(outputs[0]));
      assert SetOf(outputs) == {outputs[0]} + SetOf(outputs[1..]);
      assert outputs[0] !in SetOf(outputs[1..]);
      SeeLeaves(next, outputs[1..]);
    } else {
      assert v.pending.outputs - SetOf(outputs) == v.pending.outputs;
    }
  }

  lemma {:induction false} SeeAllConcat(v: View, a: seq<Event>, b: seq<Event>)
    ensures SeeAll(v, a + b) == SeeAll(SeeAll(v, a), b)
    decreases |a|
  {
    if a == [] {
      assert a + b == b;
    } else {
      assert (a + b)[0] == a[0] && (a + b)[1..] == a[1..] + b;
      SeeAllConcat(See(v, a[0]), a[1..], b);
    }
  }

  function Initial(e: Entry): seq<Event> {
    [Title(e.title), AppId(e.appId)] + Enters(e.outputs) + [State(e.activated, e.fullscreen), Done]
  }

  /** A new handle starts out showing the entry. */
  lemma InitialMirrors(e: Entry)
    requires NoRepeats(e.outputs)
    ensures Mirrors(Initial(e), e)
  {
    var start := Replay([]);
    var named := start.(pending := nothing.(title := e.title, appId := e.appId));
    var head, tail := [Title(e.title), AppId(e.appId)], [State(e.activated, e.fullscreen), Done];
    SeeTwo(start, Title(e.title), AppId(e.appId));
    assert SeeAll(start, head) == named;
    SeeEnters(named, e.outputs);
    SeeAllConcat(start, head, Enters(e.outputs));
    SeeAllConcat(start, head + Enters(e.outputs), tail);
    SeeTwo(SeeAll(start, head + Enters(e.outputs)), State(e.activated, e.fullscreen), Done);
    assert nothing.outputs + SetOf(e.outputs) == SetOf(e.outputs);
    assert [] + Initial(e) == Initial(e);
    ReplayConcat([], Initial(e));
  }

  /** Which of the outputs are not among the others. */
  function Except(outputs: seq<Output>, others: seq<Output>): (r: seq<Output>)
    ensures forall o :: o in r <==> o in outputs && o !in others
  {
    if outputs == [] then []
    else (if outputs[0] in others then [] else [outputs[0]]) + Except(outputs[1..], others)
  }

  lemma {:induction false} ExceptHasNoRepeats(outputs: seq<Output>, others: seq<Output>)
    requires NoRepeats(outputs)
    ensures NoRepeats(Except(outputs, others))
  {
    if outputs != [] {
      ExceptHasNoRepeats(outputs[1..], others);
      var rest := Except(outputs[1..], others);
      assert forall i :: 0 <= i < |rest| ==> rest[i] in rest;
      assert outputs[0] !in outputs[1..];
    }
  }

  function Moves(from: seq<Output>, to: seq<Output>): seq<Event> {
    Enters(Except(to, from)) + Leaves(Except(from, to)) + [Done]
  }

  lemma MovesMirror(events: seq<Event>, e: Entry, to: seq<Output>)
    requires Mirrors(events, e) && NoRepeats(e.outputs) && NoRepeats(to)
    ensures Mirrors(events + Moves(e.outputs, to), e.(outputs := to))
  {
    var entered, left := Except(to, e.outputs), Except(e.outputs, to);
    ExceptHasNoRepeats(to, e.outputs);
    ExceptHasNoRepeats(e.outputs, to);
    var v := Replay(events);
    SeeEnters(v, entered);
    var v' := SeeAll(v, Enters(entered));
    SeeLeaves(v', left);
    assert SetOf(e.outputs) + SetOf(entered) - SetOf(left) == SetOf(to);
    SeeAllConcat(v, Enters(entered), Leaves(left));
    SeeAllConcat(v, Enters(entered) + Leaves(left), [Done]);
    assert [Done][1..] == [];
    ReplayConcat(events, Moves(e.outputs, to));
  }

  /** Renaming says only what changed, and only then that it is done. */
  function Renames(e: Entry, title: string, appId: string): seq<Event> {
    (if e.title != title then [Title(title)] else [])
    + (if e.appId != appId then [AppId(appId)] else [])
    + (if e.title != title || e.appId != appId then [Done] else [])
  }

  lemma RenamesMirror(events: seq<Event>, e: Entry, title: string, appId: string)
    requires Mirrors(events, e)
    ensures Mirrors(events + Renames(e, title, appId), e.(title := title, appId := appId))
  {
    var t := if e.title != title then [Title(title)] else [];
    var a := if e.appId != appId then [AppId(appId)] else [];
    var d := if e.title != title || e.appId != appId then [Done] else [];
    assert t != [] ==> t[1..] == [];
    assert a != [] ==> a[1..] == [];
    assert d != [] ==> d[1..] == [];
    var v := Replay(events);
    SeeAllConcat(v, t, a);
    SeeAllConcat(v, t + a, d);
    ReplayConcat(events, Renames(e, title, appId));
  }

  lemma StateMirrors(events: seq<Event>, e: Entry, activated: bool, fullscreen: bool)
    requires Mirrors(events, e)
    ensures Mirrors(events + [State(activated, fullscreen), Done], e.(activated := activated, fullscreen := fullscreen))
  {
    SeeTwo(Replay(events), State(activated, fullscreen), Done);
    ReplayConcat(events, [State(activated, fullscreen), Done]);
  }

  lemma ClosedIsClosed(events: seq<Event>, e: Entry)
    requires Mirrors(events, e)
    ensures Replay(events + [Closed]).closed && Replay(events + [Closed]).proper
  {
    assert (events + [Closed])[..|events|] == events;
  }

  // ------------------------------------------------------------ all windows and handles

  /** The same events to each of these handles. */
  function Told(sent: map<Handle, seq<Event>>, handles: seq<Handle>, events: seq<Event>): map<Handle, seq<Event>> {
    map h | h in sent :: if h in handles then sent[h] + events else sent[h]
  }

  lemma ToldTwice(sent: map<Handle, seq<Event>>, handles: seq<Handle>, a: seq<Event>, b: seq<Event>)
    ensures Told(Told(sent, handles, a), handles, b) == Told(sent, handles, a + b)
  {
    forall h | h in sent && h in handles
      ensures sent[h] + a + b == sent[h] + (a + b)
    {
    }
  }

  lemma ToldNothing(sent: map<Handle, seq<Event>>, handles: seq<Handle>)
    ensures Told(sent, handles, []) == sent
  {
    assert forall events: seq<Event> :: events + [] == events;
  }

  ghost predicate EntryMirrored(id: Id, e: Entry, sent: map<Handle, seq<Event>>, owner: map<Handle, Id>) {
    && NoRepeats(e.outputs) && NoRepeats(e.handles)
    && forall h :: h in e.handles ==> h in sent && Mirrors(sent[h], e) && h in owner && owner[h] == id
  }

  /** Every handle of every window shows that window. */
  ghost predicate AllMirrored(toplevels: map<Id, Entry>, sent: map<Handle, seq<Event>>, owner: map<Handle, Id>) {
    forall id :: id in toplevels ==> EntryMirrored(id, toplevels[id], sent, owner)
  }

  ghost predicate Ended(h: Handle, sent: map<Handle, seq<Event>>, gone: set<Handle>) {
    h in gone || (h in sent && Replay(sent[h]).closed && Replay(sent[h]).proper)
  }

  /** Every handle there ever was still mirrors its window, was told it closed,
      or was destroyed by its client. */
  ghost predicate NoneForgotten(toplevels: map<Id, Entry>, sent: map<Handle, seq<Event>>, owner: map<Handle, Id>,
                                gone: set<Handle>, nextHandle: Handle)
  {
    && (forall h :: h in sent ==> h < nextHandle && h in owner)
    && (forall h :: h in sent && !Ended(h, sent, gone) ==>
          owner[h] in toplevels && h in toplevels[owner[h]].handles)
  }

  ghost predicate OneActivated(toplevels: map<Id, Entry>) {
    forall i, j :: i in toplevels && j in toplevels && toplevels[i].activated && toplevels[j].activated ==> i == j
  }

  /** An entry and its handles may change together. */
  lemma UpdateKeepsMirrors(toplevels: map<Id, Entry>, sent: map<Handle, seq<Event>>, owner: map<Handle, Id>, id: Id,
                           after: Entry, events: seq<Event>)
    requires AllMirrored(toplevels, sent, owner) && id in toplevels
    requires after.handles == toplevels[id].handles && NoRepeats(after.outputs)
    requires forall told :: Mirrors(told, toplevels[id]) ==> Mirrors(told + events, after)
    ensures AllMirrored(toplevels[id := after], Told(sent, after.handles, events), owner)
  {
    hide Mirrors, NoRepeats;
    forall other | other in toplevels
      ensures EntryMirrored(other, toplevels[id := after][other], Told(sent, after.handles, events), owner)
    {
      assert EntryMirrored(other, toplevels[other], sent, owner) && EntryMirrored(id, toplevels[id], sent, owner);
    }
  }

  lemma UpdateForgetsNone(toplevels: map<Id, Entry>, sent: map<Handle, seq<Event>>, owner: map<Handle, Id>,
                          gone: set<Handle>, nextHandle: Handle, id: Id, after: Entry, events: seq<Event>)
    requires NoneForgotten(toplevels, sent, owner, gone, nextHandle) && id in toplevels
    requires AllMirrored(toplevels, sent, owner)
    requires after.handles == toplevels[id].handles
    ensures NoneForgotten(toplevels[id := after], Told(sent, after.handles, events), owner, gone, nextHandle)
  {
    var sent' := Told(sent, after.handles, events);
    forall h | h in sent' && !Ended(h, sent', gone)
      ensures owner[h] in toplevels[id := after] && h in toplevels[id := after][owner[h]].handles
    {
      if h in after.handles {
        assert EntryMirrored(id, toplevels[id], sent, owner);
      } else {
        assert sent'[h] == sent[h];
        assert !Ended(h, sent, gone);
      }
    }
  }

  lemma RenamingKeepsMirrors(toplevels: map<Id, Entry>, sent: map<Handle, seq<Event>>, owner: map<Handle, Id>,
                             gone: set<Handle>, nextHandle: Handle, id: Id, title: string, appId: string)
    requires AllMirrored(toplevels, sent, owner) && NoneForgotten(toplevels, sent, owner, gone, nextHandle)
    requires id in toplevels
    ensures var e := toplevels[id];
            var after := toplevels[id := e.(title := title, appId := appId)];
            var sent' := Told(sent, e.handles, Renames(e, title, appId));
            AllMirrored(after, sent', owner) && NoneForgotten(after, sent', owner, gone, nextHandle)
  {
    var e := toplevels[id];
    var after, news := e.(title := title, appId := appId), Renames(e, title, appId);
    assert EntryMirrored(id, e, sent, owner);
    forall told | Mirrors(told, e)
      ensures Mirrors(told + news, after)
    {
      RenamesMirror(told, e, title, appId);
    }
    hide Mirrors, Renames;
    UpdateKeepsMirrors(toplevels, sent, owner, id, after, news);
    UpdateForgetsNone(toplevels, sent, owner, gone, nextHandle, id, after, news);
  }

  lemma ClosingKeepsMirrors(toplevels: map<Id, Entry>, sent: map<Handle, seq<Event>>, owner: map<Handle, Id>,
                            gone: set<Handle>, nextHandle: Handle, id: Id)
    requires AllMirrored(toplevels, sent, owner) && NoneForgotten(toplevels, sent, owner, gone, nextHandle)
    requires id in toplevels
    ensures var sent' := Told(sent, toplevels[id].handles, [Closed]);
            AllMirrored(toplevels - {id}, sent', owner)
            && NoneForgotten(toplevels - {id}, sent', owner, gone, nextHandle)
  {
    var handles := toplevels[id].handles;
    var sent' := Told(sent, handles, [Closed]);
    forall other | other in toplevels && other != id
      ensures EntryMirrored(other, toplevels[other], sent', owner)
    {
      assert EntryMirrored(other, toplevels[other], sent, owner) && EntryMirrored(id, toplevels[id], sent, owner);
    }
    forall h | h in sent' && !Ended(h, sent', gone)
      ensures owner[h] in toplevels && owner[h] != id && h in toplevels[owner[h]].handles
    {
      assert EntryMirrored(id, toplevels[id], sent, owner);
      if h in handles {
        ClosedIsClosed(sent[h], toplevels[id]);
      } else {
        assert sent'[h] == sent[h];
        assert !Ended(h, sent, gone);
      }
    }
  }

  lemma NewHandleMirrors(toplevels: map<Id, Entry>, sent: map<Handle, seq<Event>>, owner: map<Handle, Id>,
                         gone: set<Handle>, nextHandle: Handle, id: Id)
    requires AllMirrored(toplevels, sent, owner) && NoneForgotten(toplevels, sent, owner, gone, nextHandle)
    requires id in toplevels
    ensures var e := toplevels[id].(handles := toplevels[id].handles + [nextHandle]);
            var sent' := sent[nextHandle := Initial(e)];
            var owner' := owner[nextHandle := id];
            AllMirrored(toplevels[id := e], sent', owner')
            && NoneForgotten(toplevels[id := e], sent', owner', gone, nextHandle + 1)
  {
    var e := toplevels[id].(handles := toplevels[id].handles + [nextHandle]);
    var sent', owner' := sent[nextHandle := Initial(e)], owner[nextHandle := id];
    NewHandleIsMirrored(toplevels[id], sent, owner, nextHandle, id);
    assert forall other :: other in toplevels ==> EntryMirrored(other, toplevels[other], sent, owner);
    hide Initial, Mirrors, NoRepeats;
    forall h | h in sent' && !Ended(h, sent', gone)
      ensures owner'[h] in toplevels[id := e] && h in toplevels[id := e][owner'[h]].handles
    {
      if h != nextHandle {
        assert !Ended(h, sent, gone);
      }
    }
    hide Ended;
    forall other | other in toplevels
      ensures EntryMirrored(other, toplevels[id := e][other], sent', owner')
    {
    }
  }

  lemma NewHandleIsMirrored(before: Entry, sent: map<Handle, seq<Event>>, owner: map<Handle, Id>,
                            h: Handle, id: Id)
    requires EntryMirrored(id, before, sent, owner) && forall k :: k in sent ==> k < h
    ensures var e := before.(handles := before.handles + [h]);
            EntryMirrored(id, e, sent[h := Initial(e)], owner[h := id])
  {
    var e := before.(handles := before.handles + [h]);
    InitialMirrors(e);
    assert FactsOf(e) == FactsOf(before);
    assert forall k :: k in before.handles ==> k < h && Mirrors(sent[k], e);
    assert forall i :: 0 <= i < |before.handles| ==> e.handles[i] in before.handles;
  }

  lemma LosingHandleKeepsMirrors(toplevels: map<Id, Entry>, sent: map<Handle, seq<Event>>, owner: map<Handle, Id>,
                                 gone: set<Handle>, nextHandle: Handle, id: Id, h: Handle, handles: seq<Handle>)
    requires AllMirrored(toplevels, sent, owner) && NoneForgotten(toplevels, sent, owner, gone, nextHandle)
    requires id in toplevels && NoRepeats(handles)
    requires forall k :: k in handles <==> k in toplevels[id].handles && k != h
    ensures var e := toplevels[id].(handles := handles);
            AllMirrored(toplevels[id := e], sent, owner)
            && NoneForgotten(toplevels[id := e], sent, owner, gone + {h}, nextHandle)
  {
    var e := toplevels[id].(handles := handles);
    forall other | other in toplevels
      ensures EntryMirrored(other, toplevels[id := e][other], sent, owner)
    {
      assert EntryMirrored(other, toplevels[other], sent, owner);
    }
    forall k | k in sent && !Ended(k, sent, gone + {h})
      ensures owner[k] in toplevels[id := e] && k in toplevels[id := e][owner[k]].handles
    {
      assert !Ended(k, sent, gone);
    }
  }

  function Retained(handles: seq<Handle>, h: Handle): (r: seq<Handle>)
    ensures forall k :: k in r <==> k in handles && k != h
  {
    if handles == [] then []
    else (if handles[0] == h then [] else [handles[0]]) + Retained(handles[1..], h)
  }

  lemma {:induction false} RetainedHasNoRepeats(handles: seq<Handle>, h: Handle)
    requires NoRepeats(handles)
    ensures NoRepeats(Retained(handles, h))
  {
    if handles != [] {
      RetainedHasNoRepeats(handles[1..], h);
      var rest := Retained(handles[1..], h);
      assert forall i :: 0 <= i < |rest| ==> rest[i] in rest;
      assert handles[0] !in handles[1..];
    }
  }

  // ------------------------------------------------------------ the compositor's side

  function Focused(toplevels: map<Id, Entry>, focused: Option<Id>): map<Id, Entry> {
    map id | id in toplevels :: toplevels[id].(activated := focused == Some(id))
  }

  function Placed(toplevels: map<Id, Entry>, outputsFor: Id -> seq<Output>): map<Id, Entry> {
    map id | id in toplevels :: PlacedOn(toplevels[id], outputsFor(id))
  }

  /** An order change alone is not worth telling. */
  function PlacedOn(e: Entry, outputs: seq<Output>): (r: Entry)
    ensures r.handles == e.handles && r.activated == e.activated
  {
    if Except(outputs, e.outputs) == [] && Except(e.outputs, outputs) == [] then e else e.(outputs := outputs)
  }

  /** Handles there already were hear nothing. */
  ghost predicate UnheardOf(before: map<Handle, seq<Event>>, after: map<Handle, seq<Event>>) {
    forall h :: h in before ==> h in after && after[h] == before[h]
  }

  /** The same window with n more handles. */
  predicate Joined(before: Entry, after: Entry, n: nat) {
    && after == before.(handles := after.handles)
    && before.handles <= after.handles && |after.handles| == |before.handles| + n
  }

  /** A walk over all windows, in whatever order. */
  ghost predicate Lists(ids: seq<Id>, toplevels: map<Id, Entry>) {
    NoRepeats(ids) && forall id :: id in ids <==> id in toplevels
  }

  /** What each window's handles hear when the focus moves. */
  function FocusNews(toplevels: map<Id, Entry>, focused: Option<Id>): map<Id, seq<Event>> {
    map id | id in toplevels :: StateNews(toplevels[id], focused == Some(id))
  }

  function StateNews(e: Entry, activated: bool): seq<Event> {
    if e.activated == activated then [] else [State(activated, e.fullscreen), Done]
  }

  /** ... and when windows or outputs move. */
  function OutputNews(toplevels: map<Id, Entry>, outputsFor: Id -> seq<Output>): map<Id, seq<Event>> {
    map id | id in toplevels :: MoveNews(toplevels[id], outputsFor(id))
  }

  function MoveNews(e: Entry, outputs: seq<Output>): seq<Event> {
    if Except(outputs, e.outputs) == [] && Except(e.outputs, outputs) == [] then [] else Moves(e.outputs, outputs)
  }

  /** The handles of this window heard exactly these events in between. */
  ghost predicate Heard(e: Entry, before: map<Handle, seq<Event>>, after: map<Handle, seq<Event>>, events: seq<Event>) {
    forall h :: h in e.handles ==> h in before && h in after && after[h] == before[h] + events
  }

  /** A walk over all windows that turns each into its goal and gives its
      handles their news: the first k are done, the others as they were. */
  ghost predicate Walked(w: Walk, k: nat, now: map<Id, Entry>, sent: map<Handle, seq<Event>>) {
    && w.Valid() && now.Keys == w.before.Keys
    && forall i :: 0 <= i < |w.ids| ==>
         && now[w.ids[i]] == (if i < k then w.goal[w.ids[i]] else w.before[w.ids[i]])
         && Heard(w.before[w.ids[i]], w.sent, sent, if i < k then w.news[w.ids[i]] else [])
  }

  datatype Walk = Walk(before: map<Id, Entry>, ids: seq<Id>, sent: map<Handle, seq<Event>>,
                       goal: map<Id, Entry>, news: map<Id, seq<Event>>)
  {
    ghost predicate Valid() {
      && Lists(ids, before) && HandlesApart(before)
      && goal.Keys == news.Keys == before.Keys
      && forall i :: 0 <= i < |ids| ==> ids[i] in before
    }
  }

  ghost predicate HandlesApart(toplevels: map<Id, Entry>) {
    forall i, j, h :: i in toplevels && j in toplevels && i != j && h in toplevels[i].handles ==>
      h !in toplevels[j].handles
  }

  lemma MirroredApart(toplevels: map<Id, Entry>, sent: map<Handle, seq<Event>>, owner: map<Handle, Id>)
    requires AllMirrored(toplevels, sent, owner)
    ensures HandlesApart(toplevels)
    ensures forall id, h :: id in toplevels && h in toplevels[id].handles ==> h in sent
  {
    forall id, h | id in toplevels && h in toplevels[id].handles
      ensures h in sent && h in owner && owner[h] == id
    {
      assert EntryMirrored(id, toplevels[id], sent, owner);
    }
  }

  lemma WalkStarts(w: Walk)
    requires w.Valid() && forall id, h :: id in w.before && h in w.before[id].handles ==> h in w.sent
    ensures Walked(w, 0, w.before, w.sent)
  {
    assert forall events: seq<Event> :: events + [] == events;
  }

  lemma WalkStep(w: Walk, k: nat, now: map<Id, Entry>, sent: map<Handle, seq<Event>>)
    requires Walked(w, k, now, sent) && k < |w.ids|
    ensures var id := w.ids[k];
            && id in now && id in w.before && id in w.goal && id in w.news && now[id] == w.before[id]
            && Walked(w, k + 1, now[id := w.goal[id]], Told(sent, w.before[id].handles, w.news[id]))
  {
    var e, next := w.before[w.ids[k]], Told(sent, w.before[w.ids[k]].handles, w.news[w.ids[k]]);
    ListedOnce(w.ids, w.before, k);
    forall i | 0 <= i < |w.ids|
      ensures Heard(w.before[w.ids[i]], w.sent, next, if i < k + 1 then w.news[w.ids[i]] else [])
    {
      if i == k {
        HeardToo(e, w.sent, sent, w.news[w.ids[k]]);
      } else {
        HeardNoMore(w.before[w.ids[i]], e, w.sent, sent, if i < k then w.news[w.ids[i]] else [], w.news[w.ids[k]]);
      }
    }
    hide Heard, HandlesApart, Told;
  }

  lemma HeardToo(e: Entry, before: map<Handle, seq<Event>>, now: map<Handle, seq<Event>>, events: seq<Event>)
    requires Heard(e, before, now, [])
    ensures Heard(e, before, Told(now, e.handles, events), events)
  {
    assert forall events: seq<Event> :: events + [] == events;
  }

  lemma HeardNoMore(own: Entry, other: Entry, before: map<Handle, seq<Event>>, now: map<Handle, seq<Event>>,
                    events: seq<Event>, more: seq<Event>)
    requires Heard(own, before, now, events) && forall h :: h in own.handles ==> h !in other.handles
    ensures Heard(own, before, Told(now, other.handles, more), events)
  {
  }

  lemma WalkEnds(w: Walk, now: map<Id, Entry>, sent: map<Handle, seq<Event>>)
    requires Walked(w, |w.ids|, now, sent)
    ensures now == w.goal && AllHeard(w.before, w.sent, sent, w.news)
  {
    forall id | id in w.before
      ensures now[id] == w.goal[id] && Heard(w.before[id], w.sent, sent, w.news[id])
    {
      var i :| 0 <= i < |w.ids| && w.ids[i] == id;
    }
  }

  /** Every window's handles heard their news and nothing else. */
  ghost predicate AllHeard(toplevels: map<Id, Entry>, before: map<Handle, seq<Event>>, after: map<Handle, seq<Event>>,
                           news: map<Id, seq<Event>>)
  {
    forall id :: id in toplevels ==> id in news && Heard(toplevels[id], before, after, news[id])
  }

  lemma ListedOnce(ids: seq<Id>, toplevels: map<Id, Entry>, k: nat)
    requires Lists(ids, toplevels) && k < |ids|
    ensures forall i :: 0 <= i < |ids| ==> ids[i] in toplevels
    ensures forall i :: 0 <= i < |ids| && i != k ==> ids[i] != ids[k]
  {
  }

  ghost function FocusWalk(toplevels: map<Id, Entry>, ids: seq<Id>, sent: map<Handle, seq<Event>>, focused: Option<Id>): Walk {
    Walk(toplevels, ids, sent, Focused(toplevels, focused), FocusNews(toplevels, focused))
  }

  ghost function OutputWalk(toplevels: map<Id, Entry>, ids: seq<Id>, sent: map<Handle, seq<Event>>,
                            outputsFor: Id -> seq<Output>): Walk
  {
    Walk(toplevels, ids, sent, Placed(toplevels, outputsFor), OutputNews(toplevels, outputsFor))
  }

  lemma FocusWalkStarts(toplevels: map<Id, Entry>, ids: seq<Id>, sent: map<Handle, seq<Event>>, owner: map<Handle, Id>,
                        focused: Option<Id>)
    requires AllMirrored(toplevels, sent, owner) && Lists(ids, toplevels)
    ensures Walked(FocusWalk(toplevels, ids, sent, focused), 0, toplevels, sent)
    ensures OneActivated(Focused(toplevels, focused))
  {
    MirroredApart(toplevels, sent, owner);
    WalkStarts(FocusWalk(toplevels, ids, sent, focused));
  }

  lemma OutputWalkStarts(toplevels: map<Id, Entry>, ids: seq<Id>, sent: map<Handle, seq<Event>>, owner: map<Handle, Id>,
                         outputsFor: Id -> seq<Output>)
    requires AllMirrored(toplevels, sent, owner) && Lists(ids, toplevels) && OneActivated(toplevels)
    ensures Walked(OutputWalk(toplevels, ids, sent, outputsFor), 0, toplevels, sent)
    ensures OneActivated(Placed(toplevels, outputsFor))
  {
    MirroredApart(toplevels, sent, owner);
    PlacingActivatesNone(toplevels, outputsFor);
    WalkStarts(OutputWalk(toplevels, ids, sent, outputsFor));
  }

  lemma FocusWalkStep(toplevels: map<Id, Entry>, ids: seq<Id>, before: map<Handle, seq<Event>>, focused: Option<Id>,
                      k: nat, now: map<Id, Entry>, sent: map<Handle, seq<Event>>)
    requires k < |ids| && Walked(FocusWalk(toplevels, ids, before, focused), k, now, sent)
    ensures var id, want := ids[k], focused == Some(ids[k]);
            && id in now
            && Walked(FocusWalk(toplevels, ids, before, focused), k + 1, now[id := now[id].(activated := want)],
                      Told(sent, now[id].handles, StateNews(now[id], want)))
  {
    WalkStep(FocusWalk(toplevels, ids, before, focused), k, now, sent);
    hide Walked, Told;
  }

  lemma OutputWalkStep(toplevels: map<Id, Entry>, ids: seq<Id>, before: map<Handle, seq<Event>>,
                       outputsFor: Id -> seq<Output>, k: nat, now: map<Id, Entry>, sent: map<Handle, seq<Event>>)
    requires k < |ids| && Walked(OutputWalk(toplevels, ids, before, outputsFor), k, now, sent)
    ensures var id := ids[k];
            && id in now
            && Walked(OutputWalk(toplevels, ids, before, outputsFor), k + 1, now[id := PlacedOn(now[id], outputsFor(id))],
                      Told(sent, now[id].handles, MoveNews(now[id], outputsFor(id))))
  {
    WalkStep(OutputWalk(toplevels, ids, before, outputsFor), k, now, sent);
    hide Walked, Told, PlacedOn, MoveNews;
  }

  lemma FocusWalkEnds(toplevels: map<Id, Entry>, ids: seq<Id>, before: map<Handle, seq<Event>>, focused: Option<Id>,
                      now: map<Id, Entry>, sent: map<Handle, seq<Event>>)
    requires Walked(FocusWalk(toplevels, ids, before, focused), |ids|, now, sent)
    ensures now == Focused(toplevels, focused) && AllHeard(toplevels, before, sent, FocusNews(toplevels, focused))
  {
    WalkEnds(FocusWalk(toplevels, ids, before, focused), now, sent);
  }

  lemma OutputWalkEnds(toplevels: map<Id, Entry>, ids: seq<Id>, before: map<Handle, seq<Event>>,
                       outputsFor: Id -> seq<Output>, now: map<Id, Entry>, sent: map<Handle, seq<Event>>)
    requires Walked(OutputWalk(toplevels, ids, before, outputsFor), |ids|, now, sent)
    ensures now == Placed(toplevels, outputsFor) && AllHeard(toplevels, before, sent, OutputNews(toplevels, outputsFor))
  {
    WalkEnds(OutputWalk(toplevels, ids, before, outputsFor), now, sent);
  }

  class ForeignToplevels {
    var toplevels: map<Id, Entry>
    var managers: seq<Manager>
    // Everything sent to each handle.
    var sent: map<Handle, seq<Event>>
    var nextHandle: Handle
    ghost var owner: map<Handle, Id>
    ghost var gone: set<Handle>

    ghost predicate Mirrored()
      reads this`toplevels, this`sent, this`owner, this`gone, this`nextHandle
    {
      AllMirrored(toplevels, sent, owner) && NoneForgotten(toplevels, sent, owner, gone, nextHandle)
    }

    ghost predicate Valid()
      reads this`toplevels, this`sent, this`owner, this`gone, this`nextHandle
    {
      Mirrored() && OneActivated(toplevels)
    }

    constructor ()
      ensures Valid() && toplevels == map[] && managers == []
    {
      toplevels, managers, sent, nextHandle := map[], [], map[], 0;
      owner, gone := map[], {};
    }

    method Tell(handles: seq<Handle>, events: seq<Event>)
      requires NoRepeats(handles) && forall h :: h in handles ==> h in sent
      modifies this`sent
      ensures sent == Told(old(sent), handles, events)
    {
      for k := 0 to |handles|
        invariant sent == Told(old(sent), handles[..k], events)
      {
        var h := handles[k];
        assert h !in handles[..k];
        assert handles[..k + 1] == handles[..k] + [h];
        sent := sent[h := sent[h] + events];
      }
      assert handles[..|handles|] == handles;
    }

    /** Changes an entry and tells its handles. */
    method Update(id: Id, after: Entry, events: seq<Event>)
      requires Mirrored() && id in toplevels
      requires after.handles == toplevels[id].handles && NoRepeats(after.outputs)
      requires forall told :: Mirrors(told, toplevels[id]) ==> Mirrors(told + events, after)
      modifies this`toplevels, this`sent
      ensures Mirrored() && toplevels == old(toplevels)[id := after]
      ensures sent == Told(old(sent), after.handles, events)
    {
      UpdateKeepsMirrors(toplevels, sent, owner, id, after, events);
      UpdateForgetsNone(toplevels, sent, owner, gone, nextHandle, id, after, events);
      assert EntryMirrored(id, toplevels[id], sent, owner);
      hide AllMirrored, NoneForgotten, Mirrors, NoRepeats;
      toplevels := toplevels[id := after];
      Tell(after.handles, events);
    }

    /** Each handle hears of every name that changed, and once that it is done. */
    method Retitle(id: Id, title: string, appId: string)
      requires Valid()
      modifies this`toplevels, this`sent
      ensures Valid()
      ensures id !in old(toplevels) ==> toplevels == old(toplevels) && sent == old(sent)
      ensures id in old(toplevels) ==>
                && toplevels == old(toplevels)[id := old(toplevels)[id].(title := title, appId := appId)]
                && sent == Told(old(sent), old(toplevels)[id].handles, Renames(old(toplevels)[id], title, appId))
    {
      if id !in toplevels {
        return;
      }
      var e := toplevels[id];
      RenamingKeepsMirrors(toplevels, sent, owner, gone, nextHandle, id, title, appId);
      assert EntryMirrored(id, e, sent, owner);
      hide AllMirrored, NoneForgotten, Mirrors;
      toplevels := toplevels[id := e.(title := title, appId := appId)];
      TellNames(e, title, appId);
    }

    method TellNames(e: Entry, title: string, appId: string)
      requires NoRepeats(e.handles) && forall h :: h in e.handles ==> h in sent
      modifies this`sent
      ensures sent == Told(old(sent), e.handles, Renames(e, title, appId))
    {
      hide NoRepeats;
      ghost var said: seq<Event> := [];
      ToldNothing(sent, e.handles);
      if e.title != title {
        Tell(e.handles, [Title(title)]);
        said := [Title(title)];
      }
      if e.appId != appId {
        ToldTwice(old(sent), e.handles, said, [AppId(appId)]);
        Tell(e.handles, [AppId(appId)]);
        said := said + [AppId(appId)];
      }
      if e.title != title || e.appId != appId {
        ToldTwice(old(sent), e.handles, said, [Done]);
        Tell(e.handles, [Done]);
        said := said + [Done];
      }
      assert said == Renames(e, title, appId);
    }

    method SetFullscreen(id: Id, on: bool)
      requires Valid()
      modifies this`toplevels, this`sent
      ensures Valid()
      ensures id !in old(toplevels) ==> toplevels == old(toplevels)
      ensures id in old(toplevels) ==> toplevels == old(toplevels)[id := old(toplevels)[id].(fullscreen := on)]
      ensures sent == if id !in old(toplevels) || old(toplevels)[id].fullscreen == on then old(sent)
                      else Told(old(sent), old(toplevels)[id].handles, [State(old(toplevels)[id].activated, on), Done])
    {
      if id !in toplevels || toplevels[id].fullscreen == on {
        return;
      }
      SetState(id, toplevels[id].activated, on);
    }

    method SetState(id: Id, activated: bool, fullscreen: bool)
      requires Mirrored() && id in toplevels
      modifies this`toplevels, this`sent
      ensures Mirrored()
      ensures toplevels == old(toplevels)[id := old(toplevels)[id].(activated := activated, fullscreen := fullscreen)]
      ensures sent == Told(old(sent), old(toplevels)[id].handles, [State(activated, fullscreen), Done])
    {
      var e := toplevels[id];
      assert EntryMirrored(id, e, sent, owner);
      forall told | Mirrors(told, e)
        ensures Mirrors(told + [State(activated, fullscreen), Done], e.(activated := activated, fullscreen := fullscreen))
      {
        StateMirrors(told, e, activated, fullscreen);
      }
      Update(id, e.(activated := activated, fullscreen := fullscreen), [State(activated, fullscreen), Done]);
    }

    /** The focused window, if it is one of these, becomes the only one activated. */
    method Focus(focused: Option<Id>, ids: seq<Id>)
      requires Valid() && Lists(ids, toplevels)
      modifies this`toplevels, this`sent
      ensures Valid() && toplevels == Focused(old(toplevels), focused)
      ensures toplevels.Keys == old(toplevels).Keys
      ensures forall id :: id in toplevels ==>
                && (toplevels[id].activated <==> focused == Some(id))
                && toplevels[id] == old(toplevels)[id].(activated := toplevels[id].activated)
      ensures AllHeard(old(toplevels), old(sent), sent, FocusNews(old(toplevels), focused))
    {
      FocusWalkStarts(toplevels, ids, sent, owner, focused);
      hide Mirrored, OneActivated, Lists, Walked, FocusWalk, FocusNews, Focused, StateNews, AllHeard, Told;
      for k := 0 to |ids|
        invariant Mirrored() && Walked(FocusWalk(old(toplevels), ids, old(sent), focused), k, toplevels, sent)
      {
        FocusWalkStep(old(toplevels), ids, old(sent), focused, k, toplevels, sent);
        FocusOne(ids[k], focused == Some(ids[k]));
      }
      FocusWalkEnds(old(toplevels), ids, old(sent), focused, toplevels, sent);
      FocusedIsActivated(old(toplevels), focused);
    }

    method FocusOne(id: Id, want: bool)
      requires Mirrored() && id in toplevels
      modifies this`toplevels, this`sent
      ensures Mirrored() && toplevels == old(toplevels)[id := old(toplevels)[id].(activated := want)]
      ensures sent == Told(old(sent), old(toplevels)[id].handles, StateNews(old(toplevels)[id], want))
    {
      ToldNothing(sent, toplevels[id].handles);
      if toplevels[id].activated != want {
        SetState(id, want, toplevels[id].fullscreen);
      }
    }

    /** Says which outputs each window has come to and left. */
    method RefreshOutputs(outputsFor: Id -> seq<Output>, ids: seq<Id>)
      requires Valid() && Lists(ids, toplevels)
      requires forall id :: NoRepeats(outputsFor(id))
      modifies this`toplevels, this`sent
      ensures Valid() && toplevels == Placed(old(toplevels), outputsFor)
      ensures toplevels.Keys == old(toplevels).Keys
      ensures forall id :: id in toplevels ==>
                && SetOf(toplevels[id].outputs) == SetOf(outputsFor(id))
                && toplevels[id] == old(toplevels)[id].(outputs := toplevels[id].outputs)
      ensures AllHeard(old(toplevels), old(sent), sent, OutputNews(old(toplevels), outputsFor))
    {
      OutputWalkStarts(toplevels, ids, sent, owner, outputsFor);
      hide Mirrored, OneActivated, Lists, Walked, OutputWalk, OutputNews, Placed, PlacedOn, MoveNews, AllHeard, Told, NoRepeats;
      for k := 0 to |ids|
        invariant Mirrored() && Walked(OutputWalk(old(toplevels), ids, old(sent), outputsFor), k, toplevels, sent)
      {
        OutputWalkStep(old(toplevels), ids, old(sent), outputsFor, k, toplevels, sent);
        RefreshOne(ids[k], outputsFor(ids[k]));
      }
      OutputWalkEnds(old(toplevels), ids, old(sent), outputsFor, toplevels, sent);
      PlacedIsThere(old(toplevels), outputsFor);
    }

    method RefreshOne(id: Id, outputs: seq<Output>)
      requires Mirrored() && id in toplevels && NoRepeats(outputs)
      modifies this`toplevels, this`sent
      ensures Mirrored()
      ensures toplevels == old(toplevels)[id := PlacedOn(old(toplevels)[id], outputs)]
      ensures sent == Told(old(sent), old(toplevels)[id].handles, MoveNews(old(toplevels)[id], outputs))
    {
      ToldNothing(sent, toplevels[id].handles);
      var e := toplevels[id];
      var entered, left := Except(outputs, e.outputs), Except(e.outputs, outputs);
      if entered == [] && left == [] {
        return;
      }
      assert EntryMirrored(id, e, sent, owner);
      forall told | Mirrors(told, e)
        ensures Mirrors(told + Moves(e.outputs, outputs), e.(outputs := outputs))
      {
        MovesMirror(told, e, outputs);
      }
      Update(id, e.(outputs := outputs), Moves(e.outputs, outputs));
    }

    /** A handle for one window, told all about it. */
    method NewHandle(id: Id) returns (h: Handle)
      requires Valid() && id in toplevels
      modifies this`toplevels, this`sent, this`nextHandle, this`owner
      ensures Valid() && h == old(nextHandle)
      ensures toplevels == old(toplevels)[id := old(toplevels)[id].(handles := old(toplevels)[id].handles + [h])]
      ensures sent == old(sent)[h := Initial(toplevels[id])] && UnheardOf(old(sent), sent)
    {
      NewHandleMirrors(toplevels, sent, owner, gone, nextHandle, id);
      hide AllMirrored, NoneForgotten;
      h := nextHandle;
      nextHandle := nextHandle + 1;
      owner := owner[h := id];
      toplevels := toplevels[id := toplevels[id].(handles := toplevels[id].handles + [h])];
      sent := sent[h := Initial(toplevels[id])];
    }

    /** A window appears; each manager whose client can take it gets a handle. */
    method Created(id: Id, title: string, appId: string, outputs: seq<Output>, works: Manager -> bool)
      requires Valid() && id !in toplevels && NoRepeats(outputs)
      modifies this`toplevels, this`sent, this`nextHandle, this`owner
      ensures Valid() && toplevels.Keys == old(toplevels.Keys) + {id}
      ensures toplevels == old(toplevels)[id := toplevels[id]] && UnheardOf(old(sent), sent)
      ensures Joined(Entry(title, appId, false, false, outputs, []), toplevels[id], Willing(managers, works))
    {
      var entry := Entry(title, appId, false, false, outputs, []);
      AddingKeepsMirrors(toplevels, sent, owner, gone, nextHandle, id, entry);
      assert OneActivated(toplevels[id := entry]);
      hide AllMirrored, NoneForgotten, OneActivated, Joined;
      toplevels := toplevels[id := entry];
      HandOut(id, works);
    }

    method HandOut(id: Id, works: Manager -> bool)
      requires Valid() && id in toplevels
      modifies this`toplevels, this`sent, this`nextHandle, this`owner
      ensures Valid() && id in toplevels && toplevels == old(toplevels)[id := toplevels[id]]
      ensures UnheardOf(old(sent), sent)
      ensures Joined(old(toplevels)[id], toplevels[id], Willing(managers, works))
    {
      hide Valid;
      for k := 0 to |managers|
        invariant Valid() && id in toplevels && toplevels == old(toplevels)[id := toplevels[id]]
        invariant UnheardOf(old(sent), sent)
        invariant Joined(old(toplevels)[id], toplevels[id], Willing(managers[..k], works))
      {
        assert managers[..k + 1][..k] == managers[..k];
        if works(managers[k]) {
          var _ := NewHandle(id);
        }
      }
      assert managers[..|managers|] == managers;
    }

    /** A manager that comes late gets a handle for every window there is. */
    method Bind(manager: Manager, ids: seq<Id>, works: Id -> bool)
      requires Valid() && Lists(ids, toplevels)
      modifies this
      ensures Valid() && managers == old(managers) + [manager]
      ensures toplevels.Keys == old(toplevels.Keys)
      ensures forall id :: id in toplevels ==> Joined(old(toplevels)[id], toplevels[id], if works(id) then 1 else 0)
      ensures UnheardOf(old(sent), sent)
    {
      hide Valid;
      for k := 0 to |ids|
        invariant UnheardOf(old(sent), sent)
        invariant Valid() && toplevels.Keys == old(toplevels.Keys) && managers == old(managers)
        invariant forall i :: 0 <= i < k ==>
                    Joined(old(toplevels)[ids[i]], toplevels[ids[i]], if works(ids[i]) then 1 else 0)
        invariant forall i :: k <= i < |ids| ==> toplevels[ids[i]] == old(toplevels)[ids[i]]
      {
        if works(ids[k]) {
          var _ := NewHandle(ids[k]);
        }
      }
      forall id | id in toplevels
        ensures Joined(old(toplevels)[id], toplevels[id], if works(id) then 1 else 0)
      {
        var i :| 0 <= i < |ids| && ids[i] == id;
      }
      hide Joined;
      managers := managers + [manager];
    }

    method ClosedWindow(id: Id)
      requires Valid()
      modifies this`toplevels, this`sent
      ensures Valid() && toplevels == old(toplevels) - {id}
      ensures id in old(toplevels) ==> sent == Told(old(sent), old(toplevels)[id].handles, [Closed])
      ensures id !in old(toplevels) ==> sent == old(sent)
    {
      if id in toplevels {
        ClosingKeepsMirrors(toplevels, sent, owner, gone, nextHandle, id);
        var handles := toplevels[id].handles;
        assert EntryMirrored(id, toplevels[id], sent, owner);
        hide AllMirrored, NoneForgotten;
        toplevels := toplevels - {id};
        Tell(handles, [Closed]);
      } else {
        assert toplevels - {id} == toplevels;
      }
    }

    method HandleDestroyed(h: Handle, id: Id)
      requires Valid() && h in owner && owner[h] == id
      modifies this`toplevels, this`gone
      ensures Valid() && gone == old(gone) + {h}
      ensures toplevels == if id !in old(toplevels) then old(toplevels)
                           else old(toplevels)[id := old(toplevels)[id].(handles := Retained(old(toplevels)[id].handles, h))]
      ensures id in old(toplevels) ==>
                forall k :: k in toplevels[id].handles <==> k in old(toplevels)[id].handles && k != h
    {
      if id in toplevels {
        assert EntryMirrored(id, toplevels[id], sent, owner);
        var handles := Retained(toplevels[id].handles, h);
        RetainedHasNoRepeats(toplevels[id].handles, h);
        LosingHandleKeepsMirrors(toplevels, sent, owner, gone, nextHandle, id, h, handles);
        hide AllMirrored, NoneForgotten;
        toplevels := toplevels[id := toplevels[id].(handles := handles)];
      }
      gone := gone + {h};
    }

    method ManagerStopped(manager: Manager)
      requires Valid()
      modifies this`managers
      ensures Valid() && forall m :: m in managers <==> m in old(managers) && m != manager
    {
      managers := Retained(managers, manager);
    }
  }

  /** How many clients can take a handle. */
  function Willing(managers: seq<Manager>, works: Manager -> bool): nat {
    if managers == [] then 0
    else Willing(managers[..|managers| - 1], works) + if works(managers[|managers| - 1]) then 1 else 0
  }

  lemma AddingKeepsMirrors(toplevels: map<Id, Entry>, sent: map<Handle, seq<Event>>, owner: map<Handle, Id>,
                           gone: set<Handle>, nextHandle: Handle, id: Id, e: Entry)
    requires AllMirrored(toplevels, sent, owner) && NoneForgotten(toplevels, sent, owner, gone, nextHandle)
    requires id !in toplevels && e.handles == [] && NoRepeats(e.outputs)
    ensures AllMirrored(toplevels[id := e], sent, owner)
    ensures NoneForgotten(toplevels[id := e], sent, owner, gone, nextHandle)
  {
    forall other | other in toplevels
      ensures EntryMirrored(other, toplevels[other], sent, owner)
    {
    }
    assert EntryMirrored(id, e, sent, owner);
  }

  lemma FocusedIsActivated(toplevels: map<Id, Entry>, focused: Option<Id>)
    ensures Focused(toplevels, focused).Keys == toplevels.Keys
    ensures forall id :: id in toplevels ==>
              var after := Focused(toplevels, focused)[id];
              && (after.activated <==> focused == Some(id))
              && after == toplevels[id].(activated := after.activated)
  {
  }

  lemma PlacedIsThere(toplevels: map<Id, Entry>, outputsFor: Id -> seq<Output>)
    ensures Placed(toplevels, outputsFor).Keys == toplevels.Keys
    ensures forall id :: id in toplevels ==>
              var after := Placed(toplevels, outputsFor)[id];
              && SetOf(after.outputs) == SetOf(outputsFor(id))
              && after == toplevels[id].(outputs := after.outputs)
  {
    forall id | id in toplevels
      ensures SetOf(PlacedOn(toplevels[id], outputsFor(id)).outputs) == SetOf(outputsFor(id))
    {
      NoneToMoveIff(toplevels[id].outputs, outputsFor(id));
    }
  }

  lemma NoneToMoveIff(from: seq<Output>, to: seq<Output>)
    ensures Except(to, from) == [] && Except(from, to) == [] <==> SetOf(from) == SetOf(to)
  {
    assert Except(to, from) != [] ==> Except(to, from)[0] in SetOf(to) - SetOf(from);
    assert Except(from, to) != [] ==> Except(from, to)[0] in SetOf(from) - SetOf(to);
    if Except(to, from) == [] && Except(from, to) == [] {
      assert forall o :: o in to <==> o in from;
    }
  }

  /** A move is told exactly if the set of outputs changed: an enter for each
      output come to, a leave for each one left, and one done at the end. */
  lemma NewsOfMove(e: Entry, outputs: seq<Output>)
    ensures var news := MoveNews(e, outputs);
            && (news == [] <==> SetOf(e.outputs) == SetOf(outputs))
            && (forall o :: OutputEnter(o) in news <==> o in outputs && o !in e.outputs)
            && (forall o :: OutputLeave(o) in news <==> o in e.outputs && o !in outputs)
            && (news != [] ==> news[|news| - 1] == Done && Done !in news[..|news| - 1])
  {
    var news, entered, left := MoveNews(e, outputs), Except(outputs, e.outputs), Except(e.outputs, outputs);
    NoneToMoveIff(e.outputs, outputs);
    hide SetOf, Except;
    forall o | o in entered
      ensures OutputEnter(o) in news
    {
      var i :| 0 <= i < |entered| && entered[i] == o;
      assert news[i] == OutputEnter(o);
    }
    forall o | o in left
      ensures OutputLeave(o) in news
    {
      var i :| 0 <= i < |left| && left[i] == o;
      assert news[|entered| + i] == OutputLeave(o);
    }
  }

  /** Names and states are told exactly if they changed, and one done at the end. */
  lemma NewsOfNames(e: Entry, title: string, appId: string, activated: bool)
    ensures var news := Renames(e, title, appId);
            && (news == [] <==> e.title == title && e.appId == appId)
            && (forall t :: Title(t) in news <==> t == title && e.title != title)
            && (forall a :: AppId(a) in news <==> a == appId && e.appId != appId)
            && (news != [] ==> news[|news| - 1] == Done && Done !in news[..|news| - 1])
    ensures var news := StateNews(e, activated);
            && (news == [] <==> e.activated == activated)
            && (forall a, f :: State(a, f) in news <==> a == activated && f == e.fullscreen && e.activated != activated)
            && (news != [] ==> news[|news| - 1] == Done && Done !in news[..|news| - 1])
  {
    var names, state := Renames(e, title, appId), StateNews(e, activated);
    assert e.title != title ==> names[0] == Title(title);
    assert e.appId != appId ==> names[if e.title != title then 1 else 0] == AppId(appId);
    assert e.activated != activated ==> state[0] == State(activated, e.fullscreen);
  }

  lemma PlacingActivatesNone(toplevels: map<Id, Entry>, outputsFor: Id -> seq<Output>)
    requires OneActivated(toplevels)
    ensures OneActivated(Placed(toplevels, outputsFor))
  {
  }

  /** Any two live handles of a window show the same, however late one came. */
  lemma LateManagersSeeTheSame(toplevels: map<Id, Entry>, sent: map<Handle, seq<Event>>, owner: map<Handle, Id>,
                               id: Id, early: Handle, late: Handle)
    requires AllMirrored(toplevels, sent, owner) && id in toplevels
    requires early in toplevels[id].handles && late in toplevels[id].handles
    ensures early in sent && late in sent
    ensures Replay(sent[early]) == Replay(sent[late]) && Replay(sent[late]).shown == Some(FactsOf(toplevels[id]))
  {
    assert EntryMirrored(id, toplevels[id], sent, owner);
  }
}
