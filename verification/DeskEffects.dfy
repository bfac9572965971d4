/** What events achieve, said of the states before and after them: who gets a
    lock, what is repainted, and that nothing dirty becomes clean but by a
    render. */
module DeskEffects {
  import opened Wrappers
  import opened Desk
  import opened DeskLock
  import opened DeskLoop

  /** Every head that drives a CRTC is going to be repainted. */
  predicate AllDirty(d: Desk) {
    forall c :: c in d.heads && d.Driven(c) ==> d.SurfaceOf(c).dirty
  }

  // ------------------------------------------------------------ who holds the lock

  /** A request takes the session exactly if nobody alive holds it and it does
      not come from the client whose lock was abandoned. Then every receipt is
      void and every head repaints; otherwise nothing but the object itself is
      new. */
  lemma LockGrantedIff(d: Desk, l: LockId, client: Option<ClientId>)
    requires Inv(d) && CanHappen(d, LockRequested(l, client))
    ensures var d', held := Apply(d, LockRequested(l, client)), d.lock.owner.Some? && d.lock.owner.value in d.lock.alive;
            var barred := client.Some? && client == d.lock.ownerClient;
            && (d'.lock.pending == Some(l) <==> !held && !barred)
            && (d'.lock.pending == Some(l) ==>
                  && d'.lock.locked && d'.lock.owner == Some(l) && d'.lock.ownerClient == client
                  && d'.lock.generation > d.lock.generation && d'.lock.presented == []
                  && d'.lock.confirmed == d.lock.confirmed && d'.lock.acknowledged == d.lock.acknowledged
                  && AllDirty(d'))
            && (d'.lock.pending != Some(l) ==>
                  d' == d.(lock := d.lock.(known := d.lock.known + {l}, alive := d.lock.alive + {l})))
            && l in d'.lock.alive && l in d'.lock.known
  {
  }

  /** A live object's request unlocks exactly if it holds the session and was
      told so; then the session is nobody's and every head repaints. */
  lemma UnlockedIff(d: Desk, l: LockId)
    requires Inv(d) && CanHappen(d, UnlockRequested(l)) && d.lock.locked
    ensures var d' := Apply(d, UnlockRequested(l));
            && (!d'.lock.locked <==> d.lock.owner == Some(l) && l in d.lock.acknowledged)
            && (!d'.lock.locked ==>
                  && d'.lock.owner.None? && d'.lock.ownerClient.None? && d'.lock.pending.None? && !d'.lock.confirmed
                  && l !in d'.lock.alive && AllDirty(d'))
            && (d'.lock.locked ==> d' == d)
  {
  }

  /** A check that finds a live owner with every receipt in hand tells it, and
      it alone, that the session is locked; one that finds it dead gives up
      waiting and leaves the session locked; any other changes nothing. */
  lemma CheckedIff(d: Desk)
    requires Inv(d)
    ensures var d', alive := Apply(d, ConfirmChecked), d.lock.owner.Some? && d.lock.owner.value in d.lock.alive;
            var answered := forall c :: c in d.heads && d.heads[c].global && d.heads[c].power.On? ==>
                              d.heads[c].output in d.lock.presented;
            && (d.lock.pending.Some? && alive && !d.paused && answered ==>
                  && d'.lock.acknowledged == d.lock.acknowledged + {d.lock.owner.value}
                  && d'.lock.acknowledged != d.lock.acknowledged
                  && d'.lock.confirmed && d'.lock.pending.None? && d'.lock.locked)
            && (d.lock.pending.Some? && !alive ==>
                  d' == d.(lock := d.lock.(pending := None)) && d'.lock.locked)
            && (d.lock.pending.None? || (alive && (d.paused || !answered)) ==> d' == d)
  {
    assert Ready(d) <==> !d.paused && forall c :: c in d.heads && d.heads[c].global && d.heads[c].power.On? ==>
                                         d.heads[c].output in d.lock.presented by {
      assert forall c :: c in d.heads && d.heads[c].global && d.heads[c].power.On? ==>
                           d.heads[c].output in ConfirmationOutputs(d);
    }
  }

  // ------------------------------------------------------------ heads and the seat

  /** A head that an event on another one may have made dirty, no more. */
  predicate Bystander(h: Head, h': Head) {
    && h'.output == h.output && h'.global == h.global && h'.power == h.power
    && (h'.surface.Some? <==> h.surface.Some?)
    && (h.surface.Some? ==>
          var s, s' := h.surface.value, h'.surface.value;
          && s'.shown == s.shown && s'.flips == s.flips && s'.flipGeneration == s.flipGeneration
          && (s.dirty ==> s'.dirty)
          && (s'.redraw == s.redraw || (s.redraw.Idle? && s'.redraw.Scheduled?)))
  }

  ghost predicate OthersStandBy(d: Desk, d': Desk, c: Crtc) {
    && d.heads.Keys + {c} == d'.heads.Keys + {c}
    && forall k :: k in d.heads && k != c ==> k in d'.heads && Bystander(d.heads[k], d'.heads[k])
  }

  /** A scene change makes exactly the heads it concerns dirty, and has a
      callback queued for each that was at rest on a running seat. */
  lemma SceneChangedDirties(d: Desk, wanted: set<Crtc>)
    ensures var d' := Apply(d, SceneChanged(wanted));
            && d'.heads.Keys == d.heads.Keys && d'.lock == d.lock && d'.paused == d.paused
            && forall c :: c in d.heads ==>
                 && Bystander(d.heads[c], d'.heads[c])
                 && (c !in wanted ==> d'.heads[c] == d.heads[c])
                 && (c in wanted && d.Driven(c) ==>
                       && d'.SurfaceOf(c).dirty
                       && (!d.paused && d.SurfaceOf(c).redraw.Idle? ==>
                             d'.SurfaceOf(c).redraw.Scheduled? && c in d'.loop.idles))
  {
    var d' := Apply(d, SceneChanged(wanted));
    forall c | c in d.heads && c in wanted && d.Driven(c) && !d.paused && d.SurfaceOf(c).redraw.Idle?
      ensures c in d'.loop.idles
    {
      assert c in ToSchedule(d, wanted);
      assert multiset(ToSchedule(d, wanted))[c] == 1;
    }
  }

  lemma InvalidateStandsBy(d: Desk)
    ensures var d' := InvalidatePresentation(d);
            && d'.heads.Keys == d.heads.Keys && d'.paused == d.paused && d'.nextOutput == d.nextOutput
            && forall k :: k in d.heads ==> Bystander(d.heads[k], d'.heads[k])
  {
  }

  lemma RenderStandsBy(d: Desk, c: Crtc, outcome: RenderOutcome)
    ensures var d' := RenderNow(d, c, outcome);
            && d'.heads.Keys == d.heads.Keys && d'.paused == d.paused && d'.lock == d.lock
            && (forall k :: k in d.heads && k != c ==> d'.heads[k] == d.heads[k])
            && (c in d.heads ==> d'.heads[c].(surface := None) == d.heads[c].(surface := None)
                                 && (d'.heads[c].surface.Some? <==> d.heads[c].surface.Some?))
  {
  }

  /** A switch that is not refused ends with the power that was asked for; the
      head stays enabled, and has a CRTC exactly if it is on. */
  lemma SwitchedAsAsked(d: Desk, c: Crtc, on: bool, initOk: bool, outcome: RenderOutcome)
    requires Inv(d)
    ensures var d' := Apply(d, PowerSwitched(c, on, initOk, outcome));
            && (d.Enabled(c) && (on && d.heads[c].power.Off? ==> initOk) ==>
                  && d'.Enabled(c) && d'.heads[c].output == d.heads[c].output
                  && d'.heads[c].power == (if on then On else Off) && (d'.Driven(c) <==> on)
                  && OthersStandBy(d, d', c))
            && (!(d.Enabled(c) && (on && d.heads[c].power.Off? ==> initOk)) ==> d' == d)
  {
    AppliesToHead(d, c, on, initOk, outcome);
    hide Inv, Apply, InvalidatePresentation, PowerOn, PowerOff;
    if CanSwitch(d, c, on, initOk) {
      var switched := if on then PowerOn(d, c, initOk, outcome) else PowerOff(d, c);
      PoweredAsAsked(d, c, on, initOk, outcome);
      InvalidateStandsBy(switched);
      hide Bystander;
      assert OthersStandBy(switched, InvalidatePresentation(switched), c);
      hide OthersStandBy;
      StandByBoth(d, switched, InvalidatePresentation(switched), c);
      SameHead(switched, InvalidatePresentation(switched), c);
    }
  }

  lemma AppliesToHead(d: Desk, c: Crtc, on: bool, initOk: bool, outcome: RenderOutcome)
    ensures Apply(d, PowerSwitched(c, on, initOk, outcome)) == SwitchPower(d, c, on, initOk, outcome)
    ensures Apply(d, HeadConnected(c, initOk, outcome)) ==
            EnableHead(CreateHead(DisconnectHead(d, c), c), c, initOk, outcome)
    ensures Apply(d, HeadDisconnected(c)) == DisconnectHead(d, c)
    ensures Apply(d, HeadEnabled(c, initOk, outcome)) == EnableHead(d, c, initOk, outcome)
  {
    hide SwitchPower, EnableHead, CreateHead, DisconnectHead;
  }

  lemma SameHead(d: Desk, d': Desk, c: Crtc)
    requires c in d.heads && c in d'.heads && Bystander(d.heads[c], d'.heads[c])
    ensures d'.heads[c].output == d.heads[c].output && d'.heads[c].power == d.heads[c].power
    ensures (d'.Enabled(c) <==> d.Enabled(c)) && (d'.Driven(c) <==> d.Driven(c))
  {
  }

  lemma PoweredAsAsked(d: Desk, c: Crtc, on: bool, initOk: bool, outcome: RenderOutcome)
    requires Inv(d) && CanSwitch(d, c, on, initOk)
    ensures var d' := if on then PowerOn(d, c, initOk, outcome) else PowerOff(d, c);
            && d'.Enabled(c) && d'.heads[c].output == d.heads[c].output
            && d'.heads[c].power == (if on then On else Off) && (d'.Driven(c) <==> on)
            && OthersStandBy(d, d', c)
  {
    assert HeadOk(d.heads[c], d.lock);
    if on && d.heads[c].power.Off? {
      RenderStandsBy(d.(heads := d.heads[c := d.heads[c].(power := On, surface := Some(NEW_SURFACE))]), c, outcome);
    }
    hide RenderNow, Inv, HeadOk;
  }

  /** A head that can be brought up is enabled, on, and drives a CRTC. */
  lemma EnabledAsAsked(d: Desk, c: Crtc, initOk: bool, outcome: RenderOutcome)
    requires Inv(d) && c in d.heads
    ensures var d' := Apply(d, HeadEnabled(c, initOk, outcome));
            && d'.heads.Keys == d.heads.Keys && d'.lock == d.lock && OthersStandBy(d, d', c)
            && d'.heads[c].output == d.heads[c].output
            && (d.Enabled(c) ==> d' == d)
            && (!d.Enabled(c) ==> d'.heads[c].power.On? && (d'.Enabled(c) <==> initOk) && (d'.Driven(c) <==> initOk))
  {
    assert HeadOk(d.heads[c], d.lock);
    AppliesToHead(d, c, true, initOk, outcome);
    hide Apply, Inv, HeadOk;
    if !d.Enabled(c) && initOk {
      RenderStandsBy(d.(heads := d.heads[c := Head(d.heads[c].output, true, On, Some(NEW_SURFACE))]), c, outcome);
    }
    hide RenderNow;
  }

  /** A disabled head is kept, dark and with its power state forgotten. */
  lemma DisabledAsAsked(d: Desk, c: Crtc)
    requires Inv(d)
    ensures var d' := Apply(d, HeadDisabled(c));
            && d'.heads.Keys == d.heads.Keys && d'.lock == d.lock && OthersStandBy(d, d', c)
            && !d'.Enabled(c) && !d'.Driven(c)
            && (c in d.heads ==> d'.heads[c] == Head(d.heads[c].output, false, On, None))
  {
    if c in d.heads {
      assert HeadOk(d.heads[c], d.lock);
    }
  }

  /** A connector that goes takes its head with it. */
  lemma DisconnectedIsGone(d: Desk, c: Crtc)
    requires Inv(d)
    ensures var d' := Apply(d, HeadDisconnected(c));
            c !in d'.heads && OthersStandBy(d, d', c) && d'.nextOutput == d.nextOutput
  {
    DisabledAsAsked(d, c);
    var off := DisableHead(d, c);
    InvalidateStandsBy(off.(heads := off.heads - {c}));
    hide InvalidatePresentation, DisableHead, Inv;
  }

  /** A connector that comes is a new output, enabled exactly if its CRTC can
      be initialised. */
  lemma ConnectedIsNew(d: Desk, c: Crtc, initOk: bool, outcome: RenderOutcome)
    requires Inv(d)
    ensures var d' := Apply(d, HeadConnected(c, initOk, outcome));
            && c in d'.heads && d'.heads[c].output == d.nextOutput && d'.nextOutput == d.nextOutput + 1
            && d'.heads[c].power.On? && (d'.Enabled(c) <==> initOk) && (d'.Driven(c) <==> initOk)
            && OthersStandBy(d, d', c)
  {
    var free, dark := DisconnectHead(d, c), CreateHead(DisconnectHead(d, c), c);
    var lit := EnableHead(dark, c, initOk, outcome);
    AppliesToHead(d, c, true, initOk, outcome);
    AppliesToHead(dark, c, true, initOk, outcome);
    hide *;
    DisconnectedIsGone(d, c);
    DisconnectKeeps(d, c);
    CreatedIsDark(free, c);
    CreateKeeps(free, c);
    EnabledAsAsked(dark, c, initOk, outcome);
    EnableKeepsCount(dark, c, initOk, outcome);
    StandByBoth(d, free, dark, c);
    StandByBoth(d, dark, lit, c);
  }

  lemma CreatedIsDark(d: Desk, c: Crtc)
    requires c !in d.heads
    ensures var d' := CreateHead(d, c);
            && OthersStandBy(d, d', c) && d'.nextOutput == d.nextOutput + 1
            && c in d'.heads && d'.heads[c].output == d.nextOutput && !d'.Enabled(c) && !d'.Driven(c)
            && d'.heads[c].power.On?
  {
    InvalidateStandsBy(d.(heads := d.heads[c := Head(d.nextOutput, false, On, None)], nextOutput := d.nextOutput + 1));
    hide InvalidatePresentation;
  }

  lemma StandByBoth(d1: Desk, d2: Desk, d3: Desk, c: Crtc)
    requires OthersStandBy(d1, d2, c) && OthersStandBy(d2, d3, c)
    ensures OthersStandBy(d1, d3, c)
  {
    forall k | k in d1.heads && k != c
      ensures k in d3.heads && Bystander(d1.heads[k], d3.heads[k])
    {
      assert Bystander(d1.heads[k], d2.heads[k]) && Bystander(d2.heads[k], d3.heads[k]);
    }
  }

  lemma EnableKeepsCount(d: Desk, c: Crtc, initOk: bool, outcome: RenderOutcome)
    ensures EnableHead(d, c, initOk, outcome).nextOutput == d.nextOutput
  {
  }

  /** A pause parks every loop and forgets nothing that is dirty. */
  lemma PausedIsParked(d: Desk)
    ensures var d' := Apply(d, SessionPaused);
            && d'.paused && d'.heads.Keys == d.heads.Keys
            && forall c :: d.Driven(c) ==>
                 && d'.Driven(c) && d'.SurfaceOf(c).redraw.Idle? && d'.SurfaceOf(c).flips == d.SurfaceOf(c).flips
                 && (d.SurfaceOf(c).dirty ==> d'.SurfaceOf(c).dirty)
  {
    InvalidateStandsBy(d);
    hide InvalidatePresentation;
  }

  // ------------------------------------------------------------ what a render is

  /** The frame shows what the lock demands. */
  predicate Fits(f: Frame, lock: Lock) {
    if lock.locked then f.content.LockScene? && f.receipt == Some(lock.generation)
    else f.content.Desktop? && f.receipt.None?
  }

  /** Between these states head c was rendered with this outcome: it waits for a
      timer that is new, for its vblank under a watchdog exactly if a frame was
      queued, and that frame is its newest and shows what the lock demands; it
      is clean unless the render failed. */
  predicate RenderedWith(d: Desk, d': Desk, c: Crtc, outcome: RenderOutcome) {
    && d'.Driven(c)
    && var s := d'.SurfaceOf(c);
       && s.redraw.Stored().Some? && s.redraw.Stored().value >= d.loop.nextToken
       && s.redraw.Stored().value in d'.loop.timers
       && d'.loop.timers[s.redraw.Stored().value] == Timer(if outcome.Queued? then Watchdog else RateLimit, c)
       && (s.redraw.WaitingForVblank? <==> outcome.Queued?)
       && (s.dirty <==> outcome.QueueFailed? || outcome.RenderFailed?)
       && (outcome.Queued? ==>
             && s.flips != [] && Fits(s.flips[|s.flips| - 1], d'.lock)
             && s.flips[|s.flips| - 1].flip == s.flipGeneration)
  }

  lemma RenderIsOne(d: Desk, c: Crtc, outcome: RenderOutcome)
    requires d.Enabled(c) && d.Driven(c)
    ensures RenderedWith(d, RenderNow(d, c, outcome), c, outcome)
    ensures RenderNow(d, c, outcome).loop.nextToken == d.loop.nextToken + 1
  {
  }

  /** Everything that is due is rendered: a scheduled head when its callback
      runs, a head whose watchdog fires, a dirty one whose rate limit is over,
      a dirty one whose awaited flip completes, and any on demand. */
  predicate Due(d: Desk, e: Event, c: Crtc)
    requires CanHappen(d, e)
  {
    && d.Driven(c) && d.Enabled(c)
    && var s := d.SurfaceOf(c);
       match e
       case IdleDue(k, _) => k == c && s.redraw.Scheduled?
       case TimerDue(t, _) =>
         && d.loop.timers[t].crtc == c && s.redraw.Stored() == Some(t)
         && if d.loop.timers[t].kind.Watchdog? then s.redraw.WaitingForVblank? else s.redraw.WaitingForTimer? && s.dirty
       case Vblank(k, submitOk, _) =>
         k == c && s.redraw.WaitingForVblank? && s.dirty && !Stale(FrameSubmitted(s, submitOk).0, s)
       case RenderForced(k, _) => k == c
       case SessionResumed(_, _, _) => true
       case _ => false
  }

  function OutcomeOf(e: Event, c: Crtc): RenderOutcome {
    match e
    case IdleDue(_, outcome) => outcome
    case TimerDue(_, outcome) => outcome
    case Vblank(_, _, outcome) => outcome
    case RenderForced(_, outcome) => outcome
    case SessionResumed(_, _, outcomes) => if c in outcomes then outcomes[c] else NoDamage
    case _ => NoDamage
  }

  lemma WatchdogRenders(d: Desk, t: Token, outcome: RenderOutcome)
    requires LoopInv(d) && t in d.loop.timers && Due(d, TimerDue(t, outcome), d.loop.timers[t].crtc)
    ensures RenderedWith(d, TimerFired(d, t, outcome), d.loop.timers[t].crtc, outcome)
  {
    assert TimerKept(d, t);
    var c := d.loop.timers[t].crtc;
    var s := d.SurfaceOf(c);
    var idle := d.With(c, if d.loop.timers[t].kind.Watchdog? then s.(redraw := Idle, dirty := true) else s.(redraw := Idle));
    RenderIsOne(idle, c, outcome);
    hide LoopInv, RenderNow;
  }

  lemma VblankRenders(d: Desk, c: Crtc, submitOk: bool, outcome: RenderOutcome)
    requires LoopInv(d) && Due(d, Vblank(c, submitOk, outcome), c)
    ensures RenderedWith(d, FrameFinish(d, c, submitOk, outcome), c, outcome)
  {
    var submitted := SubmitFrame(d, c, submitOk);
    var s := submitted.SurfaceOf(c);
    assert s.redraw == d.SurfaceOf(c).redraw && s.dirty;
    var freed := submitted.With(c, s.(redraw := Idle)).WithTimers(submitted.loop.timers - {s.redraw.watchdog});
    RenderIsOne(freed, c, outcome);
    hide LoopInv, RenderNow;
  }

  lemma RepaintKeepsRendered(d0: Desk, d: Desk, k: Crtc, outcome: RenderOutcome, c: Crtc, wanted: RenderOutcome)
    requires TimersMatch(d) && d0.loop.nextToken <= d.loop.nextToken && (k == c ==> outcome == wanted)
    requires d.Driven(c) && d.Enabled(c) && (RenderedWith(d0, d, c, wanted) || k == c)
    ensures var d' := RepaintNow(d, k, outcome);
            && RenderedWith(d0, d', c, wanted) && d0.loop.nextToken <= d'.loop.nextToken
            && d'.Enabled(c) && d'.lock == d.lock
  {
    var dirtied := if d.Driven(k) then d.With(k, d.SurfaceOf(k).(dirty := true)) else d;
    if k == c {
      RenderIsOne(dirtied, c, outcome);
    } else if d.Driven(k) {
      assert d.SurfaceOf(k).redraw.Stored().Some? ==> d.loop.timers[d.SurfaceOf(k).redraw.Stored().value].crtc == k;
    }
  }

  lemma {:induction false} RepaintsAll(d0: Desk, d: Desk, order: seq<Crtc>, left: seq<Crtc>,
                                       outcomes: map<Crtc, RenderOutcome>, c: Crtc)
    requires Resuming(d, left) && order == left && (forall k :: k in order ==> k in outcomes)
    requires d0.loop.nextToken <= d.loop.nextToken && d.Driven(c) && d.Enabled(c) && c in outcomes
    requires c in order || RenderedWith(d0, d, c, outcomes[c])
    ensures RenderedWith(d0, RepaintAll(d, order, outcomes), c, outcomes[c])
    decreases |order|
  {
    if order != [] {
      var k, next := order[0], RepaintNow(d, order[0], outcomes[order[0]]);
      assert order == [k] + order[1..];
      RepaintLoopsOne(d, order, outcomes[k]);
      if k == c || RenderedWith(d0, d, c, outcomes[c]) {
        RepaintKeepsRendered(d0, d, k, outcomes[k], c, outcomes[c]);
      } else {
        RepaintStandsBy(d, k, outcomes[k], c);
      }
      RepaintsAll(d0, next, order[1..], left[1..], outcomes, c);
    }
  }

  lemma RepaintStandsBy(d: Desk, k: Crtc, outcome: RenderOutcome, c: Crtc)
    requires d.Driven(c) && d.Enabled(c)
    ensures var d' := RepaintNow(d, k, outcome);
            d'.Driven(c) && d'.Enabled(c) && d.loop.nextToken <= d'.loop.nextToken
  {
  }

  /** A resume renders every enabled head afresh. */
  lemma ResumeRenders(d: Desk, lost: set<Crtc>, order: seq<Crtc>, outcomes: map<Crtc, RenderOutcome>, c: Crtc)
    requires LoopInv(d) && CanHappen(d, SessionResumed(lost, order, outcomes)) && d.Driven(c) && d.Enabled(c)
    ensures RenderedWith(d, Resume(d, lost, order, outcomes), c, outcomes[c])
  {
    var active := Activated(d, lost);
    ActivatedResumes(d, lost, order);
    if active.lock.pending.Some? {
      LockDoesNotResume(active, ResetPresentation(active.lock), order);
      ScheduleResumes(active.(lock := ResetPresentation(active.lock)), order, active.heads.Keys);
    }
    var ready := InvalidatePresentation(active);
    InvalidateStandsBy(active);
    assert ready.loop.nextToken == d.loop.nextToken;
    assert active.Driven(c) && active.Enabled(c) && c in order;
    hide LoopInv, Resuming, InvalidatePresentation, RepaintAll;
    RepaintsAll(d, ready, order, order, outcomes, c);
  }

  lemma DueIsRendered(d: Desk, e: Event, c: Crtc)
    requires LoopInv(d) && CanHappen(d, e) && Due(d, e, c)
    ensures RenderedWith(d, Apply(d, e), c, OutcomeOf(e, c))
  {
    match e
    case IdleDue(k, outcome) => RenderIsOne(d.(loop := d.loop.(idles := d.loop.idles - multiset{c})), c, outcome);
    case TimerDue(t, outcome) => WatchdogRenders(d, t, outcome);
    case Vblank(k, submitOk, outcome) => VblankRenders(d, c, submitOk, outcome);
    case RenderForced(k, outcome) => RenderIsOne(d, c, outcome);
    case SessionResumed(lost, order, outcomes) => ResumeRenders(d, lost, order, outcomes, c);
    case _ =>
  }

  // ------------------------------------------------------------ nothing dirty is forgotten

  /** The same head, driven before and after, lost its dirt in between. */
  predicate Cleaned(d: Desk, d': Desk, c: Crtc) {
    && d.Driven(c) && d'.Driven(c) && d.heads[c].output == d'.heads[c].output
    && d.SurfaceOf(c).dirty && !d'.SurfaceOf(c).dirty
  }

  lemma LockEventsCleanNone(d: Desk, e: Event, c: Crtc)
    requires Inv(d) && CanHappen(d, e)
    requires e.LockRequested? || e.UnlockRequested? || e.ObjectsDied? || e.ConfirmChecked?
    ensures !Cleaned(d, Apply(d, e), c)
  {
    match e
    case LockRequested(l, client) => LockGrantedIff(d, l, client);
    case UnlockRequested(l) => UnlockKeepsDirt(d, l, c);
    case ConfirmChecked =>
    case ObjectsDied(_) =>
  }

  lemma UnlockKeepsDirt(d: Desk, l: LockId, c: Crtc)
    ensures !Cleaned(d, RequestUnlock(d, l).0, c)
  {
  }

  lemma HeadEventsCleanNone(d: Desk, e: Event, c: Crtc)
    requires Inv(d) && CanHappen(d, e)
    requires e.HeadConnected? || e.HeadDisconnected? || e.HeadEnabled? || e.HeadDisabled? || e.PowerSwitched?
    ensures !Cleaned(d, Apply(d, e), c)
  {
    var d' := Apply(d, e);
    if d.Driven(c) {
      assert HeadOk(d.heads[c], d.lock);
      assert d.heads[c].output < d.nextOutput;
      match e
      case HeadConnected(k, initOk, outcome) => ConnectedIsNew(d, k, initOk, outcome);
      case HeadDisconnected(k) => DisconnectedIsGone(d, k);
      case HeadEnabled(k, initOk, outcome) => EnableCleansNone(d, k, initOk, outcome, c);
      case HeadDisabled(k) => DisabledAsAsked(d, k);
      case PowerSwitched(k, on, initOk, outcome) => SwitchCleansNone(d, k, on, initOk, outcome, c);
    }
  }

  lemma EnableCleansNone(d: Desk, k: Crtc, initOk: bool, outcome: RenderOutcome, c: Crtc)
    requires Inv(d) && d.Driven(c)
    ensures !Cleaned(d, EnableHead(d, k, initOk, outcome), c)
  {
    assert HeadOk(d.heads[c], d.lock);
    if k in d.heads {
      EnabledAsAsked(d, k, initOk, outcome);
      assert Apply(d, HeadEnabled(k, initOk, outcome)) == EnableHead(d, k, initOk, outcome);
    }
    hide EnableHead, Inv;
  }

  lemma SwitchCleansNone(d: Desk, k: Crtc, on: bool, initOk: bool, outcome: RenderOutcome, c: Crtc)
    requires Inv(d) && d.Driven(c)
    ensures !Cleaned(d, SwitchPower(d, k, on, initOk, outcome), c)
  {
    assert HeadOk(d.heads[c], d.lock);
    SwitchedAsAsked(d, k, on, initOk, outcome);
    assert Apply(d, PowerSwitched(k, on, initOk, outcome)) == SwitchPower(d, k, on, initOk, outcome);
    if k == c && on && CanSwitch(d, k, on, initOk) {
      InvalidateStandsBy(d);
      assert SwitchPower(d, k, on, initOk, outcome) == InvalidatePresentation(d);
    }
    hide SwitchPower, InvalidatePresentation, Inv;
  }

  lemma LoopEventsCleanDue(d: Desk, e: Event, c: Crtc)
    requires LoopInv(d) && CanHappen(d, e)
    requires e.IdleDue? || e.TimerDue? || e.Vblank? || e.RenderForced?
    requires Cleaned(d, Apply(d, e), c)
    ensures Due(d, e, c)
  {
    match e
    case TimerDue(t, outcome) => TimerCleansDue(d, t, outcome, c);
    case Vblank(k, submitOk, outcome) => VblankCleansDue(d, k, submitOk, outcome, c);
    case _ => LoopsOf(d, c);
  }

  lemma TimerCleansDue(d: Desk, t: Token, outcome: RenderOutcome, c: Crtc)
    requires LoopInv(d) && t in d.loop.timers && Cleaned(d, TimerFired(d, t, outcome), c)
    ensures Due(d, TimerDue(t, outcome), c)
  {
    LoopsOf(d, c);
    assert TimerKept(d, t);
    hide LoopInv;
  }

  lemma VblankCleansDue(d: Desk, k: Crtc, submitOk: bool, outcome: RenderOutcome, c: Crtc)
    requires LoopInv(d) && CanHappen(d, Vblank(k, submitOk, outcome))
    requires Cleaned(d, FrameFinish(d, k, submitOk, outcome), c)
    ensures Due(d, Vblank(k, submitOk, outcome), c)
  {
    LoopsOf(d, c);
    hide LoopInv;
    if k == c {
      hide RenderNow;
    }
  }

  /** Whatever happens, a head that was dirty is clean afterwards only if it was
      due and was rendered: nothing that has to be shown is forgotten. */
  lemma CleanedByRender(d: Desk, e: Event, c: Crtc)
    requires Inv(d) && LoopInv(d) && CanHappen(d, e) && Cleaned(d, Apply(d, e), c)
    ensures Due(d, e, c) && RenderedWith(d, Apply(d, e), c, OutcomeOf(e, c))
    ensures OutcomeOf(e, c).Queued? || OutcomeOf(e, c).NoDamage?
  {
    if e.LockRequested? || e.UnlockRequested? || e.ObjectsDied? || e.ConfirmChecked? {
      LockEventsCleanNone(d, e, c);
    } else if e.HeadConnected? || e.HeadDisconnected? || e.HeadEnabled? || e.HeadDisabled? || e.PowerSwitched? {
      HeadEventsCleanNone(d, e, c);
    } else if e.IdleDue? || e.TimerDue? || e.Vblank? || e.RenderForced? {
      LoopEventsCleanDue(d, e, c);
    } else {
      OtherEventsCleanDue(d, e, c);
    }
    hide Apply, Due, Inv, LoopInv;
    DueIsRendered(d, e, c);
  }

  lemma OtherEventsCleanDue(d: Desk, e: Event, c: Crtc)
    requires LoopInv(d) && CanHappen(d, e) && Cleaned(d, Apply(d, e), c)
    requires e.SceneChanged? || e.SessionPaused? || e.SessionResumed? || e.OutputsConfigured?
    ensures Due(d, e, c)
  {
    LoopsOf(d, c);
    match e
    case SceneChanged(wanted) => SceneChangedDirties(d, wanted);
    case SessionPaused => PausedIsParked(d);
    case OutputsConfigured => InvalidateStandsBy(d);
    case SessionResumed(_, _, _) =>
  }

  /** Over any stretch of an orderly run in which a head stays driven: if it was
      dirty at its start and is clean at its end, some event in between was due
      and rendered it. */
  lemma {:induction false} CleanedInRun(states: seq<Desk>, events: seq<Event>, i: nat, j: nat, c: Crtc) returns (k: nat)
    requires IsRun(states, events) && forall n :: 0 <= n < |events| ==> Orderly(states[n], events[n])
    requires i <= j < |states| && Cleaned(states[i], states[j], c)
    requires forall n :: i <= n <= j ==> states[n].Driven(c) && states[n].heads[c].output == states[i].heads[c].output
    ensures i <= k < j && Due(states[k], events[k], c)
    ensures RenderedWith(states[k], states[k + 1], c, OutcomeOf(events[k], c))
    decreases j - i
  {
    assert |states| == |events| + 1;
    hide IsRun, Orderly, CanHappen, Apply, Due, RenderedWith, OutcomeOf;
    if states[j - 1].SurfaceOf(c).dirty {
      k := j - 1;
      assert Cleaned(states[k], states[k + 1], c);
      hide *;
      CleanedByStep(states, events, k, c);
    } else {
      assert Cleaned(states[i], states[j - 1], c);
      hide *;
      k := CleanedInRun(states, events, i, j - 1, c);
    }
  }

  lemma CleanedByStep(states: seq<Desk>, events: seq<Event>, k: nat, c: Crtc)
    requires IsRun(states, events) && forall n :: 0 <= n < |events| ==> Orderly(states[n], events[n])
    requires k < |events| && Cleaned(states[k], states[k + 1], c)
    ensures CanHappen(states[k], events[k]) && Due(states[k], events[k], c)
    ensures RenderedWith(states[k], states[k + 1], c, OutcomeOf(events[k], c))
  {
    RunKeeps(states, events);
    RunLoops(states, events);
    assert states[k + 1] == Apply(states[k], events[k]) && CanHappen(states[k], events[k]);
    hide *;
    CleanedByRender(states[k], events[k], c);
  }

  // ------------------------------------------------------------ a session locked and unlocked

  const DESKTOP_FRAME := Frame(Desktop, 1, None)
  const LOCK_FRAME := Frame(LockScene, 2, Some(1))

  /** A head comes up, a client locks while a desktop frame is in flight, the
      lock scene is rendered and shown, the lock is acknowledged and released. */
  function LockStage(k: nat): Desk {
    var asked := Lock(true, Some(1), Some(7), Some(1), false, 1, [], {1}, {1}, {});
    match k
    case 0 => START
    case 1 => OneHead(Surface(BLANK, [DESKTOP_FRAME], false, WaitingForVblank(0), 1), map[0 := Timer(Watchdog, 0)], 1)
    case 2 =>
      OneHead(Surface(BLANK, [DESKTOP_FRAME], true, WaitingForVblank(0), 1), map[0 := Timer(Watchdog, 0)], 1).(lock := asked)
    case 3 =>
      OneHead(Surface(DESKTOP_FRAME, [LOCK_FRAME], false, WaitingForVblank(1), 2), map[1 := Timer(Watchdog, 0)], 2)
        .(lock := asked)
    case 4 => OneHead(Surface(LOCK_FRAME, [], false, Idle, 2), map[], 2).(lock := asked.(presented := [0]))
    case 5 =>
      OneHead(Surface(LOCK_FRAME, [], false, Idle, 2), map[], 2)
        .(lock := asked.(presented := [0], pending := None, confirmed := true, acknowledged := {1}))
    case _ =>
      var d := OneHead(Surface(LOCK_FRAME, [], true, Scheduled, 2), map[], 2);
      d.(lock := Lock(false, None, None, None, false, 1, [0], {1}, {}, {1}), loop := d.loop.(idles := multiset{0}))
  }

  function LockEvent(k: nat): Event {
    match k
    case 0 => HeadConnected(0, true, Queued)
    case 1 => LockRequested(1, Some(7))
    case 2 => Vblank(0, true, Queued)
    case 3 => Vblank(0, true, Queued)
    case 4 => ConfirmChecked
    case _ => UnlockRequested(1)
  }

  lemma LockStageStep(k: nat)
    requires k < 6
    ensures CanHappen(LockStage(k), LockEvent(k)) && Apply(LockStage(k), LockEvent(k)) == LockStage(k + 1)
  {
    match k
    case 0 => StrandedConnect();
    case 1 => LockStageLocks();
    case 2 => LockStageRenders();
    case 3 => LockStagePresents();
    case 4 => LockStageConfirms();
    case _ => LockStageUnlocks();
  }

  lemma LockStageLocks()
    ensures Apply(LockStage(1), LockRequested(1, Some(7))) == LockStage(2)
  {
    assert ToSchedule(LockStage(1), {0}) == {};
    assert LockStage(1).heads.Keys == {0};
  }

  lemma LockStageRenders()
    ensures Apply(LockStage(2), Vblank(0, true, Queued)) == LockStage(3)
  {
    var s := LockStage(2).SurfaceOf(0);
    assert s.flips[1..] == [];
    assert FrameSubmitted(s, true) == (Completed(DESKTOP_FRAME), s.(shown := DESKTOP_FRAME, flips := []));
    var freed := OneHead(Surface(DESKTOP_FRAME, [], true, Idle, 1), map[], 1).(lock := LockStage(2).lock);
    var submitted := SubmitFrame(LockStage(2), 0, true);
    assert submitted.SurfaceOf(0) == Surface(DESKTOP_FRAME, [], true, WaitingForVblank(0), 1);
    assert submitted.loop.timers - {0} == map[];
    assert EndFlip(submitted, 0, Queued) == RenderNow(freed, 0, Queued);
    assert RenderedSurface(freed.SurfaceOf(0), freed.lock, 1, Queued) ==
           Surface(DESKTOP_FRAME, [LOCK_FRAME], false, WaitingForVblank(1), 2);
  }

  lemma LockStagePresents()
    ensures Apply(LockStage(3), Vblank(0, true, Queued)) == LockStage(4)
  {
    var s := LockStage(3).SurfaceOf(0);
    assert s.flips[1..] == [];
    assert FrameSubmitted(s, true) == (Completed(LOCK_FRAME), s.(shown := LOCK_FRAME, flips := []));
  }

  lemma LockStageConfirms()
    ensures Apply(LockStage(4), ConfirmChecked) == LockStage(5)
  {
    var d := LockStage(4);
    assert forall c :: c in d.heads ==> c == 0;
    assert Ready(d);
  }

  lemma LockStageUnlocks()
    ensures Apply(LockStage(5), UnlockRequested(1)) == LockStage(6)
  {
    assert ToSchedule(LockStage(5), {0}) == {0};
    assert LockStage(5).heads.Keys == {0};
  }

  /** The barrier is not empty: this run locks, is acknowledged behind the lock
      scene, and unlocks. */
  lemma LockedRun() returns (states: seq<Desk>, events: seq<Event>)
    ensures IsRun(states, events) && |events| == 6
    ensures states[2].lock.pending == Some(1) && states[2].lock.locked
    ensures states[4].lock.acknowledged == {} && states[5].lock.acknowledged == {1} && states[5].lock.confirmed
    ensures states[5].Driven(0) && states[5].SurfaceOf(0).shown.content.LockScene?
    ensures !states[6].lock.locked
  {
    states := seq(7, k requires 0 <= k < 7 => LockStage(k));
    events := seq(6, k requires 0 <= k < 6 => LockEvent(k));
    assert states[0] == START && states[2] == LockStage(2) && states[4] == LockStage(4);
    assert states[5] == LockStage(5) && states[6] == LockStage(6);
    hide LockStage, Apply, CanHappen;
    forall i | 0 <= i < 6
      ensures CanHappen(states[i], events[i]) && states[i + 1] == Apply(states[i], events[i])
    {
      LockStageStep(i);
    }
  }
}
