/** The lock barrier and lock ownership over whole runs of a Desk. */
module DeskLock {
  import opened Wrappers
  import opened Desk

  // ------------------------------------------------------------ invariants

  /** A frame is stamped exactly when it shows the lock scene, never with a
      generation that has not been reached. */
  ghost predicate Stamped(f: Frame, generation: nat) {
    && (f.receipt.Some? <==> f.content.LockScene?)
    && (f.receipt.Some? ==> f.receipt.value <= generation)
  }

  ghost predicate Current(f: Frame, lock: Lock) { f.receipt == Some(lock.generation) }

  /** What a CRTC shows and will show. While locked, nothing but current lock
      frames follows a current lock frame; a held receipt means the screen is
      blank or current and everything queued is current; once confirmed no
      desktop frame is shown or queued. */
  ghost predicate TimelineOk(t: seq<Frame>, lock: Lock, held: bool) {
    && |t| > 0
    && (forall i :: 0 <= i < |t| ==> Stamped(t[i], lock.generation))
    && (forall i :: 1 <= i < |t| ==> t[i].content.Desktop? || t[i].content.LockScene?)
    && (lock.locked ==> forall i, j :: 0 <= i < j < |t| && Current(t[i], lock) ==> Current(t[j], lock))
    && (lock.pending.Some? && held ==>
          && (t[0].content.Blank? || Current(t[0], lock))
          && forall i :: 1 <= i < |t| ==> Current(t[i], lock))
    && (lock.confirmed ==> forall i :: 0 <= i < |t| ==> !t[i].content.Desktop?)
  }

  ghost predicate LockOk(lock: Lock) {
    && (lock.locked <==> lock.owner.Some?)
    && (lock.pending.Some? ==> lock.locked && lock.owner == lock.pending && lock.pending.value !in lock.acknowledged)
    && (lock.confirmed ==> lock.locked)
    && (lock.locked && lock.pending.None? && lock.OwnerAlive() ==> lock.owner.value in lock.acknowledged)
    && (lock.owner.Some? ==> lock.owner.value in lock.known)
    && lock.acknowledged <= lock.known
    && lock.alive <= lock.known
  }

  ghost predicate HeadOk(h: Head, lock: Lock) {
    && (h.surface.Some? <==> h.global && h.power.On?)
    && (!h.global ==> h.power.On?)
    && (h.surface.Some? ==> TimelineOk(h.surface.value.Timeline(), lock, h.output in lock.presented))
  }

  ghost predicate OutputsOk(d: Desk) {
    && (forall o :: o in d.lock.presented ==> o < d.nextOutput)
    && (forall c :: c in d.heads ==> d.heads[c].output < d.nextOutput)
    && (forall c, c' :: c in d.heads && c' in d.heads && c != c' ==> d.heads[c].output != d.heads[c'].output)
  }

  ghost predicate Inv(d: Desk) {
    LockOk(d.lock) && OutputsOk(d) && forall c :: c in d.heads ==> HeadOk(d.heads[c], d.lock)
  }

  // ------------------------------------------------------------ timelines

  lemma TimelineGrows(t: seq<Frame>, lock: Lock, held: bool, k: nat, flip: nat)
    requires LockOk(lock) && TimelineOk(t, lock, held) && 1 <= k <= |t|
    ensures TimelineOk(t[..k] + [RenderedFrame(lock, flip)], lock, held)
  {
  }

  lemma TimelineAdvances(t: seq<Frame>, lock: Lock, held: bool, k: nat)
    requires TimelineOk(t, lock, held) && 2 <= |t| && 1 < k <= |t|
    ensures TimelineOk(t[1..k], lock, held)
  {
  }

  /** The receipt of a current frame may be recorded: what follows it is current. */
  lemma TimelineAcknowledged(t: seq<Frame>, lock: Lock, held: bool)
    requires LockOk(lock) && lock.locked && TimelineOk(t, lock, held) && Current(t[0], lock)
    ensures TimelineOk(t, lock, true)
  {
  }

  /** A new generation voids every receipt. */
  lemma TimelineReset(t: seq<Frame>, lock: Lock, held: bool, lock': Lock)
    requires TimelineOk(t, lock, held) && lock'.generation > lock.generation
    requires lock'.confirmed ==> lock.confirmed
    ensures TimelineOk(t, lock', false)
  {
  }

  lemma SurfaceRendered(s: Surface, lock: Lock, held: bool, token: Token, outcome: RenderOutcome)
    requires LockOk(lock) && TimelineOk(s.Timeline(), lock, held)
    ensures TimelineOk(RenderedSurface(s, lock, token, outcome).Timeline(), lock, held)
  {
    var s' := RenderedSurface(s, lock, token, outcome);
    if outcome.Queued? {
      var t, f := s.Timeline(), RenderedFrame(lock, s.flipGeneration + 1);
      var k := if |s.flips| < 2 then |t| else 2;
      assert s'.Timeline() == t[..k] + [f];
      TimelineGrows(t, lock, held, k, s.flipGeneration + 1);
    } else {
      assert s'.Timeline() == s.Timeline();
    }
  }

  lemma SurfaceSubmitted(s: Surface, lock: Lock, held: bool, submitOk: bool)
    requires LockOk(lock) && TimelineOk(s.Timeline(), lock, held)
    ensures var (completion, s') := FrameSubmitted(s, submitOk);
            && TimelineOk(s'.Timeline(), lock, held)
            && (completion.Completed? ==> s'.shown == completion.frame)
  {
    var t := s.Timeline();
    var (completion, s') := FrameSubmitted(s, submitOk);
    if s.flips != [] {
      var k := if submitOk || |s.flips| == 1 then |t| else 2;
      TimelineAdvances(t, lock, held, k);
      assert s'.Timeline() == t[1..k];
    }
  }

  // ------------------------------------------------------------ every event keeps it

  lemma RenderKeeps(d: Desk, c: Crtc, outcome: RenderOutcome)
    requires Inv(d)
    ensures Inv(RenderNow(d, c, outcome)) && RenderNow(d, c, outcome).lock == d.lock
  {
    if d.Enabled(c) && d.Driven(c) {
      SurfaceRendered(d.SurfaceOf(c), d.lock, d.heads[c].output in d.lock.presented, d.loop.nextToken, outcome);
    }
  }

  lemma ScheduleKeeps(d: Desk, wanted: set<Crtc>)
    requires Inv(d)
    ensures Inv(Schedule(d, wanted)) && Schedule(d, wanted).lock == d.lock
  {
    var d' := Schedule(d, wanted);
    forall c | c in d'.heads
      ensures HeadOk(d'.heads[c], d'.lock)
    {
      if d.Driven(c) {
        assert d'.SurfaceOf(c).Timeline() == d.SurfaceOf(c).Timeline();
      }
    }
  }

  /** A surface whose redraw state alone changes. */
  lemma RedrawKeeps(d: Desk, c: Crtc, s: Surface)
    requires Inv(d) && d.Driven(c) && s.Timeline() == d.SurfaceOf(c).Timeline()
    ensures Inv(d.With(c, s))
  {
  }

  lemma SubmitKeeps(d: Desk, c: Crtc, submitOk: bool)
    requires Inv(d) && d.Driven(c)
    ensures Inv(SubmitFrame(d, c, submitOk)) && SubmitFrame(d, c, submitOk).Driven(c)
  {
    var (completion, s) := FrameSubmitted(d.SurfaceOf(c), submitOk);
    SurfaceSubmitted(d.SurfaceOf(c), d.lock, d.heads[c].output in d.lock.presented, submitOk);
    HeadKeeps(d, c, d.heads[c].(surface := Some(s)));
    AcknowledgeKeeps(d.With(c, s), c, completion);
  }

  lemma EndFlipKeeps(d: Desk, c: Crtc, outcome: RenderOutcome)
    requires Inv(d) && d.Driven(c)
    ensures Inv(EndFlip(d, c, outcome)) && EndFlip(d, c, outcome).lock == d.lock
  {
    var s := d.SurfaceOf(c);
    var idle := d.With(c, s.(redraw := Idle));
    RedrawKeeps(d, c, s.(redraw := Idle));
    if s.redraw.WaitingForVblank? {
      TimersKeep(idle, d.loop.timers - {s.redraw.watchdog});
      RenderKeeps(idle.WithTimers(d.loop.timers - {s.redraw.watchdog}), c, outcome);
    }
  }

  lemma FinishKeeps(d: Desk, c: Crtc, submitOk: bool, outcome: RenderOutcome)
    requires Inv(d)
    ensures Inv(FrameFinish(d, c, submitOk, outcome))
  {
    if d.Driven(c) {
      SubmitKeeps(d, c, submitOk);
      EndFlipKeeps(SubmitFrame(d, c, submitOk), c, outcome);
    }
  }

  lemma AcknowledgeKeeps(d: Desk, c: Crtc, completion: Completion)
    requires Inv(d) && d.Driven(c) && (completion.Completed? ==> d.SurfaceOf(c).shown == completion.frame)
    ensures Inv(d.(lock := Acknowledge(d.lock, d.heads[c].output, completion)))
  {
    var lock' := Acknowledge(d.lock, d.heads[c].output, completion);
    if lock' != d.lock {
      var t := d.SurfaceOf(c).Timeline();
      assert t[0] == completion.frame && Current(t[0], d.lock);
      TimelineAcknowledged(t, d.lock, false);
      forall k | k in d.heads
        ensures HeadOk(d.heads[k], lock')
      {
        assert HeadOk(d.heads[k], d.lock);
        if k != c {
          assert d.heads[k].output != d.heads[c].output;
        }
      }
    }
  }

  lemma TimersKeep(d: Desk, timers: map<Token, Timer>)
    requires Inv(d)
    ensures Inv(d.WithTimers(timers))
  {
  }

  lemma WatchdogKeeps(d: Desk, c: Crtc, outcome: RenderOutcome)
    requires Inv(d)
    ensures Inv(WatchdogFired(d, c, outcome)) && WatchdogFired(d, c, outcome).lock == d.lock
  {
    if d.Driven(c) {
      var s := d.SurfaceOf(c).(redraw := Idle, dirty := true);
      RedrawKeeps(d, c, s);
      RenderKeeps(d.With(c, s), c, outcome);
    }
  }

  lemma RateLimitKeeps(d: Desk, c: Crtc, outcome: RenderOutcome)
    requires Inv(d)
    ensures Inv(RateLimitFired(d, c, outcome)) && RateLimitFired(d, c, outcome).lock == d.lock
  {
    if d.Driven(c) {
      var s := d.SurfaceOf(c).(redraw := Idle);
      RedrawKeeps(d, c, s);
      RenderKeeps(d.With(c, s), c, outcome);
    }
  }

  lemma TimerKeeps(d: Desk, t: Token, outcome: RenderOutcome)
    requires Inv(d) && t in d.loop.timers
    ensures Inv(TimerFired(d, t, outcome)) && TimerFired(d, t, outcome).lock == d.lock
  {
    hide WatchdogFired, RateLimitFired;
    var c := d.loop.timers[t].crtc;
    WatchdogKeeps(d, c, outcome);
    RateLimitKeeps(d, c, outcome);
  }

  /** The lock moves to a new generation with no receipts. */
  lemma ResetKeeps(d: Desk, lock': Lock)
    requires Inv(d) && LockOk(lock') && lock'.generation > d.lock.generation && lock'.presented == []
    requires lock'.confirmed ==> d.lock.confirmed
    ensures Inv(d.(lock := lock'))
  {
    forall c | c in d.heads
      ensures HeadOk(d.heads[c], lock')
    {
      assert HeadOk(d.heads[c], d.lock);
      if d.Driven(c) {
        TimelineReset(d.SurfaceOf(c).Timeline(), d.lock, d.heads[c].output in d.lock.presented, lock');
      }
    }
  }

  /** The same lock holder in the same standing. */
  ghost predicate SameHolder(l: Lock, l': Lock) {
    && l'.locked == l.locked && l'.owner == l.owner && l'.ownerClient == l.ownerClient
    && l'.pending == l.pending && l'.confirmed == l.confirmed
    && l'.known == l.known && l'.alive == l.alive && l'.acknowledged == l.acknowledged
  }

  /** The receipts of a pending lock count no more; another lock has none to lose. */
  ghost predicate Voided(l: Lock, l': Lock) {
    if l.pending.Some? then l'.presented == [] && l'.generation > l.generation
    else l'.presented == l.presented && l'.generation == l.generation
  }

  lemma InvalidateKeeps(d: Desk)
    requires Inv(d)
    ensures Inv(InvalidatePresentation(d)) && SameHolder(d.lock, InvalidatePresentation(d).lock)
    ensures Voided(d.lock, InvalidatePresentation(d).lock)
    ensures InvalidatePresentation(d).nextOutput == d.nextOutput && InvalidatePresentation(d).heads.Keys == d.heads.Keys
  {
    if d.lock.pending.Some? {
      ResetKeeps(d, ResetPresentation(d.lock));
      ScheduleKeeps(d.(lock := ResetPresentation(d.lock)), d.heads.Keys);
    }
  }

  lemma LockKeeps(d: Desk, l: LockId, client: Option<ClientId>)
    requires Inv(d) && l !in d.lock.known
    ensures Inv(RequestLock(d, l, client))
  {
    var lock := d.lock.(known := d.lock.known + {l}, alive := d.lock.alive + {l});
    if !(lock.OwnerAlive() || (client.Some? && client == lock.ownerClient)) {
      var lock' := ResetPresentation(lock.(ownerClient := client, owner := Some(l), pending := Some(l), locked := true));
      ResetKeeps(d, lock');
      ScheduleKeeps(d.(lock := lock'), d.heads.Keys);
      assert d.(lock := lock).(lock := lock') == d.(lock := lock');
    } else {
      SameLockKeeps(d, lock);
    }
  }

  /** Objects coming and going do not touch what the screens show. */
  lemma SameLockKeeps(d: Desk, lock': Lock)
    requires Inv(d) && LockOk(lock')
    requires lock'.generation == d.lock.generation && lock'.presented == d.lock.presented
    requires lock'.locked ==> d.lock.locked
    requires lock'.pending.Some? ==> d.lock.pending.Some?
    requires lock'.confirmed ==> d.lock.confirmed
    ensures Inv(d.(lock := lock'))
  {
    forall c | c in d.heads
      ensures HeadOk(d.heads[c], lock')
    {
      assert HeadOk(d.heads[c], d.lock);
    }
  }

  lemma UnlockKeeps(d: Desk, l: LockId)
    requires Inv(d)
    ensures Inv(RequestUnlock(d, l).0)
  {
    if d.lock.Owns(l) && d.lock.pending.None? {
      var lock' := d.lock.(locked := false, owner := None, ownerClient := None, pending := None,
                           confirmed := false, alive := d.lock.alive - {l});
      SameLockKeeps(d, lock');
      ScheduleKeeps(d.(lock := lock'), d.heads.Keys);
    }
  }

  /** Every head that drives a CRTC shows a blank or current lock frame and
      has only current lock frames queued. */
  ghost predicate Covered(d: Desk) {
    forall c :: c in d.heads && d.Driven(c) ==>
      && (d.SurfaceOf(c).shown.content.Blank? || Current(d.SurfaceOf(c).shown, d.lock))
      && forall i :: 0 <= i < |d.SurfaceOf(c).flips| ==> Current(d.SurfaceOf(c).flips[i], d.lock)
  }

  lemma ReadyIsCovered(d: Desk)
    requires Inv(d) && d.lock.pending.Some? && Ready(d)
    ensures Covered(d)
  {
    forall c | c in d.heads && d.Driven(c)
      ensures (d.SurfaceOf(c).shown.content.Blank? || Current(d.SurfaceOf(c).shown, d.lock)) &&
              forall i :: 0 <= i < |d.SurfaceOf(c).flips| ==> Current(d.SurfaceOf(c).flips[i], d.lock)
    {
      var t := d.SurfaceOf(c).Timeline();
      assert HeadOk(d.heads[c], d.lock);
      assert d.heads[c].output in ConfirmationOutputs(d);
      assert forall i :: 0 <= i < |d.SurfaceOf(c).flips| ==> t[i + 1] == d.SurfaceOf(c).flips[i];
    }
  }

  lemma ConfirmKeeps(d: Desk)
    requires Inv(d)
    ensures Inv(MaybeConfirm(d))
  {
    if d.lock.pending.Some? && !d.lock.OwnerAlive() {
      SameLockKeeps(d, d.lock.(pending := None));
    } else if d.lock.pending.Some? && Ready(d) {
      var d' := MaybeConfirm(d);
      forall c | c in d'.heads
        ensures HeadOk(d'.heads[c], d'.lock)
      {
        assert HeadOk(d.heads[c], d.lock);
        if d.Driven(c) {
          assert d.heads[c].output in ConfirmationOutputs(d);
        }
      }
    }
  }

  /** Replacing or dropping one head by a head that is fine on its own. */
  lemma HeadKeeps(d: Desk, c: Crtc, h: Head)
    requires Inv(d) && c in d.heads && h.output == d.heads[c].output && HeadOk(h, d.lock)
    ensures Inv(d.(heads := d.heads[c := h]))
  {
  }

  lemma NewSurfaceOk(lock: Lock, held: bool)
    ensures TimelineOk(NEW_SURFACE.Timeline(), lock, held)
  {
  }

  lemma DisableKeeps(d: Desk, c: Crtc)
    requires Inv(d)
    ensures Inv(DisableHead(d, c)) && DisableHead(d, c).lock == d.lock
    ensures DisableHead(d, c).nextOutput == d.nextOutput && DisableHead(d, c).heads.Keys == d.heads.Keys
  {
    if d.Enabled(c) {
      var h := d.heads[c].(surface := None, global := false, power := On);
      HeadKeeps(d, c, h);
      var timers := if d.Driven(c) then Cancel(d.loop.timers, d.SurfaceOf(c).redraw) else d.loop.timers;
      assert DisableHead(d, c) == d.(heads := d.heads[c := h]).WithTimers(timers);
    }
  }

  lemma EnableKeeps(d: Desk, c: Crtc, initOk: bool, outcome: RenderOutcome)
    requires Inv(d)
    ensures Inv(EnableHead(d, c, initOk, outcome)) && EnableHead(d, c, initOk, outcome).lock == d.lock
  {
    if c in d.heads && !d.Enabled(c) {
      if !initOk {
        HeadKeeps(d, c, d.heads[c].(power := On));
      } else {
        var h := Head(d.heads[c].output, true, On, Some(NEW_SURFACE));
        NewSurfaceOk(d.lock, h.output in d.lock.presented);
        HeadKeeps(d, c, h);
        RenderKeeps(d.(heads := d.heads[c := h]), c, outcome);
      }
    }
  }

  lemma DisconnectKeeps(d: Desk, c: Crtc)
    requires Inv(d)
    ensures Inv(DisconnectHead(d, c)) && SameHolder(d.lock, DisconnectHead(d, c).lock)
    ensures c !in DisconnectHead(d, c).heads
    ensures if c in d.heads then Voided(d.lock, DisconnectHead(d, c).lock) else DisconnectHead(d, c).lock == d.lock
  {
    DisableKeeps(d, c);
    var off := DisableHead(d, c);
    if c in off.heads {
      InvalidateKeeps(off.(heads := off.heads - {c}));
    }
  }

  lemma CreateKeeps(d: Desk, c: Crtc)
    requires Inv(d) && c !in d.heads
    ensures Inv(CreateHead(d, c)) && SameHolder(d.lock, CreateHead(d, c).lock)
    ensures Voided(d.lock, CreateHead(d, c).lock)
  {
    var created := d.(heads := d.heads[c := Head(d.nextOutput, false, On, None)], nextOutput := d.nextOutput + 1);
    assert Inv(created);
    InvalidateKeeps(created);
  }

  lemma ConnectKeeps(d: Desk, c: Crtc, initOk: bool, outcome: RenderOutcome)
    requires Inv(d)
    ensures Inv(ConnectHead(d, c, initOk, outcome)) && SameHolder(d.lock, ConnectHead(d, c, initOk, outcome).lock)
    ensures Voided(d.lock, ConnectHead(d, c, initOk, outcome).lock)
  {
    hide DisconnectHead, CreateHead, EnableHead, Inv;
    DisconnectKeeps(d, c);
    CreateKeeps(DisconnectHead(d, c), c);
    EnableKeeps(CreateHead(DisconnectHead(d, c), c), c, initOk, outcome);
  }

  lemma PowerKeeps(d: Desk, c: Crtc, initOk: bool, outcome: RenderOutcome)
    requires Inv(d)
    ensures Inv(PowerOff(d, c)) && PowerOff(d, c).lock == d.lock
    ensures Inv(PowerOn(d, c, initOk, outcome)) && PowerOn(d, c, initOk, outcome).lock == d.lock
  {
    if d.Enabled(c) {
      if d.heads[c].power.On? {
        var h := d.heads[c].(surface := None, power := Off);
        HeadKeeps(d, c, h);
        assert PowerOff(d, c) == d.(heads := d.heads[c := h]).WithTimers(Cancel(d.loop.timers, d.SurfaceOf(c).redraw));
      } else if initOk {
        var h := d.heads[c].(power := On, surface := Some(NEW_SURFACE));
        NewSurfaceOk(d.lock, h.output in d.lock.presented);
        HeadKeeps(d, c, h);
        RenderKeeps(d.(heads := d.heads[c := h]), c, outcome);
      }
    }
  }

  lemma SwitchKeeps(d: Desk, c: Crtc, on: bool, initOk: bool, outcome: RenderOutcome)
    requires Inv(d)
    ensures Inv(SwitchPower(d, c, on, initOk, outcome))
    ensures SameHolder(d.lock, SwitchPower(d, c, on, initOk, outcome).lock)
    ensures if CanSwitch(d, c, on, initOk) then Voided(d.lock, SwitchPower(d, c, on, initOk, outcome).lock)
            else SwitchPower(d, c, on, initOk, outcome) == d
  {
    PowerKeeps(d, c, initOk, outcome);
    InvalidateKeeps(PowerOn(d, c, initOk, outcome));
    InvalidateKeeps(PowerOff(d, c));
    hide Inv, PowerOn, PowerOff, InvalidatePresentation;
  }

  lemma PauseKeeps(d: Desk)
    requires Inv(d)
    ensures Inv(Pause(d))
  {
    InvalidateKeeps(d);
    var i := InvalidatePresentation(d);
    var p := Pause(d);
    forall c | c in p.heads
      ensures HeadOk(p.heads[c], p.lock)
    {
      assert HeadOk(i.heads[c], i.lock);
      if i.Driven(c) {
        assert p.SurfaceOf(c).Timeline() == i.SurfaceOf(c).Timeline();
      }
    }
  }

  lemma {:induction false} RepaintKeeps(d: Desk, order: seq<Crtc>, outcomes: map<Crtc, RenderOutcome>)
    requires Inv(d) && forall c :: c in order ==> c in outcomes
    ensures Inv(RepaintAll(d, order, outcomes)) && RepaintAll(d, order, outcomes).lock == d.lock
    decreases |order|
  {
    if order != [] {
      var c := order[0];
      var dirtied := if d.Driven(c) then d.With(c, d.SurfaceOf(c).(dirty := true)) else d;
      if d.Driven(c) {
        RedrawKeeps(d, c, d.SurfaceOf(c).(dirty := true));
      }
      RenderKeeps(dirtied, c, outcomes[c]);
      RepaintKeeps(RepaintNow(d, c, outcomes[c]), order[1..], outcomes);
    }
  }

  /** What another session left on the screens is not a receipt: a pending
      lock starts over, and foreign content is not the desktop. */
  lemma ResumeKeeps(d: Desk, lost: set<Crtc>, order: seq<Crtc>, outcomes: map<Crtc, RenderOutcome>)
    requires Inv(d) && forall c :: c in order ==> c in outcomes
    ensures Inv(Resume(d, lost, order, outcomes))
  {
    var active := d.(paused := false, heads := map c | c in d.heads :: AfterVtSwitch(d.heads[c], c in lost));
    var lock' := if d.lock.pending.Some? then ResetPresentation(d.lock) else d.lock;
    var reset := active.(lock := lock');
    forall c | c in reset.heads
      ensures HeadOk(reset.heads[c], lock')
    {
      assert HeadOk(d.heads[c], d.lock);
      if d.Driven(c) {
        if d.lock.pending.Some? {
          TimelineReset(d.SurfaceOf(c).Timeline(), d.lock, d.heads[c].output in d.lock.presented, lock');
        }
        assert c !in lost ==> reset.SurfaceOf(c).Timeline() == d.SurfaceOf(c).Timeline();
        assert c in lost ==> reset.SurfaceOf(c).Timeline() == [FOREIGN];
      }
    }
    if d.lock.pending.Some? {
      ScheduleKeeps(reset, active.heads.Keys);
    }
    assert InvalidatePresentation(active) ==
           if d.lock.pending.Some? then Schedule(reset, active.heads.Keys) else reset;
    RepaintKeeps(InvalidatePresentation(active), order, outcomes);
  }

  lemma StepKeeps(d: Desk, e: Event)
    requires Inv(d) && CanHappen(d, e)
    ensures Inv(Apply(d, e))
  {
    match e
    case LockRequested(l, client) => LockKeeps(d, l, client);
    case UnlockRequested(l) => UnlockKeeps(d, l);
    case ObjectsDied(dead) => SameLockKeeps(d, d.lock.(alive := d.lock.alive - dead));
    case ConfirmChecked => ConfirmKeeps(d);
    case SceneChanged(wanted) => ScheduleKeeps(d, wanted);
    case IdleDue(c, outcome) => IdleKeeps(d, c, outcome);
    case Vblank(c, submitOk, outcome) => FinishKeeps(d, c, submitOk, outcome);
    case TimerDue(t, outcome) => TimerKeeps(d, t, outcome);
    case RenderForced(c, outcome) => RenderKeeps(d, c, outcome);
    case SessionPaused => PauseKeeps(d);
    case SessionResumed(lost, order, outcomes) => ResumeKeeps(d, lost, order, outcomes);
    case HeadConnected(c, initOk, outcome) => ConnectKeeps(d, c, initOk, outcome);
    case HeadDisconnected(c) => DisconnectKeeps(d, c);
    case HeadEnabled(c, initOk, outcome) => EnableKeeps(d, c, initOk, outcome);
    case HeadDisabled(c) => DisableKeeps(d, c);
    case PowerSwitched(c, on, initOk, outcome) => SwitchKeeps(d, c, on, initOk, outcome);
    case OutputsConfigured => InvalidateKeeps(d);
  }

  // ------------------------------------------------------------ whole runs

  lemma {:induction false} RunKeeps(states: seq<Desk>, events: seq<Event>)
    requires IsRun(states, events)
    ensures forall i :: 0 <= i < |states| ==> Inv(states[i])
    decreases |events|
  {
    if events != [] {
      var n := |events| - 1;
      RunKeeps(states[..n + 1], events[..n]);
      assert Inv(states[..n + 1][n]);
      StepKeeps(states[n], events[n]);
    }
  }

  /** No desktop frame is on any driven screen, nor queued for one. */
  ghost predicate DesktopHidden(d: Desk) {
    forall c :: c in d.heads && d.Driven(c) ==>
      && !d.SurfaceOf(c).shown.content.Desktop?
      && forall i :: 0 <= i < |d.SurfaceOf(c).flips| ==> !d.SurfaceOf(c).flips[i].content.Desktop?
  }

  lemma ConfirmedHidesDesktop(d: Desk)
    requires Inv(d) && d.lock.confirmed
    ensures DesktopHidden(d)
  {
    forall c | c in d.heads && d.Driven(c)
      ensures !d.SurfaceOf(c).shown.content.Desktop?
      ensures forall k :: 0 <= k < |d.SurfaceOf(c).flips| ==> !d.SurfaceOf(c).flips[k].content.Desktop?
    {
      var t := d.SurfaceOf(c).Timeline();
      assert HeadOk(d.heads[c], d.lock);
      assert t[0] == d.SurfaceOf(c).shown;
      assert forall k :: 0 <= k < |d.SurfaceOf(c).flips| ==> t[k + 1] == d.SurfaceOf(c).flips[k];
    }
  }

  /** Every head that should show something does have a CRTC. */
  ghost predicate LitHeadsDriven(d: Desk) {
    forall c :: d.Enabled(c) && d.heads[c].power.On? ==> d.Driven(c)
  }

  /** One event: an acknowledgement goes out only on a running seat whose lit
      heads are covered, and a confirmed session hides the desktop. */
  lemma StepBarrier(d: Desk, e: Event)
    requires Inv(d) && CanHappen(d, e)
    ensures Inv(Apply(d, e))
    ensures Apply(d, e).lock.acknowledged != d.lock.acknowledged ==>
              && !d.paused && Covered(Apply(d, e))
              && Apply(d, e).lock.generation == d.lock.generation && Apply(d, e).lock.confirmed
              && LitHeadsDriven(Apply(d, e))
    ensures Apply(d, e).lock.confirmed ==> DesktopHidden(Apply(d, e))
  {
    StepKeeps(d, e);
    var d' := Apply(d, e);
    if d'.lock.acknowledged != d.lock.acknowledged {
      OnlyConfirmAcknowledges(d, e);
      ReadyIsCovered(d);
      assert Covered(d');
    }
    if d'.lock.confirmed {
      ConfirmedHidesDesktop(d');
    }
  }

  /** The barrier, in every run: when an acknowledgement is sent the seat is
      not paused and every head that is enabled and powered on shows a blank
      or current lock frame with only current lock frames behind it; and from
      the first acknowledgement to the unlock no desktop frame is shown or
      queued anywhere, whatever is plugged in, reconfigured, power-cycled,
      taken over, paused or resumed in between. */
  lemma LockBarrier(states: seq<Desk>, events: seq<Event>, i: nat)
    requires IsRun(states, events) && i < |events|
    ensures states[i + 1].lock.acknowledged != states[i].lock.acknowledged ==>
              && !states[i].paused && Covered(states[i + 1])
              && states[i + 1].lock.generation == states[i].lock.generation && states[i + 1].lock.confirmed
              && LitHeadsDriven(states[i + 1])
    ensures states[i + 1].lock.confirmed ==> DesktopHidden(states[i + 1])
  {
    RunKeeps(states, events);
    StepBarrier(states[i], events[i]);
  }

  lemma FinishHolder(d: Desk, c: Crtc, submitOk: bool, outcome: RenderOutcome)
    requires Inv(d)
    ensures SameHolder(d.lock, FrameFinish(d, c, submitOk, outcome).lock)
  {
    if d.Driven(c) {
      SubmitKeeps(d, c, submitOk);
      EndFlipKeeps(SubmitFrame(d, c, submitOk), c, outcome);
    }
  }

  lemma IdleKeeps(d: Desk, c: Crtc, outcome: RenderOutcome)
    requires Inv(d)
    ensures Inv(IdleRun(d, c, outcome)) && IdleRun(d, c, outcome).lock == d.lock
  {
    var d' := d.(loop := d.loop.(idles := d.loop.idles - multiset{c}));
    assert Inv(d');
    RenderKeeps(d', c, outcome);
  }

  /** The repaint loop, the heads and the seat leave the holder alone. */
  lemma LoopEventsKeepHolder(d: Desk, e: Event)
    requires Inv(d) && CanHappen(d, e)
    requires !e.LockRequested? && !e.UnlockRequested? && !e.ObjectsDied? && !e.ConfirmChecked?
    ensures SameHolder(d.lock, Apply(d, e).lock)
  {
    hide Inv;
    hide RenderNow, IdleRun, FrameFinish, TimerFired, RepaintAll;
    hide ConnectHead, DisconnectHead, DisableHead, EnableHead, SwitchPower;
    match e
    case SceneChanged(wanted) => ScheduleKeeps(d, wanted);
    case IdleDue(c, outcome) => IdleKeeps(d, c, outcome);
    case Vblank(c, submitOk, outcome) => FinishHolder(d, c, submitOk, outcome);
    case TimerDue(t, outcome) => TimerKeeps(d, t, outcome);
    case RenderForced(c, outcome) => RenderKeeps(d, c, outcome);
    case SessionPaused =>
    case SessionResumed(lost, order, outcomes) => ResumeLock(d, lost, order, outcomes);
    case HeadConnected(c, initOk, outcome) => ConnectKeeps(d, c, initOk, outcome);
    case HeadDisconnected(c) => DisconnectKeeps(d, c);
    case HeadEnabled(c, initOk, outcome) => EnableKeeps(d, c, initOk, outcome);
    case HeadDisabled(c) => DisableKeeps(d, c);
    case PowerSwitched(c, on, initOk, outcome) => SwitchKeeps(d, c, on, initOk, outcome);
    case OutputsConfigured => InvalidateKeeps(d);
  }

  lemma {:induction false} RepaintLock(d: Desk, order: seq<Crtc>, outcomes: map<Crtc, RenderOutcome>)
    requires forall c :: c in order ==> c in outcomes
    ensures RepaintAll(d, order, outcomes).lock == d.lock
    decreases |order|
  {
    if order != [] {
      RepaintLock(RepaintNow(d, order[0], outcomes[order[0]]), order[1..], outcomes);
    }
  }

  lemma ResumeLock(d: Desk, lost: set<Crtc>, order: seq<Crtc>, outcomes: map<Crtc, RenderOutcome>)
    requires forall c :: c in order ==> c in outcomes
    ensures Resume(d, lost, order, outcomes).lock ==
            if d.lock.pending.Some? then ResetPresentation(d.lock) else d.lock
  {
    var active := d.(paused := false, heads := map c | c in d.heads :: AfterVtSwitch(d.heads[c], c in lost));
    RepaintLock(InvalidatePresentation(active), order, outcomes);
  }

  lemma OnlyConfirmAcknowledges(d: Desk, e: Event)
    requires Inv(d) && CanHappen(d, e) && Apply(d, e).lock.acknowledged != d.lock.acknowledged
    ensures e.ConfirmChecked? && d.lock.pending.Some? && d.lock.OwnerAlive() && Ready(d)
    ensures Apply(d, e) == MaybeConfirm(d)
  {
    if !e.LockRequested? && !e.UnlockRequested? && !e.ObjectsDied? && !e.ConfirmChecked? {
      LoopEventsKeepHolder(d, e);
    }
  }

  /** Ownership, in every run: the session is unlocked only by its live owner,
      which was itself acknowledged; a death never unlocks; no second object
      takes a session whose owner lives; and a pending or confirmed lock is a
      locked session. */
  lemma LockOwnership(states: seq<Desk>, events: seq<Event>, i: nat)
    requires IsRun(states, events) && i < |events|
    ensures var l, l', e := states[i].lock, states[i + 1].lock, events[i];
            && (l.locked && !l'.locked ==>
                  e.UnlockRequested? && l.owner == Some(e.l) && e.l in l.alive && e.l in l.acknowledged)
            && (e.ObjectsDied? ==> l'.locked == l.locked)
            && (l.locked && l.OwnerAlive() && l'.locked && !e.ObjectsDied? ==> l'.owner == l.owner)
            && (l'.pending.Some? || l'.confirmed ==> l'.locked)
  {
    RunKeeps(states, events);
    var d, e := states[i], events[i];
    assert Inv(states[i + 1]);
    if !e.LockRequested? && !e.UnlockRequested? && !e.ObjectsDied? && !e.ConfirmChecked? {
      LoopEventsKeepHolder(d, e);
    }
  }

  // ------------------------------------------------------------ receipts over whole runs

  /** This event completes a frame of the current generation on the head of
      this output, while a lock waits for it. */
  predicate Delivers(d: Desk, e: Event, o: OutputId) {
    && e.Vblank? && d.lock.pending.Some? && d.Driven(e.c) && d.heads[e.c].output == o
    && var completion := FrameSubmitted(d.SurfaceOf(e.c), e.submitOk).0;
       completion.Completed? && completion.frame.receipt == Some(d.lock.generation)
  }

  /** What an event does to the receipts: it voids them all, or adds what it
      delivers. */
  ghost predicate ReceiptsStep(d: Desk, e: Event, l': Lock) {
    || (l'.generation > d.lock.generation && l'.presented == [] && !e.Vblank?)
    || (l'.generation == d.lock.generation
        && forall o :: o in l'.presented <==> o in d.lock.presented || Delivers(d, e, o))
  }

  lemma FinishReceipts(d: Desk, c: Crtc, submitOk: bool, outcome: RenderOutcome)
    requires Inv(d)
    ensures ReceiptsStep(d, Vblank(c, submitOk, outcome), FrameFinish(d, c, submitOk, outcome).lock)
  {
    if d.Driven(c) {
      SubmitKeeps(d, c, submitOk);
      EndFlipKeeps(SubmitFrame(d, c, submitOk), c, outcome);
    }
  }

  lemma StepReceipts(d: Desk, e: Event)
    requires Inv(d) && CanHappen(d, e)
    ensures ReceiptsStep(d, e, Apply(d, e).lock)
  {
    hide Inv;
    hide RenderNow, IdleRun, FrameFinish, TimerFired, RepaintAll, Schedule;
    hide ConnectHead, DisconnectHead, DisableHead, EnableHead, SwitchPower;
    match e
    case LockRequested(l, client) => LockReceipts(d, l, client);
    case UnlockRequested(l) => UnlockReceipts(d, l);
    case ObjectsDied(dead) =>
    case ConfirmChecked =>
    case SceneChanged(wanted) => ScheduleKeeps(d, wanted);
    case IdleDue(c, outcome) => IdleKeeps(d, c, outcome);
    case Vblank(c, submitOk, outcome) => FinishReceipts(d, c, submitOk, outcome);
    case TimerDue(t, outcome) => TimerKeeps(d, t, outcome);
    case RenderForced(c, outcome) => RenderKeeps(d, c, outcome);
    case SessionPaused => InvalidateKeeps(d);
    case SessionResumed(lost, order, outcomes) => ResumeLock(d, lost, order, outcomes);
    case HeadConnected(c, initOk, outcome) => ConnectKeeps(d, c, initOk, outcome);
    case HeadDisconnected(c) => DisconnectKeeps(d, c);
    case HeadEnabled(c, initOk, outcome) => EnableKeeps(d, c, initOk, outcome);
    case HeadDisabled(c) => DisableKeeps(d, c);
    case PowerSwitched(c, on, initOk, outcome) => SwitchKeeps(d, c, on, initOk, outcome);
    case OutputsConfigured => InvalidateKeeps(d);
  }

  lemma LockReceipts(d: Desk, l: LockId, client: Option<ClientId>)
    ensures ReceiptsStep(d, LockRequested(l, client), RequestLock(d, l, client).lock)
  {
  }

  lemma UnlockReceipts(d: Desk, l: LockId)
    ensures ReceiptsStep(d, UnlockRequested(l), RequestUnlock(d, l).0.lock)
  {
  }

  /** Since the last reset, some event delivered a frame for this output. */
  ghost predicate Delivered(states: seq<Desk>, events: seq<Event>, n: nat, o: OutputId)
    requires n < |states| && n <= |events|
  {
    exists i :: && 0 <= i < n && Delivers(states[i], events[i], o)
                && states[i].lock.generation == states[n].lock.generation
  }

  /** In every run an output has a receipt exactly if a frame of the current
      generation was delivered on its head since the last reset. */
  lemma {:induction false} ReceiptsAreDeliveries(states: seq<Desk>, events: seq<Event>, n: nat, o: OutputId)
    requires IsRun(states, events) && n < |states|
    ensures o in states[n].lock.presented <==> Delivered(states, events, n, o)
    ensures forall i :: 0 <= i <= n ==> states[i].lock.generation <= states[n].lock.generation
    decreases n
  {
    if n > 0 {
      ReceiptsAreDeliveries(states, events, n - 1, o);
      RunKeeps(states, events);
      var d, e := states[n - 1], events[n - 1];
      StepReceipts(d, e);
      hide Inv, Apply, CanHappen, Delivers;
      assert states[n] == Apply(d, e);
      assert forall i :: 0 <= i < n ==> states[i].lock.generation <= d.lock.generation;
    }
  }

  /** A check acknowledges exactly when the seat is running and every lit
      head has delivered since the last reset. */
  lemma CheckAcknowledgesIff(states: seq<Desk>, events: seq<Event>, n: nat)
    requires IsRun(states, events) && n < |events| && events[n].ConfirmChecked?
    requires states[n].lock.pending.Some? && states[n].lock.OwnerAlive()
    ensures states[n + 1].lock.acknowledged != states[n].lock.acknowledged <==>
              && !states[n].paused
              && forall c :: states[n].Enabled(c) && states[n].heads[c].power.On? ==>
                   Delivered(states, events, n, states[n].heads[c].output)
  {
    RunKeeps(states, events);
    var d := states[n];
    assert Inv(d);
    forall o
      ensures o in d.lock.presented <==> Delivered(states, events, n, o)
    {
      ReceiptsAreDeliveries(states, events, n, o);
    }
    hide Delivered, IsRun;
    assert Ready(d) <==>
             !d.paused && forall c :: d.Enabled(c) && d.heads[c].power.On? ==> d.heads[c].output in d.lock.presented by {
      assert forall c :: d.Enabled(c) && d.heads[c].power.On? ==> d.heads[c].output in ConfirmationOutputs(d);
    }
  }
}
