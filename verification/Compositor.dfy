/** The session lock and the repaint loop as the compositor runs them: one
    object whose fields its event handlers assign in place. Every handler is
    proved to do what the corresponding function does to the Desk the fields
    amount to, and handling events keeps the lock barrier and the loop's
    invariant. */
module Compositor {
  import opened Wrappers
  import opened Desk
  import Spec = Desk
  import DeskLock
  import DeskLoop
  import DeskEffects

  class Compositor {
    // Lock state.
    var locked: bool
    var owner: Option<LockId>
    var ownerClient: Option<ClientId>
    var pending: Option<LockId>
    var confirmed: bool
    var generation: nat
    var presented: seq<OutputId>
    // Which lock objects the display server still has.
    var alive: set<LockId>
    ghost var known: set<LockId>
    ghost var acknowledged: set<LockId>
    // Backend state.
    var paused: bool
    var heads: map<Crtc, Head>
    var nextOutput: OutputId
    // Event loop.
    var timers: map<Token, Timer>
    var nextToken: Token
    var idles: multiset<Crtc>

    ghost function LockView(): Lock
      reads this
    {
      Spec.Lock(locked, owner, ownerClient, pending, confirmed, generation, presented, known, alive, acknowledged)
    }

    ghost function View(): Desk
      reads this
    {
      Spec.Desk(LockView(), paused, heads, Loop(timers, nextToken, idles), nextOutput)
    }

    constructor ()
      ensures View() == START
    {
      locked, owner, ownerClient, pending, confirmed := false, None, None, None, false;
      generation, presented, alive, known, acknowledged := 0, [], {}, {}, {};
      paused, heads, nextOutput := false, map[], 0;
      timers, nextToken, idles := map[], 0, multiset{};
    }

    // ---------------------------------------------------------- rendering

    method StoreSurface(c: Crtc, s: Surface)
      requires c in heads
      modifies this`heads
      ensures heads == Put(old(heads), c, s)
    {
      heads := heads[c := heads[c].(surface := Some(s))];
    }

    method RemoveTimer(r: Redraw)
      modifies this`timers
      ensures timers == Cancel(old(timers), r)
    {
      match r
      case WaitingForVblank(token) => timers := timers - {token};
      case WaitingForTimer(token) => timers := timers - {token};
      case _ =>
    }

    method InsertTimer(kind: TimerKind, c: Crtc) returns (token: Token)
      modifies this`timers, this`nextToken
      ensures token == old(nextToken) && nextToken == token + 1
      ensures timers == old(timers)[token := Timer(kind, c)]
    {
      token := nextToken;
      timers := timers[token := Timer(kind, c)];
      nextToken := nextToken + 1;
    }

    /** Returns the loop to idle, keeping `dirty` as it is. */
    method ParkRedraw(c: Crtc)
      requires View().Driven(c)
      modifies this`heads, this`timers
      ensures heads == Put(old(heads), c, old(heads)[c].surface.value.(redraw := Idle))
      ensures timers == Cancel(old(timers), old(heads)[c].surface.value.redraw)
    {
      var s := heads[c].surface.value;
      RemoveTimer(s.redraw);
      StoreSurface(c, s.(redraw := Idle));
    }

    /** Renders and queues one frame, stamped with the scene it actually shows. */
    method RenderSurface(c: Crtc, outcome: RenderOutcome) returns (r: Result<bool, ()>)
      requires View().Driven(c)
      modifies this`heads
      ensures r == if outcome.Queued? then Ok(true) else if outcome.NoDamage? then Ok(false) else Err(())
      ensures heads == Put(old(heads), c, Sent(old(heads)[c].surface.value, LockView(), outcome))
    {
      var s := heads[c].surface.value;
      if outcome.RenderFailed? {
        StoreSurface(c, s);
        return Err(());
      }
      if outcome.NoDamage? {
        StoreSurface(c, s);
        return Ok(false);
      }
      s := s.(flipGeneration := s.flipGeneration + 1);
      var frame := if locked then Frame(LockScene, s.flipGeneration, Some(generation))
                   else Frame(Desktop, s.flipGeneration, None);
      if outcome.QueueFailed? {
        StoreSurface(c, s);
        return Err(());
      }
      StoreSurface(c, s.(flips := Enqueue(s.flips, frame)));
      r := Ok(true);
    }

    /** Parks the loop, renders, and arms what ends the new wait: the watchdog
        when a frame was queued, else the rate limit. */
    method Repaint(c: Crtc, outcome: RenderOutcome)
      requires View().Driven(c)
      modifies this`heads, this`timers, this`nextToken
      ensures var s := old(heads)[c].surface.value;
              && heads == Put(old(heads), c, RenderedSurface(s, LockView(), old(nextToken), outcome))
              && timers == Cancel(old(timers), s.redraw)[old(nextToken) :=
                             Timer(if outcome.Queued? then Watchdog else RateLimit, c)]
              && nextToken == old(nextToken) + 1
    {
      hide Put, Cancel, Sent, RenderedSurface;
      ghost var s, h0 := heads[c].surface.value, heads;
      ParkRedraw(c);
      PutSame(h0, c, s.(redraw := Idle), s.(redraw := Idle, dirty := false));
      StoreSurface(c, heads[c].surface.value.(dirty := false));
      ghost var clean := s.(redraw := Idle, dirty := false);
      ghost var sent := Sent(clean, LockView(), outcome);
      PutSame(h0, c, clean, sent);
      var rendered := RenderSurface(c, outcome);
      var queued := rendered == Ok(true);
      if rendered.Err? {
        PutSame(h0, c, sent, sent.(dirty := true));
        StoreSurface(c, heads[c].surface.value.(dirty := true));
      }
      SentIsRendered(s, LockView(), nextToken, outcome);
      var token := InsertTimer(if queued then Watchdog else RateLimit, c);
      ghost var r := RenderedSurface(s, LockView(), token, outcome);
      PutSame(h0, c, r.(redraw := Idle), r);
      StoreSurface(c, heads[c].surface.value.(redraw := if queued then WaitingForVblank(token)
                                                        else WaitingForTimer(token)));
    }

    /** A disabled or vanished head has nothing to render to: its loop ends here. */
    method RenderNow(c: Crtc, outcome: RenderOutcome)
      modifies this`heads, this`timers, this`nextToken
      ensures View() == Spec.RenderNow(old(View()), c, outcome)
    {
      hide Cancel, RenderedSurface;
      if c !in heads || !heads[c].global || heads[c].surface.None? {
        return;
      }
      Repaint(c, outcome);
    }

    // ---------------------------------------------------------- scheduling

    /** Marks the wanted outputs dirty; the idle ones among them become scheduled. */
    method MarkDirty(wanted: set<Crtc>) returns (toSchedule: set<Crtc>)
      modifies this`heads
      ensures heads == map c | c in old(heads) ::
                         if c in wanted then Dirtied(old(heads)[c], paused) else old(heads)[c]
      ensures toSchedule == ToSchedule(old(View()), wanted)
    {
      ghost var before := View();
      toSchedule := {};
      var left := heads.Keys;
      while left != {}
        invariant left <= before.heads.Keys && heads.Keys == before.heads.Keys
        invariant forall c :: c in heads ==>
                    heads[c] == if c in wanted && c !in left then Dirtied(before.heads[c], paused) else before.heads[c]
        invariant toSchedule == ToSchedule(before, wanted) - left
      {
        var c :| c in left;
        left := left - {c};
        if heads[c].surface.Some? && c in wanted {
          var s := heads[c].surface.value.(dirty := true);
          if !paused && s.redraw.Idle? {
            s := s.(redraw := Scheduled);
            toSchedule := toSchedule + {c};
          }
          heads := heads[c := heads[c].(surface := Some(s))];
        }
      }
    }

    /** Queues a render for each head that was found idle. */
    method InsertIdles(toSchedule: set<Crtc>)
      modifies this`idles
      ensures idles == old(idles) + multiset(toSchedule)
    {
      var left := toSchedule;
      while left != {}
        invariant left <= toSchedule
        invariant idles == old(idles) + multiset(toSchedule - left)
      {
        var c :| c in left;
        assert toSchedule - (left - {c}) == (toSchedule - left) + {c};
        left := left - {c};
        idles := idles + multiset{c};
      }
      assert toSchedule - {} == toSchedule;
    }

    method ScheduleRedrawWhere(wanted: set<Crtc>)
      modifies this`heads, this`idles
      ensures View() == Schedule(old(View()), wanted)
    {
      hide Dirtied, ToSchedule;
      var toSchedule := MarkDirty(wanted);
      InsertIdles(toSchedule);
    }

    method ScheduleLockRedraw()
      modifies this`heads, this`idles
      ensures View() == Schedule(old(View()), old(heads).Keys)
    {
      ScheduleRedrawWhere(heads.Keys);
    }

    /** The idle callback queued for a head. */
    method RunIdle(c: Crtc, outcome: RenderOutcome)
      requires c in idles
      modifies this`heads, this`timers, this`nextToken, this`idles
      ensures View() == IdleRun(old(View()), c, outcome)
    {
      idles := idles - multiset{c};
      if c in heads && heads[c].surface.Some? && heads[c].surface.value.redraw.Scheduled? {
        RenderNow(c, outcome);
      }
    }

    // ---------------------------------------------------------- completions

    method LockFramePresented(output: OutputId, receipt: nat)
      modifies this`presented
      ensures View() == old(View()).(lock := FramePresented(old(LockView()), output, receipt))
    {
      if pending.Some? {
        if receipt == generation && output !in presented {
          presented := presented + [output];
        }
      }
    }

    /** Takes the completed frame off the queue and delivers its receipt. */
    method SubmitFrame(c: Crtc, submitOk: bool) returns (staleFlip: bool)
      requires View().Driven(c)
      modifies this`heads, this`presented
      ensures View() == Spec.SubmitFrame(old(View()), c, submitOk)
      ensures staleFlip <==> Stale(FrameSubmitted(old(heads)[c].surface.value, submitOk).0, old(heads)[c].surface.value)
    {
      hide FrameSubmitted, FramePresented;
      var output := heads[c].output;
      var current := heads[c].surface.value.flipGeneration;
      var (completion, submitted) := FrameSubmitted(heads[c].surface.value, submitOk);
      StoreSurface(c, submitted);
      staleFlip := false;
      match completion {
        case Completed(frame) =>
          staleFlip := frame.flip != current;
          if frame.receipt.Some? {
            LockFramePresented(output, frame.receipt.value);
          }
        case _ =>
      }
    }

    /** The flip completed: repaint if anything changed meanwhile, else rest.
        What the loop was doing is replaced before it is looked at. */
    method EndFlip(c: Crtc, outcome: RenderOutcome)
      requires View().Driven(c)
      modifies this`heads, this`timers, this`nextToken
      ensures View() == Spec.EndFlip(old(View()), c, outcome)
    {
      hide Spec.RenderNow;
      var was := heads[c].surface.value.redraw;
      StoreSurface(c, heads[c].surface.value.(redraw := Idle));
      if !was.WaitingForVblank? {
        return;
      }
      RemoveTimer(was);
      if heads[c].surface.value.dirty {
        RenderNow(c, outcome);
      }
    }

    method FrameFinish(c: Crtc, submitOk: bool, outcome: RenderOutcome)
      modifies this`heads, this`timers, this`nextToken, this`presented
      ensures View() == Spec.FrameFinish(old(View()), c, submitOk, outcome)
    {
      hide Spec.EndFlip;
      if c !in heads || heads[c].surface.None? {
        return;
      }
      var staleFlip := SubmitFrame(c, submitOk);
      if staleFlip {
        return;
      }
      EndFlip(c, outcome);
    }

    method VblankWatchdogFired(c: Crtc, outcome: RenderOutcome)
      modifies this`heads, this`timers, this`nextToken
      ensures View() == WatchdogFired(old(View()), c, outcome)
    {
      if c !in heads || heads[c].surface.None? || !heads[c].surface.value.redraw.WaitingForVblank? {
        return;
      }
      StoreSurface(c, heads[c].surface.value.(redraw := Idle, dirty := true));
      RenderNow(c, outcome);
    }

    method RedrawTimerFired(c: Crtc, outcome: RenderOutcome)
      modifies this`heads, this`timers, this`nextToken
      ensures View() == RateLimitFired(old(View()), c, outcome)
    {
      if c !in heads || heads[c].surface.None? || !heads[c].surface.value.redraw.WaitingForTimer? {
        return;
      }
      StoreSurface(c, heads[c].surface.value.(redraw := Idle));
      if heads[c].surface.value.dirty {
        RenderNow(c, outcome);
      }
    }

    /** The event loop runs a due timer's callback and drops the timer. */
    method DispatchTimer(t: Token, outcome: RenderOutcome)
      requires t in timers
      modifies this`heads, this`timers, this`nextToken
      ensures View() == TimerFired(old(View()), t, outcome)
    {
      var timer := timers[t];
      match timer.kind {
        case Watchdog => VblankWatchdogFired(timer.crtc, outcome);
        case RateLimit => RedrawTimerFired(timer.crtc, outcome);
      }
      timers := timers - {t};
    }

    // ---------------------------------------------------------- the lock

    method ResetPresentation()
      modifies this`generation, this`presented
      ensures generation == old(generation) + 1 && presented == []
    {
      generation := generation + 1;
      presented := [];
    }

    method Lock(l: LockId, client: Option<ClientId>)
      requires l !in known
      modifies this
      ensures View() == RequestLock(old(View()), l, client)
    {
      hide Schedule;
      known := known + {l};
      alive := alive + {l};
      ghost var met := View();
      assert met == old(View()).(lock := old(LockView()).(known := known, alive := alive));
      if owner.Some? && owner.value in alive {
        return;
      }
      if client.Some? && client == ownerClient {
        return;
      }
      GrantLock(l, client);
    }

    /** The session is l's: every earlier receipt is void and every head repaints. */
    method GrantLock(l: LockId, client: Option<ClientId>)
      modifies this
      ensures View() ==
              Schedule(old(View()).(lock := Spec.ResetPresentation(
                         old(LockView()).(ownerClient := client, owner := Some(l), pending := Some(l), locked := true))),
                       old(heads).Keys)
    {
      hide Schedule;
      TakeLock(l, client);
      ScheduleLockRedraw();
    }

    method TakeLock(l: LockId, client: Option<ClientId>)
      modifies this`ownerClient, this`owner, this`pending, this`generation, this`presented, this`locked
      ensures LockView() == Spec.ResetPresentation(
                              old(LockView()).(ownerClient := client, owner := Some(l), pending := Some(l), locked := true))
    {
      ownerClient := client;
      owner := Some(l);
      pending := Some(l);
      ResetPresentation();
      locked := true;
    }

    /** Answers whether the request was legal; an illegal one changes nothing. */
    method DispatchUnlock(l: LockId) returns (legal: bool)
      modifies this
      ensures (View(), legal) == RequestUnlock(old(View()), l)
    {
      var ownsLock := locked && owner == Some(l);
      if !ownsLock || pending.Some? {
        return false;
      }
      hide Schedule;
      DropLock(l);
      ScheduleRedrawWhere(heads.Keys);
      legal := true;
    }

    /** Nobody holds the session; the lock object is gone with its request. */
    method DropLock(l: LockId)
      modifies this`alive, this`locked, this`owner, this`ownerClient, this`pending, this`confirmed
      ensures LockView() == old(LockView()).(locked := false, owner := None, ownerClient := None, pending := None,
                                             confirmed := false, alive := old(alive) - {l})
    {
      alive := alive - {l};
      locked := false;
      owner := None;
      ownerClient := None;
      pending := None;
      confirmed := false;
    }

    method InvalidateLockPresentation()
      modifies this`heads, this`idles, this`generation, this`presented
      ensures View() == InvalidatePresentation(old(View()))
    {
      if pending.Some? {
        ResetPresentation();
        ScheduleLockRedraw();
      }
    }

    method LockConfirmationOutputs() returns (outputs: Option<set<OutputId>>)
      ensures outputs == if paused then None else Some(ConfirmationOutputs(View()))
    {
      if paused {
        return None;
      }
      outputs := Some(set c | c in heads && heads[c].global && heads[c].power.On? :: heads[c].output);
    }

    method MaybeConfirmLock()
      modifies this`pending, this`confirmed, this`acknowledged
      ensures View() == MaybeConfirm(old(View()))
    {
      if pending.None? {
        return;
      }
      if !(owner.Some? && owner.value in alive) {
        pending := None;
        return;
      }
      var outputs := LockConfirmationOutputs();
      if outputs.None? || exists o :: o in outputs.value && o !in presented {
        return;
      }
      acknowledged := acknowledged + {pending.value};
      pending := None;
      if !confirmed {
        confirmed := true;
      }
    }

    // ---------------------------------------------------------- seat and heads

    method PauseSession()
      modifies this
      ensures View() == Pause(old(View()))
    {
      InvalidateLockPresentation();
      paused := true;
      ParkAll();
    }

    /** No timer may fire into an inactive device. */
    method ParkAll()
      modifies this`heads, this`timers
      ensures heads == map c | c in old(heads) :: Parked(old(heads)[c])
      ensures timers == old(timers) - StoredTokens(old(View()))
    {
      hide ParkedTokens, Cancel, StoredTokens;
      ghost var i := View();
      ParkedTokensEnds(i);
      var left := heads.Keys;
      while left != {}
        invariant left <= i.heads.Keys && heads.Keys == i.heads.Keys
        invariant forall c :: c in heads ==> heads[c] == if c in left then i.heads[c] else Parked(i.heads[c])
        invariant timers == i.loop.timers - ParkedTokens(i, left)
      {
        var c :| c in left;
        ParkedTokensStep(i, left - {c}, c);
        assert left - {c} + {c} == left;
        left := left - {c};
        if heads[c].surface.Some? {
          CancelIsMinus(timers, heads[c].surface.value.redraw);
          MinusMinus(i.loop.timers, ParkedTokens(i, left + {c}), TokensOf(heads[c].surface.value.redraw));
          ParkRedraw(c);
        }
      }
    }

    /** `order` walks every enabled head. */
    method ActivateSession(lost: set<Crtc>, order: seq<Crtc>, outcomes: map<Crtc, RenderOutcome>)
      requires forall c :: c in order ==> c in outcomes
      modifies this
      ensures View() == Resume(old(View()), lost, order, outcomes)
    {
      paused := false;
      heads := map c | c in heads :: AfterVtSwitch(heads[c], c in lost);
      InvalidateLockPresentation();
      ghost var start := View();
      for k := 0 to |order|
        invariant RepaintAll(View(), order[k..], outcomes) == RepaintAll(start, order, outcomes)
      {
        var c := order[k];
        assert order[k..][0] == c && order[k..][1..] == order[k + 1..];
        if c in heads && heads[c].surface.Some? {
          StoreSurface(c, heads[c].surface.value.(dirty := true));
        }
        RenderNow(c, outcomes[c]);
      }
      assert order[|order|..] == [];
    }

    /** Takes the surface off a head, cancelling its timer: the CRTC is released. */
    method ReleaseSurface(c: Crtc)
      requires c in heads
      modifies this`heads, this`timers
      ensures View() == Release(old(View()), c)
    {
      if heads[c].surface.Some? {
        RemoveTimer(heads[c].surface.value.redraw);
        heads := heads[c := heads[c].(surface := None)];
      }
    }

    method DisableHead(c: Crtc)
      modifies this`heads, this`timers
      ensures View() == Spec.DisableHead(old(View()), c)
    {
      if c !in heads || !heads[c].global {
        return;
      }
      ReleaseSurface(c);
      heads := heads[c := heads[c].(power := On)];
      heads := heads[c := heads[c].(global := false)];
    }

    method EnableHead(c: Crtc, initOk: bool, outcome: RenderOutcome)
      modifies this`heads, this`timers, this`nextToken
      ensures View() == Spec.EnableHead(old(View()), c, initOk, outcome)
    {
      if c !in heads || heads[c].global {
        return;
      }
      heads := heads[c := heads[c].(global := true, power := On)];
      if !initOk {
        heads := heads[c := heads[c].(global := false)];
        assert View() == Spec.EnableHead(old(View()), c, initOk, outcome);
        return;
      }
      heads := heads[c := heads[c].(surface := Some(NEW_SURFACE))];
      assert heads == old(heads)[c := Head(old(heads)[c].output, true, On, Some(NEW_SURFACE))];
      RenderNow(c, outcome);
    }

    /** Forgets a disabled head. */
    method RemoveHead(c: Crtc)
      modifies this`heads, this`idles, this`generation, this`presented
      ensures View() == Spec.RemoveHead(old(View()), c)
    {
      if c in heads {
        heads := heads - {c};
        InvalidateLockPresentation();
      }
    }

    method CreateHead(c: Crtc)
      modifies this`heads, this`nextOutput, this`idles, this`generation, this`presented
      ensures View() == Spec.CreateHead(old(View()), c)
    {
      heads := heads[c := Head(nextOutput, false, On, None)];
      nextOutput := nextOutput + 1;
      InvalidateLockPresentation();
    }

    method ConnectorConnected(c: Crtc, initOk: bool, outcome: RenderOutcome)
      modifies this
      ensures View() == ConnectHead(old(View()), c, initOk, outcome)
    {
      hide Spec.CreateHead, Spec.EnableHead, DisconnectHead;
      ConnectorDisconnected(c);
      CreateHead(c);
      EnableHead(c, initOk, outcome);
    }

    method ConnectorDisconnected(c: Crtc)
      modifies this`heads, this`timers, this`idles, this`generation, this`presented
      ensures View() == DisconnectHead(old(View()), c)
    {
      hide Spec.DisableHead, Spec.RemoveHead;
      DisableHead(c);
      RemoveHead(c);
    }

    /** Every output must answer anew after a switch that was not refused. */
    method SetOutputPower(c: Crtc, on: bool, initOk: bool, outcome: RenderOutcome) returns (r: Result<(), ()>)
      modifies this
      ensures View() == SwitchPower(old(View()), c, on, initOk, outcome)
      ensures r.Ok? <==> CanSwitch(old(View()), c, on, initOk)
    {
      hide PowerOn, PowerOff, InvalidatePresentation;
      r := UdevSetOutputPower(c, on, initOk, outcome);
      if r.Ok? {
        InvalidateLockPresentation();
      }
    }

    /** Refused for a disabled head. */
    method UdevSetOutputPower(c: Crtc, on: bool, initOk: bool, outcome: RenderOutcome) returns (r: Result<(), ()>)
      modifies this`heads, this`timers, this`nextToken
      ensures View() == if on then PowerOn(old(View()), c, initOk, outcome) else PowerOff(old(View()), c)
      ensures r.Ok? <==> CanSwitch(old(View()), c, on, initOk)
      ensures r.Err? ==> View() == old(View())
    {
      if c !in heads || !heads[c].global {
        return Err(());
      }
      if on == heads[c].power.On? {
        return Ok(());
      }
      if !on {
        heads := heads[c := heads[c].(power := Off)];
        ReleaseSurface(c);
        assert heads == PowerOff(old(View()), c).heads;
        return Ok(());
      }
      if !initOk {
        return Err(());
      }
      heads := heads[c := heads[c].(surface := Some(NEW_SURFACE))];
      heads := heads[c := heads[c].(power := On)];
      assert heads == old(heads)[c := old(heads)[c].(power := On, surface := Some(NEW_SURFACE))];
      RenderNow(c, outcome);
      r := Ok(());
    }

    // ---------------------------------------------------------- any event

    /** The event loop delivers one event. Whatever it is, the lock invariant
        holds again; an acknowledgement goes out only on a running seat with
        every lit head blank or locked; a confirmed session hides the desktop;
        and an event the loop can account for strands no head and cleans none
        that it does not render. */
    method Dispatch(e: Event)
      requires CanHappen(View(), e)
      modifies this
      ensures View() == Apply(old(View()), e)
      ensures old(DeskLock.Inv(View())) ==>
                && DeskLock.Inv(View())
                && (acknowledged != old(acknowledged) ==>
                      !old(paused) && confirmed && DeskLock.Covered(View()) && DeskLock.LitHeadsDriven(View()))
                && (confirmed ==> DeskLock.DesktopHidden(View()))
      ensures old(DeskLock.Inv(View()) && DeskLoop.LoopInv(View())) && DeskLoop.Orderly(old(View()), e) ==>
                && DeskLoop.LoopInv(View())
                && (forall c :: !DeskLoop.Stranded(View(), c))
                && (forall c :: DeskEffects.Cleaned(old(View()), View(), c) ==>
                      DeskEffects.RenderedWith(old(View()), View(), c, DeskEffects.OutcomeOf(e, c)))
    {
      ghost var d := View();
      Perform(e);
      HandlingKeeps(d, e);
    }

    method Perform(e: Event)
      requires CanHappen(View(), e)
      modifies this
      ensures View() == Apply(old(View()), e)
    {
      match e {
        case LockRequested(l, client) => Lock(l, client);
        case UnlockRequested(l) => var legal := DispatchUnlock(l);
        case ObjectsDied(dead) => alive := alive - dead;
        case ConfirmChecked => MaybeConfirmLock();
        case SceneChanged(wanted) => ScheduleRedrawWhere(wanted);
        case IdleDue(c, outcome) => RunIdle(c, outcome);
        case Vblank(c, submitOk, outcome) => FrameFinish(c, submitOk, outcome);
        case TimerDue(t, outcome) => DispatchTimer(t, outcome);
        case RenderForced(c, outcome) => RenderNow(c, outcome);
        case SessionPaused => PauseSession();
        case SessionResumed(lost, order, outcomes) => ActivateSession(lost, order, outcomes);
        case HeadConnected(c, initOk, outcome) => ConnectorConnected(c, initOk, outcome);
        case HeadDisconnected(c) => ConnectorDisconnected(c);
        case HeadEnabled(c, initOk, outcome) => EnableHead(c, initOk, outcome);
        case HeadDisabled(c) => DisableHead(c);
        case PowerSwitched(c, on, initOk, outcome) => var r := SetOutputPower(c, on, initOk, outcome);
        case OutputsConfigured => InvalidateLockPresentation();
      }
    }
  }

  /** What one event keeps and when it may acknowledge. */
  lemma HandlingKeeps(d: Desk, e: Event)
    requires CanHappen(d, e)
    ensures DeskLock.Inv(d) ==>
              && DeskLock.Inv(Apply(d, e))
              && (Apply(d, e).lock.acknowledged != d.lock.acknowledged ==>
                    && !d.paused && Apply(d, e).lock.confirmed
                    && DeskLock.Covered(Apply(d, e)) && DeskLock.LitHeadsDriven(Apply(d, e)))
              && (Apply(d, e).lock.confirmed ==> DeskLock.DesktopHidden(Apply(d, e)))
    ensures DeskLock.Inv(d) && DeskLoop.LoopInv(d) && DeskLoop.Orderly(d, e) ==>
              && DeskLoop.LoopInv(Apply(d, e))
              && (forall c :: !DeskLoop.Stranded(Apply(d, e), c))
              && (forall c :: DeskEffects.Cleaned(d, Apply(d, e), c) ==>
                    DeskEffects.RenderedWith(d, Apply(d, e), c, DeskEffects.OutcomeOf(e, c)))
  {
    if DeskLock.Inv(d) {
      DeskLock.StepBarrier(d, e);
      if DeskLoop.LoopInv(d) && DeskLoop.Orderly(d, e) {
        DeskLoop.StepStrandsNone(d, e);
        forall c | DeskEffects.Cleaned(d, Apply(d, e), c)
          ensures DeskEffects.RenderedWith(d, Apply(d, e), c, DeskEffects.OutcomeOf(e, c))
        {
          DeskEffects.CleanedByRender(d, e, c);
        }
      }
    }
  }

  // ------------------------------------------------------------ lemmas about fields

  function Put(heads: map<Crtc, Head>, c: Crtc, s: Surface): map<Crtc, Head>
    requires c in heads
  {
    heads[c := heads[c].(surface := Some(s))]
  }

  lemma PutSame(heads: map<Crtc, Head>, c: Crtc, s1: Surface, s2: Surface)
    requires c in heads
    ensures c in Put(heads, c, s1) && Put(heads, c, s1)[c].surface == Some(s1)
    ensures Put(Put(heads, c, s1), c, s2) == Put(heads, c, s2)
  {
    assert Put(Put(heads, c, s1), c, s2) == Put(heads, c, s2);
  }

  /** A surface right after a frame was rendered for it. */
  ghost function Sent(s: Surface, lock: Lock, outcome: RenderOutcome): Surface {
    var flip := if outcome.Queued? || outcome.QueueFailed? then s.flipGeneration + 1 else s.flipGeneration;
    s.(flipGeneration := flip,
       flips := if outcome.Queued? then Enqueue(s.flips, RenderedFrame(lock, flip)) else s.flips)
  }

  lemma SentIsRendered(s: Surface, lock: Lock, token: Token, outcome: RenderOutcome)
    ensures var r := RenderedSurface(s, lock, token, outcome);
            && Sent(s.(redraw := Idle, dirty := false), lock, outcome).(dirty := r.dirty) == r.(redraw := Idle)
            && r.dirty == (outcome.QueueFailed? || outcome.RenderFailed?)
            && r.redraw == (if outcome.Queued? then WaitingForVblank(token) else WaitingForTimer(token))
            && !Sent(s.(redraw := Idle, dirty := false), lock, outcome).dirty
  {
  }

  /** The tokens of the heads already parked. */
  ghost function ParkedTokens(d: Desk, left: set<Crtc>): set<Token> {
    set c | c in d.heads && c !in left && d.Driven(c) && d.SurfaceOf(c).redraw.Stored().Some?
      :: d.SurfaceOf(c).redraw.Stored().value
  }

  ghost function TokensOf(r: Redraw): set<Token> {
    if r.Stored().Some? then {r.Stored().value} else {}
  }

  lemma ParkedTokensEnds(d: Desk)
    ensures ParkedTokens(d, d.heads.Keys) == {} && ParkedTokens(d, {}) == StoredTokens(d)
  {
  }

  lemma ParkedTokensStep(d: Desk, left: set<Crtc>, c: Crtc)
    requires c in d.heads && c !in left
    ensures ParkedTokens(d, left) ==
            ParkedTokens(d, left + {c}) + (if d.Driven(c) then TokensOf(d.SurfaceOf(c).redraw) else {})
  {
  }

  lemma CancelIsMinus(timers: map<Token, Timer>, r: Redraw)
    ensures Cancel(timers, r) == timers - TokensOf(r)
  {
  }

  lemma MinusMinus(timers: map<Token, Timer>, a: set<Token>, b: set<Token>)
    ensures timers - a - b == timers - (a + b)
  {
  }
}
