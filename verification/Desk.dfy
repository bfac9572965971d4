/** What the session lock and the DRM repaint loop keep, and what every event
    makes of it. A Desk is a value; the class in Compositor.dfy performs the
    same events on fields in place. The environment (the renderer, the kernel,
    the clients, the seat) enters as parameters of the events. */
module Desk {
  import opened Wrappers

  type Crtc = nat
  type OutputId = nat
  type Token = nat
  type LockId = nat
  type ClientId = nat

  // ------------------------------------------------------------ frames, heads

  datatype Content = Blank | Foreign | Desktop | LockScene

  /** A frame handed to the kernel: what it shows, the flip it was queued as,
      and the lock generation stamped into it when it shows the lock scene. */
  datatype Frame = Frame(content: Content, flip: nat, receipt: Option<nat>)

  const BLANK := Frame(Blank, 0, None)
  const FOREIGN := Frame(Foreign, 0, None)

  datatype Redraw =
    | Idle
    | Scheduled
    | WaitingForVblank(watchdog: Token)
    | WaitingForTimer(timer: Token)
  {
    function Stored(): Option<Token> {
      match this
      case WaitingForVblank(t) => Some(t)
      case WaitingForTimer(t) => Some(t)
      case _ => None
    }
  }

  /** The render side of a driven CRTC: what it scans out, the frames queued
      behind that (the first submitted, the second still replaceable), and
      where its repaint loop stands. */
  datatype Surface = Surface(shown: Frame, flips: seq<Frame>, dirty: bool, redraw: Redraw, flipGeneration: nat) {
    function Timeline(): seq<Frame> { [shown] + flips }
  }

  const NEW_SURFACE := Surface(BLANK, [], true, Idle, 0)

  datatype Power = On | Off

  /** A connected connector. `global` stands for its wl_output global: a head
      is enabled exactly while it has one. */
  datatype Head = Head(output: OutputId, global: bool, power: Power, surface: Option<Surface>)

  // ------------------------------------------------------------ the lock

  /** `known`, `alive` and `acknowledged` are the environment's and the
      protocol's side: lock objects ever created, not yet destroyed, and told
      that the session is locked. */
  datatype Lock = Lock(
    locked: bool,
    owner: Option<LockId>,
    ownerClient: Option<ClientId>,
    pending: Option<LockId>,
    confirmed: bool,
    generation: nat,
    presented: seq<OutputId>,
    known: set<LockId>,
    alive: set<LockId>,
    acknowledged: set<LockId>
  ) {
    predicate OwnerAlive() { owner.Some? && owner.value in alive }
    predicate Owns(l: LockId) { locked && owner == Some(l) }
  }

  // ------------------------------------------------------------ the event loop

  datatype TimerKind = Watchdog | RateLimit
  datatype Timer = Timer(kind: TimerKind, crtc: Crtc)

  /** Registered one-shot timers and queued idle callbacks. */
  datatype Loop = Loop(timers: map<Token, Timer>, nextToken: Token, idles: multiset<Crtc>)

  datatype Desk = Desk(lock: Lock, paused: bool, heads: map<Crtc, Head>, loop: Loop, nextOutput: OutputId) {
    predicate Enabled(c: Crtc) { c in heads && heads[c].global }
    predicate Driven(c: Crtc) { c in heads && heads[c].surface.Some? }

    function SurfaceOf(c: Crtc): Surface
      requires Driven(c)
    {
      heads[c].surface.value
    }

    function With(c: Crtc, s: Surface): Desk
      requires c in heads
    {
      this.(heads := heads[c := heads[c].(surface := Some(s))])
    }

    function WithTimers(timers: map<Token, Timer>): Desk {
      this.(loop := loop.(timers := timers))
    }
  }

  const START := Desk(Lock(false, None, None, None, false, 0, [], {}, {}, {}), false, map[],
                      Loop(map[], 0, multiset{}), 0)

  // ------------------------------------------------------------ rendering

  datatype RenderOutcome = Queued | NoDamage | QueueFailed | RenderFailed

  /** A third frame replaces the one that is not yet submitted. */
  function Enqueue(flips: seq<Frame>, f: Frame): seq<Frame> {
    if |flips| < 2 then flips + [f] else flips[..1] + [f]
  }

  function Cancel(timers: map<Token, Timer>, r: Redraw): map<Token, Timer> {
    match r.Stored()
    case Some(t) => timers - {t}
    case None => timers
  }

  /** The frame a render produces while the lock is as it is. */
  function RenderedFrame(lock: Lock, flip: nat): Frame {
    if lock.locked then Frame(LockScene, flip, Some(lock.generation)) else Frame(Desktop, flip, None)
  }

  function RenderedSurface(s: Surface, lock: Lock, token: Token, outcome: RenderOutcome): Surface {
    var flip := if outcome.Queued? || outcome.QueueFailed? then s.flipGeneration + 1 else s.flipGeneration;
    Surface(s.shown,
            if outcome.Queued? then Enqueue(s.flips, RenderedFrame(lock, flip)) else s.flips,
            outcome.QueueFailed? || outcome.RenderFailed?,
            if outcome.Queued? then WaitingForVblank(token) else WaitingForTimer(token),
            flip)
  }

  function RenderNow(d: Desk, c: Crtc, outcome: RenderOutcome): Desk {
    if !d.Enabled(c) || !d.Driven(c) then d
    else
      var s, token := d.SurfaceOf(c), d.loop.nextToken;
      var kind := if outcome.Queued? then Watchdog else RateLimit;
      d.With(c, RenderedSurface(s, d.lock, token, outcome))
       .(loop := Loop(Cancel(d.loop.timers, s.redraw)[token := Timer(kind, c)], token + 1, d.loop.idles))
  }

  // ------------------------------------------------------------ scheduling

  function Dirtied(h: Head, paused: bool): Head {
    match h.surface
    case None => h
    case Some(s) =>
      h.(surface := Some(s.(dirty := true,
                            redraw := if !paused && s.redraw.Idle? then Scheduled else s.redraw)))
  }

  /** The heads among `wanted` that an idle callback is queued for. */
  function ToSchedule(d: Desk, wanted: set<Crtc>): set<Crtc> {
    set c | c in d.heads && c in wanted && d.Driven(c) && !d.paused && d.SurfaceOf(c).redraw.Idle?
  }

  function Schedule(d: Desk, wanted: set<Crtc>): Desk {
    d.(heads := map c | c in d.heads :: if c in wanted then Dirtied(d.heads[c], d.paused) else d.heads[c],
       loop := d.loop.(idles := d.loop.idles + multiset(ToSchedule(d, wanted))))
  }

  function IdleRun(d: Desk, c: Crtc, outcome: RenderOutcome): Desk {
    var d' := d.(loop := d.loop.(idles := d.loop.idles - multiset{c}));
    if d'.Driven(c) && d'.SurfaceOf(c).redraw.Scheduled? then RenderNow(d', c, outcome) else d'
  }

  // ------------------------------------------------------------ completions

  datatype Completion = Completed(frame: Frame) | NothingPending | SubmitFailed

  /** The kernel finished the first queued frame; the next one, if any, is
      submitted now, and when that fails it is lost and so is the completed
      frame's user data. */
  function FrameSubmitted(s: Surface, submitOk: bool): (Completion, Surface) {
    if s.flips == [] then (NothingPending, s)
    else if submitOk || |s.flips| == 1 then (Completed(s.flips[0]), s.(shown := s.flips[0], flips := s.flips[1..]))
    else (SubmitFailed, s.(shown := s.flips[0], flips := []))
  }

  function FramePresented(lock: Lock, output: OutputId, generation: nat): Lock {
    if lock.pending.Some? && generation == lock.generation && output !in lock.presented
    then lock.(presented := lock.presented + [output]) else lock
  }

  function Acknowledge(lock: Lock, output: OutputId, completion: Completion): Lock {
    if completion.Completed? && completion.frame.receipt.Some?
    then FramePresented(lock, output, completion.frame.receipt.value) else lock
  }

  /** The completion of an abandoned flip: a newer one has been queued since. */
  predicate Stale(completion: Completion, s: Surface) {
    completion.Completed? && completion.frame.flip != s.flipGeneration
  }

  function SubmitFrame(d: Desk, c: Crtc, submitOk: bool): Desk
    requires d.Driven(c)
  {
    var (completion, s) := FrameSubmitted(d.SurfaceOf(c), submitOk);
    d.With(c, s).(lock := Acknowledge(d.lock, d.heads[c].output, completion))
  }

  /** The loop's part of a completion. Whatever the loop was waiting for, the
      state is idle afterwards; only a flip it waited for goes on to render. */
  function EndFlip(d: Desk, c: Crtc, outcome: RenderOutcome): Desk
    requires d.Driven(c)
  {
    var s := d.SurfaceOf(c);
    var idle := d.With(c, s.(redraw := Idle));
    if !s.redraw.WaitingForVblank? then idle
    else
      var freed := idle.WithTimers(d.loop.timers - {s.redraw.watchdog});
      if s.dirty then RenderNow(freed, c, outcome) else freed
  }

  function FrameFinish(d: Desk, c: Crtc, submitOk: bool, outcome: RenderOutcome): Desk {
    if !d.Driven(c) then d
    else
      var submitted := SubmitFrame(d, c, submitOk);
      if Stale(FrameSubmitted(d.SurfaceOf(c), submitOk).0, d.SurfaceOf(c)) then submitted
      else EndFlip(submitted, c, outcome)
  }

  function TimerFired(d: Desk, t: Token, outcome: RenderOutcome): Desk
    requires t in d.loop.timers
  {
    var timer := d.loop.timers[t];
    var fired := if timer.kind.Watchdog? then WatchdogFired(d, timer.crtc, outcome)
                 else RateLimitFired(d, timer.crtc, outcome);
    fired.WithTimers(fired.loop.timers - {t})
  }

  function WatchdogFired(d: Desk, c: Crtc, outcome: RenderOutcome): Desk {
    if !d.Driven(c) || !d.SurfaceOf(c).redraw.WaitingForVblank? then d
    else RenderNow(d.With(c, d.SurfaceOf(c).(redraw := Idle, dirty := true)), c, outcome)
  }

  function RateLimitFired(d: Desk, c: Crtc, outcome: RenderOutcome): Desk {
    if !d.Driven(c) || !d.SurfaceOf(c).redraw.WaitingForTimer? then d
    else
      var idle := d.With(c, d.SurfaceOf(c).(redraw := Idle));
      if d.SurfaceOf(c).dirty then RenderNow(idle, c, outcome) else idle
  }

  // ------------------------------------------------------------ the lock's events

  function ResetPresentation(lock: Lock): Lock {
    lock.(generation := lock.generation + 1, presented := [])
  }

  /** A new lock object asks for the session. Refused while the owner lives,
      and to the client whose earlier lock was abandoned. */
  function RequestLock(d: Desk, l: LockId, client: Option<ClientId>): Desk {
    var lock := d.lock.(known := d.lock.known + {l}, alive := d.lock.alive + {l});
    var met := d.(lock := lock);
    if lock.OwnerAlive() || (client.Some? && client == lock.ownerClient) then met
    else
      Schedule(met.(lock := ResetPresentation(lock.(ownerClient := client, owner := Some(l), pending := Some(l),
                                                    locked := true))),
               met.heads.Keys)
  }

  /** Answers whether the request was legal. */
  function RequestUnlock(d: Desk, l: LockId): (Desk, bool) {
    if !d.lock.Owns(l) || d.lock.pending.Some? then (d, false)
    else
      (Schedule(d.(lock := d.lock.(locked := false, owner := None, ownerClient := None, pending := None,
                                   confirmed := false, alive := d.lock.alive - {l})),
                d.heads.Keys), true)
  }

  function InvalidatePresentation(d: Desk): Desk {
    if d.lock.pending.Some? then Schedule(d.(lock := ResetPresentation(d.lock)), d.heads.Keys) else d
  }

  /** The outputs whose receipt the acknowledgement waits for. */
  function ConfirmationOutputs(d: Desk): set<OutputId> {
    set c | c in d.heads && d.heads[c].global && d.heads[c].power.On? :: d.heads[c].output
  }

  predicate Ready(d: Desk) {
    !d.paused && forall o :: o in ConfirmationOutputs(d) ==> o in d.lock.presented
  }

  function MaybeConfirm(d: Desk): Desk {
    if d.lock.pending.None? then d
    else if !d.lock.OwnerAlive() then d.(lock := d.lock.(pending := None))
    else if !Ready(d) then d
    else d.(lock := d.lock.(pending := None, confirmed := true,
                            acknowledged := d.lock.acknowledged + {d.lock.pending.value}))
  }

  // ------------------------------------------------------------ heads and the seat

  function Parked(h: Head): Head {
    match h.surface
    case None => h
    case Some(s) =>
      h.(surface := Some(s.(redraw := Idle)))
  }

  function StoredTokens(d: Desk): set<Token> {
    set c | c in d.heads && d.Driven(c) && d.SurfaceOf(c).redraw.Stored().Some?
      :: d.SurfaceOf(c).redraw.Stored().value
  }

  function Pause(d: Desk): Desk {
    var i := InvalidatePresentation(d);
    i.(paused := true,
       heads := map c | c in i.heads :: Parked(i.heads[c]),
       loop := i.loop.(timers := i.loop.timers - StoredTokens(i)))
  }

  /** Another session may have drawn on the CRTCs in `lost` and dropped their
      queued flips. */
  function AfterVtSwitch(h: Head, lost: bool): Head {
    if lost && h.surface.Some? then h.(surface := Some(h.surface.value.(shown := FOREIGN, flips := []))) else h
  }

  function RepaintNow(d: Desk, c: Crtc, outcome: RenderOutcome): Desk {
    RenderNow(if d.Driven(c) then d.With(c, d.SurfaceOf(c).(dirty := true)) else d, c, outcome)
  }

  function RepaintAll(d: Desk, order: seq<Crtc>, outcomes: map<Crtc, RenderOutcome>): Desk
    requires forall c :: c in order ==> c in outcomes
    decreases |order|
  {
    if order == [] then d else RepaintAll(RepaintNow(d, order[0], outcomes[order[0]]), order[1..], outcomes)
  }

  /** `order` is the order in which the enabled heads are walked. */
  function Resume(d: Desk, lost: set<Crtc>, order: seq<Crtc>, outcomes: map<Crtc, RenderOutcome>): Desk
    requires forall c :: c in order ==> c in outcomes
  {
    var active := d.(paused := false, heads := map c | c in d.heads :: AfterVtSwitch(d.heads[c], c in lost));
    RepaintAll(InvalidatePresentation(active), order, outcomes)
  }

  /** Drops the surface: the stored timer is cancelled, the CRTC released. */
  function Release(d: Desk, c: Crtc): Desk
    requires c in d.heads
  {
    match d.heads[c].surface
    case None => d
    case Some(s) =>
      d.(heads := d.heads[c := d.heads[c].(surface := None)]).WithTimers(Cancel(d.loop.timers, s.redraw))
  }

  function DisableHead(d: Desk, c: Crtc): Desk {
    if !d.Enabled(c) then d
    else
      var r := Release(d, c);
      r.(heads := r.heads[c := r.heads[c].(global := false, power := On)])
  }

  function EnableHead(d: Desk, c: Crtc, initOk: bool, outcome: RenderOutcome): Desk {
    if c !in d.heads || d.Enabled(c) then d
    else if !initOk then d.(heads := d.heads[c := d.heads[c].(power := On)])
    else RenderNow(d.(heads := d.heads[c := Head(d.heads[c].output, true, On, Some(NEW_SURFACE))]), c, outcome)
  }

  /** Outputs coming and going void every receipt of a pending lock. */
  function RemoveHead(d: Desk, c: Crtc): Desk {
    if c !in d.heads then d else InvalidatePresentation(d.(heads := d.heads - {c}))
  }

  function DisconnectHead(d: Desk, c: Crtc): Desk {
    RemoveHead(DisableHead(d, c), c)
  }

  function CreateHead(d: Desk, c: Crtc): Desk {
    InvalidatePresentation(d.(heads := d.heads[c := Head(d.nextOutput, false, On, None)], nextOutput := d.nextOutput + 1))
  }

  function ConnectHead(d: Desk, c: Crtc, initOk: bool, outcome: RenderOutcome): Desk {
    EnableHead(CreateHead(DisconnectHead(d, c), c), c, initOk, outcome)
  }

  function PowerOff(d: Desk, c: Crtc): Desk {
    if !d.Enabled(c) || d.heads[c].power.Off? then d
    else
      var r := Release(d, c);
      r.(heads := r.heads[c := r.heads[c].(power := Off)])
  }

  function PowerOn(d: Desk, c: Crtc, initOk: bool, outcome: RenderOutcome): Desk {
    if !d.Enabled(c) || d.heads[c].power.On? || !initOk then d
    else RenderNow(d.(heads := d.heads[c := d.heads[c].(power := On, surface := Some(NEW_SURFACE))]), c, outcome)
  }

  /** Whether a head can be switched on or off as asked. */
  predicate CanSwitch(d: Desk, c: Crtc, on: bool, initOk: bool) {
    d.Enabled(c) && (on && d.heads[c].power.Off? ==> initOk)
  }

  /** A switch that is not refused voids receipts, even one that changes nothing. */
  function SwitchPower(d: Desk, c: Crtc, on: bool, initOk: bool, outcome: RenderOutcome): Desk {
    if !CanSwitch(d, c, on, initOk) then d
    else InvalidatePresentation(if on then PowerOn(d, c, initOk, outcome) else PowerOff(d, c))
  }

  // ------------------------------------------------------------ events and runs

  datatype Event =
    | LockRequested(l: LockId, client: Option<ClientId>)
    | UnlockRequested(l: LockId)
    | ObjectsDied(dead: set<LockId>)
    | ConfirmChecked
    | SceneChanged(wanted: set<Crtc>)
    | IdleDue(c: Crtc, outcome: RenderOutcome)
    | Vblank(c: Crtc, submitOk: bool, outcome: RenderOutcome)
    | TimerDue(t: Token, outcome: RenderOutcome)
    | RenderForced(c: Crtc, outcome: RenderOutcome)
    | SessionPaused
    | SessionResumed(lost: set<Crtc>, order: seq<Crtc>, outcomes: map<Crtc, RenderOutcome>)
    | HeadConnected(c: Crtc, initOk: bool, outcome: RenderOutcome)
    | HeadDisconnected(c: Crtc)
    | HeadEnabled(c: Crtc, initOk: bool, outcome: RenderOutcome)
    | HeadDisabled(c: Crtc)
    | PowerSwitched(c: Crtc, on: bool, initOk: bool, outcome: RenderOutcome)
    | OutputsConfigured

  /** What the environment guarantees about an event: lock objects are new, a
      destroyed object sends nothing, only queued callbacks and registered
      timers run, and a resume walks every enabled head. */
  predicate CanHappen(d: Desk, e: Event) {
    match e
    case LockRequested(l, _) => l !in d.lock.known
    case UnlockRequested(l) => l in d.lock.alive
    case IdleDue(c, _) => c in d.loop.idles
    case TimerDue(t, _) => t in d.loop.timers
    case SessionResumed(_, order, outcomes) =>
      (forall c :: c in order ==> c in outcomes) && (forall c :: c in d.heads && d.heads[c].global ==> c in order)
    case _ => true
  }

  function Apply(d: Desk, e: Event): Desk
    requires CanHappen(d, e)
  {
    match e
    case LockRequested(l, client) => RequestLock(d, l, client)
    case UnlockRequested(l) => RequestUnlock(d, l).0
    case ObjectsDied(dead) => d.(lock := d.lock.(alive := d.lock.alive - dead))
    case ConfirmChecked => MaybeConfirm(d)
    case SceneChanged(wanted) => Schedule(d, wanted)
    case IdleDue(c, outcome) => IdleRun(d, c, outcome)
    case Vblank(c, submitOk, outcome) => FrameFinish(d, c, submitOk, outcome)
    case TimerDue(t, outcome) => TimerFired(d, t, outcome)
    case RenderForced(c, outcome) => RenderNow(d, c, outcome)
    case SessionPaused => Pause(d)
    case SessionResumed(lost, order, outcomes) => Resume(d, lost, order, outcomes)
    case HeadConnected(c, initOk, outcome) => ConnectHead(d, c, initOk, outcome)
    case HeadDisconnected(c) => DisconnectHead(d, c)
    case HeadEnabled(c, initOk, outcome) => EnableHead(d, c, initOk, outcome)
    case HeadDisabled(c) => DisableHead(d, c)
    case PowerSwitched(c, on, initOk, outcome) => SwitchPower(d, c, on, initOk, outcome)
    case OutputsConfigured => InvalidatePresentation(d)
  }

  /** A run: the states after each event, from the start. */
  ghost predicate IsRun(states: seq<Desk>, events: seq<Event>) {
    && |states| == |events| + 1 && states[0] == START
    && forall i :: 0 <= i < |events| ==> CanHappen(states[i], events[i]) && states[i + 1] == Apply(states[i], events[i])
  }
}
