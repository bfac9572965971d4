/** The repaint loop of a Desk: nothing dirty is ever stranded, and no timer
    is lost, in every run whose completions find the loop waiting for them. */
module DeskLoop {
  import opened Wrappers
  import opened Desk
  import DeskLock

  // ------------------------------------------------------------ invariant

  /** Flips are queued in strictly rising order, none newer than the counter. */
  ghost predicate FlipsRise(s: Surface) {
    && |s.flips| <= 2
    && (forall i, j :: 0 <= i < j < |s.flips| ==> s.flips[i].flip < s.flips[j].flip)
    && forall i :: 0 <= i < |s.flips| ==> s.flips[i].flip <= s.flipGeneration
  }

  /** One head's loop: a stored timer is registered under its own kind and
      head; a scheduled render has its callback queued; what is dirty on a
      running seat is going to be rendered; a wait for a vblank has the newest
      flip in flight. */
  ghost predicate SurfaceLoops(s: Surface, c: Crtc, loop: Loop, paused: bool) {
    && FlipsRise(s)
    && (s.redraw.WaitingForVblank? ==>
          && s.redraw.watchdog in loop.timers && loop.timers[s.redraw.watchdog] == Timer(Watchdog, c)
          && |s.flips| > 0 && s.flips[|s.flips| - 1].flip == s.flipGeneration)
    && (s.redraw.WaitingForTimer? ==>
          s.redraw.timer in loop.timers && loop.timers[s.redraw.timer] == Timer(RateLimit, c))
    && (s.redraw.Scheduled? ==> c in loop.idles && s.dirty && !paused)
    && (s.dirty && !paused ==> !s.redraw.Idle?)
  }

  /** Every registered timer is the one its head has stored. */
  ghost predicate TimerKept(d: Desk, t: Token)
    requires t in d.loop.timers
  {
    && t < d.loop.nextToken
    && d.Driven(d.loop.timers[t].crtc)
    && d.SurfaceOf(d.loop.timers[t].crtc).redraw.Stored() == Some(t)
  }

  ghost predicate LoopInv(d: Desk) {
    && (forall c :: d.Driven(c) ==> d.Enabled(c) && SurfaceLoops(d.SurfaceOf(c), c, d.loop, d.paused))
    && forall t :: t in d.loop.timers ==> TimerKept(d, t)
  }

  /** Stored tokens and registered timers are the same thing. */
  ghost predicate TimersMatch(d: Desk) {
    && (forall c :: d.Driven(c) && d.SurfaceOf(c).redraw.Stored().Some? ==>
          d.SurfaceOf(c).redraw.Stored().value in d.loop.timers &&
          d.loop.timers[d.SurfaceOf(c).redraw.Stored().value].crtc == c)
    && forall t :: t in d.loop.timers ==> TimerKept(d, t)
  }

  lemma LoopInvMatches(d: Desk)
    requires LoopInv(d)
    ensures TimersMatch(d)
  {
    forall c | d.Driven(c)
      ensures SurfaceLoops(d.SurfaceOf(c), c, d.loop, d.paused)
    {
    }
  }

  /** The invariant except that head c is being worked on: nothing is said
      about its loop beyond its flips, and it has no timer. */
  ghost predicate LoopInvBut(d: Desk, c: Crtc) {
    && d.Driven(c) && d.Enabled(c) && FlipsRise(d.SurfaceOf(c)) && d.SurfaceOf(c).redraw.Stored().None?
    && (forall k :: d.Driven(k) && k != c ==> d.Enabled(k) && SurfaceLoops(d.SurfaceOf(k), k, d.loop, d.paused))
    && forall t :: t in d.loop.timers ==> TimerKept(d, t) && d.loop.timers[t].crtc != c
  }

  // ------------------------------------------------------------ rendering

  lemma RenderedFlips(s: Surface, lock: Lock, token: Token, outcome: RenderOutcome)
    requires FlipsRise(s)
    ensures var s' := RenderedSurface(s, lock, token, outcome);
            && FlipsRise(s')
            && (outcome.Queued? ==> |s'.flips| > 0 && s'.flips[|s'.flips| - 1].flip == s'.flipGeneration)
  {
  }

  /** A render leaves its head waiting, whatever came of it, and the others alone. */
  lemma RenderOne(d: Desk, c: Crtc, outcome: RenderOutcome)
    requires TimersMatch(d) && d.Driven(c) && d.Enabled(c) && FlipsRise(d.SurfaceOf(c))
    ensures var d' := RenderNow(d, c, outcome);
            && TimersMatch(d') && d'.heads.Keys == d.heads.Keys && d'.Driven(c) && d'.paused == d.paused
            && SurfaceLoops(d'.SurfaceOf(c), c, d'.loop, d'.paused)
            && !d'.SurfaceOf(c).redraw.Idle?
            && d'.heads[c].global == d.heads[c].global
            && forall k :: k in d.heads && k != c ==>
                 && d'.heads[k] == d.heads[k]
                 && (d.Driven(k) && SurfaceLoops(d.SurfaceOf(k), k, d.loop, d.paused) ==>
                       SurfaceLoops(d.SurfaceOf(k), k, d'.loop, d'.paused))
  {
    var d' := RenderNow(d, c, outcome);
    RenderedFlips(d.SurfaceOf(c), d.lock, d.loop.nextToken, outcome);
    hide FlipsRise;
    forall t | t in d'.loop.timers
      ensures TimerKept(d', t)
    {
      if t != d.loop.nextToken {
        assert TimerKept(d, t);
      }
    }
    forall k | d'.Driven(k) && d'.SurfaceOf(k).redraw.Stored().Some?
      ensures d'.SurfaceOf(k).redraw.Stored().value in d'.loop.timers
      ensures d'.loop.timers[d'.SurfaceOf(k).redraw.Stored().value].crtc == k
    {
      if k != c {
        assert d'.SurfaceOf(k) == d.SurfaceOf(k);
        assert TimerKept(d, d.SurfaceOf(k).redraw.Stored().value);
      }
    }
    forall k | d.Driven(k) && k != c && SurfaceLoops(d.SurfaceOf(k), k, d.loop, d.paused)
      ensures SurfaceLoops(d.SurfaceOf(k), k, d'.loop, d'.paused)
    {
      if d.SurfaceOf(k).redraw.Stored().Some? {
        assert TimerKept(d, d.SurfaceOf(k).redraw.Stored().value);
      }
    }
  }

  lemma RenderLoops(d: Desk, c: Crtc, outcome: RenderOutcome)
    requires LoopInv(d) || LoopInvBut(d, c)
    ensures LoopInv(RenderNow(d, c, outcome))
  {
    if d.Driven(c) {
      if LoopInv(d) {
        LoopInvMatches(d);
      } else {
        OthersMatch(d, c);
      }
      RenderOne(d, c, outcome);
      var d' := RenderNow(d, c, outcome);
      forall k | d'.Driven(k)
        ensures d'.Enabled(k) && SurfaceLoops(d'.SurfaceOf(k), k, d'.loop, d'.paused)
      {
        if k != c {
          assert d'.heads[k] == d.heads[k];
          assert d.Driven(k) && SurfaceLoops(d.SurfaceOf(k), k, d.loop, d.paused);
        }
      }
    }
  }

  lemma OthersMatch(d: Desk, c: Crtc)
    requires LoopInvBut(d, c)
    ensures TimersMatch(d)
  {
    forall k | d.Driven(k) && d.SurfaceOf(k).redraw.Stored().Some?
      ensures SurfaceLoops(d.SurfaceOf(k), k, d.loop, d.paused)
    {
    }
  }

  lemma ScheduleLoops(d: Desk, wanted: set<Crtc>)
    requires LoopInv(d)
    ensures LoopInv(Schedule(d, wanted))
  {
    var d' := Schedule(d, wanted);
    forall c | d'.Driven(c)
      ensures d'.Enabled(c) && SurfaceLoops(d'.SurfaceOf(c), c, d'.loop, d'.paused)
    {
      assert SurfaceLoops(d.SurfaceOf(c), c, d.loop, d.paused);
      if c in ToSchedule(d, wanted) {
        assert c in multiset(ToSchedule(d, wanted));
      }
    }
    forall t | t in d'.loop.timers
      ensures TimerKept(d', t)
    {
      assert TimerKept(d, t);
    }
  }

  // ------------------------------------------------------------ taking one head apart

  /** A head whose timer has been cancelled is free to be worked on. */
  lemma FreedHead(d: Desk, c: Crtc, s: Surface)
    requires LoopInv(d) && d.Driven(c) && FlipsRise(s) && s.redraw.Idle?
    ensures LoopInvBut(d.With(c, s).WithTimers(Cancel(d.loop.timers, d.SurfaceOf(c).redraw)), c)
  {
    var d' := d.With(c, s).WithTimers(Cancel(d.loop.timers, d.SurfaceOf(c).redraw));
    forall k | d'.Driven(k) && k != c
      ensures d'.Enabled(k) && SurfaceLoops(d'.SurfaceOf(k), k, d'.loop, d'.paused)
    {
      assert SurfaceLoops(d.SurfaceOf(k), k, d.loop, d.paused);
      assert SurfaceLoops(d.SurfaceOf(c), c, d.loop, d.paused);
    }
    forall t | t in d'.loop.timers
      ensures TimerKept(d', t) && d'.loop.timers[t].crtc != c
    {
      assert TimerKept(d, t);
    }
  }

  /** A freed head that is idle and clean may stay so. */
  lemma RestedHead(d: Desk, c: Crtc)
    requires LoopInvBut(d, c) && d.SurfaceOf(c).redraw.Idle? && (d.SurfaceOf(c).dirty ==> d.paused)
    ensures LoopInv(d)
  {
  }

  /** A head without a surface has no loop. */
  lemma ReleasedHead(d: Desk, c: Crtc, h: Head)
    requires LoopInv(d) && c in d.heads && h.surface.None?
    ensures LoopInv(Release(d, c).(heads := Release(d, c).heads[c := h]))
  {
    var d' := Release(d, c).(heads := Release(d, c).heads[c := h]);
    forall k | d'.Driven(k)
      ensures d'.Enabled(k) && SurfaceLoops(d'.SurfaceOf(k), k, d'.loop, d'.paused)
    {
      assert SurfaceLoops(d.SurfaceOf(k), k, d.loop, d.paused);
      if d.Driven(c) {
        assert SurfaceLoops(d.SurfaceOf(c), c, d.loop, d.paused);
      }
    }
    forall t | t in d'.loop.timers
      ensures TimerKept(d', t)
    {
      assert TimerKept(d, t);
    }
  }

  // ------------------------------------------------------------ completions

  lemma SubmittedFlips(s: Surface, submitOk: bool)
    requires FlipsRise(s)
    ensures FlipsRise(FrameSubmitted(s, submitOk).1)
    ensures FrameSubmitted(s, submitOk).1.redraw == s.redraw && FrameSubmitted(s, submitOk).1.dirty == s.dirty
  {
  }

  /** A stale completion leaves the loop exactly as it was, and what it waits
      for still in flight. */
  lemma StaleLoops(d: Desk, c: Crtc, submitOk: bool, outcome: RenderOutcome)
    requires LoopInv(d) && d.Driven(c) && Stale(FrameSubmitted(d.SurfaceOf(c), submitOk).0, d.SurfaceOf(c))
    ensures LoopInv(FrameFinish(d, c, submitOk, outcome))
    ensures FrameFinish(d, c, submitOk, outcome).loop == d.loop
    ensures FrameFinish(d, c, submitOk, outcome).SurfaceOf(c).redraw == d.SurfaceOf(c).redraw
  {
    var s, d' := d.SurfaceOf(c), FrameFinish(d, c, submitOk, outcome);
    SubmittedFlips(s, submitOk);
    assert SurfaceLoops(s, c, d.loop, d.paused);
    forall k | d'.Driven(k)
      ensures d'.Enabled(k) && SurfaceLoops(d'.SurfaceOf(k), k, d'.loop, d'.paused)
    {
      assert SurfaceLoops(d.SurfaceOf(k), k, d.loop, d.paused);
    }
    forall t | t in d'.loop.timers
      ensures TimerKept(d', t)
    {
      assert TimerKept(d, t);
    }
  }

  /** Under the invariant a completion ends a vblank wait exactly when nothing
      newer is queued behind it, or what was is lost. */
  lemma WaitEndsWithNewest(d: Desk, c: Crtc, submitOk: bool)
    requires LoopInv(d) && d.Driven(c) && d.SurfaceOf(c).redraw.WaitingForVblank?
    ensures Stale(FrameSubmitted(d.SurfaceOf(c), submitOk).0, d.SurfaceOf(c)) <==>
            FrameSubmitted(d.SurfaceOf(c), submitOk).1.flips != []
  {
    assert SurfaceLoops(d.SurfaceOf(c), c, d.loop, d.paused);
  }

  /** A completion finds the loop ready for it: it is stale, or the loop waits
      for a vblank or is at rest. */
  predicate Accounted(d: Desk, c: Crtc, submitOk: bool) {
    d.Driven(c) ==>
      || Stale(FrameSubmitted(d.SurfaceOf(c), submitOk).0, d.SurfaceOf(c))
      || d.SurfaceOf(c).redraw.WaitingForVblank?
      || d.SurfaceOf(c).redraw.Idle?
  }

  lemma LockDoesNotLoop(d: Desk, lock: Lock)
    ensures LoopInv(d.(lock := lock)) <==> LoopInv(d)
    ensures forall c :: LoopInvBut(d.(lock := lock), c) <==> LoopInvBut(d, c)
  {
    var d' := d.(lock := lock);
    assert forall t :: t in d.loop.timers ==> TimerKept(d, t) == TimerKept(d', t);
    assert forall c :: d.Driven(c) ==> d'.Driven(c) && d'.SurfaceOf(c) == d.SurfaceOf(c);
    assert forall c :: d'.Driven(c) ==> d.Driven(c) && d.Enabled(c) == d'.Enabled(c);
  }

  /** A head whose flip has just completed, its wait not yet ended. */
  ghost predicate FlipDone(d: Desk, c: Crtc) {
    && TimersMatch(d) && d.Driven(c) && d.Enabled(c) && FlipsRise(d.SurfaceOf(c))
    && (d.SurfaceOf(c).redraw.WaitingForVblank? ||
        (d.SurfaceOf(c).redraw.Idle? && (d.SurfaceOf(c).dirty ==> d.paused)))
    && forall k :: d.Driven(k) && k != c ==> d.Enabled(k) && SurfaceLoops(d.SurfaceOf(k), k, d.loop, d.paused)
  }

  lemma SubmitLoops(d: Desk, c: Crtc, submitOk: bool)
    requires LoopInv(d) && d.Driven(c) && !d.SurfaceOf(c).redraw.Scheduled? && !d.SurfaceOf(c).redraw.WaitingForTimer?
    ensures FlipDone(SubmitFrame(d, c, submitOk), c)
  {
    var s, d' := d.SurfaceOf(c), SubmitFrame(d, c, submitOk);
    LoopInvMatches(d);
    SubmittedFlips(s, submitOk);
    assert SurfaceLoops(s, c, d.loop, d.paused);
    forall t | t in d'.loop.timers
      ensures TimerKept(d', t)
    {
      assert TimerKept(d, t);
    }
    forall k | d'.Driven(k) && k != c
      ensures d'.Enabled(k) && SurfaceLoops(d'.SurfaceOf(k), k, d'.loop, d'.paused)
      ensures d'.SurfaceOf(k) == d.SurfaceOf(k)
    {
      assert SurfaceLoops(d.SurfaceOf(k), k, d.loop, d.paused);
    }
  }

  lemma EndFlipLoops(d: Desk, c: Crtc, outcome: RenderOutcome)
    requires FlipDone(d, c)
    ensures LoopInv(EndFlip(d, c, outcome))
  {
    var s := d.SurfaceOf(c);
    var freed := d.With(c, s.(redraw := Idle)).WithTimers(Cancel(d.loop.timers, s.redraw));
    forall t | t in freed.loop.timers
      ensures TimerKept(freed, t) && freed.loop.timers[t].crtc != c
    {
      assert TimerKept(d, t);
    }
    forall k | freed.Driven(k) && k != c
      ensures freed.Enabled(k) && SurfaceLoops(freed.SurfaceOf(k), k, freed.loop, freed.paused)
    {
      assert SurfaceLoops(d.SurfaceOf(k), k, d.loop, d.paused);
      if s.redraw.WaitingForVblank? {
        assert d.loop.timers[s.redraw.watchdog].crtc == c;
      }
    }
    if s.redraw.WaitingForVblank? && s.dirty {
      RenderLoops(freed, c, outcome);
    } else {
      RestedHead(freed, c);
    }
  }

  lemma AccountedFinishLoops(d: Desk, c: Crtc, submitOk: bool, outcome: RenderOutcome)
    requires LoopInv(d) && Accounted(d, c, submitOk)
    ensures LoopInv(FrameFinish(d, c, submitOk, outcome))
  {
    hide EndFlip, LoopInv;
    if d.Driven(c) {
      if Stale(FrameSubmitted(d.SurfaceOf(c), submitOk).0, d.SurfaceOf(c)) {
        StaleLoops(d, c, submitOk, outcome);
      } else {
        SubmitLoops(d, c, submitOk);
        EndFlipLoops(SubmitFrame(d, c, submitOk), c, outcome);
      }
    }
  }

  /** ... and only then: any other completion overwrites what the loop was
      doing, leaving a scheduled head dirty and idle or a timer registered that
      no head has stored. */
  lemma FinishLoopsIffAccounted(d: Desk, c: Crtc, submitOk: bool, outcome: RenderOutcome)
    requires LoopInv(d)
    ensures LoopInv(FrameFinish(d, c, submitOk, outcome)) <==> Accounted(d, c, submitOk)
  {
    if Accounted(d, c, submitOk) {
      AccountedFinishLoops(d, c, submitOk, outcome);
    } else {
      var s, d' := d.SurfaceOf(c), FrameFinish(d, c, submitOk, outcome);
      assert SurfaceLoops(s, c, d.loop, d.paused);
      assert d'.Driven(c) && d'.SurfaceOf(c).redraw.Idle? && d'.SurfaceOf(c).dirty == s.dirty;
      assert d'.loop == d.loop && d'.paused == d.paused;
      if s.redraw.WaitingForTimer? {
        assert !TimerKept(d', s.redraw.timer);
      } else {
        assert !SurfaceLoops(d'.SurfaceOf(c), c, d'.loop, d'.paused);
      }
    }
  }

  /** A head that shows something old while nothing is left to render it anew. */
  predicate Stranded(d: Desk, c: Crtc) {
    d.Driven(c) && d.SurfaceOf(c).dirty && d.SurfaceOf(c).redraw.Idle? && !d.paused
  }

  /** A completion strands its head exactly when nobody accounted for it, the
      seat is running and the head is dirty. */
  lemma FinishStrandsIff(d: Desk, c: Crtc, submitOk: bool, outcome: RenderOutcome)
    requires LoopInv(d) && d.Driven(c)
    ensures Stranded(FrameFinish(d, c, submitOk, outcome), c) <==>
            !Accounted(d, c, submitOk) && d.SurfaceOf(c).dirty && !d.paused
  {
    if Accounted(d, c, submitOk) {
      AccountedFinishLoops(d, c, submitOk, outcome);
      var d' := FrameFinish(d, c, submitOk, outcome);
      if d'.Driven(c) {
        assert SurfaceLoops(d'.SurfaceOf(c), c, d'.loop, d'.paused);
      }
    }
  }

  // ------------------------------------------------------------ the other events

  lemma IdleLoops(d: Desk, c: Crtc, outcome: RenderOutcome)
    requires LoopInv(d)
    ensures LoopInv(IdleRun(d, c, outcome))
  {
    var d' := d.(loop := d.loop.(idles := d.loop.idles - multiset{c}));
    forall k | d'.Driven(k) && k != c
      ensures d'.Enabled(k) && SurfaceLoops(d'.SurfaceOf(k), k, d'.loop, d'.paused)
    {
      assert SurfaceLoops(d.SurfaceOf(k), k, d.loop, d.paused);
    }
    forall t | t in d'.loop.timers
      ensures TimerKept(d', t)
    {
      assert TimerKept(d, t);
    }
    if d.Driven(c) {
      assert SurfaceLoops(d.SurfaceOf(c), c, d.loop, d.paused);
      if d.SurfaceOf(c).redraw.Scheduled? {
        assert LoopInvBut(d', c);
        RenderLoops(d', c, outcome);
      } else {
        assert LoopInv(d');
      }
    } else {
      assert LoopInv(d');
    }
  }

  /** A registered timer is the one its head waits on, so firing it ends the wait. */
  lemma TimerLoops(d: Desk, t: Token, outcome: RenderOutcome)
    requires LoopInv(d) && t in d.loop.timers
    ensures LoopInv(TimerFired(d, t, outcome))
  {
    var c := d.loop.timers[t].crtc;
    assert TimerKept(d, t);
    var s := d.SurfaceOf(c);
    assert SurfaceLoops(s, c, d.loop, d.paused);
    var s' := if s.redraw.WaitingForVblank? then s.(redraw := Idle, dirty := true) else s.(redraw := Idle);
    FreedHead(d, c, s');
    var freed := d.With(c, s').WithTimers(d.loop.timers - {t});
    assert Cancel(d.loop.timers, s.redraw) == d.loop.timers - {t};
    if s'.dirty {
      RenderLoops(freed, c, outcome);
      RenderThenDrop(d.With(c, s'), c, t, outcome);
    } else {
      RestedHead(freed, c);
    }
  }

  lemma RenderThenDrop(d: Desk, c: Crtc, t: Token, outcome: RenderOutcome)
    requires d.Driven(c) && d.SurfaceOf(c).redraw.Idle? && t in d.loop.timers && t < d.loop.nextToken && d.Enabled(c)
    ensures var r := RenderNow(d, c, outcome);
            r.WithTimers(r.loop.timers - {t}) == RenderNow(d.WithTimers(d.loop.timers - {t}), c, outcome)
  {
    var r := RenderNow(d, c, outcome);
    var r' := RenderNow(d.WithTimers(d.loop.timers - {t}), c, outcome);
    assert r.loop.timers - {t} == r'.loop.timers;
  }

  lemma InvalidateLoops(d: Desk)
    requires LoopInv(d)
    ensures LoopInv(InvalidatePresentation(d))
  {
    if d.lock.pending.Some? {
      LockDoesNotLoop(d, ResetPresentation(d.lock));
      ScheduleLoops(d.(lock := ResetPresentation(d.lock)), d.heads.Keys);
    }
  }

  /** Pausing parks every loop: no timer is left to fire into the inactive device. */
  lemma PauseLoops(d: Desk)
    requires LoopInv(d)
    ensures LoopInv(Pause(d)) && Pause(d).loop.timers == map[]
  {
    InvalidateLoops(d);
    var i, p := InvalidatePresentation(d), Pause(d);
    forall t | t in i.loop.timers
      ensures t in StoredTokens(i)
    {
      assert TimerKept(i, t);
    }
    forall c | p.Driven(c)
      ensures p.Enabled(c) && SurfaceLoops(p.SurfaceOf(c), c, p.loop, p.paused)
    {
      assert SurfaceLoops(i.SurfaceOf(c), c, i.loop, i.paused);
    }
  }

  /** While a resume walks the heads: those not yet walked may be dirty and
      idle, or have lost the flip they waited for. */
  ghost predicate Resuming(d: Desk, left: seq<Crtc>) {
    && !d.paused && TimersMatch(d)
    && (forall c :: d.Driven(c) ==> d.Enabled(c) && FlipsRise(d.SurfaceOf(c)) &&
                                    (SurfaceLoops(d.SurfaceOf(c), c, d.loop, false) || c in left))
  }

  lemma DirtyMatches(d: Desk, c: Crtc)
    requires TimersMatch(d) && d.Driven(c)
    ensures TimersMatch(d.With(c, d.SurfaceOf(c).(dirty := true)))
  {
    var d' := d.With(c, d.SurfaceOf(c).(dirty := true));
    forall t | t in d'.loop.timers
      ensures TimerKept(d', t)
    {
      assert TimerKept(d, t);
    }
    forall k | d'.Driven(k)
      ensures d.Driven(k) && d'.SurfaceOf(k).redraw == d.SurfaceOf(k).redraw
    {
    }
  }

  lemma RepaintLoopsOne(d: Desk, left: seq<Crtc>, outcome: RenderOutcome)
    requires left != [] && Resuming(d, left)
    ensures Resuming(RepaintNow(d, left[0], outcome), left[1..])
  {
    var c, d' := left[0], RepaintNow(d, left[0], outcome);
    assert left == [c] + left[1..];
    if d.Driven(c) {
      var dirtied := d.With(c, d.SurfaceOf(c).(dirty := true));
      DirtyMatches(d, c);
      RenderOne(dirtied, c, outcome);
      forall k | d'.Driven(k)
        ensures d'.Enabled(k) && FlipsRise(d'.SurfaceOf(k))
        ensures SurfaceLoops(d'.SurfaceOf(k), k, d'.loop, false) || k in left[1..]
      {
        if k != c {
          assert d'.heads[k] == dirtied.heads[k] == d.heads[k];
          assert SurfaceLoops(d.SurfaceOf(k), k, d.loop, false) || k in left;
        }
      }
    }
  }

  lemma {:induction false} RepaintLoops(d: Desk, order: seq<Crtc>, outcomes: map<Crtc, RenderOutcome>)
    requires Resuming(d, order) && forall c :: c in order ==> c in outcomes
    ensures LoopInv(RepaintAll(d, order, outcomes))
    decreases |order|
  {
    if order != [] {
      RepaintLoopsOne(d, order, outcomes[order[0]]);
      RepaintLoops(RepaintNow(d, order[0], outcomes[order[0]]), order[1..], outcomes);
    }
  }

  lemma ScheduleResumes(d: Desk, left: seq<Crtc>, wanted: set<Crtc>)
    requires Resuming(d, left)
    ensures Resuming(Schedule(d, wanted), left)
  {
    var d' := Schedule(d, wanted);
    forall c | d'.Driven(c)
      ensures SurfaceLoops(d.SurfaceOf(c), c, d.loop, false) ==> SurfaceLoops(d'.SurfaceOf(c), c, d'.loop, false)
      ensures FlipsRise(d'.SurfaceOf(c)) && d'.SurfaceOf(c).redraw.Stored() == d.SurfaceOf(c).redraw.Stored()
    {
      if c in ToSchedule(d, wanted) {
        assert c in multiset(ToSchedule(d, wanted));
      }
    }
    forall t | t in d'.loop.timers
      ensures TimerKept(d', t)
    {
      assert TimerKept(d, t);
    }
  }

  function Activated(d: Desk, lost: set<Crtc>): Desk {
    d.(paused := false, heads := map c | c in d.heads :: AfterVtSwitch(d.heads[c], c in lost))
  }

  lemma ActivatedResumes(d: Desk, lost: set<Crtc>, order: seq<Crtc>)
    requires LoopInv(d) && forall c :: c in d.heads && d.heads[c].global ==> c in order
    ensures Resuming(Activated(d, lost), order)
  {
    var active := Activated(d, lost);
    LoopInvMatches(d);
    forall c | active.Driven(c)
      ensures active.Enabled(c) && FlipsRise(active.SurfaceOf(c)) && c in order
      ensures d.Driven(c) && active.SurfaceOf(c).redraw == d.SurfaceOf(c).redraw
    {
      assert SurfaceLoops(d.SurfaceOf(c), c, d.loop, d.paused);
      assert d.Enabled(c);
    }
    forall t | t in active.loop.timers
      ensures TimerKept(active, t)
    {
      assert TimerKept(d, t);
    }
  }

  lemma LockDoesNotResume(d: Desk, lock: Lock, left: seq<Crtc>)
    requires Resuming(d, left)
    ensures Resuming(d.(lock := lock), left)
  {
    var d' := d.(lock := lock);
    assert forall t :: t in d.loop.timers ==> TimerKept(d, t) == TimerKept(d', t);
    assert forall c :: d'.Driven(c) ==> d.Driven(c) && d'.SurfaceOf(c) == d.SurfaceOf(c);
  }

  lemma ResumeLoops(d: Desk, lost: set<Crtc>, order: seq<Crtc>, outcomes: map<Crtc, RenderOutcome>)
    requires LoopInv(d) && (forall c :: c in order ==> c in outcomes)
    requires forall c :: c in d.heads && d.heads[c].global ==> c in order
    ensures LoopInv(Resume(d, lost, order, outcomes))
  {
    hide LoopInv, Resuming, RepaintAll, Schedule;
    var active := Activated(d, lost);
    ActivatedResumes(d, lost, order);
    if active.lock.pending.Some? {
      LockDoesNotResume(active, ResetPresentation(active.lock), order);
      ScheduleResumes(active.(lock := ResetPresentation(active.lock)), order, active.heads.Keys);
    }
    RepaintLoops(InvalidatePresentation(active), order, outcomes);
  }

  /** A freshly initialised surface, about to be rendered. */
  lemma NewSurfaceLoops(d: Desk, c: Crtc, h: Head, outcome: RenderOutcome)
    requires LoopInv(d) && c in d.heads && d.heads[c].surface.None?
    requires h.global && h.surface == Some(NEW_SURFACE)
    ensures LoopInv(RenderNow(d.(heads := d.heads[c := h]), c, outcome))
  {
    var d' := d.(heads := d.heads[c := h]);
    forall k | d'.Driven(k) && k != c
      ensures d'.Enabled(k) && SurfaceLoops(d'.SurfaceOf(k), k, d'.loop, d'.paused)
    {
      assert SurfaceLoops(d.SurfaceOf(k), k, d.loop, d.paused);
    }
    forall t | t in d'.loop.timers
      ensures TimerKept(d', t) && d'.loop.timers[t].crtc != c
    {
      assert TimerKept(d, t);
    }
    RenderLoops(d', c, outcome);
  }

  /** A head that has no surface before and after. */
  lemma DarkHeadLoops(d: Desk, c: Crtc, heads: map<Crtc, Head>, nextOutput: OutputId)
    requires LoopInv(d)
    requires heads.Keys + {c} == d.heads.Keys + {c} && (c in d.heads ==> d.heads[c].surface.None?)
    requires (c in heads ==> heads[c].surface.None?) && forall k :: k in heads && k != c ==> heads[k] == d.heads[k]
    ensures LoopInv(d.(heads := heads, nextOutput := nextOutput))
  {
    var d' := d.(heads := heads, nextOutput := nextOutput);
    assert forall k :: k != c ==> (k in heads <==> k in d.heads) by {
      assert forall k :: k != c ==> (k in heads.Keys <==> k in heads.Keys + {c});
      assert forall k :: k != c ==> (k in d.heads.Keys <==> k in d.heads.Keys + {c});
    }
    forall k | d'.Driven(k)
      ensures d'.Enabled(k) && SurfaceLoops(d'.SurfaceOf(k), k, d'.loop, d'.paused)
    {
      assert SurfaceLoops(d.SurfaceOf(k), k, d.loop, d.paused);
    }
    forall t | t in d'.loop.timers
      ensures TimerKept(d', t)
    {
      assert TimerKept(d, t);
    }
  }

  // ------------------------------------------------------------ every event, every run

  lemma DisableLoops(d: Desk, c: Crtc)
    requires LoopInv(d)
    ensures LoopInv(DisableHead(d, c))
    ensures c in DisableHead(d, c).heads ==> DisableHead(d, c).heads[c].surface.None?
  {
    if d.Enabled(c) {
      var h := d.heads[c].(surface := None, global := false, power := On);
      ReleasedHead(d, c, h);
      assert DisableHead(d, c) == Release(d, c).(heads := Release(d, c).heads[c := h]);
    } else if c in d.heads {
      assert !d.Driven(c);
    }
  }

  lemma DisconnectLoops(d: Desk, c: Crtc)
    requires LoopInv(d)
    ensures LoopInv(DisconnectHead(d, c)) && c !in DisconnectHead(d, c).heads
  {
    DisableLoops(d, c);
    var off := DisableHead(d, c);
    if c in off.heads {
      DarkHeadLoops(off, c, off.heads - {c}, off.nextOutput);
      InvalidateLoops(off.(heads := off.heads - {c}));
    }
  }

  lemma CreateLoops(d: Desk, c: Crtc)
    requires LoopInv(d) && c !in d.heads
    ensures LoopInv(CreateHead(d, c))
  {
    var heads := d.heads[c := Head(d.nextOutput, false, On, None)];
    DarkHeadLoops(d, c, heads, d.nextOutput + 1);
    InvalidateLoops(d.(heads := heads, nextOutput := d.nextOutput + 1));
  }

  lemma EnableLoops(d: Desk, c: Crtc, initOk: bool, outcome: RenderOutcome)
    requires LoopInv(d)
    ensures LoopInv(EnableHead(d, c, initOk, outcome))
  {
    if c in d.heads && !d.Enabled(c) {
      assert !d.Driven(c);
      if initOk {
        NewSurfaceLoops(d, c, Head(d.heads[c].output, true, On, Some(NEW_SURFACE)), outcome);
      } else {
        DarkHeadLoops(d, c, d.heads[c := d.heads[c].(power := On)], d.nextOutput);
      }
    }
  }

  lemma ConnectLoops(d: Desk, c: Crtc, initOk: bool, outcome: RenderOutcome)
    requires LoopInv(d)
    ensures LoopInv(ConnectHead(d, c, initOk, outcome))
  {
    hide LoopInv, DisconnectHead, CreateHead, EnableHead;
    DisconnectLoops(d, c);
    CreateLoops(DisconnectHead(d, c), c);
    EnableLoops(CreateHead(DisconnectHead(d, c), c), c, initOk, outcome);
  }

  lemma PowerLoops(d: Desk, c: Crtc, initOk: bool, outcome: RenderOutcome)
    requires LoopInv(d) && (c in d.heads && d.heads[c].power.Off? ==> d.heads[c].surface.None?)
    ensures LoopInv(PowerOff(d, c)) && LoopInv(PowerOn(d, c, initOk, outcome))
  {
    if d.Enabled(c) {
      if d.heads[c].power.On? {
        var h := d.heads[c].(surface := None, power := Off);
        ReleasedHead(d, c, h);
        assert PowerOff(d, c) == Release(d, c).(heads := Release(d, c).heads[c := h]);
      } else if initOk {
        NewSurfaceLoops(d, c, d.heads[c].(power := On, surface := Some(NEW_SURFACE)), outcome);
      }
    }
  }

  lemma SwitchLoops(d: Desk, c: Crtc, on: bool, initOk: bool, outcome: RenderOutcome)
    requires LoopInv(d) && (c in d.heads && d.heads[c].power.Off? ==> d.heads[c].surface.None?)
    ensures LoopInv(SwitchPower(d, c, on, initOk, outcome))
  {
    PowerLoops(d, c, initOk, outcome);
    InvalidateLoops(PowerOn(d, c, initOk, outcome));
    InvalidateLoops(PowerOff(d, c));
    hide LoopInv, PowerOn, PowerOff, InvalidatePresentation;
  }

  /** A completion is taken as the environment should deliver it: one for the
      newest flip only while the loop waits for it (or rests). */
  predicate Orderly(d: Desk, e: Event) {
    e.Vblank? ==> Accounted(d, e.c, e.submitOk)
  }

  lemma LockEventsLoop(d: Desk, e: Event)
    requires LoopInv(d) && CanHappen(d, e)
    requires e.LockRequested? || e.UnlockRequested? || e.ObjectsDied? || e.ConfirmChecked?
    ensures LoopInv(Apply(d, e))
  {
    var lock', reset;
    match e
    case LockRequested(l, client) =>
      lock' := d.lock.(known := d.lock.known + {l}, alive := d.lock.alive + {l});
      LockDoesNotLoop(d, lock');
      reset := ResetPresentation(lock'.(ownerClient := client, owner := Some(l), pending := Some(l), locked := true));
      LockDoesNotLoop(d.(lock := lock'), reset);
      ScheduleLoops(d.(lock := reset), d.heads.Keys);
      assert d.(lock := lock').(lock := reset) == d.(lock := reset);
    case UnlockRequested(l) =>
      lock' := d.lock.(locked := false, owner := None, ownerClient := None, pending := None,
                       confirmed := false, alive := d.lock.alive - {l});
      LockDoesNotLoop(d, lock');
      ScheduleLoops(d.(lock := lock'), d.heads.Keys);
    case ObjectsDied(dead) => LockDoesNotLoop(d, d.lock.(alive := d.lock.alive - dead));
    case ConfirmChecked => LockDoesNotLoop(d, MaybeConfirm(d).lock);
  }

  lemma StepLoops(d: Desk, e: Event)
    requires LoopInv(d) && CanHappen(d, e) && Orderly(d, e)
    requires forall c :: c in d.heads && d.heads[c].power.Off? ==> d.heads[c].surface.None?
    ensures LoopInv(Apply(d, e))
  {
    hide LoopInv;
    if e.LockRequested? || e.UnlockRequested? || e.ObjectsDied? || e.ConfirmChecked? {
      LockEventsLoop(d, e);
    } else {
      match e
      case SceneChanged(wanted) => ScheduleLoops(d, wanted);
      case IdleDue(c, outcome) => IdleLoops(d, c, outcome);
      case Vblank(c, submitOk, outcome) => AccountedFinishLoops(d, c, submitOk, outcome);
      case TimerDue(t, outcome) => TimerLoops(d, t, outcome);
      case RenderForced(c, outcome) => RenderLoops(d, c, outcome);
      case SessionPaused => PauseLoops(d);
      case SessionResumed(lost, order, outcomes) => ResumeLoops(d, lost, order, outcomes);
      case HeadConnected(c, initOk, outcome) => ConnectLoops(d, c, initOk, outcome);
      case HeadDisconnected(c) => DisconnectLoops(d, c);
      case HeadEnabled(c, initOk, outcome) => EnableLoops(d, c, initOk, outcome);
      case HeadDisabled(c) => DisableLoops(d, c);
      case PowerSwitched(c, on, initOk, outcome) => SwitchLoops(d, c, on, initOk, outcome);
      case OutputsConfigured => InvalidateLoops(d);
    }
  }

  /** One event keeps the invariant and leaves no head stranded. */
  lemma StepStrandsNone(d: Desk, e: Event)
    requires DeskLock.Inv(d) && LoopInv(d) && CanHappen(d, e) && Orderly(d, e)
    ensures LoopInv(Apply(d, e)) && forall c :: !Stranded(Apply(d, e), c)
  {
    forall c | c in d.heads && d.heads[c].power.Off?
      ensures d.heads[c].surface.None?
    {
      assert DeskLock.HeadOk(d.heads[c], d.lock);
    }
    StepLoops(d, e);
    var d' := Apply(d, e);
    forall c | d'.Driven(c)
      ensures !Stranded(d', c)
    {
      assert SurfaceLoops(d'.SurfaceOf(c), c, d'.loop, d'.paused);
    }
  }

  lemma {:induction false} RunLoops(states: seq<Desk>, events: seq<Event>)
    requires IsRun(states, events)
    requires forall i :: 0 <= i < |events| ==> Orderly(states[i], events[i])
    ensures forall i :: 0 <= i < |states| ==> LoopInv(states[i])
    decreases |events|
  {
    if events != [] {
      var n := |events| - 1;
      RunLoops(states[..n + 1], events[..n]);
      assert LoopInv(states[..n + 1][n]);
      DeskLock.RunKeeps(states, events);
      StepStrandsNone(states[n], events[n]);
    }
  }

  /** In every orderly run, between events: what is dirty on a running seat has
      its idle callback queued or its stored timer registered; no two heads
      store the same timer; and no registered timer is forgotten. */
  lemma NothingStranded(states: seq<Desk>, events: seq<Event>, i: nat, c: Crtc)
    requires IsRun(states, events) && i < |states| && states[i].Driven(c)
    requires forall j :: 0 <= j < |events| ==> Orderly(states[j], events[j])
    ensures var d, s := states[i], states[i].SurfaceOf(c);
            && (s.dirty && !d.paused ==>
                  || (s.redraw.Scheduled? && c in d.loop.idles)
                  || (s.redraw.Stored().Some? && s.redraw.Stored().value in d.loop.timers))
            && (forall k :: d.Driven(k) && k != c && s.redraw.Stored().Some? ==>
                  d.SurfaceOf(k).redraw.Stored() != s.redraw.Stored())
            && (forall t :: t in d.loop.timers && d.loop.timers[t].crtc == c ==> s.redraw.Stored() == Some(t))
  {
    RunLoops(states, events);
    var d := states[i];
    LoopInvMatches(d);
    assert SurfaceLoops(d.SurfaceOf(c), c, d.loop, d.paused);
    forall t | t in d.loop.timers && d.loop.timers[t].crtc == c
      ensures d.SurfaceOf(c).redraw.Stored() == Some(t)
    {
      assert TimerKept(d, t);
    }
  }

  // ------------------------------------------------------------ calm runs

  /** The newest frame is on its way to the screen. */
  predicate NewestInFlight(s: Surface) {
    s.flips != [] && s.flips[|s.flips| - 1].flip == s.flipGeneration
  }

  /** Its loop waits for it, or is parked. */
  ghost predicate Tracked(s: Surface, paused: bool) {
    NewestInFlight(s) ==> s.redraw.WaitingForVblank? || (paused && s.redraw.Idle?)
  }

  ghost predicate FlightInv(d: Desk) {
    forall c :: d.Driven(c) ==> Tracked(d.SurfaceOf(c), d.paused)
  }

  /** A render does not come away without a frame while the newest is in flight. */
  predicate Fruitful(s: Surface, outcome: RenderOutcome) {
    NewestInFlight(s) ==> outcome.Queued? || outcome.QueueFailed?
  }

  predicate FruitfulOn(d: Desk, c: Crtc, outcome: RenderOutcome) {
    d.Driven(c) ==> Fruitful(d.SurfaceOf(c), outcome)
  }

  /** What the renderer and the kernel have to do for it: every render over a
      frame in flight brings another, and a completion is of a queued frame and
      submits the next. */
  predicate Calm(d: Desk, e: Event)
    requires CanHappen(d, e)
  {
    match e
    case IdleDue(c, outcome) => FruitfulOn(d, c, outcome)
    case TimerDue(t, outcome) => FruitfulOn(d, d.loop.timers[t].crtc, outcome)
    case RenderForced(c, outcome) => FruitfulOn(d, c, outcome)
    case Vblank(c, submitOk, _) => d.Driven(c) ==> d.SurfaceOf(c).flips != [] && submitOk
    case SessionResumed(lost, order, outcomes) => forall c :: c in order && c !in lost ==> FruitfulOn(d, c, outcomes[c])
    case _ => true
  }

  /** Then a completion finds the loop ready for it. */
  lemma CalmIsOrderly(d: Desk, e: Event)
    requires LoopInv(d) && FlightInv(d) && CanHappen(d, e) && Calm(d, e)
    ensures Orderly(d, e)
  {
    if e.Vblank? && d.Driven(e.c) {
      assert SurfaceLoops(d.SurfaceOf(e.c), e.c, d.loop, d.paused);
      assert Tracked(d.SurfaceOf(e.c), d.paused);
    }
  }

  lemma RenderedIsTracked(s: Surface, lock: Lock, token: Token, outcome: RenderOutcome, paused: bool)
    requires FlipsRise(s) && Fruitful(s, outcome)
    ensures var r := RenderedSurface(s, lock, token, outcome); Tracked(r, paused) && Fruitful(r, outcome)
  {
  }

  lemma RenderFlight(d: Desk, c: Crtc, outcome: RenderOutcome)
    requires d.Driven(c) ==> d.Enabled(c) && FlipsRise(d.SurfaceOf(c)) && Fruitful(d.SurfaceOf(c), outcome)
    requires forall k :: d.Driven(k) && k != c ==> Tracked(d.SurfaceOf(k), d.paused)
    ensures FlightInv(RenderNow(d, c, outcome))
  {
    if d.Driven(c) {
      RenderedIsTracked(d.SurfaceOf(c), d.lock, d.loop.nextToken, outcome, d.paused);
    }
    hide Tracked, Fruitful, FlipsRise, RenderedSurface;
    var d' := RenderNow(d, c, outcome);
    forall k | d'.Driven(k)
      ensures Tracked(d'.SurfaceOf(k), d'.paused)
    {
      assert k != c ==> d.Driven(k) && d'.SurfaceOf(k) == d.SurfaceOf(k);
    }
  }

  lemma ScheduleFlight(d: Desk, wanted: set<Crtc>)
    requires FlightInv(d)
    ensures FlightInv(Schedule(d, wanted))
  {
    var d' := Schedule(d, wanted);
    forall k | d'.Driven(k)
      ensures Tracked(d'.SurfaceOf(k), d'.paused)
    {
      assert Tracked(d.SurfaceOf(k), d.paused);
    }
  }

  lemma SameHeadsFlight(d: Desk, d': Desk)
    requires FlightInv(d) && d'.paused == d.paused
    requires forall c :: c in d'.heads && d'.heads[c].surface.Some? ==> c in d.heads && d.heads[c].surface == d'.heads[c].surface
    ensures FlightInv(d')
  {
    forall k | d'.Driven(k)
      ensures Tracked(d'.SurfaceOf(k), d'.paused)
    {
      assert d.Driven(k);
    }
  }

  lemma InvalidateFlight(d: Desk)
    requires FlightInv(d)
    ensures FlightInv(InvalidatePresentation(d))
  {
    SameHeadsFlight(d, d.(lock := ResetPresentation(d.lock)));
    ScheduleFlight(d.(lock := ResetPresentation(d.lock)), d.heads.Keys);
  }

  /** What LoopInv says of one head. */
  lemma LoopsOf(d: Desk, c: Crtc)
    requires LoopInv(d) && d.Driven(c)
    ensures d.Enabled(c) && FlipsRise(d.SurfaceOf(c)) && SurfaceLoops(d.SurfaceOf(c), c, d.loop, d.paused)
  {
  }

  /** A render of a head whose loop was set as it may be before one. */
  lemma ReRenderFlight(d: Desk, c: Crtc, s: Surface, timers: map<Token, Timer>, outcome: RenderOutcome)
    requires LoopInv(d) && FlightInv(d) && d.Driven(c) && FruitfulOn(d, c, outcome)
    requires s.flips == d.SurfaceOf(c).flips && s.flipGeneration == d.SurfaceOf(c).flipGeneration
    ensures FlightInv(RenderNow(d.With(c, s).WithTimers(timers), c, outcome))
  {
    LoopsOf(d, c);
    hide LoopInv;
    var d' := d.With(c, s).WithTimers(timers);
    forall k | d'.Driven(k) && k != c
      ensures Tracked(d'.SurfaceOf(k), d'.paused)
    {
      assert d.Driven(k) && d'.SurfaceOf(k) == d.SurfaceOf(k);
    }
    RenderFlight(d', c, outcome);
  }

  lemma IdleFlight(d: Desk, c: Crtc, outcome: RenderOutcome)
    requires LoopInv(d) && FlightInv(d) && FruitfulOn(d, c, outcome)
    ensures FlightInv(IdleRun(d, c, outcome))
  {
    var d' := d.(loop := d.loop.(idles := d.loop.idles - multiset{c}));
    SameHeadsFlight(d, d');
    if d.Driven(c) {
      LoopsOf(d, c);
      hide LoopInv;
      RenderFlight(d', c, outcome);
    }
  }

  lemma ForcedFlight(d: Desk, c: Crtc, outcome: RenderOutcome)
    requires LoopInv(d) && FlightInv(d) && FruitfulOn(d, c, outcome)
    ensures FlightInv(RenderNow(d, c, outcome))
  {
    if d.Driven(c) {
      LoopsOf(d, c);
      hide LoopInv;
      RenderFlight(d, c, outcome);
    }
  }

  lemma TimerFlight(d: Desk, t: Token, outcome: RenderOutcome)
    requires LoopInv(d) && FlightInv(d) && t in d.loop.timers && FruitfulOn(d, d.loop.timers[t].crtc, outcome)
    ensures FlightInv(TimerFired(d, t, outcome))
  {
    var c := d.loop.timers[t].crtc;
    var fired := if d.loop.timers[t].kind.Watchdog? then WatchdogFired(d, c, outcome) else RateLimitFired(d, c, outcome);
    if d.Driven(c) {
      var s := d.SurfaceOf(c);
      assert Tracked(s, d.paused);
      ReRenderFlight(d, c, s.(redraw := Idle, dirty := true), d.loop.timers, outcome);
      ReRenderFlight(d, c, s.(redraw := Idle), d.loop.timers, outcome);
      assert forall s' :: d.With(c, s').WithTimers(d.loop.timers) == d.With(c, s');
      RateLimitRests(d, c);
      hide LoopInv, RenderNow;
    }
    assert FlightInv(fired);
    SameHeadsFlight(fired, TimerFired(d, t, outcome));
  }

  lemma RateLimitRests(d: Desk, c: Crtc)
    requires FlightInv(d) && d.Driven(c)
    ensures d.SurfaceOf(c).redraw.WaitingForTimer? ==> FlightInv(d.With(c, d.SurfaceOf(c).(redraw := Idle)))
  {
    if d.SurfaceOf(c).redraw.WaitingForTimer? {
      var d' := d.With(c, d.SurfaceOf(c).(redraw := Idle));
      assert Tracked(d.SurfaceOf(c), d.paused);
      forall k | d'.Driven(k)
        ensures Tracked(d'.SurfaceOf(k), d'.paused)
      {
        assert k != c ==> d.Driven(k) && d'.SurfaceOf(k) == d.SurfaceOf(k);
      }
    }
  }

  /** A completion of the newest frame leaves none in flight; any other leaves
      the newest where it was. */
  lemma FinishFlight(d: Desk, c: Crtc, outcome: RenderOutcome)
    requires LoopInv(d) && FlightInv(d) && (d.Driven(c) ==> d.SurfaceOf(c).flips != [])
    ensures FlightInv(FrameFinish(d, c, true, outcome))
  {
    if d.Driven(c) {
      LoopsOf(d, c);
      var s, d' := d.SurfaceOf(c), SubmitFrame(d, c, true);
      var s' := d'.SurfaceOf(c);
      assert Tracked(s, d.paused);
      assert s'.flips == s.flips[1..] && s'.flipGeneration == s.flipGeneration && s'.redraw == s.redraw;
      forall k | d'.Driven(k) && k != c
        ensures Tracked(d'.SurfaceOf(k), d'.paused)
      {
        assert d.Driven(k) && d'.SurfaceOf(k) == d.SurfaceOf(k);
      }
      if s.flips[0].flip == s.flipGeneration {
        assert |s.flips| == 1;
        EndFlipFlight(d', c, outcome);
      } else {
        assert Tracked(s', d'.paused);
      }
    }
  }

  lemma EndFlipFlight(d: Desk, c: Crtc, outcome: RenderOutcome)
    requires d.Driven(c) && d.Enabled(c) && d.SurfaceOf(c).flips == []
    requires forall k :: d.Driven(k) && k != c ==> Tracked(d.SurfaceOf(k), d.paused)
    ensures FlightInv(EndFlip(d, c, outcome))
  {
    var s := d.SurfaceOf(c);
    var idle := d.With(c, s.(redraw := Idle));
    var timers := if s.redraw.WaitingForVblank? then d.loop.timers - {s.redraw.watchdog} else d.loop.timers;
    var freed := idle.WithTimers(timers);
    forall k | freed.Driven(k)
      ensures Tracked(freed.SurfaceOf(k), freed.paused)
    {
      assert k != c ==> d.Driven(k) && freed.SurfaceOf(k) == d.SurfaceOf(k);
    }
    RenderFlight(freed, c, outcome);
    SameHeadsFlight(freed, idle);
    hide RenderNow;
  }

  lemma PauseFlight(d: Desk)
    requires FlightInv(d)
    ensures FlightInv(Pause(d))
  {
    InvalidateFlight(d);
    var i, p := InvalidatePresentation(d), Pause(d);
    forall k | p.Driven(k)
      ensures Tracked(p.SurfaceOf(k), p.paused)
    {
      assert i.Driven(k);
    }
  }

  /** While a resume walks the heads. */
  ghost predicate ResumingFlight(d: Desk, left: seq<Crtc>, outcomes: map<Crtc, RenderOutcome>) {
    && !d.paused
    && forall c :: d.Driven(c) ==>
         && d.Enabled(c) && FlipsRise(d.SurfaceOf(c))
         && (Tracked(d.SurfaceOf(c), false) || c in left)
         && (c in left ==> c in outcomes && Fruitful(d.SurfaceOf(c), outcomes[c]))
  }

  lemma RepaintFlightOne(d: Desk, left: seq<Crtc>, outcomes: map<Crtc, RenderOutcome>)
    requires left != [] && left[0] in outcomes && ResumingFlight(d, left, outcomes)
    ensures ResumingFlight(RepaintNow(d, left[0], outcomes[left[0]]), left[1..], outcomes)
  {
    var c, d' := left[0], RepaintNow(d, left[0], outcomes[left[0]]);
    assert left == [c] + left[1..];
    if d.Driven(c) {
      var s := d.SurfaceOf(c).(dirty := true);
      RenderedIsTracked(s, d.lock, d.loop.nextToken, outcomes[c], false);
      RenderedFlips(s, d.lock, d.loop.nextToken, outcomes[c]);
      assert d'.SurfaceOf(c) == RenderedSurface(s, d.lock, d.loop.nextToken, outcomes[c]);
      hide FlipsRise, Tracked, Fruitful, RenderedSurface;
      forall k | d'.Driven(k)
        ensures d'.Enabled(k) && FlipsRise(d'.SurfaceOf(k))
        ensures Tracked(d'.SurfaceOf(k), false) || k in left[1..]
        ensures k in left[1..] ==> k in outcomes && Fruitful(d'.SurfaceOf(k), outcomes[k])
      {
        assert k != c ==> d.Driven(k) && d'.SurfaceOf(k) == d.SurfaceOf(k);
      }
    }
  }

  lemma {:induction false} RepaintFlight(d: Desk, order: seq<Crtc>, outcomes: map<Crtc, RenderOutcome>)
    requires (forall c :: c in order ==> c in outcomes) && ResumingFlight(d, order, outcomes)
    ensures FlightInv(RepaintAll(d, order, outcomes))
    decreases |order|
  {
    if order != [] {
      RepaintFlightOne(d, order, outcomes);
      RepaintFlight(RepaintNow(d, order[0], outcomes[order[0]]), order[1..], outcomes);
    }
  }

  lemma ResumeFlight(d: Desk, lost: set<Crtc>, order: seq<Crtc>, outcomes: map<Crtc, RenderOutcome>)
    requires LoopInv(d) && FlightInv(d) && forall c :: c in order ==> c in outcomes
    requires forall c :: c in d.heads && d.heads[c].global ==> c in order
    requires forall c :: c in order && c !in lost ==> FruitfulOn(d, c, outcomes[c])
    ensures FlightInv(Resume(d, lost, order, outcomes))
  {
    var i := InvalidatePresentation(Activated(d, lost));
    forall c | i.Driven(c)
      ensures i.Enabled(c) && c in order && FlipsRise(i.SurfaceOf(c)) && Fruitful(i.SurfaceOf(c), outcomes[c])
    {
      LoopsOf(d, c);
      assert d.Enabled(c);
      assert i.SurfaceOf(c).flips == (if c in lost then [] else d.SurfaceOf(c).flips);
      assert i.SurfaceOf(c).flipGeneration == d.SurfaceOf(c).flipGeneration;
      assert c !in lost ==> FruitfulOn(d, c, outcomes[c]);
    }
    hide Fruitful, FlipsRise, Tracked;
    RepaintFlight(i, order, outcomes);
  }

  /** A head gets a fresh surface. */
  lemma NewSurfaceFlight(d: Desk, c: Crtc, h: Head, outcome: RenderOutcome)
    requires FlightInv(d) && h.global && h.surface == Some(NEW_SURFACE)
    ensures FlightInv(RenderNow(d.(heads := d.heads[c := h]), c, outcome))
  {
    var d' := d.(heads := d.heads[c := h]);
    forall k | d'.Driven(k) && k != c
      ensures Tracked(d'.SurfaceOf(k), d'.paused)
    {
      assert d.Driven(k) && d'.SurfaceOf(k) == d.SurfaceOf(k);
    }
    RenderFlight(d', c, outcome);
  }

  lemma DisconnectFlight(d: Desk, c: Crtc)
    requires FlightInv(d)
    ensures FlightInv(DisableHead(d, c)) && FlightInv(DisconnectHead(d, c))
  {
    var off := DisableHead(d, c);
    SameHeadsFlight(d, off);
    SameHeadsFlight(off, off.(heads := off.heads - {c}));
    InvalidateFlight(off.(heads := off.heads - {c}));
  }

  lemma EnableFlight(d: Desk, c: Crtc, initOk: bool, outcome: RenderOutcome)
    requires FlightInv(d)
    ensures FlightInv(EnableHead(d, c, initOk, outcome))
  {
    if c in d.heads && !d.Enabled(c) {
      if initOk {
        NewSurfaceFlight(d, c, Head(d.heads[c].output, true, On, Some(NEW_SURFACE)), outcome);
      } else {
        SameHeadsFlight(d, d.(heads := d.heads[c := d.heads[c].(power := On)]));
      }
    }
  }

  lemma ConnectFlight(d: Desk, c: Crtc, initOk: bool, outcome: RenderOutcome)
    requires FlightInv(d)
    ensures FlightInv(ConnectHead(d, c, initOk, outcome))
  {
    DisconnectFlight(d, c);
    var free := DisconnectHead(d, c);
    hide DisconnectHead, EnableHead, InvalidatePresentation;
    var dark := free.(heads := free.heads[c := Head(free.nextOutput, false, On, None)], nextOutput := free.nextOutput + 1);
    SameHeadsFlight(free, dark);
    InvalidateFlight(dark);
    EnableFlight(CreateHead(free, c), c, initOk, outcome);
  }

  lemma SwitchFlight(d: Desk, c: Crtc, on: bool, initOk: bool, outcome: RenderOutcome)
    requires FlightInv(d)
    ensures FlightInv(SwitchPower(d, c, on, initOk, outcome))
  {
    if CanSwitch(d, c, on, initOk) {
      if on && d.heads[c].power.Off? {
        NewSurfaceFlight(d, c, d.heads[c].(power := On, surface := Some(NEW_SURFACE)), outcome);
      }
      SameHeadsFlight(d, PowerOff(d, c));
      hide RenderNow;
      InvalidateFlight(if on then PowerOn(d, c, initOk, outcome) else PowerOff(d, c));
    }
  }

  lemma StepFlight(d: Desk, e: Event)
    requires LoopInv(d) && FlightInv(d) && CanHappen(d, e) && Calm(d, e)
    ensures FlightInv(Apply(d, e))
  {
    hide LoopInv, FlightInv, FruitfulOn;
    hide RenderNow, IdleRun, FrameFinish, TimerFired, Resume, Pause, Schedule, InvalidatePresentation;
    hide ConnectHead, DisconnectHead, DisableHead, EnableHead, SwitchPower;
    match e
    case LockRequested(l, client) => LockFlight(d, l, client);
    case UnlockRequested(l) => UnlockFlight(d, l);
    case ObjectsDied(dead) => SameHeadsFlight(d, Apply(d, e));
    case ConfirmChecked => SameHeadsFlight(d, Apply(d, e));
    case SceneChanged(wanted) => ScheduleFlight(d, wanted);
    case IdleDue(c, outcome) => IdleFlight(d, c, outcome);
    case Vblank(c, submitOk, outcome) => VblankFlight(d, c, submitOk, outcome);
    case TimerDue(t, outcome) => TimerFlight(d, t, outcome);
    case RenderForced(c, outcome) => ForcedFlight(d, c, outcome);
    case SessionPaused => PauseFlight(d);
    case SessionResumed(lost, order, outcomes) => ResumeFlight(d, lost, order, outcomes);
    case HeadConnected(c, initOk, outcome) => ConnectFlight(d, c, initOk, outcome);
    case HeadDisconnected(c) => DisconnectFlight(d, c);
    case HeadEnabled(c, initOk, outcome) => EnableFlight(d, c, initOk, outcome);
    case HeadDisabled(c) => DisconnectFlight(d, c);
    case PowerSwitched(c, on, initOk, outcome) => SwitchFlight(d, c, on, initOk, outcome);
    case OutputsConfigured => InvalidateFlight(d);
  }

  lemma VblankFlight(d: Desk, c: Crtc, submitOk: bool, outcome: RenderOutcome)
    requires LoopInv(d) && FlightInv(d) && (d.Driven(c) ==> d.SurfaceOf(c).flips != [] && submitOk)
    ensures FlightInv(FrameFinish(d, c, submitOk, outcome))
  {
    if d.Driven(c) {
      FinishFlight(d, c, outcome);
    }
  }

  lemma LockFlight(d: Desk, l: LockId, client: Option<ClientId>)
    requires FlightInv(d)
    ensures FlightInv(RequestLock(d, l, client))
  {
    hide Schedule;
    var met := d.(lock := d.lock.(known := d.lock.known + {l}, alive := d.lock.alive + {l}));
    SameHeadsFlight(d, met);
    var lock' := ResetPresentation(met.lock.(ownerClient := client, owner := Some(l), pending := Some(l), locked := true));
    SameHeadsFlight(d, met.(lock := lock'));
    ScheduleFlight(met.(lock := lock'), met.heads.Keys);
  }

  lemma UnlockFlight(d: Desk, l: LockId)
    requires FlightInv(d)
    ensures FlightInv(RequestUnlock(d, l).0)
  {
    hide Schedule;
    var lock' := d.lock.(locked := false, owner := None, ownerClient := None, pending := None,
                         confirmed := false, alive := d.lock.alive - {l});
    SameHeadsFlight(d, d.(lock := lock'));
    ScheduleFlight(d.(lock := lock'), d.heads.Keys);
  }

  /** In every run where renders over a frame in flight bring another, and
      completions are of queued frames and submit the next, every event finds
      the loop ready for it; so nothing is ever stranded. */
  lemma {:induction false} CalmRunsAreOrderly(states: seq<Desk>, events: seq<Event>)
    requires IsRun(states, events)
    requires forall i :: 0 <= i < |events| ==> Calm(states[i], events[i])
    ensures forall i :: 0 <= i < |events| ==> Orderly(states[i], events[i])
    ensures forall i :: 0 <= i < |states| ==> LoopInv(states[i]) && FlightInv(states[i])
    decreases |events|
  {
    if events != [] {
      var n := |events| - 1;
      CalmRunsAreOrderly(states[..n + 1], events[..n]);
      assert LoopInv(states[..n + 1][n]) && FlightInv(states[..n + 1][n]);
      assert forall i :: 0 <= i < n ==> Orderly(states[..n + 1][i], events[..n][i]);
      DeskLock.RunKeeps(states, events);
      CalmIsOrderly(states[n], events[n]);
      StepStrandsNone(states[n], events[n]);
      StepFlight(states[n], events[n]);
      hide LoopInv, FlightInv, Orderly, Calm, Apply;
    }
  }

  // ------------------------------------------------------------ a stranded head

  const FLIP := Frame(Desktop, 1, None)

  /** One head whose loop stands as given. */
  function OneHead(s: Surface, timers: map<Token, Timer>, nextToken: Token): Desk {
    START.(heads := map[0 := Head(0, true, On, Some(s))], loop := Loop(timers, nextToken, multiset{}), nextOutput := 1)
  }

  function InFlight(redraw: Redraw, dirty: bool): Surface { Surface(BLANK, [FLIP], dirty, redraw, 1) }

  lemma StrandedConnect()
    ensures Apply(START, HeadConnected(0, true, Queued)) ==
            OneHead(InFlight(WaitingForVblank(0), false), map[0 := Timer(Watchdog, 0)], 1)
  {
    assert DisconnectHead(START, 0) == START;
    var dark := START.(heads := map[0 := Head(0, false, On, None)], nextOutput := 1);
    var lit := OneHead(NEW_SURFACE, map[], 0);
    assert EnableHead(dark, 0, true, Queued) == RenderNow(lit, 0, Queued);
    assert RenderedSurface(NEW_SURFACE, START.lock, 0, Queued) == InFlight(WaitingForVblank(0), false);
  }

  lemma StrandedForce()
    ensures Apply(OneHead(InFlight(WaitingForVblank(0), false), map[0 := Timer(Watchdog, 0)], 1),
                  RenderForced(0, NoDamage)) ==
            OneHead(InFlight(WaitingForTimer(1), false), map[1 := Timer(RateLimit, 0)], 2)
  {
  }

  lemma StrandedChange()
    ensures Apply(OneHead(InFlight(WaitingForTimer(1), false), map[1 := Timer(RateLimit, 0)], 2), SceneChanged({0})) ==
            OneHead(InFlight(WaitingForTimer(1), true), map[1 := Timer(RateLimit, 0)], 2)
  {
    assert ToSchedule(OneHead(InFlight(WaitingForTimer(1), false), map[1 := Timer(RateLimit, 0)], 2), {0}) == {};
  }

  lemma StrandedVblank()
    ensures var d := OneHead(InFlight(WaitingForTimer(1), true), map[1 := Timer(RateLimit, 0)], 2);
            && !Accounted(d, 0, true)
            && Apply(d, Vblank(0, true, Queued)) ==
               OneHead(Surface(FLIP, [], true, Idle, 1), map[1 := Timer(RateLimit, 0)], 2)
  {
    var s := InFlight(WaitingForTimer(1), true);
    assert s.flips[1..] == [];
    assert FrameSubmitted(s, true) == (Completed(FLIP), s.(shown := FLIP, flips := []));
  }

  lemma StrandedTimer()
    ensures Apply(OneHead(Surface(FLIP, [], true, Idle, 1), map[1 := Timer(RateLimit, 0)], 2), TimerDue(1, Queued)) ==
            OneHead(Surface(FLIP, [], true, Idle, 1), map[], 2)
  {
  }

  /** The watchdog gets there by itself: it gives the flip up and its render
      finds nothing to draw, while the flip may still complete. */
  lemma StrandedWatchdog()
    ensures Apply(OneHead(InFlight(WaitingForVblank(0), false), map[0 := Timer(Watchdog, 0)], 1), TimerDue(0, NoDamage)) ==
            OneHead(InFlight(WaitingForTimer(1), false), map[1 := Timer(RateLimit, 0)], 2)
  {
    var d := OneHead(InFlight(WaitingForVblank(0), false), map[0 := Timer(Watchdog, 0)], 1);
    var fired := WatchdogFired(d, 0, NoDamage);
    var timers := map[0 := Timer(Watchdog, 0), 1 := Timer(RateLimit, 0)];
    assert fired == OneHead(InFlight(WaitingForTimer(1), false), timers, 2);
    assert timers - {0} == map[1 := Timer(RateLimit, 0)];
  }

  /** How the loop of the one head stands after k events. */
  function Stage(k: nat): Desk {
    match k
    case 0 => START
    case 1 => OneHead(InFlight(WaitingForVblank(0), false), map[0 := Timer(Watchdog, 0)], 1)
    case 2 => OneHead(InFlight(WaitingForTimer(1), false), map[1 := Timer(RateLimit, 0)], 2)
    case 3 => OneHead(InFlight(WaitingForTimer(1), true), map[1 := Timer(RateLimit, 0)], 2)
    case 4 => OneHead(Surface(FLIP, [], true, Idle, 1), map[1 := Timer(RateLimit, 0)], 2)
    case _ => OneHead(Surface(FLIP, [], true, Idle, 1), map[], 2)
  }

  function NextEvent(k: nat, watchdog: bool): Event {
    match k
    case 0 => HeadConnected(0, true, Queued)
    case 1 => if watchdog then TimerDue(0, NoDamage) else RenderForced(0, NoDamage)
    case 2 => SceneChanged({0})
    case 3 => Vblank(0, true, Queued)
    case _ => TimerDue(1, Queued)
  }

  lemma StageStep(k: nat, watchdog: bool)
    requires k < 5
    ensures CanHappen(Stage(k), NextEvent(k, watchdog))
    ensures Apply(Stage(k), NextEvent(k, watchdog)) == Stage(k + 1)
    ensures Orderly(Stage(k), NextEvent(k, watchdog)) <==> k != 3
  {
    hide Apply;
    match k
    case 0 => StrandedConnect();
    case 1 =>
      StrandedForce();
      StrandedWatchdog();
    case 2 => StrandedChange();
    case 3 => StrandedVblank();
    case _ => StrandedTimer();
  }

  /** A run that is not orderly: a forced render, or the watchdog's, finds
      nothing to draw while a flip is in flight, the scene changes, and the
      flip's completion returns the loop to idle. When the forgotten timer has
      fired, the head is dirty and nothing is left that would ever render it. */
  lemma StrandedRun(watchdog: bool) returns (states: seq<Desk>, events: seq<Event>)
    ensures IsRun(states, events) && |events| == 5
    ensures events[1] == if watchdog then TimerDue(0, NoDamage) else RenderForced(0, NoDamage)
    ensures forall i :: 0 <= i < 5 && i != 1 ==> !events[i].RenderForced?
    ensures Stranded(states[5], 0) && states[5].loop.timers == map[] && states[5].loop.idles == multiset{}
    ensures forall i :: 0 <= i < 5 ==> (Orderly(states[i], events[i]) <==> i != 3)
  {
    states := seq(6, k requires 0 <= k < 6 => Stage(k));
    events := seq(5, k requires 0 <= k < 5 => NextEvent(k, watchdog));
    assert states[5] == Stage(5) && states[0] == START;
    hide Stage, Apply, CanHappen, Orderly;
    forall i | 0 <= i < 5
      ensures CanHappen(states[i], events[i]) && states[i + 1] == Apply(states[i], events[i])
      ensures Orderly(states[i], events[i]) <==> i != 3
    {
      StageStep(i, watchdog);
    }
  }
}
