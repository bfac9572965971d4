/** Synthetic input: requests queue up behind each other, their actions run in
    order with delays in between, and a request pinned to a keyboard focus is
    dropped once the focus is elsewhere. */
module SyntheticInput {
  import opened Wrappers

  type Surface(==)
  type Code = nat

  datatype Action = Key(code: Code, pressed: bool)
                  | Button(button: nat, held: bool)
                  | Scroll(dx: real, dy: real)
                  | SetClipboard(text: string)
                  | Hover

  datatype Timed = Timed(action: Action, delayAfterMs: nat)

  datatype Queued = Queued(sequence: nat, timed: Timed, focus: Option<Surface>)

  /** An action that ran, and when. */
  datatype Executed = Executed(sequence: nat, timed: Timed, time: nat)

  // ------------------------------------------------------------ what became of each request

  datatype Request = Request(sequence: nat, actions: seq<Timed>, focus: Option<Surface>)

  /** How many of its actions ran, when each did, and when it was given up. */
  datatype Record = Record(request: Request, times: seq<nat>, cancelledAt: Option<nat>) {
    ghost predicate Plausible() { request.actions != [] && |times| <= |request.actions| }
    ghost predicate Settled() { cancelledAt.Some? || |times| == |request.actions| }
    ghost predicate Untouched() { cancelledAt.None? && times == [] }
  }

  function Items(r: Request, from: nat): seq<Queued>
    requires from <= |r.actions|
  {
    seq(|r.actions| - from, i requires 0 <= i < |r.actions| - from => Queued(r.sequence, r.actions[from + i], r.focus))
  }

  ghost function Done(r: Record): seq<Executed>
    requires r.Plausible()
  {
    seq(|r.times|, i requires 0 <= i < |r.times| => Executed(r.request.sequence, r.request.actions[i], r.times[i]))
  }

  ghost predicate AllPlausible(records: seq<Record>) {
    forall i :: 0 <= i < |records| ==> records[i].Plausible()
  }

  /** What is left of these requests, in order. */
  ghost function Left(records: seq<Record>): seq<Queued>
    requires AllPlausible(records)
  {
    if records == [] then [] else Items(records[0].request, |records[0].times|) + Left(records[1..])
  }

  /** What these requests ran, request by request. */
  ghost function Ran(records: seq<Record>): seq<Executed>
    requires AllPlausible(records)
  {
    if records == [] then [] else Ran(records[..|records| - 1]) + Done(records[|records| - 1])
  }

  /** Requests before the frontier are over, those behind it have not begun. */
  ghost predicate Ordered(records: seq<Record>, frontier: nat) {
    && frontier <= |records|
    && (forall i :: 0 <= i < frontier ==> records[i].Settled())
    && (frontier < |records| ==> !records[frontier].Settled())
    && (forall i :: frontier < i < |records| ==> records[i].Untouched())
    && (forall i :: 0 <= i < |records| ==> records[i].request.sequence == i + 1)
  }

  /** No action of a pinned request ran in another focus, and a request is
      given up only for that. */
  ghost predicate Respectful(r: Record, focusAt: nat -> Option<Surface>) {
    && (r.request.focus.Some? ==> forall i :: 0 <= i < |r.times| ==> focusAt(r.times[i]) == r.request.focus)
    && (r.cancelledAt.Some? ==> r.request.focus.Some? && focusAt(r.cancelledAt.value) != r.request.focus)
  }

  function Without(queue: seq<Queued>, sequence: nat): (r: seq<Queued>)
    ensures |r| <= |queue|
  {
    if queue == [] then []
    else (if queue[0].sequence == sequence then [] else [queue[0]]) + Without(queue[1..], sequence)
  }

  lemma {:induction false} WithoutConcat(a: seq<Queued>, b: seq<Queued>, sequence: nat)
    ensures Without(a + b, sequence) == Without(a, sequence) + Without(b, sequence)
  {
    if a == [] {
      assert a + b == b;
    } else {
      assert (a + b)[0] == a[0] && (a + b)[1..] == a[1..] + b;
      WithoutConcat(a[1..], b, sequence);
    }
  }

  lemma {:induction false} WithoutOwn(queue: seq<Queued>, sequence: nat)
    requires forall i :: 0 <= i < |queue| ==> queue[i].sequence == sequence
    ensures Without(queue, sequence) == []
  {
    if queue != [] {
      WithoutOwn(queue[1..], sequence);
    }
  }

  lemma {:induction false} WithoutForeign(queue: seq<Queued>, sequence: nat)
    requires forall i :: 0 <= i < |queue| ==> queue[i].sequence != sequence
    ensures Without(queue, sequence) == queue
  {
    if queue != [] {
      WithoutForeign(queue[1..], sequence);
    }
  }

  lemma {:induction false} LeftBelongs(records: seq<Record>, sequence: nat)
    requires AllPlausible(records)
    requires forall i :: 0 <= i < |records| ==> records[i].request.sequence != sequence
    ensures forall i :: 0 <= i < |Left(records)| ==> Left(records)[i].sequence != sequence
  {
    if records != [] {
      LeftBelongs(records[1..], sequence);
    }
  }

  lemma {:induction false} LeftOfAppended(records: seq<Record>, r: Record)
    requires AllPlausible(records) && r.Plausible()
    ensures Left(records + [r]) == Left(records) + Items(r.request, |r.times|)
  {
    if records == [] {
      assert (records + [r])[1..] == [];
    } else {
      assert (records + [r])[1..] == records[1..] + [r];
      LeftOfAppended(records[1..], r);
    }
  }

  lemma {:induction false} RanChanges(records: seq<Record>, i: nat, r: Record, more: seq<Executed>)
    requires AllPlausible(records) && i < |records| && r.Plausible()
    requires Done(r) == Done(records[i]) + more
    requires forall j :: i < j < |records| ==> records[j].times == []
    ensures AllPlausible(records[i := r]) && Ran(records[i := r]) == Ran(records) + more
  {
    var last := |records| - 1;
    var after := records[i := r];
    if i < last {
      assert after[..last] == records[..last][i := r];
      RanChanges(records[..last], i, r, more);
    } else {
      assert after[..last] == records[..last];
    }
  }

  ghost predicate SameRequests(a: seq<Record>, b: seq<Record>) {
    |a| == |b| && forall i :: 0 <= i < |a| ==> a[i].request == b[i].request
  }

  lemma SameAsItself(records: seq<Record>)
    ensures SameRequests(records, records)
  {
  }

  lemma SameAsBoth(a: seq<Record>, b: seq<Record>, c: seq<Record>)
    requires SameRequests(a, b) && SameRequests(b, c)
    ensures SameRequests(a, c)
  {
  }

  /** What the queue is, what ran, and whose it was. */
  ghost predicate Consistent(queue: seq<Queued>, executed: seq<Executed>, records: seq<Record>, frontier: nat,
                             nextSequence: nat, focusAt: nat -> Option<Surface>)
  {
    && nextSequence == |records|
    && AllPlausible(records) && Ordered(records, frontier)
    && queue == Left(records[frontier..])
    && executed == Ran(records)
    && forall i :: 0 <= i < |records| ==> Respectful(records[i], focusAt)
  }

  ghost function AfterRun(r: Record, time: nat): Record { r.(times := r.times + [time]) }
  ghost function AfterCancel(r: Record, time: nat): Record { r.(cancelledAt := Some(time)) }

  predicate FocusIsThere(queued: Queued, time: nat, focusAt: nat -> Option<Surface>) {
    queued.focus.Some? ==> focusAt(time) == queued.focus
  }

  lemma HeadOfQueue(queue: seq<Queued>, executed: seq<Executed>, records: seq<Record>, frontier: nat,
                    nextSequence: nat, focusAt: nat -> Option<Surface>)
    requires Consistent(queue, executed, records, frontier, nextSequence, focusAt) && queue != []
    ensures frontier < |records|
    ensures var r := records[frontier];
            && |r.times| < |r.request.actions| && r.cancelledAt.None?
            && queue[0] == Queued(frontier + 1, r.request.actions[|r.times|], r.request.focus)
            && queue[1..] == Items(r.request, |r.times| + 1) + Left(records[frontier + 1..])
  {
    assert records[frontier..][0] == records[frontier] && records[frontier..][1..] == records[frontier + 1..];
    var items := Items(records[frontier].request, |records[frontier].times|);
    assert queue == items + Left(records[frontier + 1..]);
    assert items[1..] == Items(records[frontier].request, |records[frontier].times| + 1);
  }

  lemma QueueOfUntouched(records: seq<Record>, frontier: nat)
    requires AllPlausible(records) && frontier < |records|
    ensures Left(records[frontier..]) ==
            Items(records[frontier].request, |records[frontier].times|) + Left(records[frontier + 1..])
  {
    assert records[frontier..][0] == records[frontier] && records[frontier..][1..] == records[frontier + 1..];
  }

  /** Running the head of the queue is the next step of the request at the frontier. */
  lemma RunningKeepsRecords(queue: seq<Queued>, executed: seq<Executed>, records: seq<Record>, frontier: nat,
                            nextSequence: nat, focusAt: nat -> Option<Surface>, time: nat)
    requires Consistent(queue, executed, records, frontier, nextSequence, focusAt) && queue != []
    requires FocusIsThere(queue[0], time, focusAt)
    ensures frontier < |records| && SameRequests(records[frontier := AfterRun(records[frontier], time)], records)
    ensures var r := AfterRun(records[frontier], time);
            var next := if |r.times| == |r.request.actions| then frontier + 1 else frontier;
            Consistent(queue[1..], executed + [Executed(queue[0].sequence, queue[0].timed, time)],
                       records[frontier := r], next, nextSequence, focusAt)
  {
    HeadOfQueue(queue, executed, records, frontier, nextSequence, focusAt);
    var before, r := records[frontier], AfterRun(records[frontier], time);
    var after := records[frontier := r];
    assert r.Plausible();
    assert Done(r) == Done(before) + [Executed(queue[0].sequence, queue[0].timed, time)];
    RanChanges(records, frontier, r, [Executed(queue[0].sequence, queue[0].timed, time)]);
    RunningKeepsOrder(records, frontier, focusAt, time);
    RunningLeavesQueue(records, frontier, time);
    hide Done, Ran, Ordered, Respectful, Items, Left;
  }

  lemma RunningKeepsOrder(records: seq<Record>, frontier: nat, focusAt: nat -> Option<Surface>, time: nat)
    requires AllPlausible(records) && Ordered(records, frontier) && frontier < |records|
    requires forall i :: 0 <= i < |records| ==> Respectful(records[i], focusAt)
    requires records[frontier].request.focus.Some? ==> focusAt(time) == records[frontier].request.focus
    ensures var r := AfterRun(records[frontier], time);
            var after := records[frontier := r];
            && AllPlausible(after)
            && Ordered(after, if |r.times| == |r.request.actions| then frontier + 1 else frontier)
            && forall i :: 0 <= i < |after| ==> Respectful(after[i], focusAt)
  {
    assert Respectful(AfterRun(records[frontier], time), focusAt);
    hide Respectful;
  }

  lemma RunningLeavesQueue(records: seq<Record>, frontier: nat, time: nat)
    requires AllPlausible(records) && frontier < |records|
    requires |records[frontier].times| < |records[frontier].request.actions|
    ensures var r := AfterRun(records[frontier], time);
            var after := records[frontier := r];
            && AllPlausible(after)
            && Left(after[if |r.times| == |r.request.actions| then frontier + 1 else frontier..]) ==
               Items(r.request, |r.times|) + Left(records[frontier + 1..])
  {
    var r := AfterRun(records[frontier], time);
    var after := records[frontier := r];
    assert after[frontier + 1..] == records[frontier + 1..];
    QueueOfUntouched(after, frontier);
    assert |r.times| == |r.request.actions| ==> Items(r.request, |r.times|) == [];
    hide Left;
  }

  /** Dropping what remains of a request leaves all other requests alone. */
  lemma CancellingKeepsRecords(queue: seq<Queued>, executed: seq<Executed>, records: seq<Record>, frontier: nat,
                               nextSequence: nat, focusAt: nat -> Option<Surface>, time: nat)
    requires Consistent(queue, executed, records, frontier, nextSequence, focusAt) && queue != []
    requires !FocusIsThere(queue[0], time, focusAt)
    ensures frontier < |records| && SameRequests(records[frontier := AfterCancel(records[frontier], time)], records)
    ensures |Without(queue[1..], queue[0].sequence)| < |queue|
    ensures Consistent(Without(queue[1..], queue[0].sequence), executed,
                       records[frontier := AfterCancel(records[frontier], time)], frontier + 1, nextSequence, focusAt)
  {
    HeadOfQueue(queue, executed, records, frontier, nextSequence, focusAt);
    var before, r := records[frontier], AfterCancel(records[frontier], time);
    var after := records[frontier := r];
    assert Done(r) == Done(before) + [];
    RanChanges(records, frontier, r, []);
    assert Ran(records) + [] == Ran(records);
    CancellingKeepsOrder(records, frontier, focusAt, time);
    CancellingLeavesOthers(records, frontier);
    assert after[frontier + 1..] == records[frontier + 1..];
    hide Done, Ran, Ordered, Respectful, Items, Left, Without;
  }

  lemma CancellingKeepsOrder(records: seq<Record>, frontier: nat, focusAt: nat -> Option<Surface>, time: nat)
    requires AllPlausible(records) && Ordered(records, frontier) && frontier < |records|
    requires forall i :: 0 <= i < |records| ==> Respectful(records[i], focusAt)
    requires records[frontier].request.focus.Some? && focusAt(time) != records[frontier].request.focus
    ensures var after := records[frontier := AfterCancel(records[frontier], time)];
            && AllPlausible(after) && Ordered(after, frontier + 1)
            && forall i :: 0 <= i < |after| ==> Respectful(after[i], focusAt)
  {
    assert Respectful(AfterCancel(records[frontier], time), focusAt);
    hide Respectful;
  }

  lemma CancellingLeavesOthers(records: seq<Record>, frontier: nat)
    requires AllPlausible(records) && Ordered(records, frontier) && frontier < |records|
    requires |records[frontier].times| < |records[frontier].request.actions|
    ensures var r := records[frontier];
            Without(Items(r.request, |r.times| + 1) + Left(records[frontier + 1..]), frontier + 1)
            == Left(records[frontier + 1..])
  {
    var own, others := Items(records[frontier].request, |records[frontier].times| + 1), Left(records[frontier + 1..]);
    LeftBelongs(records[frontier + 1..], frontier + 1);
    WithoutConcat(own, others, frontier + 1);
    WithoutOwn(own, frontier + 1);
    WithoutForeign(others, frontier + 1);
    hide Left, Without;
  }

  lemma QueueingKeepsRecords(queue: seq<Queued>, executed: seq<Executed>, records: seq<Record>, frontier: nat,
                             nextSequence: nat, focusAt: nat -> Option<Surface>, request: Request)
    requires Consistent(queue, executed, records, frontier, nextSequence, focusAt)
    requires request.sequence == nextSequence + 1 && request.actions != []
    ensures Consistent(queue + Items(request, 0), executed, records + [Record(request, [], None)], frontier,
                       nextSequence + 1, focusAt)
  {
    var r := Record(request, [], None);
    var after := records + [r];
    LeftOfAppended(records[frontier..], r);
    assert after[..|records|] == records && Done(r) == [];
    assert Ran(after) == Ran(records);
    assert Ordered(after, frontier);
    assert Respectful(r, focusAt);
    hide Done, Ran, Ordered;
    assert forall i :: 0 <= i < |after| ==> Respectful(after[i], focusAt);
    hide Respectful, Left, Items;
    assert after[frontier..] == records[frontier..] + [r];
  }

  // ------------------------------------------------------------ one advance of the queue

  datatype Progress = Progress(queue: seq<Queued>, executed: seq<Executed>, now: nat, armed: bool)

  /** Runs or gives up the head of the queue, then goes on unless it has to
      wait and a timer can be had. */
  function Advanced(p: Progress, focusAt: nat -> Option<Surface>, timerWorks: nat -> bool): Progress
    decreases |p.queue|
  {
    if p.queue == [] then p.(armed := false)
    else
      var head, rest := p.queue[0], p.queue[1..];
      if !FocusIsThere(head, p.now, focusAt) then
        Advanced(Progress(Without(rest, head.sequence), p.executed, p.now + 1, false), focusAt, timerWorks)
      else
        var ran := Progress(rest, p.executed + [Executed(head.sequence, head.timed, p.now)], p.now + 1, false);
        if rest == [] then ran
        else if head.timed.delayAfterMs > 0 && timerWorks(p.now) then ran.(armed := true)
        else Advanced(ran, focusAt, timerWorks)
  }

  /** The progress once the head of the queue is dealt with. */
  function HeadTaken(p: Progress, focusAt: nat -> Option<Surface>): Progress
    requires p.queue != []
  {
    var head, rest := p.queue[0], p.queue[1..];
    if FocusIsThere(head, p.now, focusAt)
    then Progress(rest, p.executed + [Executed(head.sequence, head.timed, p.now)], p.now + 1, false)
    else Progress(Without(rest, head.sequence), p.executed, p.now + 1, false)
  }

  lemma AdvancedByHead(p: Progress, focusAt: nat -> Option<Surface>, timerWorks: nat -> bool)
    requires p.queue != []
    ensures var next, ran := HeadTaken(p, focusAt), FocusIsThere(p.queue[0], p.now, focusAt);
            Advanced(p, focusAt, timerWorks) ==
            if ran && next.queue == [] then next
            else if ran && p.queue[0].timed.delayAfterMs > 0 && timerWorks(p.now) then next.(armed := true)
            else Advanced(next, focusAt, timerWorks)
  {
  }

  /** A timer is armed exactly if something is left, and only after running an
      action with a delay; no action with a delay is followed by another without
      one, unless no timer could be had. */
  lemma {:induction false} DelaysAreWaitedOut(p: Progress, focusAt: nat -> Option<Surface>, timerWorks: nat -> bool)
    ensures var q := Advanced(p, focusAt, timerWorks);
            && p.executed <= q.executed && (q.armed <==> q.queue != [])
            && (q.armed ==>
                  && |q.executed| > |p.executed|
                  && q.executed[|q.executed| - 1].timed.delayAfterMs > 0 && timerWorks(q.executed[|q.executed| - 1].time))
            && (forall i :: |p.executed| <= i < |q.executed| - 1 ==>
                  q.executed[i].timed.delayAfterMs == 0 || !timerWorks(q.executed[i].time))
    decreases |p.queue|
  {
    if p.queue != [] {
      AdvancedByHead(p, focusAt, timerWorks);
      var next := HeadTaken(p, focusAt);
      hide Advanced;
      DelaysAreWaitedOut(next, focusAt, timerWorks);
    }
  }

  // ------------------------------------------------------------ what a client can rely on

  /** What ran of one request. */
  function Of(executed: seq<Executed>, sequence: nat): seq<Action> {
    if executed == [] then []
    else
      var last := executed[|executed| - 1];
      Of(executed[..|executed| - 1], sequence) + if last.sequence == sequence then [last.timed.action] else []
  }

  lemma {:induction false} OfConcat(a: seq<Executed>, b: seq<Executed>, sequence: nat)
    ensures Of(a + b, sequence) == Of(a, sequence) + Of(b, sequence)
  {
    if b == [] {
      assert a + b == a;
    } else {
      assert (a + b)[..|a + b| - 1] == a + b[..|b| - 1];
      OfConcat(a, b[..|b| - 1], sequence);
    }
  }

  lemma {:induction false} OfDone(done: seq<Executed>, sequence: nat, own: nat)
    requires forall i :: 0 <= i < |done| ==> done[i].sequence == own
    ensures sequence != own ==> Of(done, sequence) == []
    ensures sequence == own ==> Of(done, sequence) == seq(|done|, i requires 0 <= i < |done| => done[i].timed.action)
  {
    if done != [] {
      OfDone(done[..|done| - 1], sequence, own);
    }
  }

  function FirstActions(r: Request, n: nat): seq<Action>
    requires n <= |r.actions|
  {
    seq(n, i requires 0 <= i < n => r.actions[i].action)
  }

  ghost predicate Numbered(records: seq<Record>) {
    AllPlausible(records) && forall i :: 0 <= i < |records| ==> records[i].request.sequence == i + 1
  }

  lemma {:induction false} RanIsInOrder(records: seq<Record>)
    requires Numbered(records)
    ensures forall i :: 0 <= i < |Ran(records)| ==> 1 <= Ran(records)[i].sequence <= |records|
    ensures forall i, j :: 0 <= i < j < |Ran(records)| ==> Ran(records)[i].sequence <= Ran(records)[j].sequence
  {
    if records != [] {
      RanIsInOrder(records[..|records| - 1]);
    }
  }

  lemma {:induction false} RanOf(records: seq<Record>, sequence: nat)
    requires Numbered(records)
    ensures Of(Ran(records), sequence) ==
            if 1 <= sequence <= |records|
            then FirstActions(records[sequence - 1].request, |records[sequence - 1].times|) else []
  {
    if records != [] {
      var n := |records| - 1;
      RanOf(records[..n], sequence);
      OfConcat(Ran(records[..n]), Done(records[n]), sequence);
      OfDoneRecord(records[n], sequence);
      assert Ran(records) == Ran(records[..n]) + Done(records[n]);
      assert 1 <= sequence <= n ==> records[..n][sequence - 1] == records[sequence - 1];
      hide Of, Done, FirstActions, Ran, AllPlausible;
    }
  }

  lemma OfDoneRecord(r: Record, sequence: nat)
    requires r.Plausible()
    ensures Of(Done(r), sequence) ==
            if sequence == r.request.sequence then FirstActions(r.request, |r.times|) else []
  {
    OfDone(Done(r), sequence, r.request.sequence);
  }

  lemma FrontierHasWork(records: seq<Record>, frontier: nat)
    requires AllPlausible(records) && Ordered(records, frontier) && frontier < |records|
    ensures |Left(records[frontier..])| > 0
  {
    QueueOfUntouched(records, frontier);
  }

  /** Requests never interleave and run in the order they came; of each, the
      first so many actions ran, all in the focus it was pinned to; and once
      nothing is queued, all of it, unless that focus was lost. */
  lemma RequestsRunInOrder(queue: seq<Queued>, executed: seq<Executed>, records: seq<Record>, frontier: nat,
                           nextSequence: nat, focusAt: nat -> Option<Surface>)
    requires Consistent(queue, executed, records, frontier, nextSequence, focusAt)
    ensures forall i, j :: 0 <= i < j < |executed| ==> executed[i].sequence <= executed[j].sequence
    ensures forall k :: 0 <= k < |records| ==>
              && |records[k].times| <= |records[k].request.actions|
              && Of(executed, k + 1) == FirstActions(records[k].request, |records[k].times|)
              && Respectful(records[k], focusAt)
    ensures queue == [] ==> forall k :: 0 <= k < |records| && records[k].cancelledAt.None? ==>
              Of(executed, k + 1) == FirstActions(records[k].request, |records[k].request.actions|)
  {
    hide Ran, Of, FirstActions, Respectful, Ordered, Left;
    OrderedIsNumbered(records, frontier);
    RanIsInOrder(records);
    if queue == [] {
      NothingLeft(records, frontier);
    }
    forall k | 0 <= k < |records|
      ensures |records[k].times| <= |records[k].request.actions|
      ensures Of(executed, k + 1) == FirstActions(records[k].request, |records[k].times|)
      ensures Respectful(records[k], focusAt)
    {
      RanOf(records, k + 1);
    }
  }

  lemma OrderedIsNumbered(records: seq<Record>, frontier: nat)
    requires AllPlausible(records) && Ordered(records, frontier)
    ensures Numbered(records)
  {
  }

  lemma NothingLeft(records: seq<Record>, frontier: nat)
    requires AllPlausible(records) && Ordered(records, frontier) && Left(records[frontier..]) == []
    ensures forall k :: 0 <= k < |records| && records[k].cancelledAt.None? ==>
              |records[k].times| == |records[k].request.actions|
  {
    if frontier < |records| {
      FrontierHasWork(records, frontier);
    }
  }

  // ------------------------------------------------------------ the queue

  class SyntheticInput {
    // Where the keyboard focus is each time the queue looks, and whether a
    // timer can be had then.
    const focusAt: nat -> Option<Surface>
    const timerWorks: nat -> bool
    var now: nat
    var queue: seq<Queued>
    var timerArmed: bool
    var nextSequence: nat
    ghost var executed: seq<Executed>
    ghost var records: seq<Record>
    ghost var frontier: nat

    /** Between events a timer is armed exactly if something is queued. */
    ghost predicate Valid()
      reads this
    {
      && Consistent(queue, executed, records, frontier, nextSequence, focusAt)
      && (timerArmed <==> queue != [])
    }

    constructor (focusAt: nat -> Option<Surface>, timerWorks: nat -> bool)
      ensures Valid() && records == [] && executed == []
    {
      this.focusAt, this.timerWorks := focusAt, timerWorks;
      now, queue, timerArmed, nextSequence := 0, [], false, 0;
      executed, records, frontier := [], [], 0;
    }

    method Push(actions: seq<Timed>, focus: Option<Surface>)
      requires Consistent(queue, executed, records, frontier, nextSequence, focusAt) && actions != []
      modifies this`queue, this`nextSequence, this`records
      ensures Consistent(queue, executed, records, frontier, nextSequence, focusAt) && queue != []
      ensures records == old(records) + [Record(Request(|records|, actions, focus), [], None)]
      ensures queue == old(queue) + Items(Request(|records|, actions, focus), 0)
    {
      assert nextSequence == |records|;
      nextSequence := nextSequence + 1;
      var request := Request(nextSequence, actions, focus);
      QueueingKeepsRecords(queue, executed, records, frontier, nextSequence - 1, focusAt, request);
      hide Consistent;
      queue := queue + Items(request, 0);
      records := records + [Record(request, [], None)];
    }

    /** Takes in a request behind all others. */
    method EnqueueSynthetic(actions: seq<Timed>, pinKeyboardFocus: bool)
      requires Valid()
      modifies this
      ensures Valid() && old(executed) <= executed
      ensures actions != [] ==> now > old(now)
      ensures actions == [] ==> records == old(records) && executed == old(executed)
      ensures actions != [] ==> SameRequests(records,
                  old(records) + [Record(Request(|old(records)| + 1, actions,
                                                 if pinKeyboardFocus then focusAt(old(now)) else None), [], None)])
      ensures actions != [] ==>
                var request := Request(|old(records)| + 1, actions, if pinKeyboardFocus then focusAt(old(now)) else None);
                var queued := Progress(old(queue) + Items(request, 0), old(executed), old(now) + 1, old(timerArmed));
                Progress(queue, executed, now, timerArmed) ==
                if old(timerArmed) then queued else Advanced(queued, focusAt, timerWorks)
    {
      hide Consistent, SameRequests, Advanced, Items;
      if actions != [] {
        var focus := if pinKeyboardFocus then focusAt(now) else None;
        now := now + 1;
        Push(actions, focus);
        if !timerArmed {
          AdvanceSyntheticInput();
        } else {
          SameAsItself(records);
        }
      }
    }

    /** Takes the head of the queue: runs it, or gives its whole request up. */
    method TakeHead() returns (delayAfterMs: Option<nat>)
      requires Consistent(queue, executed, records, frontier, nextSequence, focusAt) && queue != []
      modifies this`queue, this`now, this`executed, this`records, this`frontier
      ensures Consistent(queue, executed, records, frontier, nextSequence, focusAt)
      ensures |queue| < |old(queue)| && now >= old(now) && SameRequests(records, old(records)) && old(executed) <= executed
      ensures Progress(queue, executed, now, false) ==
              HeadTaken(Progress(old(queue), old(executed), old(now), false), focusAt)
      ensures delayAfterMs == if FocusIsThere(old(queue)[0], old(now), focusAt)
                              then Some(old(queue)[0].timed.delayAfterMs) else None
    {
      hide Consistent, SameRequests, AfterRun, AfterCancel, Without, FocusIsThere;
      var queued, time := queue[0], now;
      now := now + 1;
      if !FocusIsThere(queued, time, focusAt) {
        CancellingKeepsRecords(queue, executed, records, frontier, nextSequence, focusAt, time);
        queue := queue[1..];
        queue := Without(queue, queued.sequence);
        records, frontier := records[frontier := AfterCancel(records[frontier], time)], frontier + 1;
        return None;
      }
      RunningKeepsRecords(queue, executed, records, frontier, nextSequence, focusAt, time);
      queue := queue[1..];
      executed := executed + [Executed(queued.sequence, queued.timed, time)];
      ghost var r := AfterRun(records[frontier], time);
      records, frontier := records[frontier := r], if |r.times| == |r.request.actions| then frontier + 1 else frontier;
      return Some(queued.timed.delayAfterMs);
    }

    /** Runs what is due; stops at the first delay or at the end. */
    method AdvanceSyntheticInput()
      requires Consistent(queue, executed, records, frontier, nextSequence, focusAt) && !timerArmed
      modifies this
      ensures Valid() && now >= old(now) && SameRequests(records, old(records)) && old(executed) <= executed
      ensures Progress(queue, executed, now, timerArmed) ==
              Advanced(Progress(old(queue), old(executed), old(now), false), focusAt, timerWorks)
      decreases |queue|
    {
      if queue == [] {
        return;
      }
      hide Consistent, SameRequests, Advanced, HeadTaken, FocusIsThere;
      AdvancedByHead(Progress(queue, executed, now, false), focusAt, timerWorks);
      var time := now;
      var delay := TakeHead();
      if delay.Some? && (queue == [] || (delay.value > 0 && timerWorks(time))) {
        timerArmed := queue != [];
      } else {
        ghost var between := records;
        AdvanceSyntheticInput();
        SameAsBoth(records, between, old(records));
      }
    }

    method TimerFired()
      requires Valid() && timerArmed
      modifies this
      ensures Valid() && SameRequests(records, old(records)) && old(executed) <= executed
      ensures Progress(queue, executed, now, timerArmed) ==
              Advanced(Progress(old(queue), old(executed), old(now), false), focusAt, timerWorks)
    {
      timerArmed := false;
      AdvanceSyntheticInput();
    }
  }
}
