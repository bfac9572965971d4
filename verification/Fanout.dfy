/** Fan-out of published lines to subscribers over non-blocking sockets, with
    a bounded backlog each, eviction, and event sources that only the event
    loop's thread may touch. The kernel's answers to writes are parameters. */
module EventFanout {
  import opened Wrappers
  import opened Bytes
  import EventJournal

  const MAX_SUBSCRIBERS := 16
  const MAX_BACKLOG := 256 * 1024

  type Token = nat
  type Id = nat

  // ------------------------------------------------------------ one subscriber

  /** `accepted` is what the peer's socket has taken so far. */
  datatype Subscriber = Subscriber(id: Id, accepted: bytes, pending: bytes,
                                   watcher: Option<Token>, writer: Option<Token>)
  {
    function Stream(): bytes { accepted + pending }
  }

  /** The kernel's answer to one write. */
  datatype Answer = Took(n: nat) | WouldBlock | Interrupted | Failed

  function Taken(n: nat, offered: nat): nat { if n < offered then n else offered }

  /** Writes what is pending until it is gone, the socket is full, or the
      connection breaks. */
  function Flushed(s: Subscriber, answers: seq<Answer>): (Subscriber, bool, seq<Answer>)
    decreases |answers|
  {
    if s.pending == [] || answers == [] then (s, true, answers)
    else
      match answers[0]
      case Took(n) =>
        if n == 0 then (s, false, answers[1..])
        else
          var k := Taken(n, |s.pending|);
          Flushed(s.(accepted := s.accepted + s.pending[..k], pending := s.pending[k..]), answers[1..])
      case WouldBlock => (s, true, answers[1..])
      case Interrupted => Flushed(s, answers[1..])
      case Failed => (s, false, answers[1..])
  }

  datatype Verdict = Kept | Broken | OverBacklog

  /** Flushes, writes the new bytes straight through if nothing is pending, and
      keeps the rest if it does not exceed the ceiling. */
  function Delivered(s: Subscriber, line: bytes, answers: seq<Answer>): (Subscriber, Verdict) {
    var (flushed, ok, rest) := Flushed(s, answers);
    if !ok then (flushed, Broken)
    else if flushed.pending != [] then Backlogged(flushed, line)
    else
      var (sent, ok', _) := Flushed(flushed.(pending := line), rest);
      if !ok' then (sent.(pending := []), Broken)
      else Backlogged(sent.(pending := []), sent.pending)
  }

  function Backlogged(s: Subscriber, remaining: bytes): (Subscriber, Verdict) {
    if |s.pending| + |remaining| > MAX_BACKLOG then (s, OverBacklog)
    else (s.(pending := s.pending + remaining), Kept)
  }

  // ------------------------------------------------------------ conservation

  predicate NoFailure(answers: seq<Answer>) {
    forall a :: a in answers ==> a != Failed && a != Took(0)
  }

  /** Nothing is lost, repeated or reordered by a flush, and it gives up only
      when a write does. */
  lemma {:induction false} FlushConserves(s: Subscriber, answers: seq<Answer>)
    ensures var (f, ok, rest) := Flushed(s, answers);
            && f.Stream() == s.Stream() && s.accepted <= f.accepted
            && |f.pending| <= |s.pending|
            && (f.id, f.watcher, f.writer) == (s.id, s.watcher, s.writer)
            && (NoFailure(answers) ==> ok && NoFailure(rest))
    decreases |answers|
  {
    if s.pending != [] && answers != [] {
      assert answers[0] in answers;
      assert forall a :: a in answers[1..] ==> a in answers;
      match answers[0]
      case Took(n) =>
        if n > 0 {
          var k := Taken(n, |s.pending|);
          var s' := s.(accepted := s.accepted + s.pending[..k], pending := s.pending[k..]);
          assert s'.Stream() == s.Stream();
          FlushConserves(s', answers[1..]);
        }
      case Interrupted => FlushConserves(s, answers[1..]);
      case _ =>
    }
  }

  /** A kept subscriber has, taken or pending, exactly one more line; a
      dropped one has taken a prefix of that; it is dropped for its backlog
      exactly when no write failed and more than the ceiling is left. */
  lemma DeliveryConserves(s: Subscriber, line: bytes, answers: seq<Answer>)
    requires |s.pending| <= MAX_BACKLOG
    ensures var (d, verdict) := Delivered(s, line, answers);
            && s.accepted <= d.accepted <= s.Stream() + line
            && (d.id, d.watcher, d.writer) == (s.id, s.watcher, s.writer)
            && (verdict.Kept? ==> d.Stream() == s.Stream() + line && |d.pending| <= MAX_BACKLOG)
            && (NoFailure(answers) ==> !verdict.Broken?)
            && (!verdict.Broken? ==>
                  (verdict.OverBacklog? <==> |s.Stream() + line| - |d.accepted| > MAX_BACKLOG))
  {
    FlushConserves(s, answers);
    var (flushed, ok, rest) := Flushed(s, answers);
    if ok && flushed.pending == [] {
      assert flushed.accepted == s.Stream();
      var direct := flushed.(pending := line);
      FlushConserves(direct, rest);
      var (sent, ok', _) := Flushed(direct, rest);
      assert sent.accepted + sent.pending == s.Stream() + line;
      assert sent.accepted <= s.Stream() + line;
    } else {
      assert flushed.accepted <= flushed.accepted + (flushed.pending + line) == s.Stream() + line;
    }
  }

  // ------------------------------------------------------------ what ends a write

  /** Answers after which writing goes on, and those that break a connection. */
  predicate Passed(a: Answer) { a == Interrupted || (a.Took? && a.n > 0) }
  predicate Fatal(a: Answer) { a == Failed || a == Took(0) }

  /** What the kernel says it took in all. */
  function TotalTaken(answers: seq<Answer>): nat {
    if answers == [] then 0 else (if answers[0].Took? then answers[0].n else 0) + TotalTaken(answers[1..])
  }

  /** The first n answers were used up: all but the last let writing go on; the
      last broke the connection exactly if it was given up; and writing stops
      early only for want of bytes or of room. */
  ghost predicate UsedUp(answers: seq<Answer>, n: nat, ok: bool, bytesLeft: bool) {
    && n <= |answers|
    && (forall i :: 0 <= i < n - 1 ==> Passed(answers[i]))
    && (!ok <==> n > 0 && Fatal(answers[n - 1]))
    && (ok && bytesLeft && n < |answers| ==> n > 0 && answers[n - 1] == WouldBlock)
    && (n > 0 && answers[n - 1] == WouldBlock ==> bytesLeft)
  }

  lemma {:induction false} FlushUsesAnswers(s: Subscriber, answers: seq<Answer>)
    ensures var (f, ok, rest) := Flushed(s, answers);
            && |rest| <= |answers| && rest == answers[|answers| - |rest|..]
            && UsedUp(answers, |answers| - |rest|, ok, f.pending != [])
            && (!ok ==> f.pending != [])
            && |f.accepted| == |s.accepted| + Taken(TotalTaken(answers[..|answers| - |rest|]), |s.pending|)
    decreases |answers|
  {
    var (f, ok, rest) := Flushed(s, answers);
    var n := |answers| - |rest|;
    if s.pending == [] || answers == [] {
      assert answers[|answers| - |rest|..] == answers && answers[..0] == [];
    } else {
      FlushStep(s, answers);
      var tail := answers[1..];
      if answers[0] == Interrupted || (answers[0].Took? && answers[0].n > 0) {
        var k := if answers[0].Took? then Taken(answers[0].n, |s.pending|) else 0;
        var s' := if answers[0].Took? then s.(accepted := s.accepted + s.pending[..k], pending := s.pending[k..]) else s;
        FlushUsesAnswers(s', tail);
        var m := |tail| - |rest|;
        assert n == m + 1 && tail[m..] == answers[n..];
        assert answers[..n] == [answers[0]] + tail[..m];
        assert answers[..n][1..] == tail[..m];
        UsedUpNext(answers, m, ok, f.pending != []);
        hide Flushed, UsedUp;
      } else {
        assert rest == tail && n == 1;
        assert answers[..1] == [answers[0]] && answers[..1][1..] == [];
      }
    }
  }

  lemma UsedUpNext(answers: seq<Answer>, n: nat, ok: bool, bytesLeft: bool)
    requires answers != [] && Passed(answers[0]) && UsedUp(answers[1..], n, ok, bytesLeft)
    ensures UsedUp(answers, n + 1, ok, bytesLeft)
  {
    assert forall i :: 1 <= i < |answers| ==> answers[i] == answers[1..][i - 1];
  }

  /** One answer of a flush. */
  lemma FlushStep(s: Subscriber, answers: seq<Answer>)
    requires s.pending != [] && answers != []
    ensures match answers[0]
            case Took(n) =>
              if n == 0 then Flushed(s, answers) == (s, false, answers[1..])
              else
                var k := Taken(n, |s.pending|);
                Flushed(s, answers) ==
                Flushed(s.(accepted := s.accepted + s.pending[..k], pending := s.pending[k..]), answers[1..])
            case WouldBlock => Flushed(s, answers) == (s, true, answers[1..])
            case Interrupted => Flushed(s, answers) == Flushed(s, answers[1..])
            case Failed => Flushed(s, answers) == (s, false, answers[1..])
  {
  }

  /** The same for a delivery: the connection counts as broken exactly if an
      answer that breaks it was used up. */
  lemma DeliveryUsesAnswers(s: Subscriber, line: bytes, answers: seq<Answer>) returns (n: nat)
    requires |s.pending| <= MAX_BACKLOG
    ensures var (d, verdict) := Delivered(s, line, answers);
            UsedUp(answers, n, !verdict.Broken?, d.accepted != s.Stream() + line)
  {
    hide UsedUp;
    FlushConserves(s, answers);
    FlushUsesAnswers(s, answers);
    var (flushed, ok, rest) := Flushed(s, answers);
    n := |answers| - |rest|;
    hide Flushed;
    if ok && flushed.pending == [] {
      assert flushed.accepted == s.Stream();
      var direct := flushed.(pending := line);
      var (sent, ok', rest') := Flushed(direct, rest);
      DirectUsesAnswers(direct, rest);
      UsedUpBoth(answers, rest, n, |rest| - |rest'|, ok', sent.accepted != s.Stream() + line);
      n := n + |rest| - |rest'|;
    } else {
      assert |flushed.accepted| < |s.Stream() + line|;
    }
  }

  lemma DirectUsesAnswers(s: Subscriber, answers: seq<Answer>)
    ensures var (f, ok, rest) := Flushed(s, answers);
            && |rest| <= |answers| && rest == answers[|answers| - |rest|..]
            && UsedUp(answers, |answers| - |rest|, ok, f.accepted != s.Stream())
  {
    hide UsedUp;
    FlushConserves(s, answers);
    FlushUsesAnswers(s, answers);
    var f := Flushed(s, answers).0;
    hide Flushed;
    assert f.pending == [] <==> f.accepted == f.Stream();
  }

  lemma UsedUpBoth(answers: seq<Answer>, rest: seq<Answer>, n: nat, m: nat, ok: bool, bytesLeft: bool)
    requires n <= |answers| && rest == answers[n..]
    requires UsedUp(answers, n, true, false) && UsedUp(rest, m, ok, bytesLeft)
    ensures UsedUp(answers, n + m, ok, bytesLeft)
  {
    assert forall i :: 0 <= i < m ==> rest[i] == answers[n + i];
  }

  method TryFlush(s: Subscriber, answers: seq<Answer>) returns (f: Subscriber, ok: bool, rest: seq<Answer>)
    ensures (f, ok, rest) == Flushed(s, answers)
  {
    f, rest := s, answers;
    while f.pending != [] && rest != []
      invariant Flushed(f, rest) == Flushed(s, answers)
      decreases |rest|
    {
      var answer := rest[0];
      rest := rest[1..];
      match answer {
        case Took(n) =>
          if n == 0 {
            return f, false, rest;
          }
          var k := Taken(n, |f.pending|);
          f := f.(accepted := f.accepted + f.pending[..k], pending := f.pending[k..]);
        case WouldBlock =>
          return f, true, rest;
        case Interrupted =>
        case Failed =>
          return f, false, rest;
      }
    }
    ok := true;
  }

  /** Writes straight to the socket what nothing pending holds up. */
  method WriteThrough(s: Subscriber, line: bytes, answers: seq<Answer>)
    returns (sent: Subscriber, offset: nat, ok: bool)
    requires s.pending == []
    ensures offset <= |line|
    ensures var (f, ok', _) := Flushed(s.(pending := line), answers);
            ok == ok' && sent == f.(pending := []) && line[offset..] == f.pending
  {
    sent, offset, ok := s, 0, true;
    var left := answers;
    while offset < |line| && left != []
      invariant offset <= |line| && sent.pending == []
      invariant Flushed(sent.(pending := line[offset..]), left) == Flushed(s.(pending := line), answers)
      decreases |left|
    {
      var answer := left[0];
      left := left[1..];
      match answer {
        case Took(n) =>
          if n == 0 {
            return sent, offset, false;
          }
          var k := Taken(n, |line| - offset);
          assert line[offset..][..k] == line[offset..offset + k] && line[offset..][k..] == line[offset + k..];
          sent := sent.(accepted := sent.accepted + line[offset..offset + k]);
          offset := offset + k;
        case WouldBlock =>
          return sent, offset, true;
        case Interrupted =>
        case Failed =>
          return sent, offset, false;
      }
    }
  }

  method Deliver(s: Subscriber, line: bytes, answers: seq<Answer>) returns (d: Subscriber, verdict: Verdict)
    requires |s.pending| <= MAX_BACKLOG
    ensures (d, verdict) == Delivered(s, line, answers)
  {
    var flushed, ok, rest := TryFlush(s, answers);
    FlushConserves(s, answers);
    if !ok {
      return flushed, Broken;
    }
    var offset := 0;
    d := flushed;
    if flushed.pending == [] {
      var sent;
      sent, offset, ok := WriteThrough(flushed, line, rest);
      if !ok {
        return sent, Broken;
      }
      d := sent;
    }
    var remaining := line[offset..];
    var room: nat := MAX_BACKLOG - |d.pending|;
    if |remaining| > room {
      return d, OverBacklog;
    }
    d := d.(pending := d.pending + remaining);
    verdict := Kept;
  }
}
