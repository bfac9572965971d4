/** The set of subscribers, its event sources, and the ping that asks the event
    loop's thread to change them. Publications may come from another thread
    between any two steps; one lock makes each step atomic. */
module EventSubscribers {
  import opened Wrappers
  import opened Bytes
  import opened EventFanout
  import EventJournal

  /** What a registered event source calls back for. */
  datatype Source = Watch(id: Id) | Write(id: Id)

  // ------------------------------------------------------------ accounting

  function Wire(payloads: seq<bytes>): bytes {
    if payloads == [] then [] else payloads[0] + Wire(payloads[1..])
  }

  lemma {:induction false} WireOfAppended(payloads: seq<bytes>, payload: bytes)
    ensures Wire(payloads + [payload]) == Wire(payloads) + payload
  {
    if payloads == [] {
      assert (payloads + [payload])[1..] == [];
    } else {
      assert (payloads + [payload])[1..] == payloads[1..] + [payload];
      WireOfAppended(payloads[1..], payload);
    }
  }

  /** What was published since a subscriber joined. */
  ghost function Due(log: seq<bytes>, joined: map<Id, nat>, id: Id): bytes {
    if id in joined && joined[id] <= |log| then Wire(log[joined[id]..]) else []
  }

  lemma DueOfAppended(log: seq<bytes>, joined: map<Id, nat>, id: Id, payload: bytes)
    requires id in joined && joined[id] <= |log|
    ensures Due(log + [payload], joined, id) == Due(log, joined, id) + payload
  {
    assert (log + [payload])[joined[id]..] == log[joined[id]..] + [payload];
    WireOfAppended(log[joined[id]..], payload);
  }

  /** Taken or pending, a live subscriber has exactly what was published since
      it joined, and no more pending than the ceiling. */
  ghost predicate Served(s: Subscriber, log: seq<bytes>, joined: map<Id, nat>) {
    && s.id in joined && joined[s.id] <= |log|
    && s.Stream() == Due(log, joined, s.id)
    && |s.pending| <= MAX_BACKLOG
  }

  /** A dropped subscriber took a prefix of it. */
  ghost predicate CutShort(s: Subscriber, log: seq<bytes>, joined: map<Id, nat>) {
    && s.id in joined && joined[s.id] <= |log|
    && s.accepted <= Due(log, joined, s.id)
  }

  predicate Owns(s: Subscriber, token: Token) {
    s.watcher == Some(token) || s.writer == Some(token)
  }

  /** Pending bytes that no source will drain. */
  predicate Stuck(s: Subscriber) { s.pending != [] && s.writer.None? }

  function TokensOf(s: Subscriber): seq<Token> {
    (match s.watcher case Some(t) => [t] case None => []) + (match s.writer case Some(t) => [t] case None => [])
  }

  ghost predicate IdsAscend(subscribers: seq<Subscriber>, nextId: Id) {
    && (forall i, j :: 0 <= i < j < |subscribers| ==> subscribers[i].id < subscribers[j].id)
    && (forall i :: 0 <= i < |subscribers| ==> subscribers[i].id < nextId)
  }

  /** What a live subscriber owns is registered for it. */
  ghost predicate OwnedAreRegistered(subscribers: seq<Subscriber>, sources: map<Token, Source>) {
    forall i :: 0 <= i < |subscribers| ==> Registered(subscribers[i], sources)
  }

  ghost predicate Registered(s: Subscriber, sources: map<Token, Source>) {
    && (s.watcher.Some? ==> s.watcher.value in sources && sources[s.watcher.value] == Watch(s.id))
    && (s.writer.Some? ==> s.writer.value in sources && sources[s.writer.value] == Write(s.id))
  }

  /** What is registered is owned or about to be removed, never both. */
  ghost predicate RegisteredAreAccounted(subscribers: seq<Subscriber>, retired: seq<Token>, sources: map<Token, Source>) {
    && (forall t :: t in sources && t !in retired ==>
          exists i :: 0 <= i < |subscribers| && Owns(subscribers[i], t))
    && (forall t :: t in sources && t in retired ==>
          forall i :: 0 <= i < |subscribers| ==> subscribers[i].id != sources[t].id)
  }

  ghost predicate Fresh(retired: seq<Token>, sources: map<Token, Source>, nextId: Id, nextToken: Token) {
    && (forall t :: t in retired ==> t < nextToken)
    && (forall t :: t in sources ==> t < nextToken && sources[t].id < nextId)
  }

  ghost predicate Accounted(subscribers: seq<Subscriber>, retired: seq<Token>, sources: map<Token, Source>,
                            nextId: Id, nextToken: Token)
  {
    && IdsAscend(subscribers, nextId)
    && OwnedAreRegistered(subscribers, sources)
    && RegisteredAreAccounted(subscribers, retired, sources)
    && Fresh(retired, sources, nextId, nextToken)
  }

  function Without<T>(s: seq<T>, index: nat): seq<T>
    requires index < |s|
  {
    s[..index] + s[index + 1..]
  }

  function Remaining(sources: map<Token, Source>, removed: seq<Token>): map<Token, Source> {
    map t | t in sources && t !in removed :: sources[t]
  }

  /** A subscriber may be rewritten in place if it keeps its id and its sources. */
  lemma RewriteKeepsAccounts(subscribers: seq<Subscriber>, index: nat, s: Subscriber, retired: seq<Token>,
                             sources: map<Token, Source>, nextId: Id, nextToken: Token)
    requires Accounted(subscribers, retired, sources, nextId, nextToken) && index < |subscribers|
    requires (s.id, s.watcher, s.writer) == (subscribers[index].id, subscribers[index].watcher, subscribers[index].writer)
    ensures Accounted(subscribers[index := s], retired, sources, nextId, nextToken)
  {
    var after := subscribers[index := s];
    forall t | t in sources && t !in retired
      ensures exists i :: 0 <= i < |after| && Owns(after[i], t)
    {
      var i :| 0 <= i < |subscribers| && Owns(subscribers[i], t);
      assert Owns(after[i], t);
    }
  }

  lemma RetiringKeepsRegistered(subscribers: seq<Subscriber>, index: nat, sources: map<Token, Source>, nextId: Id)
    requires IdsAscend(subscribers, nextId) && OwnedAreRegistered(subscribers, sources) && index < |subscribers|
    ensures IdsAscend(Without(subscribers, index), nextId)
    ensures OwnedAreRegistered(Without(subscribers, index), sources)
    ensures forall i :: 0 <= i < |subscribers| - 1 ==>
              Without(subscribers, index)[i] == subscribers[if i < index then i else i + 1]
              && subscribers[if i < index then i else i + 1].id != subscribers[index].id
  {
    var after := Without(subscribers, index);
    assert forall i :: 0 <= i < |after| ==> after[i] == subscribers[if i < index then i else i + 1];
    hide Registered;
  }

  lemma OwnedOrRetired(subscribers: seq<Subscriber>, index: nat, retired: seq<Token>, sources: map<Token, Source>, t: Token)
    requires RegisteredAreAccounted(subscribers, retired, sources) && index < |subscribers|
    requires t in sources && t !in retired + TokensOf(subscribers[index])
    ensures exists i :: 0 <= i < |Without(subscribers, index)| && Owns(Without(subscribers, index)[i], t)
  {
    assert t !in retired;
    var i :| 0 <= i < |subscribers| && Owns(subscribers[i], t);
    assert i != index;
    assert Owns(Without(subscribers, index)[if i < index then i else i - 1], t);
  }

  /** Removing a subscriber is accounted for by retiring all it owns. */
  lemma RetiringKeepsAccounts(subscribers: seq<Subscriber>, index: nat, retired: seq<Token>,
                              sources: map<Token, Source>, nextId: Id, nextToken: Token)
    requires Accounted(subscribers, retired, sources, nextId, nextToken) && index < |subscribers|
    ensures Accounted(Without(subscribers, index), retired + TokensOf(subscribers[index]), sources, nextId, nextToken)
  {
    var after, gone := Without(subscribers, index), subscribers[index];
    var retired' := retired + TokensOf(gone);
    RetiringKeepsRegistered(subscribers, index, sources, nextId);
    assert Registered(gone, sources);
    hide OwnedAreRegistered, IdsAscend, Without;
    forall t | t in sources && t !in retired'
      ensures exists i :: 0 <= i < |after| && Owns(after[i], t)
    {
      OwnedOrRetired(subscribers, index, retired, sources, t);
    }
    assert forall t :: t in TokensOf(gone) ==> t in sources && sources[t].id == gone.id;
    hide TokensOf, Owns;
  }

  /** Once the retired sources are removed, a source is registered exactly if a
      live subscriber owns it. */
  lemma DrainingSettlesAccounts(subscribers: seq<Subscriber>, retired: seq<Token>,
                                sources: map<Token, Source>, nextId: Id, nextToken: Token)
    requires Accounted(subscribers, retired, sources, nextId, nextToken)
    ensures Accounted(subscribers, [], Remaining(sources, retired), nextId, nextToken)
    ensures forall t :: t in Remaining(sources, retired) <==>
              exists i :: 0 <= i < |subscribers| && Owns(subscribers[i], t)
  {
    forall i | 0 <= i < |subscribers|
      ensures Registered(subscribers[i], Remaining(sources, retired))
    {
      assert Registered(subscribers[i], sources);
    }
  }

  /** The source that fired for a live subscriber is the one it owns. */
  lemma FiredIsOwned(subscribers: seq<Subscriber>, index: nat, token: Token, retired: seq<Token>,
                     sources: map<Token, Source>, nextId: Id, nextToken: Token)
    requires Accounted(subscribers, retired, sources, nextId, nextToken) && index < |subscribers|
    requires token in sources && sources[token].id == subscribers[index].id
    ensures sources[token].Watch? ==> subscribers[index].watcher == Some(token)
    ensures sources[token].Write? ==> subscribers[index].writer == Some(token)
  {
    var i :| 0 <= i < |subscribers| && Owns(subscribers[i], token);
    assert Registered(subscribers[i], sources);
    assert !(i < index) && !(index < i);
  }

  /** A source that removes itself while its subscriber forgets it. */
  lemma ForgettingKeepsAccounts(subscribers: seq<Subscriber>, index: nat, token: Token, s: Subscriber,
                                retired: seq<Token>, sources: map<Token, Source>, nextId: Id, nextToken: Token)
    requires Accounted(subscribers, retired, sources, nextId, nextToken) && index < |subscribers|
    requires token in sources && sources[token].id == subscribers[index].id == s.id
    requires s.watcher == if sources[token].Watch? then None else subscribers[index].watcher
    requires s.writer == if sources[token].Write? then None else subscribers[index].writer
    ensures Accounted(subscribers[index := s], retired, sources - {token}, nextId, nextToken)
  {
    FiredIsOwned(subscribers, index, token, retired, sources, nextId, nextToken);
    var after, sources' := subscribers[index := s], sources - {token};
    forall i | 0 <= i < |after|
      ensures Registered(after[i], sources')
    {
      assert Registered(subscribers[i], sources);
      assert i != index ==> subscribers[i].id != subscribers[index].id;
    }
    forall t | t in sources' && t !in retired
      ensures exists i :: 0 <= i < |after| && Owns(after[i], t)
    {
      var i :| 0 <= i < |subscribers| && Owns(subscribers[i], t);
      assert Owns(after[i], t);
    }
  }

  /** A new source for a subscriber that has none of its kind. */
  lemma AdoptingKeepsAccounts(subscribers: seq<Subscriber>, index: nat, source: Source, s: Subscriber,
                              retired: seq<Token>, sources: map<Token, Source>, nextId: Id, nextToken: Token)
    requires Accounted(subscribers, retired, sources, nextId, nextToken) && index < |subscribers|
    requires subscribers[index].writer.None? && source == Write(subscribers[index].id)
    requires s == subscribers[index].(writer := Some(nextToken))
    ensures Accounted(subscribers[index := s], retired, sources[nextToken := source], nextId, nextToken + 1)
  {
    var after, sources' := subscribers[index := s], sources[nextToken := source];
    forall i | 0 <= i < |after|
      ensures Registered(after[i], sources')
    {
      assert Registered(subscribers[i], sources);
    }
    forall t | t in sources' && t !in retired
      ensures exists i :: 0 <= i < |after| && Owns(after[i], t)
    {
      if t == nextToken {
        assert Owns(after[index], t);
      } else {
        var i :| 0 <= i < |subscribers| && Owns(subscribers[i], t);
        assert Owns(after[i], t);
      }
    }
  }

  lemma JoiningKeepsAccounts(subscribers: seq<Subscriber>, retired: seq<Token>,
                             sources: map<Token, Source>, nextId: Id, nextToken: Token)
    requires Accounted(subscribers, retired, sources, nextId, nextToken)
    ensures Accounted(subscribers + [Subscriber(nextId, [], [], Some(nextToken), None)], retired,
                      sources[nextToken := Watch(nextId)], nextId + 1, nextToken + 1)
  {
    var s := Subscriber(nextId, [], [], Some(nextToken), None);
    var after, sources' := subscribers + [s], sources[nextToken := Watch(nextId)];
    forall i | 0 <= i < |after|
      ensures Registered(after[i], sources')
    {
      if i < |subscribers| {
        assert Registered(subscribers[i], sources);
      }
    }
    forall t | t in sources' && t !in retired
      ensures exists i :: 0 <= i < |after| && Owns(after[i], t)
    {
      if t == nextToken {
        assert Owns(after[|subscribers|], t);
      } else {
        var i :| 0 <= i < |subscribers| && Owns(subscribers[i], t);
        assert Owns(after[i], t);
      }
    }
  }

  // ------------------------------------------------------------ what a publication does

  /** Who is still connected after a publication, in the same order. */
  function Survivors(subscribers: seq<Subscriber>, payload: bytes, answers: Id -> seq<Answer>): seq<Subscriber> {
    if subscribers == [] then []
    else
      var s := subscribers[|subscribers| - 1];
      var (d, verdict) := Delivered(s, payload, answers(s.id));
      Survivors(subscribers[..|subscribers| - 1], payload, answers) + if verdict.Kept? then [d] else []
  }

  function Evicted(subscribers: seq<Subscriber>, payload: bytes, answers: Id -> seq<Answer>): seq<Subscriber> {
    if subscribers == [] then []
    else
      var s := subscribers[|subscribers| - 1];
      var (d, verdict) := Delivered(s, payload, answers(s.id));
      Evicted(subscribers[..|subscribers| - 1], payload, answers) + if verdict.Kept? then [] else [d]
  }

  /** Whose delivery went well is still there afterwards, everyone else is
      not, and nobody is anything else. */
  lemma {:induction false} SurvivorsAre(subscribers: seq<Subscriber>, payload: bytes, answers: Id -> seq<Answer>)
    ensures var kept, lost := Survivors(subscribers, payload, answers), Evicted(subscribers, payload, answers);
            && |kept| + |lost| == |subscribers|
            && forall i :: 0 <= i < |subscribers| ==>
                 var (d, verdict) := Delivered(subscribers[i], payload, answers(subscribers[i].id));
                 d in if verdict.Kept? then kept else lost
  {
    hide Delivered;
    if subscribers != [] {
      SurvivorsAre(subscribers[..|subscribers| - 1], payload, answers);
      assert forall i :: 0 <= i < |subscribers| - 1 ==> subscribers[i] == subscribers[..|subscribers| - 1][i];
    }
  }

  lemma SurvivorsStart(before: seq<Subscriber>, payload: bytes, answers: Id -> seq<Answer>)
    ensures Survivors(before[..0], payload, answers) == [] && Evicted(before[..0], payload, answers) == []
    ensures before[0..] == before
  {
  }

  lemma SurvivorsStep(before: seq<Subscriber>, seen: nat, payload: bytes, answers: Id -> seq<Answer>,
                      subscribers: seq<Subscriber>, index: nat, gone: seq<Subscriber>)
    requires seen < |before| && index == |Survivors(before[..seen], payload, answers)|
    requires subscribers == Survivors(before[..seen], payload, answers) + before[seen..]
    ensures index < |subscribers| && subscribers[index] == before[seen]
    ensures var (d, verdict) := Delivered(subscribers[index], payload, answers(subscribers[index].id));
            var done := Survivors(before[..seen + 1], payload, answers);
            && (verdict.Kept? ==> subscribers[index := d] == done + before[seen + 1..] && index + 1 == |done|)
            && (!verdict.Kept? ==> Without(subscribers, index) == done + before[seen + 1..] && index == |done|)
            && (verdict.Kept? ==> Evicted(before[..seen + 1], payload, answers) == Evicted(before[..seen], payload, answers))
            && (!verdict.Kept? ==> gone + Evicted(before[..seen], payload, answers) + [d] ==
                                   gone + Evicted(before[..seen + 1], payload, answers))
  {
    assert before[..seen + 1][..seen] == before[..seen];
    hide Delivered;
  }

  /** One subscriber's step from what was due before a publication to what is
      due after it. */
  lemma DeliveryServes(s: Subscriber, payload: bytes, answers: seq<Answer>, log: seq<bytes>, joined: map<Id, nat>)
    requires Served(s, log, joined)
    ensures var (d, verdict) := Delivered(s, payload, answers);
            && (verdict.Kept? ==> Served(d, log + [payload], joined))
            && CutShort(d, log + [payload], joined)
            && (d.id, d.watcher, d.writer) == (s.id, s.watcher, s.writer)
            && |s.pending| <= MAX_BACKLOG
  {
    DeliveryConserves(s, payload, answers);
    DueOfAppended(log, joined, s.id, payload);
  }

  lemma CutShortLasts(s: Subscriber, log: seq<bytes>, joined: map<Id, nat>, payload: bytes)
    requires CutShort(s, log, joined)
    ensures CutShort(s, log + [payload], joined)
  {
    DueOfAppended(log, joined, s.id, payload);
  }

  // ------------------------------------------------------------ what is owed to everyone

  ghost predicate AllServed(subscribers: seq<Subscriber>, gone: seq<Subscriber>, log: seq<bytes>,
                            joined: map<Id, nat>, nextId: Id)
  {
    && |subscribers| <= MAX_SUBSCRIBERS
    && (forall i :: 0 <= i < |subscribers| ==>
          Served(subscribers[i], log, joined) && subscribers[i].watcher.Some? && subscribers[i].id < nextId)
    && (forall i :: 0 <= i < |gone| ==> CutShort(gone[i], log, joined) && gone[i].id < nextId)
  }

  /** Bytes or sources are left that only the loop's thread can deal with. */
  ghost predicate NeedsLoop(subscribers: seq<Subscriber>, retired: seq<Token>) {
    retired != [] || exists i :: 0 <= i < |subscribers| && Stuck(subscribers[i])
  }

  lemma JoiningKeepsService(subscribers: seq<Subscriber>, gone: seq<Subscriber>, log: seq<bytes>,
                            joined: map<Id, nat>, nextId: Id, token: Token)
    requires AllServed(subscribers, gone, log, joined, nextId) && |subscribers| < MAX_SUBSCRIBERS
    ensures AllServed(subscribers + [Subscriber(nextId, [], [], Some(token), None)], gone, log,
                      joined[nextId := |log|], nextId + 1)
    ensures forall retired :: NeedsLoop(subscribers + [Subscriber(nextId, [], [], Some(token), None)], retired) ==>
              NeedsLoop(subscribers, retired)
  {
    assert log[|log|..] == [];
  }

  lemma SpendingAnId(subscribers: seq<Subscriber>, gone: seq<Subscriber>, retired: seq<Token>,
                     sources: map<Token, Source>, log: seq<bytes>, joined: map<Id, nat>, nextId: Id, nextToken: Token)
    requires Accounted(subscribers, retired, sources, nextId, nextToken)
    requires AllServed(subscribers, gone, log, joined, nextId)
    ensures Accounted(subscribers, retired, sources, nextId + 1, nextToken)
    ensures AllServed(subscribers, gone, log, joined, nextId + 1)
  {
    hide Served, CutShort, OwnedAreRegistered, RegisteredAreAccounted;
  }

  /** Halfway through a publication: `index` subscribers have had it. */
  ghost predicate Midway(subscribers: seq<Subscriber>, gone: seq<Subscriber>, index: nat, payload: bytes,
                         log: seq<bytes>, joined: map<Id, nat>, nextId: Id)
  {
    && index <= |subscribers| <= MAX_SUBSCRIBERS
    && (forall i :: 0 <= i < index ==> Served(subscribers[i], log + [payload], joined))
    && (forall i :: index <= i < |subscribers| ==> Served(subscribers[i], log, joined))
    && (forall i :: 0 <= i < |subscribers| ==> subscribers[i].watcher.Some? && subscribers[i].id < nextId)
    && (forall i :: 0 <= i < |gone| ==> CutShort(gone[i], log + [payload], joined) && gone[i].id < nextId)
  }

  lemma MidwayStarts(subscribers: seq<Subscriber>, gone: seq<Subscriber>, payload: bytes,
                     log: seq<bytes>, joined: map<Id, nat>, nextId: Id)
    requires AllServed(subscribers, gone, log, joined, nextId)
    ensures Midway(subscribers, gone, 0, payload, log, joined, nextId)
  {
    forall i | 0 <= i < |gone|
      ensures CutShort(gone[i], log + [payload], joined)
    {
      CutShortLasts(gone[i], log, joined, payload);
    }
  }

  lemma MidwayStep(subscribers: seq<Subscriber>, gone: seq<Subscriber>, index: nat, payload: bytes,
                   answers: seq<Answer>, log: seq<bytes>, joined: map<Id, nat>, nextId: Id, retired: seq<Token>)
    requires Midway(subscribers, gone, index, payload, log, joined, nextId) && index < |subscribers|
    ensures |subscribers[index].pending| <= MAX_BACKLOG
    ensures var (d, verdict) := Delivered(subscribers[index], payload, answers);
            if verdict.Kept? then Midway(subscribers[index := d], gone, index + 1, payload, log, joined, nextId)
            else Midway(Without(subscribers, index), gone + [d], index, payload, log, joined, nextId)
    ensures var d := Delivered(subscribers[index], payload, answers).0;
            NeedsLoop(subscribers[index := d], retired) ==> NeedsLoop(subscribers, retired) || Stuck(d)
  {
    DeliveryServes(subscribers[index], payload, answers, log, joined);
    hide Delivered, CutShort;
    var d := Delivered(subscribers[index], payload, answers).0;
    if retired == [] && NeedsLoop(subscribers[index := d], retired) && !Stuck(d) {
      var i :| 0 <= i < |subscribers| && Stuck(subscribers[index := d][i]);
      assert Stuck(subscribers[i]);
    }
  }

  lemma MidwayEnds(subscribers: seq<Subscriber>, gone: seq<Subscriber>, payload: bytes,
                   log: seq<bytes>, joined: map<Id, nat>, nextId: Id)
    requires Midway(subscribers, gone, |subscribers|, payload, log, joined, nextId)
    ensures AllServed(subscribers, gone, log + [payload], joined, nextId)
  {
  }

  /** A subscriber rewritten in place, or then removed. */
  lemma RewriteKeepsService(subscribers: seq<Subscriber>, index: nat, s: Subscriber, gone: seq<Subscriber>,
                            log: seq<bytes>, joined: map<Id, nat>, nextId: Id)
    requires AllServed(subscribers, gone, log, joined, nextId) && index < |subscribers|
    requires s.id == subscribers[index].id && s.accepted <= subscribers[index].Stream()
    ensures s.Stream() == subscribers[index].Stream() && |s.pending| <= MAX_BACKLOG && s.watcher.Some? ==>
              AllServed(subscribers[index := s], gone, log, joined, nextId)
    ensures AllServed(Without(subscribers, index), gone + [s], log, joined, nextId)
  {
    assert Served(subscribers[index], log, joined);
    assert CutShort(s, log, joined);
    hide Due;
  }

  lemma RewriteNeedsNoLoop(subscribers: seq<Subscriber>, index: nat, s: Subscriber, retired: seq<Token>)
    requires index < |subscribers|
    ensures NeedsLoop(subscribers[index := s], retired) ==> NeedsLoop(subscribers, retired) || Stuck(s)
    ensures NeedsLoop(Without(subscribers, index), []) ==> NeedsLoop(subscribers, retired)
  {
    var rewritten, rest := subscribers[index := s], Without(subscribers, index);
    forall i | 0 <= i < |rewritten| && Stuck(rewritten[i]) && !Stuck(s)
      ensures NeedsLoop(subscribers, retired)
    {
      assert Stuck(subscribers[i]);
    }
    forall i | 0 <= i < |rest| && Stuck(rest[i])
      ensures NeedsLoop(subscribers, retired)
    {
      assert Stuck(subscribers[if i < index then i else i + 1]);
    }
  }

  /** What flushing does to the service, whichever way it ends. */
  lemma FlushKeepsService(subscribers: seq<Subscriber>, index: nat, answers: seq<Answer>, gone: seq<Subscriber>,
                          log: seq<bytes>, joined: map<Id, nat>, nextId: Id, retired: seq<Token>)
    requires AllServed(subscribers, gone, log, joined, nextId) && index < |subscribers|
    ensures var (f, ok, _) := Flushed(subscribers[index], answers);
            var forgotten := f.(writer := None);
            && (f.id, f.watcher, f.writer) == (subscribers[index].id, subscribers[index].watcher, subscribers[index].writer)
            && AllServed(subscribers[index := f], gone, log, joined, nextId)
            && AllServed(subscribers[index := forgotten], gone, log, joined, nextId)
            && AllServed(Without(subscribers, index), gone + [forgotten], log, joined, nextId)
            && (NeedsLoop(Without(subscribers, index), []) ==> NeedsLoop(subscribers, retired))
            && (f.writer.Some? && NeedsLoop(subscribers[index := f], retired) ==> NeedsLoop(subscribers, retired))
            && (f.pending == [] && NeedsLoop(subscribers[index := forgotten], retired) ==> NeedsLoop(subscribers, retired))
  {
    assert Served(subscribers[index], log, joined);
    FlushConserves(subscribers[index], answers);
    var f := Flushed(subscribers[index], answers).0;
    hide Flushed, NeedsLoop;
    RewriteKeepsService(subscribers, index, f, gone, log, joined, nextId);
    RewriteKeepsService(subscribers, index, f.(writer := None), gone, log, joined, nextId);
    RewriteNeedsNoLoop(subscribers, index, f, retired);
    RewriteNeedsNoLoop(subscribers, index, f.(writer := None), retired);
  }

  /** A source whose subscriber is no longer there may go at any time. */
  lemma StraySourceMayGo(subscribers: seq<Subscriber>, token: Token, retired: seq<Token>,
                         sources: map<Token, Source>, nextId: Id, nextToken: Token)
    requires Accounted(subscribers, retired, sources, nextId, nextToken)
    requires token in sources && Find(subscribers, sources[token].id) == |subscribers|
    ensures Accounted(subscribers, retired, sources - {token}, nextId, nextToken)
  {
    forall i | 0 <= i < |subscribers|
      ensures Registered(subscribers[i], sources - {token})
    {
      assert Registered(subscribers[i], sources) && subscribers[i].id != sources[token].id;
    }
  }

  /** The position of the subscriber with this id, if there is one. */
  function Find(subscribers: seq<Subscriber>, id: Id): (index: nat)
    ensures index <= |subscribers|
    ensures index < |subscribers| ==> subscribers[index].id == id
    ensures forall i :: 0 <= i < index ==> subscribers[i].id != id
  {
    if subscribers == [] || subscribers[0].id == id then 0 else 1 + Find(subscribers[1..], id)
  }

  /** When the peer reads all that was offered, it has everything due. */
  lemma {:induction false} ReadersCatchUp(s: Subscriber, answers: seq<Answer>)
    requires |answers| >= |s.pending|
    requires forall i :: 0 <= i < |answers| ==> answers[i].Took? && answers[i].n > 0
    ensures Flushed(s, answers).1 && Flushed(s, answers).0.accepted == s.Stream()
    ensures Flushed(s, answers).0.pending == []
    decreases |answers|
  {
    if s.pending != [] {
      var k := Taken(answers[0].n, |s.pending|);
      var s' := s.(accepted := s.accepted + s.pending[..k], pending := s.pending[k..]);
      ReadersCatchUp(s', answers[1..]);
    }
  }

  // ------------------------------------------------------------ what a wake-up does

  /** The set after a wake-up, who was disconnected, and the next token. */
  datatype Wakeup = Wakeup(kept: seq<Subscriber>, failed: seq<Subscriber>, next: Token)

  /** Everyone stuck gets a writer; whoever cannot is disconnected. */
  function Woken(subscribers: seq<Subscriber>, token: Token, registers: Id -> bool): Wakeup {
    if subscribers == [] then Wakeup([], [], token)
    else
      var s := subscribers[|subscribers| - 1];
      var w := Woken(subscribers[..|subscribers| - 1], token, registers);
      if !Stuck(s) then w.(kept := w.kept + [s])
      else if registers(s.id) then w.(kept := w.kept + [s.(writer := Some(w.next))], next := w.next + 1)
      else w.(failed := w.failed + [s])
  }

  lemma WokenStep(before: seq<Subscriber>, seen: nat, token: Token, registers: Id -> bool,
                  subscribers: seq<Subscriber>, index: nat, gone: seq<Subscriber>)
    requires seen < |before| && index == |Woken(before[..seen], token, registers).kept|
    requires subscribers == Woken(before[..seen], token, registers).kept + before[seen..]
    ensures index < |subscribers| && subscribers[index] == before[seen]
    ensures var s := subscribers[index];
            var w, w' := Woken(before[..seen], token, registers), Woken(before[..seen + 1], token, registers);
            && (!Stuck(s) ==> subscribers == w'.kept + before[seen + 1..] && index + 1 == |w'.kept|
                              && w'.failed == w.failed && w'.next == w.next)
            && (Stuck(s) && registers(s.id) ==>
                  subscribers[index := s.(writer := Some(w.next))] == w'.kept + before[seen + 1..]
                  && index + 1 == |w'.kept| && w'.failed == w.failed && w'.next == w.next + 1)
            && (Stuck(s) && !registers(s.id) ==>
                  Without(subscribers, index) == w'.kept + before[seen + 1..] && index == |w'.kept|
                  && gone + w.failed + [s] == gone + w'.failed && w'.next == w.next)
  {
    assert before[..seen + 1][..seen] == before[..seen];
  }

  lemma WokenStart(before: seq<Subscriber>, token: Token, registers: Id -> bool)
    ensures Woken(before[..0], token, registers) == Wakeup([], [], token)
    ensures before[0..] == before
  {
  }

  lemma SettledAfterWakeup(subscribers: seq<Subscriber>, retired: seq<Token>,
                           sources: map<Token, Source>, nextId: Id, nextToken: Token)
    requires Accounted(subscribers, retired, sources, nextId, nextToken) && retired == []
    requires forall s :: s in subscribers ==> !Stuck(s)
    ensures !NeedsLoop(subscribers, retired)
    ensures forall t :: t in sources <==> exists i :: 0 <= i < |subscribers| && Owns(subscribers[i], t)
  {
    assert forall i :: 0 <= i < |subscribers| ==> subscribers[i] in subscribers && Registered(subscribers[i], sources);
  }

  /** What a wake-up does to one subscriber: nothing if it is not stuck, else
      it gets a writer of its own if one can be registered, and goes if not. */
  ghost predicate RearmedIn(s: Subscriber, registers: Id -> bool, token: Token, w: Wakeup) {
    if !Stuck(s) then s in w.kept
    else if !registers(s.id) then s in w.failed
    else exists t :: token <= t < w.next && s.(writer := Some(t)) in w.kept
  }

  /** After a wake-up nobody is stuck, and nobody was lost without need. */
  lemma {:induction false} NobodyStaysStuck(subscribers: seq<Subscriber>, token: Token, registers: Id -> bool)
    ensures forall s :: s in Woken(subscribers, token, registers).kept ==> !Stuck(s)
    ensures forall s :: s in Woken(subscribers, token, registers).failed ==> Stuck(s) && !registers(s.id)
    ensures |subscribers| == |Woken(subscribers, token, registers).kept| + |Woken(subscribers, token, registers).failed|
    ensures Woken(subscribers, token, registers).next >= token
    ensures forall i :: 0 <= i < |subscribers| ==>
              RearmedIn(subscribers[i], registers, token, Woken(subscribers, token, registers))
  {
    if subscribers != [] {
      var n := |subscribers| - 1;
      var before, w := Woken(subscribers[..n], token, registers), Woken(subscribers, token, registers);
      NobodyStaysStuck(subscribers[..n], token, registers);
      forall i | 0 <= i < n
        ensures RearmedIn(subscribers[i], registers, token, w)
      {
        var s := subscribers[..n][i];
        assert RearmedIn(s, registers, token, before);
        if Stuck(s) && registers(s.id) {
          var t :| token <= t < before.next && s.(writer := Some(t)) in before.kept;
          assert s.(writer := Some(t)) in w.kept;
        }
      }
      var last := subscribers[n];
      if Stuck(last) && registers(last.id) {
        assert last.(writer := Some(before.next)) in w.kept;
      }
    }
  }

  // ------------------------------------------------------------ the set

  class SubscriberSet {
    var subscribers: seq<Subscriber>
    var nextId: Id
    // Sources of removed subscribers, to be removed on the loop's thread.
    var retired: seq<Token>
    // The event loop's table of sources.
    var sources: map<Token, Source>
    var nextToken: Token
    // The ping was sent and not read.
    var pinged: bool
    // The loop has read the ping and has not run its callback yet.
    var flushDue: bool
    ghost var log: seq<bytes>
    ghost var joined: map<Id, nat>
    // Everyone who was disconnected, as they were then.
    ghost var gone: seq<Subscriber>

    ghost predicate Valid()
      reads this
    {
      && Accounted(subscribers, retired, sources, nextId, nextToken)
      && AllServed(subscribers, gone, log, joined, nextId)
      && (NeedsLoop(subscribers, retired) ==> pinged || flushDue)
    }

    constructor ()
      ensures Valid() && subscribers == [] && log == [] && gone == []
    {
      subscribers, nextId, retired, sources, nextToken := [], 0, [], map[], 0;
      pinged, flushDue := false, false;
      log, joined, gone := [], map[], [];
    }

    method Retire(index: nat)
      requires index < |subscribers|
      modifies this`subscribers, this`retired, this`gone
      ensures subscribers == Without(old(subscribers), index)
      ensures retired == old(retired) + TokensOf(old(subscribers)[index])
      ensures gone == old(gone) + [old(subscribers)[index]]
    {
      var subscriber := subscribers[index];
      subscribers := subscribers[..index] + subscribers[index + 1..];
      if subscriber.watcher.Some? {
        retired := retired + [subscriber.watcher.value];
      }
      if subscriber.writer.Some? {
        retired := retired + [subscriber.writer.value];
      }
      gone := gone + [subscriber];
    }

    method Drain()
      requires Accounted(subscribers, retired, sources, nextId, nextToken)
      modifies this`retired, this`sources
      ensures Accounted(subscribers, retired, sources, nextId, nextToken)
      ensures retired == [] && sources == Remaining(old(sources), old(retired))
    {
      DrainingSettlesAccounts(subscribers, retired, sources, nextId, nextToken);
      sources := map t | t in sources && t !in retired :: sources[t];
      retired := [];
    }

    /** One subscriber's turn in a publication. */
    method PublishAt(index: nat, payload: bytes, answers: seq<Answer>) returns (kept: bool)
      requires index < |subscribers| && |subscribers[index].pending| <= MAX_BACKLOG
      requires Accounted(subscribers, retired, sources, nextId, nextToken)
      modifies this`subscribers, this`retired, this`gone
      ensures Accounted(subscribers, retired, sources, nextId, nextToken)
      ensures var (d, verdict) := Delivered(old(subscribers)[index], payload, answers);
              && kept == verdict.Kept?
              && (kept ==> subscribers == old(subscribers)[index := d]
                           && retired == old(retired) && gone == old(gone))
              && (!kept ==> subscribers == Without(old(subscribers), index)
                            && gone == old(gone) + [d])
    {
      var d, verdict := Deliver(subscribers[index], payload, answers);
      DeliveryConserves(subscribers[index], payload, answers);
      RewriteKeepsAccounts(subscribers, index, d, retired, sources, nextId, nextToken);
      subscribers := subscribers[index := d];
      kept := verdict.Kept?;
      if !kept {
        RetiringKeepsAccounts(subscribers, index, retired, sources, nextId, nextToken);
        Retire(index);
      }
    }

    /** Every live subscriber is given the same line once, in order; whoever
        cannot be is disconnected. */
    method PublishTo(payload: bytes, answers: Id -> seq<Answer>)
      requires Valid()
      modifies this`subscribers, this`retired, this`gone, this`pinged, this`log
      ensures Valid() && log == old(log) + [payload]
      ensures subscribers == Survivors(old(subscribers), payload, answers)
      ensures gone == old(gone) + Evicted(old(subscribers), payload, answers)
      ensures |subscribers| + |gone| == |old(subscribers)| + |old(gone)|
      ensures forall i :: 0 <= i < |old(subscribers)| ==>
                var s := old(subscribers)[i];
                var (d, verdict) := Delivered(s, payload, answers(s.id));
                d in if verdict.Kept? then subscribers else gone
    {
      hide Accounted, AllServed, NeedsLoop, Midway, Survivors, Evicted, Delivered;
      SurvivorsAre(subscribers, payload, answers);
      MidwayStarts(subscribers, gone, payload, log, joined, nextId);
      var changed := DeliverToAll(payload, answers);
      MidwayEnds(subscribers, gone, payload, log, joined, nextId);
      log := log + [payload];
      if changed {
        pinged := true;
      }
    }

    /** Answers whether the loop has to be woken. */
    method DeliverToAll(payload: bytes, answers: Id -> seq<Answer>) returns (changed: bool)
      requires Accounted(subscribers, retired, sources, nextId, nextToken)
      requires Midway(subscribers, gone, 0, payload, log, joined, nextId)
      modifies this`subscribers, this`retired, this`gone
      ensures Accounted(subscribers, retired, sources, nextId, nextToken)
      ensures Midway(subscribers, gone, |subscribers|, payload, log, joined, nextId)
      ensures subscribers == Survivors(old(subscribers), payload, answers)
      ensures gone == old(gone) + Evicted(old(subscribers), payload, answers)
      ensures NeedsLoop(subscribers, retired) ==> changed || NeedsLoop(old(subscribers), old(retired))
    {
      hide Accounted, NeedsLoop, Midway, Survivors, Evicted, Delivered, Without, Stuck;
      changed := false;
      var index := 0;
      ghost var before, known, seen := subscribers, gone, 0;
      SurvivorsStart(before, payload, answers);
      while index < |subscribers|
        invariant seen <= |before|
        invariant subscribers == Survivors(before[..seen], payload, answers) + before[seen..]
        invariant index == |Survivors(before[..seen], payload, answers)| <= |subscribers|
        invariant gone == known + Evicted(before[..seen], payload, answers)
        invariant Accounted(subscribers, retired, sources, nextId, nextToken)
        invariant Midway(subscribers, gone, index, payload, log, joined, nextId)
        invariant NeedsLoop(subscribers, retired) ==> changed || NeedsLoop(before, old(retired))
        decreases |before| - seen
      {
        SurvivorsStep(before, seen, payload, answers, subscribers, index, known);
        MidwayStep(subscribers, gone, index, payload, answers(subscribers[index].id), log, joined, nextId, retired);
        var kept := PublishAt(index, payload, answers(subscribers[index].id));
        if kept {
          changed := changed || Stuck(subscribers[index]);
          index := index + 1;
        } else {
          changed := true;
        }
        seen := seen + 1;
      }
      assert before[..seen] == before;
    }

    /** A new connection is owed everything from now on, unless the set is full
        or its watcher cannot be registered, which still spends an id. */
    method RegisterSubscriber(works: bool) returns (accepted: bool)
      requires Valid()
      modifies this`subscribers, this`nextId, this`sources, this`nextToken, this`joined
      ensures Valid() && accepted == (|old(subscribers)| < MAX_SUBSCRIBERS && works)
      ensures !accepted ==> subscribers == old(subscribers) && joined == old(joined) && sources == old(sources)
      ensures accepted ==>
                subscribers == old(subscribers) + [Subscriber(old(nextId), [], [], Some(old(nextToken)), None)]
                && joined == old(joined)[old(nextId) := |log|]
    {
      assert |subscribers| <= MAX_SUBSCRIBERS;
      hide Accounted, AllServed, NeedsLoop;
      if |subscribers| >= MAX_SUBSCRIBERS {
        return false;
      }
      if !works {
        SpendingAnId(subscribers, gone, retired, sources, log, joined, nextId, nextToken);
        nextId := nextId + 1;
        return false;
      }
      Join();
      accepted := true;
    }

    method Join()
      requires Valid() && |subscribers| < MAX_SUBSCRIBERS
      modifies this`subscribers, this`nextId, this`sources, this`nextToken, this`joined
      ensures Valid()
      ensures subscribers == old(subscribers) + [Subscriber(old(nextId), [], [], Some(old(nextToken)), None)]
      ensures joined == old(joined)[old(nextId) := |log|]
    {
      hide Accounted, AllServed, NeedsLoop;
      JoiningKeepsAccounts(subscribers, retired, sources, nextId, nextToken);
      JoiningKeepsService(subscribers, gone, log, joined, nextId, nextToken);
      sources := sources[nextToken := Watch(nextId)];
      subscribers := subscribers + [Subscriber(nextId, [], [], Some(nextToken), None)];
      joined := joined[nextId := |log|];
      nextId, nextToken := nextId + 1, nextToken + 1;
    }

    method FindSubscriber(id: Id) returns (index: nat)
      ensures index == Find(subscribers, id)
    {
      index := 0;
      while index < |subscribers| && subscribers[index].id != id
        invariant index <= |subscribers|
        invariant Find(subscribers, id) == index + Find(subscribers[index..], id)
      {
        index := index + 1;
      }
    }

    /** The peer hung up. */
    method WatcherFired(token: Token)
      requires Valid() && token in sources && sources[token].Watch?
      modifies this`subscribers, this`retired, this`gone, this`sources
      ensures Valid() && token !in sources
      ensures var index := Find(old(subscribers), old(sources)[token].id);
              if index == |old(subscribers)| then subscribers == old(subscribers) && gone == old(gone)
              else && subscribers == Without(old(subscribers), index) && retired == []
                   && gone == old(gone) + [old(subscribers)[index].(watcher := None)]
    {
      hide AllServed, NeedsLoop, Accounted;
      var index := FindSubscriber(sources[token].id);
      if index == |subscribers| {
        StraySourceMayGo(subscribers, token, retired, sources, nextId, nextToken);
        sources := sources - {token};
        return;
      }
      var forgotten := subscribers[index].(watcher := None);
      RewriteKeepsService(subscribers, index, forgotten, gone, log, joined, nextId);
      RewriteNeedsNoLoop(subscribers, index, forgotten, retired);
      RemoveSelf(index, token, forgotten);
    }

    /** A callback that removes its own source and its subscriber with it. */
    method RemoveSelf(index: nat, token: Token, forgotten: Subscriber)
      requires Accounted(subscribers, retired, sources, nextId, nextToken) && index < |subscribers|
      requires token in sources && sources[token].id == subscribers[index].id == forgotten.id
      requires forgotten.watcher == if sources[token].Watch? then None else subscribers[index].watcher
      requires forgotten.writer == if sources[token].Write? then None else subscribers[index].writer
      modifies this`subscribers, this`retired, this`gone, this`sources
      ensures Accounted(subscribers, retired, sources, nextId, nextToken)
      ensures subscribers == Without(old(subscribers), index) && gone == old(gone) + [forgotten]
      ensures retired == [] && token !in sources
    {
      ForgettingKeepsAccounts(subscribers, index, token, forgotten, retired, sources, nextId, nextToken);
      hide Accounted;
      ghost var before := subscribers;
      subscribers := subscribers[index := forgotten];
      sources := sources - {token};
      RetiringKeepsAccounts(subscribers, index, retired, sources, nextId, nextToken);
      assert Without(subscribers, index) == Without(before, index);
      Retire(index);
      Drain();
    }

    /** The peer can be written to. A drained source removes itself and leaves
        its subscriber without one; a broken one takes its subscriber along. */
    method WriterFired(token: Token, answers: seq<Answer>)
      requires Valid() && token in sources && sources[token].Write?
      modifies this`subscribers, this`retired, this`gone, this`sources
      ensures Valid()
      ensures var index := Find(old(subscribers), old(sources)[token].id);
              if index == |old(subscribers)| then
                && subscribers == old(subscribers) && token !in sources && gone == old(gone)
              else
                var (f, ok, _) := Flushed(old(subscribers)[index], answers);
                if !ok then
                  && subscribers == Without(old(subscribers), index) && token !in sources
                  && gone == old(gone) + [f.(writer := None)]
                else if f.pending == [] then
                  && subscribers == old(subscribers)[index := f.(writer := None)] && token !in sources
                  && gone == old(gone)
                else
                  && subscribers == old(subscribers)[index := f] && sources == old(sources) && gone == old(gone)
    {
      hide AllServed, NeedsLoop, Accounted, Flushed, Without;
      var index := FindSubscriber(sources[token].id);
      if index == |subscribers| {
        StraySourceMayGo(subscribers, token, retired, sources, nextId, nextToken);
        sources := sources - {token};
        return;
      }
      FiredIsOwned(subscribers, index, token, retired, sources, nextId, nextToken);
      var f, ok, _ := TryFlush(subscribers[index], answers);
      FlushKeepsService(subscribers, index, answers, gone, log, joined, nextId, retired);
      if !ok {
        RemoveSelf(index, token, f.(writer := None));
      } else if f.pending != [] {
        RewriteKeepsAccounts(subscribers, index, f, retired, sources, nextId, nextToken);
        subscribers := subscribers[index := f];
      } else {
        ForgettingKeepsAccounts(subscribers, index, token, f.(writer := None), retired, sources, nextId, nextToken);
        subscribers := subscribers[index := f.(writer := None)];
        sources := sources - {token};
      }
    }

    /** The loop consumes the ping; its callback runs later, and a publication
        in between sends a new one. */
    method ReadPing()
      requires Valid() && pinged
      modifies this`pinged, this`flushDue
      ensures Valid() && !pinged && flushDue
    {
      hide Accounted, AllServed, NeedsLoop;
      pinged, flushDue := false, true;
    }

    method RearmAt(index: nat, works: bool)
      requires index < |subscribers| && Stuck(subscribers[index]) && retired == []
      requires Accounted(subscribers, retired, sources, nextId, nextToken)
      requires AllServed(subscribers, gone, log, joined, nextId)
      modifies this`subscribers, this`retired, this`gone, this`sources, this`nextToken
      ensures Accounted(subscribers, retired, sources, nextId, nextToken)
      ensures AllServed(subscribers, gone, log, joined, nextId)
      ensures retired == []
      ensures var s := old(subscribers)[index];
              if works then
                && subscribers == old(subscribers)[index := s.(writer := Some(old(nextToken)))]
                && gone == old(gone) && nextToken == old(nextToken) + 1
              else
                && subscribers == Without(old(subscribers), index)
                && gone == old(gone) + [s] && nextToken == old(nextToken)
    {
      hide Accounted;
      var s := subscribers[index];
      if works {
        var armed := s.(writer := Some(nextToken));
        RewriteKeepsService(subscribers, index, armed, gone, log, joined, nextId);
        AdoptingKeepsAccounts(subscribers, index, Write(s.id), armed, retired, sources, nextId, nextToken);
        hide AllServed;
        sources := sources[nextToken := Write(s.id)];
        subscribers := subscribers[index := armed];
        nextToken := nextToken + 1;
      } else {
        RewriteKeepsService(subscribers, index, s, gone, log, joined, nextId);
        RetiringKeepsAccounts(subscribers, index, retired, sources, nextId, nextToken);
        hide AllServed;
        Retire(index);
        Drain();
      }
    }

    method RearmAll(registers: Id -> bool)
      requires Accounted(subscribers, retired, sources, nextId, nextToken) && retired == []
      requires AllServed(subscribers, gone, log, joined, nextId)
      modifies this`subscribers, this`retired, this`gone, this`sources, this`nextToken
      ensures Accounted(subscribers, retired, sources, nextId, nextToken) && retired == []
      ensures AllServed(subscribers, gone, log, joined, nextId)
      ensures var w := Woken(old(subscribers), old(nextToken), registers);
              subscribers == w.kept && gone == old(gone) + w.failed && nextToken == w.next
    {
      hide Accounted, AllServed, NeedsLoop, Woken, Without, Stuck;
      var index := 0;
      ghost var before, known, first, seen := subscribers, gone, nextToken, 0;
      WokenStart(before, first, registers);
      while index < |subscribers|
        invariant seen <= |before| && index <= |subscribers| && retired == []
        invariant subscribers == Woken(before[..seen], first, registers).kept + before[seen..]
        invariant index == |Woken(before[..seen], first, registers).kept|
        invariant gone == known + Woken(before[..seen], first, registers).failed
        invariant nextToken == Woken(before[..seen], first, registers).next
        invariant Accounted(subscribers, retired, sources, nextId, nextToken)
        invariant AllServed(subscribers, gone, log, joined, nextId)
        decreases |before| - seen
      {
        WokenStep(before, seen, first, registers, subscribers, index, known);
        var s := subscribers[index];
        if !Stuck(s) {
          index := index + 1;
        } else {
          RearmAt(index, registers(s.id));
          if registers(s.id) {
            index := index + 1;
          }
        }
        seen := seen + 1;
      }
      assert before[..seen] == before;
    }

    /** The loop's thread removes what was retired and gives everyone stuck a
        writer, as far as registering one works; then nothing is left for it,
        and the registered sources are exactly the owned ones. */
    method FlushCallback(registers: Id -> bool)
      requires Valid() && flushDue
      modifies this`subscribers, this`retired, this`gone, this`sources, this`nextToken, this`flushDue
      ensures Valid() && !NeedsLoop(subscribers, retired) && !flushDue
      ensures var w := Woken(old(subscribers), old(nextToken), registers);
              && subscribers == w.kept && gone == old(gone) + w.failed && nextToken == w.next
              && forall i :: 0 <= i < |old(subscribers)| ==>
                   RearmedIn(old(subscribers)[i], registers, old(nextToken), w)
      ensures forall t :: t in sources <==> exists i :: 0 <= i < |subscribers| && Owns(subscribers[i], t)
    {
      hide Accounted, AllServed, NeedsLoop, Woken, RearmedIn;
      NobodyStaysStuck(subscribers, nextToken, registers);
      flushDue := false;
      Drain();
      RearmAll(registers);
      SettledAfterWakeup(subscribers, retired, sources, nextId, nextToken);
    }

    /** A publication nobody is connected for. */
    ghost method PublishToNobody(payload: bytes)
      requires Valid() && subscribers == []
      modifies this`log
      ensures Valid() && log == old(log) + [payload]
    {
      MidwayStarts(subscribers, gone, payload, log, joined, nextId);
      MidwayEnds(subscribers, gone, payload, log, joined, nextId);
      hide Accounted, CutShort;
      log := log + [payload];
    }
  }
}

/** One order for the journal and the push sockets. */
module EventPublisher {
  import opened Bytes
  import EventFanout
  import EventJournal
  import EventSubscribers

  function Terminated(lines: seq<bytes>): seq<bytes> {
    seq(|lines|, i requires 0 <= i < |lines| => lines[i] + ['\n' as u8])
  }

  /** What the socket gave a subscriber that joined when the journal stood at
      some cursor, taken or pending, is what the journal lists after that cursor. */
  lemma PushAgreesWithJournal(s: EventFanout.Subscriber, joined: map<EventFanout.Id, nat>, history: seq<bytes>)
    requires EventSubscribers.Served(s, Terminated(history), joined)
    ensures joined[s.id] <= |history|
    ensures s.Stream() ==
            EventSubscribers.Wire(Terminated(EventJournal.Lines(EventJournal.Publications(history, joined[s.id]))))
  {
    var cursor := joined[s.id];
    assert Terminated(history)[cursor..] ==
           Terminated(EventJournal.Lines(EventJournal.Publications(history, cursor)));
  }

  class Publisher {
    const journal: EventJournal.EventJournal
    const fanout: EventSubscribers.SubscriberSet

    ghost predicate Valid()
      reads this, journal, fanout
    {
      && journal.Valid() && fanout.Valid()
      && fanout.log == Terminated(journal.history)
    }

    constructor ()
      ensures Valid() && fresh(journal) && fresh(fanout)
    {
      journal := new EventJournal.EventJournal();
      fanout := new EventSubscribers.SubscriberSet();
    }

    /** Recorded first, then given to everyone connected. */
    method PublishLine(line: bytes, answers: EventFanout.Id -> seq<EventFanout.Answer>)
      requires Valid()
      modifies journal, fanout
      ensures Valid() && journal.history == old(journal.history) + [line]
      ensures fanout.subscribers ==
              EventSubscribers.Survivors(old(fanout.subscribers), line + ['\n' as u8], answers)
    {
      hide EventSubscribers.Accounted, EventSubscribers.AllServed, EventSubscribers.NeedsLoop;
      journal.Record(line);
      assert Terminated(journal.history) == Terminated(old(journal.history)) + [line + ['\n' as u8]];
      if fanout.subscribers == [] {
        fanout.PublishToNobody(line + ['\n' as u8]);
        return;
      }
      fanout.PublishTo(line + ['\n' as u8], answers);
    }
  }
}
