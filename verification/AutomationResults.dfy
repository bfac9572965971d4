/** The bounded registry of automation results, and the drag source that
    reports one of them. */
module AutomationResults {
  import opened Wrappers

  type Token = nat

  datatype Operation = DropFiles | DropText | Screenshot
  datatype Status = Pending | Accepted | Rejected | NoTarget | Cancelled | UnsupportedTarget | Finished | Failed
  datatype AutomationResult = AutomationResult(token: Token, operation: Operation, status: Status)

  // ------------------------------------------------------------ the newest result of each request

  predicate Mentions(history: seq<AutomationResult>, token: Token) {
    exists i :: 0 <= i < |history| && history[i].token == token
  }

  /** Those of the results whose request is not mentioned later. */
  function Unmentioned(results: seq<AutomationResult>, later: seq<AutomationResult>): seq<AutomationResult> {
    if results == [] then []
    else
      var last := results[|results| - 1];
      Unmentioned(results[..|results| - 1], later) + if Mentions(later, last.token) then [] else [last]
  }

  /** The newest result of each request ever recorded, oldest first. */
  function Newest(history: seq<AutomationResult>): seq<AutomationResult> {
    if history == [] then []
    else Unmentioned([history[0]], history[1..]) + Newest(history[1..])
  }

  ghost predicate TokensDiffer(results: seq<AutomationResult>) {
    forall i, j :: 0 <= i < j < |results| ==> results[i].token != results[j].token
  }

  function LastOf<T>(s: seq<T>, n: nat): seq<T> {
    if |s| <= n then s else s[|s| - n..]
  }

  lemma {:induction false} NewestAreMentioned(history: seq<AutomationResult>)
    ensures TokensDiffer(Newest(history))
    ensures forall r :: r in Newest(history) ==> Mentions(history, r.token)
  {
    if history != [] {
      var first, rest := history[0], history[1..];
      NewestAreMentioned(rest);
      UnmentionedOne(first, rest);
      forall r | r in Newest(history)
        ensures Mentions(history, r.token)
      {
        if r in Newest(rest) {
          var i :| 0 <= i < |rest| && rest[i].token == r.token;
          assert history[i + 1].token == r.token;
        } else {
          assert history[0].token == r.token;
        }
      }
    }
  }

  /** There is one entry per request: its last record. */
  lemma {:induction false} NewestIsLastOfEach(history: seq<AutomationResult>)
    ensures TokensDiffer(Newest(history))
    ensures forall r :: r in Newest(history) <==>
              exists i :: 0 <= i < |history| && history[i] == r && !Mentions(history[i + 1..], r.token)
  {
    NewestAreMentioned(history);
    if history != [] {
      var first, rest := history[0], history[1..];
      NewestIsLastOfEach(rest);
      UnmentionedOne(first, rest);
      hide Mentions, TokensDiffer;
      forall r
        ensures r in Newest(history) <==>
                  exists i :: 0 <= i < |history| && history[i] == r && !Mentions(history[i + 1..], r.token)
      {
        if r in Newest(rest) {
          var i :| 0 <= i < |rest| && rest[i] == r && !Mentions(rest[i + 1..], r.token);
          assert history[i + 1] == r && history[i + 2..] == rest[i + 1..];
        }
        if i :| 0 <= i < |history| && history[i] == r && !Mentions(history[i + 1..], r.token) && i > 0 {
          assert rest[i - 1] == r && rest[i..] == history[i + 1..];
        }
        assert history[0 + 1..] == rest;
      }
    }
  }

  lemma {:induction false} UnmentionedConcat(a: seq<AutomationResult>, b: seq<AutomationResult>, later: seq<AutomationResult>)
    ensures Unmentioned(a + b, later) == Unmentioned(a, later) + Unmentioned(b, later)
  {
    if b == [] {
      assert a + b == a;
    } else {
      assert (a + b)[..|a + b| - 1] == a + b[..|b| - 1];
      UnmentionedConcat(a, b[..|b| - 1], later);
    }
  }

  lemma MentionsConcat(a: seq<AutomationResult>, b: seq<AutomationResult>, token: Token)
    ensures Mentions(a + b, token) <==> Mentions(a, token) || Mentions(b, token)
  {
    if Mentions(a, token) {
      var i :| 0 <= i < |a| && a[i].token == token;
      assert (a + b)[i].token == token;
    }
    if Mentions(b, token) {
      var i :| 0 <= i < |b| && b[i].token == token;
      assert (a + b)[|a| + i].token == token;
    }
  }

  lemma UnmentionedOne(r: AutomationResult, later: seq<AutomationResult>)
    ensures Unmentioned([r], later) == if Mentions(later, r.token) then [] else [r]
  {
    assert [r][..0] == [];
  }

  lemma NewestOfOne(r: AutomationResult)
    ensures Newest([r]) == [r]
  {
    assert [r][1..] == [];
    UnmentionedOne(r, []);
  }

  /** More history hides what it mentions and adds its own newest. */
  lemma {:induction false} NewestConcat(a: seq<AutomationResult>, b: seq<AutomationResult>)
    ensures Newest(a + b) == Unmentioned(Newest(a), b) + Newest(b)
  {
    if a == [] {
      assert a + b == b;
    } else {
      var first, rest := a[0], a[1..];
      assert (a + b)[0] == first && (a + b)[1..] == rest + b;
      NewestConcat(rest, b);
      MentionsConcat(rest, b, first.token);
      UnmentionedConcat(Unmentioned([first], rest), Newest(rest), b);
      UnmentionedOne(first, rest);
      UnmentionedOne(first, b);
      UnmentionedOne(first, rest + b);
      hide Mentions;
    }
  }

  lemma {:induction false} UnmentionedKeeps(results: seq<AutomationResult>, later: seq<AutomationResult>)
    requires forall r :: r in results ==> !Mentions(later, r.token)
    ensures Unmentioned(results, later) == results
  {
    if results != [] {
      UnmentionedKeeps(results[..|results| - 1], later);
    }
  }

  lemma OthersAreUnmentioned(results: seq<AutomationResult>, index: nat, r: AutomationResult)
    requires TokensDiffer(results) && index < |results| && results[index].token == r.token
    ensures forall i :: 0 <= i < |results| ==> (Mentions([r], results[i].token) <==> i == index)
  {
    assert [r][0].token == r.token;
    assert forall i :: 0 <= i < index ==> results[i].token != results[index].token;
    assert forall i :: index < i < |results| ==> results[index].token != results[i].token;
  }

  lemma UnmentionedButOne(results: seq<AutomationResult>, index: nat, r: AutomationResult)
    requires TokensDiffer(results) && index < |results| && results[index].token == r.token
    ensures Unmentioned(results, [r]) == results[..index] + results[index + 1..]
  {
    OthersAreUnmentioned(results, index, r);
    hide TokensDiffer;
    var before, after, it := results[..index], results[index + 1..], results[index];
    assert forall o :: o in before ==> !Mentions([r], o.token);
    assert forall o :: o in after ==> !Mentions([r], o.token);
    UnmentionedAround(before, it, after, [r]);
    assert results == before + [it] + after;
  }

  lemma UnmentionedAround(before: seq<AutomationResult>, it: AutomationResult, after: seq<AutomationResult>,
                          later: seq<AutomationResult>)
    requires forall o :: o in before ==> !Mentions(later, o.token)
    requires forall o :: o in after ==> !Mentions(later, o.token)
    requires Mentions(later, it.token)
    ensures Unmentioned(before + [it] + after, later) == before + after
  {
    hide Mentions;
    UnmentionedOne(it, later);
    UnmentionedKeeps(before, later);
    UnmentionedKeeps(after, later);
    UnmentionedConcat(before + [it], after, later);
    UnmentionedConcat(before, [it], later);
    hide Unmentioned;
    assert before + [] == before;
  }

  lemma LastOfConcat<T>(a: seq<T>, b: seq<T>, n: nat)
    requires |b| >= n || a == []
    ensures LastOf(a + b, n) == LastOf(b, n)
  {
    if a == [] {
      assert a + b == b;
    }
  }

  lemma NewestGrows(history: seq<AutomationResult>, older: seq<AutomationResult>, kept: seq<AutomationResult>,
                    r: AutomationResult)
    requires Newest(history) == older + kept
    ensures Newest(history + [r]) == Unmentioned(older, [r]) + (Unmentioned(kept, [r]) + [r])
  {
    NewestConcat(history, [r]);
    NewestOfOne(r);
    UnmentionedConcat(older, kept, [r]);
    hide Newest, Unmentioned;
  }

  /** What a record does to the newest results it does to the last few of them. */
  lemma RecordingKeepsLast(history: seq<AutomationResult>, r: AutomationResult, limit: nat)
    ensures LastOf(Unmentioned(LastOf(Newest(history), limit), [r]) + [r], limit) ==
            LastOf(Newest(history + [r]), limit)
  {
    var all, kept := Newest(history), LastOf(Newest(history), limit);
    var older := all[..|all| - |kept|];
    assert all == older + kept;
    NewestAreMentioned(history);
    NewestGrows(history, older, kept, r);
    OlderOrKept(older, kept, r);
    assert older == [] ==> Unmentioned(older, [r]) == [];
    hide Newest, Unmentioned, TokensDiffer, Mentions;
    LastOfConcat(Unmentioned(older, [r]), Unmentioned(kept, [r]) + [r], limit);
  }

  /** Either it replaces one of the kept results, or it leaves all of them. */
  lemma OlderOrKept(older: seq<AutomationResult>, kept: seq<AutomationResult>, r: AutomationResult)
    requires TokensDiffer(older + kept)
    ensures Unmentioned(kept, [r]) == kept ||
            (|Unmentioned(kept, [r])| == |kept| - 1 && Unmentioned(older, [r]) == older)
  {
    var all := older + kept;
    if index :| 0 <= index < |kept| && kept[index].token == r.token {
      assert all[|older| + index] == kept[index];
      OthersAreUnmentioned(all, |older| + index, r);
      assert forall i :: 0 <= i < |older| ==> all[i] == older[i];
      assert TokensDiffer(kept) by {
        assert forall i :: 0 <= i < |kept| ==> kept[i] == all[|older| + i];
      }
      UnmentionedButOne(kept, index, r);
      hide Mentions, TokensDiffer;
      UnmentionedKeeps(older, [r]);
    } else {
      UnmentionedKeeps(kept, [r]);
    }
  }

  lemma NewestAround(before: seq<AutomationResult>, r: AutomationResult, later: seq<AutomationResult>)
    requires !Mentions(later, r.token)
    ensures Newest(before + [r] + later) ==
            Unmentioned(Unmentioned(Newest(before), [r]), later) + [r] + Newest(later)
  {
    NewestConcat(before + [r], later);
    NewestConcat(before, [r]);
    NewestOfOne(r);
    UnmentionedConcat(Unmentioned(Newest(before), [r]), [r], later);
    UnmentionedOne(r, later);
    hide Newest, Unmentioned, Mentions;
  }

  lemma OnlyOneHasItsToken(older: seq<AutomationResult>, r: AutomationResult, newer: seq<AutomationResult>)
    requires TokensDiffer(older + [r] + newer)
    ensures forall o :: o in older || o in newer ==> o.token != r.token
  {
    var all := older + [r] + newer;
    assert all[|older|] == r;
    forall o | o in older || o in newer
      ensures o.token != r.token
    {
      if o in older {
        var j :| 0 <= j < |older| && older[j] == o;
        assert all[j] == o;
      } else {
        var j :| 0 <= j < |newer| && newer[j] == o;
        assert all[|older| + 1 + j] == o;
      }
    }
  }

  lemma LastOfAround(older: seq<AutomationResult>, r: AutomationResult, newer: seq<AutomationResult>, limit: nat)
    requires TokensDiffer(older + [r] + newer)
    ensures r in LastOf(older + [r] + newer, limit) <==> |newer| < limit
    ensures forall o :: o in LastOf(older + [r] + newer, limit) && o.token == r.token ==> o == r
  {
    OnlyOneHasItsToken(older, r, newer);
    hide TokensDiffer;
    var all := older + [r] + newer;
    var kept := LastOf(all, limit);
    if |newer| < limit {
      assert kept[|kept| - 1 - |newer|] == r;
      assert forall o :: o in kept ==> o in all;
    } else {
      assert kept == newer[|newer| - limit..];
    }
  }

  /** A request's last record is kept exactly as long as fewer other requests
      than the limit were recorded since. */
  lemma KeptIffFewNewer(history: seq<AutomationResult>, i: nat, limit: nat)
    requires i < |history| && !Mentions(history[i + 1..], history[i].token)
    ensures history[i] in LastOf(Newest(history), limit) <==> |Newest(history[i + 1..])| < limit
    ensures forall r :: r in LastOf(Newest(history), limit) && r.token == history[i].token ==> r == history[i]
  {
    var before, r, later := history[..i], history[i], history[i + 1..];
    assert history == before + [r] + later;
    NewestAreMentioned(history);
    NewestAround(before, r, later);
    hide *;
    LastOfAround(Unmentioned(Unmentioned(Newest(before), [r]), later), r, Newest(later), limit);
  }

  // ------------------------------------------------------------ the registry

  const TOKENS := 0x1_0000_0000_0000_0000

  class AutomationRegistry {
    const limit: nat
    var nextToken: Token
    var results: seq<AutomationResult>
    ghost var history: seq<AutomationResult>

    ghost predicate Valid()
      reads this
    {
      results == LastOf(Newest(history), limit) && nextToken < TOKENS
    }

    constructor (limit: nat)
      ensures Valid() && this.limit == limit && history == [] && nextToken == 1
    {
      this.limit := limit;
      nextToken, results, history := 1, [], [];
    }

    /** Never zero, which stands for no token; counts up until it wraps. */
    method NextToken() returns (token: Token)
      requires Valid()
      modifies this`nextToken
      ensures Valid() && 0 < token < TOKENS
      ensures token == if old(nextToken) == 0 then 1 else old(nextToken)
      ensures nextToken == (token + 1) % TOKENS
    {
      token := nextToken;
      nextToken := (nextToken + 1) % TOKENS;
      while token == 0
        invariant token == 0 ==> old(nextToken) == 0 && nextToken == 1
        invariant token != 0 ==>
                    token == (if old(nextToken) == 0 then 1 else old(nextToken)) && nextToken == (token + 1) % TOKENS
        invariant token < TOKENS && nextToken < TOKENS
        decreases if token == 0 then 1 else 0
      {
        token := nextToken;
        nextToken := (nextToken + 1) % TOKENS;
      }
    }

    method Allocate(operation: Operation) returns (token: Token)
      requires Valid()
      modifies this
      ensures Valid() && token != 0
      ensures history == old(history) + [AutomationResult(token, operation, Pending)]
    {
      token := NextToken();
      Record(AutomationResult(token, operation, Pending));
    }

    /** Keeps the newest result of each of the last requests recorded. */
    method Record(result: AutomationResult)
      requires Valid()
      modifies this`results, this`history
      ensures Valid() && history == old(history) + [result]
    {
      RecordingKeepsLast(history, result, limit);
      NewestAreMentioned(history);
      history := history + [result];
      if limit == 0 {
        return;
      }
      assert TokensDiffer(results);
      hide Newest;
      var index := 0;
      while index < |results| && results[index].token != result.token
        invariant index <= |results|
        invariant forall i :: 0 <= i < index ==> results[i].token != result.token
      {
        index := index + 1;
      }
      if index < |results| {
        UnmentionedButOne(results, index, result);
        results := results[..index] + results[index + 1..];
      } else {
        UnmentionedKeeps(results, [result]);
      }
      results := results + [result];
      if |results| > limit {
        results := results[|results| - limit..];
      }
    }

    method Get(token: Token) returns (found: Option<AutomationResult>)
      requires Valid()
      ensures !Mentions(history, token) ==> found.None?
      ensures forall i :: && 0 <= i < |history| && history[i].token == token && !Mentions(history[i + 1..], token) ==>
                found == if |Newest(history[i + 1..])| < limit then Some(history[i]) else None
    {
      found := None;
      for k := 0 to |results|
        invariant found.None? ==> forall i :: 0 <= i < k ==> results[i].token != token
        invariant found.Some? ==> found.value in results && found.value.token == token
      {
        if found.None? && results[k].token == token {
          found := Some(results[k]);
        }
      }
      NewestAreMentioned(history);
      forall i | 0 <= i < |history| && history[i].token == token && !Mentions(history[i + 1..], token)
        ensures found == if |Newest(history[i + 1..])| < limit then Some(history[i]) else None
      {
        KeptIffFewNewer(history, i, limit);
      }
    }
  }

  // ------------------------------------------------------------ one drag source

  datatype DndAction = NoAction | Copy | Move | Ask

  /** It says how its drag ended, once, and is alive until then. */
  class AutomationDndSource {
    const registry: AutomationRegistry
    const token: Token
    const operation: Operation
    var selectedAction: DndAction
    var dropped: bool
    var terminal: bool
    var alive: bool
    // How it said its drag ended.
    ghost var told: seq<Status>

    ghost predicate Valid()
      reads this
    {
      && |told| <= 1
      && (terminal <==> told != [])
      && (alive <==> !terminal)
      && (told != [] ==> told[0] in {Accepted, Rejected, Cancelled})
    }

    constructor (registry: AutomationRegistry, token: Token, operation: Operation)
      ensures Valid() && told == [] && this.registry == registry && this.token == token && this.operation == operation
      ensures !dropped && selectedAction == NoAction
    {
      this.registry, this.token, this.operation := registry, token, operation;
      selectedAction, dropped, terminal, alive := NoAction, false, false, true;
      told := [];
    }

    method Complete(status: Status)
      requires Valid() && registry.Valid() && status in {Accepted, Rejected, Cancelled}
      modifies this, registry`results, registry`history
      ensures Valid() && registry.Valid() && terminal && dropped == old(dropped) && selectedAction == old(selectedAction)
      ensures told == if old(terminal) then old(told) else [status]
      ensures registry.history ==
              if old(terminal) then old(registry.history)
              else old(registry.history) + [AutomationResult(token, operation, status)]
    {
      if terminal {
        return;
      }
      terminal, alive := true, false;
      told := [status];
      registry.Record(AutomationResult(token, operation, status));
    }

    method ChooseAction(action: DndAction)
      requires Valid()
      modifies this`selectedAction
      ensures Valid() && selectedAction == action
    {
      selectedAction := action;
    }

    method DropPerformed()
      requires Valid()
      modifies this`dropped
      ensures Valid() && dropped
    {
      dropped := true;
    }

    method Cancel()
      requires Valid() && registry.Valid()
      modifies this, registry`results, registry`history
      ensures Valid() && registry.Valid() && terminal
      ensures told == if old(terminal) then old(told) else [Cancelled]
    {
      Complete(Cancelled);
    }

    /** Accepted exactly if something was dropped to be copied. */
    method Finish()
      requires Valid() && registry.Valid()
      modifies this, registry`results, registry`history
      ensures Valid() && registry.Valid() && terminal
      ensures told == if old(terminal) then old(told)
                      else [if old(dropped) && old(selectedAction) == Copy then Accepted else Rejected]
    {
      var accepted := dropped && selectedAction == Copy;
      Complete(if accepted then Accepted else Rejected);
    }
  }
}
