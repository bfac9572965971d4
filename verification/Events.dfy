/** The bounded journal of published events, with explicit gap detection. */
module EventJournal {
  import opened Bytes

  const MAX_EVENTS := 128
  const MAX_BYTES := 16 * 1024

  datatype JournalEvent = JournalEvent(sequence: nat, line: bytes)
  datatype JournalPage = JournalPage(sequence: nat, gap: bool, events: seq<JournalEvent>)

  // ------------------------------------------------ what the journal must hold

  function Size(lines: seq<bytes>): nat {
    if lines == [] then 0 else |lines[0]| + Size(lines[1..])
  }

  predicate Fits(lines: seq<bytes>) {
    |lines| <= MAX_EVENTS && Size(lines) <= MAX_BYTES
  }

  /** Publications are numbered from 1; these are the ones after number `after`. */
  function Publications(history: seq<bytes>, after: nat): seq<JournalEvent>
    requires after <= |history|
  {
    seq(|history| - after, i requires 0 <= i < |history| - after => JournalEvent(after + i + 1, history[after + i]))
  }

  /** floor is where the longest fitting suffix of the history starts. */
  ghost predicate IsWindow(history: seq<bytes>, floor: nat) {
    && floor <= |history|
    && Fits(history[floor..])
    && forall k :: 0 <= k < floor ==> !Fits(history[k..])
  }

  lemma {:induction false} SizeOfConcat(a: seq<bytes>, b: seq<bytes>)
    ensures Size(a + b) == Size(a) + Size(b)
  {
    if a == [] {
      assert a + b == b;
    } else {
      assert (a + b)[0] == a[0] && (a + b)[1..] == a[1..] + b;
      SizeOfConcat(a[1..], b);
    }
  }

  /** A suffix of what fits, fits. */
  lemma FitsSuffix(lines: seq<bytes>, k: nat)
    requires Fits(lines) && k <= |lines|
    ensures Fits(lines[k..])
  {
    assert lines == lines[..k] + lines[k..];
    SizeOfConcat(lines[..k], lines[k..]);
  }

  lemma WindowIsUnique(history: seq<bytes>, f1: nat, f2: nat)
    requires IsWindow(history, f1) && IsWindow(history, f2)
    ensures f1 == f2
  {
    assert !(f1 < f2) && !(f2 < f1);
  }

  /** A publication is still there exactly when everything from it on fits. */
  lemma RetainedIffFits(history: seq<bytes>, floor: nat, k: nat)
    requires IsWindow(history, floor) && k <= |history|
    ensures floor <= k <==> Fits(history[k..])
  {
    if floor <= k {
      FitsSuffix(history[floor..], k - floor);
      assert history[floor..][k - floor..] == history[k..];
    }
  }

  lemma OversizedWindow(history: seq<bytes>, line: bytes)
    requires |line| > MAX_BYTES
    ensures IsWindow(history + [line], |history| + 1)
  {
    var all := history + [line];
    forall k | 0 <= k <= |history|
      ensures !Fits(all[k..])
    {
      assert all[k..] == history[k..] + [line];
      SizeOfConcat(history[k..], [line]);
      assert [line][1..] == [];
    }
    assert all[|all|..] == [];
  }

  /** What did not fit does not fit with more behind it. */
  lemma NothingFitsEarlier(history: seq<bytes>, line: bytes, floor: nat)
    requires IsWindow(history, floor)
    ensures forall k :: 0 <= k < floor ==> !Fits((history + [line])[k..])
  {
    forall k | 0 <= k < floor
      ensures !Fits((history + [line])[k..])
    {
      assert (history + [line])[k..] == history[k..] + [line];
      SizeOfConcat(history[k..], [line]);
    }
  }

  lemma SuffixStep(history: seq<bytes>, line: bytes, floor: nat)
    requires floor <= |history|
    requires |history| - floor >= MAX_EVENTS || Size(history[floor..]) + |line| > MAX_BYTES
    requires |line| <= MAX_BYTES
    ensures floor < |history| && Size(history[floor..]) == |history[floor]| + Size(history[floor + 1..])
    ensures Publications(history, floor)[0] == JournalEvent(floor + 1, history[floor])
    ensures Publications(history, floor)[1..] == Publications(history, floor + 1)
    ensures !Fits((history + [line])[floor..])
  {
    assert (history + [line])[floor..] == history[floor..] + [line];
    SizeOfConcat(history[floor..], [line]);
    assert [line][1..] == [];
    assert floor < |history| ==> history[floor..][1..] == history[floor + 1..];
  }

  lemma WindowGrows(history: seq<bytes>, line: bytes, floor: nat)
    requires floor <= |history| && |history| - floor < MAX_EVENTS && Size(history[floor..]) + |line| <= MAX_BYTES
    requires forall k :: 0 <= k < floor ==> !Fits((history + [line])[k..])
    ensures IsWindow(history + [line], floor)
    ensures Publications(history + [line], floor) ==
            Publications(history, floor) + [JournalEvent(|history| + 1, line)]
    ensures Size((history + [line])[floor..]) == Size(history[floor..]) + |line|
  {
    assert (history + [line])[floor..] == history[floor..] + [line];
    SizeOfConcat(history[floor..], [line]);
    assert [line][1..] == [];
  }

  /** Publication k is gone: it and everything after it are too much to hold. */
  ghost predicate Dropped(history: seq<bytes>, k: nat) {
    1 <= k <= |history| && !Fits(history[k - 1..])
  }

  /** Something after the cursor was dropped exactly when not all of it fits. */
  lemma DroppedIffUnfit(history: seq<bytes>, cursor: nat)
    requires cursor <= |history|
    ensures (exists k :: cursor < k && Dropped(history, k)) <==> !Fits(history[cursor..])
  {
    if !Fits(history[cursor..]) {
      assert Dropped(history, cursor + 1);
    } else {
      forall k | cursor < k <= |history|
        ensures !Dropped(history, k)
      {
        FitsSuffix(history[cursor..], k - 1 - cursor);
        assert history[cursor..][k - 1 - cursor..] == history[k - 1..];
      }
    }
  }

  // ------------------------------------------------------------ the journal

  class EventJournal {
    var sequence: nat
    // Everything at or below this number has been evicted.
    var floor: nat
    var bytesHeld: nat
    var events: seq<JournalEvent>
    // Everything ever recorded.
    ghost var history: seq<bytes>

    ghost predicate Valid()
      reads this
    {
      && sequence == |history|
      && IsWindow(history, floor)
      && events == Publications(history, floor)
      && bytesHeld == Size(history[floor..])
    }

    constructor ()
      ensures Valid() && history == []
    {
      sequence, floor, bytesHeld, events := 0, 0, 0, [];
      history := [];
    }

    /** The retained entries are again the longest suffix of the whole history
        that fits; eviction never finds the journal empty. */
    method Record(line: bytes)
      requires Valid()
      modifies this
      ensures Valid() && history == old(history) + [line]
    {
      sequence := sequence + 1;
      if |line| > MAX_BYTES {
        events := [];
        bytesHeld := 0;
        floor := sequence;
        OversizedWindow(history, line);
      } else {
        NothingFitsEarlier(history, line, floor);
        EvictFor(line);
        WindowGrows(history, line, floor);
        bytesHeld := bytesHeld + |line|;
        events := events + [JournalEvent(sequence, line)];
      }
      history := history + [line];
    }

    /** Drops the oldest entries until one more line fits. */
    method EvictFor(line: bytes)
      requires |line| <= MAX_BYTES && floor <= |history|
      requires events == Publications(history, floor) && bytesHeld == Size(history[floor..])
      requires forall k :: 0 <= k < floor ==> !Fits((history + [line])[k..])
      modifies this`floor, this`bytesHeld, this`events
      ensures floor <= |history|
      ensures events == Publications(history, floor) && bytesHeld == Size(history[floor..])
      ensures |events| < MAX_EVENTS && bytesHeld + |line| <= MAX_BYTES
      ensures forall k :: 0 <= k < floor ==> !Fits((history + [line])[k..])
    {
      while |events| >= MAX_EVENTS || bytesHeld + |line| > MAX_BYTES
        invariant floor <= |history|
        invariant events == Publications(history, floor) && bytesHeld == Size(history[floor..])
        invariant forall k :: 0 <= k < floor ==> !Fits((history + [line])[k..])
        decreases |events|
      {
        SuffixStep(history, line, floor);
        var evicted := events[0];
        bytesHeld := bytesHeld - |evicted.line|;
        floor := evicted.sequence;
        events := events[1..];
      }
    }

    /** A page has a gap exactly when the cursor is in the future or something
        published after it was dropped; otherwise it is those publications, in
        order, and nothing else. */
    method Since(cursor: nat) returns (page: JournalPage)
      requires Valid()
      ensures page.sequence == |history|
      ensures page.gap <==> cursor > |history| || exists k :: cursor < k && Dropped(history, k)
      ensures page.events == if page.gap then [] else Publications(history, cursor)
    {
      var gap := cursor < floor || cursor > sequence;
      if cursor <= sequence {
        RetainedIffFits(history, floor, cursor);
        DroppedIffUnfit(history, cursor);
      }
      var later: seq<JournalEvent> := [];
      if !gap {
        for k := 0 to |events|
          invariant later == if k + floor <= cursor then [] else Publications(history, cursor)[..k + floor - cursor]
        {
          if events[k].sequence > cursor {
            later := later + [events[k]];
          }
        }
      }
      page := JournalPage(sequence, gap, later);
    }
  }

  // ------------------------------------------------------------ a polling client

  function Lines(events: seq<JournalEvent>): seq<bytes> {
    seq(|events|, i requires 0 <= i < |events| => events[i].line)
  }

  /** A client that has everything up to its cursor has everything after a
      gap-free page, whenever it asks. */
  lemma PageCatchesUp(history: seq<bytes>, cursor: nat)
    requires cursor <= |history|
    ensures history[..cursor] + Lines(Publications(history, cursor)) == history
  {
  }
}
