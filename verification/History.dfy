/**
  What a pruned history is good for: on which windows the two stores agree, and when the
  penalty read from a store equals the penalty read from everything ever recorded.
 */
module History {
  import opened Basics
  import opened Consumption
  import Scoring

  // ----- membership, one call at a time -----

  lemma RetainedStep(h: seq<Event>, x: Event, retention: int, e: Event)
    requires retention > 0
    ensures e in Retained(h + [x], retention) <==> e == x || (e in Retained(h, retention) && e.time > x.time - retention)
  {
    assert (h + [x])[..|h|] == h;
    AfterMembers(Retained(h, retention) + [x], x.time - retention, e);
  }

  lemma CallsOfStep(ops: seq<Insert>, user: Uuid)
    requires ops != []
    ensures var init, op := ops[..|ops| - 1], ops[|ops| - 1];
            EventsOf(CallsOf(ops), user)
            == EventsOf(CallsOf(init), user) + if op.call.user == user then [op.call.event] else []
  {
    var init, op := ops[..|ops| - 1], ops[|ops| - 1];
    assert CallsOf(ops) == CallsOf(init) + [op.call];
    HistoryGrows(CallsOf(init), op.call.user, op.call.event, user, 1);
    assert op.call == Call(op.call.user, op.call.event);
  }

  /** Some copy of e is not earlier than the cutoff of any call from its own on. */
  ghost predicate Kept(h: seq<Event>, e: Event, retention: int) {
    exists i :: 0 <= i < |h| && h[i] == e && forall j :: i <= j < |h| ==> e.time >= h[j].time - retention
  }

  lemma KeptStep(h: seq<Event>, x: Event, e: Event, retention: int)
    requires retention > 0
    ensures Kept(h + [x], e, retention) <==> e == x || (Kept(h, e, retention) && e.time >= x.time - retention)
  {
    var h' := h + [x];
    assert h'[|h|] == x;
    if Kept(h', e, retention) {
      var i :| 0 <= i < |h'| && h'[i] == e && forall j :: i <= j < |h'| ==> e.time >= h'[j].time - retention;
      if i < |h| {
        assert h[i] == e && forall j :: i <= j < |h| ==> h'[j] == h[j];
      }
    }
    if Kept(h, e, retention) && e.time >= x.time - retention {
      var i :| 0 <= i < |h| && h[i] == e && forall j :: i <= j < |h| ==> e.time >= h[j].time - retention;
      assert h'[i] == e && forall j :: i <= j < |h'| ==> e.time >= h'[j].time - retention;
    }
    if e == x {
      assert h'[|h|] == e && forall j :: |h| <= j < |h'| ==> e.time >= h'[j].time - retention;
    }
  }

  lemma {:induction false} TableIsRecorded(ops: seq<Insert>, user: Uuid, e: Event, retention: int)
    requires Row(user, e) in TableAfter(ops, retention)
    ensures e in EventsOf(CallsOf(ops), user)
  {
    if ops != [] {
      var init, op := ops[..|ops| - 1], ops[|ops| - 1];
      CallsOfStep(ops, user);
      if Row(user, e) in TableAfter(init, retention) {
        TableIsRecorded(init, user, e, retention);
      }
    }
  }

  lemma {:induction false} KeptIsInTable(ops: seq<Insert>, user: Uuid, e: Event, retention: int)
    requires retention > 0 && Kept(EventsOf(CallsOf(ops), user), e, retention)
    ensures Row(user, e) in TableAfter(ops, retention)
  {
    if ops != [] {
      var init, op := ops[..|ops| - 1], ops[|ops| - 1];
      var h := EventsOf(CallsOf(init), user);
      CallsOfStep(ops, user);
      if op.call.user == user {
        KeptStep(h, op.call.event, e, retention);
      } else {
        assert h + [] == h;
      }
      if Kept(h, e, retention) {
        KeptIsInTable(init, user, e, retention);
      }
    }
  }

  lemma {:induction false} TableIsKept(ops: seq<Insert>, user: Uuid, e: Event, retention: int)
    requires retention > 0 && Row(user, e) in TableAfter(ops, retention)
    requires forall op :: op in ops ==> op.pruned
    ensures Kept(EventsOf(CallsOf(ops), user), e, retention)
  {
    if ops != [] {
      var init, op := ops[..|ops| - 1], ops[|ops| - 1];
      var h := EventsOf(CallsOf(init), user);
      CallsOfStep(ops, user);
      assert op in ops;
      if Row(user, e) in TableAfter(init, retention) {
        TableIsKept(init, user, e, retention);
      }
      if op.call.user == user {
        KeptStep(h, op.call.event, e, retention);
      } else {
        assert h + [] == h;
      }
    }
  }

  /**
    Closed form of the table: a row was recorded; it is there if it was Kept; and when every
    retention delete succeeded, it is there only if it was Kept.
   */
  lemma TableMembers(ops: seq<Insert>, user: Uuid, e: Event, retention: int)
    requires retention > 0
    ensures var h := EventsOf(CallsOf(ops), user);
            && (Row(user, e) in TableAfter(ops, retention) ==> e in h)
            && (Kept(h, e, retention) ==> Row(user, e) in TableAfter(ops, retention))
            && ((forall op :: op in ops ==> op.pruned) && Row(user, e) in TableAfter(ops, retention)
                ==> Kept(h, e, retention))
  {
    if Row(user, e) in TableAfter(ops, retention) {
      TableIsRecorded(ops, user, e, retention);
      if forall op :: op in ops ==> op.pruned {
        TableIsKept(ops, user, e, retention);
      }
    }
    if Kept(EventsOf(CallsOf(ops), user), e, retention) {
      KeptIsInTable(ops, user, e, retention);
    }
  }

  // ----- agreement of the two stores -----

  /** The in-memory store never keeps what the table has lost. */
  lemma {:induction false} MemoryWithinTable(ops: seq<Insert>, user: Uuid, e: Event, retention: int)
    requires retention > 0 && e in Retained(EventsOf(CallsOf(ops), user), retention)
    ensures Row(user, e) in TableAfter(ops, retention)
  {
    if ops != [] {
      var init, op := ops[..|ops| - 1], ops[|ops| - 1];
      var h := EventsOf(CallsOf(init), user);
      CallsOfStep(ops, user);
      if op.call.user == user {
        RetainedStep(h, op.call.event, retention, e);
      } else {
        assert h + [] == h;
      }
      if e in Retained(h, retention) {
        MemoryWithinTable(init, user, e, retention);
      }
    }
  }

  /** The i-th event is the last copy of e. */
  predicate LastCopy(h: seq<Event>, e: Event, i: nat) {
    i < |h| && h[i] == e && forall j :: i < j < |h| ==> h[j] != e
  }

  /** From the i-th event on, no cutoff lies after it and one lies exactly on it. */
  predicate OnCutoff(h: seq<Event>, i: nat, retention: int)
    requires i < |h|
  {
    && (forall j :: i <= j < |h| ==> h[j].time - retention <= h[i].time)
    && exists j :: i <= j < |h| && h[j].time - retention == h[i].time
  }

  /** The last copy of e lies exactly on a later cutoff, and behind none. */
  predicate OnlyInTable(h: seq<Event>, e: Event, retention: int) {
    exists i: nat :: i < |h| && LastCopy(h, e, i) && OnCutoff(h, i, retention)
  }

  lemma {:induction false} LastCopyExists(h: seq<Event>, e: Event) returns (i: nat)
    requires e in h
    ensures LastCopy(h, e, i)
  {
    var init, last := h[..|h| - 1], h[|h| - 1];
    assert h == init + [last];
    if last == e {
      i := |init|;
    } else {
      i := LastCopyExists(init, e);
    }
  }

  /** If any copy is in a store, the last one is reason enough. */
  lemma LastCopyDecides(h: seq<Event>, e: Event, i: nat, retention: int)
    requires retention > 0 && LastCopy(h, e, i)
    ensures e in Retained(h, retention) <==> Outlives(h, i, retention)
    ensures Kept(h, e, retention) <==> forall j :: i <= j < |h| ==> e.time >= h[j].time - retention
  {
    RetainedMembers(h, retention, e);
  }

  /**
    Where the stores differ, with every delete successful: an event is in the table only, if and
    only if a cutoff after its last copy lies exactly on it and none lies later.
   */
  lemma DifferenceIsOnCutoff(ops: seq<Insert>, user: Uuid, e: Event, retention: int)
    requires retention > 0
    requires forall op :: op in ops ==> op.pruned
    ensures var h := EventsOf(CallsOf(ops), user);
            Row(user, e) in TableAfter(ops, retention) && e !in Retained(h, retention)
            <==> OnlyInTable(h, e, retention)
  {
    var h := EventsOf(CallsOf(ops), user);
    TableMembers(ops, user, e, retention);
    if e in h {
      var i := LastCopyExists(h, e);
      LastCopyDecides(h, e, i, retention);
      assert Kept(h, e, retention) && !Outlives(h, i, retention) <==> OnCutoff(h, i, retention);
      assert forall k: nat :: LastCopy(h, e, k) ==> k == i;
    }
  }

  /** since is later than every cutoff of this user's calls. */
  predicate BeyondCutoffs(h: seq<Event>, since: Instant, retention: int) {
    forall x :: x in h ==> since > x.time - retention
  }

  /** Nothing beyond the cutoffs has been pruned. */
  lemma RetainedBeyondCutoffs(h: seq<Event>, since: Instant, retention: int, e: Event)
    requires retention > 0 && BeyondCutoffs(h, since, retention)
    ensures e in Retained(h, retention) ==> e in h
    ensures e in h && e.time >= since ==> e in Retained(h, retention)
  {
    RetainedMembers(h, retention, e);
    if e in h && e.time >= since {
      var i :| 0 <= i < |h| && h[i] == e;
      assert Outlives(h, i, retention);
    }
  }

  /** What a Recent result of the in-memory store contains. */
  lemma RecentMembers(stored: seq<Event>, since: Instant, recent: seq<Event>, e: Event)
    requires multiset(recent) == multiset(Since(stored, since))
    ensures e in recent <==> e in stored && e.time >= since
  {
    assert e in recent <==> e in multiset(recent);
    assert e in Since(stored, since) <==> e in multiset(Since(stored, since));
    AfterMembers(stored, since - 1, e);
  }

  /**
    The same calls, even if some retention deletes failed: both Recent results hold the same events,
    both newest first, for every window that starts after the cutoffs.
   */
  lemma StoresAgree(ops: seq<Insert>, user: Uuid, since: Instant, retention: int,
                    fromMemory: seq<Event>, fromTable: seq<Event>)
    requires retention > 0
    requires BeyondCutoffs(EventsOf(CallsOf(ops), user), since, retention)
    requires multiset(fromMemory) == multiset(Since(Retained(EventsOf(CallsOf(ops), user), retention), since))
    requires ToSet(fromTable) == Window(TableAfter(ops, retention), user, since)
    ensures ToSet(fromMemory) == ToSet(fromTable)
  {
    var h := EventsOf(CallsOf(ops), user);
    forall e
      ensures e in fromMemory <==> e in ToSet(fromTable)
    {
      RecentMembers(Retained(h, retention), since, fromMemory, e);
      assert e in ToSet(fromTable) <==> Row(user, e) in TableAfter(ops, retention) && e.time >= since;
      if e in Retained(h, retention) {
        MemoryWithinTable(ops, user, e, retention);
      }
      TableMembers(ops, user, e, retention);
      RetainedBeyondCutoffs(h, since, retention, e);
    }
  }

  /** For any window, with every delete successful: the results agree if and only if no event in it lies on such a cutoff. */
  lemma StoresAgreeIffNoneOnCutoff(ops: seq<Insert>, user: Uuid, since: Instant, retention: int,
                                   fromMemory: seq<Event>, fromTable: seq<Event>)
    requires retention > 0
    requires forall op :: op in ops ==> op.pruned
    requires multiset(fromMemory) == multiset(Since(Retained(EventsOf(CallsOf(ops), user), retention), since))
    requires ToSet(fromTable) == Window(TableAfter(ops, retention), user, since)
    ensures ToSet(fromMemory) == ToSet(fromTable)
       <==> forall e :: e in EventsOf(CallsOf(ops), user) && e.time >= since ==> !OnlyInTable(EventsOf(CallsOf(ops), user), e, retention)
  {
    var h := EventsOf(CallsOf(ops), user);
    forall e
      ensures e in ToSet(fromMemory) ==> e in ToSet(fromTable)
      ensures e in ToSet(fromTable) && e !in ToSet(fromMemory) <==> e.time >= since && OnlyInTable(h, e, retention)
      ensures OnlyInTable(h, e, retention) ==> e in h
    {
      RecentMembers(Retained(h, retention), since, fromMemory, e);
      assert e in ToSet(fromTable) <==> Row(user, e) in TableAfter(ops, retention) && e.time >= since;
      if e in Retained(h, retention) {
        MemoryWithinTable(ops, user, e, retention);
      }
      DifferenceIsOnCutoff(ops, user, e, retention);
    }
  }

  lemma {:induction false} AfterAfter(events: seq<Event>, c: Instant, d: Instant)
    requires c <= d
    ensures After(After(events, c), d) == After(events, d)
  {
    if events != [] {
      var init, e := events[..|events| - 1], events[|events| - 1];
      AfterAfter(init, c, d);
      AfterConcat(After(init, c), if e.time > c then [e] else [], d);
      AfterOne(e, d);
    }
  }

  lemma SinceOfPruned(events: seq<Event>, e: Event, cutoff: Instant, since: Instant)
    requires cutoff < since
    ensures Since(After(events, cutoff) + [e], since) == Since(events, since) + Since([e], since)
  {
    AfterConcat(After(events, cutoff), [e], since - 1);
    AfterAfter(events, cutoff, since - 1);
  }

  /** Beyond the cutoffs pruning leaves no trace: order and repetitions included. */
  lemma {:induction false} SinceOfRetained(h: seq<Event>, since: Instant, retention: int)
    requires retention > 0 && BeyondCutoffs(h, since, retention)
    ensures Since(Retained(h, retention), since) == Since(h, since)
  {
    if h != [] {
      var init, e := h[..|h| - 1], h[|h| - 1];
      assert h == init + [e] && e in h;
      SinceOfRetained(init, since, retention);
      RetainedGrows(init, e, retention);
      SinceOfPruned(Retained(init, retention), e, e.time - retention, since);
      AfterConcat(init, [e], since - 1);
    }
  }

  lemma {:induction false} CountsWithoutRepeats(events: seq<Event>, e: Event)
    requires NoRepeats(events)
    ensures multiset(events)[e] == if e in events then 1 else 0
  {
    if events != [] {
      var init, last := events[..|events| - 1], events[|events| - 1];
      assert events == init + [last];
      CountsWithoutRepeats(init, e);
      assert last !in init;
    }
  }

  lemma RepeatsCount(events: seq<Event>, i: nat, j: nat)
    requires i < j < |events| && events[i] == events[j]
    ensures multiset(events)[events[i]] >= 2
  {
    assert events == events[..j] + [events[j]] + events[j + 1..];
    assert events[i] in events[..j];
  }

  /** Lists of the same events, one without repeats, are equal as multisets exactly if neither repeats. */
  lemma EqualIffNoRepeats(a: seq<Event>, b: seq<Event>)
    requires ToSet(a) == ToSet(b) && NoRepeats(b)
    ensures multiset(a) == multiset(b) <==> NoRepeats(a)
  {
    if NoRepeats(a) {
      forall e
        ensures multiset(a)[e] == multiset(b)[e]
      {
        CountsWithoutRepeats(a, e);
        CountsWithoutRepeats(b, e);
        assert e in a <==> e in ToSet(a);
        assert e in b <==> e in ToSet(b);
      }
      assert multiset(a) == multiset(b);
    } else {
      var i, j :| 0 <= i < j < |a| && a[i] == a[j];
      RepeatsCount(a, i, j);
      CountsWithoutRepeats(b, a[i]);
    }
  }

  lemma SameContentsSameRepeats(a: seq<Event>, b: seq<Event>)
    requires multiset(a) == multiset(b)
    ensures NoRepeats(a) <==> NoRepeats(b)
  {
    SameMembers(a, b);
    assert ToSet(a) == ToSet(b);
    if NoRepeats(a) {
      EqualIffNoRepeats(b, a);
    }
    if NoRepeats(b) {
      EqualIffNoRepeats(a, b);
    }
  }

  /**
    Beyond the cutoffs the two Recent results agree with multiplicities too, if and only if no call
    in the window was made twice.
   */
  lemma StoresAgreeUnlessRepeated(ops: seq<Insert>, user: Uuid, since: Instant, retention: int,
                                  fromMemory: seq<Event>, fromTable: seq<Event>)
    requires retention > 0
    requires BeyondCutoffs(EventsOf(CallsOf(ops), user), since, retention)
    requires multiset(fromMemory) == multiset(Since(Retained(EventsOf(CallsOf(ops), user), retention), since))
    requires ToSet(fromTable) == Window(TableAfter(ops, retention), user, since) && NoRepeats(fromTable)
    ensures multiset(fromMemory) == multiset(fromTable) <==> NoRepeats(Since(EventsOf(CallsOf(ops), user), since))
  {
    var h := EventsOf(CallsOf(ops), user);
    StoresAgree(ops, user, since, retention, fromMemory, fromTable);
    SinceOfRetained(h, since, retention);
    SameContentsSameRepeats(fromMemory, Since(h, since));
    EqualIffNoRepeats(fromMemory, fromTable);
  }

  /** The window cannot be widened: any earlier start, whatever the retention, admits a disagreement. */
  lemma AgreementWindowIsTight(latest: Instant, since: Instant, retention: int)
      returns (ops: seq<Insert>, user: Uuid, e: Event)
    requires retention > 0 && since <= latest - retention
    ensures forall op :: op in ops ==> op.pruned && op.call.event.time <= latest
    ensures e.time >= since && Row(user, e) in TableAfter(ops, retention)
    ensures e !in Retained(EventsOf(CallsOf(ops), user), retention)
  {
    user := NIL;
    e := Event(NIL, latest - retention);
    var y := Event(NIL, latest);
    var first := [Insert(Call(user, e), true)];
    ops := first + [Insert(Call(user, y), true)];
    assert ops[..1] == first && first[..0] == [];
    CallsOfStep(first, user);
    CallsOfStep(ops, user);
    assert EventsOf(CallsOf([]), user) == [];
    assert EventsOf(CallsOf(first), user) == [e];
    RetainedStep([e], y, retention, e);
    assert Row(user, e) in TableAfter(first, retention);
  }

  /** The table ignores a repeated call, the in-memory store keeps both copies. */
  lemma RepeatsDiffer(user: Uuid, e: Event, retention: int)
    requires retention > 0
    ensures var op := Insert(Call(user, e), true);
            && Retained(EventsOf(CallsOf([op] + [op]), user), retention) == [e, e]
            && TableAfter([op] + [op], retention) == {Row(user, e)}
  {
    var op := Insert(Call(user, e), true);
    OneCall(op, retention);
    assert ([op] + [op])[..1] == [op];
    CallsOfStep([op] + [op], user);
    RetainedPair(e, retention);
  }

  lemma OneCall(op: Insert, retention: int)
    requires op.pruned && retention > 0
    ensures EventsOf(CallsOf([op]), op.call.user) == [op.call.event]
    ensures TableAfter([op], retention) == {Row(op.call.user, op.call.event)}
    ensures Apply({Row(op.call.user, op.call.event)}, op, retention) == {Row(op.call.user, op.call.event)}
  {
    assert [op][..0] == [];
    CallsOfStep([op], op.call.user);
    assert EventsOf(CallsOf([]), op.call.user) == [];
    assert TableAfter([], retention) == {};
  }

  lemma RetainedPair(e: Event, retention: int)
    requires retention > 0
    ensures Retained([e] + [e], retention) == [e, e]
  {
    var h := [e] + [e];
    RetainedIsSurvivors(h, retention);
    assert Outlives(h, 0, retention) && Outlives(h, 1, retention);
    assert Survivors(h, 0, retention) == [];
    assert Survivors(h, 1, retention) == [e];
  }

  // ----- the penalty -----

  /** m maps each tea in events to its latest time there. */
  ghost predicate IsLatest(m: map<Uuid, Instant>, events: set<Event>) {
    && (forall e :: e in events ==> e.tea in m && e.time <= m[e.tea])
    && (forall t :: t in m ==> Event(t, m[t]) in events)
  }

  /** The lastBy fold (pkg/api/v2/graphql/schema.resolvers.go). */
  method LastByTea(recent: seq<Event>) returns (last: map<Uuid, Instant>)
    ensures IsLatest(last, ToSet(recent))
    ensures forall e :: e in recent ==> e.tea in last && e.time <= last[e.tea]
    ensures forall t :: t in last ==> Event(t, last[t]) in recent
  {
    last := map[];
    for i := 0 to |recent|
      invariant IsLatest(last, ToSet(recent[..i]))
    {
      var c := recent[i];
      assert ToSet(recent[..i + 1]) == ToSet(recent[..i]) + {c};
      assert c == Event(c.tea, c.time);
      if c.tea !in last || c.time > last[c.tea] {
        last := last[c.tea := c.time];
      }
    }
    assert recent[..|recent|] == recent;
  }

  /** A sub-history that is complete for the last 48 hours yields every penalty of the full one. */
  lemma PenaltyNeedsTwoDays(full: map<Uuid, Instant>, all: set<Event>, part: map<Uuid, Instant>, some: set<Event>,
                            tea: Uuid, now: Instant)
    requires IsLatest(full, all) && IsLatest(part, some) && some <= all
    requires forall e :: e in all && e.time >= now - Scoring.RECENT_48H ==> e in some
    ensures Scoring.RecentPenalty(part, tea, now) == Scoring.RecentPenalty(full, tea, now)
  {
    if tea in part {
      assert Event(tea, part[tea]) in all;
      assert tea in full;
    }
    if tea in full {
      assert Event(tea, full[tea]) in all;
    }
  }

  const LOOKBACK := 96 * HOUR

  /** In-memory store: exact when every cutoff lies before the last 48 hours. */
  lemma MemoryPenaltyIsExact(h: seq<Event>, retention: int, now: Instant, recent: seq<Event>,
                             last: map<Uuid, Instant>, full: map<Uuid, Instant>, tea: Uuid)
    requires retention > 0
    requires BeyondCutoffs(h, now - Scoring.RECENT_48H, retention)
    requires multiset(recent) == multiset(Since(Retained(h, retention), now - LOOKBACK))
    requires IsLatest(last, ToSet(recent)) && IsLatest(full, ToSet(h))
    ensures Scoring.RecentPenalty(last, tea, now) == Scoring.RecentPenalty(full, tea, now)
  {
    forall e
      ensures e in recent ==> e in h
      ensures e in h && e.time >= now - Scoring.RECENT_48H ==> e in recent
    {
      RecentMembers(Retained(h, retention), now - LOOKBACK, recent, e);
      RetainedBeyondCutoffs(h, now - Scoring.RECENT_48H, retention, e);
    }
    PenaltyNeedsTwoDays(full, ToSet(h), last, ToSet(recent), tea, now);
  }

  lemma TableBeyondCutoffs(ops: seq<Insert>, user: Uuid, since: Instant, retention: int, e: Event)
    requires retention > 0 && BeyondCutoffs(EventsOf(CallsOf(ops), user), since + 1, retention)
    ensures Row(user, e) in TableAfter(ops, retention) ==> e in EventsOf(CallsOf(ops), user)
    ensures e in EventsOf(CallsOf(ops), user) && e.time >= since ==> Row(user, e) in TableAfter(ops, retention)
  {
    var h := EventsOf(CallsOf(ops), user);
    TableMembers(ops, user, e, retention);
    if e in h && e.time >= since {
      var i :| 0 <= i < |h| && h[i] == e;
      assert Kept(h, e, retention);
    }
  }

  /** Postgres store: exact even when the latest cutoff is the very start of the last 48 hours. */
  lemma TablePenaltyIsExact(ops: seq<Insert>, user: Uuid, retention: int, now: Instant,
                            last: map<Uuid, Instant>, full: map<Uuid, Instant>, tea: Uuid)
    requires retention > 0
    requires BeyondCutoffs(EventsOf(CallsOf(ops), user), now - Scoring.RECENT_48H + 1, retention)
    requires IsLatest(last, Window(TableAfter(ops, retention), user, now - LOOKBACK))
    requires IsLatest(full, ToSet(EventsOf(CallsOf(ops), user)))
    ensures Scoring.RecentPenalty(last, tea, now) == Scoring.RecentPenalty(full, tea, now)
  {
    var h := EventsOf(CallsOf(ops), user);
    var window := Window(TableAfter(ops, retention), user, now - LOOKBACK);
    forall e
      ensures e in window ==> e in h
      ensures e in h && e.time >= now - Scoring.RECENT_48H ==> e in window
    {
      TableBeyondCutoffs(ops, user, now - Scoring.RECENT_48H, retention, e);
      assert e in window <==> Row(user, e) in TableAfter(ops, retention) && e.time >= now - LOOKBACK;
    }
    PenaltyNeedsTwoDays(full, ToSet(h), last, window, tea, now);
  }

  /** The bound is exact: a cutoff one step later lets pruning hide a penalty. */
  lemma MemoryPenaltyBoundIsTight(latest: Instant, now: Instant, retention: int)
      returns (h: seq<Event>, tea: Uuid, full: map<Uuid, Instant>)
    requires retention > 0 && now - Scoring.RECENT_48H <= latest - retention
    ensures forall x :: x in h ==> x.time <= latest
    ensures IsLatest(full, ToSet(h)) && Scoring.RecentPenalty(full, tea, now) < 0
    ensures forall recent: seq<Event>, last ::
              multiset(recent) == multiset(Since(Retained(h, retention), now - LOOKBACK)) && IsLatest(last, ToSet(recent))
              ==> Scoring.RecentPenalty(last, tea, now) == 0
  {
    tea := NIL;
    var other := Uuid(NIL.bytes[0 := 1]);
    assert other.bytes[0] != NIL.bytes[0];
    var x, y := Event(tea, latest - retention), Event(other, latest);
    h := [x] + [y];
    full := map[tea := x.time, other := y.time];
    assert h[0] == x && h[1] == y;
    DroppedAtCutoff(x, y, retention);
    forall recent: seq<Event>, last |
      multiset(recent) == multiset(Since(Retained(h, retention), now - LOOKBACK)) && IsLatest(last, ToSet(recent))
      ensures Scoring.RecentPenalty(last, tea, now) == 0
    {
      if tea in last {
        RecentMembers(Retained(h, retention), now - LOOKBACK, recent, Event(tea, last[tea]));
        assert false;
      }
    }
  }

  lemma DroppedAtCutoff(x: Event, y: Event, retention: int)
    requires retention > 0 && x.time <= y.time - retention && x.tea != y.tea
    ensures forall e :: e in Retained([x] + [y], retention) ==> e.tea != x.tea
  {
    forall e | e in Retained([x] + [y], retention)
      ensures e.tea != x.tea
    {
      RetainedStep([x], y, retention, e);
      RetainedStep([], x, retention, e);
      assert [] + [x] == [x];
    }
  }

  /** So is the table's bound: a cutoff one step later than the start of the last 48 hours lets a delete hide a penalty. */
  lemma TablePenaltyBoundIsTight(latest: Instant, now: Instant, retention: int)
      returns (ops: seq<Insert>, user: Uuid, tea: Uuid, full: map<Uuid, Instant>)
    requires retention > 0 && now - Scoring.RECENT_48H + 1 <= latest - retention
    ensures forall op :: op in ops ==> op.call.event.time <= latest
    ensures IsLatest(full, ToSet(EventsOf(CallsOf(ops), user))) && Scoring.RecentPenalty(full, tea, now) < 0
    ensures forall last :: IsLatest(last, Window(TableAfter(ops, retention), user, now - LOOKBACK))
              ==> Scoring.RecentPenalty(last, tea, now) == 0
  {
    user, tea := NIL, NIL;
    var other := Uuid(NIL.bytes[0 := 1]);
    assert other.bytes[0] != NIL.bytes[0];
    var x, y := Event(tea, latest - retention - 1), Event(other, latest);
    ops := [Insert(Call(user, x), true)] + [Insert(Call(user, y), true)];
    full := map[tea := x.time, other := y.time];
    PairOfCalls(user, x, y);
    forall last | IsLatest(last, Window(TableAfter(ops, retention), user, now - LOOKBACK))
      ensures Scoring.RecentPenalty(last, tea, now) == 0
    {
      if tea in last {
        DeletedBehindCutoff(user, x, y, retention, Event(tea, last[tea]));
        assert false;
      }
    }
  }

  lemma PairOfCalls(user: Uuid, x: Event, y: Event)
    ensures EventsOf(CallsOf([Insert(Call(user, x), true)] + [Insert(Call(user, y), true)]), user) == [x, y]
  {
    var first := [Insert(Call(user, x), true)];
    var ops := first + [Insert(Call(user, y), true)];
    assert first[..0] == [] && ops[..1] == first;
    assert EventsOf(CallsOf([]), user) == [];
    CallsOfStep(first, user);
    CallsOfStep(ops, user);
  }

  lemma DeletedBehindCutoff(user: Uuid, x: Event, y: Event, retention: int, e: Event)
    requires retention > 0 && x.time < y.time - retention && x.tea != y.tea && e.tea == x.tea
    ensures Row(user, e) !in TableAfter([Insert(Call(user, x), true)] + [Insert(Call(user, y), true)], retention)
  {
    var ops := [Insert(Call(user, x), true)] + [Insert(Call(user, y), true)];
    PairOfCalls(user, x, y);
    TableMembers(ops, user, e, retention);
  }
}
