/**
  The two consumption stores (internal/consumption): the in-memory one, which compacts its
  slice in place, and the Postgres one, which inserts and then deletes.
 */
module Consumption {
  import opened Basics

  const DEFAULT_RETENTION := 30 * DAY

  /** One consumption of one user. */
  datatype Event = Event(tea: Uuid, time: Instant)

  /** One call of Record. */
  datatype Call = Call(user: Uuid, event: Event)

  function EffectiveRetention(retention: int): (r: int)
    ensures retention > 0 ==> r == retention
    ensures retention <= 0 ==> r == 30 * 24 * HOUR
  {
    if retention <= 0 then DEFAULT_RETENTION else retention
  }

  /** The events of one user, in call order. */
  function EventsOf(calls: seq<Call>, user: Uuid): seq<Event> {
    if calls == [] then []
    else
      var c := calls[|calls| - 1];
      EventsOf(calls[..|calls| - 1], user) + if c.user == user then [c.event] else []
  }

  /** The events later than cutoff, in order. */
  function After(events: seq<Event>, cutoff: Instant): seq<Event> {
    if events == [] then []
    else
      var e := events[|events| - 1];
      After(events[..|events| - 1], cutoff) + if e.time > cutoff then [e] else []
  }

  /** The events not earlier than since, in order. */
  function Since(events: seq<Event>, since: Instant): seq<Event> {
    After(events, since - 1)
  }

  // ----- what the in-memory store holds -----

  /** The stored events of a user after recording history in order, pruning at each step. */
  function Retained(history: seq<Event>, retention: int): seq<Event> {
    if history == [] then []
    else
      var e := history[|history| - 1];
      After(Retained(history[..|history| - 1], retention) + [e], e.time - retention)
  }

  /** Event i is later than the cutoff of every call from the i-th on. */
  predicate Outlives(history: seq<Event>, i: nat, retention: int)
    requires i < |history|
  {
    forall j :: i <= j < |history| ==> history[i].time > history[j].time - retention
  }

  /** Those of the first n events, in insertion order, that outlive the whole history. */
  function Survivors(history: seq<Event>, n: nat, retention: int): seq<Event>
    requires n <= |history|
  {
    if n == 0 then []
    else Survivors(history, n - 1, retention) + if Outlives(history, n - 1, retention) then [history[n - 1]] else []
  }

  lemma {:induction false} AfterConcat(a: seq<Event>, b: seq<Event>, cutoff: Instant)
    ensures After(a + b, cutoff) == After(a, cutoff) + After(b, cutoff)
  {
    if b == [] {
      assert a + b == a;
    } else {
      var init := b[..|b| - 1];
      assert (a + b)[..|a + b| - 1] == a + init;
      AfterConcat(a, init, cutoff);
    }
  }

  lemma {:induction false} AfterMembers(events: seq<Event>, cutoff: Instant, e: Event)
    ensures e in After(events, cutoff) <==> e in events && e.time > cutoff
  {
    if events != [] {
      var init := events[..|events| - 1];
      assert events == init + [events[|events| - 1]];
      AfterMembers(init, cutoff, e);
    }
  }

  lemma AfterOne(e: Event, cutoff: Instant)
    ensures After([e], cutoff) == if e.time > cutoff then [e] else []
  {
    assert [e][..0] == [];
  }

  /** A further event ends the stay of those that its cutoff excludes. */
  lemma OutlivesExtension(history: seq<Event>, e: Event, i: nat, retention: int)
    requires i < |history|
    ensures Outlives(history + [e], i, retention)
       <==> Outlives(history, i, retention) && history[i].time > e.time - retention
  {
    var h := history + [e];
    assert h[|history|] == e;
    if Outlives(h, i, retention) {
      assert forall j :: i <= j < |history| ==> h[j] == history[j];
    }
  }

  lemma {:induction false} SurvivorsOfExtension(history: seq<Event>, e: Event, n: nat, retention: int)
    requires n <= |history|
    ensures After(Survivors(history, n, retention), e.time - retention) == Survivors(history + [e], n, retention)
  {
    if n > 0 {
      var x, cutoff := history[n - 1], e.time - retention;
      var before := Survivors(history, n - 1, retention);
      SurvivorsOfExtension(history, e, n - 1, retention);
      OutlivesExtension(history, e, n - 1, retention);
      assert (history + [e])[n - 1] == x;
      if Outlives(history, n - 1, retention) {
        assert Survivors(history, n, retention) == before + [x];
        AfterConcat(before, [x], cutoff);
        AfterOne(x, cutoff);
      } else {
        assert Survivors(history, n, retention) == before + [] == before;
      }
    }
  }

  lemma SurvivorsGrow(init: seq<Event>, e: Event, retention: int)
    requires retention > 0
    ensures Survivors(init + [e], |init| + 1, retention)
         == After(Survivors(init, |init|, retention), e.time - retention) + [e]
  {
    SurvivorsOfExtension(init, e, |init|, retention);
    assert (init + [e])[|init|] == e;
    assert Outlives(init + [e], |init|, retention);
  }

  lemma RetainedGrows(init: seq<Event>, e: Event, retention: int)
    requires retention > 0
    ensures Retained(init + [e], retention) == After(Retained(init, retention), e.time - retention) + [e]
  {
    assert (init + [e])[..|init|] == init;
    AfterConcat(Retained(init, retention), [e], e.time - retention);
    AfterOne(e, e.time - retention);
  }

  /**
    Closed form of retention, for times in any order: the store holds, in insertion order,
    exactly the events that outlive every later call.
   */
  lemma {:induction false} RetainedIsSurvivors(history: seq<Event>, retention: int)
    requires retention > 0
    ensures Retained(history, retention) == Survivors(history, |history|, retention)
  {
    if history != [] {
      var init, e := history[..|history| - 1], history[|history| - 1];
      assert history == init + [e];
      RetainedIsSurvivors(init, retention);
      SurvivorsGrow(init, e, retention);
      RetainedGrows(init, e, retention);
    }
  }

  lemma {:induction false} SurvivorsMembers(history: seq<Event>, n: nat, retention: int, e: Event)
    requires n <= |history|
    ensures e in Survivors(history, n, retention) <==> exists i :: 0 <= i < n && history[i] == e && Outlives(history, i, retention)
  {
    if n > 0 {
      SurvivorsMembers(history, n - 1, retention, e);
    }
  }

  lemma RetainedMembers(history: seq<Event>, retention: int, e: Event)
    requires retention > 0
    ensures e in Retained(history, retention)
       <==> exists i :: 0 <= i < |history| && history[i] == e
                        && forall j :: i <= j < |history| ==> e.time > history[j].time - retention
  {
    RetainedIsSurvivors(history, retention);
    SurvivorsMembers(history, |history|, retention, e);
  }

  // ----- the in-memory store -----

  /** Filters the slice into its own front while reading it; returns the length of what is kept. */
  method CompactInPlace(events: array<Event>, cutoff: Instant) returns (kept: nat)
    modifies events
    ensures kept <= events.Length
    ensures events[..kept] == After(old(events[..]), cutoff)
  {
    kept := 0;
    ghost var was := events[..];
    for i := 0 to events.Length
      invariant kept <= i
      invariant events[..kept] == After(was[..i], cutoff)
      invariant forall k :: i <= k < |was| ==> events[k] == was[k]
    {
      var e := events[i];
      assert e == was[i];
      assert was[..i + 1][..i] == was[..i];
      if e.time > cutoff {
        events[kept] := e;
        kept := kept + 1;
      }
    }
    assert was[..events.Length] == was;
  }

  predicate NewestFirst(events: seq<Event>) {
    forall i, j :: 0 <= i < j < |events| ==> events[i].time >= events[j].time
  }

  lemma InsertionKeepsOrder(events: seq<Event>, k: nat, e: Event)
    requires NewestFirst(events) && k <= |events|
    requires k > 0 ==> events[k - 1].time >= e.time
    requires k < |events| ==> e.time >= events[k].time
    ensures NewestFirst(events[..k] + [e] + events[k..])
  {
    var out := events[..k] + [e] + events[k..];
    forall i, j | 0 <= i < j < |out|
      ensures out[i].time >= out[j].time
    {
      var x := if i < k then events[i] else if i == k then e else events[i - 1];
      var y := if j < k then events[j] else if j == k then e else events[j - 1];
      assert out[i] == x && out[j] == y;
    }
  }

  /** Puts e behind everything that is not older. */
  method InsertByTime(sorted: seq<Event>, e: Event) returns (out: seq<Event>)
    requires NewestFirst(sorted)
    ensures multiset(out) == multiset(sorted) + multiset{e} && NewestFirst(out)
  {
    var k := 0;
    while k < |sorted| && sorted[k].time >= e.time
      invariant k <= |sorted|
      invariant k > 0 ==> sorted[k - 1].time >= e.time
    {
      k := k + 1;
    }
    InsertionKeepsOrder(sorted, k, e);
    assert sorted == sorted[..k] + sorted[k..];
    out := sorted[..k] + [e] + sorted[k..];
  }

  /** Stands for sort.Slice, which promises order but not stability. */
  method SortNewestFirst(events: seq<Event>) returns (sorted: seq<Event>)
    ensures multiset(sorted) == multiset(events) && NewestFirst(sorted)
  {
    sorted := [];
    for i := 0 to |events|
      invariant multiset(sorted) == multiset(events[..i])
      invariant NewestFirst(sorted)
    {
      assert events[..i + 1] == events[..i] + [events[i]];
      sorted := InsertByTime(sorted, events[i]);
    }
    assert events[..|events|] == events;
  }

  function Lookup(data: map<Uuid, seq<Event>>, user: Uuid): seq<Event> {
    if user in data then data[user] else []
  }

  /** Each user's slice is what retention leaves of that user's own calls. */
  ghost predicate Faithful(data: map<Uuid, seq<Event>>, calls: seq<Call>, retention: int) {
    forall u: Uuid {:trigger EventsOf(calls, u)} :: Lookup(data, u) == Retained(EventsOf(calls, u), retention)
  }

  /** One more call appends and prunes for its own user, and nothing for the others. */
  lemma HistoryGrows(calls: seq<Call>, user: Uuid, e: Event, u: Uuid, retention: int)
    ensures EventsOf(calls + [Call(user, e)], u) == EventsOf(calls, u) + if u == user then [e] else []
    ensures Retained(EventsOf(calls + [Call(user, e)], u), retention)
         == if u == user then After(Retained(EventsOf(calls, u), retention) + [e], e.time - retention)
            else Retained(EventsOf(calls, u), retention)
  {
    assert (calls + [Call(user, e)])[..|calls|] == calls;
    var h := EventsOf(calls, u);
    assert (h + [e])[..|h|] == h;
    assert h + [] == h;
  }

  lemma RecordStaysFaithful(data: map<Uuid, seq<Event>>, calls: seq<Call>, user: Uuid, e: Event, retention: int,
                            kept: seq<Event>)
    requires Faithful(data, calls, retention)
    requires kept == After(Lookup(data, user) + [e], e.time - retention)
    ensures Faithful(data[user := kept], calls + [Call(user, e)], retention)
  {
    var data', calls' := data[user := kept], calls + [Call(user, e)];
    forall u: Uuid
      ensures Lookup(data', u) == Retained(EventsOf(calls', u), retention)
    {
      HistoryGrows(calls, user, e, u, retention);
      assert Lookup(data, u) == Retained(EventsOf(calls, u), retention);
    }
  }

  lemma NewestSurvives(events: seq<Event>, e: Event, retention: int)
    requires retention > 0
    ensures e in After(events + [e], e.time - retention)
  {
    AfterMembers(events + [e], e.time - retention, e);
  }

  /** The backing array of a freshly appended slice. */
  method MakeSlice(events: seq<Event>) returns (slice: array<Event>)
    ensures fresh(slice) && slice[..] == events
  {
    slice := new Event[|events|](i requires 0 <= i < |events| => events[i]);
  }

  /** The slice header written back to the map: the compacted front of a copy of events. */
  method PruneSlice(events: seq<Event>, cutoff: Instant) returns (filtered: seq<Event>)
    ensures filtered == After(events, cutoff)
  {
    var slice := MakeSlice(events);
    var kept := CompactInPlace(slice, cutoff);
    return slice[..kept];
  }

  lemma SameMembers(a: seq<Event>, b: seq<Event>)
    requires multiset(a) == multiset(b)
    ensures forall e :: e in a <==> e in b
  {
    forall e
      ensures e in a <==> e in b
    {
      assert e in a <==> e in multiset(a);
      assert e in b <==> e in multiset(b);
    }
  }

  lemma AllAfter(events: seq<Event>, cutoff: Instant)
    ensures forall e :: e in After(events, cutoff) <==> e in events && e.time > cutoff
  {
    forall e
      ensures e in After(events, cutoff) <==> e in events && e.time > cutoff
    {
      AfterMembers(events, cutoff, e);
    }
  }

  lemma SinceMembers(events: seq<Event>, since: Instant)
    ensures forall e :: e in Since(events, since) <==> e in events && e.time >= since
  {
    AllAfter(events, since - 1);
  }

  class MemoryStore {
    var data: map<Uuid, seq<Event>>
    const retention: int
    /** Every call of Record so far. */
    ghost var calls: seq<Call>

    ghost predicate Valid()
      reads this
    {
      retention > 0 && Faithful(data, calls, retention)
    }

    constructor (retention: int)
      ensures Valid() && calls == [] && data == map[]
      ensures retention > 0 ==> this.retention == retention
      ensures retention <= 0 ==> this.retention == 30 * 24 * HOUR
    {
      data := map[];
      this.retention := EffectiveRetention(retention);
      calls := [];
    }

    /** Appends, then drops what the new cutoff excludes; the event just recorded always stays. */
    method Record(user: Uuid, tea: Uuid, ts: Instant)
      requires Valid()
      modifies this
      ensures Valid() && calls == old(calls) + [Call(user, Event(tea, ts))]
      ensures user in data && data == old(data)[user := data[user]]
      ensures forall e :: e in data[user] <==> (e == Event(tea, ts) || (user in old(data) && e in old(data)[user])) && e.time > ts - retention
      ensures data[user] == After(Lookup(old(data), user) + [Event(tea, ts)], ts - retention)
      ensures Event(tea, ts) in data[user]
    {
      var appended := Lookup(data, user) + [Event(tea, ts)];
      var cutoff := ts - retention;
      var filtered := PruneSlice(appended, cutoff);
      NewestSurvives(Lookup(data, user), Event(tea, ts), retention);
      AllAfter(appended, cutoff);
      RecordStaysFaithful(data, calls, user, Event(tea, ts), retention, filtered);
      data := data[user := filtered];
      calls := calls + [Call(user, Event(tea, ts))];
    }

    method Recent(user: Uuid, since: Instant) returns (out: seq<Event>)
      ensures multiset(out) == multiset(Since(Lookup(data, user), since))
      ensures forall e :: e in out <==> user in data && e in data[user] && e.time >= since
      ensures forall i, j :: 0 <= i < j < |out| ==> out[i].time >= out[j].time
    {
      var events := Lookup(data, user);
      var found: seq<Event> := [];
      for i := 0 to |events|
        invariant found == Since(events[..i], since)
      {
        assert events[..i + 1][..i] == events[..i];
        if !(events[i].time < since) {
          found := found + [events[i]];
        }
      }
      assert events[..|events|] == events;
      out := SortNewestFirst(found);
      SameMembers(out, found);
      SinceMembers(events, since);
    }
  }

  // ----- the Postgres store -----

  datatype Row = Row(user: Uuid, event: Event)

  datatype StoreError = NilDB | InsertFailed | RetentionDeleteFailed | QueryFailed

  /** The retention delete: one user's rows before the cutoff. */
  function DeleteBefore(rows: set<Row>, user: Uuid, cutoff: Instant): set<Row> {
    set row | row in rows && !(row.user == user && row.event.time < cutoff)
  }

  /** A call that reached the table, and whether its retention delete succeeded. */
  datatype Insert = Insert(call: Call, pruned: bool)

  function Apply(rows: set<Row>, op: Insert, retention: int): set<Row> {
    var inserted := rows + {Row(op.call.user, op.call.event)};
    if op.pruned then DeleteBefore(inserted, op.call.user, op.call.event.time - retention) else inserted
  }

  function TableAfter(ops: seq<Insert>, retention: int): set<Row> {
    if ops == [] then {} else Apply(TableAfter(ops[..|ops| - 1], retention), ops[|ops| - 1], retention)
  }

  function CallsOf(ops: seq<Insert>): seq<Call> {
    seq(|ops|, i requires 0 <= i < |ops| => ops[i].call)
  }

  function Window(rows: set<Row>, user: Uuid, since: Instant): set<Event> {
    set row | row in rows && row.user == user && row.event.time >= since :: row.event
  }

  function ToSet(events: seq<Event>): set<Event> {
    set e | e in events
  }

  lemma {:induction false} NewestExists(events: set<Event>)
    requires events != {}
    ensures exists e :: e in events && forall x :: x in events ==> x.time <= e.time
    decreases events
  {
    var e :| e in events;
    var rest := events - {e};
    if rest == {} {
      assert events == {e};
    } else {
      NewestExists(rest);
      var m :| m in rest && forall x :: x in rest ==> x.time <= m.time;
      assert events == rest + {e};
      if m.time <= e.time {
        assert forall x :: x in events ==> x.time <= e.time;
      } else {
        assert forall x :: x in events ==> x.time <= m.time;
      }
    }
  }

  method PickNewest(events: set<Event>) returns (e: Event)
    requires events != {}
    ensures e in events && forall x :: x in events ==> x.time <= e.time
  {
    NewestExists(events);
    e :| e in events && forall x :: x in events ==> x.time <= e.time;
  }

  predicate NoRepeats(events: seq<Event>) {
    forall i, j :: 0 <= i < j < |events| ==> events[i] != events[j]
  }

  /** The sorted query: each row once, newest first, ties in any order. */
  method NewestFirstOf(events: set<Event>) returns (out: seq<Event>)
    ensures NewestFirst(out) && NoRepeats(out) && ToSet(out) == events
  {
    var rest := events;
    out := [];
    while rest != {}
      invariant NewestFirst(out) && NoRepeats(out)
      invariant forall e :: e in out ==> e in events && e !in rest
      invariant forall e :: e in events ==> e in out || e in rest
      invariant rest <= events
      invariant forall i, e :: 0 <= i < |out| && e in rest ==> out[i].time >= e.time
      decreases |rest|
    {
      var e := PickNewest(rest);
      rest := rest - {e};
      out := out + [e];
    }
  }

  lemma WindowMembers(rows: set<Row>, user: Uuid, since: Instant, out: seq<Event>)
    requires ToSet(out) == Window(rows, user, since)
    ensures forall e :: e in out <==> Row(user, e) in rows && e.time >= since
  {
    forall e
      ensures e in out <==> Row(user, e) in rows && e.time >= since
    {
      assert e in out <==> e in ToSet(out);
      assert e in Window(rows, user, since) <==> Row(user, e) in rows && Row(user, e).event.time >= since;
    }
  }

  /** Any rows can be accounted for by earlier inserts, so a store can be opened on any table. */
  lemma {:induction false} EveryTableHasHistory(rows: set<Row>, retention: int) returns (history: seq<Insert>)
    ensures TableAfter(history, retention) == rows
    decreases rows
  {
    if rows == {} {
      history := [];
    } else {
      var row :| row in rows;
      var before := EveryTableHasHistory(rows - {row}, retention);
      history := before + [Insert(Call(row.user, row.event), false)];
      assert history[..|before|] == before;
      assert rows == (rows - {row}) + {row};
    }
  }

  class PGStore {
    /** The consumptions table; (user_id, ts, tea_id) is its key, so it is a set of rows. */
    var rows: set<Row>
    const retention: int
    /** False for a zero value only; the constructor function always sets the queries. */
    const connected: bool
    /** Inserts, here or earlier, that account for the table. */
    ghost var ops: seq<Insert>

    ghost predicate Valid()
      reads this
    {
      (connected ==> retention > 0) && rows == TableAfter(ops, retention)
    }

    /** Opens a table with whatever rows it holds; earlier inserts, history, account for them. */
    constructor (rows: set<Row>, retention: int, ghost history: seq<Insert>)
      requires rows == TableAfter(history, EffectiveRetention(retention))
      ensures Valid() && connected && this.rows == rows && ops == history
      ensures retention > 0 ==> this.retention == retention
      ensures retention <= 0 ==> this.retention == 30 * 24 * HOUR
    {
      this.rows := rows;
      this.connected := true;
      this.retention := EffectiveRetention(retention);
      ops := history;
    }

    /** The zero value, which has no queries. */
    constructor Zero()
      ensures Valid() && !connected && rows == {} && ops == [] && retention == 0
    {
      rows := {};
      connected := false;
      retention := 0;
      ops := [];
    }

    /** insertOk and deleteOk say whether the database executes each statement. */
    method Record(user: Uuid, tea: Uuid, ts: Instant, insertOk: bool, deleteOk: bool) returns (err: Option<StoreError>)
      requires Valid()
      modifies this
      ensures Valid()
      ensures err == if !connected then Some(NilDB) else if !insertOk then Some(InsertFailed)
                     else if !deleteOk then Some(RetentionDeleteFailed) else None
      ensures ops == if connected && insertOk then old(ops) + [Insert(Call(user, Event(tea, ts)), deleteOk)] else old(ops)
      ensures connected && insertOk ==> Row(user, Event(tea, ts)) in rows
      ensures connected && insertOk
              ==> forall row :: row in rows
                    <==> (row in old(rows) || row == Row(user, Event(tea, ts)))
                         && !(deleteOk && row.user == user && row.event.time < ts - retention)
      ensures !connected || !insertOk ==> rows == old(rows)
    {
      if !connected {
        return Some(NilDB);
      }
      if !insertOk {
        return Some(InsertFailed);
      }
      rows := rows + {Row(user, Event(tea, ts))};
      ops := ops + [Insert(Call(user, Event(tea, ts)), deleteOk)];
      assert ops[..|ops| - 1] == old(ops);
      var cutoff := ts - retention;
      if !deleteOk {
        return Some(RetentionDeleteFailed);
      }
      rows := DeleteBefore(rows, user, cutoff);
      return None;
    }

    method Recent(user: Uuid, since: Instant, queryOk: bool) returns (out: seq<Event>, err: Option<StoreError>)
      ensures err == if !connected then Some(NilDB) else if !queryOk then Some(QueryFailed) else None
      ensures err != None ==> out == []
      ensures err == None ==> NewestFirst(out) && ToSet(out) == Window(rows, user, since)
      ensures err == None ==> NoRepeats(out)
      ensures err == None ==> forall e :: e in out <==> Row(user, e) in rows && e.time >= since
    {
      if !connected {
        return [], Some(NilDB);
      }
      if !queryOk {
        return [], Some(QueryFailed);
      }
      var selected := NewestFirstOf(Window(rows, user, since));
      out := [];
      for i := 0 to |selected|
        invariant out == selected[..i]
      {
        out := out + [selected[i]];
      }
      assert selected[..|selected|] == selected;
      WindowMembers(rows, user, since, out);
      return out, None;
    }
  }
}
