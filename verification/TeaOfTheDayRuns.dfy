/** What every sequential run of the TeaOfTheDay resolver guarantees, over many users and days. */
module TeaOfTheDayRuns {
  import opened Basics
  import opened Scoring
  import opened Consumption
  import opened History
  import opened DayCache
  import opened TeaOfTheDay

  predicate NotAfter(ops: seq<Insert>, now: Instant) {
    forall op :: op in ops ==> op.call.event.time <= now
  }

  /**
    Turns one after the other, with clocks that never go back, from an empty cache
    and a table in which nothing lies in the future.
   */
  ghost predicate Run(cfg: Config, ts: seq<Turn>) {
    && cfg.zone.Valid()
    && (forall i {:trigger Legal(cfg, ts[i])} :: 0 <= i < |ts| ==> Legal(cfg, ts[i]))
    && (forall i, j :: 0 <= i && j == i + 1 < |ts| ==> ts[i].post == ts[j].pre)
    && (forall i, j :: 0 <= i < j < |ts| ==> ts[i].req.now <= ts[j].req.now)
    && (|ts| > 0 ==> ts[0].pre.items == map[] && NotAfter(ts[0].pre.ops, ts[0].req.now))
  }

  /** The turn answered this user. */
  predicate Answered(t: Turn, user: Uuid) {
    t.req.user == Some(user) && t.out.Ok?
  }

  function Day(cfg: Config, t: Turn): int {
    cfg.zone.day(t.req.now)
  }

  /** The cache entry an answer stands for. */
  function EntryFor(cfg: Config, t: Turn): Entry<Choice>
    requires t.out.Ok?
  {
    Entry(t.out.value, cfg.zone.NextMidnight(t.req.now))
  }

  /** What a turn does to one user's entry: a fresh one stays, and a new one is this turn's recorded answer. */
  lemma TurnEffect(cfg: Config, t: Turn, user: Uuid)
    requires Legal(cfg, t)
    ensures Fresh(t.pre.items, user, t.req.now) ==> user in t.post.items && t.post.items[user] == t.pre.items[user]
    ensures Answered(t, user) && t.recorded ==> user in t.post.items && t.post.items[user] == EntryFor(cfg, t)
    ensures user in t.post.items && !(Answered(t, user) && t.recorded)
            ==> user in t.pre.items && t.post.items[user] == t.pre.items[user]
  {
  }

  /** A cached entry is what some earlier turn answered this user. */
  lemma {:induction false} EntryHasOrigin(cfg: Config, ts: seq<Turn>, n: nat, user: Uuid) returns (i: nat)
    requires Run(cfg, ts) && n < |ts| && user in ts[n].pre.items
    ensures i < n && Answered(ts[i], user) && ts[n].pre.items[user] == EntryFor(cfg, ts[i])
    decreases n
  {
    var p := ts[n - 1];
    assert p.post == ts[n].pre;
    TurnEffect(cfg, p, user);
    if Answered(p, user) && p.recorded {
      i := n - 1;
    } else {
      i := EntryHasOrigin(cfg, ts, n - 1, user);
    }
  }

  /** A hit comes from an answer of the same day, so it stands for the same entry. */
  lemma HitKeepsEntry(cfg: Config, ts: seq<Turn>, k: nat, user: Uuid) returns (i: nat)
    requires Run(cfg, ts) && k < |ts| && Answered(ts[k], user) && !ts[k].recorded
    ensures i < k && Answered(ts[i], user) && Day(cfg, ts[i]) == Day(cfg, ts[k])
    ensures ts[i].out == ts[k].out && EntryFor(cfg, ts[i]) == EntryFor(cfg, ts[k])
    ensures ts[k].pre == ts[k].post && user in ts[k].pre.items && ts[k].pre.items[user] == EntryFor(cfg, ts[k])
  {
    assert Legal(cfg, ts[k]);
    assert Fresh(ts[k].pre.items, user, ts[k].req.now);
    i := EntryHasOrigin(cfg, ts, k, user);
    LivesThroughItsDay(cfg.zone, ts[i].req.now, ts[k].req.now);
    LivesThroughItsDay(cfg.zone, ts[k].req.now, ts[i].req.now);
  }

  lemma DaysAreMonotone(z: Zone, s: Instant, t: Instant)
    requires z.Valid() && s <= t
    ensures z.day(s) <= z.day(t)
  {
    LivesThroughItsDay(z, t, s);
  }

  /** The turns between two turns of one day are of that day. */
  lemma DayBetween(cfg: Config, ts: seq<Turn>, j: nat, m: nat, n: nat)
    requires Run(cfg, ts) && j <= m <= n < |ts| && Day(cfg, ts[j]) == Day(cfg, ts[n])
    ensures Day(cfg, ts[m]) == Day(cfg, ts[j])
  {
    assert ts[j].req.now <= ts[m].req.now || j == m;
    assert ts[m].req.now <= ts[n].req.now || m == n;
    DaysAreMonotone(cfg.zone, ts[j].req.now, ts[m].req.now);
    DaysAreMonotone(cfg.zone, ts[m].req.now, ts[n].req.now);
  }

  /** A turn that finds an earlier answer of its day in the cache leaves it there, and returns it to its user. */
  lemma FoundAnswerStays(cfg: Config, earlier: Turn, t: Turn, user: Uuid)
    requires cfg.zone.Valid() && Legal(cfg, t) && Answered(earlier, user) && Day(cfg, earlier) == Day(cfg, t)
    requires user in t.pre.items && t.pre.items[user] == EntryFor(cfg, earlier)
    ensures user in t.post.items && t.post.items[user] == EntryFor(cfg, earlier)
    ensures t.req.user == Some(user) ==> t.out == earlier.out && !t.recorded && t.post == t.pre
  {
    LivesThroughItsDay(cfg.zone, earlier.req.now, t.req.now);
    TurnEffect(cfg, t, user);
  }

  lemma AnswerIsCached(cfg: Config, ts: seq<Turn>, n: nat, user: Uuid)
    requires Run(cfg, ts) && n < |ts| && Answered(ts[n], user)
    ensures user in ts[n].post.items && ts[n].post.items[user] == EntryFor(cfg, ts[n])
  {
    if ts[n].recorded {
      assert Legal(cfg, ts[n]);
      TurnEffect(cfg, ts[n], user);
    } else {
      var _ := HitKeepsEntry(cfg, ts, n, user);
    }
  }

  lemma TurnFollows(cfg: Config, ts: seq<Turn>, n: nat)
    requires Run(cfg, ts) && 0 < n < |ts|
    ensures Legal(cfg, ts[n - 1]) && Legal(cfg, ts[n])
    ensures ts[n - 1].post == ts[n].pre && ts[n - 1].req.now <= ts[n].req.now
  {
    assert ts[n - 1].post == ts[n].pre;
  }

  /** Until its day is over, an answer stays in the cache. */
  lemma {:induction false} AnswerStaysCached(cfg: Config, ts: seq<Turn>, j: nat, n: nat, user: Uuid)
    requires Run(cfg, ts) && j <= n < |ts| && Answered(ts[j], user)
    requires Day(cfg, ts[n]) == Day(cfg, ts[j])
    ensures user in ts[n].post.items && ts[n].post.items[user] == EntryFor(cfg, ts[j])
    decreases n
  {
    if n == j {
      AnswerIsCached(cfg, ts, n, user);
    } else {
      DayBetween(cfg, ts, j, n - 1, n);
      AnswerStaysCached(cfg, ts, j, n - 1, user);
      TurnFollows(cfg, ts, n);
      FoundAnswerStays(cfg, ts[j], ts[n], user);
    }
  }

  /** All answers to one user on one local day are the same, and only the first is recorded. */
  lemma DayIsStable(cfg: Config, ts: seq<Turn>, j: nat, k: nat, user: Uuid)
    requires Run(cfg, ts) && j < k < |ts|
    requires ts[j].req.user == Some(user) && ts[j].out.Ok? && ts[k].req.user == Some(user) && ts[k].out.Ok?
    requires cfg.zone.day(ts[j].req.now) == cfg.zone.day(ts[k].req.now)
    ensures ts[k].out == ts[j].out && !ts[k].recorded && ts[k].post == ts[k].pre
  {
    DayBetween(cfg, ts, j, k - 1, k);
    AnswerStaysCached(cfg, ts, j, k - 1, user);
    TurnFollows(cfg, ts, k);
    FoundAnswerStays(cfg, ts[j], ts[k], user);
  }

  lemma {:induction false} DayHasRecordedAnswer(cfg: Config, ts: seq<Turn>, k: nat, user: Uuid) returns (i: nat)
    requires Run(cfg, ts) && k < |ts| && Answered(ts[k], user)
    ensures i <= k && Answered(ts[i], user) && ts[i].recorded && Day(cfg, ts[i]) == Day(cfg, ts[k])
    decreases k
  {
    if ts[k].recorded {
      i := k;
    } else {
      i := HitKeepsEntry(cfg, ts, k, user);
      i := DayHasRecordedAnswer(cfg, ts, i, user);
    }
  }

  /** The turn called Record for this user on this day. */
  predicate RecordedOn(cfg: Config, t: Turn, user: Uuid, day: int) {
    t.req.user == Some(user) && t.recorded && Day(cfg, t) == day
  }

  /** Record is called exactly once for each user and day with an answer, and never without one. */
  lemma RecordedOncePerDay(cfg: Config, ts: seq<Turn>, user: Uuid, day: int)
    requires Run(cfg, ts)
    ensures (exists k :: 0 <= k < |ts| && ts[k].req.user == Some(user) && ts[k].out.Ok? && cfg.zone.day(ts[k].req.now) == day)
       <==> (exists i :: 0 <= i < |ts| && ts[i].req.user == Some(user) && ts[i].recorded && cfg.zone.day(ts[i].req.now) == day)
    ensures forall i, j :: 0 <= i < j < |ts|
              && ts[i].req.user == Some(user) && ts[i].recorded && cfg.zone.day(ts[i].req.now) == day
              && ts[j].req.user == Some(user) && ts[j].recorded
              ==> cfg.zone.day(ts[j].req.now) != day
  {
    forall i | 0 <= i < |ts| && RecordedOn(cfg, ts[i], user, day)
      ensures Answered(ts[i], user)
    {
      assert Legal(cfg, ts[i]);
    }
    if k :| 0 <= k < |ts| && Answered(ts[k], user) && Day(cfg, ts[k]) == day {
      var i := DayHasRecordedAnswer(cfg, ts, k, user);
      assert RecordedOn(cfg, ts[i], user, day);
    }
    forall i, j | 0 <= i < j < |ts| && RecordedOn(cfg, ts[i], user, day) && RecordedOn(cfg, ts[j], user, day)
      ensures false
    {
      DayIsStable(cfg, ts, i, j, user);
    }
  }

  // ----- the answer against the full history -----

  lemma TurnInsertsNow(cfg: Config, t: Turn, now: Instant)
    requires Legal(cfg, t) && NotAfter(t.pre.ops, t.req.now) && t.req.now <= now
    ensures NotAfter(t.post.ops, now)
  {
  }

  /** The table never holds a time later than the current request's. */
  lemma {:induction false} NothingFromTheFuture(cfg: Config, ts: seq<Turn>, n: nat)
    requires Run(cfg, ts) && n < |ts|
    ensures NotAfter(ts[n].pre.ops, ts[n].req.now)
    decreases n
  {
    if n > 0 {
      NothingFromTheFuture(cfg, ts, n - 1);
      TurnFollows(cfg, ts, n);
      TurnInsertsNow(cfg, ts[n - 1], ts[n].req.now);
    }
  }

  lemma {:induction false} EventsAreCalls(ops: seq<Insert>, user: Uuid, e: Event)
    requires e in EventsOf(CallsOf(ops), user)
    ensures exists op :: op in ops && op.call == Call(user, e)
  {
    var init, op := ops[..|ops| - 1], ops[|ops| - 1];
    CallsOfStep(ops, user);
    assert ops == init + [op];
    if e in EventsOf(CallsOf(init), user) {
      EventsAreCalls(init, user, e);
    } else {
      assert op.call == Call(user, e);
    }
  }

  /** Along a run, pruning and the look-back window never change a penalty. */
  lemma PenaltiesAreExact(cfg: Config, ts: seq<Turn>, n: nat, user: Uuid, full: map<Uuid, Instant>, tea: Uuid)
    requires Run(cfg, ts) && n < |ts| && cfg.retention >= RECENT_48H
    requires cfg.connected && ts[n].req.queryOk && LastKnown(cfg, ts[n].pre.ops, user, ts[n].req, ts[n].last)
    requires IsLatest(full, ToSet(EventsOf(CallsOf(ts[n].pre.ops), user)))
    ensures RecentPenalty(ts[n].last, tea, ts[n].req.now) == RecentPenalty(full, tea, ts[n].req.now)
  {
    var ops, now := ts[n].pre.ops, ts[n].req.now;
    NothingFromTheFuture(cfg, ts, n);
    var h := EventsOf(CallsOf(ops), user);
    forall x | x in h
      ensures now - RECENT_48H + 1 > x.time - cfg.retention
    {
      EventsAreCalls(ops, user, x);
    }
    TablePenaltyIsExact(ops, user, cfg.retention, now, ts[n].last, full, tea);
  }

  /** The first among the earliest-expiring records of its tea. */
  ghost predicate Representative(recs: seq<QRRecord>, rec: QRRecord) {
    rec.tea.Some? && IsEarliest(recs, rec, rec.tea.value.id)
  }

  predicate NoNilTea(recs: seq<QRRecord>) {
    forall rec :: rec in recs && rec.tea.Some? ==> rec.tea.value.id != NIL
  }

  /** The candidate of a tea carries its id and its earliest expiration. */
  lemma CandidateOf(recs: seq<QRRecord>, a: Aggregate, rec: QRRecord) returns (c: Candidate)
    requires Aggregates(recs, a) && rec in recs && rec.tea.Some?
    requires forall r :: r in recs && r.tea.Some? && r.tea.value.id == rec.tea.value.id ==> rec.expiration <= r.expiration
    ensures c in a.candidates && c.id == rec.tea.value.id && c.expiration == rec.expiration
  {
    var id := rec.tea.value.id;
    var k :| 0 <= k < |recs| && recs[k] == rec;
    assert id in a.earliest;
    c := a.candidates[a.index[id]];
    assert Describes(recs, a, c);
    EarliestIsRecord(recs, a, id);
    NoneEarlier(recs, a, id, rec);
  }

  /** The record of a candidate represents its tea. */
  lemma RecordOf(recs: seq<QRRecord>, a: Aggregate, c: Candidate)
    requires Aggregates(recs, a) && c in a.candidates
    ensures c.id in a.earliest
    ensures var rec := a.earliest[c.id];
            Representative(recs, rec) && HasTea(rec, c.id) && c.expiration == rec.expiration
  {
    assert Describes(recs, a, c);
    assert IsEarliest(recs, a.earliest[c.id], c.id);
  }

  /** A fresh answer of a run, with a working look-back query; full is the latest consumption per tea ever recorded. */
  ghost predicate FreshAnswer(cfg: Config, ts: seq<Turn>, n: nat, user: Uuid, full: map<Uuid, Instant>) {
    && Run(cfg, ts) && n < |ts| && cfg.retention >= RECENT_48H
    && Answered(ts[n], user) && ts[n].recorded && cfg.connected && ts[n].req.queryOk
    && IsLatest(full, ToSet(EventsOf(CallsOf(ts[n].pre.ops), user)))
  }

  /** What the selection would be made against if nothing had ever been pruned. */
  function FullContext(t: Turn, full: map<Uuid, Instant>): Context {
    Context(t.req.ai, full, t.req.now)
  }

  /** The records aggregated by a recorded turn, and the record it chose. */
  lemma FreshAnswerView(cfg: Config, t: Turn, user: Uuid)
    requires Legal(cfg, t) && Answered(t, user) && t.recorded
    ensures t.req.collections.Some? && Aggregates(Flatten(t.req.collections.value), t.view)
    ensures Winner(t) in t.view.earliest && t.out.value.tea == t.view.earliest[Winner(t)]
    ensures Winner(t) != NIL
    ensures cfg.connected && t.req.queryOk ==> LastKnown(cfg, t.pre.ops, user, t.req, t.last)
  {
  }

  /** Scored against everything ever recorded, every tea has the score it was selected with. */
  lemma FullHistorySameScore(cfg: Config, ts: seq<Turn>, n: nat, user: Uuid, full: map<Uuid, Instant>, c: Candidate)
    requires FreshAnswer(cfg, ts, n, user, full)
    ensures Score(FullContext(ts[n], full), c) == Score(Context(ts[n].req.ai, ts[n].last, ts[n].req.now), c)
  {
    assert Legal(cfg, ts[n]);
    FreshAnswerView(cfg, ts[n], user);
    PenaltiesAreExact(cfg, ts, n, user, full, c.id);
  }

  /** So the choice is the same. */
  lemma FullHistorySameChoice(cfg: Config, ts: seq<Turn>, n: nat, user: Uuid, full: map<Uuid, Instant>)
    requires FreshAnswer(cfg, ts, n, user, full)
    ensures Select(FullContext(ts[n], full), ts[n].view.candidates).best.id == Winner(ts[n])
  {
    var t := ts[n];
    var ctx := Context(t.req.ai, t.last, t.req.now);
    forall c: Candidate
      ensures Score(FullContext(t, full), c) == Score(ctx, c)
    {
      FullHistorySameScore(cfg, ts, n, user, full, c);
    }
    SameScoresSameScan(ctx, FullContext(t, full), t.view.candidates, t.view.candidates);
  }

  /**
    End to end: every fresh answer of a run is an earliest-expiring record of its tea among all
    collections, and no tea of the user scores higher at its earliest expiration, when scored against
    everything the table was ever given, pruned or not.
   */
  lemma FreshAnswerIsBest(cfg: Config, ts: seq<Turn>, n: nat, user: Uuid, full: map<Uuid, Instant>, rec: QRRecord)
    requires FreshAnswer(cfg, ts, n, user, full) && ts[n].req.collections.Some?
    requires var recs := Flatten(ts[n].req.collections.value);
             && (forall r :: r in recs && r.tea.Some? ==> r.tea.value.id != NIL)
             && rec in recs && rec.tea.Some?
             && (forall r :: r in recs && r.tea.Some? && r.tea.value.id == rec.tea.value.id ==> rec.expiration <= r.expiration)
    ensures var recs, answer := Flatten(ts[n].req.collections.value), ts[n].out.value.tea;
            && answer in recs && answer.tea.Some?
            && (forall r :: r in recs && r.tea.Some? && r.tea.value.id == answer.tea.value.id ==> answer.expiration <= r.expiration)
    ensures var answer, ai, now := ts[n].out.value.tea, ts[n].req.ai, ts[n].req.now;
            answer.tea.Some?
            && ClampedAIScore(ai, rec.tea.value.id) + RecentPenalty(full, rec.tea.value.id, now) + ExpirationBonus(rec.expiration, now)
               <= ClampedAIScore(ai, answer.tea.value.id) + RecentPenalty(full, answer.tea.value.id, now)
                  + ExpirationBonus(answer.expiration, now)
  {
    var t := ts[n];
    assert Legal(cfg, t);
    var recs, ctx := Flatten(t.req.collections.value), FullContext(t, full);
    FreshAnswerView(cfg, t, user);
    CandidatesAreUsable(recs, t.view);
    FullHistorySameChoice(cfg, ts, n, user, full);
    var c := CandidateOf(recs, t.view, rec);
    BestAmongRecords(recs, t.view, ctx, c);
  }

  /** The record chosen from an aggregate, against one of its candidates. */
  lemma BestAmongRecords(recs: seq<QRRecord>, a: Aggregate, ctx: Context, c: Candidate)
    requires Aggregates(recs, a) && NoneNil(a.candidates) && c in a.candidates
    ensures var w := Select(ctx, a.candidates).best;
            && w.id in a.earliest && a.earliest[w.id] in recs && HasTea(a.earliest[w.id], w.id)
            && (forall r :: r in recs && r.tea.Some? && r.tea.value.id == w.id ==> a.earliest[w.id].expiration <= r.expiration)
            && ClampedAIScore(ctx.ai, c.id) + RecentPenalty(ctx.last, c.id, ctx.now) + ExpirationBonus(c.expiration, ctx.now)
               <= ClampedAIScore(ctx.ai, w.id) + RecentPenalty(ctx.last, w.id, ctx.now)
                  + ExpirationBonus(a.earliest[w.id].expiration, ctx.now)
  {
    WinnerInPlainTerms(ctx, a.candidates);
    var w := Select(ctx, a.candidates).best;
    RecordOf(recs, a, w);
    EarliestIsRecord(recs, a, w.id);
    forall r | r in recs && r.tea.Some? && r.tea.value.id == w.id
      ensures a.earliest[w.id].expiration <= r.expiration
    {
      NoneEarlier(recs, a, w.id, r);
    }
  }

  /**
    And it is the lexicographic optimum of the user's teas against that history (score high, expiration
    early, name low), if and only if no sleeper is listed after the last optimum.
   */
  lemma FreshAnswerIsOptimal(cfg: Config, ts: seq<Turn>, n: nat, user: Uuid, full: map<Uuid, Instant>, m: nat)
      returns (w: Candidate)
    requires FreshAnswer(cfg, ts, n, user, full) && ts[n].req.collections.Some?
    requires NoNilTea(Flatten(ts[n].req.collections.value))
    requires LastOptimum(FullContext(ts[n], full), ts[n].view.candidates, m)
    ensures var recs, answer := Flatten(ts[n].req.collections.value), ts[n].out.value.tea;
            && Aggregates(recs, ts[n].view)
            && w in ts[n].view.candidates && HasTea(answer, w.id) && answer.expiration == w.expiration
    ensures var ctx, teas := FullContext(ts[n], full), ts[n].view.candidates;
            Optimal(ctx, w, teas) <==> AwakeBetween(ctx, teas, teas[m], m + 1, |teas|)
  {
    var t := ts[n];
    assert Legal(cfg, t);
    var recs, ctx := Flatten(t.req.collections.value), FullContext(t, full);
    FreshAnswerView(cfg, t, user);
    CandidatesAreUsable(recs, t.view);
    FullHistorySameChoice(cfg, ts, n, user, full);
    WinnerIsOptimalIffAwake(ctx, t.view.candidates, m);
    w := Select(ctx, t.view.candidates).best;
    ScanIsMember(ctx, t.view.candidates, t.view.candidates);
    RecordOf(recs, t.view, w);
  }

  /** Aggregated candidates meet what the selection lemmas ask for. */
  lemma CandidatesAreUsable(recs: seq<QRRecord>, a: Aggregate)
    requires Aggregates(recs, a) && NoNilTea(recs)
    ensures NoneNil(a.candidates) && Distinct(a.candidates)
  {
    forall c | c in a.candidates
      ensures c.id != NIL
    {
      assert Describes(recs, a, c);
      assert recs[FirstOf(recs, c.id)] in recs;
    }
  }

  // ----- what an answer does to later days -----

  lemma CallsGrow(ops: seq<Insert>, op: Insert, user: Uuid)
    ensures EventsOf(CallsOf(ops + [op]), user)
         == EventsOf(CallsOf(ops), user) + if op.call.user == user then [op.call.event] else []
  {
    assert (ops + [op])[..|ops|] == ops;
    CallsOfStep(ops + [op], user);
  }

  /** A turn adds to one history at most: the tea of its own fresh answer, at its own time, to its own user's. */
  lemma TurnHistory(cfg: Config, t: Turn, user: Uuid)
    requires Legal(cfg, t)
    ensures var before, after := EventsOf(CallsOf(t.pre.ops), user), EventsOf(CallsOf(t.post.ops), user);
            if t.req.user == Some(user) && t.recorded && cfg.connected && t.req.insertOk
            then t.out.Ok? && t.out.value.tea.tea.Some? && after == before + [Event(t.out.value.tea.tea.value.id, t.req.now)]
            else after == before
  {
    TurnInserts(cfg, t);
    if t.recorded && cfg.connected && t.req.insertOk {
      CallsGrow(t.pre.ops, Insert(Call(t.req.user.value, Event(t.out.value.tea.tea.value.id, t.req.now)), t.req.deleteOk), user);
      assert EventsOf(CallsOf(t.pre.ops), user) + [] == EventsOf(CallsOf(t.pre.ops), user);
    }
  }

  /** What a turn inserts into the table. */
  lemma TurnInserts(cfg: Config, t: Turn)
    requires Legal(cfg, t)
    ensures t.recorded ==> t.req.user.Some? && t.out.Ok? && t.out.value.tea.tea.Some?
    ensures t.post.ops == if t.recorded && cfg.connected && t.req.insertOk
                          then t.pre.ops + [Insert(Call(t.req.user.value, Event(t.out.value.tea.tea.value.id, t.req.now)), t.req.deleteOk)]
                          else t.pre.ops
  {
    OutcomeOfTurn(cfg, t);
    if t.recorded {
      FreshAnswerOfTurn(cfg, t);
      assert t.pre.ops + [] == t.pre.ops;
    }
  }

  /** The answered tea is what a recorded turn of a run adds to its user's history, and to no other's. */
  lemma AnsweredTeaIsRecorded(cfg: Config, ts: seq<Turn>, i: nat, user: Uuid)
    requires Run(cfg, ts) && i < |ts|
    ensures ts[i].req.user == Some(user) && ts[i].recorded && cfg.connected && ts[i].req.insertOk
            ==> && ts[i].out.Ok? && ts[i].out.value.tea.tea.Some?
                && EventsOf(CallsOf(ts[i].post.ops), user)
                   == EventsOf(CallsOf(ts[i].pre.ops), user) + [Event(ts[i].out.value.tea.tea.value.id, ts[i].req.now)]
    ensures !(ts[i].req.user == Some(user) && ts[i].recorded && cfg.connected && ts[i].req.insertOk)
            ==> EventsOf(CallsOf(ts[i].post.ops), user) == EventsOf(CallsOf(ts[i].pre.ops), user)
  {
    assert Legal(cfg, ts[i]);
    TurnHistory(cfg, ts[i], user);
  }

  lemma {:induction false} HistoryStays(cfg: Config, ts: seq<Turn>, i: nat, n: nat, user: Uuid, e: Event)
    requires Run(cfg, ts) && i < n < |ts| && e in EventsOf(CallsOf(ts[i].post.ops), user)
    ensures e in EventsOf(CallsOf(ts[n].pre.ops), user)
    decreases n
  {
    TurnFollows(cfg, ts, n);
    if i < n - 1 {
      HistoryStays(cfg, ts, i, n - 1, user, e);
      AnsweredTeaIsRecorded(cfg, ts, n - 1, user);
    }
  }

  lemma {:induction false} LatestExists(events: seq<Event>) returns (m: map<Uuid, Instant>)
    ensures IsLatest(m, ToSet(events))
  {
    if events == [] {
      m := map[];
    } else {
      var init, e := events[..|events| - 1], events[|events| - 1];
      m := LatestExists(init);
      assert events == init + [e];
      assert ToSet(events) == ToSet(init) + {e};
      assert e == Event(e.tea, e.time);
      if e.tea !in m || e.time > m[e.tea] {
        m := m[e.tea := e.time];
      }
    }
  }

  /**
    The answered tea is penalised afterwards: at a later fresh turn of the same user with a working
    look-back it counts 5 less within 24 hours, and at least 3 less within 48.
   */
  lemma AnsweredTeaIsPenalised(cfg: Config, ts: seq<Turn>, i: nat, n: nat, user: Uuid)
    requires Run(cfg, ts) && i < n < |ts| && cfg.retention >= RECENT_48H && cfg.connected
    requires ts[i].req.user == Some(user) && ts[i].recorded && ts[i].req.insertOk
    requires ts[n].req.user == Some(user) && ts[n].recorded && ts[n].req.queryOk
    ensures ts[i].out.Ok? && ts[i].out.value.tea.tea.Some?
    ensures var penalty := RecentPenalty(ts[n].last, ts[i].out.value.tea.tea.value.id, ts[n].req.now);
            && (ts[n].req.now - ts[i].req.now <= 24 * HOUR ==> penalty == -5)
            && (ts[n].req.now - ts[i].req.now <= 48 * HOUR ==> penalty <= -3)
  {
    AnsweredTeaIsRecorded(cfg, ts, i, user);
    var e := Event(ts[i].out.value.tea.tea.value.id, ts[i].req.now);
    HistoryStays(cfg, ts, i, n, user, e);
    var history := EventsOf(CallsOf(ts[n].pre.ops), user);
    var full := LatestExists(history);
    assert e in ToSet(history);
    assert Legal(cfg, ts[n]);
    OutcomeOfTurn(cfg, ts[n]);
    FreshAnswerView(cfg, ts[n], user);
    PenaltiesAreExact(cfg, ts, n, user, full, e.tea);
  }

  /** A store opened with the default retention, as the server does, satisfies what these theorems ask of it. */
  method DefaultRetentionSuffices(rows: set<Row>, ghost history: seq<Insert>) returns (store: PGStore)
    requires rows == TableAfter(history, EffectiveRetention(0))
    ensures fresh(store) && store.Valid() && store.connected && store.retention >= RECENT_48H
  {
    store := new PGStore(rows, 0, history);
  }
}
