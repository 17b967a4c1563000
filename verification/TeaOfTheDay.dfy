/**
  The TeaOfTheDay resolver (pkg/api/v2/graphql/schema.resolvers.go): cache probe, aggregation of the
  user's records, selection, recording and cache fill; and what whole runs of it guarantee.
 */
module TeaOfTheDay {
  import opened Basics
  import opened Scoring
  import opened Consumption
  import opened History
  import opened DayCache

  datatype Tea = Tea(id: Uuid, name: Bytes)

  datatype QRRecord = QRRecord(id: Uuid, tea: Option<Tea>, expiration: Instant)

  predicate HasTea(rec: QRRecord, id: Uuid) {
    rec.tea.Some? && rec.tea.value.id == id
  }

  // ----- aggregation -----

  /** The locals candidates, earliestRec and idToIdx. */
  datatype Aggregate = Aggregate(candidates: seq<Candidate>, earliest: map<Uuid, QRRecord>, index: map<Uuid, nat>)

  /** The position of the first record of a tea, or the number of records. */
  function FirstOf(recs: seq<QRRecord>, id: Uuid): (k: nat)
    ensures k <= |recs| && (k < |recs| ==> HasTea(recs[k], id))
  {
    if recs == [] then 0
    else
      var init := recs[..|recs| - 1];
      var k := FirstOf(init, id);
      if k < |init| then k else if HasTea(recs[|recs| - 1], id) then |init| else |recs|
  }

  lemma {:induction false} NoneBeforeFirst(recs: seq<QRRecord>, id: Uuid, j: nat)
    requires j < FirstOf(recs, id)
    ensures !HasTea(recs[j], id)
  {
    if j < |recs| - 1 {
      NoneBeforeFirst(recs[..|recs| - 1], id, j);
    }
  }

  /** rec is the first among the records of tea id that expire earliest. */
  ghost predicate IsEarliest(recs: seq<QRRecord>, rec: QRRecord, id: Uuid) {
    exists k :: 0 <= k < |recs| && recs[k] == rec && HasTea(rec, id)
                && (forall j :: 0 <= j < |recs| && HasTea(recs[j], id) ==> rec.expiration <= recs[j].expiration)
                && (forall j :: 0 <= j < k && HasTea(recs[j], id) ==> rec.expiration < recs[j].expiration)
  }

  /** index numbers the candidates, one for each tea. */
  predicate Indexed(a: Aggregate) {
    && a.index.Keys == a.earliest.Keys
    && (forall i :: 0 <= i < |a.candidates| ==> a.candidates[i].id in a.index && a.index[a.candidates[i].id] == i)
    && (forall id :: id in a.index ==> a.index[id] < |a.candidates| && a.candidates[a.index[id]].id == id)
  }

  /** Candidate i is described by recs: first name, earliest expiration. */
  predicate Describes(recs: seq<QRRecord>, a: Aggregate, c: Candidate) {
    && c.id in a.earliest && c.expiration == a.earliest[c.id].expiration
    && var k := FirstOf(recs, c.id); k < |recs| && c.name == recs[k].tea.value.name
  }

  /** a is what the records say: one candidate per tea, in order of first appearance, and its earliest record. */
  ghost predicate Aggregates(recs: seq<QRRecord>, a: Aggregate) {
    && Indexed(a)
    && (forall k :: 0 <= k < |recs| && recs[k].tea.Some? ==> recs[k].tea.value.id in a.earliest)
    && (forall id :: id in a.earliest ==> IsEarliest(recs, a.earliest[id], id))
    && (forall c :: c in a.candidates ==> Describes(recs, a, c))
    && (forall i, j :: 0 <= i < j < |a.candidates| ==> FirstOf(recs, a.candidates[i].id) < FirstOf(recs, a.candidates[j].id))
  }

  function AddRecord(a: Aggregate, rec: QRRecord): Aggregate
    requires Indexed(a)
  {
    if rec.tea.None? then a
    else
      var id := rec.tea.value.id;
      if id !in a.earliest then
        Aggregate(a.candidates + [Candidate(id, rec.tea.value.name, rec.expiration)],
                  a.earliest[id := rec], a.index[id := |a.candidates|])
      else if rec.expiration < a.earliest[id].expiration then
        var i := a.index[id];
        a.(candidates := a.candidates[i := a.candidates[i].(expiration := rec.expiration)],
           earliest := a.earliest[id := rec])
      else a
  }

  lemma FirstOfStep(recs: seq<QRRecord>, rec: QRRecord, id: Uuid)
    ensures FirstOf(recs + [rec], id)
         == if FirstOf(recs, id) < |recs| then FirstOf(recs, id) else if HasTea(rec, id) then |recs| else |recs| + 1
  {
    assert (recs + [rec])[..|recs|] == recs;
  }

  lemma EarliestStays(recs: seq<QRRecord>, rec: QRRecord, e: QRRecord, id: Uuid)
    requires IsEarliest(recs, e, id)
    requires HasTea(rec, id) ==> e.expiration <= rec.expiration
    ensures IsEarliest(recs + [rec], e, id)
  {
    var k :| 0 <= k < |recs| && recs[k] == e && HasTea(e, id)
             && (forall j :: 0 <= j < |recs| && HasTea(recs[j], id) ==> e.expiration <= recs[j].expiration)
             && (forall j :: 0 <= j < k && HasTea(recs[j], id) ==> e.expiration < recs[j].expiration);
    var recs' := recs + [rec];
    assert recs'[k] == e;
    assert forall j :: 0 <= j < |recs| ==> recs'[j] == recs[j];
    assert recs'[|recs|] == rec;
  }

  lemma EarliestReplaced(recs: seq<QRRecord>, rec: QRRecord, id: Uuid)
    requires HasTea(rec, id)
    requires forall j :: 0 <= j < |recs| && HasTea(recs[j], id) ==> rec.expiration < recs[j].expiration
    ensures IsEarliest(recs + [rec], rec, id)
  {
    var recs' := recs + [rec];
    assert recs'[|recs|] == rec;
    assert forall j :: 0 <= j < |recs| ==> recs'[j] == recs[j];
  }

  lemma AddKeepsIndexed(a: Aggregate, rec: QRRecord)
    requires Indexed(a)
    ensures Indexed(AddRecord(a, rec))
  {
  }

  lemma AddKeepsEarliest(recs: seq<QRRecord>, a: Aggregate, rec: QRRecord, id: Uuid)
    requires Aggregates(recs, a) && id in AddRecord(a, rec).earliest
    ensures IsEarliest(recs + [rec], AddRecord(a, rec).earliest[id], id)
  {
    var a' := AddRecord(a, rec);
    if id in a.earliest && a'.earliest[id] == a.earliest[id] {
      EarliestStays(recs, rec, a.earliest[id], id);
    } else {
      if id in a.earliest {
        assert IsEarliest(recs, a.earliest[id], id);
      }
      EarliestReplaced(recs, rec, id);
    }
  }

  lemma SeenTea(recs: seq<QRRecord>, a: Aggregate, id: Uuid)
    requires Aggregates(recs, a)
    ensures FirstOf(recs, id) < |recs| ==> id in a.earliest
  {
    var k := FirstOf(recs, id);
    if k < |recs| {
      assert recs[k].tea.value.id in a.earliest;
    }
  }

  /** Candidate i after one more record: an old one, perhaps with a new expiration, or a new one. */
  lemma CandidateAfter(a: Aggregate, rec: QRRecord, i: nat)
    requires Indexed(a) && i < |AddRecord(a, rec).candidates|
    requires i < |a.candidates| ==> a.candidates[i].expiration == a.earliest[a.candidates[i].id].expiration
    ensures var a' := AddRecord(a, rec); var c := a'.candidates[i];
            && c.id in a'.earliest && c.expiration == a'.earliest[c.id].expiration
            && (i < |a.candidates| ==> c.id == a.candidates[i].id && c.name == a.candidates[i].name)
            && (i >= |a.candidates| ==> rec.tea.Some? && rec.tea.value == Tea(c.id, c.name) && c.id !in a.earliest)
  {
  }

  lemma FirstPositionAfter(recs: seq<QRRecord>, a: Aggregate, rec: QRRecord, i: nat)
    requires Aggregates(recs, a) && i < |AddRecord(a, rec).candidates|
    ensures var c, recs' := AddRecord(a, rec).candidates[i], recs + [rec];
            if i < |a.candidates| then FirstOf(recs', c.id) == FirstOf(recs, c.id) < |recs| && c.id == a.candidates[i].id
            else FirstOf(recs', c.id) == |recs|
  {
    var c := AddRecord(a, rec).candidates[i];
    assert i < |a.candidates| ==> Describes(recs, a, a.candidates[i]);
    CandidateAfter(a, rec, i);
    FirstOfStep(recs, rec, c.id);
    if i >= |a.candidates| {
      SeenTea(recs, a, c.id);
    }
  }

  lemma AddKeepsDescription(recs: seq<QRRecord>, a: Aggregate, rec: QRRecord, i: nat)
    requires Aggregates(recs, a) && i < |AddRecord(a, rec).candidates|
    ensures Describes(recs + [rec], AddRecord(a, rec), AddRecord(a, rec).candidates[i])
  {
    var c := AddRecord(a, rec).candidates[i];
    assert i < |a.candidates| ==> Describes(recs, a, a.candidates[i]);
    CandidateAfter(a, rec, i);
    FirstPositionAfter(recs, a, rec, i);
    var k := FirstOf(recs + [rec], c.id);
    assert (recs + [rec])[k] == if k < |recs| then recs[k] else rec;
  }

  lemma AddKeepsOrder(recs: seq<QRRecord>, a: Aggregate, rec: QRRecord, i: nat, j: nat)
    requires Aggregates(recs, a) && i < j < |AddRecord(a, rec).candidates|
    ensures FirstOf(recs + [rec], AddRecord(a, rec).candidates[i].id) < FirstOf(recs + [rec], AddRecord(a, rec).candidates[j].id)
  {
    if j < |a.candidates| {
      assert FirstOf(recs, a.candidates[i].id) < FirstOf(recs, a.candidates[j].id);
    }
    FirstPositionAfter(recs, a, rec, i);
    FirstPositionAfter(recs, a, rec, j);
  }

  lemma AddKeepsTeas(a: Aggregate, rec: QRRecord, id: Uuid)
    requires Indexed(a) && (id in a.earliest || HasTea(rec, id))
    ensures id in AddRecord(a, rec).earliest
  {
  }

  /** One more record keeps the aggregation invariant. */
  lemma AddRecordAggregates(recs: seq<QRRecord>, a: Aggregate, rec: QRRecord)
    requires Aggregates(recs, a)
    ensures Aggregates(recs + [rec], AddRecord(a, rec))
  {
    var a', recs' := AddRecord(a, rec), recs + [rec];
    AddKeepsIndexed(a, rec);
    forall c | c in a'.candidates
      ensures Describes(recs', a', c)
    {
      var i :| 0 <= i < |a'.candidates| && a'.candidates[i] == c;
      AddKeepsDescription(recs, a, rec, i);
    }
    forall i, j | 0 <= i < j < |a'.candidates|
      ensures FirstOf(recs', a'.candidates[i].id) < FirstOf(recs', a'.candidates[j].id)
    {
      AddKeepsOrder(recs, a, rec, i, j);
    }
    forall id | id in a'.earliest
      ensures IsEarliest(recs', a'.earliest[id], id)
    {
      AddKeepsEarliest(recs, a, rec, id);
    }
    forall k | 0 <= k < |recs'| && recs'[k].tea.Some?
      ensures recs'[k].tea.value.id in a'.earliest
    {
      if k < |recs| {
        assert recs'[k] == recs[k];
      }
      AddKeepsTeas(a, rec, recs'[k].tea.value.id);
    }
  }

  /** A candidate in plain terms: the first record of its tea names it, and none of its records expires earlier. */
  lemma CandidateInPlainTerms(recs: seq<QRRecord>, a: Aggregate, i: nat) returns (k: nat)
    requires Aggregates(recs, a) && i < |a.candidates|
    ensures var c := a.candidates[i];
            && k < |recs| && recs[k].tea == Some(Tea(c.id, c.name))
            && (forall j :: 0 <= j < k && recs[j].tea.Some? ==> recs[j].tea.value.id != c.id)
            && (forall r :: r in recs && r.tea.Some? && r.tea.value.id == c.id ==> c.expiration <= r.expiration)
            && (exists r :: r in recs && r.tea.Some? && r.tea.value.id == c.id && r.expiration == c.expiration)
    ensures forall j :: 0 <= j < i ==> a.candidates[j].id != a.candidates[i].id
  {
    var c := a.candidates[i];
    assert Describes(recs, a, c);
    k := FirstOf(recs, c.id);
    forall j | 0 <= j < k && recs[j].tea.Some?
      ensures recs[j].tea.value.id != c.id
    {
      NoneBeforeFirst(recs, c.id, j);
    }
    EarliestIsRecord(recs, a, c.id);
    forall r | r in recs && r.tea.Some? && r.tea.value.id == c.id
      ensures c.expiration <= r.expiration
    {
      NoneEarlier(recs, a, c.id, r);
    }
  }

  lemma EarliestIsRecord(recs: seq<QRRecord>, a: Aggregate, id: Uuid)
    requires Aggregates(recs, a) && id in a.earliest
    ensures a.earliest[id] in recs && a.earliest[id].tea.Some? && a.earliest[id].tea.value.id == id
  {
    assert IsEarliest(recs, a.earliest[id], id);
  }

  lemma NoneEarlier(recs: seq<QRRecord>, a: Aggregate, id: Uuid, r: QRRecord)
    requires Aggregates(recs, a) && id in a.earliest && r in recs && r.tea.Some? && r.tea.value.id == id
    ensures a.earliest[id].expiration <= r.expiration
  {
    assert IsEarliest(recs, a.earliest[id], id);
    var k :| 0 <= k < |recs| && recs[k] == r;
    assert HasTea(recs[k], id);
  }

  /** Every tea on a record has a candidate, and candidates come in the order of their teas' first records. */
  lemma CandidatesInPlainOrder(recs: seq<QRRecord>, a: Aggregate, k: nat) returns (i: nat)
    requires Aggregates(recs, a) && k < |recs| && recs[k].tea.Some?
    ensures i < |a.candidates| && a.candidates[i].id == recs[k].tea.value.id
    ensures forall j :: 0 <= j < i ==> exists n :: 0 <= n < k && recs[n].tea.Some? && recs[n].tea.value.id == a.candidates[j].id
  {
    var id := recs[k].tea.value.id;
    assert id in a.earliest;
    i := a.index[id];
    forall j | 0 <= j < i
      ensures exists n :: 0 <= n < k && recs[n].tea.Some? && recs[n].tea.value.id == a.candidates[j].id
    {
      assert FirstOf(recs, a.candidates[j].id) < FirstOf(recs, a.candidates[i].id);
      if k < FirstOf(recs, id) {
        NoneBeforeFirst(recs, id, k);
      }
      var n := FirstOf(recs, a.candidates[j].id);
      assert HasTea(recs[n], a.candidates[j].id);
    }
  }

  /** The fold of all records, in order. */
  function AggregateAll(recs: seq<QRRecord>): (a: Aggregate)
    ensures Indexed(a)
  {
    if recs == [] then Aggregate([], map[], map[])
    else
      var a := AggregateAll(recs[..|recs| - 1]);
      AddKeepsIndexed(a, recs[|recs| - 1]);
      AddRecord(a, recs[|recs| - 1])
  }

  lemma AggregateAllGrows(recs: seq<QRRecord>, rec: QRRecord)
    ensures AggregateAll(recs + [rec]) == AddRecord(AggregateAll(recs), rec)
  {
    assert (recs + [rec])[..|recs|] == recs;
  }

  lemma AggregateOneMore(recs: seq<QRRecord>, rec: QRRecord)
    requires Aggregates(recs, AggregateAll(recs))
    ensures Aggregates(recs + [rec], AggregateAll(recs + [rec]))
  {
    AggregateAllGrows(recs, rec);
    AddRecordAggregates(recs, AggregateAll(recs), rec);
  }

  /** The fold is what the records say. */
  lemma {:induction false} AggregateAllIsRight(recs: seq<QRRecord>)
    ensures Aggregates(recs, AggregateAll(recs))
  {
    if recs != [] {
      var init, rec := recs[..|recs| - 1], recs[|recs| - 1];
      AggregateAllIsRight(init);
      AggregateOneMore(init, rec);
      assert recs == init + [rec];
    }
  }

  /** The records of all collections; a collection whose listing fails contributes none. */
  function Flatten(cols: seq<Option<seq<QRRecord>>>): seq<QRRecord> {
    if cols == [] then []
    else
      var c := cols[|cols| - 1];
      Flatten(cols[..|cols| - 1]) + if c.Some? then c.value else []
  }

  predicate AllListed(cols: seq<Option<seq<QRRecord>>>) {
    forall i :: 0 <= i < |cols| ==> cols[i].Some?
  }

  lemma FlattenGrows(cols: seq<Option<seq<QRRecord>>>, i: nat)
    requires i < |cols| && cols[i].Some?
    ensures AllListed(cols[..i]) ==> AllListed(cols[..i + 1])
    ensures Flatten(cols[..i + 1]) == Flatten(cols[..i]) + cols[i].value
  {
    assert cols[..i + 1][..i] == cols[..i];
  }

  lemma {:induction false} FlattenMembers(cols: seq<Option<seq<QRRecord>>>, rec: QRRecord)
    ensures rec in Flatten(cols) <==> exists i :: 0 <= i < |cols| && cols[i].Some? && rec in cols[i].value
  {
    if cols != [] {
      FlattenMembers(cols[..|cols| - 1], rec);
    }
  }

  /** The body of the inner loop, for a record with a tea. */
  method AggregateRecord(rec: QRRecord, a: Aggregate) returns (a': Aggregate)
    requires Indexed(a) && rec.tea.Some?
    ensures a' == AddRecord(a, rec)
  {
    var candidates, earliest := a.candidates, a.earliest;
    var index: map<Uuid, nat> := a.index;
    var uid := rec.tea.value.id;
    if uid !in earliest {
      earliest := earliest[uid := rec];
      candidates := candidates + [Candidate(uid, rec.tea.value.name, rec.expiration)];
      index := index[uid := |candidates| - 1];
    } else if rec.expiration < earliest[uid].expiration {
      earliest := earliest[uid := rec];
      if uid in index {
        var idx := index[uid];
        candidates := candidates[idx := candidates[idx].(expiration := rec.expiration)];
      }
    }
    return Aggregate(candidates, earliest, index);
  }

  /** The inner loop: the records of one collection, after those in before. */
  method AggregateCollection(records: seq<QRRecord>, ghost before: seq<QRRecord>, a: Aggregate) returns (a': Aggregate)
    requires a == AggregateAll(before)
    ensures a' == AggregateAll(before + records)
  {
    a' := a;
    assert before + records[..0] == before;
    for j := 0 to |records|
      invariant a' == AggregateAll(before + records[..j])
    {
      AggregateAllGrows(before + records[..j], records[j]);
      AppendNext(before, records, j);
      if records[j].tea.None? {
        continue;
      }
      a' := AggregateRecord(records[j], a');
    }
    assert records[..|records|] == records;
  }

  /** The outer loop, over the collections; it stops at the first whose records cannot be listed. */
  method AggregateRecords(cols: seq<Option<seq<QRRecord>>>) returns (r: Option<Aggregate>)
    ensures r.Some? <==> AllListed(cols)
    ensures r.Some? ==> r.value == AggregateAll(Flatten(cols)) && Aggregates(Flatten(cols), r.value)
  {
    var a := Aggregate([], map[], map[]);
    for i := 0 to |cols|
      invariant AllListed(cols[..i])
      invariant a == AggregateAll(Flatten(cols[..i]))
    {
      if cols[i].None? {
        return None;
      }
      FlattenGrows(cols, i);
      a := AggregateCollection(cols[i].value, Flatten(cols[..i]), a);
    }
    assert cols[..|cols|] == cols;
    AggregateAllIsRight(Flatten(cols));
    return Some(a);
  }

  // ----- one request -----

  /** The answer: the record to drink from and the time it was chosen. */
  datatype Choice = Choice(tea: QRRecord, date: Instant)

  datatype Failure = Unauthenticated | StorageFailed | NoTeas | NoTeaCandidates

  datatype Outcome = Ok(value: Choice) | Err(failure: Failure)

  /**
    A request with everything the outside world contributes to it: the signed-in user, the clock, the
    collections (None where listing fails), the AI scores, and whether each statement on the
    consumptions table is executed.
   */
  datatype Request = Request(user: Option<Uuid>, now: Instant,
                             collections: Option<seq<Option<seq<QRRecord>>>>, ai: map<Uuid, int>,
                             queryOk: bool, insertOk: bool, deleteOk: bool)

  datatype Config = Config(zone: Zone, retention: int, connected: bool)

  /** The cache, and the inserts that made the consumptions table. */
  datatype State = State(items: map<Uuid, Entry<Choice>>, ops: seq<Insert>)

  /** A request handled: view and last are what the resolver aggregated; recorded tells if it called Record. */
  datatype Turn = Turn(pre: State, req: Request, view: Aggregate, last: map<Uuid, Instant>,
                       post: State, out: Outcome, recorded: bool)

  /** The lastBy map: from the look-back window, or empty when the query fails. */
  ghost predicate LastKnown(cfg: Config, ops: seq<Insert>, user: Uuid, req: Request, last: map<Uuid, Instant>) {
    if cfg.connected && req.queryOk
    then IsLatest(last, Window(TableAfter(ops, cfg.retention), user, req.now - LOOKBACK))
    else last == map[]
  }

  function Winner(t: Turn): Uuid {
    Select(Context(t.req.ai, t.last, t.req.now), t.view.candidates).best.id
  }

  function Evict(s: State, user: Uuid): State {
    s.(items := s.items - {user})
  }

  /** A cache miss. */
  ghost predicate LegalMiss(cfg: Config, t: Turn, user: Uuid) {
    var evicted := Evict(t.pre, user);
    if t.req.collections.None? || !AllListed(t.req.collections.value) then
      t.out == Err(StorageFailed) && t.post == evicted && !t.recorded
    else
      && Aggregates(Flatten(t.req.collections.value), t.view)
      && if t.view.earliest == map[] then
           t.out == Err(NoTeas) && t.post == evicted && !t.recorded
         else
           && LastKnown(cfg, t.pre.ops, user, t.req, t.last)
           && if Winner(t) == NIL then
                t.out == Err(NoTeaCandidates) && t.post == evicted && !t.recorded
              else LegalAnswer(cfg, t, user)
  }

  predicate LegalAnswer(cfg: Config, t: Turn, user: Uuid) {
    && t.recorded
    && Winner(t) in t.view.earliest
    && t.out == Ok(Choice(t.view.earliest[Winner(t)], t.req.now))
    && t.post.items == Evict(t.pre, user).items[user := Entry(t.out.value, cfg.zone.NextMidnight(t.req.now))]
    && t.post.ops == t.pre.ops + if cfg.connected && t.req.insertOk
                                 then [Insert(Call(user, Event(Winner(t), t.req.now)), t.req.deleteOk)] else []
  }

  ghost predicate Legal(cfg: Config, t: Turn) {
    match t.req.user
    case None => t.out == Err(Unauthenticated) && t.post == t.pre && !t.recorded
    case Some(user) =>
      if Fresh(t.pre.items, user, t.req.now) then
        t.out == Ok(t.pre.items[user].val) && t.post == t.pre && !t.recorded
      else LegalMiss(cfg, t, user)
  }

  /** The selected id has a record, so the nil check after selection cannot fire, whatever the ids are. */
  lemma WinnerHasRecord(recs: seq<QRRecord>, a: Aggregate, ctx: Context)
    requires Aggregates(recs, a)
    requires Select(ctx, a.candidates).best.id != NIL
    ensures Select(ctx, a.candidates).best.id in a.earliest
  {
    ScanIsMember(ctx, a.candidates, a.candidates);
    var best := Select(ctx, a.candidates).best;
    assert Describes(recs, a, best);
  }

  // ----- a legal turn in plain terms -----

  /** A cached answer of the day: the user has an entry that has not expired. */
  predicate Hit(t: Turn) {
    t.req.user.Some? && t.req.user.value in t.pre.items && t.req.now < t.pre.items[t.req.user.value].expiresAt
  }

  /** All listings of a signed-in user's request succeeded. */
  predicate Listed(t: Turn) {
    && t.req.user.Some? && t.req.collections.Some?
    && forall i :: 0 <= i < |t.req.collections.value| ==> t.req.collections.value[i].Some?
  }

  /** The errors and the hit: exactly when each happens, and that nothing is recorded then. */
  lemma OutcomeOfTurn(cfg: Config, t: Turn)
    requires Legal(cfg, t)
    ensures t.out == Err(Unauthenticated) <==> t.req.user.None?
    ensures Hit(t) ==> t.out == Ok(t.pre.items[t.req.user.value].val) && t.post == t.pre
    ensures t.req.user.Some? && !Hit(t) ==> (t.out == Err(StorageFailed) <==> !Listed(t))
    ensures !Hit(t) && Listed(t)
            ==> (t.out == Err(NoTeas) <==> forall rec :: rec in Flatten(t.req.collections.value) ==> rec.tea.None?)
    ensures t.out == Err(NoTeaCandidates)
            ==> exists rec :: rec in Flatten(t.req.collections.value) && rec.tea.Some? && rec.tea.value.id == NIL
    ensures t.out.Err? ==> t.post.ops == t.pre.ops
    ensures t.recorded <==> t.out.Ok? && !Hit(t)
  {
    if !Hit(t) && Listed(t) {
      var recs := Flatten(t.req.collections.value);
      NoTeasIffNoneEarliest(recs, t.view);
      if t.out == Err(NoTeaCandidates) {
        NilWinnerHasNilTea(recs, t.view, Context(t.req.ai, t.last, t.req.now));
      }
    }
  }

  lemma NoTeasIffNoneEarliest(recs: seq<QRRecord>, a: Aggregate)
    requires Aggregates(recs, a)
    ensures a.earliest == map[] <==> forall rec :: rec in recs ==> rec.tea.None?
  {
    if rec :| rec in recs && rec.tea.Some? {
      var k :| 0 <= k < |recs| && recs[k] == rec;
      assert rec.tea.value.id in a.earliest;
    }
    if a.earliest != map[] {
      var id :| id in a.earliest;
      assert IsEarliest(recs, a.earliest[id], id);
    }
  }

  lemma NilWinnerHasNilTea(recs: seq<QRRecord>, a: Aggregate, ctx: Context)
    requires Aggregates(recs, a) && a.earliest != map[] && Select(ctx, a.candidates).best.id == NIL
    ensures exists rec :: rec in recs && rec.tea.Some? && rec.tea.value.id == NIL
  {
    var id :| id in a.earliest;
    assert a.index[id] < |a.candidates|;
    ScanIsMember(ctx, a.candidates, a.candidates);
    var best := Select(ctx, a.candidates).best;
    assert Describes(recs, a, best);
    assert IsEarliest(recs, a.earliest[best.id], best.id);
  }

  lemma FreshIsLegalAnswer(cfg: Config, t: Turn)
    requires Legal(cfg, t) && t.out.Ok? && !Hit(t)
    ensures Listed(t) && Aggregates(Flatten(t.req.collections.value), t.view)
    ensures LegalAnswer(cfg, t, t.req.user.value)
  {
  }

  /**
    A fresh answer: a record of the user's collections with a tea, dated now; the tea is recorded as
    drunk now if the insert succeeds, and the answer is cached until the next day starts in any case.
   */
  lemma FreshAnswerOfTurn(cfg: Config, t: Turn)
    requires Legal(cfg, t) && t.out.Ok? && !Hit(t)
    ensures Listed(t) && t.out.value.tea in Flatten(t.req.collections.value) && t.out.value.tea.tea.Some?
    ensures t.out.value.date == t.req.now
    ensures t.post.ops == t.pre.ops
              + if cfg.connected && t.req.insertOk
                then [Insert(Call(t.req.user.value, Event(t.out.value.tea.tea.value.id, t.req.now)), t.req.deleteOk)] else []
    ensures t.post.items == t.pre.items[t.req.user.value := Entry(t.out.value, cfg.zone.start(cfg.zone.day(t.req.now) + 1))]
  {
    FreshIsLegalAnswer(cfg, t);
    var recs := Flatten(t.req.collections.value);
    EarliestIsRecord(recs, t.view, Winner(t));
    AnswerInPlainTerms(cfg, t, t.req.user.value);
  }

  lemma AnswerInPlainTerms(cfg: Config, t: Turn, user: Uuid)
    requires LegalAnswer(cfg, t, user)
    ensures t.out == Ok(Choice(t.view.earliest[Winner(t)], t.req.now))
    ensures t.post.ops == t.pre.ops + if cfg.connected && t.req.insertOk
                                      then [Insert(Call(user, Event(Winner(t), t.req.now)), t.req.deleteOk)] else []
    ensures t.post.items == t.pre.items[user := Entry(t.out.value, cfg.zone.start(cfg.zone.day(t.req.now) + 1))]
  {
    RebindAfterRemoval(t.pre.items, user, Entry(t.out.value, cfg.zone.NextMidnight(t.req.now)));
  }

  lemma RebindAfterRemoval<K, V>(m: map<K, V>, k: K, v: V)
    ensures (m - {k})[k := v] == m[k := v]
  {
  }

  /** The look-back in plain terms: the latest time of each tea drunk in the last 96 hours, or nothing. */
  lemma LookBackOfTurn(cfg: Config, ops: seq<Insert>, user: Uuid, req: Request, last: map<Uuid, Instant>)
    requires LastKnown(cfg, ops, user, req, last)
    ensures cfg.connected && req.queryOk
            ==> && (forall e :: Row(user, e) in TableAfter(ops, cfg.retention) && e.time >= req.now - 96 * HOUR
                      ==> e.tea in last && e.time <= last[e.tea])
                && (forall t :: t in last
                      ==> Row(user, Event(t, last[t])) in TableAfter(ops, cfg.retention) && last[t] >= req.now - 96 * HOUR)
    ensures !cfg.connected || !req.queryOk ==> last == map[]
  {
    if cfg.connected && req.queryOk {
      var rows := TableAfter(ops, cfg.retention);
      forall e
        ensures e in Window(rows, user, req.now - 96 * HOUR) <==> Row(user, e) in rows && e.time >= req.now - 96 * HOUR
      {
        assert Row(user, e).event == e;
      }
    }
  }

  /** Whatever the outcome, other users' entries stay. */
  lemma TurnKeepsOthers(cfg: Config, t: Turn, other: Uuid)
    requires Legal(cfg, t) && t.req.user != Some(other)
    ensures other in t.post.items <==> other in t.pre.items
    ensures other in t.pre.items ==> t.post.items[other] == t.pre.items[other]
  {
  }

  class Resolver {
    const cache: Cache<Choice>
    const store: PGStore
    /** Whether a logger is set. */
    const logging: bool

    constructor (cache: Cache<Choice>, store: PGStore, logging: bool)
      ensures this.cache == cache && this.store == store && this.logging == logging
    {
      this.cache, this.store, this.logging := cache, store, logging;
    }

    ghost function Cfg(): Config {
      Config(cache.zone, store.retention, store.connected)
    }

    ghost function Now(): State
      reads cache, store
    {
      State(cache.items, store.ops)
    }

    /** Handles one request as Legal says; turn records it. */
    method Answer(req: Request) returns (out: Outcome, ghost turn: Turn)
      requires store.Valid()
      modifies cache, store
      ensures store.Valid()
      ensures turn.pre == old(Now()) && turn.post == Now() && turn.req == req && turn.out == out
      ensures Legal(Cfg(), turn)
    {
      ghost var pre := Now();
      if req.user.None? {
        out := Err(Unauthenticated);
        turn := Turn(pre, req, Aggregate([], map[], map[]), map[], pre, out, false);
        return;
      }
      var user := req.user.value;
      var cached := cache.Get(user, req.now);
      if cached.Some? {
        out := Ok(cached.value);
        turn := Turn(pre, req, Aggregate([], map[], map[]), map[], pre, out, false);
        return;
      }
      out, turn := AnswerMiss(user, req, pre);
    }

    /** After a cache miss: aggregate the collections. */
    method AnswerMiss(user: Uuid, req: Request, ghost pre: State) returns (out: Outcome, ghost turn: Turn)
      requires store.Valid() && Now() == Evict(pre, user)
      modifies cache, store
      ensures store.Valid()
      ensures turn.pre == pre && turn.post == Now() && turn.req == req && turn.out == out
      ensures LegalMiss(Cfg(), turn, user)
    {
      if req.collections.None? {
        out := Err(StorageFailed);
        turn := Turn(pre, req, Aggregate([], map[], map[]), map[], Now(), out, false);
        return;
      }
      var view := AggregateRecords(req.collections.value);
      if view.None? {
        out := Err(StorageFailed);
        turn := Turn(pre, req, Aggregate([], map[], map[]), map[], Now(), out, false);
        return;
      }
      if view.value.earliest == map[] {
        out := Err(NoTeas);
        turn := Turn(pre, req, view.value, map[], Now(), out, false);
        return;
      }
      out, turn := AnswerFrom(user, req, view.value, pre);
    }

    /** With candidates at hand: select, record, fill the cache. */
    method AnswerFrom(user: Uuid, req: Request, view: Aggregate, ghost pre: State) returns (out: Outcome, ghost turn: Turn)
      requires store.Valid() && Now() == Evict(pre, user)
      requires req.collections.Some? && Aggregates(Flatten(req.collections.value), view)
      modifies cache, store
      ensures store.Valid()
      ensures turn.pre == pre && turn.post == Now() && turn.req == req && turn.out == out && turn.view == view
      ensures LastKnown(Cfg(), pre.ops, user, req, turn.last)
      ensures if Winner(turn) == NIL
              then out == Err(NoTeaCandidates) && turn.post == Evict(pre, user) && !turn.recorded
              else LegalAnswer(Cfg(), turn, user)
    {
      var last := LastConsumed(user, req);
      var bestId := Choose(Context(req.ai, last, req.now), view.candidates);
      if bestId == NIL {
        out := Err(NoTeaCandidates);
        turn := Turn(pre, req, view, last, Now(), out, false);
        return;
      }
      WinnerHasRecord(Flatten(req.collections.value), view, Context(req.ai, last, req.now));
      var choice := Remember(user, bestId, view.earliest[bestId], req);
      out := Ok(choice);
      turn := Turn(pre, req, view, last, Now(), out, true);
    }

    /** Record the tea as drunk, whether or not the store succeeds, and fill the cache. */
    method Remember(user: Uuid, bestId: Uuid, rec: QRRecord, req: Request) returns (choice: Choice)
      requires store.Valid()
      modifies cache, store
      ensures store.Valid() && choice == Choice(rec, req.now)
      ensures cache.items == old(cache.items)[user := Entry(choice, cache.zone.NextMidnight(req.now))]
      ensures store.ops == old(store.ops) + if store.connected && req.insertOk
                                            then [Insert(Call(user, Event(bestId, req.now)), req.deleteOk)] else []
    {
      var _ := store.Record(user, bestId, req.now, req.insertOk, req.deleteOk);
      choice := Choice(rec, req.now);
      cache.Set(user, choice, req.now);
    }

    method LastConsumed(user: Uuid, req: Request) returns (last: map<Uuid, Instant>)
      requires store.Valid()
      ensures LastKnown(Cfg(), store.ops, user, req, last)
    {
      var recent, err := store.Recent(user, req.now - LOOKBACK, req.queryOk);
      if err != None {
        recent := [];
      }
      last := LastByTea(recent);
    }

    method Choose(ctx: Context, candidates: seq<Candidate>) returns (id: Uuid)
      ensures id == Select(ctx, candidates).best.id
    {
      if logging {
        var best, _, _ := SelectBestWithLogging(ctx, candidates, true);
        id := best;
      } else {
        var best, _ := SelectBest(ctx, candidates);
        id := best;
      }
    }
  }
}
