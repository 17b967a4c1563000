/**
  The tag manager (internal/managers/tag): mutators that enqueue events on eight bounded queues, and
  one loop that takes an event from any queue, publishes it, and then cleans every registry.
  Every interleaving of mutators, subscribers and the loop is a run of the machine below.
 */
module TagManager {
  import opened Basics
  import opened Subscribers

  const DEFAULT_CHAN_SIZE := 100

  datatype Kind = Create | Update | Delete | CreateCategory | UpdateCategory | DeleteCategory | AddTagToTea | DeleteTagFromTea

  datatype Category = Category(id: Uuid, name: Bytes)

  datatype Tag = Tag(id: Uuid, name: Bytes, color: Bytes, categoryId: Uuid)

  datatype Tea = Tea(id: Uuid, name: Bytes)

  /** What is sent on the queues. */
  datatype Event =
    | TagCreated(tag: Tag)
    | TagUpdated(tag: Tag)
    | TagDeleted(id: Uuid)
    | CategoryCreated(category: Category)
    | CategoryUpdated(category: Category)
    | CategoryDeleted(id: Uuid)
    | TagAddedToTea(tea: Uuid)
    | TagRemovedFromTea(tea: Uuid)
  {
    /** The queue the event travels on. */
    function Stream(): Kind {
      match this
      case TagCreated(_) => Create
      case TagUpdated(_) => Update
      case TagDeleted(_) => Delete
      case CategoryCreated(_) => CreateCategory
      case CategoryUpdated(_) => UpdateCategory
      case CategoryDeleted(_) => DeleteCategory
      case TagAddedToTea(_) => AddTagToTea
      case TagRemovedFromTea(_) => DeleteTagFromTea
    }
  }

  /** What subscribers receive. */
  datatype Message =
    | TagMessage(id: Uuid, name: Bytes, color: Bytes, category: Category)
    | CategoryMessage(category: Category)
    | IdMessage(id: Uuid)
    | TeaMessage(tea: Tea)

  /** A call of a mutator, with what storage returned for it. */
  datatype Mutation =
    | DoCreate(created: Tag)
    | DoUpdate(updated: Tag)
    | DoChangeCategory(moved: Tag)
    | DoDelete(id: Uuid)
    | DoCreateCategory(category: Category)
    | DoUpdateCategory(id: Uuid, name: Bytes)
    | DoDeleteCategory(id: Uuid, removedTags: seq<Uuid>)
    | DoAddTagToTea(tea: Uuid, tag: Uuid)
    | DoDeleteTagFromTea(tea: Uuid, tag: Uuid)

  /** The deletions of these tags, in order. */
  function TagDeletions(ids: seq<Uuid>): (events: seq<Event>)
    ensures |events| == |ids| && forall i :: 0 <= i < |ids| ==> events[i] == TagDeleted(ids[i])
  {
    seq(|ids|, i requires 0 <= i < |ids| => TagDeleted(ids[i]))
  }

  /** The events a successful call sends, in order. */
  function Plan(m: Mutation): seq<Event> {
    match m
    case DoCreate(tag) => [TagCreated(tag)]
    case DoUpdate(tag) => [TagUpdated(tag)]
    case DoChangeCategory(tag) => [TagUpdated(tag)]
    case DoDelete(id) => [TagDeleted(id)]
    case DoCreateCategory(category) => [CategoryCreated(category)]
    case DoUpdateCategory(id, name) => [CategoryUpdated(Category(id, name))]
    case DoDeleteCategory(id, removed) => TagDeletions(removed) + [CategoryDeleted(id)]
    case DoAddTagToTea(tea, _) => [TagAddedToTea(tea)]
    case DoDeleteTagFromTea(tea, _) => [TagRemovedFromTea(tea)]
  }

  function PlanIf(m: Mutation, stored: bool): seq<Event> {
    if stored then Plan(m) else []
  }

  /** What lookups in storage return at some moment; an id that is missing stands for an error. */
  datatype Storage = Storage(categories: map<Uuid, Category>, teas: map<Uuid, Tea>)

  const NOTHING_STORED := Storage(map[], map[])

  /** The message a handler publishes; None when its lookup fails. */
  function Render(e: Event, db: Storage): Option<Message> {
    match e
    case TagCreated(tag) =>
      if tag.categoryId in db.categories then Some(TagMessage(tag.id, tag.name, tag.color, db.categories[tag.categoryId])) else None
    case TagUpdated(tag) =>
      if tag.categoryId in db.categories then Some(TagMessage(tag.id, tag.name, tag.color, db.categories[tag.categoryId])) else None
    case TagDeleted(id) => Some(IdMessage(id))
    case CategoryCreated(category) => Some(CategoryMessage(category))
    case CategoryUpdated(category) => Some(CategoryMessage(category))
    case CategoryDeleted(id) => Some(IdMessage(id))
    case TagAddedToTea(tea) => if tea in db.teas then Some(TeaMessage(db.teas[tea])) else None
    case TagRemovedFromTea(tea) => if tea in db.teas then Some(TeaMessage(db.teas[tea])) else None
  }

  const REGISTRIES := 8

  /** The order in which cleanAll visits the registries. */
  function CleanOrder(i: nat): Kind
    requires i < REGISTRIES
  {
    if i == 0 then CreateCategory
    else if i == 1 then UpdateCategory
    else if i == 2 then DeleteCategory
    else if i == 3 then Delete
    else if i == 4 then Create
    else if i == 5 then Update
    else if i == 6 then AddTagToTea
    else DeleteTagFromTea
  }

  /** Where the loop is: in select, about to handle a taken event, or before the next registry to clean. */
  datatype Pc = Selecting | Handling(event: Event) | Cleaning(next: nat)

  /** An event sent by a call. */
  datatype Sent = Sent(call: nat, event: Event)

  /** An event the loop has handled, and what its handler read. */
  datatype Handled = Handled(event: Event, db: Storage)

  /**
    plans and todo: for each call, all its events and those not sent yet. sent, taken and handled are
    the histories of enqueuing, receiving and handling. registries holds each registry's operations.
   */
  datatype State = State(plans: map<nat, seq<Event>>, todo: map<nat, seq<Event>>,
                         sent: seq<Sent>, queues: map<Kind, seq<Event>>,
                         taken: seq<Event>, handled: seq<Handled>, pc: Pc,
                         registries: map<Kind, seq<Op<Message>>>, channels: set<Chan>)
  {
    function Queue(k: Kind): seq<Event> {
      if k in queues then queues[k] else []
    }

    function Ops(k: Kind): seq<Op<Message>> {
      if k in registries then registries[k] else []
    }

    function WithOp(k: Kind, op: Op<Message>): State {
      this.(registries := registries[k := Ops(k) + [op]])
    }
  }

  const INITIAL := State(map[], map[], [], map[], [], [], Selecting, map[], {})

  datatype Step =
    | Begin(call: nat, mutation: Mutation, stored: bool)
    | Enqueue(call: nat)
    | Take(kind: Kind)
    | Handle(db: Storage)
    | Clean(done: set<nat>)
    | Subscribe(kind: Kind, ctx: nat, ch: Chan)

  // One function per step: when it can happen, and what it does.

  /** Storage has answered a mutator; its events are to be sent if storage succeeded. */
  function Begun(s: State, call: nat, m: Mutation, stored: bool): State {
    var plan := PlanIf(m, stored);
    s.(plans := s.plans[call := plan], todo := s.todo[call := plan])
  }

  /** A send blocks while its queue is full. */
  predicate CanEnqueue(s: State, call: nat) {
    call in s.todo && s.todo[call] != [] && |s.Queue(s.todo[call][0].Stream())| < DEFAULT_CHAN_SIZE
  }

  function Enqueued(s: State, call: nat): State
    requires CanEnqueue(s, call)
  {
    var e := s.todo[call][0];
    s.(todo := s.todo[call := s.todo[call][1..]], sent := s.sent + [Sent(call, e)],
       queues := s.queues[e.Stream() := s.Queue(e.Stream()) + [e]])
  }

  /** The select takes from any queue that is not empty. */
  predicate CanTake(s: State, kind: Kind) {
    s.pc.Selecting? && s.Queue(kind) != []
  }

  function Took(s: State, kind: Kind): State
    requires CanTake(s, kind)
  {
    var e := s.Queue(kind)[0];
    s.(queues := s.queues[kind := s.Queue(kind)[1..]], taken := s.taken + [e], pc := Handling(e))
  }

  function PublishOn(s: State, k: Kind, m: Option<Message>): State {
    if m.Some? then s.WithOp(k, SendAll(m.value)) else s
  }

  function HandledBy(s: State, db: Storage): State
    requires s.pc.Handling?
  {
    var e := s.pc.event;
    PublishOn(s, e.Stream(), Render(e, db)).(handled := s.handled + [Handled(e, db)], pc := Cleaning(0))
  }

  function Cleaned(s: State, done: set<nat>): State
    requires s.pc.Cleaning? && s.pc.next < REGISTRIES
  {
    var i := s.pc.next;
    s.WithOp(CleanOrder(i), CleanDone(done)).(pc := if i + 1 < REGISTRIES then Cleaning(i + 1) else Selecting)
  }

  /** Subscribe makes its channel, so it differs from all others. */
  function Subscribed(s: State, kind: Kind, ctx: nat, ch: Chan): State
    requires ch !in s.channels
  {
    s.WithOp(kind, Push(ctx, ch)).(channels := s.channels + {ch})
  }

  predicate Enabled(s: State, step: Step) {
    match step
    case Begin(call, _, _) => call !in s.plans
    case Enqueue(call) => CanEnqueue(s, call)
    case Take(kind) => CanTake(s, kind)
    case Handle(_) => s.pc.Handling?
    case Clean(_) => s.pc.Cleaning? && s.pc.next < REGISTRIES
    case Subscribe(_, _, ch) => ch !in s.channels
  }

  function Next(s: State, step: Step): State
    requires Enabled(s, step)
  {
    match step
    case Begin(call, m, stored) => Begun(s, call, m, stored)
    case Enqueue(call) => Enqueued(s, call)
    case Take(kind) => Took(s, kind)
    case Handle(db) => HandledBy(s, db)
    case Clean(done) => Cleaned(s, done)
    case Subscribe(kind, ctx, ch) => Subscribed(s, kind, ctx, ch)
  }

  /** A step that is not enabled waits, that is, does nothing. */
  function StepOrWait(s: State, step: Step): State {
    if Enabled(s, step) then Next(s, step) else s
  }

  /** The state after these steps. */
  function RunOf(steps: seq<Step>): State {
    if steps == [] then INITIAL else StepOrWait(RunOf(steps[..|steps| - 1]), steps[|steps| - 1])
  }

  // ----- histories seen from one stream or one call -----

  function OnStream(events: seq<Event>, k: Kind): seq<Event> {
    if events == [] then []
    else
      var e := events[|events| - 1];
      OnStream(events[..|events| - 1], k) + if e.Stream() == k then [e] else []
  }

  function Produced(sent: seq<Sent>, k: Kind): seq<Event> {
    if sent == [] then []
    else
      var e := sent[|sent| - 1].event;
      Produced(sent[..|sent| - 1], k) + if e.Stream() == k then [e] else []
  }

  function SentBy(sent: seq<Sent>, call: nat): seq<Event> {
    if sent == [] then []
    else
      var x := sent[|sent| - 1];
      SentBy(sent[..|sent| - 1], call) + if x.call == call then [x.event] else []
  }

  /** The messages of the handled events of one stream, those with a failed lookup left out. */
  function Rendered(handled: seq<Handled>, k: Kind): seq<Message> {
    if handled == [] then []
    else
      var h := handled[|handled| - 1];
      var m := Render(h.event, h.db);
      Rendered(handled[..|handled| - 1], k) + if h.event.Stream() == k && m.Some? then [m.value] else []
  }

  function HandledEvents(handled: seq<Handled>): seq<Event> {
    seq(|handled|, i requires 0 <= i < |handled| => handled[i].event)
  }

  // ----- conservation on each stream -----

  /** Nothing is lost, duplicated or reordered between enqueuing and the loop; a queue holds at most 100. */
  ghost predicate Conserved(s: State, k: Kind) {
    && Produced(s.sent, k) == OnStream(s.taken, k) + s.Queue(k)
    && |s.Queue(k)| <= DEFAULT_CHAN_SIZE
    && forall e :: e in s.Queue(k) ==> e.Stream() == k
  }

  lemma ProducedGrows(sent: seq<Sent>, x: Sent, k: Kind)
    ensures Produced(sent + [x], k) == Produced(sent, k) + if x.event.Stream() == k then [x.event] else []
  {
    assert (sent + [x])[..|sent|] == sent;
  }

  lemma OnStreamGrows(events: seq<Event>, e: Event, k: Kind)
    ensures OnStream(events + [e], k) == OnStream(events, k) + if e.Stream() == k then [e] else []
  {
    assert (events + [e])[..|events|] == events;
  }

  lemma EnqueueConserves(s: State, call: nat, k: Kind)
    requires CanEnqueue(s, call) && Conserved(s, k)
    ensures Conserved(Enqueued(s, call), k)
  {
    var e, s' := s.todo[call][0], Enqueued(s, call);
    ProducedGrows(s.sent, Sent(call, e), k);
    if e.Stream() == k {
      assert s'.Queue(k) == s.Queue(k) + [e];
      assert OnStream(s.taken, k) + (s.Queue(k) + [e]) == OnStream(s.taken, k) + s.Queue(k) + [e];
    } else {
      assert s'.Queue(k) == s.Queue(k);
      assert Produced(s.sent, k) + [] == Produced(s.sent, k);
    }
  }

  lemma HeadMoves(a: seq<Event>, q: seq<Event>)
    requires q != []
    ensures a + q == a + [q[0]] + q[1..]
    ensures forall e :: e in q[1..] ==> e in q
  {
  }

  lemma TakeConserves(s: State, kind: Kind, k: Kind)
    requires CanTake(s, kind) && Conserved(s, k) && Conserved(s, kind)
    ensures Conserved(Took(s, kind), k)
  {
    var q := s.Queue(kind);
    assert q[0] in q;
    OnStreamGrows(s.taken, q[0], k);
    if kind == k {
      HeadMoves(OnStream(s.taken, k), q);
      assert Took(s, kind).Queue(k) == q[1..];
    } else {
      assert Took(s, kind).Queue(k) == s.Queue(k);
      assert OnStream(s.taken, k) + [] == OnStream(s.taken, k);
    }
  }

  lemma OthersConserve(s: State, step: Step, k: Kind)
    requires Enabled(s, step) && !step.Enqueue? && !step.Take? && Conserved(s, k)
    ensures Conserved(Next(s, step), k)
  {
    var s' := Next(s, step);
    assert s'.sent == s.sent && s'.taken == s.taken && s'.queues == s.queues;
  }

  /** Stream conservation: in every run, what was enqueued is what the loop took followed by what is queued. */
  lemma {:induction false} StreamsAreConserved(steps: seq<Step>, k: Kind)
    ensures Conserved(RunOf(steps), k)
    ensures var s := RunOf(steps); Produced(s.sent, k) == OnStream(s.taken, k) + s.Queue(k) && |s.Queue(k)| <= 100
    decreases |steps|
  {
    if steps != [] {
      var init, step := steps[..|steps| - 1], steps[|steps| - 1];
      StreamsAreConserved(init, k);
      if Enabled(RunOf(init), step) {
        match step
        case Enqueue(call) => EnqueueConserves(RunOf(init), call, k);
        case Take(kind) =>
          StreamsAreConserved(init, kind);
          TakeConserves(RunOf(init), kind, k);
        case _ => OthersConserve(RunOf(init), step, k);
      }
    }
  }

  // ----- the events of one call -----

  /** What a call has sent, followed by what it has still to send, is its plan. */
  predicate OnPlan(s: State, call: nat) {
    && (call in s.plans <==> call in s.todo)
    && (if call in s.plans then SentBy(s.sent, call) + s.todo[call] == s.plans[call] else SentBy(s.sent, call) == [])
  }

  lemma SentByGrows(sent: seq<Sent>, x: Sent, call: nat)
    ensures SentBy(sent + [x], call) == SentBy(sent, call) + if x.call == call then [x.event] else []
  {
    assert (sent + [x])[..|sent|] == sent;
  }

  lemma EnqueueKeepsPlan(s: State, sender: nat, call: nat)
    requires CanEnqueue(s, sender) && OnPlan(s, call)
    ensures OnPlan(Enqueued(s, sender), call)
  {
    SentByGrows(s.sent, Sent(sender, s.todo[sender][0]), call);
    if sender == call {
      HeadMoves(SentBy(s.sent, call), s.todo[call]);
    } else {
      assert SentBy(s.sent, call) + [] == SentBy(s.sent, call);
    }
  }

  /** Each call has sent a prefix of its events and has the rest to send. */
  lemma {:induction false} CallsSendTheirPlan(steps: seq<Step>, call: nat)
    ensures OnPlan(RunOf(steps), call)
  {
    if steps != [] {
      var init, step := steps[..|steps| - 1], steps[|steps| - 1];
      CallsSendTheirPlan(init, call);
      if step.Enqueue? && CanEnqueue(RunOf(init), step.call) {
        EnqueueKeepsPlan(RunOf(init), step.call, call);
      }
    }
  }

  /** What a call was begun with. */
  lemma {:induction false} PlansComeFromBegin(steps: seq<Step>, call: nat)
    requires call in RunOf(steps).plans
    ensures exists m, stored :: Begin(call, m, stored) in steps && RunOf(steps).plans[call] == PlanIf(m, stored)
  {
    var init, step := steps[..|steps| - 1], steps[|steps| - 1];
    assert step in steps;
    if call in RunOf(init).plans {
      PlansComeFromBegin(init, call);
      var m, stored :| Begin(call, m, stored) in init && RunOf(init).plans[call] == PlanIf(m, stored);
      if Enabled(RunOf(init), step) {
        PlansStay(RunOf(init), step, call);
      }
      assert Begin(call, m, stored) in steps;
    } else {
      assert step == Begin(call, step.mutation, step.stored);
    }
  }

  lemma PlansStay(s: State, step: Step, call: nat)
    requires Enabled(s, step) && call in s.plans
    ensures call in Next(s, step).plans && Next(s, step).plans[call] == s.plans[call]
  {
  }

  lemma {:induction false} SentBySplits(a: seq<Sent>, b: seq<Sent>, call: nat)
    ensures SentBy(a + b, call) == SentBy(a, call) + SentBy(b, call)
  {
    if b == [] {
      assert a + b == a;
    } else {
      assert (a + b)[..|a + b| - 1] == a + b[..|b| - 1];
      SentBySplits(a, b[..|b| - 1], call);
    }
  }

  lemma SentBySplitsAt(sent: seq<Sent>, p: nat)
    requires p < |sent|
    ensures var call := sent[p].call;
            SentBy(sent, call) == SentBy(sent[..p], call) + [sent[p].event] + SentBy(sent[p + 1..], call)
  {
    SplitAt(sent, p);
    SentBySplits(sent[..p + 1], sent[p + 1..], sent[p].call);
  }

  lemma CategoryDeletionIsLast(m: Mutation, k: nat)
    requires k < |Plan(m)| && Plan(m)[k].CategoryDeleted?
    ensures m.DoDeleteCategory? && Plan(m)[k] == CategoryDeleted(m.id) && Plan(m)[..k] == TagDeletions(m.removedTags)
  {
  }

  /**
    When a category deletion has been enqueued (as the p-th event), its call has enqueued the deletion
    of every tag that storage removed with it before, in storage's order.
   */
  lemma CategoryDeletedAfterItsTags(steps: seq<Step>, p: nat) returns (id: Uuid, removed: seq<Uuid>)
    requires p < |RunOf(steps).sent| && RunOf(steps).sent[p].event.CategoryDeleted?
    ensures var sent := RunOf(steps).sent;
            && Begin(sent[p].call, DoDeleteCategory(id, removed), true) in steps
            && sent[p].event == CategoryDeleted(id)
            && SentBy(sent[..p], sent[p].call) == TagDeletions(removed)
  {
    var s := RunOf(steps);
    var call := s.sent[p].call;
    var before := SentBy(s.sent[..p], call);
    SentBySplitsAt(s.sent, p);
    CallsSendTheirPlan(steps, call);
    assert s.plans[call][|before|] == s.sent[p].event;
    PlansComeFromBegin(steps, call);
    var m, stored :| Begin(call, m, stored) in steps && s.plans[call] == PlanIf(m, stored);
    CategoryDeletionIsLast(m, |before|);
    assert before == Plan(m)[..|before|];
    id, removed := m.id, m.removedTags;
  }

  // ----- publication -----

  /** The event the loop has taken but not handled. */
  function InHand(pc: Pc): seq<Event> {
    if pc.Handling? then [pc.event] else []
  }

  /** The loop handles what it takes, one by one. */
  ghost predicate TakenIsHandled(s: State) {
    s.taken == HandledEvents(s.handled) + InHand(s.pc)
  }

  lemma TakenStaysHandled(s: State, step: Step)
    requires TakenIsHandled(s)
    ensures TakenIsHandled(StepOrWait(s, step))
  {
    if step.Handle? && s.pc.Handling? {
      assert HandledEvents(s.handled + [Handled(s.pc.event, step.db)]) == HandledEvents(s.handled) + [s.pc.event];
    }
  }

  lemma {:induction false} RunsHandleWhatTheyTake(steps: seq<Step>)
    ensures TakenIsHandled(RunOf(steps))
  {
    if steps != [] {
      RunsHandleWhatTheyTake(steps[..|steps| - 1]);
      TakenStaysHandled(RunOf(steps[..|steps| - 1]), steps[|steps| - 1]);
    }
  }

  /** What a step does to the registry of stream k. */
  function OpAt(s: State, step: Step, k: Kind): Option<Op<Message>>
    requires Enabled(s, step)
  {
    match step
    case Handle(db) => if s.pc.event.Stream() == k then Publication(Render(s.pc.event, db)) else None
    case Clean(done) => if CleanOrder(s.pc.next) == k then Some(CleanDone(done)) else None
    case Subscribe(kind, ctx, ch) => if kind == k then Some(Push(ctx, ch)) else None
    case _ => None
  }

  function Publication(m: Option<Message>): Option<Op<Message>> {
    if m.Some? then Some(SendAll(m.value)) else None
  }

  function Extended(ops: seq<Op<Message>>, op: Option<Op<Message>>): seq<Op<Message>> {
    if op.Some? then ops + [op.value] else ops
  }

  lemma WithOpExtends(s: State, on: Kind, op: Op<Message>, k: Kind)
    ensures s.WithOp(on, op).Ops(k) == Extended(s.Ops(k), if on == k then Some(op) else None)
  {
  }

  lemma HandleExtends(s: State, db: Storage, k: Kind)
    requires s.pc.Handling?
    ensures HandledBy(s, db).Ops(k) == Extended(s.Ops(k), OpAt(s, Handle(db), k))
  {
    var m := Render(s.pc.event, db);
    if m.Some? {
      WithOpExtends(s, s.pc.event.Stream(), SendAll(m.value), k);
    }
    assert HandledBy(s, db).registries == PublishOn(s, s.pc.event.Stream(), m).registries;
  }

  lemma StepExtends(s: State, step: Step, k: Kind)
    requires Enabled(s, step)
    ensures Next(s, step).Ops(k) == Extended(s.Ops(k), OpAt(s, step, k))
  {
    match step
    case Handle(db) => HandleExtends(s, db, k);
    case Clean(done) => WithOpExtends(s, CleanOrder(s.pc.next), CleanDone(done), k);
    case Subscribe(kind, ctx, ch) => WithOpExtends(s, kind, Push(ctx, ch), k);
    case _ =>
  }

  /** Each stream publishes exactly what its handled events render to. */
  ghost predicate PublishesHandled(s: State, k: Kind) {
    Published(s.Ops(k)) == Rendered(s.handled, k)
  }

  lemma RenderedGrows(handled: seq<Handled>, h: Handled, k: Kind)
    ensures var m := Render(h.event, h.db);
            Rendered(handled + [h], k) == Rendered(handled, k) + if h.event.Stream() == k && m.Some? then [m.value] else []
  {
    assert (handled + [h])[..|handled|] == handled;
  }

  lemma PublishedExtends(ops: seq<Op<Message>>, op: Option<Op<Message>>)
    ensures Published(Extended(ops, op))
         == Published(ops) + if op.Some? && op.value.SendAll? then [op.value.message] else []
  {
    assert Published(ops) + [] == Published(ops);
    if op.Some? {
      PublishedGrows(ops, op.value);
    }
  }

  lemma StepPublishes(s: State, step: Step, k: Kind)
    requires Enabled(s, step) && PublishesHandled(s, k)
    ensures PublishesHandled(Next(s, step), k)
  {
    StepExtends(s, step, k);
    PublishedExtends(s.Ops(k), OpAt(s, step, k));
    if step.Handle? {
      RenderedGrows(s.handled, Handled(s.pc.event, step.db), k);
      assert Next(s, step).handled == s.handled + [Handled(s.pc.event, step.db)];
    } else {
      assert Next(s, step).handled == s.handled;
      assert Rendered(s.handled, k) + [] == Rendered(s.handled, k);
    }
  }

  lemma {:induction false} RunsPublishWhatTheyHandle(steps: seq<Step>, k: Kind)
    ensures PublishesHandled(RunOf(steps), k)
  {
    if steps != [] {
      var init, step := steps[..|steps| - 1], steps[|steps| - 1];
      RunsPublishWhatTheyHandle(init, k);
      if Enabled(RunOf(init), step) {
        StepPublishes(RunOf(init), step, k);
      }
    }
  }

  // ----- cleaning -----

  /** How often a registry was cleaned. */
  function Cleanings(ops: seq<Op<Message>>): nat {
    if ops == [] then 0 else Cleanings(ops[..|ops| - 1]) + if ops[|ops| - 1].CleanDone? then 1 else 0
  }

  /** The registry's turn in cleanAll. */
  function TurnOf(k: Kind): (i: nat)
    ensures i < REGISTRIES && CleanOrder(i) == k
  {
    match k
    case CreateCategory => 0
    case UpdateCategory => 1
    case DeleteCategory => 2
    case Delete => 3
    case Create => 4
    case Update => 5
    case AddTagToTea => 6
    case DeleteTagFromTea => 7
  }

  lemma CleanOrderIsInjective(i: nat)
    requires i < REGISTRIES
    ensures TurnOf(CleanOrder(i)) == i
  {
  }

  /** The cleaning of registry k that is due for the last handled event. */
  function Due(pc: Pc, k: Kind): nat {
    if pc.Cleaning? && pc.next <= TurnOf(k) then 1 else 0
  }

  /** Every registry has been cleaned once per handled event, but for the one whose cleaning is still due. */
  predicate CleanedOncePerEvent(s: State, k: Kind) {
    && Cleanings(s.Ops(k)) + Due(s.pc, k) == |s.handled|
    && (s.pc.Cleaning? ==> s.pc.next < REGISTRIES)
  }

  lemma CleaningsExtend(ops: seq<Op<Message>>, op: Option<Op<Message>>)
    ensures Cleanings(Extended(ops, op)) == Cleanings(ops) + if op.Some? && op.value.CleanDone? then 1 else 0
  {
    if op.Some? {
      assert (ops + [op.value])[..|ops|] == ops;
    }
  }

  /** Handling an event makes the cleaning of every registry due; cleaning a registry settles it. */
  lemma StepSettles(s: State, step: Step, k: Kind)
    requires Enabled(s, step) && (s.pc.Cleaning? ==> s.pc.next < REGISTRIES)
    ensures var s', op := Next(s, step), OpAt(s, step, k);
            && Due(s'.pc, k) + |s.handled| + (if op.Some? && op.value.CleanDone? then 1 else 0) == Due(s.pc, k) + |s'.handled|
            && (s'.pc.Cleaning? ==> s'.pc.next < REGISTRIES)
  {
    match step
    case Handle(db) => assert HandledBy(s, db).pc == Cleaning(0);
    case Clean(done) => CleanOrderIsInjective(s.pc.next);
    case _ =>
  }

  lemma StepCleans(s: State, step: Step, k: Kind)
    requires Enabled(s, step) && CleanedOncePerEvent(s, k)
    ensures CleanedOncePerEvent(Next(s, step), k)
  {
    StepExtends(s, step, k);
    CleaningsExtend(s.Ops(k), OpAt(s, step, k));
    StepSettles(s, step, k);
  }

  /** After every handled event the loop cleans each of the eight registries, once. */
  lemma {:induction false} RegistriesAreCleaned(steps: seq<Step>, k: Kind)
    ensures CleanedOncePerEvent(RunOf(steps), k)
    ensures RunOf(steps).pc == Selecting ==> Cleanings(RunOf(steps).Ops(k)) == |RunOf(steps).handled|
  {
    if steps != [] {
      var init, step := steps[..|steps| - 1], steps[|steps| - 1];
      RegistriesAreCleaned(init, k);
      if Enabled(RunOf(init), step) {
        StepCleans(RunOf(init), step, k);
      }
    }
  }

  // ----- subscribers -----

  /** Every channel of these operations was made by a Subscribe, each by a different one. */
  ghost predicate FreshChannels(ops: seq<Op<Message>>, channels: set<Chan>) {
    && FreshPushes(ops)
    && forall i :: 0 <= i < |ops| && ops[i].Push? ==> ops[i].ch in channels
  }

  lemma ExtensionKeepsFresh(ops: seq<Op<Message>>, op: Option<Op<Message>>, channels: set<Chan>, channels': set<Chan>)
    requires FreshChannels(ops, channels) && channels <= channels'
    requires op.Some? && op.value.Push? ==> op.value.ch !in channels && op.value.ch in channels'
    ensures FreshChannels(Extended(ops, op), channels')
  {
  }

  lemma StepKeepsFresh(s: State, step: Step, k: Kind)
    requires Enabled(s, step) && FreshChannels(s.Ops(k), s.channels)
    ensures FreshChannels(Next(s, step).Ops(k), Next(s, step).channels)
  {
    StepExtends(s, step, k);
    ExtensionKeepsFresh(s.Ops(k), OpAt(s, step, k), s.channels, Next(s, step).channels);
  }

  lemma {:induction false} RunsHaveFreshChannels(steps: seq<Step>, k: Kind)
    ensures FreshChannels(RunOf(steps).Ops(k), RunOf(steps).channels)
  {
    if steps != [] {
      var init, step := steps[..|steps| - 1], steps[|steps| - 1];
      RunsHaveFreshChannels(init, k);
      if Enabled(RunOf(init), step) {
        StepKeepsFresh(RunOf(init), step, k);
      }
    }
  }

  /** No registry of the manager ever sends on a closed channel or closes one twice. */
  lemma ManagerNeverPanics(steps: seq<Step>, k: Kind)
    ensures Sound(Run(RunOf(steps).Ops(k)))
  {
    RunsHaveFreshChannels(steps, k);
    RunsAreSound(RunOf(steps).Ops(k));
  }

  /** a is the beginning of b. */
  ghost predicate PrefixOf(a: seq<Event>, b: seq<Event>) {
    |a| <= |b| && b[..|a|] == a
  }

  lemma {:induction false} OnStreamSplits(a: seq<Event>, b: seq<Event>, k: Kind)
    ensures OnStream(a + b, k) == OnStream(a, k) + OnStream(b, k)
  {
    if b == [] {
      assert a + b == a;
    } else {
      assert (a + b)[..|a + b| - 1] == a + b[..|b| - 1];
      OnStreamSplits(a, b[..|b| - 1], k);
    }
  }

  /**
    End to end, for every subscription in every run: the messages received are those published between
    the Subscribe (the i-th operation of its registry) and the removal (the k-th, or none yet), and what
    is published on a stream is what its enqueued events render to, in the order they were enqueued.
   */
  lemma SubscribersSeeTheStream(steps: seq<Step>, kind: Kind, i: nat) returns (k: nat)
    requires var ops := RunOf(steps).Ops(kind); i < |ops| && ops[i].Push?
    ensures var s := RunOf(steps); var ops := s.Ops(kind);
            && Served(ops, i, k)
            && Published(ops) == Rendered(s.handled, kind)
            && PrefixOf(OnStream(HandledEvents(s.handled), kind), Produced(s.sent, kind))
  {
    var s := RunOf(steps);
    RunsHaveFreshChannels(steps, kind);
    k := DeliveryIsContiguous(s.Ops(kind), i);
    RunsPublishWhatTheyHandle(steps, kind);
    RunsHandleWhatTheyTake(steps);
    StreamsAreConserved(steps, kind);
    OnStreamSplits(HandledEvents(s.handled), InHand(s.pc), kind);
  }

  lemma RunGrows(steps: seq<Step>, step: Step)
    ensures RunOf(steps + [step]) == StepOrWait(RunOf(steps), step)
  {
    assert (steps + [step])[..|steps|] == steps;
  }

  // ----- the order of publication -----

  lemma {:induction false} ProducedSplits(a: seq<Sent>, b: seq<Sent>, k: Kind)
    ensures Produced(a + b, k) == Produced(a, k) + Produced(b, k)
  {
    if b == [] {
      assert a + b == a;
    } else {
      assert (a + b)[..|a + b| - 1] == a + b[..|b| - 1];
      ProducedSplits(a, b[..|b| - 1], k);
    }
  }

  /** How many events were enqueued on its stream before the i-th one. */
  function Rank(sent: seq<Sent>, i: nat): nat
    requires i < |sent|
  {
    |Produced(sent[..i], sent[i].event.Stream())|
  }

  /** The i-th enqueued event has been handled: its stream has handled more events than were enqueued before it. */
  ghost predicate Passed(s: State, i: nat)
    requires i < |s.sent|
  {
    Rank(s.sent, i) < |OnStream(HandledEvents(s.handled), s.sent[i].event.Stream())|
  }

  lemma ProducedAt(sent: seq<Sent>, i: nat)
    requires i < |sent|
    ensures var k := sent[i].event.Stream();
            Produced(sent, k) == Produced(sent[..i], k) + [sent[i].event] + Produced(sent[i + 1..], k)
  {
    var k := sent[i].event.Stream();
    TakeNext(sent, i);
    ProducedGrows(sent[..i], sent[i], k);
    ProducedSplitsAt(sent, i + 1, k);
  }

  lemma ProducedSplitsAt(sent: seq<Sent>, i: nat, k: Kind)
    requires i <= |sent|
    ensures Produced(sent, k) == Produced(sent[..i], k) + Produced(sent[i..], k)
  {
    assert sent == sent[..i] + sent[i..];
    ProducedSplits(sent[..i], sent[i..], k);
  }

  /** On each stream, handled, in hand and queued make up what was enqueued. */
  lemma StreamParts(steps: seq<Step>, k: Kind)
    ensures var s := RunOf(steps);
            Produced(s.sent, k) == OnStream(HandledEvents(s.handled), k) + OnStream(InHand(s.pc), k) + s.Queue(k)
  {
    var s := RunOf(steps);
    RunsHandleWhatTheyTake(steps);
    StreamsAreConserved(steps, k);
    OnStreamSplits(HandledEvents(s.handled), InHand(s.pc), k);
  }

  lemma OnStreamOfOne(e: Event, k: Kind)
    ensures OnStream([e], k) == if e.Stream() == k then [e] else []
  {
    OnStreamGrows([], e, k);
    assert [] + [e] == [e];
  }

  /** Passed means what it says: the event stands at its rank among those handled. */
  lemma PassedIsHandled(steps: seq<Step>, i: nat)
    requires i < |RunOf(steps).sent| && Passed(RunOf(steps), i)
    ensures var s := RunOf(steps);
            OnStream(HandledEvents(s.handled), s.sent[i].event.Stream())[Rank(s.sent, i)] == s.sent[i].event
  {
    var s, r := RunOf(steps), Rank(RunOf(steps).sent, i);
    var k := s.sent[i].event.Stream();
    StreamParts(steps, k);
    ProducedAt(s.sent, i);
    assert Produced(s.sent, k)[r] == s.sent[i].event;
    assert Produced(s.sent, k)[r] == OnStream(HandledEvents(s.handled), k)[r];
  }

  /** While none of its events is in hand, a stream has handled everything enqueued exactly if its queue is empty. */
  lemma AllHandledIffQueueEmpty(steps: seq<Step>, k: Kind)
    requires var s := RunOf(steps); s.pc.Handling? ==> s.pc.event.Stream() != k
    ensures var s := RunOf(steps);
            OnStream(HandledEvents(s.handled), k) == Produced(s.sent, k) <==> s.Queue(k) == []
  {
    var s := RunOf(steps);
    StreamParts(steps, k);
    if s.pc.Handling? {
      OnStreamOfOne(s.pc.event, k);
    }
  }

  /** And the i-th enqueued event has been handled exactly if the queue holds only later ones. */
  lemma PassedIffQueueIsLater(steps: seq<Step>, i: nat)
    requires i < |RunOf(steps).sent|
    requires var s := RunOf(steps); s.pc.Handling? ==> s.pc.event.Stream() != s.sent[i].event.Stream()
    ensures var s := RunOf(steps); var k := s.sent[i].event.Stream();
            Passed(s, i) <==> |s.Queue(k)| <= |Produced(s.sent[i + 1..], k)|
  {
    var s := RunOf(steps);
    var k := s.sent[i].event.Stream();
    StreamParts(steps, k);
    if s.pc.Handling? {
      OnStreamOfOne(s.pc.event, k);
    }
    ProducedAt(s.sent, i);
  }

  lemma EarlierPassedToo(s: State, i: nat, j: nat)
    requires i <= j < |s.sent| && s.sent[i].event.Stream() == s.sent[j].event.Stream() && Passed(s, j)
    ensures Passed(s, i)
  {
    var k := s.sent[i].event.Stream();
    assert s.sent[..j] == s.sent[..i] + s.sent[i..j];
    ProducedSplits(s.sent[..i], s.sent[i..j], k);
  }

  lemma {:induction false} SentByMembers(sent: seq<Sent>, call: nat, i: nat)
    requires i < |sent| && sent[i].call == call
    ensures sent[i].event in SentBy(sent, call)
  {
    if i < |sent| - 1 {
      SentByMembers(sent[..|sent| - 1], call, i);
    }
  }

  /** What the call of a category deletion enqueued before it are tag deletions. */
  lemma BeforeCategoryAreTags(steps: seq<Step>, p: nat, i: nat)
    requires var sent := RunOf(steps).sent; i < p < |sent| && sent[p].event.CategoryDeleted? && sent[i].call == sent[p].call
    ensures RunOf(steps).sent[i].event.TagDeleted?
  {
    var sent := RunOf(steps).sent;
    var id, removed := CategoryDeletedAfterItsTags(steps, p);
    SentByMembers(sent[..p], sent[p].call, i);
    assert forall e :: e in TagDeletions(removed) ==> e.TagDeleted?;
  }

  /** The call of the p-th event sent its previous event as the q-th. */
  predicate PreviousOfCall(sent: seq<Sent>, p: nat, q: nat)
    requires p < |sent|
  {
    q < p && sent[q].call == sent[p].call && forall i :: q < i < p ==> sent[i].call != sent[p].call
  }

  lemma {:induction false} PreviousExists(sent: seq<Sent>, p: nat, i: nat) returns (q: nat)
    requires i < p < |sent| && sent[i].call == sent[p].call
    ensures i <= q && PreviousOfCall(sent, p, q)
  {
    q := i;
    for j := i + 1 to p
      invariant i <= q < j && sent[q].call == sent[p].call
      invariant forall l :: q < l < j ==> sent[l].call != sent[p].call
    {
      if sent[j].call == sent[p].call {
        q := j;
      }
    }
  }

  /** Every tag deletion of the call that sent the p-th event has been handled. */
  ghost predicate TagsPassed(s: State, p: nat)
    requires p < |s.sent|
  {
    forall i :: 0 <= i < p && s.sent[i].call == s.sent[p].call ==> Passed(s, i)
  }

  /** The tag deletions queued were all enqueued after the call's last one. */
  ghost predicate QueueIsLater(s: State, p: nat)
    requires p < |s.sent|
  {
    forall q: nat :: PreviousOfCall(s.sent, p, q) ==> |s.Queue(Delete)| <= |Produced(s.sent[q + 1..], Delete)|
  }

  /**
    When a category deletion is published after those of its tags: in every state of every run in which
    no tag deletion is in hand, the tags of the category deletion enqueued as the p-th event have all been
    handled if and only if the queue of tag deletions holds only later ones. In particular an empty
    queue suffices. The state may be the one in which the loop selects the category deletion, or the one
    in which it publishes it.
   */
  lemma TagsPassedIffQueueIsLater(steps: seq<Step>, p: nat)
    requires var s := RunOf(steps); p < |s.sent| && s.sent[p].event.CategoryDeleted?
    requires var s := RunOf(steps); s.pc.Handling? ==> s.pc.event.Stream() != Delete
    ensures TagsPassed(RunOf(steps), p) <==> QueueIsLater(RunOf(steps), p)
    ensures RunOf(steps).Queue(Delete) == [] ==> TagsPassed(RunOf(steps), p)
  {
    var s := RunOf(steps);
    forall q: nat | PreviousOfCall(s.sent, p, q)
      ensures Passed(s, q) <==> |s.Queue(Delete)| <= |Produced(s.sent[q + 1..], Delete)|
    {
      BeforeCategoryAreTags(steps, p, q);
      PassedIffQueueIsLater(steps, q);
    }
    if QueueIsLater(s, p) {
      forall i: nat | i < p && s.sent[i].call == s.sent[p].call
        ensures Passed(s, i)
      {
        var q := PreviousExists(s.sent, p, i);
        BeforeCategoryAreTags(steps, p, i);
        BeforeCategoryAreTags(steps, p, q);
        EarlierPassedToo(s, i, q);
      }
    }
  }

  /** The i-th enqueued event is the one in hand, which the next Handle publishes. */
  ghost predicate PublishesNext(s: State, i: nat)
    requires i < |s.sent|
  {
    s.pc == Handling(s.sent[i].event) && Rank(s.sent, i) == |OnStream(HandledEvents(s.handled), s.sent[i].event.Stream())|
  }

  lemma {:induction false} NthProduced(sent: seq<Sent>, k: Kind, r: nat) returns (i: nat)
    requires r < |Produced(sent, k)|
    ensures i < |sent| && sent[i].event == Produced(sent, k)[r] && sent[i].event.Stream() == k && Rank(sent, i) == r
  {
    var init, x := sent[..|sent| - 1], sent[|sent| - 1];
    if r < |Produced(init, k)| {
      i := NthProduced(init, k, r);
      assert sent[..i] == init[..i];
    } else {
      i := |init|;
    }
  }

  /** Whatever the loop has in hand was enqueued; so at each publication the position exists. */
  lemma PublishedWasSent(steps: seq<Step>) returns (i: nat)
    requires RunOf(steps).pc.Handling?
    ensures i < |RunOf(steps).sent| && PublishesNext(RunOf(steps), i)
  {
    var s := RunOf(steps);
    var k := s.pc.event.Stream();
    StreamParts(steps, k);
    OnStreamOfOne(s.pc.event, k);
    i := NthProduced(s.sent, k, |OnStream(HandledEvents(s.handled), k)|);
  }

  /** A category deletion is published after those of its tags if and only if the tag deletions still queued came later. */
  lemma CategoryPublishedLastIff(steps: seq<Step>) returns (p: nat)
    requires RunOf(steps).pc.Handling? && RunOf(steps).pc.event.CategoryDeleted?
    ensures p < |RunOf(steps).sent| && PublishesNext(RunOf(steps), p)
    ensures TagsPassed(RunOf(steps), p) <==> QueueIsLater(RunOf(steps), p)
  {
    p := PublishedWasSent(steps);
    TagsPassedIffQueueIsLater(steps, p);
  }

  // ----- runs that publish a category first -----

  lemma EnqueueHead(steps: seq<Step>, e: Event, rest: seq<Event>)
    requires var s := RunOf(steps); 0 in s.todo && s.todo[0] == [e] + rest && s.Queue(e.Stream()) == []
    ensures var s, s' := RunOf(steps), RunOf(steps + [Enqueue(0)]);
            && 0 in s'.todo && s'.todo[0] == rest && s'.handled == s.handled && s'.pc == s.pc
            && s'.queues == s.queues[e.Stream() := [e]]
  {
    var s := RunOf(steps);
    RunGrows(steps, Enqueue(0));
    assert ([e] + rest)[1..] == rest;
    assert s.Queue(e.Stream()) + [e] == [e];
  }

  lemma TakeSole(steps: seq<Step>, k: Kind, e: Event)
    requires var s := RunOf(steps); s.pc == Selecting && s.Queue(k) == [e]
    ensures var s, s' := RunOf(steps), RunOf(steps + [Take(k)]);
            s'.pc == Handling(e) && s'.handled == s.handled && s'.todo == s.todo && s'.queues == s.queues[k := []]
  {
    RunGrows(steps, Take(k));
    assert [e][1..] == [];
  }

  lemma HandleOne(steps: seq<Step>, e: Event, db: Storage)
    requires RunOf(steps).pc == Handling(e)
    ensures var s, s' := RunOf(steps), RunOf(steps + [Handle(db)]);
            && s'.pc == Cleaning(0) && s'.handled == s.handled + [Handled(e, db)]
            && s'.todo == s.todo && s'.queues == s.queues
  {
    var s := RunOf(steps);
    RunGrows(steps, Handle(db));
    assert PublishOn(s, e.Stream(), Render(e, db)).queues == s.queues;
    assert PublishOn(s, e.Stream(), Render(e, db)).todo == s.todo;
    assert PublishOn(s, e.Stream(), Render(e, db)).handled == s.handled;
  }

  lemma {:induction false} CleanUp(steps: seq<Step>, i: nat) returns (after: seq<Step>)
    requires RunOf(steps).pc == Cleaning(i) && i < REGISTRIES
    ensures var s, s' := RunOf(steps), RunOf(after);
            s'.pc == Selecting && s'.handled == s.handled && s'.todo == s.todo && s'.queues == s.queues
    ensures steps <= after
    decreases REGISTRIES - i
  {
    after := steps + [Clean({})];
    RunGrows(steps, Clean({}));
    if i + 1 < REGISTRIES {
      after := CleanUp(after, i + 1);
    }
  }

  /** The loop is idle and call 0 has rest to send; handled is what has been handled. */
  ghost predicate Draining(s: State, rest: seq<Event>, handled: seq<Handled>) {
    && s.pc == Selecting && s.handled == handled
    && 0 in s.todo && s.todo[0] == rest
    && s.Queue(Delete) == [] && s.Queue(DeleteCategory) == []
  }

  /** Enqueue, take, handle and clean up after one tag deletion. */
  lemma DrainOne(steps: seq<Step>, tag: Uuid, rest: seq<Event>, handled: seq<Handled>, db: Storage) returns (after: seq<Step>)
    requires Draining(RunOf(steps), [TagDeleted(tag)] + rest, handled)
    ensures steps <= after && Draining(RunOf(after), rest, handled + [Handled(TagDeleted(tag), db)])
  {
    TakeTagDeletion(steps, tag, rest);
    var taken := steps + [Enqueue(0)] + [Take(Delete)];
    HandleOne(taken, TagDeleted(tag), db);
    after := CleanUp(taken + [Handle(db)], 0);
  }

  lemma TakeTagDeletion(steps: seq<Step>, tag: Uuid, rest: seq<Event>)
    requires var s := RunOf(steps);
             s.pc == Selecting && 0 in s.todo && s.todo[0] == [TagDeleted(tag)] + rest && s.Queue(Delete) == []
    ensures var s, s' := RunOf(steps), RunOf(steps + [Enqueue(0)] + [Take(Delete)]);
            && s'.pc == Handling(TagDeleted(tag)) && s'.handled == s.handled && 0 in s'.todo && s'.todo[0] == rest
            && s'.Queue(Delete) == [] && s'.Queue(DeleteCategory) == s.Queue(DeleteCategory)
  {
    EnqueueHead(steps, TagDeleted(tag), rest);
    TakeSole(steps + [Enqueue(0)], Delete, TagDeleted(tag));
  }

  function Deleted(tags: seq<Uuid>, db: Storage): seq<Handled> {
    seq(|tags|, i requires 0 <= i < |tags| => Handled(TagDeleted(tags[i]), db))
  }

  lemma {:induction false} DrainAll(steps: seq<Step>, tags: seq<Uuid>, rest: seq<Event>, handled: seq<Handled>, db: Storage)
      returns (after: seq<Step>)
    requires Draining(RunOf(steps), TagDeletions(tags) + rest, handled)
    ensures steps <= after && Draining(RunOf(after), rest, handled + Deleted(tags, db))
    decreases |tags|
  {
    if tags == [] {
      assert TagDeletions(tags) + rest == rest && handled + Deleted(tags, db) == handled;
      after := steps;
    } else {
      assert TagDeletions(tags) + rest == [TagDeleted(tags[0])] + (TagDeletions(tags[1..]) + rest);
      var one := [Handled(TagDeleted(tags[0]), db)];
      after := DrainOne(steps, tags[0], TagDeletions(tags[1..]) + rest, handled, db);
      after := DrainAll(after, tags[1..], rest, handled + one, db);
      assert handled + one + Deleted(tags[1..], db) == handled + Deleted(tags, db);
    }
  }

  /** With its last tag deletion queued, the category deletion is handled first. */
  lemma Overtake(steps: seq<Step>, tag: Uuid, category: Uuid, handled: seq<Handled>, db: Storage) returns (after: seq<Step>)
    requires Draining(RunOf(steps), [TagDeleted(tag), CategoryDeleted(category)], handled)
    ensures steps <= after
    ensures var s := RunOf(after);
            && s.handled == handled + [Handled(CategoryDeleted(category), db)]
            && 0 in s.todo && s.todo[0] == [] && s.Queue(Delete) == [TagDeleted(tag)]
  {
    var e, c := TagDeleted(tag), CategoryDeleted(category);
    assert [e, c] == [e] + [c] && [c] == [c] + [];
    EnqueueHead(steps, e, [c]);
    var once := steps + [Enqueue(0)];
    EnqueueHead(once, c, []);
    var twice := once + [Enqueue(0)];
    TakeSole(twice, DeleteCategory, c);
    HandleOne(twice + [Take(DeleteCategory)], c, db);
    after := twice + [Take(DeleteCategory)] + [Handle(db)];
  }

  function IdMessages(ids: seq<Uuid>): seq<Message> {
    seq(|ids|, i requires 0 <= i < |ids| => IdMessage(ids[i]))
  }

  lemma {:induction false} RenderedDeletions(tags: seq<Uuid>, db: Storage, k: Kind)
    ensures Rendered(Deleted(tags, db), k) == if k == Delete then IdMessages(tags) else []
  {
    if tags != [] {
      var init, h := tags[..|tags| - 1], Handled(TagDeleted(tags[|tags| - 1]), db);
      assert Deleted(tags, db) == Deleted(init, db) + [h];
      RenderedGrows(Deleted(init, db), h, k);
      RenderedDeletions(init, db, k);
    }
  }

  /**
    The enqueuing order of a category deletion and its tags is not the publishing order: for every
    category with at least one tag there is a run that enqueues all of them and publishes the category's
    deletion without that of the last tag.
   */
  lemma PublishingMayInvert(category: Uuid, removed: seq<Uuid>) returns (steps: seq<Step>)
    requires removed != []
    ensures Begin(0, DoDeleteCategory(category, removed), true) in steps
    ensures var s, init := RunOf(steps), removed[..|removed| - 1];
            && SentBy(s.sent, 0) == TagDeletions(removed) + [CategoryDeleted(category)]
            && Published(s.Ops(DeleteCategory)) == [IdMessage(category)]
            && Published(s.Ops(Delete)) == IdMessages(init)
  {
    var init, last := removed[..|removed| - 1], removed[|removed| - 1];
    steps := AllButLastHandled(category, removed, NOTHING_STORED);
    steps := Overtake(steps, last, category, Deleted(init, NOTHING_STORED), NOTHING_STORED);
    FirstCallDone(steps, DoDeleteCategory(category, removed));
    PublishedBoth(steps, init, category, NOTHING_STORED);
  }

  lemma PublishedBoth(steps: seq<Step>, tags: seq<Uuid>, category: Uuid, db: Storage)
    requires RunOf(steps).handled == Deleted(tags, db) + [Handled(CategoryDeleted(category), db)]
    ensures Published(RunOf(steps).Ops(Delete)) == IdMessages(tags)
    ensures Published(RunOf(steps).Ops(DeleteCategory)) == [IdMessage(category)]
  {
    PublishedThen(steps, tags, category, db, Delete);
    PublishedThen(steps, tags, category, db, DeleteCategory);
  }

  /** A call that has begun first and has nothing left to send has sent its plan. */
  lemma FirstCallDone(steps: seq<Step>, m: Mutation)
    requires [Begin(0, m, true)] <= steps
    requires 0 in RunOf(steps).todo && RunOf(steps).todo[0] == []
    ensures SentBy(RunOf(steps).sent, 0) == Plan(m)
    ensures Begin(0, m, true) in steps
  {
    CallsSendTheirPlan(steps, 0);
    PlanOfFirstCall(steps, m);
    assert SentBy(RunOf(steps).sent, 0) + [] == SentBy(RunOf(steps).sent, 0);
    assert steps[0] == [Begin(0, m, true)][0];
  }

  /** A run that deletes a category and has handled the deletions of all its tags but the last. */
  lemma AllButLastHandled(category: Uuid, removed: seq<Uuid>, db: Storage) returns (steps: seq<Step>)
    requires removed != []
    ensures [Begin(0, DoDeleteCategory(category, removed), true)] <= steps
    ensures var init, last := removed[..|removed| - 1], removed[|removed| - 1];
            Draining(RunOf(steps), [TagDeleted(last), CategoryDeleted(category)], Deleted(init, db))
  {
    var m := DoDeleteCategory(category, removed);
    var init, last := removed[..|removed| - 1], removed[|removed| - 1];
    var start := [] + [Begin(0, m, true)];
    RunGrows([], Begin(0, m, true));
    assert Plan(m) == TagDeletions(init) + [TagDeleted(last), CategoryDeleted(category)];
    steps := DrainAll(start, init, [TagDeleted(last), CategoryDeleted(category)], [], db);
    assert [] + Deleted(init, db) == Deleted(init, db);
  }

  lemma RenderedThen(tags: seq<Uuid>, category: Uuid, db: Storage, k: Kind)
    ensures Rendered(Deleted(tags, db) + [Handled(CategoryDeleted(category), db)], k)
         == if k == Delete then IdMessages(tags) else if k == DeleteCategory then [IdMessage(category)] else []
  {
    RenderedGrows(Deleted(tags, db), Handled(CategoryDeleted(category), db), k);
    RenderedDeletions(tags, db, k);
    if k == DeleteCategory {
      assert [] + [IdMessage(category)] == [IdMessage(category)];
    } else {
      assert Rendered(Deleted(tags, db), k) + [] == Rendered(Deleted(tags, db), k);
    }
  }

  lemma PublishedThen(steps: seq<Step>, tags: seq<Uuid>, category: Uuid, db: Storage, k: Kind)
    requires RunOf(steps).handled == Deleted(tags, db) + [Handled(CategoryDeleted(category), db)]
    ensures Published(RunOf(steps).Ops(k))
         == if k == Delete then IdMessages(tags) else if k == DeleteCategory then [IdMessage(category)] else []
  {
    RunsPublishWhatTheyHandle(steps, k);
    RenderedThen(tags, category, db, k);
  }

  /** A run that begins with call 0 keeps its plan. */
  lemma {:induction false} PlanOfFirstCall(steps: seq<Step>, m: Mutation)
    requires [Begin(0, m, true)] <= steps
    ensures 0 in RunOf(steps).plans && RunOf(steps).plans[0] == Plan(m)
  {
    var init, step := steps[..|steps| - 1], steps[|steps| - 1];
    if init == [] {
      assert RunOf(init) == INITIAL;
    } else {
      PlanOfFirstCall(init, m);
      if Enabled(RunOf(init), step) {
        PlansStay(RunOf(init), step, 0);
      }
    }
  }
}
