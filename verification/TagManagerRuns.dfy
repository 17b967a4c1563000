/**
  The tag manager from end to end: which messages a mutator call makes subscribers hear, and which
  calls the messages of a stream come from.
 */
module TagManagerRuns {
  import opened Basics
  import opened Subscribers
  import opened TagManager

  // ----- what a run adds -----

  /** b continues a: histories and registries grow at the end, plans stay. */
  ghost predicate Continues(a: State, b: State) {
    && a.sent <= b.sent && a.handled <= b.handled
    && (forall k: Kind :: a.Ops(k) <= b.Ops(k))
    && (forall call :: call in a.plans ==> call in b.plans && b.plans[call] == a.plans[call])
  }

  lemma StepContinues(s: State, step: Step)
    requires Enabled(s, step)
    ensures Continues(s, Next(s, step))
  {
    forall k: Kind
      ensures s.Ops(k) <= Next(s, step).Ops(k)
    {
      StepExtends(s, step, k);
    }
    forall call | call in s.plans
      ensures call in Next(s, step).plans && Next(s, step).plans[call] == s.plans[call]
    {
      PlansStay(s, step, call);
    }
    if step.Handle? {
      assert Next(s, step).handled == s.handled + [Handled(s.pc.event, step.db)];
    }
  }

  lemma ContinuesIsTransitive(a: State, b: State, c: State)
    requires Continues(a, b) && Continues(b, c)
    ensures Continues(a, c)
  {
  }

  lemma {:induction false} RunsContinue(pre: seq<Step>, post: seq<Step>)
    ensures Continues(RunOf(pre), RunOf(pre + post))
  {
    if post == [] {
      assert pre + post == pre;
    } else {
      var init, step := post[..|post| - 1], post[|post| - 1];
      assert pre + post == pre + init + [step];
      RunsContinue(pre, init);
      TagManager.RunGrows(pre + init, step);
      if Enabled(RunOf(pre + init), step) {
        StepContinues(RunOf(pre + init), step);
        ContinuesIsTransitive(RunOf(pre), RunOf(pre + init), RunOf(pre + post));
      }
    }
  }

  // ----- what a call sends -----

  /** The plan of a call, once begun. */
  lemma BegunPlan(pre: seq<Step>, call: nat, m: Mutation, stored: bool, post: seq<Step>)
    requires call !in RunOf(pre).plans
    ensures var s := RunOf(pre + [Begin(call, m, stored)] + post);
            call in s.plans && s.plans[call] == PlanIf(m, stored)
  {
    TagManager.RunGrows(pre, Begin(call, m, stored));
    RunsContinue(pre + [Begin(call, m, stored)], post);
  }

  lemma {:induction false} DeletionsOnStream(removed: seq<Uuid>, k: Kind)
    ensures OnStream(TagDeletions(removed), k) == if k == Delete then TagDeletions(removed) else []
  {
    if removed != [] {
      var init, e := removed[..|removed| - 1], TagDeleted(removed[|removed| - 1]);
      assert TagDeletions(removed) == TagDeletions(init) + [e];
      OnStreamGrows(TagDeletions(init), e, k);
      DeletionsOnStream(init, k);
    }
  }

  /**
    What each of the mutators has sent on each queue once it has returned: its own event on its own
    queue and nothing elsewhere. A call that failed in storage has sent nothing.
   */
  lemma MutatorSends(pre: seq<Step>, call: nat, m: Mutation, stored: bool, post: seq<Step>, k: Kind)
    requires call !in RunOf(pre).plans
    requires var s := RunOf(pre + [Begin(call, m, stored)] + post); call in s.todo && s.todo[call] == []
    ensures var sent := OnStream(SentBy(RunOf(pre + [Begin(call, m, stored)] + post).sent, call), k);
            if !stored then sent == []
            else match m
              case DoCreate(tag) => sent == if k == Create then [TagCreated(tag)] else []
              case DoUpdate(tag) => sent == if k == Update then [TagUpdated(tag)] else []
              case DoChangeCategory(tag) => sent == if k == Update then [TagUpdated(tag)] else []
              case DoDelete(id) => sent == if k == Delete then [TagDeleted(id)] else []
              case DoCreateCategory(category) => sent == if k == CreateCategory then [CategoryCreated(category)] else []
              case DoUpdateCategory(id, name) => sent == if k == UpdateCategory then [CategoryUpdated(Category(id, name))] else []
              case DoDeleteCategory(id, removed) =>
                sent == (if k == DeleteCategory then [CategoryDeleted(id)]
                         else if k == Delete then TagDeletions(removed)
                         else [])
              case DoAddTagToTea(tea, _) => sent == if k == AddTagToTea then [TagAddedToTea(tea)] else []
              case DoDeleteTagFromTea(tea, _) => sent == if k == DeleteTagFromTea then [TagRemovedFromTea(tea)] else []
  {
    CallSendsPlan(pre, call, m, stored, post);
    if stored {
      PlanOnStream(m, k);
    }
  }

  /** What a plan puts on one queue, spelled out for each mutator. */
  lemma PlanSpelledOut(m: Mutation, k: Kind, sent: seq<Event>)
    requires if m.DoDeleteCategory?
             then sent == if k == DeleteCategory then [CategoryDeleted(m.id)] else if k == Delete then TagDeletions(m.removedTags) else []
             else sent == if Plan(m)[0].Stream() == k then [Plan(m)[0]] else []
    ensures match m
            case DoCreate(tag) => sent == if k == Create then [TagCreated(tag)] else []
            case DoUpdate(tag) => sent == if k == Update then [TagUpdated(tag)] else []
            case DoChangeCategory(tag) => sent == if k == Update then [TagUpdated(tag)] else []
            case DoDelete(id) => sent == if k == Delete then [TagDeleted(id)] else []
            case DoCreateCategory(category) => sent == if k == CreateCategory then [CategoryCreated(category)] else []
            case DoUpdateCategory(id, name) => sent == if k == UpdateCategory then [CategoryUpdated(Category(id, name))] else []
            case DoDeleteCategory(id, removed) =>
              sent == (if k == DeleteCategory then [CategoryDeleted(id)]
                       else if k == Delete then TagDeletions(removed)
                       else [])
            case DoAddTagToTea(tea, _) => sent == if k == AddTagToTea then [TagAddedToTea(tea)] else []
            case DoDeleteTagFromTea(tea, _) => sent == if k == DeleteTagFromTea then [TagRemovedFromTea(tea)] else []
  {
  }

  lemma PlanOnStream(m: Mutation, k: Kind)
    ensures var sent := OnStream(Plan(m), k);
            match m
            case DoCreate(tag) => sent == if k == Create then [TagCreated(tag)] else []
            case DoUpdate(tag) => sent == if k == Update then [TagUpdated(tag)] else []
            case DoChangeCategory(tag) => sent == if k == Update then [TagUpdated(tag)] else []
            case DoDelete(id) => sent == if k == Delete then [TagDeleted(id)] else []
            case DoCreateCategory(category) => sent == if k == CreateCategory then [CategoryCreated(category)] else []
            case DoUpdateCategory(id, name) => sent == if k == UpdateCategory then [CategoryUpdated(Category(id, name))] else []
            case DoDeleteCategory(id, removed) =>
              sent == (if k == DeleteCategory then [CategoryDeleted(id)]
                       else if k == Delete then TagDeletions(removed)
                       else [])
            case DoAddTagToTea(tea, _) => sent == if k == AddTagToTea then [TagAddedToTea(tea)] else []
            case DoDeleteTagFromTea(tea, _) => sent == if k == DeleteTagFromTea then [TagRemovedFromTea(tea)] else []
  {
    if m.DoDeleteCategory? {
      CategoryDeletionOnStream(m.id, m.removedTags, k);
    } else {
      assert Plan(m) == [Plan(m)[0]];
      OnStreamOfOne(Plan(m)[0], k);
    }
    PlanSpelledOut(m, k, OnStream(Plan(m), k));
  }

  lemma CategoryDeletionOnStream(id: Uuid, removed: seq<Uuid>, k: Kind)
    ensures OnStream(TagDeletions(removed) + [CategoryDeleted(id)], k)
         == if k == DeleteCategory then [CategoryDeleted(id)] else if k == Delete then TagDeletions(removed) else []
  {
    var deletions := TagDeletions(removed);
    OnStreamGrows(deletions, CategoryDeleted(id), k);
    DeletionsOnStream(removed, k);
    OneMoreOrNone(OnStream(deletions, k), CategoryDeleted(id), k == DeleteCategory);
    assert k == DeleteCategory ==> OnStream(deletions, k) == [];
  }

  lemma OneMoreOrNone(events: seq<Event>, e: Event, one: bool)
    ensures events + (if one then [e] else []) == if !one then events else events + [e]
    ensures one && events == [] ==> events + [e] == [e]
  {
  }

  lemma CallSendsPlan(pre: seq<Step>, call: nat, m: Mutation, stored: bool, post: seq<Step>)
    requires call !in RunOf(pre).plans
    requires var s := RunOf(pre + [Begin(call, m, stored)] + post); call in s.todo && s.todo[call] == []
    ensures SentBy(RunOf(pre + [Begin(call, m, stored)] + post).sent, call) == PlanIf(m, stored)
  {
    var steps := pre + [Begin(call, m, stored)] + post;
    BegunPlan(pre, call, m, stored, post);
    CallsSendTheirPlan(steps, call);
    assert SentBy(RunOf(steps).sent, call) + [] == SentBy(RunOf(steps).sent, call);
  }

  // ----- from the queue to the subscribers -----

  lemma {:induction false} SentAt(sent: seq<Sent>, call: nat, e: Event) returns (i: nat)
    requires e in SentBy(sent, call)
    ensures i < |sent| && sent[i] == Sent(call, e)
  {
    var init, x := sent[..|sent| - 1], sent[|sent| - 1];
    if x == Sent(call, e) {
      i := |init|;
    } else {
      i := SentAt(init, call, e);
    }
  }

  lemma {:induction false} OnStreamMembers(events: seq<Event>, k: Kind, e: Event)
    ensures e in OnStream(events, k) <==> e in events && e.Stream() == k
  {
    if events != [] {
      var init, last := events[..|events| - 1], events[|events| - 1];
      assert events == init + [last];
      OnStreamMembers(init, k, e);
    }
  }

  lemma {:induction false} ProducedMembers(sent: seq<Sent>, k: Kind, i: nat)
    requires i < |sent| && sent[i].event.Stream() == k
    ensures sent[i].event in Produced(sent, k)
  {
    if i < |sent| - 1 {
      ProducedMembers(sent[..|sent| - 1], k, i);
    }
  }

  lemma {:induction false} RenderedSplits(a: seq<Handled>, b: seq<Handled>, k: Kind)
    ensures Rendered(a + b, k) == Rendered(a, k) + Rendered(b, k)
  {
    if b == [] {
      assert a + b == a;
    } else {
      assert (a + b)[..|a + b| - 1] == a + b[..|b| - 1];
      RenderedSplits(a, b[..|b| - 1], k);
    }
  }

  lemma {:induction false} RenderedMembers(handled: seq<Handled>, k: Kind, x: Message)
    ensures x in Rendered(handled, k)
       <==> exists h :: h in handled && h.event.Stream() == k && Render(h.event, h.db) == Some(x)
  {
    if handled != [] {
      var init, last := handled[..|handled| - 1], handled[|handled| - 1];
      assert handled == init + [last];
      RenderedMembers(init, k, x);
    }
  }

  lemma {:induction false} PublishedSplits(a: seq<Op<Message>>, b: seq<Op<Message>>)
    ensures Published(a + b) == Published(a) + Published(b)
  {
    if b == [] {
      assert a + b == a;
    } else {
      assert (a + b)[..|a + b| - 1] == a + b[..|b| - 1];
      PublishedSplits(a, b[..|b| - 1]);
    }
  }

  lemma SuffixContains<X>(a: seq<X>, b: seq<X>, c: seq<X>, d: seq<X>, x: X)
    requires a + b == c + d && |c| <= |a| && x in b
    ensures x in d
  {
    var r :| 0 <= r < |b| && b[r] == x;
    assert (a + b)[|a| + r] == x;
    assert (c + d)[|a| + r] == d[|a| + r - |c|];
  }

  /** Where the loop had got to by then, and what it has handled since. */
  function HandledSince(a: State, b: State): seq<Handled>
    requires Continues(a, b)
  {
    b.handled[|a.handled|..]
  }

  /** What was enqueued after some moment has been handled after it, once its queue is empty and the loop idle. */
  lemma EnqueuedThenHandled(pre: seq<Step>, post: seq<Step>, i: nat)
    requires Continues(RunOf(pre), RunOf(pre + post))
    requires var s := RunOf(pre + post); |RunOf(pre).sent| <= i < |s.sent| && s.pc == Selecting && s.Queue(s.sent[i].event.Stream()) == []
    ensures exists h :: h in HandledSince(RunOf(pre), RunOf(pre + post)) && h.event == RunOf(pre + post).sent[i].event
  {
    var a, b := RunOf(pre), RunOf(pre + post);
    var n, k := |a.sent|, b.sent[i].event.Stream();
    assert b.sent[n..][i - n] == b.sent[i];
    ProducedMembers(b.sent[n..], k, i - n);
    ProducedThenHandled(pre, post, k, b.sent[i].event);
  }

  lemma ProducedThenHandled(pre: seq<Step>, post: seq<Step>, k: Kind, e: Event)
    requires Continues(RunOf(pre), RunOf(pre + post))
    requires var s := RunOf(pre + post); s.pc == Selecting && s.Queue(k) == []
    requires e in Produced(RunOf(pre + post).sent[|RunOf(pre).sent|..], k)
    ensures exists h :: h in HandledSince(RunOf(pre), RunOf(pre + post)) && h.event == e
  {
    var a, b := RunOf(pre), RunOf(pre + post);
    var rest := HandledSince(a, b);
    AllHandledIffQueueEmpty(pre + post, k);
    StreamParts(pre, k);
    EventsSplit(a, b, k);
    SuffixContains(Produced(a.sent, k), Produced(b.sent[|a.sent|..], k),
                   OnStream(HandledEvents(a.handled), k), OnStream(HandledEvents(rest), k), e);
    OnStreamMembers(HandledEvents(rest), k, e);
    HandledEventsMembers(rest, e);
  }

  lemma EventsSplit(a: State, b: State, k: Kind)
    requires Continues(a, b)
    ensures Produced(b.sent, k) == Produced(a.sent, k) + Produced(b.sent[|a.sent|..], k)
    ensures OnStream(HandledEvents(b.handled), k)
         == OnStream(HandledEvents(a.handled), k) + OnStream(HandledEvents(HandledSince(a, b)), k)
  {
    var rest := HandledSince(a, b);
    assert b.sent == a.sent + b.sent[|a.sent|..];
    ProducedSplits(a.sent, b.sent[|a.sent|..], k);
    assert b.handled == a.handled + rest;
    assert HandledEvents(b.handled) == HandledEvents(a.handled) + HandledEvents(rest);
    OnStreamSplits(HandledEvents(a.handled), HandledEvents(rest), k);
  }

  lemma HandledEventsMembers(handled: seq<Handled>, e: Event)
    requires e in HandledEvents(handled)
    ensures exists h :: h in handled && h.event == e
  {
    var j :| 0 <= j < |handled| && HandledEvents(handled)[j] == e;
    assert handled[j] in handled;
  }

  /** What is handled since some moment is published since then. */
  lemma HandledThenPublished(pre: seq<Step>, post: seq<Step>, k: Kind)
    requires Continues(RunOf(pre), RunOf(pre + post))
    ensures var a, b := RunOf(pre), RunOf(pre + post);
            Published(b.Ops(k)[|a.Ops(k)|..]) == Rendered(HandledSince(a, b), k)
  {
    var a, b := RunOf(pre), RunOf(pre + post);
    RunsPublishWhatTheyHandle(pre, k);
    RunsPublishWhatTheyHandle(pre + post, k);
    var more, rest := b.Ops(k)[|a.Ops(k)|..], HandledSince(a, b);
    assert b.Ops(k) == a.Ops(k) + more && b.handled == a.handled + rest;
    PublishedSplits(a.Ops(k), more);
    RenderedSplits(a.handled, rest, k);
    assert Published(b.Ops(k)) == Published(a.Ops(k)) + Published(more);
    assert Published(more) == Published(b.Ops(k))[|Published(a.Ops(k))|..];
  }

  /** What storage returned when an event was handled is what a Handle step of that time says. */
  lemma {:induction false} HandledByStep(pre: seq<Step>, post: seq<Step>, h: Handled)
    requires Continues(RunOf(pre), RunOf(pre + post))
    requires h in HandledSince(RunOf(pre), RunOf(pre + post))
    ensures Handle(h.db) in post
  {
    assert post == [] ==> pre + post == pre;
    if post != [] {
      var init, step := post[..|post| - 1], post[|post| - 1];
      var a, b, c := RunOf(pre), RunOf(pre + init), RunOf(pre + post);
      assert pre + post == pre + init + [step];
      RunsContinue(pre, init);
      TagManager.RunGrows(pre + init, step);
      if c.handled == b.handled {
        HandledByStep(pre, init, h);
      } else {
        assert HandledSince(a, c) == HandledSince(a, b) + [Handled(b.pc.event, step.db)];
        if h in HandledSince(a, b) {
          HandledByStep(pre, init, h);
        }
      }
    }
  }

  /** A subscriber still registered has received everything published since a moment at which it was. */
  lemma PublishedThenHeard(pre: seq<Step>, post: seq<Step>, k: Kind, i: nat, x: Message)
    requires Continues(RunOf(pre), RunOf(pre + post))
    requires i < |RunOf(pre).Ops(k)| && RunOf(pre).Ops(k)[i].Push?
    requires var r := Run(RunOf(pre + post).Ops(k)); Registered(r.subs, RunOf(pre).Ops(k)[i].ch)
    requires x in Published(RunOf(pre + post).Ops(k)[|RunOf(pre).Ops(k)|..])
    ensures var ch, log := RunOf(pre).Ops(k)[i].ch, Run(RunOf(pre + post).Ops(k)).wire.log; ch in log && x in log[ch]
  {
    var before, ops := RunOf(pre).Ops(k), RunOf(pre + post).Ops(k);
    assert before <= ops;
    assert ops[i] == before[i];
    RunsHaveFreshChannels(pre + post, k);
    HeardSince(ops, i, |before|, x);
  }

  lemma HeardSince(ops: seq<Op<Message>>, i: nat, n: nat, x: Message)
    requires FreshPushes(ops) && i < n <= |ops| && ops[i].Push? && Registered(Run(ops).subs, ops[i].ch)
    requires x in Published(ops[n..])
    ensures ops[i].ch in Run(ops).wire.log && x in Run(ops).wire.log[ops[i].ch]
  {
    var end := DeliveryIsContiguous(ops, i);
    assert ops[i..end] == ops[i..n] + ops[n..];
    PublishedSplits(ops[i..n], ops[n..]);
  }

  /** One event of a call, from its plan to the loop. */
  lemma EventHandled(pre: seq<Step>, call: nat, m: Mutation, post: seq<Step>, e: Event) returns (h: Handled)
    requires call !in RunOf(pre).plans && e in Plan(m)
    requires var s := RunOf(pre + ([Begin(call, m, true)] + post));
             call in s.todo && s.todo[call] == [] && s.pc == Selecting && s.Queue(e.Stream()) == []
    ensures Continues(RunOf(pre), RunOf(pre + ([Begin(call, m, true)] + post)))
    ensures h in HandledSince(RunOf(pre), RunOf(pre + ([Begin(call, m, true)] + post))) && h.event == e
  {
    var since := [Begin(call, m, true)] + post;
    var a, b := RunOf(pre), RunOf(pre + since);
    assert pre + [Begin(call, m, true)] + post == pre + since;
    RunsContinue(pre, since);
    CallSendsPlan(pre, call, m, true, post);
    var j := SentAt(b.sent, call, e);
    SentLater(pre, b.sent, call, j);
    EnqueuedThenHandled(pre, since, j);
    h :| h in HandledSince(a, b) && h.event == e;
  }

  /** And from there to a subscriber. */
  lemma HandledThenHeard(pre: seq<Step>, post: seq<Step>, k: Kind, i: nat, h: Handled)
    requires Continues(RunOf(pre), RunOf(pre + post))
    requires i < |RunOf(pre).Ops(k)| && RunOf(pre).Ops(k)[i].Push?
    requires var r := Run(RunOf(pre + post).Ops(k)); Registered(r.subs, RunOf(pre).Ops(k)[i].ch)
    requires h in HandledSince(RunOf(pre), RunOf(pre + post)) && h.event.Stream() == k && Render(h.event, h.db).Some?
    ensures var ch, log := RunOf(pre).Ops(k)[i].ch, Run(RunOf(pre + post).Ops(k)).wire.log;
            ch in log && Render(h.event, h.db).value in log[ch]
  {
    var x := Render(h.event, h.db).value;
    RenderedMembers(HandledSince(RunOf(pre), RunOf(pre + post)), k, x);
    HandledThenPublished(pre, post, k);
    PublishedThenHeard(pre, post, k, i, x);
  }

  lemma EventHeard(pre: seq<Step>, call: nat, m: Mutation, post: seq<Step>, k: Kind, i: nat, e: Event) returns (db: Storage)
    requires call !in RunOf(pre).plans
    requires i < |RunOf(pre).Ops(k)| && RunOf(pre).Ops(k)[i].Push?
    requires var s := RunOf(pre + ([Begin(call, m, true)] + post));
             && call in s.todo && s.todo[call] == [] && s.pc == Selecting && s.Queue(k) == []
             && Registered(Run(s.Ops(k)).subs, RunOf(pre).Ops(k)[i].ch)
    requires e in Plan(m) && e.Stream() == k
    ensures Handle(db) in [Begin(call, m, true)] + post
    ensures var ch, log := RunOf(pre).Ops(k)[i].ch, Run(RunOf(pre + ([Begin(call, m, true)] + post)).Ops(k)).wire.log;
            && ch in log
            && (Render(e, db).Some? ==> Render(e, db).value in log[ch])
  {
    var since := [Begin(call, m, true)] + post;
    var h := EventHandled(pre, call, m, post, e);
    db := h.db;
    HandledByStep(pre, since, h);
    LogIsThere(pre, since, k, i);
    if Render(e, db).Some? {
      HandledThenHeard(pre, since, k, i, h);
    }
  }

  /** A call that has not begun has sent nothing. */
  lemma SentLater(pre: seq<Step>, sent: seq<Sent>, call: nat, j: nat)
    requires call !in RunOf(pre).plans && RunOf(pre).sent <= sent
    requires j < |sent| && sent[j].call == call
    ensures |RunOf(pre).sent| <= j
  {
    CallsSendTheirPlan(pre, call);
    if j < |RunOf(pre).sent| {
      SentByMembers(RunOf(pre).sent, call, j);
    }
  }

  /** What it means for a subscriber to have heard of the last event of a plan. */
  lemma MutatorSays(m: Mutation, k: Kind, db: Storage, heard: seq<Message>)
    requires var e := Plan(m)[|Plan(m)| - 1]; e.Stream() == k && Render(e, db).Some? ==> Render(e, db).value in heard
    requires m.DoDeleteCategory? && k == Delete ==> forall tag :: tag in m.removedTags ==> IdMessage(tag) in heard
    ensures match m
            case DoCreate(tag) =>
              k == Create && tag.categoryId in db.categories
              ==> TagMessage(tag.id, tag.name, tag.color, db.categories[tag.categoryId]) in heard
            case DoUpdate(tag) =>
              k == Update && tag.categoryId in db.categories
              ==> TagMessage(tag.id, tag.name, tag.color, db.categories[tag.categoryId]) in heard
            case DoChangeCategory(tag) =>
              k == Update && tag.categoryId in db.categories
              ==> TagMessage(tag.id, tag.name, tag.color, db.categories[tag.categoryId]) in heard
            case DoDelete(id) => k == Delete ==> IdMessage(id) in heard
            case DoCreateCategory(category) => k == CreateCategory ==> CategoryMessage(category) in heard
            case DoUpdateCategory(id, name) => k == UpdateCategory ==> CategoryMessage(Category(id, name)) in heard
            case DoDeleteCategory(id, removed) =>
              && (k == DeleteCategory ==> IdMessage(id) in heard)
              && (k == Delete ==> forall tag :: tag in removed ==> IdMessage(tag) in heard)
            case DoAddTagToTea(tea, _) => k == AddTagToTea && tea in db.teas ==> TeaMessage(db.teas[tea]) in heard
            case DoDeleteTagFromTea(tea, _) => k == DeleteTagFromTea && tea in db.teas ==> TeaMessage(db.teas[tea]) in heard
  {
  }

  /**
    End to end, for each mutator: once the call has returned and the loop has caught up, whoever
    subscribed to its stream before the call and is still registered has heard of it. For tags and
    teas the message is what storage returned for the tag's category or the tea at that time.
   */
  lemma MutatorIsHeard(pre: seq<Step>, call: nat, m: Mutation, post: seq<Step>, k: Kind, i: nat) returns (db: Storage)
    requires call !in RunOf(pre).plans
    requires i < |RunOf(pre).Ops(k)| && RunOf(pre).Ops(k)[i].Push?
    requires var s := RunOf(pre + ([Begin(call, m, true)] + post));
             && call in s.todo && s.todo[call] == [] && s.pc == Selecting && s.Queue(k) == []
             && exists j :: 0 <= j < |Run(s.Ops(k)).subs| && Run(s.Ops(k)).subs[j].ch == RunOf(pre).Ops(k)[i].ch
    ensures (m.DoCreate? && k == Create) || ((m.DoUpdate? || m.DoChangeCategory?) && k == Update)
            || (m.DoAddTagToTea? && k == AddTagToTea) || (m.DoDeleteTagFromTea? && k == DeleteTagFromTea)
            ==> Handle(db) in post
    ensures var ch, log := RunOf(pre).Ops(k)[i].ch, Run(RunOf(pre + ([Begin(call, m, true)] + post)).Ops(k)).wire.log;
            && ch in log
            && match m
               case DoCreate(tag) =>
                 k == Create && tag.categoryId in db.categories
                 ==> TagMessage(tag.id, tag.name, tag.color, db.categories[tag.categoryId]) in log[ch]
               case DoUpdate(tag) =>
                 k == Update && tag.categoryId in db.categories
                 ==> TagMessage(tag.id, tag.name, tag.color, db.categories[tag.categoryId]) in log[ch]
               case DoChangeCategory(tag) =>
                 k == Update && tag.categoryId in db.categories
                 ==> TagMessage(tag.id, tag.name, tag.color, db.categories[tag.categoryId]) in log[ch]
               case DoDelete(id) => k == Delete ==> IdMessage(id) in log[ch]
               case DoCreateCategory(category) => k == CreateCategory ==> CategoryMessage(category) in log[ch]
               case DoUpdateCategory(id, name) => k == UpdateCategory ==> CategoryMessage(Category(id, name)) in log[ch]
               case DoDeleteCategory(id, removed) =>
                 && (k == DeleteCategory ==> IdMessage(id) in log[ch])
                 && (k == Delete ==> forall tag :: tag in removed ==> IdMessage(tag) in log[ch])
               case DoAddTagToTea(tea, _) => k == AddTagToTea && tea in db.teas ==> TeaMessage(db.teas[tea]) in log[ch]
               case DoDeleteTagFromTea(tea, _) => k == DeleteTagFromTea && tea in db.teas ==> TeaMessage(db.teas[tea]) in log[ch]
  {
    var heard;
    db, heard := PlanIsHeard(pre, call, m, post, k, i);
    MutatorSays(m, k, db, heard);
  }

  lemma PlanIsHeard(pre: seq<Step>, call: nat, m: Mutation, post: seq<Step>, k: Kind, i: nat)
      returns (db: Storage, heard: seq<Message>)
    requires call !in RunOf(pre).plans
    requires i < |RunOf(pre).Ops(k)| && RunOf(pre).Ops(k)[i].Push?
    requires var s := RunOf(pre + ([Begin(call, m, true)] + post));
             && call in s.todo && s.todo[call] == [] && s.pc == Selecting && s.Queue(k) == []
             && Registered(Run(s.Ops(k)).subs, RunOf(pre).Ops(k)[i].ch)
    ensures var ch, log := RunOf(pre).Ops(k)[i].ch, Run(RunOf(pre + ([Begin(call, m, true)] + post)).Ops(k)).wire.log;
            ch in log && heard == log[ch]
    ensures var e := Plan(m)[|Plan(m)| - 1];
            e.Stream() == k ==> Handle(db) in post && (Render(e, db).Some? ==> Render(e, db).value in heard)
    ensures m.DoDeleteCategory? && k == Delete ==> forall tag :: tag in m.removedTags ==> IdMessage(tag) in heard
  {
    db := NOTHING_STORED;
    LogIsThere(pre, [Begin(call, m, true)] + post, k, i);
    heard := Run(RunOf(pre + ([Begin(call, m, true)] + post)).Ops(k)).wire.log[RunOf(pre).Ops(k)[i].ch];
    var e := Plan(m)[|Plan(m)| - 1];
    if e.Stream() == k {
      db := EventHeard(pre, call, m, post, k, i, e);
    } else if m.DoDeleteCategory? && k == Delete {
      DeletedTagsAreHeard(pre, call, m.id, m.removedTags, post, i);
    }
  }

  lemma LogIsThere(pre: seq<Step>, post: seq<Step>, k: Kind, i: nat)
    requires i < |RunOf(pre).Ops(k)| && RunOf(pre).Ops(k)[i].Push?
    ensures RunOf(pre).Ops(k)[i].ch in Run(RunOf(pre + post).Ops(k)).wire.log
  {
    var before, ops := RunOf(pre).Ops(k), RunOf(pre + post).Ops(k);
    RunsContinue(pre, post);
    RunsHaveFreshChannels(pre + post, k);
    assert before <= ops;
    assert ops[i] == before[i];
    var n := DeliveryIsContiguous(ops, i);
  }

  lemma DeletedTagsAreHeard(pre: seq<Step>, call: nat, id: Uuid, removed: seq<Uuid>, post: seq<Step>, i: nat)
    requires call !in RunOf(pre).plans
    requires i < |RunOf(pre).Ops(Delete)| && RunOf(pre).Ops(Delete)[i].Push?
    requires var s := RunOf(pre + ([Begin(call, DoDeleteCategory(id, removed), true)] + post));
             && call in s.todo && s.todo[call] == [] && s.pc == Selecting && s.Queue(Delete) == []
             && Registered(Run(s.Ops(Delete)).subs, RunOf(pre).Ops(Delete)[i].ch)
    ensures var ch := RunOf(pre).Ops(Delete)[i].ch;
            var log := Run(RunOf(pre + ([Begin(call, DoDeleteCategory(id, removed), true)] + post)).Ops(Delete)).wire.log;
            ch in log && forall tag :: tag in removed ==> IdMessage(tag) in log[ch]
  {
    var m := DoDeleteCategory(id, removed);
    var ch, log := RunOf(pre).Ops(Delete)[i].ch, Run(RunOf(pre + ([Begin(call, m, true)] + post)).Ops(Delete)).wire.log;
    LogIsThere(pre, [Begin(call, m, true)] + post, Delete, i);
    forall tag | tag in removed
      ensures IdMessage(tag) in log[ch]
    {
      var j :| 0 <= j < |removed| && removed[j] == tag;
      assert Plan(m)[j] == TagDeleted(tag);
      var db := EventHeard(pre, call, m, post, Delete, i, TagDeleted(tag));
      assert Render(TagDeleted(tag), db) == Some(IdMessage(tag));
    }
  }

  // ----- where messages come from -----

  lemma {:induction false} ProducedWasSent(sent: seq<Sent>, k: Kind, e: Event) returns (i: nat)
    requires e in Produced(sent, k)
    ensures i < |sent| && sent[i].event == e && e.Stream() == k
  {
    var init, x := sent[..|sent| - 1], sent[|sent| - 1];
    if e in Produced(init, k) {
      i := ProducedWasSent(init, k, e);
    } else {
      i := |init|;
    }
  }

  /** Every handled event was planned by a call that storage had accepted. */
  lemma HandledWasPlanned(steps: seq<Step>, h: Handled) returns (call: nat, m: Mutation)
    requires h in RunOf(steps).handled
    ensures Begin(call, m, true) in steps && h.event in Plan(m)
  {
    var s := RunOf(steps);
    var k := h.event.Stream();
    var j :| 0 <= j < |s.handled| && s.handled[j] == h;
    assert HandledEvents(s.handled)[j] == h.event;
    OnStreamMembers(HandledEvents(s.handled), k, h.event);
    StreamParts(steps, k);
    var i := ProducedWasSent(s.sent, k, h.event);
    call := s.sent[i].call;
    SentByMembers(s.sent, call, i);
    CallsSendTheirPlan(steps, call);
    PlansComeFromBegin(steps, call);
    var stored: bool;
    m, stored :| Begin(call, m, stored) in steps && s.plans[call] == PlanIf(m, stored);
  }

  lemma PlanSays(m: Mutation, e: Event, db: Storage, k: Kind, x: Message)
    requires e in Plan(m) && e.Stream() == k && Render(e, db) == Some(x)
    ensures match k
            case Create =>
              && m.DoCreate? && m.created.categoryId in db.categories
              && x == TagMessage(m.created.id, m.created.name, m.created.color, db.categories[m.created.categoryId])
            case Update =>
              && (m.DoUpdate? || m.DoChangeCategory?)
              && var tag := if m.DoUpdate? then m.updated else m.moved;
                 tag.categoryId in db.categories && x == TagMessage(tag.id, tag.name, tag.color, db.categories[tag.categoryId])
            case Delete =>
              || (m.DoDelete? && x == IdMessage(m.id))
              || (m.DoDeleteCategory? && exists tag :: tag in m.removedTags && x == IdMessage(tag))
            case CreateCategory => m.DoCreateCategory? && x == CategoryMessage(m.category)
            case UpdateCategory => m.DoUpdateCategory? && x == CategoryMessage(Category(m.id, m.name))
            case DeleteCategory => m.DoDeleteCategory? && x == IdMessage(m.id)
            case AddTagToTea => m.DoAddTagToTea? && m.tea in db.teas && x == TeaMessage(db.teas[m.tea])
            case DeleteTagFromTea => m.DoDeleteTagFromTea? && m.tea in db.teas && x == TeaMessage(db.teas[m.tea])
  {
    var j :| 0 <= j < |Plan(m)| && Plan(m)[j] == e;
    if m.DoDeleteCategory? && j < |m.removedTags| {
      assert TagDeletions(m.removedTags)[j] == TagDeleted(m.removedTags[j]);
      assert m.removedTags[j] in m.removedTags;
    }
  }

  /** Nothing is heard without a cause: every message of a stream is what its own mutators, accepted by storage, say. */
  lemma MessageHasOrigin(steps: seq<Step>, k: Kind, x: Message) returns (call: nat, m: Mutation, db: Storage)
    requires x in Published(RunOf(steps).Ops(k))
    ensures Begin(call, m, true) in steps && Handle(db) in steps
    ensures match k
            case Create =>
              && m.DoCreate? && m.created.categoryId in db.categories
              && x == TagMessage(m.created.id, m.created.name, m.created.color, db.categories[m.created.categoryId])
            case Update =>
              && (m.DoUpdate? || m.DoChangeCategory?)
              && var tag := if m.DoUpdate? then m.updated else m.moved;
                 tag.categoryId in db.categories && x == TagMessage(tag.id, tag.name, tag.color, db.categories[tag.categoryId])
            case Delete =>
              || (m.DoDelete? && x == IdMessage(m.id))
              || (m.DoDeleteCategory? && exists tag :: tag in m.removedTags && x == IdMessage(tag))
            case CreateCategory => m.DoCreateCategory? && x == CategoryMessage(m.category)
            case UpdateCategory => m.DoUpdateCategory? && x == CategoryMessage(Category(m.id, m.name))
            case DeleteCategory => m.DoDeleteCategory? && x == IdMessage(m.id)
            case AddTagToTea => m.DoAddTagToTea? && m.tea in db.teas && x == TeaMessage(db.teas[m.tea])
            case DeleteTagFromTea => m.DoDeleteTagFromTea? && m.tea in db.teas && x == TeaMessage(db.teas[m.tea])
  {
    var s := RunOf(steps);
    RunsPublishWhatTheyHandle(steps, k);
    RenderedMembers(s.handled, k, x);
    var h :| h in s.handled && h.event.Stream() == k && Render(h.event, h.db) == Some(x);
    call, m := HandledWasPlanned(steps, h);
    db := h.db;
    assert [] + steps == steps && RunOf([]) == INITIAL;
    RunsContinue([], steps);
    assert HandledSince(RunOf([]), s) == s.handled;
    HandledByStep([], steps, h);
    PlanSays(m, h.event, db, k, x);
  }

  // ----- subscribing, and full queues -----

  /** A subscription goes to the registry of its own stream, at its end, and to no other. */
  lemma SubscriptionIsRegistered(steps: seq<Step>, kind: Kind, ctx: nat, ch: Chan, k: Kind)
    requires ch !in RunOf(steps).channels
    ensures RunOf(steps + [Subscribe(kind, ctx, ch)]).Ops(k)
         == if k == kind then RunOf(steps).Ops(k) + [Push(ctx, ch)] else RunOf(steps).Ops(k)
  {
    TagManager.RunGrows(steps, Subscribe(kind, ctx, ch));
    StepExtends(RunOf(steps), Subscribe(kind, ctx, ch), k);
  }

  lemma EnqueueOnto(s: State, call: nat, e: Event)
    requires call in s.todo && s.todo[call] == [e] && |s.Queue(e.Stream())| < DEFAULT_CHAN_SIZE
    ensures CanEnqueue(s, call) && |Enqueued(s, call).Queue(e.Stream())| == |s.Queue(e.Stream())| + 1
  {
  }

  /** With nobody taking, a queue fills up to 100 events. */
  lemma {:induction false} QueueFills(tag: Tag, n: nat) returns (steps: seq<Step>)
    requires n <= 100
    ensures |RunOf(steps).Queue(Create)| == n && forall call :: call in RunOf(steps).plans ==> call < n
  {
    steps := [];
    if n > 0 {
      var before := QueueFills(tag, n - 1);
      var begun := before + [Begin(n - 1, DoCreate(tag), true)];
      TagManager.RunGrows(before, Begin(n - 1, DoCreate(tag), true));
      TagManager.RunGrows(begun, Enqueue(n - 1));
      EnqueueOnto(RunOf(begun), n - 1, TagCreated(tag));
      steps := begun + [Enqueue(n - 1)];
    }
  }

  /** And then the next send blocks. */
  lemma FullQueueBlocks(steps: seq<Step>, call: nat)
    requires var s := RunOf(steps); call in s.todo && s.todo[call] != [] && |s.Queue(s.todo[call][0].Stream())| == 100
    ensures RunOf(steps + [Enqueue(call)]) == RunOf(steps)
  {
    TagManager.RunGrows(steps, Enqueue(call));
  }
}
