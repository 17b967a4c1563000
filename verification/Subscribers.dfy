/**
  The subscriber registry (common/subscribers/generic_subscriber.go; the registries in
  internal/managers hold the same code): delivery to every subscriber, and removal in place.
 */
module Subscribers {
  import opened Basics

  /** A context and a channel, each known by its identity. */
  type Chan = nat

  datatype Subscriber = Subscriber(ctx: nat, ch: Chan)

  // ----- removal in place -----

  /** The slots below n found done, in ascending order: forRemove. */
  function Marked(done: set<nat>, n: nat): seq<nat> {
    if n == 0 then [] else Marked(done, n - 1) + if n - 1 in done then [n - 1] else []
  }

  predicate Ascending(marks: seq<nat>, n: nat) {
    && (forall i, j :: 0 <= i < j < |marks| ==> marks[i] < marks[j])
    && (forall i :: 0 <= i < |marks| ==> marks[i] < n)
  }

  lemma {:induction false} MarkedAscends(done: set<nat>, n: nat)
    ensures Ascending(Marked(done, n), n)
    ensures forall i :: i in Marked(done, n) <==> i < n && i in done
  {
    if n > 0 {
      MarkedAscends(done, n - 1);
    }
  }

  /** The last element takes the place of element i. */
  function SwapRemove<X>(s: seq<X>, i: nat): seq<X>
    requires i < |s|
  {
    s[i := s[|s| - 1]][..|s| - 1]
  }

  function RemoveMarked<X>(s: seq<X>, marks: seq<nat>): seq<X>
    requires Ascending(marks, |s|)
    decreases |marks|
  {
    if marks == [] then s
    else
      AscendingFits(marks, |s|);
      RemoveMarked(SwapRemove(s, marks[|marks| - 1]), marks[..|marks| - 1])
  }

  /** The j-th of k marks leaves room for those above it. */
  lemma {:induction false} AscendingFits(marks: seq<nat>, n: nat)
    requires Ascending(marks, n)
    ensures |marks| <= n
    ensures forall j :: 0 <= j < |marks| ==> marks[j] <= n - |marks| + j
    ensures marks != [] ==> Ascending(marks[..|marks| - 1], n - 1)
  {
    if marks != [] {
      var m := marks[|marks| - 1];
      AscendingFits(marks[..|marks| - 1], m);
    }
  }

  /** The elements at the marks. */
  function Picked<X>(s: seq<X>, marks: seq<nat>): (r: seq<X>)
    requires forall i :: 0 <= i < |marks| ==> marks[i] < |s|
  {
    if marks == [] then [] else Picked(s, marks[..|marks| - 1]) + [s[marks[|marks| - 1]]]
  }

  lemma {:induction false} PickedAgree<X>(s: seq<X>, t: seq<X>, marks: seq<nat>)
    requires forall i :: 0 <= i < |marks| ==> marks[i] < |s| && marks[i] < |t| && s[marks[i]] == t[marks[i]]
    ensures Picked(s, marks) == Picked(t, marks)
  {
    if marks != [] {
      PickedAgree(s, t, marks[..|marks| - 1]);
    }
  }

  /** The elements in slots that were not found done, in order. */
  function Live<X>(s: seq<X>, done: set<nat>, n: nat): seq<X>
    requires n <= |s|
  {
    if n == 0 then [] else Live(s, done, n - 1) + if n - 1 in done then [] else [s[n - 1]]
  }

  lemma SwapRemoveTakesOne<X>(s: seq<X>, i: nat)
    requires i < |s|
    ensures multiset(SwapRemove(s, i)) + multiset{s[i]} == multiset(s)
  {
    var last := |s| - 1;
    assert s == s[..last] + [s[last]];
    if i < last {
      assert SwapRemove(s, i) == s[..last][i := s[last]];
      assert s[..last] == s[..i] + [s[i]] + s[i + 1..last];
      assert SwapRemove(s, i) == s[..i] + [s[last]] + s[i + 1..last];
    } else {
      assert SwapRemove(s, i) == s[..last];
    }
  }

  lemma {:induction false} RemoveMarkedTakesPicked<X>(s: seq<X>, marks: seq<nat>)
    requires Ascending(marks, |s|)
    ensures multiset(RemoveMarked(s, marks)) + multiset(Picked(s, marks)) == multiset(s)
    decreases |marks|
  {
    if marks != [] {
      AscendingFits(marks, |s|);
      var m, rest := marks[|marks| - 1], marks[..|marks| - 1];
      var s' := SwapRemove(s, m);
      SwapRemoveTakesOne(s, m);
      RemoveMarkedTakesPicked(s', rest);
      PickedAgree(s, s', rest);
    }
  }

  /** The elements in slots that were found done, in order. */
  function Dead<X>(s: seq<X>, done: set<nat>, n: nat): seq<X>
    requires n <= |s|
  {
    if n == 0 then [] else Dead(s, done, n - 1) + if n - 1 in done then [s[n - 1]] else []
  }

  lemma PickedGrows<X>(s: seq<X>, marks: seq<nat>, m: nat)
    requires m < |s| && forall i :: 0 <= i < |marks| ==> marks[i] < |s|
    ensures Picked(s, marks + [m]) == Picked(s, marks) + [s[m]]
  {
    assert (marks + [m])[..|marks|] == marks;
  }

  lemma {:induction false} PickedAreDead<X>(s: seq<X>, done: set<nat>, n: nat)
    requires n <= |s|
    requires forall i :: 0 <= i < |Marked(done, n)| ==> Marked(done, n)[i] < |s|
    ensures Picked(s, Marked(done, n)) == Dead(s, done, n)
  {
    if n > 0 {
      var before := Marked(done, n - 1);
      MarkedAscends(done, n - 1);
      PickedAreDead(s, done, n - 1);
      if n - 1 in done {
        PickedGrows(s, before, n - 1);
      } else {
        assert before + [] == before;
        assert Dead(s, done, n - 1) + [] == Dead(s, done, n - 1);
      }
    }
  }

  lemma CountAppend<X>(a: seq<X>, y: X, x: X)
    ensures multiset(a + [y])[x] == multiset(a)[x] + if x == y then 1 else 0
  {
  }

  lemma {:induction false} LiveAndDead<X>(s: seq<X>, done: set<nat>, n: nat, x: X)
    requires n <= |s|
    ensures multiset(Live(s, done, n))[x] + multiset(Dead(s, done, n))[x] == multiset(s[..n])[x]
  {
    if n > 0 {
      var m := n - 1;
      LiveAndDead(s, done, m, x);
      TakeNext(s, m);
      CountAppend(s[..m], s[m], x);
      if m in done {
        CountAppend(Dead(s, done, m), s[m], x);
        assert Live(s, done, m) + [] == Live(s, done, m);
      } else {
        CountAppend(Live(s, done, m), s[m], x);
        assert Dead(s, done, m) + [] == Dead(s, done, m);
      }
    }
  }

  lemma CountSum<X>(a: multiset<X>, b: multiset<X>, c: multiset<X>, x: X)
    requires a + b == c
    ensures a[x] + b[x] == c[x]
  {
    assert (a + b)[x] == c[x];
  }

  lemma RemovedAndDead<X>(s: seq<X>, done: set<nat>, n: nat, marks: seq<nat>, x: X)
    requires n == |s| && marks == Marked(done, n) && Ascending(marks, n)
    ensures multiset(RemoveMarked(s, marks))[x] + multiset(Dead(s, done, n))[x] == multiset(s)[x]
  {
    RemoveMarkedTakesPicked(s, marks);
    CountSum(multiset(RemoveMarked(s, marks)), multiset(Picked(s, marks)), multiset(s), x);
    PickedAreDead(s, done, n);
  }

  lemma RemovalCounts<X>(s: seq<X>, done: set<nat>, x: X)
    requires Ascending(Marked(done, |s|), |s|)
    ensures multiset(RemoveMarked(s, Marked(done, |s|)))[x] == multiset(Live(s, done, |s|))[x]
  {
    RemovedAndDead(s, done, |s|, Marked(done, |s|), x);
    LiveAndDead(s, done, |s|, x);
    assert s[..|s|] == s;
  }

  /** Swap-removal leaves exactly the live elements, each as often as before. */
  lemma RemovalKeepsLive<X>(s: seq<X>, done: set<nat>)
    requires Ascending(Marked(done, |s|), |s|)
    ensures multiset(RemoveMarked(s, Marked(done, |s|))) == multiset(Live(s, done, |s|))
  {
    var removed, live := multiset(RemoveMarked(s, Marked(done, |s|))), multiset(Live(s, done, |s|));
    forall x
      ensures removed[x] == live[x]
    {
      RemovalCounts(s, done, x);
    }
    SameCounts(removed, live);
  }

  lemma SameCounts<X>(a: multiset<X>, b: multiset<X>)
    requires forall x :: x in a || x in b ==> a[x] == b[x]
    ensures a == b
  {
  }

  lemma {:induction false} LiveMembers<X>(s: seq<X>, done: set<nat>, n: nat, x: X)
    requires n <= |s|
    ensures x in Live(s, done, n) <==> exists i :: 0 <= i < n && s[i] == x && i !in done
  {
    if n > 0 {
      LiveMembers(s, done, n - 1, x);
    }
  }

  lemma OverwriteIsSwapRemove<X>(s: seq<X>, i: nat, t: seq<X>)
    requires i < |s| == |t| + 1
    requires forall k :: 0 <= k < |t| ==> t[k] == if k == i then s[|s| - 1] else s[k]
    ensures t == SwapRemove(s, i)
  {
  }

  /** Overwriting slot marks[j] from the end of the slice is the first step of removing the marks up to it. */
  lemma OverwriteAdvances(s: seq<Subscriber>, marks: seq<nat>, j: nat, t: seq<Subscriber>)
    requires j < |marks| && |s| == |t| + 1 && Ascending(marks[..j + 1], |s|)
    requires forall k :: 0 <= k < |t| ==> t[k] == if k == marks[j] then s[|s| - 1] else s[k]
    ensures Ascending(marks[..j], |t|)
    ensures RemoveMarked(t, marks[..j]) == RemoveMarked(s, marks[..j + 1])
  {
    AscendingFits(marks[..j + 1], |s|);
    assert marks[..j + 1][j] == marks[j];
    OverwriteIsSwapRemove(s, marks[j], t);
    assert marks[..j + 1][..j] == marks[..j];
  }

  /** The loop of CleanDone, on an array whose first n slots are the slice; returns the new length. */
  method RemoveInPlace(subs: array<Subscriber>, n: nat, forRemove: seq<nat>) returns (len: nat)
    requires n <= subs.Length && Ascending(forRemove, n)
    modifies subs
    ensures len == n - |forRemove|
    ensures subs[..len] == RemoveMarked(old(subs[..n]), forRemove)
  {
    AscendingFits(forRemove, n);
    var k := |forRemove|;
    var j := k;
    ghost var was := subs[..n];
    assert forRemove[..k] == forRemove;
    while j > 0
      invariant 0 <= j <= k
      invariant Ascending(forRemove[..j], n - k + j)
      invariant RemoveMarked(subs[..n - k + j], forRemove[..j]) == RemoveMarked(was, forRemove)
    {
      j := j - 1;
      ghost var s := subs[..n - k + j + 1];
      subs[forRemove[j]] := subs[n - k + j];
      OverwriteAdvances(s, forRemove, j, subs[..n - k + j]);
    }
    return n - k;
  }

  // ----- channels and the registry -----

  /**
    The channels made so far: what each has delivered, which are closed, and whether the process has
    panicked by sending on a closed channel or closing one again. A send is a completed rendezvous.
   */
  datatype Wire<T> = Wire(log: map<Chan, seq<T>>, closed: set<Chan>, panicked: bool)

  function Send<T>(w: Wire<T>, ch: Chan, message: T): Wire<T> {
    if ch in w.closed then w.(panicked := true)
    else w.(log := w.log[ch := (if ch in w.log then w.log[ch] else []) + [message]])
  }

  function Close<T>(w: Wire<T>, ch: Chan): Wire<T> {
    if ch in w.closed then w.(panicked := true) else w.(closed := w.closed + {ch})
  }

  function SendEach<T>(w: Wire<T>, subs: seq<Subscriber>, message: T): Wire<T> {
    if subs == [] then w
    else Send(SendEach(w, subs[..|subs| - 1], message), subs[|subs| - 1].ch, message)
  }

  /** Closes the channels of the slots below n that were found done. */
  function CloseDone<T>(w: Wire<T>, subs: seq<Subscriber>, done: set<nat>, n: nat): Wire<T>
    requires n <= |subs|
  {
    if n == 0 then w
    else
      var w' := CloseDone(w, subs, done, n - 1);
      if n - 1 in done then Close(w', subs[n - 1].ch) else w'
  }

  datatype Registry<T> = Registry(subs: seq<Subscriber>, wire: Wire<T>)

  /** done is the set of slots whose context CleanDone finds done, each polled on its own. */
  datatype Op<T> =
    | Push(ctx: nat, ch: Chan)
    | SendAll(message: T)
    | CleanDone(done: set<nat>)

  function Apply<T>(r: Registry<T>, op: Op<T>): Registry<T> {
    match op
    case Push(ctx, ch) =>
      Registry(r.subs + [Subscriber(ctx, ch)], r.wire.(log := if ch in r.wire.log then r.wire.log else r.wire.log[ch := []]))
    case SendAll(message) =>
      r.(wire := SendEach(r.wire, r.subs, message))
    case CleanDone(done) =>
      MarkedAscends(done, |r.subs|);
      Registry(RemoveMarked(r.subs, Marked(done, |r.subs|)), CloseDone(r.wire, r.subs, done, |r.subs|))
  }

  /** The registry after these operations, under its lock one after the other. */
  function Run<T>(ops: seq<Op<T>>): Registry<T> {
    if ops == [] then Registry([], Wire(map[], {}, false)) else Apply(Run(ops[..|ops| - 1]), ops[|ops| - 1])
  }

  lemma RunGrows<T>(ops: seq<Op<T>>, op: Op<T>)
    ensures Run(ops + [op]) == Apply(Run(ops), op)
  {
    assert (ops + [op])[..|ops|] == ops;
  }

  /** Every Push brings a channel of its own, as the Subscribe methods do. */
  predicate FreshPushes<T>(ops: seq<Op<T>>) {
    forall i, j :: 0 <= i < j < |ops| && ops[i].Push? && ops[j].Push? ==> ops[i].ch != ops[j].ch
  }

  predicate Registered(subs: seq<Subscriber>, ch: Chan) {
    exists i :: 0 <= i < |subs| && subs[i].ch == ch
  }

  predicate DistinctChannels(subs: seq<Subscriber>) {
    forall i, j :: 0 <= i < j < |subs| ==> subs[i].ch != subs[j].ch
  }

  /** Registered channels are distinct and open; every channel made is either registered or closed, never both. */
  ghost predicate Sound<T>(r: Registry<T>) {
    && !r.wire.panicked
    && DistinctChannels(r.subs)
    && (forall ch :: ch in r.wire.log <==> Registered(r.subs, ch) || ch in r.wire.closed)
    && (forall ch :: ch in r.wire.closed ==> !Registered(r.subs, ch))
  }

  lemma {:induction false} SendEachKeepsChannels<T>(w: Wire<T>, subs: seq<Subscriber>, message: T)
    requires forall i :: 0 <= i < |subs| ==> subs[i].ch in w.log && subs[i].ch !in w.closed
    ensures var w' := SendEach(w, subs, message);
            w'.closed == w.closed && w'.panicked == w.panicked && w'.log.Keys == w.log.Keys
  {
    if subs != [] {
      SendEachKeepsChannels(w, subs[..|subs| - 1], message);
    }
  }

  lemma RegisteredSplits(subs: seq<Subscriber>, ch: Chan)
    requires subs != []
    ensures Registered(subs, ch) <==> Registered(subs[..|subs| - 1], ch) || subs[|subs| - 1].ch == ch
  {
    var init := subs[..|subs| - 1];
    if Registered(init, ch) {
      var i :| 0 <= i < |init| && init[i].ch == ch;
      assert subs[i].ch == ch;
    }
    if Registered(subs, ch) {
      var i :| 0 <= i < |subs| && subs[i].ch == ch;
      assert i < |init| ==> init[i].ch == ch;
    }
  }

  lemma {:induction false} SendEachTo<T>(w: Wire<T>, subs: seq<Subscriber>, message: T, ch: Chan)
    requires DistinctChannels(subs) && ch in w.log
    requires forall i :: 0 <= i < |subs| ==> subs[i].ch in w.log && subs[i].ch !in w.closed
    ensures ch in SendEach(w, subs, message).log
    ensures SendEach(w, subs, message).log[ch] == w.log[ch] + if Registered(subs, ch) then [message] else []
  {
    assert w.log[ch] + [] == w.log[ch];
    if subs != [] {
      var init, last := subs[..|subs| - 1], subs[|subs| - 1];
      SendEachTo(w, init, message, ch);
      SendEachKeepsChannels(w, init, message);
      RegisteredSplits(subs, ch);
      if last.ch == ch {
        assert !Registered(init, ch);
      }
    }
  }

  /** A message reaches each registered channel once, at the end of its log, and no other channel. */
  lemma SendEachDelivers<T>(w: Wire<T>, subs: seq<Subscriber>, message: T)
    requires DistinctChannels(subs)
    requires forall i :: 0 <= i < |subs| ==> subs[i].ch in w.log && subs[i].ch !in w.closed
    ensures var w' := SendEach(w, subs, message);
            && w'.closed == w.closed && w'.panicked == w.panicked && w'.log.Keys == w.log.Keys
            && forall ch :: ch in w.log ==> w'.log[ch] == w.log[ch] + if Registered(subs, ch) then [message] else []
  {
    SendEachKeepsChannels(w, subs, message);
    forall ch | ch in w.log
      ensures SendEach(w, subs, message).log[ch] == w.log[ch] + if Registered(subs, ch) then [message] else []
    {
      SendEachTo(w, subs, message, ch);
    }
  }

  /** The channels closed are those in the marked slots. */
  lemma {:induction false} CloseDoneCloses<T>(w: Wire<T>, subs: seq<Subscriber>, done: set<nat>, n: nat)
    requires n <= |subs| && DistinctChannels(subs)
    requires forall i :: 0 <= i < |subs| ==> subs[i].ch !in w.closed
    ensures var w' := CloseDone(w, subs, done, n);
            && w'.log == w.log && w'.panicked == w.panicked
            && forall ch :: ch in w'.closed <==> ch in w.closed || exists i :: 0 <= i < n && i in done && subs[i].ch == ch
  {
    if n > 0 {
      CloseDoneCloses(w, subs, done, n - 1);
    }
  }

  lemma {:induction false} DistinctChannelsCount(subs: seq<Subscriber>, x: Subscriber)
    requires DistinctChannels(subs)
    ensures multiset(subs)[x] <= 1
  {
    if subs != [] {
      var init := subs[..|subs| - 1];
      assert subs == init + [subs[|subs| - 1]];
      DistinctChannelsCount(init, x);
    }
  }

  /** What is left after CleanDone: the live subscribers, all distinct. */
  lemma CleanedMembers(subs: seq<Subscriber>, done: set<nat>, x: Subscriber)
    requires Ascending(Marked(done, |subs|), |subs|)
    ensures x in RemoveMarked(subs, Marked(done, |subs|)) <==> exists i :: 0 <= i < |subs| && subs[i] == x && i !in done
  {
    var left := RemoveMarked(subs, Marked(done, |subs|));
    RemovalKeepsLive(subs, done);
    assert x in left <==> x in multiset(left);
    assert x in Live(subs, done, |subs|) <==> x in multiset(Live(subs, done, |subs|));
    LiveMembers(subs, done, |subs|, x);
  }

  lemma SubMultisetStaysDistinct(subs: seq<Subscriber>, left: seq<Subscriber>)
    requires DistinctChannels(subs) && multiset(left) <= multiset(subs)
    ensures DistinctChannels(left)
  {
    forall i, j | 0 <= i < j < |left|
      ensures left[i].ch != left[j].ch
    {
      assert left[i] in multiset(left) && left[j] in multiset(left);
      assert left[i] in multiset(subs) && left[j] in multiset(subs);
      if left[i] == left[j] {
        assert left == left[..j] + [left[j]] + left[j + 1..];
        assert left[i] in left[..j];
        assert multiset(left)[left[i]] >= 2;
        DistinctChannelsCount(subs, left[i]);
      }
    }
  }

  lemma CleanedDistinct(subs: seq<Subscriber>, done: set<nat>)
    requires DistinctChannels(subs) && Ascending(Marked(done, |subs|), |subs|)
    ensures DistinctChannels(RemoveMarked(subs, Marked(done, |subs|)))
  {
    RemoveMarkedTakesPicked(subs, Marked(done, |subs|));
    SubMultisetStaysDistinct(subs, RemoveMarked(subs, Marked(done, |subs|)));
  }

  lemma CleanedRegistered(subs: seq<Subscriber>, done: set<nat>, ch: Chan)
    requires Ascending(Marked(done, |subs|), |subs|)
    ensures Registered(RemoveMarked(subs, Marked(done, |subs|)), ch)
       <==> exists i :: 0 <= i < |subs| && subs[i].ch == ch && i !in done
  {
    var left := RemoveMarked(subs, Marked(done, |subs|));
    if Registered(left, ch) {
      var k :| 0 <= k < |left| && left[k].ch == ch;
      CleanedMembers(subs, done, left[k]);
    }
    if i :| 0 <= i < |subs| && subs[i].ch == ch && i !in done {
      CleanedMembers(subs, done, subs[i]);
      var k :| 0 <= k < |left| && left[k] == subs[i];
    }
  }

  lemma PushRegisters(subs: seq<Subscriber>, x: Subscriber, ch: Chan)
    ensures Registered(subs + [x], ch) <==> Registered(subs, ch) || ch == x.ch
  {
    assert (subs + [x])[|subs|] == x;
    if Registered(subs, ch) {
      var i :| 0 <= i < |subs| && subs[i].ch == ch;
      assert (subs + [x])[i].ch == ch;
    }
  }

  lemma PushKeepsSound<T>(r: Registry<T>, ctx: nat, ch: Chan)
    requires Sound(r) && ch !in r.wire.log
    ensures Sound(Apply(r, Push(ctx, ch)))
  {
    forall c
      ensures Registered(r.subs + [Subscriber(ctx, ch)], c) <==> Registered(r.subs, c) || c == ch
    {
      PushRegisters(r.subs, Subscriber(ctx, ch), c);
    }
  }

  lemma SendAllKeepsSound<T>(r: Registry<T>, message: T)
    requires Sound(r)
    ensures Sound(Apply(r, SendAll(message)))
  {
    SendEachKeepsChannels(r.wire, r.subs, message);
  }

  lemma CleanDoneKeepsSound<T>(r: Registry<T>, done: set<nat>)
    requires Sound(r)
    ensures Sound(Apply(r, CleanDone(done)))
  {
    MarkedAscends(done, |r.subs|);
    CloseDoneCloses(r.wire, r.subs, done, |r.subs|);
    CleanedDistinct(r.subs, done);
    forall c
      ensures var r' := Apply(r, CleanDone(done));
              && (Registered(r.subs, c) <==> Registered(r'.subs, c) || (c in r'.wire.closed && c !in r.wire.closed))
              && (c in r'.wire.closed ==> !Registered(r'.subs, c))
              && (c in r'.wire.closed ==> c in r.wire.closed || Registered(r.subs, c))
    {
      CleanedChannel(r, done, c);
    }
  }

  /** A channel registered before CleanDone is registered after it or closed by it, and not both. */
  lemma CleanedChannel<T>(r: Registry<T>, done: set<nat>, c: Chan)
    requires Sound(r)
    ensures var r' := Apply(r, CleanDone(done));
            && (Registered(r.subs, c) <==> Registered(r'.subs, c) || (c in r'.wire.closed && c !in r.wire.closed))
            && (c in r'.wire.closed ==> !Registered(r'.subs, c))
            && (c in r'.wire.closed ==> c in r.wire.closed || Registered(r.subs, c))
  {
    MarkedAscends(done, |r.subs|);
    CloseDoneCloses(r.wire, r.subs, done, |r.subs|);
    CleanedRegistered(r.subs, done, c);
    if j :| 0 <= j < |r.subs| && r.subs[j].ch == c {
      assert forall i :: 0 <= i < |r.subs| && r.subs[i].ch == c ==> i == j;
    }
  }

  /** Each operation keeps the registry sound. */
  lemma ApplyKeepsSound<T>(r: Registry<T>, op: Op<T>)
    requires Sound(r) && (op.Push? ==> op.ch !in r.wire.log)
    ensures Sound(Apply(r, op))
  {
    match op
    case Push(ctx, ch) => PushKeepsSound(r, ctx, ch);
    case SendAll(message) => SendAllKeepsSound(r, message);
    case CleanDone(done) => CleanDoneKeepsSound(r, done);
  }

  ghost predicate Pushed<T>(ops: seq<Op<T>>, ch: Chan) {
    exists i :: 0 <= i < |ops| && ops[i].Push? && ops[i].ch == ch
  }

  lemma FreshInit<T>(init: seq<Op<T>>, op: Op<T>)
    requires FreshPushes(init + [op])
    ensures FreshPushes(init)
    ensures op.Push? ==> !Pushed(init, op.ch)
  {
    var ops := init + [op];
    assert ops[|init|] == op;
    assert forall i :: 0 <= i < |init| ==> ops[i] == init[i];
  }

  lemma PushedGrows<T>(init: seq<Op<T>>, op: Op<T>, ch: Chan)
    ensures Pushed(init + [op], ch) <==> Pushed(init, ch) || (op.Push? && op.ch == ch)
  {
    var ops := init + [op];
    assert ops[|init|] == op;
    if Pushed(init, ch) {
      var i :| 0 <= i < |init| && init[i].Push? && init[i].ch == ch;
      assert ops[i] == init[i];
    }
  }

  /**
    No run with fresh channels sends on a closed channel or closes one twice, and a channel is closed
    exactly when it was pushed and is registered no more.
   */
  lemma {:induction false} RunsAreSound<T>(ops: seq<Op<T>>)
    requires FreshPushes(ops)
    ensures Sound(Run(ops))
    ensures forall ch :: ch in Run(ops).wire.log <==> Pushed(ops, ch)
    ensures forall ch :: ch in Run(ops).wire.closed <==> Pushed(ops, ch) && !Registered(Run(ops).subs, ch)
  {
    if ops != [] {
      var init, op := ops[..|ops| - 1], ops[|ops| - 1];
      assert ops == init + [op];
      FreshInit(init, op);
      RunsAreSound(init);
      ApplyKeepsSound(Run(init), op);
      LogKeysGrow(Run(init), op);
      forall ch
        ensures Pushed(ops, ch) <==> Pushed(init, ch) || (op.Push? && op.ch == ch)
      {
        PushedGrows(init, op, ch);
      }
    }
  }

  lemma LogKeysGrow<T>(r: Registry<T>, op: Op<T>)
    requires Sound(r)
    ensures Apply(r, op).wire.log.Keys == r.wire.log.Keys + if op.Push? then {op.ch} else {}
  {
    if op.SendAll? {
      SendEachDelivers(r.wire, r.subs, op.message);
    } else if op.CleanDone? {
      CloseDoneCloses(r.wire, r.subs, op.done, |r.subs|);
    }
  }

  // ----- what reusing a channel does -----

  function Channels(subs: seq<Subscriber>): seq<Chan> {
    seq(|subs|, i requires 0 <= i < |subs| => subs[i].ch)
  }

  lemma {:induction false} ChannelsOfRemoved(subs: seq<Subscriber>, marks: seq<nat>)
    requires Ascending(marks, |subs|)
    ensures Channels(RemoveMarked(subs, marks)) == RemoveMarked<Chan>(Channels(subs), marks)
    decreases |marks|
  {
    if marks != [] {
      AscendingFits(marks, |subs|);
      var m := marks[|marks| - 1];
      assert Channels(SwapRemove(subs, m)) == SwapRemove<Chan>(Channels(subs), m);
      ChannelsOfRemoved(SwapRemove(subs, m), marks[..|marks| - 1]);
    }
  }

  function PushCount<T>(ops: seq<Op<T>>, ch: Chan): nat {
    if ops == [] then 0
    else
      var op := ops[|ops| - 1];
      PushCount(ops[..|ops| - 1], ch) + if op.Push? && op.ch == ch then 1 else 0
  }

  function ClosedCount<T>(w: Wire<T>, ch: Chan): nat {
    if ch in w.closed then 1 else 0
  }

  lemma {:induction false} SendEachCloses<T>(w: Wire<T>, subs: seq<Subscriber>, message: T)
    ensures SendEach(w, subs, message).closed == w.closed
    ensures w.panicked ==> SendEach(w, subs, message).panicked
  {
    if subs != [] {
      SendEachCloses(w, subs[..|subs| - 1], message);
    }
  }

  /** As long as nothing panics, each slot found done closes its channel for the first time. */
  lemma {:induction false} CloseDoneCounts<T>(w: Wire<T>, subs: seq<Subscriber>, done: set<nat>, n: nat, ch: Chan)
    requires n <= |subs|
    ensures var w' := CloseDone(w, subs, done, n);
            && (w.panicked ==> w'.panicked)
            && (!w'.panicked ==> ClosedCount(w', ch) == ClosedCount(w, ch) + multiset(Dead<Chan>(Channels(subs), done, n))[ch])
  {
    if n > 0 {
      CloseDoneCounts(w, subs, done, n - 1, ch);
      var dead := Dead<Chan>(Channels(subs), done, n - 1);
      if n - 1 in done {
        CountAppend(dead, subs[n - 1].ch, ch);
      } else {
        assert dead + [] == dead;
      }
    }
  }

  /** Each channel pushed is in a slot or closed, once per push, unless the process has panicked. */
  ghost predicate Tallied<T>(r: Registry<T>, pushes: nat, ch: Chan) {
    r.wire.panicked || pushes == multiset(Channels(r.subs))[ch] + ClosedCount(r.wire, ch)
  }

  lemma CleanedSlots(subs: seq<Subscriber>, done: set<nat>, marks: seq<nat>, ch: Chan)
    requires marks == Marked(done, |subs|) && Ascending(marks, |subs|)
    ensures multiset(Channels(RemoveMarked(subs, marks)))[ch] + multiset(Dead<Chan>(Channels(subs), done, |subs|))[ch]
         == multiset(Channels(subs))[ch]
  {
    ChannelsOfRemoved(subs, marks);
    RemovedAndDead<Chan>(Channels(subs), done, |subs|, marks, ch);
  }

  lemma CleanDoneTallies<T>(r: Registry<T>, done: set<nat>, pushes: nat, ch: Chan)
    requires Tallied(r, pushes, ch)
    ensures Tallied(Apply(r, CleanDone(done)), pushes, ch)
  {
    MarkedAscends(done, |r.subs|);
    CleanedSlots(r.subs, done, Marked(done, |r.subs|), ch);
    CloseDoneCounts(r.wire, r.subs, done, |r.subs|, ch);
  }

  lemma ApplyTallies<T>(r: Registry<T>, op: Op<T>, pushes: nat, ch: Chan)
    requires Tallied(r, pushes, ch)
    ensures Tallied(Apply(r, op), pushes + if op.Push? && op.ch == ch then 1 else 0, ch)
  {
    match op
    case Push(ctx, c) =>
      assert Channels(r.subs + [Subscriber(ctx, c)]) == Channels(r.subs) + [c];
      CountAppend(Channels(r.subs), c, ch);
    case SendAll(message) => SendEachCloses(r.wire, r.subs, message);
    case CleanDone(done) => CleanDoneTallies(r, done, pushes, ch);
  }

  lemma {:induction false} RunsAreTallied<T>(ops: seq<Op<T>>, ch: Chan)
    ensures Tallied(Run(ops), PushCount(ops, ch), ch)
  {
    if ops != [] {
      var init, op := ops[..|ops| - 1], ops[|ops| - 1];
      RunsAreTallied(init, ch);
      ApplyTallies(Run(init), op, PushCount(init, ch), ch);
    }
  }

  lemma {:induction false} PushCountsOne<T>(ops: seq<Op<T>>, i: nat)
    requires i < |ops| && ops[i].Push?
    ensures PushCount(ops, ops[i].ch) >= 1
  {
    if i < |ops| - 1 {
      PushCountsOne(ops[..|ops| - 1], i);
    }
  }

  lemma {:induction false} ReuseCountsTwo<T>(ops: seq<Op<T>>, i: nat, j: nat)
    requires i < j < |ops| && ops[i].Push? && ops[j].Push? && ops[i].ch == ops[j].ch
    ensures PushCount(ops, ops[i].ch) >= 2
  {
    var init := ops[..|ops| - 1];
    if j < |init| {
      ReuseCountsTwo(init, i, j);
    } else {
      PushCountsOne(init, i);
    }
  }

  /** The slots found done when every context is. */
  function AllSlots<T>(r: Registry<T>): set<nat> {
    SlotsOf(r.subs, set x | x in r.subs :: x.ctx)
  }

  lemma {:induction false} NoneLive<X>(s: seq<X>, done: set<nat>, n: nat)
    requires n <= |s| && forall i :: 0 <= i < n ==> i in done
    ensures Live(s, done, n) == []
  {
    if n > 0 {
      NoneLive(s, done, n - 1);
    }
  }

  lemma NothingLeft<X>(s: seq<X>)
    requires multiset(s) == multiset{}
    ensures s == []
  {
    assert |s| == |multiset(s)|;
  }

  lemma CleanAllEmpties<T>(r: Registry<T>, done: set<nat>)
    requires forall i :: 0 <= i < |r.subs| ==> i in done
    ensures Apply(r, CleanDone(done)).subs == []
  {
    MarkedAscends(done, |r.subs|);
    RemovalKeepsLive(r.subs, done);
    NoneLive(r.subs, done, |r.subs|);
    NothingLeft(RemoveMarked(r.subs, Marked(done, |r.subs|)));
  }

  /**
    Freshness is exactly what is needed: a run after which every context gets done ends without a panic
    if and only if no channel was pushed twice.
   */
  lemma ReusedChannelPanics<T>(ops: seq<Op<T>>)
    ensures FreshPushes(ops) <==> !Run(ops + [CleanDone(AllSlots(Run(ops)))]).wire.panicked
  {
    var done := AllSlots(Run(ops));
    if FreshPushes(ops) {
      RunsAreSound(ops + [Op<T>.CleanDone(done)]);
    } else {
      var i, j :| 0 <= i < j < |ops| && ops[i].Push? && ops[j].Push? && ops[i].ch == ops[j].ch;
      ReuseCountsTwo(ops, i, j);
      CleanAllEmpties(Run(ops), done);
      CountedTwicePanics(ops, done, ops[i].ch);
    }
  }

  lemma CountedTwicePanics<T>(ops: seq<Op<T>>, done: set<nat>, ch: Chan)
    requires PushCount(ops, ch) >= 2 && Apply(Run(ops), CleanDone(done)).subs == []
    ensures Run(ops + [CleanDone(done)]).wire.panicked
  {
    RunGrows(ops, Op<T>.CleanDone(done));
    RunsAreTallied(ops, ch);
    ApplyTallies(Run(ops), CleanDone(done), PushCount(ops, ch), ch);
  }

  // ----- delivery -----

  /** The messages published by these operations, in order. */
  function Published<T>(ops: seq<Op<T>>): seq<T> {
    if ops == [] then []
    else Published(ops[..|ops| - 1]) + if ops[|ops| - 1].SendAll? then [ops[|ops| - 1].message] else []
  }

  /** ch is registered before the k-th operation and not after it. */
  ghost predicate RemovedAt<T>(ops: seq<Op<T>>, ch: Chan, k: nat)
    requires k < |ops|
  {
    ops[k].CleanDone? && Registered(Run(ops[..k]).subs, ch) && !Registered(Run(ops[..k + 1]).subs, ch)
  }

  /** One operation, seen from a channel that was pushed before it. */
  lemma ChannelStep<T>(r: Registry<T>, op: Op<T>, ch: Chan)
    requires Sound(r) && ch in r.wire.log && (op.Push? ==> op.ch != ch)
    ensures ch in Apply(r, op).wire.log
    ensures Apply(r, op).wire.log[ch]
         == r.wire.log[ch] + if op.SendAll? && Registered(r.subs, ch) then [op.message] else []
    ensures Registered(Apply(r, op).subs, ch) ==> Registered(r.subs, ch)
    ensures !op.CleanDone? ==> (Registered(Apply(r, op).subs, ch) <==> Registered(r.subs, ch))
  {
    assert r.wire.log[ch] + [] == r.wire.log[ch];
    match op
    case Push(ctx, c) => PushRegisters(r.subs, Subscriber(ctx, c), ch);
    case SendAll(message) => SendEachDelivers(r.wire, r.subs, message);
    case CleanDone(done) =>
      MarkedAscends(done, |r.subs|);
      CloseDoneCloses(r.wire, r.subs, done, |r.subs|);
      CleanedRegistered(r.subs, done, ch);
  }

  lemma PublishedGrows<T>(ops: seq<Op<T>>, op: Op<T>)
    ensures Published(ops + [op]) == Published(ops) + if op.SendAll? then [op.message] else []
  {
    assert (ops + [op])[..|ops|] == ops;
  }

  /** What delivery means for the channel pushed by the i-th operation, served up to the k-th. */
  ghost predicate Served<T>(ops: seq<Op<T>>, i: nat, k: nat)
    requires i < |ops| && ops[i].Push?
  {
    var ch, r := ops[i].ch, Run(ops);
    && i < k <= |ops|
    && ch in r.wire.log && r.wire.log[ch] == Published(ops[i..k])
    && if Registered(r.subs, ch) then k == |ops| else k < |ops| && RemovedAt(ops, ch, k)
  }

  lemma JustPushed<T>(init: seq<Op<T>>, op: Op<T>)
    requires FreshPushes(init + [op]) && op.Push?
    ensures Served(init + [op], |init|, |init| + 1)
  {
    var ops := init + [op];
    FreshInit(init, op);
    RunsAreSound(init);
    assert ops[|init|] == op;
    assert ops[..|init|] == init;
    PushRegisters(Run(init).subs, Subscriber(op.ctx, op.ch), op.ch);
    assert ops[|init|..] == [] + [op];
    PublishedGrows([], op);
  }

  /** One more operation while the channel is registered. */
  lemma StillServed<T>(init: seq<Op<T>>, op: Op<T>, i: nat) returns (k: nat)
    requires FreshPushes(init + [op]) && i < |init| && init[i].Push?
    requires Served(init, i, |init|) && Registered(Run(init).subs, init[i].ch)
    ensures Served(init + [op], i, k)
  {
    var ops, ch := init + [op], init[i].ch;
    FreshInit(init, op);
    RunsAreSound(init);
    assert ops[i] == init[i] && ops[|init|] == op && ops[..|init|] == init && ops[..|ops|] == ops;
    ChannelStep(Run(init), op, ch);
    if Registered(Run(ops).subs, ch) {
      k := |ops|;
      SliceOfAppend(init, op, i, |init|);
      assert ops[i..k] == ops[i..] && init[i..|init|] == init[i..];
      PublishedGrows(init[i..], op);
    } else {
      k := |init|;
      SliceOfAppend(init, op, i, k);
      assert RemovedAt(ops, ch, k);
    }
  }

  lemma RemovedAtStays<T>(init: seq<Op<T>>, op: Op<T>, ch: Chan, k: nat)
    requires k < |init| && RemovedAt(init, ch, k)
    ensures RemovedAt(init + [op], ch, k)
  {
    SliceOfAppend(init, op, 0, k);
    SliceOfAppend(init, op, 0, k + 1);
    assert init[0..k] == init[..k] && init[0..k + 1] == init[..k + 1];
  }

  /** One more operation after the channel was removed. */
  lemma NoLongerServed<T>(init: seq<Op<T>>, op: Op<T>, i: nat, k: nat)
    requires FreshPushes(init + [op]) && i < |init| && init[i].Push?
    requires Served(init, i, k) && !Registered(Run(init).subs, init[i].ch)
    ensures Served(init + [op], i, k)
  {
    var ops, ch := init + [op], init[i].ch;
    FreshInit(init, op);
    RunsAreSound(init);
    RunGrows(init, op);
    assert ops[i] == init[i] && ops[|init|] == op;
    ChannelStep(Run(init), op, ch);
    SliceOfAppend(init, op, i, k);
    RemovedAtStays(init, op, ch, k);
  }

  /**
    Contiguous delivery: in every run with fresh channels, the channel pushed by the i-th operation has
    received exactly what was published from then up to its removal (the k-th operation), or up to now
    if it is still registered.
   */
  lemma DeliveryIsContiguous<T>(ops: seq<Op<T>>, i: nat) returns (k: nat)
    requires FreshPushes(ops) && i < |ops| && ops[i].Push?
    ensures Served(ops, i, k)
    ensures var ch, r := ops[i].ch, Run(ops);
            && i < k <= |ops| && ch in r.wire.log && r.wire.log[ch] == Published(ops[i..k])
            && ((exists j :: 0 <= j < |r.subs| && r.subs[j].ch == ch) ==> k == |ops|)
            && ((forall j :: 0 <= j < |r.subs| ==> r.subs[j].ch != ch) ==> k < |ops| && ops[k].CleanDone?)
  {
    k := ServedSomehow(ops, i);
    var ch, r := ops[i].ch, Run(ops);
    assert Registered(r.subs, ch) <==> exists j :: 0 <= j < |r.subs| && r.subs[j].ch == ch;
  }

  lemma {:induction false} ServedSomehow<T>(ops: seq<Op<T>>, i: nat) returns (k: nat)
    requires FreshPushes(ops) && i < |ops| && ops[i].Push?
    ensures Served(ops, i, k)
  {
    var init, op := ops[..|ops| - 1], ops[|ops| - 1];
    assert ops == init + [op];
    if i == |init| {
      k := |ops|;
      JustPushed(init, op);
    } else {
      k := ServedSomehow(init, i);
      if Registered(Run(init).subs, init[i].ch) {
        k := StillServed(init, op, i);
      } else {
        NoLongerServed(init, op, i, k);
      }
    }
  }

  // ----- cleaning by context -----

  /** The slots whose context is among the done ones. */
  function SlotsOf(subs: seq<Subscriber>, contexts: set<nat>): set<nat> {
    set i: nat | i < |subs| && subs[i].ctx in contexts
  }

  /** Cleaning again with the same done contexts changes nothing, slots and channels included. */
  lemma CleanIsIdempotent<T>(r: Registry<T>, contexts: set<nat>)
    ensures var once := Apply(r, CleanDone(SlotsOf(r.subs, contexts)));
            Apply(once, CleanDone(SlotsOf(once.subs, contexts))) == once
  {
    var done := SlotsOf(r.subs, contexts);
    MarkedAscends(done, |r.subs|);
    var once := Apply(r, CleanDone(done));
    forall k | 0 <= k < |once.subs|
      ensures once.subs[k].ctx !in contexts
    {
      CleanedMembers(r.subs, done, once.subs[k]);
    }
    assert SlotsOf(once.subs, contexts) == {};
    NothingMarked(once.wire, once.subs, |once.subs|);
  }

  lemma {:induction false} NothingMarked<T>(w: Wire<T>, subs: seq<Subscriber>, n: nat)
    requires n <= |subs|
    ensures Marked({}, n) == [] && CloseDone(w, subs, {}, n) == w
  {
    if n > 0 {
      NothingMarked(w, subs, n - 1);
    }
  }

  // ----- the registry object -----

  lemma PushFollowsRun<T>(ops: seq<Op<T>>, subs: seq<Subscriber>, wire: Wire<T>, ctx: nat, ch: Chan)
    requires Registry(subs, wire) == Run(ops)
    ensures var ops' := ops + [Op.Push(ctx, ch)];
            Registry(subs + [Subscriber(ctx, ch)],
                        wire.(log := if ch in wire.log then wire.log else wire.log[ch := []])) == Run(ops')
  {
    RunGrows(ops, Op<T>.Push(ctx, ch));
  }

  lemma CleanDoneFollowsRun<T>(ops: seq<Op<T>>, subs: seq<Subscriber>, wire: Wire<T>, done: set<nat>)
    requires Registry(subs, wire) == Run(ops)
    ensures Ascending(Marked(done, |subs|), |subs|)
    ensures var ops', left, wire' := ops + [Op.CleanDone(done)], RemoveMarked(subs, Marked(done, |subs|)), CloseDone(wire, subs, done, |subs|);
            && Registry(left, wire') == Run(ops')
            && multiset(left) == multiset(Live(subs, done, |subs|))
            && (FreshPushes(ops')
                ==> && !wire'.panicked
                    && forall ch :: ch in wire'.closed
                         <==> ch in wire.closed || exists i :: 0 <= i < |subs| && i in done && subs[i].ch == ch)
  {
    MarkedAscends(done, |subs|);
    RemovalKeepsLive(subs, done);
    RunGrows(ops, Op<T>.CleanDone(done));
    if FreshPushes(ops + [Op.CleanDone(done)]) {
      RunsAreSound(ops + [Op.CleanDone(done)]);
      FreshInit(ops, Op.CleanDone(done));
      RunsAreSound(ops);
      CloseDoneCloses(wire, subs, done, |subs|);
    }
  }

  lemma SendAllFollowsRun<T>(ops: seq<Op<T>>, subs: seq<Subscriber>, wire: Wire<T>, message: T)
    requires Registry(subs, wire) == Run(ops)
    ensures var ops', wire' := ops + [Op.SendAll(message)], SendEach(wire, subs, message);
            && Registry(subs, wire') == Run(ops')
            && (FreshPushes(ops')
                ==> && !wire'.panicked && wire'.log.Keys == wire.log.Keys && wire'.closed == wire.closed
                    && forall ch :: ch in wire'.log
                         ==> wire'.log[ch] == wire.log[ch] + if Registered(subs, ch) then [message] else [])
  {
    RunGrows(ops, Op.SendAll(message));
    if FreshPushes(ops + [Op.SendAll(message)]) {
      RunsAreSound(ops + [Op.SendAll(message)]);
      FreshInit(ops, Op.SendAll(message));
      RunsAreSound(ops);
      SendEachDelivers(wire, subs, message);
    }
  }

  lemma SendEachGrows<T>(w: Wire<T>, subs: seq<Subscriber>, x: Subscriber, message: T)
    ensures SendEach(w, subs + [x], message) == Send(SendEach(w, subs, message), x.ch, message)
  {
    assert (subs + [x])[..|subs|] == subs;
  }

  /** subsImpl: the first n slots of subs are the slice; ops and wire record what happened. */
  class SubscribersImpl<T> {
    var subs: array<Subscriber>
    var n: nat
    ghost var wire: Wire<T>
    ghost var ops: seq<Op<T>>

    /** The object is in the state of the machine after ops. */
    ghost predicate Valid()
      reads this, subs
    {
      n <= subs.Length && Registry(subs[..n], wire) == Run(ops)
    }

    constructor ()
      ensures Valid() && ops == [] && fresh(subs)
    {
      subs := new Subscriber[0];
      n := 0;
      wire := Wire(map[], {}, false);
      ops := [];
    }

    method Push(ctx: nat, ch: Chan)
      requires Valid()
      modifies this, subs
      ensures Valid() && ops == old(ops) + [Op.Push(ctx, ch)]
      ensures subs[..n] == old(subs[..n]) + [Subscriber(ctx, ch)]
      ensures subs == old(subs) || fresh(subs)
    {
      if n == subs.Length {
        subs := Grow(subs);
      }
      subs[n] := Subscriber(ctx, ch);
      n := n + 1;
      wire := wire.(log := if ch in wire.log then wire.log else wire.log[ch := []]);
      PushFollowsRun(ops, old(subs[..n]), old(wire), ctx, ch);
      ops := ops + [Op.Push(ctx, ch)];
    }

    method SendAll(message: T)
      requires Valid()
      modifies this`wire, this`ops
      ensures Valid() && ops == old(ops) + [Op.SendAll(message)]
      ensures FreshPushes(ops)
              ==> && wire.log.Keys == old(wire.log.Keys) && wire.closed == old(wire.closed)
                  && forall ch :: ch in wire.log
                       ==> wire.log[ch] == old(wire.log)[ch] + if Registered(subs[..n], ch) then [message] else []
      ensures FreshPushes(ops) ==> !wire.panicked
    {
      SendAllFollowsRun(ops, subs[..n], wire, message);
      ghost var before := wire;
      for i := 0 to n
        invariant wire == SendEach(before, subs[..i], message) && ops == old(ops)
      {
        assert subs[..i + 1] == subs[..i] + [subs[i]];
        SendEachGrows(before, subs[..i], subs[i], message);
        wire := Send(wire, subs[i].ch, message);
      }
      ops := ops + [Op.SendAll(message)];
    }

    /** done tells, slot by slot, which contexts are found done. */
    method CleanDone(done: set<nat>)
      requires Valid()
      modifies this, subs
      ensures Valid() && ops == old(ops) + [Op.CleanDone(done)] && subs == old(subs)
      ensures multiset(subs[..n]) == multiset(Live(old(subs[..n]), done, old(n)))
      ensures FreshPushes(ops)
              ==> forall ch :: ch in wire.closed
                    <==> ch in old(wire.closed) || exists i :: 0 <= i < |old(subs[..n])| && i in done && old(subs[..n])[i].ch == ch
      ensures FreshPushes(ops) ==> !wire.panicked
    {
      CleanDoneFollowsRun(ops, subs[..n], wire, done);
      var forRemove := CollectDone(done);
      n := RemoveInPlace(subs, n, forRemove);
      ops := ops + [Op.CleanDone(done)];
    }

    /** The first loop: close what is done and remember where it was. */
    method CollectDone(done: set<nat>) returns (forRemove: seq<nat>)
      requires n <= subs.Length
      modifies this`wire
      ensures forRemove == Marked(done, n)
      ensures wire == CloseDone(old(wire), subs[..n], done, n)
    {
      forRemove := [];
      for i := 0 to n
        invariant forRemove == Marked(done, i)
        invariant wire == CloseDone(old(wire), subs[..n], done, i)
      {
        if i in done {
          wire := Close(wire, subs[i].ch);
          forRemove := forRemove + [i];
        }
      }
    }
  }

  /** append beyond the capacity: a larger array with the same front. */
  method Grow(subs: array<Subscriber>) returns (larger: array<Subscriber>)
    ensures fresh(larger) && larger.Length > subs.Length && larger[..subs.Length] == subs[..]
  {
    larger := new Subscriber[2 * subs.Length + 1];
    for i := 0 to subs.Length
      invariant larger[..i] == subs[..i]
    {
      larger[i] := subs[i];
    }
    assert subs[..subs.Length] == subs[..];
  }
}
