/**
  The per-user cache that expires at the next local midnight
  (pkg/api/v2/graphql/teaoftheday_cache.go), sequentially and under interleaving.
 */
module DayCache {
  import opened Basics

  // ----- local days -----

  /** A time zone: the local day an instant falls on, and the first instant of each local day. */
  datatype Zone = Zone(day: Instant -> int, start: int -> Instant) {
    /** Days have increasing starts and every instant lies within its day. */
    ghost predicate Valid() {
      && (forall d, e :: d < e ==> start(d) < start(e))
      && (forall t :: start(day(t)) <= t < start(day(t) + 1))
    }

    /** time.Date(y, m, d+1, 0, 0, 0, 0, loc) */
    function NextMidnight(t: Instant): Instant {
      start(day(t) + 1)
    }
  }

  /** Every zone with a fixed offset from UTC is one. */
  lemma FixedOffsetIsValid(offset: int)
    ensures Zone(t => (t + offset) / DAY, d => d * DAY - offset).Valid()
  {
  }

  /** What is set at s lives exactly through the instants of days up to that of s. */
  lemma LivesThroughItsDay(z: Zone, s: Instant, t: Instant)
    requires z.Valid()
    ensures t < z.NextMidnight(s) <==> z.day(t) <= z.day(s)
    ensures s < z.NextMidnight(s)
  {
    assert z.start(z.day(t)) <= t < z.start(z.day(t) + 1);
    assert z.start(z.day(s)) <= s < z.start(z.day(s) + 1);
    if z.day(t) > z.day(s) && z.day(t) != z.day(s) + 1 {
      assert z.start(z.day(s) + 1) < z.start(z.day(t));
    }
    if z.day(t) < z.day(s) {
      assert z.start(z.day(t) + 1) < z.start(z.day(s) + 1);
    }
  }

  // ----- the cache, one call at a time -----

  datatype Entry<V> = Entry(val: V, expiresAt: Instant)

  predicate Fresh<V>(items: map<Uuid, Entry<V>>, user: Uuid, now: Instant) {
    user in items && now < items[user].expiresAt
  }

  class Cache<V> {
    var items: map<Uuid, Entry<V>>
    const zone: Zone

    constructor (zone: Zone)
      ensures items == map[] && this.zone == zone
    {
      items := map[];
      this.zone := zone;
    }

    /** A fresh entry is returned; an expired one is deleted, lazily. */
    method Get(user: Uuid, now: Instant) returns (val: Option<V>)
      modifies this
      ensures val == if user in old(items) && now < old(items)[user].expiresAt then Some(old(items)[user].val) else None
      ensures items == if user in old(items) && now < old(items)[user].expiresAt then old(items) else old(items) - {user}
    {
      if user !in items {
        assert items - {user} == items;
        return None;
      }
      var entry := items[user];
      if !(now < entry.expiresAt) {
        if user in items && !(now < items[user].expiresAt) {
          items := items - {user};
        }
        return None;
      }
      return Some(entry.val);
    }

    method Set(user: Uuid, val: V, now: Instant)
      modifies this
      ensures items == old(items)[user := Entry(val, zone.start(zone.day(now) + 1))]
    {
      var exp := zone.NextMidnight(now);
      items := items[user := Entry(val, exp)];
    }
  }

  // ----- any number of concurrent Gets and Sets -----

  /**
    The critical sections. Look is the read-locked half of Get; a Get that sees an expired entry
    goes on to Recheck, at any later moment. Set is one critical section.
   */
  datatype Step<V> =
    | Look(thread: nat, user: Uuid, now: Instant)
    | Recheck(thread: nat)
    | Set(user: Uuid, val: V, now: Instant)

  datatype Doubt = Doubt(user: Uuid, now: Instant)

  /** doubts holds the Gets between their two critical sections. */
  datatype World<V> = World(items: map<Uuid, Entry<V>>, doubts: map<nat, Doubt>)

  predicate Enabled<V>(w: World<V>, s: Step<V>) {
    match s
    case Look(thread, _, _) => thread !in w.doubts
    case Recheck(thread) => thread in w.doubts
    case Set(_, _, _) => true
  }

  function Next<V>(z: Zone, w: World<V>, s: Step<V>): World<V>
    requires Enabled(w, s)
  {
    match s
    case Look(thread, user, now) =>
      if user in w.items && !(now < w.items[user].expiresAt) then w.(doubts := w.doubts[thread := Doubt(user, now)]) else w
    case Recheck(thread) =>
      var d := w.doubts[thread];
      var items := if d.user in w.items && !(d.now < w.items[d.user].expiresAt) then w.items - {d.user} else w.items;
      World(items, w.doubts - {thread})
    case Set(user, val, now) =>
      w.(items := w.items[user := Entry(val, z.NextMidnight(now))])
  }

  /** What Look returns to its caller: a hit, or nothing (now or after Recheck). */
  function Answer<V>(w: World<V>, user: Uuid, now: Instant): Option<V> {
    if Fresh(w.items, user, now) then Some(w.items[user].val) else None
  }

  /** w is reached from an empty cache by steps. */
  ghost predicate Reaches<V(!new)>(z: Zone, steps: seq<Step<V>>, w: World<V>)
    decreases |steps|
  {
    if steps == [] then w == World(map[], map[])
    else
      var init, s := steps[..|steps| - 1], steps[|steps| - 1];
      exists before: World<V> :: Reaches(z, init, before) && Enabled(before, s) && w == Next(z, before, s)
  }

  /** The latest Set for a user. */
  function LatestSet<V>(steps: seq<Step<V>>, user: Uuid): Option<Step<V>> {
    if steps == [] then None
    else
      var s := steps[|steps| - 1];
      if s.Set? && s.user == user then Some(s) else LatestSet(steps[..|steps| - 1], user)
  }

  lemma {:induction false} LatestSetIsSet<V>(steps: seq<Step<V>>, user: Uuid)
    ensures var s := LatestSet(steps, user); s.Some? ==> s.value in steps && s.value.Set? && s.value.user == user
  {
    if steps != [] {
      LatestSetIsSet(steps[..|steps| - 1], user);
    }
  }

  ghost predicate EntryOf<V>(z: Zone, e: Entry<V>, s: Option<Step<V>>) {
    s.Some? && s.value.Set? && e == Entry(s.value.val, z.NextMidnight(s.value.now))
  }

  /** Whatever the interleaving: an entry is always the one its user's latest Set wrote, and a doubt was a Look. */
  lemma {:induction false} EntriesComeFromLatestSet<V(!new)>(z: Zone, steps: seq<Step<V>>, w: World<V>)
    requires Reaches(z, steps, w)
    ensures forall u :: u in w.items ==> EntryOf(z, w.items[u], LatestSet(steps, u))
    ensures forall t :: t in w.doubts ==> Look(t, w.doubts[t].user, w.doubts[t].now) in steps
    decreases |steps|
  {
    if steps != [] {
      var init, s := steps[..|steps| - 1], steps[|steps| - 1];
      var before: World<V> :| Reaches(z, init, before) && Enabled(before, s) && w == Next(z, before, s);
      EntriesComeFromLatestSet(z, init, before);
      assert steps == init + [s];
    }
  }

  /**
    Only Recheck removes an entry, and only one whose day, that of the user's latest Set, was over
    at the time its own Look was called with.
   */
  lemma DeletesOnlyExpired<V(!new)>(z: Zone, steps: seq<Step<V>>, w: World<V>, s: Step<V>, user: Uuid)
    requires z.Valid() && Reaches(z, steps, w) && Enabled(w, s)
    requires user in w.items && user !in Next(z, w, s).items
    ensures s.Recheck?
    ensures var d := w.doubts[s.thread];
            && d.user == user && Look(s.thread, user, d.now) in steps
            && LatestSet(steps, user).Some? && LatestSet(steps, user).value.Set?
            && z.day(d.now) > z.day(LatestSet(steps, user).value.now)
  {
    EntriesComeFromLatestSet(z, steps, w);
    LivesThroughItsDay(z, LatestSet(steps, user).value.now, w.doubts[s.thread].now);
  }

  /** Nobody has looked up user at or after the expiry of its latest Set. */
  ghost predicate NoLateLook<V>(steps: seq<Step<V>>, user: Uuid, expiry: Instant) {
    forall s :: s in steps && s.Look? && s.user == user ==> s.now < expiry
  }

  /** No fresh Set is lost: until someone looks at or after its expiry, its entry is there. */
  lemma {:induction false} FreshSetSurvives<V(!new)>(z: Zone, steps: seq<Step<V>>, w: World<V>, user: Uuid)
    requires Reaches(z, steps, w)
    requires var s := LatestSet(steps, user);
             s.Some? && s.value.Set? && NoLateLook(steps, user, z.NextMidnight(s.value.now))
    ensures user in w.items && EntryOf(z, w.items[user], LatestSet(steps, user))
    decreases |steps|
  {
    var init, s := steps[..|steps| - 1], steps[|steps| - 1];
    var before: World<V> :| Reaches(z, init, before) && Enabled(before, s) && w == Next(z, before, s);
    assert steps == init + [s];
    if !(s.Set? && s.user == user) {
      FreshSetSurvives(z, init, before, user);
      EntriesComeFromLatestSet(z, init, before);
    }
  }

  /**
    In any interleaving, a lookup that is not earlier than the others for its user hits exactly when
    the user's latest Set happened on the same or a later local day, and it returns that value.
   */
  lemma LookupRefinesLatestSet<V(!new)>(z: Zone, steps: seq<Step<V>>, w: World<V>, user: Uuid, now: Instant)
    requires z.Valid() && Reaches(z, steps, w)
    requires forall s :: s in steps && s.Look? && s.user == user ==> s.now <= now
    ensures var s := LatestSet(steps, user);
            Answer(w, user, now)
            == if s.Some? && s.value.Set? && z.day(now) <= z.day(s.value.now) then Some(s.value.val) else None
  {
    var s := LatestSet(steps, user);
    EntriesComeFromLatestSet(z, steps, w);
    if s.Some? && s.value.Set? {
      LivesThroughItsDay(z, s.value.now, now);
      if z.day(now) <= z.day(s.value.now) {
        FreshSetSurvives(z, steps, w, user);
      }
    }
  }

  /** Without any assumption on the clocks, a hit is the value of the latest Set, on its day or before. */
  lemma HitIsLatestSet<V(!new)>(z: Zone, steps: seq<Step<V>>, w: World<V>, user: Uuid, now: Instant)
    requires z.Valid() && Reaches(z, steps, w)
    requires Answer(w, user, now).Some?
    ensures var s := LatestSet(steps, user);
            && s.Some? && s.value.Set? && s.value.val == Answer(w, user, now).value
            && z.day(now) <= z.day(s.value.now)
  {
    EntriesComeFromLatestSet(z, steps, w);
    LivesThroughItsDay(z, LatestSet(steps, user).value.now, now);
  }
}
