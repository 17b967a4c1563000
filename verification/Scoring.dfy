/**
  The tea-of-the-day selection rules (internal/scoring/scoring.go): the score of one tea,
  the greedy scan over all candidates, and its logging twin.
 */
module Scoring {
  import opened Basics

  const AI_SCORE_MIN := 0
  const AI_SCORE_MAX := 15
  const RECENT_24H := 24 * HOUR
  const RECENT_48H := 48 * HOUR
  const PENALTY_WITHIN_24H := 5
  const PENALTY_WITHIN_48H := 3
  const EXP_SOON_THRESHOLD := 7 * DAY
  const EXP_UPCOMING_THRESHOLD := 30 * DAY
  const BONUS_EXP_SOON := 3
  const BONUS_EXP_UPCOMING := 1
  const INITIAL_BEST_SCORE := -0x4000_0000

  /** expiration is ZERO_TIME when unknown. */
  datatype Candidate = Candidate(id: Uuid, name: Bytes, expiration: Instant) {
    predicate Dated() {
      expiration != ZERO_TIME
    }
  }

  /** What a selection is made against: AI scores, latest consumption per tea, current time. */
  datatype Context = Context(ai: map<Uuid, int>, last: map<Uuid, Instant>, now: Instant)

  /** The AI score, moved into 0..15; a tea without one gets 0. */
  function ClampedAIScore(ai: map<Uuid, int>, id: Uuid): (r: int)
    ensures AI_SCORE_MIN <= r <= AI_SCORE_MAX
    ensures id !in ai ==> r == 0
    ensures id in ai && AI_SCORE_MIN <= ai[id] <= AI_SCORE_MAX ==> r == ai[id]
    ensures id in ai && r < ai[id] ==> r == AI_SCORE_MAX
    ensures id in ai && r > ai[id] ==> r == AI_SCORE_MIN
  {
    if id !in ai then 0
    else if ai[id] < AI_SCORE_MIN then AI_SCORE_MIN
    else if ai[id] > AI_SCORE_MAX then AI_SCORE_MAX
    else ai[id]
  }

  /** 5 for a tea drunk within 24 hours (or in the future), 3 within 48, whatever the clock range. */
  function RecentPenalty(last: map<Uuid, Instant>, id: Uuid, now: Instant): (r: int)
    ensures r == -5 <==> id in last && last[id] >= now - 24 * HOUR
    ensures r == -3 <==> id in last && now - 48 * HOUR <= last[id] < now - 24 * HOUR
    ensures r == -5 || r == -3 || r == 0
  {
    if id !in last then 0
    else if Sub(now, last[id]) <= RECENT_24H then -PENALTY_WITHIN_24H
    else if Sub(now, last[id]) <= RECENT_48H then -PENALTY_WITHIN_48H
    else 0
  }

  /** 3 for a known expiration at most 7 days ahead (or past), 1 at most 30 days ahead. */
  function ExpirationBonus(expiration: Instant, now: Instant): (r: int)
    ensures r == 3 <==> expiration != ZERO_TIME && expiration <= now + 7 * DAY
    ensures r == 1 <==> expiration != ZERO_TIME && now + 7 * DAY < expiration <= now + 30 * DAY
    ensures r == 3 || r == 1 || r == 0
  {
    if expiration == ZERO_TIME then 0
    else if Sub(expiration, now) <= EXP_SOON_THRESHOLD then BONUS_EXP_SOON
    else if Sub(expiration, now) <= EXP_UPCOMING_THRESHOLD then BONUS_EXP_UPCOMING
    else 0
  }

  function Score(ctx: Context, c: Candidate): (r: int)
    ensures -PENALTY_WITHIN_24H <= r <= AI_SCORE_MAX + BONUS_EXP_SOON
  {
    ClampedAIScore(ctx.ai, c.id) + RecentPenalty(ctx.last, c.id, ctx.now) + ExpirationBonus(c.expiration, ctx.now)
  }

  // ----- the greedy scan -----

  /** The name of the first candidate with this id. */
  function NameOf(candidates: seq<Candidate>, id: Uuid): Bytes {
    if candidates == [] then []
    else if candidates[0].id == id then candidates[0].name
    else NameOf(candidates[1..], id)
  }

  /** The name of the first candidate with this id, empty if there is none. */
  method CandidateName(candidates: seq<Candidate>, id: Uuid) returns (name: Bytes)
    ensures name == NameOf(candidates, id)
    ensures forall k :: 0 <= k < |candidates| && candidates[k].id == id && (forall j :: 0 <= j < k ==> candidates[j].id != id)
              ==> name == candidates[k].name
    ensures (forall k :: 0 <= k < |candidates| ==> candidates[k].id != id) ==> name == []
  {
    for i := 0 to |candidates|
      invariant forall j :: 0 <= j < i ==> candidates[j].id != id
      invariant NameOf(candidates, id) == NameOf(candidates[i..], id)
    {
      if candidates[i].id == id {
        return candidates[i].name;
      }
    }
    return [];
  }

  /** The best candidate so far and its score; an id of NIL means "none yet". */
  datatype Pick = Pick(best: Candidate, score: int)

  const NO_PICK := Pick(Candidate(NIL, [], ZERO_TIME), INITIAL_BEST_SCORE)

  predicate Better(curr: Candidate, currScore: int, best: Candidate, bestScore: int, bestName: Bytes) {
    if currScore > bestScore then true
    else if currScore < bestScore then false
    else if curr.Dated() && (!best.Dated() || curr.expiration < best.expiration) then true
    else if curr.Dated() && curr.expiration > best.expiration then false
    else LexLess(curr.name, bestName)
  }

  function Consider(ctx: Context, p: Pick, c: Candidate, all: seq<Candidate>): Pick {
    if p.best.id == NIL || Better(c, Score(ctx, c), p.best, p.score, NameOf(all, p.best.id))
    then Pick(c, Score(ctx, c))
    else p
  }

  /** The pick after scanning seen, looking names up in all. */
  function Scan(ctx: Context, seen: seq<Candidate>, all: seq<Candidate>): Pick {
    if seen == [] then NO_PICK
    else Consider(ctx, Scan(ctx, seen[..|seen| - 1], all), seen[|seen| - 1], all)
  }

  function Select(ctx: Context, candidates: seq<Candidate>): Pick {
    Scan(ctx, candidates, candidates)
  }

  /** Of two names, one the beginning of the other, the shorter comes first; otherwise the first difference decides. */
  lemma NameTie(c: Bytes, d: Bytes)
    ensures LexLess(c, d) <==> exists i :: 0 <= i < |d| && i <= |c| && c[..i] == d[..i] && (i == |c| || c[i] < d[i])
    ensures c < d ==> LexLess(c, d)
    ensures d <= c ==> !LexLess(c, d)
  {
    LexLessAtDifference(c, d);
    LexTotal(c, d);
    if c < d {
      assert d == c + d[|c|..];
      LexLessExtension(c, d[|c|..]);
    }
    if d <= c {
      assert c == d + c[|d|..];
      LexLessExtension(d, c[|d|..]);
    }
  }

  /**
    The higher score wins; of equal scores, a known expiration beats an unknown or later one; otherwise
    the smaller name wins, that is, the one that has ended or has the smaller byte where the names differ.
   */
  method BetterCandidate(curr: Candidate, currScore: int, best: Candidate, bestScore: int, candidates: seq<Candidate>)
    returns (b: bool)
    ensures b == Better(curr, currScore, best, bestScore, NameOf(candidates, best.id))
    ensures currScore != bestScore ==> (b <==> currScore > bestScore)
    ensures currScore == bestScore && curr.expiration != ZERO_TIME && curr.expiration != best.expiration
            ==> (b <==> best.expiration == ZERO_TIME || curr.expiration < best.expiration)
    ensures currScore == bestScore && (curr.expiration == ZERO_TIME || curr.expiration == best.expiration)
            ==> var c, d := curr.name, NameOf(candidates, best.id);
                (b <==> exists i :: 0 <= i < |d| && i <= |c| && c[..i] == d[..i] && (i == |c| || c[i] < d[i]))
    ensures currScore == bestScore && curr.expiration == best.expiration
            ==> (curr.name < NameOf(candidates, best.id) ==> b) && (NameOf(candidates, best.id) <= curr.name ==> !b)
  {
    NameTie(curr.name, NameOf(candidates, best.id));
    if currScore > bestScore {
      return true;
    }
    if currScore < bestScore {
      return false;
    }
    if curr.expiration != ZERO_TIME {
      if best.expiration == ZERO_TIME || curr.expiration < best.expiration {
        return true;
      }
      if curr.expiration > best.expiration {
        return false;
      }
    }
    var name := CandidateName(candidates, best.id);
    return LexLess(curr.name, name);
  }

  /** The winner's score is the sum of its three parts, and no candidate has a greater sum. */
  method SelectBest(ctx: Context, candidates: seq<Candidate>) returns (id: Uuid, score: int)
    ensures id == Select(ctx, candidates).best.id && score == Select(ctx, candidates).score
    ensures candidates == [] ==> id == NIL && score == -0x4000_0000
    ensures candidates != [] && (forall c :: c in candidates ==> c.id != NIL)
            ==> exists w :: w in candidates && w.id == id
                  && score == ClampedAIScore(ctx.ai, w.id) + RecentPenalty(ctx.last, w.id, ctx.now)
                              + ExpirationBonus(w.expiration, ctx.now)
    ensures (forall c :: c in candidates ==> c.id != NIL)
            ==> forall c :: c in candidates
                  ==> ClampedAIScore(ctx.ai, c.id) + RecentPenalty(ctx.last, c.id, ctx.now)
                      + ExpirationBonus(c.expiration, ctx.now) <= score
  {
    WinnerInPlainTerms(ctx, candidates);
    var best := Candidate(NIL, [], ZERO_TIME);
    var bestScore := INITIAL_BEST_SCORE;
    for i := 0 to |candidates|
      invariant Pick(best, bestScore) == Scan(ctx, candidates[..i], candidates)
    {
      var c := candidates[i];
      var s := 0;
      s := s + ClampedAIScore(ctx.ai, c.id);
      s := s + RecentPenalty(ctx.last, c.id, ctx.now);
      s := s + ExpirationBonus(c.expiration, ctx.now);
      var better := best.id == NIL;
      if !better {
        better := BetterCandidate(c, s, best, bestScore, candidates);
      }
      assert candidates[..i + 1][..i] == candidates[..i];
      if better {
        best := c;
        bestScore := s;
      }
    }
    assert candidates[..|candidates|] == candidates;
    return best.id, bestScore;
  }

  // ----- score maximality, for any expirations and repeated ids -----

  predicate NoneNil(candidates: seq<Candidate>) {
    forall c :: c in candidates ==> c.id != NIL
  }

  predicate Distinct(candidates: seq<Candidate>) {
    forall i, j :: 0 <= i < j < |candidates| ==> candidates[i].id != candidates[j].id
  }

  lemma {:induction false} ScanIsMember(ctx: Context, seen: seq<Candidate>, all: seq<Candidate>)
    ensures var p := Scan(ctx, seen, all);
            if seen == [] then p == NO_PICK else p.best in seen && p.score == Score(ctx, p.best)
  {
    if seen != [] {
      ScanIsMember(ctx, seen[..|seen| - 1], all);
    }
  }

  lemma {:induction false} ScanIsMaximal(ctx: Context, seen: seq<Candidate>, all: seq<Candidate>)
    requires NoneNil(seen)
    ensures forall c :: c in seen ==> Score(ctx, c) <= Scan(ctx, seen, all).score
  {
    if seen != [] {
      var init, last := seen[..|seen| - 1], seen[|seen| - 1];
      ScanIsMaximal(ctx, init, all);
      ScanIsMember(ctx, init, all);
      assert seen == init + [last];
    }
  }

  /** A winner exists exactly when there is a candidate; it is one of them, and none scores higher. */
  lemma WinnerHasMaximalScore(ctx: Context, candidates: seq<Candidate>)
    requires NoneNil(candidates)
    ensures var p := Select(ctx, candidates);
            && (p.best.id == NIL <==> candidates == [])
            && (candidates != [] ==> p.best in candidates && p.score == Score(ctx, p.best))
            && forall c :: c in candidates ==> Score(ctx, c) <= p.score
  {
    ScanIsMember(ctx, candidates, candidates);
    ScanIsMaximal(ctx, candidates, candidates);
  }

  /** The same in the terms of the score's three parts. */
  lemma WinnerInPlainTerms(ctx: Context, candidates: seq<Candidate>)
    ensures candidates == [] ==> Select(ctx, candidates) == Pick(Candidate(NIL, [], ZERO_TIME), -0x4000_0000)
    ensures candidates != [] && (forall c :: c in candidates ==> c.id != NIL)
            ==> var w := Select(ctx, candidates).best;
                w in candidates
                && Select(ctx, candidates).score == ClampedAIScore(ctx.ai, w.id) + RecentPenalty(ctx.last, w.id, ctx.now)
                                                    + ExpirationBonus(w.expiration, ctx.now)
    ensures (forall c :: c in candidates ==> c.id != NIL)
            ==> forall c :: c in candidates
                  ==> ClampedAIScore(ctx.ai, c.id) + RecentPenalty(ctx.last, c.id, ctx.now)
                      + ExpirationBonus(c.expiration, ctx.now) <= Select(ctx, candidates).score
  {
    if NoneNil(candidates) {
      WinnerHasMaximalScore(ctx, candidates);
      forall c | c in candidates
        ensures ClampedAIScore(ctx.ai, c.id) + RecentPenalty(ctx.last, c.id, ctx.now)
                + ExpirationBonus(c.expiration, ctx.now) <= Select(ctx, candidates).score
      {
        assert Score(ctx, c) <= Select(ctx, candidates).score;
      }
    }
  }

  /** NIL doubles as "no best yet", so a candidate with that id is forgotten at the next step. */
  lemma NilIdIsForgotten() returns (ctx: Context, a: Candidate, b: Candidate)
    ensures a.id == NIL && b.id != NIL && Score(ctx, a) > Score(ctx, b)
    ensures Select(ctx, [a, b]).best == b
  {
    var one := Uuid(NIL.bytes[0 := 1]);
    assert one.bytes[0] != NIL.bytes[0];
    a, b := Candidate(NIL, [], ZERO_TIME), Candidate(one, [], ZERO_TIME);
    ctx := Context(map[NIL := 15], map[], 0);
    ScanIsMember(ctx, [a], [a, b]);
    assert [a, b][..1] == [a];
  }

  /** The pick made at q has the nil id, so the candidate after q takes its place unseen. */
  predicate Forgotten(ctx: Context, seen: seq<Candidate>, all: seq<Candidate>, q: nat) {
    q + 1 < |seen| && Scan(ctx, seen[..q + 1], all).best.id == NIL
  }

  lemma ForgottenEarlier(ctx: Context, init: seq<Candidate>, c: Candidate, all: seq<Candidate>, q: nat)
    requires q < |init|
    ensures Forgotten(ctx, init + [c], all, q)
       <==> if q + 1 == |init| then Scan(ctx, init, all).best.id == NIL else Forgotten(ctx, init, all, q)
  {
    assert (init + [c])[..q + 1] == init[..q + 1];
    assert init[..|init|] == init;
  }

  lemma ScanGrows(ctx: Context, init: seq<Candidate>, c: Candidate, all: seq<Candidate>)
    ensures Scan(ctx, init + [c], all) == Consider(ctx, Scan(ctx, init, all), c, all)
  {
    assert (init + [c])[..|init|] == init;
  }

  /** A pick with the nil id is the candidate scanned last. */
  lemma NilPickIsLast(ctx: Context, init: seq<Candidate>, c: Candidate, all: seq<Candidate>)
    requires Scan(ctx, init + [c], all).best.id == NIL
    ensures Scan(ctx, init + [c], all) == Pick(c, Score(ctx, c))
  {
    ScanGrows(ctx, init, c, all);
  }

  lemma NewestAtMostPick(ctx: Context, init: seq<Candidate>, c: Candidate, all: seq<Candidate>)
    ensures Score(ctx, c) <= Scan(ctx, init + [c], all).score
  {
    ScanGrows(ctx, init, c, all);
  }

  lemma LaterPickScoresHigher(ctx: Context, init: seq<Candidate>, c: Candidate, all: seq<Candidate>)
    requires Scan(ctx, init, all).best.id != NIL
    ensures Scan(ctx, init, all).score <= Scan(ctx, init + [c], all).score
  {
    ScanGrows(ctx, init, c, all);
  }

  /** Every candidate scores at most as high as the pick, or as one forgotten no earlier than itself. */
  lemma {:induction false} PickOrForgotten(ctx: Context, seen: seq<Candidate>, all: seq<Candidate>, i: nat)
    returns (q: Option<nat>)
    requires i < |seen|
    ensures match q
            case None => Score(ctx, seen[i]) <= Scan(ctx, seen, all).score
            case Some(k) => i <= k && Forgotten(ctx, seen, all, k) && Score(ctx, seen[i]) <= Score(ctx, seen[k])
  {
    var init, c := seen[..|seen| - 1], seen[|seen| - 1];
    assert seen == init + [c];
    if i == |init| {
      NewestAtMostPick(ctx, init, c, all);
      q := None;
    } else {
      q := PickOrForgotten(ctx, init, all, i);
      if q.Some? {
        ForgottenEarlier(ctx, init, c, all, q.value);
      } else if Scan(ctx, init, all).best.id == NIL {
        ForgottenEarlier(ctx, init, c, all, |init| - 1);
        assert init == init[..|init| - 1] + [init[|init| - 1]];
        NilPickIsLast(ctx, init[..|init| - 1], init[|init| - 1], all);
        q := Some(|init| - 1);
      } else {
        LaterPickScoresHigher(ctx, init, c, all);
      }
    }
  }

  /** The pick was scanned after everything forgotten. */
  lemma {:induction false} PickFollowsForgotten(ctx: Context, seen: seq<Candidate>, all: seq<Candidate>, q: nat) returns (j: nat)
    requires Forgotten(ctx, seen, all, q)
    ensures q < j < |seen| && Scan(ctx, seen, all).score == Score(ctx, seen[j])
  {
    var init, c := seen[..|seen| - 1], seen[|seen| - 1];
    assert seen == init + [c];
    ScanGrows(ctx, init, c, all);
    ForgottenEarlier(ctx, init, c, all, q);
    j := |init|;
    if q + 1 < |init| && Scan(ctx, seen, all) == Scan(ctx, init, all) {
      j := PickFollowsForgotten(ctx, init, all, q);
    }
  }

  predicate MatchedAfter(ctx: Context, candidates: seq<Candidate>, q: nat)
    requires q < |candidates|
  {
    exists j :: q < j < |candidates| && Score(ctx, candidates[q]) <= Score(ctx, candidates[j])
  }

  lemma {:induction false} MatchedReachPick(ctx: Context, candidates: seq<Candidate>, i: nat)
    requires i < |candidates|
    requires forall q: nat :: Forgotten(ctx, candidates, candidates, q) ==> MatchedAfter(ctx, candidates, q)
    ensures Score(ctx, candidates[i]) <= Select(ctx, candidates).score
    decreases |candidates| - i
  {
    var q := PickOrForgotten(ctx, candidates, candidates, i);
    if q.Some? {
      assert MatchedAfter(ctx, candidates, q.value);
      var j :| q.value < j < |candidates| && Score(ctx, candidates[q.value]) <= Score(ctx, candidates[j]);
      MatchedReachPick(ctx, candidates, j);
    }
  }

  /**
    For any ids at all: no candidate outscores the winner if and only if each forgotten pick is
    followed by a candidate that scores as high.
   */
  lemma MaximalIffForgottenAreMatched(ctx: Context, candidates: seq<Candidate>)
    ensures (forall c :: c in candidates ==> Score(ctx, c) <= Select(ctx, candidates).score)
       <==> (forall q: nat :: Forgotten(ctx, candidates, candidates, q) ==> MatchedAfter(ctx, candidates, q))
  {
    if forall q: nat :: Forgotten(ctx, candidates, candidates, q) ==> MatchedAfter(ctx, candidates, q) {
      forall i: nat | i < |candidates|
        ensures Score(ctx, candidates[i]) <= Select(ctx, candidates).score
      {
        MatchedReachPick(ctx, candidates, i);
      }
    }
    if forall c :: c in candidates ==> Score(ctx, c) <= Select(ctx, candidates).score {
      forall q: nat | Forgotten(ctx, candidates, candidates, q)
        ensures MatchedAfter(ctx, candidates, q)
      {
        var j := PickFollowsForgotten(ctx, candidates, candidates, q);
        assert candidates[q] in candidates;
      }
    }
  }

  // ----- the lexicographic order: score high, expiration early, name low -----

  /** An earlier expiration; an unknown one comes last. */
  predicate Sooner(x: Instant, y: Instant) {
    x != ZERO_TIME && (y == ZERO_TIME || x < y)
  }

  /** a ranks at least as high as b. */
  predicate AtLeast(ctx: Context, a: Candidate, b: Candidate) {
    || Score(ctx, a) > Score(ctx, b)
    || (Score(ctx, a) == Score(ctx, b)
        && (Sooner(a.expiration, b.expiration)
            || (a.expiration == b.expiration && !LexLess(b.name, a.name))))
  }

  /** a and b are the same for the ranking. */
  predicate Tied(ctx: Context, a: Candidate, b: Candidate) {
    Score(ctx, a) == Score(ctx, b) && a.expiration == b.expiration && a.name == b.name
  }

  predicate Optimal(ctx: Context, a: Candidate, candidates: seq<Candidate>) {
    forall c :: c in candidates ==> AtLeast(ctx, a, c)
  }

  lemma AtLeastIsTotalPreorder(ctx: Context, a: Candidate, b: Candidate, c: Candidate)
    ensures AtLeast(ctx, a, b) || AtLeast(ctx, b, a)
    ensures AtLeast(ctx, a, b) && AtLeast(ctx, b, c) ==> AtLeast(ctx, a, c)
    ensures AtLeast(ctx, a, b) && AtLeast(ctx, b, a) <==> Tied(ctx, a, b)
  {
    LexTotal(a.name, b.name);
    LexTotal(b.name, c.name);
    LexTotal(a.name, c.name);
    if LexLess(b.name, a.name) && LexLess(c.name, b.name) {
      LexTransitive(c.name, b.name, a.name);
    }
    if LexLess(c.name, a.name) && !LexLess(b.name, a.name) {
      if LexLess(a.name, b.name) {
        LexTransitive(c.name, a.name, b.name);
      }
    }
  }

  lemma {:induction false} OptimalExists(ctx: Context, candidates: seq<Candidate>) returns (k: Candidate)
    requires candidates != []
    ensures k in candidates && Optimal(ctx, k, candidates)
  {
    k := candidates[0];
    AtLeastIsTotalPreorder(ctx, k, k, k);
    for i := 1 to |candidates|
      invariant k in candidates
      invariant forall j :: 0 <= j < i ==> AtLeast(ctx, k, candidates[j])
    {
      var c := candidates[i];
      forall j | 0 <= j < i
        ensures AtLeast(ctx, c, k) ==> AtLeast(ctx, c, candidates[j])
      {
        AtLeastIsTotalPreorder(ctx, c, k, candidates[j]);
      }
      AtLeastIsTotalPreorder(ctx, c, k, k);
      AtLeastIsTotalPreorder(ctx, c, c, c);
      if AtLeast(ctx, c, k) {
        k := c;
      }
    }
  }

  lemma {:induction false} NameOfMember(candidates: seq<Candidate>, c: Candidate)
    requires Distinct(candidates) && c in candidates
    ensures NameOf(candidates, c.id) == c.name
  {
    if candidates[0].id == c.id {
      var i :| 0 <= i < |candidates| && candidates[i] == c;
      assert i == 0;
    } else {
      NameOfMember(candidates[1..], c);
    }
  }

  /**
    An undated candidate that ties with the best one on score, where the best one is dated
    but has the greater name. The scan lets z replace k by name, and k replace z by date.
   */
  predicate Sleeper(ctx: Context, z: Candidate, k: Candidate, candidates: seq<Candidate>) {
    && z in candidates && k in candidates && Optimal(ctx, k, candidates)
    && !z.Dated() && k.Dated()
    && Score(ctx, z) == Score(ctx, k)
    && LexLess(z.name, k.name)
  }

  predicate Settled(ctx: Context, candidates: seq<Candidate>) {
    forall z, k :: z in candidates && k in candidates ==> !Sleeper(ctx, z, k, candidates)
  }

  /** An optimal k replaces whatever was picked before it, or ties with it. */
  lemma OptimumReplaces(ctx: Context, init: seq<Candidate>, all: seq<Candidate>, k: Candidate)
    requires NoneNil(all) && Distinct(all)
    requires forall c :: c in init + [k] ==> c in all
    requires Optimal(ctx, k, all)
    ensures Tied(ctx, Scan(ctx, init + [k], all).best, k)
  {
    assert (init + [k])[..|init|] == init;
    var p := Scan(ctx, init, all);
    ScanIsMember(ctx, init, all);
    if init != [] {
      assert p.best in init + [k];
      NameOfMember(all, p.best);
      LexTotal(k.name, p.best.name);
    }
  }

  /** A pick tied with the optimum is not replaced by anything but a sleeper. */
  lemma OptimumStays(ctx: Context, p: Pick, c: Candidate, all: seq<Candidate>, k: Candidate)
    requires NoneNil(all) && Distinct(all) && c in all
    requires p.best in all && p.score == Score(ctx, p.best) && Tied(ctx, p.best, k)
    requires k in all && Optimal(ctx, k, all) && !Sleeper(ctx, c, k, all)
    ensures Consider(ctx, p, c, all) == p
  {
    NameOfMember(all, p.best);
    assert AtLeast(ctx, k, c);
    LexTotal(c.name, k.name);
  }

  /** With all expirations known, or none, there is no sleeper. */
  lemma UniformExpirationsAreSettled(ctx: Context, candidates: seq<Candidate>)
    requires (forall c :: c in candidates ==> c.Dated()) || (forall c :: c in candidates ==> !c.Dated())
    ensures Settled(ctx, candidates)
  {
  }

  /** Position m holds the optimal candidate listed last. */
  predicate LastOptimum(ctx: Context, candidates: seq<Candidate>, m: nat) {
    && m < |candidates| && Optimal(ctx, candidates[m], candidates)
    && forall i :: m < i < |candidates| ==> !Optimal(ctx, candidates[i], candidates)
  }

  /** No sleeper is listed from position i up to n. */
  predicate AwakeBetween(ctx: Context, candidates: seq<Candidate>, k: Candidate, i: nat, n: nat)
    requires n <= |candidates|
  {
    forall j :: i <= j < n ==> !Sleeper(ctx, candidates[j], k, candidates)
  }

  lemma OptimaAreTied(ctx: Context, a: Candidate, b: Candidate, candidates: seq<Candidate>)
    requires a in candidates && b in candidates && Optimal(ctx, a, candidates)
    ensures Optimal(ctx, b, candidates) <==> Tied(ctx, a, b)
  {
    forall c | c in candidates
      ensures AtLeast(ctx, a, c) && AtLeast(ctx, b, a) ==> AtLeast(ctx, b, c)
    {
      AtLeastIsTotalPreorder(ctx, b, a, c);
    }
    AtLeastIsTotalPreorder(ctx, a, b, a);
  }

  lemma ScanNext(ctx: Context, all: seq<Candidate>, n: nat)
    requires n < |all|
    ensures Scan(ctx, all[..n + 1], all) == Consider(ctx, Scan(ctx, all[..n], all), all[n], all)
  {
    assert all[..n + 1] == all[..n] + [all[n]];
    ScanGrows(ctx, all[..n], all[n], all);
  }

  /** The pick after n candidates is one of them. */
  lemma PickPosition(ctx: Context, all: seq<Candidate>, n: nat) returns (j: nat)
    requires 0 < n <= |all|
    ensures j < n && Scan(ctx, all[..n], all) == Pick(all[j], Score(ctx, all[j]))
  {
    ScanIsMember(ctx, all[..n], all);
    j :| 0 <= j < n && all[..n][j] == Scan(ctx, all[..n], all).best;
  }

  /** A sleeper replaces any pick that is tied with the optimum. */
  lemma SleeperReplaces(ctx: Context, p: Pick, z: Candidate, all: seq<Candidate>, k: Candidate)
    requires Distinct(all) && p.best in all && p.score == Score(ctx, p.best)
    requires Tied(ctx, p.best, k) && Sleeper(ctx, z, k, all)
    ensures Consider(ctx, p, z, all).best == z
  {
    NameOfMember(all, p.best);
  }

  /** A candidate that is still the pick has been followed by other candidates only. */
  lemma {:induction false} PickStayed(ctx: Context, all: seq<Candidate>, j: nat, i: nat, n: nat)
    requires Distinct(all) && j < i <= n <= |all|
    requires Scan(ctx, all[..n], all).best == all[j]
    ensures Scan(ctx, all[..i], all) == Pick(all[j], Score(ctx, all[j]))
    decreases n
  {
    ScanIsMember(ctx, all[..n], all);
    if i < n {
      ScanNext(ctx, all, n - 1);
      PickStayed(ctx, all, j, i, n - 1);
    }
  }

  /** An optimum that is still the pick has met no sleeper. */
  lemma OptimalPickMetNoSleeper(ctx: Context, all: seq<Candidate>, j: nat, n: nat)
    requires Distinct(all) && j < n <= |all|
    requires Scan(ctx, all[..n], all).best == all[j] && Optimal(ctx, all[j], all)
    ensures AwakeBetween(ctx, all, all[j], j + 1, n)
  {
    forall i | j < i < n && Sleeper(ctx, all[i], all[j], all)
      ensures false
    {
      PickStayed(ctx, all, j, i, n);
      PickStayed(ctx, all, j, i + 1, n);
      ScanNext(ctx, all, i);
      SleeperReplaces(ctx, Scan(ctx, all[..i], all), all[i], all, all[j]);
    }
  }

  /** Once optimal, the pick stays as long as no sleeper comes. */
  lemma {:induction false} OptimalPickStays(ctx: Context, all: seq<Candidate>, k: Candidate, i: nat, n: nat)
    requires NoneNil(all) && Distinct(all) && 0 < i <= n <= |all|
    requires k in all && Optimal(ctx, k, all) && Tied(ctx, Scan(ctx, all[..i], all).best, k)
    requires AwakeBetween(ctx, all, k, i, n)
    ensures Scan(ctx, all[..n], all) == Scan(ctx, all[..i], all)
    decreases n
  {
    if i < n {
      OptimalPickStays(ctx, all, k, i, n - 1);
      ScanNext(ctx, all, n - 1);
      var j := PickPosition(ctx, all, n - 1);
      OptimumStays(ctx, Scan(ctx, all[..n - 1], all), all[n - 1], all, k);
    }
  }

  lemma OptimumIsPicked(ctx: Context, all: seq<Candidate>, m: nat)
    requires NoneNil(all) && Distinct(all) && m < |all| && Optimal(ctx, all[m], all)
    ensures Tied(ctx, Scan(ctx, all[..m + 1], all).best, all[m])
  {
    assert all[..m + 1] == all[..m] + [all[m]];
    OptimumReplaces(ctx, all[..m], all, all[m]);
  }

  /** For any expirations: the winner is a lexicographic optimum if and only if no sleeper follows the last optimum. */
  lemma WinnerIsOptimalIffAwake(ctx: Context, candidates: seq<Candidate>, m: nat)
    requires NoneNil(candidates) && Distinct(candidates) && LastOptimum(ctx, candidates, m)
    ensures Optimal(ctx, Select(ctx, candidates).best, candidates)
       <==> AwakeBetween(ctx, candidates, candidates[m], m + 1, |candidates|)
  {
    var k, n := candidates[m], |candidates|;
    assert candidates[..n] == candidates;
    var j := PickPosition(ctx, candidates, n);
    OptimaAreTied(ctx, k, candidates[j], candidates);
    if Optimal(ctx, candidates[j], candidates) {
      OptimalPickMetNoSleeper(ctx, candidates, j, n);
      forall i | m < i < n
        ensures !Sleeper(ctx, candidates[i], k, candidates)
      {
        assert !Sleeper(ctx, candidates[i], candidates[j], candidates);
      }
    }
    if AwakeBetween(ctx, candidates, k, m + 1, n) {
      OptimumIsPicked(ctx, candidates, m);
      OptimalPickStays(ctx, candidates, k, m + 1, n);
    }
  }

  lemma {:induction false} LastOptimumExists(ctx: Context, candidates: seq<Candidate>) returns (m: nat)
    requires candidates != []
    ensures LastOptimum(ctx, candidates, m)
  {
    var k := OptimalExists(ctx, candidates);
    m :| 0 <= m < |candidates| && candidates[m] == k;
    for i := m + 1 to |candidates|
      invariant m < i && Optimal(ctx, candidates[m], candidates)
      invariant forall j :: m < j < i ==> !Optimal(ctx, candidates[j], candidates)
    {
      if Optimal(ctx, candidates[i], candidates) {
        m := i;
      }
    }
  }

  /** Without a sleeper, in particular, the winner is optimal. */
  lemma WinnerIsOptimal(ctx: Context, candidates: seq<Candidate>)
    requires candidates != [] && NoneNil(candidates) && Distinct(candidates)
    requires Settled(ctx, candidates)
    ensures Select(ctx, candidates).best in candidates
    ensures Optimal(ctx, Select(ctx, candidates).best, candidates)
  {
    var m := LastOptimumExists(ctx, candidates);
    ScanIsMember(ctx, candidates, candidates);
    WinnerIsOptimalIffAwake(ctx, candidates, m);
  }

  /** Position f holds an optimum that no sleeper follows, and a sleeper follows each optimum before f on the way to f. */
  predicate FirstAwake(ctx: Context, candidates: seq<Candidate>, f: nat) {
    && f < |candidates| && Optimal(ctx, candidates[f], candidates)
    && AwakeBetween(ctx, candidates, candidates[f], f + 1, |candidates|)
    && forall j: nat :: j < f && Optimal(ctx, candidates[j], candidates) ==> !AwakeBetween(ctx, candidates, candidates[j], j + 1, f)
  }

  /** If an earlier candidate is still the pick after an optimum, it is an optimum too, and has met no sleeper. */
  lemma PickAtOptimum(ctx: Context, candidates: seq<Candidate>, f: nat) returns (j: nat)
    requires NoneNil(candidates) && Distinct(candidates) && f < |candidates| && Optimal(ctx, candidates[f], candidates)
    ensures j <= f && Scan(ctx, candidates[..f + 1], candidates) == Pick(candidates[j], Score(ctx, candidates[j]))
    ensures Optimal(ctx, candidates[j], candidates)
    ensures j < f ==> AwakeBetween(ctx, candidates, candidates[j], j + 1, f)
  {
    OptimumIsPicked(ctx, candidates, f);
    j := PickPosition(ctx, candidates, f + 1);
    OptimaAreTied(ctx, candidates[f], candidates[j], candidates);
    if j < f {
      PickStayed(ctx, candidates, j, f, f + 1);
      OptimalPickMetNoSleeper(ctx, candidates, j, f);
    }
  }

  lemma FirstAwakeWins(ctx: Context, candidates: seq<Candidate>, f: nat)
    requires NoneNil(candidates) && Distinct(candidates) && FirstAwake(ctx, candidates, f)
    ensures Select(ctx, candidates) == Pick(candidates[f], Score(ctx, candidates[f]))
  {
    var j := PickAtOptimum(ctx, candidates, f);
    if j < f {
      assert false;
    }
    assert candidates[..|candidates|] == candidates;
    OptimumIsPicked(ctx, candidates, f);
    OptimalPickStays(ctx, candidates, candidates[f], f + 1, |candidates|);
  }

  /** An optimum met before any sleeper leaves no room for a later one. */
  lemma LaterOptimumIsNotPicked(ctx: Context, candidates: seq<Candidate>, j: nat, f: nat)
    requires NoneNil(candidates) && Distinct(candidates) && j < f < |candidates|
    requires Optimal(ctx, candidates[j], candidates) && Optimal(ctx, candidates[f], candidates)
    requires AwakeBetween(ctx, candidates, candidates[j], j + 1, f)
    ensures Scan(ctx, candidates[..f + 1], candidates).best != candidates[f]
  {
    OptimumIsPicked(ctx, candidates, j);
    OptimalPickStays(ctx, candidates, candidates[j], j + 1, f);
    OptimaAreTied(ctx, candidates[j], candidates[f], candidates);
    var i := PickPosition(ctx, candidates, f);
    OptimumStays(ctx, Scan(ctx, candidates[..f], candidates), candidates[f], candidates, candidates[j]);
    ScanNext(ctx, candidates, f);
  }

  lemma OptimalWinnerIsFirstAwake(ctx: Context, candidates: seq<Candidate>, f: nat)
    requires NoneNil(candidates) && Distinct(candidates) && f < |candidates|
    requires Select(ctx, candidates).best == candidates[f] && Optimal(ctx, candidates[f], candidates)
    ensures FirstAwake(ctx, candidates, f)
  {
    var n := |candidates|;
    assert candidates[..n] == candidates;
    OptimalPickMetNoSleeper(ctx, candidates, f, n);
    PickStayed(ctx, candidates, f, f + 1, n);
    forall j: nat | j < f && Optimal(ctx, candidates[j], candidates)
      ensures !AwakeBetween(ctx, candidates, candidates[j], j + 1, f)
    {
      if AwakeBetween(ctx, candidates, candidates[j], j + 1, f) {
        LaterOptimumIsNotPicked(ctx, candidates, j, f);
      }
    }
  }

  /** Which optimum wins, if one does: exactly the first one after the last sleeper. */
  lemma WinnerIsFirstAwake(ctx: Context, candidates: seq<Candidate>, f: nat)
    requires NoneNil(candidates) && Distinct(candidates) && f < |candidates|
    ensures Select(ctx, candidates).best == candidates[f] && Optimal(ctx, candidates[f], candidates)
       <==> FirstAwake(ctx, candidates, f)
  {
    if FirstAwake(ctx, candidates, f) {
      FirstAwakeWins(ctx, candidates, f);
    }
    if Select(ctx, candidates).best == candidates[f] && Optimal(ctx, candidates[f], candidates) {
      OptimalWinnerIsFirstAwake(ctx, candidates, f);
    }
  }

  /** Position f holds the optimal candidate listed first. */
  predicate FirstOptimum(ctx: Context, candidates: seq<Candidate>, f: nat) {
    && f < |candidates| && Optimal(ctx, candidates[f], candidates)
    && forall j :: 0 <= j < f ==> !Optimal(ctx, candidates[j], candidates)
  }

  /** Without a sleeper the winner is the first-listed optimum. */
  lemma WinnerIsFirstOptimum(ctx: Context, candidates: seq<Candidate>, f: nat)
    requires NoneNil(candidates) && Distinct(candidates) && Settled(ctx, candidates)
    requires FirstOptimum(ctx, candidates, f)
    ensures Select(ctx, candidates) == Pick(candidates[f], Score(ctx, candidates[f]))
  {
    FirstAwakeWins(ctx, candidates, f);
  }

  /** The order in plain terms: greater sum, then earlier expiration, then a name that no other precedes. */
  lemma WinnerInPlainOrder(ctx: Context, candidates: seq<Candidate>)
    requires candidates != [] && (forall c :: c in candidates ==> c.id != NIL)
    requires forall i, j :: 0 <= i < j < |candidates| ==> candidates[i].id != candidates[j].id
    requires (forall c :: c in candidates ==> c.expiration != ZERO_TIME) || (forall c :: c in candidates ==> c.expiration == ZERO_TIME)
    ensures var p := Select(ctx, candidates); var w := p.best;
            && w in candidates
            && forall c :: c in candidates
                 ==> var sum := ClampedAIScore(ctx.ai, c.id) + RecentPenalty(ctx.last, c.id, ctx.now)
                                + ExpirationBonus(c.expiration, ctx.now);
                     || sum < p.score
                     || (sum == p.score && w.expiration < c.expiration)
                     || (sum == p.score && w.expiration == c.expiration && !LexLess(c.name, w.name))
  {
    UniformExpirationsAreSettled(ctx, candidates);
    WinnerIsOptimal(ctx, candidates);
    WinnerInPlainTerms(ctx, candidates);
    var w := Select(ctx, candidates).best;
    forall c | c in candidates
      ensures AtLeast(ctx, w, c)
    {
    }
  }

  // ----- independence of the order in which candidates are listed -----

  lemma {:induction false} DistinctCounts(s: seq<Candidate>, x: Candidate)
    requires Distinct(s)
    ensures multiset(s)[x] <= 1
  {
    if s != [] {
      var init := s[..|s| - 1];
      assert s == init + [s[|s| - 1]];
      DistinctCounts(init, x);
      if x == s[|s| - 1] {
        assert x !in init;
      }
    }
  }

  lemma PermutationKeepsDistinct(s: seq<Candidate>, perm: seq<Candidate>)
    requires Distinct(s) && multiset(perm) == multiset(s)
    ensures Distinct(perm) && |perm| == |s| && forall c :: c in perm <==> c in s
  {
    assert |perm| == |multiset(perm)| && |s| == |multiset(s)|;
    assert forall c :: c in perm <==> c in multiset(perm);
    assert forall c :: c in s <==> c in multiset(s);
    forall i, j | 0 <= i < j < |perm|
      ensures perm[i].id != perm[j].id
    {
      assert perm[i] in perm && perm[j] in perm;
      if perm[i] == perm[j] {
        assert perm == perm[..j] + [perm[j]] + perm[j + 1..];
        assert perm[i] in perm[..j];
        DistinctCounts(s, perm[i]);
      }
    }
  }

  lemma TakeOut(s: seq<Candidate>, x: Candidate) returns (rest: seq<Candidate>)
    requires x in s
    ensures multiset(rest + [x]) == multiset(s)
    ensures forall c :: c in s && c != x ==> c in rest
  {
    var i :| 0 <= i < |s| && s[i] == x;
    rest := s[..i] + s[i + 1..];
    assert s == s[..i] + [x] + s[i + 1..];
  }

  /** A sleeper lets two listings of the same candidates disagree on the expiration of the winner. */
  lemma SleeperBreaksTie(ctx: Context, candidates: seq<Candidate>, z: Candidate, k: Candidate)
      returns (p: seq<Candidate>, q: seq<Candidate>)
    requires NoneNil(candidates) && Distinct(candidates)
    requires Sleeper(ctx, z, k, candidates)
    ensures multiset(p) == multiset(candidates) == multiset(q)
    ensures Tied(ctx, Select(ctx, p).best, k)
    ensures Select(ctx, q).best == z
  {
    var r1 := TakeOut(candidates, z);
    var rest := TakeOut(r1, k);
    p := rest + [k] + [z];
    calc {
      multiset(p);
      multiset(rest + [k]) + multiset{z};
      multiset(r1) + multiset{z};
      multiset(r1 + [z]);
      multiset(candidates);
    }
    PermutationKeepsDistinct(candidates, p);
    OptimumReplaces(ctx, rest, p, k);
    var before := Scan(ctx, rest + [k], p);
    ScanIsMember(ctx, rest + [k], p);
    assert before.best in p;
    NameOfMember(p, before.best);
    assert p[..|p| - 1] == rest + [k];
    assert Select(ctx, p).best == z;
    q := p;

    p := rest + [z] + [k];
    assert multiset(p) == multiset(q);
    PermutationKeepsDistinct(candidates, p);
    OptimumReplaces(ctx, rest + [z], p, k);
  }

  /**
    Every listing of the same candidates gives the same score, expiration and name
    if and only if there is no sleeper among them. In particular this holds when all
    expirations are known, and when none is.
   */
  lemma OrderIndependentIffSettled(ctx: Context, candidates: seq<Candidate>)
    requires candidates != [] && NoneNil(candidates) && Distinct(candidates)
    ensures (forall perm: seq<Candidate> :: multiset(perm) == multiset(candidates)
               ==> Tied(ctx, Select(ctx, perm).best, Select(ctx, candidates).best))
            <==> Settled(ctx, candidates)
  {
    if Settled(ctx, candidates) {
      WinnerIsOptimal(ctx, candidates);
      forall perm: seq<Candidate> | multiset(perm) == multiset(candidates)
        ensures Tied(ctx, Select(ctx, perm).best, Select(ctx, candidates).best)
      {
        PermutationKeepsDistinct(candidates, perm);
        forall z, k | z in perm && k in perm
          ensures !Sleeper(ctx, z, k, perm)
        {
          assert Sleeper(ctx, z, k, perm) ==> Sleeper(ctx, z, k, candidates);
        }
        WinnerIsOptimal(ctx, perm);
        AtLeastIsTotalPreorder(ctx, Select(ctx, perm).best, Select(ctx, candidates).best, Select(ctx, perm).best);
      }
    } else {
      var z, k :| z in candidates && k in candidates && Sleeper(ctx, z, k, candidates);
      var p, q := SleeperBreaksTie(ctx, candidates, z, k);
      assert !Tied(ctx, Select(ctx, p).best, Select(ctx, candidates).best)
          || !Tied(ctx, Select(ctx, q).best, Select(ctx, candidates).best);
    }
  }

  /** Two teas of equal score, one dated: whichever is listed last is chosen. */
  lemma MixedExpirationsDependOnOrder() returns (ctx: Context, a: Candidate, b: Candidate)
    ensures Score(ctx, a) == Score(ctx, b) && !a.Dated() && b.Dated()
    ensures Select(ctx, [b, a]).best == a && Select(ctx, [a, b]).best == b
  {
    var ida, idb := Uuid(NIL.bytes[0 := 1]), Uuid(NIL.bytes[0 := 2]);
    assert ida.bytes[0] == 1 && idb.bytes[0] == 2 && NIL.bytes[0] == 0;
    a, b := Candidate(ida, [1], ZERO_TIME), Candidate(idb, [2], 31 * DAY);
    ctx := Context(map[], map[], 0);
    assert [a, b][..1] == [a] && [b, a][..1] == [b];
    assert [a][..0] == [] && [b][..0] == [];
    assert Scan(ctx, [a], [a, b]) == Pick(a, 0);
    assert Scan(ctx, [b], [b, a]) == Pick(b, 0);
    assert LexLess([1], [2]);
    assert NameOf([b, a], idb) == [2];
  }

  // ----- stability of the winner -----

  /** Dropping any tea that lost does not change the winner. */
  lemma LoserIsIrrelevant(ctx: Context, candidates: seq<Candidate>, i: nat)
    requires i < |candidates| && NoneNil(candidates) && Distinct(candidates)
    requires Settled(ctx, candidates)
    requires candidates[i] != Select(ctx, candidates).best
    ensures Select(ctx, candidates[..i] + candidates[i + 1..]) == Select(ctx, candidates)
  {
    var rest := candidates[..i] + candidates[i + 1..];
    var f := FirstOptimumExists(ctx, candidates);
    WinnerIsFirstOptimum(ctx, candidates, f);
    WithoutOne(candidates, i);
    LosersMakeNoSleeper(ctx, candidates, rest, candidates[f]);
    var g := if f < i then f else f - 1;
    assert rest[g] == candidates[f];
    forall j | 0 <= j < g
      ensures !Optimal(ctx, rest[j], rest)
    {
      var c := candidates[if j < i then j else j + 1];
      assert rest[j] == c && !Optimal(ctx, c, candidates);
      if Optimal(ctx, c, rest) {
        OptimumIsTied(ctx, c, candidates[f], rest, candidates);
        OptimaAreTied(ctx, candidates[f], c, candidates);
      }
    }
    WinnerIsFirstOptimum(ctx, rest, g);
  }

  lemma FirstOptimumExists(ctx: Context, candidates: seq<Candidate>) returns (f: nat)
    requires candidates != []
    ensures FirstOptimum(ctx, candidates, f)
  {
    var k := OptimalExists(ctx, candidates);
    f := 0;
    while !Optimal(ctx, candidates[f], candidates)
      invariant f < |candidates| && forall j :: 0 <= j < f ==> !Optimal(ctx, candidates[j], candidates)
      decreases |candidates| - f
    {
      if f == |candidates| - 1 {
        assert exists i :: 0 <= i < |candidates| && candidates[i] == k;
        assert false;
      }
      f := f + 1;
    }
  }

  lemma LosersMakeNoSleeper(ctx: Context, candidates: seq<Candidate>, rest: seq<Candidate>, w: Candidate)
    requires Settled(ctx, candidates) && Optimal(ctx, w, candidates) && w in candidates
    requires w in rest && forall c :: c in rest ==> c in candidates
    ensures Settled(ctx, rest)
  {
    forall z, k | z in rest && k in rest
      ensures !Sleeper(ctx, z, k, rest)
    {
      if Sleeper(ctx, z, k, rest) {
        OptimumIsTied(ctx, k, w, rest, candidates);
        assert Sleeper(ctx, z, w, candidates);
      }
    }
  }

  lemma WithoutOne(candidates: seq<Candidate>, i: nat)
    requires i < |candidates| && Distinct(candidates)
    ensures var rest := candidates[..i] + candidates[i + 1..];
            && Distinct(rest)
            && (forall c :: c in rest ==> c in candidates)
            && (forall c :: c in candidates && c != candidates[i] ==> c in rest)
  {
    assert candidates == candidates[..i] + [candidates[i]] + candidates[i + 1..];
  }

  lemma OptimumIsTied(ctx: Context, k: Candidate, w: Candidate, some: seq<Candidate>, all: seq<Candidate>)
    requires k in all && w in some
    requires Optimal(ctx, k, some) && Optimal(ctx, w, all)
    ensures Tied(ctx, k, w)
  {
    AtLeastIsTotalPreorder(ctx, k, w, k);
  }

  /** The scan looks at the context through the scores only. */
  lemma {:induction false} SameScoresSameScan(ctx: Context, ctx': Context, seen: seq<Candidate>, all: seq<Candidate>)
    requires forall c :: c in seen ==> Score(ctx', c) == Score(ctx, c)
    ensures Scan(ctx', seen, all) == Scan(ctx, seen, all)
  {
    if seen != [] {
      SameScoresSameScan(ctx, ctx', seen[..|seen| - 1], all);
      assert seen[|seen| - 1] in seen;
    }
  }

  /** Raising only the winner's AI score leaves it the winner, for any expirations and names. */
  lemma WinnerSurvivesPraise(ctx: Context, candidates: seq<Candidate>, praise: int)
    requires candidates != [] && NoneNil(candidates) && Distinct(candidates)
    requires var w := Select(ctx, candidates).best;
             ClampedAIScore(ctx.ai, w.id) <= ClampedAIScore(ctx.ai[w.id := praise], w.id)
    ensures var w := Select(ctx, candidates).best;
            Select(ctx.(ai := ctx.ai[w.id := praise]), candidates).best == w
  {
    var w := Select(ctx, candidates).best;
    var ctx' := ctx.(ai := ctx.ai[w.id := praise]);
    WinnerHasMaximalScore(ctx, candidates);
    forall c | c in candidates
      ensures c == w || Score(ctx', c) == Score(ctx, c)
    {
      assert c == w || c.id != w.id;
    }
    if Score(ctx', w) == Score(ctx, w) {
      SameScoresSameScan(ctx, ctx', candidates, candidates);
    } else {
      WinnerHasMaximalScore(ctx', candidates);
    }
  }

  // ----- the logging twin -----

  /** One call of the log callback. A time of None is printed as a dash. */
  datatype LogEntry = LogEntry(selected: bool, id: Uuid, name: Bytes,
                               aiRaw: int, aiClamped: int, recent: int, bonus: int, total: int,
                               last: Option<Instant>, expiration: Option<Instant>)

  function TimeOrDash(t: Instant): Option<Instant> {
    if t == ZERO_TIME then None else Some(t)
  }

  function Describe(ctx: Context, c: Candidate, selected: bool): (e: LogEntry)
    ensures e.id == c.id && e.name == c.name && e.selected == selected
    ensures e.total == Score(ctx, c) == e.aiClamped + e.recent + e.bonus
    ensures e.recent == RecentPenalty(ctx.last, c.id, ctx.now) && e.bonus == ExpirationBonus(c.expiration, ctx.now)
    ensures c.id in ctx.ai ==> e.aiRaw == ctx.ai[c.id]
    ensures e.last != None <==> c.id in ctx.last && ctx.last[c.id] != ZERO_TIME
    ensures e.expiration != None <==> c.expiration != ZERO_TIME
  {
    var aiRaw := if c.id in ctx.ai then ctx.ai[c.id] else 0;
    var aiClamped := ClampedAIScore(ctx.ai, c.id);
    var recent := RecentPenalty(ctx.last, c.id, ctx.now);
    var bonus := ExpirationBonus(c.expiration, ctx.now);
    var last := if c.id in ctx.last then ctx.last[c.id] else ZERO_TIME;
    LogEntry(selected, c.id, c.name, aiRaw, aiClamped, recent, bonus, aiClamped + recent + bonus,
             TimeOrDash(last), TimeOrDash(c.expiration))
  }

  /** The same choice as SelectBest on every input; with a callback, one entry per candidate and one for the winner. */
  method SelectBestWithLogging(ctx: Context, candidates: seq<Candidate>, logging: bool)
      returns (id: Uuid, score: int, log: seq<LogEntry>)
    ensures id == Select(ctx, candidates).best.id && score == Select(ctx, candidates).score
    ensures !logging ==> log == []
    ensures logging ==> |log| == |candidates| + if id == NIL then 0 else 1
    ensures logging ==> forall i :: 0 <= i < |candidates| ==> log[i] == Describe(ctx, candidates[i], false)
    ensures logging && id != NIL ==>
              var e := log[|candidates|];
              && e.selected && e.id == id && e.total == score
              && Describe(ctx, Select(ctx, candidates).best, true) == e
    ensures logging ==> forall i :: 0 <= i < |candidates| ==>
              var e, c := log[i], candidates[i];
              && e.id == c.id && e.name == c.name
              && e.total == ClampedAIScore(ctx.ai, c.id) + RecentPenalty(ctx.last, c.id, ctx.now)
                            + ExpirationBonus(c.expiration, ctx.now)
    ensures candidates != [] && (forall c :: c in candidates ==> c.id != NIL)
            ==> exists w :: w in candidates && w.id == id
                  && score == ClampedAIScore(ctx.ai, w.id) + RecentPenalty(ctx.last, w.id, ctx.now)
                              + ExpirationBonus(w.expiration, ctx.now)
    ensures (forall c :: c in candidates ==> c.id != NIL)
            ==> forall c :: c in candidates
                  ==> ClampedAIScore(ctx.ai, c.id) + RecentPenalty(ctx.last, c.id, ctx.now)
                      + ExpirationBonus(c.expiration, ctx.now) <= score
  {
    var best := Candidate(NIL, [], ZERO_TIME);
    var bestScore := INITIAL_BEST_SCORE;
    log := [];
    for i := 0 to |candidates|
      invariant Pick(best, bestScore) == Scan(ctx, candidates[..i], candidates)
      invariant best.id != NIL ==> bestScore == Score(ctx, best)
      invariant !logging ==> log == []
      invariant logging ==> |log| == i
      invariant logging ==> forall j :: 0 <= j < i ==> log[j] == Describe(ctx, candidates[j], false)
    {
      var c := candidates[i];
      var e := Describe(ctx, c, false);
      if logging {
        log := log + [e];
      }
      var better := best.id == NIL;
      if !better {
        better := BetterCandidate(c, e.total, best, bestScore, candidates);
      }
      assert candidates[..i + 1][..i] == candidates[..i];
      if better {
        best := c;
        bestScore := e.total;
      }
    }
    assert candidates[..|candidates|] == candidates;
    if logging && best.id != NIL {
      log := log + [Describe(ctx, best, true)];
    }
    WinnerInPlainTerms(ctx, candidates);
    return best.id, bestScore, log;
  }
}
