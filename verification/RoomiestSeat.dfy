/**
 * What a placement promises in terms of the candidates' own fields: the roomiest healthy account, held only within the
 * margin, and for a pinned seat the roomiest healthy account of the pinned provider.
 */
module RoomiestSeat {
  import opened Basics
  import opened Balancer

  /** How roomy a healthy candidate is, its reset credited over five hours. */
  function Room(c: Candidate, nowMs: int): real
    requires c.Healthy()
  {
    HeadroomScore(c.headroom.usedPct, c.headroom.resetAt, nowMs, 18_000_000)
  }

  /** The candidate comes before the other: by its room, then by provider and account. */
  predicate Beats(c: Candidate, d: Candidate, nowMs: int)
    requires c.Healthy() && d.Healthy()
  {
    || Room(c, nowMs) > Room(d, nowMs)
    || (Room(c, nowMs) == Room(d, nowMs)
        && (|| (c.seat.provider.Claude? && d.seat.provider.Codex?)
            || (c.seat.provider == d.seat.provider && c.seat.account < d.seat.account)))
  }

  // ---------------------------------------------------------------- the score

  /** What is still counted of the use is in proportion to the part of the horizon still to wait. */
  lemma CreditIsProportional(usedPct: real, resetAt: Timestamp, nowMs: int, horizonMs: int)
    requires horizonMs > 0
    ensures var waits := if resetAt.ms.None? then horizonMs else Min(horizonMs, Max(0, resetAt.ms.value - nowMs));
            (100.0 - HeadroomScore(usedPct, resetAt, nowMs, horizonMs)) * horizonMs as real == usedPct * waits as real
  {
    if resetAt.ms.Some? {
      var left, h := Max(0, resetAt.ms.value - nowMs), horizonMs as real;
      var weight := left as real / h;
      assert weight * h == left as real;
      if left < horizonMs { QuotientOrder(left as real, h, h); } else { QuotientOrder(h, left as real, h); }
      assert Times(usedPct, Weight(left, horizonMs)) * h == usedPct * (Weight(left, horizonMs) * h);
    }
  }

  // ---------------------------------------------------------------- rankings

  /** The ranking lists each healthy candidate, with its own room, use and reset, before those that it beats. */
  lemma RankingListsRoom(i: Input)
    requires DistinctCandidates(i.candidates) && Place(i).Floating?
    ensures forall s :: s in Place(i).ranked <==>
              exists c :: c in i.candidates && c.Healthy()
                          && s == Scored(c.seat, Room(c, i.nowMs), c.headroom.usedPct, c.headroom.resetAt)
    ensures forall k: nat, l: nat, c, d | k < |Place(i).ranked| && l < |Place(i).ranked|
                                          && c in i.candidates && d in i.candidates && c.Healthy() && d.Healthy()
                                          && Place(i).ranked[k].seat == c.seat && Place(i).ranked[l].seat == d.seat ::
              k < l <==> Beats(c, d, i.nowMs)
  {
    hide ScoreHealthy, Ranked, HeadroomScore;
    RankingIsSortedHealthy(i);
    var ranked := Ranking(i);
    assert Place(i).ranked == ranked;
    forall s: Scored
      ensures s in ranked <==> exists c :: c in i.candidates && c.Healthy() && IsScoreOf(s, c, i.nowMs)
    {
    }
    forall k: nat, l: nat, c, d | k < |ranked| && l < |ranked| && c in i.candidates && d in i.candidates && c.Healthy()
                                  && d.Healthy() && ranked[k].seat == c.seat && ranked[l].seat == d.seat
      ensures k < l <==> Beats(c, d, i.nowMs)
    {
      RankedIsScoreOf(i, ranked[k], c);
      RankedIsScoreOf(i, ranked[l], d);
      if k < l { assert Before(ranked[k], ranked[l]); }
      if l < k { assert Before(ranked[l], ranked[k]); }
    }
  }

  predicate IsScoreOf(s: Scored, c: Candidate, nowMs: int)
    requires c.Healthy()
  {
    s == Scored(c.seat, Room(c, nowMs), c.headroom.usedPct, c.headroom.resetAt)
  }

  /** With distinct seats the ranked entry of a candidate's seat is its own. */
  lemma RankedIsScoreOf(i: Input, s: Scored, c: Candidate)
    requires DistinctCandidates(i.candidates) && s in Ranking(i) && c in i.candidates && c.Healthy() && s.seat == c.seat
    ensures IsScoreOf(s, c, i.nowMs)
  {
    hide ScoreHealthy, Ranked, HeadroomScore;
    RankingIsSortedHealthy(i);
    var d :| d in i.candidates && d.Healthy() && ScoreOne(d, i.nowMs) == s;
    SameSeatSameCandidate(i.candidates, c, d);
  }

  lemma SameSeatSameCandidate(cs: seq<Candidate>, c: Candidate, d: Candidate)
    requires DistinctCandidates(cs) && c in cs && d in cs && c.seat == d.seat
    ensures c == d
  {
    var k: nat :| k < |cs| && cs[k] == c;
    var l: nat :| l < |cs| && cs[l] == d;
  }

  /** The healthy candidate that beats every other. */
  ghost predicate IsRoomiest(c: Candidate, i: Input) {
    c.Healthy() && forall d | d in i.candidates && d.Healthy() && d.seat != c.seat :: Beats(c, d, i.nowMs)
  }

  /** Ten points, unless the caller says otherwise. */
  function MarginOf(i: Input): real { if i.marginPct.Some? then i.marginPct.value else 10.0 }

  /** No healthy candidate is roomier by more than the margin. */
  ghost predicate WithinMargin(c: Candidate, i: Input) {
    c.Healthy() && forall d | d in i.candidates && d.Healthy() :: Room(d, i.nowMs) - Room(c, i.nowMs) <= MarginOf(i)
  }

  // ---------------------------------------------------------------- floating seats

  lemma RoomiestIsTop(i: Input, c: Candidate)
    requires DistinctCandidates(i.candidates) && c in i.candidates && c.Healthy()
    ensures Ranking(i) != [] && (IsRoomiest(c, i) <==> Ranking(i)[0].seat == c.seat)
    ensures Ranking(i)[0].seat == c.seat ==> Ranking(i)[0].score == Room(c, i.nowMs)
  {
    hide ScoreHealthy, Ranked, HeadroomScore;
    RankingIsSortedHealthy(i);
    var ranked := Ranking(i);
    assert ScoreOne(c, i.nowMs) in ranked;
    assert ranked[0] in ranked;
    var top :| top in i.candidates && top.Healthy() && ScoreOne(top, i.nowMs) == ranked[0];
    if ranked[0].seat == c.seat {
      SameSeatSameCandidate(i.candidates, c, top);
      forall d | d in i.candidates && d.Healthy() && d.seat != c.seat
        ensures Beats(c, d, i.nowMs)
      {
        assert ScoreOne(d, i.nowMs) in ranked;
        var k: nat :| k < |ranked| && ranked[k] == ScoreOne(d, i.nowMs);
        assert Before(ranked[0], ranked[k]);
      }
    } else {
      var k: nat :| k < |ranked| && ranked[k] == ScoreOne(c, i.nowMs);
      assert Before(ranked[0], ranked[k]);
      assert !Beats(c, top, i.nowMs);
    }
  }

  lemma TopLeads(i: Input, top: Candidate, c: Candidate)
    requires DistinctCandidates(i.candidates) && top in i.candidates && c in i.candidates && c.Healthy()
    requires IsRoomiest(top, i)
    ensures WithinMargin(c, i) <==> Room(top, i.nowMs) - Room(c, i.nowMs) <= MarginOf(i)
  {
    hide HeadroomScore;
    forall d | d in i.candidates && d.Healthy()
      ensures Room(d, i.nowMs) <= Room(top, i.nowMs)
    {
      if d.seat == top.seat { SameSeatSameCandidate(i.candidates, d, top); } else { assert Beats(top, d, i.nowMs); }
    }
  }

  /**
   * A floating seat is placed on a healthy candidate, the roomiest one, unless the seat it had last is held: that one
   * is kept exactly when it is healthy and no healthy candidate is roomier by more than the margin, or it is the
   * roomiest itself. The placement has the tier of its provider.
   */
  lemma FloatsToRoomiest(i: Input, c: Candidate)
    requires DistinctCandidates(i.candidates) && LookupPin(i.pins, i.role).None? && c in i.candidates && c.Healthy()
    ensures Place(i).Floating? && Place(i).placement.role == i.role
    ensures var held := exists q :: q in i.candidates && i.previous == Some(q.seat)
                                    && (IsRoomiest(q, i) || WithinMargin(q, i));
            Place(i).placement.seat == c.seat <==> if held then i.previous == Some(c.seat) else IsRoomiest(c, i)
    ensures Place(i).placement.tier
            == if Place(i).placement.seat.provider.Claude? then i.tiers.claude else i.tiers.codex
  {
    hide ScoreHealthy, Ranked, HeadroomScore;
    var ranked := Ranking(i);
    RoomiestIsTop(i, c);
    RankingIsSortedHealthy(i);
    assert ranked[0] in ranked;
    var top :| top in i.candidates && top.Healthy() && ScoreOne(top, i.nowMs) == ranked[0];
    RoomiestIsTop(i, top);
    if i.previous.Some? && Find(ranked, i.previous.value).Some? {
      var s := Find(ranked, i.previous.value).value;
      var q :| q in i.candidates && q.Healthy() && ScoreOne(q, i.nowMs) == s;
      RoomiestIsTop(i, q);
      TopLeads(i, top, q);
      assert forall x | x in i.candidates && i.previous == Some(x.seat) :: x == q by { OnlyOne(i, q); }
    } else if i.previous.Some? {
      forall q | q in i.candidates && q.Healthy()
        ensures Find(ranked, q.seat).Some?
      {
        HealthyIsFound(i, q);
      }
    }
  }

  lemma HealthyIsFound(i: Input, q: Candidate)
    requires DistinctCandidates(i.candidates) && q in i.candidates && q.Healthy()
    ensures Find(Ranking(i), q.seat).Some?
  {
    hide ScoreHealthy, Ranked, HeadroomScore;
    RankingIsSortedHealthy(i);
    assert ScoreOne(q, i.nowMs) in Ranking(i);
    FindIsThe(Ranking(i), ScoreOne(q, i.nowMs));
  }

  lemma OnlyOne(i: Input, q: Candidate)
    requires DistinctCandidates(i.candidates) && q in i.candidates && i.previous == Some(q.seat)
    ensures forall x | x in i.candidates && i.previous == Some(x.seat) :: x == q
  {
    forall x | x in i.candidates && i.previous == Some(x.seat)
      ensures x == q
    {
      SameSeatSameCandidate(i.candidates, x, q);
    }
  }

  /**
   * So no healthy candidate is roomier than the chosen one by more than the margin, and none without a seat to hold.
   */
  lemma NoneMuchRoomier(i: Input, c: Candidate, d: Candidate)
    requires DistinctCandidates(i.candidates) && LookupPin(i.pins, i.role).None?
    requires c in i.candidates && c.Healthy() && Place(i).Floating? && Place(i).placement.seat == c.seat
    requires d in i.candidates && d.Healthy()
    ensures Room(d, i.nowMs) - Room(c, i.nowMs) <= if MarginOf(i) > 0.0 then MarginOf(i) else 0.0
    ensures i.previous.None? ==> Room(d, i.nowMs) <= Room(c, i.nowMs)
  {
    hide HeadroomScore, Place, IsRoomiest, WithinMargin;
    FloatsToRoomiest(i, c);
    if q :| q in i.candidates && i.previous == Some(q.seat) && (IsRoomiest(q, i) || WithinMargin(q, i)) {
      SameSeatSameCandidate(i.candidates, c, q);
    }
    if IsRoomiest(c, i) { RoomiestHasRoom(i, c, d); } else { MarginHolds(i, c, d); }
  }

  lemma RoomiestHasRoom(i: Input, c: Candidate, d: Candidate)
    requires DistinctCandidates(i.candidates) && c in i.candidates && d in i.candidates && d.Healthy()
    requires IsRoomiest(c, i)
    ensures Room(d, i.nowMs) <= Room(c, i.nowMs)
  {
    hide HeadroomScore;
    if d.seat == c.seat { SameSeatSameCandidate(i.candidates, d, c); } else { assert Beats(c, d, i.nowMs); }
  }

  lemma MarginHolds(i: Input, c: Candidate, d: Candidate)
    requires d in i.candidates && d.Healthy() && WithinMargin(c, i)
    ensures Room(d, i.nowMs) - Room(c, i.nowMs) <= MarginOf(i)
  {
  }

  // ---------------------------------------------------------------- pins

  /** A role is pinned by its own entry, else by that of what precedes its first colon, if that is not empty. */
  lemma PinOfRole(pins: map<string, Pin>, base: string, rest: string)
    requires ':' !in base
    ensures LookupPin(pins, base) == if base in pins then Some(pins[base]) else None
    ensures LookupPin(pins, base + ":" + rest)
            == if base + ":" + rest in pins then Some(pins[base + ":" + rest])
               else if base != [] && base in pins then Some(pins[base]) else None
  {
    ColonAfter(base, []);
    ColonAfter(base, ":" + rest);
    assert base + [] == base && base + ":" + rest == base + (":" + rest);
    assert (base + (":" + rest))[..|base|] == base;
  }

  lemma {:induction false} ColonAfter(base: string, rest: string)
    requires ':' !in base && (rest == [] || rest[0] == ':')
    ensures ColonAt(base + rest) == |base|
    decreases |base|
  {
    if base == [] {
      assert base + rest == rest;
    } else {
      assert (base + rest)[1..] == base[1..] + rest;
      ColonAfter(base[1..], rest);
    }
  }

  /**
   * A pinned seat goes to the pinned provider: to its roomiest healthy account, the least among equals; without a
   * healthy one to its least account; and without any candidate to the default one. Model and effort are the pin's
   * where it gives them, and otherwise, like the context, the tier's.
   */
  lemma PinnedIsRoomiest(i: Input)
    requires LookupPin(i.pins, i.role).Some?
    ensures var pin := LookupPin(i.pins, i.role).value;
            && Place(i).Pinned?
            && var p := Place(i).placement;
               var tier := if pin.provider.Claude? then i.tiers.claude else i.tiers.codex;
               && p.role == i.role && p.seat.provider == pin.provider
               && p.tier.model == (if pin.model.Some? then pin.model.value else tier.model)
               && p.tier.effort == (if pin.effort.Some? then pin.effort.value else tier.effort)
               && p.tier.context == tier.context
               && PinnedWell(p.seat, i)
  {
    hide HeadroomScore, BestHealthy, LeastAccount;
    var provider := LookupPin(i.pins, i.role).value.provider;
    BestHealthyIsBest(i.candidates, provider, i.nowMs);
    LeastIsLeast(i.candidates, provider);
  }

  ghost predicate PinnedWell(seat: Seat, i: Input) {
    if exists c :: c in i.candidates && c.seat.provider == seat.provider && c.Healthy() then
      exists c :: c in i.candidates && c.seat == seat && c.Healthy()
                  && forall d | d in i.candidates && d.seat.provider == seat.provider && d.Healthy() ::
                       || Room(d, i.nowMs) < Room(c, i.nowMs)
                       || (Room(d, i.nowMs) == Room(c, i.nowMs) && seat.account <= d.seat.account)
    else if exists c :: c in i.candidates && c.seat.provider == seat.provider then
      && (exists c :: c in i.candidates && c.seat == seat)
      && forall d | d in i.candidates && d.seat.provider == seat.provider :: seat.account <= d.seat.account
    else seat.account == if seat.provider.Claude? then i.defaults.claude else i.defaults.codex
  }

  // ---------------------------------------------------------------- refusals

  /** The reset that a candidate tells: its binding window's, else its headroom's. */
  predicate Tells(c: Candidate, t: Timestamp) {
    if c.resetAt.Some? then c.resetAt == Some(t) else c.headroom.Known? && c.headroom.resetAt == t
  }

  /**
   * A seat that is not pinned is refused exactly when no candidate is available with known headroom. The refusal lists
   * every candidate's seat in order, and the earliest reset that any of them tells and that parses, if there is one.
   */
  lemma RefusalTellsAll(i: Input)
    ensures Place(i).NoCandidate? <==>
              LookupPin(i.pins, i.role).None? && forall c <- i.candidates :: !(c.available && c.headroom.Known?)
    ensures Place(i).NoCandidate? ==>
              var d := Place(i);
              && |d.excluded| == |i.candidates|
              && (forall k: nat | k < |i.candidates| :: d.excluded[k] == i.candidates[k].seat)
              && (d.soonestReset.Some? ==>
                    && d.soonestReset.value.ms.Some?
                    && (exists c :: c in i.candidates && Tells(c, d.soonestReset.value))
                    && forall c, t | c in i.candidates && Tells(c, t) && t.ms.Some? ::
                         d.soonestReset.value.ms.value <= t.ms.value)
              && (d.soonestReset.None? ==> forall c, t | c in i.candidates && Tells(c, t) :: t.ms.None?)
  {
    hide ScoreHealthy, Ranked, ScoreOne, SoonestReset;
    RefusedOnlyWithoutHealth(i);
    SoonestIsEarliest(i.candidates);
    assert forall c, t | Tells(c, t) :: ResetOf(c) == Some(t);
    assert forall c | ResetOf(c).Some? :: Tells(c, ResetOf(c).value);
  }
}
