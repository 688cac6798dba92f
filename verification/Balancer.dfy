/**
 * Where a seat runs: pinned seats never move; floating seats go to the roomiest healthy provider account, held against
 * small leads by hysteresis. Scores are real numbers; an account name is its rank in the collation order.
 */
module Balancer {
  import opened Basics

  datatype Provider = Claude | Codex

  /** The provider and account of a placement or candidate. */
  datatype Seat = Seat(provider: Provider, account: nat)

  /** A timestamp text and, when it parses, its time. */
  datatype Timestamp = Timestamp(iso: string, ms: Option<int>)

  datatype Headroom = Known(usedPct: real, resetAt: Timestamp) | Unknown(reason: string)

  datatype Candidate = Candidate(seat: Seat, available: bool, headroom: Headroom, resetAt: Option<Timestamp>)
  {
    predicate Healthy() { available && headroom.Known? }
  }

  datatype Scored = Scored(seat: Seat, score: real, usedPct: real, resetAt: Timestamp)

  datatype Tier = Tier(model: string, effort: string, context: string)

  /** What the tier resolution gives each provider for the call's work size and budget. */
  datatype Tiers = Tiers(claude: Tier, codex: Tier)
  {
    function Of(p: Provider): Tier { if p.Claude? then claude else codex }
  }

  datatype Pin = Pin(provider: Provider, model: Option<string>, effort: Option<string>)

  datatype Placement = Placement(role: string, seat: Seat, tier: Tier)

  datatype Decision =
    | Pinned(placement: Placement)
    | Floating(placement: Placement, ranked: seq<Scored>)
    | NoCandidate(excluded: seq<Seat>, soonestReset: Option<Timestamp>)

  // ---------------------------------------------------------------- scoring

  const RESET_HORIZON_MS: int := 5 * 60 * 60 * 1000

  function HeadroomScore(usedPct: real, resetAt: Timestamp, nowMs: int, horizonMs: int): real
    requires horizonMs > 0
  {
    match resetAt.ms
    case None => 100.0 - usedPct
    case Some(resetMs) =>
      100.0 - StillUsed(usedPct, Max(0, resetMs - nowMs), horizonMs)
  }

  function Times(x: real, y: real): real { x * y }

  /** What counts of the used share, with the reset this far away. */
  function StillUsed(usedPct: real, msUntilReset: int, horizonMs: int): real
    requires horizonMs > 0
  {
    Times(usedPct, Weight(msUntilReset, horizonMs))
  }

  /** The share of the horizon still to wait, at most 1. */
  function Weight(msUntilReset: int, horizonMs: int): real
    requires horizonMs > 0
  {
    var weight := msUntilReset as real / horizonMs as real;
    if weight < 1.0 then weight else 1.0
  }

  /**
   * Between the nominal free share and all of it; never less as time passes; all of it exactly when nothing is used or
   * the reset has come, and the nominal share when the reset is a horizon away.
   */
  lemma ScoreCreditsTheReset(usedPct: real, resetAt: Timestamp, nowMs: int, laterMs: int, horizonMs: int)
    requires horizonMs > 0 && usedPct >= 0.0 && nowMs <= laterMs
    ensures var s := HeadroomScore(usedPct, resetAt, nowMs, horizonMs);
            && 100.0 - usedPct <= s <= 100.0
            && s <= HeadroomScore(usedPct, resetAt, laterMs, horizonMs)
            && (s == 100.0 <==> usedPct == 0.0 || (resetAt.ms.Some? && resetAt.ms.value <= nowMs))
            && (s == 100.0 - usedPct <==> usedPct == 0.0 || resetAt.ms.None? || resetAt.ms.value - nowMs >= horizonMs)
  {
    hide StillUsed;
    if resetAt.ms.Some? {
      UseOrder(usedPct, Max(0, resetAt.ms.value - laterMs), Max(0, resetAt.ms.value - nowMs), horizonMs);
    }
  }

  lemma UseOrder(u: real, later: int, now: int, horizonMs: int)
    requires horizonMs > 0 && u >= 0.0 && 0 <= later <= now
    ensures 0.0 <= StillUsed(u, later, horizonMs) <= StillUsed(u, now, horizonMs) <= u
    ensures StillUsed(u, now, horizonMs) == 0.0 <==> u == 0.0 || now == 0
    ensures StillUsed(u, now, horizonMs) == u <==> u == 0.0 || now >= horizonMs
  {
    hide Weight, Times;
    var w, v := Weight(now, horizonMs), Weight(later, horizonMs);
    Weights(later, now, horizonMs);
    TimesOrder(u, v, w);
    TimesBounds(u, v);
    TimesBounds(u, w);
  }

  lemma TimesOrder(u: real, x: real, y: real)
    requires u >= 0.0 && x <= y
    ensures Times(u, x) <= Times(u, y)
  {
    Scaled(u, x, y);
  }

  lemma TimesBounds(u: real, w: real)
    requires u >= 0.0 && 0.0 <= w <= 1.0
    ensures 0.0 <= Times(u, w) <= u
    ensures Times(u, w) == 0.0 <==> u == 0.0 || w == 0.0
    ensures Times(u, w) == u <==> u == 0.0 || w == 1.0
  {
    assert u - u * w == u * (1.0 - w);
  }

  lemma Weights(x: int, y: int, horizonMs: int)
    requires 0 <= x <= y && horizonMs > 0
    ensures 0.0 <= Weight(x, horizonMs) <= Weight(y, horizonMs) <= 1.0
    ensures Weight(y, horizonMs) == 0.0 <==> y == 0
    ensures Weight(y, horizonMs) == 1.0 <==> y >= horizonMs
  {
    var h := horizonMs as real;
    QuotientOrder(0.0, x as real, h);
    QuotientOrder(x as real, y as real, h);
    QuotientOrder(0.0, y as real, h);
    if y >= horizonMs { QuotientOrder(h, y as real, h); } else { QuotientOrder(y as real, h, h); }
  }

  lemma QuotientOrder(x: real, y: real, h: real)
    requires h > 0.0 && x <= y
    ensures x / h <= y / h && (x / h == y / h <==> x == y)
    ensures 0.0 / h == 0.0 && h / h == 1.0
  {
    var r := 1.0 / h;
    assert r > 0.0 && x / h == r * x && y / h == r * y;
    Scaled(r, x, y);
  }

  lemma Scaled(u: real, x: real, y: real)
    requires u >= 0.0 && x <= y
    ensures u * x <= u * y && (u * x == u * y <==> u == 0.0 || x == y)
  {
    assert u * (y - x) >= 0.0;
    assert u * (y - x) == u * y - u * x;
  }

  // ---------------------------------------------------------------- ranking

  predicate ProviderBefore(p: Provider, q: Provider) { p.Claude? && q.Codex? }

  /** Roomiest first, ties by provider, then by account. */
  predicate Before(a: Scored, b: Scored) {
    || a.score > b.score
    || (a.score == b.score && (ProviderBefore(a.seat.provider, b.seat.provider)
                               || (a.seat.provider == b.seat.provider && a.seat.account < b.seat.account)))
  }

  function ScoreOne(c: Candidate, nowMs: int): Scored
    requires c.Healthy()
  {
    Scored(c.seat, HeadroomScore(c.headroom.usedPct, c.headroom.resetAt, nowMs, RESET_HORIZON_MS),
           c.headroom.usedPct, c.headroom.resetAt)
  }

  /** The healthy candidates, scored, in the order offered. */
  function ScoreHealthy(cs: seq<Candidate>, nowMs: int): seq<Scored> {
    if cs == [] then []
    else
      var init, c := cs[..|cs| - 1], cs[|cs| - 1];
      ScoreHealthy(init, nowMs) + (if c.Healthy() then [ScoreOne(c, nowMs)] else [])
  }

  /** Insert before the first that does not come before it, after any that ties with it. */
  function InsertRanked(s: Scored, ranked: seq<Scored>): seq<Scored> {
    if ranked == [] || !Before(ranked[0], s) then [s] + ranked else [ranked[0]] + InsertRanked(s, ranked[1..])
  }

  /** What a stable sort by `Before` gives. */
  function Ranked(ss: seq<Scored>): seq<Scored> {
    if ss == [] then [] else InsertRanked(ss[0], Ranked(ss[1..]))
  }

  ghost predicate IsRanked(ss: seq<Scored>) {
    forall i: nat, j: nat | i < j < |ss| :: Before(ss[i], ss[j])
  }

  ghost predicate DistinctSeats(ss: seq<Scored>) {
    forall i: nat, j: nat | i < j < |ss| :: ss[i].seat != ss[j].seat
  }

  ghost predicate DistinctCandidates(cs: seq<Candidate>) {
    forall i: nat, j: nat | i < j < |cs| :: cs[i].seat != cs[j].seat
  }

  lemma {:induction false} InsertAdds(s: Scored, ranked: seq<Scored>)
    ensures multiset(InsertRanked(s, ranked)) == multiset(ranked) + multiset{s}
  {
    if ranked != [] && Before(ranked[0], s) {
      InsertAdds(s, ranked[1..]);
      assert ranked == [ranked[0]] + ranked[1..];
    }
  }

  lemma {:induction false} InsertKeepsRanked(s: Scored, ranked: seq<Scored>)
    requires IsRanked(ranked) && forall r <- ranked :: r.seat != s.seat
    ensures IsRanked(InsertRanked(s, ranked))
  {
    hide Before;
    if ranked == [] {
    } else if !Before(ranked[0], s) {
      assert ranked[0] in ranked;
      FirstComesFirst(s, ranked);
    } else {
      var rest := InsertRanked(s, ranked[1..]);
      assert forall r <- ranked[1..] :: r in ranked;
      InsertKeepsRanked(s, ranked[1..]);
      InsertAdds(s, ranked[1..]);
      forall j: nat | j < |rest|
        ensures Before(ranked[0], rest[j])
      {
        assert rest[j] in multiset(rest);
        if rest[j] != s {
          var k: nat :| k < |ranked[1..]| && ranked[1..][k] == rest[j];
          assert Before(ranked[0], ranked[k + 1]);
        }
      }
    }
  }

  lemma FirstComesFirst(s: Scored, ranked: seq<Scored>)
    requires IsRanked(ranked) && ranked != [] && !Before(ranked[0], s) && ranked[0].seat != s.seat
    ensures forall j: nat | j < |ranked| :: Before(s, ranked[j])
  {
    forall j: nat | j < |ranked|
      ensures Before(s, ranked[j])
    {
      if j > 0 { assert Before(ranked[0], ranked[j]); }
    }
  }

  lemma {:induction false} RankedIsSorted(ss: seq<Scored>)
    requires DistinctSeats(ss)
    ensures IsRanked(Ranked(ss)) && multiset(Ranked(ss)) == multiset(ss)
  {
    if ss != [] {
      assert ss == [ss[0]] + ss[1..];
      RankedIsSorted(ss[1..]);
      var tail := Ranked(ss[1..]);
      forall r <- tail
        ensures r.seat != ss[0].seat
      {
        assert r in multiset(tail);
        assert r in ss[1..];
        var k: nat :| k < |ss[1..]| && ss[1..][k] == r;
        assert ss[k + 1] == r;
      }
      InsertKeepsRanked(ss[0], tail);
      InsertAdds(ss[0], tail);
    }
  }

  lemma HeadsAgree(a: seq<Scored>, b: seq<Scored>)
    requires IsRanked(a) && IsRanked(b) && multiset(a) == multiset(b) && a != [] && b != []
    ensures a[0] == b[0]
  {
    assert a[0] in multiset(b) && b[0] in multiset(a);
    var i: nat :| i < |b| && b[i] == a[0];
    var j: nat :| j < |a| && a[j] == b[0];
  }

  /** A ranking is determined by what is ranked. */
  lemma {:induction false} RankingIsUnique(a: seq<Scored>, b: seq<Scored>)
    requires IsRanked(a) && IsRanked(b) && multiset(a) == multiset(b)
    ensures a == b
  {
    hide Before;
    assert |a| == |multiset(a)| == |b|;
    if a != [] {
      HeadsAgree(a, b);
      assert a == [a[0]] + a[1..] && b == [b[0]] + b[1..];
      assert multiset(a[1..]) == multiset(a) - multiset{a[0]};
      assert multiset(b[1..]) == multiset(b) - multiset{b[0]};
      RankingIsUnique(a[1..], b[1..]);
    }
  }

  // ---------------------------------------------------------------- placement

  datatype Defaults = Defaults(claude: nat, codex: nat)
  {
    function Of(p: Provider): nat { if p.Claude? then claude else codex }
  }

  datatype Input = Input(role: string, pins: map<string, Pin>, candidates: seq<Candidate>, nowMs: int,
                         previous: Option<Seat>, marginPct: Option<real>, tiers: Tiers, defaults: Defaults)
  {
    function Margin(): real { marginPct.GetOr(HYSTERESIS_MARGIN_DEFAULT) }
  }

  const HYSTERESIS_MARGIN_DEFAULT: real := 10.0

  function ColonAt(role: string): nat
    decreases |role|
  {
    if role == [] || role[0] == ':' then 0 else 1 + ColonAt(role[1..])
  }

  /** The pin of the exact role, else of what precedes its first colon. */
  function LookupPin(pins: map<string, Pin>, role: string): Option<Pin> {
    var colon := ColonAt(role);
    if role in pins then Some(pins[role])
    else if 0 < colon < |role| && role[..colon] in pins then Some(pins[role[..colon]])
    else None
  }

  /** The best healthy candidate of the provider among those offered so far: score, then account. */
  function BestHealthy(cs: seq<Candidate>, p: Provider, nowMs: int): Option<Scored> {
    if cs == [] then None
    else
      var best, c := BestHealthy(cs[..|cs| - 1], p, nowMs), cs[|cs| - 1];
      if c.seat.provider != p || !c.Healthy() then best
      else
        var s := ScoreOne(c, nowMs);
        if best.None? || s.score > best.value.score
           || (s.score == best.value.score && s.seat.account < best.value.seat.account)
        then Some(s) else best
  }

  function LeastAccount(cs: seq<Candidate>, p: Provider): Option<nat> {
    if cs == [] then None
    else
      var least, c := LeastAccount(cs[..|cs| - 1], p), cs[|cs| - 1];
      if c.seat.provider == p && (least.None? || c.seat.account < least.value) then Some(c.seat.account) else least
  }

  function PinnedAccount(i: Input, p: Provider): nat {
    var least, best := LeastAccount(i.candidates, p), BestHealthy(i.candidates, p, i.nowMs);
    if least.None? then i.defaults.Of(p) else if best.Some? then best.value.seat.account else least.value
  }

  function PlacementFromPin(i: Input, pin: Pin, account: nat): Placement {
    var tier := i.tiers.Of(pin.provider);
    Placement(i.role, Seat(pin.provider, account),
              Tier(pin.model.GetOr(tier.model), pin.effort.GetOr(tier.effort), tier.context))
  }

  function ResetOf(c: Candidate): Option<Timestamp> {
    if c.resetAt.Some? then c.resetAt else if c.headroom.Known? then Some(c.headroom.resetAt) else None
  }

  /** The first of the candidates' resets that parses and is earliest. */
  function SoonestReset(cs: seq<Candidate>): Option<Timestamp> {
    if cs == [] then None
    else
      var best, reset := SoonestReset(cs[..|cs| - 1]), ResetOf(cs[|cs| - 1]);
      if reset.None? || reset.value.ms.None? then best
      else if best.None? || best.value.ms.None? || reset.value.ms.value < best.value.ms.value then reset
      else best
  }

  function Seats(cs: seq<Candidate>): seq<Seat> { seq(|cs|, k requires 0 <= k < |cs| => cs[k].seat) }

  function Find(ranked: seq<Scored>, seat: Seat): (s: Option<Scored>)
    ensures s.Some? ==> s.value in ranked && s.value.seat == seat
    ensures s.None? ==> forall r <- ranked :: r.seat != seat
  {
    if ranked == [] then None else if ranked[0].seat == seat then Some(ranked[0]) else Find(ranked[1..], seat)
  }

  /** Keep the incumbent unless the best beats it by more than the margin. */
  function ApplyHysteresis(ranked: seq<Scored>, previous: Option<Seat>, margin: real): Scored
    requires ranked != []
  {
    var top := ranked[0];
    if previous.None? then top
    else
      var incumbent := Find(ranked, previous.value);
      if incumbent.None? || incumbent.value.seat == top.seat then top
      else if top.score - incumbent.value.score > margin then top
      else incumbent.value
  }

  function Ranking(i: Input): seq<Scored> { Ranked(ScoreHealthy(i.candidates, i.nowMs)) }

  function Place(i: Input): Decision {
    var pin := LookupPin(i.pins, i.role);
    if pin.Some? then Pinned(PlacementFromPin(i, pin.value, PinnedAccount(i, pin.value.provider)))
    else
      var ranked := Ranking(i);
      if ranked == [] then NoCandidate(Seats(i.candidates), SoonestReset(i.candidates))
      else
        var chosen := ApplyHysteresis(ranked, i.previous, i.Margin());
        Floating(Placement(i.role, chosen.seat, i.tiers.Of(chosen.seat.provider)), ranked)
  }

  // ---------------------------------------------------------------- the loops

  method AccountForPinnedProvider(i: Input, provider: Provider) returns (account: nat)
    ensures account == PinnedAccount(i, provider)
  {
    var best: Option<Scored>, least: Option<nat> := None, None;
    for k := 0 to |i.candidates|
      invariant best == BestHealthy(i.candidates[..k], provider, i.nowMs)
      invariant least == LeastAccount(i.candidates[..k], provider)
    {
      var c := i.candidates[k];
      assert i.candidates[..k + 1][..k] == i.candidates[..k];
      if c.seat.provider != provider {
        continue;
      }
      if least.None? || c.seat.account < least.value {
        least := Some(c.seat.account);
      }
      if !c.Healthy() {
        continue;
      }
      var s := ScoreOne(c, i.nowMs);
      if best.None? || s.score > best.value.score
         || (s.score == best.value.score && s.seat.account < best.value.seat.account) {
        best := Some(s);
      }
    }
    assert i.candidates[..|i.candidates|] == i.candidates;
    if least.None? {
      return i.defaults.Of(provider);
    }
    return if best.Some? then best.value.seat.account else least.value;
  }

  method WithSoonestReset(cs: seq<Candidate>) returns (best: Option<Timestamp>)
    ensures best == SoonestReset(cs)
  {
    best := None;
    for k := 0 to |cs|
      invariant best == SoonestReset(cs[..k])
      invariant best.Some? ==> best.value.ms.Some?
    {
      assert cs[..k + 1][..k] == cs[..k];
      var reset := ResetOf(cs[k]);
      if reset.None? {
        continue;
      }
      if reset.value.ms.None? || (best.Some? && reset.value.ms.value >= best.value.ms.value) {
        continue;
      }
      best := reset;
    }
    assert cs[..|cs|] == cs;
  }

  method PlaceAgent(i: Input) returns (d: Decision)
    ensures d == Place(i)
  {
    var pin := LookupPin(i.pins, i.role);
    if pin.Some? {
      var account := AccountForPinnedProvider(i, pin.value.provider);
      return Pinned(PlacementFromPin(i, pin.value, account));
    }
    var scored: seq<Scored> := [];
    for k := 0 to |i.candidates|
      invariant scored == ScoreHealthy(i.candidates[..k], i.nowMs)
    {
      assert i.candidates[..k + 1][..k] == i.candidates[..k];
      var candidate := i.candidates[k];
      if candidate.Healthy() {
        scored := scored + [ScoreOne(candidate, i.nowMs)];
      }
    }
    assert i.candidates[..|i.candidates|] == i.candidates;
    RankedKeepsLength(scored);
    if scored == [] {
      var soonest := WithSoonestReset(i.candidates);
      return NoCandidate(Seats(i.candidates), soonest);
    }
    scored := Ranked(scored);
    var chosen := ApplyHysteresis(scored, i.previous, i.Margin());
    return Floating(Placement(i.role, chosen.seat, i.tiers.Of(chosen.seat.provider)), scored);
  }

  lemma {:induction false} RankedKeepsLength(ss: seq<Scored>)
    ensures |Ranked(ss)| == |ss| && multiset(Ranked(ss)) == multiset(ss)
  {
    if ss != [] {
      RankedKeepsLength(ss[1..]);
      InsertAdds(ss[0], Ranked(ss[1..]));
      assert ss == [ss[0]] + ss[1..];
      assert |multiset(Ranked(ss))| == |multiset(ss)|;
    }
  }

  // ---------------------------------------------------------------- what a decision depends on

  lemma {:induction false} HealthyMembers(cs: seq<Candidate>, nowMs: int, s: Scored)
    ensures s in ScoreHealthy(cs, nowMs) <==> exists c :: c in cs && c.Healthy() && ScoreOne(c, nowMs) == s
  {
    hide ScoreOne;
    if cs != [] {
      var init, c := cs[..|cs| - 1], cs[|cs| - 1];
      HealthyMembers(init, nowMs, s);
      assert cs == init + [c];
    }
  }

  lemma {:induction false} ScoringKeepsDistinct(cs: seq<Candidate>, nowMs: int)
    requires DistinctCandidates(cs)
    ensures DistinctSeats(ScoreHealthy(cs, nowMs))
  {
    if cs != [] {
      var init, c := cs[..|cs| - 1], cs[|cs| - 1];
      ScoringKeepsDistinct(init, nowMs);
      var scored := ScoreHealthy(init, nowMs);
      forall k: nat | k < |scored|
        ensures scored[k].seat != c.seat
      {
        HealthyMembers(init, nowMs, scored[k]);
        var d :| d in init && d.Healthy() && ScoreOne(d, nowMs) == scored[k];
        var j: nat :| j < |init| && init[j] == d;
        assert cs[j].seat != cs[|cs| - 1].seat;
      }
    }
  }

  lemma {:induction false} DistinctCounts(ss: seq<Scored>, s: Scored)
    requires DistinctSeats(ss)
    ensures multiset(ss)[s] == if s in ss then 1 else 0
  {
    if ss != [] {
      assert ss == [ss[0]] + ss[1..];
      DistinctCounts(ss[1..], s);
      forall k: nat | k < |ss| - 1
        ensures ss[1..][k] != ss[0]
      {
        assert ss[0].seat != ss[k + 1].seat;
      }
    }
  }

  ghost predicate SameCandidates(a: seq<Candidate>, b: seq<Candidate>) {
    forall c :: c in a <==> c in b
  }

  lemma SameHealthy(a: seq<Candidate>, b: seq<Candidate>, nowMs: int)
    requires DistinctCandidates(a) && DistinctCandidates(b) && SameCandidates(a, b)
    ensures multiset(ScoreHealthy(a, nowMs)) == multiset(ScoreHealthy(b, nowMs))
  {
    hide ScoreHealthy, ScoreOne;
    ScoringKeepsDistinct(a, nowMs);
    ScoringKeepsDistinct(b, nowMs);
    forall s: Scored
      ensures multiset(ScoreHealthy(a, nowMs))[s] == multiset(ScoreHealthy(b, nowMs))[s]
    {
      HealthyMembers(a, nowMs, s);
      HealthyMembers(b, nowMs, s);
      DistinctCounts(ScoreHealthy(a, nowMs), s);
      DistinctCounts(ScoreHealthy(b, nowMs), s);
    }
  }

  // ---------------------------------------------------------------- pinned seats

  /** Nobody healthy of the provider, or one of them that none beats. */
  ghost predicate IsBest(best: Option<Scored>, cs: seq<Candidate>, p: Provider, nowMs: int) {
    match best
    case None => forall c <- cs :: c.seat.provider == p ==> !c.Healthy()
    case Some(s) =>
      && (exists c :: c in cs && c.Healthy() && c.seat.provider == p && ScoreOne(c, nowMs) == s)
      && forall d <- cs | d.Healthy() && d.seat.provider == p ::
          s.score > ScoreOne(d, nowMs).score ||
          (s.score == ScoreOne(d, nowMs).score && s.seat.account <= d.seat.account)
  }

  lemma {:induction false} BestHealthyIsBest(cs: seq<Candidate>, p: Provider, nowMs: int)
    ensures IsBest(BestHealthy(cs, p, nowMs), cs, p, nowMs)
  {
    hide HeadroomScore;
    if cs != [] {
      var init, c := cs[..|cs| - 1], cs[|cs| - 1];
      BestHealthyIsBest(init, p, nowMs);
      assert forall d :: d in cs <==> d in init || d == c;
    }
  }

  ghost predicate IsLeast(least: Option<nat>, cs: seq<Candidate>, p: Provider) {
    match least
    case None => forall c <- cs :: c.seat.provider != p
    case Some(a) =>
      && (exists c :: c in cs && c.seat == Seat(p, a))
      && forall c <- cs | c.seat.provider == p :: a <= c.seat.account
  }

  lemma {:induction false} LeastIsLeast(cs: seq<Candidate>, p: Provider)
    ensures IsLeast(LeastAccount(cs, p), cs, p)
  {
    if cs != [] {
      var init, c := cs[..|cs| - 1], cs[|cs| - 1];
      LeastIsLeast(init, p);
      assert forall d :: d in cs <==> d in init || d == c;
    }
  }

  /** A pinned seat's account depends on which candidates there are, not on their order or repetition. */
  lemma PinnedIsOrderFree(i: Input, cs: seq<Candidate>, p: Provider)
    requires SameCandidates(i.candidates, cs)
    ensures PinnedAccount(i, p) == PinnedAccount(i.(candidates := cs), p)
  {
    hide HeadroomScore, BestHealthy, LeastAccount;
    LeastIsLeast(i.candidates, p);
    LeastIsLeast(cs, p);
    BestHealthyIsBest(i.candidates, p, i.nowMs);
    BestHealthyIsBest(cs, p, i.nowMs);
  }

  /** A pin decides the provider whatever the candidates' health, the last seat and the margin are. */
  lemma PinIsNeverOverridden(i: Input, j: Input)
    requires j.role == i.role && j.pins == i.pins && LookupPin(i.pins, i.role).Some?
    ensures Place(j).Pinned? && Place(j).placement.seat.provider == LookupPin(i.pins, i.role).value.provider
    ensures Place(j.(previous := i.previous, marginPct := i.marginPct)) == Place(j)
  {
    hide BestHealthy, LeastAccount;
  }

  // ---------------------------------------------------------------- floating seats

  /** The ranking holds exactly the healthy candidates, each once, in order. */
  lemma RankingIsSortedHealthy(i: Input)
    requires DistinctCandidates(i.candidates)
    ensures IsRanked(Ranking(i)) && DistinctSeats(Ranking(i))
    ensures |Ranking(i)| == |ScoreHealthy(i.candidates, i.nowMs)|
    ensures forall s :: s in Ranking(i) <==> exists c :: c in i.candidates && c.Healthy() && ScoreOne(c, i.nowMs) == s
  {
    hide ScoreHealthy, Ranked, ScoreOne;
    var scored := ScoreHealthy(i.candidates, i.nowMs);
    ScoringKeepsDistinct(i.candidates, i.nowMs);
    RankedIsSorted(scored);
    RankedKeepsLength(scored);
    forall s: Scored
      ensures s in Ranking(i) <==> exists c :: c in i.candidates && c.Healthy() && ScoreOne(c, i.nowMs) == s
    {
      HealthyMembers(i.candidates, i.nowMs, s);
      assert s in multiset(Ranking(i)) <==> s in multiset(scored);
    }
    RankedIsDistinct(Ranking(i), scored);
  }

  lemma RankedIsDistinct(ranked: seq<Scored>, scored: seq<Scored>)
    requires IsRanked(ranked) && DistinctSeats(scored) && multiset(ranked) == multiset(scored)
    ensures DistinctSeats(ranked)
  {
    forall i: nat, j: nat | i < j < |ranked|
      ensures ranked[i].seat != ranked[j].seat
    {
      assert Before(ranked[i], ranked[j]);
      assert ranked[i] in multiset(scored) && ranked[j] in multiset(scored);
      var k: nat :| k < |scored| && scored[k] == ranked[i];
      var l: nat :| l < |scored| && scored[l] == ranked[j];
    }
  }

  /** A decision depends on which candidates are offered, not on their order; only a refusal lists them in order. */
  lemma PlacementIsOrderFree(i: Input, cs: seq<Candidate>)
    requires DistinctCandidates(i.candidates) && DistinctCandidates(cs) && SameCandidates(i.candidates, cs)
    ensures var d, d' := Place(i), Place(i.(candidates := cs));
            d == d' || (d.NoCandidate? && d'.NoCandidate?)
  {
    hide ScoreHealthy, Ranked, BestHealthy, LeastAccount, Find, ScoreOne;
    if LookupPin(i.pins, i.role).Some? {
      PinnedIsOrderFree(i, cs, LookupPin(i.pins, i.role).value.provider);
    } else {
      SameHealthy(i.candidates, cs, i.nowMs);
      ScoringKeepsDistinct(i.candidates, i.nowMs);
      ScoringKeepsDistinct(cs, i.nowMs);
      RankedIsSorted(ScoreHealthy(i.candidates, i.nowMs));
      RankedIsSorted(ScoreHealthy(cs, i.nowMs));
      RankingIsUnique(Ranking(i), Ranking(i.(candidates := cs)));
    }
  }

  /** The score a seat has this round, when it is healthy. */
  function SeatScore(i: Input, seat: Seat): Option<real> {
    var s := Find(Ranking(i), seat);
    if s.Some? then Some(s.value.score) else None
  }

  lemma FindIsThe(ranked: seq<Scored>, s: Scored)
    requires DistinctSeats(ranked) && s in ranked
    ensures Find(ranked, s.seat) == Some(s)
  {
    var found := Find(ranked, s.seat);
    var k: nat :| k < |ranked| && ranked[k] == s;
    if found.Some? { var l: nat :| l < |ranked| && ranked[l] == found.value; }
  }

  /**
   * A floating seat goes to the best healthy candidate or to one within the margin of it; it leaves a healthy last
   * seat exactly when another leads that seat by more than the margin, and then goes to the best.
   */
  lemma FloatingIsWithinMargin(i: Input)
    requires DistinctCandidates(i.candidates) && Place(i).Floating?
    ensures var seat, top := Place(i).placement.seat, Ranking(i)[0];
            && (exists c :: c in i.candidates && c.Healthy() && c.seat == seat)
            && SeatScore(i, top.seat) == Some(top.score)
            && (forall other | SeatScore(i, other).Some? :: SeatScore(i, other).value <= top.score)
            && SeatScore(i, seat).Some? && (seat == top.seat || top.score - SeatScore(i, seat).value <= i.Margin())
            && (i.previous.Some? && SeatScore(i, i.previous.value).Some? ==>
                  (seat != i.previous.value
                   <==> top.seat != i.previous.value && top.score - SeatScore(i, i.previous.value).value > i.Margin()))
            && (seat != top.seat ==> i.previous == Some(seat))
  {
    hide ScoreHealthy, Ranked, HeadroomScore;
    RankingIsSortedHealthy(i);
    var ranked := Ranking(i);
    var chosen := ApplyHysteresis(ranked, i.previous, i.Margin());
    assert ranked[0] in ranked && chosen in ranked;
    FindIsThe(ranked, ranked[0]);
    FindIsThe(ranked, chosen);
    forall other | SeatScore(i, other).Some?
      ensures SeatScore(i, other).value <= ranked[0].score
    {
      var k: nat :| k < |ranked| && ranked[k] == Find(ranked, other).value;
      if k > 0 { assert Before(ranked[0], ranked[k]); }
    }
  }

  /** A seat is placed exactly when it is pinned or some candidate is healthy; a refusal names every candidate. */
  lemma RefusedOnlyWithoutHealth(i: Input)
    ensures Place(i).NoCandidate? <==> LookupPin(i.pins, i.role).None? && forall c <- i.candidates :: !c.Healthy()
    ensures Place(i).NoCandidate? ==> |Place(i).excluded| == |i.candidates|
  {
    hide ScoreHealthy, Ranked, ScoreOne;
    var scored := ScoreHealthy(i.candidates, i.nowMs);
    RankedKeepsLength(scored);
    if scored != [] {
      HealthyMembers(i.candidates, i.nowMs, scored[0]);
    } else {
      forall c <- i.candidates
        ensures !c.Healthy()
      {
        if c.Healthy() { HealthyMembers(i.candidates, i.nowMs, ScoreOne(c, i.nowMs)); }
      }
    }
  }

  /** The reset reported with a refusal is the earliest that parses. */
  lemma {:induction false} SoonestIsEarliest(cs: seq<Candidate>)
    ensures match SoonestReset(cs)
            case None => forall c <- cs :: ResetOf(c).None? || ResetOf(c).value.ms.None?
            case Some(t) =>
              && t.ms.Some? && (exists c :: c in cs && ResetOf(c) == Some(t))
              && forall c <- cs | ResetOf(c).Some? && ResetOf(c).value.ms.Some? ::
                   t.ms.value <= ResetOf(c).value.ms.value
  {
    hide ResetOf;
    if cs != [] {
      var init, c := cs[..|cs| - 1], cs[|cs| - 1];
      SoonestIsEarliest(init);
      assert forall d :: d in cs <==> d in init || d == c;
    }
  }

  // ---------------------------------------------------------------- placements over time

  function NextSeat(i: Input): Option<Seat> {
    var d := Place(i);
    if d.Floating? then Some(d.placement.seat) else i.previous
  }

  /** Place again and again, each result the next round's last seat. */
  function Rounds(i: Input, n: nat): Input
    decreases n
  {
    if n == 0 then i else Rounds(i.(previous := NextSeat(i)), n - 1)
  }

  lemma PlaceSettles(i: Input)
    requires DistinctCandidates(i.candidates)
    ensures NextSeat(i.(previous := NextSeat(i))) == NextSeat(i)
  {
    hide ScoreHealthy, Ranked, ScoreOne;
    RankingIsSortedHealthy(i);
    var ranked := Ranking(i);
    assert Ranking(i.(previous := NextSeat(i))) == ranked;
    if Place(i).Floating? {
      var chosen := ApplyHysteresis(ranked, i.previous, i.Margin());
      assert chosen in ranked;
      FindIsThe(ranked, chosen);
    }
  }

  /** With unchanged candidates the seat moves at most once and then stays. */
  lemma {:induction false} MovesAtMostOnce(i: Input, n: nat)
    requires DistinctCandidates(i.candidates) && n > 0
    ensures Rounds(i, n).previous == NextSeat(i)
    decreases n
  {
    hide Place;
    var next := i.(previous := NextSeat(i));
    if n > 1 {
      PlaceSettles(i);
      MovesAtMostOnce(next, n - 1);
    } else {
      assert Rounds(next, 0) == next;
    }
  }

  /** The seat leaves `from`, healthy in this round, for `to`. */
  predicate Flips(i: Input, from: Seat, to: Seat) {
    && i.previous == Some(from) && from != to && SeatScore(i, from).Some?
    && Place(i).Floating? && Place(i).placement.seat == to
  }

  lemma FlipNeedsLead(i: Input, from: Seat, to: Seat)
    requires DistinctCandidates(i.candidates) && Flips(i, from, to)
    ensures SeatScore(i, to).Some? && SeatScore(i, to).value - SeatScore(i, from).value > i.Margin()
  {
    hide Place, SeatScore, Ranking, DistinctCandidates;
    FloatingIsWithinMargin(i);
  }

  /** A bounce from one seat to another and back needs the score difference to swing by more than twice the margin. */
  lemma BounceNeedsSwing(i: Input, j: Input, a: Seat, b: Seat)
    requires DistinctCandidates(i.candidates) && DistinctCandidates(j.candidates) && i.Margin() == j.Margin()
    requires Flips(i, a, b) && Flips(j, b, a)
    ensures SeatScore(i, b).Some? && SeatScore(j, a).Some?
    ensures (SeatScore(i, b).value - SeatScore(i, a).value) - (SeatScore(j, b).value - SeatScore(j, a).value)
            > 2.0 * i.Margin()
  {
    hide Flips, SeatScore, DistinctCandidates;
    FlipFacts(i, a, b);
    FlipFacts(j, b, a);
    FlipNeedsLead(i, a, b);
    FlipNeedsLead(j, b, a);
  }

  lemma FlipFacts(i: Input, from: Seat, to: Seat)
    requires Flips(i, from, to)
    ensures from != to && SeatScore(i, from).Some?
  {
  }

  /** Every healthy seat's score this round is within half a margin of its usual one. */
  ghost predicate Steady(i: Input, usual: Seat -> real) {
    forall s | SeatScore(i, s).Some? :: -i.Margin() <= 2.0 * (SeatScore(i, s).value - usual(s)) <= i.Margin()
  }

  /**
   * A run of rounds, each starting from the seat the last one gave, the seat left being healthy whenever it is left.
   */
  ghost predicate IsRun(rounds: seq<Input>) {
    && (forall k: nat | k < |rounds| :: DistinctCandidates(rounds[k].candidates))
    && (forall k: nat | k < |rounds| ::
          rounds[k].previous.Some? && SeatScore(rounds[k], rounds[k].previous.value).Some?)
    && (forall k: nat | k + 1 < |rounds| :: rounds[k + 1].previous == NextSeat(rounds[k]))
  }

  lemma RoundRaisesUsual(i: Input, usual: Seat -> real)
    requires DistinctCandidates(i.candidates) && Steady(i, usual)
    requires i.previous.Some? && SeatScore(i, i.previous.value).Some?
    ensures NextSeat(i).Some?
    ensures NextSeat(i) != i.previous ==> usual(NextSeat(i).value) > usual(i.previous.value)
  {
    hide SeatScore, Ranking, DistinctCandidates;
    if NextSeat(i) != i.previous {
      FlipNeedsLead(i, i.previous.value, NextSeat(i).value);
    }
  }

  /** While scores keep within half a margin of their usual values, the seat never goes back to one it has left. */
  lemma {:induction false} SteadySeatsNeverReturn(rounds: seq<Input>, usual: Seat -> real, k: nat)
    requires IsRun(rounds) && (forall r <- rounds :: Steady(r, usual)) && k < |rounds|
    ensures NextSeat(rounds[k]).Some? && usual(NextSeat(rounds[k]).value) >= usual(rounds[0].previous.value)
    ensures NextSeat(rounds[k]) == rounds[0].previous ==>
              forall j: nat | j <= k :: NextSeat(rounds[j]) == rounds[0].previous
    decreases k
  {
    hide NextSeat, SeatScore, Steady, DistinctCandidates;
    assert rounds[k] in rounds;
    RoundRaisesUsual(rounds[k], usual);
    if k > 0 { SteadySeatsNeverReturn(rounds, usual, k - 1); }
  }

  // ---------------------------------------------------------------- an account's binding window

  /** One observed window; its kind is its rank in the collation order. */
  datatype Bucket = Bucket(windowKind: nat, usedPct: real, resetAt: Timestamp)

  datatype AccountStatus = AccountStatus(available: bool, reason: Option<string>)

  function DeriveHeadroom(status: Option<AccountStatus>, bucket: Option<Bucket>): Headroom {
    if status.None? then Unknown("no usage observed for this account")
    else if !status.value.available then Unknown(status.value.reason.GetOr("usage source unavailable"))
    else if bucket.None? then Unknown("no usage observed for this window")
    else Known(bucket.value.usedPct, bucket.value.resetAt)
  }

  /** The most used of the windows, the first kind among equals. */
  ghost predicate IsBinding(b: Bucket, buckets: seq<Bucket>) {
    && b in buckets
    && forall other <- buckets ::
         other.usedPct < b.usedPct || (other.usedPct == b.usedPct && b.windowKind <= other.windowKind)
  }

  /** An account is healthy exactly when it is available and was observed; its tightest window speaks for it. */
  method BindingProviderHeadroom(seat: Seat, status: Option<AccountStatus>, buckets: seq<Bucket>) returns (c: Candidate)
    ensures c.seat == seat
    ensures c.Healthy() <==> status.Some? && status.value.available && buckets != []
    ensures buckets == [] ==> c.resetAt.None?
    ensures buckets != [] ==> exists b :: IsBinding(b, buckets) && c.resetAt == Some(b.resetAt)
                                          && (c.Healthy() ==> c.headroom == Known(b.usedPct, b.resetAt))
  {
    var binding: Option<Bucket> := None;
    for k := 0 to |buckets|
      invariant k == 0 <==> binding.None?
      invariant k > 0 ==> IsBinding(binding.value, buckets[..k])
    {
      var bucket := buckets[k];
      assert forall b :: b in buckets[..k + 1] <==> b in buckets[..k] || b == bucket;
      if binding.None? || bucket.usedPct > binding.value.usedPct
         || (bucket.usedPct == binding.value.usedPct && bucket.windowKind < binding.value.windowKind) {
        binding := Some(bucket);
      }
    }
    assert buckets[..|buckets|] == buckets;
    return Candidate(seat, status.Some? && status.value.available, DeriveHeadroom(status, binding),
                     if binding.Some? then Some(binding.value.resetAt) else None);
  }

  /** With one window of each kind the binding one is determined, whatever the order they are read in. */
  lemma BindingIsUnique(a: Bucket, b: Bucket, buckets: seq<Bucket>, others: seq<Bucket>)
    requires IsBinding(a, buckets) && IsBinding(b, others) && forall x :: x in buckets <==> x in others
    requires forall x, y | x in buckets && y in buckets && x.windowKind == y.windowKind :: x == y
    ensures a == b
  {
    assert b in buckets && a in others;
  }
}
