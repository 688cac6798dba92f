/**
 * The event-sourced cost ledger: observations deduplicated by turn and by source, rollups kept incrementally,
 * a batch recompute, a read-only refold of the log, and the repair of stores that predate the observation table.
 */
module CostLedger {
  import opened Basics

  // ---------------------------------------------------------------- data

  datatype Measures = Measures(costUsd: Option<real>, inputTokens: Option<nat>, outputTokens: Option<nat>,
                               totalTokens: Option<nat>, cacheReadTokens: Option<nat>, cacheCreationTokens: Option<nat>,
                               usedPct: Option<real>)

  /** The payload of a `cost.recorded` event, and, once its total is normalized, a stored observation. */
  datatype Observation = Observation(provider: string, agent: string, task: string, turn: nat,
                                     sourceId: Option<string>, m: Measures)

  type TurnKey = (string, string, string, nat)
  type SourceKey = (string, string, string, string)

  datatype Kind = Agent | Task
  type RollupKey = (Kind, string)

  datatype Rollup = Rollup(totalCostUsd: real, costUsdObservations: nat, inputTokens: nat, outputTokens: nat,
                           totalTokens: nat, tokenObservations: nat, cacheReadTokens: nat, cacheCreationTokens: nat,
                           usedPct: real, usedPctObservations: nat, observations: nat)

  const EMPTY_ROLLUP := Rollup(0.0, 0, 0, 0, 0, 0, 0, 0, 0.0, 0, 0)

  type Observations = map<TurnKey, Observation>
  type Rollups = map<RollupKey, Rollup>

  datatype Ledger = Ledger(observations: Observations, rollups: Rollups)

  const EMPTY_LEDGER := Ledger(map[], map[])

  function TurnKeyOf(o: Observation): TurnKey { (o.provider, o.agent, o.task, o.turn) }

  // ---------------------------------------------------------------- normalization and rollup arithmetic

  /** The reported total, or input plus output when both are reported. */
  function NormalizedTotalTokens(m: Measures): Option<nat> {
    if m.totalTokens.Some? then m.totalTokens
    else if m.inputTokens.Some? && m.outputTokens.Some? then Some(m.inputTokens.value + m.outputTokens.value)
    else None
  }

  function Normalize(p: Observation): Observation {
    p.(m := p.m.(totalTokens := NormalizedTotalTokens(p.m)))
  }

  function Reported<T>(x: Option<T>): nat { if x.Some? then 1 else 0 }

  /** What one observation adds to a rollup row. */
  function Contribution(o: Observation): Rollup {
    Rollup(o.m.costUsd.GetOr(0.0), Reported(o.m.costUsd), o.m.inputTokens.GetOr(0), o.m.outputTokens.GetOr(0),
           o.m.totalTokens.GetOr(0), Reported(o.m.totalTokens), o.m.cacheReadTokens.GetOr(0),
           o.m.cacheCreationTokens.GetOr(0), o.m.usedPct.GetOr(0.0), Reported(o.m.usedPct), 1)
  }

  function Plus(a: Rollup, b: Rollup): Rollup {
    Rollup(a.totalCostUsd + b.totalCostUsd, a.costUsdObservations + b.costUsdObservations,
           a.inputTokens + b.inputTokens, a.outputTokens + b.outputTokens, a.totalTokens + b.totalTokens,
           a.tokenObservations + b.tokenObservations, a.cacheReadTokens + b.cacheReadTokens,
           a.cacheCreationTokens + b.cacheCreationTokens, a.usedPct + b.usedPct,
           a.usedPctObservations + b.usedPctObservations, a.observations + b.observations)
  }

  function RollupAt(rollups: Rollups, key: RollupKey): Rollup {
    if key in rollups then rollups[key] else EMPTY_ROLLUP
  }

  function AddTo(rollups: Rollups, key: RollupKey, o: Observation): Rollups {
    rollups[key := Plus(RollupAt(rollups, key), Contribution(o))]
  }

  function AddBoth(rollups: Rollups, o: Observation): Rollups {
    AddTo(AddTo(rollups, (Agent, o.agent), o), (Task, o.task), o)
  }

  // ---------------------------------------------------------------- one event

  predicate SameSource(a: Observation, b: Observation) {
    a.sourceId.Some? && a.sourceId == b.sourceId && a.provider == b.provider && a.agent == b.agent && a.task == b.task
  }

  predicate MatchIgnoringTurn(a: Observation, b: Observation) { a.(turn := 0) == b.(turn := 0) }

  /** The partial unique index already holds this source. */
  predicate SourceTaken(rows: Observations, o: Observation) {
    exists k <- rows :: SameSource(rows[k], o)
  }

  predicate SourceRepeats(rows: Observations, o: Observation) {
    exists k <- rows :: SameSource(rows[k], o) && MatchIgnoringTurn(rows[k], o)
  }

  datatype Recording = Inserted | Duplicate | Conflict

  /** Insert unless either identity is taken; a repeat of the row at the turn or of the source is no error. */
  function Record(rows: Observations, o: Observation): Recording {
    var key := TurnKeyOf(o);
    if key !in rows && !SourceTaken(rows, o) then Inserted
    else if key in rows && rows[key] == o then Duplicate
    else if SourceRepeats(rows, o) then Duplicate
    else Conflict
  }

  /** Fold one event; `None` is the thrown conflict. */
  function Apply(l: Ledger, o: Observation): Option<Ledger> {
    match Record(l.observations, o)
    case Inserted => Some(Ledger(l.observations[TurnKeyOf(o) := o], AddBoth(l.rollups, o)))
    case Duplicate => Some(l)
    case Conflict => None
  }

  /** Fold a log of payloads from the empty ledger. */
  function Fold(log: seq<Observation>): Option<Ledger> {
    if log == [] then Some(EMPTY_LEDGER)
    else
      match Fold(log[..|log| - 1])
      case None => None
      case Some(l) => Apply(l, Normalize(log[|log| - 1]))
  }

  // ---------------------------------------------------------------- sums over sets of observations

  ghost function Sum(os: set<Observation>): Rollup {
    if os == {} then EMPTY_ROLLUP
    else
      var o :| o in os;
      Plus(Contribution(o), Sum(os - {o}))
  }

  predicate Matches(o: Observation, key: RollupKey) {
    match key.0
    case Agent => o.agent == key.1
    case Task => o.task == key.1
  }

  function Matching(os: set<Observation>, key: RollupKey): set<Observation> {
    set o <- os | Matches(o, key)
  }

  function KeysOf(os: set<Observation>): set<RollupKey> {
    (set o <- os :: (Agent, o.agent)) + (set o <- os :: (Task, o.task))
  }

  /** `SELECT ... SUM ... GROUP BY`, once per kind. */
  ghost function Totals(os: set<Observation>): Rollups {
    map key <- KeysOf(os) :: Sum(Matching(os, key))
  }

  lemma {:induction false} SumInsert(os: set<Observation>, o: Observation)
    requires o !in os
    ensures Sum(os + {o}) == Plus(Contribution(o), Sum(os))
  {
    var all := os + {o};
    var x :| x in all && Sum(all) == Plus(Contribution(x), Sum(all - {x}));
    if x == o {
      assert all - {x} == os;
    } else {
      var rest := os - {x};
      assert all - {x} == rest + {o} && os == rest + {x};
      SumInsert(rest, o);
      SumInsert(rest, x);
      PlusSwap(Contribution(x), Contribution(o), Sum(rest));
    }
  }

  lemma PlusSwap(a: Rollup, b: Rollup, c: Rollup)
    ensures Plus(a, Plus(b, c)) == Plus(b, Plus(a, c))
  {
  }

  lemma TotalsInsert(os: set<Observation>, o: Observation)
    requires o !in os
    ensures Totals(os + {o}) == AddBoth(Totals(os), o)
  {
    var before, after := Totals(os), Totals(os + {o});
    assert after.Keys == before.Keys + {(Agent, o.agent), (Task, o.task)};
    forall key | key in after.Keys
      ensures after[key] == AddBoth(before, o)[key]
    {
      hide Plus, Contribution, Sum, KeysOf;
      SumInsertMatching(os, o, key);
      NoMatchNoKey(os, key);
    }
  }

  lemma NoMatchNoKey(os: set<Observation>, key: RollupKey)
    ensures RollupAt(Totals(os), key) == Sum(Matching(os, key))
  {
    if key !in KeysOf(os) {
      assert Matching(os, key) == {};
    }
  }

  lemma SumInsertMatching(os: set<Observation>, o: Observation, key: RollupKey)
    requires o !in os
    ensures Sum(Matching(os + {o}, key))
            == if Matches(o, key) then Plus(Sum(Matching(os, key)), Contribution(o)) else Sum(Matching(os, key))
  {
    if Matches(o, key) {
      assert Matching(os + {o}, key) == Matching(os, key) + {o};
      SumInsert(Matching(os, key), o);
    } else {
      assert Matching(os + {o}, key) == Matching(os, key);
    }
  }

  // ---------------------------------------------------------------- the closed form

  /** What an event says once the turn of a sourced event is forgotten. */
  function Canon(o: Observation): Observation { if o.sourceId.Some? then o.(turn := 0) else o }

  function CanonSet(os: set<Observation>): set<Observation> { set o <- os :: Canon(o) }

  function Events(log: seq<Observation>): set<Observation> { set p <- log :: Normalize(p) }

  ghost predicate WellKeyed(rows: Observations) {
    && (forall k <- rows :: TurnKeyOf(rows[k]) == k)
    && (forall j <- rows, k <- rows :: SameSource(rows[j], rows[k]) ==> j == k)
  }

  /** The ledger stores one row per canonical observation of `os`, and its rollups are their totals. */
  ghost predicate Represents(l: Ledger, os: set<Observation>) {
    && WellKeyed(l.observations)
    && CanonSet(l.observations.Values) == os
    && l.rollups == Totals(os)
  }

  lemma AddBothIgnoresTurn(rollups: Rollups, o: Observation)
    ensures AddBoth(rollups, Canon(o)) == AddBoth(rollups, o)
  {
  }

  lemma InsertedIsNew(rows: Observations, o: Observation)
    requires WellKeyed(rows) && Record(rows, o) == Inserted
    ensures Canon(o) !in CanonSet(rows.Values)
    ensures WellKeyed(rows[TurnKeyOf(o) := o])
    ensures CanonSet(rows[TurnKeyOf(o) := o].Values) == CanonSet(rows.Values) + {Canon(o)}
  {
    assert forall k <- rows :: !SameSource(rows[k], o) && !SameSource(o, rows[k]);
    forall r | r in rows.Values ensures Canon(r) != Canon(o) {
      var k :| k in rows && rows[k] == r;
    }
    ValuesOfInsert(rows, TurnKeyOf(o), o);
  }

  lemma ValuesOfInsert(rows: Observations, key: TurnKey, o: Observation)
    requires key !in rows
    ensures rows[key := o].Values == rows.Values + {o}
  {
    var rows' := rows[key := o];
    assert rows'[key] == o;
    forall r | r in rows.Values ensures r in rows'.Values {
      var k :| k in rows && rows[k] == r;
      assert rows'[k] == r;
    }
  }

  lemma DuplicateIsKnown(rows: Observations, o: Observation)
    requires Record(rows, o) == Duplicate
    ensures Canon(o) in CanonSet(rows.Values)
  {
    if TurnKeyOf(o) in rows && rows[TurnKeyOf(o)] == o {
      assert o in rows.Values;
    } else {
      var k :| k in rows && SameSource(rows[k], o) && MatchIgnoringTurn(rows[k], o);
      assert rows[k] in rows.Values && Canon(rows[k]) == Canon(o);
    }
  }

  lemma ApplyKeepsRepresents(l: Ledger, o: Observation, os: set<Observation>)
    requires Represents(l, os) && Apply(l, o).Some?
    ensures Represents(Apply(l, o).value, os + {Canon(o)})
  {
    hide Totals, AddBoth, Canon, SourceTaken, SourceRepeats;
    if Record(l.observations, o) == Inserted {
      InsertedIsNew(l.observations, o);
      TotalsInsert(os, Canon(o));
      AddBothIgnoresTurn(l.rollups, o);
    } else {
      DuplicateIsKnown(l.observations, o);
      assert os + {Canon(o)} == os;
    }
  }

  lemma NothingTotalsNothing()
    ensures Totals({}) == map[]
  {
  }

  lemma EventsSnoc(log: seq<Observation>, p: Observation)
    ensures Events(log + [p]) == Events(log) + {Normalize(p)}
    ensures CanonSet(Events(log + [p])) == CanonSet(Events(log)) + {Canon(Normalize(p))}
  {
    hide Normalize, Canon;
    var n := Normalize(p);
    assert Events(log + [p]) == Events(log) + {n};
    assert CanonSet(Events(log) + {n}) == CanonSet(Events(log)) + {Canon(n)};
  }

  /** The ledger of a log that folds is determined by the set of its canonical events. */
  lemma {:induction false} FoldIsTotals(log: seq<Observation>)
    requires Fold(log).Some?
    ensures Represents(Fold(log).value, CanonSet(Events(log)))
  {
    hide Totals, Apply, Canon, Normalize, CanonSet, Events;
    if log == [] {
      EmptyRepresentsNothing();
    } else {
      var front, p := log[..|log| - 1], log[|log| - 1];
      assert log == front + [p];
      FoldIsTotals(front);
      ApplyKeepsRepresents(Fold(front).value, Normalize(p), CanonSet(Events(front)));
      EventsSnoc(front, p);
    }
  }

  lemma EmptyRepresentsNothing()
    ensures Represents(EMPTY_LEDGER, CanonSet(Events([])))
  {
    hide Totals;
    NothingTotalsNothing();
    assert CanonSet(Events([])) == {} && EMPTY_LEDGER.observations.Values == {};
  }

  /** Order and repetition do not matter: logs with the same events that both fold give the same rollups. */
  lemma RollupsDependOnEventSet(log1: seq<Observation>, log2: seq<Observation>)
    requires Fold(log1).Some? && Fold(log2).Some?
    requires Events(log1) == Events(log2)
    ensures Fold(log1).value.rollups == Fold(log2).value.rollups
  {
    FoldIsTotals(log1);
    FoldIsTotals(log2);
  }

  lemma FoldAgain(log: seq<Observation>, p: Observation)
    ensures Fold(log + [p]) == match Fold(log) case None => None case Some(l) => Apply(l, Normalize(p))
  {
    assert (log + [p])[..|log|] == log;
  }

  /** A sample event: one dollar, reported by `ag` for `t`. */
  function Sample(turn: nat, sourceId: Option<string>): (o: Observation)
    ensures Normalize(o) == o
  {
    Observation("claude", "ag", "t", turn, sourceId, Measures(Some(1.0), None, None, None, None, None, None))
  }

  lemma FoldOne(turn: nat, sourceId: Option<string>)
    ensures var o := Sample(turn, sourceId);
            Fold([o]).Some? && Fold([o]).value.observations == map[TurnKeyOf(o) := o]
  {
    hide AddBoth;
    var o := Sample(turn, sourceId);
    assert Fold([]) == Some(EMPTY_LEDGER);
    FoldAgain([], o);
    assert [] + [o] == [o];
  }

  /** Two orders of the same three events: one folds, the other meets a conflict. Success depends on order. */
  lemma SuccessDependsOnOrder()
    ensures var a, b, c := Sample(1, Some("s")), Sample(1, None), Sample(2, Some("s"));
            && Events([c] + [a] + [b]) == Events([a] + [b] + [c])
            && Fold([c] + [a] + [b]).Some? && Fold([a] + [b] + [c]).None?
  {
    hide AddBoth, Apply;
    var a, b, c := Sample(1, Some("s")), Sample(1, None), Sample(2, Some("s"));
    assert Events([c] + [a] + [b]) == {a, b, c} == Events([a] + [b] + [c]);
    FoldOne(1, Some("s"));
    FoldOne(2, Some("s"));
    FoldAgain([a], b);
    FoldAgain([a] + [b], c);
    FoldAgain([c], a);
    FoldAgain([c] + [a], b);
    var first, third := Fold([a]).value, Fold([c]).value;
    assert Apply(first, b).None? by { ApplyIsRecord(first, b); }
    assert Apply(third, a) == Some(third) by {
      assert SameSource(third.observations[TurnKeyOf(c)], a);
      ApplyIsRecord(third, a);
    }
    assert Apply(third, b).Some? by { ApplyIsRecord(third, b); }
  }

  lemma ApplyIsRecord(l: Ledger, o: Observation)
    ensures match Record(l.observations, o)
            case Inserted => Apply(l, o).Some? && Apply(l, o).value.observations == l.observations[TurnKeyOf(o) := o]
            case Duplicate => Apply(l, o) == Some(l)
            case Conflict => Apply(l, o).None?
  {
    hide AddBoth;
  }

  // ---------------------------------------------------------------- when every order folds

  /** Events at one turn, or of one source, say the same once the turn of a sourced event is forgotten. */
  ghost predicate Compatible(os: set<Observation>) {
    forall a, b | a in os && b in os && (TurnKeyOf(a) == TurnKeyOf(b) || SameSource(a, b)) :: Canon(a) == Canon(b)
  }

  lemma {:induction false} PrefixMustFold(ps: seq<Observation>, n: nat)
    requires n <= |ps| && Fold(ps[..n]).None?
    ensures Fold(ps).None?
  {
    if n < |ps| {
      assert ps[..|ps| - 1][..n] == ps[..n];
      PrefixMustFold(ps[..|ps| - 1], n);
    } else {
      assert ps[..n] == ps;
    }
  }

  lemma {:induction false} StoredAreEvents(log: seq<Observation>)
    requires Fold(log).Some?
    ensures Fold(log).value.observations.Values <= Events(log) && WellKeyed(Fold(log).value.observations)
  {
    hide AddBoth, Canon;
    if log != [] {
      var front, p := log[..|log| - 1], log[|log| - 1];
      assert log == front + [p];
      StoredAreEvents(front);
      var rows := Fold(front).value.observations;
      if Record(rows, Normalize(p)) == Inserted {
        InsertedIsNew(rows, Normalize(p));
        ValuesOfInsert(rows, TurnKeyOf(Normalize(p)), Normalize(p));
      }
    }
  }

  lemma CompatibleNeverConflicts(rows: Observations, os: set<Observation>, o: Observation)
    requires Compatible(os) && o in os && rows.Values <= os && WellKeyed(rows)
    ensures Record(rows, o) != Conflict
  {
    if TurnKeyOf(o) in rows {
      assert rows[TurnKeyOf(o)] in os;
    } else if SourceTaken(rows, o) {
      var k :| k in rows && SameSource(rows[k], o);
      assert rows[k] in os && MatchIgnoringTurn(rows[k], o);
    }
  }

  lemma {:induction false} CompatibleFolds(log: seq<Observation>, os: set<Observation>)
    requires Compatible(os) && Events(log) <= os
    ensures Fold(log).Some?
  {
    hide Apply, Compatible, Normalize;
    if log != [] {
      var front, p := log[..|log| - 1], log[|log| - 1];
      assert log == front + [p];
      CompatibleFolds(front, os);
      StoredAreEvents(front);
      CompatibleNeverConflicts(Fold(front).value.observations, os, Normalize(p));
      ApplyFailsIff(Fold(front).value, Normalize(p));
    }
  }

  lemma ApplyFailsIff(l: Ledger, o: Observation)
    ensures Apply(l, o).None? <==> Record(l.observations, o) == Conflict
  {
  }

  /** Two events that clash do not fold one after the other. */
  lemma ClashingPairFails(p: Observation, q: Observation)
    requires TurnKeyOf(Normalize(p)) == TurnKeyOf(Normalize(q)) || SameSource(Normalize(p), Normalize(q))
    requires Canon(Normalize(p)) != Canon(Normalize(q))
    ensures Fold([p] + [q]).None?
  {
    hide AddBoth, Normalize;
    FoldAgain([], p);
    assert [] + [p] == [p];
    FoldAgain([p], q);
  }

  lemma IncompatibleFailsInSomeOrder(log: seq<Observation>) returns (other: seq<Observation>)
    requires !Compatible(Events(log))
    ensures Events(other) == Events(log) && Fold(other).None?
  {
    hide Fold, Canon, Normalize;
    var a, b :| a in Events(log) && b in Events(log) && (TurnKeyOf(a) == TurnKeyOf(b) || SameSource(a, b))
                && Canon(a) != Canon(b);
    var p :| p in log && Normalize(p) == a;
    var q :| q in log && Normalize(q) == b;
    other := [p] + [q] + log;
    ClashingPairFails(p, q);
    assert other[..2] == [p] + [q];
    PrefixMustFold(other, 2);
  }

  /**
   * A log's events fold in every order and repetition exactly when they are pairwise compatible; and then all those
   * logs give the same rollups.
   */
  lemma EveryOrderFoldsIff(log: seq<Observation>)
    ensures (forall other | Events(other) == Events(log) :: Fold(other).Some?) <==> Compatible(Events(log))
    ensures Compatible(Events(log)) ==>
              forall other | Events(other) == Events(log) ::
                Fold(other).Some? && Fold(log).Some? && Fold(other).value.rollups == Fold(log).value.rollups
  {
    hide Fold, Events, Compatible;
    if Compatible(Events(log)) {
      CompatibleFolds(log, Events(log));
      forall other | Events(other) == Events(log)
        ensures Fold(other).Some? && Fold(other).value.rollups == Fold(log).value.rollups
      {
        CompatibleFolds(other, Events(log));
        RollupsDependOnEventSet(other, log);
      }
    } else {
      var other := IncompatibleFailsInSomeOrder(log);
    }
  }

  // ---------------------------------------------------------------- the batch recompute

  /** The rollups a batch recompute derives from the stored rows. */
  ghost function Recompute(rows: Observations): Rollups { Totals(rows.Values) }

  lemma {:induction false} SumOfCanon(os: set<Observation>)
    requires forall a <- os, b <- os :: Canon(a) == Canon(b) ==> a == b
    ensures Sum(CanonSet(os)) == Sum(os)
  {
    if os == {} {
      assert CanonSet(os) == {};
    } else {
      hide Canon, Contribution, Plus;
      var o :| o in os;
      var rest := os - {o};
      SumOfCanon(rest);
      assert CanonSet(os) == CanonSet(rest) + {Canon(o)};
      SumInsert(CanonSet(rest), Canon(o));
      assert os == rest + {o};
      SumInsert(rest, o);
    }
  }

  lemma TotalsOfCanon(os: set<Observation>)
    requires forall a <- os, b <- os :: Canon(a) == Canon(b) ==> a == b
    ensures Totals(CanonSet(os)) == Totals(os)
  {
    assert KeysOf(CanonSet(os)) == KeysOf(os) by {
      forall o | o in os ensures Canon(o) in CanonSet(os) && Canon(o).agent == o.agent && Canon(o).task == o.task {}
    }
    forall key | key in KeysOf(os) ensures Sum(Matching(CanonSet(os), key)) == Sum(Matching(os, key)) {
      assert Matching(CanonSet(os), key) == CanonSet(Matching(os, key));
      SumOfCanon(Matching(os, key));
    }
  }

  lemma StoredRowsAreCanonicallyDistinct(rows: Observations)
    requires WellKeyed(rows)
    ensures forall a <- rows.Values, b <- rows.Values :: Canon(a) == Canon(b) ==> a == b
  {
    forall a, b | a in rows.Values && b in rows.Values && Canon(a) == Canon(b) ensures a == b {
      var j :| j in rows && rows[j] == a;
      var k :| k in rows && rows[k] == b;
      if a.sourceId.Some? {
        assert SameSource(rows[j], rows[k]);
      }
    }
  }

  /** Rollups kept one event at a time are what grouping and summing the stored rows gives. */
  lemma IncrementalIsRecompute(log: seq<Observation>)
    requires Fold(log).Some?
    ensures Fold(log).value.rollups == Recompute(Fold(log).value.observations)
  {
    FoldIsTotals(log);
    StoredRowsAreCanonicallyDistinct(Fold(log).value.observations);
    TotalsOfCanon(Fold(log).value.observations.Values);
  }

  // ---------------------------------------------------------------- the read-only refold

  datatype ReadOnly = ReadOnly(byTurn: Observations, bySource: map<SourceKey, Observation>, byKey: Rollups)

  const EMPTY_READ_ONLY := ReadOnly(map[], map[], map[])

  function SourceKeyOf(o: Observation): Option<SourceKey> {
    if o.sourceId.Some? then Some((o.provider, o.agent, o.task, o.sourceId.value)) else None
  }

  function Remember(byTurn: Observations, bySource: map<SourceKey, Observation>, o: Observation): Recording {
    var turn, source := TurnKeyOf(o), SourceKeyOf(o);
    if turn in byTurn then if byTurn[turn] == o then Duplicate else Conflict
    else if source.Some? && source.value in bySource then
      if MatchIgnoringTurn(bySource[source.value], o) then Duplicate else Conflict
    else Inserted
  }

  function ReadOnlyApply(r: ReadOnly, o: Observation): Option<ReadOnly> {
    match Remember(r.byTurn, r.bySource, o)
    case Conflict => None
    case Duplicate => Some(r)
    case Inserted =>
      Some(ReadOnly(r.byTurn[TurnKeyOf(o) := o],
                    if SourceKeyOf(o).Some? then r.bySource[SourceKeyOf(o).value := o] else r.bySource,
                    AddBoth(r.byKey, o)))
  }

  function ReadOnlyFold(log: seq<Observation>): Option<ReadOnly> {
    if log == [] then Some(EMPTY_READ_ONLY)
    else
      match ReadOnlyFold(log[..|log| - 1])
      case None => None
      case Some(r) => ReadOnlyApply(r, Normalize(log[|log| - 1]))
  }

  /** The two dedup maps hold the ledger's rows, under their two identities. */
  ghost predicate Mirrors(r: ReadOnly, l: Ledger) {
    && r.byTurn == l.observations && r.byKey == l.rollups
    && (forall s <- r.bySource :: SourceKeyOf(r.bySource[s]) == Some(s) && r.bySource[s] in l.observations.Values)
    && (forall k <- l.observations :: SourceKeyOf(l.observations[k]).Some?
                                      ==> SourceKeyOf(l.observations[k]).value in r.bySource)
  }

  /** The event's turn is free, or holds this very event. */
  predicate TurnAgrees(rows: Observations, o: Observation) {
    TurnKeyOf(o) in rows ==> rows[TurnKeyOf(o)] == o
  }

  lemma SourceMapIsIndex(r: ReadOnly, l: Ledger, o: Observation)
    requires Mirrors(r, l) && SourceKeyOf(o).Some?
    ensures SourceKeyOf(o).value in r.bySource <==> SourceTaken(l.observations, o)
  {
    var s, rows := SourceKeyOf(o).value, l.observations;
    if s in r.bySource {
      var j :| j in rows && rows[j] == r.bySource[s];
      assert SameSource(rows[j], o);
    }
    if SourceTaken(rows, o) {
      var k :| k in rows && SameSource(rows[k], o);
      assert SourceKeyOf(rows[k]) == Some(s);
    }
  }

  /** On mirrored states the read-only step succeeds exactly when the projector does and the turn does not disagree. */
  lemma ReadOnlyStep(r: ReadOnly, l: Ledger, o: Observation)
    requires Mirrors(r, l) && WellKeyed(l.observations)
    ensures ReadOnlyApply(r, o).Some? <==> Apply(l, o).Some? && TurnAgrees(l.observations, o)
    ensures ReadOnlyApply(r, o).Some? ==> Mirrors(ReadOnlyApply(r, o).value, Apply(l, o).value)
  {
    hide AddBoth;
    var rows := l.observations;
    if SourceTaken(rows, o) {
      var k :| k in rows && SameSource(rows[k], o);
      var s := SourceKeyOf(o).value;
      assert SourceKeyOf(rows[k]) == Some(s);
      assert r.bySource[s] in rows.Values;
      var j :| j in rows && rows[j] == r.bySource[s];
      assert SameSource(rows[j], rows[k]);
      assert SourceRepeats(rows, o) <==> MatchIgnoringTurn(rows[k], o);
    }
    if SourceKeyOf(o).Some? { SourceMapIsIndex(r, l, o); }
    if TurnKeyOf(o) !in rows {
      ValuesOfInsert(rows, TurnKeyOf(o), o);
    }
  }

  /** No event of the log meets a different event at its turn when it is folded. */
  predicate TurnsAgree(log: seq<Observation>) {
    log == [] ||
    (&& TurnsAgree(log[..|log| - 1])
     && (Fold(log[..|log| - 1]).Some? ==>
           TurnAgrees(Fold(log[..|log| - 1]).value.observations, Normalize(log[|log| - 1]))))
  }

  /**
   * The read-only refold succeeds exactly on the logs that fold with agreeing turns, and then shows the same rollups.
   */
  lemma {:induction false} ReadOnlyAgrees(log: seq<Observation>)
    ensures ReadOnlyFold(log).Some? <==> Fold(log).Some? && TurnsAgree(log)
    ensures ReadOnlyFold(log).Some? ==> Mirrors(ReadOnlyFold(log).value, Fold(log).value)
  {
    if log != [] {
      hide Mirrors, TurnAgrees, Apply, ReadOnlyApply;
      var front := log[..|log| - 1];
      ReadOnlyAgrees(front);
      if ReadOnlyFold(front).Some? {
        FoldIsTotals(front);
        ReadOnlyStep(ReadOnlyFold(front).value, Fold(front).value, Normalize(log[|log| - 1]));
      }
    } else {
      assert Mirrors(EMPTY_READ_ONLY, EMPTY_LEDGER);
    }
  }

  /** Whenever the read-only refold succeeds, so does the fold, and refold, fold and recompute agree. */
  lemma ReadOnlyFoldAndRecomputeAgree(log: seq<Observation>)
    requires ReadOnlyFold(log).Some?
    ensures Fold(log).Some?
    ensures ReadOnlyFold(log).value.byKey == Fold(log).value.rollups == Recompute(Fold(log).value.observations)
  {
    ReadOnlyAgrees(log);
    IncrementalIsRecompute(log);
  }

  /** The converse fails: a repeated source at a turn taken by another event folds, but the read-only refold throws. */
  lemma ReadOnlyIsStricter()
    ensures var a, b, c := Sample(1, Some("s1")), Sample(2, Some("s2")), Sample(2, Some("s1"));
            Fold([a] + [b] + [c]).Some? && ReadOnlyFold([a] + [b] + [c]).None?
  {
    hide AddBoth, Apply, ReadOnlyFold;
    var a, b, c := Sample(1, Some("s1")), Sample(2, Some("s2")), Sample(2, Some("s1"));
    FoldOne(1, Some("s1"));
    FoldAgain([a], b);
    ApplyIsRecord(Fold([a]).value, b);
    FoldAgain([a] + [b], c);
    var l := Fold([a] + [b]).value;
    assert SameSource(l.observations[TurnKeyOf(a)], c);
    ApplyIsRecord(l, c);
    var log := [a] + [b] + [c];
    assert log[..2] == [a] + [b];
    assert !TurnAgrees(l.observations, Normalize(log[2]));
    ReadOnlyAgrees(log);
  }
}
