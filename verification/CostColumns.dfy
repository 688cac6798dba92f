/**
 * What each column of a rollup row says of the payloads in the log, column by column, and what a repair does to it.
 */
module CostColumns {
  import opened Basics
  import opened CostLedger
  import opened CostStore

  // ---------------------------------------------------------------- one column

  ghost function SumNat(os: set<Observation>, field: Observation -> nat): nat {
    if os == {} then 0
    else
      var o :| o in os;
      field(o) + SumNat(os - {o}, field)
  }

  ghost function SumReal(os: set<Observation>, field: Observation -> real): real {
    if os == {} then 0.0
    else
      var o :| o in os;
      field(o) + SumReal(os - {o}, field)
  }

  lemma {:induction false} SumNatInsert(os: set<Observation>, field: Observation -> nat, o: Observation)
    requires o !in os
    ensures SumNat(os + {o}, field) == field(o) + SumNat(os, field)
  {
    var all := os + {o};
    var x :| x in all && SumNat(all, field) == field(x) + SumNat(all - {x}, field);
    if x == o {
      assert all - {x} == os;
    } else {
      var rest := os - {x};
      assert all - {x} == rest + {o} && os == rest + {x};
      SumNatInsert(rest, field, o);
      SumNatInsert(rest, field, x);
    }
  }

  lemma {:induction false} SumRealInsert(os: set<Observation>, field: Observation -> real, o: Observation)
    requires o !in os
    ensures SumReal(os + {o}, field) == field(o) + SumReal(os, field)
  {
    var all := os + {o};
    var x :| x in all && SumReal(all, field) == field(x) + SumReal(all - {x}, field);
    if x == o {
      assert all - {x} == os;
    } else {
      var rest := os - {x};
      assert all - {x} == rest + {o} && os == rest + {x};
      SumRealInsert(rest, field, o);
      SumRealInsert(rest, field, x);
    }
  }

  function Having(os: set<Observation>, reports: Observation -> bool): set<Observation> {
    set o <- os | reports(o)
  }

  lemma HavingInsert(os: set<Observation>, reports: Observation -> bool, o: Observation)
    requires o !in os
    ensures |Having(os + {o}, reports)| == |Having(os, reports)| + (if reports(o) then 1 else 0)
  {
    assert Having(os + {o}, reports) == Having(os, reports) + (if reports(o) then {o} else {});
  }

  // ---------------------------------------------------------------- the fields of a payload

  function CostUsdOf(o: Observation): real { if o.m.costUsd.Some? then o.m.costUsd.value else 0.0 }

  function InputTokensOf(o: Observation): nat { if o.m.inputTokens.Some? then o.m.inputTokens.value else 0 }

  function OutputTokensOf(o: Observation): nat { if o.m.outputTokens.Some? then o.m.outputTokens.value else 0 }

  predicate CostReported(o: Observation) { o.m.costUsd.Some? }

  predicate UsedPctReported(o: Observation) { o.m.usedPct.Some? }

  /** The total is reported, or both of its parts are. */
  predicate TokensReported(o: Observation) {
    o.m.totalTokens.Some? || (o.m.inputTokens.Some? && o.m.outputTokens.Some?)
  }

  /** The reported total, else input plus output when both are reported. */
  function TotalTokensOf(o: Observation): nat {
    if o.m.totalTokens.Some? then o.m.totalTokens.value
    else if o.m.inputTokens.Some? && o.m.outputTokens.Some? then o.m.inputTokens.value + o.m.outputTokens.value
    else 0
  }

  function CacheReadTokensOf(o: Observation): nat {
    if o.m.cacheReadTokens.Some? then o.m.cacheReadTokens.value else 0
  }

  function CacheCreationTokensOf(o: Observation): nat {
    if o.m.cacheCreationTokens.Some? then o.m.cacheCreationTokens.value else 0
  }

  function UsedPctOf(o: Observation): real { if o.m.usedPct.Some? then o.m.usedPct.value else 0.0 }

  /** Each column says on its own what the observations say. */
  ghost predicate SumsOf(r: Rollup, os: set<Observation>) {
    && r.totalCostUsd == SumReal(os, CostUsdOf)
    && r.costUsdObservations == |Having(os, CostReported)|
    && r.inputTokens == SumNat(os, InputTokensOf)
    && r.outputTokens == SumNat(os, OutputTokensOf)
    && r.totalTokens == SumNat(os, TotalTokensOf)
    && r.tokenObservations == |Having(os, TokensReported)|
    && r.cacheReadTokens == SumNat(os, CacheReadTokensOf)
    && r.cacheCreationTokens == SumNat(os, CacheCreationTokensOf)
    && r.usedPct == SumReal(os, UsedPctOf)
    && r.usedPctObservations == |Having(os, UsedPctReported)|
    && r.observations == |os|
  }

  // ---------------------------------------------------------------- rollup rows

  /** An event as stored: its token total is what it reports, and normalizing it again changes nothing. */
  ghost predicate Stored(os: set<Observation>) { forall o <- os :: Normalize(o) == o }

  lemma {:induction false} ColumnsAreSums(os: set<Observation>)
    requires Stored(os)
    ensures SumsOf(Sum(os), os)
  {
    if os == {} {
      NothingSumsToNothing();
    } else {
      var x :| x in os;
      var rest := os - {x};
      assert os == rest + {x};
      ColumnsAreSums(rest);
      SumInsert(rest, x);
      SumsInsert(Sum(rest), rest, x);
    }
  }

  lemma NothingSumsToNothing()
    ensures SumsOf(EMPTY_ROLLUP, {}) && Sum({}) == EMPTY_ROLLUP
  {
  }

  lemma SumsInsert(r: Rollup, os: set<Observation>, x: Observation)
    requires SumsOf(r, os) && x !in os && Normalize(x) == x
    ensures SumsOf(Plus(Contribution(x), r), os + {x})
  {
    hide SumNat, SumReal, Having;
    SumRealInsert(os, CostUsdOf, x);
    HavingInsert(os, CostReported, x);
    SumNatInsert(os, InputTokensOf, x);
    SumNatInsert(os, OutputTokensOf, x);
    SumNatInsert(os, TotalTokensOf, x);
    HavingInsert(os, TokensReported, x);
    SumNatInsert(os, CacheReadTokensOf, x);
    SumNatInsert(os, CacheCreationTokensOf, x);
    SumRealInsert(os, UsedPctOf, x);
    HavingInsert(os, UsedPctReported, x);
  }

  /**
   * The events of a log that are for an agent or a task, each once; the turn of an event with a source is forgotten.
   */
  function Distinct(log: seq<Observation>, key: RollupKey): set<Observation> {
    Matching(CanonSet(Events(log)), key)
  }

  lemma DistinctAreStored(log: seq<Observation>, key: RollupKey)
    ensures Stored(Distinct(log, key))
  {
  }

  /**
   * Every log that folds has a rollup row for an agent or a task exactly when some event is for it; and each column of
   * that row is the sum, or the count of those that report it, of one field over the distinct events for it.
   */
  lemma RowsAreColumnSums(log: seq<Observation>, key: RollupKey)
    requires Fold(log).Some?
    ensures key in Fold(log).value.rollups <==> exists p :: p in log && Matches(p, key)
    ensures SumsOf(RollupAt(Fold(log).value.rollups, key), Distinct(log, key))
  {
    hide Fold, Sum, SumNat, SumReal, Canon, Contribution, Plus;
    FoldIsTotals(log);
    DistinctAreStored(log, key);
    ColumnsAreSums(Distinct(log, key));
    NoMatchNoKey(CanonSet(Events(log)), key);
    KeysAreMatched(log, key);
  }

  lemma KeysAreMatched(log: seq<Observation>, key: RollupKey)
    ensures key in KeysOf(CanonSet(Events(log))) <==> exists p :: p in log && Matches(p, key)
  {
    hide Normalize, Canon;
    var os := CanonSet(Events(log));
    forall p | p in log
      ensures Canon(Normalize(p)) in os && (Matches(Canon(Normalize(p)), key) <==> Matches(p, key))
    {
      assert Normalize(p) in Events(log);
      StoredMatchesAlike(p, key);
    }
    KeyIsMatched(os, key);
    if key in KeysOf(os) {
      var o :| o in os && Matches(o, key);
      var e :| e in Events(log) && Canon(e) == o;
      var p :| p in log && Normalize(p) == e;
      assert Matches(p, key);
    }
  }

  lemma StoredMatchesAlike(p: Observation, key: RollupKey)
    ensures Matches(Canon(Normalize(p)), key) <==> Matches(p, key)
  {
  }

  lemma KeyIsMatched(os: set<Observation>, key: RollupKey)
    ensures key in KeysOf(os) <==> exists o :: o in os && Matches(o, key)
  {
    if o :| o in os && Matches(o, key) {
      assert key == (Agent, o.agent) || key == (Task, o.task);
    }
    if key in KeysOf(os) {
      var o :| o in os && (key == (Agent, o.agent) || key == (Task, o.task));
      assert Matches(o, key);
    }
  }

  /** What a distinct event says is what the payload in the log says, field by field, its token total included. */
  lemma DistinctSaysPayload(log: seq<Observation>, key: RollupKey)
    ensures forall p | p in log && Matches(p, key) ::
              exists o :: o in Distinct(log, key) && SamePayload(o, p)
    ensures forall o <- Distinct(log, key) :: exists p :: p in log && Matches(p, key) && SamePayload(o, p)
  {
    forall p | p in log && Matches(p, key)
      ensures exists o :: o in Distinct(log, key) && SamePayload(o, p)
    {
      var o := Canon(Normalize(p));
      assert Normalize(p) in Events(log);
      assert o in Distinct(log, key) && SamePayload(o, p);
    }
    forall o <- Distinct(log, key)
      ensures exists p :: p in log && Matches(p, key) && SamePayload(o, p)
    {
      var e :| e in Events(log) && Canon(e) == o;
      var p :| p in log && Normalize(p) == e;
      assert Matches(p, key) && SamePayload(o, p);
    }
  }

  predicate SamePayload(o: Observation, p: Observation) {
    && o.provider == p.provider && o.agent == p.agent && o.task == p.task && o.sourceId == p.sourceId
    && (p.sourceId.None? ==> o.turn == p.turn)
    && o.m.costUsd == p.m.costUsd && o.m.inputTokens == p.m.inputTokens && o.m.outputTokens == p.m.outputTokens
    && o.m.cacheReadTokens == p.m.cacheReadTokens && o.m.cacheCreationTokens == p.m.cacheCreationTokens
    && o.m.usedPct == p.m.usedPct
    && (o.m.totalTokens.Some? <==> TokensReported(p)) && TotalTokensOf(o) == TotalTokensOf(p)
  }

  /** The rows that a first event leaves, in its payload's own terms. */
  lemma FirstEventFillsRows(p: Observation)
    ensures Fold([p]).Some?
    ensures var rollups := Fold([p]).value.rollups;
            && rollups.Keys == {(Agent, p.agent), (Task, p.task)}
            && forall key <- rollups ::
                 && rollups[key].totalCostUsd == CostUsdOf(p)
                 && rollups[key].inputTokens == InputTokensOf(p) && rollups[key].outputTokens == OutputTokensOf(p)
                 && rollups[key].totalTokens == TotalTokensOf(p)
                 && rollups[key].cacheReadTokens == CacheReadTokensOf(p)
                 && rollups[key].cacheCreationTokens == CacheCreationTokensOf(p)
                 && rollups[key].usedPct == UsedPctOf(p) && rollups[key].observations == 1
  {
    FoldAgain([], p);
    assert [] + [p] == [p];
  }

  /** The dollar total that budgets are watched by is the sum of the reported costs of the task's distinct events. */
  lemma WatchedTotalIsSum(ps: seq<Observation>, budget: Option<Budget>, task: string)
    ensures var st := RecordAll(EMPTY_STORE, ps, budget);
            TaskTotal(st.ledger, task) == SumReal(Distinct(CostPayloads(st.log), (Task, task)), CostUsdOf)
  {
    hide RecordAll, Distinct, SumReal;
    RunsAreReplayable(ps, budget);
    RowsAreColumnSums(CostPayloads(RecordAll(EMPTY_STORE, ps, budget).log), (Task, task));
  }

  // ---------------------------------------------------------------- one recorded cost

  /**
   * From a store whose tables match its log and hold no negative total, recording a cost fails exactly for an invalid
   * payload, a conflict, or a total that enters the band of a budget whose threshold is above a hundred percent.
   * Otherwise the log grows by the event, and, exactly when the total enters the band, by one more that names the task,
   * the caller, the total reached and the budget.
   */
  lemma RecordedOrRefused(st: Store, p: Observation, budget: Option<Budget>)
    requires TaskTotal(st.ledger, p.task) >= 0.0
    ensures var enters := Enters(st, p, budget);
            && (AfterRecordCost(st, p, budget).None? <==>
                  || Malformed(p) || Record(st.ledger.observations, Normalize(p)) == Conflict
                  || (enters && ThresholdOf(budget.value) > 100.0))
            && (AfterRecordCost(st, p, budget).Some? ==>
                  var st' := AfterRecordCost(st, p, budget).value;
                  st'.log == st.log + [CostRecorded(p)]
                             + (if enters then
                                  [CostNearBudget(NearBudgetRecord(p.task, p.agent, p.provider,
                                                                   TaskTotal(st'.ledger, p.task),
                                                                   budget.value.capCents, ThresholdOf(budget.value)))]
                                else []))
  {
    hide NearBudget, AddBoth, Record;
    if ValidPayload(p) && Apply(st.ledger, Normalize(p)).Some? && budget.Some? {
      ApplyMovesOneTotal(st.ledger, p, p.task);
      BandNeedsPositive(TaskTotal(st.ledger, p.task), budget.value.capCents, budget.value.Threshold());
      BandNeedsPositive(TaskTotal(Apply(st.ledger, Normalize(p)).value, p.task), budget.value.capCents,
                        budget.value.Threshold());
    }
    ApplyFailsIff(st.ledger, Normalize(p));
  }

  /** Eighty percent of the cap, unless the budget says otherwise. */
  function ThresholdOf(budget: Budget): real {
    if budget.thresholdPct.Some? then budget.thresholdPct.value else 80.0
  }

  /** An unknown provider, an empty name, a negative amount, or nothing measured. */
  predicate Malformed(p: Observation) {
    || (p.provider != "claude" && p.provider != "codex") || p.agent == "" || p.task == "" || p.sourceId == Some("")
    || (p.m.costUsd.Some? && p.m.costUsd.value < 0.0) || (p.m.usedPct.Some? && p.m.usedPct.value < 0.0)
    || p.m == Measures(None, None, None, None, None, None, None)
  }

  /** The task's total was below the budget's share of the cap and is not once the payload is added. */
  ghost predicate Enters(st: Store, p: Observation, budget: Option<Budget>) {
    && budget.Some? && !Malformed(p) && Apply(st.ledger, Normalize(p)).Some? && budget.value.capCents > 0.0
    && var share := budget.value.capCents / 100.0 * (ThresholdOf(budget.value) / 100.0);
       TaskTotal(st.ledger, p.task) < share <= TaskTotal(Apply(st.ledger, Normalize(p)).value, p.task)
  }

  lemma BandNeedsPositive(total: real, capCents: real, thresholdPct: real)
    requires total >= 0.0
    ensures capCents > 0.0 && !NearBudget(total, capCents, thresholdPct) ==> thresholdPct > 0.0
    ensures NearBudget(total, capCents, thresholdPct) <==>
              capCents > 0.0 && total >= capCents / 100.0 * (thresholdPct / 100.0)
  {
    if capCents > 0.0 && thresholdPct <= 0.0 {
      assert capCents / 100.0 > 0.0 && thresholdPct / 100.0 <= 0.0;
      assert capCents / 100.0 * (thresholdPct / 100.0) <= 0.0;
    }
  }

  // ---------------------------------------------------------------- repairs

  /** The same rows, but for what the three count columns say. */
  ghost predicate SameButCounts(a: Rollups, b: Rollups) {
    && a.Keys == b.Keys
    && forall key <- a :: a[key] == b[key].(costUsdObservations := a[key].costUsdObservations,
                                            tokenObservations := a[key].tokenObservations,
                                            usedPctObservations := a[key].usedPctObservations)
  }

  /**
   * A store with observations whose count columns say anything, as when they were just added, has after a backfill the
   * rollups its log folds to, counts included, and keeps its observations.
   */
  lemma BackfillRestoresCounts(log: seq<Observation>, damaged: Ledger, any: seq<Observation>)
    requires Fold(log).Some? && log != []
    requires damaged.observations == Fold(log).value.observations
    requires SameButCounts(damaged.rollups, Fold(log).value.rollups)
    ensures Backfill(damaged, any) == Some(Fold(log).value)
  {
    hide Fold, CountWhere;
    var l := Fold(log).value;
    FoldedLogHasRows(log);
    RefreshCountsIsIdentity(log);
    RefreshForgetsCounts(damaged, l);
  }

  lemma FoldedLogHasRows(log: seq<Observation>)
    requires Fold(log).Some? && log != []
    ensures |Fold(log).value.observations| > 0
  {
    hide Sum, Canon;
    FoldIsTotals(log);
    assert Normalize(log[0]) in Events(log);
    assert Canon(Normalize(log[0])) in CanonSet(Events(log));
    var rows := Fold(log).value.observations;
    var r :| r in rows.Values && Canon(r) == Canon(Normalize(log[0]));
    var k :| k in rows.Keys && rows[k] == r;
  }

  lemma RefreshForgetsCounts(a: Ledger, b: Ledger)
    requires a.observations == b.observations && SameButCounts(a.rollups, b.rollups)
    ensures RefreshCounts(a) == RefreshCounts(b)
  {
    hide CountWhere;
    assert RefreshCounts(a).rollups.Keys == RefreshCounts(b).rollups.Keys;
    assert forall key <- a.rollups :: RefreshCounts(a).rollups[key] == RefreshCounts(b).rollups[key];
  }
}
