/**
 * The cost store over the ledger: repair of legacy stores, the persisted log, recording with a near-budget event at
 * the crossing, and the methods that keep the tables.
 */
module CostStore {
  import opened Basics
  import opened CostLedger

  // ---------------------------------------------------------------- observation counts and legacy repair

  datatype Column = CostUsd | TotalTokens | UsedPct

  predicate Reports(o: Observation, column: Column) {
    match column
    case CostUsd => o.m.costUsd.Some?
    case TotalTokens => o.m.totalTokens.Some?
    case UsedPct => o.m.usedPct.Some?
  }

  function Reporting(os: set<Observation>, column: Column): set<Observation> {
    set o <- os | Reports(o, column)
  }

  /** `SELECT COUNT(*)` of the rows that match a rollup key and report a column. */
  function CountWhere(rows: Observations, key: RollupKey, column: Column): nat {
    |Reporting(Matching(rows.Values, key), column)|
  }

  function RefreshCounts(l: Ledger): Ledger {
    l.(rollups := map key <- l.rollups ::
         l.rollups[key].(costUsdObservations := CountWhere(l.observations, key, CostUsd),
                         tokenObservations := CountWhere(l.observations, key, TotalTokens),
                         usedPctObservations := CountWhere(l.observations, key, UsedPct)))
  }

  /** Record a log's observations only, leaving rollups aside. */
  function FoldRows(log: seq<Observation>): Option<Observations> {
    if log == [] then Some(map[])
    else
      match FoldRows(log[..|log| - 1])
      case None => None
      case Some(rows) =>
        var o := Normalize(log[|log| - 1]);
        match Record(rows, o)
        case Inserted => Some(rows[TurnKeyOf(o) := o])
        case Duplicate => Some(rows)
        case Conflict => None
  }

  /** A store with rollups but no observations is rebuilt from the log; any other has its counts refreshed. */
  ghost function Backfill(l: Ledger, log: seq<Observation>): Option<Ledger> {
    if |l.observations| == 0 && |l.rollups| > 0 then
      match FoldRows(log)
      case None => None
      case Some(rows) => Some(Ledger(rows, Recompute(rows)))
    else Some(RefreshCounts(l))
  }

  lemma {:induction false} FoldRowsIsFold(log: seq<Observation>)
    ensures FoldRows(log) == match Fold(log) case None => None case Some(l) => Some(l.observations)
  {
    hide AddBoth;
    if log != [] {
      FoldRowsIsFold(log[..|log| - 1]);
    }
  }

  /** From rollups without observations, whatever they say, backfill establishes exactly the fold of the log. */
  lemma BackfillRestoresTheFold(legacy: Ledger, log: seq<Observation>)
    requires |legacy.observations| == 0 && |legacy.rollups| > 0
    ensures Backfill(legacy, log) == Fold(log)
  {
    FoldRowsIsFold(log);
    if Fold(log).Some? {
      IncrementalIsRecompute(log);
    }
  }

  lemma {:induction false} SumCounts(os: set<Observation>)
    ensures Sum(os).costUsdObservations == |Reporting(os, CostUsd)|
    ensures Sum(os).tokenObservations == |Reporting(os, TotalTokens)|
    ensures Sum(os).usedPctObservations == |Reporting(os, UsedPct)|
  {
    if os != {} {
      var x :| x in os;
      var rest := os - {x};
      assert os == rest + {x};
      SumInsert(rest, x);
      SumCounts(rest);
      CountInsert(rest, x, CostUsd);
      CountInsert(rest, x, TotalTokens);
      CountInsert(rest, x, UsedPct);
    }
  }

  lemma CountInsert(os: set<Observation>, x: Observation, column: Column)
    requires x !in os
    ensures |Reporting(os + {x}, column)| == |Reporting(os, column)| + (if Reports(x, column) then 1 else 0)
  {
    assert Reporting(os + {x}, column) == Reporting(os, column) + if Reports(x, column) then {x} else {};
  }

  /** The refreshed counts are the ones the fold kept. */
  lemma RefreshCountsIsIdentity(log: seq<Observation>)
    requires Fold(log).Some?
    ensures RefreshCounts(Fold(log).value) == Fold(log).value
  {
    hide Sum, Recompute;
    var l := Fold(log).value;
    IncrementalIsRecompute(log);
    forall key | key in l.rollups ensures RefreshCounts(l).rollups[key] == l.rollups[key] {
      RollupIsSum(l, key);
      SumCounts(Matching(l.observations.Values, key));
    }
  }

  lemma RollupIsSum(l: Ledger, key: RollupKey)
    requires l.rollups == Recompute(l.observations) && key in l.rollups
    ensures l.rollups[key] == Sum(Matching(l.observations.Values, key))
  {
  }

  lemma RollupsNeedObservations(log: seq<Observation>)
    requires Fold(log).Some? && |Fold(log).value.observations| == 0
    ensures |Fold(log).value.rollups| == 0
  {
    var l := Fold(log).value;
    IncrementalIsRecompute(log);
    assert l.observations.Values == {};
    assert l.rollups.Keys == {};
  }

  /** On every ledger that a log folds to, backfill changes nothing, whatever log it is given. */
  lemma BackfillIsIdentityOnFolds(log: seq<Observation>, any: seq<Observation>)
    requires Fold(log).Some?
    ensures Backfill(Fold(log).value, any) == Some(Fold(log).value)
  {
    if |Fold(log).value.observations| == 0 {
      RollupsNeedObservations(log);
    }
    RefreshCountsIsIdentity(log);
  }

  // ---------------------------------------------------------------- budgets

  const NEAR_BUDGET_THRESHOLD_PCT_DEFAULT: real := 80.0

  datatype Budget = Budget(capCents: real, thresholdPct: Option<real>)
  {
    function Threshold(): real { thresholdPct.GetOr(NEAR_BUDGET_THRESHOLD_PCT_DEFAULT) }
  }

  predicate NearBudget(totalCostUsd: real, capCents: real, thresholdPct: real) {
    capCents > 0.0 && totalCostUsd >= capCents / 100.0 * (thresholdPct / 100.0)
  }

  predicate CrossesNearBudget(before: real, after: real, capCents: real, thresholdPct: real) {
    !NearBudget(before, capCents, thresholdPct) && NearBudget(after, capCents, thresholdPct)
  }

  datatype NearBudgetRecord = NearBudgetRecord(task: string, agent: string, provider: string, totalCostUsd: real,
                                               capCents: real, thresholdPct: real)

  // ---------------------------------------------------------------- recording a cost

  datatype Event = CostRecorded(p: Observation) | CostNearBudget(nb: NearBudgetRecord)

  /** The persisted log with the tables it projects to; near-budget rows are keyed by their event's position. */
  datatype Store = Store(log: seq<Event>, ledger: Ledger, nearBudget: map<nat, NearBudgetRecord>)

  const EMPTY_STORE := Store([], EMPTY_LEDGER, map[])

  predicate NonNegative(x: Option<real>) { x.Some? ==> x.value >= 0.0 }

  predicate HasMeasuredField(m: Measures) {
    || m.costUsd.Some? || m.inputTokens.Some? || m.outputTokens.Some? || m.totalTokens.Some?
    || m.cacheReadTokens.Some? || m.cacheCreationTokens.Some? || m.usedPct.Some?
  }

  /** The schema a `cost.recorded` payload must meet to become an event. */
  predicate ValidPayload(p: Observation) {
    && p.provider in {"claude", "codex"} && |p.agent| > 0 && |p.task| > 0
    && (p.sourceId.Some? ==> |p.sourceId.value| > 0)
    && NonNegative(p.m.costUsd) && NonNegative(p.m.usedPct) && HasMeasuredField(p.m)
  }

  predicate ValidNearBudget(nb: NearBudgetRecord) {
    nb.totalCostUsd >= 0.0 && nb.capCents >= 0.0 && 0.0 <= nb.thresholdPct <= 100.0
  }

  function TaskTotal(l: Ledger, task: string): real { RollupAt(l.rollups, (Task, task)).totalCostUsd }

  function AppendNearBudget(st: Store, nb: NearBudgetRecord): Store {
    st.(log := st.log + [CostNearBudget(nb)], nearBudget := st.nearBudget[|st.log| := nb])
  }

  /** One transaction; `None` is a throw, after which the store is as it was. */
  function AfterRecordCost(st: Store, p: Observation, budget: Option<Budget>): Option<Store> {
    if !ValidPayload(p) then None
    else
      match Apply(st.ledger, Normalize(p))
      case None => None
      case Some(l) =>
        var recorded := Store(st.log + [CostRecorded(p)], l, st.nearBudget);
        if budget.None? then Some(recorded)
        else
          var cap, threshold := budget.value.capCents, budget.value.Threshold();
          var after := TaskTotal(l, p.task);
          if !CrossesNearBudget(TaskTotal(st.ledger, p.task), after, cap, threshold) then Some(recorded)
          else
            var nb := NearBudgetRecord(p.task, p.agent, p.provider, after, cap, threshold);
            if ValidNearBudget(nb) then Some(AppendNearBudget(recorded, nb)) else None
  }

  /** A run of calls, each rolled back when it throws. */
  function RecordAll(st: Store, ps: seq<Observation>, budget: Option<Budget>): Store {
    if ps == [] then st
    else
      var before := RecordAll(st, ps[..|ps| - 1], budget);
      AfterRecordCost(before, ps[|ps| - 1], budget).GetOr(before)
  }

  function CostPayloads(log: seq<Event>): seq<Observation> {
    if log == [] then []
    else
      var front := CostPayloads(log[..|log| - 1]);
      if log[|log| - 1].CostRecorded? then front + [log[|log| - 1].p] else front
  }

  lemma CostPayloadsSnoc(log: seq<Event>, e: Event)
    ensures CostPayloads(log + [e]) == if e.CostRecorded? then CostPayloads(log) + [e.p] else CostPayloads(log)
  {
    assert (log + [e])[..|log|] == log;
  }

  /** Every near-budget event of the log, and nothing else, has its row. */
  ghost predicate RowsMatchLog(log: seq<Event>, rows: map<nat, NearBudgetRecord>) {
    && (forall i: nat :: i in rows <==> i < |log| && log[i].CostNearBudget?)
    && (forall i <- rows :: i < |log| && log[i] == CostNearBudget(rows[i]))
  }

  /** The tables are what replaying the log gives. */
  ghost predicate Replayable(st: Store) {
    Fold(CostPayloads(st.log)) == Some(st.ledger) && RowsMatchLog(st.log, st.nearBudget)
  }

  lemma RowsAfterCost(log: seq<Event>, rows: map<nat, NearBudgetRecord>, p: Observation)
    requires RowsMatchLog(log, rows)
    ensures RowsMatchLog(log + [CostRecorded(p)], rows)
  {
  }

  lemma RowsAfterNearBudget(log: seq<Event>, rows: map<nat, NearBudgetRecord>, nb: NearBudgetRecord)
    requires RowsMatchLog(log, rows)
    ensures RowsMatchLog(log + [CostNearBudget(nb)], rows[|log| := nb])
  {
  }

  /** A call keeps the tables what replaying the log gives, also when it throws and is rolled back. */
  lemma RecordCostStaysReplayable(st: Store, p: Observation, budget: Option<Budget>)
    requires Replayable(st)
    ensures Replayable(AfterRecordCost(st, p, budget).GetOr(st))
  {
    hide Apply, CrossesNearBudget, ValidPayload, ValidNearBudget, RowsMatchLog, Fold, CostPayloads, TaskTotal;
    if AfterRecordCost(st, p, budget).Some? {
      var st' := AfterRecordCost(st, p, budget).value;
      CostPayloadsSnoc(st.log, CostRecorded(p));
      FoldAgain(CostPayloads(st.log), p);
      RowsAfterCost(st.log, st.nearBudget, p);
      var log1 := st.log + [CostRecorded(p)];
      if |st'.log| > |log1| {
        CostPayloadsSnoc(log1, st'.log[|log1|]);
        RowsAfterNearBudget(log1, st.nearBudget, st'.log[|log1|].nb);
      }
    }
  }

  /** After any run of calls, failed ones included, replaying the log reproduces the tables. */
  lemma {:induction false} RunsAreReplayable(ps: seq<Observation>, budget: Option<Budget>)
    ensures Replayable(RecordAll(EMPTY_STORE, ps, budget))
  {
    if ps != [] {
      RunsAreReplayable(ps[..|ps| - 1], budget);
      RecordCostStaysReplayable(RecordAll(EMPTY_STORE, ps[..|ps| - 1], budget), ps[|ps| - 1], budget);
    }
  }

  // ---------------------------------------------------------------- the near-budget event fires once

  function NearBudgetEvents(log: seq<Event>, task: string): nat {
    if log == [] then 0
    else
      var e := log[|log| - 1];
      NearBudgetEvents(log[..|log| - 1], task) + (if e.CostNearBudget? && e.nb.task == task then 1 else 0)
  }

  lemma NearBudgetEventsSnoc(log: seq<Event>, e: Event, task: string)
    ensures NearBudgetEvents(log + [e], task)
            == NearBudgetEvents(log, task) + (if e.CostNearBudget? && e.nb.task == task then 1 else 0)
  {
    assert (log + [e])[..|log|] == log;
  }

  /** What folding one valid event does to every task's dollar total. */
  lemma ApplyMovesOneTotal(l: Ledger, p: Observation, task: string)
    requires ValidPayload(p) && Apply(l, Normalize(p)).Some?
    ensures var l' := Apply(l, Normalize(p)).value;
            && (task != p.task ==> TaskTotal(l', task) == TaskTotal(l, task))
            && TaskTotal(l', task) >= TaskTotal(l, task)
  {
  }

  /** A zero total is in the band only when the threshold is not positive. */
  lemma ZeroInBand(capCents: real, thresholdPct: real)
    ensures NearBudget(0.0, capCents, thresholdPct) <==> capCents > 0.0 && thresholdPct <= 0.0
  {
    if capCents > 0.0 && thresholdPct > 0.0 {
      assert capCents / 100.0 > 0.0 && thresholdPct / 100.0 > 0.0;
    } else if capCents > 0.0 {
      assert capCents / 100.0 > 0.0 && thresholdPct / 100.0 <= 0.0;
    }
  }

  /** The count of events follows the total: one if it has entered the band from outside, otherwise none. */
  ghost predicate CountFollowsTotal(st: Store, budget: Budget, task: string) {
    NearBudgetEvents(st.log, task)
    == if NearBudget(TaskTotal(st.ledger, task), budget.capCents, budget.Threshold())
          && !NearBudget(0.0, budget.capCents, budget.Threshold()) then 1 else 0
  }

  lemma RecordCostKeepsCount(st: Store, p: Observation, budget: Budget, task: string)
    requires CountFollowsTotal(st, budget, task) && AfterRecordCost(st, p, Some(budget)).Some?
    requires TaskTotal(st.ledger, p.task) >= 0.0
    ensures CountFollowsTotal(AfterRecordCost(st, p, Some(budget)).value, budget, task)
  {
    hide Apply, ValidPayload, ValidNearBudget;
    var st' := AfterRecordCost(st, p, Some(budget)).value;
    ApplyMovesOneTotal(st.ledger, p, task);
    ApplyMovesOneTotal(st.ledger, p, p.task);
    var log1 := st.log + [CostRecorded(p)];
    NearBudgetEventsSnoc(st.log, CostRecorded(p), task);
    if |st'.log| > |log1| {
      NearBudgetEventsSnoc(log1, st'.log[|log1|], task);
    }
  }

  lemma {:induction false} RunKeepsCount(ps: seq<Observation>, budget: Budget, task: string)
    ensures CountFollowsTotal(RecordAll(EMPTY_STORE, ps, Some(budget)), budget, task)
    ensures forall t :: TaskTotal(RecordAll(EMPTY_STORE, ps, Some(budget)).ledger, t) >= 0.0
  {
    if ps != [] {
      hide CountFollowsTotal, Apply, ValidPayload;
      RunKeepsCount(ps[..|ps| - 1], budget, task);
      var before, p := RecordAll(EMPTY_STORE, ps[..|ps| - 1], Some(budget)), ps[|ps| - 1];
      if AfterRecordCost(before, p, Some(budget)).Some? {
        RecordCostKeepsCount(before, p, budget, task);
        forall t ensures TaskTotal(AfterRecordCost(before, p, Some(budget)).value.ledger, t) >= 0.0 {
          ApplyMovesOneTotal(before.ledger, p, t);
        }
      }
    } else {
      assert NearBudgetEvents(EMPTY_STORE.log, task) == 0;
    }
  }

  /**
   * Under a fixed budget, over any run of calls, a task has one near-budget event exactly when the cap and threshold
   * are positive and its total has reached the band; otherwise it has none.
   */
  lemma NearBudgetFiresOnce(ps: seq<Observation>, budget: Budget, task: string)
    ensures var st := RecordAll(EMPTY_STORE, ps, Some(budget));
            NearBudgetEvents(st.log, task)
            == if budget.capCents > 0.0 && budget.Threshold() > 0.0
                  && TaskTotal(st.ledger, task) >= budget.capCents / 100.0 * (budget.Threshold() / 100.0)
               then 1 else 0
  {
    hide RecordAll;
    RunKeepsCount(ps, budget, task);
    ZeroInBand(budget.capCents, budget.Threshold());
  }

  // ---------------------------------------------------------------- the tables as updated in place

  /** An event as stored: its stream scope and actor come with the payload. */
  datatype StoredCost = StoredCost(scope: string, actor: Option<string>, p: Observation)

  const COST_SCOPE_PREFIX := "cost:"

  predicate ValidEnvelope(e: StoredCost) {
    e.scope == COST_SCOPE_PREFIX + e.p.agent && (e.actor.Some? ==> e.actor.value == e.p.agent)
  }

  function Payloads(log: seq<StoredCost>): (ps: seq<Observation>)
    ensures |ps| == |log|
  {
    seq(|log|, i requires 0 <= i < |log| => log[i].p)
  }

  lemma EmptyFold()
    ensures Fold([]) == Some(EMPTY_LEDGER)
  {
  }

  lemma FoldNext(ps: seq<Observation>, i: nat)
    requires i < |ps|
    ensures Fold(ps[..i + 1])
            == match Fold(ps[..i]) case None => None case Some(l) => CostLedger.Apply(l, Normalize(ps[i]))
  {
    assert ps[..i + 1][..i] == ps[..i];
  }

  lemma RowsPrefixMustFold(ps: seq<Observation>, n: nat)
    requires n <= |ps| && FoldRows(ps[..n]).None?
    ensures FoldRows(ps).None?
  {
    FoldRowsIsFold(ps[..n]);
    FoldRowsIsFold(ps);
    PrefixMustFold(ps, n);
  }

  class CostTables {
    var observations: Observations
    var rollups: Rollups

    function View(): Ledger
      reads this
    {
      Ledger(observations, rollups)
    }

    constructor ()
      ensures View() == EMPTY_LEDGER
    {
      observations, rollups := map[], map[];
    }

    method RecordCostObservation(p: Observation) returns (recording: Recording)
      modifies this`observations
      ensures recording == Record(old(observations), Normalize(p))
      ensures observations
              == if recording == Inserted then old(observations)[TurnKeyOf(Normalize(p)) := Normalize(p)]
                else old(observations)
    {
      var n := Normalize(p);
      var key := TurnKeyOf(n);
      if key !in observations && !SourceTaken(observations, n) {
        observations := observations[key := n];
        return Inserted;
      }
      if key in observations && observations[key] == n {
        return Duplicate;
      }
      if n.sourceId.Some? && SourceRepeats(observations, n) {
        return Duplicate;
      }
      return Conflict;
    }

    method AddToRollup(kind: Kind, id: string, p: Observation)
      modifies this`rollups
      ensures rollups == AddTo(old(rollups), (kind, id), Normalize(p))
    {
      var total := NormalizedTotalTokens(p.m);
      var added := Rollup(p.m.costUsd.GetOr(0.0), if p.m.costUsd.Some? then 1 else 0, p.m.inputTokens.GetOr(0),
                          p.m.outputTokens.GetOr(0), total.GetOr(0), if total.Some? then 1 else 0,
                          p.m.cacheReadTokens.GetOr(0), p.m.cacheCreationTokens.GetOr(0), p.m.usedPct.GetOr(0.0),
                          if p.m.usedPct.Some? then 1 else 0, 1);
      rollups := rollups[(kind, id) := if (kind, id) in rollups then Plus(rollups[(kind, id)], added) else added];
    }

    /** Fold one stored event; a bad envelope or a conflict throws and changes nothing. */
    method Apply(e: StoredCost) returns (ok: bool)
      modifies this
      ensures ok == (ValidEnvelope(e) && CostLedger.Apply(old(View()), Normalize(e.p)).Some?)
      ensures View() == if ok then CostLedger.Apply(old(View()), Normalize(e.p)).value else old(View())
    {
      if !ValidEnvelope(e) {
        return false;
      }
      var recording := RecordCostObservation(e.p);
      match recording {
        case Conflict => return false;
        case Duplicate => return true;
        case Inserted =>
          AddToRollup(Agent, e.p.agent, e.p);
          AddToRollup(Task, e.p.task, e.p);
          return true;
      }
    }

    /** Fold a log of stored events, stopping at the first that throws. */
    method Replay(log: seq<StoredCost>) returns (ok: bool)
      requires View() == EMPTY_LEDGER
      modifies this
      ensures ok <==>
                && Fold(Payloads(log)).Some?
                && forall e <- log :: e.scope == "cost:" + e.p.agent && (e.actor == None || e.actor == Some(e.p.agent))
      ensures ok ==> View() == Fold(Payloads(log)).value
    {
      hide CostLedger.Apply, Normalize, Fold;
      EmptyFold();
      for i := 0 to |log|
        invariant Fold(Payloads(log)[..i]) == Some(View())
        invariant forall k: nat | k < i :: ValidEnvelope(log[k])
      {
        FoldNext(Payloads(log), i);
        var applied := Apply(log[i]);
        if !applied {
          if ValidEnvelope(log[i]) { PrefixMustFold(Payloads(log), i + 1); }
          return false;
        }
      }
      assert Payloads(log)[..|log|] == Payloads(log);
      return true;
    }

    /** Rebuild a legacy store from the log's payloads, or refresh the counts of any other. */
    method BackfillCostObservationState(log: seq<Observation>) returns (ok: bool)
      modifies this
      ensures ok == Backfill(old(View()), log).Some?
      ensures ok ==> View() == Backfill(old(View()), log).value
    {
      if |observations| == 0 && |rollups| > 0 {
        assert observations == map[];
        for i := 0 to |log|
          invariant FoldRows(log[..i]) == Some(observations) && rollups == old(rollups)
        {
          assert log[..i + 1][..i] == log[..i];
          var recording := RecordCostObservation(log[i]);
          if recording == Conflict {
            RowsPrefixMustFold(log, i + 1);
            return false;
          }
        }
        assert log[..|log|] == log;
        FoldRowsIsFold(log);
        FoldIsTotals(log);
        RecomputeCostRollupsFromObservations();
        return true;
      }
      rollups := RefreshCounts(View()).rollups;
      return true;
    }

    /** Delete the rollups, then group and sum the stored rows. */
    method RecomputeCostRollupsFromObservations()
      requires WellKeyed(observations)
      modifies this`rollups
      ensures rollups == Recompute(observations)
    {
      rollups := map[];
      var remaining := observations.Keys;
      ghost var done: set<Observation> := {};
      NothingTotalsNothing();
      while remaining != {}
        invariant remaining <= observations.Keys
        invariant forall o :: o in done <==> exists k <- observations :: k !in remaining && observations[k] == o
        invariant rollups == Totals(done)
        decreases |remaining|
      {
        hide Totals, Matching;
        var key :| key in remaining;
        var row := observations[key];
        assert row !in done;
        TotalsInsert(done, row);
        rollups := AddBoth(rollups, row);
        remaining := remaining - {key};
        done := done + {row};
      }
      assert done == observations.Values;
    }

    /** One past the highest recorded turn, or the proposed turn when that is higher or nothing is recorded. */
    method NextCostTurn(provider: string, agent: string, task: string, proposed: nat) returns (turn: nat)
      ensures turn >= proposed
      ensures forall k <- observations | k.0 == provider && k.1 == agent && k.2 == task :: k.3 < turn
      ensures turn > proposed ==> (provider, agent, task, turn - 1) in observations
    {
      turn := proposed;
      var remaining := observations.Keys;
      while remaining != {}
        invariant remaining <= observations.Keys && turn >= proposed
        invariant turn > proposed ==> (provider, agent, task, turn - 1) in observations
        invariant forall k <- observations.Keys - remaining | k.0 == provider && k.1 == agent && k.2 == task ::
                    k.3 < turn
        decreases |remaining|
      {
        var k: TurnKey :| k in remaining;
        if k.0 == provider && k.1 == agent && k.2 == task && k.3 >= turn {
          turn := k.3 + 1;
        }
        remaining := remaining - {k};
      }
    }
  }

  /** The read-only refold keeps two dedup maps and an accumulator per rollup, and writes nothing. */
  method ReadOnlyRollupsFromEvents(log: seq<Observation>) returns (result: Option<Rollups>)
    ensures result == match ReadOnlyFold(log) case None => None case Some(r) => Some(r.byKey)
  {
    var byTurn: Observations, bySource: map<SourceKey, Observation>, byKey: Rollups := map[], map[], map[];
    for i := 0 to |log|
      invariant ReadOnlyFold(log[..i]) == Some(ReadOnly(byTurn, bySource, byKey))
    {
      hide AddBoth;
      assert log[..i + 1][..i] == log[..i];
      var obs := Normalize(log[i]);
      var turn, source := TurnKeyOf(obs), SourceKeyOf(obs);
      if turn in byTurn {
        if byTurn[turn] != obs {
          ReadOnlyPrefixMustFold(log, i + 1);
          return None;
        }
      } else if source.Some? && source.value in bySource {
        if !MatchIgnoringTurn(bySource[source.value], obs) {
          ReadOnlyPrefixMustFold(log, i + 1);
          return None;
        }
      } else {
        byTurn := byTurn[turn := obs];
        if source.Some? {
          bySource := bySource[source.value := obs];
        }
        byKey := AddBoth(byKey, obs);
      }
    }
    assert log[..|log|] == log;
    return Some(byKey);
  }

  lemma {:induction false} ReadOnlyPrefixMustFold(ps: seq<Observation>, n: nat)
    requires n <= |ps| && ReadOnlyFold(ps[..n]).None?
    ensures ReadOnlyFold(ps).None?
  {
    if n < |ps| {
      assert ps[..|ps| - 1][..n] == ps[..n];
      ReadOnlyPrefixMustFold(ps[..|ps| - 1], n);
    } else {
      assert ps[..n] == ps;
    }
  }

  /** The persisted log and its tables; every call is one transaction. */
  class DispatchStore {
    const tables: CostTables
    var log: seq<Event>
    var nearBudget: map<nat, NearBudgetRecord>

    function View(): Store
      reads this, tables
    {
      Store(log, tables.View(), nearBudget)
    }

    constructor ()
      ensures View() == EMPTY_STORE && fresh(tables)
    {
      tables := new CostTables();
      log, nearBudget := [], map[];
    }

    /** Append, fold and perhaps append the near-budget event; a throw on the way rolls everything back. */
    method RecordCost(obs: Observation, budget: Option<Budget>) returns (ok: bool)
      modifies this, tables
      ensures ok == AfterRecordCost(old(View()), obs, budget).Some?
      ensures View() == AfterRecordCost(old(View()), obs, budget).GetOr(old(View()))
    {
      hide CostLedger.Apply, ValidPayload, AddBoth, RefreshCounts;
      if !ValidPayload(obs) {
        return false;
      }
      var savedLog, savedNear, savedObservations, savedRollups := log, nearBudget, tables.observations, tables.rollups;
      var before := if (Task, obs.task) in tables.rollups then tables.rollups[(Task, obs.task)].totalCostUsd else 0.0;
      log := log + [CostRecorded(obs)];
      var applied := tables.Apply(StoredCost(COST_SCOPE_PREFIX + obs.agent, Some(obs.agent), obs));
      if !applied {
        log := savedLog;
        return false;
      }
      if budget.Some? {
        var cap, threshold := budget.value.capCents, budget.value.Threshold();
        var after := if (Task, obs.task) in tables.rollups then tables.rollups[(Task, obs.task)].totalCostUsd else 0.0;
        if CrossesNearBudget(before, after, cap, threshold) {
          var nb := NearBudgetRecord(obs.task, obs.agent, obs.provider, after, cap, threshold);
          if !ValidNearBudget(nb) {
            log, nearBudget := savedLog, savedNear;
            tables.observations, tables.rollups := savedObservations, savedRollups;
            return false;
          }
          nearBudget := nearBudget[|log| := nb];
          log := log + [CostNearBudget(nb)];
        }
      }
      return true;
    }
  }
}
