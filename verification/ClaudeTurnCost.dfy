/**
 * The cost of one turn read off a transcript slice: token counts add up, a dollar cost pairs with the usage before
 * it.
 */
module ClaudeTurnCost {
  import opened Basics

  datatype Tokens = Tokens(input: Option<int>, output: Option<int>, cacheRead: Option<int>, cacheCreation: Option<int>)
  {
    predicate Any() { input.Some? || output.Some? || cacheRead.Some? || cacheCreation.Some? }
  }

  /** A usage that was found: some token field could be read. */
  type Usage = t: Tokens | t.Any() witness Tokens(Some(0), None, None, None)

  /** A line: blank, not JSON or not an object; or a record with the usage and the cost that can be read from it. */
  datatype Line = Skipped | Record(usage: Option<Usage>, costUsd: Option<real>)

  datatype TurnCost = TurnCost(tokens: Tokens, costUsd: Option<real>)

  const NO_TOKENS := Tokens(None, None, None, None)

  function AddField(total: Option<int>, value: Option<int>): Option<int> {
    if value.None? then total else Some(total.GetOr(0) + value.value)
  }

  function AddUsage(total: Tokens, next: Tokens): Tokens {
    Tokens(AddField(total.input, next.input), AddField(total.output, next.output),
           AddField(total.cacheRead, next.cacheRead), AddField(total.cacheCreation, next.cacheCreation))
  }

  /** What one line does to the totals so far; a usage unpairs the cost read before it. */
  function Read(t: TurnCost, line: Line): TurnCost {
    if line.Skipped? then t
    else if line.usage.Some? then TurnCost(AddUsage(t.tokens, line.usage.value), None)
    else if line.costUsd.Some? then t.(costUsd := line.costUsd)
    else t
  }

  function ReadAll(lines: seq<Line>): TurnCost {
    if lines == [] then TurnCost(NO_TOKENS, None) else Read(ReadAll(lines[..|lines| - 1]), lines[|lines| - 1])
  }

  /** No result when nothing was found. */
  function Result(t: TurnCost): Option<TurnCost> {
    if t.tokens.Any() || t.costUsd.Some? then Some(t) else None
  }

  function Parsed(lines: seq<Line>): Option<TurnCost> { Result(ReadAll(lines)) }

  method ParseClaudeTranscriptTurnCost(lines: seq<Line>) returns (cost: Option<TurnCost>)
    ensures cost == Parsed(lines)
  {
    var totals, costUsd: Option<real> := NO_TOKENS, None;
    for i := 0 to |lines|
      invariant TurnCost(totals, costUsd) == ReadAll(lines[..i])
    {
      assert lines[..i + 1][..i] == lines[..i];
      var line := lines[i];
      if line.Skipped? {
        continue;
      }
      if line.usage.Some? {
        totals := AddUsage(totals, line.usage.value);
        costUsd := None;
        continue;
      }
      if line.costUsd.Some? {
        costUsd := line.costUsd;
      }
    }
    assert lines[..|lines|] == lines;
    return Result(TurnCost(totals, costUsd));
  }

  // ---------------------------------------------------------------- a homomorphism

  /** Two parses as one: a usage in the later one leaves only the later one's cost. */
  function Combine(a: Option<TurnCost>, b: Option<TurnCost>): Option<TurnCost> {
    if a.None? then b
    else if b.None? then a
    else
      Some(TurnCost(AddUsage(a.value.tokens, b.value.tokens),
                    if b.value.tokens.Any() || b.value.costUsd.Some? then b.value.costUsd else a.value.costUsd))
  }

  /** Combining is a monoid. */
  lemma CombineIsMonoid(a: Option<TurnCost>, b: Option<TurnCost>, c: Option<TurnCost>)
    ensures Combine(Combine(a, b), c) == Combine(a, Combine(b, c))
    ensures Combine(None, a) == a && Combine(a, None) == a
  {
  }

  /** The same on totals that may be empty. */
  function Join(p: TurnCost, q: TurnCost): TurnCost {
    TurnCost(AddUsage(p.tokens, q.tokens), if q.tokens.Any() || q.costUsd.Some? then q.costUsd else p.costUsd)
  }

  lemma JoinedResult(p: TurnCost, q: TurnCost)
    ensures Result(Join(p, q)) == Combine(Result(p), Result(q))
  {
  }

  lemma JoinedRead(p: TurnCost, q: TurnCost, line: Line)
    ensures Read(Join(p, q), line) == Join(p, Read(q, line))
  {
  }

  lemma {:induction false} ReadConcatenation(a: seq<Line>, b: seq<Line>)
    ensures ReadAll(a + b) == Join(ReadAll(a), ReadAll(b))
    decreases |b|
  {
    hide Read;
    if b == [] {
      assert a + b == a;
    } else {
      var init, last := b[..|b| - 1], b[|b| - 1];
      assert (a + b)[..|a + b| - 1] == a + init;
      ReadConcatenation(a, init);
      JoinedRead(ReadAll(a), ReadAll(init), last);
    }
  }

  /** Parsing a concatenation is combining the parses, wherever the slice is cut. */
  lemma ParseOfConcatenation(a: seq<Line>, b: seq<Line>)
    ensures Parsed(a + b) == Combine(Parsed(a), Parsed(b))
  {
    hide ReadAll;
    ReadConcatenation(a, b);
    JoinedResult(ReadAll(a), ReadAll(b));
  }

  // ---------------------------------------------------------------- what the totals are

  predicate HasUsage(line: Line) { line.Record? && line.usage.Some? }

  predicate HasCost(line: Line) { line.Record? && line.usage.None? && line.costUsd.Some? }

  /** The reported cost is that of a cost record with neither usage nor cost after it, when there is one. */
  lemma {:induction false} CostIsTheLastUnlessUsageFollows(lines: seq<Line>, usd: real)
    ensures ReadAll(lines).costUsd == Some(usd)
            <==> exists k: nat :: k < |lines| && HasCost(lines[k]) && lines[k].costUsd == Some(usd)
                                  && forall j: nat | k < j < |lines| :: !HasUsage(lines[j]) && !HasCost(lines[j])
  {
    if lines != [] {
      var init, last := lines[..|lines| - 1], lines[|lines| - 1];
      CostIsTheLastUnlessUsageFollows(init, usd);
      assert forall k: nat | k < |init| :: init[k] == lines[k];
    }
  }

  /** There is a result exactly when some line has a usage or a cost, and it is the totals read. */
  lemma {:induction false} FoundIff(lines: seq<Line>)
    ensures Parsed(lines).Some? <==> exists line :: line in lines && (HasUsage(line) || HasCost(line))
    ensures Parsed(lines).Some? ==> Parsed(lines).value == ReadAll(lines)
  {
    if lines != [] {
      var init, last := lines[..|lines| - 1], lines[|lines| - 1];
      FoundIff(init);
      ReadFinds(ReadAll(init), last);
      assert forall line :: line in lines <==> line in init || line == last;
    }
  }

  lemma ReadFinds(t: TurnCost, line: Line)
    ensures Result(Read(t, line)).Some? <==> Result(t).Some? || HasUsage(line) || HasCost(line)
  {
  }

  /** The values of a token field in the usages that have it, in order. */
  function Values(lines: seq<Line>, field: Tokens -> Option<int>): seq<int> {
    if lines == [] then []
    else
      var line, before := lines[|lines| - 1], Values(lines[..|lines| - 1], field);
      if HasUsage(line) && field(line.usage.value).Some? then before + [field(line.usage.value).value] else before
  }

  function Total(values: seq<int>): int {
    if values == [] then 0 else Total(values[..|values| - 1]) + values[|values| - 1]
  }

  /** The sum of a token field over the usages that have it, when some usage has it. */
  function SumOf(lines: seq<Line>, field: Tokens -> Option<int>): Option<int> {
    var values := Values(lines, field);
    if values == [] then None else Some(Total(values))
  }

  lemma OneMoreValue(lines: seq<Line>, field: Tokens -> Option<int>)
    requires lines != []
    ensures var before, line := SumOf(lines[..|lines| - 1], field), lines[|lines| - 1];
            SumOf(lines, field) == if HasUsage(line) then AddField(before, field(line.usage.value)) else before
  {
    var line, before := lines[|lines| - 1], Values(lines[..|lines| - 1], field);
    if HasUsage(line) && field(line.usage.value).Some? {
      var value := field(line.usage.value).value;
      assert (before + [value])[..|before|] == before;
      assert Total(before + [value]) == Total(before) + value;
    }
  }

  lemma {:induction false} TokensAreSums(lines: seq<Line>)
    ensures ReadAll(lines).tokens
            == Tokens(SumOf(lines, (t: Tokens) => t.input), SumOf(lines, (t: Tokens) => t.output),
                      SumOf(lines, (t: Tokens) => t.cacheRead), SumOf(lines, (t: Tokens) => t.cacheCreation))
  {
    if lines != [] {
      hide SumOf, AddField;
      TokensAreSums(lines[..|lines| - 1]);
      OneMoreValue(lines, (t: Tokens) => t.input);
      OneMoreValue(lines, (t: Tokens) => t.output);
      OneMoreValue(lines, (t: Tokens) => t.cacheRead);
      OneMoreValue(lines, (t: Tokens) => t.cacheCreation);
    }
  }
}
