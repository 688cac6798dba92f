/**
 * Transcript retention: a bounded suffix of a terminal stream that prefers to start at a
 * replay-safe escape sequence, and the accumulator that maintains it incrementally.
 */
module TranscriptTail {
  import opened Basics

  const REPLAY_BOUNDARY_SCAN_OVERLAP: nat := 16

  // ---------------------------------------------------------------- boundaries

  const ESC: CodeUnit := 0x1B
  const CSI: CodeUnit := 0x9B

  predicate StartsBoundary(u: CodeUnit) { u == ESC || u == CSI }

  /** An escape sequence that can start or end only where it does. */
  ghost predicate WellFormedLiteral(literal: Text, final: CodeUnit) {
    && 2 < |literal| <= 8 && StartsBoundary(literal[0]) && !StartsBoundary(final)
    && literal[|literal| - 1] == final
    && forall k | 1 <= k < |literal| - 1 :: !StartsBoundary(literal[k]) && literal[k] != final
  }

  /** A table of escape sequences with a common final unit: none can overlap or contain another. */
  ghost predicate WellFormedTable(table: seq<Text>) {
    exists final :: AllEndWith(table, final)
  }

  ghost predicate AllEndWith(table: seq<Text>, final: CodeUnit) {
    forall l <- table :: WellFormedLiteral(l, final)
  }

  /** An introducer (`ESC [`, or the single unit 0x9B) followed by `?1049h`, `?1047h` or `?47h`. */
  const ALT_SCREEN_ENTER: seq<Text> :=
    [ [ESC, 0x5B, 0x3F, 0x31, 0x30, 0x34, 0x39, 0x68], [ESC, 0x5B, 0x3F, 0x31, 0x30, 0x34, 0x37, 0x68],
      [ESC, 0x5B, 0x3F, 0x34, 0x37, 0x68],
      [CSI, 0x3F, 0x31, 0x30, 0x34, 0x39, 0x68], [CSI, 0x3F, 0x31, 0x30, 0x34, 0x37, 0x68],
      [CSI, 0x3F, 0x34, 0x37, 0x68] ]

  /** An introducer followed by `2J` or `3J`. */
  const FULL_SCREEN_CLEAR: seq<Text> :=
    [ [ESC, 0x5B, 0x32, 0x4A], [ESC, 0x5B, 0x33, 0x4A], [CSI, 0x32, 0x4A], [CSI, 0x33, 0x4A] ]

  lemma BoundaryTablesAreWellFormed()
    ensures WellFormedTable(ALT_SCREEN_ENTER) && WellFormedTable(FULL_SCREEN_CLEAR)
  {
    assert AllEndWith(ALT_SCREEN_ENTER, 0x68);
    assert AllEndWith(FULL_SCREEN_CLEAR, 0x4A);
  }

  /** Bounds on what is kept, and the sequences at which a kept tail prefers to start. */
  datatype Policy = Policy(softMax: nat, hardMax: nat, altEnter: seq<Text>, clear: seq<Text>)
  {
    ghost predicate Valid() {
      softMax <= hardMax && WellFormedTable(altEnter) && WellFormedTable(clear)
    }
  }

  predicate HasAt(buffer: Text, i: nat, literal: Text) {
    i + |literal| <= |buffer| && buffer[i..i + |literal|] == literal
  }

  /** Length of the boundary that starts at `i`, or 0 when none does. */
  function BoundaryLength(buffer: Text, i: nat, table: seq<Text>): (n: nat)
    ensures n > 0 ==> i + n <= |buffer|
  {
    if table == [] then 0
    else if HasAt(buffer, i, table[0]) then |table[0]|
    else BoundaryLength(buffer, i, table[1..])
  }

  lemma {:induction false} BoundaryIsListed(buffer: Text, i: nat, table: seq<Text>)
    requires BoundaryLength(buffer, i, table) > 0
    ensures exists l <- table :: HasAt(buffer, i, l) && |l| == BoundaryLength(buffer, i, table)
  {
    if HasAt(buffer, i, table[0]) {
      assert table[0] in table;
    } else {
      BoundaryIsListed(buffer, i, table[1..]);
      var l :| l in table[1..] && HasAt(buffer, i, l) && |l| == BoundaryLength(buffer, i, table[1..]);
      assert l in table;
    }
  }

  lemma {:induction false} SomethingListed(buffer: Text, i: nat, table: seq<Text>, literal: Text)
    requires (forall l <- table :: |l| > 0) && literal in table && HasAt(buffer, i, literal)
    ensures BoundaryLength(buffer, i, table) > 0
  {
    assert table[0] in table;
    if !HasAt(buffer, i, table[0]) {
      SomethingListed(buffer, i, table[1..], literal);
    }
  }

  /** At most one sequence of the table fits at a position. */
  lemma FitIsUnique(buffer: Text, i: nat, table: seq<Text>, l: Text, m: Text)
    requires WellFormedTable(table) && l in table && m in table
    requires HasAt(buffer, i, l) && HasAt(buffer, i, m) && |l| <= |m|
    ensures l == m
  {
    assert l == buffer[i..i + |m|][..|l|] == m[..|l|];
    assert m[|l| - 1] == l[|l| - 1];
  }

  lemma ListedIsBoundary(buffer: Text, i: nat, table: seq<Text>, literal: Text)
    requires WellFormedTable(table) && literal in table && HasAt(buffer, i, literal)
    ensures BoundaryLength(buffer, i, table) == |literal|
  {
    SomethingListed(buffer, i, table, literal);
    BoundaryIsListed(buffer, i, table);
    var m :| m in table && HasAt(buffer, i, m) && |m| == BoundaryLength(buffer, i, table);
    if |m| <= |literal| {
      FitIsUnique(buffer, i, table, m, literal);
    } else {
      FitIsUnique(buffer, i, table, literal, m);
    }
  }

  /** A boundary depends only on the text it covers. */
  lemma BoundaryIsLocal(a: Text, i: nat, b: Text, j: nat, table: seq<Text>)
    requires WellFormedTable(table)
    requires BoundaryLength(a, i, table) > 0
    requires j + BoundaryLength(a, i, table) <= |b|
    requires a[i..i + BoundaryLength(a, i, table)] == b[j..j + BoundaryLength(a, i, table)]
    ensures BoundaryLength(b, j, table) == BoundaryLength(a, i, table)
  {
    BoundaryIsListed(a, i, table);
    var l :| l in table && HasAt(a, i, l) && |l| == BoundaryLength(a, i, table);
    ListedIsBoundary(b, j, table, l);
  }

  lemma BoundaryIsShort(buffer: Text, i: nat, table: seq<Text>)
    requires WellFormedTable(table)
    ensures BoundaryLength(buffer, i, table) <= 8
  {
    if BoundaryLength(buffer, i, table) > 0 {
      BoundaryIsListed(buffer, i, table);
    }
  }

  lemma BoundaryStartsWith(buffer: Text, i: nat, table: seq<Text>)
    requires WellFormedTable(table) && BoundaryLength(buffer, i, table) > 0
    ensures StartsBoundary(buffer[i])
    ensures forall k | i < k < i + BoundaryLength(buffer, i, table) :: !StartsBoundary(buffer[k])
  {
    BoundaryIsListed(buffer, i, table);
    var l :| l in table && HasAt(buffer, i, l) && |l| == BoundaryLength(buffer, i, table);
    forall k | i <= k < i + |l| ensures buffer[k] == l[k - i] {
      assert buffer[k] == buffer[i..i + |l|][k - i];
    }
  }

  /** Boundaries never overlap: only their first unit can start one. */
  lemma BoundariesDoNotOverlap(buffer: Text, i: nat, k: nat, table: seq<Text>)
    requires WellFormedTable(table) && i < k < i + BoundaryLength(buffer, i, table)
    ensures BoundaryLength(buffer, k, table) == 0
  {
    BoundaryStartsWith(buffer, i, table);
    if BoundaryLength(buffer, k, table) > 0 {
      BoundaryStartsWith(buffer, k, table);
    }
  }

  /** The last boundary that starts in `[lo, hi)`, or -1: what a scan from `lo` should find. */
  function LastBoundary(buffer: Text, table: seq<Text>, lo: nat, hi: nat): (last: int)
    ensures last == -1 || lo <= last < hi
  {
    if hi <= lo then -1
    else if BoundaryLength(buffer, hi - 1, table) > 0 then hi - 1
    else LastBoundary(buffer, table, lo, hi - 1)
  }

  lemma {:induction false} LastBoundaryIsLast(buffer: Text, table: seq<Text>, lo: nat, hi: nat)
    ensures var last := LastBoundary(buffer, table, lo, hi);
            && (last >= 0 ==> BoundaryLength(buffer, last, table) > 0)
            && forall k: nat | lo <= k < hi && k > last :: BoundaryLength(buffer, k, table) == 0
  {
    if lo < hi && BoundaryLength(buffer, hi - 1, table) == 0 {
      LastBoundaryIsLast(buffer, table, lo, hi - 1);
    }
  }

  lemma LastBoundaryUnique(buffer: Text, table: seq<Text>, lo: nat, hi: nat, last: int)
    requires last == -1 || (lo <= last < hi && BoundaryLength(buffer, last, table) > 0)
    requires forall k: nat | lo <= k < hi && k > last :: BoundaryLength(buffer, k, table) == 0
    ensures last == LastBoundary(buffer, table, lo, hi)
  {
    LastBoundaryIsLast(buffer, table, lo, hi);
  }

  // ---------------------------------------------------------------- retention from scratch

  datatype Retained = Retained(tail: Text, dropped: nat)

  /** How many units are cut from the front of `buffer`. */
  function CutPoint(buffer: Text, p: Policy): (cut: nat)
    requires p.softMax <= p.hardMax
    ensures cut <= |buffer|
    ensures p.softMax > 0 && |buffer| > 0 ==> cut < |buffer|
    ensures |buffer| - cut <= p.hardMax
    ensures |buffer| <= p.softMax ==> cut == 0
  {
    if |buffer| <= p.softMax then 0
    else
      var altEnter := LastBoundary(buffer, p.altEnter, Max(0, |buffer| - p.hardMax), |buffer|);
      if altEnter != -1 then altEnter
      else
        var clear := LastBoundary(buffer, p.clear, |buffer| - p.softMax, |buffer|);
        if clear != -1 then clear else |buffer| - p.softMax
  }

  datatype Match = NoMatch | Match(index: nat, end: nat)

  /** `RegExp.exec` from `lastIndex`: the first boundary at or after `from`. */
  function Exec(buffer: Text, table: seq<Text>, from: nat): (m: Match)
    ensures m.Match? ==> from <= m.index < m.end <= |buffer|
    ensures m.Match? ==> m.end == m.index + BoundaryLength(buffer, m.index, table)
    ensures m.Match? ==> forall k: nat | from <= k < m.index :: BoundaryLength(buffer, k, table) == 0
    ensures m.NoMatch? ==> forall k: nat | from <= k < |buffer| :: BoundaryLength(buffer, k, table) == 0
    decreases |buffer| - from
  {
    if from >= |buffer| then NoMatch
    else if BoundaryLength(buffer, from, table) > 0 then Match(from, from + BoundaryLength(buffer, from, table))
    else Exec(buffer, table, from + 1)
  }

  method LastBoundaryAtOrAfter(buffer: Text, table: seq<Text>, minStart: nat) returns (found: int)
    requires WellFormedTable(table)
    ensures found == LastBoundary(buffer, table, minStart, |buffer|)
  {
    found := -1;
    var lastIndex := minStart;
    var m := Exec(buffer, table, lastIndex);
    while m.Match?
      invariant minStart <= lastIndex && m == Exec(buffer, table, lastIndex)
      invariant found == -1 || (minStart <= found < lastIndex && BoundaryLength(buffer, found, table) > 0)
      invariant found >= 0 ==> found < |buffer|
      invariant forall k: nat | minStart <= k < lastIndex && k > found :: BoundaryLength(buffer, k, table) == 0
      decreases if m.Match? then |buffer| - m.index else -1
    {
      found := m.index;
      forall k: nat | m.index < k < m.end ensures BoundaryLength(buffer, k, table) == 0 {
        BoundariesDoNotOverlap(buffer, m.index, k, table);
      }
      lastIndex := m.end;
      m := Exec(buffer, table, lastIndex);
    }
    LastBoundaryUnique(buffer, table, minStart, |buffer|, found);
  }

  method RetainTranscriptTail(buffer: Text, p: Policy) returns (r: Retained)
    requires p.Valid()
    ensures r.dropped == CutPoint(buffer, p) && r.tail == buffer[r.dropped..]
  {
    if |buffer| <= p.softMax {
      return Retained(buffer, 0);
    }
    var softStart := |buffer| - p.softMax;
    var hardStart := if |buffer| > p.hardMax then |buffer| - p.hardMax else 0;
    var altEnter := LastBoundaryAtOrAfter(buffer, p.altEnter, hardStart);
    if altEnter != -1 {
      return Retained(buffer[altEnter..], altEnter);
    }
    var clear := LastBoundaryAtOrAfter(buffer, p.clear, softStart);
    var start := if clear != -1 then clear else softStart;
    return Retained(buffer[start..], start);
  }

  // ---------------------------------------------------------------- the accumulator

  datatype Snapshot = Snapshot(tail: Text, offset: nat, nextOffset: nat)

  /** Retain `text`, which starts at absolute position `offset`, from scratch. */
  function Retain(text: Text, offset: nat, p: Policy): (s: Snapshot)
    requires p.softMax <= p.hardMax
  {
    var cut := CutPoint(text, p);
    Snapshot(text[cut..], offset + cut, offset + |text|)
  }

  function LastUnits(text: Text): (last: Text)
    ensures |last| == if |text| <= REPLAY_BOUNDARY_SCAN_OVERLAP then |text| else REPLAY_BOUNDARY_SCAN_OVERLAP
  {
    if |text| <= REPLAY_BOUNDARY_SCAN_OVERLAP then text else text[|text| - REPLAY_BOUNDARY_SCAN_OVERLAP..]
  }

  /** The last boundary of `carry + chunk`, provided it ends inside `chunk`; otherwise -1. */
  function LastNewBoundary(carry: Text, chunk: Text, table: seq<Text>): (last: int)
    ensures last == -1 || 0 <= last < |carry| + |chunk|
  {
    var scanned := carry + chunk;
    var last := LastBoundary(scanned, table, 0, |scanned|);
    if last >= 0 && last + BoundaryLength(scanned, last, table) > |carry| then last else -1
  }

  lemma BoundaryAfterCut(buffer: Text, cut: nat, p: nat, table: seq<Text>)
    requires WellFormedTable(table) && cut + p <= |buffer|
    ensures BoundaryLength(buffer[cut..], p, table) == BoundaryLength(buffer, cut + p, table)
  {
    var rest := buffer[cut..];
    if BoundaryLength(rest, p, table) > 0 {
      var n := BoundaryLength(rest, p, table);
      assert rest[p..p + n] == buffer[cut + p..cut + p + n];
      BoundaryIsLocal(rest, p, buffer, cut + p, table);
    } else if BoundaryLength(buffer, cut + p, table) > 0 {
      var n := BoundaryLength(buffer, cut + p, table);
      assert rest[p..p + n] == buffer[cut + p..cut + p + n];
      BoundaryIsLocal(buffer, cut + p, rest, p, table);
    }
  }

  /** The last boundary of a suffix, in terms of the last boundary of the whole. */
  lemma LastBoundaryAfterCut(buffer: Text, cut: nat, lo: nat, table: seq<Text>)
    requires WellFormedTable(table) && cut + lo <= |buffer|
    ensures var last := LastBoundary(buffer, table, 0, |buffer|);
            LastBoundary(buffer[cut..], table, lo, |buffer| - cut) == if last >= cut + lo then last - cut else -1
  {
    var rest := buffer[cut..];
    forall p: nat | p < |rest|
      ensures BoundaryLength(rest, p, table) == BoundaryLength(buffer, cut + p, table)
    {
      BoundaryAfterCut(buffer, cut, p, table);
    }
    var last := LastBoundary(buffer, table, 0, |buffer|);
    LastBoundaryIsLast(buffer, table, 0, |buffer|);
    LastBoundaryUnique(rest, table, lo, |rest|, if last >= cut + lo then last - cut else -1);
  }

  /** A boundary that ends inside the first of two joined texts is a boundary of that text. */
  lemma BoundaryInsideFirst(text: Text, chunk: Text, i: nat, table: seq<Text>)
    requires WellFormedTable(table)
    ensures BoundaryLength(text, i, table) > 0
            ==> BoundaryLength(text + chunk, i, table) == BoundaryLength(text, i, table)
    ensures 0 < BoundaryLength(text + chunk, i, table) <= |text| - i
            ==> BoundaryLength(text, i, table) == BoundaryLength(text + chunk, i, table)
  {
    var next := text + chunk;
    if BoundaryLength(text, i, table) > 0 {
      var n := BoundaryLength(text, i, table);
      assert text[i..i + n] == next[i..i + n];
      BoundaryIsLocal(text, i, next, i, table);
    } else if 0 < BoundaryLength(next, i, table) <= |text| - i {
      var n := BoundaryLength(next, i, table);
      assert text[i..i + n] == next[i..i + n];
      BoundaryIsLocal(next, i, text, i, table);
    }
  }

  /** When the scan of the carried end and the chunk finds nothing new, no boundary ends in the chunk. */
  lemma NothingNewInChunk(history: Text, chunk: Text, table: seq<Text>, p: nat)
    requires WellFormedTable(table) && LastNewBoundary(LastUnits(history), chunk, table) == -1
    requires p + BoundaryLength(history + chunk, p, table) > |history|
    ensures BoundaryLength(history + chunk, p, table) == 0
  {
    hide BoundaryLength, LastBoundary, WellFormedTable;
    var next, carry := history + chunk, LastUnits(history);
    var scanned, shift := carry + chunk, |history| - |carry|;
    assert scanned == next[shift..];
    var n := BoundaryLength(next, p, table);
    if n > 0 {
      BoundaryIsShort(next, p, table);
      assert p >= shift;
      BoundaryAfterCut(next, shift, p - shift, table);
      var last := LastBoundary(scanned, table, 0, |scanned|);
      LastBoundaryIsLast(scanned, table, 0, |scanned|);
      if p - shift < last < p - shift + n {
        BoundariesDoNotOverlap(scanned, p - shift, last, table);
      }
      assert false;
    }
  }

  /** Scanning the carried end and the chunk is enough to know the last boundary of the whole history. */
  lemma ScanFindsLast(history: Text, chunk: Text, table: seq<Text>)
    requires WellFormedTable(table)
    ensures var carry := LastUnits(history);
            var novel := LastNewBoundary(carry, chunk, table);
            LastBoundary(history + chunk, table, 0, |history + chunk|)
            == if novel >= 0 then |history| - |carry| + novel else LastBoundary(history, table, 0, |history|)
  {
    var next, carry := history + chunk, LastUnits(history);
    var scanned, shift := carry + chunk, |history| - |carry|;
    assert scanned == next[shift..];
    var novel := LastNewBoundary(carry, chunk, table);
    if novel >= 0 {
      LastBoundaryAfterCut(next, shift, 0, table);
    } else {
      var last := LastBoundary(history, table, 0, |history|);
      LastBoundaryIsLast(history, table, 0, |history|);
      forall p: nat | last < p < |next| ensures BoundaryLength(next, p, table) == 0 {
        if BoundaryLength(next, p, table) > 0 {
          if p + BoundaryLength(next, p, table) > |history| {
            NothingNewInChunk(history, chunk, table, p);
          } else {
            BoundaryInsideFirst(history, chunk, p, table);
          }
        }
      }
      if last >= 0 { BoundaryInsideFirst(history, chunk, last, table); }
      LastBoundaryUnique(next, table, 0, |next|, last);
    }
  }

  /** The absolute position of the last boundary of a text that starts at `base`. */
  function LastAt(text: Text, base: int, table: seq<Text>): Option<int> {
    var last := LastBoundary(text, table, 0, |text|);
    if last >= 0 then Some(base + last) else None
  }

  /** Updating a tracked position from a scan of the carried text and the chunk. */
  function Tracked(carry: Text, chunk: Text, chunkOffset: int, table: seq<Text>, tracked: Option<int>): Option<int> {
    var novel := LastNewBoundary(carry, chunk, table);
    if novel >= 0 then Some(chunkOffset - |carry| + novel) else tracked
  }

  /** The accumulator's own start rule, over the tracked positions instead of a new scan. */
  function TrackedStart(bufferStart: int, bufferEnd: int, p: Policy, lastAlt: Option<int>,
                        lastClear: Option<int>): int {
    if bufferEnd - bufferStart <= p.softMax then bufferStart
    else if lastAlt.Some? && lastAlt.value >= bufferEnd - p.hardMax && lastAlt.value >= bufferStart then lastAlt.value
    else if lastClear.Some? && lastClear.value >= bufferEnd - p.softMax && lastClear.value >= bufferStart
    then lastClear.value
    else bufferEnd - p.softMax
  }

  /** Tracking the last boundary of each kind gives exactly the cut that a scan of the retained buffer gives. */
  lemma TrackedStartIsCut(history: Text, base: int, from: nat, p: Policy)
    requires p.Valid() && from <= |history|
    ensures TrackedStart(base + from, base + |history|, p, LastAt(history, base, p.altEnter),
                         LastAt(history, base, p.clear))
            == base + from + CutPoint(history[from..], p)
  {
    var buffer := history[from..];
    if |buffer| > p.softMax {
      LastBoundaryAfterCut(history, from, Max(0, |buffer| - p.hardMax), p.altEnter);
      LastBoundaryAfterCut(history, from, |buffer| - p.softMax, p.clear);
    }
  }

  /** What an accumulator remembers besides the snapshot, in terms of everything it received since its last reset. */
  datatype Memory = Memory(carry: Text, lastAlt: Option<int>, lastClear: Option<int>)

  function Remember(history: Text, end: int, p: Policy): Memory {
    Memory(LastUnits(history), LastAt(history, end - |history|, p.altEnter), LastAt(history, end - |history|, p.clear))
  }

  ghost predicate IsSuffix(tail: Text, history: Text) {
    |tail| <= |history| && tail == history[|history| - |tail|..]
  }

  lemma RememberNothing(end: int, p: Policy)
    ensures Remember([], end, p) == Memory([], None, None) && IsSuffix([], [])
  {
  }

  lemma LastUnitsOfAppend(history: Text, chunk: Text)
    ensures LastUnits(LastUnits(history) + chunk) == LastUnits(history + chunk)
  {
  }

  lemma TrackedIsLastAt(history: Text, chunk: Text, end: int, table: seq<Text>)
    requires WellFormedTable(table)
    ensures Tracked(LastUnits(history), chunk, end, table, LastAt(history, end - |history|, table))
            == LastAt(history + chunk, end - |history|, table)
  {
    ScanFindsLast(history, chunk, table);
  }

  /** Everything remembered after a chunk, computed from the carried units and the chunk alone. */
  function Recall(before: Memory, chunk: Text, end: int, p: Policy): Memory {
    Memory(LastUnits(before.carry + chunk), Tracked(before.carry, chunk, end, p.altEnter, before.lastAlt),
           Tracked(before.carry, chunk, end, p.clear, before.lastClear))
  }

  lemma RecallIsRemember(history: Text, chunk: Text, end: int, p: Policy)
    requires p.Valid()
    ensures Recall(Remember(history, end, p), chunk, end, p) == Remember(history + chunk, end + |chunk|, p)
  {
    LastUnitsOfAppend(history, chunk);
    TrackedIsLastAt(history, chunk, end, p.altEnter);
    TrackedIsLastAt(history, chunk, end, p.clear);
  }

  function DropFirst(text: Text, n: int): Text {
    if 0 <= n <= |text| then text[n..] else []
  }

  /** The incremental step as the accumulator takes it: recall the boundaries, then cut at the tracked start. */
  function Advance(tail: Text, offset: int, memory: Memory, chunk: Text, p: Policy): (int, Text, Memory) {
    var end := offset + |tail|;
    var after := Recall(memory, chunk, end, p);
    var start := TrackedStart(offset, end + |chunk|, p, after.lastAlt, after.lastClear);
    (start, DropFirst(tail + chunk, start - offset), after)
  }

  /** One incremental step keeps what retaining the whole joined text keeps, and remembers what a full scan would. */
  lemma AdvanceIsRetain(history: Text, tail: Text, chunk: Text, offset: nat, p: Policy)
    requires p.Valid() && IsSuffix(tail, history)
    ensures var end := offset + |tail|;
            var (start, kept, after) := Advance(tail, offset, Remember(history, end, p), chunk, p);
            && start >= 0 && Snapshot(kept, start, end + |chunk|) == Retain(tail + chunk, offset, p)
            && after == Remember(history + chunk, end + |chunk|, p)
            && IsSuffix(kept, history + chunk)
            && start + |kept| == end + |chunk|
  {
    hide LastBoundary, Tracked, LastUnits, Recall, LastAt;
    var end := offset + |tail|;
    RecallIsRemember(history, chunk, end, p);
    SuffixOfAppend(tail, history, chunk, CutPoint(tail + chunk, p));
    TrackedStartIsCut(history + chunk, end - |history|, |history| - |tail|, p);
  }

  lemma SuffixOfAppend(tail: Text, history: Text, chunk: Text, cut: nat)
    requires IsSuffix(tail, history) && cut <= |tail| + |chunk|
    ensures IsSuffix((tail + chunk)[cut..], history + chunk)
    ensures (history + chunk)[|history| - |tail|..] == tail + chunk
  {
    assert tail + chunk == (history + chunk)[|history| - |tail|..];
  }

  class TranscriptTailAccumulator {
    const policy: Policy
    var tail: Text
    var offset: nat
    var nextOffset: nat
    var boundaryCarry: Text
    var lastAltEnterOffset: Option<int>
    var lastClearOffset: Option<int>
    ghost var history: Text  // everything received since the last replace or clear

    ghost predicate Valid()
      reads this
    {
      && policy.Valid()
      && nextOffset == offset + |tail|
      && IsSuffix(tail, history)
      && Memory(boundaryCarry, lastAltEnterOffset, lastClearOffset) == Remember(history, nextOffset, policy)
    }

    function View(): Snapshot
      reads this
    {
      Snapshot(tail, offset, nextOffset)
    }

    constructor (policy: Policy)
      requires policy.Valid()
      ensures Valid() && this.policy == policy && View() == Snapshot([], 0, 0)
    {
      this.policy := policy;
      tail, offset, nextOffset, boundaryCarry, history := [], 0, 0, [], [];
      lastAltEnterOffset, lastClearOffset := None, None;
      new;
      RememberNothing(0, policy);
    }

    method Clear(next: nat)
      requires Valid()
      modifies this
      ensures Valid() && View() == Snapshot([], next, next)
    {
      tail, offset, nextOffset, boundaryCarry, history := [], next, next, [], [];
      lastAltEnterOffset, lastClearOffset := None, None;
      RememberNothing(next, policy);
    }

    method Replace(text: Text, at: nat)
      requires Valid()
      modifies this
      ensures Valid() && View() == Retain(text, at, policy)
    {
      hide LastBoundary, LastUnits, CutPoint, BoundaryLength;
      var retained := RetainTranscriptTail(text, policy);
      tail := retained.tail;
      offset := at + retained.dropped;
      nextOffset := offset + |tail|;
      boundaryCarry := LastUnits(tail);
      history := tail;
      var alt := LastBoundaryAtOrAfter(tail, policy.altEnter, 0);
      lastAltEnterOffset := if alt >= 0 then Some(offset + alt) else None;
      var clear := LastBoundaryAtOrAfter(tail, policy.clear, 0);
      lastClearOffset := if clear >= 0 then Some(offset + clear) else None;
    }

    /** Appending incrementally keeps exactly what retaining the whole joined text would keep. */
    method Append(chunk: Text)
      requires Valid()
      modifies this
      ensures Valid()
      ensures View() == if |chunk| == 0 then old(View()) else Retain(old(tail) + chunk, old(offset), policy)
    {
      hide LastBoundary, Tracked, Remember, CutPoint, LastUnits, DropFirst, TrackedStart, IsSuffix;
      if |chunk| == 0 {
        return;
      }
      AdvanceIsRetain(history, tail, chunk, offset, policy);
      var chunkOffset := nextOffset;
      RecordBoundaries(chunk, chunkOffset);
      var next := tail + chunk;
      nextOffset := chunkOffset + |chunk|;
      var start := TrackedStart(offset, nextOffset, policy, lastAltEnterOffset, lastClearOffset);
      tail := DropFirst(next, start - offset);
      offset := start;
      history := history + chunk;
    }

    /**
     * Scan the carried end of the old text and the chunk; note the last boundary of each kind that ends in the chunk.
     */
    method RecordBoundaries(chunk: Text, chunkOffset: nat)
      requires policy.Valid()
      modifies this`boundaryCarry, this`lastAltEnterOffset, this`lastClearOffset
      ensures Memory(boundaryCarry, lastAltEnterOffset, lastClearOffset)
              == Recall(old(Memory(boundaryCarry, lastAltEnterOffset, lastClearOffset)), chunk, chunkOffset, policy)
    {
      var scanned := boundaryCarry + chunk;
      var scannedOffset := chunkOffset - |boundaryCarry|;
      var alt := LastBoundaryAtOrAfter(scanned, policy.altEnter, 0);
      if alt >= 0 && alt + BoundaryLength(scanned, alt, policy.altEnter) > |boundaryCarry| {
        lastAltEnterOffset := Some(scannedOffset + alt);
      }
      var clear := LastBoundaryAtOrAfter(scanned, policy.clear, 0);
      if clear >= 0 && clear + BoundaryLength(scanned, clear, policy.clear) > |boundaryCarry| {
        lastClearOffset := Some(scannedOffset + clear);
      }
      boundaryCarry := LastUnits(scanned);
    }
  }
}
