/**
 * The renderer's transcript reconstruction: chunks and backfills of a pty stream arrive out of order, duplicated
 * and across generations; the view model merges them into one contiguous slice.
 */
module AgentsConsole {
  import opened Basics
  import opened TranscriptTail

  /** Twice the engine's hard ceiling of 4 * 64 KiB. */
  const CONSOLE_TRANSCRIPT_MAX_CHARS: nat := 2 * 4 * 64 * 1024

  /** The console keeps a tail under one bound, so its soft and hard bounds coincide. */
  ghost predicate ConsolePolicy(p: Policy) {
    p.Valid() && p.softMax == p.hardMax && p.hardMax > 0
  }

  lemma ConsoleUsesConsolePolicy()
    ensures ConsolePolicy(Policy(CONSOLE_TRANSCRIPT_MAX_CHARS, CONSOLE_TRANSCRIPT_MAX_CHARS, ALT_SCREEN_ENTER,
                                 FULL_SCREEN_CLEAR))
  {
    BoundaryTablesAreWellFormed();
  }

  // ---------------------------------------------------------------- data

  /** A live chunk or a backfilled tail: `text` is the stream of `agent` in `generation`, from `offset` on. */
  datatype Delivery = Delivery(agent: string, generation: Option<nat>, offset: nat, text: Text)
  {
    function Generation(): nat { generation.GetOr(0) }
    function End(): nat { offset + |text| }
  }

  datatype Segment = Segment(offset: nat, text: Text)
  {
    function End(): nat { offset + |text| }
  }

  datatype ApplyResult = Applied | Ignored | Gap

  /** The transcript part of the view model's state, its segments, and its accumulator's snapshot. */
  datatype Vm = Vm(selected: Option<string>, transcript: Text, generation: nat, offset: nat,
                   segments: seq<Segment>, acc: Snapshot)
  {
    function End(): nat { offset + |transcript| }
    function Cleared(): Vm { this.(segments := [], acc := Snapshot([], 0, 0)) }
  }

  const INITIAL_VM := Vm(None, [], 0, 0, [], Snapshot([], 0, 0))

  // ---------------------------------------------------------------- merging segments

  function InsertByOffset(sorted: seq<Segment>, s: Segment): seq<Segment> {
    if sorted == [] || sorted[|sorted| - 1].offset <= s.offset then sorted + [s]
    else InsertByOffset(sorted[..|sorted| - 1], s) + [sorted[|sorted| - 1]]
  }

  /** A stable sort by offset. */
  function SortByOffset(segments: seq<Segment>): seq<Segment> {
    if segments == [] then []
    else InsertByOffset(SortByOffset(segments[..|segments| - 1]), segments[|segments| - 1])
  }

  function NonEmpty(segments: seq<Segment>): seq<Segment> {
    if segments == [] then []
    else if |segments[0].text| > 0 then [segments[0]] + NonEmpty(segments[1..])
    else NonEmpty(segments[1..])
  }

  /** Add one segment, in offset order, to segments already merged: extend the last one or start another. */
  function Absorb(merged: seq<Segment>, s: Segment): seq<Segment> {
    if merged == [] then [s]
    else
      var last := merged[|merged| - 1];
      if s.offset <= last.End() then
        var overlap := last.End() - s.offset;
        if overlap < |s.text| then merged[|merged| - 1 := Segment(last.offset, last.text + s.text[overlap..])]
        else merged
      else merged + [s]
  }

  function MergeAll(segments: seq<Segment>): seq<Segment> {
    if segments == [] then [] else Absorb(MergeAll(segments[..|segments| - 1]), segments[|segments| - 1])
  }

  /** The longest run of adjacent segments that ends at index `i`'s successors: grow the run leftwards from `i`. */
  function RunFrom(segments: seq<Segment>, i: nat): seq<Segment>
    requires i < |segments|
  {
    if i == 0 || segments[i - 1].End() != segments[i].offset then segments[i..] else RunFrom(segments, i - 1)
  }

  function NewestRun(segments: seq<Segment>): seq<Segment> {
    if segments == [] then [] else RunFrom(segments, |segments| - 1)
  }

  function Join(segments: seq<Segment>): Text {
    if segments == [] then [] else segments[0].text + Join(segments[1..])
  }

  // ---------------------------------------------------------------- what one operation does

  function ApplySnapshot(vm: Vm, s: Snapshot): Vm {
    vm.(segments := if |s.tail| > 0 then [Segment(s.offset, s.tail)] else [],
        transcript := s.tail, offset := s.offset, acc := s)
  }

  function ApplySegment(vm: Vm, offset: nat, text: Text, p: Policy): Vm
    requires p.softMax <= p.hardMax
  {
    if |text| == 0 then vm
    else if |vm.segments| == 1 && offset == vm.segments[0].End() && vm.acc.nextOffset == offset then
      ApplySnapshot(vm, Retain(vm.acc.tail + text, vm.acc.offset, p))
    else
      var merged := MergeAll(SortByOffset(NonEmpty(vm.segments + [Segment(offset, text)])));
      var contiguous := NewestRun(merged);
      var start := if contiguous != [] then contiguous[0].offset else offset;
      ApplySnapshot(vm, Retain(Join(contiguous), start, p))
  }

  datatype Comparison = Disjoint | Agrees | Differs

  predicate Overlaps(s: Segment, offset: nat, text: Text) {
    Max(offset, s.offset) < Min(offset + |text|, s.End())
  }

  /** The overlapping parts of a segment and of `text` at `offset` differ. */
  predicate Clashes(s: Segment, offset: nat, text: Text) {
    Overlaps(s, offset, text) &&
    var start, end := Max(offset, s.offset), Min(offset + |text|, s.End());
    s.text[start - s.offset..end - s.offset] != text[start - offset..end - offset]
  }

  /** How `text` at `offset` compares with what the segments hold; `overlapped` says whether earlier ones agreed. */
  function CompareFrom(segments: seq<Segment>, overlapped: bool, offset: nat, text: Text): Comparison {
    if segments == [] then if overlapped then Agrees else Disjoint
    else if Clashes(segments[0], offset, text) then Differs
    else CompareFrom(segments[1..], overlapped || Overlaps(segments[0], offset, text), offset, text)
  }

  function Compare(segments: seq<Segment>, offset: nat, text: Text): Comparison {
    CompareFrom(segments, false, offset, text)
  }

  /** What the segments hold of `[0, offset)`, if they hold all of it contiguously; otherwise nothing. */
  function PrefixFrom(segments: seq<Segment>, cursor: nat, prefix: Text, offset: nat): Text {
    if segments == [] || segments[0].offset > cursor then []
    else
      var s := segments[0];
      var from, to := Max(0, cursor - s.offset), Min(|s.text|, offset - s.offset);
      var prefix' := if to > from then prefix + s.text[from..to] else prefix;
      var cursor' := if to > from then s.offset + to else cursor;
      if cursor' >= offset then prefix'[..Min(offset, |prefix'|)]
      else PrefixFrom(segments[1..], cursor', prefix', offset)
  }

  function PrefixBefore(segments: seq<Segment>, offset: nat): Text {
    if offset == 0 then [] else PrefixFrom(segments, 0, [], offset)
  }

  /** The prefix to restart from when a live chunk contradicts what is held; `None` when it does not. */
  function ResetPrefix(segments: seq<Segment>, offset: nat, text: Text): Option<Text> {
    if |text| == 0 || segments == [] then None
    else
      match Compare(segments, offset, text)
      case Differs => Some(PrefixBefore(segments, offset))
      case Disjoint => if offset == 0 then Some([]) else None
      case Agrees => None
  }

  function Restart(vm: Vm, prefix: Text, p: Policy): Vm
    requires p.softMax <= p.hardMax
  {
    if |prefix| > 0 then vm.(segments := [Segment(0, prefix)], acc := Retain(prefix, 0, p)) else vm.Cleared()
  }

  function ApplyLive(vm: Vm, offset: nat, text: Text, p: Policy): Vm
    requires p.softMax <= p.hardMax
  {
    match ResetPrefix(vm.segments, offset, text)
    case None => ApplySegment(vm, offset, text, p)
    case Some(prefix) => ApplySegment(Restart(vm, prefix, p), offset, text, p)
  }

  datatype Outcome = Outcome(vm: Vm, result: ApplyResult, emits: bool)

  function AfterSelect(vm: Vm, id: Option<string>): Vm {
    Vm(id, [], if vm.selected == id then vm.generation else 0, 0, [], Snapshot([], 0, 0))
  }

  function AfterClear(vm: Vm): Vm {
    if vm.selected.None? then vm else vm.Cleared().(transcript := [], offset := 0)
  }

  function AfterTail(vm: Vm, d: Delivery, p: Policy): Outcome
    requires p.softMax <= p.hardMax
  {
    if vm.selected != Some(d.agent) || d.Generation() < vm.generation then Outcome(vm, Ignored, false)
    else
      var base := if d.Generation() > vm.generation then vm.Cleared().(generation := d.Generation()) else vm;
      Outcome(ApplySegment(base, d.offset, d.text, p), Applied, |d.text| > 0)
  }

  function AppendInRange(vm: Vm, offset: nat, text: Text, p: Policy): Outcome
    requires p.softMax <= p.hardMax && |text| > 0
  {
    if vm.segments == [] then Outcome(ApplyLive(vm, offset, text, p), Applied, true)
    else
      var start, end := vm.segments[0].offset, vm.segments[|vm.segments| - 1].End();
      if offset == 0 && start > 0 then Outcome(ApplySegment(vm.Cleared(), offset, text, p), Applied, true)
      else if offset < start && offset + |text| <= end then Outcome(vm, Ignored, false)
      else
        var drop := if offset < start then start - offset else 0;
        var text' := if drop <= |text| then text[drop..] else [];
        if offset + drop > end then Outcome(vm, Gap, false)
        else Outcome(ApplyLive(vm, offset + drop, text', p), Applied, |text'| > 0)
  }

  function AfterChunk(vm: Vm, d: Delivery, p: Policy): Outcome
    requires p.softMax <= p.hardMax
  {
    if vm.selected != Some(d.agent) || d.Generation() < vm.generation then Outcome(vm, Ignored, false)
    else
      var advances := d.Generation() > vm.generation;
      var base := if advances then vm.Cleared().(generation := d.Generation()) else vm;
      if advances && vm.segments == [] && d.offset > 0 then Outcome(base, Gap, false)
      else if |d.text| == 0 then Outcome(base, Ignored, false)
      else AppendInRange(base, d.offset, d.text, p)
  }

  // ---------------------------------------------------------------- merging a new segment into at most one

  /** What merging two segments leaves: their union when they touch, otherwise the newer (higher) one. */
  function Merged(a: Segment, b: Segment): Segment {
    var x, y := if a.offset <= b.offset then a else b, if a.offset <= b.offset then b else a;
    if y.offset > x.End() then y
    else if x.End() - y.offset < |y.text| then Segment(x.offset, x.text + y.text[x.End() - y.offset..])
    else x
  }

  lemma MergeOne(s: Segment)
    requires |s.text| > 0
    ensures NewestRun(MergeAll(SortByOffset(NonEmpty([s])))) == [s]
    ensures Join([s]) == s.text
  {
    assert NonEmpty([s]) == [s];
    assert SortByOffset([s]) == [s];
    assert MergeAll([s]) == [s];
  }

  lemma NonEmptyTwo(a: Segment, b: Segment)
    requires |a.text| > 0 && |b.text| > 0
    ensures NonEmpty([a] + [b]) == [a, b]
  {
    assert [a, b][1..] == [b] && [b][1..] == [];
    assert NonEmpty([b]) == [b] + NonEmpty([]);
    assert NonEmpty([a, b]) == [a] + NonEmpty([b]);
    assert [a] + [b] == [a, b];
  }

  lemma SortTwo(a: Segment, b: Segment)
    ensures SortByOffset([a, b]) == if a.offset <= b.offset then [a, b] else [b, a]
  {
    assert [a, b][..1] == [a] && [a][..0] == [];
    assert SortByOffset([a]) == InsertByOffset(SortByOffset([]), a) == [a];
    assert SortByOffset([a, b]) == InsertByOffset([a], b);
    assert InsertByOffset([], b) == [b];
  }

  lemma MergeSorted(x: Segment, y: Segment)
    requires x.offset <= y.offset
    ensures NewestRun(MergeAll([x, y])) == [Merged(x, y)]
  {
    assert [x, y][..1] == [x] && [x][..0] == [];
    assert MergeAll([x]) == Absorb(MergeAll([]), x) == [x];
    assert MergeAll([x, y]) == Absorb([x], y);
    if y.offset > x.End() {
      assert [x] + [y] == [x, y] && [x, y][1..] == [y];
      assert RunFrom([x, y], 1) == [x, y][1..];
    } else if x.offset == y.offset && x.End() - y.offset < |y.text| {
      assert [x][0 := Merged(x, y)] == [Merged(x, y)];
    }
  }

  lemma MergeTwo(a: Segment, b: Segment)
    requires |a.text| > 0 && |b.text| > 0
    ensures NewestRun(MergeAll(SortByOffset(NonEmpty([a] + [b])))) == [Merged(a, b)]
    ensures |Merged(a, b).text| > 0
  {
    hide NonEmpty, SortByOffset, MergeAll, NewestRun;
    NonEmptyTwo(a, b);
    SortTwo(a, b);
    if a.offset <= b.offset {
      MergeSorted(a, b);
    } else {
      MergeSorted(b, a);
    }
  }

  // ---------------------------------------------------------------- streams

  /** The true pty stream of each agent and generation, by absolute position. */
  type Streams = (string, nat, nat) -> CodeUnit

  function Slice(s: Streams, agent: string, generation: nat, lo: nat, hi: nat): (text: Text)
    requires lo <= hi
    ensures |text| == hi - lo
  {
    seq(hi - lo, i requires 0 <= i < hi - lo => s(agent, generation, lo + i))
  }

  /** `text` is what the stream holds from `offset` on. */
  ghost predicate IsSlice(s: Streams, agent: string, generation: nat, offset: nat, text: Text) {
    text == Slice(s, agent, generation, offset, offset + |text|)
  }

  lemma SliceOfSlice(s: Streams, agent: string, generation: nat, offset: nat, text: Text, from: nat, to: nat)
    requires IsSlice(s, agent, generation, offset, text) && from <= to <= |text|
    ensures IsSlice(s, agent, generation, offset + from, text[from..to])
  {
  }

  lemma SliceConcat(s: Streams, agent: string, generation: nat, offset: nat, a: Text, b: Text)
    requires IsSlice(s, agent, generation, offset, a) && IsSlice(s, agent, generation, offset + |a|, b)
    ensures IsSlice(s, agent, generation, offset, a + b)
  {
  }

  ghost predicate TrueDelivery(s: Streams, d: Delivery) {
    IsSlice(s, d.agent, d.Generation(), d.offset, d.text)
  }

  /** Two true slices that overlap agree, and their union is a true slice. */
  lemma MergedIsSlice(s: Streams, agent: string, generation: nat, a: Segment, b: Segment)
    requires IsSlice(s, agent, generation, a.offset, a.text) && IsSlice(s, agent, generation, b.offset, b.text)
    ensures IsSlice(s, agent, generation, Merged(a, b).offset, Merged(a, b).text)
    ensures Merged(a, b).End() == Max(a.End(), b.End())
    ensures b.offset <= a.End() && a.offset <= b.End() ==> Merged(a, b).offset == Min(a.offset, b.offset)
  {
    var x, y := if a.offset <= b.offset then a else b, if a.offset <= b.offset then b else a;
    if y.offset <= x.End() && x.End() - y.offset < |y.text| {
      var overlap := x.End() - y.offset;
      SliceOfSlice(s, agent, generation, y.offset, y.text, overlap, |y.text|);
      assert y.text[overlap..] == y.text[overlap..|y.text|];
      SliceConcat(s, agent, generation, x.offset, x.text, y.text[overlap..]);
    }
  }

  lemma RetainIsSlice(s: Streams, agent: string, generation: nat, offset: nat, text: Text, p: Policy)
    requires ConsolePolicy(p) && |text| > 0 && IsSlice(s, agent, generation, offset, text)
    ensures var r := Retain(text, offset, p);
            && 0 < |r.tail| <= p.hardMax && IsSlice(s, agent, generation, r.offset, r.tail)
            && r.offset == offset + CutPoint(text, p) && r.nextOffset == r.offset + |r.tail| == offset + |text|
            && (|text| <= p.hardMax ==> r == Snapshot(text, offset, offset + |text|))
  {
    hide LastBoundary, WellFormedTable;
    var cut := CutPoint(text, p);
    SliceOfSlice(s, agent, generation, offset, text, cut, |text|);
    assert text[cut..] == text[cut..|text|];
  }

  // ---------------------------------------------------------------- coherence

  /** The displayed transcript, the segments and the accumulator tell the same story. */
  ghost predicate Shaped(vm: Vm, p: Policy) {
    && vm.segments == (if vm.transcript == [] then [] else [Segment(vm.offset, vm.transcript)])
    && vm.acc == Snapshot(vm.transcript, vm.offset, vm.End())
    && |vm.transcript| <= p.hardMax
    && (vm.transcript == [] ==> vm.offset == 0)
    && (vm.selected.None? ==> vm.transcript == [])
  }

  /** Moreover the transcript is a slice of the selected agent's stream in the current generation. */
  ghost predicate Coherent(vm: Vm, s: Streams, p: Policy) {
    && Shaped(vm, p)
    && (vm.selected.Some? ==> IsSlice(s, vm.selected.value, vm.generation, vm.offset, vm.transcript))
  }

  /** Applying any true segment keeps coherence; the frontier never retreats. */
  lemma ApplySegmentKeepsCoherent(vm: Vm, s: Streams, p: Policy, offset: nat, text: Text)
    requires ConsolePolicy(p) && Coherent(vm, s, p) && vm.selected.Some? && |text| > 0
    requires IsSlice(s, vm.selected.value, vm.generation, offset, text)
    ensures var vm' := ApplySegment(vm, offset, text, p);
            && Coherent(vm', s, p) && vm'.selected == vm.selected && vm'.generation == vm.generation
            && |vm'.transcript| > 0
            && vm'.End() == (if vm.transcript == [] then offset + |text| else Max(vm.End(), offset + |text|))
            && (vm.transcript == [] ==> vm'.offset == offset + CutPoint(text, p))
            && (vm.transcript != [] && vm.offset <= offset && offset + |text| <= vm.End() ==> vm' == vm)
  {
    hide CutPoint, LastBoundary, WellFormedTable, MergeAll, SortByOffset, NonEmpty, NewestRun;
    var agent, g := vm.selected.value, vm.generation;
    if vm.transcript == [] {
      assert vm.segments + [Segment(offset, text)] == [Segment(offset, text)];
      MergeOne(Segment(offset, text));
      RetainIsSlice(s, agent, g, offset, text, p);
    } else if offset == vm.End() {
      SliceConcat(s, agent, g, vm.offset, vm.transcript, text);
      RetainIsSlice(s, agent, g, vm.offset, vm.transcript + text, p);
    } else {
      var held, incoming := vm.segments[0], Segment(offset, text);
      MergeTwo(held, incoming);
      MergedIsSlice(s, agent, g, held, incoming);
      var m := Merged(held, incoming);
      assert Join([m]) == m.text + Join([m][1..]) == m.text;
      RetainIsSlice(s, agent, g, m.offset, m.text, p);
    }
  }

  // ---------------------------------------------------------------- live chunks

  /** A true chunk never contradicts what is held, so nothing is restarted. */
  lemma TrueChunkNeverRestarts(vm: Vm, s: Streams, p: Policy, offset: nat, text: Text)
    requires Coherent(vm, s, p) && vm.selected.Some?
    requires IsSlice(s, vm.selected.value, vm.generation, offset, text)
    requires vm.transcript == [] || vm.offset <= offset
    ensures ResetPrefix(vm.segments, offset, text).None?
  {
    hide WellFormedTable;
    if vm.transcript != [] && |text| > 0 {
      var held := vm.segments[0];
      TrueTextNeverClashes(s, vm.selected.value, vm.generation, held, offset, text);
      assert vm.segments[1..] == [];
      assert Compare(vm.segments, offset, text)
             == CompareFrom(vm.segments[1..], Overlaps(held, offset, text), offset, text);
      assert offset == 0 ==> Overlaps(held, offset, text);
    }
  }

  lemma TrueTextNeverClashes(s: Streams, agent: string, g: nat, held: Segment, offset: nat, text: Text)
    requires IsSlice(s, agent, g, held.offset, held.text) && IsSlice(s, agent, g, offset, text)
    ensures !Clashes(held, offset, text)
  {
    if Overlaps(held, offset, text) {
      var lo, hi := Max(offset, held.offset), Min(offset + |text|, held.End());
      SliceOfSlice(s, agent, g, held.offset, held.text, lo - held.offset, hi - held.offset);
      SliceOfSlice(s, agent, g, offset, text, lo - offset, hi - offset);
    }
  }

  /** The effect of a non-empty true chunk of the current generation, whatever its position. */
  lemma TrueChunk(vm: Vm, s: Streams, p: Policy, offset: nat, text: Text)
    requires ConsolePolicy(p) && Coherent(vm, s, p) && vm.selected.Some? && |text| > 0
    requires IsSlice(s, vm.selected.value, vm.generation, offset, text)
    ensures var out := AppendInRange(vm, offset, text, p);
            var restarts := vm.transcript != [] && offset == 0 && vm.offset > 0;
            && Coherent(out.vm, s, p) && out.vm.selected == vm.selected && out.vm.generation == vm.generation
            && (out.result == Gap <==> vm.transcript != [] && offset > vm.End())
            && (out.result == Ignored
                <==> vm.transcript != [] && 0 < offset < vm.offset && offset + |text| <= vm.End())
            && (out.emits <==> out.result == Applied)
            && (out.result != Applied ==> out.vm == vm)
            && (out.result == Applied ==> |out.vm.transcript| > 0)
            && (out.result == Applied && !restarts
                ==> out.vm.End() == if vm.transcript == [] then offset + |text| else Max(vm.End(), offset + |text|))
            && (restarts ==> out.vm.offset == CutPoint(text, p) && out.vm.End() == |text|)
            && (vm.transcript != [] && vm.offset <= offset && offset + |text| <= vm.End() ==> out.vm == vm)
  {
    hide CutPoint, WellFormedTable, ApplySegment, Compare;
    var agent, g := vm.selected.value, vm.generation;
    if vm.transcript == [] {
      TrueChunkNeverRestarts(vm, s, p, offset, text);
      ApplySegmentKeepsCoherent(vm, s, p, offset, text);
    } else if offset == 0 && vm.offset > 0 {
      var cleared := vm.Cleared().(transcript := [], offset := 0);
      ApplySegmentIgnoresDisplay(vm.Cleared(), cleared, offset, text, p);
      ApplySegmentKeepsCoherent(cleared, s, p, offset, text);
    } else if !(offset < vm.offset && offset + |text| <= vm.End()) {
      var drop := if offset < vm.offset then vm.offset - offset else 0;
      SliceOfSlice(s, agent, g, offset, text, drop, |text|);
      assert text[drop..] == text[drop..|text|];
      if offset + drop <= vm.End() {
        TrueChunkNeverRestarts(vm, s, p, offset + drop, text[drop..]);
        ApplySegmentKeepsCoherent(vm, s, p, offset + drop, text[drop..]);
      }
    }
  }

  /** What is displayed before plays no part in applying a non-empty segment. */
  lemma ApplySegmentIgnoresDisplay(a: Vm, b: Vm, offset: nat, text: Text, p: Policy)
    requires p.softMax <= p.hardMax && |text| > 0
    requires a == b.(transcript := a.transcript, offset := a.offset)
    ensures ApplySegment(a, offset, text, p) == ApplySegment(b, offset, text, p)
  {
    hide CutPoint, MergeAll, SortByOffset, NonEmpty, NewestRun;
  }

  /**
   * The result of a live chunk for the selected agent in its current generation: a gap exactly when it starts beyond
   * the frontier; otherwise, at a positive offset, the frontier becomes the maximum of itself and the chunk's end;
   * and redelivering what is already held changes nothing.
   */
  lemma LiveChunkResult(vm: Vm, s: Streams, p: Policy, d: Delivery)
    requires ConsolePolicy(p) && Coherent(vm, s, p) && TrueDelivery(s, d)
    requires vm.selected == Some(d.agent) && d.Generation() == vm.generation && |d.text| > 0 && vm.transcript != []
    ensures var out := AfterChunk(vm, d, p);
            && Coherent(out.vm, s, p)
            && (out.result == Gap <==> d.offset > vm.End())
            && (out.result == Applied && d.offset > 0 ==> out.vm.End() == Max(vm.End(), d.End()))
            && (vm.offset <= d.offset && d.End() <= vm.End() ==> out.vm == vm)
            && (out.result == Ignored ==> out.vm == vm && vm.offset > d.offset && d.End() <= vm.End())
  {
    TrueChunk(vm, s, p, d.offset, d.text);
  }

  lemma HeldPrefix(vm: Vm, p: Policy, offset: nat, text: Text)
    requires ConsolePolicy(p) && Shaped(vm, p) && vm.offset <= offset < vm.End() && |text| > 0
    requires Compare(vm.segments, offset, text) == Differs
    ensures ResetPrefix(vm.segments, offset, text) == Some(if vm.offset == 0 then vm.transcript[..offset] else [])
  {
    if vm.offset == 0 && offset > 0 {
      assert [] + vm.transcript[0..offset] == vm.transcript[..offset];
      assert vm.transcript[..offset][..offset] == vm.transcript[..offset];
      assert PrefixFrom(vm.segments, 0, [], offset) == vm.transcript[..offset];
    } else if vm.offset == 0 {
      assert vm.transcript[..0] == [];
    }
  }

  /**
   * A live chunk that contradicts what is held wins: the text before it survives when the held slice reaches back
   * to the stream's start, and otherwise the transcript restarts at the chunk.
   */
  lemma ContradictionRestarts(vm: Vm, p: Policy, offset: nat, text: Text)
    requires ConsolePolicy(p) && Shaped(vm, p) && vm.offset <= offset < vm.End() && |text| > 0
    requires Compare(vm.segments, offset, text) == Differs
    ensures ApplyLive(vm, offset, text, p)
            == ApplySnapshot(vm, if vm.offset == 0 then Retain(vm.transcript[..offset] + text, 0, p)
                                 else Retain(text, offset, p))
  {
    hide LastBoundary, Compare, MergeAll, SortByOffset, NonEmpty, NewestRun, ResetPrefix;
    HeldPrefix(vm, p, offset, text);
    if vm.offset == 0 && offset > 0 {
      var prefix := vm.transcript[..offset];
      assert Retain(prefix, 0, p) == Snapshot(prefix, 0, offset);
    } else {
      assert [] + [Segment(offset, text)] == [Segment(offset, text)];
      MergeOne(Segment(offset, text));
      assert [] + text == text;
    }
  }

  // ---------------------------------------------------------------- the view model

  /** What a listener is handed: the transcript part of the state. */
  datatype State = State(agent: Option<string>, transcript: Text, generation: nat, offset: nat)

  function Shown(vm: Vm): State {
    State(vm.selected, vm.transcript, vm.generation, vm.offset)
  }

  class AgentsConsoleVM {
    const transcriptAccumulator: TranscriptTailAccumulator
    var selectedAgentId: Option<string>
    var transcript: Text
    var transcriptGeneration: nat
    var transcriptOffset: nat
    var transcriptSegments: seq<Segment>
    var emitted: seq<State>  // every state handed to the listeners so far

    ghost predicate Valid()
      reads this, transcriptAccumulator
    {
      transcriptAccumulator.Valid() && ConsolePolicy(transcriptAccumulator.policy)
    }

    function View(): Vm
      reads this, transcriptAccumulator
    {
      Vm(selectedAgentId, transcript, transcriptGeneration, transcriptOffset, transcriptSegments,
         transcriptAccumulator.View())
    }

    constructor (policy: Policy)
      requires ConsolePolicy(policy)
      ensures Valid() && View() == INITIAL_VM && emitted == [] && transcriptAccumulator.policy == policy
      ensures fresh(transcriptAccumulator)
    {
      transcriptAccumulator := new TranscriptTailAccumulator(policy);
      selectedAgentId, transcript, transcriptGeneration, transcriptOffset := None, [], 0, 0;
      transcriptSegments, emitted := [], [];
    }

    method Emit()
      modifies this`emitted
      ensures emitted == old(emitted) + [Shown(View())]
    {
      emitted := emitted + [State(selectedAgentId, transcript, transcriptGeneration, transcriptOffset)];
    }

    /** A roster update re-emits the state with its transcript untouched. */
    method Update()
      requires Valid()
      modifies this`emitted
      ensures Valid() && View() == old(View()) && emitted == old(emitted) + [Shown(View())]
    {
      Emit();
    }

    method SelectAgent(agentId: Option<string>)
      requires Valid()
      modifies this, transcriptAccumulator
      ensures Valid() && View() == AfterSelect(old(View()), agentId)
      ensures emitted == old(emitted) + [Shown(View())]
    {
      var sameAgent := selectedAgentId == agentId;
      selectedAgentId := agentId;
      transcript := [];
      transcriptGeneration := if sameAgent then transcriptGeneration else 0;
      transcriptOffset := 0;
      transcriptSegments := [];
      transcriptAccumulator.Clear(0);
      Emit();
    }

    method ClearSelectedTranscript()
      requires Valid()
      modifies this, transcriptAccumulator
      ensures Valid() && View() == AfterClear(old(View()))
      ensures emitted == if old(selectedAgentId).None? then old(emitted) else old(emitted) + [Shown(View())]
    {
      if selectedAgentId.None? {
        return;
      }
      transcriptSegments := [];
      transcriptAccumulator.Clear(0);
      transcript := [];
      transcriptOffset := 0;
      Emit();
    }

    method SetTranscriptTail(tail: Delivery)
      requires Valid()
      modifies this, transcriptAccumulator
      ensures Valid()
      ensures var out := AfterTail(old(View()), tail, transcriptAccumulator.policy);
              && View() == out.vm
              && emitted == if out.emits then old(emitted) + [Shown(View())] else old(emitted)
    {
      if Some(tail.agent) != selectedAgentId {
        return;
      }
      var generation := tail.generation.GetOr(0);
      if generation < transcriptGeneration {
        return;
      }
      if generation > transcriptGeneration {
        transcriptSegments := [];
        transcriptAccumulator.Clear(0);
      }
      transcriptGeneration := generation;
      ApplyTranscriptSegment(tail.offset, tail.text);
    }

    method AppendChunk(chunk: Delivery) returns (result: ApplyResult)
      requires Valid()
      modifies this, transcriptAccumulator
      ensures Valid()
      ensures var out := AfterChunk(old(View()), chunk, transcriptAccumulator.policy);
              && View() == out.vm && result == out.result
              && emitted == if out.emits then old(emitted) + [Shown(View())] else old(emitted)
    {
      hide ApplySegment, ResetPrefix, Retain;
      if Some(chunk.agent) != selectedAgentId {
        return Ignored;
      }
      var generation := chunk.generation.GetOr(0);
      if generation < transcriptGeneration {
        return Ignored;
      }
      if generation > transcriptGeneration {
        var hadSegments := |transcriptSegments| > 0;
        transcriptSegments := [];
        transcriptAccumulator.Clear(0);
        transcriptGeneration := generation;
        if !hadSegments && chunk.offset > 0 {
          return Gap;
        }
      }
      var offset, text := chunk.offset, chunk.text;
      if |text| == 0 {
        return Ignored;
      }
      if |transcriptSegments| > 0 {
        var rangeStart := transcriptSegments[0].offset;
        var rangeEnd := transcriptSegments[|transcriptSegments| - 1].End();
        if offset == 0 && rangeStart > 0 {
          transcriptSegments := [];
          transcriptAccumulator.Clear(0);
          ApplyTranscriptSegment(offset, text);
          return Applied;
        }
        var chunkEnd := offset + |text|;
        if offset < rangeStart {
          if chunkEnd <= rangeEnd {
            return Ignored;
          }
          var drop := rangeStart - offset;
          offset := rangeStart;
          text := if drop <= |text| then text[drop..] else [];
        }
        if offset > rangeEnd {
          return Gap;
        }
      }
      var resetPrefix := ResetPrefixForLiveChunk(offset, text);
      if resetPrefix.Some? {
        var prefix := resetPrefix.value;
        transcriptSegments := if |prefix| > 0 then [Segment(0, prefix)] else [];
        if |prefix| > 0 {
          transcriptAccumulator.Replace(prefix, 0);
        } else {
          transcriptAccumulator.Clear(0);
        }
      }
      ApplyTranscriptSegment(offset, text);
      return Applied;
    }

    /** The scan over the segments: the first contradiction decides; otherwise whether anything overlapped. */
    method ResetPrefixForLiveChunk(offset: nat, text: Text) returns (prefix: Option<Text>)
      ensures prefix == ResetPrefix(transcriptSegments, offset, text)
    {
      hide Clashes, Overlaps, PrefixBefore;
      if |text| == 0 || |transcriptSegments| == 0 {
        return None;
      }
      var overlapped := false;
      for i := 0 to |transcriptSegments|
        invariant Compare(transcriptSegments, offset, text)
                  == CompareFrom(transcriptSegments[i..], overlapped, offset, text)
      {
        assert transcriptSegments[i..][1..] == transcriptSegments[i + 1..];
        if Clashes(transcriptSegments[i], offset, text) {
          var before := ContiguousPrefixBefore(offset);
          return Some(before);
        }
        overlapped := overlapped || Overlaps(transcriptSegments[i], offset, text);
      }
      if !overlapped && offset == 0 {
        return Some([]);
      }
      return None;
    }

    method ContiguousPrefixBefore(offset: nat) returns (result: Text)
      ensures result == PrefixBefore(transcriptSegments, offset)
    {
      if offset == 0 {
        return [];
      }
      var cursor: nat, prefix: Text, i := 0, [], 0;
      while i < |transcriptSegments|
        invariant 0 <= i <= |transcriptSegments|
        invariant PrefixBefore(transcriptSegments, offset)
                  == PrefixFrom(transcriptSegments[i..], cursor, prefix, offset)
      {
        var s := transcriptSegments[i];
        if s.offset > cursor {
          break;
        }
        var from, to := Max(0, cursor - s.offset), Min(|s.text|, offset - s.offset);
        if to > from {
          prefix := prefix + s.text[from..to];
          cursor := s.offset + to;
        }
        if cursor >= offset {
          return prefix[..Min(offset, |prefix|)];
        }
        assert transcriptSegments[i..][1..] == transcriptSegments[i + 1..];
        i := i + 1;
      }
      return [];
    }

    method ApplyTranscriptSegment(offset: nat, text: Text)
      requires Valid()
      modifies this, transcriptAccumulator
      ensures Valid() && View() == ApplySegment(old(View()), offset, text, transcriptAccumulator.policy)
      ensures emitted == if |text| == 0 then old(emitted) else old(emitted) + [Shown(View())]
    {
      hide Retain, MergeAll, SortByOffset, NonEmpty, NewestRun, Join;
      if |text| == 0 {
        return;
      }
      if |transcriptSegments| == 1 && offset == transcriptSegments[0].End()
         && transcriptAccumulator.nextOffset == offset {
        transcriptAccumulator.Append(text);
        ApplyAccumulatorSnapshot();
        return;
      }
      var segments := SortByOffset(NonEmpty(transcriptSegments + [Segment(offset, text)]));
      var merged := MergeSegments(segments);
      var contiguous := NewestContiguousSuffix(merged);
      var start := if |contiguous| > 0 then contiguous[0].offset else offset;
      transcriptAccumulator.Replace(Join(contiguous), start);
      ApplyAccumulatorSnapshot();
    }

    static method MergeSegments(segments: seq<Segment>) returns (merged: seq<Segment>)
      ensures merged == MergeAll(segments)
    {
      merged := [];
      for i := 0 to |segments|
        invariant merged == MergeAll(segments[..i])
      {
        var s := segments[i];
        assert segments[..i + 1][..i] == segments[..i];
        if |merged| == 0 {
          merged := [s];
        } else {
          var last := merged[|merged| - 1];
          var lastEnd := last.End();
          if s.offset <= lastEnd {
            var overlap := lastEnd - s.offset;
            if overlap < |s.text| {
              merged := merged[|merged| - 1 := last.(text := last.text + s.text[overlap..])];
            }
          } else {
            merged := merged + [s];
          }
        }
      }
      assert segments[..|segments|] == segments;
    }

    static method NewestContiguousSuffix(segments: seq<Segment>) returns (suffix: seq<Segment>)
      ensures suffix == NewestRun(segments)
    {
      if |segments| == 0 {
        return [];
      }
      var i := |segments| - 1;
      suffix := [segments[i]];
      while i > 0 && segments[i - 1].End() == segments[i].offset
        invariant 0 <= i < |segments| && suffix == segments[i..]
        invariant RunFrom(segments, |segments| - 1) == RunFrom(segments, i)
      {
        i := i - 1;
        suffix := [segments[i]] + suffix;
      }
    }

    method ApplyAccumulatorSnapshot()
      modifies this
      ensures View() == ApplySnapshot(old(View()), old(transcriptAccumulator.View()))
      ensures emitted == old(emitted) + [Shown(View())]
    {
      var tail, offset := transcriptAccumulator.tail, transcriptAccumulator.offset;
      transcriptSegments := if |tail| > 0 then [Segment(offset, tail)] else [];
      transcript := tail;
      transcriptOffset := offset;
      Emit();
    }
  }
}
