/**
 * What deliveries have to achieve: every true tail and chunk that is not out of date moves the frontier to where it
 * must be, a reported gap is healed by a backfill, and an ordered stream is shown to its end.
 */
module TranscriptProgress {
  import opened Basics
  import opened TranscriptTail
  import opened AgentsConsole
  import opened TerminalFeed
  import opened RenderedView

  /** Where what is held begins and ends. */
  function Start(vm: Vm): nat { if vm.segments == [] then 0 else vm.segments[0].offset }

  function Frontier(vm: Vm): nat { if vm.segments == [] then 0 else vm.segments[0].End() }

  /** Text of the delivery's own generation is held. */
  predicate HoldsFor(vm: Vm, d: Delivery) { d.Generation() == vm.generation && vm.segments != [] }

  /** The delivery is for the selected agent and not of an older generation. */
  predicate Timely(vm: Vm, d: Delivery) { vm.selected == Some(d.agent) && d.Generation() >= vm.generation }

  lemma FineShows(vm: Vm, s: Streams, p: Policy)
    requires VmFine(vm, s, p)
    ensures Coherent(AsHeld(vm), s, p) && AsHeld(vm).End() == Frontier(vm) && AsHeld(vm).offset == Start(vm)
    ensures AsHeld(vm).transcript == [] <==> vm.segments == []
  {
  }

  // ---------------------------------------------------------------- tails

  /**
   * A true tail that is not out of date is applied and shown, whatever was held: the frontier becomes the tail's end,
   * or stays where it was if text of that generation was held beyond it. What the tail and the held text cover
   * together is held afterwards, as long as the bound allows. A tail that is out of date changes nothing.
   */
  lemma TailMovesFrontier(vm: Vm, d: Delivery, s: Streams, p: Policy)
    requires ConsolePolicy(p) && VmFine(vm, s, p) && TrueDelivery(s, d)
    ensures var out := AfterTail(vm, d, p);
            && (!Timely(vm, d) ==> out == Outcome(vm, Ignored, false))
            && (Timely(vm, d) && d.text == [] ==>
                  && !out.emits && out.vm.generation == d.Generation() && out.vm.transcript == vm.transcript
                  && out.vm.segments == (if d.Generation() == vm.generation then vm.segments else []))
            && (Timely(vm, d) && d.text != [] ==>
                  && out.emits && out.vm.selected == vm.selected && out.vm.generation == d.Generation()
                  && out.vm == AsHeld(out.vm) && out.vm.segments != []
                  && Frontier(out.vm) == (if HoldsFor(vm, d) then Max(Frontier(vm), d.End()) else d.End())
                  && (!HoldsFor(vm, d) && |d.text| <= p.hardMax ==> Start(out.vm) == d.offset)
                  && (HoldsFor(vm, d) && d.offset <= Frontier(vm) && Start(vm) <= d.End()
                      && Max(Frontier(vm), d.End()) - Min(Start(vm), d.offset) <= p.hardMax ==>
                        Start(out.vm) == Min(Start(vm), d.offset)))
  {
    hide CutPoint, WellFormedTable, ApplySegment;
    if Timely(vm, d) {
      var base := if d.Generation() > vm.generation then vm.Cleared().(generation := d.Generation()) else vm;
      FineShows(vm, s, p);
      if d.text == [] {
        EmptySegment(base, d.offset, p);
      } else {
        ApplySegmentIgnoresDisplay(base, AsHeld(base), d.offset, d.text, p);
        ApplySegmentKeepsCoherent(AsHeld(base), s, p, d.offset, d.text);
        UnionIsHeld(AsHeld(base), s, p, d.offset, d.text);
      }
    }
  }

  /** Where the slice begins that is held after applying a segment, as long as nothing has to be cut. */
  lemma UnionIsHeld(vm: Vm, s: Streams, p: Policy, offset: nat, text: Text)
    requires ConsolePolicy(p) && Coherent(vm, s, p) && vm.selected.Some? && |text| > 0
    requires IsSlice(s, vm.selected.value, vm.generation, offset, text)
    ensures var vm' := ApplySegment(vm, offset, text, p);
            && (vm.transcript == [] && |text| <= p.hardMax ==> vm'.offset == offset)
            && (vm.transcript != [] && offset <= vm.End() && vm.offset <= offset + |text|
                && Max(vm.End(), offset + |text|) - Min(vm.offset, offset) <= p.hardMax ==>
                  vm'.offset == Min(vm.offset, offset))
  {
    hide CutPoint, LastBoundary, WellFormedTable, MergeAll, SortByOffset, NonEmpty, NewestRun;
    var agent, g := vm.selected.value, vm.generation;
    if vm.transcript == [] {
      assert vm.segments + [Segment(offset, text)] == [Segment(offset, text)];
      MergeOne(Segment(offset, text));
      RetainIsSlice(s, agent, g, offset, text, p);
    } else if offset == vm.End() {
      SliceConcat(s, agent, g, vm.offset, vm.transcript, text);
      RetainIsSlice(s, agent, g, vm.offset, vm.transcript + text, p);
    } else {
      var held, incoming := vm.segments[0], Segment(offset, text);
      MergeTwo(held, incoming);
      MergedIsSlice(s, agent, g, held, incoming);
      var m := Merged(held, incoming);
      assert Join([m]) == m.text + Join([m][1..]) == m.text;
      RetainIsSlice(s, agent, g, m.offset, m.text, p);
    }
  }

  // ---------------------------------------------------------------- chunks

  /** The chunk starts beyond what it could be joined to. */
  predicate LeavesGap(vm: Vm, d: Delivery) {
    if d.Generation() > vm.generation then vm.segments == [] && d.offset > 0
    else d.text != [] && vm.segments != [] && d.offset > Frontier(vm)
  }

  /** The chunk has text, and does not begin before what is held without bringing anything beyond it. */
  predicate Adds(vm: Vm, d: Delivery) {
    d.text != [] && !(HoldsFor(vm, d) && 0 < d.offset < Start(vm) && d.End() <= Frontier(vm))
  }

  /** What is held is shown, and the frontier is where an applied chunk puts it. */
  predicate Moved(vm: Vm, vm': Vm, d: Delivery) {
    && vm' == AsHeld(vm') && vm'.segments != []
    && Frontier(vm') == (if HoldsFor(vm, d) && !(d.offset == 0 && Start(vm) > 0) then Max(Frontier(vm), d.End())
                         else d.End())
  }

  /** Nothing shown changes; an older generation's text is no longer held. */
  predicate HoldsStill(vm: Vm, vm': Vm, d: Delivery) {
    && vm'.transcript == vm.transcript
    && vm'.segments == (if d.Generation() == vm.generation then vm.segments else [])
  }

  /**
   * A true chunk that is not out of date is a gap exactly when it starts beyond the frontier, or begins a generation
   * in the middle with nothing held; otherwise it is applied and shown unless it adds nothing, and the frontier
   * becomes its end, or stays where it was if text of that generation was held beyond it. A chunk from 0 restarts
   * what is held from further on.
   */
  lemma ChunkMovesFrontier(vm: Vm, d: Delivery, s: Streams, p: Policy)
    requires ConsolePolicy(p) && VmFine(vm, s, p) && TrueDelivery(s, d)
    ensures var out := AfterChunk(vm, d, p);
            if !Timely(vm, d) then out == Outcome(vm, Ignored, false)
            else
              && out.vm.selected == vm.selected && out.vm.generation == d.Generation()
              && (out.result == Gap <==> LeavesGap(vm, d))
              && (out.result == Applied <==> !LeavesGap(vm, d) && Adds(vm, d))
              && (out.emits <==> out.result == Applied)
              && if out.result == Applied then Moved(vm, out.vm, d) else HoldsStill(vm, out.vm, d)
  {
    hide CutPoint, WellFormedTable, AppendInRange;
    if Timely(vm, d) {
      var base := if d.Generation() > vm.generation then vm.Cleared().(generation := d.Generation()) else vm;
      FineShows(vm, s, p);
      if d.text != [] {
        AppendIgnoresDisplay(base, d.offset, d.text, p);
        TrueChunk(AsHeld(base), s, p, d.offset, d.text);
        AppendEmitsAlike(base, d.offset, d.text, p);
        AppendResultsAlike(base, d.offset, d.text, p);
      }
    }
  }

  lemma AppendResultsAlike(vm: Vm, offset: nat, text: Text, p: Policy)
    requires p.softMax <= p.hardMax && |text| > 0
    ensures var out, tracked := AppendInRange(vm, offset, text, p), AppendInRange(AsHeld(vm), offset, text, p);
            out.result == tracked.result && (out.result != Applied ==> out.vm == vm)
  {
    hide ApplyLive, ApplySegment;
  }

  /**
   * An applied chunk loses nothing that was held before, unless it restarts or the bound forces a cut: what is held
   * then begins where it did.
   */
  lemma ChunkKeepsStart(vm: Vm, d: Delivery, s: Streams, p: Policy)
    requires ConsolePolicy(p) && VmFine(vm, s, p) && TrueDelivery(s, d)
    requires Timely(vm, d) && AfterChunk(vm, d, p).result == Applied
    ensures var vm' := AfterChunk(vm, d, p).vm;
            if HoldsFor(vm, d) && !(d.offset == 0 && Start(vm) > 0)
            then Frontier(vm') - Start(vm) <= p.hardMax ==> Start(vm') == Start(vm)
            else |d.text| <= p.hardMax ==> Start(vm') == d.offset
  {
    hide CutPoint, WellFormedTable, AppendInRange, ApplySegment;
    ChunkMovesFrontier(vm, d, s, p);
    var base := if d.Generation() > vm.generation then vm.Cleared().(generation := d.Generation()) else vm;
    FineShows(vm, s, p);
    AppendEmitsAlike(base, d.offset, d.text, p);
    AppendResultsAlike(base, d.offset, d.text, p);
    AppendKeepsStart(AsHeld(base), s, p, d.offset, d.text);
  }

  lemma AppendKeepsStart(vm: Vm, s: Streams, p: Policy, offset: nat, text: Text)
    requires ConsolePolicy(p) && Coherent(vm, s, p) && vm.selected.Some? && |text| > 0
    requires IsSlice(s, vm.selected.value, vm.generation, offset, text)
    requires AppendInRange(vm, offset, text, p).result == Applied
    ensures var vm' := AppendInRange(vm, offset, text, p).vm;
            if vm.transcript != [] && !(offset == 0 && vm.offset > 0)
            then Max(vm.End(), offset + |text|) - vm.offset <= p.hardMax ==> vm'.offset == vm.offset
            else |text| <= p.hardMax ==> vm'.offset == offset
  {
    hide CutPoint, WellFormedTable, ApplySegment, Compare;
    if vm.transcript == [] {
      TrueChunkNeverRestarts(vm, s, p, offset, text);
      UnionIsHeld(vm, s, p, offset, text);
    } else if offset == 0 && vm.offset > 0 {
      var cleared := vm.Cleared().(transcript := [], offset := 0);
      ApplySegmentIgnoresDisplay(vm.Cleared(), cleared, offset, text, p);
      UnionIsHeld(cleared, s, p, offset, text);
    } else {
      var drop := if offset < vm.offset then vm.offset - offset else 0;
      SliceOfSlice(s, vm.selected.value, vm.generation, offset, text, drop, |text|);
      assert text[drop..] == text[drop..|text|];
      TrueChunkNeverRestarts(vm, s, p, offset + drop, text[drop..]);
      UnionIsHeld(vm, s, p, offset + drop, text[drop..]);
    }
  }

  // ---------------------------------------------------------------- selecting and generations

  /**
   * Selecting, also the agent already selected, shows it with nothing held; only another agent begins at generation
   * 0.
   */
  lemma SelectStartsOver(vm: Vm, id: Option<string>, p: Policy)
    requires p.softMax <= p.hardMax
    ensures var (vm', emits) := VmStep(vm, Select(id), p);
            && emits && vm'.selected == id && vm'.transcript == [] && vm'.offset == 0 && vm'.segments == []
            && vm'.generation == (if id == vm.selected then vm.generation else 0)
  {
  }

  /** No input selects another agent. */
  predicate StaysSelected(vm: Vm, inputs: seq<Input>) {
    forall i <- inputs :: i.Select? ==> i.id == vm.selected
  }

  /**
   * While an agent stays selected, selected again or cleared in between as may be, its generation never falls; so a
   * delivery that was out of date once is ignored ever after.
   */
  lemma {:induction false} GenerationNeverFalls(vm: Vm, inputs: seq<Input>, d: Delivery, p: Policy)
    requires p.softMax <= p.hardMax && StaysSelected(vm, inputs)
    ensures RunVm(vm, inputs, p).selected == vm.selected && RunVm(vm, inputs, p).generation >= vm.generation
    ensures d.Generation() < vm.generation ==>
              && VmStep(RunVm(vm, inputs, p), Tail(d), p) == (RunVm(vm, inputs, p), false)
              && VmStep(RunVm(vm, inputs, p), Chunk(d), p) == (RunVm(vm, inputs, p), false)
              && AfterChunk(RunVm(vm, inputs, p), d, p).result == Ignored
    decreases |inputs|
  {
    hide VmStep, AfterChunk, AfterTail;
    if inputs == [] {
      if d.Generation() < vm.generation { OutOfDate(vm, d, p); }
    } else {
      assert inputs[0] in inputs && forall i <- inputs[1..] :: i in inputs;
      StepKeepsGeneration(vm, inputs[0], p);
      GenerationNeverFalls(VmStep(vm, inputs[0], p).0, inputs[1..], d, p);
    }
  }

  lemma OutOfDate(vm: Vm, d: Delivery, p: Policy)
    requires p.softMax <= p.hardMax && d.Generation() < vm.generation
    ensures VmStep(vm, Tail(d), p) == (vm, false) && VmStep(vm, Chunk(d), p) == (vm, false)
    ensures AfterChunk(vm, d, p).result == Ignored
  {
  }

  lemma StepKeepsGeneration(vm: Vm, input: Input, p: Policy)
    requires p.softMax <= p.hardMax && (input.Select? ==> input.id == vm.selected)
    ensures var vm' := VmStep(vm, input, p).0; vm'.selected == vm.selected && vm'.generation >= vm.generation
  {
    hide CutPoint, Compare, MergeAll, SortByOffset, NonEmpty, NewestRun;
  }

  // ---------------------------------------------------------------- gaps are healed

  lemma {:induction false} RunStaysFine(vm: Vm, inputs: seq<Input>, s: Streams, p: Policy)
    requires ConsolePolicy(p) && VmFine(vm, s, p) && forall i <- inputs :: TrueInput(i, s)
    ensures VmFine(RunVm(vm, inputs, p), s, p)
    decreases |inputs|
  {
    hide VmFine, VmStep;
    if inputs != [] {
      assert inputs[0] in inputs && forall i <- inputs[1..] :: i in inputs;
      StaleIff(vm, inputs[0], s, p);
      RunStaysFine(VmStep(vm, inputs[0], p).0, inputs[1..], s, p);
    }
  }

  lemma InitialIsFine(s: Streams, p: Policy)
    requires ConsolePolicy(p)
    ensures VmFine(INITIAL_VM, s, p)
  {
  }

  /**
   * After any run of true inputs, let a chunk be refused as a gap. Whatever true inputs come before the backfill that
   * was asked for, if it is still timely and reaches the chunk's end, it is shown, the frontier is at or beyond that
   * end, and the chunk delivered again is no gap.
   */
  lemma GapIsHealed(before: seq<Input>, chunk: Delivery, between: seq<Input>, tail: Delivery, s: Streams, p: Policy)
    requires ConsolePolicy(p) && TrueDelivery(s, chunk) && TrueDelivery(s, tail)
    requires (forall i <- before :: TrueInput(i, s)) && (forall i <- between :: TrueInput(i, s))
    requires var refused := AfterChunk(RunVm(INITIAL_VM, before, p), chunk, p);
             && refused.result == Gap
             && Timely(RunVm(refused.vm, between, p), tail)
    requires tail.agent == chunk.agent && tail.Generation() == chunk.Generation()
    requires tail.text != [] && tail.End() >= chunk.End()
    ensures var vm := RunVm(AfterChunk(RunVm(INITIAL_VM, before, p), chunk, p).vm, between, p);
            var healed := AfterTail(vm, tail, p);
            && healed.emits && healed.vm == AsHeld(healed.vm) && Frontier(healed.vm) >= chunk.End()
            && AfterChunk(healed.vm, chunk, p).result != Gap
            && Frontier(AfterChunk(healed.vm, chunk, p).vm) >= chunk.End()
  {
    hide VmFine, AfterTail, AfterChunk, RunVm;
    InitialIsFine(s, p);
    RunStaysFine(INITIAL_VM, before, s, p);
    var vm0 := RunVm(INITIAL_VM, before, p);
    ChunkStaysFine(vm0, chunk, s, p);
    var vm1 := AfterChunk(vm0, chunk, p).vm;
    RunStaysFine(vm1, between, s, p);
    var vm := RunVm(vm1, between, p);
    TailMovesFrontier(vm, tail, s, p);
    TailStaysFine(vm, tail, s, p);
    ChunkMovesFrontier(AfterTail(vm, tail, p).vm, chunk, s, p);
  }

  lemma ChunkStaysFine(vm: Vm, d: Delivery, s: Streams, p: Policy)
    requires ConsolePolicy(p) && VmFine(vm, s, p) && TrueDelivery(s, d)
    ensures VmFine(AfterChunk(vm, d, p).vm, s, p)
  {
    hide AfterChunk, AfterTail, VmFine;
    StaleIff(vm, Chunk(d), s, p);
  }

  lemma TailStaysFine(vm: Vm, d: Delivery, s: Streams, p: Policy)
    requires ConsolePolicy(p) && VmFine(vm, s, p) && TrueDelivery(s, d)
    ensures VmFine(AfterTail(vm, d, p).vm, s, p)
  {
    hide AfterChunk, AfterTail, VmFine;
    StaleIff(vm, Tail(d), s, p);
  }

  // ---------------------------------------------------------------- an ordered stream is shown

  /** The pieces of a stream, one after the other, each with its position. */
  function Pieces(s: Streams, agent: string, generation: nat, from: nat, lengths: seq<nat>): seq<Input>
    decreases |lengths|
  {
    if lengths == [] then []
    else
      [Chunk(Delivery(agent, Some(generation), from, Slice(s, agent, generation, from, from + lengths[0])))]
      + Pieces(s, agent, generation, from + lengths[0], lengths[1..])
  }

  function Total(lengths: seq<nat>): nat { if lengths == [] then 0 else lengths[0] + Total(lengths[1..]) }

  /** Pieces that go on at the frontier are all applied: the frontier moves by their total length. */
  lemma {:induction false} PiecesAdvance(vm: Vm, agent: string, lengths: seq<nat>, s: Streams, p: Policy)
    requires ConsolePolicy(p) && VmFine(vm, s, p) && vm.selected == Some(agent) && vm == AsHeld(vm)
    requires forall n <- lengths :: n > 0
    ensures var vm' := RunVm(vm, Pieces(s, agent, vm.generation, Frontier(vm), lengths), p);
            && VmFine(vm', s, p) && vm'.selected == Some(agent) && vm'.generation == vm.generation
            && vm' == AsHeld(vm') && Frontier(vm') == Frontier(vm) + Total(lengths)
    decreases |lengths|
  {
    hide VmFine, AfterChunk;
    if lengths != [] {
      var from, n := Frontier(vm), lengths[0];
      var d := Delivery(agent, Some(vm.generation), from, Slice(s, agent, vm.generation, from, from + n));
      var rest := Pieces(s, agent, vm.generation, from + n, lengths[1..]);
      assert ([Chunk(d)] + rest)[0] == Chunk(d) && ([Chunk(d)] + rest)[1..] == rest;
      assert n in lengths && forall m <- lengths[1..] :: m in lengths;
      HeldReaches(vm, s, p);
      ChunkMovesFrontier(vm, d, s, p);
      ChunkStaysFine(vm, d, s, p);
      PiecesAdvance(AfterChunk(vm, d, p).vm, agent, lengths[1..], s, p);
    }
  }

  lemma HeldReaches(vm: Vm, s: Streams, p: Policy)
    requires VmFine(vm, s, p)
    ensures Start(vm) <= Frontier(vm) && (vm.segments != [] ==> Start(vm) < Frontier(vm))
  {
  }

  /** From the selection of another agent on, the pieces of its stream from the start are shown to their end. */
  lemma StreamIsShown(before: seq<Input>, agent: string, lengths: seq<nat>, s: Streams, p: Policy)
    requires ConsolePolicy(p) && (forall i <- before :: TrueInput(i, s)) && (forall n <- lengths :: n > 0)
    requires RunVm(INITIAL_VM, before, p).selected != Some(agent)
    ensures var selected := VmStep(RunVm(INITIAL_VM, before, p), Select(Some(agent)), p).0;
            var vm := RunVm(selected, Pieces(s, agent, 0, 0, lengths), p);
            && vm.selected == Some(agent) && vm.generation == 0 && vm.End() == Total(lengths)
            && IsSlice(s, agent, 0, vm.offset, vm.transcript)
            && (vm.transcript == [] <==> lengths == [])
  {
    hide VmStep, RunVm;
    InitialIsFine(s, p);
    RunStaysFine(INITIAL_VM, before, s, p);
    var vm0 := RunVm(INITIAL_VM, before, p);
    SelectStartsOver(vm0, Some(agent), p);
    StaleIff(vm0, Select(Some(agent)), s, p);
    var vm1 := VmStep(vm0, Select(Some(agent)), p).0;
    PiecesAdvance(vm1, agent, lengths, s, p);
    assert lengths != [] ==> lengths[0] in lengths && Total(lengths) > 0;
    FineShows(RunVm(vm1, Pieces(s, agent, 0, 0, lengths), p), s, p);
  }
}
