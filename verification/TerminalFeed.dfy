/**
 * Feeding the terminal: each emitted state becomes a reset, an append or nothing, so that what has been written since
 * the last reset is always one contiguous slice of the current generation's stream.
 */
module TerminalFeed {
  import opened Basics
  import opened TranscriptTail
  import opened AgentsConsole

  datatype TermFeed = Reset(data: Text) | Append(data: Text) | Noop

  /** The generation and offset fields are absent only in the legacy call shape. */
  datatype FeedInput = FeedInput(selectedAgentId: Option<string>, lastAgentId: Option<string>,
                                 transcript: Text, generation: Option<nat>, offset: Option<nat>,
                                 lastTranscript: Text, lastGeneration: Option<nat>, lastOffset: Option<nat>)

  function Delta(delta: Text): TermFeed {
    if |delta| > 0 then Append(delta) else Noop
  }

  function FeedAtOffsets(transcript: Text, offset: nat, lastTranscript: Text, lastOffset: nat): TermFeed {
    var end, lastEnd := offset + |transcript|, lastOffset + |lastTranscript|;
    if offset < lastOffset || offset > lastEnd then Reset(transcript)
    else if offset == lastOffset then
      if |transcript| < |lastTranscript| || !(lastTranscript <= transcript) then Reset(transcript)
      else Delta(transcript[|lastTranscript|..])
    else if offset == lastEnd then Delta(transcript)
    else
      var overlap := Min(end, lastEnd) - offset;
      if overlap > 0 && lastTranscript[offset - lastOffset..offset - lastOffset + overlap] != transcript[..overlap]
      then Reset(transcript)
      else if end <= lastEnd then Noop
      else Delta(transcript[lastEnd - offset..])
  }

  function DecideTermFeed(input: FeedInput): TermFeed {
    if input.selectedAgentId != input.lastAgentId then Reset(input.transcript)
    else if input.generation.Some? && input.lastGeneration.Some? && input.generation != input.lastGeneration
    then Reset(input.transcript)
    else if input.offset.Some? && input.lastOffset.Some?
    then FeedAtOffsets(input.transcript, input.offset.value, input.lastTranscript, input.lastOffset.value)
    else if input.lastTranscript <= input.transcript then Delta(input.transcript[|input.lastTranscript|..])
    else Reset(input.transcript)
  }

  // ---------------------------------------------------------------- the terminal

  /**
   * What has been written since the last reset. `base` is the stream position of its first unit: bookkeeping of the
   * model, which no decision reads.
   */
  datatype Screen = Screen(base: nat, text: Text)

  function ApplyTermFeed(screen: Screen, feed: TermFeed, offset: nat): Screen {
    match feed
    case Reset(data) => Screen(offset, data)
    case Append(data) => Screen(screen.base, screen.text + data)
    case Noop => screen
  }

  /** The terminal together with the state it was last fed. */
  datatype Terminal = Terminal(screen: Screen, last: State)

  const INITIAL_TERMINAL := Terminal(Screen(0, []), State(None, [], 0, 0))

  function FeedOf(last: State, state: State): FeedInput {
    FeedInput(state.agent, last.agent, state.transcript, Some(state.generation), Some(state.offset),
              last.transcript, Some(last.generation), Some(last.offset))
  }

  /** A state without a selected agent is not rendered. */
  function Render(t: Terminal, state: State): Terminal {
    if state.agent.None? then t
    else Terminal(ApplyTermFeed(t.screen, DecideTermFeed(FeedOf(t.last, state)), state.offset), state)
  }

  /**
   * The terminal holds one contiguous slice of the stream of the last fed state, ending exactly where that state
   * ends.
   */
  ghost predicate Synced(t: Terminal, s: Streams) {
    && t.screen.base <= t.last.offset
    && t.screen.base + |t.screen.text| == t.last.offset + |t.last.transcript|
    && match t.last.agent
       case Some(agent) => IsSlice(s, agent, t.last.generation, t.screen.base, t.screen.text)
       case None => t.screen.text == []
  }

  ghost predicate TrueState(state: State, s: Streams) {
    && state.agent.Some?
    && IsSlice(s, state.agent.value, state.generation, state.offset, state.transcript)
    && (state.transcript == [] ==> state.offset == 0)
  }

  /** The new state starts inside the last one and ends before it: the only shape the feed does not handle. */
  predicate RetreatsInside(last: State, state: State) {
    && state.agent == last.agent && state.generation == last.generation
    && last.offset < state.offset && state.offset + |state.transcript| < last.offset + |last.transcript|
  }

  lemma EqualSlicesAgree(s: Streams, agent: string, generation: nat, o: nat, a: Text, p: nat, b: Text, lo: nat, hi: nat)
    requires IsSlice(s, agent, generation, o, a) && IsSlice(s, agent, generation, p, b)
    requires Max(o, p) <= lo <= hi <= Min(o + |a|, p + |b|)
    ensures a[lo - o..hi - o] == b[lo - p..hi - p]
  {
    SliceOfSlice(s, agent, generation, o, a, lo - o, hi - o);
    SliceOfSlice(s, agent, generation, p, b, lo - p, hi - p);
  }

  /** For true slices of one stream the decision depends only on where they start and end. */
  lemma FeedOfTrueSlices(s: Streams, agent: string, generation: nat, transcript: Text, offset: nat, last: Text,
                         lastOffset: nat)
    requires IsSlice(s, agent, generation, offset, transcript) && IsSlice(s, agent, generation, lastOffset, last)
    ensures var end, lastEnd := offset + |transcript|, lastOffset + |last|;
            FeedAtOffsets(transcript, offset, last, lastOffset)
            == if offset < lastOffset || offset > lastEnd || (offset == lastOffset && end < lastEnd)
               then Reset(transcript)
               else if end <= lastEnd then Noop
               else Append(transcript[lastEnd - offset..])
  {
    var end, lastEnd := offset + |transcript|, lastOffset + |last|;
    if lastOffset <= offset <= lastEnd {
      var hi := Min(end, lastEnd);
      EqualSlicesAgree(s, agent, generation, offset, transcript, lastOffset, last, offset, hi);
      if offset == lastOffset && end >= lastEnd {
        assert last == last[0..|last|] && transcript[..|last|] == transcript[0..|last|];
      } else if offset == lastEnd {
        assert transcript[0..] == transcript;
      }
    }
  }

  /** Feeding a true state keeps the terminal in step exactly when the state does not retreat inside the last one. */
  lemma RenderKeepsSyncedIff(t: Terminal, s: Streams, state: State)
    requires Synced(t, s) && TrueState(state, s)
    requires t.last.agent.Some? ==> TrueState(t.last, s)
    ensures Synced(Render(t, state), s) <==> !RetreatsInside(t.last, state)
  {
    var last := t.last;
    if state.agent == last.agent && state.generation == last.generation {
      var agent, g := state.agent.value, state.generation;
      FeedOfTrueSlices(s, agent, g, state.transcript, state.offset, last.transcript, last.offset);
      var end, lastEnd := state.offset + |state.transcript|, last.offset + |last.transcript|;
      if last.offset <= state.offset <= lastEnd < end {
        var from := lastEnd - state.offset;
        SliceOfSlice(s, agent, g, state.offset, state.transcript, from, |state.transcript|);
        assert state.transcript[from..] == state.transcript[from..|state.transcript|];
        SliceConcat(s, agent, g, t.screen.base, t.screen.text, state.transcript[from..]);
      }
    }
  }

  // ---------------------------------------------------------------- the view model and the terminal together

  datatype Input = Select(id: Option<string>) | ClearTranscript | Update | Tail(d: Delivery) | Chunk(d: Delivery)

  datatype System = System(vm: Vm, terminal: Terminal)

  const INITIAL_SYSTEM := System(INITIAL_VM, INITIAL_TERMINAL)

  function VmStep(vm: Vm, input: Input, p: Policy): (Vm, bool)
    requires p.softMax <= p.hardMax
  {
    match input
    case Select(id) => (AfterSelect(vm, id), true)
    case ClearTranscript => (AfterClear(vm), vm.selected.Some?)
    case Update => (vm, true)
    case Tail(d) => (AfterTail(vm, d, p).vm, AfterTail(vm, d, p).emits)
    case Chunk(d) => (AfterChunk(vm, d, p).vm, AfterChunk(vm, d, p).emits)
  }

  /** One operation on the view model; the state it emits, if any, is rendered. */
  function Step(sys: System, input: Input, p: Policy): System
    requires p.softMax <= p.hardMax
  {
    var (vm, emits) := VmStep(sys.vm, input, p);
    System(vm, if emits then Render(sys.terminal, Shown(vm)) else sys.terminal)
  }

  ghost predicate TrueInput(input: Input, s: Streams) {
    input.Tail? || input.Chunk? ==> TrueDelivery(s, input.d)
  }

  /** The last fed state is what the view model shows, or is of an older generation and nothing is shown since. */
  ghost predicate Linked(sys: System) {
    sys.vm.selected.Some? ==>
      && sys.terminal.last.agent == sys.vm.selected
      && (|| sys.terminal.last == Shown(sys.vm)
          || (sys.terminal.last.generation < sys.vm.generation && sys.vm.transcript == []))
  }

  ghost predicate Good(sys: System, s: Streams, p: Policy) {
    && Coherent(sys.vm, s, p)
    && Synced(sys.terminal, s)
    && (sys.terminal.last.agent.Some? ==> TrueState(sys.terminal.last, s))
    && Linked(sys)
  }

  /** A delivery that starts a newer generation with no text, while an older generation's text is still displayed. */
  predicate StalesDisplay(vm: Vm, input: Input) {
    && (input.Tail? || input.Chunk?)
    && vm.selected == Some(input.d.agent) && input.d.Generation() > vm.generation
    && |input.d.text| == 0 && |vm.transcript| > 0
  }

  /** A chunk from position 0 so long that its retained end starts inside the held slice, yet ends before it does. */
  predicate CutsIntoHeld(vm: Vm, input: Input, p: Policy)
    requires p.softMax <= p.hardMax
  {
    && input.Chunk? && vm.selected == Some(input.d.agent) && input.d.Generation() == vm.generation
    && input.d.offset == 0 && |vm.transcript| > 0
    && 0 < vm.offset < CutPoint(input.d.text, p) && |input.d.text| < vm.End()
  }

  predicate Hazard(vm: Vm, input: Input, p: Policy)
    requires p.softMax <= p.hardMax
  {
    StalesDisplay(vm, input) || CutsIntoHeld(vm, input, p)
  }

  /** A cut into the held slice takes a chunk longer than the retention bound. */
  lemma ShortChunksAreSafe(vm: Vm, input: Input, p: Policy)
    requires ConsolePolicy(p) && (input.Chunk? ==> |input.d.text| <= p.hardMax)
    ensures !CutsIntoHeld(vm, input, p)
  {
  }

  // ---------------------------------------------------------------- one step

  /** Selecting, clearing and roster updates never disturb a good system. */
  lemma QuietStepStaysGood(sys: System, input: Input, s: Streams, p: Policy)
    requires ConsolePolicy(p) && Good(sys, s, p) && !input.Tail? && !input.Chunk?
    ensures Good(Step(sys, input, p), s, p)
  {
    hide CutPoint, WellFormedTable, DecideTermFeed, Synced;
    var vm' := VmStep(sys.vm, input, p).0;
    if vm'.selected.Some? && VmStep(sys.vm, input, p).1 {
      RenderKeepsSyncedIff(sys.terminal, s, Shown(vm'));
    }
  }

  /** The view model after clearing for a newer generation acts like one that shows nothing. */
  function Renewed(vm: Vm, generation: nat): Vm {
    vm.Cleared().(generation := generation, transcript := [], offset := 0)
  }

  lemma RenewedChunk(vm: Vm, d: Delivery, s: Streams, p: Policy)
    requires ConsolePolicy(p) && Coherent(vm, s, p) && TrueDelivery(s, d)
    requires vm.selected == Some(d.agent) && d.Generation() > vm.generation && |d.text| > 0
    ensures Coherent(Renewed(vm, d.Generation()), s, p)
    ensures var base := vm.Cleared().(generation := d.Generation());
            && AppendInRange(base, d.offset, d.text, p)
               == AppendInRange(Renewed(vm, d.Generation()), d.offset, d.text, p)
            && ApplySegment(base, d.offset, d.text, p) == ApplySegment(Renewed(vm, d.Generation()), d.offset, d.text, p)
  {
    hide CutPoint, WellFormedTable, ApplySegment;
    var base := vm.Cleared().(generation := d.Generation());
    ApplySegmentIgnoresDisplay(base, Renewed(vm, d.Generation()), d.offset, d.text, p);
  }

  /** What a true tail does to a coherent view model. */
  lemma TailOutcome(vm: Vm, d: Delivery, s: Streams, p: Policy)
    requires ConsolePolicy(p) && Coherent(vm, s, p) && TrueDelivery(s, d)
    ensures var out := AfterTail(vm, d, p);
            && (Coherent(out.vm, s, p) <==> !StalesDisplay(vm, Tail(d)))
            && out.vm.selected == vm.selected
            && (out.emits ==> vm.selected == Some(d.agent) && |out.vm.transcript| > 0
                              && out.vm.generation == d.Generation() >= vm.generation)
            && (out.emits <==> vm.selected == Some(d.agent) && d.Generation() >= vm.generation && d.text != [])
            && (out.emits ==>
                  out.vm.End() == if out.vm.generation == vm.generation && vm.transcript != []
                                  then Max(vm.End(), d.End()) else d.End())
            && (!out.emits && !StalesDisplay(vm, Tail(d)) ==>
                  out.vm == vm || (out.vm.generation > vm.generation && out.vm.transcript == []))
  {
    hide CutPoint, WellFormedTable, ApplySegment;
    if vm.selected == Some(d.agent) && d.Generation() >= vm.generation && |d.text| > 0 {
      if d.Generation() > vm.generation {
        RenewedChunk(vm, d, s, p);
        ApplySegmentKeepsCoherent(Renewed(vm, d.Generation()), s, p, d.offset, d.text);
      } else {
        ApplySegmentKeepsCoherent(vm, s, p, d.offset, d.text);
      }
    } else {
      EmptySegment(vm.Cleared().(generation := d.Generation()), d.offset, p);
      EmptySegment(vm, d.offset, p);
    }
  }

  lemma EmptySegment(vm: Vm, offset: nat, p: Policy)
    requires p.softMax <= p.hardMax
    ensures ApplySegment(vm, offset, [], p) == vm
  {
  }

  /** What a true chunk does to a coherent view model. */
  lemma ChunkOutcome(vm: Vm, d: Delivery, s: Streams, p: Policy)
    requires ConsolePolicy(p) && Coherent(vm, s, p) && TrueDelivery(s, d)
    ensures var out := AfterChunk(vm, d, p);
            && (Coherent(out.vm, s, p) <==> !StalesDisplay(vm, Chunk(d)))
            && out.vm.selected == vm.selected
            && (out.emits ==> vm.selected == Some(d.agent) && |out.vm.transcript| > 0
                              && out.vm.generation == d.Generation() >= vm.generation)
            && (out.emits && out.vm.generation == vm.generation && vm.transcript != [] ==>
                  if d.offset == 0 && vm.offset > 0
                  then out.vm.offset == CutPoint(d.text, p) && out.vm.End() == |d.text|
                  else out.vm.End() >= vm.End())
            && (!out.emits && !StalesDisplay(vm, Chunk(d)) ==>
                  out.vm == vm || (out.vm.generation > vm.generation && out.vm.transcript == []))
            && (CutsIntoHeld(vm, Chunk(d), p) ==> out.emits)
  {
    hide WellFormedTable, AppendInRange, LastBoundary;
    if vm.selected == Some(d.agent) && d.Generation() >= vm.generation && |d.text| > 0 {
      if d.Generation() > vm.generation {
        RenewedChunk(vm, d, s, p);
        TrueChunk(Renewed(vm, d.Generation()), s, p, d.offset, d.text);
      } else {
        TrueChunk(vm, s, p, d.offset, d.text);
      }
    }
  }

  /** A delivery leaves a good system good exactly when it is not one of the two hazards. */
  lemma DeliveryStaysGoodIff(sys: System, input: Input, s: Streams, p: Policy)
    requires ConsolePolicy(p) && Good(sys, s, p) && TrueInput(input, s) && (input.Tail? || input.Chunk?)
    ensures Good(Step(sys, input, p), s, p) <==> !Hazard(sys.vm, input, p)
  {
    hide CutPoint, WellFormedTable, DecideTermFeed, Synced, AfterTail, AfterChunk;
    if input.Tail? { TailOutcome(sys.vm, input.d, s, p); } else { ChunkOutcome(sys.vm, input.d, s, p); }
    var (vm', emits) := VmStep(sys.vm, input, p);
    if Coherent(vm', s, p) && emits {
      RenderKeepsSyncedIff(sys.terminal, s, Shown(vm'));
    }
  }

  /** One step keeps the terminal, the view model and the stream in agreement exactly when it is not a hazard. */
  lemma StepStaysGoodIff(sys: System, input: Input, s: Streams, p: Policy)
    requires ConsolePolicy(p) && Good(sys, s, p) && TrueInput(input, s)
    ensures Good(Step(sys, input, p), s, p) <==> !Hazard(sys.vm, input, p)
  {
    if input.Tail? || input.Chunk? {
      DeliveryStaysGoodIff(sys, input, s, p);
    } else {
      QuietStepStaysGood(sys, input, s, p);
    }
  }

  // ---------------------------------------------------------------- what is held, hazards or not

  /** The view model as it would be if it showed what its segments hold. */
  function AsHeld(vm: Vm): Vm {
    if vm.segments == [] then vm.(transcript := [], offset := 0)
    else vm.(transcript := vm.segments[0].text, offset := vm.segments[0].offset)
  }

  lemma AppendIgnoresDisplay(vm: Vm, offset: nat, text: Text, p: Policy)
    requires p.softMax <= p.hardMax && |text| > 0
    ensures var out, tracked := AppendInRange(vm, offset, text, p), AppendInRange(AsHeld(vm), offset, text, p);
            out.vm == vm || out.vm == tracked.vm
  {
    hide CutPoint, ApplySegment, Compare, PrefixBefore;
    var drop := if vm.segments != [] && offset < vm.segments[0].offset then vm.segments[0].offset - offset else 0;
    var rest := if drop <= |text| then text[drop..] else [];
    if rest == [] {
      EmptySegment(vm, offset + drop, p);
    } else {
      assert drop == 0 ==> rest == text;
      LiveIgnoresDisplay(vm, offset + drop, rest, p);
    }
    ApplySegmentIgnoresDisplay(vm.Cleared(), AsHeld(vm).Cleared(), offset, text, p);
  }

  lemma LiveIgnoresDisplay(vm: Vm, offset: nat, text: Text, p: Policy)
    requires p.softMax <= p.hardMax && |text| > 0
    ensures ApplyLive(vm, offset, text, p) == ApplyLive(AsHeld(vm), offset, text, p)
  {
    hide CutPoint, ApplySegment, Compare, PrefixBefore;
    ApplySegmentIgnoresDisplay(vm, AsHeld(vm), offset, text, p);
    var prefix := ResetPrefix(vm.segments, offset, text);
    if prefix.Some? {
      ApplySegmentIgnoresDisplay(Restart(vm, prefix.value, p), Restart(AsHeld(vm), prefix.value, p), offset, text, p);
    }
  }

  /** A step on true input keeps what is held true, also a hazardous one. */
  lemma VmStepKeepsHeld(vm: Vm, input: Input, s: Streams, p: Policy)
    requires ConsolePolicy(p) && Coherent(AsHeld(vm), s, p) && TrueInput(input, s)
    ensures Coherent(AsHeld(VmStep(vm, input, p).0), s, p)
  {
    hide CutPoint, WellFormedTable, ApplySegment, AppendInRange;
    if input.Tail? || input.Chunk? {
      var d := input.d;
      if vm.selected == Some(d.agent) && d.Generation() >= vm.generation {
        var base := if d.Generation() > vm.generation then vm.Cleared().(generation := d.Generation()) else vm;
        assert Coherent(AsHeld(base), s, p);
        if |d.text| == 0 {
          EmptySegment(base, d.offset, p);
        } else {
          AppendIgnoresDisplay(base, d.offset, d.text, p);
          TrueChunk(AsHeld(base), s, p, d.offset, d.text);
          ApplySegmentIgnoresDisplay(base, AsHeld(base), d.offset, d.text, p);
          ApplySegmentKeepsCoherent(AsHeld(base), s, p, d.offset, d.text);
        }
      }
    }
  }

  function RunVm(vm: Vm, inputs: seq<Input>, p: Policy): Vm
    requires p.softMax <= p.hardMax
    decreases |inputs|
  {
    if inputs == [] then vm else RunVm(VmStep(vm, inputs[0], p).0, inputs[1..], p)
  }

  lemma {:induction false} RunKeepsHeld(vm: Vm, inputs: seq<Input>, s: Streams, p: Policy)
    requires ConsolePolicy(p) && Coherent(AsHeld(vm), s, p) && forall i <- inputs :: TrueInput(i, s)
    ensures Coherent(AsHeld(RunVm(vm, inputs, p)), s, p)
    decreases |inputs|
  {
    hide Coherent, VmStep, AsHeld;
    if inputs != [] {
      assert inputs[0] in inputs;
      VmStepKeepsHeld(vm, inputs[0], s, p);
      RunKeepsHeld(VmStep(vm, inputs[0], p).0, inputs[1..], s, p);
    }
  }

  /**
   * After any run of true inputs, hazards included, the view model holds nothing or one segment, which is the selected
   * agent's stream of the current generation at its offset.
   */
  lemma SegmentsAreAlwaysTrue(inputs: seq<Input>, s: Streams, p: Policy)
    requires ConsolePolicy(p) && forall i <- inputs :: TrueInput(i, s)
    ensures var vm := RunVm(INITIAL_VM, inputs, p);
            vm.segments != [] ==>
              && |vm.segments| == 1 && vm.selected.Some? && 0 < |vm.segments[0].text| <= p.hardMax
              && vm.segments[0].text
                 == Slice(s, vm.selected.value, vm.generation, vm.segments[0].offset, vm.segments[0].End())
  {
    RunKeepsHeld(INITIAL_VM, inputs, s, p);
  }

  // ---------------------------------------------------------------- whole runs

  function Run(sys: System, inputs: seq<Input>, p: Policy): System
    requires p.softMax <= p.hardMax
    decreases |inputs|
  {
    if inputs == [] then sys else Run(Step(sys, inputs[0], p), inputs[1..], p)
  }

  predicate HazardFree(sys: System, inputs: seq<Input>, p: Policy)
    requires p.softMax <= p.hardMax
    decreases |inputs|
  {
    inputs == [] || (!Hazard(sys.vm, inputs[0], p) && HazardFree(Step(sys, inputs[0], p), inputs[1..], p))
  }

  ghost predicate GoodThroughout(sys: System, inputs: seq<Input>, s: Streams, p: Policy)
    requires p.softMax <= p.hardMax
    decreases |inputs|
  {
    Good(sys, s, p) && (inputs == [] || GoodThroughout(Step(sys, inputs[0], p), inputs[1..], s, p))
  }

  /** Over any run of true inputs, all stays in agreement throughout exactly when no hazard is met. */
  lemma {:induction false} GoodThroughoutIff(sys: System, inputs: seq<Input>, s: Streams, p: Policy)
    requires ConsolePolicy(p) && Good(sys, s, p) && forall i <- inputs :: TrueInput(i, s)
    ensures GoodThroughout(sys, inputs, s, p) <==> HazardFree(sys, inputs, p)
    decreases |inputs|
  {
    if inputs != [] {
      hide Good, Hazard, Step;
      assert inputs[0] in inputs;
      StepStaysGoodIff(sys, inputs[0], s, p);
      if !Hazard(sys.vm, inputs[0], p) {
        GoodThroughoutIff(Step(sys, inputs[0], p), inputs[1..], s, p);
      } else {
        NotGoodThroughout(Step(sys, inputs[0], p), inputs[1..], s, p);
      }
    }
  }

  lemma NotGoodThroughout(sys: System, inputs: seq<Input>, s: Streams, p: Policy)
    requires ConsolePolicy(p) && !Good(sys, s, p)
    ensures !GoodThroughout(sys, inputs, s, p)
  {
  }

  /**
   * For any order, duplication or loss of true chunks and backfills without a hazard, what the terminal was sent since
   * its last reset is one contiguous slice of the last rendered generation's stream, and ends where its transcript
   * ends.
   */
  lemma {:induction false} TerminalShowsTheStream(inputs: seq<Input>, s: Streams, p: Policy)
    requires ConsolePolicy(p) && (forall i <- inputs :: TrueInput(i, s)) && HazardFree(INITIAL_SYSTEM, inputs, p)
    ensures var t := Run(INITIAL_SYSTEM, inputs, p).terminal;
            t.last.agent.Some? ==>
              && t.screen.base <= t.last.offset
              && t.screen.text
                 == Slice(s, t.last.agent.value, t.last.generation, t.screen.base, t.last.offset + |t.last.transcript|)
  {
    GoodThroughoutIff(INITIAL_SYSTEM, inputs, s, p);
    GoodAtEnd(INITIAL_SYSTEM, inputs, s, p);
  }

  lemma {:induction false} GoodAtEnd(sys: System, inputs: seq<Input>, s: Streams, p: Policy)
    requires ConsolePolicy(p) && GoodThroughout(sys, inputs, s, p)
    ensures Good(Run(sys, inputs, p), s, p)
    decreases |inputs|
  {
    hide Good, Step;
    if inputs != [] {
      GoodAtEnd(Step(sys, inputs[0], p), inputs[1..], s, p);
    }
  }

  // ---------------------------------------------------------------- the hazards are real

  /**
   * An empty delivery of generation 1 over a displayed transcript of generation 0: the next roster update makes the
   * terminal rewrite the old generation's text as the new generation's.
   */
  lemma StaleDisplayIsRendered(s: Streams, p: Policy, text: Text)
    requires ConsolePolicy(p) && |text| == 1 && text == Slice(s, "a", 0, 0, 1) && s("a", 1, 0) != text[0]
    ensures var inputs := [Select(Some("a")), Tail(Delivery("a", Some(0), 0, text)),
                           Tail(Delivery("a", Some(1), 0, [])), Update];
            && (forall i <- inputs :: TrueInput(i, s))
            && var t := Run(INITIAL_SYSTEM, inputs, p).terminal;
               t.last.generation == 1 && t.screen.text == text && !IsSlice(s, "a", 1, t.screen.base, t.screen.text)
  {
    hide CutPoint, WellFormedTable, DecideTermFeed, Synced, AfterTail, AfterChunk, LastBoundary;
    var first, second := Delivery("a", Some(0), 0, text), Delivery("a", Some(1), 0, []);
    InitialIsGood(s, p);
    var s1 := Step(INITIAL_SYSTEM, Select(Some("a")), p);
    QuietStepStaysGood(INITIAL_SYSTEM, Select(Some("a")), s, p);
    FirstTailIsShown(s1.vm, first, s, p);
    var s2 := Step(s1, Tail(first), p);
    EmptyTailKeepsDisplay(s2.vm, second, p);
    var s3 := Step(s2, Tail(second), p);
    var s4 := Step(s3, Update, p);
    NewGenerationResets(s3.terminal, Shown(s3.vm));
    RunOfThree(s1, s2, s3, Select(Some("a")), Tail(first), Tail(second), p);
    RunFromOneMore(INITIAL_SYSTEM, [Select(Some("a")), Tail(first), Tail(second)], Update, p);
    assert [Select(Some("a")), Tail(first), Tail(second)] + [Update]
           == [Select(Some("a")), Tail(first), Tail(second), Update];
    assert Slice(s, "a", 1, 0, 1)[0] == s("a", 1, 0);
  }

  lemma EmptyTailKeepsDisplay(vm: Vm, d: Delivery, p: Policy)
    requires p.softMax <= p.hardMax && vm.selected == Some(d.agent) && d.Generation() > vm.generation && d.text == []
    ensures var out := AfterTail(vm, d, p);
            && !out.emits && out.vm.selected == vm.selected && out.vm.generation == d.Generation()
            && out.vm.transcript == vm.transcript && out.vm.offset == vm.offset
  {
    EmptySegment(vm.Cleared().(generation := d.Generation()), d.offset, p);
  }

  lemma NewGenerationResets(t: Terminal, state: State)
    requires state.agent.Some? && t.last.generation != state.generation
    ensures Render(t, state) == Terminal(Screen(state.offset, state.transcript), state)
  {
  }

  lemma {:induction false} RunFromOneMore(sys: System, inputs: seq<Input>, last: Input, p: Policy)
    requires p.softMax <= p.hardMax
    ensures Run(sys, inputs + [last], p) == Step(Run(sys, inputs, p), last, p)
    decreases |inputs|
  {
    hide Step;
    if inputs == [] {
      assert [] + [last] == [last] && [last][1..] == [];
      assert Run(Step(sys, last, p), [], p) == Step(sys, last, p);
    } else {
      assert (inputs + [last])[1..] == inputs[1..] + [last];
      RunFromOneMore(Step(sys, inputs[0], p), inputs[1..], last, p);
    }
  }

  /** Plain text but for one alternate-screen entry at position 3. */
  ghost predicate EntersAltScreenAt3(s: Streams) {
    forall k: nat :: s("a", 0, k) == if 3 <= k < 8 then ALT_SCREEN_ENTER[5][k - 3] else 0x61
  }

  lemma CutsAt3(s: Streams, p: Policy)
    requires ConsolePolicy(p) && p.altEnter == ALT_SCREEN_ENTER && p.hardMax >= 7 && EntersAltScreenAt3(s)
    ensures CutPoint(Slice(s, "a", 0, 0, p.hardMax + 1), p) == 3
  {
    var text := Slice(s, "a", 0, 0, p.hardMax + 1);
    var entry := ALT_SCREEN_ENTER[5];
    assert text[3..3 + |entry|] == entry;
    assert forall l <- ALT_SCREEN_ENTER :: |l| > 0 && StartsBoundary(l[0]);
    SomethingListed(text, 3, ALT_SCREEN_ENTER, entry);
    forall k: nat | 3 < k < |text|
      ensures BoundaryLength(text, k, ALT_SCREEN_ENTER) == 0
    {
      assert !StartsBoundary(text[k]);
      if BoundaryLength(text, k, ALT_SCREEN_ENTER) > 0 { BoundaryStarts(text, k); }
    }
    LastBoundaryUnique(text, ALT_SCREEN_ENTER, Max(0, |text| - p.hardMax), |text|, 3);
  }

  lemma BoundaryStarts(text: Text, k: nat)
    requires BoundaryLength(text, k, ALT_SCREEN_ENTER) > 0
    ensures k < |text| && StartsBoundary(text[k])
  {
    assert forall l <- ALT_SCREEN_ENTER :: |l| > 0 && StartsBoundary(l[0]);
    BoundaryIsListed(text, k, ALT_SCREEN_ENTER);
    var l :| l in ALT_SCREEN_ENTER && HasAt(text, k, l);
    assert text[k] == text[k..k + |l|][0];
  }

  /**
   * With the slice from 2 on held, as long as the bound allows, a chunk from 0 that is one unit longer than the bound
   * is cut at 3 and ends one unit before the held slice does: the terminal is told nothing and shows that unit too
   * much.
   */
  lemma CutIntoHeldIsMissed(s: Streams, p: Policy)
    requires ConsolePolicy(p) && p.altEnter == ALT_SCREEN_ENTER && p.hardMax >= 7 && EntersAltScreenAt3(s)
    ensures var n := p.hardMax;
            var inputs := [Select(Some("a")), Tail(Delivery("a", Some(0), 2, Slice(s, "a", 0, 2, n + 2))),
                           Chunk(Delivery("a", Some(0), 0, Slice(s, "a", 0, 0, n + 1)))];
            (forall i <- inputs :: TrueInput(i, s))
            && var sys := Run(INITIAL_SYSTEM, inputs, p);
               sys.vm.offset == 3 && sys.vm.End() == n + 1 && !Synced(sys.terminal, s)
  {
    hide CutPoint, WellFormedTable, DecideTermFeed, Synced, AfterTail, AfterChunk, BoundaryLength, LastBoundary;
    var n := p.hardMax;
    var first := Delivery("a", Some(0), 2, Slice(s, "a", 0, 2, n + 2));
    var second := Delivery("a", Some(0), 0, Slice(s, "a", 0, 0, n + 1));
    var s1 := Step(INITIAL_SYSTEM, Select(Some("a")), p);
    InitialIsGood(s, p);
    QuietStepStaysGood(INITIAL_SYSTEM, Select(Some("a")), s, p);
    var s2 := Step(s1, Tail(first), p);
    FirstTailIsShown(s1.vm, first, s, p);
    TailOutcome(s1.vm, first, s, p);
    DeliveryStaysGoodIff(s1, Tail(first), s, p);
    CutsAt3(s, p);
    var s3 := Step(s2, Chunk(second), p);
    ChunkOutcome(s2.vm, second, s, p);
    assert s2.terminal.last == Shown(s2.vm);
    RenderKeepsSyncedIff(s2.terminal, s, Shown(s3.vm));
    RunOfThree(s1, s2, s3, Select(Some("a")), Tail(first), Chunk(second), p);
  }

  lemma InitialIsGood(s: Streams, p: Policy)
    requires ConsolePolicy(p)
    ensures Good(INITIAL_SYSTEM, s, p)
  {
  }

  lemma FirstTailIsShown(vm: Vm, d: Delivery, s: Streams, p: Policy)
    requires ConsolePolicy(p) && Coherent(vm, s, p) && TrueDelivery(s, d) && vm.transcript == []
    requires vm.selected == Some(d.agent) && vm.generation == d.Generation() && 0 < |d.text| <= p.softMax
    ensures var out := AfterTail(vm, d, p);
            && out.vm.offset == d.offset && out.vm.transcript == d.text && out.emits
            && out.vm.generation == vm.generation && out.vm.selected == vm.selected
  {
    hide WellFormedTable, ApplySegment, LastBoundary;
    ApplySegmentKeepsCoherent(vm, s, p, d.offset, d.text);
  }

  lemma RunOfThree(s1: System, s2: System, s3: System, i1: Input, i2: Input, i3: Input, p: Policy)
    requires ConsolePolicy(p)
    requires s1 == Step(INITIAL_SYSTEM, i1, p) && s2 == Step(s1, i2, p) && s3 == Step(s2, i3, p)
    ensures Run(INITIAL_SYSTEM, [i1, i2, i3], p) == s3
  {
    hide Step;
    assert [i1, i2, i3][1..] == [i2, i3] && [i2, i3][1..] == [i3];
    assert Run(s3, [], p) == s3;
    assert Run(s2, [i3], p) == s3;
    assert Run(s1, [i2, i3], p) == s3;
  }
}
