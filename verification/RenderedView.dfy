/**
 * The terminal behind a view that is not always active: states emitted meanwhile are skipped, and the latest one is
 * rendered when the view is activated. What the terminal then shows is right exactly under a condition on what is
 * rendered.
 */
module RenderedView {
  import opened Basics
  import opened TranscriptTail
  import opened AgentsConsole
  import opened TerminalFeed

  /** An operation on the view model, with the view active or not; or the activation of the view. */
  datatype Moment = Apply(input: Input, active: bool) | Activate

  /** `faithful` says whether the latest emitted state showed what the view model held. */
  datatype View = View(vm: Vm, latest: State, faithful: bool, terminal: Terminal)

  const INITIAL_VIEW := View(INITIAL_VM, State(None, [], 0, 0), true, INITIAL_TERMINAL)

  /** A newer generation has begun, nothing of it is held, and the older one's text is still displayed. */
  predicate Stale(vm: Vm) { vm.segments == [] && vm.transcript != [] }

  /** The view with the operation done and its state, if any, emitted, but not yet rendered. */
  function Emitted(v: View, m: Moment, p: Policy): View
    requires p.softMax <= p.hardMax
  {
    match m
    case Activate => v
    case Apply(input, _) =>
      var (vm, emits) := VmStep(v.vm, input, p);
      if emits then v.(vm := vm, latest := Shown(vm), faithful := !Stale(vm)) else v.(vm := vm)
  }

  /** The latest state is handed to the terminal at this moment. */
  predicate Renders(v: View, m: Moment, p: Policy)
    requires p.softMax <= p.hardMax
  {
    Emitted(v, m, p).latest.agent.Some? && (m.Activate? || (m.active && VmStep(v.vm, m.input, p).1))
  }

  function After(v: View, m: Moment, p: Policy): View
    requires p.softMax <= p.hardMax
  {
    var e := Emitted(v, m, p);
    if Renders(v, m, p) then e.(terminal := Render(e.terminal, e.latest)) else e
  }

  function Run(v: View, ms: seq<Moment>, p: Policy): View
    requires p.softMax <= p.hardMax
    decreases |ms|
  {
    if ms == [] then v else Run(After(v, ms[0], p), ms[1..], p)
  }

  ghost predicate TrueMoment(m: Moment, s: Streams) { m.Apply? ==> TrueInput(m.input, s) }

  // ---------------------------------------------------------------- one render, exactly

  ghost predicate SliceState(state: State, s: Streams) {
    state.agent.Some? && IsSlice(s, state.agent.value, state.generation, state.offset, state.transcript)
  }

  /** If what is written to the terminal is right, what is appended to it is part of the stream. */
  lemma AppendedIsSlice(t: Terminal, s: Streams, delta: Text)
    requires Synced(t, s) && t.last.agent.Some?
    requires IsSlice(s, t.last.agent.value, t.last.generation, t.screen.base, t.screen.text + delta)
    ensures IsSlice(s, t.last.agent.value, t.last.generation, t.last.offset + |t.last.transcript|, delta)
  {
    var text := t.screen.text + delta;
    SliceOfSlice(s, t.last.agent.value, t.last.generation, t.screen.base, text, |t.screen.text|, |text|);
    assert text[|t.screen.text|..|text|] == delta;
  }

  /** The part of the last state from a position on, followed by what is appended. */
  lemma OverlapAndDelta(s: Streams, agent: string, g: nat, last: Text, lastOffset: nat, transcript: Text, offset: nat)
    requires IsSlice(s, agent, g, lastOffset, last)
    requires lastOffset <= offset <= lastOffset + |last| <= offset + |transcript|
    requires var kept := lastOffset + |last| - offset;
             && last[offset - lastOffset..] == transcript[..kept]
             && IsSlice(s, agent, g, lastOffset + |last|, transcript[kept..])
    ensures IsSlice(s, agent, g, offset, transcript)
  {
    var kept := lastOffset + |last| - offset;
    SliceOfSlice(s, agent, g, lastOffset, last, offset - lastOffset, |last|);
    assert last[offset - lastOffset..|last|] == last[offset - lastOffset..];
    SliceConcat(s, agent, g, offset, transcript[..kept], transcript[kept..]);
    assert transcript[..kept] + transcript[kept..] == transcript;
  }

  /** A state that leaves the terminal right is itself part of the stream of its generation. */
  lemma RightScreenMeansSlice(t: Terminal, s: Streams, state: State)
    requires Synced(t, s) && (t.last.agent.Some? ==> TrueState(t.last, s))
    requires state.agent.Some? && (state.transcript == [] ==> state.offset == 0) && Synced(Render(t, state), s)
    ensures SliceState(state, s)
  {
    var last := t.last;
    if state.agent == last.agent && state.generation == last.generation {
      var agent, g := state.agent.value, state.generation;
      var feed := FeedAtOffsets(state.transcript, state.offset, last.transcript, last.offset);
      var lastEnd := last.offset + |last.transcript|;
      if feed.Append? {
        AppendedIsSlice(t, s, feed.data);
        var kept := lastEnd - state.offset;
        assert feed.data == state.transcript[kept..];
        assert last.transcript[state.offset - last.offset..] == state.transcript[..kept] by {
          assert last.transcript[state.offset - last.offset..state.offset - last.offset + kept]
                 == last.transcript[state.offset - last.offset..];
        }
        OverlapAndDelta(s, agent, g, last.transcript, last.offset, state.transcript, state.offset);
      } else if feed.Noop? {
        var kept := lastEnd - state.offset;
        assert |state.transcript| == kept;
        assert state.transcript[..kept] == state.transcript && state.transcript[kept..] == [];
        assert last.transcript[state.offset - last.offset..] == state.transcript;
        OverlapAndDelta(s, agent, g, last.transcript, last.offset, state.transcript, state.offset);
      }
    }
  }

  /**
   * A rendered state leaves the terminal right exactly when it is part of the stream of its generation and does not
   * start inside the last rendered one and end before it.
   */
  lemma RenderIsRightIff(t: Terminal, s: Streams, state: State)
    requires Synced(t, s) && (t.last.agent.Some? ==> TrueState(t.last, s))
    requires state.agent.Some? && (state.transcript == [] ==> state.offset == 0)
    ensures Synced(Render(t, state), s) <==> SliceState(state, s) && !RetreatsInside(t.last, state)
  {
    hide Synced, DecideTermFeed;
    if SliceState(state, s) {
      RenderKeepsSyncedIff(t, s, state);
    } else if Synced(Render(t, state), s) {
      RightScreenMeansSlice(t, s, state);
    }
  }

  // ---------------------------------------------------------------- which emitted states are right

  /** What is held is true; and it is what is shown, unless an older generation's text still is. */
  ghost predicate VmFine(vm: Vm, s: Streams, p: Policy) {
    Coherent(AsHeld(vm), s, p) && (vm == AsHeld(vm) || Stale(vm))
  }

  /** Anything that emits a state, but a roster update, ends staleness. */
  lemma StaleIff(vm: Vm, input: Input, s: Streams, p: Policy)
    requires ConsolePolicy(p) && VmFine(vm, s, p) && TrueInput(input, s)
    ensures var (vm', emits) := VmStep(vm, input, p);
            && VmFine(vm', s, p)
            && (Stale(vm') <==> if emits && !input.Update? then false else Stale(vm) || StalesDisplay(vm, input))
  {
    hide CutPoint, WellFormedTable, AfterTail, AfterChunk;
    VmStepKeepsHeld(vm, input, s, p);
    if input.Tail? { TailStales(vm, input.d, s, p); }
    if input.Chunk? { ChunkStales(vm, input.d, s, p); }
  }

  lemma TailStales(vm: Vm, d: Delivery, s: Streams, p: Policy)
    requires ConsolePolicy(p) && VmFine(vm, s, p) && TrueDelivery(s, d)
    ensures var out := AfterTail(vm, d, p);
            && (out.vm == AsHeld(out.vm) || Stale(out.vm))
            && (Stale(out.vm) <==> !out.emits && (Stale(vm) || StalesDisplay(vm, Tail(d))))
  {
    hide CutPoint, WellFormedTable, ApplySegment;
    if vm.selected == Some(d.agent) && d.Generation() >= vm.generation {
      var base := if d.Generation() > vm.generation then vm.Cleared().(generation := d.Generation()) else vm;
      if |d.text| == 0 {
        EmptySegment(base, d.offset, p);
      } else {
        ApplySegmentIgnoresDisplay(base, AsHeld(base), d.offset, d.text, p);
        ApplySegmentKeepsCoherent(AsHeld(base), s, p, d.offset, d.text);
      }
    }
  }

  lemma ChunkStales(vm: Vm, d: Delivery, s: Streams, p: Policy)
    requires ConsolePolicy(p) && VmFine(vm, s, p) && TrueDelivery(s, d)
    ensures var out := AfterChunk(vm, d, p);
            && (out.vm == AsHeld(out.vm) || Stale(out.vm))
            && (Stale(out.vm) <==> !out.emits && (Stale(vm) || StalesDisplay(vm, Chunk(d))))
  {
    hide CutPoint, WellFormedTable, AppendInRange;
    if vm.selected == Some(d.agent) && d.Generation() >= vm.generation {
      var base := if d.Generation() > vm.generation then vm.Cleared().(generation := d.Generation()) else vm;
      if |d.text| > 0 {
        AppendIgnoresDisplay(base, d.offset, d.text, p);
        TrueChunk(AsHeld(base), s, p, d.offset, d.text);
        AppendEmitsAlike(base, d.offset, d.text, p);
      }
    }
  }

  lemma AppendEmitsAlike(vm: Vm, offset: nat, text: Text, p: Policy)
    requires p.softMax <= p.hardMax && |text| > 0
    ensures var out, tracked := AppendInRange(vm, offset, text, p), AppendInRange(AsHeld(vm), offset, text, p);
            out.emits == tracked.emits && (out.emits ==> out.vm == tracked.vm)
  {
    hide ApplyLive, ApplySegment;
    ApplySegmentIgnoresDisplay(vm.Cleared(), AsHeld(vm).Cleared(), offset, text, p);
    var drop := if vm.segments != [] && offset < vm.segments[0].offset then vm.segments[0].offset - offset else 0;
    var rest := if drop <= |text| then text[drop..] else [];
    if rest != [] {
      assert drop == 0 ==> rest == text;
      LiveIgnoresDisplay(vm, offset + drop, rest, p);
    }
  }

  /** The states a view has to offer: all without text start at 0, and a faithful one is part of its stream. */
  ghost predicate ViewFine(v: View, s: Streams, p: Policy) {
    && VmFine(v.vm, s, p)
    && (v.latest.transcript == [] ==> v.latest.offset == 0)
    && (v.faithful && v.latest.agent.Some? ==> SliceState(v.latest, s))
  }

  lemma AfterStaysFine(v: View, m: Moment, s: Streams, p: Policy)
    requires ConsolePolicy(p) && ViewFine(v, s, p) && TrueMoment(m, s)
    ensures ViewFine(After(v, m, p), s, p) && ViewFine(Emitted(v, m, p), s, p)
  {
    hide VmStep, Render, WellFormedTable;
    if m.Apply? { StaleIff(v.vm, m.input, s, p); }
  }

  // ---------------------------------------------------------------- runs

  /** The terminal was right before and is right after every moment. */
  ghost predicate RightThroughout(v: View, ms: seq<Moment>, s: Streams, p: Policy)
    requires p.softMax <= p.hardMax
    decreases |ms|
  {
    Synced(v.terminal, s) && (ms == [] || RightThroughout(After(v, ms[0], p), ms[1..], s, p))
  }

  /** Every rendered state is part of its stream, and none starts inside the last rendered one and ends before it. */
  ghost predicate RendersRight(v: View, ms: seq<Moment>, s: Streams, p: Policy)
    requires p.softMax <= p.hardMax
    decreases |ms|
  {
    ms == [] || (RenderRight(v, ms[0], s, p) && RendersRight(After(v, ms[0], p), ms[1..], s, p))
  }

  ghost predicate RenderRight(v: View, m: Moment, s: Streams, p: Policy)
    requires p.softMax <= p.hardMax
  {
    var state := Emitted(v, m, p).latest;
    Renders(v, m, p) ==> SliceState(state, s) && !RetreatsInside(v.terminal.last, state)
  }

  /** The terminal has been right so far. */
  ghost predicate RightNow(v: View, s: Streams) {
    Synced(v.terminal, s) && (v.terminal.last.agent.Some? ==> TrueState(v.terminal.last, s))
  }

  lemma MomentIsRightIff(v: View, m: Moment, s: Streams, p: Policy)
    requires ConsolePolicy(p) && ViewFine(v, s, p) && TrueMoment(m, s) && RightNow(v, s)
    ensures Synced(After(v, m, p).terminal, s) <==> RenderRight(v, m, s, p)
    ensures RenderRight(v, m, s, p) ==> RightNow(After(v, m, p), s)
  {
    hide VmStep, DecideTermFeed, Synced, WellFormedTable, VmFine;
    AfterStaysFine(v, m, s, p);
    var e := Emitted(v, m, p);
    if Renders(v, m, p) { RenderIsRightIff(v.terminal, s, e.latest); }
  }

  lemma {:induction false} RightFromIff(v: View, ms: seq<Moment>, s: Streams, p: Policy)
    requires ConsolePolicy(p) && ViewFine(v, s, p) && RightNow(v, s) && forall m <- ms :: TrueMoment(m, s)
    ensures RightThroughout(v, ms, s, p) <==> RendersRight(v, ms, s, p)
    decreases |ms|
  {
    hide After, RenderRight, Synced, ViewFine, TrueMoment;
    if ms != [] {
      assert ms[0] in ms && forall m <- ms[1..] :: m in ms;
      MomentIsRightIff(v, ms[0], s, p);
      AfterStaysFine(v, ms[0], s, p);
      if RenderRight(v, ms[0], s, p) {
        RightFromIff(After(v, ms[0], p), ms[1..], s, p);
      } else {
        WrongNow(After(v, ms[0], p), ms[1..], s, p);
      }
    }
  }

  lemma WrongNow(v: View, ms: seq<Moment>, s: Streams, p: Policy)
    requires p.softMax <= p.hardMax && !Synced(v.terminal, s)
    ensures !RightThroughout(v, ms, s, p)
  {
  }

  /**
   * Over any run of true inputs, whenever the view is active or activated, the terminal is right throughout exactly
   * when each state that reaches it is part of the stream of its generation and does not retreat inside the one before.
   */
  lemma TerminalIsRightIff(ms: seq<Moment>, s: Streams, p: Policy)
    requires ConsolePolicy(p) && forall m <- ms :: TrueMoment(m, s)
    ensures RightThroughout(INITIAL_VIEW, ms, s, p) <==> RendersRight(INITIAL_VIEW, ms, s, p)
  {
    hide RightThroughout, RendersRight;
    InitialViewIsFine(s, p);
    RightFromIff(INITIAL_VIEW, ms, s, p);
  }

  lemma InitialViewIsFine(s: Streams, p: Policy)
    requires ConsolePolicy(p)
    ensures ViewFine(INITIAL_VIEW, s, p) && RightNow(INITIAL_VIEW, s)
  {
  }

  /** No state that reaches the terminal was emitted stale or retreats inside the last one; the streams play no part. */
  predicate RendersFaithfully(v: View, ms: seq<Moment>, p: Policy)
    requires p.softMax <= p.hardMax
    decreases |ms|
  {
    ms == [] || (RenderFaithful(v, ms[0], p) && RendersFaithfully(After(v, ms[0], p), ms[1..], p))
  }

  predicate RenderFaithful(v: View, m: Moment, p: Policy)
    requires p.softMax <= p.hardMax
  {
    var e := Emitted(v, m, p);
    Renders(v, m, p) ==> e.faithful && !RetreatsInside(v.terminal.last, e.latest)
  }

  lemma {:induction false} FaithfulIsRight(v: View, ms: seq<Moment>, s: Streams, p: Policy)
    requires ConsolePolicy(p) && ViewFine(v, s, p) && (forall m <- ms :: TrueMoment(m, s))
    requires RendersFaithfully(v, ms, p)
    ensures RendersRight(v, ms, s, p)
    decreases |ms|
  {
    hide After, Emitted, VmFine, TrueMoment;
    if ms != [] {
      assert ms[0] in ms && forall m <- ms[1..] :: m in ms;
      AfterStaysFine(v, ms[0], s, p);
      FaithfulIsRight(After(v, ms[0], p), ms[1..], s, p);
    }
  }

  /**
   * So whatever is skipped while the view is inactive, the terminal shows one contiguous slice of the rendered
   * generation's stream up to the rendered transcript's end, as long as what reaches it is faithful.
   */
  lemma FaithfulRendersShowTheStream(ms: seq<Moment>, s: Streams, p: Policy)
    requires ConsolePolicy(p) && (forall m <- ms :: TrueMoment(m, s)) && RendersFaithfully(INITIAL_VIEW, ms, p)
    ensures RightThroughout(INITIAL_VIEW, ms, s, p)
  {
    hide RightThroughout, RendersRight, RendersFaithfully;
    InitialViewIsFine(s, p);
    FaithfulIsRight(INITIAL_VIEW, ms, s, p);
    TerminalIsRightIff(ms, s, p);
  }
}
