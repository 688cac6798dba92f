/**
 * Live session hosting: one process-wide set of hosted agents and one of hosted panes, claimed by attempts that suspend
 * while their MCP server connects or closes, and that roll back what they did when they fail.
 */
module LiveSessionHosting {
  import opened Basics

  // ---------------------------------------------------------------- identities and keys

  datatype Identity = Identity(project: string, agent: string, parent: string, pane: string)

  /** The white space and line terminators that `trim` removes. */
  predicate IsBlankChar(c: char) {
    || c in {'\t', '\n', '\U{b}', '\U{c}', '\r', ' ', '\U{a0}', '\U{1680}', '\U{2028}', '\U{2029}', '\U{202f}',
             '\U{205f}'}
    || '\U{2000}' <= c <= '\U{200a}' || c == '\U{3000}' || c == '\U{feff}'
  }

  function Trim(s: string): (t: string)
    ensures t != [] ==> !IsBlankChar(t[0]) && !IsBlankChar(t[|t| - 1])
    decreases |s|
  {
    if s == [] then []
    else if IsBlankChar(s[0]) then Trim(s[1..])
    else if IsBlankChar(s[|s| - 1]) then Trim(s[..|s| - 1])
    else s
  }

  /**
   * Trimming keeps a middle part, from which only blanks were cut on either side; so nothing is left exactly of
   * blanks.
   */
  lemma {:induction false} TrimKeepsTheMiddle(s: string) returns (from: nat, to: nat)
    ensures from <= to <= |s| && Trim(s) == s[from..to]
    ensures forall k: nat | k < from || to <= k < |s| :: IsBlankChar(s[k])
    ensures Trim(s) == [] <==> forall c <- s :: IsBlankChar(c)
    decreases |s|
  {
    from, to := 0, |s|;
    if s != [] {
      if IsBlankChar(s[0]) {
        from, to := TrimKeepsTheMiddle(s[1..]);
        from, to := from + 1, to + 1;
        assert forall k: nat | 0 < k < |s| :: s[k] == s[1..][k - 1];
        assert forall c :: c in s <==> c == s[0] || c in s[1..];
      } else if IsBlankChar(s[|s| - 1]) {
        from, to := TrimKeepsTheMiddle(s[..|s| - 1]);
        assert forall k: nat | k < |s| - 1 :: s[k] == s[..|s| - 1][k];
        assert forall c :: c in s <==> c == s[|s| - 1] || c in s[..|s| - 1];
      } else {
        assert s[0] in s;
      }
    }
  }

  function Key(project: string, id: string): string { project + ":" + id }

  /** The identity as it is used: all three names trimmed. */
  function Trimmed(identity: Identity): Identity {
    Identity(identity.project, Trim(identity.agent), Trim(identity.parent), Trim(identity.pane))
  }

  predicate Blank(identity: Identity) { identity.agent == [] || identity.parent == [] || identity.pane == [] }

  // ---------------------------------------------------------------- state

  datatype Phase =
    | Refused                   // thrown before anything was claimed
    | Connecting                // awaiting the server's connection
    | RollingBack               // setup failed; awaiting the close of a partly connected server
    | Failed
    | Hosted
    | Closing                   // awaiting the server's close
    | Closed

  /** One call of `hostSession`: its trimmed identity, its phase and its three claim flags. */
  datatype Attempt = Attempt(who: Identity, phase: Phase, active: bool, session: bool, roster: bool)
  {
    function AgentKey(): string { Key(who.project, who.agent) }

    function PaneKey(): string { Key(who.project, who.pane) }

    function KeyOf(agents: bool): string { if agents then AgentKey() else PaneKey() }

    function Row(): (string, string) { (who.project, who.agent) }

    /** Between claim and release. */
    predicate Holds() { active && (phase.Connecting? || phase.RollingBack? || phase.Hosted? || phase.Closing?) }

    /** A handle was returned for it. */
    predicate HasHandle() { phase.Hosted? || phase.Closing? || phase.Closed? }
  }

  /** `sessions` maps a project's agent to the pane of its active session; `roster` has the registered agents. */
  datatype Host = Host(agents: set<string>, panes: set<string>, sessions: map<(string, string), string>,
                       roster: set<(string, string)>, attempts: seq<Attempt>)
  {
    function With(i: nat, a: Attempt): Host
      requires i < |attempts|
    {
      this.(attempts := attempts[i := a])
    }

    function To(i: nat, phase: Phase): Host
      requires i < |attempts|
    {
      With(i, attempts[i].(phase := phase))
    }
  }

  const INITIAL_HOST := Host({}, {}, map[], {}, [])

  // ---------------------------------------------------------------- steps

  /** Where, if anywhere, a call into a store or the server factory throws during setup. */
  datatype Fault = NoFault | AtOpen | AtSession | AtContext | AtRoster | AtServer

  /** `recordSession` refuses a second session of an agent and a second agent of a pane. */
  predicate SessionConflict(h: Host, who: Identity) {
    || (who.project, who.agent) in h.sessions
    || exists row <- h.sessions :: row.0 == who.project && h.sessions[row] == who.pane
  }

  /** `hostSession` up to its first await. */
  function HostSession(h: Host, identity: Identity, fault: Fault): Host {
    var who := Trimmed(identity);
    var a := Attempt(who, Refused, false, false, false);
    if Blank(who) || a.AgentKey() in h.agents || a.PaneKey() in h.panes then h.(attempts := h.attempts + [a])
    else if fault == AtOpen then h.(attempts := h.attempts + [a.(phase := RollingBack)])
    else
      var claimed := h.(agents := h.agents + {a.AgentKey()}, panes := h.panes + {a.PaneKey()});
      var b := a.(phase := RollingBack, active := true);
      if fault == AtSession || SessionConflict(h, who) then claimed.(attempts := h.attempts + [b])
      else
        var recorded := claimed.(sessions := h.sessions[a.Row() := who.pane]);
        var c := b.(session := true);
        if fault == AtContext || fault == AtRoster then recorded.(attempts := h.attempts + [c])
        else
          var d := c.(roster := a.Row() !in h.roster);
          recorded.(roster := h.roster + {a.Row()},
                    attempts := h.attempts + [if fault == AtServer then d else d.(phase := Connecting)])
  }

  function Release(h: Host, a: Attempt): Host {
    h.(agents := h.agents - {a.AgentKey()}, panes := h.panes - {a.PaneKey()})
  }

  /** `endSession` throws unless the agent's active session is on this pane. */
  predicate CanEnd(h: Host, a: Attempt) { a.Row() in h.sessions && h.sessions[a.Row()] == a.who.pane }

  function EndSession(h: Host, a: Attempt): Host { h.(sessions := h.sessions - {a.Row()}) }

  function RemoveAgent(h: Host, a: Attempt): Host { h.(roster := h.roster - {a.Row()}) }

  /** The catch block after its await: release, end the session, remove the roster row. */
  function RollBack(h: Host, i: nat, endThrows: bool, removeThrows: bool): Host
    requires i < |h.attempts|
  {
    var a := h.attempts[i];
    var released := if a.active then Release(h, a) else h;
    var ends := a.session && !endThrows && CanEnd(h, a);
    var ended := if ends then EndSession(released, a) else released;
    var removed := if a.roster && (!a.session || ends) && !removeThrows then RemoveAgent(ended, a) else ended;
    removed.To(i, Failed)
  }

  /** `close` after its await. */
  function FinishClose(h: Host, i: nat, endThrows: bool): Host
    requires i < |h.attempts|
  {
    var a := h.attempts[i];
    var ended := if !endThrows && CanEnd(h, a) then EndSession(h, a) else h;
    Release(ended, a).To(i, Closed)
  }

  /** `rollbackRegistration`: it looks for a session of the agent, whoever recorded it. */
  function RollBackRegistration(h: Host, i: nat, inspectThrows: bool, removeThrows: bool): Host
    requires i < |h.attempts|
  {
    var a := h.attempts[i];
    if !a.roster || inspectThrows || a.Row() in h.sessions || removeThrows then h else RemoveAgent(h, a)
  }

  datatype Event =
    | Ask(identity: Identity, fault: Fault)
    | Connect(i: nat, ok: bool)
    | ServerClosed(i: nat, endThrows: bool, removeThrows: bool)   // the close awaited by a rollback or by `close`
    | CallClose(i: nat)
    | CallRollback(i: nat, inspectThrows: bool, removeThrows: bool)
    | Foreign(sessions: map<(string, string), string>, roster: set<(string, string)>)   // others write the stores

  function Step(h: Host, e: Event): Host {
    match e
    case Ask(identity, fault) => HostSession(h, identity, fault)
    case Connect(i, ok) =>
      if i < |h.attempts| && h.attempts[i].phase.Connecting? then h.To(i, if ok then Hosted else RollingBack) else h
    case ServerClosed(i, endThrows, removeThrows) =>
      if i >= |h.attempts| then h
      else if h.attempts[i].phase.RollingBack? then RollBack(h, i, endThrows, removeThrows)
      else if h.attempts[i].phase.Closing? then FinishClose(h, i, endThrows)
      else h
    case CallClose(i) => if i < |h.attempts| && h.attempts[i].phase.Hosted? then h.To(i, Closing) else h
    case CallRollback(i, inspectThrows, removeThrows) =>
      if i < |h.attempts| && h.attempts[i].HasHandle() then RollBackRegistration(h, i, inspectThrows, removeThrows)
      else h
    case Foreign(sessions, roster) => h.(sessions := sessions, roster := roster)
  }

  // ---------------------------------------------------------------- the invariant

  ghost predicate AttemptSound(a: Attempt) {
    && ((a.phase.Connecting? || a.HasHandle()) ==> a.active && a.session)
    && (a.phase.Refused? ==> !a.active)
    && (a.session ==> a.active) && (a.roster ==> a.session)
  }

  /** The agent keys, or the pane keys, of the attempts between claim and release. */
  ghost function HeldKeys(attempts: seq<Attempt>, agents: bool): set<string> {
    set i: nat | i < |attempts| && attempts[i].Holds() :: attempts[i].KeyOf(agents)
  }

  /** No two holders share a key. */
  ghost predicate NoSharing(attempts: seq<Attempt>, agents: bool) {
    forall i: nat, j: nat | i < j < |attempts| && attempts[i].Holds() && attempts[j].Holds() ::
      attempts[i].KeyOf(agents) != attempts[j].KeyOf(agents)
  }

  ghost predicate HostInv(h: Host) {
    && (forall a <- h.attempts :: AttemptSound(a))
    && NoSharing(h.attempts, true) && NoSharing(h.attempts, false)
    && h.agents == HeldKeys(h.attempts, true)
    && h.panes == HeldKeys(h.attempts, false)
  }

  lemma AddAttempt(attempts: seq<Attempt>, a: Attempt, agents: bool)
    requires NoSharing(attempts, agents)
    requires a.Holds() ==> a.KeyOf(agents) !in HeldKeys(attempts, agents)
    ensures NoSharing(attempts + [a], agents)
    ensures HeldKeys(attempts + [a], agents)
            == HeldKeys(attempts, agents) + (if a.Holds() then {a.KeyOf(agents)} else {})
  {
    hide Attempt.Holds, Attempt.KeyOf;
    var longer := attempts + [a];
    assert longer[|attempts|] == a && forall i: nat | i < |attempts| :: longer[i] == attempts[i];
  }

  lemma ChangeAttempt(attempts: seq<Attempt>, i: nat, a: Attempt, agents: bool)
    requires NoSharing(attempts, agents) && i < |attempts|
    requires a.Holds() == attempts[i].Holds() && a.KeyOf(agents) == attempts[i].KeyOf(agents)
    ensures NoSharing(attempts[i := a], agents)
    ensures HeldKeys(attempts[i := a], agents) == HeldKeys(attempts, agents)
  {
    hide Attempt.Holds, Attempt.KeyOf;
    var changed := attempts[i := a];
    assert forall j: nat | j < |attempts| ::
      changed[j].Holds() == attempts[j].Holds() && changed[j].KeyOf(agents) == attempts[j].KeyOf(agents);
  }

  lemma ReleaseAttempt(attempts: seq<Attempt>, i: nat, a: Attempt, agents: bool)
    requires NoSharing(attempts, agents) && i < |attempts| && attempts[i].Holds() && !a.Holds()
    ensures NoSharing(attempts[i := a], agents)
    ensures HeldKeys(attempts[i := a], agents) == HeldKeys(attempts, agents) - {attempts[i].KeyOf(agents)}
  {
    hide Attempt.Holds, Attempt.KeyOf;
    var changed := attempts[i := a];
    assert forall j: nat | j < |attempts| && j != i :: changed[j] == attempts[j];
    assert changed[i] == a;
  }

  lemma AskKeepsInv(h: Host, identity: Identity, fault: Fault)
    requires HostInv(h)
    ensures HostInv(HostSession(h, identity, fault))
  {
    hide Key, Trim, SessionConflict, NoSharing, HeldKeys;
    var h' := HostSession(h, identity, fault);
    var a := h'.attempts[|h.attempts|];
    assert h'.attempts == h.attempts + [a];
    AddAttempt(h.attempts, a, true);
    AddAttempt(h.attempts, a, false);
  }

  lemma MoveKeepsInv(h: Host, i: nat, phase: Phase)
    requires HostInv(h) && i < |h.attempts| && AttemptSound(h.attempts[i].(phase := phase))
    requires h.attempts[i].Holds() == h.attempts[i].(phase := phase).Holds()
    ensures HostInv(h.To(i, phase))
  {
    hide Key, NoSharing, HeldKeys;
    var a := h.attempts[i].(phase := phase);
    ChangeAttempt(h.attempts, i, a, true);
    ChangeAttempt(h.attempts, i, a, false);
  }

  lemma ReleaseKeepsInv(h: Host, i: nat, phase: Phase)
    requires HostInv(h) && i < |h.attempts| && h.attempts[i].Holds() && (phase.Failed? || phase.Closed?)
    requires AttemptSound(h.attempts[i].(phase := phase))
    ensures HostInv(Release(h, h.attempts[i]).To(i, phase))
  {
    hide Key, NoSharing, HeldKeys;
    var a := h.attempts[i].(phase := phase);
    ReleaseAttempt(h.attempts, i, a, true);
    ReleaseAttempt(h.attempts, i, a, false);
  }

  lemma TablesKeepInv(h: Host, sessions: map<(string, string), string>, roster: set<(string, string)>)
    requires HostInv(h)
    ensures HostInv(h.(sessions := sessions, roster := roster))
  {
  }

  lemma RollBackKeepsInv(h: Host, i: nat, endThrows: bool, removeThrows: bool)
    requires HostInv(h) && i < |h.attempts| && h.attempts[i].phase.RollingBack?
    ensures HostInv(RollBack(h, i, endThrows, removeThrows))
  {
    hide Key, HostInv;
    var a := h.attempts[i];
    var h' := RollBack(h, i, endThrows, removeThrows);
    if a.active {
      SoundAt(h, i);
      ReleaseKeepsInv(h, i, Failed);
      TablesKeepInv(Release(h, a).To(i, Failed), h'.sessions, h'.roster);
    } else {
      SoundAt(h, i);
      MoveKeepsInv(h, i, Failed);
      TablesKeepInv(h.To(i, Failed), h'.sessions, h'.roster);
    }
  }

  lemma SoundAt(h: Host, i: nat)
    requires HostInv(h) && i < |h.attempts|
    ensures AttemptSound(h.attempts[i])
  {
    assert h.attempts[i] in h.attempts;
  }

  lemma FinishCloseKeepsInv(h: Host, i: nat, endThrows: bool)
    requires HostInv(h) && i < |h.attempts| && h.attempts[i].phase.Closing?
    ensures HostInv(FinishClose(h, i, endThrows))
  {
    hide Key, HostInv;
    SoundAt(h, i);
    ReleaseKeepsInv(h, i, Closed);
    var h' := FinishClose(h, i, endThrows);
    TablesKeepInv(Release(h, h.attempts[i]).To(i, Closed), h'.sessions, h'.roster);
  }

  lemma StepKeepsHostInv(h: Host, e: Event)
    requires HostInv(h)
    ensures HostInv(Step(h, e))
  {
    hide HostInv, HostSession, RollBack, FinishClose;
    match e {
      case Ask(identity, fault) => AskKeepsInv(h, identity, fault);
      case Connect(i, ok) =>
        if i < |h.attempts| && h.attempts[i].phase.Connecting? {
          SoundAt(h, i);
          MoveKeepsInv(h, i, if ok then Hosted else RollingBack);
        }
      case ServerClosed(i, endThrows, removeThrows) =>
        if i < |h.attempts| && h.attempts[i].phase.RollingBack? { RollBackKeepsInv(h, i, endThrows, removeThrows); }
        else if i < |h.attempts| && h.attempts[i].phase.Closing? { FinishCloseKeepsInv(h, i, endThrows); }
      case CallClose(i) =>
        if i < |h.attempts| && h.attempts[i].phase.Hosted? {
          SoundAt(h, i);
          MoveKeepsInv(h, i, Closing);
        }
      case CallRollback(i, inspectThrows, removeThrows) =>
        TablesKeepInv(h, h.sessions, Step(h, e).roster);
      case Foreign(sessions, roster) => TablesKeepInv(h, sessions, roster);
    }
  }

  function Run(h: Host, events: seq<Event>): Host
    decreases |events|
  {
    if events == [] then h else Run(Step(h, events[0]), events[1..])
  }

  lemma {:induction false} RunKeepsHostInv(h: Host, events: seq<Event>)
    requires HostInv(h)
    ensures HostInv(Run(h, events))
    decreases |events|
  {
    hide HostInv, Step;
    if events != [] {
      StepKeepsHostInv(h, events[0]);
      RunKeepsHostInv(Step(h, events[0]), events[1..]);
    }
  }

  // ---------------------------------------------------------------- the main results

  /**
   * In every reachable state the two sets hold exactly the keys of the attempts between claim and release, and no two
   * of those share a key; hence a new attempt is refused exactly when a name is blank or an attempt holds a key of its.
   */
  lemma ClaimsAreExact(events: seq<Event>, identity: Identity, fault: Fault)
    ensures var h := Run(INITIAL_HOST, events);
            var a := HostSession(h, identity, fault).attempts[|h.attempts|];
            && h.agents == HeldKeys(h.attempts, true) && h.panes == HeldKeys(h.attempts, false)
            && NoSharing(h.attempts, true) && NoSharing(h.attempts, false)
            && (a.phase.Refused? <==>
                  || Blank(Trimmed(identity))
                  || exists i: nat :: i < |h.attempts| && h.attempts[i].Holds()
                       && (h.attempts[i].AgentKey() == a.AgentKey() || h.attempts[i].PaneKey() == a.PaneKey()))
  {
    hide NoSharing, Trim, Key, SessionConflict;
    RunKeepsHostInv(INITIAL_HOST, events) by { InitialHostInv(); }
    var h := Run(INITIAL_HOST, events);
    var a := HostSession(h, identity, fault).attempts[|h.attempts|];
    HeldBy(h.attempts, a.AgentKey(), true);
    HeldBy(h.attempts, a.PaneKey(), false);
  }

  lemma InitialHostInv()
    ensures HostInv(INITIAL_HOST)
  {
  }

  lemma HeldBy(attempts: seq<Attempt>, key: string, agents: bool)
    ensures key in HeldKeys(attempts, agents)
            <==> exists i: nat :: i < |attempts| && attempts[i].Holds() && attempts[i].KeyOf(agents) == key
  {
  }

  /** The attempt an event acts on. */
  predicate ActsOn(e: Event, i: nat) {
    match e
    case Connect(j, _) => i == j
    case ServerClosed(j, _, _) => i == j
    case CallClose(j) => i == j
    case CallRollback(j, _, _) => i == j
    case Ask(_, _) => false
    case Foreign(_, _) => true
  }

  /** The attempt holds its keys and its session row is the active one. */
  predicate Intact(h: Host, i: nat) {
    i < |h.attempts| && h.attempts[i].Holds() && CanEnd(h, h.attempts[i])
  }

  lemma OthersRowDiffers(h: Host, i: nat, j: nat)
    requires HostInv(h) && i < |h.attempts| && j < |h.attempts| && i != j && h.attempts[i].Holds()
    requires h.attempts[j].Holds()
    ensures h.attempts[i].Row() != h.attempts[j].Row() && h.attempts[i].AgentKey() != h.attempts[j].AgentKey()
  {
    if i < j { assert h.attempts[i].KeyOf(true) != h.attempts[j].KeyOf(true); }
    else { assert h.attempts[j].KeyOf(true) != h.attempts[i].KeyOf(true); }
  }

  lemma OthersLeaveIntact(h: Host, e: Event, i: nat)
    requires HostInv(h) && Intact(h, i) && !ActsOn(e, i)
    ensures Intact(Step(h, e), i) && Step(h, e).attempts[i] == h.attempts[i]
    ensures h.attempts[i].Row() in h.roster <==> h.attempts[i].Row() in Step(h, e).roster
  {
    hide HostInv, NoSharing, HeldKeys, Trim, Key;
    if e.ServerClosed? && e.i < |h.attempts| {
      SoundAt(h, e.i);
      if h.attempts[e.i].Holds() { OthersRowDiffers(h, i, e.i); }
    }
  }

  ghost predicate NoneActOn(events: seq<Event>, i: nat) { forall e <- events :: !ActsOn(e, i) }

  /**
   * Whatever other attempts do, succeed, fail, roll back, close or close again, they take nothing from an attempt that
   * holds its keys: its claims, its session row and its roster row stay.
   */
  lemma {:induction false} HolderIsUndisturbed(h: Host, events: seq<Event>, i: nat)
    requires HostInv(h) && Intact(h, i) && NoneActOn(events, i)
    ensures var h' := Run(h, events);
            && Intact(h', i) && h'.attempts[i] == h.attempts[i]
            && h'.attempts[i].AgentKey() in h'.agents && h'.attempts[i].PaneKey() in h'.panes
            && (h.attempts[i].Row() in h.roster <==> h.attempts[i].Row() in h'.roster)
    decreases |events|
  {
    hide Step, Key;
    if events != [] {
      assert events[0] in events && forall e <- events[1..] :: e in events;
      OthersLeaveIntact(h, events[0], i);
      StepKeepsHostInv(h, events[0]);
      HolderIsUndisturbed(Step(h, events[0]), events[1..], i);
    } else {
      HeldBy(h.attempts, h.attempts[i].AgentKey(), true);
      HeldBy(h.attempts, h.attempts[i].PaneKey(), false);
    }
  }

  /** The claim flags of an attempt say what its call did: record the agent's only session, create the roster row. */
  lemma FlagsSayWhatTheCallDid(h: Host, identity: Identity, fault: Fault)
    ensures var h' := Step(h, Ask(identity, fault));
            && |h'.attempts| == |h.attempts| + 1
            && (forall j: nat | j < |h.attempts| :: h'.attempts[j] == h.attempts[j])
            && var a := h'.attempts[|h.attempts|];
               && (a.session <==> a.Row() !in h.sessions && a.Row() in h'.sessions)
               && (a.roster <==> a.Row() !in h.roster && a.Row() in h'.roster)
  {
    hide Trim, Key;
  }

  predicate SameFlags(a: Attempt, b: Attempt) {
    a.who == b.who && a.active == b.active && a.session == b.session && a.roster == b.roster
  }

  lemma CleanupMovesOne(h: Host, i: nat, endThrows: bool, removeThrows: bool)
    requires i < |h.attempts|
    ensures RollBack(h, i, endThrows, removeThrows).attempts == h.attempts[i := h.attempts[i].(phase := Failed)]
    ensures FinishClose(h, i, endThrows).attempts == h.attempts[i := h.attempts[i].(phase := Closed)]
  {
    hide Key, CanEnd;
  }

  /** Some attempt holds a key of the identity, trimmed. */
  ghost predicate Taken(h: Host, who: Identity) {
    exists i: nat :: i < |h.attempts| && h.attempts[i].Holds()
      && (|| h.attempts[i].AgentKey() == Key(who.project, who.agent)
          || h.attempts[i].PaneKey() == Key(who.project, who.pane))
  }

  /**
   * In every reachable state, a call in which nothing throws and whose connection succeeds is hosted exactly when no
   * name is blank, no attempt holds one of its keys, and neither its agent nor its pane has an active session in the
   * project. It then has its keys, its session on its pane and its agent registered, all under the trimmed names, and
   * nothing else has changed. A call in which anything throws is never hosted.
   */
  lemma HostedIff(events: seq<Event>, identity: Identity, fault: Fault)
    ensures var h, who := Run(INITIAL_HOST, events), Trimmed(identity);
            var i, row := |h.attempts|, (who.project, who.agent);
            var h' := Step(Step(h, Ask(identity, fault)), Connect(i, true));
            && |h'.attempts| == i + 1 && h'.attempts[i].who == who
            && (h'.attempts[i].phase.Hosted? <==>
                  && fault == NoFault && !Blank(who) && !Taken(h, who)
                  && forall r <- h.sessions | r.0 == who.project :: r.1 != who.agent && h.sessions[r] != who.pane)
            && (h'.attempts[i].phase.Hosted? ==>
                  && h'.agents == h.agents + {Key(who.project, who.agent)}
                  && h'.panes == h.panes + {Key(who.project, who.pane)}
                  && h'.sessions == h.sessions[row := who.pane] && h'.roster == h.roster + {row}
                  && h'.attempts[..i] == h.attempts)
  {
    hide NoSharing, Trim, Key, Run;
    var h, who := Run(INITIAL_HOST, events), Trimmed(identity);
    ClaimsAreExact(events, identity, fault);
    assert SessionConflict(h, who) <==>
             exists r <- h.sessions :: r.0 == who.project && (r.1 == who.agent || h.sessions[r] == who.pane) by {
      ConflictIs(h, who);
    }
  }

  lemma ConflictIs(h: Host, who: Identity)
    ensures SessionConflict(h, who) <==>
              exists r <- h.sessions :: r.0 == who.project && (r.1 == who.agent || h.sessions[r] == who.pane)
  {
    if (who.project, who.agent) in h.sessions {
      var r := (who.project, who.agent);
      assert r.0 == who.project && r.1 == who.agent;
    }
    if r :| r in h.sessions && r.0 == who.project && r.1 == who.agent {
      assert r == (who.project, who.agent);
    }
  }

  /** No later event changes them. */
  lemma FlagsStay(h: Host, e: Event, i: nat)
    requires i < |h.attempts|
    ensures i < |Step(h, e).attempts| && SameFlags(Step(h, e).attempts[i], h.attempts[i])
  {
    hide HostSession, RollBack, FinishClose;
    match e {
      case Ask(identity, fault) => FlagsSayWhatTheCallDid(h, identity, fault);
      case ServerClosed(j, endThrows, removeThrows) =>
        if j < |h.attempts| { CleanupMovesOne(h, j, endThrows, removeThrows); }
      case _ =>
    }
  }

  /**
   * A roster row disappears, other than by someone else's hand, only through an attempt on that agent that created it,
   * and only when the agent has no session row left.
   */
  lemma OnlyTheCreatorUnregisters(h: Host, e: Event, row: (string, string))
    requires HostInv(h) && row in h.roster && row !in Step(h, e).roster && !e.Foreign?
    ensures exists i: nat :: i < |h.attempts| && ActsOn(e, i) && h.attempts[i].Row() == row && h.attempts[i].roster
    ensures row !in Step(h, e).sessions
  {
    hide NoSharing, HeldKeys, Trim, Key;
    assert e.ServerClosed? || e.CallRollback?;
    var i: nat := e.i;
    SoundAt(h, i);
    assert i < |h.attempts| && ActsOn(e, i) && h.attempts[i].Row() == row && h.attempts[i].roster;
  }

  /** All of the state but the record of attempts. */
  predicate SameStores(h: Host, h': Host) {
    h.agents == h'.agents && h.panes == h'.panes && h.sessions == h'.sessions && h.roster == h'.roster
  }

  lemma AddedAndRemoved(h: Host, a: Attempt)
    requires a.AgentKey() !in h.agents && a.PaneKey() !in h.panes && a.Row() !in h.sessions
    ensures h.agents + {a.AgentKey()} - {a.AgentKey()} == h.agents
    ensures h.panes + {a.PaneKey()} - {a.PaneKey()} == h.panes
    ensures h.sessions[a.Row() := a.who.pane] - {a.Row()} == h.sessions
    ensures a.Row() !in h.roster ==> h.roster + {a.Row()} - {a.Row()} == h.roster
    ensures a.Row() in h.roster ==> h.roster + {a.Row()} == h.roster
  {
  }

  /** An attempt that fails at any point, and whose rollback does not throw, leaves everything as it was. */
  lemma FailureRestores(h: Host, identity: Identity, fault: Fault)
    ensures var h1, i := Step(h, Ask(identity, fault)), |h.attempts|;
            var h2 := Step(Step(h1, Connect(i, false)), ServerClosed(i, false, false));
            (h2.attempts[i].phase.Refused? || h2.attempts[i].phase.Failed?) && SameStores(h, h2)
  {
    hide Trim, Key;
    var h1, i := Step(h, Ask(identity, fault)), |h.attempts|;
    var a := h1.attempts[i];
    if !a.phase.Refused? {
      var h2 := Step(h1, Connect(i, false));
      assert h2.attempts[i] == a.(phase := RollingBack) && SameStores(h1, h2);
      if !a.active {
      } else if !a.session {
        assert h.agents + {a.AgentKey()} - {a.AgentKey()} == h.agents;
        assert h.panes + {a.PaneKey()} - {a.PaneKey()} == h.panes;
      } else {
        AddedAndRemoved(h, a);
      }
    }
  }

  /** A session that was hosted, closed and then had its registration rolled back leaves everything as it was. */
  lemma CloseAndRollbackRestore(h: Host, identity: Identity)
    requires HostSession(h, identity, NoFault).attempts[|h.attempts|].phase.Connecting?
    ensures var h1, i := Step(h, Ask(identity, NoFault)), |h.attempts|;
            var h2 := Step(Step(Step(h1, Connect(i, true)), CallClose(i)), ServerClosed(i, false, false));
            && h2.attempts[i].phase.Closed? && h2.roster == h.roster + {h2.attempts[i].Row()}
            && SameStores(h, Step(h2, CallRollback(i, false, false)))
  {
    hide Trim, Key;
  }

  // ---------------------------------------------------------------- the same amid other attempts

  /** The attempt's keys are free, and its agent has no session. */
  predicate LetGo(h: Host, a: Attempt) {
    a.AgentKey() !in h.agents && a.PaneKey() !in h.panes && a.Row() !in h.sessions
  }

  /** Nothing differs but, at most, at the attempt's own keys and rows. */
  ghost predicate OnlyOwn(h: Host, h': Host, a: Attempt) {
    && (forall k: string | k != a.AgentKey() :: k in h.agents <==> k in h'.agents)
    && (forall k: string | k != a.PaneKey() :: k in h.panes <==> k in h'.panes)
    && (forall row | row != a.Row() :: row in h.roster <==> row in h'.roster)
    && (forall row | row != a.Row() :: row in h.sessions <==> row in h'.sessions)
    && (forall row | row != a.Row() && row in h.sessions :: h'.sessions[row] == h.sessions[row])
  }

  lemma AskIsLocal(h: Host, identity: Identity, fault: Fault)
    ensures OnlyOwn(h, HostSession(h, identity, fault), HostSession(h, identity, fault).attempts[|h.attempts|])
  {
    hide Trim, Key, SessionConflict;
  }

  lemma RollBackIsLocal(h: Host, i: nat, endThrows: bool, removeThrows: bool)
    requires i < |h.attempts|
    ensures OnlyOwn(h, RollBack(h, i, endThrows, removeThrows), h.attempts[i])
  {
    hide Key, CanEnd;
  }

  lemma FinishIsLocal(h: Host, i: nat, endThrows: bool)
    requires i < |h.attempts|
    ensures OnlyOwn(h, FinishClose(h, i, endThrows), h.attempts[i])
  {
    hide Key, CanEnd;
  }

  lemma OwnKeysStay(h: Host, h': Host, a: Attempt, b: Attempt)
    requires OnlyOwn(h, h', a) && b.who == a.who
    ensures OnlyOwn(h, h', b)
  {
  }

  /** What an event does on behalf of one attempt stays within that attempt's keys and rows. */
  lemma EventsAreLocal(h: Host, e: Event, i: nat)
    requires !e.Foreign? && (e.Ask? ==> i == |h.attempts|) && (!e.Ask? ==> i < |h.attempts| && ActsOn(e, i))
    ensures i < |Step(h, e).attempts| && OnlyOwn(h, Step(h, e), Step(h, e).attempts[i])
  {
    hide Key, CanEnd, HostSession, RollBack, FinishClose, OnlyOwn;
    match e {
      case Ask(identity, fault) =>
        FlagsSayWhatTheCallDid(h, identity, fault);
        AskIsLocal(h, identity, fault);
      case ServerClosed(_, endThrows, removeThrows) =>
        var a := h.attempts[i];
        CleanupMovesOne(h, i, endThrows, removeThrows);
        if a.phase.RollingBack? { RollBackIsLocal(h, i, endThrows, removeThrows); }
        else if a.phase.Closing? { FinishIsLocal(h, i, endThrows); }
        else { StoresStay(h, h, a); }
        OwnKeysStay(h, Step(h, e), a, Step(h, e).attempts[i]);
      case Connect(_, _) => StoresStay(h, Step(h, e), Step(h, e).attempts[i]);
      case CallClose(_) => StoresStay(h, Step(h, e), Step(h, e).attempts[i]);
      case CallRollback(_, _, _) => StoresStay(h, Step(h, e), h.attempts[i]);
    }
  }

  lemma StoresStay(h: Host, h': Host, a: Attempt)
    requires h'.agents == h.agents && h'.panes == h.panes && h'.sessions == h.sessions
    requires h'.roster == h.roster || h'.roster == h.roster - {a.Row()}
    ensures OnlyOwn(h, h', a)
  {
  }

  /** The end of a rollback that does not throw, with the session still the attempt's own. */
  lemma RollBackLetsGo(h: Host, i: nat)
    requires HostInv(h) && Intact(h, i) && h.attempts[i].phase.RollingBack? && h.attempts[i].session
    ensures var h', a := Step(h, ServerClosed(i, false, false)), h.attempts[i];
            h'.attempts[i].phase.Failed? && LetGo(h', a) && (a.Row() in h'.roster <==> a.Row() in h.roster && !a.roster)
  {
    hide Trim, Key, HostInv;
    SoundAt(h, i);
  }

  /**
   * An attempt that recorded its session and then failed, with a rollback that does not throw, has let go of all it
   * took and restored its agent's registration, whatever other attempts did before and after its connection failed.
   */
  lemma FailureRestoresAmidOthers(h: Host, identity: Identity, fault: Fault, before: seq<Event>, after: seq<Event>)
    requires HostInv(h) && HostSession(h, identity, fault).attempts[|h.attempts|].session
    requires NoneActOn(before, |h.attempts|) && NoneActOn(after, |h.attempts|)
    ensures var i := |h.attempts|;
            var h1 := Run(Step(h, Ask(identity, fault)), before);
            var h2 := Run(Step(h1, Connect(i, false)), after);
            && i < |h2.attempts|
            && var h3, a := Step(h2, ServerClosed(i, false, false)), h2.attempts[i];
               h3.attempts[i].phase.Failed? && LetGo(h3, a) && (a.Row() in h3.roster <==> a.Row() in h.roster)
  {
    hide HostInv, Run, Trim, Key, SessionConflict;
    var i := |h.attempts|;
    var h0 := Step(h, Ask(identity, fault));
    var a := h0.attempts[i];
    StepKeepsHostInv(h, Ask(identity, fault));
    FlagsSayWhatTheCallDid(h, identity, fault);
    HolderIsUndisturbed(h0, before, i);
    RunKeepsHostInv(h0, before);
    var h1 := Run(h0, before);
    var h1' := Step(h1, Connect(i, false));
    StepKeepsHostInv(h1, Connect(i, false));
    assert h1'.attempts[i] == a.(phase := RollingBack) && Intact(h1', i);
    HolderIsUndisturbed(h1', after, i);
    RunKeepsHostInv(h1', after);
    RollBackLetsGo(Run(h1', after), i);
  }

  lemma OthersKeepAttempt(h: Host, e: Event, i: nat)
    requires i < |h.attempts| && !ActsOn(e, i)
    ensures i < |Step(h, e).attempts| && Step(h, e).attempts[i] == h.attempts[i]
  {
    hide HostSession, RollBack, FinishClose, RollBackRegistration;
    match e {
      case Ask(identity, fault) => FlagsSayWhatTheCallDid(h, identity, fault);
      case ServerClosed(j, endThrows, removeThrows) =>
        if j < |h.attempts| { CleanupMovesOne(h, j, endThrows, removeThrows); }
      case CallRollback(j, inspectThrows, removeThrows) =>
        if j < |h.attempts| { RollbackMovesNone(h, j, inspectThrows, removeThrows); }
      case _ =>
    }
  }

  lemma RollbackMovesNone(h: Host, i: nat, inspectThrows: bool, removeThrows: bool)
    requires i < |h.attempts|
    ensures RollBackRegistration(h, i, inspectThrows, removeThrows).attempts == h.attempts
  {
  }

  lemma {:induction false} OthersLeaveAttempt(h: Host, events: seq<Event>, i: nat)
    requires i < |h.attempts| && NoneActOn(events, i)
    ensures i < |Run(h, events).attempts| && Run(h, events).attempts[i] == h.attempts[i]
    decreases |events|
  {
    hide Step, ActsOn;
    if events != [] {
      assert events[0] in events && forall e <- events[1..] :: e in events;
      OthersKeepAttempt(h, events[0], i);
      OthersLeaveAttempt(Step(h, events[0]), events[1..], i);
    }
  }

  /**
   * An attempt that fails before it recorded a session never touched the stores, and its rollback, whatever others did
   * before it, releases its own keys, if it had claimed them, and nothing else.
   */
  lemma EarlyFailureReleases(h: Host, identity: Identity, fault: Fault, before: seq<Event>, endThrows: bool,
                             removeThrows: bool)
    requires HostInv(h) && !HostSession(h, identity, fault).attempts[|h.attempts|].session
    requires NoneActOn(before, |h.attempts|)
    ensures var i, h0 := |h.attempts|, Step(h, Ask(identity, fault));
            var h1 := Run(h0, before);
            && h0.sessions == h.sessions && h0.roster == h.roster && i < |h1.attempts|
            && var h2, a := Step(h1, ServerClosed(i, endThrows, removeThrows)), h1.attempts[i];
               && (a.phase.Refused? || (a.phase.RollingBack? && h2.attempts[i].phase.Failed?))
               && h2.sessions == h1.sessions && h2.roster == h1.roster
               && h2.agents == (if a.active then h1.agents - {a.AgentKey()} else h1.agents)
               && h2.panes == (if a.active then h1.panes - {a.PaneKey()} else h1.panes)
  {
    hide Run, Trim, Key, HeldKeys, NoSharing;
    var i, h0 := |h.attempts|, Step(h, Ask(identity, fault));
    AskKeepsInv(h, identity, fault);
    SoundAt(h0, i);
    OthersLeaveAttempt(h0, before, i);
  }

  /** The end of a close that does not throw: the registration stays. */
  lemma CloseLetsGo(h: Host, i: nat)
    requires Intact(h, i) && h.attempts[i].phase.Closing?
    ensures var h', a := Step(h, ServerClosed(i, false, false)), h.attempts[i];
            && h'.attempts[i] == a.(phase := Closed) && LetGo(h', a)
            && (a.Row() in h'.roster <==> a.Row() in h.roster)
  {
    hide Trim, Key;
  }

  /**
   * A hosted session that is closed has let go of its keys and its session row, with its agent still registered,
   * whatever other attempts did while it was hosted and closing. Rolling its registration back then restores what was
   * there before the call, unless the agent has been hosted again.
   */
  lemma CloseRestoresAmidOthers(h: Host, identity: Identity, hosted: seq<Event>, closing: seq<Event>)
    requires HostInv(h) && HostSession(h, identity, NoFault).attempts[|h.attempts|].phase.Connecting?
    requires NoneActOn(hosted, |h.attempts|) && NoneActOn(closing, |h.attempts|)
    ensures var i := |h.attempts|;
            var h1 := Run(Step(Step(h, Ask(identity, NoFault)), Connect(i, true)), hosted);
            var h2 := Run(Step(h1, CallClose(i)), closing);
            && i < |h2.attempts|
            && var h3, a := Step(h2, ServerClosed(i, false, false)), h2.attempts[i];
               && h3.attempts[i] == a.(phase := Closed) && LetGo(h3, a) && a.Row() in h3.roster
               && (a.Row() in Step(h3, CallRollback(i, false, false)).roster <==> a.Row() in h.roster)
  {
    hide HostInv, Run, Trim, Key, SessionConflict;
    var i := |h.attempts|;
    var h0 := Step(h, Ask(identity, NoFault));
    var h0' := Step(h0, Connect(i, true));
    StepKeepsHostInv(h, Ask(identity, NoFault));
    FlagsSayWhatTheCallDid(h, identity, NoFault);
    StepKeepsHostInv(h0, Connect(i, true));
    HolderIsUndisturbed(h0', hosted, i);
    RunKeepsHostInv(h0', hosted);
    var h1 := Run(h0', hosted);
    var h1' := Step(h1, CallClose(i));
    StepKeepsHostInv(h1, CallClose(i));
    HolderIsUndisturbed(h1', closing, i);
    CloseLetsGo(Run(h1', closing), i);
  }

  /** A rollback of a registration later on still restores it, as long as the agent has no session then. */
  lemma LateRollbackRestores(h: Host, i: nat)
    requires i < |h.attempts| && h.attempts[i].HasHandle()
    ensures var h', a := Step(h, CallRollback(i, false, false)), h.attempts[i];
            a.Row() in h'.roster <==> a.Row() in h.roster && (!a.roster || a.Row() in h.sessions)
  {
  }

  // ---------------------------------------------------------------- keys

  /** One project id goes on where the other ends, and the names make up for it. */
  predicate Shifts(p: string, x: string, q: string, y: string, r: string) { q == Key(p, r) && x == Key(r, y) }

  /**
   * Two different pairs of project and name have the same key exactly when one project id is the other, a colon and
   * some text, and the other name is that text, a colon and the one name. Ids from the registry are UUIDs and have no
   * colon.
   */
  lemma KeysCollideIff(p: string, x: string, q: string, y: string)
    ensures Key(p, x) == Key(q, y) && (p, x) != (q, y)
            <==> exists r: string :: Shifts(p, x, q, y, r) || Shifts(q, y, p, x, r)
  {
    KeyParts(p, x);
    KeyParts(q, y);
    if Key(p, x) == Key(q, y) {
      if |p| < |q| { CollisionShifts(p, x, q, y); }
      if |q| < |p| { CollisionShifts(q, y, p, x); }
    }
  }

  lemma KeyParts(p: string, x: string)
    ensures Key(p, x)[..|p|] == p && Key(p, x)[|p|] == ':' && Key(p, x)[|p| + 1..] == x
  {
  }

  lemma CollisionShifts(p: string, x: string, q: string, y: string)
    requires Key(p, x) == Key(q, y) && |p| < |q|
    ensures exists r: string :: Shifts(p, x, q, y, r)
  {
    var k := Key(p, x);
    var r := k[|p| + 1..|q|];
    KeyParts(p, x);
    KeyParts(q, y);
    assert q == Key(p, r);
    assert x == Key(r, y);
    assert Shifts(p, x, q, y, r);
  }

  /** So project ids without a colon keep all keys apart. */
  lemma KeysAreExact(p: string, x: string, q: string, y: string)
    requires ':' !in p && ':' !in q
    ensures Key(p, x) == Key(q, y) <==> p == q && x == y
  {
    KeysCollideIff(p, x, q, y);
    forall r: string
      ensures !Shifts(p, x, q, y, r) && !Shifts(q, y, p, x, r)
    {
      assert Key(p, r)[|p|] == ':' && Key(q, r)[|q|] == ':';
    }
  }

  /** Two agents of different projects with one key: "p:q" and "x", "p" and "q:x". */
  lemma KeysCanCollide()
    ensures Key("p:q", "x") == Key("p", "q:x")
  {
    assert Key("p:q", "x") == "p:q:x" == Key("p", "q:x");
  }

  // ---------------------------------------------------------------- the host as an object

  /** The two process-wide sets, the stores, and the calls of `hostSession` made so far. */
  class LiveSessionHost {
    var activeHostedAgents: set<string>
    var activeHostedPanes: set<string>
    var sessions: map<(string, string), string>
    var roster: set<(string, string)>
    var attempts: seq<Attempt>

    ghost function View(): Host
      reads this
    {
      Host(activeHostedAgents, activeHostedPanes, sessions, roster, attempts)
    }

    ghost predicate Valid()
      reads this
    {
      HostInv(View())
    }

    constructor ()
      ensures Valid() && View() == INITIAL_HOST
    {
      activeHostedAgents, activeHostedPanes, sessions, roster, attempts := {}, {}, map[], {}, [];
    }

    /** Up to the await of the connection or, when setup throws, of the partly connected server's close. */
    method HostSession(identity: Identity, fault: Fault) returns (i: nat)
      requires Valid()
      modifies this
      ensures Valid() && i == |old(attempts)| && View() == Step(old(View()), Ask(identity, fault))
    {
      hide HostInv, Trim, Key;
      StepKeepsHostInv(View(), Ask(identity, fault));
      i := |attempts|;
      var who := Trimmed(identity);
      var a := Attempt(who, Refused, false, false, false);
      if Blank(who) || a.AgentKey() in activeHostedAgents || a.PaneKey() in activeHostedPanes {
        attempts := attempts + [a];
        return;
      }
      a := a.(phase := RollingBack);
      if fault == AtOpen {
        attempts := attempts + [a];
        return;
      }
      activeHostedAgents := activeHostedAgents + {a.AgentKey()};
      activeHostedPanes := activeHostedPanes + {a.PaneKey()};
      a := a.(active := true);
      var recorded := RecordSession(a, fault == AtSession);
      if !recorded {
        attempts := attempts + [a];
        return;
      }
      a := a.(session := true);
      if fault == AtContext || fault == AtRoster {
        attempts := attempts + [a];
        return;
      }
      a := a.(roster := a.Row() !in roster);
      roster := roster + {a.Row()};
      attempts := attempts + [if fault == AtServer then a else a.(phase := Connecting)];
    }

    /** A throwing call leaves the table as it was. */
    method RecordSession(a: Attempt, throws: bool) returns (recorded: bool)
      modifies this`sessions
      ensures recorded <==> !throws && !SessionConflict(old(View()), a.who)
      ensures sessions == if recorded then old(sessions)[a.Row() := a.who.pane] else old(sessions)
    {
      recorded := !throws && a.Row() !in sessions
                  && forall row <- sessions :: !(row.0 == a.who.project && sessions[row] == a.who.pane);
      if recorded {
        sessions := sessions[a.Row() := a.who.pane];
      }
    }

    method EndSession(a: Attempt, throws: bool) returns (ended: bool)
      modifies this`sessions
      ensures ended <==> !throws && CanEnd(old(View()), a)
      ensures sessions == if ended then old(sessions) - {a.Row()} else old(sessions)
    {
      ended := !throws && a.Row() in sessions && sessions[a.Row()] == a.who.pane;
      if ended {
        sessions := sessions - {a.Row()};
      }
    }

    method Connected(i: nat, ok: bool)
      requires Valid() && i < |attempts| && attempts[i].phase.Connecting?
      modifies this`attempts
      ensures Valid() && View() == Step(old(View()), Connect(i, ok))
    {
      hide HostInv;
      StepKeepsHostInv(View(), Connect(i, ok));
      attempts := attempts[i := attempts[i].(phase := if ok then Hosted else RollingBack)];
    }

    /** The rest of the catch block. */
    method RollBackSetup(i: nat, endThrows: bool, removeThrows: bool)
      requires Valid() && i < |attempts| && attempts[i].phase.RollingBack?
      modifies this
      ensures Valid() && View() == Step(old(View()), ServerClosed(i, endThrows, removeThrows))
    {
      hide HostInv, Key;
      StepKeepsHostInv(View(), ServerClosed(i, endThrows, removeThrows));
      var a := attempts[i];
      if a.active {
        activeHostedAgents := activeHostedAgents - {a.AgentKey()};
        activeHostedPanes := activeHostedPanes - {a.PaneKey()};
      }
      var sessionRolledBack := !a.session;
      if a.session {
        sessionRolledBack := EndSession(a, endThrows);
      }
      if a.roster && sessionRolledBack && !removeThrows {
        roster := roster - {a.Row()};
      }
      attempts := attempts[i := a.(phase := Failed)];
    }

    /** `close` up to its await; nothing happens when it was called before. */
    method Close(i: nat)
      requires Valid() && i < |attempts| && attempts[i].HasHandle()
      modifies this`attempts
      ensures Valid() && View() == Step(old(View()), CallClose(i))
    {
      hide HostInv;
      StepKeepsHostInv(View(), CallClose(i));
      if !attempts[i].phase.Hosted? {
        return;
      }
      attempts := attempts[i := attempts[i].(phase := Closing)];
    }

    /** The rest of `close`: end the session, then release both keys. */
    method FinishClosing(i: nat, endThrows: bool, removeThrows: bool)
      requires Valid() && i < |attempts| && attempts[i].phase.Closing?
      modifies this
      ensures Valid() && View() == Step(old(View()), ServerClosed(i, endThrows, removeThrows))
    {
      hide HostInv, Key;
      StepKeepsHostInv(View(), ServerClosed(i, endThrows, removeThrows));
      var a := attempts[i];
      var _ := EndSession(a, endThrows);
      activeHostedAgents := activeHostedAgents - {a.AgentKey()};
      activeHostedPanes := activeHostedPanes - {a.PaneKey()};
      attempts := attempts[i := a.(phase := Closed)];
    }

    method RollbackRegistration(i: nat, inspectThrows: bool, removeThrows: bool)
      requires Valid() && i < |attempts| && attempts[i].HasHandle()
      modifies this`roster
      ensures Valid() && View() == Step(old(View()), CallRollback(i, inspectThrows, removeThrows))
    {
      hide HostInv, Key;
      StepKeepsHostInv(View(), CallRollback(i, inspectThrows, removeThrows));
      var a := attempts[i];
      if !a.roster {
        return;
      }
      var sessionStillActive := inspectThrows || a.Row() in sessions;
      if !sessionStillActive && !removeThrows {
        roster := roster - {a.Row()};
      }
    }
  }
}
