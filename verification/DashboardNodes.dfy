/**
 * What each node of the dashboard's forest says, wherever it stands: its agent's status, and below it the agents that
 * name it as their parent, in roster order.
 */
module DashboardNodes {
  import opened Basics
  import opened DashboardTree

  // ---------------------------------------------------------------- nodes by path

  /** The path leads to a node: an index among the tops, then an index among the children at each step down. */
  predicate IsPath(ts: seq<Tree>, path: seq<nat>)
    decreases |path|
  {
    path != [] && path[0] < |ts| && (|path| == 1 || IsPath(ts[path[0]].children, path[1..]))
  }

  function NodeAt(ts: seq<Tree>, path: seq<nat>): Tree
    requires IsPath(ts, path)
    decreases |path|
  {
    if |path| == 1 then ts[path[0]] else NodeAt(ts[path[0]].children, path[1..])
  }

  /** The ids of the nodes above the one that the path leads to. */
  function IdsAbove(ts: seq<Tree>, path: seq<nat>): set<string>
    requires IsPath(ts, path)
    decreases |path|
  {
    if |path| == 1 then {} else {ts[path[0]].agent.id} + IdsAbove(ts[path[0]].children, path[1..])
  }

  function Agents(ts: seq<Tree>): seq<Agent> { seq(|ts|, k requires 0 <= k < |ts| => ts[k].agent) }

  // ---------------------------------------------------------------- roster order

  /** The chosen entries are those of the roster that meet the condition, each as often as there, in roster order. */
  ghost predicate InRosterOrder(chosen: seq<Agent>, agents: seq<Agent>, meets: Agent -> bool) {
    exists at: seq<nat> :: Selects(at, chosen, agents, meets)
  }

  ghost predicate Selects(at: seq<nat>, chosen: seq<Agent>, agents: seq<Agent>, meets: Agent -> bool) {
    Lists(at, chosen, agents) && Covers(at, agents, meets)
  }

  /** The chosen entries stand at these increasing positions. */
  ghost predicate Lists(at: seq<nat>, chosen: seq<Agent>, agents: seq<Agent>) {
    && |at| == |chosen|
    && (forall j: nat | j < |at| :: at[j] < |agents| && agents[at[j]] == chosen[j])
    && (forall j: nat, k: nat | j < k < |at| :: at[j] < at[k])
  }

  /** These are the positions of all entries that meet the condition. */
  ghost predicate Covers(at: seq<nat>, agents: seq<Agent>, meets: Agent -> bool) {
    forall i: nat | i < |agents| :: meets(agents[i]) <==> i in at
  }

  /** The agent's parent is this one. */
  function Names(id: string): Agent -> bool { (a: Agent) => a.parent == id }

  /** The agent's parent is none of these. */
  function NamesNone(ids: set<string>): Agent -> bool { (a: Agent) => a.parent !in ids }

  lemma OneMoreSelected(at: seq<nat>, chosen: seq<Agent>, agents: seq<Agent>, meets: Agent -> bool)
    returns (at': seq<nat>)
    requires agents != [] && Selects(at, chosen, agents[..|agents| - 1], meets)
    ensures var a := agents[|agents| - 1]; Selects(at', if meets(a) then chosen + [a] else chosen, agents, meets)
  {
    hide Lists, Covers;
    var init, a := agents[..|agents| - 1], agents[|agents| - 1];
    assert agents == init + [a];
    at' := if meets(a) then at + [|init|] else at;
    OneMoreListed(at, chosen, init, a);
    OneMoreCovered(at, chosen, init, a, meets);
  }

  lemma OneMoreListed(at: seq<nat>, chosen: seq<Agent>, init: seq<Agent>, a: Agent)
    requires Lists(at, chosen, init)
    ensures Lists(at, chosen, init + [a]) && Lists(at + [|init|], chosen + [a], init + [a])
  {
  }

  lemma OneMoreCovered(at: seq<nat>, chosen: seq<Agent>, init: seq<Agent>, a: Agent, meets: Agent -> bool)
    requires Lists(at, chosen, init) && Covers(at, init, meets)
    ensures Covers(if meets(a) then at + [|init|] else at, init + [a], meets)
  {
    assert |init| !in at;
  }

  lemma {:induction false} ChildrenSelected(agents: seq<Agent>, id: string) returns (at: seq<nat>)
    ensures Selects(at, Children(agents, id), agents, Names(id))
  {
    at := [];
    if agents != [] {
      at := ChildrenSelected(agents[..|agents| - 1], id);
      at := OneMoreSelected(at, Children(agents[..|agents| - 1], id), agents, Names(id));
    }
  }

  lemma {:induction false} RootsSelected(agents: seq<Agent>, ids: set<string>) returns (at: seq<nat>)
    ensures Selects(at, Roots(agents, ids), agents, NamesNone(ids))
  {
    at := [];
    if agents != [] {
      at := RootsSelected(agents[..|agents| - 1], ids);
      at := OneMoreSelected(at, Roots(agents[..|agents| - 1], ids), agents, NamesNone(ids));
    }
  }

  // ---------------------------------------------------------------- what a node says

  /**
   * A node that repeats one above it is a leaf of unknown status. Any other has its agent's status, unknown if the map
   * has none, and below it the agents that name its id as their parent, in roster order.
   */
  ghost predicate SaysRight(n: Tree, above: set<string>, agents: seq<Agent>, statuses: Statuses) {
    && n.agent in agents
    && if n.agent.id in above then n.status == Unknown && n.children == []
       else
         && (n.agent.id in statuses ==> n.status == statuses[n.agent.id])
         && (n.agent.id !in statuses ==> n.status == Unknown)
         && InRosterOrder(Agents(n.children), agents, Names(n.agent.id))
  }

  lemma NodesAreOf(agents: seq<Agent>, statuses: Statuses, kids: seq<Agent>, visited: set<string>)
    requires forall k <- kids :: k in agents
    ensures Agents(NodesOf(agents, statuses, kids, visited)) == kids
  {
    hide NodesOf;
    var ts := NodesOf(agents, statuses, kids, visited);
    forall i: nat | i < |kids|
      ensures ts[i].agent == kids[i]
    {
      NodesAt(agents, statuses, kids, visited, i);
    }
  }

  lemma NodeSaysRight(agents: seq<Agent>, statuses: Statuses, a: Agent, visited: set<string>)
    requires a in agents
    ensures SaysRight(NodeOf(agents, statuses, a, visited), visited, agents, statuses)
  {
    hide NodesOf, Lists, Covers, Children;
    if a.id !in visited {
      VisitLowers(agents, visited, a);
      NodesAreOf(agents, statuses, Children(agents, a.id), visited + {a.id});
      var at := ChildrenSelected(agents, a.id);
    }
  }

  lemma {:induction false} NodesSayRight(agents: seq<Agent>, statuses: Statuses, kids: seq<Agent>, visited: set<string>,
                                         path: seq<nat>)
    requires (forall k <- kids :: k in agents) && IsPath(NodesOf(agents, statuses, kids, visited), path)
    ensures var ts := NodesOf(agents, statuses, kids, visited);
            SaysRight(NodeAt(ts, path), visited + IdsAbove(ts, path), agents, statuses)
    decreases |path|
  {
    hide NodesOf, SaysRight, Unvisited;
    var ts, a := NodesOf(agents, statuses, kids, visited), kids[path[0]];
    NodesAt(agents, statuses, kids, visited, path[0]);
    if |path| == 1 {
      NodeSaysRight(agents, statuses, a, visited);
      assert visited + IdsAbove(ts, path) == visited;
    } else if a.id !in visited {
      VisitLowers(agents, visited, a);
      NodesSayRight(agents, statuses, Children(agents, a.id), visited + {a.id}, path[1..]);
      assert visited + IdsAbove(ts, path) == visited + {a.id} + IdsAbove(ts[path[0]].children, path[1..]);
    }
  }

  /** Every node of the forest says what it has to, for any ids and parent links. */
  lemma ForestSaysRight(agents: seq<Agent>, statuses: Statuses, path: seq<nat>)
    requires IsPath(Forest(agents, statuses), path)
    ensures var ts := Forest(agents, statuses);
            SaysRight(NodeAt(ts, path), IdsAbove(ts, path), agents, statuses)
  {
    hide NodesOf, SaysRight, Tops, NodeAt, IdsAbove, WithMissing;
    ForestIsTops(agents, statuses, |agents|);
    NodesSayRight(agents, statuses, Tops(agents, statuses, |agents|), {}, path);
    var ts := Forest(agents, statuses);
    assert {} + IdsAbove(ts, path) == IdsAbove(ts, path);
  }

  // ---------------------------------------------------------------- the tops

  /** The agents that got a tree of their own although their parent is in the roster, as positions in it. */
  ghost predicate LateTops(late: seq<nat>, tops: seq<Agent>, agents: seq<Agent>, n: nat) {
    && |late| == |tops|
    && (forall j: nat | j < |late| :: late[j] < n <= |agents| && agents[late[j]] == tops[j])
    && (forall j: nat, k: nat | j < k < |late| :: late[j] < late[k])
    && (forall j: nat | j < |late| :: tops[j].parent in Ids(agents))
  }

  ghost predicate RootsThenLate(late: seq<nat>, tops: seq<Agent>, agents: seq<Agent>, n: nat) {
    var roots := Roots(agents, Ids(agents));
    |roots| <= |tops| && tops[..|roots|] == roots && LateTops(late, tops[|roots|..], agents, n)
  }

  lemma {:induction false} TopsAreRootsThenLate(agents: seq<Agent>, statuses: Statuses, n: nat) returns (late: seq<nat>)
    requires n <= |agents|
    ensures RootsThenLate(late, Tops(agents, statuses, n), agents, n)
  {
    hide NodesOf, FlattenAll, Ids, Roots;
    late := [];
    if n > 0 {
      late := TopsAreRootsThenLate(agents, statuses, n - 1);
      var a := agents[n - 1];
      if a.id !in Ids(FlattenAll(NodesOf(agents, statuses, Tops(agents, statuses, n - 1), {}))) {
        if a.parent !in Ids(agents) {
          RootsStayTops(agents, statuses, n - 1, a);
          RenderedHead(agents, statuses, Tops(agents, statuses, n - 1), a);
          assert false;
        }
        late := late + [n - 1];
      }
    }
  }

  lemma RenderedHead(agents: seq<Agent>, statuses: Statuses, tops: seq<Agent>, a: Agent)
    requires (forall t <- tops :: t in agents) && a in tops
    ensures a.id in Ids(FlattenAll(NodesOf(agents, statuses, tops, {})))
  {
    hide NodesOf, FlattenAll;
    HeadAppears(agents, statuses, tops, {}, a);
  }

  /**
   * The forest's trees are those of the agents whose parent is not in the roster, in roster order, and after them trees
   * of agents whose parent is, again in roster order.
   */
  lemma TreesAreInOrder(agents: seq<Agent>, statuses: Statuses) returns (roots: nat, late: seq<nat>)
    ensures var tops := Agents(Forest(agents, statuses));
            && roots <= |tops|
            && InRosterOrder(tops[..roots], agents, NamesNone(Ids(agents)))
            && LateTops(late, tops[roots..], agents, |agents|)
  {
    hide NodesOf, Lists, Covers, LateTops, Roots, Tops, WithMissing, Ids;
    ForestIsTops(agents, statuses, |agents|);
    NodesAreOf(agents, statuses, Tops(agents, statuses, |agents|), {});
    late := TopsAreRootsThenLate(agents, statuses, |agents|);
    roots := |Roots(agents, Ids(agents))|;
    var at := RootsSelected(agents, Ids(agents));
  }
}
