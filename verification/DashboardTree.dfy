/**
 * The agent tree of the dashboard: a forest over parent links that may dangle, repeat or run in circles.
 */
module DashboardTree {
  import opened Basics

  datatype Status = Warm | Finished | Waiting | Stopped | Stuck | Paused | Unknown

  datatype Agent = Agent(id: string, parent: string, name: Option<string>, role: string, subRole: Option<string>)

  datatype Tree = Node(agent: Agent, status: Status, children: seq<Tree>)

  type Statuses = map<string, Status>

  // ---------------------------------------------------------------- the forest

  function Ids(agents: seq<Agent>): set<string> { set a <- agents :: a.id }

  /** The agents that name this parent, in roster order. */
  function Children(agents: seq<Agent>, id: string): (kids: seq<Agent>)
    ensures forall k <- kids :: k in agents && k.parent == id
    ensures forall a <- agents | a.parent == id :: a in kids
  {
    if agents == [] then []
    else
      var a := agents[|agents| - 1];
      Children(agents[..|agents| - 1], id) + (if a.parent == id then [a] else [])
  }

  /** The first of the agents whose parent is not in the roster. */
  function Roots(agents: seq<Agent>, ids: set<string>): (roots: seq<Agent>)
    ensures forall r <- roots :: r in agents && r.parent !in ids
    ensures forall a <- agents | a.parent !in ids :: a in roots
  {
    if agents == [] then []
    else
      var a := agents[|agents| - 1];
      Roots(agents[..|agents| - 1], ids) + (if a.parent !in ids then [a] else [])
  }

  /** What is still to be visited, as a measure. */
  function Unvisited(agents: seq<Agent>, visited: set<string>): nat { |Ids(agents) - visited| }

  lemma VisitLowers(agents: seq<Agent>, visited: set<string>, a: Agent)
    requires a in agents && a.id !in visited
    ensures Unvisited(agents, visited + {a.id}) < Unvisited(agents, visited)
  {
    var before, after := Ids(agents) - visited, Ids(agents) - (visited + {a.id});
    assert a.id in before && after == before - {a.id};
  }

  /** A node; one already on the path to it becomes a leaf of unknown status. */
  function NodeOf(agents: seq<Agent>, statuses: Statuses, a: Agent, visited: set<string>): Tree
    requires a in agents
    decreases Unvisited(agents, visited), 0
  {
    if a.id in visited then Node(a, Unknown, [])
    else
      VisitLowers(agents, visited, a);
      Node(a, if a.id in statuses then statuses[a.id] else Unknown,
           NodesOf(agents, statuses, Children(agents, a.id), visited + {a.id}))
  }

  function NodesOf(agents: seq<Agent>, statuses: Statuses, kids: seq<Agent>, visited: set<string>): (ts: seq<Tree>)
    requires forall k <- kids :: k in agents
    ensures |ts| == |kids|
    decreases Unvisited(agents, visited), |kids| + 1
  {
    if kids == [] then []
    else
      NodesOf(agents, statuses, kids[..|kids| - 1], visited) + [NodeOf(agents, statuses, kids[|kids| - 1], visited)]
  }

  /** Every node's agent, parents before children. */
  function Flatten(t: Tree): seq<Agent> { [t.agent] + FlattenAll(t.children) }

  function FlattenAll(ts: seq<Tree>): seq<Agent> {
    if ts == [] then [] else FlattenAll(ts[..|ts| - 1]) + Flatten(ts[|ts| - 1])
  }

  /** After the roots, a tree for each of the first `n` agents that is not rendered by then. */
  function WithMissing(agents: seq<Agent>, statuses: Statuses, n: nat, ts: seq<Tree>): seq<Tree>
    requires n <= |agents|
  {
    if n == 0 then ts
    else
      var before := WithMissing(agents, statuses, n - 1, ts);
      if agents[n - 1].id in Ids(FlattenAll(before)) then before
      else before + [NodeOf(agents, statuses, agents[n - 1], {})]
  }

  function Forest(agents: seq<Agent>, statuses: Statuses): seq<Tree> {
    WithMissing(agents, statuses, |agents|, NodesOf(agents, statuses, Roots(agents, Ids(agents)), {}))
  }

  // ---------------------------------------------------------------- the recursion and the loops

  lemma IdsAppend(a: seq<Agent>, b: seq<Agent>)
    ensures Ids(a + b) == Ids(a) + Ids(b)
  {
    forall id: string
      ensures id in Ids(a + b) <==> id in Ids(a) + Ids(b)
    {
      if id in Ids(a) {
        var x :| x in a && x.id == id;
        assert x in a + b;
      }
      if id in Ids(b) {
        var x :| x in b && x.id == id;
        assert x in a + b;
      }
    }
  }

  ghost predicate IsIndex(childrenOf: map<string, seq<Agent>>, agents: seq<Agent>) {
    forall id: string :: Children(agents, id) == if id in childrenOf then childrenOf[id] else []
  }

  lemma FlattenSnoc(ts: seq<Tree>, t: Tree)
    ensures FlattenAll(ts + [t]) == FlattenAll(ts) + Flatten(t)
    ensures Ids(FlattenAll(ts + [t])) == Ids(FlattenAll(ts)) + Ids(Flatten(t))
  {
    assert (ts + [t])[..|ts|] == ts;
    IdsAppend(FlattenAll(ts), Flatten(t));
  }

  lemma NodesSnoc(agents: seq<Agent>, statuses: Statuses, kids: seq<Agent>, i: nat, visited: set<string>)
    requires i < |kids| && forall k <- kids :: k in agents
    ensures NodesOf(agents, statuses, kids[..i + 1], visited)
            == NodesOf(agents, statuses, kids[..i], visited) + [NodeOf(agents, statuses, kids[i], visited)]
  {
    assert kids[..i + 1][..i] == kids[..i];
  }

  method BuildNode(agents: seq<Agent>, childrenOf: map<string, seq<Agent>>, statuses: Statuses, a: Agent,
                   visited: set<string>, rendered: set<string>)
    returns (node: Tree, rendered': set<string>)
    requires a in agents && IsIndex(childrenOf, agents)
    ensures node == NodeOf(agents, statuses, a, visited) && rendered' == rendered + Ids(Flatten(node))
    decreases Unvisited(agents, visited)
  {
    hide Ids, FlattenAll, NodesOf, Unvisited, IsIndex, Children;
    rendered' := rendered + {a.id};
    IdsOfOne(a);
    if a.id in visited {
      node := Node(a, Unknown, []);
      EmptyForest();
      IdsAppend([a], []);
      return;
    }
    VisitLowers(agents, visited, a);
    var nextVisited := visited + {a.id};
    var kids := if a.id in childrenOf then childrenOf[a.id] else [];
    assert kids == Children(agents, a.id) by { IndexFinds(childrenOf, agents, a.id); }
    var children: seq<Tree> := [];
    EmptyForest();
    NoNodes(agents, statuses, nextVisited);
    for i := 0 to |kids|
      invariant children == NodesOf(agents, statuses, kids[..i], nextVisited)
      invariant rendered' == rendered + {a.id} + Ids(FlattenAll(children))
    {
      var child;
      child, rendered' := BuildNode(agents, childrenOf, statuses, kids[i], nextVisited, rendered');
      FlattenSnoc(children, child);
      NodesSnoc(agents, statuses, kids, i, nextVisited);
      children := children + [child];
    }
    assert kids[..|kids|] == kids;
    node := Node(a, if a.id in statuses then statuses[a.id] else Unknown, children);
    IdsAppend([a], FlattenAll(children));
  }

  lemma IndexFinds(childrenOf: map<string, seq<Agent>>, agents: seq<Agent>, id: string)
    requires IsIndex(childrenOf, agents)
    ensures Children(agents, id) == if id in childrenOf then childrenOf[id] else []
  {
  }

  lemma IdsOfOne(a: Agent)
    ensures Ids([a]) == {a.id}
  {
  }

  lemma EmptyForest()
    ensures FlattenAll([]) == [] && Ids([]) == {}
  {
  }

  lemma NoNodes(agents: seq<Agent>, statuses: Statuses, visited: set<string>)
    ensures NodesOf(agents, statuses, [], visited) == []
  {
  }

  lemma RosterSnoc(agents: seq<Agent>, i: nat, ids: set<string>)
    requires i < |agents|
    ensures forall id: string ::
              Children(agents[..i + 1], id)
              == Children(agents[..i], id) + (if agents[i].parent == id then [agents[i]] else [])
    ensures Roots(agents[..i + 1], ids)
            == Roots(agents[..i], ids) + (if agents[i].parent !in ids then [agents[i]] else [])
  {
    assert agents[..i + 1][..i] == agents[..i];
  }

  lemma IndexStep(childrenOf: map<string, seq<Agent>>, agents: seq<Agent>, i: nat)
    requires i < |agents| && IsIndex(childrenOf, agents[..i])
    ensures var a := agents[i];
            var before := if a.parent in childrenOf then childrenOf[a.parent] else [];
            IsIndex(childrenOf[a.parent := before + [a]], agents[..i + 1])
  {
    hide Children;
    RosterSnoc(agents, i, {});
  }

  lemma EmptyRoster(ids: set<string>)
    ensures IsIndex(map[], []) && Roots([], ids) == []
  {
  }

  /** The agents by parent, and those whose parent is not in the roster. */
  method IndexAgents(agents: seq<Agent>) returns (childrenOf: map<string, seq<Agent>>, roots: seq<Agent>)
    ensures IsIndex(childrenOf, agents) && roots == Roots(agents, Ids(agents))
  {
    hide IsIndex, Roots, Ids;
    var agentIds := Ids(agents);
    EmptyRoster(agentIds);
    childrenOf := map[];
    roots := [];
    for i := 0 to |agents|
      invariant IsIndex(childrenOf, agents[..i])
      invariant roots == Roots(agents[..i], agentIds)
    {
      var a := agents[i];
      RosterSnoc(agents, i, agentIds);
      IndexStep(childrenOf, agents, i);
      childrenOf := childrenOf[a.parent := (if a.parent in childrenOf then childrenOf[a.parent] else []) + [a]];
      if a.parent !in agentIds {
        roots := roots + [a];
      }
    }
    assert agents[..|agents|] == agents;
  }

  method BuildTree(agents: seq<Agent>, statuses: Statuses) returns (tree: seq<Tree>)
    ensures tree == Forest(agents, statuses)
  {
    hide Ids, FlattenAll, Flatten, NodesOf, NodeOf, Roots, IsIndex;
    var childrenOf, roots := IndexAgents(agents);
    tree := [];
    var rendered: set<string> := {};
    EmptyForest();
    NoNodes(agents, statuses, {});
    for i := 0 to |roots|
      invariant tree == NodesOf(agents, statuses, roots[..i], {})
      invariant rendered == Ids(FlattenAll(tree))
    {
      var node;
      node, rendered := BuildNode(agents, childrenOf, statuses, roots[i], {}, rendered);
      FlattenSnoc(tree, node);
      NodesSnoc(agents, statuses, roots, i, {});
      tree := tree + [node];
    }
    assert roots[..|roots|] == roots;
    ghost var rooted := tree;
    for i := 0 to |agents|
      invariant tree == WithMissing(agents, statuses, i, rooted)
      invariant rendered == Ids(FlattenAll(tree))
    {
      if agents[i].id !in rendered {
        var node;
        node, rendered := BuildNode(agents, childrenOf, statuses, agents[i], {}, rendered);
        FlattenSnoc(tree, node);
        tree := tree + [node];
      }
    }
  }

  // ---------------------------------------------------------------- every agent appears

  /** The agents that get a tree of their own: the roots, then those not rendered in their turn. */
  ghost function Tops(agents: seq<Agent>, statuses: Statuses, n: nat): (tops: seq<Agent>)
    requires n <= |agents|
    ensures forall t <- tops :: t in agents
  {
    if n == 0 then Roots(agents, Ids(agents))
    else
      var before := Tops(agents, statuses, n - 1);
      if agents[n - 1].id in Ids(FlattenAll(NodesOf(agents, statuses, before, {}))) then before
      else before + [agents[n - 1]]
  }

  lemma {:induction false} ForestIsTops(agents: seq<Agent>, statuses: Statuses, n: nat)
    requires n <= |agents|
    ensures WithMissing(agents, statuses, n, NodesOf(agents, statuses, Roots(agents, Ids(agents)), {}))
            == NodesOf(agents, statuses, Tops(agents, statuses, n), {})
  {
    hide Ids, FlattenAll, Roots, NodesOf;
    if n > 0 {
      ForestIsTops(agents, statuses, n - 1);
      var before := Tops(agents, statuses, n - 1);
      var longer := before + [agents[n - 1]];
      assert longer[..|before|] == before && longer[..|before| + 1] == longer;
      NodesSnoc(agents, statuses, longer, |before|, {});
    }
  }

  lemma {:induction false} InForest(ts: seq<Tree>, i: nat, a: Agent)
    requires i < |ts| && a in Flatten(ts[i])
    ensures a in FlattenAll(ts)
  {
    if i < |ts| - 1 { InForest(ts[..|ts| - 1], i, a); }
  }

  lemma {:induction false} FromForest(ts: seq<Tree>, a: Agent) returns (i: nat)
    requires a in FlattenAll(ts)
    ensures i < |ts| && a in Flatten(ts[i])
  {
    if a in Flatten(ts[|ts| - 1]) { i := |ts| - 1; } else { i := FromForest(ts[..|ts| - 1], a); }
  }

  lemma {:induction false} NodesAt(agents: seq<Agent>, statuses: Statuses, kids: seq<Agent>, visited: set<string>,
                                   i: nat)
    requires (forall k <- kids :: k in agents) && i < |kids|
    ensures NodesOf(agents, statuses, kids, visited)[i] == NodeOf(agents, statuses, kids[i], visited)
    decreases |kids|
  {
    if i < |kids| - 1 { NodesAt(agents, statuses, kids[..|kids| - 1], visited, i); }
  }

  lemma HeadAppears(agents: seq<Agent>, statuses: Statuses, kids: seq<Agent>, visited: set<string>, a: Agent)
    requires (forall k <- kids :: k in agents) && a in kids
    ensures a in FlattenAll(NodesOf(agents, statuses, kids, visited))
  {
    hide FlattenAll, NodesOf;
    var i: nat :| i < |kids| && kids[i] == a;
    NodesAt(agents, statuses, kids, visited, i);
    InForest(NodesOf(agents, statuses, kids, visited), i, a);
  }

  /** Below a node built off the path, every agent whose parent is rendered there, off the path, appears. */
  lemma {:induction false} KidsAppear(agents: seq<Agent>, statuses: Statuses, a: Agent, visited: set<string>, e: Agent)
    requires a in agents && e in agents && e.parent !in visited
    requires e.parent in Ids(Flatten(NodeOf(agents, statuses, a, visited)))
    ensures e in FlattenAll(NodeOf(agents, statuses, a, visited).children)
    decreases Unvisited(agents, visited)
  {
    hide FlattenAll, NodesOf, Unvisited;
    var node := NodeOf(agents, statuses, a, visited);
    EmptyForest();
    if a.id !in visited {
      VisitLowers(agents, visited, a);
      var kids := Children(agents, a.id);
      if e.parent == a.id {
        HeadAppears(agents, statuses, kids, visited + {a.id}, e);
      } else {
        var y :| y in Flatten(node) && y.id == e.parent;
        var i := FromForest(node.children, y);
        NodesAt(agents, statuses, kids, visited + {a.id}, i);
        KidsAppear(agents, statuses, kids[i], visited + {a.id}, e);
        InForest(node.children, i, e);
      }
    }
  }

  lemma {:induction false} EveryIdIsRendered(agents: seq<Agent>, statuses: Statuses, n: nat, i: nat)
    requires i < n <= |agents|
    ensures agents[i].id in Ids(FlattenAll(NodesOf(agents, statuses, Tops(agents, statuses, n), {})))
    decreases n
  {
    hide FlattenAll, Ids, NodesOf, Flatten;
    var before := Tops(agents, statuses, n - 1);
    if i < n - 1 { EveryIdIsRendered(agents, statuses, n - 1, i); }
    var longer := before + [agents[n - 1]];
    assert longer[..|before|] == before && longer[..|before| + 1] == longer;
    NodesSnoc(agents, statuses, longer, |before|, {});
    FlattenSnoc(NodesOf(agents, statuses, before, {}), NodeOf(agents, statuses, agents[n - 1], {}));
    NodeHead(agents, statuses, agents[n - 1]);
  }

  lemma NodeHead(agents: seq<Agent>, statuses: Statuses, a: Agent)
    requires a in agents
    ensures a.id in Ids(Flatten(NodeOf(agents, statuses, a, {})))
  {
    assert a in Flatten(NodeOf(agents, statuses, a, {}));
  }

  /** An agent whose parent is in the roster appears below some tree's top. */
  lemma AppearsBelow(agents: seq<Agent>, statuses: Statuses, e: Agent) returns (i: nat)
    requires e in agents && e.parent in Ids(agents)
    ensures i < |Forest(agents, statuses)| && e in FlattenAll(Forest(agents, statuses)[i].children)
  {
    hide FlattenAll, NodesOf, Flatten, NodeOf;
    var tops := Tops(agents, statuses, |agents|);
    var forest := Forest(agents, statuses);
    ForestIsTops(agents, statuses, |agents|);
    var j: nat :| j < |agents| && agents[j].id == e.parent;
    EveryIdIsRendered(agents, statuses, |agents|, j);
    var y :| y in FlattenAll(forest) && y.id == e.parent;
    i := FromForest(forest, y);
    NodesAt(agents, statuses, tops, {}, i);
    KidsAppear(agents, statuses, tops[i], {}, e);
  }

  lemma {:induction false} RootsStayTops(agents: seq<Agent>, statuses: Statuses, n: nat, e: Agent)
    requires n <= |agents| && e in agents && e.parent !in Ids(agents)
    ensures e in Tops(agents, statuses, n)
  {
    hide FlattenAll, NodesOf, Ids;
    if n > 0 { RootsStayTops(agents, statuses, n - 1, e); }
  }

  /** Every entry of the roster appears in the forest, whatever the ids and parent links. */
  lemma EveryAgentAppears(agents: seq<Agent>, statuses: Statuses, e: Agent)
    requires e in agents
    ensures e in FlattenAll(Forest(agents, statuses))
  {
    hide FlattenAll, NodesOf, Forest;
    if e.parent in Ids(agents) {
      var i := AppearsBelow(agents, statuses, e);
      InForest(Forest(agents, statuses), i, e);
    } else {
      RootsStayTops(agents, statuses, |agents|, e);
      TopsAppear(agents, statuses, e);
    }
  }

  lemma TopsAppear(agents: seq<Agent>, statuses: Statuses, e: Agent)
    requires e in Tops(agents, statuses, |agents|)
    ensures e in FlattenAll(Forest(agents, statuses))
  {
    hide FlattenAll, NodesOf, Tops;
    ForestIsTops(agents, statuses, |agents|);
    HeadAppears(agents, statuses, Tops(agents, statuses, |agents|), {}, e);
  }

  /** Nothing else does. */
  lemma {:induction false} NodesAreAgents(agents: seq<Agent>, statuses: Statuses, a: Agent, visited: set<string>,
                                          x: Agent)
    requires a in agents && x in Flatten(NodeOf(agents, statuses, a, visited))
    ensures x in agents
    decreases Unvisited(agents, visited)
  {
    hide FlattenAll, NodesOf, Unvisited;
    EmptyForest();
    if a.id !in visited && x != a {
      VisitLowers(agents, visited, a);
      var kids := Children(agents, a.id);
      var i := FromForest(NodeOf(agents, statuses, a, visited).children, x);
      NodesAt(agents, statuses, kids, visited + {a.id}, i);
      NodesAreAgents(agents, statuses, kids[i], visited + {a.id}, x);
    }
  }

  lemma OnlyAgentsAppear(agents: seq<Agent>, statuses: Statuses, x: Agent)
    requires x in FlattenAll(Forest(agents, statuses))
    ensures x in agents
  {
    hide FlattenAll, NodesOf, Tops, NodeOf, Flatten;
    ForestIsTops(agents, statuses, |agents|);
    var tops := Tops(agents, statuses, |agents|);
    var i := FromForest(Forest(agents, statuses), x);
    NodesAt(agents, statuses, tops, {}, i);
    NodesAreAgents(agents, statuses, tops[i], {}, x);
  }

  // ---------------------------------------------------------------- unique ids

  ghost predicate UniqueIds(agents: seq<Agent>) {
    forall i: nat, j: nat | i < j < |agents| :: agents[i].id != agents[j].id
  }

  /** One step up the parent links; an id outside the roster stays where it is. */
  function Up(agents: seq<Agent>, id: string): string {
    if agents == [] then id
    else if agents[0].id == id then agents[0].parent
    else Up(agents[1..], id)
  }

  function Ancestor(agents: seq<Agent>, id: string, n: nat): string {
    if n == 0 then id else Up(agents, Ancestor(agents, id, n - 1))
  }

  /** From every agent, following parents leaves the roster. */
  ghost predicate Acyclic(agents: seq<Agent>) {
    forall a <- agents :: Grounded(agents, a.id)
  }

  ghost predicate Grounded(agents: seq<Agent>, id: string) {
    exists n: nat :: Ancestor(agents, id, n) !in Ids(agents)
  }

  lemma {:induction false} UpIsParent(agents: seq<Agent>, a: Agent)
    requires UniqueIds(agents) && a in agents
    ensures Up(agents, a.id) == a.parent
  {
    var i: nat :| i < |agents| && agents[i] == a;
    if i > 0 {
      assert agents[0].id != agents[i].id && agents[1..][i - 1] == a;
      UpIsParent(agents[1..], a);
    }
  }

  lemma {:induction false} OutsideStays(agents: seq<Agent>, id: string)
    requires id !in Ids(agents)
    ensures Up(agents, id) == id
  {
    if agents != [] {
      assert agents[0] in agents;
      forall a <- agents[1..]
        ensures a.id != id
      {
        assert a in agents;
      }
      OutsideStays(agents[1..], id);
    }
  }

  lemma {:induction false} AncestorStep(agents: seq<Agent>, id: string, n: nat)
    ensures Ancestor(agents, id, n + 1) == Ancestor(agents, Up(agents, id), n)
  {
    if n > 0 { AncestorStep(agents, id, n - 1); }
  }

  lemma SameIdSameAgent(agents: seq<Agent>, a: Agent, b: Agent)
    requires UniqueIds(agents) && a in agents && b in agents && a.id == b.id
    ensures a == b
  {
    var i: nat :| i < |agents| && agents[i] == a;
    var j: nat :| j < |agents| && agents[j] == b;
  }

  /** Parents are grounded when their children are, and the other way round. */
  lemma GroundedUp(agents: seq<Agent>, id: string)
    requires id in Ids(agents)
    ensures Grounded(agents, id) <==> Grounded(agents, Up(agents, id))
  {
    if Grounded(agents, id) {
      var n: nat :| Ancestor(agents, id, n) !in Ids(agents);
      AncestorStep(agents, id, n - 1);
      assert Ancestor(agents, Up(agents, id), n - 1) !in Ids(agents);
    }
    if Grounded(agents, Up(agents, id)) {
      var n: nat :| Ancestor(agents, Up(agents, id), n) !in Ids(agents);
      AncestorStep(agents, id, n);
      assert Ancestor(agents, id, n + 1) !in Ids(agents);
    }
  }

  // ---------------------------------------------------------------- depth

  function StepsOut(agents: seq<Agent>, id: string, n: nat): nat
    decreases n
  {
    if n == 0 || id !in Ids(agents) then 0 else 1 + StepsOut(agents, Up(agents, id), n - 1)
  }

  lemma {:induction false} StepsOutSettles(agents: seq<Agent>, id: string, n: nat, m: nat)
    requires Ancestor(agents, id, n) !in Ids(agents) && n <= m
    ensures StepsOut(agents, id, m) == StepsOut(agents, id, n)
    decreases n
  {
    hide Ids, Up;
    if id in Ids(agents) {
      AncestorStep(agents, id, n - 1);
      StepsOutSettles(agents, Up(agents, id), n - 1, m - 1);
    }
  }

  /** How many steps up lead out of the roster. */
  ghost function Depth(agents: seq<Agent>, id: string): nat
    requires Grounded(agents, id)
  {
    var n: nat :| Ancestor(agents, id, n) !in Ids(agents);
    StepsOut(agents, id, n)
  }

  lemma DepthIs(agents: seq<Agent>, id: string, n: nat)
    requires Ancestor(agents, id, n) !in Ids(agents)
    ensures Grounded(agents, id) && Depth(agents, id) == StepsOut(agents, id, n)
  {
    hide Ids, Up, StepsOut;
    var m: nat :| Ancestor(agents, id, m) !in Ids(agents) && Depth(agents, id) == StepsOut(agents, id, m);
    if n <= m { StepsOutSettles(agents, id, n, m); } else { StepsOutSettles(agents, id, m, n); }
  }

  lemma DepthUp(agents: seq<Agent>, id: string)
    requires Grounded(agents, id)
    ensures id !in Ids(agents) ==> Depth(agents, id) == 0
    ensures id in Ids(agents) ==>
              Grounded(agents, Up(agents, id)) && Depth(agents, id) == Depth(agents, Up(agents, id)) + 1
  {
    hide Ids, Up, Depth;
    var n: nat :| Ancestor(agents, id, n) !in Ids(agents);
    DepthIs(agents, id, n);
    if id in Ids(agents) {
      AncestorStep(agents, id, n - 1);
      DepthIs(agents, Up(agents, id), n - 1);
    }
  }

  lemma {:induction false} DepthOfAncestor(agents: seq<Agent>, id: string, n: nat)
    requires Grounded(agents, id) && n <= Depth(agents, id)
    ensures Grounded(agents, Ancestor(agents, id, n)) && Depth(agents, Ancestor(agents, id, n)) == Depth(agents, id) - n
  {
    hide Ids, Up, Depth, Grounded;
    if n > 0 {
      DepthOfAncestor(agents, id, n - 1);
      DepthUp(agents, Ancestor(agents, id, n - 1));
    }
  }

  /** `a` is `x` or an ancestor of it. */
  ghost predicate Under(agents: seq<Agent>, x: string, a: string)
    requires Grounded(agents, x) && Grounded(agents, a)
  {
    Depth(agents, a) <= Depth(agents, x) && Ancestor(agents, x, Depth(agents, x) - Depth(agents, a)) == a
  }

  // ---------------------------------------------------------------- each agent once

  /** How many of the kids `x` is under. */
  ghost function CountUnder(agents: seq<Agent>, kids: seq<Agent>, x: Agent): nat
    requires Acyclic(agents) && x in agents && forall k <- kids :: k in agents
  {
    if kids == [] then 0
    else
      var k := kids[|kids| - 1];
      CountUnder(agents, kids[..|kids| - 1], x) + (if Under(agents, x.id, k.id) then 1 else 0)
  }

  lemma {:induction false} NoneUnder(agents: seq<Agent>, kids: seq<Agent>, x: Agent)
    requires Acyclic(agents) && x in agents && forall k <- kids :: k in agents
    requires forall k <- kids :: !Under(agents, x.id, k.id)
    ensures CountUnder(agents, kids, x) == 0
  {
    hide Under, Acyclic;
    if kids != [] { NoneUnder(agents, kids[..|kids| - 1], x); }
  }

  lemma {:induction false} OneUnder(agents: seq<Agent>, kids: seq<Agent>, x: Agent, i: nat)
    requires Acyclic(agents) && x in agents && (forall k <- kids :: k in agents) && i < |kids|
    requires forall j: nat | j < |kids| :: Under(agents, x.id, kids[j].id) <==> j == i
    ensures CountUnder(agents, kids, x) == 1
  {
    hide Under, Acyclic;
    var init := kids[..|kids| - 1];
    if i == |kids| - 1 {
      assert forall j: nat | j < |init| :: init[j] == kids[j];
      NoneUnder(agents, init, x);
    } else {
      OneUnder(agents, init, x, i);
    }
  }

  /** The one child of `a`, or root, that `x` is under. */
  lemma ChildOnPath(agents: seq<Agent>, x: string, depth: nat, k: string)
    requires Acyclic(agents) && Grounded(agents, x) && Grounded(agents, k) && Depth(agents, k) == depth + 1
    ensures Under(agents, x, k) <==> depth < Depth(agents, x) && k == Ancestor(agents, x, Depth(agents, x) - depth - 1)
  {
  }

  lemma {:induction false} KidsAreUnique(agents: seq<Agent>, id: string, ids: set<string>)
    requires UniqueIds(agents)
    ensures UniqueIds(Children(agents, id)) && UniqueIds(Roots(agents, ids))
  {
    if agents != [] {
      var init := agents[..|agents| - 1];
      KidsAreUnique(init, id, ids);
      forall k <- Children(init, id) + Roots(init, ids)
        ensures k.id != agents[|agents| - 1].id
      {
        var i: nat :| i < |init| && init[i] == k;
        assert agents[i].id != agents[|agents| - 1].id;
      }
    }
  }

  /** Among agents one level below a depth, `x` is under the one on its path, if it is there. */
  lemma UnderOneAtMost(agents: seq<Agent>, kids: seq<Agent>, x: Agent, depth: nat)
    requires Acyclic(agents) && x in agents && (forall k <- kids :: k in agents) && UniqueIds(kids)
    requires forall k <- kids :: Depth(agents, k.id) == depth + 1
    ensures CountUnder(agents, kids, x)
            == if exists k :: k in kids && Under(agents, x.id, k.id) then 1 else 0
  {
    hide Depth, CountUnder, Grounded;
    if j: nat :| j < |kids| && Under(agents, x.id, kids[j].id) {
      forall i: nat | i < |kids|
        ensures Under(agents, x.id, kids[i].id) <==> i == j
      {
        ChildOnPath(agents, x.id, depth, kids[i].id);
        ChildOnPath(agents, x.id, depth, kids[j].id);
      }
      OneUnder(agents, kids, x, j);
    } else {
      NoneUnder(agents, kids, x);
    }
  }

  /** The agent on the path of `x` one level below a depth, its own depth being greater. */
  lemma OnPath(agents: seq<Agent>, x: Agent, depth: nat) returns (k: Agent)
    requires UniqueIds(agents) && Acyclic(agents) && x in agents && depth < Depth(agents, x.id)
    ensures k in agents && Depth(agents, k.id) == depth + 1 && Under(agents, x.id, k.id)
    ensures k.parent == Ancestor(agents, x.id, Depth(agents, x.id) - depth)
    ensures Grounded(agents, k.parent) && Depth(agents, k.parent) == depth
  {
    hide Depth, Grounded, Up;
    var n := Depth(agents, x.id) - depth;
    var y := Ancestor(agents, x.id, n - 1);
    DepthOfAncestor(agents, x.id, n - 1);
    DepthOfAncestor(agents, x.id, n);
    DepthUp(agents, y);
    k :| k in agents && k.id == y;
    UpIsParent(agents, k);
  }

  lemma KidDepth(agents: seq<Agent>, k: Agent)
    requires UniqueIds(agents) && Acyclic(agents) && k in agents
    ensures Grounded(agents, k.parent) && Depth(agents, k.id) == Depth(agents, k.parent) + 1
  {
    hide Depth, Grounded, Up;
    UpIsParent(agents, k);
    DepthUp(agents, k.id);
  }

  lemma UnderKid(agents: seq<Agent>, a: Agent, k: Agent, x: Agent)
    requires UniqueIds(agents) && Acyclic(agents) && a in agents && k in agents && x in agents && k.parent == a.id
    ensures Depth(agents, k.id) == Depth(agents, a.id) + 1
    ensures Under(agents, x.id, k.id) ==> x.id != a.id && Under(agents, x.id, a.id)
  {
    hide Depth, Grounded, Up;
    KidDepth(agents, k);
    UpIsParent(agents, k);
  }

  lemma UnderKids(agents: seq<Agent>, a: Agent, x: Agent)
    requires UniqueIds(agents) && Acyclic(agents) && a in agents && x in agents
    ensures CountUnder(agents, Children(agents, a.id), x) == if x.id != a.id && Under(agents, x.id, a.id) then 1 else 0
  {
    hide Depth, Grounded, Up, CountUnder, Under, UniqueIds;
    var kids, depth := Children(agents, a.id), Depth(agents, a.id);
    KidsAreUnique(agents, a.id, {});
    forall k <- kids
      ensures Depth(agents, k.id) == depth + 1
      ensures Under(agents, x.id, k.id) ==> x.id != a.id && Under(agents, x.id, a.id)
    {
      UnderKid(agents, a, k, x);
    }
    UnderOneAtMost(agents, kids, x, depth);
    if x.id != a.id && Under(agents, x.id, a.id) { var k := KidOnPath(agents, a, x); }
  }

  lemma KidOnPath(agents: seq<Agent>, a: Agent, x: Agent) returns (k: Agent)
    requires UniqueIds(agents) && Acyclic(agents) && a in agents && x in agents
    requires x.id != a.id && Under(agents, x.id, a.id)
    ensures k in Children(agents, a.id) && Under(agents, x.id, k.id)
  {
    hide Depth, Grounded, Up;
    k := OnPath(agents, x, Depth(agents, a.id));
  }

  lemma UnderRoots(agents: seq<Agent>, x: Agent)
    requires UniqueIds(agents) && Acyclic(agents) && x in agents
    ensures CountUnder(agents, Roots(agents, Ids(agents)), x) == 1
  {
    hide Depth, Grounded, Up, CountUnder, Ids;
    var roots := Roots(agents, Ids(agents));
    KidsAreUnique(agents, "", Ids(agents));
    forall k <- roots
      ensures Depth(agents, k.id) == 1
    {
      KidDepth(agents, k);
      DepthUp(agents, k.parent);
    }
    UnderOneAtMost(agents, roots, x, 0);
    KidDepth(agents, x);
    var k := OnPath(agents, x, 0);
    DepthUp(agents, k.parent);
  }

  /** The path is nearer the top than the agent. */
  ghost predicate Above(agents: seq<Agent>, visited: set<string>, a: Agent) {
    Grounded(agents, a.id) && forall v <- visited :: Grounded(agents, v) && Depth(agents, v) < Depth(agents, a.id)
  }

  /** With acyclic links no node is cut short: `x` is rendered once in the tree of each agent it is under. */
  lemma {:induction false} CountInNode(agents: seq<Agent>, statuses: Statuses, a: Agent, visited: set<string>, x: Agent)
    requires UniqueIds(agents) && Acyclic(agents) && a in agents && x in agents
    requires Above(agents, visited, a)
    ensures multiset(Flatten(NodeOf(agents, statuses, a, visited)))[x] == if Under(agents, x.id, a.id) then 1 else 0
    decreases Unvisited(agents, visited), 0
  {
    hide Depth, Grounded, Up, CountUnder, Ids, FlattenAll, NodesOf, Unvisited;
    VisitLowers(agents, visited, a);
    var kids, nextVisited := Children(agents, a.id), visited + {a.id};
    forall k <- kids
      ensures Above(agents, nextVisited, k)
    {
      KidDepth(agents, k);
    }
    CountInNodes(agents, statuses, kids, nextVisited, x);
    UnderKids(agents, a, x);
    if x.id == a.id { SameIdSameAgent(agents, x, a); }
  }

  lemma {:induction false} CountInNodes(agents: seq<Agent>, statuses: Statuses, kids: seq<Agent>, visited: set<string>,
                                        x: Agent)
    requires UniqueIds(agents) && Acyclic(agents) && x in agents && forall k <- kids :: k in agents
    requires forall k <- kids :: Above(agents, visited, k)
    ensures multiset(FlattenAll(NodesOf(agents, statuses, kids, visited)))[x] == CountUnder(agents, kids, x)
    decreases Unvisited(agents, visited), |kids| + 1
  {
    hide Depth, Grounded, Up, Ids, Under, Unvisited, Flatten, NodeOf, Above;
    if kids != [] {
      CountInNodes(agents, statuses, kids[..|kids| - 1], visited, x);
      CountInNode(agents, statuses, kids[|kids| - 1], visited, x);
    }
  }

  lemma {:induction false} UniqueCounts(agents: seq<Agent>, x: Agent)
    requires UniqueIds(agents)
    ensures multiset(agents)[x] == if x in agents then 1 else 0
  {
    if agents != [] {
      var init, last := agents[..|agents| - 1], agents[|agents| - 1];
      assert agents == init + [last];
      UniqueCounts(init, x);
      forall i: nat | i < |init|
        ensures init[i] != last
      {
        assert agents[i].id != agents[|agents| - 1].id;
      }
    }
  }

  lemma InIds(agents: seq<Agent>, a: Agent)
    ensures multiset(agents)[a] > 0 ==> a.id in Ids(agents)
  {
    assert multiset(agents)[a] > 0 ==> a in agents;
  }

  /** With acyclic links only the roots get trees of their own. */
  lemma {:induction false} OnlyRootsOnTop(agents: seq<Agent>, statuses: Statuses, n: nat)
    requires UniqueIds(agents) && Acyclic(agents) && n <= |agents|
    ensures Tops(agents, statuses, n) == Roots(agents, Ids(agents))
  {
    hide FlattenAll, NodesOf, UniqueIds, Acyclic, Roots, Ids;
    if n > 0 {
      OnlyRootsOnTop(agents, statuses, n - 1);
      RenderedOnce(agents, statuses, agents[n - 1]);
      InIds(FlattenAll(NodesOf(agents, statuses, Roots(agents, Ids(agents)), {})), agents[n - 1]);
    }
  }

  lemma RenderedOnce(agents: seq<Agent>, statuses: Statuses, x: Agent)
    requires UniqueIds(agents) && Acyclic(agents) && x in agents
    ensures multiset(FlattenAll(NodesOf(agents, statuses, Roots(agents, Ids(agents)), {})))[x] == 1
  {
    hide FlattenAll, NodesOf, UniqueIds, CountUnder, Grounded, Ids;
    var roots := Roots(agents, Ids(agents));
    CountInNodes(agents, statuses, roots, {}, x);
    UnderRoots(agents, x);
  }

  lemma AcyclicIsPermutation(agents: seq<Agent>, statuses: Statuses)
    requires UniqueIds(agents) && Acyclic(agents)
    ensures multiset(FlattenAll(Forest(agents, statuses))) == multiset(agents)
  {
    hide FlattenAll, NodesOf, UniqueIds, Acyclic, Tops, Roots, Ids;
    ForestIsTops(agents, statuses, |agents|);
    OnlyRootsOnTop(agents, statuses, |agents|);
    var flat := FlattenAll(Forest(agents, statuses));
    forall x: Agent
      ensures multiset(flat)[x] == multiset(agents)[x]
    {
      UniqueCounts(agents, x);
      if x in agents { RenderedOnce(agents, statuses, x); }
      else if x in flat { OnlyAgentsAppear(agents, statuses, x); }
    }
  }

  // ---------------------------------------------------------------- and only then

  function Heads(ts: seq<Tree>): seq<Agent> {
    if ts == [] then [] else Heads(ts[..|ts| - 1]) + [ts[|ts| - 1].agent]
  }

  function Below(ts: seq<Tree>): seq<Agent> {
    if ts == [] then [] else Below(ts[..|ts| - 1]) + FlattenAll(ts[|ts| - 1].children)
  }

  lemma {:induction false} HeadsAndBelow(ts: seq<Tree>)
    ensures multiset(FlattenAll(ts)) == multiset(Heads(ts)) + multiset(Below(ts))
  {
    if ts != [] { HeadsAndBelow(ts[..|ts| - 1]); }
  }

  lemma {:induction false} HeadsOfNodes(agents: seq<Agent>, statuses: Statuses, kids: seq<Agent>, visited: set<string>)
    requires forall k <- kids :: k in agents
    ensures Heads(NodesOf(agents, statuses, kids, visited)) == kids
    decreases |kids|
  {
    if kids != [] { HeadsOfNodes(agents, statuses, kids[..|kids| - 1], visited); }
  }

  lemma {:induction false} InBelow(ts: seq<Tree>, i: nat, a: Agent)
    requires i < |ts| && a in FlattenAll(ts[i].children)
    ensures a in Below(ts)
  {
    if i < |ts| - 1 { InBelow(ts[..|ts| - 1], i, a); }
  }

  /**
   * An agent that gets a tree of its own though its parent is in the roster is rendered again as that parent's child.
   */
  lemma NonRootTopAppearsTwice(agents: seq<Agent>, statuses: Statuses, e: Agent)
    requires e in Tops(agents, statuses, |agents|) && e.parent in Ids(agents)
    ensures multiset(FlattenAll(Forest(agents, statuses)))[e] >= 2
  {
    hide FlattenAll, NodesOf, Tops, Below, Heads;
    var forest := Forest(agents, statuses);
    ForestIsTops(agents, statuses, |agents|);
    HeadsAndBelow(forest);
    HeadsOfNodes(agents, statuses, Tops(agents, statuses, |agents|), {});
    var i := AppearsBelow(agents, statuses, e);
    InBelow(forest, i, e);
    assert e in multiset(Heads(forest)) && e in multiset(Below(forest));
  }

  lemma {:induction false} NodesAreGrounded(agents: seq<Agent>, statuses: Statuses, a: Agent, visited: set<string>,
                                            x: Agent)
    requires UniqueIds(agents) && a in agents && Grounded(agents, a.id)
    requires x in Flatten(NodeOf(agents, statuses, a, visited))
    ensures Grounded(agents, x.id)
    decreases Unvisited(agents, visited)
  {
    hide FlattenAll, NodesOf, Unvisited, Grounded, Up, UniqueIds;
    EmptyForest();
    if a.id !in visited && x != a {
      VisitLowers(agents, visited, a);
      var kids := Children(agents, a.id);
      var i := FromForest(NodeOf(agents, statuses, a, visited).children, x);
      NodesAt(agents, statuses, kids, visited + {a.id}, i);
      UpIsParent(agents, kids[i]);
      GroundedUp(agents, kids[i].id);
      NodesAreGrounded(agents, statuses, kids[i], visited + {a.id}, x);
    }
  }

  lemma PermutationIsAcyclic(agents: seq<Agent>, statuses: Statuses)
    requires UniqueIds(agents) && multiset(FlattenAll(Forest(agents, statuses))) == multiset(agents)
    ensures Acyclic(agents)
  {
    hide FlattenAll, NodesOf, Tops, Forest, UniqueIds, Grounded, Up, Ids;
    var tops, forest := Tops(agents, statuses, |agents|), Forest(agents, statuses);
    forall a <- agents
      ensures Grounded(agents, a.id)
    {
      EveryAgentAppears(agents, statuses, a);
      var i := FromForest(forest, a);
      ForestTop(agents, statuses, i);
      UniqueCounts(agents, tops[i]);
      if tops[i].parent in Ids(agents) { NonRootTopAppearsTwice(agents, statuses, tops[i]); }
      RootIsGrounded(agents, tops[i]);
      NodesAreGrounded(agents, statuses, tops[i], {}, a);
    }
  }

  lemma ForestTop(agents: seq<Agent>, statuses: Statuses, i: nat)
    requires i < |Forest(agents, statuses)|
    ensures var tops := Tops(agents, statuses, |agents|);
            i < |tops| && Forest(agents, statuses)[i] == NodeOf(agents, statuses, tops[i], {})
  {
    hide FlattenAll, NodesOf, Tops;
    ForestIsTops(agents, statuses, |agents|);
    NodesAt(agents, statuses, Tops(agents, statuses, |agents|), {}, i);
  }

  lemma RootIsGrounded(agents: seq<Agent>, a: Agent)
    requires UniqueIds(agents) && a in agents && a.parent !in Ids(agents)
    ensures Grounded(agents, a.id)
  {
    UpIsParent(agents, a);
    assert Ancestor(agents, a.id, 0 + 1) == Up(agents, Ancestor(agents, a.id, 0));
  }

  /** With unique ids, the forest shows the roster exactly once over when, and only when, the links have no circle. */
  lemma ForestIsPermutationIff(agents: seq<Agent>, statuses: Statuses)
    requires UniqueIds(agents)
    ensures multiset(FlattenAll(Forest(agents, statuses))) == multiset(agents) <==> Acyclic(agents)
  {
    hide FlattenAll, Forest, Acyclic, UniqueIds;
    if Acyclic(agents) { AcyclicIsPermutation(agents, statuses); }
    if multiset(FlattenAll(Forest(agents, statuses))) == multiset(agents) { PermutationIsAcyclic(agents, statuses); }
  }
}
