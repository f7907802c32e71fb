/** The operator graph and its three-colour cycle check. */
module OperatorGraph {
  import opened Model

  datatype Edge = Edge(from: string, to: string)

  ghost predicate IsPath(edges: seq<Edge>, p: seq<string>) {
    forall i :: 0 <= i < |p| - 1 ==> Edge(p[i], p[i + 1]) in edges
  }

  ghost predicate IsCycle(edges: seq<Edge>, p: seq<string>) {
    |p| >= 2 && IsPath(edges, p) && p[0] == Last(p)
  }

  ghost predicate Cyclic(edges: seq<Edge>) {
    exists p :: IsCycle(edges, p)
  }

  // The node occurs in the sequence before position `bound`.
  ghost predicate OccursBefore(s: seq<string>, bound: int, node: string) {
    exists j :: 0 <= j < bound && j < |s| && s[j] == node
  }

  // Every node in the order comes after all nodes it has an edge to.
  ghost predicate Finished(edges: seq<Edge>, order: seq<string>) {
    && Distinct(order)
    && (forall i, v :: 0 <= i < |order| && Edge(order[i], v) in edges ==> OccursBefore(order, i, v))
  }

  /** A reverse topological order of the whole graph. */
  ghost predicate IsTopologicalOrder(edges: seq<Edge>, order: seq<string>) {
    Finished(edges, order) && forall e :: e in edges ==> e.from in order
  }

  // Along a path of finished nodes the positions go down.
  lemma {:induction false} PositionsDecrease(edges: seq<Edge>, order: seq<string>, p: seq<string>, i: nat)
    returns (j: nat)
    requires Finished(edges, order) && IsPath(edges, p) && p != []
    requires i < |order| && order[i] == p[0]
    ensures j < |order| && order[j] == Last(p) && j + |p| <= i + 1
    decreases |p|
  {
    if |p| == 1 {
      return i;
    }
    assert Edge(p[0], p[1]) in edges;
    assert OccursBefore(order, i, p[1]);
    var k :| 0 <= k < i && order[k] == p[1];
    forall m | 0 <= m < |p[1..]| - 1
      ensures Edge(p[1..][m], p[1..][m + 1]) in edges
    {
      assert Edge(p[m + 1], p[m + 1 + 1]) in edges;
    }
    j := PositionsDecrease(edges, order, p[1..], k);
  }

  lemma OrderedMeansAcyclic(edges: seq<Edge>, order: seq<string>)
    requires IsTopologicalOrder(edges, order)
    ensures !Cyclic(edges)
  {
    if p :| IsCycle(edges, p) {
      assert Edge(p[0], p[1]) in edges;
      var i :| 0 <= i < |order| && order[i] == p[0];
      var j := PositionsDecrease(edges, order, p, i);
      assert false;
    }
  }

  /** Adding edges never removes a cycle. */
  lemma CyclicStaysCyclic(edges: seq<Edge>, more: seq<Edge>)
    requires Cyclic(edges)
    ensures Cyclic(edges + more)
  {
    var p :| IsCycle(edges, p);
    assert IsCycle(edges + more, p);
  }

  // ---------------------------------------------------------------------------------------
  // The depth-first search
  // ---------------------------------------------------------------------------------------

  type Adjacency = map<string, seq<string>>

  function Successors(adj: Adjacency, node: string): seq<string> {
    if node in adj then adj[node] else []
  }

  ghost predicate Represents(adj: Adjacency, edges: seq<Edge>) {
    forall u, v :: v in Successors(adj, u) <==> Edge(u, v) in edges
  }

  // 0 is unvisited, 1 in progress, 2 finished.
  function Colour(state: map<string, int>, node: string): int {
    if node in state then state[node] else 0
  }

  // The in-progress nodes form a path; the finished ones are in finishing order.
  ghost predicate SearchInv(edges: seq<Edge>, state: map<string, int>, stack: seq<string>, fin: seq<string>) {
    && (forall n :: n in state ==> state[n] == 1 || state[n] == 2)
    && (forall n :: Colour(state, n) == 1 <==> n in stack)
    && (forall n :: Colour(state, n) == 2 <==> n in fin)
    && Distinct(stack)
    && IsPath(edges, stack)
    && Finished(edges, fin)
  }

  lemma ReadColour(edges: seq<Edge>, state: map<string, int>, stack: seq<string>, fin: seq<string>, node: string)
    requires SearchInv(edges, state, stack, fin)
    ensures Colour(state, node) == 1 ==> node in stack && IsPath(edges, stack)
    ensures forall n :: n in stack ==> Colour(state, n) == 1
    ensures Colour(state, node) == 2 ==> node in fin
    ensures Colour(state, node) != 1 && Colour(state, node) != 2 ==> Colour(state, node) == 0 && node !in state
  {
  }

  lemma AllFinished(edges: seq<Edge>, adj: Adjacency, node: string, fin: seq<string>)
    requires Represents(adj, edges)
    requires forall j :: 0 <= j < |Successors(adj, node)| ==> Successors(adj, node)[j] in fin
    ensures forall v :: Edge(node, v) in edges ==> v in fin
  {
    forall v | Edge(node, v) in edges
      ensures v in fin
    {
      assert v in Successors(adj, node);
    }
  }

  lemma SuccessorIsEdge(edges: seq<Edge>, adj: Adjacency, node: string, i: nat)
    requires Represents(adj, edges) && i < |Successors(adj, node)|
    ensures Edge(node, Successors(adj, node)[i]) in edges
  {
    assert Successors(adj, node)[i] in Successors(adj, node);
  }

  lemma EnterNode(edges: seq<Edge>, state: map<string, int>, stack: seq<string>, fin: seq<string>, node: string)
    requires SearchInv(edges, state, stack, fin) && Colour(state, node) == 0
    requires stack != [] ==> Edge(Last(stack), node) in edges
    ensures SearchInv(edges, state[node := 1], stack + [node], fin)
  {
    var s := stack + [node];
    assert forall n :: n in s <==> n in stack || n == node;
  }

  lemma LeaveNode(edges: seq<Edge>, state: map<string, int>, stack: seq<string>, fin: seq<string>, node: string)
    requires SearchInv(edges, state, stack + [node], fin)
    requires forall v :: Edge(node, v) in edges ==> v in fin
    ensures SearchInv(edges, state[node := 2], stack, fin + [node])
  {
    var s, f := stack + [node], fin + [node];
    assert s[|stack|] == node;
    assert forall i :: 0 <= i < |stack| ==> s[i] == stack[i];
    assert forall n :: n in s <==> n in stack || n == node;
    assert node !in stack;
    assert forall n :: n in f <==> n in fin || n == node;
    assert Colour(state, node) == 1;
    FinishNode(edges, fin, node);
  }

  lemma FinishNode(edges: seq<Edge>, fin: seq<string>, node: string)
    requires Finished(edges, fin) && node !in fin
    requires forall v :: Edge(node, v) in edges ==> v in fin
    ensures Finished(edges, fin + [node])
  {
    var f := fin + [node];
    forall i, v | 0 <= i < |f| && Edge(f[i], v) in edges
      ensures OccursBefore(f, i, v)
    {
      if i < |fin| {
        assert OccursBefore(fin, i, v);
        var j :| 0 <= j < i && j < |fin| && fin[j] == v;
        assert f[j] == v;
      } else {
        var j :| 0 <= j < |fin| && fin[j] == v;
        assert f[j] == v;
      }
    }
  }

  lemma ClosesCycle(edges: seq<Edge>, stack: seq<string>, node: string) returns (cycle: seq<string>)
    requires IsPath(edges, stack) && node in stack && Edge(Last(stack), node) in edges
    ensures IsCycle(edges, cycle) && cycle[0] == node
    ensures forall n :: n in cycle ==> n in stack
  {
    var i :| 0 <= i < |stack| && stack[i] == node;
    cycle := stack[i..] + [node];
    forall k | 0 <= k < |cycle| - 1
      ensures Edge(cycle[k], cycle[k + 1]) in edges
    {
      if k + 1 < |cycle| - 1 {
        assert cycle[k] == stack[i + k] && cycle[k + 1] == stack[i + k + 1];
      } else {
        assert cycle[k] == Last(stack);
      }
    }
  }

  class DAG {
    var edges: seq<Edge>

    constructor ()
      ensures edges == []
    {
      edges := [];
    }

    method Connect(from: string, to: string)
      modifies this
      ensures edges == old(edges) + [Edge(from, to)]
    {
      edges := edges + [Edge(from, to)];
    }

    method Adjacencies() returns (adj: Adjacency)
      ensures Represents(adj, edges)
    {
      adj := map[];
      for i := 0 to |edges|
        invariant Represents(adj, edges[..i])
      {
        var e := edges[i];
        var known := if e.from in adj then adj[e.from] else [];
        ghost var before := adj;
        adj := adj[e.from := known + [e.to]];
        forall u, v
          ensures v in Successors(adj, u) <==> Edge(u, v) in edges[..i + 1]
        {
          assert edges[..i + 1] == edges[..i] + [e];
          assert v in Successors(adj, u) <==> v in Successors(before, u) || Edge(u, v) == e;
        }
      }
      assert edges[..|edges|] == edges;
    }

    /**
      Visits one node. `stack` and `fin` are the in-progress path and the finishing order so far; on
      error `cycle` is a cycle of in-progress nodes through the reported one.
     */
    method Visit(node: string, adj: Adjacency, state: map<string, int>,
                 ghost stack: seq<string>, ghost fin: seq<string>, ghost nodes: set<string>)
      returns (err: Option<string>, state': map<string, int>, ghost fin': seq<string>, ghost cycle: seq<string>)
      requires Represents(adj, edges)
      requires SearchInv(edges, state, stack, fin)
      requires stack != [] ==> Edge(Last(stack), node) in edges
      requires node in nodes && forall e :: e in edges ==> e.to in nodes
      ensures err.None? ==> SearchInv(edges, state', stack, fin') && fin <= fin' && node in fin'
      ensures err.None? ==> state.Keys <= state'.Keys
      ensures err.Some? ==> IsCycle(edges, cycle) && cycle[0] == err.value
      ensures err.Some? ==> forall n :: n in cycle ==> Colour(state', n) == 1
      decreases nodes - state.Keys
    {
      hide SearchInv, Represents, Finished, IsPath, IsCycle;
      state', fin', cycle := state, fin, [];
      ReadColour(edges, state, stack, fin, node);
      var colour := if node in state then state[node] else 0;
      if colour == 1 {
        assert stack != [];
        cycle := ClosesCycle(edges, stack, node);
        return Some(node), state', fin', cycle;
      }
      if colour == 2 {
        return None, state', fin', cycle;
      }
      EnterNode(edges, state, stack, fin, node);
      state' := state[node := 1];
      var nexts := if node in adj then adj[node] else [];
      for i := 0 to |nexts|
        invariant SearchInv(edges, state', stack + [node], fin') && fin <= fin'
        invariant forall j :: 0 <= j < i ==> nexts[j] in fin'
        invariant state.Keys + {node} <= state'.Keys
      {
        SuccessorIsEdge(edges, adj, node, i);
        err, state', fin', cycle := Visit(nexts[i], adj, state', stack + [node], fin', nodes);
        if err.Some? {
          return;
        }
      }
      AllFinished(edges, adj, node, fin');
      LeaveNode(edges, state', stack, fin', node);
      state' := state'[node := 2];
      fin' := fin' + [node];
      err := None;
    }

    /** Reports no error exactly when the graph has no cycle; an error names a node on one. */
    method Validate() returns (err: Option<string>)
      ensures err.None? <==> !Cyclic(edges)
      ensures err.None? ==> exists order :: IsTopologicalOrder(edges, order)
      ensures err.Some? ==> exists cycle :: IsCycle(edges, cycle) && cycle[0] == err.value
    {
      var adj := Adjacencies();
      ghost var nodes := (set e | e in edges :: e.to) + adj.Keys;
      var state: map<string, int> := map[];
      ghost var fin: seq<string> := [];
      ghost var cycle: seq<string>;
      var todo := adj.Keys;
      while todo != {}
        invariant SearchInv(edges, state, [], fin)
        invariant todo <= adj.Keys && forall n :: n in adj && n !in todo ==> n in fin
        decreases |todo|
      {
        var node :| node in todo;
        ghost var before := fin;
        err, state, fin, cycle := Visit(node, adj, state, [], fin, nodes);
        if err.Some? {
          return;
        }
        todo := todo - {node};
        assert forall n :: n in before ==> n in fin;
      }
      forall e | e in edges
        ensures e.from in fin
      {
        assert e.to in Successors(adj, e.from);
      }
      assert IsTopologicalOrder(edges, fin);
      OrderedMeansAcyclic(edges, fin);
      err := None;
    }
  }
}
