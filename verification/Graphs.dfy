/** The dependency structure shared by a plan and the execution graph built from it,
    and the notion everything else rests on: which nodes can be reached by completing
    dependencies first, and how deep their longest dependency chain is. */
module Graphs {

  datatype Option<+T> = None | Some(value: T)

  /** A step id is a UUID, that is, a number; only its identity is ever used. */
  type Id = nat

  /** `order` is the insertion order of the node dictionary, `deps` the dependency list of each node.
      A dependency list may name ids that are not in the graph, and may contain cycles. */
  datatype Graph = Graph(order: seq<Id>, deps: map<Id, seq<Id>>)

  predicate Distinct(ids: seq<Id>) {
    forall i, j :: 0 <= i < j < |ids| ==> ids[i] != ids[j]
  }

  ghost predicate WellFormed(g: Graph) {
    && Distinct(g.order)
    && (forall id :: id in g.deps <==> id in g.order)
  }

  /** Nodes whose dependency chains all end within `k` steps. */
  ghost function Layer(g: Graph, k: nat): set<Id> {
    if k == 0 then {}
    else set id | id in g.deps && forall d :: d in g.deps[id] ==> d in Layer(g, k - 1)
  }

  /** A node is grounded when its dependencies, direct and transitive, all exist and contain no cycle. */
  ghost predicate Grounded(g: Graph, id: Id) {
    exists k: nat :: id in Layer(g, k)
  }

  ghost predicate AllGrounded(g: Graph) {
    forall id :: id in g.deps ==> Grounded(g, id)
  }

  lemma {:induction false} LayerMonotone(g: Graph, j: nat, k: nat)
    requires j <= k
    ensures Layer(g, j) <= Layer(g, k)
    decreases k
  {
    if 0 < j {
      LayerMonotone(g, j - 1, k - 1);
    }
  }

  /** Length of the longest dependency chain that ends in `id`, counting `id` itself. */
  ghost function Depth(g: Graph, id: Id): (depth: nat)
    requires Grounded(g, id)
    ensures 0 < depth
  {
    var k: nat :| id in Layer(g, k);
    LeastLayer(g, id, k)
  }

  lemma DepthIsLeastLayer(g: Graph, id: Id, j: nat)
    requires Grounded(g, id)
    ensures id in Layer(g, j) <==> Depth(g, id) <= j
  {
  }

  lemma InLayer(g: Graph, id: Id, j: nat)
    requires id in Layer(g, j)
    ensures Grounded(g, id) && Depth(g, id) <= j
  {
    DepthIsLeastLayer(g, id, j);
  }

  ghost function LeastLayer(g: Graph, id: Id, k: nat): (least: nat)
    requires id in Layer(g, k)
    ensures 0 < least <= k && id in Layer(g, least)
    ensures forall j: nat :: id in Layer(g, j) <==> least <= j
    decreases k
  {
    if id in Layer(g, k - 1) then LeastLayer(g, id, k - 1)
    else
      assert forall j: nat :: id in Layer(g, j) <==> k <= j by {
        forall j: nat ensures id in Layer(g, j) <==> k <= j {
          if k <= j { LayerMonotone(g, k, j); } else { LayerMonotone(g, j, k - 1); }
        }
      }
      k
  }

  lemma DependencyIsShallower(g: Graph, id: Id, d: Id)
    requires Grounded(g, id) && id in g.deps && d in g.deps[id]
    ensures Grounded(g, d) && Depth(g, d) < Depth(g, id)
  {
    DepthIsLeastLayer(g, id, Depth(g, id));
    InLayer(g, d, Depth(g, id) - 1);
  }

  lemma GroundedIsNode(g: Graph, id: Id)
    requires Grounded(g, id)
    ensures id in g.deps
  {
    DepthIsLeastLayer(g, id, Depth(g, id));
  }

  /** Some dependency of a node of depth above one is exactly one level up. */
  lemma DependencyOneLevelUp(g: Graph, id: Id) returns (d: Id)
    requires Grounded(g, id) && 1 < Depth(g, id)
    ensures id in g.deps && d in g.deps[id] && Grounded(g, d) && Depth(g, d) + 1 == Depth(g, id)
  {
    var k := Depth(g, id);
    GroundedIsNode(g, id);
    DepthIsLeastLayer(g, id, k - 1);
    d :| d in g.deps[id] && d !in Layer(g, k - 2);
    DependencyIsShallower(g, id, d);
    DepthIsLeastLayer(g, d, k - 2);
  }

  /** Dependencies of a grounded node are grounded and strictly shallower. */
  lemma DepsAreShallower(g: Graph, id: Id)
    requires Grounded(g, id)
    ensures id in g.deps
    ensures forall d :: d in g.deps[id] ==> Grounded(g, d) && Depth(g, d) < Depth(g, id)
  {
    GroundedIsNode(g, id);
    forall d | d in g.deps[id] ensures Grounded(g, d) && Depth(g, d) < Depth(g, id) {
      DependencyIsShallower(g, id, d);
    }
  }

  lemma DepthFromDeps(g: Graph, id: Id, k: nat)
    requires id in g.deps
    requires forall d :: d in g.deps[id] ==> Grounded(g, d) && Depth(g, d) <= k
    ensures Grounded(g, id) && Depth(g, id) <= k + 1
  {
    forall d | d in g.deps[id] ensures d in Layer(g, k) {
      DepthIsLeastLayer(g, d, k);
    }
    InLayer(g, id, k + 1);
  }

  /** Converse: a node whose dependencies are all grounded is grounded. */
  lemma GroundedFromDeps(g: Graph, id: Id)
    requires id in g.deps
    requires forall d :: d in g.deps[id] ==> Grounded(g, d)
    ensures Grounded(g, id)
  {
    var k := CommonLayer(g, g.deps[id]);
    assert id in Layer(g, k + 1);
  }

  lemma {:induction false} CommonLayer(g: Graph, ids: seq<Id>) returns (k: nat)
    requires forall d :: d in ids ==> Grounded(g, d)
    ensures forall d :: d in ids ==> d in Layer(g, k)
  {
    if ids == [] {
      k := 0;
    } else {
      var rest := CommonLayer(g, ids[1..]);
      var first := Depth(g, ids[0]);
      k := if rest < first then first else rest;
      LayerMonotone(g, rest, k);
      DepthIsLeastLayer(g, ids[0], k);
    }
  }

  /** The longest dependency chain of the whole graph. */
  ghost function Height(g: Graph, ids: seq<Id>): nat
    requires forall id :: id in ids ==> Grounded(g, id)
  {
    if ids == [] then 0
    else
      var rest := Height(g, ids[1..]);
      if rest < Depth(g, ids[0]) then Depth(g, ids[0]) else rest
  }

  lemma {:induction false} HeightIsMaximum(g: Graph, ids: seq<Id>)
    requires forall id :: id in ids ==> Grounded(g, id)
    ensures forall id :: id in ids ==> Depth(g, id) <= Height(g, ids)
    ensures ids != [] ==> exists id :: id in ids && Depth(g, id) == Height(g, ids)
  {
    if ids != [] {
      HeightIsMaximum(g, ids[1..]);
      if Depth(g, ids[0]) <= Height(g, ids[1..]) && |ids| > 1 {
        var id :| id in ids[1..] && Depth(g, id) == Height(g, ids[1..]);
        assert id in ids;
      } else {
        assert ids[0] in ids;
      }
    }
  }

  /** A chain of dependencies: every element depends on the next one. */
  ghost predicate IsChain(g: Graph, p: seq<Id>) {
    && 0 < |p|
    && forall i :: 0 <= i < |p| - 1 ==> p[i] in g.deps && p[i + 1] in g.deps[p[i]]
  }

  lemma ChainGrows(g: Graph, id: Id, rest: seq<Id>)
    requires id in g.deps && IsChain(g, rest) && rest[0] in g.deps[id]
    ensures IsChain(g, [id] + rest)
  {
    var p := [id] + rest;
    forall i | 0 <= i < |p| - 1 ensures p[i] in g.deps && p[i + 1] in g.deps[p[i]] {
      if 0 < i { assert rest[i - 1] in g.deps && rest[i - 1 + 1] in g.deps[rest[i - 1]]; }
    }
  }

  lemma ChainTail(g: Graph, p: seq<Id>)
    requires IsChain(g, p) && 1 < |p|
    ensures p[0] in g.deps && p[1] in g.deps[p[0]] && IsChain(g, p[1..])
  {
    assert p[0] in g.deps && p[0 + 1] in g.deps[p[0]];
    var rest := p[1..];
    forall i | 0 <= i < |rest| - 1 ensures rest[i] in g.deps && rest[i + 1] in g.deps[rest[i]] {
      assert p[i + 1] in g.deps && p[i + 1 + 1] in g.deps[p[i + 1]];
    }
  }

  ghost predicate IsCycle(g: Graph, p: seq<Id>) {
    IsChain(g, p) && 1 < |p| && p[0] == p[|p| - 1]
  }

  lemma {:induction false} ChainDescends(g: Graph, p: seq<Id>, i: nat)
    requires IsChain(g, p) && i < |p| && Grounded(g, p[0])
    ensures Grounded(g, p[i]) && Depth(g, p[i]) + i <= Depth(g, p[0])
  {
    if 0 < i {
      var j := i - 1;
      assert p[j] in g.deps && p[j + 1] in g.deps[p[j]];
      ChainDescends(g, p, j);
      DependencyIsShallower(g, p[j], p[i]);
    }
  }

  /** No node on a cycle is grounded. */
  lemma CycleIsNotGrounded(g: Graph, p: seq<Id>)
    requires IsCycle(g, p)
    ensures p[0] in g.deps && !Grounded(g, p[0])
  {
    assert p[0] in g.deps && p[0 + 1] in g.deps[p[0]];
    if Grounded(g, p[0]) {
      ChainDescends(g, p, |p| - 1);
    }
  }
}
