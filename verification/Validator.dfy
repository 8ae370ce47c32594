/** The check made before a graph is executed: closed dependencies, no self-dependency, no cycle. */
module Validator {
  import opened Graphs

  datatype Verdict =
    | Valid
    | UnknownDependency(node: Id, dep: Id)
    | SelfDependency(node: Id)
    | Cyclic

  predicate Closed(g: Graph) {
    forall id, d :: id in g.deps && d in g.deps[id] ==> d in g.deps
  }

  /** Nodes visited and left again are grounded. */
  ghost predicate Explored(g: Graph, visited: set<Id>, stack: set<Id>) {
    && stack <= visited <= g.deps.Keys
    && forall id :: id in visited && id !in stack ==> Grounded(g, id)
  }

  /** `path` lists the nodes on the stack from the root down, each depending on the next, and the node
      visited now is a dependency of the last one. */
  ghost predicate OnPath(g: Graph, path: seq<Id>, stack: set<Id>, id: Id) {
    && (forall x :: x in path <==> x in stack)
    && (path == [] || (IsChain(g, path) && path[|path| - 1] in g.deps && id in g.deps[path[|path| - 1]]))
  }

  /** A repeated node closes a cycle. */
  lemma CloseCycle(g: Graph, path: seq<Id>, stack: set<Id>, id: Id) returns (cycle: seq<Id>)
    requires OnPath(g, path, stack, id) && id in stack
    ensures IsCycle(g, cycle)
  {
    var i :| 0 <= i < |path| && path[i] == id;
    cycle := path[i..] + [id];
    forall j | 0 <= j < |cycle| - 1 ensures cycle[j] in g.deps && cycle[j + 1] in g.deps[cycle[j]] {
      if j < |cycle| - 2 {
        assert path[i + j] in g.deps && path[i + j + 1] in g.deps[path[i + j]];
      }
    }
  }

  lemma PathGrows(g: Graph, path: seq<Id>, stack: set<Id>, id: Id, d: Id)
    requires OnPath(g, path, stack, id) && id in g.deps && d in g.deps[id]
    ensures OnPath(g, path + [id], stack + {id}, d)
  {
    var p := path + [id];
    forall j | 0 <= j < |p| - 1 ensures p[j] in g.deps && p[j + 1] in g.deps[p[j]] {
      if j < |path| - 1 {
        assert path[j] in g.deps && path[j + 1] in g.deps[path[j]];
      }
    }
  }

  /** The nested depth-first `visit`; `visited` and `stack` are the two sets it shares with its caller. */
  method Visit(g: Graph, id: Id, visited: set<Id>, stack: set<Id>, ghost path: seq<Id>)
    returns (found: bool, visited': set<Id>, stack': set<Id>, ghost cycle: seq<Id>)
    requires Closed(g) && id in g.deps
    requires Explored(g, visited, stack) && OnPath(g, path, stack, id)
    ensures found ==> IsCycle(g, cycle)
    ensures !found ==> Explored(g, visited', stack') && stack' == stack
    ensures !found ==> visited <= visited' && id in visited' && id !in stack
    decreases g.deps.Keys - visited
  {
    found, visited', stack', cycle := false, visited, stack, [];
    if id in stack {
      found := true;
      cycle := CloseCycle(g, path, stack, id);
      return;
    }
    if id in visited {
      return;
    }
    visited' := visited' + {id};
    stack' := stack' + {id};
    for i := 0 to |g.deps[id]|
      invariant Explored(g, visited', stack') && stack' == stack + {id}
      invariant visited + {id} <= visited'
      invariant forall j :: 0 <= j < i ==> Grounded(g, g.deps[id][j])
    {
      PathGrows(g, path, stack, id, g.deps[id][i]);
      found, visited', stack', cycle := Visit(g, g.deps[id][i], visited', stack', path + [id]);
      if found {
        return;
      }
    }
    GroundedFromDeps(g, id);
    stack' := stack' - {id};
  }

  method HasCycle(g: Graph) returns (found: bool)
    requires WellFormed(g) && Closed(g)
    ensures found <==> exists cycle :: IsCycle(g, cycle)
    ensures found <==> !AllGrounded(g)
  {
    var visited: set<Id>, stack: set<Id> := {}, {};
    ghost var cycle;
    for i := 0 to |g.order|
      invariant Explored(g, visited, stack) && stack == {}
      invariant forall j :: 0 <= j < i ==> Grounded(g, g.order[j])
    {
      found, visited, stack, cycle := Visit(g, g.order[i], visited, stack, []);
      if found {
        CycleIsNotGrounded(g, cycle);
        return;
      }
    }
    forall c | IsCycle(g, c) ensures false {
      CycleIsNotGrounded(g, c);
    }
    found := false;
  }

  /** An entry of a dependency list that names a node of the graph other than the one it belongs to. */
  predicate GoodEntry(g: Graph, id: Id, d: Id) {
    d in g.deps && d != id
  }

  /** Entry `k` of the list of the `i`th node is the first that is not good, in the order of nodes and lists. */
  predicate FirstBadEntry(g: Graph, i: nat, k: nat)
    requires WellFormed(g)
  {
    && i < |g.order| && k < |g.deps[g.order[i]]| && !GoodEntry(g, g.order[i], g.deps[g.order[i]][k])
    && (forall j, d :: 0 <= j < i && d in g.deps[g.order[j]] ==> GoodEntry(g, g.order[j], d))
    && forall m :: 0 <= m < k ==> GoodEntry(g, g.order[i], g.deps[g.order[i]][m])
  }

  /** What each verdict says. */
  ghost predicate VerdictFits(g: Graph, v: Verdict)
    requires WellFormed(g)
  {
    match v
    case Valid => AllGrounded(g)
    case UnknownDependency(node, dep) =>
      && dep !in g.deps
      && exists i: nat, k: nat :: FirstBadEntry(g, i, k) && node == g.order[i] && dep == g.deps[node][k]
    case SelfDependency(node) =>
      exists i: nat, k: nat :: FirstBadEntry(g, i, k) && node == g.order[i] == g.deps[node][k]
    case Cyclic =>
      && (forall id, d :: id in g.deps && d in g.deps[id] ==> GoodEntry(g, id, d))
      && exists cycle :: IsCycle(g, cycle)
  }

  /** A graph passes exactly when every node can be reached by completing dependencies first; a rejection
      names the first bad entry, or a cycle when there is none. */
  method ValidateGraph(g: Graph) returns (v: Verdict)
    requires WellFormed(g)
    ensures v == Valid <==> AllGrounded(g)
    ensures VerdictFits(g, v)
  {
    if g.order == [] {
      return Valid;
    }
    for i := 0 to |g.order|
      invariant forall j, d :: 0 <= j < i && d in g.deps[g.order[j]] ==> GoodEntry(g, g.order[j], d)
    {
      var id := g.order[i];
      for k := 0 to |g.deps[id]|
        invariant forall j :: 0 <= j < k ==> GoodEntry(g, id, g.deps[id][j])
      {
        var dep := g.deps[id][k];
        assert !GoodEntry(g, id, dep) ==> FirstBadEntry(g, i, k);
        if dep !in g.deps {
          UnknownIsUngrounded(g, id, dep);
          return UnknownDependency(id, dep);
        }
        if dep == id {
          CycleIsNotGrounded(g, [id, id]);
          return SelfDependency(id);
        }
      }
    }
    forall id, d | id in g.deps && d in g.deps[id] ensures GoodEntry(g, id, d) {
      var j :| 0 <= j < |g.order| && g.order[j] == id;
    }
    var cyclic := HasCycle(g);
    v := if cyclic then Cyclic else Valid;
  }

  lemma UnknownIsUngrounded(g: Graph, id: Id, dep: Id)
    requires id in g.deps && dep in g.deps[id] && dep !in g.deps
    ensures !Grounded(g, id)
  {
    if Grounded(g, id) {
      DependencyIsShallower(g, id, dep);
      GroundedIsNode(g, dep);
    }
  }

  // ---------- plans as they come from the parser ----------

  /** The dependency list of step `i`: positions outside 0..i are dropped. The step's own id is already in
      the id list at this point, so its own position is not dropped. */
  function ParsedDeps(ids: seq<Id>, i: nat, positions: seq<int>): seq<Id>
    requires i < |ids|
  {
    if positions == [] then []
    else
      var last := positions[|positions| - 1];
      ParsedDeps(ids, i, positions[..|positions| - 1]) + if 0 <= last <= i then [ids[last]] else []
  }

  /** The dependency lists of the first `n` steps. */
  function ParsedMap(ids: seq<Id>, positions: seq<seq<int>>, n: nat): map<Id, seq<Id>>
    requires |positions| == |ids| && n <= |ids|
  {
    if n == 0 then map[]
    else ParsedMap(ids, positions, n - 1)[ids[n - 1] := ParsedDeps(ids, n - 1, positions[n - 1])]
  }

  lemma {:induction false} ParsedMapKeys(ids: seq<Id>, positions: seq<seq<int>>, n: nat)
    requires |positions| == |ids| && n <= |ids|
    ensures forall id :: id in ParsedMap(ids, positions, n) <==> id in ids[..n]
  {
    if 0 < n {
      ParsedMapKeys(ids, positions, n - 1);
      assert ids[..n] == ids[..n - 1] + [ids[n - 1]];
    }
  }

  lemma {:induction false} ParsedMapAt(ids: seq<Id>, positions: seq<seq<int>>, n: nat, i: nat)
    requires Distinct(ids) && |positions| == |ids| && i < n <= |ids|
    ensures ids[i] in ParsedMap(ids, positions, n)
    ensures ParsedMap(ids, positions, n)[ids[i]] == ParsedDeps(ids, i, positions[i])
  {
    if i < n - 1 {
      ParsedMapAt(ids, positions, n - 1, i);
    }
  }

  /** The graph of a parsed plan with fresh ids `ids`, where step `i` listed `positions[i]`. */
  function ParsedGraph(ids: seq<Id>, positions: seq<seq<int>>): Graph
    requires Distinct(ids) && |positions| == |ids|
  {
    Graph(ids, ParsedMap(ids, positions, |ids|))
  }

  /** The listed positions up to the own one are kept, no others, and in the listed order. */
  lemma {:induction false} ParsedDepsExactly(ids: seq<Id>, i: nat, positions: seq<int>, j: nat)
    requires i < |ids| && Distinct(ids) && j < |ids|
    ensures ids[j] in ParsedDeps(ids, i, positions) <==> j <= i && j in positions
  {
    if positions != [] {
      ParsedDepsExactly(ids, i, positions[..|positions| - 1], j);
      assert positions == positions[..|positions| - 1] + [positions[|positions| - 1]];
    }
  }

  lemma {:induction false} ParsedDepsHas(ids: seq<Id>, i: nat, positions: seq<int>, a: nat) returns (p: nat)
    requires i < |ids| && a < |positions| && 0 <= positions[a] <= i
    ensures p < |ParsedDeps(ids, i, positions)| && ParsedDeps(ids, i, positions)[p] == ids[positions[a]]
  {
    var init := positions[..|positions| - 1];
    if a < |positions| - 1 {
      p := ParsedDepsHas(ids, i, init, a);
    } else {
      p := |ParsedDeps(ids, i, init)|;
    }
  }

  lemma {:induction false} ParsedDepsKeepOrder(ids: seq<Id>, i: nat, positions: seq<int>, a: nat, b: nat)
    returns (p: nat, q: nat)
    requires i < |ids| && a < b < |positions| && 0 <= positions[a] <= i && 0 <= positions[b] <= i
    ensures p < q < |ParsedDeps(ids, i, positions)|
    ensures ParsedDeps(ids, i, positions)[p] == ids[positions[a]]
    ensures ParsedDeps(ids, i, positions)[q] == ids[positions[b]]
  {
    var init := positions[..|positions| - 1];
    if b < |positions| - 1 {
      p, q := ParsedDepsKeepOrder(ids, i, init, a, b);
    } else {
      p := ParsedDepsHas(ids, i, init, a);
      q := |ParsedDeps(ids, i, init)|;
    }
  }

  lemma {:induction false} ParsedDepsMembers(ids: seq<Id>, i: nat, positions: seq<int>)
    requires i < |ids| && Distinct(ids)
    ensures forall d :: d in ParsedDeps(ids, i, positions) ==> exists j :: 0 <= j <= i && ids[j] == d
    ensures ids[i] in ParsedDeps(ids, i, positions) <==> i in positions
  {
    if positions != [] {
      ParsedDepsMembers(ids, i, positions[..|positions| - 1]);
      assert positions == positions[..|positions| - 1] + [positions[|positions| - 1]];
    }
  }

  /** A parsed plan passes validation exactly when no step lists its own position. */
  lemma ParsedPlanIsValidIff(ids: seq<Id>, positions: seq<seq<int>>)
    requires Distinct(ids) && |positions| == |ids|
    ensures WellFormed(ParsedGraph(ids, positions))
    ensures AllGrounded(ParsedGraph(ids, positions)) <==> forall i :: 0 <= i < |ids| ==> i !in positions[i]
  {
    var g := ParsedGraph(ids, positions);
    ParsedMapKeys(ids, positions, |ids|);
    assert ids[..|ids|] == ids;
    if i :| 0 <= i < |ids| && i in positions[i] {
      ParsedMapAt(ids, positions, |ids|, i);
      ParsedDepsMembers(ids, i, positions[i]);
      if Grounded(g, ids[i]) { DependencyIsShallower(g, ids[i], ids[i]); }
    } else {
      EarlierOnlyIsGrounded(ids, positions, |ids|);
    }
  }

  lemma {:induction false} EarlierOnlyIsGrounded(ids: seq<Id>, positions: seq<seq<int>>, n: nat)
    requires Distinct(ids) && |positions| == |ids| && n <= |ids|
    requires forall i :: 0 <= i < |ids| ==> i !in positions[i]
    ensures forall i :: 0 <= i < n ==> Grounded(ParsedGraph(ids, positions), ids[i])
  {
    if 0 < n {
      var g := ParsedGraph(ids, positions);
      EarlierOnlyIsGrounded(ids, positions, n - 1);
      ParsedDependsOnEarlier(ids, positions, n - 1);
      forall d | d in g.deps[ids[n - 1]] ensures Grounded(g, d) {
        var j :| 0 <= j < n - 1 && ids[j] == d;
      }
      GroundedFromDeps(g, ids[n - 1]);
    }
  }

  lemma ParsedDependsOnEarlier(ids: seq<Id>, positions: seq<seq<int>>, i: nat)
    requires Distinct(ids) && |positions| == |ids| && i < |ids| && i !in positions[i]
    ensures ids[i] in ParsedGraph(ids, positions).deps
    ensures forall d :: d in ParsedGraph(ids, positions).deps[ids[i]] ==> exists j :: 0 <= j < i && ids[j] == d
  {
    ParsedMapAt(ids, positions, |ids|, i);
    ParsedDepsMembers(ids, i, positions[i]);
    forall d | d in ParsedDeps(ids, i, positions[i]) ensures exists j :: 0 <= j < i && ids[j] == d {
      var j :| 0 <= j <= i && ids[j] == d;
      assert j < i;
    }
  }
}
