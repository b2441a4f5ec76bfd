/**
 The import-cycle finder (scripts/architectureAnalyzer.ts:144-180).  Files are numbered in the order
 of their names, so the comparison of joined names is the lexicographic order of the numbers.
 */
module ImportCycles {

  type Graph = map<nat, seq<nat>>

  function Deps(graph: Graph, file: nat): seq<nat> {
    if file in graph then graph[file] else []
  }

  function Nodes(graph: Graph): set<nat> {
    graph.Keys + set file, k | file in graph && 0 <= k < |graph[file]| :: graph[file][k]
  }

  lemma DepsAreNodes(graph: Graph, file: nat, k: nat)
    requires k < |Deps(graph, file)|
    ensures Deps(graph, file)[k] in Nodes(graph)
  {
    assert file in graph;
  }

  // ----- cycles -----

  /** A closed walk: each node imports the next, and the last one the first. */
  predicate ClosedWalk(graph: Graph, nodes: seq<nat>) {
    && nodes != []
    && (forall i :: 0 <= i < |nodes| - 1 ==> nodes[i + 1] in Deps(graph, nodes[i]))
    && nodes[0] in Deps(graph, nodes[|nodes| - 1])
  }

  predicate Distinct(nodes: seq<nat>) {
    forall i, j :: 0 <= i < j < |nodes| ==> nodes[i] != nodes[j]
  }

  ghost predicate Cyclic(graph: Graph) {
    exists nodes :: ClosedWalk(graph, nodes)
  }

  function Rotate(nodes: seq<nat>, k: nat): (r: seq<nat>)
    requires k <= |nodes|
    ensures |r| == |nodes|
  {
    nodes[k..] + nodes[..k]
  }

  predicate Less(a: seq<nat>, b: seq<nat>) {
    if a == [] then b != []
    else if b == [] then false
    else a[0] < b[0] || (a[0] == b[0] && Less(a[1..], b[1..]))
  }

  ghost predicate LeastRotation(nodes: seq<nat>, best: seq<nat>) {
    && (exists k :: 0 <= k < |nodes| && best == Rotate(nodes, k))
    && forall k :: 0 <= k < |nodes| ==> !Less(Rotate(nodes, k), best)
  }

  /** A reported list: a simple cycle in its least rotation, closed with its first node. */
  ghost predicate Report(graph: Graph, cycle: seq<nat>) {
    && |cycle| >= 2 && cycle[|cycle| - 1] == cycle[0]
    && var nodes := cycle[..|cycle| - 1];
    && ClosedWalk(graph, nodes) && Distinct(nodes) && LeastRotation(nodes, nodes)
  }

  // ----- rotations -----

  lemma {:induction false} LessTrans(a: seq<nat>, b: seq<nat>, c: seq<nat>)
    requires !Less(b, a) && !Less(c, b)
    ensures !Less(c, a)
    decreases |a|
  {
    if a != [] && b != [] && c != [] && a[0] == b[0] == c[0] { LessTrans(a[1..], b[1..], c[1..]); }
  }

  lemma {:induction false} LessIsTotal(a: seq<nat>, b: seq<nat>)
    requires |a| == |b| && !Less(a, b) && !Less(b, a)
    ensures a == b
  {
    if a != [] {
      LessIsTotal(a[1..], b[1..]);
      assert a == [a[0]] + a[1..] && b == [b[0]] + b[1..];
    }
  }

  /** Rotating twice is rotating once. */
  lemma RotateTwice(nodes: seq<nat>, j: nat, k: nat)
    requires j < |nodes| && k < |nodes|
    ensures Rotate(Rotate(nodes, j), k) == Rotate(nodes, if j + k < |nodes| then j + k else j + k - |nodes|)
  {
  }

  /** Every rotation of a is a rotation of any rotation of a. */
  lemma RotationsAgree(nodes: seq<nat>, j: nat, k: nat)
    requires j < |nodes| && k < |nodes|
    ensures exists i :: 0 <= i < |nodes| && Rotate(Rotate(nodes, j), i) == Rotate(nodes, k)
  {
    var i := if k >= j then k - j else k + |nodes| - j;
    RotateTwice(nodes, j, i);
  }

  /** All rotations of a cycle have the same least rotation. */
  lemma CanonicalFormIsUnique(nodes: seq<nat>, j: nat, best: seq<nat>, other: seq<nat>)
    requires j < |nodes| && LeastRotation(nodes, best) && LeastRotation(Rotate(nodes, j), other)
    ensures best == other
  {
    var k :| 0 <= k < |nodes| && best == Rotate(nodes, k);
    var i :| 0 <= i < |nodes| && other == Rotate(Rotate(nodes, j), i);
    RotateTwice(nodes, j, i);
    RotationsAgree(nodes, j, k);
    LessIsTotal(best, other);
  }

  lemma RotationIsClosedWalk(graph: Graph, nodes: seq<nat>, k: nat)
    requires ClosedWalk(graph, nodes) && Distinct(nodes) && k < |nodes|
    ensures ClosedWalk(graph, Rotate(nodes, k)) && Distinct(Rotate(nodes, k))
  {
    var r := Rotate(nodes, k);
    forall i | 0 <= i < |r| ensures r[i] == nodes[if i + k < |nodes| then i + k else i + k - |nodes|] {}
    forall i | 0 <= i < |r| - 1 ensures r[i + 1] in Deps(graph, r[i]) {
      if i + k + 1 == |nodes| { assert nodes[0] in Deps(graph, nodes[|nodes| - 1]); }
    }
  }

  method CanonicalCycle(cycle: seq<nat>) returns (r: seq<nat>)
    requires |cycle| >= 2
    ensures |r| == |cycle| && r[|r| - 1] == r[0]
    ensures LeastRotation(cycle[..|cycle| - 1], r[..|r| - 1])
  {
    var nodes := cycle[..|cycle| - 1];
    var best := nodes;
    assert best == Rotate(nodes, 0);
    LessIsIrreflexive(best);
    var index := 1;
    while index < |nodes|
      invariant 1 <= index <= |nodes|
      invariant exists k :: 0 <= k < |nodes| && best == Rotate(nodes, k)
      invariant forall k :: 0 <= k < index ==> !Less(Rotate(nodes, k), best)
    {
      var rotated := nodes[index..] + nodes[..index];
      assert rotated == Rotate(nodes, index);
      if Less(rotated, best) {
        forall k | 0 <= k < index + 1 ensures !Less(Rotate(nodes, k), rotated) {
          LessIsAsymmetric(rotated, best);
          LessIsIrreflexive(rotated);
          if k < index { LessTrans(rotated, best, Rotate(nodes, k)); }
        }
        best := rotated;
      }
      index := index + 1;
    }
    r := best + [best[0]];
    assert r[..|r| - 1] == best;
  }

  lemma {:induction false} LessIsIrreflexive(a: seq<nat>)
    ensures !Less(a, a)
  {
    if a != [] { LessIsIrreflexive(a[1..]); }
  }

  lemma {:induction false} LessIsAsymmetric(a: seq<nat>, b: seq<nat>)
    requires Less(a, b)
    ensures !Less(b, a)
    decreases |a|
  {
    if a != [] && b != [] && a[0] == b[0] { LessIsAsymmetric(a[1..], b[1..]); }
  }

  /** No two different reports are rotations of one cycle. */
  lemma ReportsAreDistinctCycles(graph: Graph, c: seq<nat>, d: seq<nat>, j: nat)
    requires Report(graph, c) && Report(graph, d)
    requires j < |c| - 1 && d[..|d| - 1] == Rotate(c[..|c| - 1], j)
    ensures c == d
  {
    CanonicalFormIsUnique(c[..|c| - 1], j, c[..|c| - 1], d[..|d| - 1]);
    assert c == c[..|c| - 1] + [c[0]] && d == d[..|d| - 1] + [d[0]];
  }

  // ----- the search -----

  method IndexOf(stack: seq<nat>, file: nat) returns (index: nat)
    requires file in stack
    ensures index < |stack| && stack[index] == file
  {
    index := 0;
    while stack[index] != file
      invariant index < |stack| && file in stack[index..]
      decreases |stack| - index
    {
      assert stack[index..] == [stack[index]] + stack[index + 1..];
      index := index + 1;
    }
  }

  /** Some report passes from one file straight to the other. */
  ghost predicate OnReport(cycles: set<seq<nat>>, file: nat, dependency: nat) {
    exists c :: c in cycles && OnCycle(c, file, dependency)
  }

  predicate OnCycle(cycle: seq<nat>, file: nat, dependency: nat) {
    exists i :: 0 <= i < |cycle| - 1 && cycle[i] == file && cycle[i + 1] == dependency
  }

  /** Every import of a finished file finished before it, or a report passes along it. */
  ghost predicate Ranked(graph: Graph, order: seq<nat>, cycles: set<seq<nat>>) {
    forall i, d :: 0 <= i < |order| && d in Deps(graph, order[i]) ==>
      d in order[..i] || OnReport(cycles, order[i], d)
  }

  /** An import of a file that the search is done with. */
  ghost predicate Handled(graph: Graph, visited: set<nat>, cycles: set<seq<nat>>, file: nat, k: nat)
    requires k < |Deps(graph, file)|
  {
    Deps(graph, file)[k] in visited || OnReport(cycles, file, Deps(graph, file)[k])
  }

  class CycleFinder {
    const graph: Graph
    var visited: set<nat>
    var visiting: set<nat>
    var stack: seq<nat>
    var cycles: set<seq<nat>>
    ghost var order: seq<nat>    // the visited files in the order they finished

    ghost predicate Valid()
      reads this
    {
      && Distinct(stack) && (forall f :: f in visiting <==> f in stack)
      && (forall i :: 0 <= i < |stack| - 1 ==> stack[i + 1] in Deps(graph, stack[i]))
      && visited !! visiting
      && (forall f :: f in visited <==> f in order)
      && (forall c :: c in cycles ==> Report(graph, c))
      && Ranked(graph, order, cycles)
    }

    constructor (graph: Graph)
      ensures Valid() && this.graph == graph && visited == {} && stack == [] && cycles == {}
    {
      this.graph := graph;
      visited, visiting, stack, cycles, order := {}, {}, [], {}, [];
    }

    /** The part of the stack from an import that is still being visited is a cycle through that import. */
    method StackCycle(dependency: nat) returns (cycle: seq<nat>)
      requires Valid() && dependency in visiting && stack != []
      requires dependency in Deps(graph, stack[|stack| - 1])
      ensures Report(graph, cycle) && OnCycle(cycle, stack[|stack| - 1], dependency)
    {
      var start := IndexOf(stack, dependency);
      var nodes := stack[start..];
      SuffixIsCycle(graph, stack, start, dependency);
      cycle := CanonicalCycle(nodes + [dependency]);
      CycleIsReport(graph, nodes, dependency, cycle);
    }

    /** One more report, which passes along the import of a file that is still being visited. */
    method ReportCycle(dependency: nat)
      requires Valid() && dependency in visiting && stack != []
      requires dependency in Deps(graph, stack[|stack| - 1])
      modifies this`cycles
      ensures Valid() && OnReport(cycles, stack[|stack| - 1], dependency)
      ensures exists c :: c in cycles && cycles == old(cycles) + {c} && OnCycle(c, stack[|stack| - 1], dependency)
    {
      var cycle := StackCycle(dependency);
      RankedWithMore(graph, order, cycles, cycles + {cycle});
      cycles := cycles + {cycle};
    }

    method Push(file: nat)
      requires Valid() && file !in visiting && file !in visited
      requires stack == [] || file in Deps(graph, stack[|stack| - 1])
      modifies this`stack, this`visiting
      ensures Valid() && stack == old(stack) + [file] && visiting == old(visiting) + {file}
    {
      visiting := visiting + {file};
      stack := stack + [file];
    }

    /** The file on top of the stack is finished. */
    method Pop(file: nat)
      requires Valid() && stack != [] && file == stack[|stack| - 1]
      requires forall j: nat :: j < |Deps(graph, file)| ==> Handled(graph, visited, cycles, file, j)
      modifies this`stack, this`visiting, this`visited, this`order
      ensures Valid() && stack == old(stack[..|stack| - 1]) && visiting == old(visiting) - {file}
      ensures visited == old(visited) + {file}
    {
      assert file in visiting;
      RankedGrows(graph, order, cycles, visited, file);
      stack := stack[..|stack| - 1];
      visiting := visiting - {file};
      visited := visited + {file};
      order := order + [file];
    }

    method Visit(file: nat)
      requires Valid() && file !in visiting && file in Nodes(graph)
      requires stack == [] || file in Deps(graph, stack[|stack| - 1])
      modifies this
      ensures Valid() && stack == old(stack) && visiting == old(visiting)
      ensures file in visited && old(visited) <= visited && old(cycles) <= cycles
      decreases Nodes(graph) - visited - visiting, 0
    {
      if file in visited { return; }
      Push(file);
      VisitDependencies(file);
      Pop(file);
    }

    /** Every import of the file on top of the stack, in turn. */
    method VisitDependencies(file: nat)
      requires Valid() && stack != [] && file == stack[|stack| - 1]
      modifies this
      ensures Valid() && stack == old(stack) && visiting == old(visiting)
      ensures old(visited) <= visited && old(cycles) <= cycles
      ensures forall j: nat :: j < |Deps(graph, file)| ==> Handled(graph, visited, cycles, file, j)
      decreases Nodes(graph) - visited - visiting, 2
    {
      var k := 0;
      while k < |Deps(graph, file)|
        invariant 0 <= k <= |Deps(graph, file)|
        invariant Valid() && stack == old(stack) && visiting == old(visiting)
        invariant old(visited) <= visited && old(cycles) <= cycles
        invariant forall j: nat :: j < k ==> Handled(graph, visited, cycles, file, j)
      {
        ghost var seen, reported := visited, cycles;
        VisitDependency(file, Deps(graph, file)[k], k);
        forall j: nat | j < k ensures Handled(graph, visited, cycles, file, j) {
          HandledStays(graph, seen, visited, reported, cycles, file, j);
        }
        k := k + 1;
      }
    }

    method VisitDependency(file: nat, dependency: nat, ghost k: nat)
      requires Valid() && stack != [] && file == stack[|stack| - 1]
      requires k < |Deps(graph, file)| && dependency == Deps(graph, file)[k]
      modifies this
      ensures Valid() && stack == old(stack) && visiting == old(visiting)
      ensures old(visited) <= visited && old(cycles) <= cycles && Handled(graph, visited, cycles, file, k)
      decreases Nodes(graph) - visited - visiting, 1
    {
      if dependency in visiting {
        ReportCycle(dependency);
      } else {
        DepsAreNodes(graph, file, k);
        Visit(dependency);
      }
    }
  }

  /** The part of a path from a node that its end imports is a simple cycle. */
  lemma SuffixIsCycle(graph: Graph, stack: seq<nat>, start: nat, dependency: nat)
    requires Distinct(stack) && start < |stack| && stack[start] == dependency
    requires forall i :: 0 <= i < |stack| - 1 ==> stack[i + 1] in Deps(graph, stack[i])
    requires dependency in Deps(graph, stack[|stack| - 1])
    ensures ClosedWalk(graph, stack[start..]) && Distinct(stack[start..])
  {
    var nodes := stack[start..];
    forall i | 0 <= i < |nodes| - 1 ensures nodes[i + 1] in Deps(graph, nodes[i]) {
      assert nodes[i] == stack[start + i] && nodes[i + 1] == stack[start + i + 1];
    }
  }

  lemma CycleIsReport(graph: Graph, nodes: seq<nat>, dependency: nat, cycle: seq<nat>)
    requires ClosedWalk(graph, nodes) && Distinct(nodes)
    requires |cycle| == |nodes| + 1 && cycle[|cycle| - 1] == cycle[0]
    requires nodes[0] == dependency && LeastRotation((nodes + [dependency])[..|nodes|], cycle[..|cycle| - 1])
    ensures Report(graph, cycle) && OnCycle(cycle, nodes[|nodes| - 1], dependency)
  {
    assert (nodes + [dependency])[..|nodes|] == nodes;
    CanonicalIsReport(graph, nodes, cycle);
    LastImportIsOnCycle(nodes, dependency, cycle);
  }

  /** The import that closes a cycle lies on every rotation of it. */
  lemma LastImportIsOnCycle(nodes: seq<nat>, dependency: nat, cycle: seq<nat>)
    requires nodes != [] && nodes[0] == dependency
    requires |cycle| == |nodes| + 1 && cycle[|cycle| - 1] == cycle[0]
    requires LeastRotation(nodes, cycle[..|cycle| - 1])
    ensures OnCycle(cycle, nodes[|nodes| - 1], dependency)
  {
    var best := cycle[..|cycle| - 1];
    var k :| 0 <= k < |nodes| && best == Rotate(nodes, k);
    var i := |nodes| - 1 - k;
    assert best[i] == nodes[|nodes| - 1] && cycle[i] == best[i];
    if k == 0 {
      assert cycle[i + 1] == best[0] == nodes[0];
    } else {
      assert best[i + 1] == nodes[0] && cycle[i + 1] == best[i + 1];
    }
  }

  lemma ReportsStay(cycles: set<seq<nat>>, more: set<seq<nat>>, file: nat, dependency: nat)
    requires cycles <= more && OnReport(cycles, file, dependency)
    ensures OnReport(more, file, dependency)
  {
    var c :| c in cycles && OnCycle(c, file, dependency);
    assert c in more;
  }

  lemma HandledStays(graph: Graph, seen: set<nat>, visited: set<nat>, cycles: set<seq<nat>>, more: set<seq<nat>>,
                     file: nat, k: nat)
    requires seen <= visited && cycles <= more && k < |Deps(graph, file)| && Handled(graph, seen, cycles, file, k)
    ensures Handled(graph, visited, more, file, k)
  {
    var d := Deps(graph, file)[k];
    if d !in visited { ReportsStay(cycles, more, file, d); }
  }

  lemma RankedWithMore(graph: Graph, order: seq<nat>, cycles: set<seq<nat>>, more: set<seq<nat>>)
    requires Ranked(graph, order, cycles) && cycles <= more
    ensures Ranked(graph, order, more)
  {
    forall i, d | 0 <= i < |order| && d in Deps(graph, order[i])
      ensures d in order[..i] || OnReport(more, order[i], d)
    {
      if d !in order[..i] { ReportsStay(cycles, more, order[i], d); }
    }
  }

  lemma RankedGrows(graph: Graph, order: seq<nat>, cycles: set<seq<nat>>, visited: set<nat>, file: nat)
    requires Ranked(graph, order, cycles) && forall f :: f in visited ==> f in order
    requires forall j: nat :: j < |Deps(graph, file)| ==> Handled(graph, visited, cycles, file, j)
    ensures Ranked(graph, order + [file], cycles)
  {
    var grown := order + [file];
    forall i, d | 0 <= i < |grown| && d in Deps(graph, grown[i])
      ensures d in grown[..i] || OnReport(cycles, grown[i], d)
    {
      if i == |order| {
        assert grown[..i] == order;
        var j: nat :| j < |Deps(graph, file)| && Deps(graph, file)[j] == d;
        assert Handled(graph, visited, cycles, file, j);
      } else {
        assert grown[..i] == order[..i] && grown[i] == order[i];
      }
    }
  }

  lemma CanonicalIsReport(graph: Graph, nodes: seq<nat>, cycle: seq<nat>)
    requires ClosedWalk(graph, nodes) && Distinct(nodes)
    requires |cycle| == |nodes| + 1 && cycle[|cycle| - 1] == cycle[0]
    requires LeastRotation(nodes, cycle[..|cycle| - 1])
    ensures Report(graph, cycle)
  {
    var best := cycle[..|cycle| - 1];
    var k :| 0 <= k < |nodes| && best == Rotate(nodes, k);
    RotationIsClosedWalk(graph, nodes, k);
    assert best == Rotate(best, 0);
    forall i | 0 <= i < |best| ensures !Less(Rotate(best, i), best) {
      RotateTwice(nodes, k, i);
    }
  }

  // ----- the whole analysis -----

  function After(nodes: seq<nat>, i: nat): nat
    requires i < |nodes|
  {
    if i + 1 < |nodes| then nodes[i + 1] else nodes[0]
  }

  /** Some import along the walk lies on a report. */
  ghost predicate Reported(cycles: set<seq<nat>>, nodes: seq<nat>) {
    exists i: nat :: i < |nodes| && OnReport(cycles, nodes[i], After(nodes, i))
  }

  lemma {:induction false} RanksFall(graph: Graph, order: seq<nat>, cycles: set<seq<nat>>, nodes: seq<nat>, i: nat,
                                     rank: nat)
      returns (r: nat)
    requires Ranked(graph, order, cycles) && ClosedWalk(graph, nodes) && !Reported(cycles, nodes) && i < |nodes|
    requires rank < |order| && order[rank] == nodes[0]
    ensures r < |order| && order[r] == nodes[i] && r + i <= rank
  {
    if i == 0 { return rank; }
    var before := RanksFall(graph, order, cycles, nodes, i - 1, rank);
    assert nodes[i] in Deps(graph, order[before]) && nodes[i] == After(nodes, i - 1);
    r :| 0 <= r < before && order[r] == nodes[i];
  }

  /** In a ranked order the node of a cycle that no report touches would have to rank below itself, for ever. */
  lemma {:induction false} RankedIsReported(graph: Graph, order: seq<nat>, cycles: set<seq<nat>>, nodes: seq<nat>,
                                            rank: nat)
    requires Ranked(graph, order, cycles) && ClosedWalk(graph, nodes) && rank < |order| && order[rank] == nodes[0]
    ensures Reported(cycles, nodes)
    decreases rank
  {
    if !Reported(cycles, nodes) {
      var last := RanksFall(graph, order, cycles, nodes, |nodes| - 1, rank);
      assert nodes[0] in Deps(graph, order[last]) && nodes[0] == After(nodes, |nodes| - 1);
      var below :| 0 <= below < last && order[below] == nodes[0];
      RankedIsReported(graph, order, cycles, nodes, below);
    }
  }

  /** The analysis ends; what it reports are simple cycles in canonical form; every directed cycle of the
      graph has an import that lies on a report; and so it reports nothing exactly when there is no
      directed cycle.  Any order of the roots will do. */
  method FindCycles(graph: Graph, roots: seq<nat>) returns (cycles: set<seq<nat>>)
    requires forall file :: file in roots <==> file in graph
    ensures forall c :: c in cycles ==> Report(graph, c)
    ensures forall nodes :: ClosedWalk(graph, nodes) ==> Reported(cycles, nodes)
    ensures cycles == {} <==> !Cyclic(graph)
  {
    var finder := new CycleFinder(graph);
    var k := 0;
    while k < |roots|
      invariant 0 <= k <= |roots| && finder.Valid() && finder.graph == graph && finder.stack == []
      invariant forall j :: 0 <= j < k ==> roots[j] in finder.visited
    {
      assert roots[k] in graph;
      finder.Visit(roots[k]);
      k := k + 1;
    }
    cycles := finder.cycles;
    forall nodes | ClosedWalk(graph, nodes) ensures Reported(cycles, nodes) {
      AllVisited(graph, roots, finder.visited, nodes);
      var rank :| 0 <= rank < |finder.order| && finder.order[rank] == nodes[0];
      RankedIsReported(graph, finder.order, cycles, nodes, rank);
    }
    if c :| c in cycles { assert ClosedWalk(graph, c[..|c| - 1]); }
  }

  lemma AllVisited(graph: Graph, roots: seq<nat>, visited: set<nat>, nodes: seq<nat>)
    requires (forall file :: file in roots <==> file in graph) && (forall j :: 0 <= j < |roots| ==> roots[j] in visited)
    requires ClosedWalk(graph, nodes)
    ensures nodes[0] in visited
  {
    var imported := if |nodes| > 1 then nodes[1] else nodes[0];
    assert imported in Deps(graph, nodes[0]);
    assert nodes[0] in roots;
  }

  /** A part of the graph without the imports that lie on a report. */
  ghost predicate Cut(graph: Graph, cycles: set<seq<nat>>, rest: Graph) {
    forall file, d :: d in Deps(rest, file) ==> d in Deps(graph, file) && !OnReport(cycles, file, d)
  }

  lemma WalkOfCut(graph: Graph, cycles: set<seq<nat>>, rest: Graph, nodes: seq<nat>)
    requires Cut(graph, cycles, rest) && ClosedWalk(rest, nodes)
    ensures ClosedWalk(graph, nodes) && !Reported(cycles, nodes)
  {
    forall i: nat | i < |nodes| ensures After(nodes, i) in Deps(graph, nodes[i])
      && !OnReport(cycles, nodes[i], After(nodes, i))
    {
      assert After(nodes, i) in Deps(rest, nodes[i]);
    }
    forall i | 0 <= i < |nodes| - 1 ensures nodes[i + 1] in Deps(graph, nodes[i]) {
      assert nodes[i + 1] == After(nodes, i);
    }
    assert nodes[0] == After(nodes, |nodes| - 1);
  }

  /** With the reported imports taken out, whatever is left of the graph has no cycle. */
  lemma CuttingReportsBreaksEveryCycle(graph: Graph, cycles: set<seq<nat>>, rest: Graph)
    requires forall nodes :: ClosedWalk(graph, nodes) ==> Reported(cycles, nodes)
    requires Cut(graph, cycles, rest)
    ensures !Cyclic(rest)
  {
    if nodes :| ClosedWalk(rest, nodes) { WalkOfCut(graph, cycles, rest, nodes); }
  }
}
