/**
 * The DAG scheduler: waves of nodes whose dependencies are all completed, run in a thread pool.
 *
 * A node's computation is an oracle that returns a value or raises. The scheduler's waves, the sets of
 * nodes submitted together, are an extra result of `Run`.
 */
module DagScheduler {
  import opened Sequences

  type Value = string

  datatype Outcome = Returns(value: Value) | Raises

  datatype Node = Node(name: string, dependsOn: seq<string>)

  datatype DagError =
    | DuplicateName(name: string)
    | MissingDependency(node: string, dependency: string)
    | CycleAmong(names: set<string>)
    | NodeFailed(name: string)

  /** From each node name to the names it depends on. */
  type Graph = map<string, seq<string>>

  ghost predicate DependenciesKnown(g: Graph) {
    forall n, d :: n in g && d in g[n] ==> d in g
  }

  // ---------------------------------------------------------------------------
  // Dependency chains
  // ---------------------------------------------------------------------------

  /** A non-empty sequence of nodes in which each one is a dependency of the next. */
  ghost predicate Chain(g: Graph, c: seq<string>) {
    && c != []
    && (forall i :: 0 <= i < |c| ==> c[i] in g)
    && (forall i :: 0 <= i < |c| - 1 ==> c[i] in g[c[i + 1]])
  }

  ghost predicate IsCycle(g: Graph, c: seq<string>) {
    Chain(g, c) && |c| >= 2 && c[0] == c[|c| - 1]
  }

  ghost predicate Cyclic(g: Graph) {
    exists c :: IsCycle(g, c)
  }

  /** `a` is a direct or indirect dependency of `n`. */
  ghost predicate DependsTransitively(g: Graph, n: string, a: string) {
    exists c :: Chain(g, c) && |c| >= 2 && c[0] == a && c[|c| - 1] == n
  }

  ghost predicate EndsChain(g: Graph, c: seq<string>, n: string) {
    Chain(g, c) && c[|c| - 1] == n
  }

  /** The longest dependency chain ending at `n` has `depth` steps. */
  ghost predicate HasDepth(g: Graph, n: string, depth: nat) {
    && (exists c :: EndsChain(g, c, n) && |c| == depth + 1)
    && (forall c :: EndsChain(g, c, n) ==> |c| <= depth + 1)
  }

  /** Some dependency of `n` lies in `names`. */
  ghost predicate HasDependencyIn(g: Graph, n: string, names: set<string>)
    requires n in g
  {
    exists d :: d in g[n] && d in names
  }

  /** Every node of `stuck` has a dependency in `stuck`. */
  ghost predicate Stuck(g: Graph, stuck: set<string>) {
    && stuck != {} && stuck <= g.Keys
    && forall n :: n in stuck ==> HasDependencyIn(g, n, stuck)
  }

  lemma ChainPrepend(g: Graph, d: string, c: seq<string>)
    requires Chain(g, c) && d in g && d in g[c[0]]
    ensures Chain(g, [d] + c)
  {
    var e := [d] + c;
    forall i | 0 <= i < |e| ensures e[i] in g {
      assert i > 0 ==> e[i] == c[i - 1];
    }
    forall i | 0 <= i < |e| - 1 ensures e[i] in g[e[i + 1]] {
      assert i > 0 ==> e[i] == c[i - 1] && c[i - 1] in g[c[i - 1 + 1]];
    }
  }

  lemma {:induction false} Walk(g: Graph, stuck: set<string>, steps: nat) returns (c: seq<string>)
    requires Stuck(g, stuck)
    ensures Chain(g, c) && |c| == steps + 1 && forall x :: x in c ==> x in stuck
  {
    if steps == 0 {
      var n :| n in stuck;
      c := [n];
    } else {
      var tail := Walk(g, stuck, steps - 1);
      assert tail[0] in stuck && HasDependencyIn(g, tail[0], stuck);
      var d :| d in g[tail[0]] && d in stuck;
      ChainPrepend(g, d, tail);
      c := [d] + tail;
    }
  }

  lemma ChainSlice(g: Graph, c: seq<string>, lo: nat, hi: nat)
    requires Chain(g, c) && lo < hi <= |c|
    ensures Chain(g, c[lo..hi])
  {
    var e := c[lo..hi];
    forall i | 0 <= i < |e| - 1 ensures e[i] in g[e[i + 1]] {
      assert c[lo + i] in g[c[lo + i + 1]];
    }
  }

  lemma Pigeonhole(c: seq<string>, holes: set<string>) returns (i: nat, j: nat)
    requires |c| > |holes| && forall x :: x in c ==> x in holes
    ensures i < j < |c| && c[i] == c[j]
  {
    if NoDuplicates(c) {
      NoDuplicatesSize(c);
      SubsetSize(SetOf(c), holes);
    }
    i, j :| 0 <= i < j < |c| && c[i] == c[j];
  }

  /** A non-empty set in which every node has a dependency inside the set contains a cycle. */
  lemma StuckSetHasCycle(g: Graph, stuck: set<string>) returns (c: seq<string>)
    requires Stuck(g, stuck)
    ensures IsCycle(g, c) && forall x :: x in c ==> x in stuck
  {
    var walk := Walk(g, stuck, |stuck|);
    var i, j := Pigeonhole(walk, stuck);
    c := walk[i..j + 1];
    ChainSlice(g, walk, i, j + 1);
    assert forall x :: x in c ==> x in walk;
  }

  // ---------------------------------------------------------------------------
  // Waves
  // ---------------------------------------------------------------------------

  ghost predicate Disjoint(waves: seq<set<string>>) {
    forall i, j, n :: 0 <= i < j < |waves| && n in waves[i] ==> n !in waves[j]
  }

  ghost predicate RanBefore(waves: seq<set<string>>, d: string, i: nat)
    requires i <= |waves|
  {
    exists j :: 0 <= j < i && d in waves[j]
  }

  ghost predicate Waited(g: Graph, waves: seq<set<string>>, n: string, i: nat)
    requires 0 < i <= |waves| && n in g
  {
    HasDependencyIn(g, n, waves[i - 1])
  }

  /** Dependencies ran in earlier waves; every wave but the first was waiting for the one before it. */
  ghost predicate Layered(g: Graph, waves: seq<set<string>>) {
    && (forall i, n :: 0 <= i < |waves| && n in waves[i] ==> n in g)
    && (forall i, n, d :: 0 <= i < |waves| && n in waves[i] && d in g[n] ==> RanBefore(waves, d, i))
    && (forall i, n :: 0 < i < |waves| && n in waves[i] ==> Waited(g, waves, n, i))
  }

  function Started(waves: seq<set<string>>): (r: set<string>)
    ensures forall n :: n in r <==> exists i :: 0 <= i < |waves| && n in waves[i]
  {
    set i, n | 0 <= i < |waves| && n in waves[i] :: n
  }

  lemma {:induction false} ChainRunsInOrder(g: Graph, waves: seq<set<string>>, c: seq<string>, i: nat) returns (k: nat)
    requires Disjoint(waves) && Layered(g, waves)
    requires Chain(g, c) && i < |waves| && c[|c| - 1] in waves[i]
    ensures k < |waves| && c[0] in waves[k] && k + |c| - 1 <= i
    decreases |c|
  {
    if |c| == 1 {
      k := i;
    } else {
      var d := c[|c| - 2];
      assert d in g[c[|c| - 2 + 1]];
      assert RanBefore(waves, d, i);
      var j :| 0 <= j < i && d in waves[j];
      var front := c[..|c| - 1];
      ChainSlice(g, c, 0, |c| - 1);
      assert front[|front| - 1] == d;
      k := ChainRunsInOrder(g, waves, front, j);
    }
  }

  /** Every transitive dependency of a node that ran was run, in an earlier wave and in no other. */
  lemma TransitiveDependenciesRanBefore(g: Graph, waves: seq<set<string>>, n: string, a: string, i: nat)
    returns (k: nat)
    requires Disjoint(waves) && Layered(g, waves)
    requires i < |waves| && n in waves[i] && DependsTransitively(g, n, a)
    ensures k < i && a in waves[k] && forall j :: 0 <= j < |waves| && j != k ==> a !in waves[j]
  {
    var c :| Chain(g, c) && |c| >= 2 && c[0] == a && c[|c| - 1] == n;
    k := ChainRunsInOrder(g, waves, c, i);
  }

  lemma {:induction false} ChainOfWaves(g: Graph, waves: seq<set<string>>, n: string, i: nat) returns (c: seq<string>)
    requires Layered(g, waves) && i < |waves| && n in waves[i]
    ensures EndsChain(g, c, n) && |c| == i + 1
    decreases i
  {
    if i == 0 {
      c := [n];
    } else {
      assert Waited(g, waves, n, i);
      var d :| d in g[n] && d in waves[i - 1];
      var front := ChainOfWaves(g, waves, d, i - 1);
      c := front + [n];
    }
  }

  /** A node runs in the wave whose index is the length of its longest dependency chain. */
  lemma WaveIsDepth(g: Graph, waves: seq<set<string>>, n: string, i: nat)
    requires Disjoint(waves) && Layered(g, waves) && i < |waves| && n in waves[i]
    ensures HasDepth(g, n, i)
  {
    var witnessChain := ChainOfWaves(g, waves, n, i);
    forall c | EndsChain(g, c, n) ensures |c| <= i + 1 {
      var k := ChainRunsInOrder(g, waves, c, i);
    }
  }

  /** An assignment of rounds to all nodes in which dependencies come in earlier rounds. */
  ghost predicate RespectsDependencies(g: Graph, round: map<string, nat>) {
    && round.Keys == g.Keys
    && forall n, d :: n in g && d in g[n] && d in g ==> round[d] < round[n]
  }

  lemma {:induction false} NoNodeEarlierThanItsWave(g: Graph, waves: seq<set<string>>, round: map<string, nat>,
                                                    n: string, i: nat)
    requires Layered(g, waves) && RespectsDependencies(g, round)
    requires i < |waves| && n in waves[i]
    ensures round[n] >= i
    decreases i
  {
    if i == 0 {
    } else {
      assert Waited(g, waves, n, i);
      var d :| d in g[n] && d in waves[i - 1];
      NoNodeEarlierThanItsWave(g, waves, round, d, i - 1);
    }
  }

  /** No schedule that respects the dependencies uses fewer rounds than there are waves. */
  lemma WavesAreMinimal(g: Graph, waves: seq<set<string>>, round: map<string, nat>, rounds: nat)
    requires Layered(g, waves) && RespectsDependencies(g, round)
    requires forall i :: 0 <= i < |waves| ==> waves[i] != {}
    requires forall n :: n in g ==> round[n] < rounds
    ensures |waves| <= rounds
  {
    if |waves| > 0 {
      var n :| n in waves[|waves| - 1];
      NoNodeEarlierThanItsWave(g, waves, round, n, |waves| - 1);
    }
  }

  lemma AllRanMeansAcyclic(g: Graph, waves: seq<set<string>>)
    requires Disjoint(waves) && Layered(g, waves) && Started(waves) == g.Keys
    ensures !Cyclic(g)
  {
    forall c | IsCycle(g, c) ensures false {
      assert c[|c| - 1] in Started(waves);
      var i :| 0 <= i < |waves| && c[|c| - 1] in waves[i];
      var k := ChainRunsInOrder(g, waves, c, i);
    }
  }

  // ---------------------------------------------------------------------------
  // The scheduler
  // ---------------------------------------------------------------------------

  function GraphOf(nodes: seq<Node>): Graph {
    if nodes == [] then map[]
    else GraphOf(nodes[..|nodes| - 1])[nodes[|nodes| - 1].name := nodes[|nodes| - 1].dependsOn]
  }

  /** The i-th node repeats the name of an earlier one, and no node before it does. */
  ghost predicate FirstRepeat(nodes: seq<Node>, i: nat) {
    && i < |nodes|
    && (exists j :: 0 <= j < i && nodes[j].name == nodes[i].name)
    && DistinctNames(nodes[..i])
  }

  ghost predicate DistinctNames(nodes: seq<Node>) {
    forall i, j :: 0 <= i < j < |nodes| ==> nodes[i].name != nodes[j].name
  }

  ghost predicate KnownBefore(nodes: seq<Node>, g: Graph, i: nat)
    requires i <= |nodes|
  {
    forall j, d :: 0 <= j < i && d in nodes[j].dependsOn ==> d in g
  }

  /** The k-th dependency of the i-th node is the first one that names no node. */
  ghost predicate FirstMissing(nodes: seq<Node>, i: nat, k: nat) {
    var g := GraphOf(nodes);
    && i < |nodes| && k < |nodes[i].dependsOn| && nodes[i].dependsOn[k] !in g
    && KnownBefore(nodes, g, i)
    && (forall d :: d in nodes[i].dependsOn[..k] ==> d in g)
  }

  lemma {:induction false} GraphOfKeys(nodes: seq<Node>)
    ensures forall n :: n in GraphOf(nodes) <==> exists i :: 0 <= i < |nodes| && nodes[i].name == n
  {
    if nodes == [] {
    } else {
      var front := nodes[..|nodes| - 1];
      GraphOfKeys(front);
      forall n | n in GraphOf(nodes) ensures exists i :: 0 <= i < |nodes| && nodes[i].name == n {
        if n in GraphOf(front) {
          var i :| 0 <= i < |front| && front[i].name == n;
          assert nodes[i].name == n;
        } else {
          assert nodes[|nodes| - 1].name == n;
        }
      }
      forall n | exists i :: 0 <= i < |nodes| && nodes[i].name == n ensures n in GraphOf(nodes) {
        var i :| 0 <= i < |nodes| && nodes[i].name == n;
        if i < |front| {
          assert front[i].name == n;
        }
      }
    }
  }

  lemma {:induction false} GraphOfAt(nodes: seq<Node>, i: nat)
    requires i < |nodes| && DistinctNames(nodes)
    ensures nodes[i].name in GraphOf(nodes) && GraphOf(nodes)[nodes[i].name] == nodes[i].dependsOn
  {
    if i < |nodes| - 1 {
      GraphOfAt(nodes[..|nodes| - 1], i);
    }
  }

  /** The first loop of `run`: the nodes by name, or the first repeated name. */
  method ByName(nodes: seq<Node>) returns (r: Result<Graph, DagError>)
    ensures r.Success? ==> DistinctNames(nodes) && r.value == GraphOf(nodes)
    ensures r.Failure? ==> exists i: nat :: FirstRepeat(nodes, i) && r.error == DuplicateName(nodes[i].name)
  {
    var byName: Graph := map[];
    for i := 0 to |nodes|
      invariant byName == GraphOf(nodes[..i]) && DistinctNames(nodes[..i])
    {
      GraphOfKeys(nodes[..i]);
      if nodes[i].name in byName {
        var j :| 0 <= j < |nodes[..i]| && nodes[..i][j].name == nodes[i].name;
        assert FirstRepeat(nodes, i);
        return Failure(DuplicateName(nodes[i].name));
      }
      forall j | 0 <= j < i ensures nodes[j].name != nodes[i].name {
        assert nodes[..i][j] == nodes[j];
      }
      assert nodes[..i + 1][..i] == nodes[..i];
      byName := byName[nodes[i].name := nodes[i].dependsOn];
    }
    assert nodes[..|nodes|] == nodes;
    return Success(byName);
  }

  /** The second loop of `run`: the first dependency that names no node, if any. */
  method CheckDependencies(nodes: seq<Node>, byName: Graph) returns (error: Option<DagError>)
    requires byName == GraphOf(nodes)
    ensures error.None? ==> KnownBefore(nodes, byName, |nodes|)
    ensures error.Some? ==> exists i: nat, k: nat :: FirstMissing(nodes, i, k) &&
                              error.value == MissingDependency(nodes[i].name, nodes[i].dependsOn[k])
  {
    for i := 0 to |nodes|
      invariant KnownBefore(nodes, byName, i)
    {
      var deps := nodes[i].dependsOn;
      for k := 0 to |deps|
        invariant forall d :: d in deps[..k] ==> d in byName
      {
        if deps[k] !in byName {
          assert FirstMissing(nodes, i, k);
          return Some(MissingDependency(nodes[i].name, deps[k]));
        }
        assert deps[..k + 1] == deps[..k] + [deps[k]];
      }
      assert deps[..|deps|] == deps;
    }
    return None;
  }

  /** Every wave before the last ran without raising. */
  ghost predicate AllReturned(waves: seq<set<string>>, run: string -> Outcome, upTo: nat)
    requires upTo <= |waves|
  {
    forall i, n :: 0 <= i < upTo && n in waves[i] ==> run(n).Returns?
  }

  /** What the result says about the waves that were run. */
  ghost predicate Explains(g: Graph, run: string -> Outcome, waves: seq<set<string>>,
                           r: Result<map<string, Value>, DagError>) {
    match r
    case Success(results) =>
      && Started(waves) == g.Keys && AllReturned(waves, run, |waves|)
      && results.Keys == g.Keys && forall n :: n in g ==> run(n) == Returns(results[n])
    case Failure(CycleAmong(names)) =>
      && AllReturned(waves, run, |waves|)
      && names == g.Keys - Started(waves)
      && Stuck(g, names)
    case Failure(NodeFailed(name)) =>
      && waves != [] && AllReturned(waves, run, |waves| - 1)
      && name in waves[|waves| - 1] && run(name).Raises?
    case Failure(_) => false
  }

  lemma StartedExtend(waves: seq<set<string>>, ready: set<string>)
    ensures Started(waves + [ready]) == Started(waves) + ready
  {
    var all := waves + [ready];
    forall n ensures n in Started(all) <==> n in Started(waves) + ready {
      if n in Started(waves) {
        var i :| 0 <= i < |waves| && n in waves[i];
        assert n in all[i];
      }
      if n in ready {
        assert n in all[|waves|];
      }
      if n in Started(all) {
        var i :| 0 <= i < |all| && n in all[i];
        assert i < |waves| ==> n in waves[i];
      }
    }
  }

  lemma ExtendRanBefore(g: Graph, waves: seq<set<string>>, ready: set<string>, i: nat, n: string, d: string)
    requires Layered(g, waves) && ready <= g.Keys
    requires forall n, d :: n in ready && d in g[n] ==> d in Started(waves)
    requires i <= |waves| && n in (waves + [ready])[i] && n in g && d in g[n]
    ensures RanBefore(waves + [ready], d, i)
  {
    assert RanBefore(waves, d, i) by {
      if i == |waves| {
        assert d in Started(waves);
      } else {
        assert n in waves[i];
      }
    }
    var j :| 0 <= j < i && d in waves[j];
    assert d in (waves + [ready])[j];
  }

  lemma ExtendWaited(g: Graph, waves: seq<set<string>>, ready: set<string>, i: nat, n: string)
    requires Layered(g, waves) && ready <= g.Keys
    requires waves != [] ==> forall n :: n in ready ==> HasDependencyIn(g, n, waves[|waves| - 1])
    requires 0 < i <= |waves| && n in (waves + [ready])[i] && n in g
    ensures Waited(g, waves + [ready], n, i)
  {
    assert (waves + [ready])[i - 1] == waves[i - 1];
    if i < |waves| {
      assert n in waves[i] && Waited(g, waves, n, i);
    }
  }

  lemma ExtendDisjoint(waves: seq<set<string>>, ready: set<string>)
    requires Disjoint(waves) && ready !! Started(waves)
    ensures Disjoint(waves + [ready])
  {
    var all := waves + [ready];
    forall i, j, n | 0 <= i < j < |all| && n in all[i] ensures n !in all[j] {
      assert n in waves[i] && n in Started(waves);
    }
  }

  lemma ExtendWaves(g: Graph, waves: seq<set<string>>, ready: set<string>)
    requires Disjoint(waves) && Layered(g, waves)
    requires ready <= g.Keys - Started(waves)
    requires forall n, d :: n in ready && d in g[n] ==> d in Started(waves)
    requires waves != [] ==> forall n :: n in ready ==> HasDependencyIn(g, n, waves[|waves| - 1])
    ensures Disjoint(waves + [ready]) && Layered(g, waves + [ready])
  {
    var all := waves + [ready];
    forall i, n | 0 <= i < |all| && n in all[i] ensures n in g {
      assert i < |waves| ==> n in waves[i];
    }
    forall i, n, d | 0 <= i < |all| && n in all[i] && d in g[n] ensures RanBefore(all, d, i) {
      ExtendRanBefore(g, waves, ready, i, n, d);
    }
    forall i, n | 0 < i < |all| && n in all[i] ensures Waited(g, all, n, i) {
      ExtendWaited(g, waves, ready, i, n);
    }
    ExtendDisjoint(waves, ready);
  }

  /** The nodes of `remaining` whose dependencies are all in `completed`. */
  function Ready(g: Graph, remaining: set<string>, completed: set<string>): set<string>
    requires remaining <= g.Keys
  {
    set n | n in remaining && forall d :: d in g[n] ==> d in completed
  }

  /** The nodes that are ready when these waves have run. */
  function ReadyAfter(g: Graph, waves: seq<set<string>>): set<string> {
    Ready(g, g.Keys - Started(waves), Started(waves))
  }

  /** Every wave, the last one too, is all the nodes that were ready. */
  ghost predicate Full(g: Graph, waves: seq<set<string>>) {
    forall i :: 0 <= i < |waves| ==> waves[i] == ReadyAfter(g, waves[..i])
  }

  lemma FullExtend(g: Graph, waves: seq<set<string>>, ready: set<string>)
    requires Full(g, waves) && ready == ReadyAfter(g, waves)
    ensures Full(g, waves + [ready])
  {
    var all := waves + [ready];
    forall i | 0 <= i < |all| ensures all[i] == ReadyAfter(g, all[..i]) {
      if i < |waves| {
        assert all[..i] == waves[..i];
      } else {
        assert all[..i] == waves;
      }
    }
  }

  lemma NothingReadyIsStuck(g: Graph, completed: set<string>)
    requires DependenciesKnown(g) && completed <= g.Keys
    requires g.Keys - completed != {} && Ready(g, g.Keys - completed, completed) == {}
    ensures Stuck(g, g.Keys - completed)
  {
    var remaining := g.Keys - completed;
    forall n | n in remaining ensures HasDependencyIn(g, n, remaining) {
      assert n !in Ready(g, remaining, completed);
    }
  }

  /** What a wave leaves waits for something that had not completed before the wave. */
  ghost predicate WaitsFor(g: Graph, names: set<string>, undone: set<string>)
    requires names <= g.Keys
  {
    forall n :: n in names ==> HasDependencyIn(g, n, undone)
  }

  lemma ReadyWaitedForLastWave(g: Graph, completed: set<string>, last: set<string>)
    requires completed <= g.Keys
    requires WaitsFor(g, g.Keys - completed, (g.Keys - completed) + last)
    ensures WaitsFor(g, Ready(g, g.Keys - completed, completed), last)
  {
    var ready := Ready(g, g.Keys - completed, completed);
    forall n | n in ready ensures HasDependencyIn(g, n, last) {
      assert HasDependencyIn(g, n, (g.Keys - completed) + last);
    }
  }

  lemma LeftWaitsForReady(g: Graph, completed: set<string>, ready: set<string>)
    requires DependenciesKnown(g) && completed <= g.Keys
    requires ready == Ready(g, g.Keys - completed, completed)
    ensures WaitsFor(g, g.Keys - (completed + ready), (g.Keys - (completed + ready)) + ready)
  {
    var left := g.Keys - (completed + ready);
    forall n | n in left ensures HasDependencyIn(g, n, left + ready) {
      assert n !in ready;
      var d :| d in g[n] && d !in completed;
      assert d in left + ready;
    }
  }

  ghost predicate Sound(g: Graph, waves: seq<set<string>>) {
    Disjoint(waves) && Layered(g, waves) && forall i :: 0 <= i < |waves| ==> waves[i] != {}
  }

  /** Each wave but the first was ready only after the wave before it; so will be what is left. */
  ghost predicate Greedy(g: Graph, waves: seq<set<string>>, completed: set<string>) {
    && completed == Started(waves) && completed <= g.Keys
    && (waves != [] ==> WaitsFor(g, g.Keys - completed, (g.Keys - completed) + waves[|waves| - 1]))
  }

  ghost predicate Collected(run: string -> Outcome, completed: set<string>, results: map<string, Value>) {
    results.Keys == completed && forall n :: n in completed ==> run(n) == Returns(results[n])
  }

  lemma ReadyExtends(g: Graph, waves: seq<set<string>>, completed: set<string>, ready: set<string>)
    requires DependenciesKnown(g) && Sound(g, waves) && Greedy(g, waves, completed)
    requires ready == Ready(g, g.Keys - completed, completed) && ready != {}
    ensures Sound(g, waves + [ready])
    ensures Greedy(g, waves + [ready], completed + ready)
  {
    if waves != [] {
      ReadyWaitedForLastWave(g, completed, waves[|waves| - 1]);
    }
    ExtendWaves(g, waves, ready);
    StartedExtend(waves, ready);
    LeftWaitsForReady(g, completed, ready);
    assert (waves + [ready])[|waves + [ready]| - 1] == ready;
  }

  lemma Collect(run: string -> Outcome, waves: seq<set<string>>, completed: set<string>,
                results: map<string, Value>, values: map<string, Value>)
    requires Collected(run, completed, results) && AllReturned(waves, run, |waves|)
    requires Collected(run, values.Keys, values)
    ensures Collected(run, completed + values.Keys, results + values)
    ensures AllReturned(waves + [values.Keys], run, |waves + [values.Keys]|)
  {
  }

  /**
   * Submit a wave and wait for it. If nodes raised, the name reported is that of one whose failure
   * was seen, whichever it is.
   */
  method RunWave(run: string -> Outcome, ready: set<string>)
    returns (failed: Option<string>, values: map<string, Value>)
    ensures failed.Some? ==> failed.value in ready && run(failed.value).Raises?
    ensures failed.None? ==> values.Keys == ready && Collected(run, ready, values)
  {
    values := map[];
    var raised := set n | n in ready && run(n).Raises?;
    if raised != {} {
      var name :| name in raised;
      return Some(name), values;
    }
    assert forall n :: n in ready ==> n !in raised;
    values := map n | n in ready && run(n).Returns? :: run(n).value;
    return None, values;
  }

  /** What holds before each round of the wave loop. */
  ghost predicate Progress(g: Graph, run: string -> Outcome, waves: seq<set<string>>,
                           completed: set<string>, results: map<string, Value>) {
    && Sound(g, waves) && Greedy(g, waves, completed)
    && AllReturned(waves, run, |waves|) && Collected(run, completed, results)
  }

  lemma RoundKeepsProgress(g: Graph, run: string -> Outcome, waves: seq<set<string>>, completed: set<string>,
                           results: map<string, Value>, ready: set<string>, values: map<string, Value>)
    requires DependenciesKnown(g) && Progress(g, run, waves, completed, results)
    requires ready == Ready(g, g.Keys - completed, completed) && ready != {}
    requires values.Keys == ready && Collected(run, ready, values)
    ensures Progress(g, run, waves + [ready], completed + ready, results + values)
    ensures completed + ready <= g.Keys
    ensures g.Keys - completed - ready == g.Keys - (completed + ready)
    ensures |g.Keys - completed - ready| < |g.Keys - completed|
  {
    ReadyExtends(g, waves, completed, ready);
    Collect(run, waves, completed, results, values);
    RemainingShrinks(g.Keys, completed, ready);
  }

  lemma FailureExplained(g: Graph, run: string -> Outcome, waves: seq<set<string>>, completed: set<string>,
                         results: map<string, Value>, ready: set<string>, name: string)
    requires DependenciesKnown(g) && Progress(g, run, waves, completed, results)
    requires ready == Ready(g, g.Keys - completed, completed)
    requires name in ready && run(name).Raises?
    ensures Sound(g, waves + [ready]) && Explains(g, run, waves + [ready], Failure(NodeFailed(name)))
  {
    ReadyExtends(g, waves, completed, ready);
  }

  lemma CycleExplained(g: Graph, run: string -> Outcome, waves: seq<set<string>>, completed: set<string>,
                       results: map<string, Value>)
    requires DependenciesKnown(g) && Progress(g, run, waves, completed, results)
    requires g.Keys - completed != {} && Ready(g, g.Keys - completed, completed) == {}
    ensures Sound(g, waves) && Explains(g, run, waves, Failure(CycleAmong(g.Keys - completed)))
  {
    NothingReadyIsStuck(g, completed);
  }

  lemma SuccessExplained(g: Graph, run: string -> Outcome, waves: seq<set<string>>, completed: set<string>,
                         results: map<string, Value>)
    requires Progress(g, run, waves, completed, results) && g.Keys - completed == {}
    ensures Sound(g, waves) && Explains(g, run, waves, Success(results))
  {
    assert g.Keys == completed + (g.Keys - completed);
  }

  /** The wave loop of `run`, on a graph whose dependencies are known. */
  method RunWaves(g: Graph, run: string -> Outcome)
    returns (r: Result<map<string, Value>, DagError>, waves: seq<set<string>>)
    requires DependenciesKnown(g)
    ensures Sound(g, waves) && Full(g, waves) && Explains(g, run, waves, r)
  {
    var remaining, completed: set<string> := g.Keys, {};
    var results: map<string, Value> := map[];
    waves := [];
    while remaining != {}
      invariant remaining == g.Keys - completed && Progress(g, run, waves, completed, results) && Full(g, waves)
      decreases |remaining|
    {
      var ready := Ready(g, remaining, completed);
      if ready == {} {
        CycleExplained(g, run, waves, completed, results);
        return Failure(CycleAmong(remaining)), waves;
      }
      FullExtend(g, waves, ready);
      var failed, values := RunWave(run, ready);
      if failed.Some? {
        FailureExplained(g, run, waves, completed, results, ready, failed.value);
        return Failure(NodeFailed(failed.value)), waves + [ready];
      }
      RoundKeepsProgress(g, run, waves, completed, results, ready, values);
      waves := waves + [ready];
      results := results + values;
      remaining := remaining - ready;
      completed := completed + ready;
    }
    SuccessExplained(g, run, waves, completed, results);
    return Success(results), waves;
  }

  lemma RemainingShrinks(all: set<string>, completed: set<string>, ready: set<string>)
    requires ready <= all - completed && ready != {}
    ensures all - completed - ready == all - (completed + ready)
    ensures |all - completed - ready| < |all - completed|
  {
    assert all - completed == (all - completed - ready) + ready;
  }

  /** The waves of a result that explains them, read as the scheduler's promises. */
  lemma RunIsSound(g: Graph, run: string -> Outcome, waves: seq<set<string>>, r: Result<map<string, Value>, DagError>)
    requires DependenciesKnown(g) && Sound(g, waves) && Explains(g, run, waves, r)
    ensures r.Success? ==> !Cyclic(g)
    ensures r.Failure? && r.error.CycleAmong? ==> Cyclic(g)
    ensures (forall n :: n in g ==> run(n).Returns?) ==>
              (r.Success? <==> !Cyclic(g)) && (r.Failure? && r.error.CycleAmong? <==> Cyclic(g))
  {
    if r.Success? {
      AllRanMeansAcyclic(g, waves);
    } else if r.error.CycleAmong? {
      var c := StuckSetHasCycle(g, r.error.names);
    } else {
      assert r.error.name in waves[|waves| - 1];
    }
  }

  /** The longest dependency chain of the graph has `length` nodes. */
  ghost predicate LongestChain(g: Graph, length: nat) {
    && (forall c :: Chain(g, c) ==> |c| <= length)
    && (length > 0 ==> exists c :: Chain(g, c) && |c| == length)
  }

  /** A successful run takes as many waves as the longest dependency chain of the graph has nodes. */
  lemma WavesAreLongestChain(g: Graph, run: string -> Outcome, waves: seq<set<string>>,
                             r: Result<map<string, Value>, DagError>)
    requires Sound(g, waves) && Explains(g, run, waves, r) && r.Success?
    ensures LongestChain(g, |waves|)
  {
    forall c | Chain(g, c) ensures |c| <= |waves| {
      var n := c[|c| - 1];
      assert n in Started(waves);
      var i :| 0 <= i < |waves| && n in waves[i];
      WaveIsDepth(g, waves, n, i);
      assert EndsChain(g, c, n);
    }
    if waves != [] {
      var last := |waves| - 1;
      var n :| n in waves[last];
      WaveIsDepth(g, waves, n, last);
      var c :| EndsChain(g, c, n) && |c| == last + 1;
    }
  }

  /** If a node raises, no node that depends on it, directly or not, was ever submitted. */
  lemma DependentsOfAFailureNeverRun(g: Graph, run: string -> Outcome, waves: seq<set<string>>,
                                     r: Result<map<string, Value>, DagError>, n: string, a: string)
    requires Sound(g, waves) && Explains(g, run, waves, r)
    requires DependsTransitively(g, n, a) && run(a).Raises?
    ensures n !in Started(waves)
  {
    forall i | 0 <= i < |waves| && n in waves[i] ensures false {
      var k := TransitiveDependenciesRanBefore(g, waves, n, a, i);
    }
  }

  /** `DagScheduler.run`. */
  method Run(nodes: seq<Node>, run: string -> Outcome)
    returns (r: Result<map<string, Value>, DagError>, waves: seq<set<string>>)
    ensures !DistinctNames(nodes) ==>
              waves == [] && exists i: nat :: FirstRepeat(nodes, i) && r == Failure(DuplicateName(nodes[i].name))
    ensures DistinctNames(nodes) && !DependenciesKnown(GraphOf(nodes)) ==>
              waves == [] && exists i: nat, k: nat :: FirstMissing(nodes, i, k) &&
                               r == Failure(MissingDependency(nodes[i].name, nodes[i].dependsOn[k]))
    ensures DistinctNames(nodes) && DependenciesKnown(GraphOf(nodes)) ==>
              var g := GraphOf(nodes);
              && Sound(g, waves) && Full(g, waves)
              && Explains(g, run, waves, r)
              && (r.Success? ==> !Cyclic(g))
              && (r.Failure? && r.error.CycleAmong? ==> Cyclic(g))
              && ((forall n :: n in g ==> run(n).Returns?) ==> (r.Success? <==> !Cyclic(g)))
  {
    waves := [];
    if nodes == [] {
      r := Success(map[]);
      RunIsSound(map[], run, waves, r);
      return;
    }
    var built := ByName(nodes);
    if built.Failure? {
      return Failure(built.error), [];
    }
    var g := built.value;
    GraphOfKeys(nodes);
    var missing := CheckDependencies(nodes, g);
    if missing.Some? {
      ghost var i: nat, k: nat :|
        FirstMissing(nodes, i, k) && missing.value == MissingDependency(nodes[i].name, nodes[i].dependsOn[k]);
      GraphOfAt(nodes, i);
      assert nodes[i].dependsOn[k] in g[nodes[i].name];
      return Failure(missing.value), [];
    }
    forall n, d | n in g && d in g[n] ensures d in g {
      var i :| 0 <= i < |nodes| && nodes[i].name == n;
      GraphOfAt(nodes, i);
    }
    r, waves := RunWaves(g, run);
    RunIsSound(g, run, waves, r);
  }
}
