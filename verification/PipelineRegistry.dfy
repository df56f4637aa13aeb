/** Validation of the pipeline registry: unique, named, closed and without a dependency
    cycle, by a depth-first search over two sets. */
module PipelineRegistry {
  import opened Prelude

  type Key = string

  datatype PipelineDefinition = PipelineDefinition(pipelineKey: Key, dependencies: seq<Key>)

  datatype RegistryError = DuplicateKey | BlankKey | SelfDependency | UnknownDependency | DependencyCycle

  type Graph = map<Key, seq<Key>>

  predicate UniqueKeys(pipelines: seq<PipelineDefinition>) {
    forall i, j :: 0 <= i < j < |pipelines| ==> pipelines[i].pipelineKey != pipelines[j].pipelineKey
  }

  /** `by_key`, down to what the search uses; a repeated key keeps its last definition. */
  function ByKey(pipelines: seq<PipelineDefinition>): (g: Graph)
    ensures forall k :: k in g <==> exists p :: p in pipelines && p.pipelineKey == k
    ensures UniqueKeys(pipelines) ==> forall p :: p in pipelines ==> g[p.pipelineKey] == p.dependencies
    decreases |pipelines|
  {
    if pipelines == [] then map[]
    else
      var front, last := pipelines[..|pipelines| - 1], pipelines[|pipelines| - 1];
      ByKey(front)[last.pipelineKey := last.dependencies]
  }

  predicate Edge(g: Graph, k: Key, d: Key) { k in g && d in g[k] }

  ghost predicate IsPath(g: Graph, path: seq<Key>) {
    forall i :: 0 <= i < |path| - 1 ==> Edge(g, path[i], path[i + 1])
  }

  ghost predicate IsCycle(g: Graph, path: seq<Key>) {
    |path| > 1 && path[0] == path[|path| - 1] && IsPath(g, path)
  }

  ghost predicate Cyclic(g: Graph) { exists path :: IsCycle(g, path) }

  ghost predicate Closed(g: Graph) { forall k, d :: Edge(g, k, d) ==> d in g }

  /** What the registry must be. */
  ghost predicate WellFormed(pipelines: seq<PipelineDefinition>) {
    && UniqueKeys(pipelines)
    && (forall p :: p in pipelines ==> !IsBlank(p.pipelineKey))
    && Closed(ByKey(pipelines))
    && !Cyclic(ByKey(pipelines))
  }

  /** Listed so that dependencies come first, each key once. */
  ghost predicate Topological(g: Graph, order: seq<Key>) {
    && (forall i, j :: 0 <= i < j < |order| ==> order[i] != order[j])
    && (forall i :: 0 <= i < |order| ==> order[i] in g && forall d :: d in g[order[i]] ==> d in order[..i])
  }

  lemma {:induction false} PathGoesDown(g: Graph, order: seq<Key>, path: seq<Key>, i: nat)
    returns (j: nat)
    requires Topological(g, order) && IsPath(g, path) && |path| > 0 && i < |order| && path[0] == order[i]
    ensures j <= i && path[|path| - 1] == order[j] && (|path| > 1 ==> j < i)
    decreases |path|
  {
    if |path| == 1 {
      j := i;
    } else {
      assert Edge(g, path[0], path[1]);
      var k :| 0 <= k < i && order[..i][k] == path[1];
      assert IsPath(g, path[1..]) by {
        forall m | 0 <= m < |path| - 2 ensures Edge(g, path[1..][m], path[1..][m + 1]) {
          assert Edge(g, path[m + 1], path[m + 2]);
        }
      }
      j := PathGoesDown(g, order, path[1..], k);
    }
  }

  /** A closed graph with a topological order of all its keys has no cycle. */
  lemma OrderedHasNoCycle(g: Graph, order: seq<Key>)
    requires Topological(g, order) && forall k :: k in g ==> k in order
    ensures !Cyclic(g)
  {
    forall path ensures !IsCycle(g, path) {
      if IsCycle(g, path) {
        assert Edge(g, path[0], path[1]);
        var i :| 0 <= i < |order| && order[i] == path[0];
        var j := PathGoesDown(g, order, path, i);
      }
    }
  }

  /** A key met again on the way down closes a cycle. */
  lemma MeetingAgain(g: Graph, stack: seq<Key>, key: Key)
    requires IsPath(g, stack + [key]) && key in stack
    ensures Cyclic(g)
  {
    var i :| 0 <= i < |stack| && stack[i] == key;
    var cycle := (stack + [key])[i..];
    forall m | 0 <= m < |cycle| - 1 ensures Edge(g, cycle[m], cycle[m + 1]) {
      assert Edge(g, (stack + [key])[i + m], (stack + [key])[i + m + 1]);
    }
    assert IsCycle(g, cycle);
  }

  class Search {
    const graph: Graph
    var visiting: set<Key>
    var visited: set<Key>
    ghost var order: seq<Key>

    ghost predicate Valid()
      reads this
    {
      && Closed(graph) && Topological(graph, order)
      && (forall k :: k in visited <==> k in order)
      && visiting !! visited && visiting <= graph.Keys
    }

    constructor (graph: Graph)
      requires Closed(graph)
      ensures Valid() && this.graph == graph && visiting == {} && visited == {}
    {
      this.graph, visiting, visited, order := graph, {}, {}, [];
    }

    /** `visit`: `stack` is the path on which the key was reached. */
    method Visit(key: Key, ghost stack: seq<Key>) returns (ok: bool)
      requires Valid() && key in graph && IsPath(graph, stack + [key])
      requires forall k :: k in visiting <==> k in stack
      modifies this
      ensures ok ==> Valid() && visiting == old(visiting) && key in visited && old(visited) <= visited
      ensures !ok ==> Cyclic(graph)
      decreases graph.Keys - visiting
    {
      hide Topological, IsPath, Cyclic;
      if key in visiting {
        MeetingAgain(graph, stack, key);
        return false;
      }
      if key in visited {
        return true;
      }
      visiting := visiting + {key};
      var dependencies := graph[key];
      for i := 0 to |dependencies|
        invariant Valid() && visiting == old(visiting) + {key} && old(visited) <= visited
        invariant forall k :: 0 <= k < i ==> dependencies[k] in visited
      {
        assert Edge(graph, key, dependencies[i]);
        PathOneFurther(graph, stack, key, dependencies[i]);
        ok := Visit(dependencies[i], stack + [key]);
        if !ok {
          return;
        }
      }
      Finish(key);
      ok := true;
    }

    /** All dependencies of the key are done: so is the key. */
    method Finish(key: Key)
      requires Valid() && key in visiting && key in graph && forall d :: d in graph[key] ==> d in visited
      modifies this
      ensures Valid() && visiting == old(visiting) - {key} && visited == old(visited) + {key}
    {
      visiting := visiting - {key};
      visited := visited + {key};
      TopologicalAppend(graph, order, key);
      hide Topological, Closed;
      order := order + [key];
    }
  }

  lemma TopologicalAppend(g: Graph, order: seq<Key>, key: Key)
    requires Topological(g, order) && key in g && key !in order && forall d :: d in g[key] ==> d in order
    ensures Topological(g, order + [key])
  {
    var more := order + [key];
    forall i | 0 <= i < |more| ensures more[i] in g && forall d :: d in g[more[i]] ==> d in more[..i] {
      assert more[..i] == order[..i];
    }
  }

  lemma PathOneFurther(g: Graph, stack: seq<Key>, key: Key, next: Key)
    requires IsPath(g, stack + [key]) && Edge(g, key, next)
    ensures IsPath(g, stack + [key] + [next])
  {
    var p, q := stack + [key], stack + [key] + [next];
    forall i | 0 <= i < |q| - 1 ensures Edge(g, q[i], q[i + 1]) {
      assert i < |p| - 1 ==> Edge(g, p[i], p[i + 1]);
    }
  }

  lemma SelfIsCycle(g: Graph, key: Key)
    requires Edge(g, key, key)
    ensures Cyclic(g)
  {
    assert IsCycle(g, [key, key]);
  }

  lemma AllKnown(pipelines: seq<PipelineDefinition>)
    requires UniqueKeys(pipelines)
    requires forall k :: 0 <= k < |pipelines| ==> DependenciesKnown(pipelines[k], ByKey(pipelines))
    ensures Closed(ByKey(pipelines))
  {
    forall k, d | Edge(ByKey(pipelines), k, d) ensures d in ByKey(pipelines) {
      var p :| p in pipelines && p.pipelineKey == k;
      var i :| 0 <= i < |pipelines| && pipelines[i] == p;
    }
  }

  ghost predicate NoneBlank(pipelines: seq<PipelineDefinition>) {
    forall p :: p in pipelines ==> !IsBlank(p.pipelineKey)
  }

  predicate DependenciesKnown(p: PipelineDefinition, byKey: Graph) {
    forall d :: d in p.dependencies ==> d in byKey
  }

  /** One pipeline's checks, in the order of its dependencies. */
  method CheckOne(p: PipelineDefinition, byKey: Graph) returns (refused: Option<RegistryError>)
    ensures refused.None? ==> !IsBlank(p.pipelineKey) && DependenciesKnown(p, byKey)
    ensures refused.Some? ==>
      IsBlank(p.pipelineKey) || !DependenciesKnown(p, byKey) || p.pipelineKey in p.dependencies
  {
    if IsBlank(p.pipelineKey) {
      return Some(BlankKey);
    }
    for j := 0 to |p.dependencies|
      invariant forall k :: 0 <= k < j ==> p.dependencies[k] in byKey
    {
      if p.dependencies[j] == p.pipelineKey {
        return Some(SelfDependency);
      }
      if p.dependencies[j] !in byKey {
        return Some(UnknownDependency);
      }
    }
    return None;
  }

  /** The first pass: names and dependencies of each pipeline. */
  method CheckEach(pipelines: seq<PipelineDefinition>, byKey: Graph) returns (refused: Option<RegistryError>)
    requires UniqueKeys(pipelines) && byKey == ByKey(pipelines)
    ensures refused.None? ==> NoneBlank(pipelines) && Closed(byKey)
    ensures refused.Some? ==> !NoneBlank(pipelines) || !Closed(byKey) || Cyclic(byKey)
  {
    hide DependenciesKnown, Closed, Cyclic, ByKey, IsBlank, UniqueKeys;
    for i := 0 to |pipelines|
      invariant forall k :: 0 <= k < i ==> !IsBlank(pipelines[k].pipelineKey) && DependenciesKnown(pipelines[k], byKey)
    {
      refused := CheckOne(pipelines[i], byKey);
      if refused.Some? {
        RefusedOne(pipelines, pipelines[i]);
        return;
      }
    }
    AllKnown(pipelines);
    return None;
  }

  lemma RefusedOne(pipelines: seq<PipelineDefinition>, p: PipelineDefinition)
    requires UniqueKeys(pipelines) && p in pipelines
    requires IsBlank(p.pipelineKey) || !DependenciesKnown(p, ByKey(pipelines)) || p.pipelineKey in p.dependencies
    ensures !NoneBlank(pipelines) || !Closed(ByKey(pipelines)) || Cyclic(ByKey(pipelines))
  {
    if p.pipelineKey in p.dependencies {
      SelfIsCycle(ByKey(pipelines), p.pipelineKey);
    } else if !DependenciesKnown(p, ByKey(pipelines)) {
      var d :| d in p.dependencies && d !in ByKey(pipelines);
      assert Edge(ByKey(pipelines), p.pipelineKey, d);
    }
  }

  /** The second pass: a search from every key. */
  method SearchAll(pipelines: seq<PipelineDefinition>, byKey: Graph) returns (acyclic: bool)
    requires byKey == ByKey(pipelines) && Closed(byKey)
    ensures acyclic <==> !Cyclic(byKey)
  {
    hide Cyclic, Closed, Topological;
    var search := new Search(byKey);
    for i := 0 to |pipelines|
      invariant search.Valid() && search.visiting == {} && fresh(search)
      invariant forall k :: 0 <= k < i ==> pipelines[k].pipelineKey in search.visited
    {
      assert pipelines[i] in pipelines;
      assert IsPath(byKey, [] + [pipelines[i].pipelineKey]);
      var ok := search.Visit(pipelines[i].pipelineKey, []);
      if !ok {
        return false;
      }
    }
    forall k | k in byKey ensures k in search.order {
      var p :| p in pipelines && p.pipelineKey == k;
      var i :| 0 <= i < |pipelines| && pipelines[i] == p;
      assert pipelines[i].pipelineKey in search.visited;
    }
    OrderedHasNoCycle(byKey, search.order);
    return true;
  }

  /** `validate_registry`: returns normally exactly for a well-formed registry. */
  method ValidateRegistry(pipelines: seq<PipelineDefinition>) returns (refused: Option<RegistryError>)
    ensures refused.None? <==> WellFormed(pipelines)
  {
    hide UniqueKeys, Closed, Cyclic, ByKey;
    var byKey := ByKey(pipelines);
    if !UniqueKeys(pipelines) {
      return Some(DuplicateKey);
    }
    refused := CheckEach(pipelines, byKey);
    if refused.None? {
      var acyclic := SearchAll(pipelines, byKey);
      refused := if acyclic then None else Some(DependencyCycle);
    }
  }
}
