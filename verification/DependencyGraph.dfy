/** The dependency check of the feature registry: a depth-first visit that finds cycles and missing features. */
module DependencyGraph {
  import opened Common

  type FeatureId = string

  /** The registered features and the dependencies that their manifests list. */
  type Graph = map<FeatureId, seq<FeatureId>>

  datatype Verdict = Accepted | DuplicateFeature(id: FeatureId) | DependencyCycle(id: FeatureId) | MissingDependency(id: FeatureId)

  // ----- What the check is about -----

  predicate Edge(g: Graph, from: FeatureId, to: FeatureId) {
    from in g && to in g[from]
  }

  ghost predicate IsPath(g: Graph, path: seq<FeatureId>) {
    path != [] && forall i | 0 <= i < |path| - 1 :: Edge(g, path[i], path[i + 1])
  }

  /** A path of at least one edge leads from `id` back to it. */
  ghost predicate OnCycle(g: Graph, id: FeatureId) {
    exists path :: IsPath(g, path) && |path| >= 2 && path[0] == id == path[|path| - 1]
  }

  ghost predicate Acyclic(g: Graph) {
    forall id :: !OnCycle(g, id)
  }

  ghost predicate DependenciesRegistered(g: Graph) {
    forall id, dependency | Edge(g, id, dependency) :: dependency in g
  }

  /** Registered features, each after all its dependencies, none twice. */
  ghost predicate DependencyOrder(g: Graph, order: seq<FeatureId>) {
    && NoDuplicates(order)
    && forall i | 0 <= i < |order| :: order[i] in g && forall d | d in g[order[i]] :: d in order[..i]
  }

  lemma OrderSnoc(g: Graph, order: seq<FeatureId>, id: FeatureId)
    requires DependencyOrder(g, order) && id in g && id !in order
    requires forall d | d in g[id] :: d in order
    ensures DependencyOrder(g, order + [id])
  {
    var longer := order + [id];
    forall i | 0 <= i < |longer|
      ensures longer[i] in g && forall d | d in g[longer[i]] :: d in longer[..i]
    {
      if i == |order| {
        assert longer[..i] == order;
      } else {
        assert longer[..i] == order[..i];
      }
    }
  }

  lemma {:induction false} OrderFallsAlongPath(g: Graph, order: seq<FeatureId>, path: seq<FeatureId>) returns (first: nat, last: nat)
    requires DependencyOrder(g, order) && IsPath(g, path) && path[0] in order
    ensures first < |order| && last < |order| && order[first] == path[0] && order[last] == path[|path| - 1]
    ensures last + |path| - 1 <= first
  {
    first :| 0 <= first < |order| && order[first] == path[0];
    if |path| == 1 {
      last := first;
    } else {
      assert Edge(g, path[0], path[1]);
      assert path[1] in order[..first];
      assert IsPath(g, path[1..]);
      var second;
      second, last := OrderFallsAlongPath(g, order, path[1..]);
      var k :| 0 <= k < first && order[k] == path[1];
      assert k == second;
    }
  }

  /** An order that puts every registered feature after its dependencies exists only without cycles and without gaps. */
  lemma OrderedGraphIsSound(g: Graph, order: seq<FeatureId>)
    requires DependencyOrder(g, order) && Elements(order) == g.Keys
    ensures Acyclic(g) && DependenciesRegistered(g)
  {
    forall id | OnCycle(g, id)
      ensures false
    {
      var path :| IsPath(g, path) && |path| >= 2 && path[0] == id == path[|path| - 1];
      assert Edge(g, path[0], path[1]);
      assert id in Elements(order);
      var first, last := OrderFallsAlongPath(g, order, path);
    }
    forall id, dependency | Edge(g, id, dependency)
      ensures dependency in g
    {
      assert id in Elements(order);
      var i :| 0 <= i < |order| && order[i] == id;
      assert dependency in order[..i];
      assert dependency in Elements(order);
    }
  }

  // ----- The visit -----

  class DependencyCheck {
    const registrations: Graph
    var complete: seq<FeatureId>
    var active: set<FeatureId>

    constructor (registrations: Graph)
      ensures this.registrations == registrations && complete == [] && active == {}
    {
      this.registrations := registrations;
      complete, active := [], {};
    }

    /** `stack` is the path of features that are being visited. */
    ghost predicate Valid(stack: seq<FeatureId>)
      reads this
    {
      && DependencyOrder(registrations, complete)
      && active == Elements(stack)
      && active <= registrations.Keys
      && (stack != [] ==> IsPath(registrations, stack))
      && (forall id | id in complete :: id !in active)
    }

    method Visit(id: FeatureId, ghost stack: seq<FeatureId>) returns (verdict: Verdict)
      requires Valid(stack)
      requires stack != [] ==> Edge(registrations, stack[|stack| - 1], id)
      modifies this
      ensures verdict == Accepted ==> Valid(stack) && id in complete && old(complete) <= complete
      ensures verdict.DependencyCycle? ==> OnCycle(registrations, verdict.id)
      ensures verdict.MissingDependency? ==>
                verdict.id !in registrations && (verdict.id == id || exists f :: Edge(registrations, f, verdict.id))
      ensures !verdict.DuplicateFeature?
      decreases registrations.Keys - active
    {
      if id in complete {
        return Accepted;
      }
      if id in active {
        ghost var i :| 0 <= i < |stack| && stack[i] == id;
        ghost var cycle := stack[i..] + [id];
        assert IsPath(registrations, cycle) && cycle[0] == id == cycle[|cycle| - 1];
        return DependencyCycle(id);
      }
      if id !in registrations {
        return MissingDependency(id);
      }
      ghost var deeper := stack + [id];
      assert IsPath(registrations, deeper);
      assert Elements(deeper) == Elements(stack) + {id};
      active := active + {id};
      var dependencies := registrations[id];
      for k := 0 to |dependencies|
        invariant Valid(deeper) && old(complete) <= complete
        invariant forall j | 0 <= j < k :: dependencies[j] in complete
      {
        assert Edge(registrations, deeper[|deeper| - 1], dependencies[k]);
        verdict := Visit(dependencies[k], deeper);
        if verdict != Accepted {
          return verdict;
        }
      }
      OrderSnoc(registrations, complete, id);
      active := active - {id};
      complete := complete + [id];
      return Accepted;
    }
  }

  /**
   `order` is the order of registration. The check accepts exactly the graphs without cycles and without missing
   dependencies, and then the features are complete in dependency order; the cycle it reports is one, and the
   feature it reports missing is a dependency that nobody registered.
   */
  method AssertDependencyGraph(registrations: Graph, order: seq<FeatureId>)
    returns (verdict: Verdict, complete: seq<FeatureId>)
    requires Elements(order) == registrations.Keys
    ensures verdict == Accepted <==> Acyclic(registrations) && DependenciesRegistered(registrations)
    ensures verdict == Accepted ==> DependencyOrder(registrations, complete) && Elements(complete) == registrations.Keys
    ensures verdict.DependencyCycle? ==> OnCycle(registrations, verdict.id)
    ensures verdict.MissingDependency? ==>
              verdict.id !in registrations && exists f :: Edge(registrations, f, verdict.id)
    ensures !verdict.DuplicateFeature?
  {
    var check := new DependencyCheck(registrations);
    for k := 0 to |order|
      invariant fresh(check) && check.registrations == registrations && check.Valid([])
      invariant forall j | 0 <= j < k :: order[j] in check.complete
    {
      assert order[k] in Elements(order);
      verdict := check.Visit(order[k], []);
      if verdict != Accepted {
        return verdict, [];
      }
    }
    complete := check.complete;
    assert Elements(complete) == registrations.Keys by {
      forall id | id in registrations
        ensures id in complete
      {
        assert id in Elements(order);
      }
    }
    OrderedGraphIsSound(registrations, complete);
    return Accepted, complete;
  }

  /** Registration refuses a second feature of one id; the graph that is checked has one entry for each definition. */
  method CreateFeatureRegistry(definitions: seq<(FeatureId, seq<FeatureId>)>) returns (verdict: Verdict, registrations: Graph)
    ensures verdict.DuplicateFeature? <==> !NoDuplicates(seq(|definitions|, i requires 0 <= i < |definitions| => definitions[i].0))
    ensures !verdict.DuplicateFeature? ==>
              && (forall i | 0 <= i < |definitions| ::
                    definitions[i].0 in registrations && registrations[definitions[i].0] == definitions[i].1)
              && |registrations| == |definitions|
              && (verdict == Accepted <==> Acyclic(registrations) && DependenciesRegistered(registrations))
  {
    hide Acyclic, DependenciesRegistered, Elements;
    registrations := map[];
    var order: seq<FeatureId> := [];
    ghost var ids := seq(|definitions|, i requires 0 <= i < |definitions| => definitions[i].0);
    NoneRegistered();
    for k := 0 to |definitions|
      invariant order == ids[..k] && NoDuplicates(order) && Elements(order) == registrations.Keys
      invariant forall i | 0 <= i < k :: definitions[i].0 in registrations && registrations[definitions[i].0] == definitions[i].1
    {
      var (id, dependencies) := definitions[k];
      OneMoreId(ids, k);
      if id in registrations {
        return DuplicateFeature(id), registrations;
      }
      registrations := registrations[id := dependencies];
      order := order + [id];
    }
    assert order == ids;
    ElementsOfDistinct(order);
    assert |registrations| == |registrations.Keys|;
    var complete;
    verdict, complete := AssertDependencyGraph(registrations, order);
  }

  lemma NoneRegistered()
    ensures Elements<FeatureId>([]) == {}
  {
  }

  /** The next id is new, or the ids have a duplicate. */
  lemma OneMoreId(ids: seq<FeatureId>, k: nat)
    requires k < |ids| && NoDuplicates(ids[..k])
    ensures ids[..k] + [ids[k]] == ids[..k + 1]
    ensures Elements(ids[..k + 1]) == Elements(ids[..k]) + {ids[k]}
    ensures if ids[k] in Elements(ids[..k]) then !NoDuplicates(ids) else NoDuplicates(ids[..k + 1])
  {
    if ids[k] in Elements(ids[..k]) {
      var i :| 0 <= i < k && ids[..k][i] == ids[k];
      assert ids[i] == ids[k];
    }
  }
}
