/** The order in which the crates of a workspace are published: a layered topological
    sort with an iteration budget. */
module CrateOrder {
  import opened CrateGraph

  /** A package as the build tool's metadata describes it. */
  datatype Package = Package(name: Name, manifest: string, dependencies: seq<Name>)

  datatype Outcome =
    | Ordered(order: seq<(Name, string)>)
    | DirectCycles(pairs: set<set<Name>>)
    | Suspected(packages: seq<Name>)

  // The script

  function SolanaOnly(names: seq<Name>): (r: seq<Name>)
    ensures forall p :: p in r <==> p in names && "solana" <= p
  {
    if names == [] then []
    else if "solana" <= names[0] then [names[0]] + SolanaOnly(names[1..])
    else SolanaOnly(names[1..])
  }

  /** The dictionaries built from the metadata: a repeated name keeps its first place and
      takes the last value. */
  function GraphOf(packages: seq<Package>): Graph {
    if packages == [] then map[] else
    var last := packages[|packages| - 1];
    GraphOf(packages[..|packages| - 1])[last.name := SolanaOnly(last.dependencies)]
  }

  function ManifestsOf(packages: seq<Package>): (m: map<Name, string>)
    ensures m.Keys == GraphOf(packages).Keys
  {
    if packages == [] then map[] else
    var last := packages[|packages| - 1];
    ManifestsOf(packages[..|packages| - 1])[last.name := last.manifest]
  }

  /** The place of the last package with a name. */
  ghost predicate LastOf(packages: seq<Package>, p: Name, i: nat) {
    && i < |packages| && packages[i].name == p
    && forall j :: i < j < |packages| ==> packages[j].name != p
  }

  /** Each name maps to the filtered dependencies and the manifest of its last package, and
      nothing else is in the dictionaries. */
  lemma {:induction false} DictionariesMean(packages: seq<Package>, p: Name)
    ensures p in GraphOf(packages) <==> exists i: nat :: LastOf(packages, p, i)
    ensures forall i: nat :: LastOf(packages, p, i) ==>
              && p in GraphOf(packages)
              && GraphOf(packages)[p] == SolanaOnly(packages[i].dependencies)
              && ManifestsOf(packages)[p] == packages[i].manifest
  {
    if packages != [] {
      var n := |packages| - 1;
      var before := packages[..n];
      DictionariesMean(before, p);
      if packages[n].name == p {
        assert LastOf(packages, p, n);
      } else {
        forall i: nat
          ensures LastOf(packages, p, i) <==> LastOf(before, p, i)
        {
        }
      }
    }
  }

  function NamesOf(packages: seq<Package>): (names: seq<Name>)
    ensures Distinct(names)
    ensures forall p :: p in names <==> p in GraphOf(packages)
  {
    if packages == [] then [] else
    var last := packages[|packages| - 1];
    var before := NamesOf(packages[..|packages| - 1]);
    if last.name in before then before else before + [last.name]
  }

  method BuildGraph(packages: seq<Package>) returns (names: seq<Name>, g: Graph, manifests: map<Name, string>)
    ensures names == NamesOf(packages) && g == GraphOf(packages) && manifests == ManifestsOf(packages)
  {
    names, g, manifests := [], map[], map[];
    for i := 0 to |packages|
      invariant names == NamesOf(packages[..i]) && g == GraphOf(packages[..i]) && manifests == ManifestsOf(packages[..i])
    {
      var pkg := packages[i];
      assert packages[..i + 1][..i] == packages[..i];
      manifests := manifests[pkg.name := pkg.manifest];
      if pkg.name !in names {
        names := names + [pkg.name];
      }
      g := g[pkg.name := SolanaOnly(pkg.dependencies)];
    }
    assert packages[..|packages|] == packages;
  }

  /** Two packages that depend on each other, or one that depends on itself. */
  ghost predicate Mutual(g: Graph, p: Name, q: Name) {
    Edge(g, p, q) && Edge(g, q, p)
  }

  ghost predicate MutualPair(g: Graph, pair: set<Name>) {
    exists p, q :: Mutual(g, p, q) && pair == {p, q}
  }

  lemma PairUp(g: Graph, p: Name, q: Name)
    requires Mutual(g, p, q)
    ensures MutualPair(g, {p, q})
  {
  }

  lemma MutualIsCycle(g: Graph, pair: set<Name>)
    requires MutualPair(g, pair)
    ensures !Acyclic(g)
  {
    var p, q :| Mutual(g, p, q) && pair == {p, q};
    assert Cycle(g, [p, q, p]);
  }

  method FindDirectCycles(names: seq<Name>, g: Graph) returns (pairs: set<set<Name>>)
    requires forall p :: p in names <==> p in g
    ensures forall pair :: pair in pairs <==> MutualPair(g, pair)
  {
    pairs := {};
    for i := 0 to |names|
      invariant forall j, q :: 0 <= j < i && Mutual(g, names[j], q) ==> {names[j], q} in pairs
      invariant forall pair :: pair in pairs ==> MutualPair(g, pair)
    {
      hide MutualPair;
      var package := names[i];
      var dependencies := g[package];
      for d := 0 to |dependencies|
        invariant forall j, q :: 0 <= j < i && Mutual(g, names[j], q) ==> {names[j], q} in pairs
        invariant forall e :: 0 <= e < d && Mutual(g, package, dependencies[e]) ==> {package, dependencies[e]} in pairs
        invariant forall pair :: pair in pairs ==> MutualPair(g, pair)
      {
        var dependency := dependencies[d];
        if dependency in g && package in g[dependency] {
          PairUp(g, package, dependency);
          pairs := pairs + {{package, dependency}};
        }
      }
    }
    forall pair | MutualPair(g, pair)
      ensures pair in pairs
    {
      var p, q :| Mutual(g, p, q) && pair == {p, q};
      var j :| 0 <= j < |names| && names[j] == p;
    }
  }

  /** One pass: the packages none of whose dependencies is still in the graph. */
  method Pass(left: seq<Name>, g: Graph) returns (deleted: seq<Name>)
    requires Distinct(left) && forall p :: p in left ==> p in g
    ensures var within := set p | p in left; deleted == Select(left, within - Blocked(g, within))
  {
    ghost var within := set p | p in left;
    ghost var free := within - Blocked(g, within);
    deleted := [];
    for i := 0 to |left|
      invariant deleted == Select(left[..i], free)
    {
      var package := left[i];
      assert left[..i + 1] == left[..i] + [package];
      SelectSnoc(left[..i], package, free);
      var dependencies := g[package];
      var d := 0;
      while d < |dependencies| && dependencies[d] !in left
        invariant 0 <= d <= |dependencies|
        invariant forall e :: 0 <= e < d ==> dependencies[e] !in left
      {
        d := d + 1;
      }
      if d == |dependencies| {
        assert !DependsInto(g, package, within);
        deleted := deleted + [package];
      } else {
        assert dependencies[d] in g[package] && dependencies[d] in within;
      }
    }
    assert left[..|left|] == left;
  }

  function WithManifests(names: seq<Name>, manifests: map<Name, string>): (r: seq<(Name, string)>)
    requires forall p :: p in names ==> p in manifests
    ensures |r| == |names|
    ensures forall i :: 0 <= i < |names| ==> r[i] == (names[i], manifests[names[i]])
  {
    if names == [] then [] else [(names[0], manifests[names[0]])] + WithManifests(names[1..], manifests)
  }

  /** What a pass emits and leaves, when it starts from the packages left after k passes. */
  lemma PassAdvances(names: seq<Name>, g: Graph, k: nat, left: seq<Name>, deleted: seq<Name>)
    requires forall p :: p in names <==> p in g
    requires left == Select(names, Rest(g, k))
    requires var within := set p | p in left; deleted == Select(left, within - Blocked(g, within))
    ensures deleted == Layer(names, g, k)
    ensures Select(left, (set p | p in left) - (set p | p in deleted)) == Select(names, Rest(g, k + 1))
  {
    var within := set p | p in left;
    assert within == Rest(g, k);
    SelectTwice(names, Rest(g, k), Rest(g, k) - Rest(g, k + 1));
    assert within - (set p | p in deleted) == Rest(g, k + 1);
    SelectTwice(names, Rest(g, k), Rest(g, k + 1));
  }

  lemma {:induction false} WithManifestsConcat(a: seq<Name>, b: seq<Name>, manifests: map<Name, string>)
    requires forall p :: p in a || p in b ==> p in manifests
    ensures WithManifests(a + b, manifests) == WithManifests(a, manifests) + WithManifests(b, manifests)
  {
  }

  /** The iteration budget for n packages. */
  function MaxIterations(n: nat): (r: nat)
    ensures n <= r
  {
    n * n
  }

  /** The state between passes: what is left, and the layers emitted so far. */
  ghost predicate Passed(names: seq<Name>, g: Graph, manifests: map<Name, string>, passes: nat,
                         left: seq<Name>, order: seq<(Name, string)>)
    requires manifests.Keys == g.Keys
  {
    && left == Select(names, Rest(g, passes))
    && (forall p :: p in Layers(names, g, passes) ==> p in manifests)
    && order == WithManifests(Layers(names, g, passes), manifests)
    && (passes > 0 ==> Rest(g, passes - 1) != {})
  }

  lemma PassedStart(names: seq<Name>, g: Graph, manifests: map<Name, string>)
    requires (forall p :: p in names <==> p in g) && manifests.Keys == g.Keys
    ensures Passed(names, g, manifests, 0, names, [])
  {
    SelectAll(names, g.Keys);
  }

  lemma PassedNext(names: seq<Name>, g: Graph, manifests: map<Name, string>, passes: nat,
                   left: seq<Name>, order: seq<(Name, string)>, deleted: seq<Name>)
    requires Distinct(names) && (forall p :: p in names <==> p in g) && manifests.Keys == g.Keys
    requires Passed(names, g, manifests, passes, left, order) && left != []
    requires var within := set p | p in left; deleted == Select(left, within - Blocked(g, within))
    ensures Passed(names, g, manifests, passes + 1,
                   Select(left, (set p | p in left) - (set p | p in deleted)),
                   order + WithManifests(deleted, manifests))
  {
    assert left[0] in Rest(g, passes);
    PassAdvances(names, g, passes, left, deleted);
    hide Rest;
    WithManifestsConcat(Layers(names, g, passes), deleted, manifests);
  }

  /** The names are exactly the packages from which a cycle can be reached. */
  ghost predicate AllStuck(names: seq<Name>, g: Graph) {
    forall p :: p in names <==> ReachesCycle(g, p)
  }

  /** What the loop's end means, whether it ran dry or out of budget. */
  lemma LoopEnds(names: seq<Name>, g: Graph, passes: nat, left: seq<Name>)
    requires forall p :: p in names <==> p in g
    requires left == Select(names, Rest(g, passes))
    ensures left == [] ==> Rest(g, passes) == {} && Acyclic(g)
    ensures passes >= |g| && left != [] ==> !Acyclic(g)
    ensures passes >= |g| ==> AllStuck(left, g)
  {
    if left == [] {
      assert forall p :: p in Rest(g, passes) ==> p in left;
      RestShrinks(g, passes, passes + |g|);
      WorkedOffIffAcyclic(g, passes + |g|);
    } else if passes >= |g| {
      assert left[0] in Rest(g, passes);
      WorkedOffIffAcyclic(g, passes);
    }
    if passes >= |g| {
      forall p
        ensures p in left <==> ReachesCycle(g, p)
      {
        StuckIffReachesCycle(g, passes, p);
      }
    }
  }

  /** One round of the loop: a pass, its output, and the smaller graph. */
  method Round(names: seq<Name>, g: Graph, manifests: map<Name, string>, left: seq<Name>, order: seq<(Name, string)>,
               ghost passes: nat)
    returns (left': seq<Name>, order': seq<(Name, string)>)
    requires Distinct(names) && (forall p :: p in names <==> p in g) && manifests.Keys == g.Keys
    requires Passed(names, g, manifests, passes, left, order) && left != []
    ensures Passed(names, g, manifests, passes + 1, left', order')
  {
    SelectDistinct(names, Rest(g, passes));
    var deleted := Pass(left, g);
    PassedNext(names, g, manifests, passes, left, order, deleted);
    hide Passed;
    order' := order + WithManifests(deleted, manifests);
    left' := Select(left, (set p | p in left) - (set p | p in deleted));
  }

  /** The passes over the graph, at most as many as the square of its size. */
  method SortLayers(names: seq<Name>, g: Graph, manifests: map<Name, string>) returns (r: Outcome, ghost passes: nat)
    requires Distinct(names) && (forall p :: p in names <==> p in g) && manifests.Keys == g.Keys
    ensures r.Ordered? || r.Suspected?
    ensures r.Ordered? <==> Acyclic(g)
    ensures r.Ordered? ==> Passed(names, g, manifests, passes, [], r.order) && Rest(g, passes) == {}
    ensures r.Suspected? ==> AllStuck(r.packages, g)
  {
    hide Passed, Rest, Acyclic, AllStuck, MaxIterations, Distinct;
    var left, order, budget: nat := names, [], MaxIterations(|g|);
    passes := 0;
    PassedStart(names, g, manifests);
    while left != []
      invariant passes + budget == MaxIterations(|g|)
      invariant Passed(names, g, manifests, passes, left, order)
      decreases budget
    {
      if budget == 0 {
        PassedLeaves(names, g, manifests, passes, left, order);
        LoopEnds(names, g, passes, left);
        return Suspected(left), passes;
      }
      budget := budget - 1;
      left, order := Round(names, g, manifests, left, order, passes);
      passes := passes + 1;
    }
    PassedLeaves(names, g, manifests, passes, left, order);
    LoopEnds(names, g, passes, left);
    return Ordered(order), passes;
  }

  lemma PassedLeaves(names: seq<Name>, g: Graph, manifests: map<Name, string>, passes: nat,
                     left: seq<Name>, order: seq<(Name, string)>)
    requires manifests.Keys == g.Keys && Passed(names, g, manifests, passes, left, order)
    ensures left == Select(names, Rest(g, passes))
  {
  }

  // What the result promises

  function Listed(order: seq<(Name, string)>): (names: seq<Name>)
    ensures |names| == |order|
    ensures forall i :: 0 <= i < |order| ==> names[i] == order[i].0
  {
    if order == [] then [] else [order[0].0] + Listed(order[1..])
  }

  /** Every package once, with its manifest, after everything it depends on. */
  ghost predicate PublishOrder(packages: seq<Package>, order: seq<(Name, string)>) {
    && multiset(Listed(order)) == multiset(NamesOf(packages))
    && (forall i :: 0 <= i < |order| ==>
          order[i].0 in ManifestsOf(packages) && order[i].1 == ManifestsOf(packages)[order[i].0])
    && Topological(GraphOf(packages), Listed(order))
  }

  lemma {:induction false} DistinctCount(c: seq<Name>, p: Name)
    requires Distinct(c)
    ensures multiset(c)[p] == if p in c then 1 else 0
  {
    if c != [] {
      assert c == [c[0]] + c[1..];
      DistinctCount(c[1..], p);
    }
  }

  lemma SameCounts(names: seq<Name>, g: Graph, passes: nat)
    requires Distinct(names) && (forall p :: p in names <==> p in g) && Rest(g, passes) == {}
    ensures multiset(Layers(names, g, passes)) == multiset(names)
  {
    LayersDistinct(names, g, passes);
    var listed := Layers(names, g, passes);
    hide Layers, Distinct;
    forall p
      ensures multiset(listed)[p] == multiset(names)[p]
    {
      DistinctCount(listed, p);
      DistinctCount(names, p);
      LayersHold(names, g, passes, p);
    }
  }

  lemma PassedIsPublishOrder(packages: seq<Package>, passes: nat, order: seq<(Name, string)>)
    requires Passed(NamesOf(packages), GraphOf(packages), ManifestsOf(packages), passes, [], order)
    requires Rest(GraphOf(packages), passes) == {}
    ensures PublishOrder(packages, order)
    ensures Listed(order) == Layers(NamesOf(packages), GraphOf(packages), passes)
  {
    hide Layers, Rest, Topological, NamesOf, GraphOf, ManifestsOf, WithManifests, Listed, Distinct;
    var names, g := NamesOf(packages), GraphOf(packages);
    assert Listed(order) == Layers(names, g, passes);
    SameCounts(names, g, passes);
    LayersTopological(names, g, passes);
  }

  ghost predicate HasChain(g: Graph, steps: nat) {
    exists p :: ChainFrom(g, p, steps)
  }

  /** The largest number of packages on a dependency chain. */
  ghost predicate LongestChain(g: Graph, packages: nat) {
    (packages > 0 ==> HasChain(g, packages - 1)) && !HasChain(g, packages)
  }

  lemma PassesAreLongestChain(g: Graph, passes: nat)
    requires Rest(g, passes) == {} && (passes > 0 ==> Rest(g, passes - 1) != {}) && Acyclic(g)
    ensures LongestChain(g, passes) && passes <= |g|
  {
    if passes > 0 {
      var p :| p in Rest(g, passes - 1);
      RestIsChains(g, passes - 1, p);
      if passes - 1 >= |g| {
        WorkedOffIffAcyclic(g, passes - 1);
      }
    }
    forall p
      ensures !ChainFrom(g, p, passes)
    {
      RestIsChains(g, passes, p);
    }
  }

  /** What an ordering that ran dry after `passes` passes amounts to. */
  lemma OrderedMeans(packages: seq<Package>, passes: nat, order: seq<(Name, string)>)
    requires Passed(NamesOf(packages), GraphOf(packages), ManifestsOf(packages), passes, [], order)
    requires Rest(GraphOf(packages), passes) == {} && Acyclic(GraphOf(packages))
    ensures PublishOrder(packages, order)
    ensures Listed(order) == Layers(NamesOf(packages), GraphOf(packages), passes)
    ensures LongestChain(GraphOf(packages), passes) && passes <= |GraphOf(packages)|
  {
    PassedIsPublishOrder(packages, passes, order);
    hide Layers, Rest, LongestChain, PublishOrder, WithManifests, NamesOf, GraphOf, ManifestsOf, Acyclic;
    PassesAreLongestChain(GraphOf(packages), passes);
  }

  /** The script's result. It succeeds exactly on acyclic graphs, in as many passes as a
      longest dependency chain has packages, layer by layer; the budget never cuts it short. */
  method GetPackages(packages: seq<Package>) returns (r: Outcome, ghost passes: nat)
    ensures r.Ordered? <==> Acyclic(GraphOf(packages))
    ensures r.Ordered? ==>
              && PublishOrder(packages, r.order)
              && Listed(r.order) == Layers(NamesOf(packages), GraphOf(packages), passes)
              && LongestChain(GraphOf(packages), passes) && passes <= |GraphOf(packages)|
    ensures r.DirectCycles? <==> exists pair :: MutualPair(GraphOf(packages), pair)
    ensures r.DirectCycles? ==> forall pair :: pair in r.pairs <==> MutualPair(GraphOf(packages), pair)
    ensures r.Suspected? ==> AllStuck(r.packages, GraphOf(packages))
  {
    hide Acyclic, AllStuck, MutualPair, Rest, Layers, PublishOrder, LongestChain, Passed, Listed,
         GraphOf, NamesOf, ManifestsOf, Distinct;
    var names, g, manifests := BuildGraph(packages);
    passes := 0;
    var pairs := FindDirectCycles(names, g);
    if pairs != {} {
      ghost var pair :| pair in pairs;
      MutualIsCycle(g, pair);
      return DirectCycles(pairs), passes;
    }
    r, passes := SortLayers(names, g, manifests);
    if r.Ordered? {
      OrderedMeans(packages, passes, r.order);
    }
  }
}
