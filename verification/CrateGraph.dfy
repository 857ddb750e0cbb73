/** Dependency graphs: chains, cycles, and what repeated passes over a graph leave and emit. */
module CrateGraph {

  type Name = string

  /** The dependency lists by package; dependencies outside the map are ignored. */
  type Graph = map<Name, seq<Name>>

  ghost predicate Edge(g: Graph, p: Name, q: Name) {
    p in g && q in g && q in g[p]
  }

  /** A sequence of packages, each depending on the next. */
  ghost predicate Chain(g: Graph, c: seq<Name>) {
    && (forall i :: 0 <= i < |c| ==> c[i] in g)
    && (forall i :: 0 <= i < |c| - 1 ==> Edge(g, c[i], c[i + 1]))
  }

  /** A dependency chain of `length` steps starts at p. */
  ghost predicate ChainFrom(g: Graph, p: Name, length: nat) {
    exists c :: |c| == length + 1 && c[0] == p && Chain(g, c)
  }

  ghost predicate Cycle(g: Graph, c: seq<Name>) {
    |c| >= 2 && Chain(g, c) && c[0] == c[|c| - 1]
  }

  ghost predicate Acyclic(g: Graph) {
    forall c :: !Cycle(g, c)
  }

  // The passes

  /** The packages left after k passes. */
  ghost function Rest(g: Graph, k: nat): (r: set<Name>)
    ensures r <= g.Keys
  {
    if k == 0 then g.Keys else Blocked(g, Rest(g, k - 1))
  }

  predicate DependsInto(g: Graph, p: Name, within: set<Name>)
    requires p in g
  {
    exists q :: q in g[p] && q in within
  }

  /** The packages of a set that depend on a package of the set. */
  ghost function Blocked(g: Graph, within: set<Name>): set<Name>
    requires within <= g.Keys
  {
    set p | p in within && DependsInto(g, p, within)
  }

  /** What is left after k passes are the packages with a dependency chain of k steps. */
  lemma {:induction false} RestIsChains(g: Graph, k: nat, p: Name)
    ensures p in Rest(g, k) <==> ChainFrom(g, p, k)
  {
    if k == 0 {
      if p in g {
        assert Chain(g, [p]);
      }
    } else {
      if p in Rest(g, k) {
        var q :| q in g[p] && q in Rest(g, k - 1);
        RestIsChains(g, k - 1, q);
        var c :| |c| == k && c[0] == q && Chain(g, c);
        assert Chain(g, [p] + c);
      }
      if ChainFrom(g, p, k) {
        var c :| |c| == k + 1 && c[0] == p && Chain(g, c);
        ChainTail(g, c);
        RestIsChains(g, k - 1, c[1]);
        ChainInit(g, c);
        RestIsChains(g, k - 1, p);
        assert Edge(g, c[0], c[1]);
      }
    }
  }

  lemma ChainTail(g: Graph, c: seq<Name>)
    requires Chain(g, c) && |c| >= 2
    ensures ChainFrom(g, c[1], |c| - 2)
  {
    var d := c[1..];
    forall i | 0 <= i < |d| - 1
      ensures Edge(g, d[i], d[i + 1])
    {
      assert Edge(g, c[i + 1], c[i + 1 + 1]);
    }
    assert Chain(g, d);
  }

  lemma ChainInit(g: Graph, c: seq<Name>)
    requires Chain(g, c) && |c| >= 2
    ensures ChainFrom(g, c[0], |c| - 2)
  {
    assert Chain(g, c[..|c| - 1]);
  }

  // Cycles

  predicate Distinct(c: seq<Name>) {
    forall i, j :: 0 <= i < j < |c| ==> c[i] != c[j]
  }

  /** Following dependencies from p one can come to some package twice. */
  ghost predicate ReachesCycle(g: Graph, p: Name) {
    exists c :: |c| > 0 && c[0] == p && Chain(g, c) && !Distinct(c)
  }

  lemma {:induction false} DistinctFits(c: seq<Name>, names: set<Name>)
    requires Distinct(c) && forall i :: 0 <= i < |c| ==> c[i] in names
    ensures |c| <= |names|
  {
    if c != [] {
      var last := c[|c| - 1];
      DistinctFits(c[..|c| - 1], names - {last});
    }
  }

  /** A set in which every package depends on one of the set. */
  ghost predicate Knot(g: Graph, knot: set<Name>) {
    knot <= g.Keys && forall p {:trigger DependsInto(g, p, knot)} :: p in knot ==> DependsInto(g, p, knot)
  }

  /** A knot is never worked off. */
  lemma {:induction false} KnotStays(g: Graph, knot: set<Name>, k: nat)
    requires Knot(g, knot)
    ensures knot <= Rest(g, k)
  {
    if k > 0 {
      KnotStays(g, knot, k - 1);
      forall p | p in knot
        ensures DependsInto(g, p, Rest(g, k - 1))
      {
        assert DependsInto(g, p, knot);
        var q :| q in g[p] && q in knot;
      }
    }
  }

  lemma LoopIsKnot(g: Graph, c: seq<Name>, i: nat, j: nat) returns (knot: set<Name>)
    requires Chain(g, c) && i < j < |c| && c[i] == c[j]
    ensures Knot(g, knot) && c[0] in knot
  {
    knot := set m | 0 <= m < j :: c[m];
    forall x | x in knot
      ensures DependsInto(g, x, knot)
    {
      var m :| 0 <= m < j && c[m] == x;
      assert Edge(g, c[m], c[m + 1]);
      assert c[m + 1] in knot by {
        if m + 1 == j {
          assert c[i] in knot;
        }
      }
    }
    assert c[0] in knot;
  }

  /** After as many passes as there are packages, exactly those are left from which a
      cycle can be reached; more passes change nothing. */
  lemma StuckIffReachesCycle(g: Graph, k: nat, p: Name)
    requires k >= |g|
    ensures p in Rest(g, k) <==> ReachesCycle(g, p)
  {
    if p in Rest(g, k) {
      RestIsChains(g, k, p);
      var c :| |c| == k + 1 && c[0] == p && Chain(g, c);
      assert !Distinct(c) by {
        if Distinct(c) {
          DistinctFits(c, g.Keys);
        }
      }
    }
    if ReachesCycle(g, p) {
      var c :| |c| > 0 && c[0] == p && Chain(g, c) && !Distinct(c);
      var i, j :| 0 <= i < j < |c| && c[i] == c[j];
      var knot := LoopIsKnot(g, c, i, j);
      KnotStays(g, knot, k);
    }
  }

  lemma CycleIsReached(g: Graph)
    ensures Acyclic(g) <==> forall p :: !ReachesCycle(g, p)
  {
    if !Acyclic(g) {
      var c :| Cycle(g, c);
      assert ReachesCycle(g, c[0]);
    }
    if p :| ReachesCycle(g, p) {
      var c :| |c| > 0 && c[0] == p && Chain(g, c) && !Distinct(c);
      var i, j :| 0 <= i < j < |c| && c[i] == c[j];
      var d := c[i..j + 1];
      forall m | 0 <= m < |d| - 1
        ensures Edge(g, d[m], d[m + 1])
      {
        assert Edge(g, c[i + m], c[i + m + 1]);
      }
      assert Cycle(g, d);
    }
  }

  /** The passes work off everything, within as many passes as there are packages, exactly
      when the graph has no cycle. */
  lemma WorkedOffIffAcyclic(g: Graph, k: nat)
    requires k >= |g|
    ensures Rest(g, k) == {} <==> Acyclic(g)
  {
    CycleIsReached(g);
    forall p
      ensures p in Rest(g, k) <==> ReachesCycle(g, p)
    {
      StuckIffReachesCycle(g, k, p);
    }
  }

  // Layers

  function Select(names: seq<Name>, chosen: set<Name>): (r: seq<Name>)
    ensures forall p :: p in r <==> p in names && p in chosen
  {
    if names == [] then []
    else if names[0] in chosen then [names[0]] + Select(names[1..], chosen)
    else Select(names[1..], chosen)
  }

  lemma {:induction false} SelectTwice(names: seq<Name>, a: set<Name>, b: set<Name>)
    requires b <= a
    ensures Select(Select(names, a), b) == Select(names, b)
  {
    if names != [] {
      SelectTwice(names[1..], a, b);
    }
  }

  lemma {:induction false} SelectSnoc(names: seq<Name>, p: Name, chosen: set<Name>)
    ensures Select(names + [p], chosen) == Select(names, chosen) + if p in chosen then [p] else []
  {
    if names != [] {
      SelectSnoc(names[1..], p, chosen);
      assert (names + [p])[1..] == names[1..] + [p];
    }
  }

  lemma {:induction false} SelectAgree(names: seq<Name>, a: set<Name>, b: set<Name>)
    requires forall p :: p in names ==> (p in a <==> p in b)
    ensures Select(names, a) == Select(names, b)
  {
    if names != [] {
      SelectAgree(names[1..], a, b);
    }
  }

  lemma {:induction false} SelectAll(names: seq<Name>, chosen: set<Name>)
    requires forall p :: p in names ==> p in chosen
    ensures Select(names, chosen) == names
  {
    if names != [] {
      SelectAll(names[1..], chosen);
    }
  }

  lemma {:induction false} SelectDistinct(names: seq<Name>, chosen: set<Name>)
    requires Distinct(names)
    ensures Distinct(Select(names, chosen))
  {
    if names != [] {
      SelectDistinct(names[1..], chosen);
    }
  }

  /** What pass k emits: the packages left after k passes but not after k + 1. */
  ghost function Layer(names: seq<Name>, g: Graph, k: nat): seq<Name> {
    Select(names, Rest(g, k) - Rest(g, k + 1))
  }

  ghost function Layers(names: seq<Name>, g: Graph, k: nat): seq<Name> {
    if k == 0 then [] else Layers(names, g, k - 1) + Layer(names, g, k - 1)
  }

  lemma {:induction false} RestShrinks(g: Graph, j: nat, k: nat)
    requires j <= k
    ensures Rest(g, k) <= Rest(g, j)
    decreases k
  {
    if j < k {
      RestShrinks(g, j, k - 1);
    }
  }

  /** A layer holds the packages whose longest dependency chain has exactly that length. */
  lemma LayerIsLongestChain(names: seq<Name>, g: Graph, k: nat, p: Name)
    ensures p in Layer(names, g, k) <==> p in names && ChainFrom(g, p, k) && !ChainFrom(g, p, k + 1)
  {
    RestIsChains(g, k, p);
    RestIsChains(g, k + 1, p);
  }

  lemma {:induction false} LayersHold(names: seq<Name>, g: Graph, k: nat, p: Name)
    ensures p in Layers(names, g, k) <==> p in names && p in g && p !in Rest(g, k)
  {
    if k > 0 {
      LayersHold(names, g, k - 1, p);
      RestShrinks(g, k - 1, k);
    }
  }

  lemma {:induction false} LayersDistinct(names: seq<Name>, g: Graph, k: nat)
    requires Distinct(names)
    ensures Distinct(Layers(names, g, k))
  {
    if k > 0 {
      LayersDistinct(names, g, k - 1);
      var before, layer := Layers(names, g, k - 1), Layer(names, g, k - 1);
      SelectDistinct(names, Rest(g, k - 1) - Rest(g, k));
      forall i, j | 0 <= i < |before| && 0 <= j < |layer|
        ensures before[i] != layer[j]
      {
        LayersHold(names, g, k - 1, before[i]);
        assert layer[j] in layer;
      }
    }
  }

  /** Every package comes after all its dependencies. */
  ghost predicate Topological(g: Graph, order: seq<Name>) {
    forall i, q :: 0 <= i < |order| && Edge(g, order[i], q) ==> q in order[..i]
  }

  lemma DependencyIsEarlier(names: seq<Name>, g: Graph, k: nat, p: Name, q: Name)
    requires p in Layer(names, g, k) && Edge(g, p, q) && q in names
    ensures q in Layers(names, g, k)
  {
    assert !DependsInto(g, p, Rest(g, k));
    LayersHold(names, g, k, q);
  }

  lemma {:induction false} LayersTopological(names: seq<Name>, g: Graph, k: nat)
    requires forall p :: p in g ==> p in names
    ensures Topological(g, Layers(names, g, k))
  {
    if k > 0 {
      LayersTopological(names, g, k - 1);
      hide Rest;
      var before, layer := Layers(names, g, k - 1), Layer(names, g, k - 1);
      var order := before + layer;
      forall i, q | 0 <= i < |order| && Edge(g, order[i], q)
        ensures q in order[..i]
      {
        if i < |before| {
          assert order[..i] == before[..i];
        } else {
          assert order[i] == layer[i - |before|];
          DependencyIsEarlier(names, g, k - 1, order[i], q);
          assert order[..i] == before + layer[..i - |before|];
        }
      }
    }
  }
}
