/** Power iteration over the symbol graph (pagerank.rs). */
module PageRank {
  import opened Sets
  import opened Sums
  import opened Iteration

  // The specification works on the list of links alone: `Step` is one iteration,
  // written without adjacency lists, and `Spread` is its linear part. The method
  // at the end builds the adjacency lists and updates the score vector in place.

  type Link = (nat, nat)

  // ---------------------------------------------------------------- indexing

  function Noted(names: seq<string>, name: string): seq<string> {
    if name in names then names else names + [name]
  }

  /** Endpoint names in order of first appearance. */
  function Nodes(edges: seq<(string, string)>): seq<string> {
    if |edges| == 0 then []
    else
      var e := edges[|edges| - 1];
      Noted(Noted(Nodes(edges[..|edges| - 1]), e.0), e.1)
  }

  /** `index` sends each name to its position in `names` and knows no other name. */
  predicate Indexes(index: map<string, nat>, names: seq<string>) {
    && (forall i :: 0 <= i < |names| ==> names[i] in index && index[names[i]] == i)
    && (forall x :: x in index ==> index[x] < |names| && names[index[x]] == x)
  }

  function IndexOf(names: seq<string>): (index: map<string, nat>)
    requires Distinct(names)
    ensures Indexes(index, names)
  {
    map i | 0 <= i < |names| :: names[i] := i
  }

  predicate IsEndpoint(edges: seq<(string, string)>, name: string) {
    exists i :: 0 <= i < |edges| && (edges[i].0 == name || edges[i].1 == name)
  }

  lemma EndpointAppend(init: seq<(string, string)>, e: (string, string), name: string)
    ensures IsEndpoint(init + [e], name) <==> IsEndpoint(init, name) || e.0 == name || e.1 == name
  {
    var edges := init + [e];
    assert edges[|init|] == e;
    if IsEndpoint(init, name) {
      var i :| 0 <= i < |init| && (init[i].0 == name || init[i].1 == name);
      assert edges[i] == init[i];
    }
    if IsEndpoint(edges, name) {
      var i :| 0 <= i < |edges| && (edges[i].0 == name || edges[i].1 == name);
      assert i < |init| ==> init[i] == edges[i];
    }
  }

  /** The node list holds every endpoint exactly once. */
  lemma {:induction false} NodesAreEndpoints(edges: seq<(string, string)>)
    ensures Distinct(Nodes(edges))
    ensures forall x :: x in Nodes(edges) <==> IsEndpoint(edges, x)
  {
    if |edges| > 0 {
      var init, e := edges[..|edges| - 1], edges[|edges| - 1];
      NodesAreEndpoints(init);
      assert edges == init + [e];
      forall x ensures x in Nodes(edges) <==> IsEndpoint(edges, x) {
        EndpointAppend(init, e, x);
      }
    }
  }

  predicate Covered(edges: seq<(string, string)>, index: map<string, nat>) {
    forall i :: 0 <= i < |edges| ==> edges[i].0 in index && edges[i].1 in index
  }

  /** The links the iteration sees: indexed, self-edges dropped, repeats kept. */
  function Links(edges: seq<(string, string)>, index: map<string, nat>): seq<Link>
    requires Covered(edges, index)
  {
    if |edges| == 0 then []
    else
      var e := edges[|edges| - 1];
      var rest := Links(edges[..|edges| - 1], index);
      if index[e.0] != index[e.1] then rest + [(index[e.0], index[e.1])] else rest
  }

  /** The links over positions in `Nodes(edges)`. */
  function Graph(edges: seq<(string, string)>): (links: seq<Link>)
    ensures InRange(links, |Nodes(edges)|)
  {
    NodesAreEndpoints(edges);
    var index := IndexOf(Nodes(edges));
    EndpointsCovered(edges, index);
    LinksInRange(edges, index, |Nodes(edges)|);
    Links(edges, index)
  }

  lemma EndpointsCovered(edges: seq<(string, string)>, index: map<string, nat>)
    requires Indexes(index, Nodes(edges))
    ensures Covered(edges, index)
  {
    NodesAreEndpoints(edges);
    forall i | 0 <= i < |edges| ensures edges[i].0 in index && edges[i].1 in index {
      assert IsEndpoint(edges, edges[i].0) && IsEndpoint(edges, edges[i].1);
    }
  }

  predicate InRange(links: seq<Link>, n: nat) {
    forall i :: 0 <= i < |links| ==> links[i].0 < n && links[i].1 < n
  }

  lemma {:induction false} LinksInRange(edges: seq<(string, string)>, index: map<string, nat>, n: nat)
    requires Covered(edges, index)
    requires forall x :: x in index ==> index[x] < n
    ensures InRange(Links(edges, index), n)
  {
    if |edges| > 0 { LinksInRange(edges[..|edges| - 1], index, n); }
  }

  lemma CountLast<T>(s: seq<T>, y: T)
    requires s != []
    ensures multiset(s)[y] == multiset(s[..|s| - 1])[y] + if s[|s| - 1] == y then 1 else 0
  {
    assert s == s[..|s| - 1] + [s[|s| - 1]];
  }

  lemma CountAppended<T>(s: seq<T>, x: T, y: T)
    ensures multiset(s + [x])[y] == multiset(s)[y] + if x == y then 1 else 0
  {
  }

  lemma {:induction false} LinksCountEdges(edges: seq<(string, string)>, index: map<string, nat>, names: seq<string>,
                                           u: nat, v: nat)
    requires Covered(edges, index) && Indexes(index, names) && u < |names| && v < |names|
    ensures multiset(Links(edges, index))[(u, v)] == if u == v then 0 else multiset(edges)[(names[u], names[v])]
  {
    if |edges| > 0 {
      var init, e := edges[..|edges| - 1], edges[|edges| - 1];
      LinksCountEdges(init, index, names, u, v);
      CountLast(edges, (names[u], names[v]));
      CountAppended(Links(init, index), (index[e.0], index[e.1]), (u, v));
      assert (index[e.0] == u <==> e.0 == names[u]) && (index[e.1] == v <==> e.1 == names[v]);
    }
  }

  /** The graph holds each edge between two different symbols as often as the edge list does, and no self-edge. */
  lemma GraphCountsEdges(edges: seq<(string, string)>, u: nat, v: nat)
    requires u < |Nodes(edges)| && v < |Nodes(edges)|
    ensures multiset(Graph(edges))[(u, v)] == if u == v then 0 else multiset(edges)[(Nodes(edges)[u], Nodes(edges)[v])]
  {
    NodesAreEndpoints(edges);
    EndpointsCovered(edges, IndexOf(Nodes(edges)));
    LinksCountEdges(edges, IndexOf(Nodes(edges)), Nodes(edges), u, v);
  }

  // --------------------------------------------------------- adjacency lists

  function OutList(links: seq<Link>, u: nat): seq<nat> {
    if |links| == 0 then []
    else
      var l := links[|links| - 1];
      OutList(links[..|links| - 1], u) + if l.0 == u then [l.1] else []
  }

  function InList(links: seq<Link>, v: nat): seq<nat> {
    if |links| == 0 then []
    else
      var l := links[|links| - 1];
      InList(links[..|links| - 1], v) + if l.1 == v then [l.0] else []
  }

  lemma {:induction false} InListCounts(links: seq<Link>, u: nat, v: nat)
    ensures multiset(InList(links, v))[u] == multiset(links)[(u, v)]
  {
    if |links| > 0 {
      var rest, l := links[..|links| - 1], links[|links| - 1];
      InListCounts(rest, u, v);
      CountLast(links, (u, v));
      CountAppended(InList(rest, v), l.0, u);
      assert l.1 != v ==> InList(rest, v) + [] == InList(rest, v);
    }
  }

  lemma {:induction false} OutListCounts(links: seq<Link>, u: nat, v: nat)
    ensures multiset(OutList(links, u))[v] == multiset(links)[(u, v)]
  {
    if |links| > 0 {
      var rest, l := links[..|links| - 1], links[|links| - 1];
      OutListCounts(rest, u, v);
      CountLast(links, (u, v));
      CountAppended(OutList(rest, u), l.1, v);
      assert l.0 != u ==> OutList(rest, u) + [] == OutList(rest, u);
    }
  }

  /** The in-lists are the transpose of the out-lists, counting repeats. */
  lemma InListsTransposeOutLists(links: seq<Link>, u: nat, v: nat)
    ensures multiset(InList(links, v))[u] == multiset(OutList(links, u))[v] == multiset(links)[(u, v)]
  {
    InListCounts(links, u, v);
    OutListCounts(links, u, v);
  }

  /**
   * Seen from the edge list: both lists of the graph hold v under u, and u under v, once
   * for each edge from u to v but a self-edge.
   */
  lemma ListsCountEdges(edges: seq<(string, string)>, u: nat, v: nat)
    requires u < |Nodes(edges)| && v < |Nodes(edges)|
    ensures var times := if u == v then 0 else multiset(edges)[(Nodes(edges)[u], Nodes(edges)[v])];
            multiset(InList(Graph(edges), v))[u] == multiset(OutList(Graph(edges), u))[v] == times
  {
    GraphCountsEdges(edges, u, v);
    InListsTransposeOutLists(Graph(edges), u, v);
  }

  function Degree(links: seq<Link>, u: nat): nat { |OutList(links, u)| }

  // -------------------------------------------------------------- iteration

  /** What one node passes along each of its links. */
  function Share(links: seq<Link>, s: seq<real>): seq<real> {
    seq(|s|, u requires 0 <= u < |s| =>
      if Degree(links, u) == 0 then 0.0 else Per(s[u], Degree(links, u)))
  }

  function Dangling(links: seq<Link>, s: seq<real>): seq<real> {
    seq(|s|, u requires 0 <= u < |s| => if Degree(links, u) == 0 then s[u] else 0.0)
  }

  /** The weight arriving at `v` over `links`, each link carrying its source's weight. */
  function Inflow(links: seq<Link>, w: seq<real>, v: nat): real
    requires InRange(links, |w|)
  {
    if |links| == 0 then 0.0
    else
      var l := links[|links| - 1];
      Inflow(links[..|links| - 1], w, v) + if l.1 == v then w[l.0] else 0.0
  }

  function Inflows(links: seq<Link>, w: seq<real>): seq<real>
    requires InRange(links, |w|)
  {
    seq(|w|, v requires 0 <= v < |w| => Inflow(links, w, v))
  }

  /** `x` split into `n` equal parts. */
  function Evenly(x: real, n: nat): seq<real> {
    seq(n, i requires 0 <= i < n => Per(x, n))
  }

  /** The dangling nodes' weight, handed out evenly. */
  function Jump(links: seq<Link>, s: seq<real>): seq<real> {
    Evenly(Sum(Dangling(links, s)), |s|)
  }

  /** The undamped iteration: follow a link, or jump anywhere from a dangling node. */
  function Spread(links: seq<Link>, s: seq<real>): (r: seq<real>)
    requires InRange(links, |s|)
    ensures |r| == |s|
  {
    Plus(Jump(links, s), Inflows(links, Share(links, s)))
  }

  /** One iteration on the score vector `s`. */
  function Step(links: seq<Link>, damping: real, s: seq<real>): (r: seq<real>)
    requires InRange(links, |s|)
    ensures |r| == |s|
  {
    Plus(Evenly(1.0 - damping, |s|), Scale(damping, Spread(links, s)))
  }

  function Update(links: seq<Link>, damping: real): seq<real> -> seq<real> {
    (s: seq<real>) => if InRange(links, |s|) then Step(links, damping, s) else s
  }

  /** The score vector after `k` iterations from `s`. */
  function Iterated(links: seq<Link>, damping: real, s: seq<real>, k: nat): seq<real> {
    Iter(Update(links, damping), s, k)
  }

  lemma IteratedLength(links: seq<Link>, damping: real, s: seq<real>, k: nat)
    ensures |Iterated(links, damping, s, k)| == |s|
  {
    if k > 0 { IteratedLength(links, damping, s, k - 1); }
  }

  /** The starting scores, equal and summing to 1. */
  function Uniform(n: nat): seq<real> { Evenly(1.0, n) }

  // ------------------------------------------------------- mass conservation

  ghost function Outflows(links: seq<Link>, w: seq<real>): seq<real> {
    seq(|w|, u requires 0 <= u < |w| => Times(Degree(links, u) as real, w[u]))
  }

  lemma OneMoreArrival(rest: seq<Link>, l: Link, w: seq<real>)
    requires InRange(rest + [l], |w|) && l.0 < |w| && l.1 < |w|
    ensures InRange(rest, |w|)
    ensures Sum(Inflows(rest + [l], w)) == Sum(Inflows(rest, w)) + w[l.0]
  {
    assert forall i :: 0 <= i < |rest| ==> rest[i] == (rest + [l])[i];
    assert (rest + [l])[..|rest|] == rest;
    SumBump(Inflows(rest, w), l.1, w[l.0], Inflows(rest + [l], w));
  }

  lemma OneMoreDeparture(rest: seq<Link>, l: Link, w: seq<real>)
    requires l.0 < |w|
    ensures Sum(Outflows(rest + [l], w)) == Sum(Outflows(rest, w)) + w[l.0]
  {
    assert (rest + [l])[..|rest|] == rest;
    forall u | 0 <= u < |w|
      ensures Outflows(rest + [l], w)[u] == if u == l.0 then Outflows(rest, w)[u] + w[l.0] else Outflows(rest, w)[u]
    {
      OneMoreTime(Degree(rest, u), w[u]);
    }
    SumBump(Outflows(rest, w), l.0, w[l.0], Outflows(rest + [l], w));
  }

  lemma OneMoreTime(d: nat, x: real)
    ensures Times((d + 1) as real, x) == Times(d as real, x) + x
  {
  }

  /** Summing arrivals over targets equals summing departures over sources. */
  lemma {:induction false} ArrivalsEqualDepartures(links: seq<Link>, w: seq<real>)
    requires InRange(links, |w|)
    ensures Sum(Inflows(links, w)) == Sum(Outflows(links, w))
  {
    if |links| == 0 {
      SumConstant(0.0, |w|);
      assert Inflows(links, w) == Constant(0.0, |w|) == Outflows(links, w);
    } else {
      var rest, l := links[..|links| - 1], links[|links| - 1];
      assert links == rest + [l];
      ArrivalsEqualDepartures(rest, w);
      OneMoreArrival(rest, l, w);
      OneMoreDeparture(rest, l, w);
    }
  }

  lemma ScaleBack(x: real, n: nat)
    requires n > 0
    ensures Times(n as real, Per(x, n)) == x
  {
  }

  lemma EvenSplit(x: real, n: nat)
    requires n > 0
    ensures Sum(Evenly(x, n)) == x
  {
    SumConstant(Per(x, n), n);
    assert Evenly(x, n) == Constant(Per(x, n), n);
    ScaleBack(x, n);
  }

  lemma NodeGivesAll(links: seq<Link>, s: seq<real>)
    ensures s == Plus(Dangling(links, s), Outflows(links, Share(links, s)))
  {
    forall u | 0 <= u < |s| ensures s[u] == Dangling(links, s)[u] + Outflows(links, Share(links, s))[u] {
      if Degree(links, u) > 0 { ScaleBack(s[u], Degree(links, u)); }
    }
  }

  /** Neither created nor lost: spreading keeps the total of every vector. */
  lemma SpreadKeepsMass(links: seq<Link>, s: seq<real>)
    requires InRange(links, |s|)
    ensures Sum(Spread(links, s)) == Sum(s)
  {
    if |s| > 0 {
      var share, dangling := Share(links, s), Dangling(links, s);
      EvenSplit(Sum(dangling), |s|);
      ArrivalsEqualDepartures(links, share);
      SumPlus(Jump(links, s), Inflows(links, share));
      NodeGivesAll(links, s);
      SumPlus(dangling, Outflows(links, share));
    }
  }

  lemma SumAffine(base: seq<real>, c: real, a: seq<real>)
    requires |base| == |a|
    ensures Sum(Plus(base, Scale(c, a))) == Sum(base) + Times(c, Sum(a))
  {
    SumScale(c, a);
    SumPlus(base, Scale(c, a));
  }

  lemma StepSum(links: seq<Link>, damping: real, s: seq<real>)
    requires InRange(links, |s|)
    ensures Sum(Step(links, damping, s)) == Sum(Evenly(1.0 - damping, |s|)) + Times(damping, Sum(Spread(links, s)))
  {
    SumAffine(Evenly(1.0 - damping, |s|), damping, Spread(links, s));
  }

  lemma StepMass(links: seq<Link>, damping: real, s: seq<real>)
    requires InRange(links, |s|)
    ensures Sum(Step(links, damping, s)) == Sum(Evenly(1.0 - damping, |s|)) + Times(damping, Sum(s))
  {
    StepSum(links, damping, s);
    SpreadKeepsMass(links, s);
  }

  lemma TeleportMass(damping: real, n: nat)
    requires n > 0
    ensures Sum(Evenly(1.0 - damping, n)) + Times(damping, 1.0) == 1.0
  {
    EvenSplit(1.0 - damping, n);
  }

  lemma StepKeepsUnitMass(links: seq<Link>, damping: real, s: seq<real>)
    requires InRange(links, |s|) && |s| > 0 && Sum(s) == 1.0
    ensures Sum(Step(links, damping, s)) == 1.0
  {
    StepMass(links, damping, s);
    TeleportMass(damping, |s|);
  }

  /** After every iteration the scores sum to exactly 1, whatever the damping. */
  lemma {:induction false} ScoresSumToOne(links: seq<Link>, damping: real, n: nat, k: nat)
    requires n > 0 && InRange(links, n)
    ensures Sum(Iterated(links, damping, Uniform(n), k)) == 1.0
  {
    if k == 0 {
      EvenSplit(1.0, n);
    } else {
      ScoresSumToOne(links, damping, n, k - 1);
      IteratedLength(links, damping, Uniform(n), k - 1);
      StepKeepsUnitMass(links, damping, Iterated(links, damping, Uniform(n), k - 1));
    }
  }

  // ------------------------------------------------------------- lower bound

  lemma {:induction false} InflowNonNegative(links: seq<Link>, w: seq<real>, v: nat)
    requires InRange(links, |w|) && NonNegative(w)
    ensures Inflow(links, w, v) >= 0.0
  {
    if |links| > 0 { InflowNonNegative(links[..|links| - 1], w, v); }
  }

  lemma QuotientNonNegative(x: real, n: nat)
    requires n > 0 && x >= 0.0
    ensures Per(x, n) >= 0.0
  {
  }

  lemma SpreadNonNegative(links: seq<Link>, s: seq<real>)
    requires InRange(links, |s|) && NonNegative(s)
    ensures NonNegative(Spread(links, s))
  {
    var share := Share(links, s);
    forall u | 0 <= u < |s| ensures share[u] >= 0.0 {
      if Degree(links, u) > 0 { QuotientNonNegative(s[u], Degree(links, u)); }
    }
    SumNonNegative(Dangling(links, s));
    forall v | 0 <= v < |s| ensures Spread(links, s)[v] >= 0.0 {
      QuotientNonNegative(Sum(Dangling(links, s)), |s|);
      InflowNonNegative(links, share, v);
    }
  }

  lemma StepBoundedBelow(links: seq<Link>, damping: real, s: seq<real>, v: nat)
    requires InRange(links, |s|) && NonNegative(s) && damping >= 0.0 && v < |s|
    ensures Step(links, damping, s)[v] >= Per(1.0 - damping, |s|)
  {
    SpreadNonNegative(links, s);
    TimesMonotone(damping, 0.0, Spread(links, s)[v]);
  }

  lemma UniformBoundedBelow(damping: real, n: nat)
    requires n > 0 && 0.0 <= damping <= 1.0
    ensures Per(1.0, n) >= Per(1.0 - damping, n) >= 0.0
  {
    QuotientNonNegative(1.0 - damping, n);
    assert Per(1.0, n) - Per(1.0 - damping, n) == Per(damping, n);
    QuotientNonNegative(damping, n);
  }

  ghost predicate BoundedBelow(s: seq<real>, least: real) {
    forall v :: 0 <= v < |s| ==> s[v] >= least
  }

  lemma StepStaysBounded(links: seq<Link>, damping: real, s: seq<real>)
    requires InRange(links, |s|) && NonNegative(s) && damping >= 0.0 && |s| > 0
    ensures BoundedBelow(Step(links, damping, s), Per(1.0 - damping, |s|))
  {
    forall v | 0 <= v < |s| { StepBoundedBelow(links, damping, s, v); }
  }

  /** No score ever falls below the teleport share. */
  lemma {:induction false} ScoresBoundedBelow(links: seq<Link>, damping: real, n: nat, k: nat)
    requires n > 0 && InRange(links, n) && 0.0 <= damping <= 1.0
    ensures |Iterated(links, damping, Uniform(n), k)| == n
    ensures BoundedBelow(Iterated(links, damping, Uniform(n), k), Per(1.0 - damping, n))
    ensures Per(1.0 - damping, n) >= 0.0
  {
    UniformBoundedBelow(damping, n);
    IteratedLength(links, damping, Uniform(n), k);
    if k > 0 {
      ScoresBoundedBelow(links, damping, n, k - 1);
      StepStaysBounded(links, damping, Iterated(links, damping, Uniform(n), k - 1));
    }
  }

  // -------------------------------------------------------------- contraction

  lemma {:induction false} InflowDifference(links: seq<Link>, a: seq<real>, b: seq<real>, v: nat)
    requires |a| == |b| && InRange(links, |a|)
    ensures Inflow(links, Difference(a, b), v) == Inflow(links, a, v) - Inflow(links, b, v)
  {
    if |links| > 0 { InflowDifference(links[..|links| - 1], a, b, v); }
  }

  lemma QuotientDifference(x: real, y: real, n: nat)
    requires n > 0
    ensures Per(x, n) - Per(y, n) == Per(x - y, n)
  {
  }

  lemma ShareDifference(links: seq<Link>, s: seq<real>, t: seq<real>)
    requires |s| == |t|
    ensures Share(links, Difference(s, t)) == Difference(Share(links, s), Share(links, t))
  {
    var d := Difference(s, t);
    forall u | 0 <= u < |s| ensures Share(links, d)[u] == Share(links, s)[u] - Share(links, t)[u] {
      if Degree(links, u) > 0 { QuotientDifference(s[u], t[u], Degree(links, u)); }
    }
  }

  lemma JumpDifference(links: seq<Link>, s: seq<real>, t: seq<real>)
    requires |s| == |t|
    ensures Jump(links, Difference(s, t)) == Difference(Jump(links, s), Jump(links, t))
  {
    if |s| > 0 {
      assert Dangling(links, Difference(s, t)) == Difference(Dangling(links, s), Dangling(links, t));
      SumDifference(Dangling(links, s), Dangling(links, t));
      QuotientDifference(Sum(Dangling(links, s)), Sum(Dangling(links, t)), |s|);
    }
  }

  lemma SpreadDifference(links: seq<Link>, s: seq<real>, t: seq<real>)
    requires |s| == |t| && InRange(links, |s|)
    ensures Spread(links, Difference(s, t)) == Difference(Spread(links, s), Spread(links, t))
  {
    JumpDifference(links, s, t);
    ShareDifference(links, s, t);
    forall v | 0 <= v < |s| {
      InflowDifference(links, Share(links, s), Share(links, t), v);
    }
  }

  lemma {:induction false} InflowAbs(links: seq<Link>, w: seq<real>, a: seq<real>, v: nat)
    requires |w| == |a| && InRange(links, |w|)
    requires forall i :: 0 <= i < |w| ==> Abs(w[i]) <= a[i]
    ensures Abs(Inflow(links, w, v)) <= Inflow(links, a, v)
  {
    if |links| > 0 { InflowAbs(links[..|links| - 1], w, a, v); }
  }

  lemma QuotientAbs(x: real, y: real, n: nat)
    requires n > 0 && Abs(x) <= y
    ensures Abs(Per(x, n)) <= Per(y, n)
  {
    QuotientNonNegative(y - x, n);
    QuotientNonNegative(y + x, n);
  }

  lemma ShareAbs(links: seq<Link>, s: seq<real>, u: nat)
    requires u < |s|
    ensures Abs(Share(links, s)[u]) <= Share(links, AbsEach(s))[u]
  {
    if Degree(links, u) > 0 { QuotientAbs(s[u], Abs(s[u]), Degree(links, u)); }
  }

  lemma SpreadAbs(links: seq<Link>, s: seq<real>, v: nat)
    requires InRange(links, |s|) && v < |s|
    ensures Abs(Spread(links, s)[v]) <= Spread(links, AbsEach(s))[v]
  {
    var a := AbsEach(s);
    forall u | 0 <= u < |s| ensures Abs(Share(links, s)[u]) <= Share(links, a)[u] {
      ShareAbs(links, s, u);
    }
    InflowAbs(links, Share(links, s), Share(links, a), v);
    AbsSum(Dangling(links, s));
    assert AbsEach(Dangling(links, s)) == Dangling(links, a);
    QuotientAbs(Sum(Dangling(links, s)), Sum(Dangling(links, a)), |s|);
  }

  lemma StepDifference(links: seq<Link>, damping: real, s: seq<real>, t: seq<real>)
    requires |s| == |t| && InRange(links, |s|)
    ensures Difference(Step(links, damping, s), Step(links, damping, t))
         == Scale(damping, Spread(links, Difference(s, t)))
  {
    SpreadDifference(links, s, t);
    DifferenceOfScaled(Evenly(1.0 - damping, |s|), damping, Spread(links, s), Spread(links, t));
  }

  lemma SpreadShrinks(links: seq<Link>, s: seq<real>)
    requires InRange(links, |s|)
    ensures Sum(AbsEach(Spread(links, s))) <= Sum(AbsEach(s))
  {
    forall v | 0 <= v < |s| ensures AbsEach(Spread(links, s))[v] <= Spread(links, AbsEach(s))[v] {
      SpreadAbs(links, s, v);
    }
    SumMonotone(AbsEach(Spread(links, s)), Spread(links, AbsEach(s)));
    SpreadKeepsMass(links, AbsEach(s));
  }

  /** One iteration shrinks the L1 distance of any two vectors by the damping. */
  lemma StepContracts(links: seq<Link>, damping: real, s: seq<real>, t: seq<real>)
    requires |s| == |t| && InRange(links, |s|)
    ensures Distance(Step(links, damping, s), Step(links, damping, t)) <= Times(Abs(damping), Distance(s, t))
  {
    var spread := Spread(links, Difference(s, t));
    StepDifference(links, damping, s, t);
    AbsScale(damping, spread);
    SumScale(Abs(damping), AbsEach(spread));
    SpreadShrinks(links, Difference(s, t));
    TimesMonotone(Abs(damping), Sum(AbsEach(spread)), Distance(s, t));
  }

  lemma UpdateContracts(links: seq<Link>, damping: real, n: nat)
    requires InRange(links, n)
    ensures Contracts(Update(links, damping), n, Abs(damping))
  {
    var f := Update(links, damping);
    forall s: seq<real>, t: seq<real> | |s| == |t| == n
      ensures Distance(f(s), f(t)) <= Times(Abs(damping), Distance(s, t))
    {
      StepContracts(links, damping, s, t);
    }
  }

  /** Two runs from different starts approach each other as damping^k. */
  lemma IterationsContract(links: seq<Link>, damping: real, s: seq<real>, t: seq<real>, k: nat)
    requires |s| == |t| && InRange(links, |s|)
    ensures |Iterated(links, damping, s, k)| == |s| && |Iterated(links, damping, t, k)| == |s|
    ensures Distance(Iterated(links, damping, s, k), Iterated(links, damping, t, k))
         <= Times(Pow(Abs(damping), k), Distance(s, t))
  {
    UpdateContracts(links, damping, |s|);
    RunsApproach(Update(links, damping), Abs(damping), s, t, k);
  }

  /** Successive iterates differ by at most damping^k times the first change. */
  lemma ChangesDecay(links: seq<Link>, damping: real, s: seq<real>, k: nat)
    requires InRange(links, |s|)
    ensures |Iterated(links, damping, s, k)| == |Iterated(links, damping, s, k + 1)| == |s|
    ensures Distance(Iterated(links, damping, s, k), Iterated(links, damping, s, k + 1))
         <= Times(Pow(Abs(damping), k), Distance(s, Step(links, damping, s)))
  {
    UpdateContracts(links, damping, |s|);
    SuccessiveIterates(Update(links, damping), Abs(damping), s, k);
  }

  /** Stopping after k iterations misses every later iterate by at most a geometric tail. */
  lemma TruncationError(links: seq<Link>, damping: real, s: seq<real>, k: nat, m: nat)
    requires InRange(links, |s|) && 0.0 <= damping <= 1.0
    ensures |Iterated(links, damping, s, k)| == |Iterated(links, damping, s, k + m)| == |s|
    ensures Times(1.0 - damping, Distance(Iterated(links, damping, s, k), Iterated(links, damping, s, k + m)))
         <= Times(Pow(damping, k) - Pow(damping, k + m), Distance(s, Step(links, damping, s)))
  {
    UpdateContracts(links, damping, |s|);
    StoppingError(Update(links, damping), damping, s, k, m);
  }

  // ------------------------------------------------------- compute_pagerank

  /** The final scores, by position in `Nodes(edges)`. */
  function Scores(edges: seq<(string, string)>, iterations: nat, damping: real): (r: seq<real>)
    ensures |r| == |Nodes(edges)|
  {
    IteratedLength(Graph(edges), damping, Uniform(|Nodes(edges)|), iterations);
    Iterated(Graph(edges), damping, Uniform(|Nodes(edges)|), iterations)
  }

  /** On every nonempty edge list the scores are a probability distribution, floored by the teleport share. */
  lemma ScoresAreDistribution(edges: seq<(string, string)>, iterations: nat, damping: real)
    requires edges != []
    ensures Sum(Scores(edges, iterations, damping)) == 1.0
    ensures |Nodes(edges)| > 0
    ensures 0.0 <= damping <= 1.0 ==>
              BoundedBelow(Scores(edges, iterations, damping), Per(1.0 - damping, |Nodes(edges)|))
  {
    ScoresSumToOne(Graph(edges), damping, |Nodes(edges)|, iterations);
    if 0.0 <= damping <= 1.0 { ScoresBoundedBelow(Graph(edges), damping, |Nodes(edges)|, iterations); }
  }

  // --------------------------------------------- the run, told from the edges

  /** How many listed edges lead from `name` to another symbol. */
  function OutDegree(edges: seq<(string, string)>, name: string): nat {
    if |edges| == 0 then 0
    else
      var e := edges[|edges| - 1];
      OutDegree(edges[..|edges| - 1], name) + if e.0 == name && e.1 != name then 1 else 0
  }

  /** What reaches `name` over the edges in `list`: from each other symbol its score over its out-degree. */
  function Arriving(edges: seq<(string, string)>, list: seq<(string, string)>, scores: map<string, real>, name: string):
    real
  {
    if |list| == 0 then 0.0
    else
      var e := list[|list| - 1];
      Arriving(edges, list[..|list| - 1], scores, name) +
      if e.1 == name && e.0 != name && e.0 in scores && OutDegree(edges, e.0) > 0
      then Per(scores[e.0], OutDegree(edges, e.0)) else 0.0
  }

  /** The scores of the symbols in `names` that lead nowhere. */
  function Stuck(edges: seq<(string, string)>, names: seq<string>, scores: map<string, real>): real {
    if |names| == 0 then 0.0
    else
      var x := names[|names| - 1];
      Stuck(edges, names[..|names| - 1], scores) + if x in scores && OutDegree(edges, x) == 0 then scores[x] else 0.0
  }

  /** `next` follows `scores`: the teleport share, the stuck scores handed out evenly, and what arrives. */
  ghost predicate IsNext(edges: seq<(string, string)>, damping: real, names: seq<string>,
                         scores: map<string, real>, next: map<string, real>)
  {
    forall x :: x in names ==>
      x in next && next[x] == Per(1.0 - damping, |names|) + Times(damping, Per(Stuck(edges, names, scores), |names|))
                              + Times(damping, Arriving(edges, edges, scores, x))
  }

  /** The score maps of a whole computation: equal at first, each the next of the one before. */
  ghost predicate IsRankRun(edges: seq<(string, string)>, damping: real, names: seq<string>,
                            run: seq<map<string, real>>)
  {
    && |run| > 0
    && (forall x :: x in names ==> x in run[0] && run[0][x] == Per(1.0, |names|))
    && (forall k :: 0 < k < |run| ==> IsNext(edges, damping, names, run[k - 1], run[k]))
  }

  /** Each of these symbols once, with its score. */
  function Named(names: seq<string>, scores: seq<real>): (m: map<string, real>)
    requires Distinct(names) && |names| == |scores|
    ensures forall x :: x in m <==> x in names
    ensures forall i :: 0 <= i < |names| ==> m[names[i]] == scores[i]
  {
    map i | 0 <= i < |names| :: names[i] := scores[i]
  }

  lemma {:induction false} OutDegreeIsDegree(edges: seq<(string, string)>, index: map<string, nat>, names: seq<string>,
                                             u: nat)
    requires Covered(edges, index) && Indexes(index, names) && u < |names|
    ensures OutDegree(edges, names[u]) == Degree(Links(edges, index), u)
  {
    if |edges| > 0 {
      var init, e := edges[..|edges| - 1], edges[|edges| - 1];
      OutDegreeIsDegree(init, index, names, u);
      assert (index[e.0] == u <==> e.0 == names[u]) && (index[e.0] == index[e.1] <==> e.0 == e.1);
      var rest := Links(init, index);
      assert (rest + [(index[e.0], index[e.1])])[..|rest|] == rest;
    }
  }

  lemma {:induction false} ArrivingIsInflow(edges: seq<(string, string)>, list: seq<(string, string)>,
                                            index: map<string, nat>, names: seq<string>, s: seq<real>, w: seq<real>,
                                            v: nat)
    requires Distinct(names) && |s| == |w| == |names| && v < |names|
    requires Covered(list, index) && Indexes(index, names) && InRange(Links(list, index), |names|)
    requires forall u :: 0 <= u < |names| ==> w[u] == PassedOn(edges, names[u], s[u])
    ensures Arriving(edges, list, Named(names, s), names[v]) == Inflow(Links(list, index), w, v)
  {
    if |list| > 0 {
      var init, e := list[..|list| - 1], list[|list| - 1];
      var rest := Links(init, index);
      LinksInRange(init, index, |names|);
      ArrivingIsInflow(edges, init, index, names, s, w, v);
      assert (index[e.1] == v <==> e.1 == names[v]) && (index[e.0] == index[e.1] <==> e.0 == e.1);
      assert names[index[e.0]] == e.0;
      assert (rest + [(index[e.0], index[e.1])])[..|rest|] == rest;
    }
  }

  /** What a symbol with score `x` passes along each of its edges. */
  function PassedOn(edges: seq<(string, string)>, name: string, x: real): real {
    if OutDegree(edges, name) > 0 then Per(x, OutDegree(edges, name)) else 0.0
  }

  lemma {:induction false} StuckIsDangling(edges: seq<(string, string)>, links: seq<Link>, names: seq<string>,
                                           s: seq<real>, n: nat)
    requires Distinct(names) && |s| == |names| && n <= |names|
    requires forall u :: 0 <= u < |names| ==> OutDegree(edges, names[u]) == Degree(links, u)
    ensures Stuck(edges, names[..n], Named(names, s)) == Sum(Dangling(links, s)[..n])
  {
    if n > 0 {
      StuckIsDangling(edges, links, names, s, n - 1);
      assert names[..n][..n - 1] == names[..n - 1] && Dangling(links, s)[..n][..n - 1] == Dangling(links, s)[..n - 1];
      assert names[..n][n - 1] == names[n - 1];
    }
  }

  lemma DegreesAgree(edges: seq<(string, string)>, u: nat)
    requires u < |Nodes(edges)|
    ensures OutDegree(edges, Nodes(edges)[u]) == Degree(Graph(edges), u)
  {
    NodesAreEndpoints(edges);
    EndpointsCovered(edges, IndexOf(Nodes(edges)));
    OutDegreeIsDegree(edges, IndexOf(Nodes(edges)), Nodes(edges), u);
  }

  lemma ArrivingAtNode(edges: seq<(string, string)>, s: seq<real>, v: nat)
    requires |s| == |Nodes(edges)| && Distinct(Nodes(edges)) && v < |s|
    ensures Arriving(edges, edges, Named(Nodes(edges), s), Nodes(edges)[v])
         == Inflow(Graph(edges), Share(Graph(edges), s), v)
  {
    var names, w := Nodes(edges), Share(Graph(edges), s);
    EndpointsCovered(edges, IndexOf(names));
    forall u | 0 <= u < |names| ensures w[u] == PassedOn(edges, names[u], s[u]) { DegreesAgree(edges, u); }
    ArrivingIsInflow(edges, edges, IndexOf(names), names, s, w, v);
  }

  lemma StuckAtNodes(edges: seq<(string, string)>, s: seq<real>)
    requires |s| == |Nodes(edges)| && Distinct(Nodes(edges))
    ensures Stuck(edges, Nodes(edges), Named(Nodes(edges), s)) == Sum(Dangling(Graph(edges), s))
  {
    var names, links := Nodes(edges), Graph(edges);
    forall u | 0 <= u < |names| ensures OutDegree(edges, names[u]) == Degree(links, u) { DegreesAgree(edges, u); }
    StuckIsDangling(edges, links, names, s, |s|);
    assert names[..|s|] == names && Dangling(links, s)[..|s|] == Dangling(links, s);
  }

  lemma StepIsNext(edges: seq<(string, string)>, damping: real, s: seq<real>)
    requires |s| == |Nodes(edges)| && Distinct(Nodes(edges))
    ensures IsNext(edges, damping, Nodes(edges), Named(Nodes(edges), s),
                   Named(Nodes(edges), Step(Graph(edges), damping, s)))
  {
    var names, next := Nodes(edges), Step(Graph(edges), damping, s);
    StuckAtNodes(edges, s);
    forall x | x in names
      ensures Named(names, next)[x]
           == Per(1.0 - damping, |names|) + Times(damping, Per(Stuck(edges, names, Named(names, s)), |names|))
              + Times(damping, Arriving(edges, edges, Named(names, s), x))
    {
      var v :| 0 <= v < |names| && names[v] == x;
      ArrivingAtNode(edges, s, v);
      StepAt(Graph(edges), damping, s, v);
      TimesPer(damping, Sum(Dangling(Graph(edges), s)), |s|);
    }
  }

  lemma RunGoesOn(edges: seq<(string, string)>, damping: real, names: seq<string>, run: seq<map<string, real>>,
                  next: map<string, real>)
    requires IsRankRun(edges, damping, names, run) && IsNext(edges, damping, names, run[|run| - 1], next)
    ensures IsRankRun(edges, damping, names, run + [next])
  {
  }

  lemma NextScoresStep(edges: seq<(string, string)>, k: nat, damping: real)
    ensures |Scores(edges, k, damping)| == |Nodes(edges)|
    ensures Scores(edges, k + 1, damping) == Step(Graph(edges), damping, Scores(edges, k, damping))
  {
  }

  lemma RunStarts(edges: seq<(string, string)>, damping: real, names: seq<string>)
    requires Distinct(names) && |names| > 0
    ensures |Uniform(|names|)| == |names| && IsRankRun(edges, damping, names, [Named(names, Uniform(|names|))])
  {
    var first := Named(names, Uniform(|names|));
    forall x | x in names ensures first[x] == Per(1.0, |names|) { var i :| 0 <= i < |names| && names[i] == x; }
  }

  lemma FirstScores(edges: seq<(string, string)>, damping: real)
    requires edges != []
    ensures |Nodes(edges)| > 0 && Scores(edges, 0, damping) == Uniform(|Nodes(edges)|)
  {
  }

  /** `run` has `k` steps and ends with the scores after `k` iterations. */
  ghost predicate EndsWithScores(edges: seq<(string, string)>, k: nat, damping: real, run: seq<map<string, real>>)
    requires Distinct(Nodes(edges))
  {
    |run| == k + 1 && run[k] == Named(Nodes(edges), Scores(edges, k, damping))
  }

  lemma RunNext(edges: seq<(string, string)>, k: nat, damping: real, run: seq<map<string, real>>)
    returns (run': seq<map<string, real>>)
    requires Distinct(Nodes(edges))
    requires IsRankRun(edges, damping, Nodes(edges), run) && EndsWithScores(edges, k, damping, run)
    ensures IsRankRun(edges, damping, Nodes(edges), run') && EndsWithScores(edges, k + 1, damping, run')
  {
    var next := Named(Nodes(edges), Scores(edges, k + 1, damping));
    ScoresGoOn(edges, k, damping, run[k], next);
    RunGoesOn(edges, damping, Nodes(edges), run, next);
    run' := run + [next];
  }

  /** The scores are those of a run of exactly `iterations` steps from equal scores, each step told from the edges. */
  lemma ScoresAreRun(edges: seq<(string, string)>, iterations: nat, damping: real)
    returns (run: seq<map<string, real>>)
    requires edges != [] && Distinct(Nodes(edges))
    ensures IsRankRun(edges, damping, Nodes(edges), run)
    ensures |run| == iterations + 1 && run[iterations] == Named(Nodes(edges), Scores(edges, iterations, damping))
  {
    FirstScores(edges, damping);
    RunStarts(edges, damping, Nodes(edges));
    run := [Named(Nodes(edges), Uniform(|Nodes(edges)|))];
    for k := 0 to iterations
      invariant IsRankRun(edges, damping, Nodes(edges), run) && EndsWithScores(edges, k, damping, run)
    {
      run := RunNext(edges, k, damping, run);
    }
  }

  lemma ScoresGoOn(edges: seq<(string, string)>, k: nat, damping: real, last: map<string, real>,
                   next: map<string, real>)
    requires Distinct(Nodes(edges))
    requires last == Named(Nodes(edges), Scores(edges, k, damping))
    requires next == Named(Nodes(edges), Scores(edges, k + 1, damping))
    ensures IsNext(edges, damping, Nodes(edges), last, next)
  {
    StepIsNext(edges, damping, Scores(edges, k, damping));
    NextScoresStep(edges, k, damping);
  }

  /** There is only one such run. */
  lemma {:induction false} RankRunUnique(edges: seq<(string, string)>, damping: real, names: seq<string>,
                                         a: seq<map<string, real>>, b: seq<map<string, real>>, k: nat, x: string)
    requires IsRankRun(edges, damping, names, a) && IsRankRun(edges, damping, names, b)
    requires k < |a| && k < |b| && x in names && forall e :: e in edges ==> e.0 in names
    ensures x in a[k] && x in b[k] && a[k][x] == b[k][x]
    decreases k, 1
  {
    if k > 0 {
      forall y | y in names ensures y in a[k - 1] && y in b[k - 1] && a[k - 1][y] == b[k - 1][y] {
        RankRunUnique(edges, damping, names, a, b, k - 1, y);
      }
      SameStuck(edges, names, a[k - 1], b[k - 1]);
      SameArriving(edges, edges, a[k - 1], b[k - 1], x);
      assert IsNext(edges, damping, names, a[k - 1], a[k]) && IsNext(edges, damping, names, b[k - 1], b[k]);
    }
  }

  lemma {:induction false} SameStuck(edges: seq<(string, string)>, names: seq<string>,
                                     s: map<string, real>, t: map<string, real>)
    requires forall y :: y in names ==> y in s && y in t && s[y] == t[y]
    ensures Stuck(edges, names, s) == Stuck(edges, names, t)
  {
    if |names| > 0 { SameStuck(edges, names[..|names| - 1], s, t); }
  }

  lemma {:induction false} SameArriving(edges: seq<(string, string)>, list: seq<(string, string)>,
                                        s: map<string, real>, t: map<string, real>, x: string)
    requires forall e :: e in list ==> e.0 in s && e.0 in t && s[e.0] == t[e.0]
    ensures Arriving(edges, list, s, x) == Arriving(edges, list, t, x)
  {
    if |list| > 0 { SameArriving(edges, list[..|list| - 1], s, t, x); }
  }

  method NoteNode(nodes: seq<string>, nodeIndex: map<string, nat>, name: string)
    returns (nodes': seq<string>, nodeIndex': map<string, nat>)
    requires Indexes(nodeIndex, nodes)
    ensures nodes' == Noted(nodes, name) && Indexes(nodeIndex', nodes')
  {
    nodes', nodeIndex' := nodes, nodeIndex;
    if name !in nodeIndex {
      nodeIndex' := nodeIndex[name := |nodes|];
      nodes' := nodes + [name];
    }
  }

  method IndexNodes(edges: seq<(string, string)>) returns (nodes: seq<string>, nodeIndex: map<string, nat>)
    ensures nodes == Nodes(edges) && Distinct(nodes) && nodeIndex == IndexOf(nodes)
  {
    nodes, nodeIndex := [], map[];
    for k := 0 to |edges|
      invariant nodes == Nodes(edges[..k]) && Indexes(nodeIndex, nodes)
    {
      assert edges[..k + 1][..k] == edges[..k];
      nodes, nodeIndex := NoteNode(nodes, nodeIndex, edges[k].0);
      nodes, nodeIndex := NoteNode(nodes, nodeIndex, edges[k].1);
    }
    assert edges[..|edges|] == edges;
    NodesAreEndpoints(edges);
    assert nodeIndex.Keys == IndexOf(nodes).Keys;
  }

  method BuildAdjacency(edges: seq<(string, string)>, nodeIndex: map<string, nat>, n: nat)
    returns (outEdges: array<seq<nat>>, inEdges: array<seq<nat>>)
    requires Covered(edges, nodeIndex) && forall x :: x in nodeIndex ==> nodeIndex[x] < n
    ensures fresh(outEdges) && fresh(inEdges) && outEdges.Length == inEdges.Length == n
    ensures forall u :: 0 <= u < n ==> outEdges[u] == OutList(Links(edges, nodeIndex), u)
    ensures forall v :: 0 <= v < n ==> inEdges[v] == InList(Links(edges, nodeIndex), v)
  {
    outEdges := new seq<nat>[n](_ => []);
    inEdges := new seq<nat>[n](_ => []);
    for k := 0 to |edges|
      invariant forall u :: 0 <= u < n ==> outEdges[u] == OutList(Links(edges[..k], nodeIndex), u)
      invariant forall v :: 0 <= v < n ==> inEdges[v] == InList(Links(edges[..k], nodeIndex), v)
    {
      var (from, to) := edges[k];
      var fi, ti := nodeIndex[from], nodeIndex[to];
      ghost var before, after := Links(edges[..k], nodeIndex), Links(edges[..k + 1], nodeIndex);
      assert edges[..k + 1][..k] == edges[..k];
      if fi != ti {
        outEdges[fi] := outEdges[fi] + [ti];
        inEdges[ti] := inEdges[ti] + [fi];
        assert after[..|after| - 1] == before;
      }
    }
    assert edges[..|edges|] == edges;
  }

  /** The weights `w` picked out by a list of positions, summed. */
  function Picked(list: seq<nat>, w: seq<real>): real
    requires forall i :: 0 <= i < |list| ==> list[i] < |w|
  {
    if |list| == 0 then 0.0 else Picked(list[..|list| - 1], w) + w[list[|list| - 1]]
  }

  lemma {:induction false} InListInRange(links: seq<Link>, n: nat, v: nat)
    requires InRange(links, n)
    ensures forall i :: 0 <= i < |InList(links, v)| ==>
              InList(links, v)[i] < n && Degree(links, InList(links, v)[i]) > 0
  {
    if |links| > 0 {
      var rest := links[..|links| - 1];
      InListInRange(rest, n, v);
      assert InList(links, v) == InList(rest, v) + if links[|links| - 1].1 == v then [links[|links| - 1].0] else [];
    }
  }

  lemma {:induction false} PickedInList(links: seq<Link>, w: seq<real>, v: nat)
    requires InRange(links, |w|)
    ensures forall i :: 0 <= i < |InList(links, v)| ==> InList(links, v)[i] < |w|
    ensures Picked(InList(links, v), w) == Inflow(links, w, v)
  {
    if |links| > 0 {
      var rest, l := links[..|links| - 1], links[|links| - 1];
      var list := InList(rest, v);
      PickedInList(rest, w, v);
      assert InList(links, v) == if l.1 == v then list + [l.0] else list;
    }
  }

  function DanglingIndices(links: seq<Link>, n: nat): (r: seq<nat>)
    ensures forall i :: 0 <= i < |r| ==> r[i] < n
  {
    if n == 0 then []
    else DanglingIndices(links, n - 1) + if Degree(links, n - 1) == 0 then [n - 1] else []
  }

  lemma DanglingStep(links: seq<Link>, i: nat)
    ensures Degree(links, i) == 0 ==> DanglingIndices(links, i + 1) == DanglingIndices(links, i) + [i]
    ensures Degree(links, i) != 0 ==> DanglingIndices(links, i + 1) == DanglingIndices(links, i)
  {
  }

  lemma {:induction false} PickedDangling(links: seq<Link>, s: seq<real>, n: nat)
    requires n <= |s|
    ensures Picked(DanglingIndices(links, n), s) == Sum(Dangling(links, s)[..n])
  {
    if n > 0 {
      var list, dangling := DanglingIndices(links, n - 1), Dangling(links, s);
      PickedDangling(links, s, n - 1);
      assert dangling[..n] == dangling[..n - 1] + [dangling[n - 1]];
      assert Degree(links, n - 1) != 0 ==> DanglingIndices(links, n) == list;
    }
  }

  method SumDangling(danglingIndices: seq<nat>, scores: array<real>) returns (total: real)
    requires forall i :: 0 <= i < |danglingIndices| ==> danglingIndices[i] < scores.Length
    ensures total == Picked(danglingIndices, scores[..])
  {
    total := 0.0;
    for i := 0 to |danglingIndices|
      invariant total == Picked(danglingIndices[..i], scores[..])
    {
      assert danglingIndices[..i + 1][..i] == danglingIndices[..i];
      total := total + scores[danglingIndices[i]];
    }
    assert danglingIndices[..|danglingIndices|] == danglingIndices;
  }

  lemma TimesPer(d: real, x: real, n: nat)
    requires n > 0
    ensures Per(Times(d, x), n) == Times(d, Per(x, n))
  {
  }

  /** Everything flowing into `v`, accumulated on top of `start` link by link. */
  method AddInflow(start: real, damping: real, sources: seq<nat>, scores: array<real>, outEdges: array<seq<nat>>,
                   ghost share: seq<real>)
    returns (total: real)
    requires |share| == scores.Length == outEdges.Length
    requires forall j :: 0 <= j < |sources| ==> sources[j] < |share| && |outEdges[sources[j]]| > 0
    requires forall u :: 0 <= u < |share| && |outEdges[u]| > 0 ==> share[u] == Per(scores[u], |outEdges[u]|)
    ensures total == start + Times(damping, Picked(sources, share))
  {
    total := start;
    for j := 0 to |sources|
      invariant total == start + Times(damping, Picked(sources[..j], share))
    {
      var u := sources[j];
      assert sources[..j + 1][..j] == sources[..j];
      TimesPer(damping, scores[u], |outEdges[u]|);
      total := total + Per(Times(damping, scores[u]), |outEdges[u]|);
    }
    assert sources[..|sources|] == sources;
  }

  ghost function Start(links: seq<Link>, damping: real, s: seq<real>): real
    requires |s| > 0
  {
    Per(1.0 - damping, |s|) + Per(Times(damping, Sum(Dangling(links, s))), |s|)
  }

  lemma StepAt(links: seq<Link>, damping: real, s: seq<real>, v: nat)
    requires InRange(links, |s|) && v < |s|
    ensures Step(links, damping, s)[v]
         == Start(links, damping, s) + Times(damping, Inflow(links, Share(links, s), v))
  {
    TimesPer(damping, Sum(Dangling(links, s)), |s|);
  }

  /** What every node starts an iteration with: the teleport share and the dangling share. */
  method StartValue(damping: real, scores: array<real>, danglingIndices: seq<nat>, ghost links: seq<Link>)
    returns (start: real)
    requires scores.Length > 0 && danglingIndices == DanglingIndices(links, scores.Length)
    ensures start == Start(links, damping, scores[..])
  {
    var danglingSum := SumDangling(danglingIndices, scores);
    PickedDangling(links, scores[..], scores.Length);
    assert Dangling(links, scores[..])[..scores.Length] == Dangling(links, scores[..]);
    start := Per(1.0 - damping, scores.Length) + Per(Times(damping, danglingSum), scores.Length);
  }

  ghost predicate Adjacency(outEdges: array<seq<nat>>, inEdges: array<seq<nat>>, links: seq<Link>, n: nat)
    reads outEdges, inEdges
  {
    && outEdges.Length == inEdges.Length == n
    && (forall u :: 0 <= u < n ==> outEdges[u] == OutList(links, u))
    && (forall v :: 0 <= v < n ==> inEdges[v] == InList(links, v))
  }

  method NextScore(v: nat, start: real, damping: real, scores: array<real>, outEdges: array<seq<nat>>,
                   inEdges: array<seq<nat>>, ghost links: seq<Link>)
    returns (score: real)
    requires Adjacency(outEdges, inEdges, links, scores.Length) && InRange(links, scores.Length) && v < scores.Length
    requires start == Start(links, damping, scores[..])
    ensures score == Step(links, damping, scores[..])[v]
  {
    InListInRange(links, scores.Length, v);
    PickedInList(links, Share(links, scores[..]), v);
    StepAt(links, damping, scores[..], v);
    score := AddInflow(start, damping, inEdges[v], scores, outEdges, Share(links, scores[..]));
  }

  /** One pass of the outer loop, writing the next scores into a fresh vector. */
  method NextScores(damping: real, scores: array<real>, outEdges: array<seq<nat>>, inEdges: array<seq<nat>>,
                    danglingIndices: seq<nat>, ghost links: seq<Link>)
    returns (newScores: array<real>)
    requires Adjacency(outEdges, inEdges, links, scores.Length) && InRange(links, scores.Length)
    requires scores.Length > 0 && danglingIndices == DanglingIndices(links, scores.Length)
    ensures fresh(newScores) && newScores[..] == Step(links, damping, scores[..])
  {
    var n := scores.Length;
    var start := StartValue(damping, scores, danglingIndices, links);
    newScores := new real[n];
    ghost var next := Step(links, damping, scores[..]);
    for v := 0 to n
      invariant forall i :: 0 <= i < v ==> newScores[i] == next[i]
    {
      newScores[v] := NextScore(v, start, damping, scores, outEdges, inEdges, links);
    }
  }

  method FindDangling(outEdges: array<seq<nat>>, inEdges: array<seq<nat>>, ghost links: seq<Link>)
    returns (danglingIndices: seq<nat>)
    requires Adjacency(outEdges, inEdges, links, outEdges.Length)
    ensures danglingIndices == DanglingIndices(links, outEdges.Length)
  {
    danglingIndices := [];
    for i := 0 to outEdges.Length
      invariant danglingIndices == DanglingIndices(links, i)
    {
      DanglingStep(links, i);
      assert |outEdges[i]| == Degree(links, i);
      if |outEdges[i]| == 0 { danglingIndices := danglingIndices + [i]; }
    }
  }

  method IterateScores(iterations: nat, damping: real, outEdges: array<seq<nat>>, inEdges: array<seq<nat>>,
                       ghost links: seq<Link>)
    returns (scores: array<real>)
    requires Adjacency(outEdges, inEdges, links, outEdges.Length) && InRange(links, outEdges.Length)
    requires outEdges.Length > 0
    ensures scores[..] == Iterated(links, damping, Uniform(outEdges.Length), iterations)
  {
    var n := outEdges.Length;
    var danglingIndices := FindDangling(outEdges, inEdges, links);
    var initScore := Per(1.0, n);
    scores := new real[n](_ => initScore);
    assert scores[..] == Uniform(n);
    for k := 0 to iterations
      invariant fresh(scores) && scores.Length == n && scores[..] == Iterated(links, damping, Uniform(n), k)
    {
      scores := NextScores(damping, scores, outEdges, inEdges, danglingIndices, links);
    }
  }

  /** Scores for every symbol named by an edge; nothing at all for an empty edge list. */
  method ComputePagerank(edges: seq<(string, string)>, iterations: nat, damping: real)
    returns (result: map<string, real>)
    ensures edges == [] ==> result == map[]
    ensures forall x :: x in result <==> IsEndpoint(edges, x)
    ensures forall i :: 0 <= i < |Nodes(edges)| ==>
              Nodes(edges)[i] in result && result[Nodes(edges)[i]] == Scores(edges, iterations, damping)[i]
    ensures edges != [] ==>
              exists run :: && |run| == iterations + 1 && IsRankRun(edges, damping, Nodes(edges), run)
                            && run[iterations] == result
  {
    NodesAreEndpoints(edges);
    if |edges| == 0 { return map[]; }
    var nodes, nodeIndex := IndexNodes(edges);
    EndpointsCovered(edges, nodeIndex);
    var outEdges, inEdges := BuildAdjacency(edges, nodeIndex, |nodes|);
    var scores := IterateScores(iterations, damping, outEdges, inEdges, Graph(edges));
    assert scores[..] == Scores(edges, iterations, damping);
    result := NameScores(nodes, scores);
    ghost var run := ScoresAreRun(edges, iterations, damping);
    assert run[iterations] == result;
  }

  method NameScores(nodes: seq<string>, scores: array<real>) returns (result: map<string, real>)
    requires Distinct(nodes) && |nodes| == scores.Length
    ensures result == Named(nodes, scores[..])
  {
    result := map i | 0 <= i < |nodes| :: nodes[i] := scores[i];
    assert forall i :: 0 <= i < |nodes| ==> scores[..][i] == scores[i];
  }
}
