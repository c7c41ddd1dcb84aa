/** Static claims: which sources could still route to which node. */
module Claims {
  import opened Collections
  import opened Graphs

  /** Node -> source -> how many unresolved edges of that source claim the node. */
  type PendingClaims = map<Id, map<Id, nat>>

  function Held(bySource: map<Id, nat>, s: Id): nat {
    if s in bySource then bySource[s] else 0
  }

  /** What a conditional edge of `s` may select, as the executor estimates it. */
  ghost function ConditionalTargets(g: Graph, s: Id): set<Id> {
    if Analysable(g, s) then set t | t in g.info[s].targets
    else if s in g.nodes then Forward(g, s) - {s}
    else {}
  }

  ghost predicate Selectable(g: Graph, s: Id, e: Edge, n: Id) {
    match e
    case Direct(t) => t == To(n)
    case Conditional(_) => n in ConditionalTargets(g, s)
  }

  /** The declarative claim rule: some edge of `s` could select `n`, and `s` is not downstream of `n`. */
  ghost predicate IsClaim(g: Graph, s: Id, n: Id) {
    && n in g.nodes
    && !Reaches(g, n, s)
    && exists e :: e in EdgesOf(g, s) && Selectable(g, s, e, n)
  }

  /** The fallback of an unreadable condition follows what is known of its source: it is empty exactly when no
      direct edge leads from the source to another node. */
  lemma FallbackNeedsDirectEdge(g: Graph, s: Id)
    requires s in g.nodes && !Analysable(g, s)
    ensures ConditionalTargets(g, s) == {} <==> forall n | Direct(To(n)) in EdgesOf(g, s) :: n == s
  {
    forall n ensures n in Successors(g, s) <==> Direct(To(n)) in EdgesOf(g, s) {
      if Direct(To(n)) in EdgesOf(g, s) {
        var i :| 0 <= i < |EdgesOf(g, s)| && EdgesOf(g, s)[i] == Direct(To(n));
        assert n in EdgeTargets(g, s, EdgesOf(g, s)[i]);
      }
    }
    hide Successors;
    if forall n | n in Successors(g, s) :: n == s {
      forall n | n in Forward(g, s) ensures n == s { ClosedUnderReach(g, {s}, s, n); }
    } else {
      var n :| n in Successors(g, s) && n != s;
      ReachesStep(g, s, n);
    }
  }

  /** The targets one edge of `s` lists, with repetitions. */
  ghost function Listed(g: Graph, s: Id, e: Edge): multiset<Id> {
    match e
    case Direct(End) => multiset{}
    case Direct(To(id)) => multiset{id}
    case Conditional(_) => ListedByConditional(g, s)
  }

  ghost function ListedByConditional(g: Graph, s: Id): multiset<Id> {
    if Analysable(g, s) then multiset(g.info[s].targets) else multiset(ConditionalTargets(g, s))
  }

  ghost function ListedBy(g: Graph, s: Id, edges: seq<Edge>): multiset<Id> {
    if edges == [] then multiset{}
    else ListedBy(g, s, edges[..|edges| - 1]) + Listed(g, s, edges[|edges| - 1])
  }

  /** How many claims `s` has on `n`: one per listing, none against the flow. */
  ghost function ClaimCount(g: Graph, s: Id, n: Id): nat {
    if n !in g.nodes || Reaches(g, n, s) then 0 else ListedBy(g, s, EdgesOf(g, s))[n]
  }

  ghost function StaticClaims(g: Graph): PendingClaims {
    map n | n in g.nodes :: map s | s in g.edges && ClaimCount(g, s, n) > 0 :: ClaimCount(g, s, n)
  }

  // ----- What the claim rule means -----

  lemma ListedOne(g: Graph, s: Id, e: Edge, n: Id)
    ensures n in Listed(g, s, e) <==> Selectable(g, s, e, n)
  {
    hide Forward;
  }

  lemma {:induction false} ListedIffSelectable(g: Graph, s: Id, edges: seq<Edge>, n: Id)
    ensures n in ListedBy(g, s, edges) <==> exists e :: e in edges && Selectable(g, s, e, n)
  {
    hide Listed, Selectable;
    if edges != [] {
      var k := |edges| - 1;
      ListedIffSelectable(g, s, edges[..k], n);
      ListedOne(g, s, edges[k], n);
      assert edges == edges[..k] + [edges[k]];
    }
  }

  /** A source has a positive static claim on a node exactly under the claim rule. */
  lemma StaticClaimIff(g: Graph, s: Id, n: Id)
    requires n in g.nodes
    ensures Held(StaticClaims(g)[n], s) > 0 <==> IsClaim(g, s, n)
    ensures s in StaticClaims(g)[n] <==> IsClaim(g, s, n)
  {
    ListedIffSelectable(g, s, EdgesOf(g, s), n);
  }

  /** The places of the direct edges to `n`. */
  ghost function DirectEdgesTo(edges: seq<Edge>, n: Id): set<nat> {
    set i: nat | i < |edges| && edges[i] == Direct(To(n))
  }

  ghost function ConditionalEdges(edges: seq<Edge>): set<nat> {
    set i: nat | i < |edges| && edges[i].Conditional?
  }

  /** How often one conditional edge of `s` lists `n`: as often as the analysis does, or once if the fallback has it. */
  ghost function TimesListed(g: Graph, s: Id, n: Id): nat {
    if Analysable(g, s) then multiset(g.info[s].targets)[n]
    else if s in g.nodes && n != s && Reaches(g, s, n) then 1 else 0
  }

  lemma {:induction false} ListedCount(g: Graph, s: Id, edges: seq<Edge>, n: Id)
    ensures ListedBy(g, s, edges)[n] == |DirectEdgesTo(edges, n)| + |ConditionalEdges(edges)| * TimesListed(g, s, n)
  {
    hide Listed, TimesListed, DirectEdgesTo, ConditionalEdges;
    EdgeCounts(edges, n);
    if edges != [] {
      var k := |edges| - 1;
      ListedCount(g, s, edges[..k], n);
      ListedTimes(g, s, edges[k], n);
      OneMoreTime(|ConditionalEdges(edges[..k])|, TimesListed(g, s, n));
    }
  }

  lemma OneMoreTime(count: nat, times: nat)
    ensures (count + 1) * times == count * times + times
  {
  }

  lemma EdgeCounts(edges: seq<Edge>, n: Id)
    ensures edges == [] ==> |DirectEdgesTo(edges, n)| == 0 && |ConditionalEdges(edges)| == 0
    ensures edges != [] ==>
      var k := |edges| - 1;
      && |DirectEdgesTo(edges, n)| == |DirectEdgesTo(edges[..k], n)| + (if edges[k] == Direct(To(n)) then 1 else 0)
      && |ConditionalEdges(edges)| == |ConditionalEdges(edges[..k])| + (if edges[k].Conditional? then 1 else 0)
  {
    if edges == [] {
      assert DirectEdgesTo(edges, n) == {} && ConditionalEdges(edges) == {};
    } else {
      var k := |edges| - 1;
      assert DirectEdgesTo(edges, n) == DirectEdgesTo(edges[..k], n) + if edges[k] == Direct(To(n)) then {k} else {};
      assert ConditionalEdges(edges) == ConditionalEdges(edges[..k]) + if edges[k].Conditional? then {k} else {};
    }
  }

  lemma ListedTimes(g: Graph, s: Id, e: Edge, n: Id)
    ensures Listed(g, s, e)[n] == if e == Direct(To(n)) then 1 else if e.Conditional? then TimesListed(g, s, n) else 0
  {
    hide Reaches;
  }

  /** The exact number of claims: none against the flow, else one for every direct edge to the node and, for every
      conditional edge, one for every time it lists the node. */
  lemma ClaimsAreCounted(g: Graph, s: Id, n: Id)
    requires n in g.nodes
    ensures Held(StaticClaims(g)[n], s) ==
            if s !in g.edges || Reaches(g, n, s) then 0
            else |DirectEdgesTo(g.edges[s], n)| + |ConditionalEdges(g.edges[s])| * TimesListed(g, s, n)
  {
    hide Reaches, TimesListed;
    ListedCount(g, s, EdgesOf(g, s), n);
  }

  /** A claim always points strictly downstream, whether or not the graph could be analysed. */
  lemma ClaimPointsDownstream(g: Graph, s: Id, n: Id)
    requires IsClaim(g, s, n)
    ensures Reaches(g, s, n) && !Reaches(g, n, s)
  {
    var e :| e in EdgesOf(g, s) && Selectable(g, s, e, n);
    if e.Direct? || Analysable(g, s) {
      var i :| 0 <= i < |EdgesOf(g, s)| && EdgesOf(g, s)[i] == e;
      assert n in EdgeTargets(g, s, EdgesOf(g, s)[i]);
      ReachesStep(g, s, n);
    }
  }

  /** The rank that every claim decreases. */
  ghost function Depth(g: Graph, n: Id): nat {
    |Forward(g, n)|
  }

  lemma ClaimDecreasesDepth(g: Graph, s: Id, n: Id)
    requires IsClaim(g, s, n)
    ensures Depth(g, n) < Depth(g, s)
  {
    ClaimPointsDownstream(g, s, n);
    forall m | m in Forward(g, n) ensures m in Forward(g, s) { ReachesTransitive(g, s, n, m); }
    ReachesSelf(g, s);
    StrictSubsetSmaller(Forward(g, n), Forward(g, s));
  }

  /** A chain of claims: each element claims the next. */
  ghost predicate ClaimChain(g: Graph, c: seq<Id>) {
    forall i :: 0 <= i < |c| - 1 ==> IsClaim(g, c[i], c[i + 1])
  }

  lemma {:induction false} ClaimChainDescends(g: Graph, c: seq<Id>, i: nat, j: nat)
    requires ClaimChain(g, c) && i <= j < |c|
    ensures Depth(g, c[j]) + (j - i) <= Depth(g, c[i])
    decreases j - i
  {
    if i < j {
      ClaimDecreasesDepth(g, c[i], c[i + 1]);
      ClaimChainDescends(g, c, i + 1, j);
    }
  }

  /** No node occurs twice on a chain of claims: the claim graph is acyclic, so no
      claim lies inside a cycle and no chain is longer than the mentioned nodes. */
  lemma ClaimsAcyclic(g: Graph, c: seq<Id>)
    requires ClaimChain(g, c)
    ensures Distinct(c)
    ensures |c| > 0 ==> |c| <= |Mentioned(g)| + 1
  {
    forall i, j | 0 <= i < j < |c| ensures c[i] != c[j] {
      ClaimChainDescends(g, c, i, j);
    }
    if |c| > 0 {
      ClaimChainDescends(g, c, 0, |c| - 1);
      forall m | m in Forward(g, c[0]) ensures m in Mentioned(g) + {c[0]} { ReachesMentioned(g, c[0], m); }
      SubsetNotLarger(Forward(g, c[0]), Mentioned(g) + {c[0]});
      ReachesSelf(g, c[|c| - 1]);
      assert c[|c| - 1] in Forward(g, c[|c| - 1]);
    }
  }

  // ----- The algorithm -----

  /** `forward` is what ComputeForwardReachable returned for `g`. */
  ghost predicate IsForwardMap(g: Graph, forward: map<Id, set<Id>>) {
    && forward.Keys == (set n | n in g.nodes)
    && forall n, m | n in forward :: m in forward[n] <==> Reaches(g, n, m)
  }

  /** primeFallbackReach: what an unreadable condition may select. */
  method PrimeFallbackReach(g: Graph, forward: map<Id, set<Id>>) returns (fallback: map<Id, set<Id>>)
    requires IsForwardMap(g, forward)
    ensures IsFallbackMap(g, fallback)
  {
    fallback := map[];
    for i := 0 to |g.nodes|
      invariant fallback.Keys == set n | n in g.nodes[..i]
      invariant forall n | n in fallback :: fallback[n] == Forward(g, n) - {n}
    {
      var from := g.nodes[i];
      fallback := fallback[from := forward[from] - {from}];
      assert g.nodes[..i + 1] == g.nodes[..i] + [from];
    }
    assert g.nodes[..|g.nodes|] == g.nodes;
  }

  predicate IsDownstreamOf(forward: map<Id, set<Id>>, node: Id, origin: Id) {
    origin in forward && node in forward[origin]
  }

  method Enumerate<T(==)>(s: set<T>) returns (r: seq<T>)
    ensures multiset(r) == multiset(s)
  {
    r := [];
    var todo := s;
    while todo != {}
      invariant todo <= s
      invariant multiset(r) == multiset(s - todo)
    {
      var t :| t in todo;
      r, todo := r + [t], todo - {t};
    }
    assert s - {} == s;
  }

  /** conditionalTargetsOf, as the array its callers loop over. */
  method ConditionalTargetsOf(g: Graph, fallback: map<Id, set<Id>>, from: Id) returns (targets: seq<Id>)
    requires IsFallbackMap(g, fallback)
    ensures multiset(targets) == ListedByConditional(g, from)
  {
    if Analysable(g, from) {
      targets := g.info[from].targets;
    } else if from in fallback {
      targets := Enumerate(fallback[from]);
    } else {
      targets := [];
    }
  }

  /** What one edge makes `from` claim, before the back-edge test. */
  method TargetsOf(g: Graph, fallback: map<Id, set<Id>>, from: Id, e: Edge) returns (targets: seq<Id>)
    requires IsFallbackMap(g, fallback)
    ensures multiset(targets) == Listed(g, from, e)
  {
    match e
    case Direct(End) => targets := [];
    case Direct(To(id)) => targets := [id];
    case Conditional(_) => targets := ConditionalTargetsOf(g, fallback, from);
  }

  /** `after` is `before` plus one claim of `from` per listing that does not run against the flow. */
  ghost predicate Added(g: Graph, before: PendingClaims, after: PendingClaims, from: Id, listed: multiset<Id>) {
    && before.Keys == after.Keys == (set n | n in g.nodes)
    && forall n | n in g.nodes ::
         AddedAt(before[n], after[n], from, if Reaches(g, n, from) then 0 else listed[n])
  }

  ghost predicate AddedAt(before: map<Id, nat>, after: map<Id, nat>, from: Id, amount: nat) {
    && Held(after, from) == Held(before, from) + amount
    && (forall s | s != from :: Held(after, s) == Held(before, s))
    && (Positive(before) ==> Positive(after))
  }

  ghost predicate Positive(bySource: map<Id, nat>) {
    forall s | s in bySource :: bySource[s] > 0
  }

  lemma AddedThen(g: Graph, a: PendingClaims, b: PendingClaims, c: PendingClaims, from: Id,
                  first: multiset<Id>, second: multiset<Id>)
    requires Added(g, a, b, from, first) && Added(g, b, c, from, second)
    ensures Added(g, a, c, from, first + second)
  {
    forall n | n in g.nodes
      ensures AddedAt(a[n], c[n], from, if Reaches(g, n, from) then 0 else (first + second)[n])
    {
      assert AddedAt(a[n], b[n], from, if Reaches(g, n, from) then 0 else first[n]);
      assert AddedAt(b[n], c[n], from, if Reaches(g, n, from) then 0 else second[n]);
    }
  }

  /** The body of the source's `add`, guarded against back-edges. */
  method AddClaim(g: Graph, forward: map<Id, set<Id>>, claims: PendingClaims, from: Id, target: Id)
    returns (result: PendingClaims)
    requires IsForwardMap(g, forward)
    requires claims.Keys == (set n | n in g.nodes)
    ensures Added(g, claims, result, from, multiset{target})
  {
    if IsDownstreamOf(forward, from, target) || target !in claims { return claims; }
    var bySource: map<Id, nat> := claims[target][from := Held(claims[target], from) + 1];
    result := claims[target := bySource];
  }

  method AddClaims(g: Graph, forward: map<Id, set<Id>>, claims: PendingClaims, from: Id, targets: seq<Id>)
    returns (result: PendingClaims)
    requires IsForwardMap(g, forward)
    requires claims.Keys == (set n | n in g.nodes)
    ensures Added(g, claims, result, from, multiset(targets))
  {
    result := claims;
    for j := 0 to |targets|
      invariant Added(g, claims, result, from, multiset(targets[..j]))
    {
      ghost var before := result;
      result := AddClaim(g, forward, result, from, targets[j]);
      AddedThen(g, claims, before, result, from, multiset(targets[..j]), multiset{targets[j]});
      assert targets[..j + 1] == targets[..j] + [targets[j]];
    }
    assert targets[..|targets|] == targets;
  }

  method AddSourceClaims(g: Graph, forward: map<Id, set<Id>>, fallback: map<Id, set<Id>>,
                         claims: PendingClaims, from: Id)
    returns (result: PendingClaims)
    requires IsForwardMap(g, forward) && IsFallbackMap(g, fallback)
    requires claims.Keys == (set n | n in g.nodes)
    ensures Added(g, claims, result, from, ListedBy(g, from, EdgesOf(g, from)))
  {
    var edges := EdgesOf(g, from);
    result := claims;
    for k := 0 to |edges|
      invariant Added(g, claims, result, from, ListedBy(g, from, edges[..k]))
    {
      var targets := TargetsOf(g, fallback, from, edges[k]);
      ghost var before := result;
      result := AddClaims(g, forward, result, from, targets);
      AddedThen(g, claims, before, result, from, ListedBy(g, from, edges[..k]), Listed(g, from, edges[k]));
      assert edges[..k + 1][..k] == edges[..k];
    }
    assert edges[..|edges|] == edges;
  }

  ghost predicate IsFallbackMap(g: Graph, fallback: map<Id, set<Id>>) {
    && fallback.Keys == (set n | n in g.nodes)
    && forall n | n in fallback :: fallback[n] == Forward(g, n) - {n}
  }

  /** `claims` holds what the sources outside `todo` claim, and nothing else. */
  ghost predicate ClaimedExcept(g: Graph, claims: PendingClaims, todo: set<Id>) {
    && claims.Keys == (set n | n in g.nodes)
    && forall n | n in g.nodes :: ClaimedExceptAt(g, claims[n], n, todo)
  }

  ghost predicate ClaimedExceptAt(g: Graph, bySource: map<Id, nat>, n: Id, todo: set<Id>) {
    && Positive(bySource)
    && forall s :: Held(bySource, s) == (if s in todo then 0 else ClaimCount(g, s, n))
  }

  lemma SourceDone(g: Graph, before: PendingClaims, after: PendingClaims, todo: set<Id>, from: Id)
    requires ClaimedExcept(g, before, todo) && from in todo
    requires Added(g, before, after, from, ListedBy(g, from, EdgesOf(g, from)))
    ensures ClaimedExcept(g, after, todo - {from})
  {
    hide Reaches, ListedBy, EdgesOf;
    forall n | n in g.nodes ensures ClaimedExceptAt(g, after[n], n, todo - {from}) {
      assert AddedAt(before[n], after[n], from, ClaimCount(g, from, n));
      assert ClaimedExceptAt(g, before[n], n, todo);
    }
  }

  lemma AllSourcesDone(g: Graph, claims: PendingClaims)
    requires ClaimedExcept(g, claims, {})
    ensures claims == StaticClaims(g)
  {
    forall n | n in g.nodes ensures claims[n] == StaticClaims(g)[n] {
      assert ClaimedExceptAt(g, claims[n], n, {});
      SameHeld(claims[n], StaticClaims(g)[n]);
    }
  }

  lemma SameHeld(a: map<Id, nat>, b: map<Id, nat>)
    requires Positive(a) && Positive(b)
    requires forall s :: Held(a, s) == Held(b, s)
    ensures a == b
  {
    forall s ensures s in a <==> s in b { assert Held(a, s) == Held(b, s); }
    forall s | s in a ensures a[s] == b[s] { assert Held(a, s) == Held(b, s); }
  }

  method ComputeStaticClaims(g: Graph, forward: map<Id, set<Id>>, fallback: map<Id, set<Id>>)
    returns (claims: PendingClaims)
    requires IsForwardMap(g, forward) && IsFallbackMap(g, fallback)
    ensures claims == StaticClaims(g)
  {
    claims := map n | n in g.nodes :: map[];
    var todo := g.edges.Keys;
    assert ClaimedExcept(g, claims, todo);
    while todo != {}
      invariant ClaimedExcept(g, claims, todo)
    {
      var from :| from in todo;
      ghost var before := claims;
      claims := AddSourceClaims(g, forward, fallback, claims, from);
      SourceDone(g, before, claims, todo, from);
      todo := todo - {from};
    }
    AllSourcesDone(g, claims);
  }
}
