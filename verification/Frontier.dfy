/** computeNextFrontier: wave reset, claim release and AND fan-in readiness. */
module Frontier {
  import opened Collections
  import opened Graphs
  import opened Claims

  /** An edge whose claim on `to` was released when `from` ran; `selected` if it routed there. */
  datatype FiredEdge = FiredEdge(from: Id, to: Id, selected: bool)

  /** The three collections computeNextFrontier updates, as a value. */
  datatype Book = Book(remaining: PendingClaims, executed: set<Id>, selected: set<Id>)

  // ----- Specification -----

  /** Nodes that were routed to although they already ran. */
  function ResetTargets(fired: set<FiredEdge>, executed: set<Id>): set<Id> {
    set f | f in fired && f.selected && f.to in executed :: f.to
  }

  /** Everything downstream of a reset target. */
  ghost function ResetNodes(g: Graph, targets: set<Id>): set<Id> {
    set t, n | t in targets && n in Forward(g, t) :: n
  }

  predicate FiredBetween(fired: set<FiredEdge>, s: Id, n: Id) {
    FiredEdge(s, n, true) in fired || FiredEdge(s, n, false) in fired
  }

  /** The new count of source `s` on node `n`, in one rule: a reset target waits for nobody,
      a source that will re-run claims again what is reset with it, and any other source
      that fired is done. */
  ghost function SettledClaim(g: Graph, targets: set<Id>, reset: set<Id>, fired: set<FiredEdge>,
                              n: Id, s: Id, count: nat): nat {
    if n in targets then 0
    else if s in reset then (if n in reset then ClaimCount(g, s, n) else count)
    else if FiredBetween(fired, s, n) then 0
    else count
  }

  ghost function SettledClaims(g: Graph, targets: set<Id>, reset: set<Id>, fired: set<FiredEdge>,
                               n: Id, bySource: map<Id, nat>): map<Id, nat> {
    map s | s in bySource :: SettledClaim(g, targets, reset, fired, n, s, bySource[s])
  }

  ghost function NewlyRouted(targets: set<Id>, reset: set<Id>, fired: set<FiredEdge>): set<Id> {
    set f | f in fired && f.selected && f.from !in reset && f.to !in targets :: f.to
  }

  /** The whole effect of computeNextFrontier on its three collections. */
  ghost function NextBook(g: Graph, b: Book, fired: set<FiredEdge>): Book {
    var targets := ResetTargets(fired, b.executed);
    var reset := ResetNodes(g, targets);
    Book(map n | n in b.remaining :: SettledClaims(g, targets, reset, fired, n, b.remaining[n]),
         b.executed - reset,
         b.selected - reset + targets + NewlyRouted(targets, reset, fired))
  }

  predicate Quiet(bySource: map<Id, nat>) {
    forall s | s in bySource :: bySource[s] == 0
  }

  predicate Ready(b: Book, n: Id) {
    n in b.remaining && Quiet(b.remaining[n]) && n in b.selected && n !in b.executed
  }

  /** The ready nodes in declaration order. */
  function ReadyNodes(b: Book, nodes: seq<Id>): (r: seq<Id>)
    ensures forall n :: n in r <==> n in nodes && Ready(b, n)
    ensures Distinct(nodes) ==> Distinct(r)
  {
    if nodes == [] then []
    else
      var rest := ReadyNodes(b, nodes[..|nodes| - 1]);
      var last := nodes[|nodes| - 1];
      assert nodes == nodes[..|nodes| - 1] + [last];
      if Ready(b, last) then rest + [last] else rest
  }

  // ----- Claim totals -----

  /** The flat number the journal and the readiness test see. */
  ghost function Total(m: map<Id, nat>): nat {
    if m == map[] then 0
    else
      var s :| s in m;
      m[s] + Total(m - {s})
  }

  lemma {:induction false} TotalWithout(m: map<Id, nat>, s: Id)
    requires s in m
    ensures Total(m) == m[s] + Total(m - {s})
    decreases |m|
  {
    var t :| t in m && Total(m) == m[t] + Total(m - {t});
    if t != s {
      TotalWithout(m - {t}, s);
      TotalWithout(m - {s}, t);
      assert m - {t} - {s} == m - {s} - {t};
    }
  }

  lemma {:induction false} TotalZeroIffQuiet(m: map<Id, nat>)
    ensures Total(m) == 0 <==> Quiet(m)
    decreases |m|
  {
    if s :| s in m {
      TotalWithout(m, s);
      TotalZeroIffQuiet(m - {s});
      assert forall t | t in m && t != s :: t in m - {s} && (m - {s})[t] == m[t];
      assert forall t | t in m - {s} :: t in m && (m - {s})[t] == m[t];
    }
  }

  method TotalClaims(bySource: map<Id, nat>) returns (total: nat)
    ensures total == Total(bySource)
  {
    total := 0;
    var todo := bySource;
    while todo != map[]
      invariant total + Total(todo) == Total(bySource)
      decreases |todo|
    {
      var s :| s in todo;
      TotalWithout(todo, s);
      total := total + todo[s];
      todo := todo - {s};
    }
  }

  // ----- The algorithm -----

  class PendingBook {
    var remaining: PendingClaims
    var executed: set<Id>
    var selected: set<Id>

    constructor (remaining: PendingClaims, executed: set<Id>, selected: set<Id>)
      ensures Contents() == Book(remaining, executed, selected)
    {
      this.remaining, this.executed, this.selected := remaining, executed, selected;
    }

    function Contents(): Book
      reads this
    {
      Book(remaining, executed, selected)
    }

    /** Step 3 for one node: sources that will re-run claim it again. */
    method RestoreNode(statics: PendingClaims, node: Id, reset: set<Id>)
      requires node in remaining && node in statics
      modifies this`remaining
      ensures remaining == old(remaining)[node := Restored(statics[node], old(remaining)[node], reset)]
    {
      ghost var was := remaining[node];
      var todo := remaining[node].Keys;
      while todo != {}
        invariant todo <= was.Keys && remaining.Keys == old(remaining.Keys)
        invariant remaining == old(remaining)[node := remaining[node]]
        invariant remaining[node] == Restored(statics[node], was, reset - todo)
      {
        var source :| source in todo;
        if source in reset {
          var bySource: map<Id, nat> := remaining[node][source := Held(statics[node], source)];
          remaining := remaining[node := bySource];
        }
        todo := todo - {source};
      }
      assert remaining[node] == Restored(statics[node], was, reset);
    }

    /** Step 3: the subgraph forgets that it ran and was selected. */
    method RestoreAll(statics: PendingClaims, reset: set<Id>)
      requires statics.Keys == remaining.Keys
      modifies this
      ensures remaining.Keys == old(remaining.Keys)
      ensures forall n | n in remaining :: remaining[n] == RestoredAt(statics, old(remaining), n, reset, reset)
      ensures executed == old(executed) - reset && selected == old(selected) - reset
    {
      var todo := reset;
      while todo != {}
        invariant todo <= reset && remaining.Keys == old(remaining.Keys)
        invariant forall n | n in remaining ::
          remaining[n] == RestoredAt(statics, old(remaining), n, reset - todo, reset)
        invariant executed == old(executed) - (reset - todo) && selected == old(selected) - (reset - todo)
      {
        var node :| node in todo;
        if node in remaining { RestoreNode(statics, node, reset); }
        executed, selected := executed - {node}, selected - {node};
        todo := todo - {node};
      }
    }

    /** Step 3, second loop: a reset target is routed to and ready. */
    method ForceTargets(targets: set<Id>)
      modifies this
      ensures remaining.Keys == old(remaining.Keys)
      ensures forall n | n in remaining :: remaining[n] == ForcedAt(old(remaining)[n], n, targets)
      ensures executed == old(executed) - targets && selected == old(selected) + targets
    {
      var todo := targets;
      while todo != {}
        invariant todo <= targets && remaining.Keys == old(remaining.Keys)
        invariant forall n | n in remaining :: remaining[n] == ForcedAt(old(remaining)[n], n, targets - todo)
        invariant executed == old(executed) - (targets - todo) && selected == old(selected) + (targets - todo)
      {
        var target :| target in todo;
        if target in remaining {
          var bySource := Zeroed(remaining[target]);
          remaining := remaining[target := bySource];
        }
        executed, selected := executed - {target}, selected + {target};
        todo := todo - {target};
      }
    }

    /** Step 4 for one normal edge. */
    method ReleaseOne(fired: FiredEdge, targets: set<Id>, reset: set<Id>)
      modifies this`remaining, this`selected
      ensures remaining.Keys == old(remaining.Keys)
      ensures forall n | n in remaining :: remaining[n] == ReleasedAt(old(remaining)[n], n, fired, targets, reset)
      ensures selected == old(selected) + RoutedBy([fired], targets, reset)
    {
      assert fired in [fired];
      if fired.from !in reset && fired.to !in targets {
        if fired.to in remaining && fired.from in remaining[fired.to] {
          var bySource: map<Id, nat> := remaining[fired.to][fired.from := 0];
          remaining := remaining[fired.to := bySource];
        }
        if fired.selected { selected := selected + {fired.to}; }
      }
    }

    /** Step 4: a source that fired, and will not re-run, releases all it holds on the target. */
    method ReleaseFired(normal: seq<FiredEdge>, targets: set<Id>, reset: set<Id>)
      modifies this`remaining, this`selected
      ensures remaining.Keys == old(remaining.Keys)
      ensures forall n | n in remaining :: remaining[n] == Released(normal, targets, reset, n, old(remaining)[n])
      ensures selected == old(selected) + RoutedBy(normal, targets, reset)
    {
      for k := 0 to |normal|
        invariant remaining.Keys == old(remaining.Keys)
        invariant forall n | n in remaining ::
          remaining[n] == Released(normal[..k], targets, reset, n, old(remaining)[n])
        invariant selected == old(selected) + RoutedBy(normal[..k], targets, reset)
      {
        assert normal[..k + 1] == normal[..k] + [normal[k]];
        ReleaseStep(normal[..k], normal[k], targets, reset);
        forall n | n in remaining
          ensures Released(normal[..k + 1], targets, reset, n, old(remaining)[n]) ==
            ReleasedAt(remaining[n], n, normal[k], targets, reset)
        {
          ReleasedStep(normal[..k], normal[k], targets, reset, n, old(remaining)[n]);
        }
        ReleaseOne(normal[k], targets, reset);
      }
      assert normal[..|normal|] == normal;
    }

    method ComputeNextFrontier(g: Graph, fired: seq<FiredEdge>, statics: PendingClaims, forward: map<Id, set<Id>>)
      returns (next: seq<Id>)
      requires IsForwardMap(g, forward) && statics == StaticClaims(g)
      requires remaining.Keys == (set n | n in g.nodes) && executed <= remaining.Keys
      modifies this
      ensures Contents() == NextBook(g, old(Contents()), Elements(fired))
      ensures remaining.Keys == old(remaining.Keys) && executed <= old(executed)
      ensures next == ReadyNodes(Contents(), g.nodes)
    {
      ghost var before := Contents();
      var targets, normal := Partition(fired, executed);
      var reset := UnionOfReach(g, targets, forward);
      RestoreAll(statics, reset);
      ForceTargets(targets);
      ReleaseFired(normal, targets, reset);
      StepsAreSettled(g, before, Contents(), fired, normal, targets, reset);
      next := SelectReady(g.nodes);
    }

    /** Step 5, in map order, which is declaration order. */
    method SelectReady(nodes: seq<Id>) returns (next: seq<Id>)
      requires remaining.Keys == (set n | n in nodes)
      ensures next == ReadyNodes(Contents(), nodes)
    {
      next := [];
      for k := 0 to |nodes|
        invariant next == ReadyNodes(Contents(), nodes[..k])
      {
        assert nodes[..k + 1][..k] == nodes[..k];
        var total := TotalClaims(remaining[nodes[k]]);
        TotalZeroIffQuiet(remaining[nodes[k]]);
        if total == 0 && nodes[k] in selected && nodes[k] !in executed { next := next + [nodes[k]]; }
      }
      assert nodes[..|nodes|] == nodes;
    }
  }

  function Elements(fired: seq<FiredEdge>): set<FiredEdge> {
    set f | f in fired
  }

  function Restored(statics: map<Id, nat>, was: map<Id, nat>, reset: set<Id>): map<Id, nat> {
    map s | s in was :: if s in reset then Held(statics, s) else was[s]
  }

  function RestoredAt(statics: PendingClaims, was: PendingClaims, n: Id, done: set<Id>, reset: set<Id>): map<Id, nat>
    requires n in was && n in statics
  {
    if n in done then Restored(statics[n], was[n], reset) else was[n]
  }

  function ForcedAt(was: map<Id, nat>, n: Id, targets: set<Id>): map<Id, nat> {
    if n in targets then Zeroed(was) else was
  }

  function Zeroed(was: map<Id, nat>): map<Id, nat> {
    map s | s in was :: 0
  }

  function Released(normal: seq<FiredEdge>, targets: set<Id>, reset: set<Id>, n: Id, was: map<Id, nat>): map<Id, nat> {
    map s | s in was ::
      if n !in targets && s !in reset && FiredBetween(Elements(normal), s, n) then 0 else was[s]
  }

  function ReleasedAt(was: map<Id, nat>, n: Id, f: FiredEdge, targets: set<Id>, reset: set<Id>): map<Id, nat> {
    if n == f.to && n !in targets && f.from !in reset && f.from in was then was[f.from := 0] else was
  }

  lemma ReleasedStep(normal: seq<FiredEdge>, f: FiredEdge, targets: set<Id>, reset: set<Id>, n: Id, was: map<Id, nat>)
    ensures Released(normal + [f], targets, reset, n, was) ==
      ReleasedAt(Released(normal, targets, reset, n, was), n, f, targets, reset)
  {
    assert Elements(normal + [f]) == Elements(normal) + {f} by { ReleaseStep(normal, f, targets, reset); }
    assert FiredEdge(f.from, f.to, f.selected) == f;
  }

  function RoutedBy(normal: seq<FiredEdge>, targets: set<Id>, reset: set<Id>): set<Id> {
    set f | f in normal && f.selected && f.from !in reset && f.to !in targets :: f.to
  }

  lemma ReleaseStep(normal: seq<FiredEdge>, fired: FiredEdge, targets: set<Id>, reset: set<Id>)
    ensures Elements(normal + [fired]) == Elements(normal) + {fired}
    ensures RoutedBy(normal + [fired], targets, reset) ==
      RoutedBy(normal, targets, reset) + RoutedBy([fired], targets, reset)
  {
    assert forall f :: f in normal + [fired] <==> f in normal || f == fired;
    forall n ensures n in RoutedBy(normal + [fired], targets, reset) <==>
      n in RoutedBy(normal, targets, reset) || n in RoutedBy([fired], targets, reset)
    {
      if n in RoutedBy(normal, targets, reset) {
        var f :| f in normal && f.selected && f.from !in reset && f.to !in targets && f.to == n;
        assert f in normal + [fired];
      }
      if n in RoutedBy([fired], targets, reset) { assert fired in normal + [fired]; }
    }
  }

  method Partition(fired: seq<FiredEdge>, executed: set<Id>) returns (targets: set<Id>, normal: seq<FiredEdge>)
    ensures targets == ResetTargets(Elements(fired), executed)
    ensures forall f :: f in normal <==> f in fired && !(f.selected && f.to in executed)
  {
    targets, normal := {}, [];
    for k := 0 to |fired|
      invariant targets == ResetTargets(Elements(fired[..k]), executed)
      invariant forall f :: f in normal <==> f in fired[..k] && !(f.selected && f.to in executed)
    {
      assert fired[..k + 1] == fired[..k] + [fired[k]];
      ReleaseStep(fired[..k], fired[k], {}, {});
      if fired[k].selected && fired[k].to in executed {
        targets := targets + {fired[k].to};
      } else {
        normal := normal + [fired[k]];
      }
    }
    assert fired[..|fired|] == fired;
  }

  method UnionOfReach(g: Graph, targets: set<Id>, forward: map<Id, set<Id>>) returns (reset: set<Id>)
    requires IsForwardMap(g, forward) && targets <= forward.Keys
    ensures reset == ResetNodes(g, targets)
  {
    reset := {};
    var todo := targets;
    while todo != {}
      invariant todo <= targets
      invariant reset == ResetNodes(g, targets - todo)
    {
      var target :| target in todo;
      assert forward[target] == Forward(g, target);
      reset := reset + forward[target];
      todo := todo - {target};
    }
    assert targets - todo == targets;
  }

  /** The three update steps together are the one-line rule SettledClaim. */
  lemma StepsAreSettled(g: Graph, before: Book, after: Book, fired: seq<FiredEdge>, normal: seq<FiredEdge>,
                        targets: set<Id>, reset: set<Id>)
    requires before.remaining.Keys == after.remaining.Keys == (set n | n in g.nodes)
    requires targets == ResetTargets(Elements(fired), before.executed) && reset == ResetNodes(g, targets)
    requires forall f :: f in normal <==> f in fired && !(f.selected && f.to in before.executed)
    requires forall n | n in after.remaining ::
      var restored := RestoredAt(StaticClaims(g), before.remaining, n, reset, reset);
      after.remaining[n] == Released(normal, targets, reset, n, ForcedAt(restored, n, targets))
    requires after.executed == before.executed - reset - targets
    requires after.selected == before.selected - reset + targets + RoutedBy(normal, targets, reset)
    ensures after == NextBook(g, before, Elements(fired))
  {
    forall n | n in targets ensures n in reset {
      ReachesSelf(g, n);
      assert n in Forward(g, n);
    }
    forall n | n in after.remaining
      ensures after.remaining[n] == SettledClaims(g, targets, reset, Elements(fired), n, before.remaining[n])
    {
      SettledAt(g, before.remaining, before.executed, fired, normal, targets, reset, n);
    }
    assert RoutedBy(normal, targets, reset) == NewlyRouted(targets, reset, Elements(fired));
  }

  lemma SettledAt(g: Graph, was: PendingClaims, executed: set<Id>, fired: seq<FiredEdge>, normal: seq<FiredEdge>,
                  targets: set<Id>, reset: set<Id>, n: Id)
    requires was.Keys == (set m | m in g.nodes) && n in was
    requires targets == ResetTargets(Elements(fired), executed) && targets <= reset
    requires forall f :: f in normal <==> f in fired && !(f.selected && f.to in executed)
    ensures Released(normal, targets, reset, n, ForcedAt(RestoredAt(StaticClaims(g), was, n, reset, reset), n, targets)) ==
      SettledClaims(g, targets, reset, Elements(fired), n, was[n])
  {
    if n !in targets {
      forall s ensures FiredBetween(Elements(normal), s, n) <==> FiredBetween(Elements(fired), s, n) {
        assert FiredEdge(s, n, true) in fired ==> n !in executed;
      }
    }
    forall s ensures Held(StaticClaims(g)[n], s) == ClaimCount(g, s, n) {}
  }
}
