/** Static extraction of the nodes a conditional edge can route to, and its soundness. */
module EdgeTargets {
  import opened Values
  import opened Graphs
  import opened Claims
  import opened EdgeResolution
  import opened Scripts

  // ----- Which expressions become the return value -----

  function Returns(a: Ast): seq<Ast>
    decreases a, |Children(a)| + 1
  {
    (if a.Return? then OptionalChild(a.argument) else []) +
    (if IsFunction(a) then [] else ReturnsOfAll(a, Children(a)))
  }

  function ReturnsOfAll(parent: Ast, children: seq<Ast>): seq<Ast>
    requires PartsOf(children, parent)
    decreases parent, |children|
  {
    if children == [] then []
    else
      Returns(children[0]) + ReturnsOfAll(parent, children[1..])
  }

  /** collectReturnedExpressions: an expression body itself, or the returns of a block,
      nested functions excluded. */
  function ReturnedExpressions(body: Ast): seq<Ast> {
    if body.Block? then Returns(body) else [body]
  }

  method WalkReturns(a: Ast, returned: seq<Ast>) returns (result: seq<Ast>)
    ensures result == returned + Returns(a)
    decreases a, |Children(a)| + 1
  {
    hide ReturnsOfAll, Children;
    var own := if a.Return? then OptionalChild(a.argument) else [];
    result := returned + own;
    if IsFunction(a) {
      assert own + [] == own;
    } else {
      Regroup(returned, own, ReturnsOfAll(a, Children(a)));
      result := WalkChildren(a, Children(a), result);
    }
  }

  method WalkChildren(parent: Ast, children: seq<Ast>, returned: seq<Ast>) returns (result: seq<Ast>)
    requires PartsOf(children, parent)
    ensures result == returned + ReturnsOfAll(parent, children)
    decreases parent, |children|
  {
    hide Returns, Children, ReturnsOfAll;
    result := returned;
    ghost var before := [];
    ReturnsOfNone(parent);
    for i := 0 to |children|
      invariant result == returned + before
      invariant before + ReturnsOfAll(parent, children[i..]) == ReturnsOfAll(parent, children)
    {
      ghost var rest := children[i..];
      assert rest[0] == children[i] && rest[1..] == children[i + 1..] && PartsOf(rest, parent);
      ReturnsOfFirst(parent, rest);
      assert children[i] < parent;
      Regroup(before, Returns(children[i]), ReturnsOfAll(parent, children[i + 1..]));
      Regroup(returned, before, Returns(children[i]));
      before := before + Returns(children[i]);
      result := WalkReturns(children[i], result);
    }
    assert children[|children|..] == [] && before + [] == before;
  }

  lemma Regroup(a: seq<Ast>, b: seq<Ast>, c: seq<Ast>)
    ensures (a + b) + c == a + (b + c)
  {
  }

  lemma ReturnsOfNone(parent: Ast)
    ensures ReturnsOfAll(parent, []) == []
  {
  }

  lemma ReturnsOfFirst(parent: Ast, children: seq<Ast>)
    requires PartsOf(children, parent) && children != []
    ensures ReturnsOfAll(parent, children) == Returns(children[0]) + ReturnsOfAll(parent, children[1..])
  {
    hide Returns;
  }

  method CollectReturnedExpressions(body: Ast) returns (returned: seq<Ast>)
    ensures returned == ReturnedExpressions(body)
  {
    if !body.Block? { return [body]; }
    returned := WalkReturns(body, []);
  }

  // ----- What one returned expression can evaluate to -----

  datatype Found = Found(targets: set<string>, usesEnd: bool, isDynamic: bool)

  const NOTHING_FOUND := Found({}, false, false)

  function Merge(a: Found, b: Found): Found {
    Found(a.targets + b.targets, a.usesEnd || b.usesEnd, a.isDynamic || b.isDynamic)
  }

  function Read(e: Ast): Found {
    match e
    case StringLiteral(s) => Found({s}, false, false)
    case OtherLiteral(_, _) => NOTHING_FOUND
    case Identifier(name) => if name == "END" then Found({}, true, false) else Found({}, false, true)
    case Ternary(_, consequent, alternate) => Merge(Read(consequent), Read(alternate))
    case Logical(_, left, right) => Merge(Read(left), Read(right))
    case Template(quasis, expressions) => if expressions == [] then Found({Concat(quasis)}, false, false) else Found({}, false, true)
    case _ => Found({}, false, true)
  }

  function ReadAll(es: seq<Ast>): Found {
    if es == [] then NOTHING_FOUND else Merge(ReadAll(es[..|es| - 1]), Read(es[|es| - 1]))
  }

  /** readReturnedValue, which adds to the accumulator it is given. */
  method ReadReturnedValue(e: Ast, found: Found) returns (result: Found)
    ensures result == Merge(found, Read(e))
  {
    result := found;
    match e
    case StringLiteral(s) => result := result.(targets := result.targets + {s});
    case OtherLiteral(_, _) =>
    case Identifier(name) =>
      if name == "END" { result := result.(usesEnd := true); } else { result := result.(isDynamic := true); }
    case Ternary(_, consequent, alternate) =>
      result := ReadReturnedValue(consequent, result);
      result := ReadReturnedValue(alternate, result);
    case Logical(_, left, right) =>
      result := ReadReturnedValue(left, result);
      result := ReadReturnedValue(right, result);
    case Template(quasis, expressions) =>
      if expressions == [] { result := result.(targets := result.targets + {Concat(quasis)}); }
      else { result := result.(isDynamic := true); }
    case _ => result := result.(isDynamic := true);
  }

  // ----- The whole script -----

  /** What one edge call says about its source. */
  datatype Contribution = Contribution(from: string, found: Found)

  /** `g.edge("from", fn)`: only a literal, non-empty source with a non-direct target counts. */
  function Contributes(a: Ast): Option<Contribution> {
    if a.Call? && a.callee.Member? && a.callee.property == Identifier("edge")
       && |a.arguments| >= 2 && a.arguments[0].StringLiteral? && a.arguments[0].text != "" then
      var from, target := a.arguments[0].text, a.arguments[1];
      if target.StringLiteral? || target.OtherLiteral? || target == Identifier("END") then None
      else if target.Arrow? then Some(Contribution(from, ReadAll(ReturnedExpressions(target.arrowBody))))
      else if target.FunctionExpression? then Some(Contribution(from, ReadAll(ReturnedExpressions(target.functionBody))))
      else Some(Contribution(from, Found({}, false, true)))
    else None
  }

  datatype Entry = Entry(targets: set<string>, usesEnd: bool, analysable: bool)

  function EntryOf(bySource: map<string, Entry>, from: string): Entry {
    if from in bySource then bySource[from] else Entry({}, false, true)
  }

  function AddContribution(bySource: map<string, Entry>, c: Contribution, declared: set<string>): map<string, Entry> {
    var e := EntryOf(bySource, c.from);
    bySource[c.from := Entry(e.targets + c.found.targets * declared, e.usesEnd || c.found.usesEnd, e.analysable && !c.found.isDynamic)]
  }

  function AddNode(bySource: map<string, Entry>, a: Ast, declared: set<string>): map<string, Entry> {
    match Contributes(a)
    case None => bySource
    case Some(c) => AddContribution(bySource, c, declared)
  }

  /** The node and everything below it, nested functions included, in visiting order. */
  function AllNodes(a: Ast): seq<Ast>
    decreases a, |Children(a)| + 1
  {
    [a] + AllNodesOf(a, Children(a))
  }

  function AllNodesOf(parent: Ast, children: seq<Ast>): seq<Ast>
    requires PartsOf(children, parent)
    decreases parent, |children|
  {
    if children == [] then []
    else
      AllNodes(children[0]) + AllNodesOf(parent, children[1..])
  }

  function AddNodes(bySource: map<string, Entry>, nodes: seq<Ast>, declared: set<string>): map<string, Entry> {
    if nodes == [] then bySource else AddNode(AddNodes(bySource, nodes[..|nodes| - 1], declared), nodes[|nodes| - 1], declared)
  }

  function Extracted(script: Ast, declared: set<string>): map<string, Entry> {
    AddNodes(map[], AllNodes(script), declared)
  }

  lemma {:induction false} AddNodesAppend(m: map<string, Entry>, a: seq<Ast>, b: seq<Ast>, declared: set<string>)
    ensures AddNodes(m, a + b, declared) == AddNodes(AddNodes(m, a, declared), b, declared)
  {
    if b == [] {
      assert a + b == a;
    } else {
      assert (a + b)[..|a + b| - 1] == a + b[..|b| - 1];
      AddNodesAppend(m, a, b[..|b| - 1], declared);
    }
  }

  lemma AddSingle(m: map<string, Entry>, a: Ast, declared: set<string>)
    ensures AddNodes(m, [a], declared) == AddNode(m, a, declared)
  {
    assert [a][..0] == [];
  }

  class Extraction {
    var bySource: map<string, Entry>

    constructor ()
      ensures bySource == map[]
    {
      bySource := map[];
    }

    method Visit(a: Ast, declared: set<string>)
      modifies this
      ensures bySource == AddNodes(old(bySource), AllNodes(a), declared)
      decreases a, |Children(a)| + 1
    {
      hide AddNode, AddNodes;
      RecordEdgeCall(a, declared);
      AddSingle(old(bySource), a, declared);
      VisitAll(a, Children(a), declared);
      AddNodesAppend(old(bySource), [a], AllNodesOf(a, Children(a)), declared);
    }

    method VisitAll(parent: Ast, children: seq<Ast>, declared: set<string>)
      requires PartsOf(children, parent)
      modifies this
      ensures bySource == AddNodes(old(bySource), AllNodesOf(parent, children), declared)
      decreases parent, |children|
    {
      hide AddNode, AllNodes;
      if children != [] {
        Visit(children[0], declared);
        VisitAll(parent, children[1..], declared);
        AddNodesAppend(old(bySource), AllNodes(children[0]), AllNodesOf(parent, children[1..]), declared);
      }
    }

    method RecordEdgeCall(a: Ast, declared: set<string>)
      modifies this
      ensures bySource == AddNode(old(bySource), a, declared)
    {
      hide ReadAll, ReturnedExpressions;
      if !(a.Call? && a.callee.Member? && a.callee.property == Identifier("edge")) { return; }
      if |a.arguments| < 2 || !a.arguments[0].StringLiteral? || a.arguments[0].text == "" { return; }
      var from, target := a.arguments[0].text, a.arguments[1];
      if target.StringLiteral? || target.OtherLiteral? || target == Identifier("END") { return; }
      var found := Found({}, false, true);
      if target.Arrow? {
        found := FindTargets(target.arrowBody);
      } else if target.FunctionExpression? {
        found := FindTargets(target.functionBody);
      }
      var entry := EntryOf(bySource, from);
      bySource := bySource[from := Entry(entry.targets + found.targets * declared, entry.usesEnd || found.usesEnd,
                                         entry.analysable && !found.isDynamic)];
    }
  }

  method FindTargets(body: Ast) returns (found: Found)
    ensures found == ReadAll(ReturnedExpressions(body))
  {
    var returned := CollectReturnedExpressions(body);
    found := NOTHING_FOUND;
    for i := 0 to |returned|
      invariant found == ReadAll(returned[..i])
    {
      assert returned[..i + 1][..i] == returned[..i];
      found := ReadReturnedValue(returned[i], found);
    }
    assert returned[..|returned|] == returned;
  }

  method ExtractConditionalTargets(script: Ast, declared: set<string>) returns (bySource: map<string, Entry>)
    ensures bySource == Extracted(script, declared)
  {
    var extraction := new Extraction();
    extraction.Visit(script, declared);
    return extraction.bySource;
  }

  // ----- Soundness -----

  /** The value is one that reading the expression predicted. */
  predicate Predicted(v: Js, found: Found) {
    match v
    case JsString(s) => s in found.targets
    case JsEnd => found.usesEnd
    case JsOther(_, _, _) => true
  }

  /** Reading an expression that is not dynamic predicts its every value. */
  lemma {:induction false} ReadIsSound(e: Ast, w: World, t: nat)
    requires !Read(e).isDynamic
    ensures Eval(e, w, t).0.Value? ==> Predicted(Eval(e, w, t).0.v, Read(e))
  {
    match e
    case Ternary(test, consequent, alternate) =>
      ReadIsSound(consequent, w, t + 1);
      ReadIsSound(alternate, w, t + 1);
    case Logical(op, left, right) =>
      ReadIsSound(left, w, t);
      ReadIsSound(right, w, Eval(left, w, t).1);
    case _ =>
  }

  lemma {:induction false} ReadAllCovers(es: seq<Ast>, i: nat)
    requires i < |es|
    ensures Read(es[i]).targets <= ReadAll(es).targets
    ensures Read(es[i]).usesEnd ==> ReadAll(es).usesEnd
    ensures Read(es[i]).isDynamic ==> ReadAll(es).isDynamic
  {
    if i < |es| - 1 { ReadAllCovers(es[..|es| - 1], i); }
  }

  /** The value is undefined, or some collected expression evaluates to it at some time. */
  ghost predicate YieldedBy(v: Js, es: seq<Ast>, w: World) {
    v == UNDEFINED_JS || exists i: nat, t: nat :: i < |es| && Eval(es[i], w, t).0 == Value(v)
  }

  lemma YieldedByMore(v: Js, es: seq<Ast>, more: seq<Ast>, w: World)
    requires YieldedBy(v, es, w) && forall e | e in es :: e in more
    ensures YieldedBy(v, more, w)
  {
    if v != UNDEFINED_JS {
      var i: nat, t: nat :| i < |es| && Eval(es[i], w, t).0 == Value(v);
      assert es[i] in more;
      var j :| 0 <= j < |more| && more[j] == es[i];
      assert Eval(more[j], w, t).0 == Value(v);
    }
  }

  lemma {:induction false} ReturnsOfChild(parent: Ast, children: seq<Ast>, c: Ast)
    requires PartsOf(children, parent) && c in children
    ensures forall e | e in Returns(c) :: e in ReturnsOfAll(parent, children)
  {
    hide Returns;
    if children[0] != c { ReturnsOfChild(parent, children[1..], c); }
  }

  /** What a part returns is collected from the whole, unless the whole is a function. */
  lemma ChildYields(v: Js, parent: Ast, c: Ast, w: World)
    requires !IsFunction(parent) && c in Children(parent) && YieldedBy(v, Returns(c), w)
    ensures YieldedBy(v, Returns(parent), w)
  {
    ReturnsOfChild(parent, Children(parent), c);
    hide YieldedBy;
    YieldedByMore(v, Returns(c), Returns(parent), w);
  }

  /** Whatever a statement returns was collected; returns of nested functions never count. */
  lemma {:induction false} ReturnsAreCollected(s: Ast, w: World, t: nat, fuel: nat, own: set<string>)
    ensures var c := Exec(s, w, t, fuel, own).0; c.Returned? ==> YieldedBy(c.value, Returns(s), w)
    decreases fuel, s, Width(s) + 1, 1
  {
    hide Exec, YieldedBy, Returns;
    match s
    case Block(statements) => BlockReturns(s, w, t, fuel, own);
    case Case(_, body) => BlockReturns(s, w, t, fuel, own);
    case Switch(_, _) => SwitchReturns(s, w, t, fuel, own);
    case Return(_) => OwnReturn(s, w, t, fuel, own);
    case If(_, _, _) => IfReturns(s, w, t, fuel, own);
    case Loop(_, _) => LoopReturns(s, w, t, fuel, own);
    case Try(_, _, _) => TryReturns(s, w, t, fuel, own);
    case Labeled(_, _) => LabeledReturns(s, w, t, fuel, own);
    case _ => OthersReturnNothing(s, w, t, fuel, own);
  }

  lemma OthersReturnNothing(s: Ast, w: World, t: nat, fuel: nat, own: set<string>)
    requires !s.Block? && !s.Case? && !s.Switch? && !s.Return? && !s.If? && !s.Loop? && !s.Try? && !s.Labeled?
    ensures !Exec(s, w, t, fuel, own).0.Returned?
  {
  }

  lemma {:induction false} BlockReturns(s: Ast, w: World, t: nat, fuel: nat, own: set<string>)
    requires s.Block? || s.Case?
    ensures var c := Exec(s, w, t, fuel, own).0; c.Returned? ==> YieldedBy(c.value, Returns(s), w)
    decreases fuel, s, Width(s) + 1, 0
  {
    hide YieldedBy, Returns, ExecSeq;
    match s
    case Block(statements) => SeqReturnsAreCollected(s, statements, w, t, fuel);
    case Case(_, body) => SeqReturnsAreCollected(s, body, w, t, fuel);
  }

  lemma {:induction false} SwitchReturns(s: Ast, w: World, t: nat, fuel: nat, own: set<string>)
    requires s.Switch?
    ensures var c := Exec(s, w, t, fuel, own).0; c.Returned? ==> YieldedBy(c.value, Returns(s), w)
    decreases fuel, s, Width(s) + 1, 0
  {
    hide YieldedBy, Returns, ExecSeq;
    var v := w(t, s.discriminant);
    if v.Value? {
      var entry := if v.v.JsOther? && v.v.choice <= |s.cases| then v.v.choice else |s.cases|;
      assert forall x | x in s.cases[entry..] :: x in s.cases;
      SeqReturnsAreCollected(s, s.cases[entry..], w, t + 1, fuel);
    }
  }

  lemma {:induction false} LoopReturns(s: Ast, w: World, t: nat, fuel: nat, own: set<string>)
    requires s.Loop?
    ensures var c := Exec(s, w, t, fuel, own).0; c.Returned? ==> YieldedBy(c.value, Returns(s), w)
    decreases fuel, s, Width(s) + 1, 0
  {
    hide YieldedBy, Returns, Truthy;
    if fuel > 0 {
      ReturnsAreCollected(s.loopBody, w, t + 1, fuel - 1, {});
      var inner := Exec(s.loopBody, w, t + 1, fuel - 1, {});
      ReturnsAreCollected(s, w, inner.1, fuel - 1, own);
      if inner.0.Returned? { ChildYields(inner.0.value, s, s.loopBody, w); }
    }
  }

  lemma {:induction false} LabeledReturns(s: Ast, w: World, t: nat, fuel: nat, own: set<string>)
    requires s.Labeled?
    ensures var c := Exec(s, w, t, fuel, own).0; c.Returned? ==> YieldedBy(c.value, Returns(s), w)
    decreases fuel, s, Width(s) + 1, 0
  {
    hide YieldedBy, Returns;
    var inner := Exec(s.labeled, w, t, fuel, own + {s.name});
    ReturnsAreCollected(s.labeled, w, t, fuel, own + {s.name});
    if inner.0.Returned? { ChildYields(inner.0.value, s, s.labeled, w); }
  }

  lemma OwnReturn(s: Ast, w: World, t: nat, fuel: nat, own: set<string>)
    requires s.Return?
    ensures var c := Exec(s, w, t, fuel, own).0; c.Returned? ==> YieldedBy(c.value, Returns(s), w)
  {
    if s.argument.Some? {
      var e := s.argument.value;
      assert Returns(s)[0] == e;
      if Eval(e, w, t).0.Value? { assert Eval(Returns(s)[0], w, t).0 == Value(Eval(e, w, t).0.v); }
    }
  }

  lemma {:induction false} IfReturns(s: Ast, w: World, t: nat, fuel: nat, own: set<string>)
    requires s.If?
    ensures var c := Exec(s, w, t, fuel, own).0; c.Returned? ==> YieldedBy(c.value, Returns(s), w)
    decreases fuel, s, Width(s) + 1, 0
  {
    hide YieldedBy, Returns, Truthy;
    var taken := Exec(s.thenBranch, w, t + 1, fuel, {});
    ReturnsAreCollected(s.thenBranch, w, t + 1, fuel, {});
    if taken.0.Returned? { ChildYields(taken.0.value, s, s.thenBranch, w); }
    if s.elseBranch.Some? {
      var other := Exec(s.elseBranch.value, w, t + 1, fuel, {});
      ReturnsAreCollected(s.elseBranch.value, w, t + 1, fuel, {});
      if other.0.Returned? { ChildYields(other.0.value, s, s.elseBranch.value, w); }
    }
  }

  lemma {:induction false} TryReturns(s: Ast, w: World, t: nat, fuel: nat, own: set<string>)
    requires s.Try?
    ensures var c := Exec(s, w, t, fuel, own).0; c.Returned? ==> YieldedBy(c.value, Returns(s), w)
    decreases fuel, s, Width(s) + 1, 0
  {
    hide YieldedBy, Returns;
    var tried := Exec(s.block, w, t, fuel, {});
    ReturnsAreCollected(s.block, w, t, fuel, {});
    if tried.0.Returned? { ChildYields(tried.0.value, s, s.block, w); }
    var handled := tried;
    if s.handler.Some? && tried.0.Threw? {
      handled := Exec(s.handler.value, w, tried.1, fuel, {});
      ReturnsAreCollected(s.handler.value, w, tried.1, fuel, {});
      if handled.0.Returned? { ChildYields(handled.0.value, s, s.handler.value, w); }
    }
    if s.finalizer.Some? {
      var final := Exec(s.finalizer.value, w, handled.1, fuel, {});
      ReturnsAreCollected(s.finalizer.value, w, handled.1, fuel, {});
      if final.0.Returned? { ChildYields(final.0.value, s, s.finalizer.value, w); }
    }
  }

  lemma {:induction false} SeqReturnsAreCollected(parent: Ast, statements: seq<Ast>, w: World, t: nat, fuel: nat)
    requires PartsOf(statements, parent)
    requires !IsFunction(parent) && forall x | x in statements :: x in Children(parent)
    ensures var c := ExecSeq(parent, statements, w, t, fuel).0; c.Returned? ==> YieldedBy(c.value, Returns(parent), w)
    decreases fuel, parent, |statements|, 2
  {
    hide YieldedBy, Returns, Exec, Children;
    if statements != [] {
      var first := Exec(statements[0], w, t, fuel, {});
      ReturnsAreCollected(statements[0], w, t, fuel, {});
      if first.0.Returned? { ChildYields(first.0.value, parent, statements[0], w); }
      SeqReturnsAreCollected(parent, statements[1..], w, first.1, fuel);
    }
  }

  /** Any value an inline condition body returns was predicted, if nothing in it is dynamic. */
  lemma BodyIsPredicted(body: Ast, w: World, fuel: nat)
    requires !ReadAll(ReturnedExpressions(body)).isDynamic
    ensures var r := CallBody(body, w, fuel); r.Some? ==> Predicted(r.value, ReadAll(ReturnedExpressions(body)))
  {
    hide Exec, Returns, Eval, Read;
    var es := ReturnedExpressions(body);
    var r := CallBody(body, w, fuel);
    if body.Block? {
      ReturnsAreCollected(body, w, 0, fuel, {});
      if r.Some? && r.value != UNDEFINED_JS {
        var i: nat, t: nat :| i < |es| && Eval(es[i], w, t).0 == Value(r.value);
        ReadAllCovers(es, i);
        ReadIsSound(es[i], w, t);
      }
    } else {
      assert es[0] == body;
      ReadAllCovers(es, 0);
      ReadIsSound(body, w, 0);
    }
  }

  /** Every edge call's findings end up in its source's entry. */
  lemma {:induction false} EntryCovers(m: map<string, Entry>, nodes: seq<Ast>, declared: set<string>, a: Ast)
    requires a in nodes && Contributes(a).Some?
    ensures var c, r := Contributes(a).value, AddNodes(m, nodes, declared);
      && c.from in r && c.found.targets * declared <= r[c.from].targets
      && (c.found.usesEnd ==> r[c.from].usesEnd) && (r[c.from].analysable ==> !c.found.isDynamic)
  {
    hide Contributes;
    var k := |nodes| - 1;
    assert nodes == nodes[..k] + [nodes[k]];
    if nodes[k] != a { EntryCovers(m, nodes[..k], declared, a); }
  }

  /** Nothing but declared node ids is ever listed as a target. */
  lemma {:induction false} TargetsAreDeclared(m: map<string, Entry>, nodes: seq<Ast>, declared: set<string>)
    requires forall f | f in m :: m[f].targets <= declared
    ensures forall f | f in AddNodes(m, nodes, declared) :: AddNodes(m, nodes, declared)[f].targets <= declared
  {
    hide Contributes;
    if nodes != [] { TargetsAreDeclared(m, nodes[..|nodes| - 1], declared); }
  }

  /** An edge call with a literal source and an inline function. */
  predicate InlineEdgeCall(a: Ast, from: string, body: Ast) {
    && a.Call? && a.callee.Member? && a.callee.property == Identifier("edge")
    && from != "" && |a.arguments| >= 2 && a.arguments[0] == StringLiteral(from)
    && (a.arguments[1] == Arrow(body) || a.arguments[1] == FunctionExpression(body))
  }

  /** The main result: if the extraction calls a source analysable, then whatever one of its
      inline conditions returns, in any world, is a listed target if it is a declared node,
      and END only if END is expected. */
  lemma ExtractionIsSound(script: Ast, declared: set<string>, call: Ast, from: string, body: Ast, w: World, fuel: nat)
    requires call in AllNodes(script) && InlineEdgeCall(call, from, body)
    ensures from in Extracted(script, declared)
    ensures var entry, r := Extracted(script, declared)[from], CallBody(body, w, fuel);
      entry.analysable && r.Some? ==>
        && (r.value.JsString? && r.value.s in declared ==> r.value.s in entry.targets)
        && (r.value.JsEnd? ==> entry.usesEnd)
  {
    hide AllNodes, ReadAll, ReturnedExpressions, CallBody;
    EntryCovers(map[], AllNodes(script), declared, call);
    if Extracted(script, declared)[from].analysable { BodyIsPredicted(body, w, fuel); }
  }

  // ----- What this means for the executor -----

  predicate RouteOf(route: Route, r: Option<Js>) {
    match r
    case None => route.RouteThrow?
    case Some(JsString(s)) => route == RouteTo(s)
    case Some(JsEnd) => route.RouteEnd?
    case Some(JsOther(_, _, _)) => route.RouteOther?
  }

  /** The condition of this edge is what some inline edge call of the script evaluates to. */
  ghost predicate Scripted(script: Ast, from: Id, e: Edge) {
    e.Conditional? ==>
      exists call, body :: call in AllNodes(script) && InlineEdgeCall(call, from.name, body) && IsEvaluated(e, body)
  }

  /** Each time the condition is asked, it answers what a call of the function body answers in some world. */
  ghost predicate IsEvaluated(e: Edge, body: Ast)
    requires e.Conditional?
  {
    forall s, v :: exists w, fuel :: RouteOf(e.condition(s, v), CallBody(body, w, fuel))
  }

  ghost predicate SameInfo(info: TargetInfo, entry: Entry) {
    info.analysable == entry.analysable && forall s :: s in entry.targets <==> Id(s) in info.targets
  }

  /** The targets the graph carries were extracted from the script. */
  ghost predicate CarriesTargets(g: Graph, script: Ast) {
    var declared := set n | n in g.nodes :: n.name;
    var entries := Extracted(script, declared);
    forall u :: (u in g.info <==> u.name in entries) && (u in g.info ==> SameInfo(g.info[u], entries[u.name]))
  }

  /** The declared nodes this edge can ever route to are listed for its source. */
  ghost predicate Covered(g: Graph, u: Id, e: Edge)
    requires u in g.info
  {
    forall state, result, n :: n in g.nodes && RoutesTo(e, state, result, n) ==> n in g.info[u].targets
  }

  /** A conditional edge that an attributed inline call made routes only to listed nodes. */
  lemma ScriptedIsCovered(g: Graph, script: Ast, u: Id, e: Edge)
    requires CarriesTargets(g, script) && u.name != "" && Analysable(g, u)
    requires e.Conditional? && Scripted(script, u, e)
    ensures Covered(g, u, e)
  {
    hide Extracted, CallBody, AllNodes, InlineEdgeCall;
    var declared := set m | m in g.nodes :: m.name;
    var call, body :| call in AllNodes(script) && InlineEdgeCall(call, u.name, body) && IsEvaluated(e, body);
    forall state, result, n | n in g.nodes && RoutesTo(e, state, result, n) ensures n in g.info[u].targets {
      var w, fuel :| RouteOf(e.condition(state, result), CallBody(body, w, fuel));
      ExtractionIsSound(script, declared, call, u.name, body, w, fuel);
      assert n.name in declared;
      assert Id(n.name) == n;
    }
  }

  /** An analysable entry covers all conditional edges of its source if and only if it already lists the declared
      routes of those that no attributed inline call made: calls with a computed source id, for instance. */
  lemma EntryCoversIff(g: Graph, script: Ast, u: Id)
    requires CarriesTargets(g, script) && u.name != "" && Analysable(g, u)
    ensures (forall e | e in EdgesOf(g, u) && e.Conditional? :: Covered(g, u, e)) <==>
            (forall e | e in EdgesOf(g, u) && e.Conditional? && !Scripted(script, u, e) :: Covered(g, u, e))
  {
    hide Covered, Scripted, CarriesTargets;
    forall e | e in EdgesOf(g, u) && e.Conditional? && Scripted(script, u, e) ensures Covered(g, u, e) {
      ScriptedIsCovered(g, script, u, e);
    }
  }

  predicate IsEdgeCall(a: Ast) {
    a.Call? && a.callee.Member? && a.callee.property == Identifier("edge") && |a.arguments| >= 2
  }

  /** What a reader can check on the text of a script: each edge call names its source literally. */
  ghost predicate LiteralSources(script: Ast) {
    forall call | call in AllNodes(script) && IsEdgeCall(call) :: call.arguments[0].StringLiteral?
  }

  /** Some edge call of the script made this conditional edge: its source came out as `from`, and the condition
      is its second argument, whatever that evaluates to unless it is an inline function. */
  ghost predicate MadeByCall(script: Ast, from: Id, e: Edge) {
    exists call :: call in AllNodes(script) && IsEdgeCall(call)
      && (exists w, t :: Eval(call.arguments[0], w, t).0 == Value(JsString(from.name)))
      && MayBeCondition(call.arguments[1], e)
  }

  ghost predicate MayBeCondition(target: Ast, e: Edge) {
    && e.Conditional? && !target.StringLiteral? && !target.OtherLiteral? && target != Identifier("END")
    && (target.Arrow? ==> IsEvaluated(e, target.arrowBody))
    && (target.FunctionExpression? ==> IsEvaluated(e, target.functionBody))
  }

  /** If no edge call has a computed source, an analysable entry covers every conditional edge of its source:
      a condition that is not an inline function would have made the entry unanalysable. */
  lemma LiteralSourcesCover(g: Graph, script: Ast, u: Id, e: Edge)
    requires CarriesTargets(g, script) && u.name != "" && Analysable(g, u)
    requires LiteralSources(script) && MadeByCall(script, u, e)
    ensures Scripted(script, u, e) && Covered(g, u, e)
  {
    hide CallBody, AllNodes, Covered, IsEvaluated, ReadAll, ReturnedExpressions;
    var declared := set m | m in g.nodes :: m.name;
    var call :| call in AllNodes(script) && IsEdgeCall(call)
      && (exists w, t :: Eval(call.arguments[0], w, t).0 == Value(JsString(u.name))) && MayBeCondition(call.arguments[1], e);
    assert call.arguments[0] == StringLiteral(u.name);
    EntryCovers(map[], AllNodes(script), declared, call);
    var target := call.arguments[1];
    assert target.Arrow? || target.FunctionExpression?;
    assert InlineEdgeCall(call, u.name, if target.Arrow? then target.arrowBody else target.functionBody);
    ScriptedIsCovered(g, script, u, e);
  }

  /** An analysable source routes a listed edge only to its known successors, hence downstream: every such
      route is either a claim it held or a way back. */
  lemma RoutesStayForward(g: Graph, script: Ast, u: Id, e: Edge, state: State, result: Value, n: Id)
    requires CarriesTargets(g, script) && u in g.edges && e in g.edges[u] && RoutesTo(e, state, result, n) && n in g.nodes
    requires e.Conditional? ==> u.name != "" && Analysable(g, u) && (Scripted(script, u, e) || Covered(g, u, e))
    ensures n in Successors(g, u) && n in Forward(g, u)
    ensures IsClaim(g, u, n) || Reaches(g, n, u)
  {
    hide CarriesTargets, Scripted, Reaches;
    if e.Conditional? && Scripted(script, u, e) { ScriptedIsCovered(g, script, u, e); }
    var i :| 0 <= i < |g.edges[u]| && g.edges[u][i] == e;
    assert n in EdgeTargets(g, u, EdgesOf(g, u)[i]);
    ReachesStep(g, u, n);
    assert Selectable(g, u, e, n);
    assert e in EdgesOf(g, u);
  }

  /** A route that is not listed claims nothing, unless another edge of its source leads there. */
  lemma UnlistedIsUnclaimed(g: Graph, u: Id, n: Id)
    requires Analysable(g, u) && n !in g.info[u].targets && Direct(To(n)) !in EdgesOf(g, u)
    ensures n !in Successors(g, u) && !IsClaim(g, u, n)
  {
    hide Reaches;
  }

  // ----- An edge call that escapes the analysis -----

  const EDGE_METHOD := Member(Identifier("g"), Identifier("edge"))

  /** g.edge("a", () => "b") and g.edge(id, () => "c"), for any three names. */
  function EscapingScript(a: string, b: string, c: string): Ast {
    OtherNode("Program", [Attributed(a, b), Computed(c)])
  }

  function Attributed(a: string, b: string): Ast {
    Call(EDGE_METHOD, [StringLiteral(a), Arrow(StringLiteral(b))])
  }

  function Computed(c: string): Ast {
    Call(EDGE_METHOD, [Identifier("id"), Arrow(StringLiteral(c))])
  }

  /** When id evaluates to a, the second call routes a to c. Yet the entry of a stays analysable, and lists b
      alone. */
  lemma ComputedSourceEscapes(a: string, b: string, c: string, declared: set<string>, w: World, fuel: nat)
    requires a != "" && declared == {a, b, c}
    ensures Computed(c) in AllNodes(EscapingScript(a, b, c)) && Contributes(Computed(c)) == None
    ensures CallBody(StringLiteral(c), w, fuel) == Some(JsString(c))
    ensures a in Extracted(EscapingScript(a, b, c), declared)
    ensures Extracted(EscapingScript(a, b, c), declared)[a] == Entry({b}, false, true)
  {
    hide Contributes, AllNodes, AddNodes;
    var script := EscapingScript(a, b, c);
    SilentLeaves(c);
    NodesAre(script, Attributed(a, b));
    NodesAre(script, Computed(c));
    NodesAre(Attributed(a, b), Attributed(a, b));
    NodesAre(Computed(c), Computed(c));
    assert Children(script)[0] == Attributed(a, b) && Children(script)[1] == Computed(c);
    forall n | n in AllNodes(script) && n != Attributed(a, b) ensures Contributes(n) == None {
      NodesAre(script, n);
      SilentBelow(StringLiteral(a), b, n);
      SilentBelow(Identifier("id"), c, n);
    }
    AttributedContribution(a, b);
    OnlyContribution(AllNodes(script), Attributed(a, b), declared);
    assert {b} * declared == {b};
  }

  /** A node is below another if it is that node, or below one of its children. */
  lemma NodesAre(a: Ast, n: Ast)
    ensures n in AllNodes(a) <==> n == a || exists c :: c in Children(a) && n in AllNodes(c)
  {
    NodesOfChildren(a, Children(a), n);
  }

  lemma {:induction false} NodesOfChildren(parent: Ast, children: seq<Ast>, n: Ast)
    requires PartsOf(children, parent)
    ensures n in AllNodesOf(parent, children) <==> exists c :: c in children && n in AllNodes(c)
  {
    hide AllNodes;
    if children != [] {
      var rest := children[1..];
      NodesOfChildren(parent, rest, n);
      assert children[0] in children && forall c | c in rest :: c in children;
      assert AllNodesOf(parent, children) == AllNodes(children[0]) + AllNodesOf(parent, rest);
      if c :| c in children && n in AllNodes(c) {
        assert c == children[0] || c in rest;
      }
    }
  }

  lemma SilentLeaves(c: string)
    ensures Contributes(Computed(c)) == None
    ensures forall a: Ast :: !a.Call? ==> Contributes(a) == None
  {
  }

  /** Below such a call only the call itself can contribute. */
  lemma SilentBelow(from: Ast, to: string, n: Ast)
    requires from.StringLiteral? || from.Identifier?
    ensures n in AllNodes(Call(EDGE_METHOD, [from, Arrow(StringLiteral(to))])) ==>
              n == Call(EDGE_METHOD, [from, Arrow(StringLiteral(to))]) || !n.Call?
  {
    hide AllNodes;
    NodesAre(Call(EDGE_METHOD, [from, Arrow(StringLiteral(to))]), n);
    NodesAre(EDGE_METHOD, n);
    NodesAre(Identifier("g"), n);
    NodesAre(Identifier("edge"), n);
    NodesAre(from, n);
    NodesAre(Arrow(StringLiteral(to)), n);
    NodesAre(StringLiteral(to), n);
  }

  lemma AttributedContribution(a: string, b: string)
    requires a != ""
    ensures Contributes(Attributed(a, b)) == Some(Contribution(a, Found({b}, false, false)))
  {
    var body := StringLiteral(b);
    assert ReturnedExpressions(body) == [body] && [body][..0] == [];
    assert ReadAll([body]) == Merge(ReadAll([body][..0]), Read(body));
    assert ReadAll([body]) == Found({b}, false, false);
  }

  /** A script in which one node contributes, however often it occurs. */
  lemma {:induction false} OnlyContribution(nodes: seq<Ast>, only: Ast, declared: set<string>)
    requires Contributes(only).Some? && forall n | n in nodes && n != only :: Contributes(n) == None
    ensures var c := Contributes(only).value;
            AddNodes(map[], nodes, declared) ==
            if only in nodes
            then map[c.from := Entry(c.found.targets * declared, c.found.usesEnd, !c.found.isDynamic)]
            else map[]
  {
    hide Contributes;
    if nodes != [] {
      var k := |nodes| - 1;
      assert nodes == nodes[..k] + [nodes[k]];
      OnlyContribution(nodes[..k], only, declared);
      AddedTwice(Contributes(only).value, declared);
    }
  }

  lemma AddedTwice(c: Contribution, declared: set<string>)
    ensures var entry := Entry(c.found.targets * declared, c.found.usesEnd, !c.found.isDynamic);
            AddContribution(map[], c, declared) == map[c.from := entry] &&
            AddContribution(map[c.from := entry], c, declared) == map[c.from := entry]
  {
    var x := c.found.targets * declared;
    assert {} + x == x && x + x == x;
  }
}
