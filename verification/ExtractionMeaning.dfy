/** What the script analysis lists, exactly: said by paths through the syntax tree. */
module ExtractionMeaning {
  import opened Values
  import opened Scripts
  import opened EdgeTargets

  // ----- Which expressions are collected -----

  /** The path of children leads from `a` to `n`. */
  predicate Leads(a: Ast, path: seq<nat>, n: Ast)
    decreases |path|
  {
    if path == [] then a == n
    else path[0] < |Children(a)| && Leads(Children(a)[path[0]], path[1..], n)
  }

  /** So does it, and it enters no function on the way. */
  predicate LeadsOutsideFunctions(a: Ast, path: seq<nat>, n: Ast)
    decreases |path|
  {
    if path == [] then a == n
    else
      !a.Arrow? && !a.FunctionExpression? && !a.FunctionDeclaration? &&
      path[0] < |Children(a)| && LeadsOutsideFunctions(Children(a)[path[0]], path[1..], n)
  }

  ghost predicate ReachesOutsideFunctions(a: Ast, n: Ast) {
    exists path :: LeadsOutsideFunctions(a, path, n)
  }

  /** The body may return the expression: it is the expression, or holds a return of it that is not inside
      another function. */
  ghost predicate MayReturn(body: Ast, e: Ast) {
    if body.Block? then ReachesOutsideFunctions(body, Return(Some(e))) else e == body
  }

  lemma {:induction false} ReturnsOfChildren(parent: Ast, children: seq<Ast>, e: Ast)
    requires PartsOf(children, parent)
    ensures e in ReturnsOfAll(parent, children) <==> exists i :: 0 <= i < |children| && e in Returns(children[i])
  {
    hide Returns;
    if children != [] {
      var rest := children[1..];
      ReturnsOfFirst(parent, children);
      ReturnsOfChildren(parent, rest, e);
      assert forall i | 0 <= i < |rest| :: rest[i] == children[i + 1];
      if i :| 0 <= i < |children| && e in Returns(children[i]) && i > 0 { assert e in Returns(rest[i - 1]); }
    } else {
      ReturnsOfNone(parent);
    }
  }

  /** An expression is collected if and only if a return of it is reached without entering a function. */
  lemma {:induction false} CollectedIff(a: Ast, e: Ast)
    ensures e in Returns(a) <==> ReachesOutsideFunctions(a, Return(Some(e)))
    decreases a
  {
    hide Children, ReachesOutsideFunctions, Returns, ReturnsOfAll;
    ReturnsOfChildren(a, Children(a), e);
    forall i | 0 <= i < |Children(a)|
      ensures e in Returns(Children(a)[i]) <==> ReachesOutsideFunctions(Children(a)[i], Return(Some(e)))
    {
      CollectedIff(Children(a)[i], e);
    }
    FirstStep(a, Return(Some(e)));
    OwnReturn(a, e);
  }

  lemma OwnReturn(a: Ast, e: Ast)
    ensures e in Returns(a) <==> a == Return(Some(e)) || (!IsFunction(a) && e in ReturnsOfAll(a, Children(a)))
  {
    hide ReturnsOfAll;
  }

  lemma FirstStep(a: Ast, n: Ast)
    ensures ReachesOutsideFunctions(a, n) <==>
      a == n || (!IsFunction(a) && exists i :: 0 <= i < |Children(a)| && ReachesOutsideFunctions(Children(a)[i], n))
  {
    hide Children, ReachesOutsideFunctions;
    if a == n { StaysOutside(a); }
    forall i | 0 <= i < |Children(a)| && !IsFunction(a) && ReachesOutsideFunctions(Children(a)[i], n)
      ensures ReachesOutsideFunctions(a, n)
    {
      StepsOutside(a, n, i);
    }
    if ReachesOutsideFunctions(a, n) && a != n { var i := StepOutside(a, n); }
  }

  lemma StaysOutside(a: Ast)
    ensures ReachesOutsideFunctions(a, a)
  {
    assert LeadsOutsideFunctions(a, [], a);
  }

  lemma StepsOutside(a: Ast, n: Ast, i: nat)
    requires i < |Children(a)| && !IsFunction(a) && ReachesOutsideFunctions(Children(a)[i], n)
    ensures ReachesOutsideFunctions(a, n)
  {
    hide Children;
    var path :| LeadsOutsideFunctions(Children(a)[i], path, n);
    var longer := [i] + path;
    assert longer[1..] == path && longer[0] == i;
    assert LeadsOutsideFunctions(a, longer, n);
  }

  lemma StepOutside(a: Ast, n: Ast) returns (i: nat)
    requires ReachesOutsideFunctions(a, n) && a != n
    ensures !IsFunction(a) && i < |Children(a)| && ReachesOutsideFunctions(Children(a)[i], n)
  {
    hide Children;
    var path :| LeadsOutsideFunctions(a, path, n);
    i := path[0];
    assert LeadsOutsideFunctions(Children(a)[i], path[1..], n);
  }

  lemma ReturnedIff(body: Ast, e: Ast)
    ensures e in ReturnedExpressions(body) <==> MayReturn(body, e)
  {
    hide Returns, ReachesOutsideFunctions;
    CollectedIff(body, e);
  }

  // ----- What is read off a collected expression -----

  /** The value of the expression can be the value of `leaf`: it is one of the arms. */
  predicate IsArm(e: Ast, leaf: Ast) {
    match e
    case Ternary(_, consequent, alternate) => IsArm(consequent, leaf) || IsArm(alternate, leaf)
    case Logical(_, left, right) => IsArm(left, leaf) || IsArm(right, leaf)
    case _ => leaf == e
  }

  /** A text written out in the script: a string, or a template without holes. */
  predicate Spells(leaf: Ast, text: string) {
    leaf == StringLiteral(text) || (leaf.Template? && leaf.expressions == [] && Concat(leaf.quasis) == text)
  }

  predicate IsUnreadable(leaf: Ast) {
    !leaf.StringLiteral? && !leaf.OtherLiteral? && leaf != Identifier("END") && !(leaf.Template? && leaf.expressions == [])
  }

  lemma OneArm(e: Ast, leaf: Ast)
    requires !e.Ternary? && !e.Logical?
    ensures IsArm(e, leaf) <==> leaf == e
  {
  }

  lemma ReadOneArm(e: Ast, text: string)
    requires !e.Ternary? && !e.Logical?
    ensures text in Read(e).targets <==> Spells(e, text)
    ensures Read(e).usesEnd <==> e == Identifier("END")
    ensures Read(e).isDynamic <==> IsUnreadable(e)
  {
    hide Concat;
  }

  ghost predicate HasArm(e: Ast, holds: Ast -> bool) {
    exists leaf :: IsArm(e, leaf) && holds(leaf)
  }

  lemma HasArmOf(e: Ast, holds: Ast -> bool)
    ensures e.Ternary? ==> (HasArm(e, holds) <==> HasArm(e.consequent, holds) || HasArm(e.alternate, holds))
    ensures e.Logical? ==> (HasArm(e, holds) <==> HasArm(e.left, holds) || HasArm(e.right, holds))
    ensures !e.Ternary? && !e.Logical? ==> (HasArm(e, holds) <==> holds(e))
  {
    if !e.Ternary? && !e.Logical? {
      forall leaf { OneArm(e, leaf); }
    }
  }

  /** What is read of an expression is what its arms spell, and it is dynamic exactly if an arm is unreadable. */
  lemma {:induction false} ReadIff(e: Ast, text: string)
    ensures text in Read(e).targets <==> HasArm(e, leaf => Spells(leaf, text))
    ensures Read(e).usesEnd <==> IsArm(e, Identifier("END"))
    ensures Read(e).isDynamic <==> HasArm(e, leaf => IsUnreadable(leaf))
  {
    hide Spells, IsUnreadable, HasArm;
    var spells, unreadable := (leaf: Ast) => Spells(leaf, text), (leaf: Ast) => IsUnreadable(leaf);
    HasArmOf(e, spells);
    HasArmOf(e, unreadable);
    match e
    case Ternary(_, consequent, alternate) =>
      ReadIff(consequent, text);
      ReadIff(alternate, text);
    case Logical(_, left, right) =>
      ReadIff(left, text);
      ReadIff(right, text);
    case _ =>
      ReadOneArm(e, text);
      OneArm(e, Identifier("END"));
  }

  lemma {:induction false} ReadAllIff(es: seq<Ast>, text: string)
    ensures text in ReadAll(es).targets <==> exists i :: 0 <= i < |es| && text in Read(es[i]).targets
    ensures ReadAll(es).usesEnd <==> exists i :: 0 <= i < |es| && Read(es[i]).usesEnd
    ensures ReadAll(es).isDynamic <==> exists i :: 0 <= i < |es| && Read(es[i]).isDynamic
  {
    hide Read;
    if es != [] {
      var k := |es| - 1;
      var shorter := es[..k];
      ReadAllIff(shorter, text);
      assert forall i | 0 <= i < k :: shorter[i] == es[i];
    }
  }

  // ----- The calls of the script -----

  ghost predicate Inside(script: Ast, n: Ast) {
    exists path :: Leads(script, path, n)
  }

  lemma {:induction false} InsideIff(a: Ast, n: Ast)
    ensures n in AllNodes(a) <==> Inside(a, n)
    decreases a
  {
    hide Children, AllNodes, Inside;
    NodesAre(a, n);
    forall i | 0 <= i < |Children(a)| ensures n in AllNodes(Children(a)[i]) <==> Inside(Children(a)[i], n) {
      InsideIff(Children(a)[i], n);
    }
    InsideStep(a, n);
    if n in AllNodes(a) && n != a {
      var c :| c in Children(a) && n in AllNodes(c);
      var i :| 0 <= i < |Children(a)| && Children(a)[i] == c;
    }
    if Inside(a, n) && n != a {
      var i :| 0 <= i < |Children(a)| && Inside(Children(a)[i], n);
      assert Children(a)[i] in Children(a);
    }
  }

  lemma InsideStep(a: Ast, n: Ast)
    ensures Inside(a, n) <==> a == n || exists i :: 0 <= i < |Children(a)| && Inside(Children(a)[i], n)
  {
    hide Children, Inside;
    InsideSelf(a);
    forall i | 0 <= i < |Children(a)| && Inside(Children(a)[i], n) ensures Inside(a, n) { InsideChild(a, n, i); }
    if Inside(a, n) && a != n { var i := ChildInside(a, n); }
  }

  lemma InsideSelf(a: Ast)
    ensures Inside(a, a)
  {
    assert Leads(a, [], a);
  }

  lemma InsideChild(a: Ast, n: Ast, i: nat)
    requires i < |Children(a)| && Inside(Children(a)[i], n)
    ensures Inside(a, n)
  {
    hide Children;
    var path :| Leads(Children(a)[i], path, n);
    var longer := [i] + path;
    assert longer[1..] == path && longer[0] == i;
    assert Leads(a, longer, n);
  }

  lemma ChildInside(a: Ast, n: Ast) returns (i: nat)
    requires Inside(a, n) && a != n
    ensures i < |Children(a)| && Inside(Children(a)[i], n)
  {
    hide Children;
    var path :| Leads(a, path, n);
    i := path[0];
    assert Leads(Children(a)[i], path[1..], n);
  }

  /** A call of an edge method with this literal source, whose target is not direct. */
  predicate IsCallFrom(call: Ast, from: string) {
    && call.Call? && call.callee.Member? && call.callee.property == Identifier("edge")
    && |call.arguments| >= 2 && call.arguments[0] == StringLiteral(from) && from != ""
    && !call.arguments[1].StringLiteral? && !call.arguments[1].OtherLiteral? && call.arguments[1] != Identifier("END")
  }

  /** The condition is a function written out in the call, with this body. */
  predicate IsInline(call: Ast, body: Ast)
    requires call.Call? && |call.arguments| >= 2
  {
    call.arguments[1] == Arrow(body) || call.arguments[1] == FunctionExpression(body)
  }

  predicate IsReadable(call: Ast)
    requires call.Call? && |call.arguments| >= 2
  {
    call.arguments[1].Arrow? || call.arguments[1].FunctionExpression?
  }

  /** An arm of an expression that the inline condition may return. */
  ghost predicate MayEvaluateTo(call: Ast, leaf: Ast)
    requires call.Call? && |call.arguments| >= 2
  {
    exists body, e :: IsInline(call, body) && MayReturn(body, e) && IsArm(e, leaf)
  }

  /** What one call adds to the entry of its source. */
  lemma CallMeaning(call: Ast, from: string, text: string)
    requires IsCallFrom(call, from)
    ensures Contributes(call).Some? && Contributes(call).value.from == from
    ensures var found := Contributes(call).value.found;
      && (text in found.targets <==> exists leaf :: MayEvaluateTo(call, leaf) && Spells(leaf, text))
      && (found.usesEnd <==> MayEvaluateTo(call, Identifier("END")))
      && (found.isDynamic <==> !IsReadable(call) || exists leaf :: MayEvaluateTo(call, leaf) && IsUnreadable(leaf))
  {
    hide ReadAll, ReturnedExpressions, MayReturn, IsArm, Spells, IsUnreadable;
    if IsReadable(call) {
      var body := if call.arguments[1].Arrow? then call.arguments[1].arrowBody else call.arguments[1].functionBody;
      assert IsInline(call, body) && forall other | IsInline(call, other) :: other == body;
      BodyMeaning(body, text);
    }
  }

  lemma BodyMeaning(body: Ast, text: string)
    ensures var found := ReadAll(ReturnedExpressions(body));
      && (text in found.targets <==> exists e, leaf :: MayReturn(body, e) && IsArm(e, leaf) && Spells(leaf, text))
      && (found.usesEnd <==> exists e :: MayReturn(body, e) && IsArm(e, Identifier("END")))
      && (found.isDynamic <==> exists e, leaf :: MayReturn(body, e) && IsArm(e, leaf) && IsUnreadable(leaf))
  {
    hide ReadAll, ReturnedExpressions, MayReturn, IsArm, Spells, IsUnreadable, Read;
    var es := ReturnedExpressions(body);
    ReadAllIff(es, text);
    forall e ensures e in es <==> MayReturn(body, e) { ReturnedIff(body, e); }
    forall i | 0 <= i < |es| { ReadIff(es[i], text); }
    forall e | MayReturn(body, e) ensures exists i :: 0 <= i < |es| && es[i] == e { assert e in es; }
    forall i | 0 <= i < |es| ensures MayReturn(body, es[i]) { assert es[i] in es; }
  }

  // ----- The entries -----

  predicate GivesTo(a: Ast, from: string) {
    Contributes(a).Some? && Contributes(a).value.from == from
  }

  lemma GivesToIff(a: Ast, from: string)
    ensures GivesTo(a, from) <==> IsCallFrom(a, from)
  {
    hide ReadAll, ReturnedExpressions;
  }

  ghost predicate EntryIs(nodes: seq<Ast>, declared: set<string>, from: string, text: string, entry: Entry) {
    && (text in entry.targets <==>
          (text in declared &&
           exists i :: 0 <= i < |nodes| && GivesTo(nodes[i], from) && text in Contributes(nodes[i]).value.found.targets))
    && (entry.usesEnd <==>
          exists i :: 0 <= i < |nodes| && GivesTo(nodes[i], from) && Contributes(nodes[i]).value.found.usesEnd)
    && (!entry.analysable <==>
          exists i :: 0 <= i < |nodes| && GivesTo(nodes[i], from) && Contributes(nodes[i]).value.found.isDynamic)
  }

  lemma {:induction false} EntriesAre(nodes: seq<Ast>, declared: set<string>, from: string, text: string)
    ensures var entries := AddNodes(map[], nodes, declared);
      && (from in entries <==> exists i :: 0 <= i < |nodes| && GivesTo(nodes[i], from))
      && EntryIs(nodes, declared, from, text, EntryOf(entries, from))
  {
    hide Contributes;
    if nodes != [] {
      var k := |nodes| - 1;
      var shorter := nodes[..k];
      EntriesAre(shorter, declared, from, text);
      assert forall i | 0 <= i < k :: shorter[i] == nodes[i];
      AddedEntry(AddNodes(map[], shorter, declared), shorter, nodes[k], declared, from, text);
      assert nodes == shorter + [nodes[k]];
    }
  }

  lemma AddedEntry(entries: map<string, Entry>, nodes: seq<Ast>, a: Ast, declared: set<string>, from: string, text: string)
    requires EntryIs(nodes, declared, from, text, EntryOf(entries, from))
    ensures EntryIs(nodes + [a], declared, from, text, EntryOf(AddNode(entries, a, declared), from))
  {
    hide Contributes;
    var all := nodes + [a];
    assert forall i | 0 <= i < |nodes| :: all[i] == nodes[i];
    assert all[|nodes|] == a;
  }

  /** The extraction, exactly: which sources have an entry, which declared names it lists, whether it expects END,
      and why it is not analysable. */
  lemma ExtractedIff(script: Ast, declared: set<string>, from: string, text: string)
    ensures from in Extracted(script, declared) <==> exists call :: Inside(script, call) && IsCallFrom(call, from)
    ensures from in Extracted(script, declared) ==>
      var entry := Extracted(script, declared)[from];
      && (text in entry.targets <==>
            (text in declared &&
             exists call, leaf ::
               Inside(script, call) && IsCallFrom(call, from) && MayEvaluateTo(call, leaf) && Spells(leaf, text)))
      && (entry.usesEnd <==>
            exists call :: Inside(script, call) && IsCallFrom(call, from) && MayEvaluateTo(call, Identifier("END")))
      && (!entry.analysable <==>
            exists call :: Inside(script, call) && IsCallFrom(call, from) &&
              (!IsReadable(call) || exists leaf :: MayEvaluateTo(call, leaf) && IsUnreadable(leaf)))
  {
    hide AllNodes, Inside, IsCallFrom, MayEvaluateTo, Spells, IsUnreadable, IsReadable, Contributes, AddNodes;
    var nodes := AllNodes(script);
    EntriesAre(nodes, declared, from, text);
    forall call ensures call in nodes <==> Inside(script, call) { InsideIff(script, call); }
    forall i | 0 <= i < |nodes| ensures GivesTo(nodes[i], from) <==> IsCallFrom(nodes[i], from) { GivesToIff(nodes[i], from); }
    forall call | IsCallFrom(call, from) { CallMeaning(call, from, text); }
    forall call | Inside(script, call) ensures exists i :: 0 <= i < |nodes| && nodes[i] == call { assert call in nodes; }
    forall i | 0 <= i < |nodes| ensures Inside(script, nodes[i]) { assert nodes[i] in nodes; }
  }

  /** { function f() { return "c"; } return "b"; }, for any two texts. */
  function NestedBody(b: string, c: string): Ast {
    Block([FunctionDeclaration(Block([Return(Some(StringLiteral(c)))])), Return(Some(StringLiteral(b)))])
  }

  /** Only the outer return is collected. */
  lemma NestedReturnsAreLeftOut(b: string, c: string)
    ensures ReturnedExpressions(NestedBody(b, c)) == [StringLiteral(b)]
  {
    var inner := FunctionDeclaration(Block([Return(Some(StringLiteral(c)))]));
    var outer := Return(Some(StringLiteral(b)));
    var body := NestedBody(b, c);
    ReturnsOfFirst(body, [inner, outer]);
    assert [inner, outer][1..] == [outer] && [outer][1..] == [];
    ReturnsOfFirst(body, [outer]);
    ReturnsOfNone(body);
    assert Returns(inner) == [];
    assert Children(outer) == [StringLiteral(b)];
    ReturnsOfFirst(outer, [StringLiteral(b)]);
    assert [StringLiteral(b)][1..] == [];
    ReturnsOfNone(outer);
    ReturnsOfNone(StringLiteral(b));
    assert Returns(StringLiteral(b)) == [];
    assert Returns(outer) == [StringLiteral(b)];
  }
}
