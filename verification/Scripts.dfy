/** The part of the script language that edge conditions are written in: syntax trees, and what
    evaluating a condition body can return. */
module Scripts {
  import opened Values

  datatype LogicalOp = Or | And | Coalesce

  /** Node kinds the analysis tells apart; everything else is OtherNode. */
  datatype Ast =
    // expressions
    | StringLiteral(text: string)
    | OtherLiteral(truthy: bool, nullish: bool)
    | Identifier(name: string)
    | Ternary(test: Ast, consequent: Ast, alternate: Ast)
    | Logical(op: LogicalOp, left: Ast, right: Ast)
    | Template(quasis: seq<string>, expressions: seq<Ast>)
    | Call(callee: Ast, arguments: seq<Ast>)
    | Member(object: Ast, property: Ast)
    | Arrow(arrowBody: Ast)
    | FunctionExpression(functionBody: Ast)
    // statements
    | Block(statements: seq<Ast>)
    | Return(argument: Option<Ast>)
    | If(condition: Ast, thenBranch: Ast, elseBranch: Option<Ast>)
    | Loop(guard: Ast, loopBody: Ast)
    | Try(block: Ast, handler: Option<Ast>, finalizer: Option<Ast>)
    | Throw(thrown: Ast)
    | Switch(discriminant: Ast, cases: seq<Ast>)
    | Case(caseTest: Option<Ast>, caseBody: seq<Ast>)
    | Labeled(name: string, labeled: Ast)
    | Break(exit: Option<string>)
    | Continue(next: Option<string>)
    | FunctionDeclaration(declaredBody: Ast)
    // assignments, declarations, operators, objects, ...
    | OtherNode(kind: string, parts: seq<Ast>)

  function OptionalChild(o: Option<Ast>): seq<Ast> {
    match o
    case None => []
    case Some(a) => [a]
  }

  /** All of them lie inside the parent. */
  ghost predicate PartsOf(children: seq<Ast>, parent: Ast) {
    forall i | 0 <= i < |children| :: children[i] < parent
  }

  /** childrenOf: every syntax node held in a property of the node. (The labels of statements are kept as
      names, since no analysis looks at them.) */
  function Children(a: Ast): (cs: seq<Ast>)
    ensures PartsOf(cs, a)
  {
    match a
    case Ternary(t, c, e) => [t, c, e]
    case Logical(_, l, r) => [l, r]
    case Template(_, es) => es
    case Call(f, args) => [f] + args
    case Member(o, p) => [o, p]
    case Arrow(b) => [b]
    case FunctionExpression(b) => [b]
    case Block(ss) => ss
    case Return(o) => OptionalChild(o)
    case If(c, t, e) => [c, t] + OptionalChild(e)
    case Loop(g, b) => [g, b]
    case Try(b, h, f) => [b] + OptionalChild(h) + OptionalChild(f)
    case Throw(t) => [t]
    case Switch(d, cs) => [d] + cs
    case Case(t, b) => OptionalChild(t) + b
    case FunctionDeclaration(b) => [b]
    case Labeled(_, b) => [b]
    case OtherNode(_, ps) => ps
    case _ => []
  }

  predicate IsFunction(a: Ast) {
    a.Arrow? || a.FunctionExpression? || a.FunctionDeclaration?
  }

  // ----- Evaluation -----

  /** A value, as far as routing is concerned. */
  datatype Js = JsString(s: string) | JsEnd | JsOther(truthy: bool, nullish: bool, choice: nat)

  const UNDEFINED_JS := JsOther(false, true, 0)

  datatype Evaluated = Value(v: Js) | Raised

  /** The world answers everything the evaluator does not compute itself: at each point in
      time, the value of a test, a call, a variable and so on, or an exception. */
  type World = (nat, Ast) -> Evaluated

  predicate Truthy(v: Js) {
    match v
    case JsString(s) => s != ""
    case JsEnd => true
    case JsOther(truthy, _, _) => truthy
  }

  predicate KeepsLeft(op: LogicalOp, v: Js) {
    match op
    case Or => Truthy(v)
    case And => !Truthy(v)
    case Coalesce => !(v.JsOther? && v.nullish)
  }

  function Concat(quasis: seq<string>): string {
    if quasis == [] then "" else Concat(quasis[..|quasis| - 1]) + quasis[|quasis| - 1]
  }

  /** The value of an expression. END is the routing symbol: no local name shadows it. */
  function Eval(e: Ast, w: World, t: nat): (Evaluated, nat) {
    match e
    case StringLiteral(s) => (Value(JsString(s)), t)
    case OtherLiteral(truthy, nullish) => (Value(JsOther(truthy, nullish, 0)), t)
    case Identifier(name) => if name == "END" then (Value(JsEnd), t) else (w(t, e), t + 1)
    case Ternary(test, consequent, alternate) =>
      (match w(t, test)
       case Raised => (Raised, t + 1)
       case Value(v) => Eval(if Truthy(v) then consequent else alternate, w, t + 1))
    case Logical(op, left, right) =>
      (match Eval(left, w, t)
       case (Raised, t') => (Raised, t')
       case (Value(v), t') => if KeepsLeft(op, v) then (Value(v), t') else Eval(right, w, t'))
    case Template(quasis, expressions) =>
      if expressions == [] then (Value(JsString(Concat(quasis))), t) else (w(t, e), t + 1)
    case _ => (w(t, e), t + 1)
  }

  datatype Completion =
    | Normal
    | Returned(value: Js)
    | Threw
    | Broke(exit: Option<string>)
    | Continued(next: Option<string>)
    | OutOfFuel

  function Width(s: Ast): nat {
    match s
    case Block(statements) => |statements|
    case Switch(_, cases) => |cases|
    case Case(_, body) => |body|
    case _ => 0
  }

  /** A continue that is meant for a loop with these labels. */
  predicate ContinuesLoop(c: Completion, own: set<string>) {
    c.Continued? && (c.next.None? || c.next.value in own)
  }

  /** Statement execution. `fuel` bounds loop iterations only; `own` are the labels right in front of `s`. */
  function Exec(s: Ast, w: World, t: nat, fuel: nat, own: set<string>): (Completion, nat)
    decreases fuel, s, Width(s) + 1
  {
    match s
    case Block(statements) => ExecSeq(s, statements, w, t, fuel)
    case Return(None) => (Returned(UNDEFINED_JS), t)
    case Return(Some(e)) =>
      (match Eval(e, w, t)
       case (Raised, t') => (Threw, t')
       case (Value(v), t') => (Returned(v), t'))
    case If(condition, thenBranch, elseBranch) =>
      (match w(t, condition)
       case Raised => (Threw, t + 1)
       case Value(v) =>
         if Truthy(v) then Exec(thenBranch, w, t + 1, fuel, {})
         else match elseBranch
           case None => (Normal, t + 1)
           case Some(b) => Exec(b, w, t + 1, fuel, {}))
    case Loop(guard, body) =>
      if fuel == 0 then (OutOfFuel, t)
      else (match w(t, guard)
        case Raised => (Threw, t + 1)
        case Value(v) =>
          if !Truthy(v) then (Normal, t + 1)
          else
            var once := Exec(body, w, t + 1, fuel - 1, {});
            if once.0.Normal? || ContinuesLoop(once.0, own) then Exec(s, w, once.1, fuel - 1, own)
            else if once.0 == Broke(None) then (Normal, once.1)
            else once)
    case Try(block, handler, finalizer) =>
      var tried := Exec(block, w, t, fuel, {});
      var handled := if tried.0.Threw? && handler.Some? then Exec(handler.value, w, tried.1, fuel, {}) else tried;
      if finalizer.None? then handled
      else (match Exec(finalizer.value, w, handled.1, fuel, {})
        case (Normal, t') => (handled.0, t')
        case other => other)
    case Throw(_) => (Threw, t)
    case Switch(discriminant, cases) =>
      (match w(t, discriminant)
       case Raised => (Threw, t + 1)
       case Value(v) =>
         // which case is entered is up to the world; execution falls through from there
         var entry := if v.JsOther? && v.choice <= |cases| then v.choice else |cases|;
         match ExecSeq(s, cases[entry..], w, t + 1, fuel)
         case (Broke(None), t') => (Normal, t')
         case other => other)
    case Case(_, body) => ExecSeq(s, body, w, t, fuel)
    case Labeled(name, labeled) =>
      var inner := Exec(labeled, w, t, fuel, own + {name});
      if inner.0 == Broke(Some(name)) then (Normal, inner.1) else inner
    case Break(exit) => (Broke(exit), t)
    case Continue(next) => (Continued(next), t)
    case FunctionDeclaration(_) => (Normal, t)
    case _ =>
      (match w(t, s)
       case Raised => (Threw, t + 1)
       case Value(_) => (Normal, t + 1))
  }

  function ExecSeq(parent: Ast, statements: seq<Ast>, w: World, t: nat, fuel: nat): (Completion, nat)
    requires PartsOf(statements, parent)
    decreases fuel, parent, |statements|
  {
    if statements == [] then (Normal, t)
    else match Exec(statements[0], w, t, fuel, {})
      case (Normal, t') => ExecSeq(parent, statements[1..], w, t', fuel)
      case other => other
  }

  /** Calling an inline function: an expression body is its value, a block runs to a return. */
  function CallBody(body: Ast, w: World, fuel: nat): Option<Js> {
    if body.Block? then
      match Exec(body, w, 0, fuel, {}).0
      case Returned(v) => Some(v)
      case Normal => Some(UNDEFINED_JS)
      case _ => None
    else
      match Eval(body, w, 0).0
      case Value(v) => Some(v)
      case Raised => None
  }
}
