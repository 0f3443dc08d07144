/** The tree-walking evaluator (evaluator/evaluator.go). `Eval` takes a node
    and the current frame, which `let` and call arguments update in place;
    a call evaluates the function's body in a fresh frame enclosed by the
    frame the function was created in. `fuel` bounds the depth of nested
    calls, so that evaluation always ends.

    Each method takes a ghost `heap` holding the bindings of the frames it
    can reach, and returns the heap afterwards and the objects it
    allocated, in order. Its outcome and that heap are the run the
    reference semantics (module Semantics) gives when handed exactly those
    objects. */
module Evaluator {
  import opened Wrappers
  import opened Object
  import opened Operators
  import opened Semantics
  import Ast

  /** `evalIdentifier`. */
  function EvalIdentifier(name: string, env: Environment): (r: Binding)
    requires env.Chained()
    reads env.Frames()
    ensures env.Get(name).Some? ==> r == env.Get(name).value
    ensures env.Get(name).None? ==> r == Some(Error("identifier not found: " + name))
  {
    IdentifierStep(env.Get(name), name)
  }

  /** `Eval` on an expression. */
  method Eval(e: Ast.Expression, env: Environment, fuel: nat, ghost heap: Heap)
    returns (out: Outcome, ghost heap': Heap, ghost allocs: seq<Alloc>)
    requires Ready(env, heap)
    modifies env
    ensures Ready(env, heap') && heap.Keys <= heap'.Keys && OutcomeIn(out, heap') && !out.Stuck?
    ensures forall a :: a in allocs ==> fresh(a.Target())
    ensures ExprSpec(e, env, heap, allocs, fuel) == Run(out, heap', [])
    decreases fuel, 1, e
  {
    match e
    case Ident(id) =>
      GetIsLookup(env, id.value, heap);
      out, heap', allocs := Normal(EvalIdentifier(id.value, env)), heap, [];
    case CallExpression(_, _, _) =>
      out, heap', allocs := EvalCall(e, env, fuel, heap);
    case FunctionLiteral(_, parameters, body) =>
      var f := new FunctionObject(parameters, body, env);
      out, heap', allocs := Normal(Some(Function(f))), heap, [NewClosure(f)];
    case IfExpression(_, _, _, _) =>
      out, heap', allocs := EvalIfExpression(e, env, fuel, heap);
    case InfixExpression(_, _, _, _) =>
      out, heap', allocs := EvalInfix(e, env, fuel, heap);
    case PrefixExpression(_, operator, right) =>
      out, heap', allocs := Eval(right, env, fuel, heap);
      if Continues(out) {
        out := PrefixStep(operator, out.result);
      }
    case IntegerLiteral(_, v) =>
      out, heap', allocs := Normal(Some(Integer(v))), heap, [];
    case BooleanLiteral(_, b) =>
      out, heap', allocs := Normal(Some(NativeBoolToBooleanObject(b))), heap, [];
    case StringLiteral(_, s) =>
      out, heap', allocs := Normal(Some(Str(s))), heap, [];
    case _ =>
      out, heap', allocs := Normal(None), heap, [];
  }

  /** The infix case of `Eval`: the left operand, then the right one, each
      stopping at an Error, then the operator. */
  method EvalInfix(e: Ast.Expression, env: Environment, fuel: nat, ghost heap: Heap)
    returns (out: Outcome, ghost heap': Heap, ghost allocs: seq<Alloc>)
    requires e.InfixExpression? && Ready(env, heap)
    modifies env
    ensures Ready(env, heap') && heap.Keys <= heap'.Keys && OutcomeIn(out, heap') && !out.Stuck?
    ensures forall a :: a in allocs ==> fresh(a.Target())
    ensures ExprSpec(e, env, heap, allocs, fuel) == Run(out, heap', [])
    decreases fuel, 1, e, 0
  {
    var l, h1, a1 := Eval(e.left, env, fuel, heap);
    if !Continues(l) {
      return l, h1, a1;
    }
    var r, h2, a2 := Eval(e.right, env, fuel, h1);
    ExprSupply(e.left, env, heap, a1, a2, fuel);
    assert ExprSpec(e.left, env, heap, a1 + a2, fuel) == Run(l, h1, a2);
    assert ExprSpec(e, env, heap, a1 + a2, fuel)
        == var right := ExprSpec(e.right, env, h1, a2, fuel);
           if !Continues(right.outcome) then right
           else right.(outcome := InfixStep(e.operator, l.result, right.outcome.result));
    out, heap', allocs := r, h2, a1 + a2;
    if Continues(r) {
      out := InfixStep(e.operator, l.result, r.result);
    }
  }

  /** `Eval` on an expression field that may be `nil`. */
  method EvalOptional(e: Option<Ast.Expression>, env: Environment, fuel: nat, ghost heap: Heap)
    returns (out: Outcome, ghost heap': Heap, ghost allocs: seq<Alloc>)
    requires Ready(env, heap)
    modifies env
    ensures Ready(env, heap') && heap.Keys <= heap'.Keys && OutcomeIn(out, heap') && !out.Stuck?
    ensures forall a :: a in allocs ==> fresh(a.Target())
    ensures OptionalSpec(e, env, heap, allocs, fuel) == Run(out, heap', [])
    decreases fuel, 1, e
  {
    if e.None? {
      out, heap', allocs := Normal(None), heap, [];
    } else {
      out, heap', allocs := Eval(e.value, env, fuel, heap);
    }
  }

  /** `Eval` on a statement. */
  method EvalStatement(s: Ast.Statement, env: Environment, fuel: nat, ghost heap: Heap)
    returns (out: Outcome, ghost heap': Heap, ghost allocs: seq<Alloc>)
    requires Ready(env, heap)
    modifies env
    ensures Ready(env, heap') && heap.Keys <= heap'.Keys && OutcomeIn(out, heap') && !out.Stuck?
    ensures forall a :: a in allocs ==> fresh(a.Target())
    ensures StmtSpec(s, env, heap, allocs, fuel) == Run(out, heap', [])
    decreases fuel, 1, s
  {
    match s
    case LetStatement(_, _, _) =>
      out, heap', allocs := EvalLet(s, env, fuel, heap);
    case ReturnStatement(_, value) =>
      out, heap', allocs := EvalOptional(value, env, fuel, heap);
      if Continues(out) {
        out := ReturnStep(out.result);
      }
    case ExpressionStatement(_, expression) =>
      out, heap', allocs := EvalOptional(expression, env, fuel, heap);
    case BlockStatement(block) =>
      out, heap', allocs := EvalBlockStatement(block.statements, env, fuel, heap);
  }

  /** The `let` case of `Eval`: the value, stopping at an Error, then
      `env.Set`. */
  method EvalLet(s: Ast.Statement, env: Environment, fuel: nat, ghost heap: Heap)
    returns (out: Outcome, ghost heap': Heap, ghost allocs: seq<Alloc>)
    requires s.LetStatement? && Ready(env, heap)
    modifies env
    ensures Ready(env, heap') && heap.Keys <= heap'.Keys && OutcomeIn(out, heap') && !out.Stuck?
    ensures forall a :: a in allocs ==> fresh(a.Target())
    ensures StmtSpec(s, env, heap, allocs, fuel) == Run(out, heap', [])
    decreases fuel, 1, s, 0
  {
    var v, h, a := EvalOptional(s.value, env, fuel, heap);
    if !Continues(v) {
      return v, h, a;
    }
    ClosedBind(h, env, s.name.value, v.result);
    env.Set(s.name.value, v.result);
    out, heap', allocs := Normal(None), h[env := Rebind(h[env], s.name.value, v.result)], a;
  }

  /** `evalProgram`: runs the statements in order and stops at the first
      ReturnValue, giving the value it wraps, or the first Error. */
  method EvalProgram(statements: seq<Ast.Statement>, env: Environment, fuel: nat, ghost heap: Heap)
    returns (out: Outcome, ghost heap': Heap, ghost allocs: seq<Alloc>)
    requires Ready(env, heap)
    modifies env
    ensures Ready(env, heap') && heap.Keys <= heap'.Keys && OutcomeIn(out, heap') && !out.Stuck?
    ensures forall a :: a in allocs ==> fresh(a.Target())
    ensures ProgramSpec(statements, env, heap, allocs, fuel, Normal(None)) == Run(out, heap', [])
    decreases fuel, 1, statements
  {
    ProgramIsUnwrappedBlock(statements, env, heap, [], fuel, Normal(None));
    out, heap', allocs := Normal(None), heap, [];
    var i := 0;
    while i < |statements|
      invariant 0 <= i <= |statements|
      invariant Ready(env, heap') && heap.Keys <= heap'.Keys && OutcomeIn(out, heap') && !BlockStops(out)
      invariant forall a :: a in allocs ==> fresh(a.Target())
      invariant BlockSpec(statements[..i], env, heap, allocs, fuel, Normal(None)) == Run(out, heap', [])
    {
      var o, h, a := EvalStatement(statements[i], env, fuel, heap');
      BlockStep(statements, i, env, heap, fuel, allocs, out, heap', a, o, h);
      out, heap', allocs := o, h, allocs + a;
      if BlockStops(o) {
        ProgramOfBlock(statements, env, heap, allocs, fuel, o, h);
        UnwrapOutcomeIn(o, h);
        if o.Normal? && o.result.Some? && o.result.value.ReturnValue? {
          out := Normal(o.result.value.returned);
        }
        assert out == UnwrapOutcome(o);
        return;
      }
      i := i + 1;
    }
    assert statements[..i] == statements;
    ProgramOfBlock(statements, env, heap, allocs, fuel, out, heap');
  }

  /** A program ends as the block of its statements does, with one
      ReturnValue stripped. */
  lemma ProgramOfBlock(statements: seq<Ast.Statement>, env: Environment, heap: Heap, allocs: seq<Alloc>, fuel: nat,
                       o: Outcome, h: Heap)
    requires env.Chained() && BlockSpec(statements, env, heap, allocs, fuel, Normal(None)) == Run(o, h, [])
    ensures ProgramSpec(statements, env, heap, allocs, fuel, Normal(None)) == Run(UnwrapOutcome(o), h, [])
  {
    ProgramIsUnwrappedBlock(statements, env, heap, allocs, fuel, Normal(None));
  }

  /** `evalBlockStatement`: runs the statements in order and stops at the
      first ReturnValue or Error, giving it still wrapped; otherwise gives
      the last statement's result, `nil` included. */
  method EvalBlockStatement(statements: seq<Ast.Statement>, env: Environment, fuel: nat, ghost heap: Heap)
    returns (out: Outcome, ghost heap': Heap, ghost allocs: seq<Alloc>)
    requires Ready(env, heap)
    modifies env
    ensures Ready(env, heap') && heap.Keys <= heap'.Keys && OutcomeIn(out, heap') && !out.Stuck?
    ensures forall a :: a in allocs ==> fresh(a.Target())
    ensures BlockSpec(statements, env, heap, allocs, fuel, Normal(None)) == Run(out, heap', [])
    decreases fuel, 1, statements
  {
    out, heap', allocs := Normal(None), heap, [];
    var i := 0;
    while i < |statements|
      invariant 0 <= i <= |statements|
      invariant Ready(env, heap') && heap.Keys <= heap'.Keys && OutcomeIn(out, heap') && !BlockStops(out)
      invariant forall a :: a in allocs ==> fresh(a.Target())
      invariant BlockSpec(statements[..i], env, heap, allocs, fuel, Normal(None)) == Run(out, heap', [])
    {
      var o, h, a := EvalStatement(statements[i], env, fuel, heap');
      BlockStep(statements, i, env, heap, fuel, allocs, out, heap', a, o, h);
      out, heap', allocs := o, h, allocs + a;
      if BlockStops(o) {
        return;
      }
      i := i + 1;
    }
    assert statements[..i] == statements;
  }

  /** One iteration of the loop of `evalBlockStatement` (and of
      `evalProgram`, which the reference semantics runs as a block): the
      statements before `i` ran to `last` without stopping, and statement
      `i` then runs to `o`. */
  lemma BlockStep(statements: seq<Ast.Statement>, i: nat, env: Environment, heap: Heap, fuel: nat,
                  allocs: seq<Alloc>, last: Outcome, h0: Heap, a: seq<Alloc>, o: Outcome, h: Heap)
    requires env.Chained() && i < |statements| && !BlockStops(last)
    requires BlockSpec(statements[..i], env, heap, allocs, fuel, Normal(None)) == Run(last, h0, [])
    requires StmtSpec(statements[i], env, h0, a, fuel) == Run(o, h, [])
    ensures BlockSpec(statements[..i + 1], env, heap, allocs + a, fuel, Normal(None)) == Run(o, h, [])
    ensures BlockStops(o) ==> BlockSpec(statements, env, heap, allocs + a, fuel, Normal(None)) == Run(o, h, [])
  {
    BlockSupply(statements[..i], env, heap, allocs, a, fuel, Normal(None));
    assert BlockSpec(statements[..i], env, heap, allocs + a, fuel, Normal(None)) == Run(last, h0, a);
    assert BlockSpec([statements[i]], env, h0, a, fuel, last) == Run(o, h, []) by {
      assert [statements[i]][1..] == [];
    }
    assert statements[..i] + [statements[i]] == statements[..i + 1];
    BlockSpecAppend(statements[..i], [statements[i]], env, heap, allocs + a, fuel, Normal(None));
    assert statements[..i + 1] + statements[i + 1..] == statements;
    BlockSpecAppend(statements[..i + 1], statements[i + 1..], env, heap, allocs + a, fuel, Normal(None));
  }

  /** `evalExpressions`: evaluates the expressions left to right and stops
      at the first Error. */
  method EvalExpressions(expressions: seq<Ast.Expression>, env: Environment, fuel: nat, ghost heap: Heap)
    returns (out: ListOutcome, ghost heap': Heap, ghost allocs: seq<Alloc>)
    requires Ready(env, heap)
    modifies env
    ensures Ready(env, heap') && heap.Keys <= heap'.Keys
    ensures out.Stopped? ==> OutcomeIn(out.outcome, heap') && !out.outcome.Stuck?
    ensures out.Values? ==> forall i :: 0 <= i < |out.values| ==> BindingIn(out.values[i], heap')
    ensures forall a :: a in allocs ==> fresh(a.Target())
    ensures ExprsSpec(expressions, env, heap, allocs, fuel, []) == ListRun(out, heap', [])
    decreases fuel, 1, expressions
  {
    var results: seq<Binding> := [];
    heap', allocs := heap, [];
    var i := 0;
    while i < |expressions|
      invariant 0 <= i <= |expressions|
      invariant Ready(env, heap') && heap.Keys <= heap'.Keys
      invariant forall j :: 0 <= j < |results| ==> BindingIn(results[j], heap')
      invariant forall a :: a in allocs ==> fresh(a.Target())
      invariant ExprsSpec(expressions[..i], env, heap, allocs, fuel, []) == ListRun(Values(results), heap', [])
    {
      var o, h, a := Eval(expressions[i], env, fuel, heap');
      ExprsStep(expressions, i, env, heap, fuel, allocs, results, heap', a, o, h);
      forall j | 0 <= j < |results|
        ensures BindingIn(results[j], h)
      {
        BindingInGrows(results[j], heap', h);
      }
      heap', allocs := h, allocs + a;
      if !Continues(o) {
        return Stopped(o), heap', allocs;
      }
      results := results + [o.result];
      i := i + 1;
    }
    assert expressions[..i] == expressions;
    out := Values(results);
  }

  /** One iteration of the loop of `evalExpressions`. */
  lemma ExprsStep(expressions: seq<Ast.Expression>, i: nat, env: Environment, heap: Heap, fuel: nat,
                  allocs: seq<Alloc>, results: seq<Binding>, h0: Heap, a: seq<Alloc>, o: Outcome, h: Heap)
    requires env.Chained() && i < |expressions|
    requires ExprsSpec(expressions[..i], env, heap, allocs, fuel, []) == ListRun(Values(results), h0, [])
    requires ExprSpec(expressions[i], env, h0, a, fuel) == Run(o, h, [])
    ensures Continues(o) ==>
      ExprsSpec(expressions[..i + 1], env, heap, allocs + a, fuel, []) == ListRun(Values(results + [o.result]), h, [])
    ensures !Continues(o) ==> ExprsSpec(expressions, env, heap, allocs + a, fuel, []) == ListRun(Stopped(o), h, [])
  {
    assert ExprsSpec(expressions[..i], env, heap, allocs + a, fuel, []) == ListRun(Values(results), h0, a) by {
      ExprsSupply(expressions[..i], env, heap, allocs, a, fuel, []);
    }
    var step := if Continues(o) then ListRun(Values(results + [o.result]), h, []) else ListRun(Stopped(o), h, []);
    assert ExprsSpec(expressions[..i + 1], env, heap, allocs + a, fuel, []) == step by {
      assert [expressions[i]][1..] == [];
      assert expressions[..i] + [expressions[i]] == expressions[..i + 1];
      ExprsSpecAppend(expressions[..i], [expressions[i]], env, heap, allocs + a, fuel, []);
    }
    if !Continues(o) {
      assert ExprsSpec(expressions, env, heap, allocs + a, fuel, []) == step by {
        assert expressions[..i + 1] + expressions[i + 1..] == expressions;
        ExprsSpecAppend(expressions[..i + 1], expressions[i + 1..], env, heap, allocs + a, fuel, []);
      }
    }
  }

  /** `evalIfExpression`. */
  method EvalIfExpression(e: Ast.Expression, env: Environment, fuel: nat, ghost heap: Heap)
    returns (out: Outcome, ghost heap': Heap, ghost allocs: seq<Alloc>)
    requires e.IfExpression? && Ready(env, heap)
    modifies env
    ensures Ready(env, heap') && heap.Keys <= heap'.Keys && OutcomeIn(out, heap') && !out.Stuck?
    ensures forall a :: a in allocs ==> fresh(a.Target())
    ensures ExprSpec(e, env, heap, allocs, fuel) == Run(out, heap', [])
    decreases fuel, 1, e, 0
  {
    var c, h1, a1 := Eval(e.condition, env, fuel, heap);
    if !Continues(c) {
      return c, h1, a1;
    }
    if c.result.None? {
      return Panic(NIL_DEREFERENCE), h1, a1;
    }
    ghost var a2: seq<Alloc> := [];
    if IsTruthy(c.result.value) {
      out, heap', a2 := EvalBlockStatement(e.consequence.statements, env, fuel, h1);
    } else if e.alternative.Some? {
      out, heap', a2 := EvalBlockStatement(e.alternative.value.statements, env, fuel, h1);
    } else {
      out, heap' := Normal(Some(Null)), h1;
    }
    ExprSupply(e.condition, env, heap, a1, a2, fuel);
    assert ExprSpec(e.condition, env, heap, a1 + a2, fuel) == Run(c, h1, a2);
    allocs := a1 + a2;
  }

  /** The call case of `Eval`: the callee, then the arguments, then the
      call itself, each stopping at an Error. */
  method EvalCall(e: Ast.Expression, env: Environment, fuel: nat, ghost heap: Heap)
    returns (out: Outcome, ghost heap': Heap, ghost allocs: seq<Alloc>)
    requires e.CallExpression? && Ready(env, heap)
    modifies env
    ensures Ready(env, heap') && heap.Keys <= heap'.Keys && OutcomeIn(out, heap') && !out.Stuck?
    ensures forall a :: a in allocs ==> fresh(a.Target())
    ensures ExprSpec(e, env, heap, allocs, fuel) == Run(out, heap', [])
    decreases fuel, 1, e, 0
  {
    var callee, h1, a1 := Eval(e.callee, env, fuel, heap);
    if !Continues(callee) {
      return callee, h1, a1;
    }
    var args, h2, a2 := EvalExpressions(e.arguments, env, fuel, h1);
    if args.Stopped? {
      ExprSupply(e.callee, env, heap, a1, a2, fuel);
      assert ExprSpec(e.callee, env, heap, a1 + a2, fuel) == Run(callee, h1, a2);
      return args.outcome, h2, a1 + a2;
    }
    BindingInGrows(callee.result, h1, h2);
    ghost var a3;
    out, heap', a3 := EvalCallExpression(callee.result, args.values, fuel, h2);
    ExprSupply(e.callee, env, heap, a1, a2 + a3, fuel);
    assert ExprSpec(e.callee, env, heap, a1 + (a2 + a3), fuel) == Run(callee, h1, a2 + a3);
    ExprsSupply(e.arguments, env, h1, a2, a3, fuel, []);
    assert ExprsSpec(e.arguments, env, h1, a2 + a3, fuel, []) == ListRun(args, h2, a3);
    allocs := a1 + (a2 + a3);
  }

  /** The body of a called function, run in the frame that binds its
      arguments; a `return` inside it ends the call with the returned value. */
  method EvalFunctionBody(f: Binding, args: seq<Binding>, frame: Environment, fuel: nat, ghost heap: Heap)
    returns (out: Outcome, ghost heap': Heap, ghost bodyAllocs: seq<Alloc>)
    requires f.Some? && f.value.Function? && FreshFrame(frame, f.value.fn.env, heap) && frame.Chained()
    requires |args| <= |f.value.fn.parameters| && fuel > 0 && frame.store == Bind(f.value.fn.parameters, args)
    requires Closed(heap) && Mirrors(heap) && BindingIn(f, heap)
    requires forall i :: 0 <= i < |args| ==> BindingIn(args[i], heap)
    modifies frame
    ensures Closed(heap') && Mirrors(heap') && heap.Keys <= heap'.Keys && OutcomeIn(out, heap') && !out.Stuck?
    ensures forall a :: a in bodyAllocs ==> fresh(a.Target())
    ensures ApplySpec(f, args, heap, [NewFrame(frame)] + bodyAllocs, fuel) == Run(out, heap', [])
    decreases fuel, 0, 0
  {
    ghost var entry := heap[frame := frame.store];
    ClosedExtend(heap, frame, frame.store);
    var result;
    result, heap', bodyAllocs := EvalBlockStatement(f.value.fn.body.statements, frame, fuel - 1, entry);
    CallRunsBody(f, args, heap, frame, bodyAllocs, fuel, result, heap');
    out := UnwrapOutcome(result);
    UnwrapOutcomeIn(result, heap');
  }

  /** The frame of a call: a fresh frame around the closure's own, holding
      the arguments under the parameter names in order; `bound` is false
      when there are more arguments than parameters. */
  method BindArguments(closure: FunctionObject, args: seq<Binding>, ghost heap: Heap)
    returns (extendedEnv: Environment, bound: bool)
    requires closure.env.Chained()
    ensures fresh(extendedEnv) && FreshFrame(extendedEnv, closure.env, heap) && extendedEnv.Chained()
    ensures bound <==> |args| <= |closure.parameters|
    ensures bound ==> extendedEnv.store == Bind(closure.parameters, args)
  {
    extendedEnv := new Environment.Enclosed(closure.env);
    var i := 0;
    while i < |args|
      invariant 0 <= i <= |args| && i <= |closure.parameters|
      invariant fresh(extendedEnv) && extendedEnv.outer == closure.env && extendedEnv.Chained()
      invariant FreshFrame(extendedEnv, closure.env, heap)
      invariant extendedEnv.store == Bind(closure.parameters, args[..i])
    {
      if i == |closure.parameters| {
        return extendedEnv, false;
      }
      BindStep(closure.parameters, args, i);
      extendedEnv.Set(closure.parameters[i].value, args[i]);
      i := i + 1;
    }
    assert args[..|args|] == args;
    bound := true;
  }

  /** Binding one more argument rebinds its parameter's name. */
  lemma BindStep(parameters: seq<Ast.Identifier>, args: seq<Binding>, i: nat)
    requires i < |args| && i < |parameters|
    ensures Bind(parameters, args[..i + 1]) == Bind(parameters, args[..i])[parameters[i].value := args[i]]
  {
    var longer := args[..i + 1];
    assert |longer| == i + 1 && longer[..i] == args[..i] && longer[i] == args[i];
  }

  /** `evalCallExpression` followed by `unwrapReturnValue`: only a Function
      can be called; its parameters are bound to the arguments in a fresh
      frame enclosed by the function's own, and its body runs there. Too
      many arguments make Go index past the parameters and panic. */
  method EvalCallExpression(f: Binding, args: seq<Binding>, fuel: nat, ghost heap: Heap)
    returns (out: Outcome, ghost heap': Heap, ghost allocs: seq<Alloc>)
    requires Closed(heap) && Mirrors(heap) && BindingIn(f, heap)
    requires forall i :: 0 <= i < |args| ==> BindingIn(args[i], heap)
    ensures Closed(heap') && Mirrors(heap') && heap.Keys <= heap'.Keys && OutcomeIn(out, heap') && !out.Stuck?
    ensures forall a :: a in allocs ==> fresh(a.Target())
    ensures ApplySpec(f, args, heap, allocs, fuel) == Run(out, heap', [])
    decreases fuel, 0, 1
  {
    if f.None? {
      return Panic(NIL_DEREFERENCE), heap, [];
    }
    if !f.value.Function? {
      return Normal(Some(Error("not a function: " + f.value.Type()))), heap, [];
    }
    var closure := f.value.fn;
    var extendedEnv, bound := BindArguments(closure, args, heap);
    if !bound {
      CallStops(f, args, heap, extendedEnv, fuel);
      return Panic(INDEX_OUT_OF_RANGE), heap, [NewFrame(extendedEnv)];
    }
    if fuel == 0 {
      CallStops(f, args, heap, extendedEnv, fuel);
      return OutOfFuel, heap, [NewFrame(extendedEnv)];
    }
    ghost var bodyAllocs;
    out, heap', bodyAllocs := EvalFunctionBody(f, args, extendedEnv, fuel, heap);
    allocs := [NewFrame(extendedEnv)] + bodyAllocs;
  }
}
