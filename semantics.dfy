/** What evaluation produces, stated as functions over values: the outcome
    of evaluating a node, the bindings of every frame afterwards, and which
    fresh objects it allocates. The imperative evaluator (module Evaluator)
    is proved to compute exactly these. */
module Semantics {
  import opened Wrappers
  import opened Object
  import opened Operators
  import Ast

  /** How evaluating a node ends: with a value (Go's `nil` included), with a
      Go panic, because the budget of nested calls ran out, or `Stuck`: the
      semantics was not handed the fresh object that the next step
      allocates. The evaluator never ends `Stuck`. */
  datatype Outcome = Normal(result: Binding) | Panic(reason: string) | OutOfFuel | Stuck

  /** How evaluating a list of expressions ends: every value in order, or
      the first outcome that stopped it. */
  datatype ListOutcome = Values(values: seq<Binding>) | Stopped(outcome: Outcome)

  type Store = map<string, Binding>

  /** The bindings of each frame: the part of Go's heap that evaluation
      reads and writes. */
  type Heap = map<Environment, Store>

  /** An object that evaluation allocates: the frame of a call, or the
      closure a function literal evaluates to. */
  datatype Alloc = NewFrame(frame: Environment) | NewClosure(closure: FunctionObject)
  {
    function Target(): object
    {
      if NewFrame? then frame else closure
    }
  }

  /** Where a run ends: its outcome, the frames' bindings afterwards and the
      fresh objects it did not use. */
  datatype Run = Run(outcome: Outcome, heap: Heap, rest: seq<Alloc>)
  {
    /** The same run handed the objects `more` after those it had. */
    function Extend(more: seq<Alloc>): (r: Run)
      ensures r.outcome == outcome && r.heap == heap && r.rest == rest + more
    {
      this.(rest := rest + more)
    }
  }

  datatype ListRun = ListRun(outcome: ListOutcome, heap: Heap, rest: seq<Alloc>)
  {
    function Extend(more: seq<Alloc>): (r: ListRun)
      ensures r.outcome == outcome && r.heap == heap && r.rest == rest + more
    {
      this.(rest := rest + more)
    }

    predicate Stuck()
    {
      outcome.Stopped? && outcome.outcome.Stuck?
    }
  }

  /** The reasons of the panics: the start of Go's run-time messages. Go's
      message for an index out of range goes on with the index and the
      length (`[2] with length 2`), which the model leaves out. */
  const NIL_DEREFERENCE := "runtime error: invalid memory address or nil pointer dereference"
  const DIVIDE_BY_ZERO := "runtime error: integer divide by zero"
  const INDEX_OUT_OF_RANGE := "runtime error: index out of range"

  /** Evaluation goes on with this outcome: it is a value that is not an
      Error. */
  predicate Continues(o: Outcome)
  {
    o.Normal? && !IsError(o.result)
  }

  /** A block stops at a ReturnValue or an Error (and at a panic). */
  predicate BlockStops(o: Outcome)
  {
    !o.Normal? || (o.result.Some? && (o.result.value.ReturnValue? || o.result.value.Error?))
  }

  /** `unwrapReturnValue` applied to the value of an outcome. */
  function UnwrapOutcome(o: Outcome): Outcome
  {
    if o.Normal? then Normal(UnwrapReturnValue(o.result)) else o
  }

  /** `evalIdentifier` once the lookup is done. */
  function IdentifierStep(found: Option<Binding>, name: string): (r: Binding)
  {
    if found.Some? then found.value else Some(Error("identifier not found: " + name))
  }

  /** `evalPrefixExpression` on the operand's value; every prefix operator
      makes Go dereference a `nil` operand. */
  function PrefixStep(operator: string, right: Binding): (r: Outcome)
  {
    if right.None? then Panic(NIL_DEREFERENCE)
    else Normal(Some(EvalPrefixExpression(operator, right.value)))
  }

  /** `evalInfixExpression` on the operands' values. A `nil` left operand
      panics at once; a `nil` right operand panics when its type is asked
      for, which the `==` and `!=` cases never do unless the left operand is
      an Integer or a String. */
  function InfixStep(operator: string, left: Binding, right: Binding): (r: Outcome)
  {
    if left.None? then Panic(NIL_DEREFERENCE)
    else if right.None? then
      if left.value.Integer? || left.value.Str? then Panic(NIL_DEREFERENCE)
      else if operator == "==" then Normal(Some(FALSE))
      else if operator == "!=" then Normal(Some(TRUE))
      else Panic(NIL_DEREFERENCE)
    else if DividesByZero(operator, left.value, right.value) then Panic(DIVIDE_BY_ZERO)
    else Normal(Some(EvalInfixExpression(operator, left.value, right.value)))
  }

  /** The returned value of `return`: an Error passes through unwrapped. */
  function ReturnStep(value: Binding): (r: Outcome)
  {
    if IsError(value) then Normal(value) else Normal(Some(ReturnValue(value)))
  }

  /** The fresh frame of a call: parameter `i` bound to argument `i`, in
      order, so a repeated parameter name keeps the later argument. */
  function Bind(parameters: seq<Ast.Identifier>, args: seq<Binding>): (r: Store)
    requires |args| <= |parameters|
    ensures forall i :: 0 <= i < |args| ==> parameters[i].value in r
    ensures forall name :: name in r ==> exists i :: 0 <= i < |args| && parameters[i].value == name
    ensures forall name :: name in r ==> r[name] in args
  {
    if |args| == 0 then map[]
    else Bind(parameters, args[..|args| - 1])[parameters[|args| - 1].value := args[|args| - 1]]
  }

  // ---------------------------------------------------------------------
  // Frames and the closures that refer to them

  /** The bindings of `frame`; a frame the heap does not list has none. */
  function StoreOf(heap: Heap, frame: Environment): Store
  {
    if frame in heap then heap[frame] else map[]
  }

  /** `store` with `name` bound to `value`: what `Set` does to a frame. */
  function Rebind(store: Store, name: string, value: Binding): Store
  {
    store[name := value]
  }

  /** The innermost binding of `name` in the frames from `env` outwards. */
  function Lookup(name: string, env: Environment, heap: Heap): (r: Option<Binding>)
    requires env.Chained()
    ensures name in StoreOf(heap, env) ==> r == Some(StoreOf(heap, env)[name])
    ensures name !in StoreOf(heap, env) && env.outer == null ==> r == None
    decreases env.depth
  {
    if name in StoreOf(heap, env) then Some(StoreOf(heap, env)[name])
    else if env.outer == null then None
    else Lookup(name, env.outer, heap)
  }

  /** Every closure `o` holds, through any number of ReturnValue wrappers,
      was created in a frame of `heap`. Arrays and maps are not looked into:
      evaluation never takes a value out of them. */
  predicate ObjIn(o: Obj, heap: Heap)
    decreases o
  {
    match o
    case Function(f) => f.env in heap
    case ReturnValue(Some(v)) => ObjIn(v, heap)
    case _ => true
  }

  predicate BindingIn(b: Binding, heap: Heap)
  {
    b.None? || ObjIn(b.value, heap)
  }

  predicate OutcomeIn(o: Outcome, heap: Heap)
  {
    o.Normal? ==> BindingIn(o.result, heap)
  }

  /** The heap lists the frames around each of its frames and the frames of
      the closures they bind. */
  ghost predicate Closed(heap: Heap)
  {
    forall f :: f in heap ==>
      && f.Chained()
      && (f.outer != null ==> f.outer in heap)
      && forall name :: name in heap[f] ==> BindingIn(heap[f][name], heap)
  }

  /** The heap holds the bindings each of its frames holds now. */
  ghost predicate Mirrors(heap: Heap)
    reads heap.Keys
  {
    forall f :: f in heap ==> f.store == heap[f]
  }

  /** A heap that describes `env` and everything reachable from it. */
  ghost predicate Ready(env: Environment, heap: Heap)
    reads heap.Keys
  {
    env.Chained() && env in heap && Closed(heap) && Mirrors(heap)
  }

  lemma {:induction false} ObjInGrows(o: Obj, small: Heap, large: Heap)
    requires ObjIn(o, small) && small.Keys <= large.Keys
    ensures ObjIn(o, large)
    decreases o
  {
    if o.ReturnValue? && o.returned.Some? {
      ObjInGrows(o.returned.value, small, large);
    }
  }

  lemma BindingInGrows(b: Binding, small: Heap, large: Heap)
    requires BindingIn(b, small) && small.Keys <= large.Keys
    ensures BindingIn(b, large)
  {
    if b.Some? {
      ObjInGrows(b.value, small, large);
    }
  }

  /** A closed heap stays closed when a frame is added whose enclosing
      frame and bindings it already covers. */
  lemma ClosedExtend(heap: Heap, frame: Environment, store: Store)
    requires Closed(heap) && frame !in heap && frame.Chained() && frame.outer != null && frame.outer in heap
    requires forall name :: name in store ==> BindingIn(store[name], heap)
    ensures Closed(heap[frame := store])
  {
    var large := heap[frame := store];
    forall f, name | f in large && name in large[f]
      ensures BindingIn(large[f][name], large)
    {
      BindingInGrows(large[f][name], heap, large);
    }
  }

  /** A closed heap stays closed when a frame it lists binds one more name
      to a value it covers. */
  lemma ClosedBind(heap: Heap, frame: Environment, name: string, value: Binding)
    requires Closed(heap) && frame in heap && BindingIn(value, heap)
    ensures Closed(heap[frame := Rebind(heap[frame], name, value)])
  {
    var large := heap[frame := Rebind(heap[frame], name, value)];
    assert large.Keys == heap.Keys;
    forall f, n | f in large && n in large[f]
      ensures BindingIn(large[f][n], large)
    {
      BindingInGrows(large[f][n], heap, large);
    }
  }

  /** `Get` finds what `Lookup` finds in a heap that mirrors the frames,
      and what it finds is covered by the heap. */
  lemma {:induction false} GetIsLookup(env: Environment, name: string, heap: Heap)
    requires Ready(env, heap)
    ensures env.Get(name) == Lookup(name, env, heap)
    ensures env.Get(name).Some? ==> BindingIn(env.Get(name).value, heap)
    decreases env.depth
  {
    if name !in env.store && env.outer != null {
      GetIsLookup(env.outer, name, heap);
    }
  }

  // ---------------------------------------------------------------------
  // The reference semantics

  /** `closure` is what the function literal `fn(parameters) body` evaluates
      to in `env`. */
  predicate Fits(closure: FunctionObject, parameters: seq<Ast.Identifier>, body: Ast.Block, env: Environment)
  {
    closure.parameters == parameters && closure.body == body && closure.env == env
  }

  /** `frame` can be the fresh frame of a call of a closure created in
      `outer`. */
  predicate FreshFrame(frame: Environment, outer: Environment, heap: Heap)
  {
    frame !in heap && frame.outer == outer && outer.depth < frame.depth
  }

  /** Evaluating `e` in the frame `env`: the run it ends with. `supply` lists
      the objects it allocates, in order; `fuel` bounds the depth of nested
      calls. Only `env` and frames created on the way can have new bindings
      afterwards (an `if` evaluates its blocks in the same frame, so `let`
      inside them binds there). */
  function ExprSpec(e: Ast.Expression, env: Environment, heap: Heap, supply: seq<Alloc>, fuel: nat): (r: Run)
    requires env.Chained()
    decreases fuel, 1, e
  {
    match e
    case Ident(id) => Run(Normal(IdentifierStep(Lookup(id.value, env, heap), id.value)), heap, supply)
    case IntegerLiteral(_, v) => Run(Normal(Some(Integer(v))), heap, supply)
    case BooleanLiteral(_, b) => Run(Normal(Some(NativeBoolToBooleanObject(b))), heap, supply)
    case StringLiteral(_, s) => Run(Normal(Some(Str(s))), heap, supply)
    case PrefixExpression(_, operator, right) =>
      var r := ExprSpec(right, env, heap, supply, fuel);
      if !Continues(r.outcome) then r else r.(outcome := PrefixStep(operator, r.outcome.result))
    case InfixExpression(_, operator, left, right) =>
      var l := ExprSpec(left, env, heap, supply, fuel);
      if !Continues(l.outcome) then l
      else
        var r := ExprSpec(right, env, l.heap, l.rest, fuel);
        if !Continues(r.outcome) then r
        else r.(outcome := InfixStep(operator, l.outcome.result, r.outcome.result))
    case IfExpression(_, condition, consequence, alternative) =>
      var c := ExprSpec(condition, env, heap, supply, fuel);
      if !Continues(c.outcome) then c
      else if c.outcome.result.None? then c.(outcome := Panic(NIL_DEREFERENCE))
      else if IsTruthy(c.outcome.result.value) then
        BlockSpec(consequence.statements, env, c.heap, c.rest, fuel, Normal(None))
      else if alternative.Some? then
        BlockSpec(alternative.value.statements, env, c.heap, c.rest, fuel, Normal(None))
      else c.(outcome := Normal(Some(Null)))
    case FunctionLiteral(_, parameters, body) =>
      if supply != [] && supply[0].NewClosure? && Fits(supply[0].closure, parameters, body, env)
      then Run(Normal(Some(Function(supply[0].closure))), heap, supply[1..])
      else Run(Stuck, heap, supply)
    case CallExpression(_, callee, arguments) =>
      var c := ExprSpec(callee, env, heap, supply, fuel);
      if !Continues(c.outcome) then c
      else
        var args := ExprsSpec(arguments, env, c.heap, c.rest, fuel, []);
        if args.outcome.Stopped? then Run(args.outcome.outcome, args.heap, args.rest)
        else ApplySpec(c.outcome.result, args.outcome.values, args.heap, args.rest, fuel)
    case _ => Run(Normal(None), heap, supply)
  }

  /** `Eval` of an optional expression: a missing one is Go's `nil`
      interface, which falls to the default case. */
  function OptionalSpec(e: Option<Ast.Expression>, env: Environment, heap: Heap, supply: seq<Alloc>, fuel: nat): (r: Run)
    requires env.Chained()
    decreases fuel, 1, e
  {
    if e.None? then Run(Normal(None), heap, supply) else ExprSpec(e.value, env, heap, supply, fuel)
  }

  function StmtSpec(s: Ast.Statement, env: Environment, heap: Heap, supply: seq<Alloc>, fuel: nat): (r: Run)
    requires env.Chained()
    decreases fuel, 1, s
  {
    match s
    case LetStatement(_, name, value) =>
      var v := OptionalSpec(value, env, heap, supply, fuel);
      if !Continues(v.outcome) then v
      else Run(Normal(None), v.heap[env := Rebind(StoreOf(v.heap, env), name.value, v.outcome.result)], v.rest)
    case ReturnStatement(_, value) =>
      var v := OptionalSpec(value, env, heap, supply, fuel);
      if !Continues(v.outcome) then v else v.(outcome := ReturnStep(v.outcome.result))
    case ExpressionStatement(_, expression) => OptionalSpec(expression, env, heap, supply, fuel)
    case BlockStatement(block) => BlockSpec(block.statements, env, heap, supply, fuel, Normal(None))
  }

  /** `evalBlockStatement` from the statements `rest` on, `last` being the
      result of the statement before them. */
  function BlockSpec(rest: seq<Ast.Statement>, env: Environment, heap: Heap, supply: seq<Alloc>, fuel: nat,
                     last: Outcome): (r: Run)
    requires env.Chained()
    decreases fuel, 1, rest
  {
    if rest == [] then Run(last, heap, supply)
    else
      var s := StmtSpec(rest[0], env, heap, supply, fuel);
      if BlockStops(s.outcome) then s else BlockSpec(rest[1..], env, s.heap, s.rest, fuel, s.outcome)
  }

  /** `evalProgram` from the statements `rest` on: like a block, except
      that a ReturnValue is unwrapped. */
  function ProgramSpec(rest: seq<Ast.Statement>, env: Environment, heap: Heap, supply: seq<Alloc>, fuel: nat,
                       last: Outcome): (r: Run)
    requires env.Chained()
    decreases fuel, 1, rest
  {
    if rest == [] then Run(last, heap, supply)
    else
      var s := StmtSpec(rest[0], env, heap, supply, fuel);
      if s.outcome.Normal? && s.outcome.result.Some? && s.outcome.result.value.ReturnValue? then
        s.(outcome := Normal(s.outcome.result.value.returned))
      else if !Continues(s.outcome) then s
      else ProgramSpec(rest[1..], env, s.heap, s.rest, fuel, s.outcome)
  }

  /** `evalExpressions` from the expressions `rest` on, `done` holding the
      values so far. */
  function ExprsSpec(rest: seq<Ast.Expression>, env: Environment, heap: Heap, supply: seq<Alloc>, fuel: nat,
                     done: seq<Binding>): (r: ListRun)
    requires env.Chained()
    decreases fuel, 1, rest
  {
    if rest == [] then ListRun(Values(done), heap, supply)
    else
      var e := ExprSpec(rest[0], env, heap, supply, fuel);
      if !Continues(e.outcome) then ListRun(Stopped(e.outcome), e.heap, e.rest)
      else ExprsSpec(rest[1..], env, e.heap, e.rest, fuel, done + [e.outcome.result])
  }

  /** `evalCallExpression` followed by `unwrapReturnValue`: only a Function
      can be called; its body runs in a fresh frame enclosed by the frame
      the function was created in, holding the arguments. Calls leave every
      frame that existed before them as it was. */
  function ApplySpec(f: Binding, args: seq<Binding>, heap: Heap, supply: seq<Alloc>, fuel: nat): (r: Run)
    decreases fuel, 0
  {
    if f.None? then Run(Panic(NIL_DEREFERENCE), heap, supply)
    else if !f.value.Function? then Run(Normal(Some(Error("not a function: " + f.value.Type()))), heap, supply)
    else
      var closure := f.value.fn;
      if !(supply != [] && supply[0].NewFrame? && FreshFrame(supply[0].frame, closure.env, heap)) then
        Run(Stuck, heap, supply)
      else if |args| > |closure.parameters| then Run(Panic(INDEX_OUT_OF_RANGE), heap, supply[1..])
      else if fuel == 0 then Run(OutOfFuel, heap, supply[1..])
      else
        var frame := supply[0].frame;
        var body := BlockSpec(closure.body.statements, frame, heap[frame := Bind(closure.parameters, args)],
                              supply[1..], fuel - 1, Normal(None));
        body.(outcome := UnwrapOutcome(body.outcome))
  }

  // ---------------------------------------------------------------------
  // Evaluation takes the objects it allocates from the front of the supply

  /** A run that did not get stuck used a prefix of its supply: handed more
      objects after it, it ends the same way and leaves them unused. */
  lemma {:induction false} ExprSupply(e: Ast.Expression, env: Environment, heap: Heap, supply: seq<Alloc>,
                                      more: seq<Alloc>, fuel: nat)
    requires env.Chained() && !ExprSpec(e, env, heap, supply, fuel).outcome.Stuck?
    ensures ExprSpec(e, env, heap, supply + more, fuel) == ExprSpec(e, env, heap, supply, fuel).Extend(more)
    decreases fuel, 1, e, 1
  {
    match e
    case PrefixExpression(_, _, right) =>
      ExprSupply(right, env, heap, supply, more, fuel);
    case InfixExpression(_, _, left, right) =>
      ExprSupply(left, env, heap, supply, more, fuel);
      var l := ExprSpec(left, env, heap, supply, fuel);
      if Continues(l.outcome) {
        ExprSupply(right, env, l.heap, l.rest, more, fuel);
      }
    case IfExpression(_, _, _, _) =>
      IfSupply(e, env, heap, supply, more, fuel);
    case FunctionLiteral(_, _, _) =>
      assert (supply + more)[0] == supply[0];
      assert (supply + more)[1..] == supply[1..] + more;
    case CallExpression(_, _, _) =>
      CallSupply(e, env, heap, supply, more, fuel);
    case _ =>
  }

  lemma {:induction false} IfSupply(e: Ast.Expression, env: Environment, heap: Heap, supply: seq<Alloc>,
                                    more: seq<Alloc>, fuel: nat)
    requires e.IfExpression? && env.Chained() && !ExprSpec(e, env, heap, supply, fuel).outcome.Stuck?
    ensures ExprSpec(e, env, heap, supply + more, fuel) == ExprSpec(e, env, heap, supply, fuel).Extend(more)
    decreases fuel, 1, e, 0
  {
    ExprSupply(e.condition, env, heap, supply, more, fuel);
    var c := ExprSpec(e.condition, env, heap, supply, fuel);
    if Continues(c.outcome) && c.outcome.result.Some? {
      if IsTruthy(c.outcome.result.value) {
        BlockSupply(e.consequence.statements, env, c.heap, c.rest, more, fuel, Normal(None));
      } else if e.alternative.Some? {
        BlockSupply(e.alternative.value.statements, env, c.heap, c.rest, more, fuel, Normal(None));
      }
    }
  }

  lemma {:induction false} CallSupply(e: Ast.Expression, env: Environment, heap: Heap, supply: seq<Alloc>,
                                      more: seq<Alloc>, fuel: nat)
    requires e.CallExpression? && env.Chained() && !ExprSpec(e, env, heap, supply, fuel).outcome.Stuck?
    ensures ExprSpec(e, env, heap, supply + more, fuel) == ExprSpec(e, env, heap, supply, fuel).Extend(more)
    decreases fuel, 1, e, 0
  {
    ExprSupply(e.callee, env, heap, supply, more, fuel);
    var c := ExprSpec(e.callee, env, heap, supply, fuel);
    if Continues(c.outcome) {
      ExprsSupply(e.arguments, env, c.heap, c.rest, more, fuel, []);
      var args := ExprsSpec(e.arguments, env, c.heap, c.rest, fuel, []);
      if args.outcome.Values? {
        ApplySupply(c.outcome.result, args.outcome.values, args.heap, args.rest, more, fuel);
      }
    }
  }

  lemma {:induction false} OptionalSupply(e: Option<Ast.Expression>, env: Environment, heap: Heap,
                                          supply: seq<Alloc>, more: seq<Alloc>, fuel: nat)
    requires env.Chained() && !OptionalSpec(e, env, heap, supply, fuel).outcome.Stuck?
    ensures OptionalSpec(e, env, heap, supply + more, fuel) == OptionalSpec(e, env, heap, supply, fuel).Extend(more)
    decreases fuel, 1, e
  {
    if e.Some? {
      ExprSupply(e.value, env, heap, supply, more, fuel);
    }
  }

  lemma {:induction false} StmtSupply(s: Ast.Statement, env: Environment, heap: Heap, supply: seq<Alloc>,
                                      more: seq<Alloc>, fuel: nat)
    requires env.Chained() && !StmtSpec(s, env, heap, supply, fuel).outcome.Stuck?
    ensures StmtSpec(s, env, heap, supply + more, fuel) == StmtSpec(s, env, heap, supply, fuel).Extend(more)
    decreases fuel, 1, s
  {
    match s
    case LetStatement(_, _, value) =>
      OptionalSupply(value, env, heap, supply, more, fuel);
    case ReturnStatement(_, value) =>
      OptionalSupply(value, env, heap, supply, more, fuel);
    case ExpressionStatement(_, expression) =>
      OptionalSupply(expression, env, heap, supply, more, fuel);
    case BlockStatement(block) =>
      BlockSupply(block.statements, env, heap, supply, more, fuel, Normal(None));
  }

  lemma {:induction false} BlockSupply(rest: seq<Ast.Statement>, env: Environment, heap: Heap, supply: seq<Alloc>,
                                       more: seq<Alloc>, fuel: nat, last: Outcome)
    requires env.Chained() && !BlockSpec(rest, env, heap, supply, fuel, last).outcome.Stuck?
    ensures BlockSpec(rest, env, heap, supply + more, fuel, last) == BlockSpec(rest, env, heap, supply, fuel, last).Extend(more)
    decreases fuel, 1, rest
  {
    if rest != [] {
      StmtSupply(rest[0], env, heap, supply, more, fuel);
      var s := StmtSpec(rest[0], env, heap, supply, fuel);
      if !BlockStops(s.outcome) {
        BlockSupply(rest[1..], env, s.heap, s.rest, more, fuel, s.outcome);
      }
    }
  }

  lemma {:induction false} ProgramSupply(rest: seq<Ast.Statement>, env: Environment, heap: Heap, supply: seq<Alloc>,
                                         more: seq<Alloc>, fuel: nat, last: Outcome)
    requires env.Chained() && !ProgramSpec(rest, env, heap, supply, fuel, last).outcome.Stuck?
    ensures ProgramSpec(rest, env, heap, supply + more, fuel, last) == ProgramSpec(rest, env, heap, supply, fuel, last).Extend(more)
    decreases fuel, 1, rest
  {
    if rest != [] {
      StmtSupply(rest[0], env, heap, supply, more, fuel);
      var s := StmtSpec(rest[0], env, heap, supply, fuel);
      if Continues(s.outcome) && !(s.outcome.result.Some? && s.outcome.result.value.ReturnValue?) {
        ProgramSupply(rest[1..], env, s.heap, s.rest, more, fuel, s.outcome);
      }
    }
  }

  lemma {:induction false} ExprsSupply(rest: seq<Ast.Expression>, env: Environment, heap: Heap, supply: seq<Alloc>,
                                       more: seq<Alloc>, fuel: nat, done: seq<Binding>)
    requires env.Chained() && !ExprsSpec(rest, env, heap, supply, fuel, done).Stuck()
    ensures ExprsSpec(rest, env, heap, supply + more, fuel, done) == ExprsSpec(rest, env, heap, supply, fuel, done).Extend(more)
    decreases fuel, 1, rest
  {
    if rest != [] {
      ExprSupply(rest[0], env, heap, supply, more, fuel);
      var e := ExprSpec(rest[0], env, heap, supply, fuel);
      if Continues(e.outcome) {
        ExprsSupply(rest[1..], env, e.heap, e.rest, more, fuel, done + [e.outcome.result]);
      }
    }
  }

  lemma {:induction false} ApplySupply(f: Binding, args: seq<Binding>, heap: Heap, supply: seq<Alloc>,
                                       more: seq<Alloc>, fuel: nat)
    requires !ApplySpec(f, args, heap, supply, fuel).outcome.Stuck?
    ensures ApplySpec(f, args, heap, supply + more, fuel) == ApplySpec(f, args, heap, supply, fuel).Extend(more)
    decreases fuel, 0
  {
    if f.Some? && f.value.Function? {
      assert (supply + more)[0] == supply[0];
      assert (supply + more)[1..] == supply[1..] + more;
      var closure := f.value.fn;
      if |args| <= |closure.parameters| && fuel > 0 {
        var frame := supply[0].frame;
        BlockSupply(closure.body.statements, frame, heap[frame := Bind(closure.parameters, args)],
                    supply[1..], more, fuel - 1, Normal(None));
      }
    }
  }

  // ---------------------------------------------------------------------
  // Evaluation changes the bindings of its own frame only

  /** `after` still lists every frame of `before`, and all of them except
      `env` have the bindings they had. */
  predicate KeepsOthers(before: Heap, after: Heap, env: Environment)
  {
    before.Keys <= after.Keys && forall f :: f in before && f != env ==> after[f] == before[f]
  }

  /** `after` still lists every frame of `before`, each with the bindings it
      had. */
  predicate KeepsAll(before: Heap, after: Heap)
  {
    before.Keys <= after.Keys && forall f :: f in before ==> after[f] == before[f]
  }

  /** Evaluating an expression in `env` can bind names in `env` (a `let`
      inside an `if` block) and in frames it creates, but in no other frame
      that existed before. */
  lemma {:induction false} ExprFrames(e: Ast.Expression, env: Environment, heap: Heap, supply: seq<Alloc>, fuel: nat)
    requires env.Chained()
    ensures KeepsOthers(heap, ExprSpec(e, env, heap, supply, fuel).heap, env)
    decreases fuel, 1, e, 1
  {
    match e
    case PrefixExpression(_, _, right) =>
      ExprFrames(right, env, heap, supply, fuel);
    case InfixExpression(_, _, left, right) =>
      ExprFrames(left, env, heap, supply, fuel);
      var l := ExprSpec(left, env, heap, supply, fuel);
      if Continues(l.outcome) {
        ExprFrames(right, env, l.heap, l.rest, fuel);
      }
    case IfExpression(_, _, _, _) =>
      IfFrames(e, env, heap, supply, fuel);
    case CallExpression(_, _, _) =>
      CallFrames(e, env, heap, supply, fuel);
    case _ =>
  }

  lemma {:induction false} IfFrames(e: Ast.Expression, env: Environment, heap: Heap, supply: seq<Alloc>, fuel: nat)
    requires e.IfExpression? && env.Chained()
    ensures KeepsOthers(heap, ExprSpec(e, env, heap, supply, fuel).heap, env)
    decreases fuel, 1, e, 0
  {
    ExprFrames(e.condition, env, heap, supply, fuel);
    var c := ExprSpec(e.condition, env, heap, supply, fuel);
    if Continues(c.outcome) && c.outcome.result.Some? {
      if IsTruthy(c.outcome.result.value) {
        BlockFrames(e.consequence.statements, env, c.heap, c.rest, fuel, Normal(None));
      } else if e.alternative.Some? {
        BlockFrames(e.alternative.value.statements, env, c.heap, c.rest, fuel, Normal(None));
      }
    }
  }

  lemma {:induction false} CallFrames(e: Ast.Expression, env: Environment, heap: Heap, supply: seq<Alloc>, fuel: nat)
    requires e.CallExpression? && env.Chained()
    ensures KeepsOthers(heap, ExprSpec(e, env, heap, supply, fuel).heap, env)
    decreases fuel, 1, e, 0
  {
    ExprFrames(e.callee, env, heap, supply, fuel);
    var c := ExprSpec(e.callee, env, heap, supply, fuel);
    if Continues(c.outcome) {
      ExprsFrames(e.arguments, env, c.heap, c.rest, fuel, []);
      var args := ExprsSpec(e.arguments, env, c.heap, c.rest, fuel, []);
      if args.outcome.Values? {
        ApplyFrames(c.outcome.result, args.outcome.values, args.heap, args.rest, fuel);
      }
    }
  }

  lemma {:induction false} OptionalFrames(e: Option<Ast.Expression>, env: Environment, heap: Heap,
                                          supply: seq<Alloc>, fuel: nat)
    requires env.Chained()
    ensures KeepsOthers(heap, OptionalSpec(e, env, heap, supply, fuel).heap, env)
    decreases fuel, 1, e
  {
    if e.Some? {
      ExprFrames(e.value, env, heap, supply, fuel);
    }
  }

  lemma {:induction false} StmtFrames(s: Ast.Statement, env: Environment, heap: Heap, supply: seq<Alloc>, fuel: nat)
    requires env.Chained()
    ensures KeepsOthers(heap, StmtSpec(s, env, heap, supply, fuel).heap, env)
    decreases fuel, 1, s
  {
    match s
    case LetStatement(_, _, value) =>
      OptionalFrames(value, env, heap, supply, fuel);
    case ReturnStatement(_, value) =>
      OptionalFrames(value, env, heap, supply, fuel);
    case ExpressionStatement(_, expression) =>
      OptionalFrames(expression, env, heap, supply, fuel);
    case BlockStatement(block) =>
      BlockFrames(block.statements, env, heap, supply, fuel, Normal(None));
  }

  lemma {:induction false} BlockFrames(rest: seq<Ast.Statement>, env: Environment, heap: Heap, supply: seq<Alloc>,
                                       fuel: nat, last: Outcome)
    requires env.Chained()
    ensures KeepsOthers(heap, BlockSpec(rest, env, heap, supply, fuel, last).heap, env)
    decreases fuel, 1, rest
  {
    if rest != [] {
      StmtFrames(rest[0], env, heap, supply, fuel);
      var s := StmtSpec(rest[0], env, heap, supply, fuel);
      if !BlockStops(s.outcome) {
        BlockFrames(rest[1..], env, s.heap, s.rest, fuel, s.outcome);
      }
    }
  }

  lemma {:induction false} ProgramFrames(rest: seq<Ast.Statement>, env: Environment, heap: Heap, supply: seq<Alloc>,
                                         fuel: nat, last: Outcome)
    requires env.Chained()
    ensures KeepsOthers(heap, ProgramSpec(rest, env, heap, supply, fuel, last).heap, env)
    decreases fuel, 1, rest
  {
    if rest != [] {
      StmtFrames(rest[0], env, heap, supply, fuel);
      var s := StmtSpec(rest[0], env, heap, supply, fuel);
      if Continues(s.outcome) && !(s.outcome.result.Some? && s.outcome.result.value.ReturnValue?) {
        ProgramFrames(rest[1..], env, s.heap, s.rest, fuel, s.outcome);
      }
    }
  }

  lemma {:induction false} ExprsFrames(rest: seq<Ast.Expression>, env: Environment, heap: Heap, supply: seq<Alloc>,
                                       fuel: nat, done: seq<Binding>)
    requires env.Chained()
    ensures KeepsOthers(heap, ExprsSpec(rest, env, heap, supply, fuel, done).heap, env)
    decreases fuel, 1, rest
  {
    if rest != [] {
      ExprFrames(rest[0], env, heap, supply, fuel);
      var e := ExprSpec(rest[0], env, heap, supply, fuel);
      if Continues(e.outcome) {
        ExprsFrames(rest[1..], env, e.heap, e.rest, fuel, done + [e.outcome.result]);
      }
    }
  }

  /** A call binds names only in the frame it creates and in frames created
      during it: every frame that existed before keeps its bindings, the
      caller's included. */
  lemma {:induction false} ApplyFrames(f: Binding, args: seq<Binding>, heap: Heap, supply: seq<Alloc>, fuel: nat)
    ensures KeepsAll(heap, ApplySpec(f, args, heap, supply, fuel).heap)
    decreases fuel, 0
  {
    if f.Some? && f.value.Function? && supply != [] && supply[0].NewFrame?
       && FreshFrame(supply[0].frame, f.value.fn.env, heap)
       && |args| <= |f.value.fn.parameters| && fuel > 0 {
      var closure := f.value.fn;
      var frame := supply[0].frame;
      BlockFrames(closure.body.statements, frame, heap[frame := Bind(closure.parameters, args)],
                  supply[1..], fuel - 1, Normal(None));
    }
  }

  // ---------------------------------------------------------------------
  // Sequences of statements and expressions

  /** A block is its first part followed by its second: the second part
      runs only when the first did not stop, from the first part's frames,
      unused objects and result. In particular nothing after a ReturnValue
      or an Error is evaluated. */
  lemma {:induction false} BlockSpecAppend(ss1: seq<Ast.Statement>, ss2: seq<Ast.Statement>, env: Environment,
                                           heap: Heap, supply: seq<Alloc>, fuel: nat, last: Outcome)
    requires env.Chained() && !BlockStops(last)
    ensures var r := BlockSpec(ss1, env, heap, supply, fuel, last);
      BlockSpec(ss1 + ss2, env, heap, supply, fuel, last)
      == if BlockStops(r.outcome) then r else BlockSpec(ss2, env, r.heap, r.rest, fuel, r.outcome)
    decreases ss1
  {
    if ss1 == [] {
      assert ss1 + ss2 == ss2;
    } else {
      assert (ss1 + ss2)[0] == ss1[0];
      assert (ss1 + ss2)[1..] == ss1[1..] + ss2;
      var s := StmtSpec(ss1[0], env, heap, supply, fuel);
      if !BlockStops(s.outcome) {
        BlockSpecAppend(ss1[1..], ss2, env, s.heap, s.rest, fuel, s.outcome);
      }
    }
  }

  /** A program is evaluated like a block whose final result has one
      ReturnValue stripped: both stop at the first ReturnValue or Error
      and bind the same names on the way. */
  lemma {:induction false} ProgramIsUnwrappedBlock(ss: seq<Ast.Statement>, env: Environment, heap: Heap,
                                                   supply: seq<Alloc>, fuel: nat, last: Outcome)
    requires env.Chained() && !BlockStops(last)
    ensures var r := BlockSpec(ss, env, heap, supply, fuel, last);
      ProgramSpec(ss, env, heap, supply, fuel, last) == r.(outcome := UnwrapOutcome(r.outcome))
    decreases ss
  {
    if ss != [] {
      var s := StmtSpec(ss[0], env, heap, supply, fuel);
      if !BlockStops(s.outcome) {
        ProgramIsUnwrappedBlock(ss[1..], env, s.heap, s.rest, fuel, s.outcome);
      }
    }
  }

  /** A list of expressions is its first part followed by its second. */
  lemma {:induction false} ExprsSpecAppend(es1: seq<Ast.Expression>, es2: seq<Ast.Expression>, env: Environment,
                                           heap: Heap, supply: seq<Alloc>, fuel: nat, done: seq<Binding>)
    requires env.Chained()
    ensures var r := ExprsSpec(es1, env, heap, supply, fuel, done);
      ExprsSpec(es1 + es2, env, heap, supply, fuel, done)
      == if r.outcome.Stopped? then r else ExprsSpec(es2, env, r.heap, r.rest, fuel, r.outcome.values)
    decreases es1
  {
    if es1 == [] {
      assert es1 + es2 == es2;
    } else {
      assert (es1 + es2)[0] == es1[0];
      assert (es1 + es2)[1..] == es1[1..] + es2;
      var e := ExprSpec(es1[0], env, heap, supply, fuel);
      if Continues(e.outcome) {
        ExprsSpecAppend(es1[1..], es2, env, e.heap, e.rest, fuel, done + [e.outcome.result]);
      }
    }
  }

  /** `return v` stops the enclosing block, and the unwrapping at the end
      of a call or a program gives back exactly `v`, an Error included
      (which `return` does not wrap). */
  lemma ReturnRoundTrip(value: Binding)
    ensures UnwrapOutcome(ReturnStep(value)) == Normal(value)
    ensures BlockStops(ReturnStep(value))
  {
  }

  /** Unwrapping keeps an outcome's objects within the heap's closures. */
  lemma UnwrapOutcomeIn(o: Outcome, heap: Heap)
    requires OutcomeIn(o, heap)
    ensures OutcomeIn(UnwrapOutcome(o), heap)
  {
  }

    /** Only a Function can be called: a nil callee is a nil dereference in
      Go, and any other object gives the "not a function" Error. Neither
      allocates a frame or changes a binding. */
  lemma UncallableCallee(f: Binding, args: seq<Binding>, heap: Heap, supply: seq<Alloc>, fuel: nat)
    requires f.None? || !f.value.Function?
    ensures f.None? ==> ApplySpec(f, args, heap, supply, fuel) == Run(Panic(NIL_DEREFERENCE), heap, supply)
    ensures f.Some? ==>
      ApplySpec(f, args, heap, supply, fuel) == Run(Normal(Some(Error("not a function: " + f.value.Type()))), heap, supply)
  {
  }

/** A call that stops before running the body: too many arguments, or no fuel left. */
  lemma CallStops(f: Binding, args: seq<Binding>, heap: Heap, frame: Environment, fuel: nat)
    requires f.Some? && f.value.Function? && FreshFrame(frame, f.value.fn.env, heap)
    requires |args| > |f.value.fn.parameters| || fuel == 0
    ensures ApplySpec(f, args, heap, [NewFrame(frame)], fuel)
         == Run(if |args| > |f.value.fn.parameters| then Panic(INDEX_OUT_OF_RANGE) else OutOfFuel, heap, [])
  {
    assert [NewFrame(frame)][1..] == [];
  }

  /** A call of a closure whose arguments fit its parameters, with fuel
      left, runs the body in the fresh frame and unwraps its result. */
  lemma CallRunsBody(f: Binding, args: seq<Binding>, heap: Heap, frame: Environment, bodyAllocs: seq<Alloc>,
                     fuel: nat, result: Outcome, heap': Heap)
    requires f.Some? && f.value.Function? && FreshFrame(frame, f.value.fn.env, heap)
    requires |args| <= |f.value.fn.parameters| && fuel > 0
    requires frame.Chained()
    requires BlockSpec(f.value.fn.body.statements, frame, heap[frame := Bind(f.value.fn.parameters, args)],
                       bodyAllocs, fuel - 1, Normal(None)) == Run(result, heap', [])
    ensures ApplySpec(f, args, heap, [NewFrame(frame)] + bodyAllocs, fuel) == Run(UnwrapOutcome(result), heap', [])
  {
    assert ([NewFrame(frame)] + bodyAllocs)[1..] == bodyAllocs;
  }
}
