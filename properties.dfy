/** What the reference semantics promises about the language: how `let`,
    `if`, errors, calls and closures behave, for every program. */
module Properties {
  import opened Wrappers
  import opened Object
  import opened Operators
  import opened Semantics
  import Ast

  /** Evaluating a list of expressions gives either one value per
      expression, none of them an Error, or the first outcome that is not
      a value to go on with. */
  lemma {:induction false} ExprsAllOrFirstStop(es: seq<Ast.Expression>, env: Environment, heap: Heap,
                                               supply: seq<Alloc>, fuel: nat, done: seq<Binding>)
    requires env.Chained()
    ensures var r := ExprsSpec(es, env, heap, supply, fuel, done).outcome;
      (r.Values? ==>
        |r.values| == |done| + |es| && r.values[..|done|] == done
        && forall i :: |done| <= i < |r.values| ==> !IsError(r.values[i]))
      && (r.Stopped? ==> !Continues(r.outcome))
    decreases es
  {
    if es != [] {
      var e := ExprSpec(es[0], env, heap, supply, fuel);
      if Continues(e.outcome) {
        ExprsAllOrFirstStop(es[1..], env, e.heap, e.rest, fuel, done + [e.outcome.result]);
        var r := ExprsSpec(es, env, heap, supply, fuel, done).outcome;
        if r.Values? {
          assert r.values[..|done| + 1] == done + [e.outcome.result] by {
            assert r.values[..|done| + 1][..|done|] == r.values[..|done|];
          }
          assert r.values[..|done|] == r.values[..|done| + 1][..|done|];
        }
      }
    }
  }

  /** A call binds its arguments by position: parameter `i` sees argument
      `i` unless a later parameter has the same name. */
  lemma {:induction false} BindPositional(parameters: seq<Ast.Identifier>, args: seq<Binding>, i: nat)
    requires |args| <= |parameters| && i < |args|
    requires forall j :: i < j < |args| ==> parameters[j].value != parameters[i].value
    ensures parameters[i].value in Bind(parameters, args)
    ensures Bind(parameters, args)[parameters[i].value] == args[i]
    decreases |args|
  {
    if i < |args| - 1 {
      var shorter := args[..|args| - 1];
      assert shorter[i] == args[i];
      BindPositional(parameters, shorter, i);
    }
  }

  /** `let` binds in the current frame and yields `nil`; afterwards the
      name finds the value even if an enclosing frame binds it too, and
      every other frame is as the value left it. An Error or a panic in the
      value is the statement's result, with nothing bound. */
  lemma LetBinds(tok: Ast.Token, name: Ast.Identifier, value: Ast.Expression, env: Environment, heap: Heap,
                 supply: seq<Alloc>, fuel: nat)
    requires env.Chained()
    ensures var v := ExprSpec(value, env, heap, supply, fuel);
      var s := StmtSpec(Ast.LetStatement(tok, name, Some(value)), env, heap, supply, fuel);
      (Continues(v.outcome) ==>
        && s.outcome == Normal(None) && s.rest == v.rest
        && Lookup(name.value, env, s.heap) == Some(v.outcome.result)
        && ExprSpec(Ast.Ident(name), env, s.heap, s.rest, fuel).outcome == Normal(v.outcome.result)
        && v.heap.Keys <= s.heap.Keys
        && (forall f :: f in v.heap && f != env ==> s.heap[f] == v.heap[f]))
      && (!Continues(v.outcome) ==> s == v)
  {
  }

  /** An unbound name evaluates to an "identifier not found" Error. */
  lemma UnboundIdentifier(id: Ast.Identifier, env: Environment, heap: Heap, supply: seq<Alloc>, fuel: nat)
    requires env.Chained() && Lookup(id.value, env, heap).None?
    ensures ExprSpec(Ast.Ident(id), env, heap, supply, fuel)
         == Run(Normal(Some(Error("identifier not found: " + id.value))), heap, supply)
  {
  }

  /** An `if` whose condition is 0 or "" takes the alternative, or gives
      null when there is none, exactly as for `false`. */
  lemma FalsyConditions(tok: Ast.Token, condition: Ast.Expression, consequence: Ast.Block,
                        alternative: Option<Ast.Block>, env: Environment, heap: Heap, supply: seq<Alloc>,
                        fuel: nat)
    requires env.Chained()
    requires || (condition.IntegerLiteral? && condition.intValue == 0)
             || (condition.StringLiteral? && condition.strValue == "")
             || (condition.BooleanLiteral? && !condition.boolValue)
    ensures ExprSpec(Ast.IfExpression(tok, condition, consequence, alternative), env, heap, supply, fuel)
         == if alternative.Some? then BlockSpec(alternative.value.statements, env, heap, supply, fuel, Normal(None))
            else Run(Normal(Some(Null)), heap, supply)
  {
  }

  /** An Error (or a panic) in an operand, a `let` or `return` value, an
      `if` condition or a callee is the result of the whole node: the rest
      of it is not evaluated. */
  lemma ErrorsShortCircuit(tok: Ast.Token, operator: string, first: Ast.Expression, second: Ast.Expression,
                           consequence: Ast.Block, alternative: Option<Ast.Block>, name: Ast.Identifier,
                           env: Environment, heap: Heap, supply: seq<Alloc>, fuel: nat)
    requires env.Chained() && !Continues(ExprSpec(first, env, heap, supply, fuel).outcome)
    ensures var stop := ExprSpec(first, env, heap, supply, fuel);
      && ExprSpec(Ast.InfixExpression(tok, operator, first, second), env, heap, supply, fuel) == stop
      && ExprSpec(Ast.PrefixExpression(tok, operator, first), env, heap, supply, fuel) == stop
      && ExprSpec(Ast.IfExpression(tok, first, consequence, alternative), env, heap, supply, fuel) == stop
      && ExprSpec(Ast.CallExpression(tok, first, [second]), env, heap, supply, fuel) == stop
      && StmtSpec(Ast.LetStatement(tok, name, Some(first)), env, heap, supply, fuel) == stop
      && StmtSpec(Ast.ReturnStatement(tok, Some(first)), env, heap, supply, fuel) == stop
      && ExprsSpec([first, second], env, heap, supply, fuel, []) == ListRun(Stopped(stop.outcome), stop.heap, stop.rest)
  {
  }
}

module Closures {
  import opened Wrappers
  import opened Object
  import opened Operators
  import opened Semantics
  import Ast
  import Integers
  import Text

  /** A lookup from a frame never sees a frame that is deeper than it: a
      fresh call frame is invisible from the frames around it. */
  lemma {:induction false} LookupPastDeeperFrame(name: string, env: Environment, heap: Heap,
                                                 frame: Environment, store: Store)
    requires env.Chained() && env.depth < frame.depth
    ensures Lookup(name, env, heap[frame := store]) == Lookup(name, env, heap)
    decreases env.depth
  {
    assert StoreOf(heap[frame := store], env) == StoreOf(heap, env);
    if env.outer != null {
      LookupPastDeeperFrame(name, env.outer, heap, frame, store);
    }
  }

  /** Inside a call, a parameter name finds its argument, and every other
      name is looked up from the frame the function was created in, as that
      frame is at the time of the call: scoping is lexical, and the
      caller's frames play no part. */
  lemma LexicalScoping(closure: FunctionObject, args: seq<Binding>, heap: Heap, frame: Environment, name: string)
    requires closure.env.Chained() && FreshFrame(frame, closure.env, heap) && |args| <= |closure.parameters|
    ensures frame.Chained()
    ensures var bound := Bind(closure.parameters, args);
      var entry := heap[frame := bound];
      && (name in bound ==> Lookup(name, frame, entry) == Some(bound[name]))
      && (name !in bound ==> Lookup(name, frame, entry) == Lookup(name, closure.env, heap))
  {
    LookupPastDeeperFrame(name, closure.env, heap, frame, Bind(closure.parameters, args));
  }

  /** `let f = fn(parameters) body` binds `f`, in the current frame, to
      the next fresh closure, which captures that frame. */
  lemma LetFunction(letToken: Ast.Token, fnToken: Ast.Token, name: Ast.Identifier, parameters: seq<Ast.Identifier>,
                    body: Ast.Block, closure: FunctionObject, env: Environment, heap: Heap, supply: seq<Alloc>,
                    fuel: nat)
    requires env.Chained() && Fits(closure, parameters, body, env)
    ensures StmtSpec(Ast.LetStatement(letToken, name, Some(Ast.FunctionLiteral(fnToken, parameters, body))),
                     env, heap, [NewClosure(closure)] + supply, fuel)
         == Run(Normal(None), heap[env := Rebind(StoreOf(heap, env), name.value, Some(Function(closure)))], supply)
  {
    assert ([NewClosure(closure)] + supply)[1..] == supply;
    assert ExprSpec(Ast.FunctionLiteral(fnToken, parameters, body), env, heap, [NewClosure(closure)] + supply, fuel)
        == Run(Normal(Some(Function(closure))), heap, supply);
  }

  /** Calling a name: the callee is whatever the name is bound to; then the
      arguments are evaluated, and the call runs as `ApplySpec` says. */
  lemma CallOfBoundName(callToken: Ast.Token, name: Ast.Identifier, arguments: seq<Ast.Expression>, f: Binding,
                        env: Environment, heap: Heap, supply: seq<Alloc>, fuel: nat)
    requires env.Chained() && Lookup(name.value, env, heap) == Some(f) && !IsError(f)
    ensures var args := ExprsSpec(arguments, env, heap, supply, fuel, []);
      ExprSpec(Ast.CallExpression(callToken, Ast.Ident(name), arguments), env, heap, supply, fuel)
        == if args.outcome.Stopped? then Run(args.outcome.outcome, args.heap, args.rest)
           else ApplySpec(f, args.outcome.values, args.heap, args.rest, fuel)
  {
    assert ExprSpec(Ast.Ident(name), env, heap, supply, fuel) == Run(Normal(f), heap, supply);
  }

  /** A block of one statement gives that statement's result. */
  lemma BlockOfOne(statement: Ast.Statement, env: Environment, heap: Heap, supply: seq<Alloc>, fuel: nat)
    requires env.Chained()
    ensures BlockSpec([statement], env, heap, supply, fuel, Normal(None)) == StmtSpec(statement, env, heap, supply, fuel)
  {
    assert [statement][1..] == [];
  }

  /** The last statement of a program gives the program's result, with a
      ReturnValue unwrapped. */
  lemma ProgramLastStatement(statement: Ast.Statement, env: Environment, heap: Heap, supply: seq<Alloc>, fuel: nat,
                             last: Outcome)
    requires env.Chained()
    ensures var s := StmtSpec(statement, env, heap, supply, fuel);
      ProgramSpec([statement], env, heap, supply, fuel, last)
        == if s.outcome.Normal? && s.outcome.result.Some? && s.outcome.result.value.ReturnValue?
           then s.(outcome := Normal(s.outcome.result.value.returned))
           else s
  {
    assert [statement][1..] == [];
  }

  /** `let f = fn(parameters) body; f(arguments)`: the literal takes the
      next fresh closure, which captures the current frame; `f` is bound to
      it in that frame; the arguments are evaluated there, and the call
      then runs as `ApplySpec` says. The program's result is the call's,
      with a ReturnValue the call still carries unwrapped once more. */
  lemma LetFunctionCall(letToken: Ast.Token, fnToken: Ast.Token, statementToken: Ast.Token, callToken: Ast.Token,
                        name: Ast.Identifier, parameters: seq<Ast.Identifier>, body: Ast.Block,
                        arguments: seq<Ast.Expression>, closure: FunctionObject,
                        env: Environment, heap: Heap, supply: seq<Alloc>, fuel: nat)
    requires env.Chained() && Fits(closure, parameters, body, env)
    ensures var program := [
          Ast.LetStatement(letToken, name, Some(Ast.FunctionLiteral(fnToken, parameters, body))),
          Ast.ExpressionStatement(statementToken, Some(Ast.CallExpression(callToken, Ast.Ident(name), arguments)))];
      var f: Binding := Some(Function(closure));
      var defined := heap[env := Rebind(StoreOf(heap, env), name.value, f)];
      var args := ExprsSpec(arguments, env, defined, supply, fuel, []);
      var call := if args.outcome.Stopped? then Run(args.outcome.outcome, args.heap, args.rest)
                  else ApplySpec(f, args.outcome.values, args.heap, args.rest, fuel);
      ProgramSpec(program, env, heap, [NewClosure(closure)] + supply, fuel, Normal(None))
        == if call.outcome.Normal? && call.outcome.result.Some? && call.outcome.result.value.ReturnValue?
           then call.(outcome := Normal(call.outcome.result.value.returned))
           else call
  {
    var program := [
      Ast.LetStatement(letToken, name, Some(Ast.FunctionLiteral(fnToken, parameters, body))),
      Ast.ExpressionStatement(statementToken, Some(Ast.CallExpression(callToken, Ast.Ident(name), arguments)))];
    var f: Binding := Some(Function(closure));
    var defined := heap[env := Rebind(StoreOf(heap, env), name.value, f)];
    LetFunction(letToken, fnToken, name, parameters, body, closure, env, heap, supply, fuel);
    CallOfBoundName(callToken, name, arguments, f, env, defined, supply, fuel);
    ProgramLastStatement(program[1], env, defined, supply, fuel, Normal(None));
    assert program[1..] == [program[1]];
  }

  // ---------------------------------------------------------------------
  // A closure outliving the call that created it:
  //   let newAdder = fn(x) { fn(y) { x + y } };
  //   let addTwo = newAdder(2);
  //   addTwo(3)

  function Name(text: string): Ast.Identifier
  {
    Ast.Identifier(Ast.Token(text), text)
  }

  function Number(v: Integers.Int64): Ast.Expression
  {
    Ast.IntegerLiteral(Ast.Token(Text.Decimal(v)), v)
  }

  /** `name(v)` */
  function CallOf(name: string, v: Integers.Int64): Ast.Expression
  {
    Ast.CallExpression(Ast.Token("("), Ast.Ident(Name(name)), [Number(v)])
  }

  /** The frame of the call `newAdder(2)`. */
  function XIsTwo(): Store
  {
    map["x" := Some(Integer(2))]
  }

  /** `{ x + y }` */
  function AdderBody(): Ast.Block
  {
    Ast.Block(Ast.Token("{"), [Ast.ExpressionStatement(Ast.Token("x"),
      Some(Ast.InfixExpression(Ast.Token("+"), "+", Ast.Ident(Name("x")), Ast.Ident(Name("y")))))])
  }

  /** `{ fn(y) { x + y } }` */
  function MakerBody(): Ast.Block
  {
    Ast.Block(Ast.Token("{"), [Ast.ExpressionStatement(Ast.Token("fn"),
      Some(Ast.FunctionLiteral(Ast.Token("fn"), [Name("y")], AdderBody())))])
  }

  function NewAdderProgram(): seq<Ast.Statement>
  {
    [ Ast.LetStatement(Ast.Token("let"), Name("newAdder"),
        Some(Ast.FunctionLiteral(Ast.Token("fn"), [Name("x")], MakerBody()))),
      Ast.LetStatement(Ast.Token("let"), Name("addTwo"), Some(CallOf("newAdder", 2))),
      Ast.ExpressionStatement(Ast.Token("addTwo"), Some(CallOf("addTwo", 3))) ]
  }

  /** `addTwo(3)`, where `addTwo` was created in a frame binding `x` to 2:
      the body finds `y` in the call's frame and `x` in the captured one. */
  lemma AdderCall(adder: FunctionObject, captured: Environment, heap: Heap, supply: seq<Alloc>, fuel: nat)
    requires captured.Chained() && Fits(adder, [Name("y")], AdderBody(), captured)
    requires captured in heap && heap[captured] == XIsTwo() && fuel > 0
    ensures var r := ApplySpec(Some(Function(adder)), [Some(Integer(3))], heap, supply, fuel);
      r.outcome == Normal(Some(Integer(5))) || r.outcome.Stuck?
  {
    if supply != [] && supply[0].NewFrame? && FreshFrame(supply[0].frame, captured, heap) {
      var frame := supply[0].frame;
      var bound := Bind([Name("y")], [Some(Integer(3))]);
      assert bound == map["y" := Some(Integer(3))];
      var entry := heap[frame := bound];
      assert frame.Chained();
      assert StoreOf(entry, captured) == XIsTwo();
      assert Lookup("x", frame, entry) == Lookup("x", captured, entry);
      SumInFrame(frame, entry, supply[1..], fuel - 1);
      BlockOfOne(AdderBody().statements[0], frame, entry, supply[1..], fuel - 1);
    }
  }

  /** `x + y` where `x` is 2 and `y` is 3. */
  lemma SumInFrame(frame: Environment, heap: Heap, supply: seq<Alloc>, fuel: nat)
    requires frame.Chained()
    requires Lookup("x", frame, heap) == Some(Some(Integer(2))) && Lookup("y", frame, heap) == Some(Some(Integer(3)))
    ensures StmtSpec(AdderBody().statements[0], frame, heap, supply, fuel).outcome == Normal(Some(Integer(5)))
  {
    var sum := Ast.InfixExpression(Ast.Token("+"), "+", Ast.Ident(Name("x")), Ast.Ident(Name("y")));
    assert ExprSpec(Ast.Ident(Name("x")), frame, heap, supply, fuel) == Run(Normal(Some(Integer(2))), heap, supply);
    assert ExprSpec(Ast.Ident(Name("y")), frame, heap, supply, fuel) == Run(Normal(Some(Integer(3))), heap, supply);
    assert InfixStep("+", Some(Integer(2)), Some(Integer(3))) == Normal(Some(Integer(5)));
    assert ExprSpec(sum, frame, heap, supply, fuel).outcome == Normal(Some(Integer(5)));
  }

  /** `newAdder(2)`: unless it is stuck, it takes a fresh frame binding `x`
      to 2 and returns a fresh closure `fn(y) { x + y }` that captured it. */
  lemma MakerCall(maker: FunctionObject, env: Environment, heap: Heap, supply: seq<Alloc>, fuel: nat)
    requires env.Chained() && Fits(maker, [Name("x")], MakerBody(), env) && fuel > 0
    ensures var r := ApplySpec(Some(Function(maker)), [Some(Integer(2))], heap, supply, fuel);
      || r.outcome.Stuck?
      || (&& |supply| >= 2 && supply[0].NewFrame? && supply[1].NewClosure?
          && FreshFrame(supply[0].frame, env, heap) && supply[0].frame.Chained()
          && Fits(supply[1].closure, [Name("y")], AdderBody(), supply[0].frame)
          && r == Run(Normal(Some(Function(supply[1].closure))),
                      heap[supply[0].frame := XIsTwo()], supply[2..]))
  {
    if supply != [] && supply[0].NewFrame? && FreshFrame(supply[0].frame, env, heap) {
      var frame := supply[0].frame;
      assert Bind([Name("x")], [Some(Integer(2))]) == XIsTwo();
      var entry := heap[frame := XIsTwo()];
      BlockOfOne(MakerBody().statements[0], frame, entry, supply[1..], fuel - 1);
      var adderLiteral := Ast.FunctionLiteral(Ast.Token("fn"), [Name("y")], AdderBody());
      var made := ExprSpec(adderLiteral, frame, entry, supply[1..], fuel - 1);
      if !made.outcome.Stuck? {
        assert made == Run(Normal(Some(Function(supply[1].closure))), entry, supply[2..]);
      }
      assert StmtSpec(MakerBody().statements[0], frame, entry, supply[1..], fuel - 1) == made;
      assert BlockSpec(MakerBody().statements, frame, entry, supply[1..], fuel - 1, Normal(None)) == made;
    }
  }

  /** A statement that neither stops nor returns lets a program go on with
      the next one; a stuck statement leaves the whole program stuck. */
  lemma ProgramStep(statements: seq<Ast.Statement>, env: Environment, heap: Heap, supply: seq<Alloc>, fuel: nat,
                    last: Outcome)
    requires env.Chained() && statements != []
    ensures var s := StmtSpec(statements[0], env, heap, supply, fuel);
      && (Continues(s.outcome) && !(s.outcome.result.Some? && s.outcome.result.value.ReturnValue?) ==>
            ProgramSpec(statements, env, heap, supply, fuel, last)
              == ProgramSpec(statements[1..], env, s.heap, s.rest, fuel, s.outcome))
      && (s.outcome.Stuck? ==> ProgramSpec(statements, env, heap, supply, fuel, last) == s)
  {
  }

  /** `newAdder(2)`, with `newAdder` bound to the closure of the literal:
      unless it is stuck, the closure it returns was created in the call's
      frame, which binds `x` to 2 and stays in the heap. */
  lemma MakeAddTwo(maker: FunctionObject, env: Environment, heap: Heap, supply: seq<Alloc>, fuel: nat)
    requires env.Chained() && Fits(maker, [Name("x")], MakerBody(), env) && fuel > 0
    requires Lookup("newAdder", env, heap) == Some(Some(Function(maker)))
    ensures var r := ExprSpec(CallOf("newAdder", 2), env, heap, supply, fuel);
      || r.outcome.Stuck?
      || (&& |supply| >= 2 && supply[0].NewFrame? && supply[1].NewClosure?
          && FreshFrame(supply[0].frame, env, heap) && supply[0].frame.Chained()
          && Fits(supply[1].closure, [Name("y")], AdderBody(), supply[0].frame)
          && r == Run(Normal(Some(Function(supply[1].closure))), heap[supply[0].frame := XIsTwo()], supply[2..]))
  {
    var r := ApplySpec(Some(Function(maker)), [Some(Integer(2))], heap, supply, fuel);
    assert ExprSpec(CallOf("newAdder", 2), env, heap, supply, fuel) == r by {
      CallOfBoundName(Ast.Token("("), Name("newAdder"), [Number(2)], Some(Function(maker)), env, heap, supply, fuel);
      assert ExprsSpec([Number(2)], env, heap, supply, fuel, []) == ListRun(Values([Some(Integer(2))]), heap, supply);
    }
    MakerCall(maker, env, heap, supply, fuel);
  }

  /** `let name = value;` once the value is known. */
  lemma LetStep(tok: Ast.Token, name: Ast.Identifier, value: Ast.Expression, env: Environment, heap: Heap,
                supply: seq<Alloc>, fuel: nat)
    requires env.Chained()
    ensures var v := ExprSpec(value, env, heap, supply, fuel);
      StmtSpec(Ast.LetStatement(tok, name, Some(value)), env, heap, supply, fuel)
        == if Continues(v.outcome)
           then Run(Normal(None), v.heap[env := Rebind(StoreOf(v.heap, env), name.value, v.outcome.result)], v.rest)
           else v
  {
  }

  /** `addTwo(3)`, with `addTwo` bound to a closure whose captured frame
      binds `x` to 2. */
  lemma CallAddTwo(adder: FunctionObject, captured: Environment, env: Environment, heap: Heap, supply: seq<Alloc>,
                   fuel: nat)
    requires env.Chained() && captured.Chained() && Fits(adder, [Name("y")], AdderBody(), captured)
    requires captured in heap && heap[captured] == XIsTwo() && fuel > 0
    requires Lookup("addTwo", env, heap) == Some(Some(Function(adder)))
    ensures var r := ExprSpec(CallOf("addTwo", 3), env, heap, supply, fuel);
      r.outcome == Normal(Some(Integer(5))) || r.outcome.Stuck?
  {
    var r := ApplySpec(Some(Function(adder)), [Some(Integer(3))], heap, supply, fuel);
    assert ExprSpec(CallOf("addTwo", 3), env, heap, supply, fuel) == r by {
      CallOfBoundName(Ast.Token("("), Name("addTwo"), [Number(3)], Some(Function(adder)), env, heap, supply, fuel);
      assert ExprsSpec([Number(3)], env, heap, supply, fuel, []) == ListRun(Values([Some(Integer(3))]), heap, supply);
    }
    AdderCall(adder, captured, heap, supply, fuel);
  }

  /** The last two statements, once `newAdder` is bound. */
  lemma AfterNewAdder(maker: FunctionObject, env: Environment, heap: Heap, supply: seq<Alloc>, fuel: nat)
    requires env.Chained() && env in heap && Fits(maker, [Name("x")], MakerBody(), env) && fuel > 0
    requires Lookup("newAdder", env, heap) == Some(Some(Function(maker)))
    ensures var r := ProgramSpec(NewAdderProgram()[1..], env, heap, supply, fuel, Normal(None));
      r.outcome == Normal(Some(Integer(5))) || r.outcome.Stuck?
  {
    var program := NewAdderProgram()[1..];
    ProgramStep(program, env, heap, supply, fuel, Normal(None));
    LetStep(Ast.Token("let"), Name("addTwo"), CallOf("newAdder", 2), env, heap, supply, fuel);
    MakeAddTwo(maker, env, heap, supply, fuel);
    if ExprSpec(CallOf("newAdder", 2), env, heap, supply, fuel).outcome.Stuck? {
      return;
    }
    var captured := supply[0].frame;
    var adder := supply[1].closure;
    var h2 := heap[captured := XIsTwo()];
    var h3 := h2[env := Rebind(StoreOf(h2, env), "addTwo", Some(Function(adder)))];
    assert ProgramSpec(program, env, heap, supply, fuel, Normal(None))
        == ProgramSpec([program[1]], env, h3, supply[2..], fuel, Normal(None)) by {
      assert program[1..] == [program[1]];
    }
    assert Lookup("addTwo", env, h3) == Some(Some(Function(adder)));
    CallAddTwo(adder, captured, env, h3, supply[2..], fuel);
    ProgramLastStatement(program[1], env, h3, supply[2..], fuel, Normal(None));
  }

  /** The closures example: `addTwo(3)` is 5, because `addTwo` still sees
      the frame of the call `newAdder(2)` after that call has returned. The
      result is 5 whatever the program's frame held before, unless the
      semantics was not handed the objects the program allocates. */
  lemma NewAdder(env: Environment, heap: Heap, supply: seq<Alloc>, fuel: nat)
    requires env.Chained() && fuel > 0
    ensures var r := ProgramSpec(NewAdderProgram(), env, heap, supply, fuel, Normal(None));
      r.outcome == Normal(Some(Integer(5))) || r.outcome.Stuck?
  {
    var program := NewAdderProgram();
    ProgramStep(program, env, heap, supply, fuel, Normal(None));
    if !(supply != [] && supply[0].NewClosure? && Fits(supply[0].closure, [Name("x")], MakerBody(), env)) {
      var makerLiteral := Ast.FunctionLiteral(Ast.Token("fn"), [Name("x")], MakerBody());
      assert ExprSpec(makerLiteral, env, heap, supply, fuel).outcome.Stuck?;
      return;
    }
    var maker := supply[0].closure;
    var rest := supply[1..];
    assert supply == [NewClosure(maker)] + rest;
    LetFunction(Ast.Token("let"), Ast.Token("fn"), Name("newAdder"), [Name("x")], MakerBody(), maker, env, heap, rest, fuel);
    var h1 := heap[env := Rebind(StoreOf(heap, env), "newAdder", Some(Function(maker)))];
    assert Lookup("newAdder", env, h1) == Some(Some(Function(maker)));
    AfterNewAdder(maker, env, h1, rest, fuel);
  }

}

module Runs {
  import opened Wrappers
  import opened Object
  import opened Semantics
  import Evaluator
  import Closures

  /** The closures example run by the evaluator itself in a fresh outermost
      frame, as a session starts: its result is 5. */
  method RunNewAdder(fuel: nat) returns (out: Outcome)
    requires fuel > 0
    ensures out == Normal(Some(Integer(5)))
  {
    var env := new Environment();
    ghost var heap: Heap := map[env := map[]];
    ghost var after, allocs;
    out, after, allocs := Evaluator.EvalProgram(Closures.NewAdderProgram(), env, fuel, heap);
    Closures.NewAdder(env, heap, allocs, fuel);
  }
}
