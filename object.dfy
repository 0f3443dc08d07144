/** The run-time values of the interpreter (object/object.go) and the scope
    chain that binds names to them. */
module Object {
  import opened Wrappers
  import opened Integers
  import opened Text
  import opened Hashing
  import Ast

  type ObjectType = string

  const INTEGER: ObjectType := "INTEGER"
  const BOOLEAN: ObjectType := "BOOLEAN"
  const STRING: ObjectType := "STRING"
  const NULL: ObjectType := "NULL"
  const ARRAY: ObjectType := "ARRAY"
  const MAP: ObjectType := "MAP"
  const FUNCTION: ObjectType := "FUNCTION"
  const RETURN_VALUE: ObjectType := "RETURN_VALUE"
  const ERROR: ObjectType := "ERROR"
  const BUILTIN: ObjectType := "BUILTIN"

  /** The key under which a hashable value is stored in a map. */
  datatype HashKey = Key(keyType: ObjectType, value: UInt64)

  datatype MapPair = MapPair(key: Obj, value: Obj)

  /** A run-time value. Go's `nil` object is not a value: where the
      interpreter can produce it, the model uses `Option<Obj>`. A builtin is
      identified by the name it is registered under. */
  datatype Obj =
    | Integer(intValue: Int64)
    | Boolean(boolValue: bool)
    | Str(strValue: string)
    | Null
    | Array(elements: seq<Obj>)
    | Map(pairs: map<HashKey, MapPair>)
    | Function(fn: FunctionObject)
    | ReturnValue(returned: Option<Obj>)
    | Error(message: string)
    | Builtin(builtinName: string)
  {
    /** The type tag; each variant has its own. */
    function Type(): (t: ObjectType)
      ensures t == INTEGER <==> Integer?
      ensures t == BOOLEAN <==> Boolean?
      ensures t == STRING <==> Str?
      ensures t == NULL <==> Null?
      ensures t == ARRAY <==> Array?
      ensures t == MAP <==> Map?
      ensures t == FUNCTION <==> Function?
      ensures t == RETURN_VALUE <==> ReturnValue?
      ensures t == ERROR <==> Error?
      ensures t == BUILTIN <==> Builtin?
    {
      match this
      case Integer(_) => INTEGER
      case Boolean(_) => BOOLEAN
      case Str(_) => STRING
      case Null => NULL
      case Array(_) => ARRAY
      case Map(_) => MAP
      case Function(_) => FUNCTION
      case ReturnValue(_) => RETURN_VALUE
      case Error(_) => ERROR
      case Builtin(_) => BUILTIN
    }

    /** The values `Inspect` is defined for: maps are rendered in Go's
        unspecified iteration order and are not modelled, and a return value
        wrapping `nil` makes Go dereference `nil`. */
    predicate Inspectable()
      decreases this
    {
      match this
      case Map(_) => false
      case ReturnValue(returned) => returned.Some? && returned.value.Inspectable()
      case Array(elements) => forall i :: 0 <= i < |elements| ==> elements[i].Inspectable()
      case _ => true
    }

    function Inspect(): string
      requires Inspectable()
      decreases this
    {
      match this
      case Integer(v) => Decimal(v)
      case Boolean(b) => if b then "true" else "false"
      case Str(s) => s
      case Null => "null"
      case Array(elements) => "[" + Join(InspectAll(elements), ", ") + "]"
      case Function(f) =>
        "fn(" + Join(Ast.IdentifierStrings(f.parameters), ", ") + ") {\n" + f.body.String() + "\n}"
      case ReturnValue(returned) => returned.value.Inspect()
      case Error(message) => "ERROR: " + message
      case Builtin(_) => "built-in function"
    }

    /** Integers, Booleans and Strings, and nothing else, have hash keys. */
    predicate Hashable()
    {
      Integer? || Boolean? || Str?
    }

    /** The key carries the type tag, so values of different types never
        share a key. */
    function HashKey(): (k: HashKey)
      requires Hashable()
      ensures k.keyType == Type()
    {
      match this
      case Integer(v) => Key(INTEGER, BitPattern(v))
      case Boolean(b) => Key(BOOLEAN, if b then 1 else 0)
      case Str(s) => Key(STRING, StringHash(s))
    }
  }

  function InspectAll(elements: seq<Obj>): (r: seq<string>)
    requires forall i :: 0 <= i < |elements| ==> elements[i].Inspectable()
    ensures |r| == |elements|
    ensures forall i :: 0 <= i < |elements| ==> r[i] == elements[i].Inspect()
  {
    seq(|elements|, i requires 0 <= i < |elements| && elements[i].Inspectable() => elements[i].Inspect())
  }

  /** A user-defined function: its parameters, its body and the scope it
      was created in. The object is shared by reference, so two function
      values are equal only when they are the same closure. */
  class FunctionObject {
    const parameters: seq<Ast.Identifier>
    const body: Ast.Block
    const env: Environment

    constructor (parameters: seq<Ast.Identifier>, body: Ast.Block, env: Environment)
      ensures this.parameters == parameters && this.body == body && this.env == env
    {
      this.parameters := parameters;
      this.body := body;
      this.env := env;
    }
  }

  /** Every closure reachable from `o` without looking inside arrays and
      maps has a well-founded scope chain. */
  ghost predicate ClosuresChained(o: Obj)
  {
    match o
    case Function(f) => f.env.Chained()
    case ReturnValue(Some(v)) => ClosuresChained(v)
    case _ => true
  }

  /** What a name can be bound to: an object or Go's `nil`. */
  type Binding = b: Option<Obj> | b.None? || ClosuresChained(b.value) witness None

  /** One frame of the scope chain: its own bindings and the frame it is
      enclosed in. `depth` counts the frames outside it. */
  class Environment {
    var store: map<string, Binding>
    const outer: Environment?
    const depth: nat

    /** The chain of enclosing frames ends, each one deeper inside the last. */
    ghost predicate Chained()
      decreases depth
    {
      outer == null || (outer.depth < depth && outer.Chained())
    }

    /** This frame and all frames around it. */
    ghost function Frames(): (r: set<Environment>)
      requires Chained()
      ensures this in r
      ensures forall f :: f in r ==> f.depth <= depth && f.Chained()
      ensures forall f :: f in r && f != this ==> f.depth < depth
      decreases depth
    {
      {this} + if outer == null then {} else outer.Frames()
    }

    /** `NewEnvironment()`: an empty outermost frame. */
    constructor ()
      ensures store == map[] && outer == null && Chained()
    {
      store := map[];
      outer := null;
      depth := 0;
    }

    /** `NewEnclosedEnvironment(outer)`: an empty frame inside `outer`. */
    constructor Enclosed(outer: Environment)
      requires outer.Chained()
      ensures store == map[] && this.outer == outer && Chained()
    {
      store := map[];
      this.outer := outer;
      depth := outer.depth + 1;
    }

    /** The innermost binding of `name`, searching this frame first and
        then the enclosing ones. */
    function Get(name: string): (r: Option<Binding>)
      requires Chained()
      reads Frames()
      ensures name in store ==> r == Some(store[name])
      ensures name !in store && outer == null ==> r == None
      decreases depth
    {
      if name in store then Some(store[name])
      else if outer == null then None
      else outer.Get(name)
    }

    /** Binds `name` in this frame only: afterwards `name` finds `value`,
        and every other name finds what it found before. */
    method Set(name: string, value: Binding)
      requires Chained()
      modifies this
      ensures store == old(store)[name := value]
      ensures Get(name) == Some(value)
      ensures forall n :: n != name ==> Get(n) == old(Get(n))
    {
      store := store[name := value];
      if outer != null {
        assert this !in outer.Frames();
        forall n | n != name
          ensures Get(n) == old(Get(n))
        {
          assert outer.Get(n) == old(outer.Get(n));
        }
      }
    }

  }

  // ---------------------------------------------------------------------
  // Properties of Inspect

  /** `Inspect` of an Integer is its `%d` rendering, which reads back as the
      same number. */
  lemma IntegerInspectRoundTrip(v: Int64)
    ensures DecimalValue(Integer(v).Inspect()) == v
  {
    DecimalRoundTrip(v);
  }

  /** The scalar renderings. */
  lemma ScalarInspect(b: bool, message: string, s: string, name: string)
    ensures Boolean(b).Inspect() == "true" <==> b
    ensures Boolean(b).Inspect() == "false" <==> !b
    ensures Null.Inspect() == "null"
    ensures Str(s).Inspect() == s
    ensures Builtin(name).Inspect() == "built-in function"
    ensures var r := Error(message).Inspect(); r[..7] == "ERROR: " && r[7..] == message
  {
  }

  /** A return value renders as the value it carries, however deeply
      wrapped. */
  lemma {:induction false} ReturnValueInspect(o: Obj)
    requires o.ReturnValue? && o.Inspectable()
    ensures o.Inspect() == Unwrapped(o).Inspect()
    decreases o
  {
    if o.returned.value.ReturnValue? {
      ReturnValueInspect(o.returned.value);
    }
  }

  /** The first value under any number of ReturnValue wrappers. */
  function Unwrapped(o: Obj): (r: Obj)
    requires o.Inspectable()
    ensures r.Inspectable() && !r.ReturnValue?
    decreases o
  {
    if o.ReturnValue? then Unwrapped(o.returned.value) else o
  }

  /** An array renders its elements in order, separated by `, `: one more
      element adds `, ` and its rendering before the closing bracket. */
  lemma ArrayInspectAppend(elements: seq<Obj>, e: Obj)
    requires |elements| > 0 && e.Inspectable()
    requires forall i :: 0 <= i < |elements| ==> elements[i].Inspectable()
    ensures Array(elements + [e]).Inspectable()
    ensures var before := Array(elements).Inspect();
      Array(elements + [e]).Inspect() == before[..|before| - 1] + ", " + e.Inspect() + "]"
  {
    var strs := InspectAll(elements);
    InspectAllAppend(elements, e);
    assert Array(elements).Inspect() == "[" + Join(strs, ", ") + "]";
    assert Array(elements + [e]).Inspect() == "[" + Join(strs + [e.Inspect()], ", ") + "]";
    JoinSnoc(strs, e.Inspect(), ", ");
    Rebracket(Join(strs, ", "), ", ", e.Inspect());
  }

  /** Adding text inside the brackets of "[" + inner + "]" puts it just
      before the closing bracket. */
  lemma Rebracket(inner: string, sep: string, x: string)
    ensures var b := "[" + inner + "]"; "[" + (inner + sep + x) + "]" == b[..|b| - 1] + sep + x + "]"
  {
    var b := "[" + inner + "]";
    assert b[..|b| - 1] == "[" + inner;
  }

  lemma InspectAllAppend(elements: seq<Obj>, e: Obj)
    requires e.Inspectable()
    requires forall i :: 0 <= i < |elements| ==> elements[i].Inspectable()
    ensures forall i :: 0 <= i < |elements + [e]| ==> (elements + [e])[i].Inspectable()
    ensures Array(elements + [e]).Inspectable()
    ensures InspectAll(elements + [e]) == InspectAll(elements) + [e.Inspect()]
  {
    var all := elements + [e];
    forall i | 0 <= i < |all|
      ensures all[i].Inspectable()
    {
      if i < |elements| { assert all[i] == elements[i]; }
    }
    assert Array(all).Inspectable();
  }

  /** A one-element array renders as its element in brackets. */
  lemma SingletonArrayInspect(e: Obj)
    requires e.Inspectable()
    ensures Array([e]).Inspectable() && Array([e]).Inspect() == "[" + e.Inspect() + "]"
  {
    assert InspectAll([e]) == [e.Inspect()];
  }

  // ---------------------------------------------------------------------
  // Properties of HashKey

  /** Two Integers have the same key exactly when their values are equal. */
  lemma IntegerKeysExact(a: Int64, b: Int64)
    ensures Integer(a).HashKey() == Integer(b).HashKey() <==> a == b
  {
    if Integer(a).HashKey() == Integer(b).HashKey() {
      BitPatternInjective(a, b);
    }
  }

  /** Two Booleans have the same key exactly when they are equal, the key
      of true being 1 and that of false 0. */
  lemma BooleanKeysExact(a: bool, b: bool)
    ensures Boolean(true).HashKey() == Key(BOOLEAN, 1)
    ensures Boolean(false).HashKey() == Key(BOOLEAN, 0)
    ensures Boolean(a).HashKey() == Boolean(b).HashKey() <==> a == b
  {
  }

  /** The 64-bit FNV-1a hash of a string's UTF-8 bytes, as an unsigned
      integer. */
  function StringHash(s: string): UInt64
  {
    Fnv1a64(EncodeString(s)) as int
  }

  /** Hashable values of different types never share a key; for instance the
      Integer 1 and true both have key value 1 but different tags. */
  lemma KeysSeparateTypes(a: Obj, b: Obj)
    requires a.Hashable() && b.Hashable() && a.Type() != b.Type()
    ensures a.HashKey() != b.HashKey()
    ensures Integer(1).HashKey().value == Boolean(true).HashKey().value
  {
  }

  /** A String's key is the 64-bit FNV-1a hash of its UTF-8 bytes. */
  lemma StringKeys()
    ensures Str("").HashKey() == Key(STRING, 14695981039346656037)
    ensures Str("a").HashKey() == Key(STRING, 0xaf63dc4c8601ec8c)
  {
    FnvTestVectors();
  }
}
