/** The pure builtin functions (evaluator/builtins.go): `len`, `first`,
    `last`, `skip` and `append`, and the two error messages they share.
    Strings are sequences of Unicode code points, so a "rune" of the source
    is one element of a `string` here. Arguments are objects, never `nil`. */
module Builtins {
  import opened Wrappers
  import opened Integers
  import opened Text
  import opened Object

  /** `newInvalidArgumentError`. */
  function NewInvalidArgumentError(functionName: string, arg: Obj): (r: Obj)
    ensures r.Error?
  {
    Error("invalid argument for the `" + functionName + "` function, got " + arg.Type())
  }

  /** `newArgumentNumberError`: "expected" or "expected at least", the
      expected count, "argument" or "arguments", and the count received. */
  function NewArgumentNumberError(expected: int, given: int, canBeMore: bool): (r: Obj)
    ensures r.Error?
  {
    Error((if canBeMore then "expected at least" else "expected")
          + " " + Decimal(expected) + " "
          + (if expected == 1 then "argument" else "arguments")
          + ", received " + Decimal(given))
  }

  /** `stringLength`: the number of runes, as an int64. */
  function StringLength(s: string): Int64
  {
    Wrap(|s|)
  }

  function BuiltinLen(args: seq<Obj>): (r: Obj)
  {
    if |args| != 1 then NewArgumentNumberError(1, |args|, false)
    else match args[0]
      case Str(s) => Integer(StringLength(s))
      case Array(elements) => Integer(Wrap(|elements|))
      case Map(pairs) => Integer(Wrap(|pairs|))
      case _ => NewInvalidArgumentError("len", args[0])
  }

  /** `stringFirst`: the first rune, or "" when there is none. */
  function StringFirst(s: string): (r: string)
    ensures s != "" ==> |r| == 1 && r[0] == s[0]
    ensures s == "" ==> r == ""
  {
    if s == "" then "" else s[..1]
  }

  function BuiltinFirst(args: seq<Obj>): (r: Obj)
  {
    if |args| != 1 then NewArgumentNumberError(1, |args|, false)
    else match args[0]
      case Array(elements) => if |elements| == 0 then Null else elements[0]
      case Str(s) => if s == "" then Null else Str(StringFirst(s))
      case _ => NewInvalidArgumentError("first", args[0])
  }

  /** `stringLast`: the last rune, or "" when there is none. */
  function StringLast(s: string): (r: string)
    ensures s != "" ==> |r| == 1 && r[0] == s[|s| - 1]
    ensures s == "" ==> r == ""
  {
    s[|s| - if s == "" then 0 else 1..]
  }

  function BuiltinLast(args: seq<Obj>): (r: Obj)
  {
    if |args| != 1 then NewArgumentNumberError(1, |args|, false)
    else match args[0]
      case Array(elements) => if |elements| == 0 then Null else elements[|elements| - 1]
      case Str(s) => if s == "" then Null else Str(StringLast(s))
      case _ => NewInvalidArgumentError("last", args[0])
  }

  /** `stringSkip`: drops `skip` leading runes one at a time; nothing is
      left when `skip` reaches the rune count, and a count of zero or less
      drops nothing. (A Go string holds fewer than 2^63 runes, so the int64
      rune count is the count itself.) */
  method StringSkip(str: string, skip: Int64) returns (r: string)
    ensures skip >= |str| ==> r == ""
    ensures 0 <= skip < |str| ==> r == str[skip..] && |r| == |str| - skip
    ensures skip <= 0 ==> r == str
  {
    if skip >= |str| {
      return "";
    }
    r := str;
    var k := skip;
    while k > 0
      invariant skip > 0 ==> 0 <= k <= skip && r == str[skip - k..]
      invariant skip <= 0 ==> k == skip && r == str
      decreases k
    {
      r := r[1..];
      k := k - 1;
    }
  }

  /** What `skip` returns, stated on whole sequences: the elements or runes
      from index `s` on, nothing when `s` is past the end. */
  function Skip(args: seq<Obj>): (r: Obj)
    requires !SkipPanics(args)
  {
    if |args| != 2 then NewArgumentNumberError(2, |args|, false)
    else if !args[1].Integer? then NewInvalidArgumentError("skip", args[1])
    else
      var s := args[1].intValue;
      match args[0]
      case Array(elements) => if s > |elements| then Array([]) else Array(elements[s..])
      case Str(str) => Str(if s >= |str| then "" else if s <= 0 then str else str[s..])
      case _ => NewInvalidArgumentError("first", args[0])
  }

  /** Skipping a negative count of array elements slices at a negative
      index, which makes Go panic. */
  predicate SkipPanics(args: seq<Obj>)
  {
    |args| == 2 && args[1].Integer? && args[0].Array? && args[1].intValue < 0
  }

  /** `builtinSkip`: allocates a fresh slice of `length - s` elements and
      copies the tail of the array into it. */
  method BuiltinSkip(args: seq<Obj>) returns (r: Obj)
    requires !SkipPanics(args)
    ensures r == Skip(args)
  {
    if |args| != 2 {
      return NewArgumentNumberError(2, |args|, false);
    }
    if !args[1].Integer? {
      return NewInvalidArgumentError("skip", args[1]);
    }
    var s := args[1].intValue;
    match args[0]
    case Array(elements) =>
      var length := |elements|;
      if s > length {
        return Array([]);
      }
      var newElements := new Obj[length - s];
      var i := 0;
      while i < length - s
        invariant 0 <= i <= length - s
        invariant newElements[..i] == elements[s..s + i]
      {
        newElements[i] := elements[s + i];
        i := i + 1;
      }
      r := Array(newElements[..]);
    case Str(str) =>
      var skipped := StringSkip(str, s);
      r := Str(skipped);
    case _ =>
      r := NewInvalidArgumentError("first", args[0]);
  }

  /** `builtinAppend`: an array of the first argument's elements followed by
      all remaining arguments. */
  function BuiltinAppend(args: seq<Obj>): (r: Obj)
  {
    if |args| < 2 then NewArgumentNumberError(2, |args|, true)
    else match args[0]
      case Array(elements) => Array(elements + args[1..])
      case _ => NewInvalidArgumentError("append", args[0])
  }

  // ---------------------------------------------------------------------
  // Argument checking

  /** `len`, `first` and `last` take exactly one argument, `skip` exactly two
      and `append` at least two; the messages name the count expected and the
      count received. */
  lemma ArgumentCounts(args: seq<Obj>)
    ensures |args| != 1 ==> BuiltinLen(args) == Error("expected 1 argument, received " + Decimal(|args|))
    ensures |args| != 1 ==> BuiltinFirst(args) == BuiltinLen(args)
    ensures |args| != 1 ==> BuiltinLast(args) == BuiltinLen(args)
    ensures |args| != 2 ==> Skip(args) == Error("expected 2 arguments, received " + Decimal(|args|))
    ensures |args| < 2 ==>
      BuiltinAppend(args) == Error("expected at least 2 arguments, received " + Decimal(|args|))
  {
    CountMessages(|args|);
  }

  /** The three argument-count messages the builtins use. */
  lemma CountMessages(given: int)
    ensures NewArgumentNumberError(1, given, false) == Error("expected 1 argument, received " + Decimal(given))
    ensures NewArgumentNumberError(2, given, false) == Error("expected 2 arguments, received " + Decimal(given))
    ensures NewArgumentNumberError(2, given, true) == Error("expected at least 2 arguments, received " + Decimal(given))
  {
    ExactlyOneMessage(given);
    ExactlyTwoMessage(given);
    AtLeastTwoMessage(given);
  }

  /** The message of `len`, `first` and `last`. */
  lemma ExactlyOneMessage(given: int)
    ensures NewArgumentNumberError(1, given, false) == Error("expected 1 argument, received " + Decimal(given))
  {
    var n := Decimal(given);
    assert NewArgumentNumberError(1, given, false).message == "expected" + " " + Decimal(1) + " " + "argument" + ", received " + n;
    SmallDecimals();
    assert "expected" + " " + "1" + " " + "argument" + ", received " == "expected 1 argument, received ";
  }

  /** The message of `skip`. */
  lemma ExactlyTwoMessage(given: int)
    ensures NewArgumentNumberError(2, given, false) == Error("expected 2 arguments, received " + Decimal(given))
  {
    var n := Decimal(given);
    assert NewArgumentNumberError(2, given, false).message == "expected" + " " + Decimal(2) + " " + "arguments" + ", received " + n;
    SmallDecimals();
    assert "expected" + " " + "2" + " " + "arguments" + ", received " == "expected 2 arguments, received ";
  }

  /** The message of `append`. */
  lemma AtLeastTwoMessage(given: int)
    ensures NewArgumentNumberError(2, given, true) == Error("expected at least 2 arguments, received " + Decimal(given))
  {
    var n := Decimal(given);
    assert NewArgumentNumberError(2, given, true).message == "expected at least" + " " + Decimal(2) + " " + "arguments" + ", received " + n;
    SmallDecimals();
    assert "expected at least" + " " + "2" + " " + "arguments" + ", received " == "expected at least 2 arguments, received ";
  }

  /** The counts the builtins expect, as `%d` renders them. */
  lemma SmallDecimals()
    ensures Decimal(1) == "1" && Decimal(2) == "2"
  {
  }

  /** Each builtin rejects argument types it has no case for, naming itself;
      `skip` checks its count first and, for a wrong first argument, reports
      the name `first`. */
  lemma InvalidArguments(arg: Obj, count: Obj)
    ensures !(arg.Str? || arg.Array? || arg.Map?) ==>
      BuiltinLen([arg]) == NewInvalidArgumentError("len", arg)
    ensures !(arg.Str? || arg.Array?) ==>
      BuiltinFirst([arg]) == NewInvalidArgumentError("first", arg)
    ensures !(arg.Str? || arg.Array?) ==>
      BuiltinLast([arg]) == NewInvalidArgumentError("last", arg)
    ensures !count.Integer? ==> Skip([arg, count]) == NewInvalidArgumentError("skip", count)
    ensures count.Integer? && !(arg.Str? || arg.Array?) ==>
      Skip([arg, count]) == NewInvalidArgumentError("first", arg)
    ensures !arg.Array? ==> BuiltinAppend([arg, count]) == NewInvalidArgumentError("append", arg)
  {
  }

  /** The invalid-argument message names the function and the type received. */
  lemma InvalidArgumentMessage(functionName: string, arg: Obj)
    ensures NewInvalidArgumentError(functionName, arg).message
         == "invalid argument for the `" + functionName + "` function, got " + arg.Type()
  {
  }

  // ---------------------------------------------------------------------
  // What the builtins compute

  /** `len` counts runes of a String, elements of an Array and pairs of a
      Map. */
  lemma LenCounts(s: string, elements: seq<Obj>, pairs: map<HashKey, MapPair>)
    requires |s| < TWO_63 && |elements| < TWO_63 && |pairs| < TWO_63
    ensures BuiltinLen([Str(s)]) == Integer(|s|)
    ensures BuiltinLen([Array(elements)]) == Integer(|elements|)
    ensures BuiltinLen([Map(pairs)]) == Integer(|pairs|)
  {
  }

  /** `first` and `last` give null for an empty Array or String, otherwise
      the first or last element, or a one-rune String. */
  lemma FirstAndLast(s: string, elements: seq<Obj>)
    ensures BuiltinFirst([Array([])]) == BuiltinLast([Array([])]) == Null
    ensures BuiltinFirst([Str("")]) == BuiltinLast([Str("")]) == Null
    ensures |elements| > 0 ==>
      BuiltinFirst([Array(elements)]) == elements[0]
      && BuiltinLast([Array(elements)]) == elements[|elements| - 1]
    ensures |s| > 0 ==>
      BuiltinFirst([Str(s)]) == Str([s[0]]) && BuiltinLast([Str(s)]) == Str([s[|s| - 1]])
  {
  }

  /** `append` keeps the array's elements and adds the other arguments
      after them, in order: the result is longer by their number, its first
      element is unchanged, and its last element is the last argument. */
  lemma AppendExtends(elements: seq<Obj>, rest: seq<Obj>)
    requires |rest| > 0
    requires |elements| + |rest| < TWO_63
    ensures var r := BuiltinAppend([Array(elements)] + rest);
      r == Array(elements + rest)
      && BuiltinLen([r]) == Integer(|elements| + |rest|)
      && BuiltinLast([r]) == rest[|rest| - 1]
      && (|elements| > 0 ==> BuiltinFirst([r]) == elements[0])
  {
    assert ([Array(elements)] + rest)[1..] == rest;
  }

  /** Skipping `s` elements of an array leaves `len - s` of them (none when
      `s` is past the end), the first of which was element `s`; skipping
      nothing copies the array. */
  lemma SkipArray(elements: seq<Obj>, s: Int64)
    requires s >= 0 && |elements| < TWO_63
    ensures var r := Skip([Array(elements), Integer(s)]);
      r.Array?
      && |r.elements| == (if s > |elements| then 0 else |elements| - s)
      && (forall i :: 0 <= i < |r.elements| ==> r.elements[i] == elements[s + i])
      && (s < |elements| ==> BuiltinFirst([r]) == elements[s])
    ensures Skip([Array(elements), Integer(0)]) == Array(elements)
  {
    assert elements[0..] == elements;
  }

  /** Skipping runes: the rune count drops by `skip`, down to zero. */
  lemma SkipString(str: string, s: Int64)
    requires |str| < TWO_63
    ensures var r := Skip([Str(str), Integer(s)]);
      r.Str? && |r.strValue| == if s >= |str| then 0 else if s <= 0 then |str| else |str| - s
    ensures s <= 0 ==> Skip([Str(str), Integer(s)]) == Str(str)
  {
  }
}
