/** The value-level half of the evaluator (evaluator/evaluator.go): truthiness,
    the Boolean singletons, error detection, unwrapping of return values and
    the prefix and infix operators. These take objects that are not Go's
    `nil`; the evaluator checks for `nil` before calling them. */
module Operators {
  import opened Wrappers
  import opened Integers
  import opened Object

  /** The shared `TRUE` and `FALSE` objects. The evaluator creates Booleans
      only through `NativeBoolToBooleanObject`, so every Boolean is one of
      these two and comparing them by pointer compares their values. */
  const TRUE: Obj := Boolean(true)
  const FALSE: Obj := Boolean(false)

  function NativeBoolToBooleanObject(value: bool): (r: Obj)
    ensures r.Boolean? && r.boolValue == value
  {
    if value then TRUE else FALSE
  }

  /** `isTruthy` for a non-nil object: compared first against the three
      singletons, then by type. */
  function IsTruthy(value: Obj): bool
  {
    if value == Null then false
    else if value == TRUE then true
    else if value == FALSE then false
    else match value
      case Integer(v) => v != 0
      case Str(s) => s != ""
      case _ => true
  }

  /** `isError`: `nil` is not an error. */
  function IsError(value: Option<Obj>): (r: bool)
    ensures r <==> value.Some? && value.value.Error?
  {
    value.Some? && value.value.Type() == ERROR
  }

  /** `unwrapReturnValue`: strips one ReturnValue wrapper, if there is one. */
  function UnwrapReturnValue(value: Option<Obj>): (r: Option<Obj>)
  {
    if value.Some? && value.value.ReturnValue? then value.value.returned else value
  }

  function EvalBangOperatorExpression(right: Obj): (r: Obj)
  {
    NativeBoolToBooleanObject(!IsTruthy(right))
  }

  function EvalMinusOperatorPrefixExpression(right: Obj): (r: Obj)
  {
    if right.Type() != INTEGER then Error("unknown operator: -" + right.Type())
    else Integer(Wrap(-(right.intValue as int)))
  }

  function EvalPrefixExpression(operator: string, right: Obj): (r: Obj)
    ensures r.Boolean? || r.Integer? || r.Error?
  {
    if operator == "!" then EvalBangOperatorExpression(right)
    else if operator == "-" then EvalMinusOperatorPrefixExpression(right)
    else Error("unknown operator: " + operator + right.Type())
  }

  /** The arithmetic of Go's int64: wrapping `+ - *`, and `/` truncating
      toward zero (dividing the most negative value by -1 wraps back to it).
      A zero divisor makes Go panic. */
  function EvalIntegerInfixExpression(operator: string, l: Int64, r: Int64): (result: Obj)
    requires operator == "/" ==> r != 0
  {
    match operator
    case "+" => Integer(Wrap(l + r))
    case "-" => Integer(Wrap(l - r))
    case "*" => Integer(Wrap(l * r))
    case "/" => Integer(Wrap(Quot(l, r)))
    case ">" => NativeBoolToBooleanObject(l > r)
    case "<" => NativeBoolToBooleanObject(l < r)
    case "==" => NativeBoolToBooleanObject(l == r)
    case "!=" => NativeBoolToBooleanObject(l != r)
    case _ => Error("unknown operator: " + INTEGER + " " + operator + " " + INTEGER)
  }

  function EvalStringInfixExpression(operator: string, l: string, r: string): (result: Obj)
  {
    match operator
    case "+" => Str(l + r)
    case "==" => NativeBoolToBooleanObject(l == r)
    case "!=" => NativeBoolToBooleanObject(l != r)
    case _ => Error("unknown operator: " + STRING + " " + operator + " " + STRING)
  }

  /** The only way `evalInfixExpression` can panic on two non-nil objects. */
  predicate DividesByZero(operator: string, left: Obj, right: Obj)
  {
    operator == "/" && left.Integer? && right.Integer? && right.intValue == 0
  }

  /** `evalInfixExpression`. Outside the Integer and String cases, `==` and
      `!=` compare the two objects themselves; see `Obj` for when that is
      pointer identity. */
  function EvalInfixExpression(operator: string, left: Obj, right: Obj): (r: Obj)
    requires !DividesByZero(operator, left, right)
    ensures r.Boolean? || r.Integer? || r.Str? || r.Error?
  {
    if left.Type() == INTEGER && right.Type() == INTEGER then
      EvalIntegerInfixExpression(operator, left.intValue, right.intValue)
    else if left.Type() == STRING && right.Type() == STRING then
      EvalStringInfixExpression(operator, left.strValue, right.strValue)
    else if operator == "==" then NativeBoolToBooleanObject(left == right)
    else if operator == "!=" then NativeBoolToBooleanObject(left != right)
    else if left.Type() != right.Type() then
      Error("type mismatch: " + left.Type() + " " + operator + " " + right.Type())
    else
      Error("unknown operator: " + left.Type() + " " + operator + " " + right.Type())
  }

  // ---------------------------------------------------------------------
  // Truthiness

  /** Exactly four kinds of value are falsy: null, false, the Integer 0 and
      the empty String. Every other object, functions, arrays, errors and
      return values included, is truthy. */
  lemma FalsyValues(value: Obj)
    ensures !IsTruthy(value) <==>
      value == Null || value == FALSE || value == Integer(0) || value == Str("")
  {
  }

  /** `!` always gives a Boolean, the negation of the operand's truthiness,
      so `!!x` is the truthiness of `x` and `!!b` is `b` for a Boolean. */
  lemma BangIsNegatedTruthiness(value: Obj)
    ensures EvalPrefixExpression("!", value) == NativeBoolToBooleanObject(!IsTruthy(value))
    ensures EvalPrefixExpression("!", EvalPrefixExpression("!", value)) == NativeBoolToBooleanObject(IsTruthy(value))
    ensures value.Boolean? ==> EvalPrefixExpression("!", EvalPrefixExpression("!", value)) == value
  {
  }

  // ---------------------------------------------------------------------
  // Return values

  /** Unwrapping undoes wrapping, and strips exactly one layer: a value
      that is not a ReturnValue is left alone, and a doubly wrapped value
      keeps its inner wrapper. */
  lemma UnwrapOneLayer(value: Option<Obj>)
    ensures UnwrapReturnValue(Some(ReturnValue(value))) == value
    ensures UnwrapReturnValue(Some(ReturnValue(Some(ReturnValue(value))))) == Some(ReturnValue(value))
    ensures (value.None? || !value.value.ReturnValue?) ==> UnwrapReturnValue(value) == value
  {
  }

  // ---------------------------------------------------------------------
  // Prefix operators

  /** Unary minus negates Integers (twice gives the Integer back, even for
      the most negative int64) and is an error on every other type; any
      operator other than `!` and `-` is an error. */
  lemma PrefixOperators(operator: string, value: Obj)
    ensures value.Integer? && value.intValue != -TWO_63 ==>
      EvalPrefixExpression("-", value) == Integer(-value.intValue)
    ensures EvalPrefixExpression("-", Integer(-TWO_63)) == Integer(-TWO_63)
    ensures value.Integer? ==>
      EvalPrefixExpression("-", EvalPrefixExpression("-", value)) == value
    ensures !value.Integer? ==>
      EvalPrefixExpression("-", value) == Error("unknown operator: -" + value.Type())
    ensures operator != "!" && operator != "-" ==>
      EvalPrefixExpression(operator, value) == Error("unknown operator: " + operator + value.Type())
  {
    if value.Integer? {
      NegateTwice(value.intValue);
    }
  }

  // ---------------------------------------------------------------------
  // Infix operators

  /** Integer arithmetic is int64 arithmetic: exact when the result fits,
      wrapped modulo 2^64 otherwise; `+` and `*` commute. */
  lemma IntegerArithmetic(operator: string, a: Int64, b: Int64)
    requires operator in {"+", "-", "*"}
    ensures var exact := if operator == "+" then a + b else if operator == "-" then a - b else a * b;
      var r := EvalInfixExpression(operator, Integer(a), Integer(b));
      r.Integer? && (exact - r.intValue) % TWO_64 == 0
      && (-TWO_63 <= exact < TWO_63 ==> r.intValue == exact)
    ensures operator != "-" ==>
      EvalInfixExpression(operator, Integer(a), Integer(b)) == EvalInfixExpression(operator, Integer(b), Integer(a))
  {
    var exact := if operator == "+" then a + b else if operator == "-" then a - b else a * b;
    assert EvalInfixExpression(operator, Integer(a), Integer(b)) == Integer(Wrap(exact));
    if operator == "*" {
      assert a * b == b * a;
    }
  }

  /** The largest int64 plus one wraps to the smallest. */
  lemma AdditionOverflowWraps()
    ensures EvalInfixExpression("+", Integer(TWO_63 - 1), Integer(1)) == Integer(-TWO_63)
  {
  }

  /** Division truncates toward zero: the remainder is smaller than the
      divisor and has the sign of the dividend. The one quotient that does
      not fit, the most negative int64 divided by -1, wraps to itself. */
  lemma IntegerDivisionTruncates(a: Int64, b: Int64)
    requires b != 0
    ensures !(a == -TWO_63 && b == -1) ==>
      var q := EvalInfixExpression("/", Integer(a), Integer(b)).intValue;
      Abs(a - q * b) < Abs(b) && (a - q * b == 0 || ((a - q * b < 0) <==> (a < 0)))
    ensures EvalInfixExpression("/", Integer(-TWO_63), Integer(-1)) == Integer(-TWO_63)
  {
    QuotRemainder(a, b);
    if !(a == -TWO_63 && b == -1) {
      QuotFits(a, b);
      assert EvalInfixExpression("/", Integer(a), Integer(b)).intValue == Quot(a, b);
    }
    assert Quot(-TWO_63, -1) == TWO_63;
  }

  /** `==` and `!=` compare int64 values, and `<` and `>` are the order of
      int64 and mirror each other. */
  lemma IntegerComparisons(a: Int64, b: Int64)
    ensures EvalInfixExpression("==", Integer(a), Integer(b)) == NativeBoolToBooleanObject(a == b)
    ensures EvalInfixExpression("!=", Integer(a), Integer(b)) == NativeBoolToBooleanObject(a != b)
    ensures EvalInfixExpression("<", Integer(a), Integer(b)) == NativeBoolToBooleanObject(a < b)
    ensures EvalInfixExpression("<", Integer(a), Integer(b)) == EvalInfixExpression(">", Integer(b), Integer(a))
  {
  }

  /** Integers support exactly `+ - * / < > == !=`; any other operator is an
      error naming it between the two type tags. */
  lemma IntegerUnknownOperator(operator: string, a: Int64, b: Int64)
    requires operator !in {"+", "-", "*", "/", "<", ">", "==", "!="}
    ensures EvalInfixExpression(operator, Integer(a), Integer(b))
         == Error("unknown operator: INTEGER " + operator + " INTEGER")
  {
    assert Integer(a).Type() == INTEGER && Integer(b).Type() == INTEGER;
    assert EvalInfixExpression(operator, Integer(a), Integer(b)) == EvalIntegerInfixExpression(operator, a, b);
    assert "unknown operator: " + INTEGER + " " + operator + " " + INTEGER
        == "unknown operator: INTEGER " + operator + " INTEGER";
  }

  /** On Strings, `+` concatenates and `==`/`!=` compare contents; every other
      operator is an error. */
  lemma StringOperators(operator: string, a: string, b: string)
    ensures EvalInfixExpression("+", Str(a), Str(b)) == Str(a + b)
    ensures EvalInfixExpression("==", Str(a), Str(b)) == NativeBoolToBooleanObject(a == b)
    ensures EvalInfixExpression("!=", Str(a), Str(b)) == NativeBoolToBooleanObject(a != b)
    ensures operator !in {"+", "==", "!="} ==>
      EvalInfixExpression(operator, Str(a), Str(b)) == Error("unknown operator: STRING " + operator + " STRING")
  {
    assert Str(a).Type() == STRING && Str(b).Type() == STRING;
    if operator !in {"+", "==", "!="} {
      assert EvalInfixExpression(operator, Str(a), Str(b)) == EvalStringInfixExpression(operator, a, b);
      assert "unknown operator: " + STRING + " " + operator + " " + STRING
          == "unknown operator: STRING " + operator + " STRING";
    }
  }

  /** `!=` is always the negation of `==`, and `==` is symmetric, whatever
      the operand types. */
  lemma EqualityOperators(left: Obj, right: Obj)
    ensures EvalInfixExpression("!=", left, right)
         == EvalPrefixExpression("!", EvalInfixExpression("==", left, right))
    ensures EvalInfixExpression("==", left, right) == EvalInfixExpression("==", right, left)
  {
  }

  /** Operands of different types: `==` is false and `!=` true (so `1 == true`
      is false, not an error), and any other operator is a type mismatch. */
  lemma MixedOperands(operator: string, left: Obj, right: Obj)
    requires left.Type() != right.Type()
    ensures EvalInfixExpression("==", left, right) == FALSE
    ensures EvalInfixExpression("!=", left, right) == TRUE
    ensures operator != "==" && operator != "!=" ==>
      EvalInfixExpression(operator, left, right)
      == Error("type mismatch: " + left.Type() + " " + operator + " " + right.Type())
  {
  }

  /** Operands of one type other than Integer and String: only `==` and `!=`
      are defined. */
  lemma SameTypeUnknownOperator(operator: string, left: Obj, right: Obj)
    requires left.Type() == right.Type() && !left.Integer? && !left.Str?
    requires operator != "==" && operator != "!="
    ensures EvalInfixExpression(operator, left, right)
         == Error("unknown operator: " + left.Type() + " " + operator + " " + right.Type())
  {
  }
}
