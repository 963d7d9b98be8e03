/**
 Model of the concrete logic in tpDccLib/abstract/dcc.py: the type switch of
 `set_attribute_value`, which picks the typed setter a host adapter implements,
 and the left/right/center side-name tests. The typed setters themselves are
 host calls; the model returns WHICH one is called and with what arguments.
 */
module Dcc {
  import opened Wrappers
  import Decimal

  // ---------------------------------------------------------------------------
  // Side names
  // ---------------------------------------------------------------------------

  /** Built-in patterns of `name_is_center`. */
  const CenterDefaults: seq<string> := ["C", "c", "Center", "ct", "center", "middle", "m"]

  /** Built-in patterns of `name_is_left`. */
  const LeftDefaults: seq<string> := ["L", "l", "Left", "left", "lf"]

  /** Built-in patterns of `name_is_right`. */
  const RightDefaults: seq<string> := ["R", "r", "Right", "right", "rt"]

  /** Python's `x in xs` on a list: a scan comparing with `==`. */
  function Contains(xs: seq<string>, x: string): (r: bool)
    ensures r <==> exists i :: 0 <= i < |xs| && xs[i] == x
    decreases |xs|
  {
    if xs == [] then false else xs[0] == x || Contains(xs[1..], x)
  }

  /** The patterns in force: the caller's, unless they are None or empty (`if not patterns`). */
  function PatternsInForce(patterns: Option<seq<string>>, defaults: seq<string>): seq<string> {
    if patterns.None? || patterns.value == [] then defaults else patterns.value
  }

  /** `name_is_center(side, patterns)`. */
  function NameIsCenter(side: string, patterns: Option<seq<string>>): (r: bool)
    ensures patterns.Some? && patterns.value != [] ==> (r <==> side in patterns.value)
    ensures patterns.None? || patterns.value == [] ==> (r <==> side in CenterDefaults)
  {
    Contains(PatternsInForce(patterns, CenterDefaults), side)
  }

  /** `name_is_left(side, patterns)`. */
  function NameIsLeft(side: string, patterns: Option<seq<string>>): (r: bool)
    ensures patterns.Some? && patterns.value != [] ==> (r <==> side in patterns.value)
    ensures patterns.None? || patterns.value == [] ==> (r <==> side in LeftDefaults)
  {
    Contains(PatternsInForce(patterns, LeftDefaults), side)
  }

  /** `name_is_right(side, patterns)`. */
  function NameIsRight(side: string, patterns: Option<seq<string>>): (r: bool)
    ensures patterns.Some? && patterns.value != [] ==> (r <==> side in patterns.value)
    ensures patterns.None? || patterns.value == [] ==> (r <==> side in RightDefaults)
  {
    Contains(PatternsInForce(patterns, RightDefaults), side)
  }

  /** The built-in lists are told apart by their first letters. */
  lemma DefaultInitials(side: string)
    ensures side in CenterDefaults ==> |side| > 0 && side[0] in {'C', 'c', 'm'}
    ensures side in LeftDefaults ==> |side| > 0 && side[0] in {'L', 'l'}
    ensures side in RightDefaults ==> |side| > 0 && side[0] in {'R', 'r'}
  {
  }

  /** With the built-in patterns no side name is classified twice. */
  lemma DefaultSidesDisjoint(side: string)
    ensures !(NameIsCenter(side, None) && NameIsLeft(side, None))
    ensures !(NameIsCenter(side, None) && NameIsRight(side, None))
    ensures !(NameIsLeft(side, None) && NameIsRight(side, None))
  {
    DefaultInitials(side);
  }

  // ---------------------------------------------------------------------------
  // set_attribute_value
  // ---------------------------------------------------------------------------

  /** A Python 2 value by its exact type (`type(v) is ...`). `PyInt` is a
      Python 2 `int`, so a `long` (any integer beyond `sys.maxint`, or written
      with an `L`) is `PyOther`, as is an instance of a subclass of int, float,
      str, list or tuple. A bool has its own case: `type(True) is int` is
      false, so it never counts as an int. */
  datatype AttrValue =
    | PyBool(b: bool)
    | PyInt(i: int)
    | PyFloat(x: real)
    | PyStr(s: string)
    | PyList(items: seq<AttrValue>)
    | PyTuple(items: seq<AttrValue>)
    | PyOther(typeName: string)

  /** Keyword arguments passed through to some setters. */
  type Kwargs = map<string, AttrValue>

  /** The typed setters a host adapter implements. */
  datatype Setter = BooleanSetter | IntegerSetter | FloatSetter | StringSetter | FloatVector3Setter

  /** One call of a typed setter. */
  datatype SetterCall = SetterCall(setter: Setter, node: string, attributeName: string, value: AttrValue, kwargs: Kwargs)

  /** The `NotImplementedError`s `set_attribute_value` raises. */
  datatype DispatchError =
    | UnsupportedVectorLength(reportedLength: string)
    | UnsupportedType(typeName: string, attributeName: string)

  /** A list or a tuple. */
  predicate IsSequenceValue(v: AttrValue) {
    v.PyList? || v.PyTuple?
  }

  /** The setters that receive the caller's extra keyword arguments. */
  predicate TakesKwargs(s: Setter) {
    s == IntegerSetter || s == FloatSetter
  }

  /** What the vector error reports as the rejected length, as the source
      writes it: it formats `type(len(attribute_value))`, which under Python 2
      is `<type 'int'>` whatever the length. */
  function VectorLengthReportAsWritten(items: seq<AttrValue>): (r: string)
    ensures forall n :: r != Decimal.NatToDecimal(n)
  {
    var r := "<type 'int'>";
    assert !('0' <= r[0] <= '9');
    r
  }

  /** What the vector error evidently means to report: the length itself. */
  function VectorLengthReport(items: seq<AttrValue>): (r: string)
    ensures Decimal.ParseDecimal(r) == |items|
  {
    Decimal.ParseNatToDecimal(|items|);
    Decimal.NatToDecimal(|items|)
  }

  /** The as-written report cannot tell a 2-element vector from a 4-element one,
      while the corrected report gives each length back. */
  lemma VectorLengthReportLosesLength(a: seq<AttrValue>, b: seq<AttrValue>)
    requires |a| != |b|
    ensures VectorLengthReportAsWritten(a) == VectorLengthReportAsWritten(b)
    ensures VectorLengthReport(a) != VectorLengthReport(b)
  {
  }

  /** `set_attribute_value(node, attribute_name, attribute_value, **kwargs)`:
      the one setter it calls, or the error it raises, as the source writes it. */
  function SetAttributeValue(node: string, attributeName: string, value: AttrValue, kwargs: Kwargs): (r: Result<SetterCall, DispatchError>)
    // each supported exact type goes to its own setter, and only there
    ensures value.PyBool? <==> r.Success? && r.value.setter == BooleanSetter
    ensures value.PyInt? <==> r.Success? && r.value.setter == IntegerSetter
    ensures value.PyFloat? <==> r.Success? && r.value.setter == FloatSetter
    ensures value.PyStr? <==> r.Success? && r.value.setter == StringSetter
    ensures IsSequenceValue(value) && |value.items| == 3 <==> r.Success? && r.value.setter == FloatVector3Setter
    // the chosen setter gets the node, name and value unchanged; only the
    // integer and float setters get the extra keyword arguments
    ensures r.Success? ==> r.value.node == node && r.value.attributeName == attributeName && r.value.value == value
    ensures r.Success? ==> r.value.kwargs == if TakesKwargs(r.value.setter) then kwargs else map[]
    // vectors of another length are refused with a report that names no length
    ensures IsSequenceValue(value) && |value.items| != 3 ==>
              && r.Failure? && r.error.UnsupportedVectorLength?
              && (forall n :: r.error.reportedLength != Decimal.NatToDecimal(n))
    // every other type is refused
    ensures value.PyOther? ==> r == Failure(UnsupportedType(value.typeName, attributeName))
  {
    match value
    case PyBool(_) => Success(SetterCall(BooleanSetter, node, attributeName, value, map[]))
    case PyInt(_) => Success(SetterCall(IntegerSetter, node, attributeName, value, kwargs))
    case PyFloat(_) => Success(SetterCall(FloatSetter, node, attributeName, value, kwargs))
    case PyStr(_) => Success(SetterCall(StringSetter, node, attributeName, value, map[]))
    case PyList(items) =>
      if |items| == 3 then Success(SetterCall(FloatVector3Setter, node, attributeName, value, map[]))
      else Failure(UnsupportedVectorLength(VectorLengthReportAsWritten(items)))
    case PyTuple(items) =>
      if |items| == 3 then Success(SetterCall(FloatVector3Setter, node, attributeName, value, map[]))
      else Failure(UnsupportedVectorLength(VectorLengthReportAsWritten(items)))
    case PyOther(typeName) => Failure(UnsupportedType(typeName, attributeName))
  }

  /** `set_attribute_value` with the vector error reporting the rejected length. */
  function SetAttributeValueCorrected(node: string, attributeName: string, value: AttrValue, kwargs: Kwargs): (r: Result<SetterCall, DispatchError>)
    // every value is routed exactly as before ...
    ensures r.Success? <==> SetAttributeValue(node, attributeName, value, kwargs).Success?
    ensures r.Success? ==> r == SetAttributeValue(node, attributeName, value, kwargs)
    ensures value.PyOther? ==> r == Failure(UnsupportedType(value.typeName, attributeName))
    // ... but a refused vector's length reads back from the error
    ensures IsSequenceValue(value) && |value.items| != 3 ==>
              r.Failure? && r.error.UnsupportedVectorLength? && Decimal.ParseDecimal(r.error.reportedLength) == |value.items|
  {
    if IsSequenceValue(value) && |value.items| != 3 then
      Failure(UnsupportedVectorLength(VectorLengthReport(value.items)))
    else
      SetAttributeValue(node, attributeName, value, kwargs)
  }
}
