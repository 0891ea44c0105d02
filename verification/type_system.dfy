/** The value model of MyLisp/TypeSystem.cpp: a closed eight-way tagged
    value, tag tests, the one widening conversion and the kind names. */
module TypeSystem {
  import opened Wrappers

  /** ValueType: one tag per alternative of Value. */
  datatype ValueType =
    | INTEGER | DOUBLE | STRING | BOOL
    | INTEGER_VECTOR | DOUBLE_VECTOR | STRING_VECTOR | BOOL_VECTOR

  /** Value: long, double, string, bool and a vector of each. A C++ `double`
      is a `real` here, and a `long` an unbounded int whose range is guarded
      where values are made (IsLong). */
  datatype Value =
    | Integer(i: int)
    | Double(d: real)
    | Str(s: string)
    | Bool(b: bool)
    | IntegerVector(iv: seq<int>)
    | DoubleVector(dv: seq<real>)
    | StringVector(sv: seq<string>)
    | BoolVector(bv: seq<bool>)

  const LongMin: int := -0x8000_0000_0000_0000
  const LongMax: int := 0x7FFF_FFFF_FFFF_FFFF

  predicate IsLong(x: int) {
    LongMin <= x <= LongMax
  }

  /** `Value()`: a default-constructed variant holds its first alternative,
      the long 0. */
  const DefaultValue: Value := Integer(0)

  /** The tag of the alternative v holds, read off the datatype itself. */
  function TagOf(v: Value): ValueType {
    match v
    case Integer(_) => INTEGER
    case Double(_) => DOUBLE
    case Str(_) => STRING
    case Bool(_) => BOOL
    case IntegerVector(_) => INTEGER_VECTOR
    case DoubleVector(_) => DOUBLE_VECTOR
    case StringVector(_) => STRING_VECTOR
    case BoolVector(_) => BOOL_VECTOR
  }

  /** TypeSystem::IsType: does v hold the alternative tagged by t? */
  function IsType(v: Value, t: ValueType): (b: bool)
    ensures b <==> t == TagOf(v)
  {
    match t
    case INTEGER => v.Integer?
    case DOUBLE => v.Double?
    case STRING => v.Str?
    case BOOL => v.Bool?
    case INTEGER_VECTOR => v.IntegerVector?
    case DOUBLE_VECTOR => v.DoubleVector?
    case STRING_VECTOR => v.StringVector?
    case BOOL_VECTOR => v.BoolVector?
  }

  /** TypeSystem::ValueTypeToString */
  function ValueTypeToString(t: ValueType): string {
    match t
    case INTEGER => "INTEGER"
    case DOUBLE => "DOUBLE"
    case STRING => "STRING"
    case BOOL => "BOOL"
    case INTEGER_VECTOR => "INTEGER_VECTOR"
    case DOUBLE_VECTOR => "DOUBLE_VECTOR"
    case STRING_VECTOR => "STRING_VECTOR"
    case BOOL_VECTOR => "BOOL_VECTOR"
  }

  /** TypeSystem::ValueToString: the name of the kind v holds. */
  function ValueToString(v: Value): string {
    match v
    case Integer(_) => "INTEGER"
    case Double(_) => "DOUBLE"
    case Str(_) => "STRING"
    case Bool(_) => "BOOL"
    case IntegerVector(_) => "INTEGER_VECTOR"
    case DoubleVector(_) => "DOUBLE_VECTOR"
    case StringVector(_) => "STRING_VECTOR"
    case BoolVector(_) => "BOOL_VECTOR"
  }

  /** TypeConversionException, carrying the two kind names of its message
      "Cannot convert from <from> to <to>". */
  datatype ConversionError = CannotConvert(from: string, to: string)

  /** Widening of each long to a double, in order. */
  function Widen(xs: seq<int>): (ys: seq<real>)
    ensures |ys| == |xs|
    ensures forall k :: 0 <= k < |xs| ==> ys[k] == xs[k] as real
  {
    seq(|xs|, k requires 0 <= k < |xs| => xs[k] as real)
  }

  /** TypeSystem::ConvertTo: a long widens to DOUBLE and a long vector to
      DOUBLE_VECTOR; any other target accepts only a value already of that
      kind; everything else is a conversion error naming both kinds. */
  function ConvertTo(v: Value, target: ValueType): (r: Result<Value, ConversionError>)
    ensures r.Ok? ==> IsType(r.value, target)
    ensures r.Err? ==> r.error == CannotConvert(ValueToString(v), ValueTypeToString(target))
  {
    var fail := Err(CannotConvert(ValueToString(v), ValueTypeToString(target)));
    match target
    case DOUBLE => if v.Integer? then Ok(Double(v.i as real)) else fail
    case DOUBLE_VECTOR => if v.IntegerVector? then Ok(DoubleVector(Widen(v.iv))) else fail
    case _ => if IsType(v, target) then Ok(v) else fail
  }

  /** Each value satisfies IsType for exactly one tag. */
  lemma ExactlyOneTag(v: Value)
    ensures IsType(v, TagOf(v))
    ensures forall t :: IsType(v, t) ==> t == TagOf(v)
  {
  }

  /** Distinct tags have distinct names. */
  lemma TypeNamesDistinct(t: ValueType, u: ValueType)
    ensures ValueTypeToString(t) == ValueTypeToString(u) <==> t == u
  {
  }

  /** The kind name of a value equals the name of a tag exactly when the
      value is of that kind. */
  lemma NamesAgree(v: Value, t: ValueType)
    ensures ValueToString(v) == ValueTypeToString(t) <==> IsType(v, t)
  {
    assert ValueToString(v) == ValueTypeToString(TagOf(v));
    TypeNamesDistinct(TagOf(v), t);
  }

  /** Exactly when ConvertTo succeeds: a long to DOUBLE, a long vector to
      DOUBLE_VECTOR, or a value already of a target other than those two. In
      particular a double is refused for DOUBLE and a double vector for
      DOUBLE_VECTOR. */
  lemma ConvertSucceedsExactly(v: Value, target: ValueType)
    ensures ConvertTo(v, target).Ok? <==>
      || (target == DOUBLE && v.Integer?)
      || (target == DOUBLE_VECTOR && v.IntegerVector?)
      || (target != DOUBLE && target != DOUBLE_VECTOR && IsType(v, target))
  {
  }

  /** A long converts to the double of the same value; a long vector to a
      double vector of the same length, element by element in order. */
  lemma ConvertWidens(v: Value)
    ensures v.Integer? ==> ConvertTo(v, DOUBLE) == Ok(Double(v.i as real))
    ensures v.IntegerVector? ==>
      && ConvertTo(v, DOUBLE_VECTOR).Ok?
      && var w := ConvertTo(v, DOUBLE_VECTOR).value;
      && w.DoubleVector? && |w.dv| == |v.iv|
      && forall k :: 0 <= k < |v.iv| ==> w.dv[k] == v.iv[k] as real
  {
  }

  /** For any target but the two widening ones, ConvertTo is the identity on
      values of that kind. */
  lemma ConvertIdentity(v: Value, target: ValueType)
    requires target != DOUBLE && target != DOUBLE_VECTOR && IsType(v, target)
    ensures ConvertTo(v, target) == Ok(v)
  {
  }
}
