/** The checker's relations on types: subtyping, joins, operator typing and overload choice. */
module Typing {
  import opened Wrappers
  import opened ClassGraph
  import opened Syntax

  /** The static type of an expression: a value type, the type of `null`, or no value. */
  datatype ExprType = EValue(ty: Type) | ENull | EVoid

  datatype CheckError =
    | UnknownVariable | DuplicateVariable | UnknownType | NotAssignable | InvalidOperands
    | WrongOperandType | NotAStatement | ControlOutsideLoop | InvalidReturn | MissingReturn
    | UnreachableCatch | NotAnException | UnknownMethod | NoMatchingOverload | AmbiguousOverload
    | DuplicateOverload | InvalidCast | NotAList | NotIterable | LiteralOutOfRange | WrongArity
    | VoidArgument | NotIntegral | NoJoin

  // ---------------------------------------------------------------- exception types

  /** Follows the superclass links, giving up on a class seen before. */
  predicate ExtendsException(parents: seq<Parent>, c: nat, visited: set<nat>)
    decreases Below(|parents|) - visited
  {
    if c >= |parents| || c in visited then false
    else
      match parents[c]
      case NoParent => false
      case ExceptionRoot => true
      case ParentClass(p) => ExtendsException(parents, p, visited + {c})
  }

  predicate IsCustomException(classes: ClassTable, c: nat) {
    ExtendsException(classes.parents, c, {})
  }

  predicate IsExceptionType(classes: ClassTable, ty: Type) {
    ty.TException? || ty.TBuiltin? || (ty.TCustom? && IsCustomException(classes, ty.classId))
  }

  predicate ValidType(classes: ClassTable, ty: Type) {
    match ty
    case TCustom(c) => c < |classes.graph|
    case TList(element) => ValidType(classes, element)
    case _ => true
  }

  // ---------------------------------------------------------------- subtyping

  predicate IsSubtype(classes: ClassTable, actual: Type, expected: Type) {
    || actual == expected
    || expected == TObject
    || (actual == TInteger && expected == TLong)
    || (expected == TException && IsExceptionType(classes, actual))
    || (actual.TCustom? && expected.TCustom? && Inherits(classes.graph, actual.classId, expected.classId))
  }

  predicate IsAssignable(classes: ClassTable, expected: Type, actual: ExprType) {
    match actual
    case EValue(ty) => IsSubtype(classes, ty, expected)
    case ENull => true
    case EVoid => false
  }

  /** The type of `c ? l : r` and `l ?? r`. */
  function Join(classes: ClassTable, left: ExprType, right: ExprType): Result<ExprType, CheckError> {
    if left.EVoid? || right.EVoid? then Err(NoJoin)
    else if left.ENull? then Ok(right)
    else if right.ENull? then Ok(left)
    else if left == right then Ok(left)
    else if IsSubtype(classes, left.ty, right.ty) then Ok(right)
    else if IsSubtype(classes, right.ty, left.ty) then Ok(left)
    else Ok(EValue(TObject))
  }

  predicate CastAllowed(classes: ClassTable, source: ExprType, target: Type) {
    match source
    case ENull => true
    case EVoid => false
    case EValue(ty) =>
      || ty == target
      || ((ty.TInteger? || ty.TLong?) && (target.TInteger? || target.TLong?))
      || ty == TObject
      || target == TObject
      || (ty == TException && IsExceptionType(classes, target))
      || (target == TException && IsExceptionType(classes, ty))
      || IsSubtype(classes, ty, target)
      || IsSubtype(classes, target, ty)
  }

  // ---------------------------------------------------------------- operators

  function KindOf(ty: ExprType): Option<NumericKind> {
    match ty
    case EValue(TInteger) => Some(IntegerKind)
    case EValue(TLong) => Some(LongKind)
    case _ => None
  }

  function TypeOfKind(kind: NumericKind): Type {
    if kind.IntegerKind? then TInteger else TLong
  }

  function Promote(left: ExprType, right: ExprType): Option<NumericKind> {
    var l := KindOf(left);
    var r := KindOf(right);
    if l.None? || r.None? then None
    else if l.value.LongKind? || r.value.LongKind? then Some(LongKind)
    else Some(IntegerKind)
  }

  /** The result type of a binary operator and the operation recorded for the interpreter. */
  function BinaryType(left: ExprType, op: BinaryOp, right: ExprType)
    : Result<(ExprType, Option<BinaryFact>), CheckError>
  {
    match op
    case Add =>
      var kind := Promote(left, right);
      if kind.Some? then Ok((EValue(TypeOfKind(kind.value)), Some(Numeric(Add, kind.value))))
      else if (left == EValue(TString) || right == EValue(TString)) && !left.EVoid? && !right.EVoid? then
        Ok((EValue(TString), Some(StringConcat)))
      else Err(InvalidOperands)
    case Subtract | Multiply | Divide | Remainder =>
      var kind := Promote(left, right);
      if kind.Some? then Ok((EValue(TypeOfKind(kind.value)), Some(Numeric(op, kind.value)))) else Err(InvalidOperands)
    case Less | LessEqual | Greater | GreaterEqual =>
      if Promote(left, right).Some? then Ok((EValue(TBoolean), None)) else Err(InvalidOperands)
    case Equal | NotEqual =>
      if left.EVoid? || right.EVoid? then Err(InvalidOperands)
      else if left.ENull? || right.ENull? || left == right || Promote(left, right).Some? then Ok((EValue(TBoolean), None))
      else Err(InvalidOperands)
    case And | Or =>
      if left == EValue(TBoolean) && right == EValue(TBoolean) then Ok((EValue(TBoolean), None)) else Err(InvalidOperands)
  }

  // ---------------------------------------------------------------- overloads

  predicate Applicable(classes: ClassTable, parameters: seq<Type>, arguments: seq<ExprType>) {
    |parameters| == |arguments|
    && forall i :: 0 <= i < |parameters| ==> IsAssignable(classes, parameters[i], arguments[i])
  }

  /** Each type equal or a subtype, and at least one different. */
  predicate MoreSpecific(classes: ClassTable, left: seq<Type>, right: seq<Type>) {
    var n := if |left| < |right| then |left| else |right|;
    && (forall i :: 0 <= i < n ==> left[i] == right[i] || IsSubtype(classes, left[i], right[i]))
    && (exists i :: 0 <= i < n && left[i] != right[i])
  }

  predicate Undominated(classes: ClassTable, candidates: seq<seq<Type>>, i: nat)
    requires i < |candidates|
  {
    forall j :: 0 <= j < |candidates| && j != i ==> !MoreSpecific(classes, candidates[j], candidates[i])
  }

  /** The undominated candidates at or after `from`. */
  function UndominatedFrom(classes: ClassTable, candidates: seq<seq<Type>>, from: nat): (r: seq<nat>)
    requires from <= |candidates|
    ensures forall i :: i in r <==> from <= i < |candidates| && Undominated(classes, candidates, i)
    decreases |candidates| - from
  {
    if from == |candidates| then []
    else if Undominated(classes, candidates, from) then [from] + UndominatedFrom(classes, candidates, from + 1)
    else UndominatedFrom(classes, candidates, from + 1)
  }

  /** The one undominated candidate, if there is exactly one. */
  function UniqueMostSpecific(classes: ClassTable, candidates: seq<seq<Type>>): (r: Option<nat>)
    ensures r.Some? ==> r.value < |candidates| && Undominated(classes, candidates, r.value)
  {
    var undominated := UndominatedFrom(classes, candidates, 0);
    if |undominated| == 1 then
      assert undominated[0] in undominated;
      Some(undominated[0])
    else None
  }

  function ParameterTypes(parameters: seq<Parameter>): (r: seq<Type>)
    ensures |r| == |parameters| && forall i :: 0 <= i < |r| ==> r[i] == parameters[i].ty
  {
    seq(|parameters|, i requires 0 <= i < |parameters| => parameters[i].ty)
  }

  /** The methods of a name that accept the argument types, by index. */
  function ApplicableMethods(classes: ClassTable, methods: seq<Method>, name: Name, arguments: seq<ExprType>, from: nat)
    : (r: seq<nat>)
    requires from <= |methods|
    ensures forall i :: i in r ==> i < |methods| && methods[i].name == name
                                   && Applicable(classes, ParameterTypes(methods[i].parameters), arguments)
    decreases |methods| - from
  {
    if from == |methods| then []
    else
      var rest := ApplicableMethods(classes, methods, name, arguments, from + 1);
      if methods[from].name == name && Applicable(classes, ParameterTypes(methods[from].parameters), arguments)
      then [from] + rest
      else rest
  }

  function CandidateTypes(methods: seq<Method>, ids: seq<nat>): (r: seq<seq<Type>>)
    requires forall i :: i in ids ==> i < |methods|
    ensures |r| == |ids|
  {
    seq(|ids|, i requires 0 <= i < |ids| =>
      assert ids[i] in ids;
      ParameterTypes(methods[ids[i]].parameters))
  }

  /** Overload resolution for a call of a top-level method. */
  function SelectMethod(classes: ClassTable, methods: seq<Method>, name: Name, arguments: seq<ExprType>)
    : (r: Result<nat, CheckError>)
    ensures r.Ok? ==> r.value < |methods| && methods[r.value].name == name
                      && Applicable(classes, ParameterTypes(methods[r.value].parameters), arguments)
  {
    if !exists i :: 0 <= i < |methods| && methods[i].name == name then Err(UnknownMethod)
    else
      var applicable := ApplicableMethods(classes, methods, name, arguments, 0);
      if applicable == [] then Err(NoMatchingOverload)
      else
        var best := UniqueMostSpecific(classes, CandidateTypes(methods, applicable));
        if best.None? then Err(AmbiguousOverload)
        else
          assert applicable[best.value] in applicable;
          Ok(applicable[best.value])
  }
}
