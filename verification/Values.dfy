/** Runtime values, the interpreter state and the operators on values. */
module Values {
  import opened Wrappers
  import opened ClassGraph
  import opened Syntax

  /** Why an operation rejected operands that the checker should have excluded. */
  datatype Escape = NullOperand | IntegerOutOfRange | WrongOperands

  /** `escape` is set on the exceptions that report operands escaping semantic validation. */
  datatype Exn = Exn(ty: Type, message: string, escape: Option<Escape>, trace: seq<Name>)

  datatype Value =
    | VString(text: string)
    | VBoolean(truth: bool)
    | VInteger(number: int)
    | VLong(number: int)
    | VCollection(id: nat)
    | VException(exception: Exn)
    | VNull(ty: Option<Type>)
    | VVoid

  datatype Slot = Slot(ty: Type, value: Value)

  type Scope = map<Name, Slot>

  datatype ListObject = ListObject(element: Type, elements: seq<Value>, iterationDepth: nat)

  type Lists = seq<ListObject>

  datatype State = State(scopes: seq<Scope>, lists: Lists, calls: seq<Name>, output: seq<string>)

  /** Internal errors, which no Apex `catch` can see. */
  datatype Fault =
    | UnknownVariable | UnresolvedCall | MissingOperation | MissingMethod
    | LiteralOutOfRange | InvalidMessage | NonExceptionThrow | DebugOfVoid
    | ValueReturnEscaped | BreakEscaped | ContinueEscaped | InvalidReturn | MissingReturn

  /** How a computation ends. `Panic` is an out-of-bounds access that aborts the whole process. */
  datatype Outcome<+T> =
    | Done(value: T)
    | Raise(exception: Exn)
    | Fails(fault: Fault)
    | Panic
    | OutOfFuel
  {
    function Propagate<U>(): (r: Outcome<U>)
      requires !Done?
      ensures !r.Done?
    {
      match this
      case Raise(exception) => Raise(exception)
      case Fails(fault) => Fails(fault)
      case Panic => Panic
      case OutOfFuel => OutOfFuel
    }
  }

  datatype Flow = Normal | Breaking | Continuing | Returning(result: Option<Value>)

  /** Code outside the model: rendering, Unicode case folding and structural list equality. */
  datatype Host = Host(
    render: (Value, Lists) -> string,
    fold: string -> string,
    sameLists: (nat, nat, Lists) -> bool)

  datatype Env = Env(program: Program, host: Host)

  function Raised<T>(kind: ExceptionKind): Outcome<T> {
    Raise(Exn(TBuiltin(kind), "", None, []))
  }

  function Escaped<T>(why: Escape): Outcome<T> {
    Raise(Exn(TBuiltin(TypeError), "", Some(why), []))
  }

  // ---------------------------------------------------------------- scopes

  /** The innermost slot of a name. */
  function Lookup(scopes: seq<Scope>, name: Name): Option<Slot> {
    if scopes == [] then None
    else if name in scopes[|scopes| - 1] then Some(scopes[|scopes| - 1][name])
    else Lookup(scopes[..|scopes| - 1], name)
  }

  /** Stores a value into the innermost slot of a name. */
  function Store(scopes: seq<Scope>, name: Name, value: Value): (r: seq<Scope>)
    requires Lookup(scopes, name).Some?
    ensures |r| == |scopes|
  {
    var last := |scopes| - 1;
    if name in scopes[last] then
      scopes[last := scopes[last][name := Slot(scopes[last][name].ty, value)]]
    else
      Store(scopes[..last], name, value) + [scopes[last]]
  }

  function Bind(scopes: seq<Scope>, name: Name, slot: Slot): (r: seq<Scope>)
    requires scopes != []
    ensures |r| == |scopes|
  {
    scopes[|scopes| - 1 := scopes[|scopes| - 1][name := slot]]
  }

  // ---------------------------------------------------------------- conversions

  function TypedValue(value: Value, ty: Type): Value {
    match value
    case VNull(_) => VNull(Some(ty))
    case VInteger(n) => if ty == TLong then VLong(n) else value
    case _ => value
  }

  predicate Matches(classes: ClassTable, exception: Exn, ty: Type) {
    || ty == TException
    || exception.ty == ty
    || (ty.TCustom? && exception.ty.TCustom? && Inherits(classes.graph, exception.ty.classId, ty.classId))
  }

  predicate ValueHasType(classes: ClassTable, lists: Lists, value: Value, ty: Type) {
    if ty == TObject then !value.VVoid?
    else
      match value
      case VString(_) => ty == TString
      case VBoolean(_) => ty == TBoolean
      case VInteger(_) => ty == TInteger
      case VLong(_) => ty == TLong
      case VCollection(id) => id < |lists| && ty == TList(lists[id].element)
      case VException(exception) => Matches(classes, exception, ty)
      case VNull(nullType) => nullType.None? || nullType.value == ty
      case VVoid => false
  }

  function CastValue(classes: ClassTable, lists: Lists, value: Value, ty: Type): Outcome<Value> {
    if value.VNull? then
      Done(VNull(Some(ty)))
    else if value.VInteger? && ty == TLong then
      Done(VLong(value.number))
    else if value.VLong? && ty == TInteger then
      if MIN_INT <= value.number <= MAX_INT then Done(VInteger(value.number)) else Raised(TypeError)
    else if ValueHasType(classes, lists, value, ty) then
      Done(value)
    else
      Raised(TypeError)
  }

  // ---------------------------------------------------------------- numbers

  /** Division truncating toward zero. */
  function Quotient(a: int, b: int): int
    requires b != 0
  {
    if a >= 0 then (if b > 0 then a / b else -(a / -b))
    else (if b > 0 then -(-a / b) else -a / -b)
  }

  function RemainderOf(a: int, b: int): int
    requires b != 0
  {
    a - b * Quotient(a, b)
  }

  /** A 32-bit operand. */
  function IntOperand(value: Value): Outcome<int> {
    match value
    case VInteger(n) => if MIN_INT <= n <= MAX_INT then Done(n) else Escaped(IntegerOutOfRange)
    case VNull(_) => Escaped(NullOperand)
    case _ => Escaped(WrongOperands)
  }

  /** A 64-bit operand. */
  function LongOperand(value: Value): Outcome<int> {
    match value
    case VInteger(n) => Done(n)
    case VLong(n) => Done(n)
    case VNull(_) => Escaped(NullOperand)
    case _ => Escaped(WrongOperands)
  }

  function Operand(kind: NumericKind, value: Value): Outcome<int> {
    if kind.IntegerKind? then IntOperand(value) else LongOperand(value)
  }

  predicate InRange(kind: NumericKind, n: int) {
    if kind.IntegerKind? then MIN_INT <= n <= MAX_INT else MIN_LONG <= n <= MAX_LONG
  }

  /** The result of an operation, or an overflow exception. */
  function Fitted(kind: NumericKind, n: int): Outcome<Value> {
    if !InRange(kind, n) then Raised(MathError)
    else if kind.IntegerKind? then Done(VInteger(n))
    else Done(VLong(n))
  }

  predicate IsArithmetic(op: BinaryOp) {
    op.Add? || op.Subtract? || op.Multiply? || op.Divide? || op.Remainder?
  }

  function Arithmetic(op: BinaryOp, kind: NumericKind, left: Value, right: Value): Outcome<Value> {
    var l := Operand(kind, left);
    if !l.Done? then l.Propagate()
    else
      var r := Operand(kind, right);
      if !r.Done? then r.Propagate()
      else
        match op
        case Add => Fitted(kind, l.value + r.value)
        case Subtract => Fitted(kind, l.value - r.value)
        case Multiply => Fitted(kind, l.value * r.value)
        case Divide => if r.value == 0 then Raised(MathError) else Fitted(kind, Quotient(l.value, r.value))
        case Remainder =>
          if r.value == 0 then Raised(MathError)
          else if !InRange(kind, Quotient(l.value, r.value)) then Raised(MathError)
          else Fitted(kind, RemainderOf(l.value, r.value))
        case _ => Escaped(WrongOperands)
  }

  function ApplyBinary(host: Host, lists: Lists, fact: BinaryFact, left: Value, right: Value): Outcome<Value> {
    match fact
    case StringConcat => Done(VString(host.render(left, lists) + host.render(right, lists)))
    case Numeric(op, kind) =>
      if left.VNull? || right.VNull? then Raised(NullPointer) else Arithmetic(op, kind, left, right)
  }

  function Negate32(value: Value): Outcome<Value> {
    match value
    case VInteger(n) => if MIN_INT <= n <= MAX_INT then Fitted(IntegerKind, -n) else Raised(MathError)
    case VNull(_) => Escaped(NullOperand)
    case _ => Escaped(WrongOperands)
  }

  function Negate64(value: Value): Outcome<Value> {
    var n := LongOperand(value);
    if n.Done? then Fitted(LongKind, -n.value) else n.Propagate()
  }

  function Convert(kind: NumericKind, value: Value): Outcome<Value> {
    var n := Operand(kind, value);
    if !n.Done? then n.Propagate()
    else if kind.IntegerKind? then Done(VInteger(n.value))
    else Done(VLong(n.value))
  }

  function ApplyUnary(fact: UnaryFact, value: Value): Outcome<Value> {
    if value.VNull? then Raised(NullPointer)
    else
      match fact
      case PositiveOf(kind) => Convert(kind, value)
      case NegateOf(IntegerKind) => Negate32(value)
      case NegateOf(LongKind) => Negate64(value)
  }

  /** `++` and `--`: addition without the null test that the binary operators make. */
  function Increment(kind: NumericKind, value: Value, delta: int): Outcome<Value> {
    Arithmetic(Add, kind, value, if kind.IntegerKind? then VInteger(delta) else VLong(delta))
  }

  /** The kind `++` and `--` select from the stored value. */
  function MutationKind(value: Value): Outcome<NumericKind> {
    match value
    case VInteger(_) => Done(IntegerKind)
    case VLong(_) => Done(LongKind)
    case VNull(ty) =>
      if ty == Some(TInteger) then Done(IntegerKind)
      else if ty == Some(TLong) then Done(LongKind)
      else Raised(NullPointer)
    case _ => Escaped(WrongOperands)
  }

  predicate IsNumber(value: Value) {
    value.VInteger? || value.VLong?
  }

  function Compare(op: BinaryOp, left: Value, right: Value): Outcome<Value> {
    if IsNumber(left) && IsNumber(right) then
      match op
      case Less => Done(VBoolean(left.number < right.number))
      case LessEqual => Done(VBoolean(left.number <= right.number))
      case Greater => Done(VBoolean(left.number > right.number))
      case GreaterEqual => Done(VBoolean(left.number >= right.number))
      case _ => Fails(MissingOperation)
    else if left.VNull? || right.VNull? then
      Raised(NullPointer)
    else
      Escaped(WrongOperands)
  }

  predicate OperatorEqual(host: Host, lists: Lists, left: Value, right: Value) {
    if left.VString? && right.VString? then host.fold(left.text) == host.fold(right.text)
    else if left.VBoolean? && right.VBoolean? then left.truth == right.truth
    else if IsNumber(left) && IsNumber(right) then left.number == right.number
    else if left.VCollection? && right.VCollection? then host.sameLists(left.id, right.id, lists)
    else if left.VException? && right.VException? then left.exception == right.exception
    else (left.VNull? && right.VNull?) || (left.VVoid? && right.VVoid?)
  }

  /** A strict binary operator on evaluated operands. */
  function Combine(env: Env, lists: Lists, op: BinaryOp, fact: Option<BinaryFact>, left: Value, right: Value): Outcome<Value> {
    if fact.Some? then ApplyBinary(env.host, lists, fact.value, left, right)
    else
      match op
      case Less | LessEqual | Greater | GreaterEqual => Compare(op, left, right)
      case Equal => Done(VBoolean(OperatorEqual(env.host, lists, left, right)))
      case NotEqual => Done(VBoolean(!OperatorEqual(env.host, lists, left, right)))
      case _ => Fails(MissingOperation)
  }

  function AsBoolean(value: Value): Outcome<bool> {
    match value
    case VBoolean(truth) => Done(truth)
    case VNull(_) => Raised(NullPointer)
    case _ => Escaped(WrongOperands)
  }

  // ---------------------------------------------------------------- lists and places

  datatype Place = LocalPlace(name: Name) | ListPlace(id: nat, index: nat)

  function AsCollection(value: Value): Outcome<nat> {
    match value
    case VCollection(id) => Done(id)
    case VNull(_) => Raised(NullPointer)
    case _ => Escaped(WrongOperands)
  }

  function AsIndex(value: Value): Outcome<int> {
    match value
    case VInteger(n) => Done(n)
    case VNull(_) => Raised(NullPointer)
    case _ => Escaped(WrongOperands)
  }

  /** A list and an element position of it, checked in the order the interpreter checks them. */
  function ListPosition(lists: Lists, list: Value, index: Value, forWrite: bool): Outcome<(nat, nat)> {
    var id := AsCollection(list);
    if !id.Done? then id.Propagate()
    else
      var i := AsIndex(index);
      if !i.Done? then i.Propagate()
      else if id.value >= |lists| then Panic
      else if forWrite && lists[id.value].iterationDepth > 0 then Raised(FinalError)
      else if 0 <= i.value < |lists[id.value].elements| then Done((id.value, i.value))
      else Raised(ListError)
  }

  function ReadPlace(st: State, place: Place): Outcome<Value> {
    match place
    case LocalPlace(name) =>
      var slot := Lookup(st.scopes, name);
      if slot.Some? then Done(slot.value.value) else Fails(UnknownVariable)
    case ListPlace(id, index) =>
      if id < |st.lists| && index < |st.lists[id].elements| then Done(st.lists[id].elements[index]) else Panic
  }

  datatype Res<+T> = Res(out: Outcome<T>, st: State)

  function SetElements(lists: Lists, id: nat, elements: seq<Value>): Lists
    requires id < |lists|
  {
    lists[id := lists[id].(elements := elements)]
  }

  /** Converts the value to the type of the place and stores it. */
  function WritePlace(st: State, place: Place, value: Value): Res<Value> {
    match place
    case LocalPlace(name) =>
      var slot := Lookup(st.scopes, name);
      if slot.None? then Res(Fails(UnknownVariable), st)
      else
        var typed := TypedValue(value, slot.value.ty);
        Res(Done(typed), st.(scopes := Store(st.scopes, name, typed)))
    case ListPlace(id, index) =>
      if id < |st.lists| && index < |st.lists[id].elements| then
        var typed := TypedValue(value, st.lists[id].element);
        Res(Done(typed), st.(lists := SetElements(st.lists, id, st.lists[id].elements[index := typed])))
      else
        Res(Panic, st)
  }

  function AllTyped(values: seq<Value>, ty: Type): (r: seq<Value>)
    ensures |r| == |values| && forall i :: 0 <= i < |r| ==> r[i] == TypedValue(values[i], ty)
  {
    seq(|values|, i requires 0 <= i < |values| => TypedValue(values[i], ty))
  }

  function Allocate(st: State, element: Type, elements: seq<Value>): Res<Value> {
    Res(Done(VCollection(|st.lists|)), st.(lists := st.lists + [ListObject(element, AllTyped(elements, element), 0)]))
  }

  /** A list method on its evaluated receiver and arguments. */
  function CallListMethod(st: State, receiver: Value, method_: ListMethod, arguments: seq<Value>): Res<Value> {
    match receiver
    case VNull(_) => Res(Raised(NullPointer), st)
    case VCollection(id) =>
      if id >= |st.lists| then Res(Panic, st)
      else
        var list := st.lists[id];
        (match method_
         case ListAdd =>
           if |arguments| != 1 then Res(Escaped(WrongOperands), st)
           else if list.iterationDepth > 0 then Res(Raised(FinalError), st)
           else Res(Done(VVoid), st.(lists := SetElements(st.lists, id, list.elements + [TypedValue(arguments[0], list.element)])))
         case ListClear =>
           if arguments != [] then Res(Escaped(WrongOperands), st)
           else if list.iterationDepth > 0 then Res(Raised(FinalError), st)
           else Res(Done(VVoid), st.(lists := SetElements(st.lists, id, [])))
         case ListSize =>
           if arguments != [] then Res(Escaped(WrongOperands), st)
           else if |list.elements| > MAX_LONG then Res(Raised(ListError), st)
           else Res(Done(VInteger(|list.elements|)), st))
    case _ => Res(Escaped(WrongOperands), st)
  }

  function ChangeDepth(lists: Lists, id: nat, depth: nat): Lists
    requires id < |lists|
  {
    lists[id := lists[id].(iterationDepth := depth)]
  }

  // ---------------------------------------------------------------- calls and exceptions

  function AttachStack(exception: Exn, calls: seq<Name>): Exn {
    if exception.trace != [] || calls == [] then exception
    else exception.(trace := seq(|calls|, i requires 0 <= i < |calls| => calls[|calls| - 1 - i]))
  }

  function ParameterScope(parameters: seq<Parameter>, arguments: seq<Value>): Scope {
    if parameters == [] || arguments == [] then map[]
    else
      var last := (if |parameters| < |arguments| then |parameters| else |arguments|) - 1;
      ParameterScope(parameters[..last], arguments[..last])
        [parameters[last].name := Slot(parameters[last].ty, TypedValue(arguments[last], parameters[last].ty))]
  }

  /** What a call returns when its body ends in this way. */
  function CallResult(returnType: ReturnType, body: Outcome<Flow>): Outcome<Value> {
    match body
    case Done(Returning(result)) =>
      if returnType.RVoid? && result.None? then Done(VVoid)
      else if returnType.RValue? && result.Some? then Done(TypedValue(result.value, returnType.ty))
      else Fails(InvalidReturn)
    case Done(Normal) => if returnType.RVoid? then Done(VVoid) else Fails(MissingReturn)
    case Done(Breaking) => Fails(BreakEscaped)
    case Done(Continuing) => Fails(ContinueEscaped)
    case _ => body.Propagate()
  }

  /** The first clause that catches the exception, or the number of clauses. */
  function FindCatch(classes: ClassTable, exception: Exn, catches: seq<Catch>): (i: nat)
    ensures i <= |catches|
    ensures i < |catches| ==> Matches(classes, exception, catches[i].ty)
    ensures forall j :: 0 <= j < i ==> !Matches(classes, exception, catches[j].ty)
  {
    if catches == [] then 0
    else if Matches(classes, exception, catches[0].ty) then 0
    else
      var rest := FindCatch(classes, exception, catches[1..]);
      assert forall j :: 0 < j < |catches| ==> catches[j] == catches[1..][j - 1];
      rest + 1
  }
}
