/** Syntax of the modelled Apex fragment. The facts the checker records for an expression are stored
    on its node; the parser leaves them empty. */
module Syntax {
  import opened Wrappers
  import opened ClassGraph

  /** A case-folded identifier. */
  type Name = string

  datatype ExceptionKind =
    | NullPointer | ListError | MathError | TypeError | StringError | IllegalArgument | FinalError
    | AssertError | QueryError | DmlError | NoAccess | AsyncError

  datatype Type =
    | TString
    | TBoolean
    | TInteger
    | TLong
    | TObject
    | TException
    | TBuiltin(kind: ExceptionKind)
    | TCustom(classId: nat)
    | TList(element: Type)

  datatype ReturnType = RVoid | RValue(ty: Type)

  datatype UnaryOp = Positive | Negate | Not

  datatype BinaryOp =
    | Add | Subtract | Multiply | Divide | Remainder
    | Less | LessEqual | Greater | GreaterEqual
    | Equal | NotEqual
    | And | Or

  datatype AssignOp = Assign | AddAssign | SubtractAssign | MultiplyAssign | DivideAssign | RemainderAssign {
    /** The binary operator of a compound assignment. */
    function Operator(): BinaryOp
      requires !Assign?
    {
      match this
      case AddAssign => Add
      case SubtractAssign => Subtract
      case MultiplyAssign => Multiply
      case DivideAssign => Divide
      case RemainderAssign => Remainder
    }
  }

  datatype NumericKind = IntegerKind | LongKind

  datatype BinaryFact = StringConcat | Numeric(op: BinaryOp, kind: NumericKind)

  datatype UnaryFact = PositiveOf(kind: NumericKind) | NegateOf(kind: NumericKind)

  datatype ListMethod = ListAdd | ListClear | ListSize

  datatype Target =
    | VarTarget(name: Name)
    | IndexTarget(list: Expr, index: Expr)

  datatype Expr =
    | StringLit(text: string)
    | BoolLit(truth: bool)
    | IntLit(number: int)
    | LongLit(number: int)
    | NullLit
    | Var(name: Name)
    | Assignment(target: Target, op: AssignOp, value: Expr, fact: Option<BinaryFact>)
    | Mutation(target: Target, delta: int, returnOld: bool)
    | NewList(element: Type, elements: seq<Expr>)
    | NewException(ty: Type, message: Option<Expr>)
    | Index(list: Expr, index: Expr)
    | Call(name: Name, arguments: seq<Expr>, callee: Option<nat>)
    | ListCall(receiver: Expr, method_: ListMethod, arguments: seq<Expr>)
    | Debug(argument: Expr)
    | Cast(ty: Type, operand: Expr)
    | Conditional(condition: Expr, whenTrue: Expr, whenFalse: Expr)
    | NullCoalesce(left: Expr, right: Expr)
    | Unary(unaryOp: UnaryOp, operand: Expr, unaryFact: Option<UnaryFact>)
    | Binary(left: Expr, binaryOp: BinaryOp, right: Expr, fact: Option<BinaryFact>)

  datatype Declarator = Declarator(name: Name, initializer: Option<Expr>)

  datatype Catch = Catch(ty: Type, name: Name, body: Stmt)

  datatype Stmt =
    | LocalDeclaration(ty: Type, declarators: seq<Declarator>)
    | Sequence(statements: seq<Stmt>)
    | ExprStmt(expression: Expr)
    | Block(statements: seq<Stmt>)
    | If(condition: Expr, thenBranch: Stmt, elseBranch: Option<Stmt>)
    | While(condition: Expr, body: Stmt)
    | DoWhile(body: Stmt, condition: Expr)
    | For(initializer: Option<Stmt>, forCondition: Option<Expr>, update: Option<Stmt>, body: Stmt)
    | ForEach(ty: Type, name: Name, iterable: Expr, body: Stmt)
    | Break
    | Continue
    | Return(result: Option<Expr>)
    | Try(tryBlock: Stmt, catches: seq<Catch>, finallyBlock: Option<Stmt>)
    | Throw(exception: Expr)

  datatype Parameter = Parameter(ty: Type, name: Name)

  datatype Method = Method(name: Name, parameters: seq<Parameter>, returnType: ReturnType, body: Stmt)

  /** How a class names its superclass: not at all, the built-in `Exception`, or another class. */
  datatype Parent = NoParent | ExceptionRoot | ParentClass(classId: nat)

  /** The declared classes, by index: the hierarchy edges and the superclass links. */
  datatype ClassTable = ClassTable(graph: Graph, parents: seq<Parent>)

  datatype Program = Program(classes: ClassTable, methods: seq<Method>, statements: seq<Stmt>)

  const MAX_INT: int := 0x7fff_ffff
  const MIN_INT: int := -0x8000_0000
  const MAX_LONG: int := 0x7fff_ffff_ffff_ffff
  const MIN_LONG: int := -0x8000_0000_0000_0000
}
