/**
 * The Havo syntax tree, as far as the compiler's constant evaluator, code generator and
 * printer look at it. Source positions are not modelled; a node keeps the `NodeId` that
 * the type table and the evaluator key on.
 */
module Ast {
  import opened Wrappers
  import opened Int64

  /** Interned names are modelled by the text they stand for. */
  type Name = string

  /** `NodeId(usize)`: the identity of an expression node. */
  type NodeId = nat

  /** How an integer literal was written. */
  datatype IntBase = Dec | Hex | Bin

  /** The suffix of an integer literal; suffixes the model never inspects are kept by name. */
  datatype IntSuffix = Int | Long | ULong | OtherSuffix(suffix: string)

  datatype FloatSuffix = Float | Double

  /** Types. A struct type carries its fields; an array its length when it has one. */
  datatype Type =
    | Basic(name: Name)
    | Ptr(subtype: Type)
    | Array(subtype: Type, len: Option<nat>)
    | Vector(subtype: Type, size: nat)
    | Func(params: seq<Type>, ret: Type)
    | Struct(name: Name, fields: seq<StructField>, union: bool)
    | Void

  datatype StructField = StructField(name: Name, dataType: Type)

  /** `Type::is_ptr`. */
  predicate IsPtr(t: Type)
  {
    t.Ptr?
  }

  /** `Type::make_ptr`: a pointer to t. */
  function MakePtr(t: Type): Type
  {
    Ptr(t)
  }

  /** An expression node: its id and what kind of expression it is. */
  datatype Expr = Expr(id: NodeId, kind: ExprKind)

  datatype ExprKind =
    | MacroCall(macroName: Name)
    | CompTime(inner: Expr)
    | New(inner: Expr)
    | Int(value: I64, base: IntBase, suffix: IntSuffix)
    /** A float literal, kept as its IEEE-754 bit pattern. */
    | Float(bits: bv64, fsuffix: FloatSuffix)
    | Field(obj: Expr, field: Name)
    | Conv(operand: Expr, to: Type)
    | Deref(pointer: Expr)
    | AddressOf(place: Expr)
    | Assign(target: Expr, source: Expr)
    | Bool(b: bool)
    | Null
    | Ident(ident: Name)
    | Str(s: string)
    | StructLit(path: Name, fieldArgs: seq<StructArg>)
    | Binary(op: string, lhs: Expr, rhs: Expr)
    | Unary(uop: string, operand: Expr)
    | SizeOf(ty: Type)
    | GetFunc(fname: Name)
    | Char(c: char)
    | ArrayIdx(indexed: Expr, index: Expr)
    | ArrayLit
    | Call(callee: Name, receiver: Option<Expr>, args: seq<Expr>)

  /** One `name: expr` of a struct literal. */
  datatype StructArg = StructArg(id: NodeId, name: Name, expr: Expr)

  datatype Stmt =
    | CFor(forInit: Stmt, cond: Expr, step: Expr, body: Stmt)
    | Continue
    | Break
    | Block(stmts: seq<Stmt>)
    | ExprStmt(expr: Expr)
    | If(cond: Expr, thenBody: Stmt, elseBody: Option<Stmt>)
    | CompTimeStmt(stmt: Stmt)
    | While(cond: Expr, body: Stmt)
    | Loop(body: Stmt)
    | Return(value: Option<Expr>)
    | Var(name: Name, ty: Option<Type>, init: Option<Expr>)

  datatype Param = Param(name: Name, ty: Type)

  /** A function declaration with its flags. `irTempId` is the slot the code generator stamps. */
  datatype Function = Function(
    name: Name,
    params: seq<Param>,
    ret: Type,
    body: Option<Stmt>,
    receiver: Option<Param>,
    public: bool,
    internal: bool,
    external: bool,
    constant: bool,
    isStatic: bool,
    inline: bool,
    variadic: bool,
    irTempId: nat)

  /** The parameter types of f, in order. */
  function ParamTypes(f: Function): (ts: seq<Type>)
    ensures |ts| == |f.params|
    ensures forall i :: 0 <= i < |f.params| ==> ts[i] == f.params[i].ty
  {
    seq(|f.params|, i requires 0 <= i < |f.params| => f.params[i].ty)
  }

  datatype StructDecl = StructDecl(name: Name, fields: seq<StructField>, public: bool, union: bool)

  datatype Global = Global(name: Name, typ: Type, expr: Option<Expr>, external: bool, public: bool)

  datatype MacroToken = Tok(tokenName: string) | MacroVar(varName: Name) | VarArgs

  datatype Macro = Macro(name: Name, args: seq<Name>, body: seq<MacroToken>)

  /** `Elem::Const`: a named constant; only its visibility matters here. */
  datatype ConstDecl = ConstDecl(name: Name, public: bool)

  /** A top-level element of a file. */
  datatype Elem =
    | FuncDef(func: Function)
    | StructDef(def: StructDecl)
    | Import(path: string)
    | Alias(aliasName: Name, aliased: Type)
    | ConstExpr(constName: Name, value: Expr)
    | GlobalDef(global: Global)
    | Link(lib: Name)
    | MacroDef(mac: Macro)
    | ConstDef(decl: ConstDecl)

  datatype File = File(elems: seq<Elem>, src: string, path: string, root: string)
}
