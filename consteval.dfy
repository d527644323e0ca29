/**
 * The constant evaluator of `optimize/const_eval.rs` as functions: the value type `Const`,
 * its hand-written equality, the type-size table, the folding of unary and binary operators
 * on 64-bit integers and booleans, and the interpreter for expressions, statements and
 * constant-function calls (the specification the class in Evaluator is proved against).
 *
 * Rust panics are the `Panic` outcome. The interpreter recurses through constant
 * expressions and function bodies, which need not terminate, so it carries fuel; running
 * out is the `OutOfFuel` outcome.
 */
module ConstEval {
  import opened Wrappers
  import opened Int64
  import opened Ast

  /** A value known at compile time. `Unknown` is the source's `Const::None`. */
  datatype Const =
    | Imm(i: I64, suffix: IntSuffix, base: IntBase)
    | Bool(b: bool)
    | Struct(name: Name, fields: seq<FieldVal>)
    | Void
    | Ret(inner: Const)
    | Str(s: string)
    | Array(elems: seq<Const>)
    | Unknown

  /** A field of a struct value with the id of the expression it came from. */
  datatype FieldVal = FieldVal(name: Name, value: Const, id: NodeId)

  /** The panic message of `Option::unwrap` on `None`. */
  const UnwrapNone := "called `Option::unwrap()` on a `None` value"

  // ---------------------------------------------------------------------------------------
  // Equality (`impl PartialEq for Const`)

  /** The equality as written: for structs with fields only the last zipped pair is compared. */
  function ConstEqAsWritten(a: Const, b: Const): bool
    decreases a
  {
    match (a, b)
    case (Imm(i, _, _), Imm(j, _, _)) => i == j
    case (Bool(x), Bool(y)) => x == y
    case (Struct(n1, f1), Struct(n2, f2)) =>
      if |f1| == 0 && |f2| == 0 then n1 == n2 else ZipLastEq(f1, f2, false)
    case _ => false
  }

  /** The `for (f1, f2) in zip { fields_ok = f1 == f2 }` loop, with `acc` the running flag. */
  function ZipLastEq(f1: seq<FieldVal>, f2: seq<FieldVal>, acc: bool): bool
    decreases f1
  {
    if f1 == [] || f2 == [] then acc
    else ZipLastEq(f1[1..], f2[1..], FieldEqAsWritten(f1[0], f2[0]))
  }

  /** Tuple equality on `(Name, Rc<RefCell<Const>>, NodeId)`. */
  function FieldEqAsWritten(x: FieldVal, y: FieldVal): bool
    decreases x
  {
    x.name == y.name && ConstEqAsWritten(x.value, y.value) && x.id == y.id
  }

  /** The zip loop leaves the comparison of the last pair it visits, or `acc` if none. */
  lemma {:induction false} ZipLastEqIsLastPair(f1: seq<FieldVal>, f2: seq<FieldVal>, acc: bool)
    ensures var k := if |f1| < |f2| then |f1| else |f2|;
      ZipLastEq(f1, f2, acc) == if k == 0 then acc else FieldEqAsWritten(f1[k - 1], f2[k - 1])
    decreases f1
  {
    if f1 != [] && f2 != [] {
      ZipLastEqIsLastPair(f1[1..], f2[1..], FieldEqAsWritten(f1[0], f2[0]));
    }
  }

  /**
   * Two values of one struct literal `S { x: v, y: 2 }`, built for `v = 1` and `v = 9`:
   * each field carries the id of its value expression (5 and 6 here) in both. As written
   * they compare equal although `x` differs.
   */
  lemma StructEqAsWrittenIgnoresAllButLast()
    ensures var a := Const.Struct("S", [FieldVal("x", Imm(1, IntSuffix.Int, Dec), 5), FieldVal("y", Imm(2, IntSuffix.Int, Dec), 6)]);
      var b := Const.Struct("S", [FieldVal("x", Imm(9, IntSuffix.Int, Dec), 5), FieldVal("y", Imm(2, IntSuffix.Int, Dec), 6)]);
      ConstEqAsWritten(a, b) && !ConstEq(a, b)
  {
    var f1 := [FieldVal("x", Imm(1, IntSuffix.Int, Dec), 5), FieldVal("y", Imm(2, IntSuffix.Int, Dec), 6)];
    var f2 := [FieldVal("x", Imm(9, IntSuffix.Int, Dec), 5), FieldVal("y", Imm(2, IntSuffix.Int, Dec), 6)];
    ZipLastEqIsLastPair(f1, f2, false);
    assert FieldEqAsWritten(f1[1], f2[1]);
    assert !FieldEq(f1[0], f2[0]);
  }

  /**
   * The equality as intended: integers by value (suffix and base ignored), booleans by
   * value, structs by name and field by field; every other pair, a value with itself
   * included, is unequal.
   */
  function ConstEq(a: Const, b: Const): bool
    decreases a
  {
    match (a, b)
    case (Imm(i, _, _), Imm(j, _, _)) => i == j
    case (Bool(x), Bool(y)) => x == y
    case (Struct(n1, f1), Struct(n2, f2)) => n1 == n2 && FieldsEq(f1, f2)
    case _ => false
  }

  function FieldsEq(f1: seq<FieldVal>, f2: seq<FieldVal>): bool
    decreases f1
  {
    if f1 == [] || f2 == [] then f1 == [] && f2 == []
    else FieldEq(f1[0], f2[0]) && FieldsEq(f1[1..], f2[1..])
  }

  function FieldEq(x: FieldVal, y: FieldVal): bool
    decreases x
  {
    x.name == y.name && ConstEq(x.value, y.value) && x.id == y.id
  }

  /** Field-by-field equality means equal lengths and every pair equal. */
  lemma {:induction false} FieldsEqPointwise(f1: seq<FieldVal>, f2: seq<FieldVal>)
    ensures FieldsEq(f1, f2) <==> |f1| == |f2| && forall k :: 0 <= k < |f1| ==> FieldEq(f1[k], f2[k])
    decreases f1
  {
    if f1 != [] && f2 != [] {
      FieldsEqPointwise(f1[1..], f2[1..]);
      if |f1| == |f2| && (forall k :: 0 <= k < |f1| ==> FieldEq(f1[k], f2[k])) {
        assert forall k :: 0 <= k < |f1[1..]| ==> FieldEq(f1[1..][k], f2[1..][k]) by {
          forall k | 0 <= k < |f1[1..]| ensures FieldEq(f1[1..][k], f2[1..][k]) {
            assert FieldEq(f1[k + 1], f2[k + 1]);
          }
        }
      }
      if FieldsEq(f1, f2) {
        forall k | 0 <= k < |f1| ensures FieldEq(f1[k], f2[k]) {
          if k > 0 {
            assert f1[k] == f1[1..][k - 1] && f2[k] == f2[1..][k - 1];
          }
        }
      }
    }
  }

  /** Equality is symmetric. */
  lemma {:induction false} ConstEqSymmetric(a: Const, b: Const)
    ensures ConstEq(a, b) == ConstEq(b, a)
    decreases a
  {
    if a.Struct? && b.Struct? {
      FieldsEqSymmetric(a.fields, b.fields);
    }
  }

  lemma {:induction false} FieldsEqSymmetric(f1: seq<FieldVal>, f2: seq<FieldVal>)
    ensures FieldsEq(f1, f2) == FieldsEq(f2, f1)
    decreases f1
  {
    if f1 != [] && f2 != [] {
      ConstEqSymmetric(f1[0].value, f2[0].value);
      FieldsEqSymmetric(f1[1..], f2[1..]);
    }
  }

  /** Equal values have the same variant, and only integers, booleans and structs are ever equal, in both versions. */
  lemma ConstEqVariants(a: Const, b: Const)
    ensures ConstEq(a, b) ==> (a.Imm? && b.Imm?) || (a.Bool? && b.Bool?) || (a.Struct? && b.Struct?)
    ensures ConstEqAsWritten(a, b) ==> (a.Imm? && b.Imm?) || (a.Bool? && b.Bool?) || (a.Struct? && b.Struct?)
  {
  }

  /** Booleans compare by value, in both versions. */
  lemma ConstEqBool(x: bool, y: bool)
    ensures ConstEq(Const.Bool(x), Const.Bool(y)) <==> x == y
    ensures ConstEqAsWritten(Const.Bool(x), Const.Bool(y)) <==> x == y
  {
  }

  /** Integers compare by value alone, whatever their suffix and base. */
  lemma ConstEqImm(i: I64, s1: IntSuffix, b1: IntBase, j: I64, s2: IntSuffix, b2: IntBase)
    ensures ConstEq(Imm(i, s1, b1), Imm(j, s2, b2)) <==> i == j
    ensures ConstEqAsWritten(Imm(i, s1, b1), Imm(j, s2, b2)) <==> i == j
  {
  }

  /** Two field-less structs compare by name, in both versions. */
  lemma ConstEqEmptyStructs(n1: Name, n2: Name)
    ensures ConstEq(Const.Struct(n1, []), Const.Struct(n2, [])) <==> n1 == n2
    ensures ConstEqAsWritten(Const.Struct(n1, []), Const.Struct(n2, [])) <==> n1 == n2
  {
  }

  /** The written equality accepts every pair the intended one accepts (and more). */
  lemma {:induction false} ConstEqImpliesAsWritten(a: Const, b: Const)
    ensures ConstEq(a, b) ==> ConstEqAsWritten(a, b)
    decreases a
  {
    if a.Struct? && b.Struct? && ConstEq(a, b) && |a.fields| > 0 {
      FieldsEqPointwise(a.fields, b.fields);
      ZipLastEqIsLastPair(a.fields, b.fields, false);
      var k := |a.fields| - 1;
      assert FieldEq(a.fields[k], b.fields[k]);
      ConstEqImpliesAsWritten(a.fields[k].value, b.fields[k].value);
      assert |a.fields| == |b.fields|;
      assert FieldEqAsWritten(a.fields[k], b.fields[k]);
      assert ZipLastEq(a.fields, b.fields, false);
    } else if a.Struct? && b.Struct? && ConstEq(a, b) {
      assert FieldsEq(a.fields, b.fields);
      assert b.fields == [];
    }
  }

  // ---------------------------------------------------------------------------------------
  // Type sizes (`fn ty_size`)

  /** The byte size of the basic types the evaluator knows (a 64-bit host). */
  function BasicSize(name: Name): Option<nat>
  {
    match name
    case "u8" => Some(1)
    case "u16" => Some(2)
    case "u32" => Some(4)
    case "u64" => Some(8)
    case "usize" => Some(8)
    case "isize" => Some(8)
    case "i8" => Some(1)
    case "i16" => Some(2)
    case "i32" => Some(4)
    case "i64" => Some(8)
    case "char" => Some(1)
    case _ => None
  }

  /** The evaluator sizes exactly the integer names, `char` and the pointer-sized integers, at 1, 2, 4 or 8 bytes. */
  lemma BasicSizeIntegers(n: Name)
    ensures BasicSize(n).Some? <==> n in {"u8", "u16", "u32", "u64", "usize", "isize", "i8", "i16", "i32", "i64", "char"}
    ensures BasicSize(n).Some? ==> BasicSize(n).value in {1, 2, 4, 8}
  {
  }

  /** The size of a type, if the evaluator can tell it. */
  function TySize(t: Type): Option<nat>
    decreases t
  {
    match t
    case Vector(_, _) => None
    case Ptr(_) => Some(8)
    case Basic(name) => BasicSize(name)
    case Struct(_, fields, _) => FieldsSize(fields)
    case Array(sub, len) =>
      if len.Some? then
        (match TySize(sub)
        case Some(s) => Some(s * len.value)
        case None => None)
      else Some(8)
    case Func(_, _) => Some(8)
    case Void => Some(0)
  }

  /** The sum of the field sizes, or None as soon as one field has no size. */
  function FieldsSize(fields: seq<StructField>): Option<nat>
    decreases fields
  {
    if fields == [] then Some(0)
    else
      match TySize(fields[0].dataType)
      case None => None
      case Some(s) =>
        match FieldsSize(fields[1..])
        case None => None
        case Some(rest) => Some(s + rest)
  }

  /**
   * The shapes the evaluator sizes without looking at names: pointers, functions and unsized
   * arrays are pointer-sized, void is empty, vectors are unknown, and a sized array is its
   * element size times its length, unknown when the element's size is.
   */
  lemma TySizeShapes(sub: Type, params: seq<Type>, ret: Type, count: nat, len: nat)
    ensures TySize(Ptr(sub)) == Some(8) && TySize(Func(params, ret)) == Some(8)
    ensures TySize(Type.Array(sub, None)) == Some(8) && TySize(Type.Void) == Some(0)
    ensures TySize(Vector(sub, count)) == None
    ensures TySize(Type.Array(sub, Some(len))).Some? <==> TySize(sub).Some?
    ensures TySize(sub).Some? ==> TySize(Type.Array(sub, Some(len))) == Some(TySize(sub).value * len)
  {
  }

  /** Adds two optional sizes; None if either is None. */
  function AddSizes(a: Option<nat>, b: Option<nat>): Option<nat>
  {
    if a.Some? && b.Some? then Some(a.value + b.value) else None
  }

  /** The size of a struct whose fields are a followed by b is the size of a plus that of b. */
  lemma {:induction false} FieldsSizeAppend(a: seq<StructField>, b: seq<StructField>)
    ensures FieldsSize(a + b) == AddSizes(FieldsSize(a), FieldsSize(b))
    decreases |a|
  {
    if a == [] {
      assert a + b == b;
    } else {
      assert (a + b)[0] == a[0] && (a + b)[1..] == a[1..] + b;
      FieldsSizeAppend(a[1..], b);
    }
  }

  /** A struct has a size exactly when each of its fields has one. */
  lemma {:induction false} FieldsSizeDefined(fields: seq<StructField>)
    ensures FieldsSize(fields).Some? <==> forall k :: 0 <= k < |fields| ==> TySize(fields[k].dataType).Some?
    decreases |fields|
  {
    if fields != [] {
      FieldsSizeDefined(fields[1..]);
      assert forall k :: 1 <= k < |fields| ==> fields[k] == fields[1..][k - 1];
    }
  }

  // ---------------------------------------------------------------------------------------
  // Operator folding (`eval_binop` and the `Unary` and `Conv` arms of `eval`)

  const ComparisonOps: set<string> := {"<", ">", "<=", ">=", "==", "!="}
  const EqualityOps: set<string> := {"==", "!="}
  const LogicOps: set<string> := {"&&", "||"}
  const WrappingOps: set<string> := {"+", "-", "*", "/"}

  /** The result of `op` on two integers, or the panic Rust raises. */
  function FoldImm(op: string, i1: I64, i2: I64, s: IntSuffix, b: IntBase): Result<Const, string>
  {
    match op
    case "+" => Ok(Imm(Wrap(i1 as int + i2), s, b))
    case "-" => Ok(Imm(Wrap(i1 as int - i2), s, b))
    case "*" => Ok(Imm(Wrap(i1 as int * i2), s, b))
    case "/" =>
      if i2 == 0 then Err("attempt to divide by zero")
      else Ok(Imm(Wrap(TruncDiv(i1, i2)), s, b))
    case "%" =>
      if i2 == 0 then Err("attempt to calculate the remainder with a divisor of zero")
      else if i1 == Min && i2 == -1 then Err("attempt to calculate the remainder with overflow")
      else
        TruncRemBounds(i1, i2);
        Ok(Imm(TruncRem(i1, i2), s, b))
    case "|" => Ok(Imm(Or(i1, i2), s, b))
    case "&" => Ok(Imm(And(i1, i2), s, b))
    case ">>" =>
      if 0 <= i2 < 64 then Ok(Imm(Shr(i1, i2), s, b)) else Err("attempt to shift right with overflow")
    case "<<" =>
      if 0 <= i2 < 64 then Ok(Imm(Shl(i1, i2), s, b)) else Err("attempt to shift left with overflow")
    case "<" => Ok(Const.Bool(i1 < i2))
    case ">" => Ok(Const.Bool(i1 > i2))
    case "==" => Ok(Const.Bool(i1 == i2))
    case "!=" => Ok(Const.Bool(i1 != i2))
    case ">=" => Ok(Const.Bool(i1 >= i2))
    case "<=" => Ok(Const.Bool(i1 <= i2))
    case _ => Ok(Unknown)
  }

  /** The result of `op` on two booleans. */
  function FoldBool(op: string, x: bool, y: bool): Const
  {
    match op
    case "||" => Const.Bool(x || y)
    case "&&" => Const.Bool(x && y)
    case "==" => Const.Bool(x == y)
    case "!=" => Const.Bool(x != y)
    case _ => Unknown
  }

  /** Folding of a binary operator on two evaluated operands. */
  function FoldBinary(op: string, c1: Const, c2: Const): Result<Const, string>
  {
    if c1.Unknown? || c2.Unknown? then Ok(Unknown)
    else if c1.Imm? && c2.Imm? then FoldImm(op, c1.i, c2.i, c1.suffix, c1.base)
    else if c1.Bool? && c2.Bool? then Ok(FoldBool(op, c1.b, c2.b))
    else Ok(Unknown)
  }

  /** A folded binary operation is an integer, a boolean or unknown. */
  lemma FoldBinaryScalar(op: string, c1: Const, c2: Const)
    ensures FoldBinary(op, c1, c2).Ok? ==> (FoldBinary(op, c1, c2).value.Imm? || FoldBinary(op, c1, c2).value.Bool?
      || FoldBinary(op, c1, c2).value.Unknown?)
  {
  }

  /** An unknown operand makes the whole operation unknown. */
  lemma FoldBinaryUnknown(op: string, c1: Const, c2: Const)
    requires c1.Unknown? || c2.Unknown?
    ensures FoldBinary(op, c1, c2) == Ok(Unknown)
  {
  }

  /**
   * `+ - * /` on two integers give an integer congruent to the exact result modulo 2^64
   * (equal to it when it fits), with the left operand's suffix and base.
   */
  lemma FoldWrapping(op: string, i1: I64, s1: IntSuffix, b1: IntBase, i2: I64, s2: IntSuffix, b2: IntBase)
    requires op in WrappingOps
    requires op == "/" ==> i2 != 0
    ensures var exact := match op
        case "+" => i1 as int + i2
        case "-" => i1 as int - i2
        case "*" => i1 as int * i2
        case _ => TruncDiv(i1, i2);
      var r := FoldBinary(op, Imm(i1, s1, b1), Imm(i2, s2, b2));
      r.Ok? && r.value.Imm? && r.value.suffix == s1 && r.value.base == b1
      && (r.value.i - exact) % Two64 == 0
      && (Min <= exact <= Max ==> r.value.i == exact)
  {
  }

  /** Division of the smallest integer by -1 wraps around to the smallest integer. */
  lemma DivOverflowWraps()
    ensures FoldBinary("/", Imm(Min, IntSuffix.Int, Dec), Imm(-1, IntSuffix.Int, Dec)) == Ok(Imm(Min, IntSuffix.Int, Dec))
  {
    assert TruncDiv(Min, -1) == Max + 1;
  }

  /**
   * A binary operation yields a boolean exactly for a comparison of two integers, an
   * equality test of two booleans, or a logical operator on two booleans.
   */
  lemma FoldBinaryBoolean(op: string, c1: Const, c2: Const)
    ensures (FoldBinary(op, c1, c2).Ok? && FoldBinary(op, c1, c2).value.Bool?) <==>
      ((op in ComparisonOps && c1.Imm? && c2.Imm?)
       || (op in EqualityOps && c1.Bool? && c2.Bool?)
       || (op in LogicOps && c1.Bool? && c2.Bool?))
  {
  }

  /** Operands of different kinds, or an operator the evaluator does not know, give Unknown. */
  lemma FoldBinaryMismatch(op: string, c1: Const, c2: Const)
    requires !(c1.Imm? && c2.Imm?) && !(c1.Bool? && c2.Bool?)
    ensures FoldBinary(op, c1, c2) == Ok(Unknown)
  {
  }

  /** Folding panics exactly on the inputs Rust panics on. */
  lemma FoldBinaryPanics(op: string, c1: Const, c2: Const)
    ensures FoldBinary(op, c1, c2).Err? <==>
      c1.Imm? && c2.Imm? &&
      ((op in {"/", "%"} && c2.i == 0)
       || (op == "%" && c1.i == Min && c2.i == -1)
       || (op in {">>", "<<"} && !(0 <= c2.i < 64)))
  {
  }

  /** Folding of a unary operator on an evaluated operand. */
  function FoldUnary(op: string, c: Const): Result<Const, string>
  {
    if c.Unknown? then Ok(Unknown)
    else
      match op
      case "+" => if c.Imm? then Ok(c) else Ok(Unknown)
      case "-" =>
        if c.Imm? then
          if c.i == Min then Err("attempt to negate with overflow")
          else Ok(Imm(-(c.i as int), c.suffix, c.base))
        else Ok(Unknown)
      case "!" =>
        if c.Imm? then Ok(Imm(Not(c.i), c.suffix, c.base))
        else if c.Bool? then Ok(Const.Bool(!c.b))
        else Ok(Unknown)
      case _ => Ok(Unknown)
  }

  /** `!` undoes itself on integers and booleans, and `-` undoes itself except on the minimum. */
  lemma FoldUnaryInvolutions(c: Const)
    ensures (c.Imm? || c.Bool?) ==> FoldUnary("!", FoldUnary("!", c).value) == Ok(c)
    ensures c.Imm? && c.i != Min ==> FoldUnary("-", FoldUnary("-", c).value) == Ok(c)
  {
  }

  /** `+` is the identity on integers; `!` is bitwise on integers and logical on booleans. */
  lemma FoldUnaryCases(op: string, c: Const)
    ensures op == "+" && c.Imm? ==> FoldUnary(op, c) == Ok(c)
    ensures op == "-" && c.Imm? && c.i != Min ==> FoldUnary(op, c) == Ok(Imm(-(c.i as int), c.suffix, c.base))
    ensures op == "-" && c.Imm? && c.i == Min ==> FoldUnary(op, c).Err?
    ensures op == "!" && c.Imm? ==> FoldUnary(op, c) == Ok(Imm(-(c.i as int) - 1, c.suffix, c.base))
    ensures op == "!" && c.Bool? ==> FoldUnary(op, c) == Ok(Const.Bool(!c.b))
    ensures op !in {"+", "-", "!"} || !(c.Imm? || c.Bool?) ==> FoldUnary(op, c) == Ok(Unknown)
  {
  }

  /** `(b as i64)`: false is 0 and true is 1. */
  function BoolToImm(b: bool): Const
  {
    Imm(if b then 1 else 0, IntSuffix.Int, Dec)
  }

  /** The `Conv` arm: conversion of a known value to an integer type (float targets not modelled). */
  function ConvertToInt(toInt: bool, v: Const): Const
  {
    if v.Unknown? || !toInt then Unknown
    else
      match v
      case Imm(_, _, _) => v
      case Bool(b) => BoolToImm(b)
      case Ret(inner) =>
        (match inner
        case Imm(_, _, _) => inner
        case Bool(b) => BoolToImm(b)
        case Void => Const.Void
        case _ => Unknown)
      case _ => Unknown
  }

  /** Converting to an integer type keeps integers and maps booleans to 0 and 1, in decimal. */
  lemma ConvertToIntSpec(v: Const)
    ensures v.Imm? ==> ConvertToInt(true, v) == v
    ensures v.Bool? ==> ConvertToInt(true, v) == Imm(if v.b then 1 else 0, IntSuffix.Int, Dec)
    ensures ConvertToInt(false, v) == Unknown
    ensures ConvertToInt(true, v).Imm? ==> ConvertToInt(true, v).i in {0, 1} || v.Imm? || v.Ret?
  {
  }

  // ---------------------------------------------------------------------------------------
  // The interpreter (`eval`, `try_get_var`, `try_assign`, `eval_constfn`, `eval_stmt`)

  /** `known_vars`: the variables whose value is known. */
  type Vars = map<Name, Const>

  /**
   * Everything the interpreter reads but does not change: the constant expressions, the
   * constant and the normal functions by name, the `try_eval_normal` flag, the type of each
   * expression node, and `ty_is_any_int` (which lives outside this file).
   */
  datatype Program = Program(
    constexprs: map<Name, Expr>,
    constFunctions: map<Name, seq<Function>>,
    functions: map<Name, seq<Function>>,
    tryEvalNormal: bool,
    types: map<NodeId, Type>,
    isAnyInt: Type -> bool)

  /** How a step of evaluation ends: normally with a value and the variables afterwards, by a panic, or out of fuel. */
  datatype Outcome<T> = Normal(value: T, vars: Vars) | Panic(reason: string) | OutOfFuel

  function ExprSize(e: Expr): nat
    decreases e
  {
    1 + match e.kind
      case CompTime(x) => ExprSize(x)
      case New(x) => ExprSize(x)
      case Field(x, _) => ExprSize(x)
      case Conv(x, _) => ExprSize(x)
      case Deref(x) => ExprSize(x)
      case AddressOf(x) => ExprSize(x)
      case Assign(a, b) => ExprSize(a) + ExprSize(b)
      case StructLit(_, fs) => FieldArgsSize(fs)
      case Binary(_, l, r) => ExprSize(l) + ExprSize(r)
      case Unary(_, x) => ExprSize(x)
      case ArrayIdx(a, i) => ExprSize(a) + ExprSize(i)
      case Call(_, r, args) => (if r.Some? then ExprSize(r.value) else 0) + ListSize(args)
      case _ => 0
  }

  function ListSize(es: seq<Expr>): nat
    decreases es
  {
    if es == [] then 0 else 1 + ExprSize(es[0]) + ListSize(es[1..])
  }

  function FieldArgsSize(fs: seq<StructArg>): nat
    decreases fs
  {
    if fs == [] then 0 else 1 + ExprSize(fs[0].expr) + FieldArgsSize(fs[1..])
  }

  function StmtSize(s: Stmt): nat
    decreases s
  {
    1 + match s
      case CFor(i, c, st, b) => StmtSize(i) + ExprSize(c) + ExprSize(st) + StmtSize(b)
      case Block(ss) => StmtsSize(ss)
      case ExprStmt(e) => ExprSize(e)
      case If(c, t, o) => ExprSize(c) + StmtSize(t) + (if o.Some? then StmtSize(o.value) else 0)
      case CompTimeStmt(x) => StmtSize(x)
      case While(c, b) => ExprSize(c) + StmtSize(b)
      case Loop(b) => StmtSize(b)
      case Return(v) => if v.Some? then ExprSize(v.value) else 0
      case Var(_, _, init) => if init.Some? then ExprSize(init.value) else 0
      case _ => 0
  }

  function StmtsSize(ss: seq<Stmt>): nat
    decreases ss
  {
    if ss == [] then 0 else 1 + StmtSize(ss[0]) + StmtsSize(ss[1..])
  }

  /** The first field named `field`, if any. */
  function FindField(fields: seq<FieldVal>, field: Name): Option<Const>
  {
    if fields == [] then None
    else if fields[0].name == field then Some(fields[0].value)
    else FindField(fields[1..], field)
  }

  /** The fields with the first one named `field` given value v and id; the rest unchanged. */
  function SetField(fields: seq<FieldVal>, field: Name, v: Const, id: NodeId): seq<FieldVal>
  {
    if fields == [] then []
    else if fields[0].name == field then [FieldVal(field, v, id)] + fields[1..]
    else [fields[0]] + SetField(fields[1..], field, v, id)
  }

  /** The index of the first field named `field`, or |fields| if there is none. */
  function FirstIndex(fields: seq<FieldVal>, field: Name): (k: nat)
    ensures k <= |fields|
    ensures k < |fields| ==> fields[k].name == field
    ensures forall j :: 0 <= j < k ==> fields[j].name != field
  {
    if fields == [] then 0
    else if fields[0].name == field then 0
    else 1 + FirstIndex(fields[1..], field)
  }

  /** SetField replaces the first field with that name, and only it. */
  lemma {:induction false} SetFieldSpec(fields: seq<FieldVal>, field: Name, v: Const, id: NodeId)
    ensures var r := SetField(fields, field, v, id); var k := FirstIndex(fields, field);
      |r| == |fields|
      && (k < |fields| ==> r[k] == FieldVal(field, v, id))
      && forall j :: 0 <= j < |fields| && j != k ==> r[j] == fields[j]
  {
    if fields != [] && fields[0].name != field {
      SetFieldSpec(fields[1..], field, v, id);
    }
  }

  /** The value with which a constant function's body ended: a `Ret` is unwrapped. */
  function UnwrapRet(r: Option<Const>): Const
  {
    match r
    case None => Unknown
    case Some(Ret(v)) => v
    case Some(c) => c
  }

  /**
   * Whether `to_kind` can turn a value back into an expression: integers, booleans, strings,
   * structs whose fields all can, and a `Ret` whose value can. It panics on `Void`, arrays
   * and `None`.
   */
  predicate ToKindOk(c: Const)
    decreases c
  {
    match c
    case Imm(_, _, _) => true
    case Bool(_) => true
    case Str(_) => true
    case Struct(_, fs) => forall k :: 0 <= k < |fs| ==> ToKindOk(fs[k].value)
    case Ret(inner) => ToKindOk(inner)
    case _ => false
  }

  /** The panic of `to_kind` on a value with no expression form. */
  const ToKindPanic := "no expression for this constant"

  /** The parameter names of f. */
  function ParamNames(f: Function): (ns: seq<Name>)
    ensures |ns| == |f.params|
  {
    seq(|f.params|, i requires 0 <= i < |f.params| => f.params[i].name)
  }

  /**
   * The argument-type check of the overload loop in the `Call` arm, as written: the flag is
   * overwritten at each argument, so only the last argument's type decides. A missing
   * entry in the type table panics.
   */
  function ArgsMatchAsWritten(args: seq<Expr>, params: seq<Param>, types: map<NodeId, Type>): Result<bool, string>
    requires |args| == |params|
  {
    if args == [] then Ok(true) else LastArgMatches(args, params, types, false)
  }

  function LastArgMatches(args: seq<Expr>, params: seq<Param>, types: map<NodeId, Type>, flag: bool): Result<bool, string>
    requires |args| == |params|
  {
    if args == [] then Ok(flag)
    else if args[0].id !in types then Err(UnwrapNone)
    else LastArgMatches(args[1..], params[1..], types, types[args[0].id] == params[0].ty)
  }

  /** The evidently intended check: every argument's type equals its parameter's. */
  function ArgsMatch(args: seq<Expr>, params: seq<Param>, types: map<NodeId, Type>): Result<bool, string>
    requires |args| == |params|
  {
    if args == [] then Ok(true)
    else if args[0].id !in types then Err(UnwrapNone)
    else
      match ArgsMatch(args[1..], params[1..], types)
      case Err(m) => Err(m)
      case Ok(rest) => Ok(types[args[0].id] == params[0].ty && rest)
  }

  /** The intended check accepts exactly when all argument types are present and equal. */
  lemma {:induction false} ArgsMatchSpec(args: seq<Expr>, params: seq<Param>, types: map<NodeId, Type>)
    requires |args| == |params|
    ensures ArgsMatch(args, params, types).Ok? <==> forall k :: 0 <= k < |args| ==> args[k].id in types
    ensures ArgsMatch(args, params, types).Err? ==> ArgsMatch(args, params, types).error == UnwrapNone
    ensures ArgsMatch(args, params, types) == Ok(true) <==>
      forall k :: 0 <= k < |args| ==> args[k].id in types && types[args[k].id] == params[k].ty
  {
    if args != [] {
      ArgsMatchSpec(args[1..], params[1..], types);
      assert forall k :: 1 <= k < |args| ==> args[k] == args[1..][k - 1] && params[k] == params[1..][k - 1];
    }
  }

  /** As written, a call f(x: i64, y: i32) matches a candidate (i32, i32), which the intended check rejects. */
  lemma ArgsMatchAsWrittenLastOnly()
    ensures var args := [Expr(1, Ident("x")), Expr(2, Ident("y"))];
      var params := [Param("a", Basic("i32")), Param("b", Basic("i32"))];
      var types := map[1 := Basic("i64"), 2 := Basic("i32")];
      ArgsMatchAsWritten(args, params, types) == Ok(true) && ArgsMatch(args, params, types) == Ok(false)
  {
    var args := [Expr(1, Ident("x")), Expr(2, Ident("y"))];
    var params := [Param("a", Basic("i32")), Param("b", Basic("i32"))];
    var types := map[1 := Basic("i64"), 2 := Basic("i32")];
    assert args[1..][1..] == [] && params[1..][1..] == [];
    assert Basic("i64") != Basic("i32");
  }

  /**
   * The overload chosen for a call: the first candidate with as many parameters as there are
   * arguments whose parameter types match. Ok(None) when no candidate matches.
   */
  function SelectOverload(fs: seq<Function>, args: seq<Expr>, types: map<NodeId, Type>): (r: Result<Option<Function>, string>)
    ensures r.Ok? && r.value.Some? ==> |r.value.value.params| == |args|
  {
    if fs == [] then Ok(None)
    else if |args| != |fs[0].params| then SelectOverload(fs[1..], args, types)
    else
      match ArgsMatch(args, fs[0].params, types)
      case Err(m) => Err(m)
      case Ok(true) => Ok(Some(fs[0]))
      case Ok(false) => SelectOverload(fs[1..], args, types)
  }

  /** The chosen overload is the first candidate, in list order, whose parameter types are the argument types. */
  lemma {:induction false} SelectOverloadFirst(fs: seq<Function>, args: seq<Expr>, types: map<NodeId, Type>)
    requires forall k :: 0 <= k < |args| ==> args[k].id in types
    ensures var r := SelectOverload(fs, args, types);
      r.Ok? &&
      (r.value.Some? <==> exists j :: 0 <= j < |fs| && Accepts(fs[j], args, types)) &&
      (r.value.Some? ==> exists j :: 0 <= j < |fs| && fs[j] == r.value.value && Accepts(fs[j], args, types)
                                     && forall m :: 0 <= m < j ==> !Accepts(fs[m], args, types))
  {
    if fs != [] {
      SelectOverloadFirst(fs[1..], args, types);
      if |args| == |fs[0].params| {
        ArgsMatchSpec(args, fs[0].params, types);
      }
      var r := SelectOverload(fs, args, types);
      if r.value.Some? && !Accepts(fs[0], args, types) {
        var j :| 0 <= j < |fs[1..]| && fs[1..][j] == r.value.value && Accepts(fs[1..][j], args, types)
                 && forall m :: 0 <= m < j ==> !Accepts(fs[1..][m], args, types);
        assert fs[j + 1] == r.value.value;
        assert forall m :: 0 <= m < j + 1 ==> !Accepts(fs[m], args, types) by {
          forall m | 0 <= m < j + 1 ensures !Accepts(fs[m], args, types) {
            if m > 0 { assert fs[m] == fs[1..][m - 1]; }
          }
        }
      }
      if exists j :: 0 <= j < |fs| && Accepts(fs[j], args, types) {
        var j :| 0 <= j < |fs| && Accepts(fs[j], args, types);
        if j > 0 { assert fs[1..][j - 1] == fs[j]; }
      }
    }
  }

  /** The overload loop as written, with the check that only looks at the last argument. */
  function SelectOverloadAsWritten(fs: seq<Function>, args: seq<Expr>, types: map<NodeId, Type>): (r: Result<Option<Function>, string>)
    ensures r.Ok? && r.value.Some? ==> |r.value.value.params| == |args|
  {
    if fs == [] then Ok(None)
    else if |args| != |fs[0].params| then SelectOverloadAsWritten(fs[1..], args, types)
    else
      match ArgsMatchAsWritten(args, fs[0].params, types)
      case Err(m) => Err(m)
      case Ok(true) => Ok(Some(fs[0]))
      case Ok(false) => SelectOverloadAsWritten(fs[1..], args, types)
  }

  /** With at most one argument the two checks agree, and so do the two selections. */
  lemma {:induction false} SelectOverloadAgreesOnShortCalls(fs: seq<Function>, args: seq<Expr>, types: map<NodeId, Type>)
    requires |args| <= 1
    ensures SelectOverload(fs, args, types) == SelectOverloadAsWritten(fs, args, types)
  {
    if fs != [] {
      SelectOverloadAgreesOnShortCalls(fs[1..], args, types);
      if |args| == |fs[0].params| {
        if |args| == 1 && args[0].id in types {
          var ps := fs[0].params;
          assert args[1..] == [] && ps[1..] == [];
          assert ArgsMatch(args, ps, types) == Ok(types[args[0].id] == ps[0].ty);
          assert LastArgMatches(args, ps, types, false) == LastArgMatches([], [], types, types[args[0].id] == ps[0].ty);
        }
        assert ArgsMatch(args, fs[0].params, types) == ArgsMatchAsWritten(args, fs[0].params, types);
      }
    }
  }

  /** The written check accepts every candidate the intended one accepts. */
  lemma {:induction false} ArgsMatchImpliesAsWritten(args: seq<Expr>, params: seq<Param>, types: map<NodeId, Type>)
    requires |args| == |params|
    ensures ArgsMatch(args, params, types) == Ok(true) ==> ArgsMatchAsWritten(args, params, types) == Ok(true)
  {
    ArgsMatchSpec(args, params, types);
    if args != [] {
      LastArgMatchesIsLast(args, params, types, false);
    }
  }

  /** The written flag is the last argument's comparison, unless a missing type panics first. */
  lemma {:induction false} LastArgMatchesIsLast(args: seq<Expr>, params: seq<Param>, types: map<NodeId, Type>, flag: bool)
    requires |args| == |params|
    ensures (forall k :: 0 <= k < |args| ==> args[k].id in types) ==>
      LastArgMatches(args, params, types, flag) ==
        Ok(if args == [] then flag else types[args[|args| - 1].id] == params[|args| - 1].ty)
  {
    if args != [] {
      LastArgMatchesIsLast(args[1..], params[1..], types, args[0].id in types && types[args[0].id] == params[0].ty);
      assert forall k :: 0 <= k < |args[1..]| ==> args[1..][k] == args[k + 1];
    }
  }

  /** As written, a call f(x) with x: i64, y: i32 selects the only candidate f(a: i32, b: i32); as intended, none. */
  lemma SelectOverloadAsWrittenDiffers(f: Function)
    requires f.params == [Param("a", Basic("i32")), Param("b", Basic("i32"))]
    ensures var args := [Expr(1, Ident("x")), Expr(2, Ident("y"))];
      var types := map[1 := Basic("i64"), 2 := Basic("i32")];
      SelectOverloadAsWritten([f], args, types) == Ok(Some(f)) && SelectOverload([f], args, types) == Ok(None)
  {
    ArgsMatchAsWrittenLastOnly();
    var args := [Expr(1, Ident("x")), Expr(2, Ident("y"))];
    var types := map[1 := Basic("i64"), 2 := Basic("i32")];
    assert [f][1..] == [];
  }

  /** f can be called with args: same arity and each argument has its parameter's type. */
  ghost predicate Accepts(f: Function, args: seq<Expr>, types: map<NodeId, Type>)
  {
    |f.params| == |args| && forall k :: 0 <= k < |args| ==> args[k].id in types && types[args[k].id] == f.params[k].ty
  }

  /** `try_get_var`: a constant expression of that name is evaluated; else the known value, else Unknown. */
  function TryGetVar(fuel: nat, p: Program, vars: Vars, name: Name): Outcome<Const>
    decreases fuel, 1, 2
  {
    if name in p.constexprs then
      if fuel == 0 then OutOfFuel else Eval(fuel - 1, p, vars, p.constexprs[name])
    else if name in vars then Normal(vars[name], vars)
    else Normal(Unknown, vars)
  }

  /** `eval_binop`: both operands are evaluated, left first, then folded. */
  function EvalBinop(fuel: nat, p: Program, vars: Vars, op: string, lhs: Expr, rhs: Expr): Outcome<Const>
    decreases fuel, ExprSize(lhs) + ExprSize(rhs) + 1, 2
  {
    match Eval(fuel, p, vars, lhs)
    case Panic(m) => Panic(m)
    case OutOfFuel => OutOfFuel
    case Normal(c1, vs1) =>
      match Eval(fuel, p, vs1, rhs)
      case Panic(m) => Panic(m)
      case OutOfFuel => OutOfFuel
      case Normal(c2, vs2) =>
        match FoldBinary(op, c1, c2)
        case Ok(c) => Normal(c, vs2)
        case Err(m) => Panic(m)
  }

  /** `try_assign`: the state change of an assignment `to = from` to a known variable or field. */
  function TryAssign(fuel: nat, p: Program, vars: Vars, to: Expr, from: Expr): Outcome<()>
    decreases fuel, ExprSize(to) + ExprSize(from) + 1, 2
  {
    match to.kind
    case Ident(name) =>
      if name !in vars then Normal((), vars)
      else
        (match Eval(fuel, p, vars, from)
        case Panic(m) => Panic(m)
        case OutOfFuel => OutOfFuel
        case Normal(v, vs) =>
          if !v.Unknown? then Normal((), vs[name := v]) else Normal((), vs - {name}))
    case Field(obj, field) =>
      if !obj.kind.Ident? || obj.kind.ident !in vars then Normal((), vars)
      else
        var name := obj.kind.ident;
        (match Eval(fuel, p, vars, from)
        case Panic(m) => Panic(m)
        case OutOfFuel => OutOfFuel
        case Normal(v, vs) =>
          if v.Unknown? then Normal((), vs)
          else if name !in vs then Panic(UnwrapNone)
          else if vs[name].Struct? then
            Normal((), vs[name := Const.Struct(vs[name].name, SetField(vs[name].fields, field, v, from.id))])
          else Normal((), vs))
    case _ => Normal((), vars)
  }

  /** The struct-literal loop: each field in order; Unknown as soon as one is unknown. */
  function EvalFields(fuel: nat, p: Program, vars: Vars, fs: seq<StructArg>): Outcome<Option<seq<FieldVal>>>
    decreases fuel, FieldArgsSize(fs), 2
  {
    if fs == [] then Normal(Some([]), vars)
    else
      match Eval(fuel, p, vars, fs[0].expr)
      case Panic(m) => Panic(m)
      case OutOfFuel => OutOfFuel
      case Normal(v, vs) =>
        if v.Unknown? then Normal(None, vs)
        else PrependFields([FieldVal(fs[0].name, v, fs[0].expr.id)], EvalFields(fuel, p, vs, fs[1..]))
  }

  /**
   * The argument loop of a call that is not evaluated: each argument in order until one is
   * unknown; a known one is rewritten into the syntax tree, which panics if it has no
   * expression form.
   */
  function EvalArgs(fuel: nat, p: Program, vars: Vars, args: seq<Expr>): Outcome<()>
    decreases fuel, ListSize(args), 2
  {
    if args == [] then Normal((), vars)
    else
      match Eval(fuel, p, vars, args[0])
      case Panic(m) => Panic(m)
      case OutOfFuel => OutOfFuel
      case Normal(v, vs) =>
        if v.Unknown? then Normal((), vs)
        else if !ToKindOk(v) then Panic(ToKindPanic)
        else EvalArgs(fuel, p, vs, args[1..])
  }

  /**
   * The parameter loop of `eval_constfn`: the bindings of the parameters to the argument
   * values (a later parameter of the same name wins), or None if an argument is unknown.
   * Each known argument is rewritten into the syntax tree first, which panics if it has no
   * expression form.
   */
  function BindParams(fuel: nat, p: Program, vars: Vars, params: seq<Name>, args: seq<Expr>): Outcome<Option<Vars>>
    requires |params| == |args|
    decreases fuel, ListSize(args), 1
  {
    if args == [] then Normal(Some(map[]), vars)
    else
      match Eval(fuel, p, vars, args[0])
      case Panic(m) => Panic(m)
      case OutOfFuel => OutOfFuel
      case Normal(v, vs) =>
        if v.Unknown? then Normal(None, vs)
        else if !ToKindOk(v) then Panic(ToKindPanic)
        else AddBinding(params[0], v, BindParams(fuel, p, vs, params[1..], args[1..]))
  }

  /**
   * A known argument with no expression form panics: in h(g()), with h not a function of the
   * table and g a constant function whose body `{ var t = 1; }` yields Void.
   */
  lemma VoidArgumentPanics(p: Program, g: Function)
    requires g.params == [] && g.body == Some(Block([Var("t", None, Some(Expr(3, ExprKind.Int(1, Dec, IntSuffix.Int))))]))
    requires p.constFunctions == map["g" := [g]] && p.functions == map[]
    ensures Eval(1, p, map[], Expr(1, Call("h", None, [Expr(2, Call("g", None, []))]))) == Panic(ToKindPanic)
  {
    var body := g.body.value;
    assert ParamNames(g) == [];
    assert EvalStmt(0, p, map[], body) == Normal(Some(Const.Void), map["t" := Imm(1, IntSuffix.Int, Dec)]);
    assert EvalCall(1, p, map[], [g], [], "Const function not found") == Normal(Const.Void, map[]);
    assert Eval(1, p, map[], Expr(2, Call("g", None, []))) == Normal(Const.Void, map[]);
  }

  /** Every argument value bound to a parameter has an expression form. */
  lemma {:induction false} BindParamsExpressible(fuel: nat, p: Program, vars: Vars, params: seq<Name>, args: seq<Expr>)
    requires |params| == |args|
    ensures var o := BindParams(fuel, p, vars, params, args);
      o.Normal? && o.value.Some? ==> forall n :: n in o.value.value ==> ToKindOk(o.value.value[n])
    decreases |args|
  {
    if args != [] {
      var o := Eval(fuel, p, vars, args[0]);
      if o.Normal? && !o.value.Unknown? && ToKindOk(o.value) {
        BindParamsExpressible(fuel, p, o.vars, params[1..], args[1..]);
        var rest := BindParams(fuel, p, o.vars, params[1..], args[1..]);
        if rest.Normal? && rest.value.Some? {
          var m := map[params[0] := o.value] + rest.value.value;
          assert forall n :: n in m ==> m[n] == if n in rest.value.value then rest.value.value[n] else o.value;
        }
      }
    }
  }

  /** Adds the binding of k to v in front of the bindings the rest of the loop makes. */
  function AddBinding(k: Name, v: Const, o: Outcome<Option<Vars>>): Outcome<Option<Vars>>
  {
    match o
    case Normal(Some(m), vs) => Normal(Some(map[k := v] + m), vs)
    case _ => o
  }

  /**
   * `eval_constfn`: binds the parameters, runs the body on those bindings alone, then restores
   * the caller's variables and unwraps a `Ret`.
   */
  function EvalConstFn(fuel: nat, p: Program, vars: Vars, params: seq<Name>, body: Stmt, args: seq<Expr>): Outcome<Const>
    requires |params| == |args|
    decreases fuel, ListSize(args), 2
  {
    match BindParams(fuel, p, vars, params, args)
    case Panic(m) => Panic(m)
    case OutOfFuel => OutOfFuel
    case Normal(None, vs) => Normal(Unknown, vs)
    case Normal(Some(locals), _) =>
      if fuel == 0 then OutOfFuel
      else
        match EvalStmt(fuel - 1, p, locals, body)
        case Panic(m) => Panic(m)
        case OutOfFuel => OutOfFuel
        case Normal(r, _) => Normal(UnwrapRet(r), vars)
  }

  /** The `Call` arm once the candidates are known: select an overload and evaluate it. */
  function EvalCall(fuel: nat, p: Program, vars: Vars, fs: seq<Function>, args: seq<Expr>, notFound: string): Outcome<Const>
    decreases fuel, ListSize(args), 3
  {
    match SelectOverload(fs, args, p.types)
    case Err(m) => Panic(m)
    case Ok(None) => Panic(notFound)
    case Ok(Some(f)) =>
      if f.body.None? then Panic(UnwrapNone)
      else EvalConstFn(fuel, p, vars, ParamNames(f), f.body.value, args)
  }

  /** `eval`: the value of an expression and the variables afterwards. */
  function Eval(fuel: nat, p: Program, vars: Vars, e: Expr): Outcome<Const>
    decreases fuel, ExprSize(e), 4
  {
    match e.kind
    case Conv(x, to) => EvalConv(fuel, p, vars, e)
    case Int(i, b, s) => Normal(Imm(i, s, b), vars)
    case Bool(b) => Normal(Const.Bool(b), vars)
    case Binary(op, l, r) => EvalBinop(fuel, p, vars, op, l, r)
    case Unary(op, x) => EvalUnary(fuel, p, vars, e)
    case StructLit(path, fs) => EvalStructLit(fuel, p, vars, e)
    case Str(s) => Normal(Const.Str(s), vars)
    case Field(obj, field) => EvalField(fuel, p, vars, e)
    case Ident(name) => TryGetVar(fuel, p, vars, name)
    case Assign(to, from) => EvalAssign(fuel, p, vars, e)
    case ArrayIdx(arr, idx) => EvalIndex(fuel, p, vars, e)
    case Call(name, receiver, args) => EvalCallExpr(fuel, p, vars, e)
    case SizeOf(t) =>
      var size := TySize(t);
      Normal(if size.Some? then Imm(Wrap(size.value), IntSuffix.Int, Dec) else Unknown, vars)
    case _ => Normal(Unknown, vars)
  }

  /** The `Conv` arm: only conversions to integer types are folded. */
  function EvalConv(fuel: nat, p: Program, vars: Vars, e: Expr): Outcome<Const>
    requires e.kind.Conv?
    decreases fuel, ExprSize(e), 3
  {
    match Eval(fuel, p, vars, e.kind.operand)
    case Panic(m) => Panic(m)
    case OutOfFuel => OutOfFuel
    case Normal(v, vs) => Normal(ConvertToInt(p.isAnyInt(e.kind.to), v), vs)
  }

  /** The `Unary` arm. */
  function EvalUnary(fuel: nat, p: Program, vars: Vars, e: Expr): Outcome<Const>
    requires e.kind.Unary?
    decreases fuel, ExprSize(e), 3
  {
    match Eval(fuel, p, vars, e.kind.operand)
    case Panic(m) => Panic(m)
    case OutOfFuel => OutOfFuel
    case Normal(v, vs) =>
      match FoldUnary(e.kind.uop, v)
      case Ok(c) => Normal(c, vs)
      case Err(m) => Panic(m)
  }

  /** The `StructLit` arm: a struct value once every field is known. */
  function EvalStructLit(fuel: nat, p: Program, vars: Vars, e: Expr): Outcome<Const>
    requires e.kind.StructLit?
    decreases fuel, ExprSize(e), 3
  {
    match EvalFields(fuel, p, vars, e.kind.fieldArgs)
    case Panic(m) => Panic(m)
    case OutOfFuel => OutOfFuel
    case Normal(None, vs) => Normal(Unknown, vs)
    case Normal(Some(fvs), vs) => Normal(Const.Struct(e.kind.path, fvs), vs)
  }

  /** The `Field` arm: the first field of that name of a struct value. */
  function EvalField(fuel: nat, p: Program, vars: Vars, e: Expr): Outcome<Const>
    requires e.kind.Field?
    decreases fuel, ExprSize(e), 3
  {
    match Eval(fuel, p, vars, e.kind.obj)
    case Panic(m) => Panic(m)
    case OutOfFuel => OutOfFuel
    case Normal(v, vs) =>
      if v.Struct? && FindField(v.fields, e.kind.field).Some? then Normal(FindField(v.fields, e.kind.field).value, vs)
      else Normal(Unknown, vs)
  }

  /** The `Assign` arm: the assignment, then the value of the source evaluated once more. */
  function EvalAssign(fuel: nat, p: Program, vars: Vars, e: Expr): Outcome<Const>
    requires e.kind.Assign?
    decreases fuel, ExprSize(e), 3
  {
    match TryAssign(fuel, p, vars, e.kind.target, e.kind.source)
    case Panic(m) => Panic(m)
    case OutOfFuel => OutOfFuel
    case Normal(_, vs) => Eval(fuel, p, vs, e.kind.source)
  }

  /** The `ArrayIdx` arm: the index is evaluated before the array. */
  function EvalIndex(fuel: nat, p: Program, vars: Vars, e: Expr): Outcome<Const>
    requires e.kind.ArrayIdx?
    decreases fuel, ExprSize(e), 3
  {
    match Eval(fuel, p, vars, e.kind.index)
    case Panic(m) => Panic(m)
    case OutOfFuel => OutOfFuel
    case Normal(iv, vs1) =>
      match Eval(fuel, p, vs1, e.kind.indexed)
      case Panic(m) => Panic(m)
      case OutOfFuel => OutOfFuel
      case Normal(av, vs2) =>
        if av.Unknown? || iv.Unknown? then Normal(Unknown, vs2)
        else if !iv.Imm? then Panic("not implemented")
        else if !av.Array? then Normal(Unknown, vs2)
        else if 0 <= iv.i < |av.elems| then Normal(av.elems[iv.i], vs2)
        else Panic("index out of bounds")
  }

  /** The `Call` arm: a const function, a plain function when allowed, or only the arguments. */
  function EvalCallExpr(fuel: nat, p: Program, vars: Vars, e: Expr): Outcome<Const>
    requires e.kind.Call?
    decreases fuel, ExprSize(e), 3
  {
    var name, args := e.kind.callee, e.kind.args;
    if e.kind.receiver.Some? then Normal(Unknown, vars)
    else if name in p.constFunctions then
      EvalCall(fuel, p, vars, p.constFunctions[name], args, "Const function not found")
    else if name in p.functions && p.tryEvalNormal then
      EvalCall(fuel, p, vars, p.functions[name], args, "function not found")
    else
      match EvalArgs(fuel, p, vars, args)
      case Panic(m) => Panic(m)
      case OutOfFuel => OutOfFuel
      case Normal(_, vs) => Normal(Unknown, vs)
  }


  /** `eval_stmt`: None means "not known", Some(v) a value (a `Ret` for a return). */
  function EvalStmt(fuel: nat, p: Program, vars: Vars, s: Stmt): Outcome<Option<Const>>
    decreases fuel, StmtSize(s), 4
  {
    match s
    case Block(ss) => EvalBlock(fuel, p, vars, ss)
    case ExprStmt(e) =>
      (match Eval(fuel, p, vars, e)
      case Panic(m) => Panic(m)
      case OutOfFuel => OutOfFuel
      case Normal(v, vs) => Normal(Some(v), vs))
    case Return(value) => EvalReturn(fuel, p, vars, s)
    case Var(name, _, init) => EvalVar(fuel, p, vars, s)
    case If(cond, thenBody, elseBody) => EvalIf(fuel, p, vars, s)
    case While(cond, body) => EvalWhileStmt(fuel, p, vars, s)
    case _ => Panic("Unsupported statement in constant function")
  }

  /** The `Return` arm: a `Ret` of the value, or unknown. */
  function EvalReturn(fuel: nat, p: Program, vars: Vars, s: Stmt): Outcome<Option<Const>>
    requires s.Return?
    decreases fuel, StmtSize(s), 3
  {
    if s.value.None? then Normal(Some(Ret(Const.Void)), vars)
    else
      match Eval(fuel, p, vars, s.value.value)
      case Panic(m) => Panic(m)
      case OutOfFuel => OutOfFuel
      case Normal(v, vs) => if v.Unknown? then Normal(None, vs) else Normal(Some(Ret(v)), vs)
  }

  /** The `Var` arm: a known initial value declares the variable. */
  function EvalVar(fuel: nat, p: Program, vars: Vars, s: Stmt): Outcome<Option<Const>>
    requires s.Var?
    decreases fuel, StmtSize(s), 3
  {
    if s.init.None? then Normal(None, vars)
    else
      match Eval(fuel, p, vars, s.init.value)
      case Panic(m) => Panic(m)
      case OutOfFuel => OutOfFuel
      case Normal(v, vs) => if v.Unknown? then Normal(None, vs) else Normal(Some(Const.Void), vs[s.name := v])
  }

  /** The `If` arm: the branch the known condition selects. */
  function EvalIf(fuel: nat, p: Program, vars: Vars, s: Stmt): Outcome<Option<Const>>
    requires s.If?
    decreases fuel, StmtSize(s), 3
  {
    match Eval(fuel, p, vars, s.cond)
    case Panic(m) => Panic(m)
    case OutOfFuel => OutOfFuel
    case Normal(v, vs) =>
      if v.Unknown? then Normal(None, vs)
      else if v == Const.Bool(true) then EvalStmt(fuel, p, vs, s.thenBody)
      else if v == Const.Bool(false) && s.elseBody.Some? then EvalStmt(fuel, p, vs, s.elseBody.value)
      else Normal(Some(Const.Void), vs)
  }

  /** The `While` arm: the loop runs when the condition is true at the start. */
  function EvalWhileStmt(fuel: nat, p: Program, vars: Vars, s: Stmt): Outcome<Option<Const>>
    requires s.While?
    decreases fuel, StmtSize(s), 3
  {
    match Eval(fuel, p, vars, s.cond)
    case Panic(m) => Panic(m)
    case OutOfFuel => OutOfFuel
    case Normal(v, vs) =>
      if v == Const.Bool(true) then EvalWhile(fuel, p, vs, s.body) else Normal(Some(Const.Void), vs)
  }

  /** A block: statements in order until one yields a `Ret`; its value is the last one run. */
  function EvalBlock(fuel: nat, p: Program, vars: Vars, ss: seq<Stmt>): Outcome<Option<Const>>
    decreases fuel, StmtsSize(ss), 2
  {
    if ss == [] then Normal(None, vars)
    else
      match EvalStmt(fuel, p, vars, ss[0])
      case Panic(m) => Panic(m)
      case OutOfFuel => OutOfFuel
      case Normal(v, vs) =>
        if |ss| == 1 || IsRet(v) then Normal(v, vs) else EvalBlock(fuel, p, vs, ss[1..])
  }

  predicate IsRet(v: Option<Const>)
  {
    v.Some? && v.value.Ret?
  }

  /**
   * The `while` arm once the condition was true: the condition is not evaluated again, so
   * the body runs until it yields no value. Each round takes one unit of fuel.
   */
  function EvalWhile(fuel: nat, p: Program, vars: Vars, body: Stmt): Outcome<Option<Const>>
    decreases fuel, StmtSize(body), 2
  {
    if fuel == 0 then OutOfFuel
    else
      match EvalStmt(fuel - 1, p, vars, body)
      case Panic(m) => Panic(m)
      case OutOfFuel => OutOfFuel
      case Normal(v, vs) =>
        if v.None? || v.value.Unknown? then Normal(None, vs) else EvalWhile(fuel - 1, p, vs, body)
  }

  // ---------------------------------------------------------------------------------------
  // What the interpreter guarantees

  /** No `Ret` marker anywhere inside a value. */
  predicate RetFree(c: Const)
    decreases c
  {
    match c
    case Ret(_) => false
    case Struct(_, fs) => forall k :: 0 <= k < |fs| ==> RetFree(fs[k].value)
    case Array(es) => forall k :: 0 <= k < |es| ==> RetFree(es[k])
    case _ => true
  }

  predicate VarsRetFree(vars: Vars)
  {
    forall n :: n in vars ==> RetFree(vars[n])
  }

  /** A statement's result: unknown, a plain value, or a `Ret` of a plain value. */
  predicate StmtResultOk(r: Option<Const>)
  {
    r.None? || RetFree(r.value) || (r.value.Ret? && RetFree(r.value.inner))
  }

  /** An expression's outcome: a plain value, and no variable was declared. */
  ghost predicate ExprOutcomeOk<T>(o: Outcome<T>, before: Vars)
  {
    o.Normal? ==> VarsRetFree(o.vars) && o.vars.Keys <= before.Keys
  }

  lemma {:induction false} FindFieldRetFree(fields: seq<FieldVal>, field: Name)
    requires forall k :: 0 <= k < |fields| ==> RetFree(fields[k].value)
    ensures FindField(fields, field).Some? ==> RetFree(FindField(fields, field).value)
  {
    if fields != [] && fields[0].name != field {
      FindFieldRetFree(fields[1..], field);
    }
  }

  lemma SetFieldRetFree(fields: seq<FieldVal>, field: Name, v: Const, id: NodeId)
    requires forall k :: 0 <= k < |fields| ==> RetFree(fields[k].value)
    requires RetFree(v)
    ensures forall k :: 0 <= k < |SetField(fields, field, v, id)| ==> RetFree(SetField(fields, field, v, id)[k].value)
  {
    SetFieldSpec(fields, field, v, id);
  }

  /**
   * Evaluating an expression from variables free of `Ret` gives a value free of `Ret` and
   * leaves variables free of `Ret`, all of which were already known: an expression can drop
   * a variable (an assignment of an unknown value) but never declares one.
   */
  lemma {:induction false} EvalKeepsInvariant(fuel: nat, p: Program, vars: Vars, e: Expr)
    requires VarsRetFree(vars)
    ensures var o := Eval(fuel, p, vars, e); ExprOutcomeOk(o, vars) && (o.Normal? ==> RetFree(o.value))
    decreases fuel, ExprSize(e), 5
  {
    if e.kind.Conv? || e.kind.Binary? || e.kind.Unary? || e.kind.StructLit? || e.kind.Field? {
      EvalOperatorKeepsInvariant(fuel, p, vars, e);
    } else {
      EvalAccessKeepsInvariant(fuel, p, vars, e);
    }
  }

  lemma {:induction false} EvalOperatorKeepsInvariant(fuel: nat, p: Program, vars: Vars, e: Expr)
    requires VarsRetFree(vars)
    requires e.kind.Conv? || e.kind.Binary? || e.kind.Unary? || e.kind.StructLit? || e.kind.Field?
    ensures var o := Eval(fuel, p, vars, e); ExprOutcomeOk(o, vars) && (o.Normal? ==> RetFree(o.value))
    decreases fuel, ExprSize(e), 4
  {
    match e.kind
    case Conv(x, to) => EvalConvKeepsInvariant(fuel, p, vars, e);
    case Binary(op, l, r) => EvalBinopKeepsInvariant(fuel, p, vars, op, l, r);
    case Unary(op, x) => EvalUnaryKeepsInvariant(fuel, p, vars, e);
    case StructLit(path, fs) => EvalStructKeepsInvariant(fuel, p, vars, e);
    case Field(obj, field) => EvalFieldKeepsInvariant(fuel, p, vars, e);
  }

  lemma {:induction false} EvalAccessKeepsInvariant(fuel: nat, p: Program, vars: Vars, e: Expr)
    requires VarsRetFree(vars)
    requires !(e.kind.Conv? || e.kind.Binary? || e.kind.Unary? || e.kind.StructLit? || e.kind.Field?)
    ensures var o := Eval(fuel, p, vars, e); ExprOutcomeOk(o, vars) && (o.Normal? ==> RetFree(o.value))
    decreases fuel, ExprSize(e), 4
  {
    match e.kind
    case Ident(name) => TryGetVarKeepsInvariant(fuel, p, vars, name);
    case Assign(to, from) => EvalAssignKeepsInvariant(fuel, p, vars, e);
    case ArrayIdx(arr, idx) => EvalIndexKeepsInvariant(fuel, p, vars, e);
    case Call(name, receiver, args) => EvalCallExprKeepsInvariant(fuel, p, vars, e);
    case _ =>
  }

  lemma {:induction false} EvalConvKeepsInvariant(fuel: nat, p: Program, vars: Vars, e: Expr)
    requires e.kind.Conv?
    requires VarsRetFree(vars)
    ensures var o := EvalConv(fuel, p, vars, e); ExprOutcomeOk(o, vars) && (o.Normal? ==> RetFree(o.value))
    decreases fuel, ExprSize(e), 3
  {
    EvalKeepsInvariant(fuel, p, vars, e.kind.operand);
  }

  lemma {:induction false} EvalUnaryKeepsInvariant(fuel: nat, p: Program, vars: Vars, e: Expr)
    requires e.kind.Unary?
    requires VarsRetFree(vars)
    ensures var o := EvalUnary(fuel, p, vars, e); ExprOutcomeOk(o, vars) && (o.Normal? ==> RetFree(o.value))
    decreases fuel, ExprSize(e), 3
  {
    EvalKeepsInvariant(fuel, p, vars, e.kind.operand);
  }

  lemma {:induction false} EvalStructKeepsInvariant(fuel: nat, p: Program, vars: Vars, e: Expr)
    requires e.kind.StructLit?
    requires VarsRetFree(vars)
    ensures var o := EvalStructLit(fuel, p, vars, e); ExprOutcomeOk(o, vars) && (o.Normal? ==> RetFree(o.value))
    decreases fuel, ExprSize(e), 3
  {
    EvalFieldsKeepsInvariant(fuel, p, vars, e.kind.fieldArgs);
  }

  lemma {:induction false} EvalFieldKeepsInvariant(fuel: nat, p: Program, vars: Vars, e: Expr)
    requires e.kind.Field?
    requires VarsRetFree(vars)
    ensures var o := EvalField(fuel, p, vars, e); ExprOutcomeOk(o, vars) && (o.Normal? ==> RetFree(o.value))
    decreases fuel, ExprSize(e), 3
  {
    EvalKeepsInvariant(fuel, p, vars, e.kind.obj);
    var o := Eval(fuel, p, vars, e.kind.obj);
    if o.Normal? && o.value.Struct? {
      FindFieldRetFree(o.value.fields, e.kind.field);
    }
  }

  lemma {:induction false} EvalAssignKeepsInvariant(fuel: nat, p: Program, vars: Vars, e: Expr)
    requires e.kind.Assign?
    requires VarsRetFree(vars)
    ensures var o := EvalAssign(fuel, p, vars, e); ExprOutcomeOk(o, vars) && (o.Normal? ==> RetFree(o.value))
    decreases fuel, ExprSize(e), 3
  {
    var to, from := e.kind.target, e.kind.source;
    TryAssignKeepsInvariant(fuel, p, vars, to, from);
    var o := TryAssign(fuel, p, vars, to, from);
    if o.Normal? {
      EvalKeepsInvariant(fuel, p, o.vars, from);
    }
  }

  lemma {:induction false} EvalIndexKeepsInvariant(fuel: nat, p: Program, vars: Vars, e: Expr)
    requires e.kind.ArrayIdx?
    requires VarsRetFree(vars)
    ensures var o := EvalIndex(fuel, p, vars, e); ExprOutcomeOk(o, vars) && (o.Normal? ==> RetFree(o.value))
    decreases fuel, ExprSize(e), 3
  {
    EvalKeepsInvariant(fuel, p, vars, e.kind.index);
    var o := Eval(fuel, p, vars, e.kind.index);
    if o.Normal? {
      EvalKeepsInvariant(fuel, p, o.vars, e.kind.indexed);
    }
  }

  lemma {:induction false} EvalCallExprKeepsInvariant(fuel: nat, p: Program, vars: Vars, e: Expr)
    requires e.kind.Call?
    requires VarsRetFree(vars)
    ensures var o := EvalCallExpr(fuel, p, vars, e); ExprOutcomeOk(o, vars) && (o.Normal? ==> RetFree(o.value))
    decreases fuel, ExprSize(e), 3
  {
    var name, args := e.kind.callee, e.kind.args;
    if e.kind.receiver.None? {
      if name in p.constFunctions {
        EvalCallKeepsInvariant(fuel, p, vars, p.constFunctions[name], args, "Const function not found");
      } else if name in p.functions && p.tryEvalNormal {
        EvalCallKeepsInvariant(fuel, p, vars, p.functions[name], args, "function not found");
      } else {
        EvalArgsKeepsInvariant(fuel, p, vars, args);
      }
    }
  }

  lemma {:induction false} TryGetVarKeepsInvariant(fuel: nat, p: Program, vars: Vars, name: Name)
    requires VarsRetFree(vars)
    ensures var o := TryGetVar(fuel, p, vars, name); ExprOutcomeOk(o, vars) && (o.Normal? ==> RetFree(o.value))
    decreases fuel, 1, 2
  {
    if name in p.constexprs && fuel > 0 {
      EvalKeepsInvariant(fuel - 1, p, vars, p.constexprs[name]);
    }
  }

  lemma {:induction false} EvalBinopKeepsInvariant(fuel: nat, p: Program, vars: Vars, op: string, lhs: Expr, rhs: Expr)
    requires VarsRetFree(vars)
    ensures var o := EvalBinop(fuel, p, vars, op, lhs, rhs); ExprOutcomeOk(o, vars) && (o.Normal? ==> RetFree(o.value))
    decreases fuel, ExprSize(lhs) + ExprSize(rhs) + 1, 2
  {
    EvalKeepsInvariant(fuel, p, vars, lhs);
    var o := Eval(fuel, p, vars, lhs);
    if o.Normal? {
      EvalKeepsInvariant(fuel, p, o.vars, rhs);
      var o2 := Eval(fuel, p, o.vars, rhs);
      if o2.Normal? {
        FoldBinaryScalar(op, o.value, o2.value);
      }
    }
  }

  lemma {:induction false} TryAssignKeepsInvariant(fuel: nat, p: Program, vars: Vars, to: Expr, from: Expr)
    requires VarsRetFree(vars)
    ensures ExprOutcomeOk(TryAssign(fuel, p, vars, to, from), vars)
    decreases fuel, ExprSize(to) + ExprSize(from) + 1, 2
  {
    match to.kind
    case Ident(name) =>
      if name in vars {
        EvalKeepsInvariant(fuel, p, vars, from);
      }
    case Field(obj, field) =>
      if obj.kind.Ident? && obj.kind.ident in vars {
        EvalKeepsInvariant(fuel, p, vars, from);
        var o := Eval(fuel, p, vars, from);
        var name := obj.kind.ident;
        if o.Normal? && !o.value.Unknown? && name in o.vars && o.vars[name].Struct? {
          var old_ := o.vars[name];
          assert RetFree(old_);
          SetFieldRetFree(old_.fields, field, o.value, from.id);
          var nfs := SetField(old_.fields, field, o.value, from.id);
          assert forall k :: 0 <= k < |nfs| ==> RetFree(nfs[k].value);
          var nv := Const.Struct(old_.name, nfs);
          assert RetFree(nv);
          assert VarsRetFree(o.vars[name := nv]);
        }
      }
    case _ =>
  }

  /**
   * `try_assign` to a variable: a known variable takes a known value and is forgotten when the
   * value is unknown, every other variable keeps what evaluating the right-hand side left it,
   * and an assignment to a variable that is not known changes nothing.
   */
  lemma TryAssignVarEffect(fuel: nat, p: Program, vars: Vars, to: Expr, from: Expr)
    requires to.kind.Ident?
    ensures to.kind.ident !in vars ==> TryAssign(fuel, p, vars, to, from) == Normal((), vars)
    ensures var name := to.kind.ident; var v := Eval(fuel, p, vars, from); var o := TryAssign(fuel, p, vars, to, from);
      name in vars && v.Normal? ==>
        o.Normal?
        && (v.value.Unknown? <==> name !in o.vars)
        && (!v.value.Unknown? ==> o.vars[name] == v.value)
        && forall n :: n != name ==> (n in o.vars <==> n in v.vars) && (n in o.vars ==> o.vars[n] == v.vars[n])
    ensures var v := Eval(fuel, p, vars, from); var o := TryAssign(fuel, p, vars, to, from);
      to.kind.ident in vars && !v.Normal? ==> !o.Normal? && (o.Panic? <==> v.Panic?)
  {
  }

  /**
   * `try_assign` to a field of a known struct variable: when the value is known, only the first
   * field with that name changes, to the value and the id of the right-hand side; the struct
   * keeps its name and its number of fields, and the other variables are untouched.
   */
  lemma TryAssignFieldEffect(fuel: nat, p: Program, vars: Vars, to: Expr, from: Expr)
    requires to.kind.Field? && to.kind.obj.kind.Ident?
    ensures to.kind.obj.kind.ident !in vars ==> TryAssign(fuel, p, vars, to, from) == Normal((), vars)
    ensures var name := to.kind.obj.kind.ident; var v := Eval(fuel, p, vars, from);
      name in vars && v.Normal? && v.value.Unknown? ==> TryAssign(fuel, p, vars, to, from) == Normal((), v.vars)
    ensures var name := to.kind.obj.kind.ident; var field := to.kind.field;
      var v := Eval(fuel, p, vars, from); var o := TryAssign(fuel, p, vars, to, from);
      name in vars && v.Normal? && !v.value.Unknown? && name in v.vars && v.vars[name].Struct? ==>
        var before := v.vars[name].fields; var k := FirstIndex(before, field);
        o.Normal? && o.vars.Keys == v.vars.Keys
        && o.vars[name].Struct? && o.vars[name].name == v.vars[name].name
        && |o.vars[name].fields| == |before|
        && (k < |before| ==> o.vars[name].fields[k] == FieldVal(field, v.value, from.id))
        && (forall j :: 0 <= j < |before| && j != k ==> o.vars[name].fields[j] == before[j])
        && forall n :: n in o.vars && n != name ==> o.vars[n] == v.vars[n]
  {
    var name := to.kind.obj.kind.ident;
    var v := Eval(fuel, p, vars, from);
    if name in vars && v.Normal? && !v.value.Unknown? && name in v.vars && v.vars[name].Struct? {
      SetFieldSpec(v.vars[name].fields, to.kind.field, v.value, from.id);
    }
  }

  /** `eval_binop`: once both operands are evaluated, an unknown one makes the result unknown. */
  lemma EvalBinopUnknownOperand(fuel: nat, p: Program, vars: Vars, op: string, lhs: Expr, rhs: Expr)
    ensures var c1 := Eval(fuel, p, vars, lhs);
      c1.Normal? && c1.value.Unknown? && Eval(fuel, p, c1.vars, rhs).Normal? ==>
        EvalBinop(fuel, p, vars, op, lhs, rhs) == Normal(Unknown, Eval(fuel, p, c1.vars, rhs).vars)
    ensures var c1 := Eval(fuel, p, vars, lhs);
      c1.Normal? && Eval(fuel, p, c1.vars, rhs).Normal? && Eval(fuel, p, c1.vars, rhs).value.Unknown? ==>
        EvalBinop(fuel, p, vars, op, lhs, rhs) == Normal(Unknown, Eval(fuel, p, c1.vars, rhs).vars)
  {
    var c1 := Eval(fuel, p, vars, lhs);
    if c1.Normal? {
      var c2 := Eval(fuel, p, c1.vars, rhs);
      if c2.Normal? && (c1.value.Unknown? || c2.value.Unknown?) {
        FoldBinaryUnknown(op, c1.value, c2.value);
      }
    }
  }

  lemma {:induction false} EvalFieldsKeepsInvariant(fuel: nat, p: Program, vars: Vars, fs: seq<StructArg>)
    requires VarsRetFree(vars)
    ensures var o := EvalFields(fuel, p, vars, fs);
      ExprOutcomeOk(o, vars) && (o.Normal? && o.value.Some? ==> forall k :: 0 <= k < |o.value.value| ==> RetFree(o.value.value[k].value))
    decreases fuel, FieldArgsSize(fs), 2
  {
    if fs != [] {
      EvalKeepsInvariant(fuel, p, vars, fs[0].expr);
      var o := Eval(fuel, p, vars, fs[0].expr);
      if o.Normal? && !o.value.Unknown? {
        EvalFieldsKeepsInvariant(fuel, p, o.vars, fs[1..]);
      }
    }
  }

  lemma {:induction false} EvalArgsKeepsInvariant(fuel: nat, p: Program, vars: Vars, args: seq<Expr>)
    requires VarsRetFree(vars)
    ensures ExprOutcomeOk(EvalArgs(fuel, p, vars, args), vars)
    decreases fuel, ListSize(args), 2
  {
    if args != [] {
      EvalKeepsInvariant(fuel, p, vars, args[0]);
      var o := Eval(fuel, p, vars, args[0]);
      if o.Normal? && !o.value.Unknown? {
        EvalArgsKeepsInvariant(fuel, p, o.vars, args[1..]);
      }
    }
  }

  lemma {:induction false} BindParamsKeepsInvariant(fuel: nat, p: Program, vars: Vars, params: seq<Name>, args: seq<Expr>)
    requires |params| == |args|
    requires VarsRetFree(vars)
    ensures var o := BindParams(fuel, p, vars, params, args);
      ExprOutcomeOk(o, vars) && (o.Normal? && o.value.Some? ==> VarsRetFree(o.value.value))
    decreases fuel, ListSize(args), 1
  {
    if args != [] {
      EvalKeepsInvariant(fuel, p, vars, args[0]);
      var o := Eval(fuel, p, vars, args[0]);
      if o.Normal? && !o.value.Unknown? {
        BindParamsKeepsInvariant(fuel, p, o.vars, params[1..], args[1..]);
      }
    }
  }

  lemma {:induction false} EvalConstFnKeepsInvariant(fuel: nat, p: Program, vars: Vars, params: seq<Name>, body: Stmt, args: seq<Expr>)
    requires |params| == |args|
    requires VarsRetFree(vars)
    ensures var o := EvalConstFn(fuel, p, vars, params, body, args); ExprOutcomeOk(o, vars) && (o.Normal? ==> RetFree(o.value))
    decreases fuel, ListSize(args), 2
  {
    BindParamsKeepsInvariant(fuel, p, vars, params, args);
    var b := BindParams(fuel, p, vars, params, args);
    if b.Normal? && b.value.Some? && fuel > 0 {
      EvalStmtKeepsInvariant(fuel - 1, p, b.value.value, body);
    }
  }

  lemma {:induction false} EvalCallKeepsInvariant(fuel: nat, p: Program, vars: Vars, fs: seq<Function>, args: seq<Expr>, notFound: string)
    requires VarsRetFree(vars)
    ensures var o := EvalCall(fuel, p, vars, fs, args, notFound); ExprOutcomeOk(o, vars) && (o.Normal? ==> RetFree(o.value))
    decreases fuel, ListSize(args), 3
  {
    var sel := SelectOverload(fs, args, p.types);
    if sel.Ok? && sel.value.Some? && sel.value.value.body.Some? {
      var f := sel.value.value;
      EvalConstFnKeepsInvariant(fuel, p, vars, ParamNames(f), f.body.value, args);
    }
  }

  /** Running a statement from variables free of `Ret` yields a plain value or a `Ret` of one. */
  lemma {:induction false} EvalStmtKeepsInvariant(fuel: nat, p: Program, vars: Vars, s: Stmt)
    requires VarsRetFree(vars)
    ensures var o := EvalStmt(fuel, p, vars, s); o.Normal? ==> StmtResultOk(o.value) && VarsRetFree(o.vars)
    decreases fuel, StmtSize(s), 4
  {
    match s
    case Block(ss) => EvalBlockKeepsInvariant(fuel, p, vars, ss);
    case ExprStmt(e) => EvalKeepsInvariant(fuel, p, vars, e);
    case Return(value) => EvalReturnKeepsInvariant(fuel, p, vars, s);
    case Var(name, _, init) => EvalVarKeepsInvariant(fuel, p, vars, s);
    case If(cond, thenBody, elseBody) => EvalIfKeepsInvariant(fuel, p, vars, s);
    case While(cond, body) => EvalWhileStmtKeepsInvariant(fuel, p, vars, s);
    case _ =>
  }

  lemma {:induction false} EvalReturnKeepsInvariant(fuel: nat, p: Program, vars: Vars, s: Stmt)
    requires s.Return? && VarsRetFree(vars)
    ensures var o := EvalReturn(fuel, p, vars, s); o.Normal? ==> StmtResultOk(o.value) && VarsRetFree(o.vars)
    decreases fuel, StmtSize(s), 3
  {
    if s.value.Some? {
      EvalKeepsInvariant(fuel, p, vars, s.value.value);
    }
  }

  lemma {:induction false} EvalVarKeepsInvariant(fuel: nat, p: Program, vars: Vars, s: Stmt)
    requires s.Var? && VarsRetFree(vars)
    ensures var o := EvalVar(fuel, p, vars, s); o.Normal? ==> StmtResultOk(o.value) && VarsRetFree(o.vars)
    decreases fuel, StmtSize(s), 3
  {
    if s.init.Some? {
      EvalKeepsInvariant(fuel, p, vars, s.init.value);
    }
  }

  lemma {:induction false} EvalIfKeepsInvariant(fuel: nat, p: Program, vars: Vars, s: Stmt)
    requires s.If? && VarsRetFree(vars)
    ensures var o := EvalIf(fuel, p, vars, s); o.Normal? ==> StmtResultOk(o.value) && VarsRetFree(o.vars)
    decreases fuel, StmtSize(s), 3
  {
    EvalKeepsInvariant(fuel, p, vars, s.cond);
    var o := Eval(fuel, p, vars, s.cond);
    if o.Normal? {
      EvalStmtKeepsInvariant(fuel, p, o.vars, s.thenBody);
      if s.elseBody.Some? {
        EvalStmtKeepsInvariant(fuel, p, o.vars, s.elseBody.value);
      }
    }
  }

  lemma {:induction false} EvalWhileStmtKeepsInvariant(fuel: nat, p: Program, vars: Vars, s: Stmt)
    requires s.While? && VarsRetFree(vars)
    ensures var o := EvalWhileStmt(fuel, p, vars, s); o.Normal? ==> StmtResultOk(o.value) && VarsRetFree(o.vars)
    decreases fuel, StmtSize(s), 3
  {
    EvalKeepsInvariant(fuel, p, vars, s.cond);
    var o := Eval(fuel, p, vars, s.cond);
    if o.Normal? {
      EvalWhileKeepsInvariant(fuel, p, o.vars, s.body);
    }
  }

  lemma {:induction false} EvalBlockKeepsInvariant(fuel: nat, p: Program, vars: Vars, ss: seq<Stmt>)
    requires VarsRetFree(vars)
    ensures var o := EvalBlock(fuel, p, vars, ss); o.Normal? ==> StmtResultOk(o.value) && VarsRetFree(o.vars)
    decreases fuel, StmtsSize(ss), 2
  {
    if ss != [] {
      EvalStmtKeepsInvariant(fuel, p, vars, ss[0]);
      var o := EvalStmt(fuel, p, vars, ss[0]);
      if o.Normal? {
        EvalBlockKeepsInvariant(fuel, p, o.vars, ss[1..]);
      }
    }
  }

  lemma {:induction false} EvalWhileKeepsInvariant(fuel: nat, p: Program, vars: Vars, body: Stmt)
    requires VarsRetFree(vars)
    ensures var o := EvalWhile(fuel, p, vars, body); o.Normal? ==> StmtResultOk(o.value) && VarsRetFree(o.vars)
    decreases fuel, StmtSize(body), 2
  {
    if fuel > 0 {
      EvalStmtKeepsInvariant(fuel - 1, p, vars, body);
      var o := EvalStmt(fuel - 1, p, vars, body);
      if o.Normal? {
        EvalWhileKeepsInvariant(fuel - 1, p, o.vars, body);
      }
    }
  }

  /**
   * A call of a constant function, with its arguments known, leaves the caller's variables
   * as they were: the body runs on the parameter bindings alone.
   */
  lemma ConstFnRestoresVars(fuel: nat, p: Program, vars: Vars, params: seq<Name>, body: Stmt, args: seq<Expr>)
    requires |params| == |args|
    requires var b := BindParams(fuel, p, vars, params, args); b.Normal? && b.value.Some?
    ensures var o := EvalConstFn(fuel, p, vars, params, body, args); o.Normal? ==> o.vars == vars
  {
  }

  /** A method call (a call with a receiver) is never evaluated and changes nothing. */
  lemma CallWithReceiverUnknown(fuel: nat, p: Program, vars: Vars, id: NodeId, name: Name, recv: Expr, args: seq<Expr>)
    ensures Eval(fuel, p, vars, Expr(id, Call(name, Some(recv), args))) == Normal(Unknown, vars)
  {
  }

  /**
   * A block is its statements run in sequence: running a + b runs a, then b from where a
   * left the variables, unless a ended with a `Ret` (or failed).
   */
  lemma {:induction false} EvalBlockAppend(fuel: nat, p: Program, vars: Vars, a: seq<Stmt>, b: seq<Stmt>)
    requires a != [] && b != []
    ensures EvalBlock(fuel, p, vars, a + b) ==
      match EvalBlock(fuel, p, vars, a)
      case Normal(v, vs) => if IsRet(v) then Normal(v, vs) else EvalBlock(fuel, p, vs, b)
      case other => other
    decreases |a|
  {
    assert (a + b)[0] == a[0];
    assert (a + b)[1..] == a[1..] + b;
    if |a| > 1 {
      var o := EvalStmt(fuel, p, vars, a[0]);
      if o.Normal? && !IsRet(o.value) {
        EvalBlockAppend(fuel, p, o.vars, a[1..], b);
      }
    }
  }

  // ---------------------------------------------------------------------------------------
  // Helpers for the step-by-step evaluator


  /** An outcome that is not normal, carried over to another result type. */
  function Stop<T, U>(o: Outcome<T>): (r: Outcome<U>)
    requires !o.Normal?
    ensures r.Panic? <==> o.Panic?
    ensures r.Panic? ==> r.reason == o.reason
  {
    if o.Panic? then Panic(o.reason) else OutOfFuel
  }

  lemma {:induction false} ListSizeElem(es: seq<Expr>, i: nat)
    requires i < |es|
    ensures ExprSize(es[i]) < ListSize(es)
    ensures ListSize(es[i + 1..]) < ListSize(es[i..])
    decreases i
  {
    if i > 0 {
      ListSizeElem(es[1..], i - 1);
      assert es[1..][i - 1] == es[i] && es[1..][i..] == es[i + 1..] && es[1..][i - 1..] == es[i..];
    }
  }

  lemma {:induction false} FieldArgsSizeElem(fs: seq<StructArg>, i: nat)
    requires i < |fs|
    ensures ExprSize(fs[i].expr) < FieldArgsSize(fs)
    decreases i
  {
    if i > 0 {
      FieldArgsSizeElem(fs[1..], i - 1);
      assert fs[1..][i - 1] == fs[i];
    }
  }

  lemma {:induction false} StmtsSizeElem(ss: seq<Stmt>, i: nat)
    requires i < |ss|
    ensures StmtSize(ss[i]) < StmtsSize(ss)
    decreases i
  {
    if i > 0 {
      StmtsSizeElem(ss[1..], i - 1);
      assert ss[1..][i - 1] == ss[i];
    }
  }

  /** The struct-literal loop with a prefix of field values already built. */
  function PrependFields(pre: seq<FieldVal>, o: Outcome<Option<seq<FieldVal>>>): Outcome<Option<seq<FieldVal>>>
  {
    match o
    case Normal(Some(rest), vs) => Normal(Some(pre + rest), vs)
    case _ => o
  }

  /** The parameter loop with some bindings already made. */
  function MergeBindings(acc: Vars, o: Outcome<Option<Vars>>): Outcome<Option<Vars>>
  {
    match o
    case Normal(Some(m), vs) => Normal(Some(acc + m), vs)
    case _ => o
  }

  lemma PrependFieldsAssoc(a: seq<FieldVal>, b: seq<FieldVal>, o: Outcome<Option<seq<FieldVal>>>)
    ensures PrependFields(a, PrependFields(b, o)) == PrependFields(a + b, o)
  {
    if o.Normal? && o.value.Some? {
      assert a + (b + o.value.value) == (a + b) + o.value.value;
    }
  }

  lemma MergeBindingsStep(acc: Vars, k: Name, v: Const, o: Outcome<Option<Vars>>)
    ensures MergeBindings(acc, AddBinding(k, v, o)) == MergeBindings(acc[k := v], o)
  {
    if o.Normal? && o.value.Some? {
      var m := o.value.value;
      assert acc + (map[k := v] + m) == acc[k := v] + m;
    }
  }

  /** Updating the field at the first index with that name is SetField. */
  lemma SetFieldAt(fields: seq<FieldVal>, field: Name, v: Const, id: NodeId, i: nat)
    requires i <= |fields|
    requires i < |fields| ==> fields[i].name == field
    requires forall j :: 0 <= j < i ==> fields[j].name != field
    ensures SetField(fields, field, v, id) == if i < |fields| then fields[i := FieldVal(field, v, id)] else fields
  {
    SetFieldSpec(fields, field, v, id);
    var k := FirstIndex(fields, field);
    assert k == i;
  }

  // ---------------------------------------------------------------------------------------
  // Registration (`run`)

  /** The first loop of `run` registers constant functions in one table... */
  predicate IsConstFn(e: Elem)
  {
    e.FuncDef? && e.func.constant
  }

  /** ...and in another the normal functions that are neither internal nor external. */
  predicate IsNormalFn(e: Elem)
  {
    e.FuncDef? && !e.func.constant && !e.func.internal && !e.func.external
  }

  predicate Selected(e: Elem, constant: bool)
  {
    if constant then IsConstFn(e) else IsNormalFn(e)
  }

  /** The overloads registered under a name, or none. */
  function Overloads(m: map<Name, seq<Function>>, name: Name): seq<Function>
  {
    if name in m then m[name] else []
  }

  /** Appends f to the overloads of its name. */
  function AddOverload(m: map<Name, seq<Function>>, f: Function): map<Name, seq<Function>>
  {
    m[f.name := Overloads(m, f.name) + [f]]
  }

  /** The table after registering the selected functions of elems, in order. */
  function Register(m: map<Name, seq<Function>>, elems: seq<Elem>, constant: bool): map<Name, seq<Function>>
  {
    if elems == [] then m
    else
      var before := Register(m, elems[..|elems| - 1], constant);
      var e := elems[|elems| - 1];
      if Selected(e, constant) then AddOverload(before, e.func) else before
  }

  /** The selected functions named `name`, in source order. */
  function Named(elems: seq<Elem>, name: Name, constant: bool): seq<Function>
  {
    if elems == [] then []
    else
      var e := elems[|elems| - 1];
      Named(elems[..|elems| - 1], name, constant) + (if Selected(e, constant) && e.func.name == name then [e.func] else [])
  }

  /**
   * After registration a name's overloads are the old ones followed by every selected
   * function of that name in source order; a name is present exactly when it was before or
   * some selected function has it.
   */
  lemma {:induction false} RegisterSpec(m: map<Name, seq<Function>>, elems: seq<Elem>, constant: bool, name: Name)
    ensures Overloads(Register(m, elems, constant), name) == Overloads(m, name) + Named(elems, name, constant)
    ensures name in Register(m, elems, constant) <==> name in m || Named(elems, name, constant) != []
    decreases |elems|
  {
    if elems != [] {
      RegisterSpec(m, elems[..|elems| - 1], constant, name);
    }
  }

  /** A function reaches its table exactly when it is selected, and only under its own name. */
  lemma {:induction false} NamedSpec(elems: seq<Elem>, name: Name, constant: bool)
    ensures forall f :: f in Named(elems, name, constant) <==>
      exists i :: 0 <= i < |elems| && Selected(elems[i], constant) && elems[i].func == f && f.name == name
    decreases |elems|
  {
    if elems != [] {
      var init := elems[..|elems| - 1];
      NamedSpec(init, name, constant);
      assert forall i :: 0 <= i < |init| ==> init[i] == elems[i];
    }
  }

  /** The second loop of `run`: each constant declaration, in order, binds its name. */
  function DeclareConstExprs(m: map<Name, Expr>, elems: seq<Elem>): map<Name, Expr>
  {
    if elems == [] then m
    else
      var before := DeclareConstExprs(m, elems[..|elems| - 1]);
      var e := elems[|elems| - 1];
      if e.ConstExpr? then before[e.constName := e.value] else before
  }

  /** The value of the last constant declaration of `name`, if any. */
  function LastConstExpr(elems: seq<Elem>, name: Name): Option<Expr>
  {
    if elems == [] then None
    else
      var e := elems[|elems| - 1];
      if e.ConstExpr? && e.constName == name then Some(e.value)
      else LastConstExpr(elems[..|elems| - 1], name)
  }

  /** A later declaration of the same name wins; names not declared keep their old binding. */
  lemma {:induction false} DeclareConstExprsSpec(m: map<Name, Expr>, elems: seq<Elem>, name: Name)
    ensures var r := DeclareConstExprs(m, elems); var last := LastConstExpr(elems, name);
      (name in r <==> name in m || last.Some?)
      && (last.Some? ==> r[name] == last.value)
      && (last.None? && name in m ==> r[name] == m[name])
    decreases |elems|
  {
    if elems != [] {
      DeclareConstExprsSpec(m, elems[..|elems| - 1], name);
    }
  }

  // ---------------------------------------------------------------------------------------
  // Function bodies outside constant evaluation (`eval_normal_stmt`, `opt_func`, `run`)

  /**
   * The rewrite of an evaluated expression into the syntax tree: a known value is turned into
   * an expression, which panics if it has none; an unknown one is left alone.
   */
  function Rewrite(o: Outcome<Const>): Outcome<()>
  {
    match o
    case Panic(m) => Panic(m)
    case OutOfFuel => OutOfFuel
    case Normal(v, vs) => if !v.Unknown? && !ToKindOk(v) then Panic(ToKindPanic) else Normal((), vs)
  }

  /**
   * `eval_normal_stmt`: walks a function body, evaluating each expression statement,
   * condition, returned value and initial value, and rewriting the known ones. A `var` with a
   * known initial value binds it, and is rewritten only when the function does not return
   * void. Both branches of an `if` and the body of a loop are walked once each; every other
   * statement is skipped.
   */
  function EvalNormalStmt(fuel: nat, p: Program, vars: Vars, retVoid: bool, s: Stmt): Outcome<()>
    decreases StmtSize(s), 1
  {
    match s
    case Block(ss) => EvalNormalBlock(fuel, p, vars, retVoid, ss)
    case ExprStmt(e) => Rewrite(Eval(fuel, p, vars, e))
    case If(c, t, o) =>
      (match Rewrite(Eval(fuel, p, vars, c))
      case Normal(_, vs) =>
        (match EvalNormalStmt(fuel, p, vs, retVoid, t)
        case Normal(_, vs2) => if o.Some? then EvalNormalStmt(fuel, p, vs2, retVoid, o.value) else Normal((), vs2)
        case other => other)
      case other => other)
    case While(c, b) =>
      (match Rewrite(Eval(fuel, p, vars, c))
      case Normal(_, vs) => EvalNormalStmt(fuel, p, vs, retVoid, b)
      case other => other)
    case Return(v) => if v.None? then Normal((), vars) else Rewrite(Eval(fuel, p, vars, v.value))
    case Var(name, _, init) =>
      if init.None? then Normal((), vars)
      else
        (match Eval(fuel, p, vars, init.value)
        case Panic(m) => Panic(m)
        case OutOfFuel => OutOfFuel
        case Normal(v, vs) =>
          if v.Unknown? then Normal((), vs)
          else if !retVoid && !ToKindOk(v) then Panic(ToKindPanic)
          else Normal((), vs[name := v]))
    case Loop(b) => EvalNormalStmt(fuel, p, vars, retVoid, b)
    case _ => Normal((), vars)
  }

  /** The statements of a block, in order, each from the variables the previous one left. */
  function EvalNormalBlock(fuel: nat, p: Program, vars: Vars, retVoid: bool, ss: seq<Stmt>): Outcome<()>
    decreases StmtsSize(ss), 0
  {
    if ss == [] then Normal((), vars)
    else
      match EvalNormalStmt(fuel, p, vars, retVoid, ss[0])
      case Normal(_, vs) => EvalNormalBlock(fuel, p, vs, retVoid, ss[1..])
      case other => other
  }

  /** `opt_func`: the body of the function is walked; a function without one panics. */
  function OptFunc(fuel: nat, p: Program, vars: Vars, f: Function): Outcome<()>
  {
    if f.body.None? then Panic(UnwrapNone)
    else EvalNormalStmt(fuel, p, vars, f.ret == Type.Void, f.body.value)
  }

  /** A function that the second loop of `run` walks: one neither external nor internal. */
  predicate Optimized(e: Elem)
  {
    e.FuncDef? && !e.func.external && !e.func.internal
  }

  /**
   * The second loop of `run` from element i on. The variables carry over from one function to
   * the next, and a function sees the constant declarations that come before it.
   */
  function OptimizeFrom(fuel: nat, p: Program, vars: Vars, elems: seq<Elem>, i: nat): Outcome<()>
    requires i <= |elems|
    decreases |elems| - i
  {
    if i == |elems| then Normal((), vars)
    else if Optimized(elems[i]) then
      match OptFunc(fuel, p.(constexprs := DeclareConstExprs(p.constexprs, elems[..i])), vars, elems[i].func)
      case Normal(_, vs) => OptimizeFrom(fuel, p, vs, elems, i + 1)
      case Panic(m) => Panic(m)
      case OutOfFuel => OutOfFuel
    else OptimizeFrom(fuel, p, vars, elems, i + 1)
  }

  /** `run`: both tables are filled from all of elems, then the second loop runs from the start. */
  function Run(fuel: nat, p: Program, vars: Vars, elems: seq<Elem>): Outcome<()>
  {
    OptimizeFrom(fuel, p.(constFunctions := Register(p.constFunctions, elems, true), functions := Register(p.functions, elems, false)),
      vars, elems, 0)
  }

  /** The names a body can declare: those of its `var` statements, through blocks, branches and loops. */
  function Declared(s: Stmt): set<Name>
    decreases StmtSize(s), 1
  {
    match s
    case Block(ss) => DeclaredIn(ss)
    case If(_, t, o) => Declared(t) + (if o.Some? then Declared(o.value) else {})
    case While(_, b) => Declared(b)
    case Loop(b) => Declared(b)
    case Var(name, _, _) => {name}
    case _ => {}
  }

  function DeclaredIn(ss: seq<Stmt>): set<Name>
    decreases StmtsSize(ss), 0
  {
    if ss == [] then {} else Declared(ss[0]) + DeclaredIn(ss[1..])
  }

  /**
   * Walking a body from variables free of `Ret` leaves them free of `Ret`, and every variable
   * afterwards was known before or is declared by the body.
   */
  lemma {:induction false} EvalNormalStmtKeepsInvariant(fuel: nat, p: Program, vars: Vars, retVoid: bool, s: Stmt)
    requires VarsRetFree(vars)
    ensures var o := EvalNormalStmt(fuel, p, vars, retVoid, s);
      o.Normal? ==> VarsRetFree(o.vars) && o.vars.Keys <= vars.Keys + Declared(s)
    decreases StmtSize(s), 2
  {
    match s
    case Block(ss) =>
      EvalNormalBlockKeepsInvariant(fuel, p, vars, retVoid, ss);
    case ExprStmt(e) =>
      EvalNormalLeafKeepsInvariant(fuel, p, vars, retVoid, s);
    case If(c, t, o) =>
      EvalNormalIfKeepsInvariant(fuel, p, vars, retVoid, s);
    case While(c, b) =>
      EvalKeepsInvariant(fuel, p, vars, c);
      var r := Rewrite(Eval(fuel, p, vars, c));
      if r.Normal? {
        EvalNormalStmtKeepsInvariant(fuel, p, r.vars, retVoid, b);
      }
    case Return(v) =>
      EvalNormalLeafKeepsInvariant(fuel, p, vars, retVoid, s);
    case Var(name, _, init) =>
      EvalNormalLeafKeepsInvariant(fuel, p, vars, retVoid, s);
    case Loop(b) =>
      EvalNormalStmtKeepsInvariant(fuel, p, vars, retVoid, b);
    case _ =>
  }

  /** The statements that evaluate one expression: expression statements, returns and `var`s. */
  lemma EvalNormalLeafKeepsInvariant(fuel: nat, p: Program, vars: Vars, retVoid: bool, s: Stmt)
    requires (s.ExprStmt? || s.Return? || s.Var?) && VarsRetFree(vars)
    ensures var o := EvalNormalStmt(fuel, p, vars, retVoid, s);
      o.Normal? ==> VarsRetFree(o.vars) && o.vars.Keys <= vars.Keys + Declared(s)
  {
    match s
    case ExprStmt(e) =>
      EvalKeepsInvariant(fuel, p, vars, e);
    case Return(v) =>
      if v.Some? {
        EvalKeepsInvariant(fuel, p, vars, v.value);
      }
    case Var(name, _, init) =>
      if init.Some? {
        EvalKeepsInvariant(fuel, p, vars, init.value);
      }
  }

  lemma {:induction false} EvalNormalIfKeepsInvariant(fuel: nat, p: Program, vars: Vars, retVoid: bool, s: Stmt)
    requires s.If? && VarsRetFree(vars)
    ensures var o := EvalNormalStmt(fuel, p, vars, retVoid, s);
      o.Normal? ==> VarsRetFree(o.vars) && o.vars.Keys <= vars.Keys + Declared(s)
    decreases StmtSize(s), 1
  {
    EvalKeepsInvariant(fuel, p, vars, s.cond);
    var r := Rewrite(Eval(fuel, p, vars, s.cond));
    if r.Normal? {
      EvalNormalStmtKeepsInvariant(fuel, p, r.vars, retVoid, s.thenBody);
      var r2 := EvalNormalStmt(fuel, p, r.vars, retVoid, s.thenBody);
      if r2.Normal? && s.elseBody.Some? {
        EvalNormalStmtKeepsInvariant(fuel, p, r2.vars, retVoid, s.elseBody.value);
      }
    }
  }

  lemma {:induction false} EvalNormalBlockKeepsInvariant(fuel: nat, p: Program, vars: Vars, retVoid: bool, ss: seq<Stmt>)
    requires VarsRetFree(vars)
    ensures var o := EvalNormalBlock(fuel, p, vars, retVoid, ss);
      o.Normal? ==> VarsRetFree(o.vars) && o.vars.Keys <= vars.Keys + DeclaredIn(ss)
    decreases StmtsSize(ss), 0
  {
    if ss != [] {
      EvalNormalStmtKeepsInvariant(fuel, p, vars, retVoid, ss[0]);
      var o := EvalNormalStmt(fuel, p, vars, retVoid, ss[0]);
      if o.Normal? {
        EvalNormalBlockKeepsInvariant(fuel, p, o.vars, retVoid, ss[1..]);
      }
    }
  }

  /** A function that is walked but has no body stops `run` with a panic, unless an earlier one already stopped it. */
  lemma {:induction false} OptimizeFromBodiless(fuel: nat, p: Program, vars: Vars, elems: seq<Elem>, i: nat, j: nat)
    requires i <= j < |elems|
    requires Optimized(elems[j]) && elems[j].func.body.None?
    ensures !OptimizeFrom(fuel, p, vars, elems, i).Normal?
    decreases j - i
  {
    if i < j && Optimized(elems[i]) {
      var o := OptFunc(fuel, p.(constexprs := DeclareConstExprs(p.constexprs, elems[..i])), vars, elems[i].func);
      if o.Normal? {
        OptimizeFromBodiless(fuel, p, o.vars, elems, i + 1, j);
      }
    } else if i < j {
      OptimizeFromBodiless(fuel, p, vars, elems, i + 1, j);
    }
  }

  /** The variables stay free of `Ret` through the whole second loop of `run`. */
  lemma {:induction false} OptimizeFromKeepsInvariant(fuel: nat, p: Program, vars: Vars, elems: seq<Elem>, i: nat)
    requires i <= |elems|
    requires VarsRetFree(vars)
    ensures var o := OptimizeFrom(fuel, p, vars, elems, i); o.Normal? ==> VarsRetFree(o.vars)
    decreases |elems| - i
  {
    if i < |elems| {
      if Optimized(elems[i]) {
        var q := p.(constexprs := DeclareConstExprs(p.constexprs, elems[..i]));
        var f := elems[i].func;
        if f.body.Some? {
          EvalNormalStmtKeepsInvariant(fuel, q, vars, f.ret == Type.Void, f.body.value);
        }
        var o := OptFunc(fuel, q, vars, f);
        if o.Normal? {
          OptimizeFromKeepsInvariant(fuel, p, o.vars, elems, i + 1);
        }
      } else {
        OptimizeFromKeepsInvariant(fuel, p, vars, elems, i + 1);
      }
    }
  }

  lemma MergeBindingsEmpty(o: Outcome<Option<Vars>>)
    ensures MergeBindings(map[], o) == o
  {
    if o.Normal? && o.value.Some? {
      assert map[] + o.value.value == o.value.value;
    }
  }

  lemma PrependFieldsEmpty(o: Outcome<Option<seq<FieldVal>>>)
    ensures PrependFields([], o) == o
  {
    if o.Normal? && o.value.Some? {
      assert [] + o.value.value == o.value.value;
    }
  }
}
