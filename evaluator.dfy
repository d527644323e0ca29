/**
 * The constant evaluator of `optimize/const_eval.rs` as the source writes it: an object
 * whose table of known variables the evaluation updates in place (assignments, `var`,
 * the save and restore around a constant-function call) and whose `run` fills the
 * function and constant tables. Every method is proved to compute what the functions of
 * module ConstEval specify.
 */
module Evaluator {
  import opened Wrappers
  import opened Ast
  import opened Sem = ConstEval

  class ConstEval {
    /** Variables defined and known at compile time. */
    var knownVars: Vars
    /** All constant functions, by name, in declaration order. */
    var constFunctions: map<Name, seq<Function>>
    var constexprs: map<Name, Expr>
    /** The normal functions, evaluated as well when `tryEvalNormal` is set. */
    var functions: map<Name, seq<Function>>
    const tryEvalNormal: bool
    /** The type of each expression node, from the type checker. */
    const types: map<NodeId, Type>
    /** Whether a type is an integer type (decided by the type checker). */
    const isAnyInt: Type -> bool

    /** What the evaluator reads but does not change while it evaluates. */
    function Prog(): Program
      reads this
    {
      Program(constexprs, constFunctions, functions, tryEvalNormal, types, isAnyInt)
    }

    /** The tables are left alone by evaluation; only `knownVars` changes. */
    twostate predicate Kept()
      reads this
    {
      constexprs == old(constexprs) && constFunctions == old(constFunctions) && functions == old(functions)
    }

    constructor (tryEvalNormal: bool, types: map<NodeId, Type>, isAnyInt: Type -> bool)
      ensures knownVars == map[] && constFunctions == map[] && constexprs == map[] && functions == map[]
      ensures this.tryEvalNormal == tryEvalNormal && this.types == types
    {
      knownVars := map[];
      constFunctions := map[];
      constexprs := map[];
      functions := map[];
      this.tryEvalNormal := tryEvalNormal;
      this.types := types;
      this.isAnyInt := isAnyInt;
    }

    /** `try_get_var`. */
    method TryGetVar(fuel: nat, name: Name) returns (o: Outcome<Const>)
      modifies this
      ensures Kept()
      ensures o == Sem.TryGetVar(fuel, old(Prog()), old(knownVars), name)
      ensures o.Normal? ==> knownVars == o.vars
      decreases fuel, 1, 2
    {
      if name in constexprs {
        if fuel == 0 {
          return OutOfFuel;
        }
        o := Eval(fuel - 1, constexprs[name]);
        return;
      }
      if name in knownVars {
        return Normal(knownVars[name], knownVars);
      }
      return Normal(Unknown, knownVars);
    }

    /** `eval_binop`. */
    method EvalBinop(fuel: nat, op: string, lhs: Expr, rhs: Expr) returns (o: Outcome<Const>)
      modifies this
      ensures Kept()
      ensures o == Sem.EvalBinop(fuel, old(Prog()), old(knownVars), op, lhs, rhs)
      ensures o.Normal? ==> knownVars == o.vars
      decreases fuel, ExprSize(lhs) + ExprSize(rhs) + 1, 2
    {
      var c1 := Eval(fuel, lhs);
      if !c1.Normal? {
        return c1;
      }
      var c2 := Eval(fuel, rhs);
      if !c2.Normal? {
        return c2;
      }
      var folded := FoldBinary(op, c1.value, c2.value);
      if folded.Err? {
        return Panic(folded.error);
      }
      return Normal(folded.value, knownVars);
    }

    /** `try_assign`: updates `knownVars` for an assignment to a known variable or to a field of one. */
    method TryAssign(fuel: nat, to: Expr, from: Expr) returns (o: Outcome<()>)
      modifies this
      ensures Kept()
      ensures o == Sem.TryAssign(fuel, old(Prog()), old(knownVars), to, from)
      ensures o.Normal? ==> knownVars == o.vars
      decreases fuel, ExprSize(to) + ExprSize(from) + 1, 2
    {
      if to.kind.Ident? {
        o := AssignVar(fuel, to, from);
      } else if to.kind.Field? {
        o := AssignField(fuel, to, from);
      } else {
        o := Normal((), knownVars);
      }
    }

    /** The `Ident` arm of `try_assign`: a known variable takes the value, or is forgotten if it is unknown. */
    method AssignVar(fuel: nat, to: Expr, from: Expr) returns (o: Outcome<()>)
      requires to.kind.Ident?
      modifies this
      ensures Kept()
      ensures o == Sem.TryAssign(fuel, old(Prog()), old(knownVars), to, from)
      ensures o.Normal? ==> knownVars == o.vars
      decreases fuel, ExprSize(to) + ExprSize(from) + 1, 1
    {
      var name := to.kind.ident;
      if name in knownVars {
        var val := Eval(fuel, from);
        if !val.Normal? {
          return Stop(val);
        }
        if !val.value.Unknown? {
          knownVars := knownVars[name := val.value];
        } else {
          knownVars := knownVars - {name};
        }
      }
      o := Normal((), knownVars);
    }

    /** The `Field` arm of `try_assign`: the first field of that name in a known struct variable takes the value. */
    method AssignField(fuel: nat, to: Expr, from: Expr) returns (o: Outcome<()>)
      requires to.kind.Field?
      modifies this
      ensures Kept()
      ensures o == Sem.TryAssign(fuel, old(Prog()), old(knownVars), to, from)
      ensures o.Normal? ==> knownVars == o.vars
      decreases fuel, ExprSize(to) + ExprSize(from) + 1, 1
    {
      var obj, field := to.kind.obj, to.kind.field;
      if obj.kind.Ident? && obj.kind.ident in knownVars {
        var name := obj.kind.ident;
        var val := Eval(fuel, from);
        if !val.Normal? {
          return Stop(val);
        }
        if val.value.Unknown? {
          return Normal((), knownVars);
        }
        if name !in knownVars {
          return Panic(UnwrapNone);
        }
        var cval := knownVars[name];
        if cval.Struct? {
          var fields := SetFieldIn(cval.fields, field, val.value, from.id);
          knownVars := knownVars[name := Const.Struct(cval.name, fields)];
        }
      }
      o := Normal((), knownVars);
    }

    /** The field search and update of the `Field` arm. */
    static method SetFieldIn(fields: seq<FieldVal>, field: Name, v: Const, id: NodeId) returns (r: seq<FieldVal>)
      ensures r == SetField(fields, field, v, id)
    {
      var i := 0;
      while i < |fields| && fields[i].name != field
        invariant 0 <= i <= |fields|
        invariant forall j :: 0 <= j < i ==> fields[j].name != field
      {
        i := i + 1;
      }
      SetFieldAt(fields, field, v, id, i);
      r := fields;
      if i < |fields| {
        r := fields[i := FieldVal(field, v, id)];
      }
    }

    /** The fields of a struct literal, in order, until one is unknown. */
    method EvalFields(fuel: nat, fs: seq<StructArg>) returns (o: Outcome<Option<seq<FieldVal>>>)
      modifies this
      ensures Kept()
      ensures o == Sem.EvalFields(fuel, old(Prog()), old(knownVars), fs)
      ensures o.Normal? ==> knownVars == o.vars
      decreases fuel, FieldArgsSize(fs), 2
    {
      var newFields: seq<FieldVal> := [];
      PrependFieldsEmpty(Sem.EvalFields(fuel, Prog(), knownVars, fs));
      assert fs[0..] == fs;
      var i := 0;
      while i < |fs|
        invariant 0 <= i <= |fs|
        invariant Kept()
        invariant Sem.EvalFields(fuel, old(Prog()), old(knownVars), fs)
          == PrependFields(newFields, Sem.EvalFields(fuel, old(Prog()), knownVars, fs[i..]))
      {
        var val := EvalFieldArg(fuel, fs, i);
        if !val.Normal? {
          return Stop(val);
        }
        if val.value.Unknown? {
          return Normal(None, knownVars);
        }
        var fv := FieldVal(fs[i].name, val.value, fs[i].expr.id);
        PrependFieldsAssoc(newFields, [fv], Sem.EvalFields(fuel, old(Prog()), knownVars, fs[i + 1..]));
        newFields := newFields + [fv];
        i := i + 1;
      }
      assert newFields + [] == newFields;
      o := Normal(Some(newFields), knownVars);
    }

    /** One step of the struct-literal loop: the value of field i, and what the rest of the loop then yields. */
    method EvalFieldArg(fuel: nat, fs: seq<StructArg>, i: nat) returns (val: Outcome<Const>)
      requires i < |fs|
      modifies this
      ensures Kept()
      ensures val == Sem.Eval(fuel, old(Prog()), old(knownVars), fs[i].expr)
      ensures val.Normal? ==> knownVars == val.vars
      ensures Sem.EvalFields(fuel, old(Prog()), old(knownVars), fs[i..])
        == if !val.Normal? then Stop(val)
           else if val.value.Unknown? then Normal(None, val.vars)
           else PrependFields([FieldVal(fs[i].name, val.value, fs[i].expr.id)],
             Sem.EvalFields(fuel, old(Prog()), val.vars, fs[i + 1..]))
      decreases fuel, FieldArgsSize(fs), 1
    {
      FieldArgsSizeElem(fs, i);
      val := Eval(fuel, fs[i].expr);
      assert fs[i..][0] == fs[i] && fs[i..][1..] == fs[i + 1..];
    }

    /** The arguments of a call that is not evaluated, in order, until one is unknown; each known one must have an expression form. */
    method EvalArgs(fuel: nat, args: seq<Expr>) returns (o: Outcome<()>)
      modifies this
      ensures Kept()
      ensures o == Sem.EvalArgs(fuel, old(Prog()), old(knownVars), args)
      ensures o.Normal? ==> knownVars == o.vars
      decreases fuel, ListSize(args), 2
    {
      var i := 0;
      while i < |args|
        invariant 0 <= i <= |args|
        invariant Kept()
        invariant Sem.EvalArgs(fuel, old(Prog()), old(knownVars), args) == Sem.EvalArgs(fuel, old(Prog()), knownVars, args[i..])
      {
        ListSizeElem(args, i);
        var val := Eval(fuel, args[i]);
        assert args[i..][0] == args[i] && args[i..][1..] == args[i + 1..];
        if !val.Normal? {
          return Stop(val);
        }
        if val.value.Unknown? {
          return Normal((), knownVars);
        }
        if !ToKindOk(val.value) {
          return Panic(ToKindPanic);
        }
        i := i + 1;
      }
      o := Normal((), knownVars);
    }

    /** Whether every argument has its parameter's type (the intended check; see ArgsMatch). */
    method ArgsMatch(args: seq<Expr>, params: seq<Param>) returns (r: Result<bool, string>)
      requires |args| == |params|
      ensures r == Sem.ArgsMatch(args, params, types)
    {
      ArgsMatchSpec(args, params, types);
      if |args| == 0 {
        return Ok(true);
      }
      var paramsMatch := true;
      for i := 0 to |args|
        invariant forall k :: 0 <= k < i ==> args[k].id in types
        invariant paramsMatch <==> forall k :: 0 <= k < i ==> types[args[k].id] == params[k].ty
      {
        if args[i].id !in types {
          return Err(UnwrapNone);
        }
        if types[args[i].id] != params[i].ty {
          paramsMatch := false;
        }
      }
      return Ok(paramsMatch);
    }

    /** The overload loop of the `Call` arm. */
    method SelectOverload(fs: seq<Function>, args: seq<Expr>) returns (r: Result<Option<Function>, string>)
      ensures r == Sem.SelectOverload(fs, args, types)
    {
      var j := 0;
      while j < |fs|
        invariant 0 <= j <= |fs|
        invariant Sem.SelectOverload(fs, args, types) == Sem.SelectOverload(fs[j..], args, types)
      {
        assert fs[j..][0] == fs[j] && fs[j..][1..] == fs[j + 1..];
        var fun := fs[j];
        if |args| == |fun.params| {
          var paramsMatch := ArgsMatch(args, fun.params);
          if paramsMatch.Err? {
            return Err(paramsMatch.error);
          }
          if paramsMatch.value {
            return Ok(Some(fun));
          }
        }
        j := j + 1;
      }
      return Ok(None);
    }

    /** The `Call` arm once the candidates are known. */
    method EvalCall(fuel: nat, fs: seq<Function>, args: seq<Expr>, notFound: string) returns (o: Outcome<Const>)
      modifies this
      ensures Kept()
      ensures o == Sem.EvalCall(fuel, old(Prog()), old(knownVars), fs, args, notFound)
      ensures o.Normal? ==> knownVars == o.vars
      decreases fuel, ListSize(args), 3
    {
      var func := SelectOverload(fs, args);
      if func.Err? {
        return Panic(func.error);
      }
      if func.value.None? {
        return Panic(notFound);
      }
      var f := func.value.value;
      if f.body.None? {
        return Panic(UnwrapNone);
      }
      var params: seq<Name> := [];
      for i := 0 to |f.params|
        invariant params == ParamNames(f)[..i]
      {
        params := params + [f.params[i].name];
      }
      assert params == ParamNames(f);
      o := EvalConstFn(fuel, params, f.body.value, args);
    }

    /** The parameter loop of `eval_constfn`: each argument in the caller's variables, bound to its parameter. */
    method BindParams(fuel: nat, params: seq<Name>, args: seq<Expr>) returns (o: Outcome<Option<Vars>>)
      requires |params| == |args|
      modifies this
      ensures Kept()
      ensures o == Sem.BindParams(fuel, old(Prog()), old(knownVars), params, args)
      ensures o.Normal? ==> knownVars == o.vars
      decreases fuel, ListSize(args), 1
    {
      var newVars: Vars := map[];
      MergeBindingsEmpty(Sem.BindParams(fuel, Prog(), knownVars, params, args));
      assert params[0..] == params && args[0..] == args;
      var i := 0;
      while i < |params|
        invariant 0 <= i <= |params|
        invariant Kept()
        invariant Sem.BindParams(fuel, old(Prog()), old(knownVars), params, args)
          == MergeBindings(newVars, Sem.BindParams(fuel, old(Prog()), knownVars, params[i..], args[i..]))
      {
        var val := BindArg(fuel, params, args, i);
        if !val.Normal? {
          return Stop(val);
        }
        if val.value.Unknown? {
          return Normal(None, knownVars);
        }
        if !ToKindOk(val.value) {
          return Panic(ToKindPanic);
        }
        MergeBindingsStep(newVars, params[i], val.value, Sem.BindParams(fuel, old(Prog()), knownVars, params[i + 1..], args[i + 1..]));
        newVars := newVars[params[i] := val.value];
        i := i + 1;
      }
      assert newVars + map[] == newVars;
      o := Normal(Some(newVars), knownVars);
    }

    /** One step of the parameter loop: the value of argument i, and what the rest of the loop then yields. */
    method BindArg(fuel: nat, params: seq<Name>, args: seq<Expr>, i: nat) returns (val: Outcome<Const>)
      requires |params| == |args| && i < |args|
      modifies this
      ensures Kept()
      ensures val == Sem.Eval(fuel, old(Prog()), old(knownVars), args[i])
      ensures val.Normal? ==> knownVars == val.vars
      ensures Sem.BindParams(fuel, old(Prog()), old(knownVars), params[i..], args[i..])
        == if !val.Normal? then Stop(val)
           else if val.value.Unknown? then Normal(None, val.vars)
           else if !ToKindOk(val.value) then Panic(ToKindPanic)
           else AddBinding(params[i], val.value, Sem.BindParams(fuel, old(Prog()), val.vars, params[i + 1..], args[i + 1..]))
      decreases fuel, ListSize(args), 0
    {
      ListSizeElem(args, i);
      val := Eval(fuel, args[i]);
      assert args[i..][0] == args[i] && args[i..][1..] == args[i + 1..];
      assert params[i..][0] == params[i] && params[i..][1..] == params[i + 1..];
    }

    /** `eval_constfn`: binds the parameters, runs the body on them alone, restores the caller's variables. */
    method EvalConstFn(fuel: nat, params: seq<Name>, body: Stmt, args: seq<Expr>) returns (o: Outcome<Const>)
      requires |params| == |args|
      modifies this
      ensures Kept()
      ensures o == Sem.EvalConstFn(fuel, old(Prog()), old(knownVars), params, body, args)
      ensures o.Normal? ==> knownVars == o.vars
      decreases fuel, ListSize(args), 2
    {
      var oldVars := knownVars;
      var newVars := BindParams(fuel, params, args);
      if !newVars.Normal? {
        return Stop(newVars);
      }
      if newVars.value.None? {
        return Normal(Unknown, knownVars);
      }
      if fuel == 0 {
        return OutOfFuel;
      }
      var val := RunBody(fuel - 1, newVars.value.value, body, oldVars);
      if !val.Normal? {
        return Stop(val);
      }
      return Normal(UnwrapRet(val.value), knownVars);
    }

    /** The body of a constant function, run on the parameter bindings alone; then `knownVars` is set back to `saved`. */
    method RunBody(fuel: nat, locals: Vars, body: Stmt, saved: Vars) returns (o: Outcome<Option<Const>>)
      modifies this
      ensures Kept()
      ensures o == Sem.EvalStmt(fuel, old(Prog()), locals, body)
      ensures knownVars == saved
      decreases fuel, StmtSize(body), 5
    {
      knownVars := locals;
      o := EvalStmt(fuel, body);
      knownVars := saved;
    }

    /** `eval`: the operator arms and the access arms are split over two methods. */
    method Eval(fuel: nat, e: Expr) returns (o: Outcome<Const>)
      modifies this
      ensures Kept()
      ensures o == Sem.Eval(fuel, old(Prog()), old(knownVars), e)
      ensures o.Normal? ==> knownVars == o.vars
      decreases fuel, ExprSize(e), 5
    {
      if e.kind.Conv? || e.kind.Binary? || e.kind.Unary? || e.kind.StructLit? || e.kind.Field? {
        o := EvalOperator(fuel, e);
      } else {
        o := EvalAccess(fuel, e);
      }
    }

    /** The arms of `eval` that combine the values of subexpressions. */
    method EvalOperator(fuel: nat, e: Expr) returns (o: Outcome<Const>)
      requires e.kind.Conv? || e.kind.Binary? || e.kind.Unary? || e.kind.StructLit? || e.kind.Field?
      modifies this
      ensures Kept()
      ensures o == Sem.Eval(fuel, old(Prog()), old(knownVars), e)
      ensures o.Normal? ==> knownVars == o.vars
      decreases fuel, ExprSize(e), 4
    {
      match e.kind
      case Conv(x, to) =>
        o := EvalConv(fuel, e);
      case Binary(op, lhs, rhs) =>
        o := EvalBinop(fuel, op, lhs, rhs);
      case Unary(op, x) =>
        o := EvalUnary(fuel, e);
      case StructLit(path, fs) =>
        o := EvalStruct(fuel, e);
      case Field(obj, field) =>
        o := EvalField(fuel, e);
    }

    /** The other arms of `eval`: literals, variables, assignments, indexing and calls. */
    method EvalAccess(fuel: nat, e: Expr) returns (o: Outcome<Const>)
      requires !(e.kind.Conv? || e.kind.Binary? || e.kind.Unary? || e.kind.StructLit? || e.kind.Field?)
      modifies this
      ensures Kept()
      ensures o == Sem.Eval(fuel, old(Prog()), old(knownVars), e)
      ensures o.Normal? ==> knownVars == o.vars
      decreases fuel, ExprSize(e), 4
    {
      match e.kind
      case Int(i, b, s) =>
        o := Normal(Imm(i, s, b), knownVars);
      case Bool(b) =>
        o := Normal(Const.Bool(b), knownVars);
      case Str(s) =>
        o := Normal(Const.Str(s), knownVars);
      case Ident(name) =>
        o := TryGetVar(fuel, name);
      case Assign(to, from) =>
        o := EvalAssign(fuel, e);
      case ArrayIdx(arr, idx) =>
        o := EvalIndex(fuel, e);
      case Call(name, receiver, args) =>
        o := EvalCallExpr(fuel, e);
      case SizeOf(t) =>
        var size := TySize(t);
        if size.Some? {
          o := Normal(Imm(Int64.Wrap(size.value), IntSuffix.Int, Dec), knownVars);
        } else {
          o := Normal(Unknown, knownVars);
        }
      case _ =>
        o := Normal(Unknown, knownVars);
    }

    /** The `Conv` arm. */
    method EvalConv(fuel: nat, e: Expr) returns (o: Outcome<Const>)
      requires e.kind.Conv?
      modifies this
      ensures Kept()
      ensures o == Sem.EvalConv(fuel, old(Prog()), old(knownVars), e)
      ensures o.Normal? ==> knownVars == o.vars
      decreases fuel, ExprSize(e), 3
    {
      var val := Eval(fuel, e.kind.operand);
      if !val.Normal? {
        return val;
      }
      o := Normal(ConvertToInt(isAnyInt(e.kind.to), val.value), knownVars);
    }

    /** The `Unary` arm. */
    method EvalUnary(fuel: nat, e: Expr) returns (o: Outcome<Const>)
      requires e.kind.Unary?
      modifies this
      ensures Kept()
      ensures o == Sem.EvalUnary(fuel, old(Prog()), old(knownVars), e)
      ensures o.Normal? ==> knownVars == o.vars
      decreases fuel, ExprSize(e), 3
    {
      var val := Eval(fuel, e.kind.operand);
      if !val.Normal? {
        return val;
      }
      var folded := FoldUnary(e.kind.uop, val.value);
      if folded.Err? {
        return Panic(folded.error);
      }
      o := Normal(folded.value, knownVars);
    }

    /** The `StructLit` arm. */
    method EvalStruct(fuel: nat, e: Expr) returns (o: Outcome<Const>)
      requires e.kind.StructLit?
      modifies this
      ensures Kept()
      ensures o == Sem.EvalStructLit(fuel, old(Prog()), old(knownVars), e)
      ensures o.Normal? ==> knownVars == o.vars
      decreases fuel, ExprSize(e), 3
    {
      var newFields := EvalFields(fuel, e.kind.fieldArgs);
      if !newFields.Normal? {
        return Stop(newFields);
      }
      if newFields.value.None? {
        return Normal(Unknown, knownVars);
      }
      o := Normal(Const.Struct(e.kind.path, newFields.value.value), knownVars);
    }

    /** The `Assign` arm: the assignment, then the value of the source once more. */
    method EvalAssign(fuel: nat, e: Expr) returns (o: Outcome<Const>)
      requires e.kind.Assign?
      modifies this
      ensures Kept()
      ensures o == Sem.EvalAssign(fuel, old(Prog()), old(knownVars), e)
      ensures o.Normal? ==> knownVars == o.vars
      decreases fuel, ExprSize(e), 3
    {
      var done := TryAssign(fuel, e.kind.target, e.kind.source);
      if !done.Normal? {
        return Stop(done);
      }
      o := Eval(fuel, e.kind.source);
    }

    /** The `Call` arm: a const function, a plain function when allowed, or only the arguments. */
    method EvalCallExpr(fuel: nat, e: Expr) returns (o: Outcome<Const>)
      requires e.kind.Call?
      modifies this
      ensures Kept()
      ensures o == Sem.EvalCallExpr(fuel, old(Prog()), old(knownVars), e)
      ensures o.Normal? ==> knownVars == o.vars
      decreases fuel, ExprSize(e), 3
    {
      var name, args := e.kind.callee, e.kind.args;
      if e.kind.receiver.Some? {
        return Normal(Unknown, knownVars);
      }
      if name in constFunctions {
        o := EvalCall(fuel, constFunctions[name], args, "Const function not found");
      } else if name in functions && tryEvalNormal {
        o := EvalCall(fuel, functions[name], args, "function not found");
      } else {
        var evaluated := EvalArgs(fuel, args);
        if !evaluated.Normal? {
          return Stop(evaluated);
        }
        o := Normal(Unknown, knownVars);
      }
    }

    /** The `Field` arm: the first field of that name of a struct value. */
    method EvalField(fuel: nat, e: Expr) returns (o: Outcome<Const>)
      requires e.kind.Field?
      modifies this
      ensures Kept()
      ensures o == Sem.EvalField(fuel, old(Prog()), old(knownVars), e)
      ensures o.Normal? ==> knownVars == o.vars
      decreases fuel, ExprSize(e), 3
    {
      var val := Eval(fuel, e.kind.obj);
      if !val.Normal? {
        return val;
      }
      if val.value.Struct? {
        var fields := val.value.fields;
        var i := 0;
        while i < |fields|
          invariant 0 <= i <= |fields|
          invariant FindField(fields, e.kind.field) == FindField(fields[i..], e.kind.field)
        {
          assert fields[i..][1..] == fields[i + 1..];
          if fields[i].name == e.kind.field {
            return Normal(fields[i].value, knownVars);
          }
          i := i + 1;
        }
      }
      return Normal(Unknown, knownVars);
    }

    /** The `ArrayIdx` arm: the index is evaluated before the arr. */
    method EvalIndex(fuel: nat, e: Expr) returns (o: Outcome<Const>)
      requires e.kind.ArrayIdx?
      modifies this
      ensures Kept()
      ensures o == Sem.EvalIndex(fuel, old(Prog()), old(knownVars), e)
      ensures o.Normal? ==> knownVars == o.vars
      decreases fuel, ExprSize(e), 3
    {
      var id := Eval(fuel, e.kind.index);
      if !id.Normal? {
        return id;
      }
      var arr := Eval(fuel, e.kind.indexed);
      if !arr.Normal? {
        return arr;
      }
      if arr.value.Unknown? || id.value.Unknown? {
        return Normal(Unknown, knownVars);
      }
      if !id.value.Imm? {
        return Panic("not implemented");
      }
      if !arr.value.Array? {
        return Normal(Unknown, knownVars);
      }
      if 0 <= id.value.i < |arr.value.elems| {
        return Normal(arr.value.elems[id.value.i], knownVars);
      }
      return Panic("index out of bounds");
    }

    /** `eval_stmt`. */
    method EvalStmt(fuel: nat, s: Stmt) returns (o: Outcome<Option<Const>>)
      modifies this
      ensures Kept()
      ensures o == Sem.EvalStmt(fuel, old(Prog()), old(knownVars), s)
      ensures o.Normal? ==> knownVars == o.vars
      decreases fuel, StmtSize(s), 4
    {
      match s
      case Block(ss) =>
        o := EvalBlock(fuel, ss);
      case ExprStmt(e) =>
        o := EvalExprStmt(fuel, s);
      case Return(value) =>
        o := EvalReturn(fuel, s);
      case Var(name, _, init) =>
        o := EvalVar(fuel, s);
      case If(cond, thenBody, elseBody) =>
        o := EvalIf(fuel, s);
      case While(cond, body) =>
        o := EvalWhileStmt(fuel, s);
      case _ =>
        o := Panic("Unsupported statement in constant function");
    }

    /** An expression statement: its value, which a constant function's block passes on. */
    method EvalExprStmt(fuel: nat, s: Stmt) returns (o: Outcome<Option<Const>>)
      requires s.ExprStmt?
      modifies this
      ensures Kept()
      ensures o == Sem.EvalStmt(fuel, old(Prog()), old(knownVars), s)
      ensures o.Normal? ==> knownVars == o.vars
      decreases fuel, StmtSize(s), 3
    {
      var val := Eval(fuel, s.expr);
      if !val.Normal? {
        return Stop(val);
      }
      o := Normal(Some(val.value), knownVars);
    }

    /** The `Return` arm. */
    method EvalReturn(fuel: nat, s: Stmt) returns (o: Outcome<Option<Const>>)
      requires s.Return?
      modifies this
      ensures Kept()
      ensures o == Sem.EvalReturn(fuel, old(Prog()), old(knownVars), s)
      ensures o.Normal? ==> knownVars == o.vars
      decreases fuel, StmtSize(s), 3
    {
      if s.value.None? {
        return Normal(Some(Ret(Const.Void)), knownVars);
      }
      var val := Eval(fuel, s.value.value);
      if !val.Normal? {
        return Stop(val);
      }
      if val.value.Unknown? {
        return Normal(None, knownVars);
      }
      o := Normal(Some(Ret(val.value)), knownVars);
    }

    /** The `Var` arm: a known initial value is recorded under the variable's name. */
    method EvalVar(fuel: nat, s: Stmt) returns (o: Outcome<Option<Const>>)
      requires s.Var?
      modifies this
      ensures Kept()
      ensures o == Sem.EvalVar(fuel, old(Prog()), old(knownVars), s)
      ensures o.Normal? ==> knownVars == o.vars
      decreases fuel, StmtSize(s), 3
    {
      if s.init.None? {
        return Normal(None, knownVars);
      }
      var val := Eval(fuel, s.init.value);
      if !val.Normal? {
        return Stop(val);
      }
      if val.value.Unknown? {
        return Normal(None, knownVars);
      }
      knownVars := knownVars[s.name := val.value];
      o := Normal(Some(Const.Void), knownVars);
    }

    /** The `If` arm. */
    method EvalIf(fuel: nat, s: Stmt) returns (o: Outcome<Option<Const>>)
      requires s.If?
      modifies this
      ensures Kept()
      ensures o == Sem.EvalIf(fuel, old(Prog()), old(knownVars), s)
      ensures o.Normal? ==> knownVars == o.vars
      decreases fuel, StmtSize(s), 3
    {
      var val := Eval(fuel, s.cond);
      if !val.Normal? {
        return Stop(val);
      }
      if val.value.Unknown? {
        return Normal(None, knownVars);
      }
      if val.value == Const.Bool(true) {
        o := EvalStmt(fuel, s.thenBody);
      } else if val.value == Const.Bool(false) && s.elseBody.Some? {
        o := EvalStmt(fuel, s.elseBody.value);
      } else {
        o := Normal(Some(Const.Void), knownVars);
      }
    }

    /** The `While` arm: the condition, then the loop when it holds. */
    method EvalWhileStmt(fuel: nat, s: Stmt) returns (o: Outcome<Option<Const>>)
      requires s.While?
      modifies this
      ensures Kept()
      ensures o == Sem.EvalWhileStmt(fuel, old(Prog()), old(knownVars), s)
      ensures o.Normal? ==> knownVars == o.vars
      decreases fuel, StmtSize(s), 3
    {
      var val := Eval(fuel, s.cond);
      if !val.Normal? {
        return Stop(val);
      }
      if val.value == Const.Bool(true) {
        o := EvalWhile(fuel, s.body);
      } else {
        o := Normal(Some(Const.Void), knownVars);
      }
    }

    /** The `Block` arm: statements in order; `last` is the value of the latest one. */
    method EvalBlock(fuel: nat, ss: seq<Stmt>) returns (o: Outcome<Option<Const>>)
      modifies this
      ensures Kept()
      ensures o == Sem.EvalBlock(fuel, old(Prog()), old(knownVars), ss)
      ensures o.Normal? ==> knownVars == o.vars
      decreases fuel, StmtsSize(ss), 2
    {
      var last: Option<Const> := None;
      var i := 0;
      while i < |ss|
        invariant 0 <= i <= |ss|
        invariant Kept()
        invariant i < |ss| ==> Sem.EvalBlock(fuel, old(Prog()), old(knownVars), ss) == Sem.EvalBlock(fuel, old(Prog()), knownVars, ss[i..])
        invariant i == |ss| ==> Sem.EvalBlock(fuel, old(Prog()), old(knownVars), ss) == Normal(last, knownVars)
      {
        StmtsSizeElem(ss, i);
        var val := EvalStmt(fuel, ss[i]);
        assert ss[i..][0] == ss[i] && ss[i..][1..] == ss[i + 1..];
        if !val.Normal? {
          return val;
        }
        last := val.value;
        if IsRet(last) {
          return Normal(last, knownVars);
        }
        i := i + 1;
      }
      o := Normal(last, knownVars);
    }

    /** The `While` arm once the condition was true: the body runs until it yields no value. */
    method EvalWhile(fuel: nat, body: Stmt) returns (o: Outcome<Option<Const>>)
      modifies this
      ensures Kept()
      ensures o == Sem.EvalWhile(fuel, old(Prog()), old(knownVars), body)
      ensures o.Normal? ==> knownVars == o.vars
      decreases fuel, StmtSize(body), 2
    {
      var f: nat := fuel;
      while true
        invariant f <= fuel
        invariant Kept()
        invariant Sem.EvalWhile(fuel, old(Prog()), old(knownVars), body) == Sem.EvalWhile(f, old(Prog()), knownVars, body)
        decreases f
      {
        if f == 0 {
          return OutOfFuel;
        }
        var val := EvalStmt(f - 1, body);
        if !val.Normal? {
          return val;
        }
        if val.value.None? || val.value.value.Unknown? {
          return Normal(None, knownVars);
        }
        f := f - 1;
      }
    }

    /** A known value is rewritten into the syntax tree, which panics if it has no expression form. */
    method Rewrite(val: Outcome<Const>) returns (o: Outcome<()>)
      requires val.Normal? ==> knownVars == val.vars
      ensures o == Sem.Rewrite(val)
      ensures o.Normal? ==> knownVars == o.vars
    {
      if !val.Normal? {
        return Stop(val);
      }
      if !val.value.Unknown? && !ToKindOk(val.value) {
        return Panic(ToKindPanic);
      }
      o := Normal((), knownVars);
    }

    /** `eval_normal_stmt`: the walk over a function body outside constant evaluation. */
    method EvalNormalStmt(fuel: nat, retVoid: bool, s: Stmt) returns (o: Outcome<()>)
      modifies this
      ensures Kept()
      ensures o == Sem.EvalNormalStmt(fuel, old(Prog()), old(knownVars), retVoid, s)
      ensures o.Normal? ==> knownVars == o.vars
      decreases StmtSize(s), 2
    {
      match s
      case Block(ss) =>
        o := EvalNormalBlock(fuel, retVoid, ss);
      case ExprStmt(e) =>
        var val := Eval(fuel, e);
        o := Rewrite(val);
      case If(cond, thenBody, elseBody) =>
        o := EvalNormalIf(fuel, retVoid, s);
      case While(cond, body) =>
        var val := Eval(fuel, cond);
        o := Rewrite(val);
        if !o.Normal? {
          return;
        }
        o := EvalNormalStmt(fuel, retVoid, body);
      case Return(value) =>
        if value.None? {
          return Normal((), knownVars);
        }
        var val := Eval(fuel, value.value);
        o := Rewrite(val);
      case Var(name, _, init) =>
        if init.None? {
          return Normal((), knownVars);
        }
        var val := Eval(fuel, init.value);
        if !val.Normal? {
          return Stop(val);
        }
        if !val.value.Unknown? {
          if !retVoid && !ToKindOk(val.value) {
            return Panic(ToKindPanic);
          }
          knownVars := knownVars[name := val.value];
        }
        o := Normal((), knownVars);
      case Loop(body) =>
        o := EvalNormalStmt(fuel, retVoid, body);
      case _ =>
        o := Normal((), knownVars);
    }

    /** The `If` arm: the condition, then both branches, each from where the previous one left the variables. */
    method EvalNormalIf(fuel: nat, retVoid: bool, s: Stmt) returns (o: Outcome<()>)
      requires s.If?
      modifies this
      ensures Kept()
      ensures o == Sem.EvalNormalStmt(fuel, old(Prog()), old(knownVars), retVoid, s)
      ensures o.Normal? ==> knownVars == o.vars
      decreases StmtSize(s), 1
    {
      var val := Eval(fuel, s.cond);
      o := Rewrite(val);
      if !o.Normal? {
        return;
      }
      o := EvalNormalStmt(fuel, retVoid, s.thenBody);
      if o.Normal? && s.elseBody.Some? {
        o := EvalNormalStmt(fuel, retVoid, s.elseBody.value);
      } else if o.Normal? {
        o := Normal((), knownVars);
      }
    }

    /** The statements of a block, in order. */
    method EvalNormalBlock(fuel: nat, retVoid: bool, ss: seq<Stmt>) returns (o: Outcome<()>)
      modifies this
      ensures Kept()
      ensures o == Sem.EvalNormalBlock(fuel, old(Prog()), old(knownVars), retVoid, ss)
      ensures o.Normal? ==> knownVars == o.vars
      decreases StmtsSize(ss), 0
    {
      var i := 0;
      while i < |ss|
        invariant 0 <= i <= |ss|
        invariant Kept()
        invariant Sem.EvalNormalBlock(fuel, old(Prog()), old(knownVars), retVoid, ss)
          == Sem.EvalNormalBlock(fuel, old(Prog()), knownVars, retVoid, ss[i..])
      {
        StmtsSizeElem(ss, i);
        var r := EvalNormalStmt(fuel, retVoid, ss[i]);
        assert ss[i..][0] == ss[i] && ss[i..][1..] == ss[i + 1..];
        if !r.Normal? {
          return r;
        }
        i := i + 1;
      }
      o := Normal((), knownVars);
    }

    /** `opt_func`: walks the body of func; a function without one panics. */
    method OptFunc(fuel: nat, func: Function) returns (o: Outcome<()>)
      modifies this
      ensures Kept()
      ensures o == Sem.OptFunc(fuel, old(Prog()), old(knownVars), func)
      ensures o.Normal? ==> knownVars == o.vars
    {
      if func.body.None? {
        return Panic(UnwrapNone);
      }
      o := EvalNormalStmt(fuel, func.ret == Type.Void, func.body.value);
    }

    /**
     * `run`: registers the constant functions and the normal ones, in order; then walks every
     * function that is neither external nor internal and binds every constant declaration, in
     * the order they come.
     */
    method Run(fuel: nat, elems: seq<Elem>) returns (o: Outcome<()>)
      modifies this
      ensures constFunctions == Register(old(constFunctions), elems, true)
      ensures functions == Register(old(functions), elems, false)
      ensures o == Sem.Run(fuel, old(Prog()), old(knownVars), elems)
      ensures o.Normal? ==> constexprs == DeclareConstExprs(old(constexprs), elems) && knownVars == o.vars
    {
      for i := 0 to |elems|
        invariant constFunctions == Register(old(constFunctions), elems[..i], true)
        invariant functions == Register(old(functions), elems[..i], false)
        invariant constexprs == old(constexprs) && knownVars == old(knownVars)
      {
        assert elems[..i + 1][..i] == elems[..i] && elems[..i + 1][i] == elems[i];
        if elems[i].FuncDef? {
          var func := elems[i].func;
          if func.constant {
            if func.name in constFunctions {
              constFunctions := constFunctions[func.name := constFunctions[func.name] + [func]];
            } else {
              assert Overloads(constFunctions, func.name) + [func] == [func];
              constFunctions := constFunctions[func.name := [func]];
            }
          } else if !func.internal && !func.external {
            if func.name in functions {
              functions := functions[func.name := functions[func.name] + [func]];
            } else {
              assert Overloads(functions, func.name) + [func] == [func];
              functions := functions[func.name := [func]];
            }
          }
        }
      }
      assert elems[..|elems|] == elems;
      ghost var registered := Prog();
      assert registered == old(Prog()).(constFunctions := constFunctions, functions := functions);
      for i := 0 to |elems|
        invariant constexprs == DeclareConstExprs(old(constexprs), elems[..i])
        invariant constFunctions == registered.constFunctions && functions == registered.functions
        invariant Sem.Run(fuel, old(Prog()), old(knownVars), elems) == OptimizeFrom(fuel, registered, knownVars, elems, i)
      {
        assert elems[..i + 1][..i] == elems[..i];
        if elems[i].FuncDef? {
          var func := elems[i].func;
          if !func.external && !func.internal {
            assert Prog() == registered.(constexprs := DeclareConstExprs(registered.constexprs, elems[..i]));
            var r := OptFunc(fuel, func);
            if !r.Normal? {
              return r;
            }
          }
        } else if elems[i].ConstExpr? {
          constexprs := constexprs[elems[i].constName := elems[i].value];
        }
      }
      assert elems[..|elems|] == elems;
      o := Normal((), knownVars);
    }
  }
}
