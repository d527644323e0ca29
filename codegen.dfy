/**
 * The decision rules of the GCC JIT code generator: type sizes for `sizeof`, overload
 * resolution, name mangling, linkage, the overload table built from the top-level elements,
 * block labels and the choice of what `compile` produces. The GCC JIT objects themselves are
 * not modelled; a declared function is represented by what was passed to the library.
 */
module Codegen {
  import opened Wrappers
  import opened Text
  import opened Ast
  import ConstEval
  import Havo

  /** gccjit's function kinds. */
  datatype FunctionType = Extern | Internal | AlwaysInline | Exported

  /** gccjit's output kinds. */
  datatype OutputKind = ObjectFile | DynamicLibrary | Assembler | Executable

  /** A GCC function: one declared through `new_function`, or a builtin looked up by name. */
  datatype CFunction = NewFunction(cname: string, linkage: FunctionType, variadic: bool) | Builtin(bname: string)

  /** A declared function: its syntax tree, its GCC function, its receiver type and its IR name. */
  datatype FunctionUnit = FunctionUnit(f: Function, c: CFunction, thisAst: Option<Type>, irname: string)

  /** A declared struct; only the field types matter here. */
  datatype GccStruct = GccStruct(types: seq<Type>)

  /** The result of `ty_size`: a size, a panic, or too deep a chain of structs and aliases. */
  datatype Sized = Bytes(n: nat) | Panic(reason: string) | OutOfFuel

  /** What `compile` finally does. */
  datatype Target = RunJit | WriteFile(kind: OutputKind, path: string)

  // ---------------------------------------------------------------------------------------
  // Type sizes
  // ---------------------------------------------------------------------------------------

  /** Sizes of the built-in scalar names. */
  function BasicSize(name: Name): Option<nat>
  {
    match name
    case "u8" => Some(1)
    case "i8" => Some(1)
    case "char" => Some(1)
    case "i16" => Some(2)
    case "u16" => Some(2)
    case "i32" => Some(4)
    case "u32" => Some(4)
    case "i64" => Some(8)
    case "u64" => Some(8)
    case "f32" => Some(4)
    case "f64" => Some(8)
    case "bool" => Some(1)
    case "usize" => Some(8)
    case _ => None
  }

  /**
   * The two size tables of the compiler agree on every integer name except `isize`, which only
   * the constant evaluator knows; only the code generator sizes `bool`, `f32` and `f64`.
   */
  lemma SizeTablesAgree(n: Name)
    ensures ConstEval.BasicSize(n).Some? && n != "isize" ==> BasicSize(n) == ConstEval.BasicSize(n)
    ensures (BasicSize(n).Some? && ConstEval.BasicSize(n).None?) <==> n in {"f32", "f64", "bool"}
    ensures (ConstEval.BasicSize(n).Some? && BasicSize(n).None?) <==> n == "isize"
  {
  }

  /** How many vector and array constructors wrap t. */
  function Depth(t: Type): nat
  {
    match t
    case Vector(sub, _) => 1 + Depth(sub)
    case Array(sub, _) => 1 + Depth(sub)
    case _ => 0
  }

  function TypesDepth(ts: seq<Type>): nat
  {
    if ts == [] then 0 else 1 + Depth(ts[0]) + TypesDepth(ts[1..])
  }

  lemma {:induction false} TypesDepthElem(ts: seq<Type>, i: nat)
    requires i < |ts|
    ensures Depth(ts[i]) < TypesDepth(ts)
    ensures TypesDepth(ts[i..]) <= TypesDepth(ts)
  {
    if i > 0 {
      TypesDepthElem(ts[1..], i - 1);
      assert ts[1..][i - 1] == ts[i];
      assert ts[1..][i - 1..] == ts[i..];
    }
  }

  function Scale(r: Sized, k: nat): Sized
  {
    if r.Bytes? then Bytes(r.n * k) else r
  }

  function AddSize(m: nat, r: Sized): Sized
  {
    if r.Bytes? then Bytes(m + r.n) else r
  }

  /**
   * `ty_size`. Looking a name up among the structures or the aliases costs one unit of fuel;
   * the source recurses without bound there.
   */
  function Size(fuel: nat, structures: map<Name, GccStruct>, aliases: map<Name, Type>, t: Type): Sized
    decreases fuel, Depth(t)
  {
    match t
    case Vector(sub, count) => Scale(Size(fuel, structures, aliases, sub), count)
    case Void => Bytes(0)
    case Basic(name) =>
      if BasicSize(name).Some? then Bytes(BasicSize(name).value)
      else if name in structures then
        (if fuel == 0 then OutOfFuel else FieldSizes(fuel - 1, structures, aliases, structures[name].types))
      else if name in aliases then
        (if fuel == 0 then OutOfFuel else Size(fuel - 1, structures, aliases, aliases[name]))
      else Panic("Type " + name + " not found")
    case Ptr(_) => Bytes(8)
    case Func(_, _) => Bytes(8)
    case Struct(name, _, _) =>
      if name !in structures then Panic(ConstEval.UnwrapNone)
      else if fuel == 0 then OutOfFuel
      else FieldSizes(fuel - 1, structures, aliases, structures[name].types)
    case Array(sub, len) =>
      if len.Some? then Scale(Size(fuel, structures, aliases, sub), len.value) else Bytes(8)
  }

  /** The fields of a struct one after the other, with no padding; the first failure stops the sum. */
  function FieldSizes(fuel: nat, structures: map<Name, GccStruct>, aliases: map<Name, Type>, ts: seq<Type>): Sized
    decreases fuel, TypesDepth(ts)
  {
    if ts == [] then Bytes(0)
    else
      var first := Size(fuel, structures, aliases, ts[0]);
      if first.Bytes? then AddSize(first.n, FieldSizes(fuel, structures, aliases, ts[1..])) else first
  }

  /**
   * The shapes sized without a lookup: pointers, functions and unsized arrays take 8 bytes,
   * void none, the scalar names their table entry, and a vector or sized array its element
   * size times the count.
   */
  lemma SizeShapes(fuel: nat, structures: map<Name, GccStruct>, aliases: map<Name, Type>,
                   sub: Type, params: seq<Type>, ret: Type, count: nat, name: Name)
    ensures Size(fuel, structures, aliases, Ptr(sub)) == Bytes(8)
    ensures Size(fuel, structures, aliases, Func(params, ret)) == Bytes(8)
    ensures Size(fuel, structures, aliases, Array(sub, None)) == Bytes(8)
    ensures Size(fuel, structures, aliases, Void) == Bytes(0)
    ensures BasicSize(name).Some? ==> Size(fuel, structures, aliases, Basic(name)) == Bytes(BasicSize(name).value)
    ensures var e := Size(fuel, structures, aliases, sub);
      Size(fuel, structures, aliases, Vector(sub, count)) == (if e.Bytes? then Bytes(e.n * count) else e)
      && Size(fuel, structures, aliases, Array(sub, Some(count))) == (if e.Bytes? then Bytes(e.n * count) else e)
  {
  }

  /** The size of a struct is additive over its fields: no padding is inserted anywhere. */
  lemma {:induction false} FieldSizesAppend(fuel: nat, structures: map<Name, GccStruct>, aliases: map<Name, Type>,
                                            a: seq<Type>, b: seq<Type>)
    ensures FieldSizes(fuel, structures, aliases, a + b) ==
      (var ra := FieldSizes(fuel, structures, aliases, a);
       if ra.Bytes? then AddSize(ra.n, FieldSizes(fuel, structures, aliases, b)) else ra)
  {
    if a == [] {
      assert a + b == b;
    } else {
      assert (a + b)[0] == a[0];
      assert (a + b)[1..] == a[1..] + b;
      FieldSizesAppend(fuel, structures, aliases, a[1..], b);
    }
  }

  /** More fuel never changes an answer that did not run out of fuel. */
  lemma {:induction false} SizeFuelMonotone(f1: nat, f2: nat, structures: map<Name, GccStruct>,
                                            aliases: map<Name, Type>, t: Type)
    requires f1 <= f2
    requires !Size(f1, structures, aliases, t).OutOfFuel?
    ensures Size(f2, structures, aliases, t) == Size(f1, structures, aliases, t)
    decreases f1, Depth(t)
  {
    match t
    case Vector(sub, _) => SizeFuelMonotone(f1, f2, structures, aliases, sub);
    case Array(sub, len) =>
      if len.Some? {
        SizeFuelMonotone(f1, f2, structures, aliases, sub);
      }
    case Basic(name) =>
      if BasicSize(name).None? && name in structures {
        FieldSizesFuelMonotone(f1 - 1, f2 - 1, structures, aliases, structures[name].types);
      } else if BasicSize(name).None? && name in aliases {
        SizeFuelMonotone(f1 - 1, f2 - 1, structures, aliases, aliases[name]);
      }
    case Struct(name, _, _) =>
      if name in structures {
        FieldSizesFuelMonotone(f1 - 1, f2 - 1, structures, aliases, structures[name].types);
      }
    case _ =>
  }

  lemma {:induction false} FieldSizesFuelMonotone(f1: nat, f2: nat, structures: map<Name, GccStruct>,
                                                  aliases: map<Name, Type>, ts: seq<Type>)
    requires f1 <= f2
    requires !FieldSizes(f1, structures, aliases, ts).OutOfFuel?
    ensures FieldSizes(f2, structures, aliases, ts) == FieldSizes(f1, structures, aliases, ts)
    decreases f1, TypesDepth(ts)
  {
    if ts != [] {
      SizeFuelMonotone(f1, f2, structures, aliases, ts[0]);
      if Size(f1, structures, aliases, ts[0]).Bytes? {
        FieldSizesFuelMonotone(f1, f2, structures, aliases, ts[1..]);
      }
    }
  }

  /** A struct type and the bare name of that struct have the same size. */
  lemma StructNameSize(fuel: nat, structures: map<Name, GccStruct>, aliases: map<Name, Type>,
                       name: Name, fields: seq<StructField>, union: bool)
    requires BasicSize(name).None? && name in structures
    ensures Size(fuel, structures, aliases, Basic(name)) == Size(fuel, structures, aliases, Struct(name, fields, union))
  {
  }

  /** An alias has the size of the type it names. */
  lemma AliasSize(fuel: nat, structures: map<Name, GccStruct>, aliases: map<Name, Type>, name: Name)
    requires BasicSize(name).None? && name !in structures && name in aliases
    ensures Size(fuel + 1, structures, aliases, Basic(name)) == Size(fuel, structures, aliases, aliases[name])
  {
  }

  // ---------------------------------------------------------------------------------------
  // Overload resolution
  // ---------------------------------------------------------------------------------------

  /** The receiver type a call is matched on: the type itself if it is a pointer, else a pointer to it. */
  function PtrOf(t: Type): (p: Type)
    ensures IsPtr(p)
  {
    if IsPtr(t) then t else MakePtr(t)
  }

  /**
   * The positional check shared by both searches: every argument position a parameter covers
   * holds that parameter's type, and arguments beyond the parameters need a variadic function
   * that has at least one parameter. There must be at least one argument.
   */
  predicate Positional(params: seq<Param>, variadic: bool, args: seq<Type>)
  {
    0 < |args|
    && (forall i :: 0 <= i < |params| && i < |args| ==> args[i] == params[i].ty)
    && (|args| <= |params| || (0 < |params| && variadic))
  }

  /** When `search_for_func_const` accepts a constant function for a call. */
  predicate MatchesConst(f: Function, args: seq<Type>, recv: Option<Type>)
  {
    |f.params| <= |args|
    && ((|f.params| == 0 && |args| == 0 && recv.None?) || Positional(f.params, f.variadic, args))
  }

  /** When `search_for_func` accepts a declared function for a call. */
  predicate Matches(u: FunctionUnit, args: seq<Type>, recv: Option<Type>)
  {
    |u.f.params| <= |args|
    && (match u.thisAst
        case None =>
          (|u.f.params| == 0 && |args| == 0 && recv.None?) || Positional(u.f.params, u.f.variadic, args)
        case Some(t) =>
          recv.Some? && t == PtrOf(recv.value)
          && (ParamTypes(u.f) == args || Positional(u.f.params, u.f.variadic, args)))
  }

  predicate FirstMatchConst(functions: seq<Function>, args: seq<Type>, recv: Option<Type>, j: int)
  {
    0 <= j < |functions| && MatchesConst(functions[j], args, recv)
    && forall k :: 0 <= k < j ==> !MatchesConst(functions[k], args, recv)
  }

  predicate FirstMatch(functions: seq<FunctionUnit>, args: seq<Type>, recv: Option<Type>, j: int)
  {
    0 <= j < |functions| && Matches(functions[j], args, recv)
    && forall k :: 0 <= k < j ==> !Matches(functions[k], args, recv)
  }

  /** The loop over the argument types with the `params_okay` and `not_found` flags. */
  method CheckPositional(params: seq<Param>, variadic: bool, args: seq<Type>) returns (paramsOkay: bool, notFound: bool)
    ensures notFound ==> !paramsOkay
    ensures paramsOkay <==> Positional(params, variadic, args)
  {
    paramsOkay := false;
    notFound := false;
    var index := 0;
    while index < |args|
      invariant 0 <= index <= |args| && index <= |params|
      invariant !notFound
      invariant paramsOkay <==> 0 < index
      invariant forall i :: 0 <= i < index ==> args[i] == params[i].ty
    {
      if index < |params| {
        paramsOkay := args[index] == params[index].ty;
      } else {
        if variadic && paramsOkay {
          notFound := false;
          return;
        } else {
          paramsOkay := false;
          notFound := true;
          return;
        }
      }
      if !paramsOkay {
        notFound := true;
        return;
      }
      index := index + 1;
    }
  }

  /** A candidate with no parameters never takes arguments, variadic or not. */
  lemma NoParamsNoArgs(u: FunctionUnit, args: seq<Type>, recv: Option<Type>)
    requires |u.f.params| == 0 && 0 < |args|
    ensures !MatchesConst(u.f, args, recv)
    ensures !Matches(u, args, recv)
  {
  }

  /** Extra arguments are only taken by a variadic candidate. */
  lemma ExtraArgsNeedVariadic(u: FunctionUnit, args: seq<Type>, recv: Option<Type>)
    requires |u.f.params| < |args| && !u.f.variadic
    ensures !MatchesConst(u.f, args, recv)
    ensures !Matches(u, args, recv)
  {
  }

  /** A candidate with more parameters than the call has arguments is skipped. */
  lemma TooFewArgs(u: FunctionUnit, args: seq<Type>, recv: Option<Type>)
    requires |u.f.params| > |args|
    ensures !MatchesConst(u.f, args, recv)
    ensures !Matches(u, args, recv)
  {
  }

  /** A method is never chosen for a call without a receiver. */
  lemma ReceiverRequired(u: FunctionUnit, args: seq<Type>)
    requires u.thisAst.Some?
    ensures !Matches(u, args, None)
  {
  }

  /** A non-pointer receiver is matched as a pointer to it. */
  lemma ReceiverAsPointer(u: FunctionUnit, args: seq<Type>, t: Type)
    requires !IsPtr(t)
    ensures Matches(u, args, Some(t)) <==> Matches(u, args, Some(Ptr(t)))
  {
  }

  /**
   * The constant search's acceptance rule stated on whole sequences: the parameter types are
   * exactly the first arguments, and any further arguments need a variadic candidate.
   */
  lemma MatchesConstPrefix(f: Function, args: seq<Type>, recv: Option<Type>)
    ensures MatchesConst(f, args, recv) <==>
      (|f.params| == 0 && |args| == 0 && recv.None?)
      || (0 < |f.params| <= |args| && ParamTypes(f) == args[..|f.params|]
          && (|f.params| == |args| || f.variadic))
  {
    var k := |f.params|;
    if 0 < k <= |args| {
      if ParamTypes(f) == args[..k] {
        forall i | 0 <= i < k
          ensures args[i] == f.params[i].ty
        {
          assert args[..k][i] == args[i];
        }
      }
      if forall i :: 0 <= i < k && i < |args| ==> args[i] == f.params[i].ty {
        assert ParamTypes(f) == args[..k];
      }
    }
  }

  // ---------------------------------------------------------------------------------------
  // Linkage and mangling
  // ---------------------------------------------------------------------------------------

  /** The linkage a function is declared with. */
  function Linkage(f: Function): (k: FunctionType)
    ensures k == Extern <==> f.external
    ensures k == Internal <==> !f.external && (f.isStatic || !f.public)
    ensures k == AlwaysInline <==> !f.external && !f.isStatic && f.public && f.inline
    ensures k == Exported <==> !f.external && !f.isStatic && f.public && !f.inline
  {
    if f.external then Extern
    else if f.isStatic || !f.public then Internal
    else if f.inline then AlwaysInline
    else Exported
  }

  /** `ty_to_n`: the piece a type contributes to a mangled name. `show` is `Type`'s Display. */
  function TyToN(show: Type -> string, t: Type): string
  {
    match t
    case Vector(sub, size) => "vec" + show(sub) + NatText(size, 10)
    case Basic(name) => name
    case Ptr(sub) => "ptr" + TyToN(show, sub)
    case Func(_, _) => show(t)
    case Struct(name, _, _) => name
    case Void => "v"
    case Array(sub, _) => "ptr" + TyToN(show, sub)
  }

  /** The mangled pieces of the parameter types, in order. */
  function ParamSuffix(show: Type -> string, params: seq<Param>): string
  {
    if params == [] then ""
    else ParamSuffix(show, params[..|params| - 1]) + TyToN(show, params[|params| - 1].ty)
  }

  function ReceiverSuffix(show: Type -> string, f: Function): string
  {
    if f.receiver.Some? then "this" + TyToN(show, f.receiver.value.ty) else ""
  }

  /** The IR name of a function: `main` as it is, any other name followed by its receiver and parameter types. */
  function Mangle(show: Type -> string, f: Function): (name: string)
    ensures f.name == "main" ==> name == "main"
    ensures f.name != "main" ==> f.name <= name
  {
    if f.name == "main" then "main" else f.name + ReceiverSuffix(show, f) + ParamSuffix(show, f.params)
  }

  /** The pieces `ty_to_n` gives: pointers and arrays `ptr` and their element, void `v`, names as they are. */
  lemma TyToNForms(show: Type -> string, sub: Type, len: Option<nat>, name: Name)
    ensures TyToN(show, Ptr(sub)) == "ptr" + TyToN(show, sub)
    ensures TyToN(show, Array(sub, len)) == "ptr" + TyToN(show, sub)
    ensures TyToN(show, Void) == "v"
    ensures TyToN(show, Basic(name)) == name
  {
  }

  /** The mangled types of the parameters, one piece per parameter in order. */
  function ParamPieces(show: Type -> string, params: seq<Param>): (r: seq<string>)
    ensures |r| == |params| && forall i :: 0 <= i < |params| ==> r[i] == TyToN(show, params[i].ty)
  {
    seq(|params|, i requires 0 <= i < |params| => TyToN(show, params[i].ty))
  }

  /**
   * A mangled name other than `main` is the function's name, then `this` and the receiver's
   * piece when there is a receiver, then every parameter's piece in order.
   */
  lemma {:induction false} MangleParts(show: Type -> string, f: Function)
    requires f.name != "main"
    ensures Mangle(show, f) == f.name + (if f.receiver.Some? then "this" + TyToN(show, f.receiver.value.ty) else "")
      + Concat(ParamPieces(show, f.params))
  {
    ParamSuffixConcat(show, f.params);
  }

  lemma {:induction false} ParamSuffixConcat(show: Type -> string, params: seq<Param>)
    ensures ParamSuffix(show, params) == Concat(ParamPieces(show, params))
    decreases |params|
  {
    if params != [] {
      var init := params[..|params| - 1];
      ParamSuffixConcat(show, init);
      assert ParamPieces(show, params) == ParamPieces(show, init) + [TyToN(show, params[|params| - 1].ty)];
      ConcatAppend(ParamPieces(show, init), TyToN(show, params[|params| - 1].ty));
    }
  }

  /** Parameters whose types mangle alike give the same suffix, whatever their names. */
  lemma {:induction false} ParamSuffixPointwise(show: Type -> string, ps: seq<Param>, qs: seq<Param>)
    requires |ps| == |qs|
    requires forall i :: 0 <= i < |ps| ==> TyToN(show, ps[i].ty) == TyToN(show, qs[i].ty)
    ensures ParamSuffix(show, ps) == ParamSuffix(show, qs)
  {
    if ps != [] {
      ParamSuffixPointwise(show, ps[..|ps| - 1], qs[..|qs| - 1]);
    }
  }

  /**
   * Arrays mangle as pointers and parameter names are not part of the mangled name, so two
   * overloads that differ only there get the same IR name.
   */
  lemma ArrayMangledAsPointer(show: Type -> string, f: Function, i: nat, name: Name, len: Option<nat>)
    requires i < |f.params| && f.params[i].ty.Ptr?
    ensures Mangle(show, f.(params := f.params[i := Param(name, Array(f.params[i].ty.subtype, len))])) == Mangle(show, f)
  {
    var g := f.(params := f.params[i := Param(name, Array(f.params[i].ty.subtype, len))]);
    ParamSuffixPointwise(show, g.params, f.params);
  }

  // ---------------------------------------------------------------------------------------
  // The overload table
  // ---------------------------------------------------------------------------------------

  /** The signature test of the registration loop. */
  predicate SameSignature(a: Function, b: Function)
  {
    a.name == b.name && a.params == b.params && a.ret == b.ret && a.variadic == b.variadic && a.receiver == b.receiver
  }

  /** The first overload with the same signature as f. */
  function FindSame(units: seq<FunctionUnit>, f: Function): (r: Option<nat>)
    ensures r.Some? ==> (r.value < |units| && SameSignature(units[r.value].f, f)
      && forall i :: 0 <= i < r.value ==> !SameSignature(units[i].f, f))
    ensures r.None? ==> forall i :: 0 <= i < |units| ==> !SameSignature(units[i].f, f)
  {
    if units == [] then None
    else if SameSignature(units[0].f, f) then Some(0)
    else match FindSame(units[1..], f)
      case None => None
      case Some(k) => Some(k + 1)
  }

  function ReceiverType(f: Function): Option<Type>
  {
    if f.receiver.Some? then Some(f.receiver.value.ty) else None
  }

  /** The declared functions by name, the external ones, and the next IR id. */
  datatype FnTable = FnTable(functions: map<Name, seq<FunctionUnit>>, externalFunctions: map<Name, FunctionUnit>, funId: nat)

  /**
   * Registering one function of the file: external and builtin functions go to their own
   * table; any other one is stamped with the next id, mangled, and either replaces the first
   * overload with the same signature or is appended.
   */
  function Registered(show: Type -> string, tbl: FnTable, func: Function): (FnTable, Function)
  {
    if func.external || func.internal then
      var c := if func.internal then Builtin(func.name) else NewFunction(func.name, Linkage(func), func.variadic);
      (tbl.(externalFunctions := tbl.externalFunctions[func.name := FunctionUnit(func, c, None, func.name)]), func)
    else
      var g := func.(irTempId := tbl.funId);
      var name := Mangle(show, g);
      (WithUnit(tbl, FunctionUnit(g, NewFunction(name, Linkage(g), g.variadic), ReceiverType(g), name)), g)
  }

  /**
   * Adding a compiled unit under its function's name: it replaces the unit of the same
   * signature (and the id counter then moves on twice), or goes after the others.
   */
  function WithUnit(tbl: FnTable, u: FunctionUnit): FnTable
  {
    var n := u.f.name;
    if n in tbl.functions then
      var units := tbl.functions[n];
      match FindSame(units, u.f)
      case Some(k) => tbl.(functions := tbl.functions[n := units[k := u]], funId := tbl.funId + 2)
      case None => tbl.(functions := tbl.functions[n := units + [u]], funId := tbl.funId + 1)
    else tbl.(functions := tbl.functions[n := [u]], funId := tbl.funId + 1)
  }

  /** Registering the functions among `elems`, in order; the other elements pass through. */
  function RegisteredAll(show: Type -> string, tbl: FnTable, elems: seq<Elem>): (r: (FnTable, seq<Elem>))
    ensures |r.1| == |elems|
    ensures forall i :: 0 <= i < |elems| && !elems[i].FuncDef? ==> r.1[i] == elems[i]
    ensures forall i :: 0 <= i < |elems| && elems[i].FuncDef? ==>
      r.1[i].FuncDef? && r.1[i].func == elems[i].func.(irTempId := r.1[i].func.irTempId)
    ensures tbl.funId <= r.0.funId
  {
    if elems == [] then (tbl, [])
    else
      var prev := RegisteredAll(show, tbl, elems[..|elems| - 1]);
      var e := elems[|elems| - 1];
      if e.FuncDef? then
        var step := Registered(show, prev.0, e.func);
        (step.0, prev.1 + [FuncDef(step.1)])
      else (prev.0, prev.1 + [e])
  }

  /** One name's overloads: all of that name, ids below the next one, ids and signatures distinct. */
  predicate UnitsOk(n: Name, units: seq<FunctionUnit>, funId: nat)
  {
    (forall i :: 0 <= i < |units| ==> units[i].f.name == n && units[i].f.irTempId < funId)
    && (forall i, j :: 0 <= i < j < |units| ==>
          units[i].f.irTempId != units[j].f.irTempId && !SameSignature(units[i].f, units[j].f))
  }

  /** The invariant of the overload table. The body pass relies on it to find a unit by its id. */
  predicate TableOk(tbl: FnTable)
  {
    forall n :: n in tbl.functions ==> UnitsOk(n, tbl.functions[n], tbl.funId)
  }

  lemma UnitsOkGrow(n: Name, units: seq<FunctionUnit>, funId: nat, funId': nat)
    requires UnitsOk(n, units, funId) && funId <= funId'
    ensures UnitsOk(n, units, funId')
  {
  }

  /** Registration keeps the table's invariant. */
  lemma RegisteredKeepsTable(show: Type -> string, tbl: FnTable, func: Function)
    requires TableOk(tbl)
    ensures TableOk(Registered(show, tbl, func).0)
  {
    var r := Registered(show, tbl, func).0;
    if !(func.external || func.internal) {
      var g := func.(irTempId := tbl.funId);
      forall n | n in r.functions
        ensures UnitsOk(n, r.functions[n], r.funId)
      {
        if n != g.name {
          UnitsOkGrow(n, tbl.functions[n], tbl.funId, r.funId);
        } else if g.name in tbl.functions {
          var units := tbl.functions[g.name];
          var k := FindSame(units, g);
          if k.Some? {
            forall i, j | 0 <= i < j < |r.functions[n]|
              ensures r.functions[n][i].f.irTempId != r.functions[n][j].f.irTempId
              ensures !SameSignature(r.functions[n][i].f, r.functions[n][j].f)
            {
              assert SameSignature(units[k.value].f, g);
            }
          }
        }
      }
    }
  }

  /** After registering, the new function is in the table under its name, as registered. */
  lemma RegisteredFound(show: Type -> string, tbl: FnTable, func: Function)
    requires !func.external && !func.internal
    ensures Registered(show, tbl, func).1 == func.(irTempId := tbl.funId)
    ensures func.name in Registered(show, tbl, func).0.functions
    ensures exists k :: (0 <= k < |Registered(show, tbl, func).0.functions[func.name]|
      && Registered(show, tbl, func).0.functions[func.name][k].f == func.(irTempId := tbl.funId))
    ensures Registered(show, tbl, func).0.funId > tbl.funId
  {
    var r := Registered(show, tbl, func).0;
    var g := func.(irTempId := tbl.funId);
    if g.name in tbl.functions {
      var units := tbl.functions[g.name];
      match FindSame(units, g)
      case Some(k) => assert r.functions[g.name][k].f == g;
      case None => assert r.functions[g.name][|units|].f == g;
    } else {
      assert r.functions[g.name][0].f == g;
    }
  }

  /** Registering a whole file keeps the table's invariant. */
  lemma {:induction false} RegisteredAllKeepsTable(show: Type -> string, tbl: FnTable, elems: seq<Elem>)
    requires TableOk(tbl)
    ensures TableOk(RegisteredAll(show, tbl, elems).0)
  {
    if elems != [] {
      RegisteredAllKeepsTable(show, tbl, elems[..|elems| - 1]);
      var e := elems[|elems| - 1];
      if e.FuncDef? {
        RegisteredKeepsTable(show, RegisteredAll(show, tbl, elems[..|elems| - 1]).0, e.func);
      }
    }
  }

  // ---------------------------------------------------------------------------------------
  // Structures, links, constants and aliases
  // ---------------------------------------------------------------------------------------

  /** The tables filled by the first pass over the top-level elements, and the driver options. */
  datatype TopState = TopState(structures: map<Name, GccStruct>, driverOptions: seq<string>,
                               constants: map<Name, Expr>, aliases: map<Name, Type>)

  function FieldTypes(fields: seq<StructField>): (ts: seq<Type>)
    ensures |ts| == |fields| && forall i :: 0 <= i < |fields| ==> ts[i] == fields[i].dataType
  {
    seq(|fields|, i requires 0 <= i < |fields| => fields[i].dataType)
  }

  /** The loop that collects the field types of a struct for its GCC record. */
  method FieldTypesOf(fields: seq<StructField>) returns (types: seq<Type>)
    ensures types == FieldTypes(fields)
  {
    types := [];
    var j := 0;
    while j < |fields|
      invariant 0 <= j <= |fields|
      invariant types == FieldTypes(fields)[..j]
    {
      types := types + [fields[j].dataType];
      j := j + 1;
    }
  }

  /**
   * One element of the first pass: the first struct of a name wins, a link adds `-l<name>`,
   * a constant expression or an alias overwrites an earlier one of the same name.
   */
  function DeclaredElem(st: TopState, e: Elem): TopState
  {
    match e
    case StructDef(s) =>
      if s.name in st.structures then st
      else st.(structures := st.structures[s.name := GccStruct(FieldTypes(s.fields))])
    case Link(lib) => st.(driverOptions := st.driverOptions + ["-l" + lib])
    case ConstExpr(n, v) => st.(constants := st.constants[n := v])
    case Alias(n, t) => st.(aliases := st.aliases[n := t])
    case _ => st
  }

  function DeclaredAll(st: TopState, elems: seq<Elem>): TopState
  {
    if elems == [] then st else DeclaredElem(DeclaredAll(st, elems[..|elems| - 1]), elems[|elems| - 1])
  }

  /** The `-l` options of the links among elems, in source order. */
  function LinkFlags(elems: seq<Elem>): seq<string>
  {
    if elems == [] then []
    else (if elems[0].Link? then ["-l" + elems[0].lib] else []) + LinkFlags(elems[1..])
  }

  lemma {:induction false} LinkFlagsSnoc(elems: seq<Elem>, e: Elem)
    ensures LinkFlags(elems + [e]) == LinkFlags(elems) + (if e.Link? then ["-l" + e.lib] else [])
  {
    if elems == [] {
      assert [e][1..] == [];
    } else {
      var t := elems + [e];
      assert t[0] == elems[0];
      assert t[1..] == elems[1..] + [e];
      LinkFlagsSnoc(elems[1..], e);
      var head := if elems[0].Link? then ["-l" + elems[0].lib] else [];
      assert LinkFlags(t) == head + LinkFlags(elems[1..] + [e]);
      assert LinkFlags(elems) == head + LinkFlags(elems[1..]);
    }
  }

  /** Every link adds its option, in source order, after the options already there. */
  lemma {:induction false} DeclaredLinks(st: TopState, elems: seq<Elem>)
    ensures DeclaredAll(st, elems).driverOptions == st.driverOptions + LinkFlags(elems)
  {
    if elems != [] {
      var init := elems[..|elems| - 1];
      DeclaredLinks(st, init);
      LinkFlagsSnoc(init, elems[|elems| - 1]);
      assert init + [elems[|elems| - 1]] == elems;
    }
  }

  /** e defines a struct called n. */
  predicate DefinesStruct(e: Elem, n: Name)
  {
    e.StructDef? && e.def.name == n
  }

  /** Declaring everything in a + b is declaring a, then b. */
  lemma {:induction false} DeclaredAllAppend(st: TopState, a: seq<Elem>, b: seq<Elem>)
    ensures DeclaredAll(st, a + b) == DeclaredAll(DeclaredAll(st, a), b)
    decreases |b|
  {
    if b == [] {
      assert a + b == a;
    } else {
      var init := b[..|b| - 1];
      DeclaredAllAppend(st, a, init);
      assert (a + b)[..|a + b| - 1] == a + init;
      assert (a + b)[|a + b| - 1] == b[|b| - 1];
    }
  }

  /** A struct already declared keeps its entry, whatever follows. */
  lemma {:induction false} StructKept(st: TopState, elems: seq<Elem>, n: Name)
    requires n in st.structures
    ensures n in DeclaredAll(st, elems).structures
    ensures DeclaredAll(st, elems).structures[n] == st.structures[n]
  {
    if elems != [] {
      StructKept(st, elems[..|elems| - 1], n);
    }
  }

  /** A struct that nothing defines stays undeclared. */
  lemma {:induction false} StructAbsent(st: TopState, elems: seq<Elem>, n: Name)
    requires n !in st.structures
    requires forall k :: 0 <= k < |elems| ==> !DefinesStruct(elems[k], n)
    ensures n !in DeclaredAll(st, elems).structures
  {
    if elems != [] {
      var init := elems[..|elems| - 1];
      assert forall k :: 0 <= k < |init| ==> init[k] == elems[k];
      StructAbsent(st, init, n);
      assert !DefinesStruct(elems[|elems| - 1], n);
    }
  }

  /** An undeclared struct gets the fields of its first definition; later ones are ignored. */
  lemma FirstStructWins(st: TopState, elems: seq<Elem>, n: Name, i: nat)
    requires i < |elems| && n !in st.structures && DefinesStruct(elems[i], n)
    requires forall k :: 0 <= k < i ==> !DefinesStruct(elems[k], n)
    ensures n in DeclaredAll(st, elems).structures
    ensures DeclaredAll(st, elems).structures[n] == GccStruct(FieldTypes(elems[i].def.fields))
  {
    var before := elems[..i];
    assert forall k :: 0 <= k < |before| ==> before[k] == elems[k];
    StructAbsent(st, before, n);
    var upto := elems[..i + 1];
    assert upto[..|upto| - 1] == before;
    var mid := DeclaredAll(st, upto);
    assert mid.structures[n] == GccStruct(FieldTypes(elems[i].def.fields));
    StructKept(mid, elems[i + 1..], n);
    DeclaredAllAppend(st, upto, elems[i + 1..]);
    assert upto + elems[i + 1..] == elems;
  }



  // ---------------------------------------------------------------------------------------
  // Labels and output
  // ---------------------------------------------------------------------------------------

  /** The label of the n-th block. */
  function BlockName(n: nat): string
  {
    "L" + NatText(n, 10)
  }

  /** Different block numbers give different labels. */
  lemma BlockNamesDistinct(m: nat, n: nat)
    requires m != n
    ensures BlockName(m) != BlockName(n)
  {
    if BlockName(m) == BlockName(n) {
      assert BlockName(m)[1..] == NatText(m, 10);
      assert BlockName(n)[1..] == NatText(n, 10);
      NatTextInjective(m, n, 10);
    }
  }

  /** The kind of file written ahead of time: object file, then shared library, then assembler, else executable. */
  function OutputKindOf(emitObj: bool, shared: bool, emitAsm: bool): (k: OutputKind)
    ensures k == ObjectFile <==> emitObj
    ensures k == DynamicLibrary <==> !emitObj && shared
    ensures k == Assembler <==> !emitObj && !shared && emitAsm
    ensures k == Executable <==> !emitObj && !shared && !emitAsm
  {
    if emitObj then ObjectFile else if shared then DynamicLibrary else if emitAsm then Assembler else Executable
  }

  /** The output file: the requested name, or `a.out` when none was given. */
  function OutputPath(output: string): (p: string)
    ensures p != ""
    ensures output != "" ==> p == output
  {
    if output != "" then output else "a.out"
  }

  /** Everything the code generator keeps that the model tracks. */
  datatype CodegenState = CodegenState(blockId: nat, tmpId: nat, top: TopState, table: FnTable,
                                       dumpCode: bool, dumpGimple: bool, optLevel: nat)

  class Codegen {
    var blockId: nat
    var tmpId: nat
    var funId: nat
    var structures: map<Name, GccStruct>
    var functions: map<Name, seq<FunctionUnit>>
    var externalFunctions: map<Name, FunctionUnit>
    var constants: map<Name, Expr>
    var aliases: map<Name, Type>
    /** The options added to the GCC driver. */
    var driverOptions: seq<string>
    var dumpCode: bool
    var dumpGimple: bool
    var optLevel: nat
    /** `Type`'s Display. */
    const showType: Type -> string

    function Top(): TopState
      reads this
    {
      TopState(structures, driverOptions, constants, aliases)
    }

    function Table(): FnTable
      reads this
    {
      FnTable(functions, externalFunctions, funId)
    }

    function State(): CodegenState
      reads this
    {
      CodegenState(blockId, tmpId, Top(), Table(), dumpCode, dumpGimple, optLevel)
    }

    /** `Codegen::new`: empty tables, counters at 0, GIMPLE dumping as the context asks. */
    constructor (context: Havo.Context, showType: Type -> string)
      ensures State() == CodegenState(0, 0, TopState(map[], [], map[], map[]), FnTable(map[], map[], 0),
                                      false, context.gimple, 0)
      ensures TableOk(Table())
      ensures this.showType == showType
    {
      blockId := 0;
      tmpId := 0;
      funId := 0;
      structures := map[];
      functions := map[];
      externalFunctions := map[];
      constants := map[];
      aliases := map[];
      driverOptions := [];
      dumpCode := false;
      dumpGimple := context.gimple;
      optLevel := 0;
      this.showType := showType;
    }

    /** `ty_size`, with the same fuel accounting as `Size`. */
    method TySize(fuel: nat, t: Type) returns (r: Sized)
      ensures r == Size(fuel, structures, aliases, t)
      decreases fuel, Depth(t)
    {
      match t {
        case Vector(sub, count) =>
          r := TySize(fuel, sub);
          if r.Bytes? {
            r := Bytes(r.n * count);
          }
        case Void =>
          r := Bytes(0);
        case Basic(name) =>
          if BasicSize(name).Some? {
            r := Bytes(BasicSize(name).value);
          } else if name in structures {
            if fuel == 0 {
              r := OutOfFuel;
            } else {
              r := StructSize(fuel - 1, structures[name].types);
            }
          } else if name in aliases {
            if fuel == 0 {
              r := OutOfFuel;
            } else {
              r := TySize(fuel - 1, aliases[name]);
            }
          } else {
            r := Panic("Type " + name + " not found");
          }
        case Ptr(_) =>
          r := Bytes(8);
        case Func(_, _) =>
          r := Bytes(8);
        case Struct(name, _, _) =>
          if name !in structures {
            r := Panic(ConstEval.UnwrapNone);
          } else if fuel == 0 {
            r := OutOfFuel;
          } else {
            r := StructSize(fuel - 1, structures[name].types);
          }
        case Array(sub, len) =>
          if len.Some? {
            r := TySize(fuel, sub);
            if r.Bytes? {
              r := Bytes(r.n * len.value);
            }
          } else {
            r := Bytes(8);
          }
      }
    }

    /** The loop that sums the sizes of a structure's fields. */
    method StructSize(fuel: nat, types: seq<Type>) returns (r: Sized)
      ensures r == FieldSizes(fuel, structures, aliases, types)
      decreases fuel, TypesDepth(types)
    {
      var size: nat := 0;
      var i := 0;
      while i < |types|
        invariant 0 <= i <= |types|
        invariant FieldSizes(fuel, structures, aliases, types) == AddSize(size, FieldSizes(fuel, structures, aliases, types[i..]))
      {
        TypesDepthElem(types, i);
        var s := TySize(fuel, types[i]);
        if !s.Bytes? {
          return s;
        }
        assert types[i..][1..] == types[i + 1..];
        size := size + s.n;
        i := i + 1;
      }
      return Bytes(size);
    }

    /** `search_for_func_const`: the first constant function that accepts the call, with its parameter types. */
    method SearchForFuncConst(args: seq<Type>, recv: Option<Type>, candidates: seq<Function>)
      returns (r: Option<(Function, seq<Type>)>)
      ensures r.None? <==> forall j :: 0 <= j < |candidates| ==> !MatchesConst(candidates[j], args, recv)
      ensures r.Some? ==> exists j :: (FirstMatchConst(candidates, args, recv, j)
        && r.value == (candidates[j], ParamTypes(candidates[j])))
    {
      var j := 0;
      while j < |candidates|
        invariant 0 <= j <= |candidates|
        invariant forall k :: 0 <= k < j ==> !MatchesConst(candidates[k], args, recv)
      {
        var candidate := candidates[j];
        if |candidate.params| > |args| {
          j := j + 1;
          continue;
        }
        if |candidate.params| == 0 && |args| == 0 && recv.None? {
          assert FirstMatchConst(candidates, args, recv, j);
          return Some((candidate, []));
        }
        var paramsOkay, notFound := CheckPositional(candidate.params, candidate.variadic, args);
        if notFound {
          j := j + 1;
          continue;
        }
        if paramsOkay {
          assert FirstMatchConst(candidates, args, recv, j);
          return Some((candidate, ParamTypes(candidate)));
        }
        j := j + 1;
      }
      return None;
    }

    /** `search_for_func`: the first declared function that accepts the call, receiver included. */
    method SearchForFunc(args: seq<Type>, recv: Option<Type>, candidates: seq<FunctionUnit>)
      returns (r: Option<(FunctionUnit, seq<Type>)>)
      ensures r.None? <==> forall j :: 0 <= j < |candidates| ==> !Matches(candidates[j], args, recv)
      ensures r.Some? ==> exists j :: (FirstMatch(candidates, args, recv, j)
        && r.value == (candidates[j], ParamTypes(candidates[j].f)))
    {
      var j := 0;
      while j < |candidates|
        invariant 0 <= j <= |candidates|
        invariant forall k :: 0 <= k < j ==> !Matches(candidates[k], args, recv)
      {
        var candidate := candidates[j];
        if |candidate.f.params| > |args| {
          j := j + 1;
          continue;
        }
        if |candidate.f.params| == 0 && |args| == 0 && candidate.thisAst.None? && recv.None? {
          assert FirstMatch(candidates, args, recv, j);
          return Some((candidate, []));
        }
        if candidate.thisAst.Some? {
          if recv.None? {
            j := j + 1;
            continue;
          }
          var self := if IsPtr(recv.value) then recv.value else MakePtr(recv.value);
          if candidate.thisAst.value != self {
            j := j + 1;
            continue;
          }
          var sig: seq<Type> := [];
          var p := 0;
          while p < |candidate.f.params|
            invariant 0 <= p <= |candidate.f.params|
            invariant sig == ParamTypes(candidate.f)[..p]
          {
            sig := sig + [candidate.f.params[p].ty];
            p := p + 1;
          }
          assert sig == ParamTypes(candidate.f);
          if sig == args {
            assert FirstMatch(candidates, args, recv, j);
            return Some((candidate, sig));
          }
        }
        var paramsOkay, notFound := CheckPositional(candidate.f.params, candidate.f.variadic, args);
        if notFound {
          j := j + 1;
          continue;
        }
        if paramsOkay {
          assert FirstMatch(candidates, args, recv, j);
          return Some((candidate, ParamTypes(candidate.f)));
        }
        j := j + 1;
      }
      return None;
    }

    /** `block_name_new`: the next label; nothing else changes. */
    method BlockNameNew() returns (name: string)
      modifies this
      ensures name == BlockName(old(blockId))
      ensures State() == old(State()).(blockId := old(blockId) + 1)
    {
      name := "L" + NatText(blockId, 10);
      blockId := blockId + 1;
    }

    /** The name-building loop of the registration pass. */
    method MangledName(func: Function) returns (name: string)
      ensures name == Mangle(showType, func)
    {
      if func.name == "main" {
        return "main";
      }
      name := func.name;
      if func.receiver.Some? {
        name := name + "this";
        name := name + TyToN(showType, func.receiver.value.ty);
      }
      var i := 0;
      while i < |func.params|
        invariant 0 <= i <= |func.params|
        invariant name == func.name + ReceiverSuffix(showType, func) + ParamSuffix(showType, func.params[..i])
      {
        assert func.params[..i + 1][..i] == func.params[..i];
        name := name + TyToN(showType, func.params[i].ty);
        i := i + 1;
      }
      assert func.params[..i] == func.params;
    }

    /** The loop over a name's overloads: replace the first one with u's signature, or append u. */
    method ReplaceOrAppend(units: seq<FunctionUnit>, u: FunctionUnit) returns (r: seq<FunctionUnit>, found: bool)
      ensures found <==> FindSame(units, u.f).Some?
      ensures found ==> r == units[FindSame(units, u.f).value := u]
      ensures !found ==> r == units + [u]
    {
      r := units;
      found := false;
      var k := 0;
      while k < |units|
        invariant 0 <= k <= |units|
        invariant r == units
        invariant forall i :: 0 <= i < k ==> !SameSignature(units[i].f, u.f)
      {
        var fun := units[k];
        if fun.f.name == u.f.name && fun.f.params == u.f.params && fun.f.ret == u.f.ret
          && fun.f.variadic == u.f.variadic && fun.f.receiver == u.f.receiver
        {
          assert FindSame(units, u.f) == Some(k);
          r := units[k := u];
          found := true;
          break;
        }
        k := k + 1;
      }
      if !found {
        r := units + [u];
      }
    }

    /** The registration of one function element of the second pass over the top-level elements. */
    method RegisterFunction(func: Function) returns (stamped: Function)
      requires TableOk(Table())
      modifies this
      ensures (Table(), stamped) == Registered(showType, old(Table()), func)
      ensures State() == old(State()).(table := Table())
      ensures TableOk(Table())
    {
      RegisteredKeepsTable(showType, Table(), func);
      var linkage := if func.external then Extern
        else if func.isStatic || !func.public then Internal
        else if func.inline then AlwaysInline
        else Exported;
      if func.external || func.internal {
        var c := if func.internal then Builtin(func.name) else NewFunction(func.name, linkage, func.variadic);
        externalFunctions := externalFunctions[func.name := FunctionUnit(func, c, None, func.name)];
        return func;
      }
      stamped := func.(irTempId := funId);
      var name := MangledName(stamped);
      var thisAst := if stamped.receiver.Some? then Some(stamped.receiver.value.ty) else None;
      var u := FunctionUnit(stamped, NewFunction(name, linkage, stamped.variadic), thisAst, name);
      assert u == FunctionUnit(stamped, NewFunction(Mangle(showType, stamped), Linkage(stamped), stamped.variadic),
                               ReceiverType(stamped), Mangle(showType, stamped));
      AddUnit(u);
    }

    /** The insertion of a unit into `functions`, with the id counter's steps. */
    method AddUnit(u: FunctionUnit)
      modifies this
      ensures Table() == WithUnit(old(Table()), u)
      ensures State() == old(State()).(table := Table())
    {
      if u.f.name in functions {
        var units, found := ReplaceOrAppend(functions[u.f.name], u);
        functions := functions[u.f.name := units];
        funId := if found then funId + 2 else funId + 1;
      } else {
        functions := functions[u.f.name := [u]];
        funId := funId + 1;
      }
    }

    /** The first-pass handling of one element: a struct, a link, a constant or an alias. */
    method Declare(e: Elem)
      modifies this
      ensures Top() == DeclaredElem(old(Top()), e)
      ensures State() == old(State()).(top := Top())
    {
      match e {
        case StructDef(s) =>
          var types := FieldTypesOf(s.fields);
          if s.name !in structures {
            structures := structures[s.name := GccStruct(types)];
          }
        case Link(lib) =>
          driverOptions := driverOptions + ["-l" + lib];
        case ConstExpr(n, v) =>
          constants := constants[n := v];
        case Alias(n, t) =>
          aliases := aliases[n := t];
        case _ =>
      }
    }

    /**
     * The two passes of `gen_toplevel` this model covers: structures, links, constants and
     * aliases first, then the registration of every function. The returned elements are the
     * input with every registered function stamped with its id.
     */
    method GenToplevel(elems: seq<Elem>) returns (stamped: seq<Elem>)
      requires TableOk(Table())
      modifies this
      ensures Top() == DeclaredAll(old(Top()), elems)
      ensures (Table(), stamped) == RegisteredAll(showType, old(Table()), elems)
      ensures State() == old(State()).(top := Top(), table := Table())
      ensures TableOk(Table())
    {
      var i := 0;
      while i < |elems|
        invariant 0 <= i <= |elems|
        invariant Top() == DeclaredAll(old(Top()), elems[..i])
        invariant State() == old(State()).(top := Top())
      {
        assert elems[..i + 1][..i] == elems[..i];
        Declare(elems[i]);
        i := i + 1;
      }
      assert elems[..i] == elems;
      ghost var afterFirst := State();
      stamped := [];
      i := 0;
      while i < |elems|
        invariant 0 <= i <= |elems|
        invariant (Table(), stamped) == RegisteredAll(showType, old(Table()), elems[..i])
        invariant State() == afterFirst.(table := Table())
        invariant TableOk(Table())
      {
        assert elems[..i + 1][..i] == elems[..i];
        if elems[i].FuncDef? {
          var g := RegisterFunction(elems[i].func);
          stamped := stamped + [FuncDef(g)];
        } else {
          stamped := stamped + [elems[i]];
        }
        i := i + 1;
      }
      assert elems[..i] == elems;
    }

    /**
     * `compile`, up to the GCC calls: the dump and optimisation settings, the two passes over
     * the context's elements, and then either the JIT run or the file to write, linking the C
     * and maths libraries in that case.
     */
    method Compile(context: Havo.Context) returns (target: Target)
      requires TableOk(Table())
      modifies this
      ensures dumpCode == (old(dumpCode) || (context.emitAsm && context.jit))
      ensures optLevel == context.opt
      ensures structures == DeclaredAll(old(Top()), context.file.elems).structures
      ensures constants == DeclaredAll(old(Top()), context.file.elems).constants
      ensures aliases == DeclaredAll(old(Top()), context.file.elems).aliases
      ensures Table() == RegisteredAll(showType, old(Table()), context.file.elems).0
      ensures driverOptions == DeclaredAll(old(Top()), context.file.elems).driverOptions
        + (if context.jit then [] else ["-lc", "-lm"])
      ensures target == if context.jit then RunJit
        else WriteFile(OutputKindOf(context.emitObj, context.shared, context.emitAsm), OutputPath(context.output))
      ensures blockId == old(blockId) && tmpId == old(tmpId) && dumpGimple == old(dumpGimple)
      ensures TableOk(Table())
    {
      if context.emitAsm && context.jit {
        dumpCode := true;
      }
      optLevel := context.opt;
      var elems := context.file.elems;
      var _ := GenToplevel(elems);
      if context.jit {
        target := RunJit;
      } else {
        driverOptions := driverOptions + ["-lc"];
        driverOptions := driverOptions + ["-lm"];
        var outPath := if context.output != "" then context.output else "a.out";
        var kind := if context.emitObj then ObjectFile
          else if context.shared then DynamicLibrary
          else if context.emitAsm then Assembler
          else Executable;
        target := WriteFile(kind, outPath);
      }
    }
  }
}
