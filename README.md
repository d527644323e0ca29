# Havo compiler: the compile-time logic, modelled and proved in Dafny

Havo is a small systems language whose compiler is written in Rust and emits code through the
GCC JIT library. This project models the parts of the compiler that decide things without
calling GCC:

- the **constant evaluator** (`optimize/const_eval.rs`): the value type `Const`, its
  hand-written equality, the type-size table, the folding of binary and unary operators
  with 64-bit wrapping, and the interpreter for expressions, statements and constant-function
  calls. The interpreter is written twice:
  - module `ConstEval` gives it as functions (the specification);
  - module `Evaluator` gives it in the source's own form, a class whose `knownVars` table is
    updated in place. Every method there is proved to compute what the matching `ConstEval`
    function says.

  Both use the corrected overload check of the second row of "## Findings". "## Left out" says
  what that changes. Both also cover `run` in full: the registration of the functions, and the
  walk over every function body (`eval_normal_stmt`) with its panics.
- the **code generator's decision rules** (`gccjit.rs`), in module `Codegen`:
  - byte sizes of types;
  - overload search, for constant functions and for GCC functions;
  - name mangling and the choice of linkage;
  - registration of overloads;
  - block labels;
  - the first pass of `gen_toplevel`;
  - the output choice of `compile`.
- the **pretty-printer** (`syntax/ast/display.rs`), module `Display`: pure text functions for
  every form, plus methods that build the loop-built forms step by step, proved equal to them.
- the **crate root** (`lib.rs`), module `Havo`: the node-id counter, the context and its
  defaults, `import`/`imports` and `get_func_mut`.
- the **driver** (`main.rs`), module `Driver`: the backend names, the case-insensitive parser,
  and how the command-line options are copied into the context.

The helper modules are:
- `Wrappers`: `Option` and `Result`;
- `Int64`: i64 wrap-around, truncating division and remainder, bit operations;
- `Text`: digits in bases 2 to 16, join/split, ASCII lower-casing;
- `Ast`: the syntax tree, reconstructed from its uses, since `ast/mod.rs` is not part of this model.

Modelling choices:
- A Rust panic (`unwrap` on `None`, `panic!`, division by zero, a shift out of range) is an
  explicit `Panic` outcome carrying the message. It is not a precondition, so the error paths
  are part of every contract.
- The interpreter and `ty_size` can recurse without bound through constant expressions,
  function bodies, structures and aliases. They therefore carry a `fuel` argument, and running
  out is a separate `OutOfFuel` outcome. Lemmas `Codegen.SizeFuelMonotone` and
  `FieldSizesFuelMonotone` show that more fuel never changes a result that was reached.
- Files are compiled in the order written: `wrappers.dfy`, `int64.dfy`, `text.dfy`, `ast.dfy`,
  `context.dfy`, `consteval.dfy`, `evaluator.dfy`, `codegen.dfy`, `driver.dfy`, `display.dfy`.
  Every file is given to Dafny together.

## Model

| member | source | states |
|---|---|---|
| Int64.Wrap | havo/src/optimize/const_eval.rs:224-251 | the `overflowing_*` result is congruent to the exact result modulo 2^64, lies in the i64 range, and is the exact result when that fits |
| Int64.TruncRemBounds | havo/src/optimize/const_eval.rs:252-256 | Rust's `%` on i64 truncates toward zero: the remainder is smaller than the divisor in magnitude, and when nonzero it has the sign of the dividend |
| Int64.ToUnsigned | havo/src/syntax/ast/display.rs:21-22 | the 64-bit pattern that `{:x}` and `{:b}` print is below 2^64 and congruent to the signed value |
| Int64.UnsignedRoundTrip | havo/src/syntax/ast/display.rs:21-22 | reading the printed 64-bit pattern back as a two's-complement value gives the original i64 |
| Text.NatTextRoundTrip | havo/src/syntax/ast/display.rs:20-24 | the digits printed in any base from 2 to 16 parse back to the number |
| Text.NatTextDigits | havo/src/syntax/ast/display.rs:21-22 | every printed character is a digit of the base, and the text starts with `0` only for zero (no leading zeros, no prefix) |
| Text.NatTextInjective | havo/src/syntax/ast/display.rs:21-22 | distinct numbers print differently |
| Text.IntTextRoundTrip | havo/src/syntax/ast/display.rs:23 | the signed decimal text of an integer parses back to it |
| Text.SplitJoin | havo/src/syntax/ast/display.rs:54-59 | pieces joined with a separator they do not contain split back into the same pieces |
| Text.ToLower | havo/src/main.rs:47 | ASCII lower-casing: each character is mapped on its own, so the length is kept (Rust's full Unicode mapping is under "## Left out") |
| Havo.NodeIdGenerator.constructor | havo/src/lib.rs:50-54 | a new generator starts at 1 and has issued nothing |
| Havo.NodeIdGenerator.Next | havo/src/lib.rs:56-61 | returns the current value and moves on by one; the issued ids stay strictly increasing, so each new id differs from every earlier one |
| Havo.ImportPath | havo/src/lib.rs:100-104 | the path itself when the root is empty; otherwise exactly the root, `/`, then the path |
| Havo.ExportFilter | havo/src/lib.rs:121-141 | the kept elements are all exported and all come from the imported file |
| Havo.ExportFilterAppend | havo/src/lib.rs:121-141 | filtering keeps source order: the filter of a concatenation is the concatenation of the filters |
| Havo.ExportFilterKeeps | havo/src/lib.rs:121-141 | an element survives exactly when it is in the file and is a public non-static function, a public struct, a public const or a link |
| Havo.ImportedExported | havo/src/lib.rs:153-160 | everything `imports` adds is exported, and a file without imports gets nothing added |
| Havo.Keeps | havo/src/lib.rs:122-140 | the match in `import` keeps exactly the exported elements |
| Havo.Context.constructor | havo/src/lib.rs:84-97 | the defaults: empty type table and GC set, opt 2, JIT on, no asm/object/shared/GIMPLE output, empty output name |
| Havo.Context.Import | havo/src/lib.rs:99-142 | the path joined as above; the exported elements of the loaded file are appended in their order, existing elements and every other field unchanged |
| Havo.Context.Imports | havo/src/lib.rs:153-160 | runs the import of every import element of the original list, in order, appending what `Imported` specifies; every other field unchanged |
| Havo.Context.GetFuncMut | havo/src/lib.rs:144-151 | the index of the first function element, whatever id is asked for; None exactly when there is no function |
| ConstEval.ConstEqImm | havo/src/optimize/const_eval.rs:77 | two integers are equal exactly when their values are, whatever their suffix and base |
| ConstEval.ConstEqEmptyStructs | havo/src/optimize/const_eval.rs:83-84 | two field-less structs are equal exactly when their names are |
| ConstEval.ConstEqVariants | havo/src/optimize/const_eval.rs:76-94 | under both the intended and the written equality, only Imm/Imm, Bool/Bool and Struct/Struct pairs can be equal; `Str`, `Void`, `Ret`, `Array` and `None` are unequal even to themselves |
| ConstEval.ConstEqBool | havo/src/optimize/const_eval.rs:81 | booleans are equal exactly when their values are, under both equalities |
| ConstEval.ConstEqSymmetric | havo/src/optimize/const_eval.rs:76-94 | the intended equality is symmetric |
| ConstEval.FieldsEqPointwise | havo/src/optimize/const_eval.rs:86-90 | intended field equality: same length and every pair equal (name, value and id) |
| ConstEval.ZipLastEqIsLastPair | havo/src/optimize/const_eval.rs:86-90 | the `zip` loop as written leaves only the comparison of the last pair it visits |
| ConstEval.StructEqAsWrittenIgnoresAllButLast | havo/src/optimize/const_eval.rs:82-91 | two values of one struct literal, whose fields carry the same NodeIds, differ in the first field yet compare equal as written but not as intended |
| ConstEval.ConstEqImpliesAsWritten | havo/src/optimize/const_eval.rs:76-94 | whatever is equal as intended is equal as written, so the code errs only towards "equal" |
| ConstEval.BasicSizeIntegers | havo/src/optimize/const_eval.rs:113-126 | the evaluator sizes exactly the integer names and `char`, at 1, 2, 4 or 8 bytes; `bool`, floats and others have no size |
| ConstEval.FieldsSizeDefined | havo/src/optimize/const_eval.rs:128-139 | a struct has a size exactly when each of its fields has one |
| ConstEval.FieldsSizeAppend | havo/src/optimize/const_eval.rs:128-139 | a struct's size is the sum of its field sizes: the sizes of two runs of fields add up |
| ConstEval.TySizeShapes | havo/src/optimize/const_eval.rs:107-154 | pointers, functions and unsized arrays are pointer-sized, void is 0, vectors have no size, and a sized array is element size times length, unsized when its element is |
| ConstEval.FoldBinaryUnknown | havo/src/optimize/const_eval.rs:218-220 | if either operand is `None`, the binary operation yields `None` |
| ConstEval.EvalBinopUnknownOperand | havo/src/optimize/const_eval.rs:214-220 | once both operands are evaluated, an unknown one makes `eval_binop` yield unknown, with the variables the operands left |
| ConstEval.FoldWrapping | havo/src/optimize/const_eval.rs:224-251 | `+`, `-`, `*`, `/` on two integers wrap modulo 2^64 (division truncating) and keep the left operand's suffix and base |
| ConstEval.DivOverflowWraps | havo/src/optimize/const_eval.rs:238-241 | `overflowing_div` of i64::MIN by -1 gives i64::MIN |
| ConstEval.FoldBinaryBoolean | havo/src/optimize/const_eval.rs:279-320 | the result is a Bool exactly for a comparison on two integers, `==`/`!=` on two Bools, or `&&`/`\|\|` on two Bools |
| ConstEval.FoldBinaryMismatch | havo/src/optimize/const_eval.rs:223-323 | operands that are neither two integers nor two Bools give `None`, whatever the operator |
| ConstEval.FoldBinaryPanics | havo/src/optimize/const_eval.rs:238-272 | the fold panics exactly for `/` or `%` by zero, the `%` overflow of i64::MIN by -1, and a shift by an amount outside 0..63 |
| ConstEval.FoldBinaryScalar | havo/src/optimize/const_eval.rs:223-323 | a successful fold yields an integer, a Bool or `None`, never a struct or a `Ret` |
| ConstEval.FoldUnaryCases | havo/src/optimize/const_eval.rs:436-462 | unary `+` is the identity on integers; `-` negates, and panics on i64::MIN as Rust's debug build does; `!` is bitwise not on integers and logical not on Bools; anything else gives `None` |
| ConstEval.FoldUnaryInvolutions | havo/src/optimize/const_eval.rs:448-457 | `!` undoes itself; `-` undoes itself except at i64::MIN |
| ConstEval.ConvertToIntSpec | havo/src/optimize/const_eval.rs:368-394 | conversion to an integer type keeps integers, turns a Bool into `Imm(0\|1, Int, Dec)`, and any other target gives `None` |
| ConstEval.FirstIndex | havo/src/optimize/const_eval.rs:351-356 | the position of the first field with that name, or the length when there is none |
| ConstEval.SetFieldSpec | havo/src/optimize/const_eval.rs:350-357 | field assignment replaces only the first field with that name, with the new value and the id of the right-hand side |
| ConstEval.TryAssignVarEffect | havo/src/optimize/const_eval.rs:330-340 | a known variable takes a known value and is removed for an unknown one; other variables keep what evaluating the right-hand side left; an unknown variable changes nothing |
| ConstEval.TryAssignFieldEffect | havo/src/optimize/const_eval.rs:341-361 | for a known struct variable and a known value, only the first field of that name changes; the struct keeps its name and length; nothing else changes |
| ConstEval.ArgsMatchSpec | havo/src/optimize/const_eval.rs:533-541 | the intended argument check: it panics exactly when an argument has no type, and accepts exactly when every argument has its parameter's type |
| ConstEval.ArgsMatchAsWrittenLastOnly | havo/src/optimize/const_eval.rs:537-540 | as written only the last argument's type decides: a first argument of the wrong type is accepted |
| ConstEval.SelectOverload | havo/src/optimize/const_eval.rs:527-546 | a selected overload has as many parameters as there are arguments |
| ConstEval.SelectOverloadFirst | havo/src/optimize/const_eval.rs:527-546 | when all arguments are typed, an overload is found exactly when some candidate accepts the arguments, and it is the first such in list order |
| ConstEval.SelectOverloadAsWritten | havo/src/optimize/const_eval.rs:527-546 | the overload loop with the written check: a selected overload has as many parameters as there are arguments |
| ConstEval.SelectOverloadAgreesOnShortCalls | havo/src/optimize/const_eval.rs:527-546 | for a call with no argument or one argument, the written and the corrected selection are the same |
| ConstEval.ArgsMatchImpliesAsWritten | havo/src/optimize/const_eval.rs:533-541 | the written check accepts every candidate that the corrected one accepts |
| ConstEval.LastArgMatchesIsLast | havo/src/optimize/const_eval.rs:537-540 | when every argument is typed, the written flag is the last argument's type comparison |
| ConstEval.SelectOverloadAsWrittenDiffers | havo/src/optimize/const_eval.rs:527-546 | with a single candidate `(i32, i32)` and arguments `i64, i32`, the written loop selects it and the corrected one selects none, so the model panics with "Const function not found" where the source calls it |
| ConstEval.CallWithReceiverUnknown | havo/src/optimize/const_eval.rs:520-522 | a method call (with a receiver) is never evaluated and leaves the variables alone |
| ConstEval.ConstFnRestoresVars | havo/src/optimize/const_eval.rs:652-690 | a constant-function call that gets past the bindings ends with exactly the caller's variables |
| ConstEval.EvalBlockAppend | havo/src/optimize/const_eval.rs:695-708 | a block runs its statements in order and stops at the first `Ret`: running a+b is running a and then, unless it returned, b |
| ConstEval.EvalKeepsInvariant | havo/src/optimize/const_eval.rs:366-644 | evaluating an expression never yields a `Ret` and never declares a variable (every variable afterwards was known before), when no known value holds a `Ret` |
| ConstEval.EvalOperatorKeepsInvariant | havo/src/optimize/const_eval.rs:368-492 | the same for the conversion, binary, unary, struct-literal and field arms |
| ConstEval.EvalAccessKeepsInvariant | havo/src/optimize/const_eval.rs:431-644 | the same for the literal, identifier, assignment, index, call and sizeof arms |
| ConstEval.EvalConvKeepsInvariant | havo/src/optimize/const_eval.rs:368-429 | the conversion arm keeps the invariant |
| ConstEval.EvalUnaryKeepsInvariant | havo/src/optimize/const_eval.rs:436-462 | the unary arm keeps the invariant |
| ConstEval.EvalStructKeepsInvariant | havo/src/optimize/const_eval.rs:463-474 | the struct-literal arm keeps the invariant |
| ConstEval.EvalFieldKeepsInvariant | havo/src/optimize/const_eval.rs:476-492 | the field arm keeps the invariant |
| ConstEval.EvalAssignKeepsInvariant | havo/src/optimize/const_eval.rs:494-497 | the assignment arm keeps the invariant |
| ConstEval.EvalIndexKeepsInvariant | havo/src/optimize/const_eval.rs:498-517 | the index arm keeps the invariant |
| ConstEval.EvalCallExprKeepsInvariant | havo/src/optimize/const_eval.rs:519-632 | the call arm keeps the invariant |
| ConstEval.TryGetVarKeepsInvariant | havo/src/optimize/const_eval.rs:200-211 | looking a variable up keeps the invariant |
| ConstEval.EvalBinopKeepsInvariant | havo/src/optimize/const_eval.rs:214-324 | `eval_binop` keeps the invariant |
| ConstEval.TryAssignKeepsInvariant | havo/src/optimize/const_eval.rs:328-364 | an assignment declares no variable and stores no `Ret` |
| ConstEval.EvalFieldsKeepsInvariant | havo/src/optimize/const_eval.rs:464-473 | the field values of a struct literal hold no `Ret` |
| ConstEval.EvalArgsKeepsInvariant | havo/src/optimize/const_eval.rs:610-631 | evaluating the arguments of an unevaluated call keeps the invariant |
| ConstEval.BindParamsKeepsInvariant | havo/src/optimize/const_eval.rs:656-674 | the parameter bindings hold no `Ret` |
| ConstEval.BindParamsExpressible | havo/src/optimize/const_eval.rs:656-674 | every value bound to a parameter has an expression form: `to_kind` would have panicked on any other |
| ConstEval.VoidArgumentPanics | havo/src/optimize/const_eval.rs:613-627 | `h(g())`, with `h` unknown and `g` a constant function whose body `{ var t = 1; }` yields `Void`, panics in `to_kind` |
| ConstEval.EvalConstFnKeepsInvariant | havo/src/optimize/const_eval.rs:646-691 | a constant-function call unwraps the `Ret`: its value holds no `Ret` |
| ConstEval.EvalCallKeepsInvariant | havo/src/optimize/const_eval.rs:524-557 | the call of a selected overload keeps the invariant |
| ConstEval.EvalStmtKeepsInvariant | havo/src/optimize/const_eval.rs:693-775 | a statement yields unknown, a plain value or a `Ret` of a plain value, and the variables stay free of `Ret` |
| ConstEval.EvalReturnKeepsInvariant | havo/src/optimize/const_eval.rs:712-723 | the same for `return` |
| ConstEval.EvalVarKeepsInvariant | havo/src/optimize/const_eval.rs:724-737 | the same for `var` |
| ConstEval.EvalIfKeepsInvariant | havo/src/optimize/const_eval.rs:738-756 | the same for `if` |
| ConstEval.EvalWhileStmtKeepsInvariant | havo/src/optimize/const_eval.rs:758-771 | the same for `while` |
| ConstEval.EvalBlockKeepsInvariant | havo/src/optimize/const_eval.rs:695-708 | the same for a block |
| ConstEval.EvalWhileKeepsInvariant | havo/src/optimize/const_eval.rs:760-769 | the same for the loop of `while` |
| ConstEval.RegisterSpec | havo/src/optimize/const_eval.rs:889-906 | after the first loop of `run`, each name's overloads are the old ones followed by that name's selected functions in file order |
| ConstEval.NamedSpec | havo/src/optimize/const_eval.rs:889-906 | a function is registered under a name exactly when it is a selected element of the file with that name |
| ConstEval.DeclareConstExprsSpec | havo/src/optimize/const_eval.rs:930-932 | after `run`, a constant is bound to its last declaration in the file, or keeps its old binding |
| ConstEval.EvalNormalStmtKeepsInvariant | havo/src/optimize/const_eval.rs:778-881 | walking a function body keeps the variables free of `Ret`, and every variable afterwards was known before or is declared by a `var` of the body |
| ConstEval.EvalNormalIfKeepsInvariant | havo/src/optimize/const_eval.rs:800-818 | the same for an `if`, whose branches are both walked |
| ConstEval.EvalNormalLeafKeepsInvariant | havo/src/optimize/const_eval.rs:785-876 | the same for expression statements, `return` and `var` |
| ConstEval.EvalNormalBlockKeepsInvariant | havo/src/optimize/const_eval.rs:780-784 | the same for a block |
| ConstEval.OptimizeFromBodiless | havo/src/optimize/const_eval.rs:883-929 | if a function that is neither external nor internal has no body, `run` does not finish normally: it panics there, unless an earlier function already stopped it |
| ConstEval.OptimizeFromKeepsInvariant | havo/src/optimize/const_eval.rs:908-935 | the variables stay free of `Ret` through the whole second loop of `run` |
| Evaluator.ConstEval.TryGetVar | havo/src/optimize/const_eval.rs:200-211 | computes `ConstEval.TryGetVar` and leaves the tables alone |
| Evaluator.ConstEval.EvalBinop | havo/src/optimize/const_eval.rs:214-324 | computes `ConstEval.EvalBinop` |
| Evaluator.ConstEval.TryAssign | havo/src/optimize/const_eval.rs:328-364 | updates `knownVars` as `ConstEval.TryAssign` says |
| Evaluator.ConstEval.AssignVar | havo/src/optimize/const_eval.rs:330-340 | the `Ident` arm, as `ConstEval.TryAssign` says |
| Evaluator.ConstEval.AssignField | havo/src/optimize/const_eval.rs:341-361 | the `Field` arm, as `ConstEval.TryAssign` says |
| Evaluator.ConstEval.SetFieldIn | havo/src/optimize/const_eval.rs:350-357 | the search loop yields `ConstEval.SetField` |
| Evaluator.ConstEval.EvalFields | havo/src/optimize/const_eval.rs:463-474 | the struct-literal loop computes `ConstEval.EvalFields` |
| Evaluator.ConstEval.EvalFieldArg | havo/src/optimize/const_eval.rs:465-470 | one field of the loop, and what the rest of the loop then yields |
| Evaluator.ConstEval.EvalArgs | havo/src/optimize/const_eval.rs:610-631 | the argument loop computes `ConstEval.EvalArgs`: it stops at the first unknown argument, and it panics on a known argument with no expression form |
| Evaluator.ConstEval.ArgsMatch | havo/src/optimize/const_eval.rs:533-541 | the argument check computes the intended `ConstEval.ArgsMatch` |
| Evaluator.ConstEval.SelectOverload | havo/src/optimize/const_eval.rs:527-546 | the overload loop computes `ConstEval.SelectOverload` |
| Evaluator.ConstEval.EvalCall | havo/src/optimize/const_eval.rs:547-557 | builds the parameter names and calls the selected overload, as `ConstEval.EvalCall` says |
| Evaluator.ConstEval.BindParams | havo/src/optimize/const_eval.rs:656-674 | the parameter loop computes `ConstEval.BindParams`: no bindings when an argument is unknown, and a panic when a known argument has no expression form |
| Evaluator.ConstEval.BindArg | havo/src/optimize/const_eval.rs:657-673 | one argument of the loop, and what the rest of the loop then yields, the `to_kind` panic included |
| Evaluator.ConstEval.EvalConstFn | havo/src/optimize/const_eval.rs:646-691 | saves `knownVars`, binds, runs the body, restores, as `ConstEval.EvalConstFn` says |
| Evaluator.ConstEval.RunBody | havo/src/optimize/const_eval.rs:676-680 | runs the body on the bindings alone and sets `knownVars` back to the saved table |
| Evaluator.ConstEval.Eval | havo/src/optimize/const_eval.rs:366-644 | computes `ConstEval.Eval` and leaves the tables alone |
| Evaluator.ConstEval.EvalOperator | havo/src/optimize/const_eval.rs:368-492 | the operator arms, as `ConstEval.Eval` says |
| Evaluator.ConstEval.EvalAccess | havo/src/optimize/const_eval.rs:431-644 | the remaining arms, as `ConstEval.Eval` says |
| Evaluator.ConstEval.EvalConv | havo/src/optimize/const_eval.rs:368-429 | computes `ConstEval.EvalConv` |
| Evaluator.ConstEval.EvalUnary | havo/src/optimize/const_eval.rs:436-462 | computes `ConstEval.EvalUnary` |
| Evaluator.ConstEval.EvalStruct | havo/src/optimize/const_eval.rs:463-474 | computes `ConstEval.EvalStructLit` |
| Evaluator.ConstEval.EvalField | havo/src/optimize/const_eval.rs:476-492 | computes `ConstEval.EvalField` |
| Evaluator.ConstEval.EvalAssign | havo/src/optimize/const_eval.rs:494-497 | computes `ConstEval.EvalAssign` |
| Evaluator.ConstEval.EvalIndex | havo/src/optimize/const_eval.rs:498-517 | computes `ConstEval.EvalIndex` |
| Evaluator.ConstEval.EvalCallExpr | havo/src/optimize/const_eval.rs:519-632 | computes `ConstEval.EvalCallExpr` |
| Evaluator.ConstEval.EvalStmt | havo/src/optimize/const_eval.rs:693-775 | computes `ConstEval.EvalStmt` |
| Evaluator.ConstEval.EvalExprStmt | havo/src/optimize/const_eval.rs:709-711 | an expression statement, as `ConstEval.EvalStmt` says |
| Evaluator.ConstEval.EvalReturn | havo/src/optimize/const_eval.rs:712-723 | computes `ConstEval.EvalReturn` |
| Evaluator.ConstEval.EvalVar | havo/src/optimize/const_eval.rs:724-737 | computes `ConstEval.EvalVar` |
| Evaluator.ConstEval.EvalIf | havo/src/optimize/const_eval.rs:738-756 | computes `ConstEval.EvalIf` |
| Evaluator.ConstEval.EvalWhileStmt | havo/src/optimize/const_eval.rs:758-771 | computes `ConstEval.EvalWhileStmt` |
| Evaluator.ConstEval.EvalBlock | havo/src/optimize/const_eval.rs:695-708 | the block loop computes `ConstEval.EvalBlock` |
| Evaluator.ConstEval.EvalWhile | havo/src/optimize/const_eval.rs:760-769 | the `while let` loop computes `ConstEval.EvalWhile` |
| Evaluator.ConstEval.Rewrite | havo/src/optimize/const_eval.rs:787-798 | a known value is rewritten into the tree, which panics when it has no expression form, as `ConstEval.Rewrite` says |
| Evaluator.ConstEval.EvalNormalStmt | havo/src/optimize/const_eval.rs:778-881 | the walk over a function body updates `knownVars` and panics, as `ConstEval.EvalNormalStmt` says |
| Evaluator.ConstEval.EvalNormalIf | havo/src/optimize/const_eval.rs:800-818 | the `if` arm of the walk: the condition, then both branches |
| Evaluator.ConstEval.EvalNormalBlock | havo/src/optimize/const_eval.rs:780-784 | the block loop of the walk computes `ConstEval.EvalNormalBlock` |
| Evaluator.ConstEval.OptFunc | havo/src/optimize/const_eval.rs:883-885 | walks the function's body; a function without one panics |
| Evaluator.ConstEval.Run | havo/src/optimize/const_eval.rs:887-936 | the function tables become `ConstEval.Register` of the file. The second loop then computes `ConstEval.Run`: every function that is neither external nor internal is walked in file order; each function sees the constants declared before it; `knownVars` carries over from one function to the next; the first panic stops the run. A run that ends normally leaves the constants `ConstEval.DeclareConstExprs` of the file |
| Codegen.SizeTablesAgree | havo/src/gccjit.rs:99-111 | the code generator's table agrees with the evaluator's on every integer name except `isize`, which it lacks; only it sizes `bool`, `f32` and `f64` |
| Codegen.FieldSizesAppend | havo/src/gccjit.rs:117-121 | a struct's size is the sum of its field sizes with no padding; the first failing field stops the sum |
| Codegen.StructNameSize | havo/src/gccjit.rs:114-143 | a basic name that is a structure has the same size as the struct type of that name |
| Codegen.AliasSize | havo/src/gccjit.rs:122-127 | a basic name that is an alias has the size of the aliased type |
| Codegen.SizeShapes | havo/src/gccjit.rs:92-153 | pointers, functions and unsized arrays take 8 bytes, void 0, a scalar name its table entry, and a vector or sized array its element size times the count |
| Codegen.SizeFuelMonotone | havo/src/gccjit.rs:92-153 | a size reached with some fuel is the same with more |
| Codegen.FieldSizesFuelMonotone | havo/src/gccjit.rs:117-143 | the same for a run of fields |
| Codegen.Codegen.TySize | havo/src/gccjit.rs:92-153 | computes `Codegen.Size` |
| Codegen.Codegen.StructSize | havo/src/gccjit.rs:117-121 | the field loop computes `Codegen.FieldSizes` |
| Codegen.PtrOf | havo/src/gccjit.rs:329-333 | the receiver type after `make_ptr` is a pointer |
| Codegen.CheckPositional | havo/src/gccjit.rs:364-386 | the `params_okay`/`not_found` loop accepts exactly the positional match: a prefix of equal types, with extra arguments only for a variadic candidate after a match |
| Codegen.MatchesConstPrefix | havo/src/gccjit.rs:411-470 | a constant candidate matches exactly when it has no parameters, no arguments and no receiver, or when its parameters are a prefix of the arguments (the whole list unless it is variadic) |
| Codegen.NoParamsNoArgs | havo/src/gccjit.rs:432-450 | a candidate without parameters never matches a non-empty argument list, variadic or not |
| Codegen.ExtraArgsNeedVariadic | havo/src/gccjit.rs:432-450 | more arguments than parameters match only a variadic candidate |
| Codegen.TooFewArgs | havo/src/gccjit.rs:313-315 | a candidate with more parameters than arguments is skipped |
| Codegen.ReceiverRequired | havo/src/gccjit.rs:324-326 | a candidate that takes a receiver is skipped when the call has none |
| Codegen.ReceiverAsPointer | havo/src/gccjit.rs:328-336 | a receiver and a pointer to it select the same candidates |
| Codegen.Codegen.SearchForFuncConst | havo/src/gccjit.rs:411-470 | returns the first candidate in list order that matches, and None exactly when none does |
| Codegen.Codegen.SearchForFunc | havo/src/gccjit.rs:300-408 | the same for GCC functions with receivers |
| Codegen.Linkage | havo/src/gccjit.rs:1556-1564 | external gives Extern; else static or non-public gives Internal; else inline gives AlwaysInline; else Exported |
| Codegen.Mangle | havo/src/gccjit.rs:1617-1655 | `main` is never mangled; any other name starts the mangled name |
| Codegen.TyToNForms | havo/src/gccjit.rs:1620-1644 | pointers and arrays mangle as `ptr` then their element, void as `v`, a basic type as its name |
| Codegen.ParamPieces | havo/src/gccjit.rs:1651-1653 | one mangled piece per parameter, in order |
| Codegen.MangleParts | havo/src/gccjit.rs:1645-1654 | a name other than `main` mangles as the name, then `this` and the receiver's piece if there is a receiver, then every parameter's piece in order |
| Codegen.ParamSuffixConcat | havo/src/gccjit.rs:1651-1653 | the appending loop over the parameters yields their pieces concatenated in order |
| Codegen.ParamSuffixPointwise | havo/src/gccjit.rs:1651-1653 | the parameter part depends only on each parameter's mangled type |
| Codegen.ArrayMangledAsPointer | havo/src/gccjit.rs:1627-1642 | an array parameter mangles like a pointer to its element type (`ptr`), whatever its length |
| Codegen.Codegen.MangledName | havo/src/gccjit.rs:1617-1655 | the string building computes `Codegen.Mangle` |
| Codegen.FindSame | havo/src/gccjit.rs:1679-1686 | the first overload with the same name, parameters, return type, variadic flag and receiver; None exactly when there is none |
| Codegen.Codegen.ReplaceOrAppend | havo/src/gccjit.rs:1677-1709 | a duplicate signature replaces that entry in place; otherwise the unit is appended |
| Codegen.RegisteredFound | havo/src/gccjit.rs:1614-1720 | a function that is neither external nor builtin is stamped with the current `fun_id`, is afterwards among its name's overloads, and `fun_id` grows |
| Codegen.RegisteredKeepsTable | havo/src/gccjit.rs:1677-1720 | registration keeps every overload list free of duplicate signatures and every stamped id below `fun_id` |
| Codegen.RegisteredAllKeepsTable | havo/src/gccjit.rs:1552-1726 | the same for the whole second pass |
| Codegen.RegisteredAll | havo/src/gccjit.rs:1552-1726 | the second pass changes only the `ir_temp_id` of function elements and never lowers `fun_id` |
| Codegen.Codegen.RegisterFunction | havo/src/gccjit.rs:1554-1721 | one function element, as `Codegen.Registered` says; the table keeps `Codegen.TableOk` |
| Codegen.Codegen.AddUnit | havo/src/gccjit.rs:1677-1720 | the map update and the `fun_id` increments of one registration |
| Codegen.FieldTypes | havo/src/gccjit.rs:1500-1503 | the recorded field types are the declared ones, in order |
| Codegen.FieldTypesOf | havo/src/gccjit.rs:1500-1503 | the field loop computes `Codegen.FieldTypes` |
| Codegen.FirstStructWins | havo/src/gccjit.rs:1535-1537 | the first definition of a struct name wins, recording that definition's field types |
| Codegen.StructKept | havo/src/gccjit.rs:1535-1537 | a struct already known is never replaced |
| Codegen.StructAbsent | havo/src/gccjit.rs:1495-1537 | a struct is known afterwards only if some element defines it |
| Codegen.DeclaredLinks | havo/src/gccjit.rs:1539-1541 | the first pass adds one `-l` option per link element, in file order |
| Codegen.LinkFlagsSnoc | havo/src/gccjit.rs:1539-1541 | one more element adds its `-l` option at the end if it is a link |
| Codegen.DeclaredAllAppend | havo/src/gccjit.rs:1493-1550 | the first pass over a+b is the pass over a followed by the pass over b |
| Codegen.Codegen.Declare | havo/src/gccjit.rs:1494-1549 | one element of the first pass, as `Codegen.DeclaredElem` says |
| Codegen.Codegen.GenToplevel | havo/src/gccjit.rs:1492-1726 | the first pass is `Codegen.DeclaredAll` and the second `Codegen.RegisteredAll`; the table keeps `Codegen.TableOk`; nothing else the model tracks changes (see "## Left out" for what `ty_to_ctype` adds) |
| Codegen.BlockNamesDistinct | havo/src/gccjit.rs:642-646 | different counter values give different labels |
| Codegen.Codegen.BlockNameNew | havo/src/gccjit.rs:642-646 | returns `L` with the counter in decimal and advances the counter by one, nothing else changes |
| Codegen.Codegen.constructor | havo/src/gccjit.rs:472-500 | empty tables, counters at 0, GIMPLE dumping as the context asks |
| Codegen.OutputKindOf | havo/src/gccjit.rs:1885-1893 | object file if asked, else shared library, else assembler, else executable, each exactly under its condition |
| Codegen.OutputPath | havo/src/gccjit.rs:1880-1884 | the requested name, or `a.out` when it is empty |
| Codegen.Codegen.Compile | havo/src/gccjit.rs:1841-1896 | code dumping for asm under JIT, the opt level, both passes over the file (the structures, constants, aliases and link options of the first pass, the function table of the second), then the JIT run or the file with `-lc -lm` added; the table keeps `Codegen.TableOk` |
| Driver.FromStr | havo/src/main.rs:46-54 | any failure carries the message "expected gccjit,cpp or cranelift backend" |
| Driver.FromStrIgnoresCase | havo/src/main.rs:47 | parsing is case-insensitive: an input parses as its lower-cased form does |
| Driver.ToLowerIdempotent | havo/src/main.rs:47 | lower-casing twice is lower-casing once |
| Driver.FromStrNames | havo/src/main.rs:29-39 | each name constant parses back to its backend, and `c++` parses to the C++ backend |
| Driver.FromStrAccepts | havo/src/main.rs:48-53 | an input is accepted exactly when its lower-cased form is one of the names or `c++`, and then it names the backend returned |
| Driver.LinkElems | havo/src/main.rs:152-156 | one link element per `-l` library, in command-line order |
| Driver.Configure | havo/src/main.rs:142-156 | the flags, the output name (empty when none), the opt level and GIMPLE flag are copied, and the libraries are appended as links after the parsed elements |
| Driver.CopySettings | havo/src/main.rs:143-151 | the settings are as `Driver.Configured` says and the file is untouched |
| Driver.CopyFlags | havo/src/main.rs:143-146 | the four flags are copied and nothing else changes |
| Driver.AppendLinks | havo/src/main.rs:152-156 | the link elements are appended after the existing elements; nothing else changes |
| Driver.CommandLineLinks | havo/src/main.rs:152-156 | together with the code generator: command-line libraries reach the GCC driver as `-l` options after those of the file, in order |
| Display.IntLiteralUnsigned | havo/src/syntax/ast/display.rs:20-22 | hex and binary literals are bare digits of their base (lower case, no prefix) of the 64-bit pattern and read back to the value |
| Display.IntLiteralDecimal | havo/src/syntax/ast/display.rs:23 | decimal literals read back to the value and start with `-` exactly for negatives |
| Display.CallArgsRecoverable | havo/src/syntax/ast/display.rs:49-61 | when no argument contains a comma, a call prints as the optional `recv.`, the name and `(`, then text that splits on commas back into exactly the arguments (no trailing comma), then `)` |
| Display.JoinEndsWithLast | havo/src/syntax/ast/display.rs:54-59 | the joined list ends with its last piece: no trailing separator |
| Display.JoinSnoc | havo/src/syntax/ast/display.rs:54-59 | one more piece adds a separator and the piece |
| Display.BlockOfAppend | havo/src/syntax/ast/display.rs:80-86 | the block of a+b is `{` and a newline, each statement of a then of b after a tab, then a newline, `}` and a newline |
| Display.Tabbed | havo/src/syntax/ast/display.rs:82-84 | each statement is prefixed by one tab |
| Display.VarIsOneLine | havo/src/syntax/ast/display.rs:110-119 | when its parts hold no newline, a `var` statement is one line ending in a newline |
| Display.ReturnForms | havo/src/syntax/ast/display.rs:102-108 | `return`, a space and the value, or the bare keyword when there is no value |
| Display.BinaryTokens | havo/src/syntax/ast/display.rs:42 | when no piece holds a space, the text of a binary expression splits on spaces into exactly the left operand, the operator and the right operand |
| Display.UnaryNoSpace | havo/src/syntax/ast/display.rs:43 | a unary expression is the operator immediately followed by the operand |
| Display.ElemForms | havo/src/syntax/ast/display.rs:201-214 | a link is `link`, the quoted name and a trailing space; an element without a printer prints as nothing |
| Display.ModifiersInOrder | havo/src/syntax/ast/display.rs:126-140 | the modifier words, read back by splitting on spaces, are the set ones in the fixed order pub, internal, external, constexpr, static |
| Display.ModifiersJoined | havo/src/syntax/ast/display.rs:126-140 | the modifiers are those words, each followed by one space |
| Display.ModifierWordsNoSpace | havo/src/syntax/ast/display.rs:126-140 | no modifier word contains a space |
| Display.ParamTexts | havo/src/syntax/ast/display.rs:142-147 | each parameter prints as `name: type` |
| Display.FieldLines | havo/src/syntax/ast/display.rs:159-161 | each struct field prints as a tab, `name: type` and a newline |
| Display.TokenTexts | havo/src/syntax/ast/display.rs:190-196 | each macro token prints on its own, in order |
| Display.ConcatJoin | havo/src/syntax/ast/display.rs:82-84 | appending two runs of lines prints them one after the other |
| Display.WriteJoined | havo/src/syntax/ast/display.rs:54-59 | the write loop with `i != len - 1` builds the comma-joined text |
| Display.WriteModifiers | havo/src/syntax/ast/display.rs:126-140 | the five conditional writes build `Display.Modifiers` |
| Display.WriteWord | havo/src/syntax/ast/display.rs:126-127 | one conditional write adds the word and a space when the flag is set |
| Display.WriteFunction | havo/src/syntax/ast/display.rs:124-153 | the writes build `Display.FunctionText`: modifiers, `func name(`, the parameters, `) ret `, the optional body, a newline |
| Display.WriteStruct | havo/src/syntax/ast/display.rs:156-164 | the writes build `Display.StructText` |
| Display.WriteMacro | havo/src/syntax/ast/display.rs:179-199 | the writes build `Display.MacroText` |
| Display.WriteToken | havo/src/syntax/ast/display.rs:191-195 | one token write, as `Display.TokenText` says |

The pure printers `Display.ExprText`, `Display.StmtText`, `Display.FunctionText`,
`Display.StructText`, `Display.GlobalText`, `Display.MacroText` and `Display.ElemText` model
display.rs:14-214 line for line. The lemmas and methods above are stated about them. The
functions `ConstEval.Eval`, `ConstEval.EvalStmt`, `ConstEval.FoldBinary`, `ConstEval.TySize`,
`ConstEval.EvalNormalStmt`, `ConstEval.Run` and `Codegen.Size` likewise model const_eval.rs
and gccjit.rs, with one exception: overload selection uses the corrected check (see
"## Left out"). The lemmas above are their partners.

## Left out

- GCC JIT calls: `ty_to_ctype`, creation of fields, struct, union and function handles,
  `gen_stmt`, `gen_expr`, the globals pass and body emission of `gen_toplevel`, and
  `compile_to_file`. These are a library whose source is not part of this model. Only the
  decisions they receive are modelled, for example the output kind and path, or the
  driver options.
- The JIT run in `compile` (program arguments, environment, the `transmute` to `main`). It is
  modelled only as the `RunJit` target.
- `set_name`, `set_opt_level` and its `transmute` of the level. The level is kept as a number.
- The Float arms of the constant evaluator: float arithmetic and comparisons, `Imm`/`Float`
  cross-equality, and float conversions and their suffix mapping. These are floating point.
- `replace_expr_to`, which writes the values found back into the syntax tree. The rewriting
  function is not part of this model. The walk of `eval_normal_stmt` is modelled only for its
  effect on `known_vars` and for the panics of `to_kind`. The rewrite never changes what the
  evaluator reads: `run` walks a copy of the elements, and the function tables hold copies
  made before the walk.
- The text of `to_kind`'s panic is the `{:?}` of the value. The model uses the fixed message
  `ConstEval.ToKindPanic`.
- The `if let Elem::Func` around each rewrite. While `run` walks a function, `self.id` and
  `fid` always index that function, so the rewrite and its panic are modelled unconditionally.
- `Type::is_void`, defined in `ast/mod.rs`, which is not part of this model.
  `ConstEval.OptFunc` takes it to mean that the return type is `Void`.
- ConstEval.SelectOverload, ConstEval.EvalCall, ConstEval.EvalCallExpr, ConstEval.Eval,
  Evaluator.ConstEval.ArgsMatch, Evaluator.ConstEval.SelectOverload, Evaluator.ConstEval.EvalCall,
  Evaluator.ConstEval.EvalCallExpr, Evaluator.ConstEval.Eval, Evaluator.ConstEval.EvalAccess:
  the interpreter selects overloads with the corrected check, `ConstEval.ArgsMatch`. The
  source's check looks only at the last argument; `ConstEval.SelectOverloadAsWritten` models
  it. The model is therefore weaker than the source in one way: with two or more arguments,
  the source can call an overload that the model rejects, and then reaches a different value
  or panic (`ConstEval.SelectOverloadAsWrittenDiffers`). The two selections agree on every
  call with at most one argument (`ConstEval.SelectOverloadAgreesOnShortCalls`). The written
  check accepts every candidate that the corrected one accepts
  (`ConstEval.ArgsMatchImpliesAsWritten`).
- Evaluator.ConstEval.Run: when the run panics or runs out of fuel, the contract states only
  the function tables and the outcome. It does not state the constants and variables reached
  before the stop.
- Codegen.Codegen.GenToplevel, Codegen.Codegen.Compile, Codegen.Codegen.SearchForFunc:
  `ty_to_ctype` is GCC lowering and is not modelled. `SearchForFunc` therefore changes no
  state, although the source lowers the chosen candidate's parameter types
  (gccjit.rs:350, 395). The stated `structures` are therefore those of the first pass alone. The model
  does not capture its panic on an unknown type name (gccjit.rs:201), its panics on an
  unsupported vector element, or the entry it inserts into `structures` for a `Type::Struct`
  not yet declared (gccjit.rs:215-255). The body pass is GCC emission and is not modelled either. In the source it advances
  `block_id` and `tmp_id`; the model leaves both unchanged because it stops before that pass.
- The dead `else if false` branch of the `Call` arm, with its builtins table and `transmute`.
- The write-through aliasing of `Rc<RefCell<Const>>`. Values are immutable, so the model does
  not capture this: a field assignment in the source also changes every other variable that
  shares the same struct cell.
- `return_` and `running`, fields that the evaluator sets but that nothing in the modelled
  code reads.
- Indexing an `Array` constant. No reachable code builds one. `eval` would panic on a
  non-integer index and index an array of any length without a check. The model panics,
  both for a missing element and for a non-integer index.
- `while` in a constant function evaluates its condition once, so the loop ends only when the
  body yields `None`. It is modelled under the fuel bound, which cuts off the non-ending case.
- The limits `fuel` places on the evaluator and on `ty_size`: the source recurses without
  bound through constant expressions, function bodies, structures and aliases. No bound on
  that recursion is modelled.
- ConstEval.TySize, Codegen.Size: sizes are unbounded naturals. The overflow of `usize`
  arithmetic on huge arrays is not modelled: it panics in a debug build and wraps in a release
  build (const_eval.rs:128-150, gccjit.rs:92-153). `ConstEval.Eval` wraps the size of
  `sizeof` to i64, as `size as i64` does (const_eval.rs:636).
- Codegen.Mangle: vectors and function types mangle through `Type`'s Display, which is not
  part of this model. The mangled name is stated only through a given `show` function.
- Reading and parsing files (`Reader`, `Parser`) in `main` and in `import`, the structopt command
  line, `println` and `process::exit`. They are I/O. `Havo.Context.Import` takes the parsed
  elements of the imported file as a parameter.
- Havo.Context: `opt` is a natural number rather than a `u8`. The command-line parser already bounds it, and nothing modelled does arithmetic on it.
- The global `IDGEN` lock. It is concurrency; the generator is modelled single-threaded.
- Rust's `{:?}` quoting for strings and characters, floats' `{}`, and the `Type` and `Name`
  Display implementations. The printers take them as given functions.
- Text.ToLower: Rust's `to_lowercase` is full Unicode; the model lower-cases ASCII only and
  so keeps the length, which Rust does not (`'İ'` becomes `i` followed by a combining dot).
  `Driver.FromStr` is not affected. Every backend name is ASCII. The only non-ASCII
  characters whose lower case contains ASCII are the Kelvin sign, which gives `k`, and `'İ'`,
  whose lower case keeps a non-ASCII dot. No backend name contains `k`, so no input is
  accepted by one lower-casing and rejected by the other.

## Findings

| source | as written | input that shows it | evidently intended | confidence | as-written member | corrected member |
|---|---|---|---|---|---|---|
| havo/src/optimize/const_eval.rs:86-90 | `fields_ok` is overwritten at every zipped pair, so only the last pair is compared, names are compared only when both structs have no fields, and `zip` ignores extra fields | a constant function returning the literal `S { x: v, y: 2 }`, called once with `v = 1` and once with `v = 9`: the two values compare equal, because the last fields agree in name, value and NodeId (the id of the value expression `2`) | structs equal when names match and all fields pairwise equal | medium, not executed | ConstEval.StructEqAsWrittenIgnoresAllButLast | ConstEval.FieldsEqPointwise |
| havo/src/optimize/const_eval.rs:537-540 | `params_match` is overwritten for every argument, so only the last argument's type decides which overload is called | arguments of types `i64, i32` select an overload `(i32, i32)` | an overload is selected only when every argument has its parameter's type | high, not executed | ConstEval.ArgsMatchAsWrittenLastOnly | ConstEval.ArgsMatchSpec |
