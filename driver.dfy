/**
 * The command-line driver: the backend names and their case-insensitive parser, and how the
 * parsed options are copied into the compilation context.
 */
module Driver {
  import opened Wrappers
  import opened Text
  import opened Ast
  import Havo
  import Codegen

  datatype Backend = GccJit | Cpp | CraneLift

  /** `Backend::gccjit()`, `Backend::cpp()` and `Backend::cranelift()`. */
  const GccJitName := "gccjit"
  const CppName := "cpp"
  const CraneLiftName := "cranelift"

  const BackendError := "expected gccjit,cpp or cranelift backend"

  /** The name constant of each backend. */
  function Name(b: Backend): string
  {
    match b
    case GccJit => GccJitName
    case Cpp => CppName
    case CraneLift => CraneLiftName
  }

  /** `Backend::from_str`: the lower-cased input must be one of the names, or `c++`. */
  function FromStr(s: string): (r: Result<Backend, string>)
    ensures r.Err? ==> r.error == BackendError
  {
    var t := ToLower(s);
    if t == "gccjit" then Ok(GccJit)
    else if t == "cranelift" then Ok(CraneLift)
    else if t == "cpp" || t == "c++" then Ok(Cpp)
    else Err(BackendError)
  }

  lemma LowerCharIdempotent(c: char)
    ensures LowerChar(LowerChar(c)) == LowerChar(c)
  {
  }

  /** Lower-casing twice is lower-casing once. */
  lemma ToLowerIdempotent(s: string)
    ensures ToLower(ToLower(s)) == ToLower(s)
  {
    forall i | 0 <= i < |s|
      ensures ToLower(ToLower(s))[i] == ToLower(s)[i]
    {
      LowerCharIdempotent(s[i]);
    }
  }

  /** Parsing ignores case: an input parses as its lower-cased form does. */
  lemma FromStrIgnoresCase(s: string)
    ensures FromStr(ToLower(s)) == FromStr(s)
  {
    ToLowerIdempotent(s);
  }

  /** A string with no capital letters is its own lower-cased form. */
  lemma ToLowerOfLower(s: string)
    requires forall i :: 0 <= i < |s| ==> !('A' <= s[i] <= 'Z')
    ensures ToLower(s) == s
  {
  }

  /** Each name constant parses back to its backend, and so does `c++`. */
  lemma FromStrNames(b: Backend)
    ensures FromStr(Name(b)) == Ok(b)
    ensures FromStr("c++") == Ok(Cpp)
  {
    ToLowerOfLower(Name(b));
    ToLowerOfLower("c++");
  }

  /** The accepted inputs are exactly those whose lower-cased form is a name or `c++`. */
  lemma FromStrAccepts(s: string)
    ensures FromStr(s).Ok? <==> ToLower(s) in {GccJitName, CppName, CraneLiftName, "c++"}
    ensures FromStr(s).Ok? ==> ToLower(s) == Name(FromStr(s).value) || ToLower(s) == "c++"
  {
  }

  /** The command-line options that reach the context. */
  datatype Options = Options(
    file: string,
    optLevel: nat,
    jit: bool,
    emitObj: bool,
    emitAsm: bool,
    output: Option<string>,
    shared: bool,
    emitGimple: bool,
    backend: Backend,
    librariesLink: seq<string>,
    gccOpts: seq<string>,
    constEval: bool,
    printAst: bool,
    aggressiveEval: bool)

  /** The `-l` libraries as link elements, in command-line order. */
  function LinkElems(libs: seq<string>): (r: seq<Elem>)
    ensures |r| == |libs| && forall i :: 0 <= i < |libs| ==> r[i] == Link(libs[i])
  {
    seq(|libs|, i requires 0 <= i < |libs| => Link(libs[i]))
  }

  /**
   * The settings `main` copies into the context: the flags, the output name (empty when none
   * was given) and the optimisation level; the type table and the collected nodes stay.
   */
  function Configured(r: Havo.ContextRest, opts: Options): Havo.ContextRest
  {
    r.(shared := opts.shared, emitAsm := opts.emitAsm, emitObj := opts.emitObj, jit := opts.jit,
       output := if opts.output.Some? then opts.output.value else "", opt := opts.optLevel, gimple := opts.emitGimple)
  }

  /**
   * What `main` does to a freshly created context before the semantic check: copies the flags,
   * the output name (empty when none was given) and the optimisation level, and appends every
   * `-l` library as a link element after the parsed elements.
   */
  method Configure(ctx: Havo.Context, opts: Options)
    modifies ctx
    ensures ctx.Rest() == Configured(old(ctx.Rest()), opts)
    ensures ctx.file == old(ctx.file).(elems := old(ctx.file.elems) + LinkElems(opts.librariesLink))
  {
    CopySettings(ctx, opts);
    AppendLinks(ctx, opts.librariesLink);
  }

  /** The assignments of the flags, the output name and the optimisation level. */
  method CopySettings(ctx: Havo.Context, opts: Options)
    modifies ctx
    ensures ctx.Rest() == Configured(old(ctx.Rest()), opts)
    ensures ctx.file == old(ctx.file)
  {
    CopyFlags(ctx, opts);
    ctx.output := if opts.output.Some? then opts.output.value else "";
    ctx.opt := opts.optLevel;
    ctx.gimple := opts.emitGimple;
  }

  /** The output flags and the JIT switch. */
  method CopyFlags(ctx: Havo.Context, opts: Options)
    modifies ctx
    ensures ctx.Rest() == old(ctx.Rest()).(shared := opts.shared, emitAsm := opts.emitAsm, emitObj := opts.emitObj, jit := opts.jit)
    ensures ctx.file == old(ctx.file)
  {
    ctx.shared := opts.shared;
    ctx.emitAsm := opts.emitAsm;
    ctx.emitObj := opts.emitObj;
    ctx.jit := opts.jit;
  }

  /** The `extend` of the file's elements with one link element per library. */
  method AppendLinks(ctx: Havo.Context, libs: seq<string>)
    modifies ctx
    ensures ctx.file == old(ctx.file).(elems := old(ctx.file.elems) + LinkElems(libs))
    ensures ctx.Rest() == old(ctx.Rest())
  {
    ghost var start := ctx.file;
    var i := 0;
    while i < |libs|
      invariant 0 <= i <= |libs|
      invariant ctx.file == start.(elems := start.elems + LinkElems(libs[..i]))
      invariant ctx.Rest() == old(ctx.Rest())
    {
      assert LinkElems(libs[..i + 1]) == LinkElems(libs[..i]) + [Link(libs[i])];
      ctx.file := ctx.file.(elems := ctx.file.elems + [Link(libs[i])]);
      i := i + 1;
    }
    assert libs[..i] == libs;
  }

  /** The `-l` options the code generator derives from a list of libraries. */
  function LibFlags(libs: seq<string>): (flags: seq<string>)
    ensures |flags| == |libs| && forall i :: 0 <= i < |libs| ==> flags[i] == "-l" + libs[i]
  {
    seq(|libs|, i requires 0 <= i < |libs| => "-l" + libs[i])
  }

  /** Command-line libraries reach the GCC driver as `-l` options after those of the file, in order. */
  lemma {:induction false} CommandLineLinks(elems: seq<Elem>, libs: seq<string>)
    ensures Codegen.LinkFlags(elems + LinkElems(libs)) == Codegen.LinkFlags(elems) + LibFlags(libs)
    decreases |libs|
  {
    if libs == [] {
      assert elems + LinkElems(libs) == elems;
    } else {
      var init := libs[..|libs| - 1];
      var last := libs[|libs| - 1];
      CommandLineLinks(elems, init);
      assert LinkElems(libs) == LinkElems(init) + [Link(last)];
      assert elems + LinkElems(libs) == (elems + LinkElems(init)) + [Link(last)];
      Codegen.LinkFlagsSnoc(elems + LinkElems(init), Link(last));
      assert LibFlags(libs) == LibFlags(init) + ["-l" + last];
    }
  }
}
