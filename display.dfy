/**
 * The pretty-printer of the Havo syntax tree. The layout of every form is modelled exactly;
 * the Display of types, Rust's debug quoting of strings and characters, and the printing of
 * floats are taken as given functions.
 */
module Display {
  import opened Wrappers
  import opened Int64
  import opened Text
  import opened Ast

  /** The printers this one relies on: `Type`'s Display, `{:?}` on strings and chars, `{}` on f64. */
  datatype Shows = Shows(ty: Type -> string, str: string -> string, chr: char -> string, float: bv64 -> string)

  // ---------------------------------------------------------------------------------------
  // Layout helpers: each takes the already printed pieces
  // ---------------------------------------------------------------------------------------

  /** An integer literal: lower-case hex or binary of the 64-bit pattern without prefix, or signed decimal. */
  function IntLiteral(v: I64, base: IntBase): string
  {
    match base
    case Hex => NatText(ToUnsigned(v), 16)
    case Bin => NatText(ToUnsigned(v), 2)
    case Dec => IntText(v)
  }

  /** A call: an optional `receiver.`, the name, and the arguments between parentheses separated by commas. */
  function CallOf(receiver: Option<string>, callee: Name, args: seq<string>): string
  {
    (if receiver.Some? then receiver.value + "." else "") + callee + "(" + Join(args, ',') + ")"
  }

  /** A block: `{`, a newline, each statement after a tab, a newline, `}` and a newline. */
  function BlockOf(stmts: seq<string>): string
  {
    "{\n" + Concat(Tabbed(stmts)) + "\n}\n"
  }

  function Tabbed(lines: seq<string>): (r: seq<string>)
    ensures |r| == |lines| && forall i :: 0 <= i < |lines| ==> r[i] == "\t" + lines[i]
  {
    seq(|lines|, i requires 0 <= i < |lines| => "\t" + lines[i])
  }

  /** A `var` statement: the name, an optional `: type`, an optional ` = init`, a newline. */
  function VarOf(name: Name, ty: Option<string>, init: Option<string>): string
  {
    "var " + name + (if ty.Some? then ": " + ty.value else "") + (if init.Some? then " = " + init.value else "") + "\n"
  }

  /** ws, followed by w when the flag is set. */
  function AddWord(ws: seq<string>, flag: bool, w: string): seq<string>
  {
    if flag then ws + [w] else ws
  }

  /** The modifiers a function prints, as words, in their fixed order. */
  function ModifierWords(f: Function): seq<string>
  {
    AddWord(AddWord(AddWord(AddWord(AddWord([], f.public, "pub"), f.internal, "internal"),
      f.external, "external"), f.constant, "constexpr"), f.isStatic, "static")
  }

  /** A modifier as printed: the word and a space, when the flag is set. */
  function Word(flag: bool, w: string): string
  {
    if flag then w + " " else ""
  }

  /** The printed modifiers of a function. */
  function Modifiers(f: Function): string
  {
    Word(f.public, "pub") + Word(f.internal, "internal") + Word(f.external, "external")
    + Word(f.constant, "constexpr") + Word(f.isStatic, "static")
  }

  function ParamTexts(sh: Shows, params: seq<Param>): (r: seq<string>)
    ensures |r| == |params| && forall i :: 0 <= i < |params| ==> r[i] == params[i].name + ": " + sh.ty(params[i].ty)
  {
    seq(|params|, i requires 0 <= i < |params| => params[i].name + ": " + sh.ty(params[i].ty))
  }

  function FieldLines(sh: Shows, fields: seq<StructField>): (r: seq<string>)
    ensures |r| == |fields| && forall i :: 0 <= i < |fields| ==> r[i] == "\t" + fields[i].name + ": " + sh.ty(fields[i].dataType) + "\n"
  {
    seq(|fields|, i requires 0 <= i < |fields| => "\t" + fields[i].name + ": " + sh.ty(fields[i].dataType) + "\n")
  }

  function TokenText(t: MacroToken): string
  {
    match t
    case Tok(name) => "   " + name
    case MacroVar(v) => "   $" + v
    case VarArgs => "..."
  }

  function TokenTexts(body: seq<MacroToken>): (r: seq<string>)
    ensures |r| == |body| && forall i :: 0 <= i < |body| ==> r[i] == TokenText(body[i])
  {
    seq(|body|, i requires 0 <= i < |body| => TokenText(body[i]))
  }

  // ---------------------------------------------------------------------------------------
  // The printers
  // ---------------------------------------------------------------------------------------

  /** `Display for ExprKind`. */
  function ExprText(sh: Shows, e: Expr): string
    decreases e
  {
    match e.kind
    case MacroCall(name) => name + "!()"
    case CompTime(inner) => "constexpr " + ExprText(sh, inner)
    case New(inner) => "new " + ExprText(sh, inner)
    case Int(v, base, _) => IntLiteral(v, base)
    case Float(bits, _) => sh.float(bits)
    case Field(obj, field) => ExprText(sh, obj) + "." + field
    case Conv(operand, to) => ExprText(sh, operand) + " as " + sh.ty(to)
    case Deref(pointer) => "*" + ExprText(sh, pointer)
    case AddressOf(place) => "&" + ExprText(sh, place)
    case Assign(target, source) => ExprText(sh, target) + " = " + ExprText(sh, source)
    case Bool(b) => if b then "true" else "false"
    case Null => "null"
    case Ident(name) => name
    case Str(s) => sh.str(s)
    case StructLit(path, fieldArgs) =>
      path + " {\n"
      + Concat(seq(|fieldArgs|, i requires 0 <= i < |fieldArgs| =>
          "\t    " + fieldArgs[i].name + ": " + ExprText(sh, fieldArgs[i].expr) + "\n"))
      + "\n \t}"
    case Binary(op, lhs, rhs) => ExprText(sh, lhs) + " " + op + " " + ExprText(sh, rhs)
    case Unary(op, operand) => op + ExprText(sh, operand)
    case SizeOf(ty) => "sizeof(" + sh.ty(ty) + ")"
    case GetFunc(name) => "func &" + name
    case Char(c) => sh.chr(c)
    case ArrayIdx(indexed, index) => ExprText(sh, indexed) + "[" + ExprText(sh, index) + "]"
    case ArrayLit => "unimplemented"
    case Call(callee, receiver, args) =>
      CallOf(if receiver.Some? then Some(ExprText(sh, receiver.value)) else None, callee,
             seq(|args|, i requires 0 <= i < |args| => ExprText(sh, args[i])))
  }

  /** `Display for StmtKind`. */
  function StmtText(sh: Shows, s: Stmt): string
    decreases s
  {
    match s
    case CFor(forInit, cond, step, body) =>
      "for " + StmtText(sh, forInit) + " " + ExprText(sh, cond) + " " + ExprText(sh, step) + " " + StmtText(sh, body)
    case Continue => "continue"
    case Break => "break"
    case Block(stmts) => BlockOf(seq(|stmts|, i requires 0 <= i < |stmts| => StmtText(sh, stmts[i])))
    case ExprStmt(e) => ExprText(sh, e) + "\n"
    case If(cond, thenBody, elseBody) =>
      "if " + ExprText(sh, cond) + " {\n" + "\t\t" + StmtText(sh, thenBody) + "}"
      + (if elseBody.Some? then " else " + " \t" + StmtText(sh, elseBody.value) + " \n" + "}\n" else "")
      + "\n"
    case CompTimeStmt(inner) => "constexpr " + StmtText(sh, inner)
    case While(cond, body) => "while " + ExprText(sh, cond) + " \n {\n " + StmtText(sh, body) + " \n}"
    case Loop(body) => "{\n" + StmtText(sh, body) + "\n}"
    case Return(value) => if value.Some? then "return " + ExprText(sh, value.value) else "return"
    case Var(name, ty, init) =>
      VarOf(name, if ty.Some? then Some(sh.ty(ty.value)) else None,
            if init.Some? then Some(ExprText(sh, init.value)) else None)
  }

  /** `Display for Function`. */
  function FunctionText(sh: Shows, f: Function): string
  {
    Modifiers(f) + "func " + f.name + "(" + Join(ParamTexts(sh, f.params), ',') + ") " + sh.ty(f.ret) + " "
    + (if f.body.Some? then StmtText(sh, f.body.value) else "") + "\n"
  }

  /** `Display for Struct`. */
  function StructText(sh: Shows, s: StructDecl): string
  {
    "struct " + s.name + " {\n" + Concat(FieldLines(sh, s.fields)) + "}\n"
  }

  /** `Display for Global`. */
  function GlobalText(sh: Shows, g: Global): string
  {
    (if g.external then "external " else "") + "var " + g.name + ": " + sh.ty(g.typ)
    + (if g.expr.Some? then " = " + ExprText(sh, g.expr.value) else "") + "\n"
  }

  /** `Display for Macro`. */
  function MacroText(m: Macro): string
  {
    "macro " + m.name + "!(" + Join(m.args, ',') + ") " + "{\n" + Concat(TokenTexts(m.body)) + "\n}"
  }

  /** `Display for Elem`; a plain constant prints as nothing. */
  function ElemText(sh: Shows, e: Elem): string
  {
    match e
    case FuncDef(func) => FunctionText(sh, func)
    case StructDef(def) => StructText(sh, def)
    case Import(path) => "import " + path
    case Alias(aliasName, aliased) => "alias " + aliasName + " = " + sh.ty(aliased)
    case ConstExpr(constName, value) => "constexpr " + constName + " = " + ExprText(sh, value)
    case GlobalDef(global) => GlobalText(sh, global)
    case Link(lib) => "link \"" + lib + "\" "
    case MacroDef(mac) => MacroText(mac)
    case ConstDef(_) => ""
  }

  // ---------------------------------------------------------------------------------------
  // Properties of the layout
  // ---------------------------------------------------------------------------------------

  /** Hex and binary literals are bare lower-case digits of the 64-bit pattern and read back to the value. */
  lemma IntLiteralUnsigned(v: I64, base: IntBase)
    requires base != Dec
    ensures var b := if base == Hex then 16 else 2;
      (forall i :: 0 <= i < |IntLiteral(v, base)| ==> IsDigit(IntLiteral(v, base)[i], b))
      && ParseNat(IntLiteral(v, base), b) == ToUnsigned(v)
      && ParseNat(IntLiteral(v, base), b) < Two64 && FromUnsigned(ParseNat(IntLiteral(v, base), b)) == v
  {
    var b := if base == Hex then 16 else 2;
    NatTextDigits(ToUnsigned(v), b);
    NatTextRoundTrip(ToUnsigned(v), b);
    UnsignedRoundTrip(v);
  }

  /** A decimal literal reads back to the value, with a leading `-` exactly when it is negative. */
  lemma IntLiteralDecimal(v: I64)
    ensures ParseInt(IntLiteral(v, Dec)) == v
    ensures IntLiteral(v, Dec)[0] == '-' <==> v < 0
  {
    IntTextRoundTrip(v);
    if v >= 0 {
      NatTextDigits(v, 10);
    }
  }

  lemma {:induction false} JoinSnoc(parts: seq<string>, p: string, sep: char)
    ensures Join(parts + [p], sep) == if parts == [] then p else Join(parts, sep) + [sep] + p
  {
    if |parts| == 1 {
      assert (parts + [p])[1..] == [p];
    } else if |parts| > 1 {
      assert (parts + [p])[1..] == parts[1..] + [p];
      JoinSnoc(parts[1..], p, sep);
    }
  }

  /** The joined pieces end with the last one: there is no trailing separator. */
  lemma JoinEndsWithLast(parts: seq<string>, sep: char)
    requires |parts| >= 1
    ensures var j := Join(parts, sep); var last := parts[|parts| - 1];
      |last| <= |j| && j[|j| - |last|..] == last
  {
    var init := parts[..|parts| - 1];
    JoinSnoc(init, parts[|parts| - 1], sep);
    assert init + [parts[|parts| - 1]] == parts;
  }

  /**
   * A call with at least one argument can be read back: between the parentheses, splitting on
   * commas gives the printed arguments, provided none of them contains a comma.
   */
  lemma CallArgsRecoverable(receiver: Option<string>, callee: Name, args: seq<string>)
    requires |args| >= 1 && forall k :: 0 <= k < |args| ==> ',' !in args[k]
    ensures var text := CallOf(receiver, callee, args);
      var head := (if receiver.Some? then receiver.value + "." else "") + callee + "(";
      |head| < |text| && text[..|head|] == head && text[|text| - 1] == ')'
      && Split(text[|head|..|text| - 1], ',') == args
  {
    var head := (if receiver.Some? then receiver.value + "." else "") + callee + "(";
    var text := CallOf(receiver, callee, args);
    assert text == head + Join(args, ',') + ")";
    assert text[|head|..|text| - 1] == Join(args, ',');
    SplitJoin(args, ',');
  }

  lemma {:induction false} ConcatJoin(a: seq<string>, b: seq<string>)
    ensures Concat(a + b) == Concat(a) + Concat(b)
  {
    if a == [] {
      assert a + b == b;
    } else {
      assert (a + b)[1..] == a[1..] + b;
      ConcatJoin(a[1..], b);
    }
  }

  /** Two blocks' statements printed together are the two inner texts placed one after the other. */
  lemma BlockOfAppend(a: seq<string>, b: seq<string>)
    ensures BlockOf(a + b) == "{\n" + Concat(Tabbed(a)) + Concat(Tabbed(b)) + "\n}\n"
  {
    assert Tabbed(a + b) == Tabbed(a) + Tabbed(b);
    ConcatJoin(Tabbed(a), Tabbed(b));
  }

  lemma AddWordJoined(ws: seq<string>, flag: bool, w: string)
    ensures Join(AddWord(ws, flag, w) + [""], ' ') == Join(ws + [""], ' ') + Word(flag, w)
  {
    if flag {
      JoinSnoc(ws + [w], "", ' ');
      JoinSnoc(ws, w, ' ');
      JoinSnoc(ws, "", ' ');
    }
  }

  lemma AddWordNoSpace(ws: seq<string>, flag: bool, w: string)
    requires ' ' !in w && forall k :: 0 <= k < |ws| ==> ' ' !in ws[k]
    ensures forall k :: 0 <= k < |AddWord(ws, flag, w)| ==> ' ' !in AddWord(ws, flag, w)[k]
  {
  }

  /** The modifiers are the selected words, in the order pub, internal, external, constexpr, static, each followed by a space. */
  lemma ModifiersJoined(f: Function)
    ensures Modifiers(f) == Join(ModifierWords(f) + [""], ' ')
  {
    var w1 := AddWord([], f.public, "pub");
    var w2 := AddWord(w1, f.internal, "internal");
    var w3 := AddWord(w2, f.external, "external");
    var w4 := AddWord(w3, f.constant, "constexpr");
    assert Join([] + [""], ' ') == "";
    AddWordJoined([], f.public, "pub");
    AddWordJoined(w1, f.internal, "internal");
    AddWordJoined(w2, f.external, "external");
    AddWordJoined(w3, f.constant, "constexpr");
    AddWordJoined(w4, f.isStatic, "static");
  }

  /** No modifier word holds a space. */
  lemma ModifierWordsNoSpace(f: Function)
    ensures forall k :: 0 <= k < |ModifierWords(f)| ==> ' ' !in ModifierWords(f)[k]
  {
    var w1 := AddWord([], f.public, "pub");
    var w2 := AddWord(w1, f.internal, "internal");
    var w3 := AddWord(w2, f.external, "external");
    var w4 := AddWord(w3, f.constant, "constexpr");
    AddWordNoSpace([], f.public, "pub");
    AddWordNoSpace(w1, f.internal, "internal");
    AddWordNoSpace(w2, f.external, "external");
    AddWordNoSpace(w3, f.constant, "constexpr");
    AddWordNoSpace(w4, f.isStatic, "static");
  }

  /** Splitting the printed modifiers at spaces gives back the words, then the empty tail. */
  lemma ModifiersInOrder(f: Function)
    ensures Split(Modifiers(f), ' ') == ModifierWords(f) + [""]
  {
    ModifiersJoined(f);
    ModifierWordsNoSpace(f);
    var ws := ModifierWords(f) + [""];
    forall k | 0 <= k < |ws|
      ensures ' ' !in ws[k]
    {
      if k < |ModifierWords(f)| {
        assert ws[k] == ModifierWords(f)[k];
      }
    }
    SplitJoin(ws, ' ');
  }

  /** A `var` statement is one line: the only newline is the last character. */
  lemma VarIsOneLine(name: Name, ty: Option<string>, init: Option<string>)
    requires '\n' !in name
    requires ty.Some? ==> '\n' !in ty.value
    requires init.Some? ==> '\n' !in init.value
    ensures var t := VarOf(name, ty, init); t[|t| - 1] == '\n' && '\n' !in t[..|t| - 1]
  {
    var t := VarOf(name, ty, init);
    var body := "var " + name + (if ty.Some? then ": " + ty.value else "") + (if init.Some? then " = " + init.value else "");
    assert t == body + "\n";
    assert t[..|t| - 1] == body;
  }

  /**
   * A binary expression prints its operands and operator separated by single spaces: when none
   * of the three pieces holds a space, splitting the text on spaces gives back exactly them.
   */
  lemma BinaryTokens(sh: Shows, id: NodeId, op: string, lhs: Expr, rhs: Expr)
    requires ' ' !in ExprText(sh, lhs) && ' ' !in op && ' ' !in ExprText(sh, rhs)
    ensures Split(ExprText(sh, Expr(id, Binary(op, lhs, rhs))), ' ') == [ExprText(sh, lhs), op, ExprText(sh, rhs)]
  {
    var parts := [ExprText(sh, lhs), op, ExprText(sh, rhs)];
    assert Join(parts[2..], ' ') == parts[2];
    assert Join(parts, ' ') == ExprText(sh, Expr(id, Binary(op, lhs, rhs)));
    SplitJoin(parts, ' ');
  }

  /** A unary expression is its operator immediately followed by the operand, with no space. */
  lemma UnaryNoSpace(sh: Shows, id: NodeId, op: string, operand: Expr)
    ensures var t := ExprText(sh, Expr(id, Unary(op, operand)));
      |t| == |op| + |ExprText(sh, operand)| && t[..|op|] == op && t[|op|..] == ExprText(sh, operand)
  {
  }

  /** `return e` is the keyword, one space and the value; a bare `return` is the keyword alone. */
  lemma ReturnForms(sh: Shows, value: Option<Expr>)
    ensures var t := StmtText(sh, Return(value));
      if value.Some? then |t| >= 7 && t[..7] == "return " && t[7..] == ExprText(sh, value.value)
      else t == "return"
  {
  }

  /** A link prints as `link`, the quoted library name and a trailing space; a plain constant prints as nothing. */
  lemma ElemForms(sh: Shows, lib: string, c: ConstDecl)
    ensures var t := ElemText(sh, Link(lib));
      |t| == |lib| + 8 && t[..6] == "link \"" && t[6..|t| - 2] == lib && t[|t| - 2..] == "\" "
    ensures ElemText(sh, ConstDef(c)) == ""
  {
  }

  // ---------------------------------------------------------------------------------------
  // The printing loops
  // ---------------------------------------------------------------------------------------

  /** The loop that writes a list with `,` after every item but the last. */
  method WriteJoined(parts: seq<string>) returns (out: string)
    ensures out == Join(parts, ',')
  {
    out := "";
    var i := 0;
    while i < |parts|
      invariant 0 <= i <= |parts|
      invariant out == if i == 0 then "" else Join(parts[..i], ',') + (if i < |parts| then [','] else [])
    {
      JoinSnoc(parts[..i], parts[i], ',');
      assert parts[..i + 1] == parts[..i] + [parts[i]];
      out := out + parts[i];
      if i != |parts| - 1 {
        out := out + ",";
      }
      i := i + 1;
    }
    assert i == 0 ==> parts == [];
    assert parts[..i] == parts;
  }

  /** The modifier writes at the start of `Display for Function`. */
  method WriteModifiers(f: Function) returns (out: string)
    ensures out == Modifiers(f)
  {
    out := WriteWord("", f.public, "pub");
    assert out == Word(f.public, "pub");
    out := WriteWord(out, f.internal, "internal");
    out := WriteWord(out, f.external, "external");
    out := WriteWord(out, f.constant, "constexpr");
    out := WriteWord(out, f.isStatic, "static");
  }

  /** One modifier write: the word and a space, when its flag is set. */
  method WriteWord(out: string, flag: bool, w: string) returns (r: string)
    ensures r == out + Word(flag, w)
  {
    r := out;
    if flag {
      r := r + w + " ";
    }
  }

  /** `Display for Function`, written step by step. */
  method WriteFunction(sh: Shows, f: Function) returns (out: string)
    ensures out == FunctionText(sh, f)
  {
    out := WriteModifiers(f);
    out := out + "func " + f.name + "(";
    var params := WriteJoined(ParamTexts(sh, f.params));
    out := out + params;
    out := out + ") " + sh.ty(f.ret) + " ";
    if f.body.Some? {
      out := out + StmtText(sh, f.body.value);
    }
    out := out + "\n";
  }

  /** `Display for Struct`, written field by field. */
  method WriteStruct(sh: Shows, s: StructDecl) returns (out: string)
    ensures out == StructText(sh, s)
  {
    out := "struct " + s.name + " {\n";
    var i := 0;
    while i < |s.fields|
      invariant 0 <= i <= |s.fields|
      invariant out == "struct " + s.name + " {\n" + Concat(FieldLines(sh, s.fields[..i]))
    {
      assert FieldLines(sh, s.fields[..i + 1]) == FieldLines(sh, s.fields[..i]) + [FieldLines(sh, s.fields)[i]];
      ConcatAppend(FieldLines(sh, s.fields[..i]), FieldLines(sh, s.fields)[i]);
      var line := "\t" + s.fields[i].name + ": " + sh.ty(s.fields[i].dataType) + "\n";
      out := out + line;
      i := i + 1;
    }
    assert s.fields[..i] == s.fields;
    out := out + "}\n";
  }

  /** `Display for Macro`: the argument loop, then the token loop. */
  method WriteMacro(m: Macro) returns (out: string)
    ensures out == MacroText(m)
  {
    var args := WriteJoined(m.args);
    var body := "";
    var i := 0;
    while i < |m.body|
      invariant 0 <= i <= |m.body|
      invariant body == Concat(TokenTexts(m.body[..i]))
    {
      assert TokenTexts(m.body[..i + 1]) == TokenTexts(m.body[..i]) + [TokenText(m.body[i])];
      ConcatAppend(TokenTexts(m.body[..i]), TokenText(m.body[i]));
      var tok := WriteToken(m.body[i]);
      body := body + tok;
      i := i + 1;
    }
    assert m.body[..i] == m.body;
    out := "macro " + m.name + "!(" + args + ") " + "{\n" + body + "\n}";
  }

  /** The token write of the `Display for Macro` loop. */
  method WriteToken(t: MacroToken) returns (out: string)
    ensures out == TokenText(t)
  {
    match t {
      case Tok(name) => out := "   " + name;
      case MacroVar(v) => out := "   $" + v;
      case VarArgs => out := "...";
    }
  }
}
