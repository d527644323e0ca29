/**
 * The crate root of the Havo compiler: the node-id counter, the compilation context with its
 * defaults, and the import step that pulls the exported elements of another file into the
 * current one.
 */
module Havo {
  import opened Wrappers
  import opened Ast

  /**
   * The counter behind `gen_id`. The ids it has handed out are kept in a ghost field so that
   * their distinctness can be stated as an invariant.
   */
  class NodeIdGenerator {
    var value: nat
    ghost var issued: seq<NodeId>

    /** Every id handed out is below the next one, and they were handed out in increasing order. */
    ghost predicate Valid()
      reads this
    {
      1 <= value
      && (forall i :: 0 <= i < |issued| ==> 1 <= issued[i] < value)
      && (forall i, j :: 0 <= i < j < |issued| ==> issued[i] < issued[j])
    }

    /** A fresh generator starts at 1. */
    constructor ()
      ensures Valid()
      ensures value == 1
      ensures issued == []
    {
      value := 1;
      issued := [];
    }

    /** Hands out the current value and moves on to the next one. */
    method Next() returns (id: NodeId)
      requires Valid()
      modifies this
      ensures Valid()
      ensures id == old(value)
      ensures value == old(value) + 1
      ensures issued == old(issued) + [id]
      ensures forall i :: 0 <= i < |old(issued)| ==> old(issued)[i] < id
    {
      id := value;
      value := value + 1;
      issued := issued + [id];
    }
  }

  /** The path an `import` reads: the path itself, or the file's root directory joined with it. */
  function ImportPath(root: string, path: string): (p: string)
    ensures root == "" ==> p == path
    ensures root != "" ==> (|p| == |root| + 1 + |path| && p[..|root|] == root
      && p[|root|] == '/' && p[|root| + 1..] == path)
  {
    if root == "" then path else root + "/" + path
  }

  /** The elements another file exports: public non-static functions, public structs and consts, and links. */
  predicate Exported(e: Elem)
  {
    match e
    case FuncDef(f) => f.public && !f.isStatic
    case StructDef(s) => s.public
    case ConstDef(c) => c.public
    case Link(_) => true
    case _ => false
  }

  /** The exported elements of a file, in the order they appear. */
  function ExportFilter(elems: seq<Elem>): (r: seq<Elem>)
    ensures |r| <= |elems|
    ensures forall k :: 0 <= k < |r| ==> Exported(r[k]) && r[k] in elems
  {
    if elems == [] then []
    else (if Exported(elems[0]) then [elems[0]] else []) + ExportFilter(elems[1..])
  }

  /** Filtering distributes over concatenation: the kept elements stay in source order. */
  lemma {:induction false} ExportFilterAppend(a: seq<Elem>, b: seq<Elem>)
    ensures ExportFilter(a + b) == ExportFilter(a) + ExportFilter(b)
  {
    if a == [] {
      assert a + b == b;
    } else {
      assert (a + b)[0] == a[0];
      assert (a + b)[1..] == a[1..] + b;
      ExportFilterAppend(a[1..], b);
    }
  }

  /** Filtering one more element. */
  lemma ExportFilterSnoc(a: seq<Elem>, e: Elem)
    ensures ExportFilter(a + [e]) == ExportFilter(a) + (if Exported(e) then [e] else [])
  {
    ExportFilterAppend(a, [e]);
    assert [e][1..] == [];
  }

  /** An element survives the filter exactly when it is exported. */
  lemma {:induction false} ExportFilterKeeps(elems: seq<Elem>, e: Elem)
    ensures e in ExportFilter(elems) <==> e in elems && Exported(e)
  {
    if elems != [] {
      ExportFilterKeeps(elems[1..], e);
      assert elems == [elems[0]] + elems[1..];
    }
  }

  /** The elements that the imports of `elems` pull in, where `load` gives each file's elements. */
  function Imported(root: string, elems: seq<Elem>, load: string -> seq<Elem>): seq<Elem>
  {
    if elems == [] then []
    else
      var last := elems[|elems| - 1];
      Imported(root, elems[..|elems| - 1], load)
        + (if last.Import? then ExportFilter(load(ImportPath(root, last.path))) else [])
  }

  /** Importing only adds exported elements, and pulls in nothing when there is no import. */
  lemma {:induction false} ImportedExported(root: string, elems: seq<Elem>, load: string -> seq<Elem>)
    ensures forall k :: 0 <= k < |Imported(root, elems, load)| ==> Exported(Imported(root, elems, load)[k])
    ensures (forall k :: 0 <= k < |elems| ==> !elems[k].Import?) ==> Imported(root, elems, load) == []
  {
    if elems != [] {
      ImportedExported(root, elems[..|elems| - 1], load);
    }
  }

  /** The fields of a context other than its file. */
  datatype ContextRest = ContextRest(types: map<NodeId, Type>, gced: set<NodeId>, opt: nat, jit: bool,
    emitAsm: bool, emitObj: bool, output: string, shared: bool, gimple: bool)

  /** The match in `import` that decides whether an element of the imported file is kept. */
  method Keeps(e: Elem) returns (keep: bool)
    ensures keep == Exported(e)
  {
    keep := false;
    match e {
      case FuncDef(f) => keep := f.public && !f.isStatic;
      case StructDef(s) => keep := s.public;
      case ConstDef(c) => keep := c.public;
      case Link(_) => keep := true;
      case _ =>
    }
  }

  /** The compilation context: the file being compiled, the type table and the driver's settings. */
  class Context {
    var file: File
    var types: map<NodeId, Type>
    var gced: set<NodeId>
    /** An unsigned byte. */
    var opt: nat
    var jit: bool
    var emitAsm: bool
    var emitObj: bool
    var output: string
    var shared: bool
    var gimple: bool

    /** A context for `file` with the default settings: optimisation level 2, JIT on, no output name. */
    constructor (file: File)
      ensures this.file == file
      ensures types == map[] && gced == {}
      ensures opt == 2 && jit
      ensures !emitAsm && !emitObj && !shared && !gimple
      ensures output == ""
    {
      this.file := file;
      types := map[];
      gced := {};
      opt := 2;
      emitAsm := false;
      emitObj := false;
      jit := true;
      output := "";
      shared := false;
      gimple := false;
    }

    /** Everything in the context except the file. */
    function Rest(): ContextRest
      reads this
    {
      ContextRest(types, gced, opt, jit, emitAsm, emitObj, output, shared, gimple)
    }

    /**
     * `import path`: reads the file at the joined path and appends its exported elements.
     * Reading and parsing the file are not modelled: `loaded` is what the parser and the
     * imported file's own imports produced.
     */
    method Import(path: string, loaded: seq<Elem>) returns (resolved: string)
      modifies this
      ensures resolved == ImportPath(old(file.root), path)
      ensures file == old(file).(elems := old(file.elems) + ExportFilter(loaded))
      ensures Rest() == old(Rest())
    {
      resolved := if file.root == "" then path else file.root + "/" + path;
      ghost var start := file.elems;
      var i := 0;
      while i < |loaded|
        invariant 0 <= i <= |loaded|
        invariant file == old(file).(elems := start + ExportFilter(loaded[..i]))
        invariant Rest() == old(Rest())
      {
        var e := loaded[i];
        assert loaded[..i + 1] == loaded[..i] + [e];
        ExportFilterSnoc(loaded[..i], e);
        var keep := Keeps(e);
        if keep {
          file := file.(elems := file.elems + [e]);
        }
        i := i + 1;
      }
      assert loaded[..i] == loaded;
    }

    /** `imports`: runs `Import` for every import element of the file, in order. */
    method Imports(load: string -> seq<Elem>)
      modifies this
      ensures file == old(file).(elems := old(file.elems) + Imported(old(file.root), old(file.elems), load))
      ensures Rest() == old(Rest())
    {
      var elems := file.elems;
      var i := 0;
      while i < |elems|
        invariant 0 <= i <= |elems|
        invariant file == old(file).(elems := elems + Imported(old(file.root), elems[..i], load))
        invariant Rest() == old(Rest())
      {
        assert elems[..i + 1][..i] == elems[..i];
        if elems[i].Import? {
          var _ := Import(elems[i].path, load(ImportPath(file.root, elems[i].path)));
        }
        i := i + 1;
      }
      assert elems[..i] == elems;
    }

    /** `get_func_mut`: the first function of the file, whatever id it is asked for. */
    method GetFuncMut(id: NodeId) returns (r: Option<nat>)
      ensures r.Some? ==> r.value < |file.elems| && file.elems[r.value].FuncDef?
      ensures r.Some? ==> forall k :: 0 <= k < r.value ==> !file.elems[k].FuncDef?
      ensures r.None? <==> forall k :: 0 <= k < |file.elems| ==> !file.elems[k].FuncDef?
    {
      var i := 0;
      while i < |file.elems|
        invariant 0 <= i <= |file.elems|
        invariant forall k :: 0 <= k < i ==> !file.elems[k].FuncDef?
      {
        if file.elems[i].FuncDef? {
          return Some(i);
        }
        i := i + 1;
      }
      return None;
    }
  }
}
