/** pkg/parser/result.go and the parsing half of pkg/parser/func.go: the
    registry holding one `Package`, `Type` and `Func` per identity, the
    per-file scope that parses declarations into it, and the lazily parsed
    signature of a function. The registry mutex and `sync.Once` gates are
    not modelled (single-threaded model, once-gates as flags). */
module Registry {
  import opened Results
  import opened Text
  import opened Directives
  import opened Entities
  import opened Syntax
  import opened Shapes

  /** The characters `strings.Trim(path, "\"")` removes. */
  const QuoteCut: set<char> := {'"'}

  /** An import path with its surrounding quotes removed. */
  function SanitizePath(path: string): string {
    Trim(path, QuoteCut)
  }

  /** The name `parseField` gives a field: its first name, or empty. */
  function FieldName(f: Field): string {
    if f.names == [] then "" else f.names[0]
  }

  /** `v` is what parsing a field `f` gives, in a file of package `pkg`
      whose imports are `imports`, with `sb` the bits a qualified name adds:
      the field's name, and the type and kind bits the walk over its type
      expression lands on. */
  predicate Describes(v: Var, f: Field, pkg: Package?, imports: map<string, Package>, sb: bv8) {
    && v.name == FieldName(f)
    && match Walk(f.typ, pkg, imports, VarKindUnknown, sb)
       case None => v.kind == VarKindUnknown && v.underlying == null
       case Some(l) =>
         && v.underlying != null
         && v.underlying.String() == FullyQualifiedName(LeafPackage(l), l.name)
         && v.kind == FinalKind(l.kind, v.underlying.IsBuiltin())
  }

  /** Every field of `fields` is described by the var at the same place. */
  predicate DescribesAll(vs: seq<Var>, fields: seq<Field>, pkg: Package?, imports: map<string, Package>, sb: bv8) {
    |vs| == |fields| && forall i :: 0 <= i < |vs| ==> Describes(vs[i], fields[i], pkg, imports, sb)
  }

  /** A later registry map keeps every entry of an earlier one. */
  ghost predicate Extends<V>(before: map<string, V>, after: map<string, V>) {
    forall k :: k in before ==> k in after && after[k] == before[k]
  }

  lemma ExtendsTrans<V>(a: map<string, V>, b: map<string, V>, c: map<string, V>)
    requires Extends(a, b) && Extends(b, c)
    ensures Extends(a, c)
  {
  }

  /** The key an import is registered under: its local name when it has
      one, otherwise the short name of its package. */
  function ImportKey(s: ImportSpec): string {
    if s.name.Some? then s.name.value else AfterLastSlash(SanitizePath(s.path))
  }

  /** The import map of a file as name to path: later imports replace
      earlier ones under the same name. */
  function ImportPaths(imports: seq<ImportSpec>): map<string, string> {
    ToMap(ImportEntries(imports))
  }

  function ImportEntries(imports: seq<ImportSpec>): (r: seq<(string, string)>)
    ensures |r| == |imports|
    ensures forall i :: 0 <= i < |imports| ==> r[i] == (ImportKey(imports[i]), SanitizePath(imports[i].path))
  {
    seq(|imports|, i requires 0 <= i < |imports| => (ImportKey(imports[i]), SanitizePath(imports[i].path)))
  }

  /** A nil pointer the source dereferences: the result list of a function
      without results, or the declaration of a function built without one. */
  datatype NilDeref = NilResultList | NilFuncDecl

  /** A function declared in source: its package and name, where it was
      declared, and, once parsed, its receiver, parameters and results. */
  class Func {
    const pkg: Package?
    const name: string
    const file: FileResult?
    const decl: Option<FuncDecl>
    var recv: Option<Var>
    var params: seq<Var>
    var results: seq<Var>
    var parsed: bool

    /** `String()`: the fully-qualified name. */
    function String(): string {
      FullyQualifiedName(pkg, name)
    }

    /** `newFunc(at, decl)`: a function of the file's package, parsed later. */
    constructor FromDecl(at: FileResult, decl: FuncDecl)
      ensures file == at && pkg == at.pkg && name == decl.name && this.decl == Some(decl)
      ensures !parsed && recv.None? && params == [] && results == []
    {
      file := at;
      pkg := at.pkg;
      name := decl.name;
      this.decl := Some(decl);
      recv := None;
      params := [];
      results := [];
      parsed := false;
    }

    /** The bare function `Result.Func` and `scopedTypeResolver.Func` build:
        a package and a name, no declaration to parse. */
    constructor (pkg: Package?, name: string)
      ensures this.pkg == pkg && this.name == name && file == null && decl.None?
      ensures !parsed && recv.None? && params == [] && results == []
    {
      this.pkg := pkg;
      this.name := name;
      file := null;
      decl := None;
      recv := None;
      params := [];
      results := [];
      parsed := false;
    }

    /** `parse` as written, run once: the receiver when there is one, one
        var per parameter field and, when the result list is not nil, one
        var per result field, each parsed in the declaring file. It reads
        `f.decl.Recv` first, so on a function without a declaration it
        dereferences nil: `Some(NilFuncDecl)` stands for that failure.
        pkg/parser/func.go's own `newFunc` always sets the declaration; the
        functions without one are those `Result.Func` and
        `scopedTypeResolver.Func` build, in code written against another
        revision of `Func` (see `RegisteredAccessFails`). */
    method Parse() returns (err: Option<NilDeref>)
      requires decl.Some? ==> file != null && file.parent.Valid()
      modifies this, if file != null then {file.parent} else {}
      ensures err.Some? <==> !old(parsed) && decl.None?
      ensures err.Some? ==> err.value == NilFuncDecl
      ensures decl.None? || old(parsed) ==>
        parsed == old(parsed) && recv == old(recv) && params == old(params) && results == old(results)
      ensures decl.Some? ==> parsed && file.parent.Valid()
      ensures decl.Some? ==> Extends(old(file.parent.types), file.parent.types)
      ensures decl.Some? ==> file.parent.pkgs == old(file.parent.pkgs) && file.parent.funcs == old(file.parent.funcs)
      ensures decl.Some? && !old(parsed) ==>
        && (decl.value.recv.Some? ==> recv.Some? && Describes(recv.value, decl.value.recv.value, file.pkg, file.imports, 0))
        && (decl.value.recv.None? ==> recv == old(recv))
        && (decl.value.params != [] ==> DescribesAll(params, decl.value.params, file.pkg, file.imports, 0))
        && (decl.value.params == [] ==> params == old(params))
        && (decl.value.results.Some? ==> DescribesAll(results, decl.value.results.value, file.pkg, file.imports, 0))
        && (decl.value.results.None? ==> results == old(results))
    {
      if parsed {
        return None;
      }
      if decl.None? {
        return Some(NilFuncDecl);
      }
      var d := decl.value;
      if d.recv.Some? {
        var v := file.ParseField(d.recv.value);
        recv := Some(v);
      }
      if d.params != [] {
        params := file.ParseFieldList(d.params);
      }
      if d.results.Some? {
        results := file.ParseFieldList(d.results.value);
      }
      parsed := true;
      err := None;
    }

    /** `Recv()`, `Params()` and `Returns()` as written: `parse`, then the
        fields; the failure of `parse` is theirs. */
    method AccessorsAsWritten() returns (r: Results.Result<Signature, NilDeref>)
      requires decl.Some? ==> file != null && file.parent.Valid()
      modifies this, if file != null then {file.parent} else {}
      ensures r.Err? <==> !old(parsed) && decl.None?
      ensures r.Err? ==> r.error == NilFuncDecl
      ensures r.Ok? ==> r.value == Signature(this, recv, params, results)
    {
      var err := Parse();
      if err.Some? {
        return Err(err.value);
      }
      r := Ok(Signature(this, recv, params, results));
    }

    /** `Recv()`, `Params()` and `Returns()` as evidently intended: a
        function without a declaration already holds the signature
        `parseFunc` or `scopedTypeResolver.Func` filled in, and it is
        returned unchanged; otherwise the declaration is parsed once first,
        and the result describes it. */
    method Accessors() returns (sig: Signature)
      requires decl.Some? ==> file != null && file.parent.Valid()
      modifies this, if file != null then {file.parent} else {}
      ensures sig == Signature(this, recv, params, results)
      ensures decl.None? || old(parsed) ==> recv == old(recv) && params == old(params) && results == old(results)
      ensures decl.Some? ==> parsed && file.parent.Valid()
      ensures decl.Some? ==> Extends(old(file.parent.types), file.parent.types)
      ensures decl.Some? && !old(parsed) ==>
        && (decl.value.recv.Some? ==> recv.Some? && Describes(recv.value, decl.value.recv.value, file.pkg, file.imports, 0))
        && (decl.value.recv.None? ==> recv == old(recv))
        && (decl.value.params != [] ==> DescribesAll(params, decl.value.params, file.pkg, file.imports, 0))
        && (decl.value.params == [] ==> params == old(params))
        && (decl.value.results.Some? ==> DescribesAll(results, decl.value.results.value, file.pkg, file.imports, 0))
        && (decl.value.results.None? ==> results == old(results))
    {
      if decl.Some? {
        var _ := Parse();
      }
      sig := Signature(this, recv, params, results);
    }
  }

  /** A function with the receiver, parameters and results its `Recv()`,
      `Params()` and `Returns()` yield once parsed. */
  datatype Signature = Signature(fn: Func, recv: Option<Var>, params: seq<Var>, results: seq<Var>)

  /** `Vars.HasError`: some var's type is `error`. The type of every var is
      present (on a var without one the source's `IsError` call fails). */
  method HasError(vs: seq<Var>) returns (b: bool)
    requires forall i :: 0 <= i < |vs| ==> vs[i].underlying != null
    ensures b <==> exists i :: 0 <= i < |vs| && vs[i].underlying.IsError()
  {
    for i := 0 to |vs|
      invariant forall j :: 0 <= j < i ==> !vs[j].underlying.IsError()
    {
      if vs[i].underlying.IsError() {
        return true;
      }
    }
    return false;
  }

  /** Each package is stored under its path and named after its last
      segment. */
  ghost predicate PackagesKeyed(pkgs: map<string, Package>) {
    forall k :: k in pkgs ==> pkgs[k].path == k && pkgs[k].name == AfterLastSlash(k)
  }

  /** Storing a package under its own path keeps the packages keyed. */
  lemma PackagesKeyedAdd(pkgs: map<string, Package>, pkg: Package)
    requires PackagesKeyed(pkgs) && pkg.name == AfterLastSlash(pkg.path)
    ensures PackagesKeyed(pkgs[pkg.path := pkg])
  {
  }

  /** Each type is stored under its string. */
  ghost predicate TypesKeyed(types: map<string, Type>) {
    forall k :: k in types ==> types[k].String() == k
  }

  /** Each function is stored under its string. */
  ghost predicate FuncsKeyed(funcs: map<string, Func>) {
    forall k :: k in funcs ==> funcs[k].String() == k && funcs[k].decl.None? && funcs[k].file == null
  }

  /** The registry of a whole parse: packages by path, types and functions
      by fully-qualified name. */
  class Result {
    var pkgs: map<string, Package>
    var types: map<string, Type>
    var funcs: map<string, Func>

    /** Every entry is stored under its own identity. */
    ghost predicate Valid()
      reads this
    {
      PackagesKeyed(pkgs) && TypesKeyed(types) && FuncsKeyed(funcs)
    }

    /** `newResult`. */
    constructor ()
      ensures Valid() && pkgs == map[] && types == map[] && funcs == map[]
    {
      pkgs := map[];
      types := map[];
      funcs := map[];
    }

    /** `Package(path)`: the package of the path with its quotes removed,
        created on first request. */
    method Package(path: string) returns (pkg: Package)
      requires Valid()
      modifies this
      ensures Valid()
      ensures pkg.path == SanitizePath(path) && pkg.name == AfterLastSlash(pkg.path)
      ensures pkgs == old(pkgs)[pkg.path := pkg]
      ensures pkg.path in old(pkgs) ==> pkg == old(pkgs)[pkg.path]
      ensures pkg.path !in old(pkgs) ==> fresh(pkg) && !pkg.aliased
      ensures types == old(types) && funcs == old(funcs)
    {
      var sanitized := SanitizePath(path);
      if sanitized in pkgs {
        return pkgs[sanitized];
      }
      pkg := new Entities.Package(sanitized);
      PackagesKeyedAdd(pkgs, pkg);
      pkgs := pkgs[sanitized := pkg];
    }

    /** `Func(pkg, ident)`: the function with this fully-qualified name,
        created bare on first request. */
    method Func(pkg: Package?, name: string) returns (fn: Func)
      requires Valid()
      modifies this
      ensures Valid()
      ensures fn.String() == FullyQualifiedName(pkg, name)
      ensures funcs == old(funcs)[fn.String() := fn]
      ensures fn.String() in old(funcs) ==> fn == old(funcs)[fn.String()]
      ensures fn.String() !in old(funcs) ==>
        fresh(fn) && fn.pkg == pkg && fn.name == name && fn.file == null && !fn.parsed
        && fn.recv.None? && fn.params == [] && fn.results == []
      ensures pkgs == old(pkgs) && types == old(types)
    {
      var fqn := FullyQualifiedName(pkg, name);
      if fqn in funcs {
        return funcs[fqn];
      }
      fn := new Func(pkg, name);
      funcs := funcs[fqn := fn];
    }

    /** `Type(pkg, ident)`: the type with this fully-qualified name, a
        builtin name losing its package first; created on first request. */
    method Type(pkg: Package?, name: string) returns (t: Type)
      requires Valid()
      modifies this
      ensures Valid()
      ensures t.String() == FullyQualifiedName(if IsBuiltin(name) then null else pkg, name)
      ensures types == old(types)[t.String() := t]
      ensures t.String() in old(types) ==> t == old(types)[t.String()]
      ensures t.String() !in old(types) ==>
        fresh(t) && t.pkg == (if IsBuiltin(name) then null else pkg) && t.name == name && !t.aliased && t.alias == ""
      ensures pkgs == old(pkgs) && funcs == old(funcs)
    {
      var p := pkg;
      if IsBuiltin(name) {
        p := null;
      }
      var fqn := FullyQualifiedName(p, name);
      if fqn in types {
        return types[fqn];
      }
      t := new Entities.Type(p, name);
      types := types[fqn := t];
    }

    /** `ImportsMap(imports)`: each import's package, registered by its
        path and keyed by the import's local name or the package's short
        name; a later import replaces an earlier one under the same key. */
    method ImportsMap(imports: seq<ImportSpec>) returns (im: map<string, Package>)
      requires Valid()
      modifies this
      ensures Valid()
      ensures Extends(old(pkgs), pkgs) && types == old(types) && funcs == old(funcs)
      ensures im.Keys == ImportPaths(imports).Keys
      ensures forall k :: k in im ==> im[k].path == ImportPaths(imports)[k] && im[k].path in pkgs && im[k] == pkgs[im[k].path]
    {
      im := map[];
      for i := 0 to |imports|
        invariant Valid()
        invariant Extends(old(pkgs), pkgs) && types == old(types) && funcs == old(funcs)
        invariant ImportsResolved(im, ImportPaths(imports[..i]), pkgs)
      {
        ghost var pkgs0 := pkgs;
        var pkg := Package(imports[i].path);
        var name := pkg.name;
        if imports[i].name.Some? {
          name := imports[i].name.value;
        }
        ImportStep(imports, i);
        ImportsResolvedStep(im, ImportPaths(imports[..i]), old(pkgs), pkgs0, pkgs, name, pkg);
        im := im[name := pkg];
      }
      assert imports[..|imports|] == imports;
    }

    /** `ParseFile(pkgPath, file)`: scopes a file to its package and its
        imports, registers every type spec and every function declaration
        of the file, and never fails, given the guarded `ParseFunc`. */
    method ParseFile(pkgPath: string, file: File)
      requires Valid()
      modifies this, funcs.Values
      ensures Valid()
      ensures Extends(old(pkgs), pkgs) && Extends(old(types), types) && Extends(old(funcs), funcs)
      ensures SanitizePath(pkgPath) in pkgs
      ensures forall i :: 0 <= i < |file.decls| ==>
        Registered(file.decls[i], pkgs[SanitizePath(pkgPath)], types, funcs)
      ensures forall i :: LastFuncDecl(file.decls, i) ==>
        var pkg := pkgs[SanitizePath(pkgPath)];
        && FullyQualifiedName(pkg, file.decls[i].fn.name) in funcs
        && SignatureParsed(funcs[FullyQualifiedName(pkg, file.decls[i].fn.name)], file.decls[i].fn, pkg,
                           ScopeImports(file.imports, pkgs))
    {
      var pkg := Package(pkgPath);
      ghost var afterPkg := pkgs;
      var imports := ImportsMap(file.imports);
      ExtendsTrans(old(pkgs), afterPkg, pkgs);
      ImportsScope(imports, file.imports, pkgs);
      var fr := new FileResult(this, pkg, imports);
      fr.ParseDeclarations(file.decls);
    }
  }

  /** The registry key of a type named `n` declared in package `pkg`. */
  function TypeKey(pkg: Package?, n: string): string {
    FullyQualifiedName(if IsBuiltin(n) then null else pkg, n)
  }

  /** What parsing declaration `d` of package `pkg` registers is present:
      its function, or the types of all its type specs. */
  ghost predicate Registered(d: Decl, pkg: Package, types: map<string, Type>, funcs: map<string, Func>) {
    && (d.FuncD? ==> FullyQualifiedName(pkg, d.fn.name) in funcs)
    && (d.GenDecl? ==> forall j :: 0 <= j < |d.specs| && d.specs[j].TypeSpec? ==> TypeKey(pkg, d.specs[j].name) in types)
  }

  /** The receiver, parameters and results of `fn` describe the parts of
      `d` that are present, parsed in package `pkg` with `imports`; a part
      `d` does not have keeps whatever `fn` held before. */
  ghost predicate SignatureParsed(fn: Func, d: FuncDecl, pkg: Package?, imports: map<string, Package>)
    reads fn
  {
    && (d.recv.Some? ==> fn.recv.Some? && Describes(fn.recv.value, d.recv.value, pkg, imports, 0))
    && (d.params != [] ==> DescribesAll(fn.params, d.params, pkg, imports, 0))
    && (d.results.Some? ==> DescribesAll(fn.results, d.results.value, pkg, imports, 0))
  }

  /** `decls[i]` declares a function and no later declaration of `decls`
      declares one with the same name. Functions are keyed by package and
      name only, so two methods of one name on different receivers share an
      entry, and the later parse overwrites the earlier one. */
  ghost predicate LastFuncDecl(decls: seq<Decl>, i: int) {
    && 0 <= i < |decls| && decls[i].FuncD?
    && forall j :: i < j < |decls| && decls[j].FuncD? ==> decls[j].fn.name != decls[i].fn.name
  }

  /** The last declaration of a name among `decls[..i + 1]` is `decls[i]`,
      or was already the last among `decls[..i]` and is not redeclared by
      `decls[i]`. */
  lemma LastFuncDeclSnoc(decls: seq<Decl>, i: nat, i': int, pkg: Package?)
    requires i < |decls| && LastFuncDecl(decls[..i + 1], i')
    ensures decls[i'].FuncD?
    ensures i' == i || LastFuncDecl(decls[..i], i')
    ensures i' < i && decls[i].FuncD? ==>
      FullyQualifiedName(pkg, decls[i].fn.name) != FullyQualifiedName(pkg, decls[i'].fn.name)
  {
    assert decls[..i + 1][i'] == decls[i'];
    if i' < i {
      assert forall j :: i' < j < i ==> decls[..i][j] == decls[..i + 1][j];
      if decls[i].FuncD? {
        assert decls[..i + 1][i] == decls[i];
        FuncKeysDiffer(pkg, decls[i].fn.name, decls[i'].fn.name);
      }
    }
  }

  /** The imports map of a file once its imports are registered in `pkgs`:
      each import name to the package registered under its path. */
  ghost function ScopeImports(imports: seq<ImportSpec>, pkgs: map<string, Package>): map<string, Package> {
    var paths := ImportPaths(imports);
    map k | k in paths && paths[k] in pkgs :: pkgs[paths[k]]
  }

  /** The map `ImportsMap` builds is the file's import scope. */
  lemma ImportsScope(im: map<string, Package>, imports: seq<ImportSpec>, pkgs: map<string, Package>)
    requires ImportsResolved(im, ImportPaths(imports), pkgs)
    ensures im == ScopeImports(imports, pkgs)
  {
  }

  /** Distinct names in one package have distinct keys. */
  lemma FuncKeysDiffer(pkg: Package?, a: string, b: string)
    requires a != b
    ensures FullyQualifiedName(pkg, a) != FullyQualifiedName(pkg, b)
  {
    if pkg != null {
      var p := pkg.path + ".";
      assert (p + a)[|p|..] == a && (p + b)[|p|..] == b;
    }
  }

  /** `im` maps exactly the names of `paths` to packages registered in
      `pkgs` under the path named. */
  ghost predicate ImportsResolved(im: map<string, Package>, paths: map<string, string>, pkgs: map<string, Package>) {
    && im.Keys == paths.Keys
    && forall k :: k in im ==> im[k].path == paths[k] && im[k].path in pkgs && im[k] == pkgs[im[k].path]
  }

  /** One more import: its package, just registered, is mapped under its
      name, and the registry only grew. */
  lemma ImportsResolvedStep(im: map<string, Package>, paths: map<string, string>,
                            pkgs0: map<string, Package>, pkgs: map<string, Package>, pkgs': map<string, Package>,
                            name: string, pkg: Package)
    requires ImportsResolved(im, paths, pkgs) && Extends(pkgs0, pkgs)
    requires pkgs' == pkgs[pkg.path := pkg] && (pkg.path in pkgs ==> pkg == pkgs[pkg.path])
    ensures Extends(pkgs, pkgs') && Extends(pkgs0, pkgs')
    ensures ImportsResolved(im[name := pkg], paths[name := pkg.path], pkgs')
  {
  }

  /** Registration survives the registry growing. */
  lemma RegisteredGrows(decls: seq<Decl>, n: nat, pkg: Package, types: map<string, Type>, funcs: map<string, Func>,
                        types': map<string, Type>, funcs': map<string, Func>)
    requires n <= |decls|
    requires forall i :: 0 <= i < n ==> Registered(decls[i], pkg, types, funcs)
    requires Extends(types, types') && Extends(funcs, funcs')
    ensures forall i :: 0 <= i < n ==> Registered(decls[i], pkg, types', funcs')
  {
    forall i | 0 <= i < n
      ensures Registered(decls[i], pkg, types', funcs')
    {
      var d := decls[i];
      assert Registered(d, pkg, types, funcs);
    }
  }

  /** One more import extends the name to path map under its key. */
  lemma ImportStep(imports: seq<ImportSpec>, i: nat)
    requires i < |imports|
    ensures ImportPaths(imports[..i + 1]) == ImportPaths(imports[..i])[ImportKey(imports[i]) := SanitizePath(imports[i].path)]
  {
    var e := ImportEntries(imports[..i + 1]);
    assert e[..|e| - 1] == ImportEntries(imports[..i]);
  }

  /** `contextalias "context"` is registered under `contextalias`; a plain
      `"errors"` under the package's short name. */
  lemma ImportKeyExamples()
    ensures ImportKey(ImportSpec(Some("contextalias"), "\"context\"")) == "contextalias"
    ensures ImportKey(ImportSpec(None, "\"errors\"")) == "errors"
  {
    var name := "errors";
    assert "\"errors\"" == "\"" + name + "\"";
    QuotedShortName("\"", name);
  }

  /** A quoted path without `/` is keyed by the path itself. */
  lemma QuotedShortName(quote: string, name: string)
    requires quote == "\"" && name != [] && name[0] != '"' && name[|name| - 1] != '"'
    requires forall k :: 0 <= k < |name| ==> name[k] != '/'
    ensures ImportKey(ImportSpec(None, quote + name + quote)) == name
  {
    TrimSurrounded(quote, name, quote, QuoteCut);
  }

  /** A `Result` scoped to one source file: its package and its imports. */
  class FileResult {
    const parent: Result
    const pkg: Package
    const imports: map<string, Package>

    constructor (parent: Result, pkg: Package, imports: map<string, Package>)
      ensures this.parent == parent && this.pkg == pkg && this.imports == imports
    {
      this.parent := parent;
      this.pkg := pkg;
      this.imports := imports;
    }

    /** The declaration loop of `ParseFile`. */
    method ParseDeclarations(decls: seq<Decl>)
      requires parent.Valid()
      modifies parent, parent.funcs.Values
      ensures parent.Valid()
      ensures Extends(old(parent.types), parent.types) && Extends(old(parent.funcs), parent.funcs)
      ensures parent.pkgs == old(parent.pkgs)
      ensures forall i :: 0 <= i < |decls| ==> Registered(decls[i], pkg, parent.types, parent.funcs)
      ensures forall i :: LastFuncDecl(decls, i) ==>
        FullyQualifiedName(pkg, decls[i].fn.name) in parent.funcs &&
        SignatureParsed(parent.funcs[FullyQualifiedName(pkg, decls[i].fn.name)], decls[i].fn, pkg, imports)
    {
      for i := 0 to |decls|
        invariant parent.Valid() && parent.pkgs == old(parent.pkgs)
        invariant Extends(old(parent.types), parent.types) && Extends(old(parent.funcs), parent.funcs)
        invariant forall k :: k in parent.funcs && k !in old(parent.funcs) ==> fresh(parent.funcs[k])
        invariant forall i' :: 0 <= i' < i ==> Registered(decls[i'], pkg, parent.types, parent.funcs)
        invariant forall i' :: LastFuncDecl(decls[..i], i') ==>
          FullyQualifiedName(pkg, decls[i'].fn.name) in parent.funcs &&
          SignatureParsed(parent.funcs[FullyQualifiedName(pkg, decls[i'].fn.name)], decls[i'].fn, pkg, imports)
      {
        ghost var types0, funcs0 := parent.types, parent.funcs;
        ParseDeclaration(decls[i]);
        RegisteredGrows(decls, i, pkg, types0, funcs0, parent.types, parent.funcs);
        forall i' | LastFuncDecl(decls[..i + 1], i')
          ensures FullyQualifiedName(pkg, decls[i'].fn.name) in parent.funcs
          ensures SignatureParsed(parent.funcs[FullyQualifiedName(pkg, decls[i'].fn.name)], decls[i'].fn, pkg, imports)
        {
          LastFuncDeclSnoc(decls, i, i', pkg);
          if i' < i {
            assert funcs0[FullyQualifiedName(pkg, decls[i'].fn.name)] in funcs0.Values;
          }
        }
      }
      assert decls[..|decls|] == decls;
    }

    /** `parseDeclaration`: every type spec of a general declaration is
        registered, a function declaration is parsed; never fails, given the
        guarded `ParseFunc`. */
    method ParseDeclaration(d: Decl)
      requires parent.Valid()
      modifies parent, parent.funcs.Values
      ensures parent.Valid()
      ensures Extends(old(parent.types), parent.types) && Extends(old(parent.funcs), parent.funcs)
      ensures parent.pkgs == old(parent.pkgs)
      ensures forall k :: k in parent.funcs && k !in old(parent.funcs) ==> fresh(parent.funcs[k])
      ensures Registered(d, pkg, parent.types, parent.funcs)
      ensures d.FuncD? ==> SignatureParsed(parent.funcs[FullyQualifiedName(pkg, d.fn.name)], d.fn, pkg, imports)
      ensures forall f :: f in old(parent.funcs.Values) && !(d.FuncD? && f.String() == FullyQualifiedName(pkg, d.fn.name)) ==>
        unchanged(f)
    {
      match d
      case GenDecl(_, specs) =>
        ParseTypeSpecs(specs);
      case FuncD(fd) =>
        var _ := ParseFunc(fd);
      case BadDecl =>
    }

    /** The spec loop of `parseDeclaration`: every type spec is registered,
        other specs are skipped. */
    method ParseTypeSpecs(specs: seq<Spec>)
      requires parent.Valid()
      modifies parent
      ensures parent.Valid()
      ensures Extends(old(parent.types), parent.types) && parent.funcs == old(parent.funcs)
      ensures parent.pkgs == old(parent.pkgs)
      ensures forall j :: 0 <= j < |specs| && specs[j].TypeSpec? ==> TypeKey(pkg, specs[j].name) in parent.types
    {
      for j := 0 to |specs|
        invariant parent.Valid()
        invariant Extends(old(parent.types), parent.types) && parent.funcs == old(parent.funcs)
        invariant parent.pkgs == old(parent.pkgs)
        invariant forall j' :: 0 <= j' < j && specs[j'].TypeSpec? ==> TypeKey(pkg, specs[j'].name) in parent.types
      {
        if specs[j].TypeSpec? {
          var _ := parent.Type(pkg, specs[j].name);
        }
      }
    }

    /** `parseFunc`, with its result loop guarded as in `Func.parse`: the
        function registered under its name gets the parsed receiver, the
        parameters when the list is not empty and the results when the list
        is not nil; what is not parsed keeps its earlier value. */
    method ParseFunc(d: FuncDecl) returns (fn: Func)
      requires parent.Valid()
      modifies parent, parent.funcs.Values
      ensures parent.Valid()
      ensures Extends(old(parent.types), parent.types) && Extends(old(parent.funcs), parent.funcs)
      ensures parent.pkgs == old(parent.pkgs)
      ensures fn.String() == FullyQualifiedName(pkg, d.name)
      ensures parent.funcs == old(parent.funcs)[fn.String() := fn]
      ensures fn.String() !in old(parent.funcs) ==> fresh(fn)
      ensures forall f :: f in old(parent.funcs.Values) && f != fn ==> unchanged(f)
      ensures d.recv.Some? ==> fn.recv.Some? && Describes(fn.recv.value, d.recv.value, pkg, imports, 0)
      ensures d.params != [] ==> DescribesAll(fn.params, d.params, pkg, imports, 0)
      ensures d.results.Some? ==> DescribesAll(fn.results, d.results.value, pkg, imports, 0)
      ensures fn.String() !in old(parent.funcs) ==>
        && (d.recv.None? ==> fn.recv.None?)
        && (d.params == [] ==> fn.params == [])
        && (d.results.None? ==> fn.results == [])
      ensures fn.String() in old(parent.funcs) ==>
        var before := old(parent.funcs[fn.String()]);
        && (d.recv.None? ==> fn.recv == old(before.recv))
        && (d.params == [] ==> fn.params == old(before.params))
        && (d.results.None? ==> fn.results == old(before.results))
    {
      fn := parent.Func(pkg, d.name);
      ParseSignature(fn, d);
    }

    /** `parseFunc` as written: the result loop ranges over
        `decl.Type.Results.List` also when `decl.Type.Results` is nil, so a
        function without results fails with `NilResultList` once its
        receiver and parameters are parsed. With results it parses as the
        guarded `ParseFunc` does. */
    method ParseFuncAsWritten(d: FuncDecl) returns (r: Results.Result<Func, NilDeref>)
      requires parent.Valid()
      modifies parent, parent.funcs.Values
      ensures parent.Valid()
      ensures Extends(old(parent.types), parent.types) && Extends(old(parent.funcs), parent.funcs)
      ensures r.Err? <==> d.results.None?
      ensures r.Err? ==> r.error == NilResultList
      ensures r.Ok? ==>
        && r.value.String() == FullyQualifiedName(pkg, d.name)
        && parent.funcs == old(parent.funcs)[r.value.String() := r.value]
        && (d.recv.Some? ==> r.value.recv.Some? && Describes(r.value.recv.value, d.recv.value, pkg, imports, 0))
        && (d.params != [] ==> DescribesAll(r.value.params, d.params, pkg, imports, 0))
        && DescribesAll(r.value.results, d.results.value, pkg, imports, 0)
    {
      var fn := parent.Func(pkg, d.name);
      ParseSignature(fn, d.(results := None));
      if d.results.None? {
        return Err(NilResultList);
      }
      ParseSignature(fn, d.(recv := None, params := []));
      r := Ok(fn);
    }

    /** The body of `parseFunc` after the lookup: the receiver, the
        parameters and the results of `fn`, each parsed when present. */
    method ParseSignature(fn: Func, d: FuncDecl)
      requires parent.Valid()
      modifies parent, fn
      ensures parent.Valid()
      ensures Extends(old(parent.types), parent.types)
      ensures parent.pkgs == old(parent.pkgs) && parent.funcs == old(parent.funcs)
      ensures d.recv.Some? ==> fn.recv.Some? && Describes(fn.recv.value, d.recv.value, pkg, imports, 0)
      ensures d.params != [] ==> DescribesAll(fn.params, d.params, pkg, imports, 0)
      ensures d.results.Some? ==> DescribesAll(fn.results, d.results.value, pkg, imports, 0)
      ensures d.recv.None? ==> fn.recv == old(fn.recv)
      ensures d.params == [] ==> fn.params == old(fn.params)
      ensures d.results.None? ==> fn.results == old(fn.results)
    {
      if d.recv.Some? {
        var v := ParseField(d.recv.value);
        fn.recv := Some(v);
      }
      if d.params != [] {
        var ps := ParseFieldList(d.params);
        fn.params := ps;
      }
      if d.results.Some? {
        var rs := ParseFieldList(d.results.value);
        fn.results := rs;
      }
    }

    /** One var per field, in order (the loops of `parseFunc` and `parse`). */
    method ParseFieldList(fields: seq<Field>) returns (vs: seq<Var>)
      requires parent.Valid()
      modifies parent
      ensures parent.Valid()
      ensures Extends(old(parent.types), parent.types)
      ensures parent.pkgs == old(parent.pkgs) && parent.funcs == old(parent.funcs)
      ensures DescribesAll(vs, fields, pkg, imports, 0)
    {
      vs := [];
      for i := 0 to |fields|
        invariant parent.Valid()
        invariant Extends(old(parent.types), parent.types)
        invariant parent.pkgs == old(parent.pkgs) && parent.funcs == old(parent.funcs)
        invariant DescribesAll(vs, fields[..i], pkg, imports, 0)
      {
        var v := ParseField(fields[i]);
        vs := vs + [v];
      }
      assert fields[..|fields|] == fields;
    }

    /** `parseField`: the field's first name, and the type and kind bits of
        its type expression. */
    method ParseField(f: Field) returns (v: Var)
      requires parent.Valid()
      modifies parent
      ensures parent.Valid()
      ensures Extends(old(parent.types), parent.types)
      ensures parent.pkgs == old(parent.pkgs) && parent.funcs == old(parent.funcs)
      ensures Describes(v, f, pkg, imports, 0)
    {
      var name := if f.names != [] then f.names[0] else "";
      var t, k := ParseType(f.typ, pkg, VarKindUnknown);
      v := Var(name, k, t);
    }

    /** `parseType`: the walk over a type expression, the identifier it
        lands on being looked up (or registered) in the registry. */
    method ParseType(e: Expr, p: Package?, kind: bv8) returns (t: Type?, k: bv8)
      requires parent.Valid()
      modifies parent
      ensures parent.Valid()
      ensures Extends(old(parent.types), parent.types)
      ensures parent.pkgs == old(parent.pkgs) && parent.funcs == old(parent.funcs)
      ensures Walk(e, p, imports, kind, 0).None? ==> t == null && k == VarKindUnknown
      ensures Walk(e, p, imports, kind, 0).Some? ==>
        var l := Walk(e, p, imports, kind, 0).value;
        && t != null
        && t.String() == FullyQualifiedName(LeafPackage(l), l.name)
        && t.String() in parent.types && parent.types[t.String()] == t
        && k == FinalKind(l.kind, t.IsBuiltin())
      decreases e
    {
      match e
      case Ident(n) =>
        t, k := ParseIdent(p, n, kind);
      case Star(x) =>
        var next := kind;
        if Flag.IsSet(kind, VarKindSlice) {
          next := next | VarKindSliceOfPointer;
        } else {
          next := next | VarKindPointer;
        }
        t, k := ParseType(x, p, next);
      case ArrayT(elt) =>
        t, k := ParseType(elt, p, kind | VarKindSlice);
      case MapT(_, value) =>
        t, k := ParseType(value, p, kind | VarKindMap);
      case Selector(x, sel) =>
        var q: Package? := if x in imports then imports[x] else null;
        t, k := ParseIdent(q, sel, kind);
      case Other =>
        t, k := null, VarKindUnknown;
    }

    /** The identifier case of `parseType`: the type registered under the
        name, and the Ident or Builtin bit. */
    method ParseIdent(p: Package?, n: string, kind: bv8) returns (t: Type, k: bv8)
      requires parent.Valid()
      modifies parent
      ensures parent.Valid()
      ensures Extends(old(parent.types), parent.types)
      ensures parent.pkgs == old(parent.pkgs) && parent.funcs == old(parent.funcs)
      ensures t.String() == TypeKey(p, n) && t.String() in parent.types && parent.types[t.String()] == t
      ensures k == FinalKind(kind, t.IsBuiltin())
    {
      t := parent.Type(p, n);
      k := kind;
      if !t.IsBuiltin() {
        k := k | VarKindIdent;
      } else {
        k := k | VarKindBuiltin;
      }
    }
  }

  /** `func (s *TodoService) WithoutParams()` of the todo example: a method
      without results, so its result list is nil. */
  function WithoutParamsDecl(): FuncDecl {
    FuncDecl("WithoutParams", Some(["// ease:api path=/api/without-params"]),
      Some(Field(["s"], Star(Ident("TodoService")))), [], None)
  }

  /** `parseFunc` as written fails on it, where the guarded `ParseFunc`
      parses a receiver, no parameter and no result. */
  method NoResultsFails(f: FileResult) returns (r: Results.Result<Func, NilDeref>)
    requires f.parent.Valid()
    modifies f.parent, f.parent.funcs.Values
    ensures r == Err(NilResultList)
  {
    r := f.ParseFuncAsWritten(WithoutParamsDecl());
  }

  /** The guarded `ParseFunc` on it: the receiver `*TodoService`, no
      parameter and no result. */
  method NoResultsParsed(f: FileResult) returns (fn: Func)
    requires f.parent.Valid()
    modifies f.parent, f.parent.funcs.Values
    ensures fn.String() == FullyQualifiedName(f.pkg, "WithoutParams")
    ensures fn.recv.Some? && fn.recv.value.name == "s"
    ensures fn.String() !in old(f.parent.funcs) ==> fn.params == [] && fn.results == []
  {
    fn := f.ParseFunc(WithoutParamsDecl());
  }

  /** Every function the registry holds was built without a declaration,
      so, with pkg/parser/func.go's `parse`, the first call of `Recv()`,
      `Params()` or `Returns()` on it fails, although `parseFunc` already
      filled its signature in. This joins two revisions of the package
      that do not compile together: pkg/parser/result.go sets a `name`
      field that func.go's `Func` does not declare (it is promoted from the
      embedded `Decl`) and calls a three-argument `newType` that
      pkg/parser/type.go declares with two. */
  method RegisteredAccessFails(r: Result, key: string) returns (a: Results.Result<Signature, NilDeref>)
    requires r.Valid() && key in r.funcs && !r.funcs[key].parsed
    modifies r.funcs[key]
    ensures a == Err(NilFuncDecl)
  {
    var fn := r.funcs[key];
    a := fn.AccessorsAsWritten();
  }
}
