/** pkg/parser/resolver.go: the older type resolver. It keeps its own map of
    types by fully-qualified name, and a resolver scoped to one file holds a
    package and an import map of its own, built from fresh, unshared
    packages. Its type walker differs from the registry's in one place: a
    qualified identifier also ORs in `VarKindIdent`. */
module TypeResolution {
  import opened Results
  import opened Text
  import opened Flag
  import opened Entities
  import opened Syntax
  import opened Shapes
  import Registry

  /** `IsFlagSet(value, flag)`: the generic copy of `flag.IsSet`. */
  function IsFlagSet(value: bv8, flag: bv8): (r: bool)
    ensures r == IsSet(value, flag)
    ensures r ==> value != 0 && flag != 0
  {
    value & flag != 0
  }

  /** `im` holds a package per key of `paths`, at that path, named after
      it, no package under two keys. */
  predicate Mirrors(im: map<string, Package>, paths: map<string, string>) {
    && im.Keys == paths.Keys
    && (forall k :: k in im ==> im[k].path == paths[k] && im[k].name == AfterLastSlash(im[k].path))
    && (forall k, k' :: k in im && k' in im && k != k' ==> im[k] != im[k'])
  }

  /** Storing a package held nowhere else keeps the mirror. */
  lemma MirrorsPut(im: map<string, Package>, paths: map<string, string>, key: string, pkg: Package)
    requires Mirrors(im, paths) && pkg !in im.Values && pkg.name == AfterLastSlash(pkg.path)
    ensures Mirrors(im[key := pkg], paths[key := pkg.path])
  {
  }

  /** `newImportsMap(imports)`: a fresh package per import, with its quotes
      removed, keyed by the import's local name or the package's short
      name; a later import replaces an earlier one under the same key, and
      no two keys share a package. */
  method NewImportsMap(imports: seq<ImportSpec>) returns (im: map<string, Package>)
    ensures Mirrors(im, Registry.ImportPaths(imports))
    ensures forall k :: k in im ==> fresh(im[k]) && !im[k].aliased
  {
    im := map[];
    for i := 0 to |imports|
      invariant Mirrors(im, Registry.ImportPaths(imports[..i]))
      invariant forall k :: k in im ==> fresh(im[k]) && !im[k].aliased
    {
      var pkgPath := Trim(imports[i].path, Registry.QuoteCut);
      var pkg := new Package(pkgPath);
      Registry.ImportStep(imports, i);
      var key := if imports[i].name.Some? then imports[i].name.value else pkg.name;
      assert key == Registry.ImportKey(imports[i]) && pkgPath == Registry.SanitizePath(imports[i].path);
      MirrorsPut(im, Registry.ImportPaths(imports[..i]), key, pkg);
      im := im[key := pkg];
    }
    assert imports[..|imports|] == imports;
  }

  /** The resolver's map of types by fully-qualified name. */
  class TypeResolver {
    var types: map<string, Type>

    ghost predicate Valid()
      reads this
    {
      forall k :: k in types ==> types[k].String() == k
    }

    /** `NewTypeResolver`. */
    constructor ()
      ensures Valid() && types == map[]
    {
      types := map[];
    }

    /** `Resolve(pkg, ident)`: the type with this fully-qualified name, a
        builtin name losing its package first; the same instance for a
        repeated name, a new one the first time. */
    method Resolve(pkg: Package?, name: string) returns (t: Type)
      requires Valid()
      modifies this
      ensures Valid()
      ensures t.String() == Registry.TypeKey(pkg, name)
      ensures types == old(types)[t.String() := t]
      ensures t.String() in old(types) ==> t == old(types)[t.String()]
      ensures t.String() !in old(types) ==>
        fresh(t) && t.pkg == (if IsBuiltin(name) then null else pkg) && t.name == name && !t.aliased
    {
      var p := pkg;
      if IsBuiltin(name) {
        p := null;
      }
      var fqn := FullyQualifiedName(p, name);
      if fqn in types {
        return types[fqn];
      }
      t := new Type(p, name);
      types := types[fqn := t];
    }

    /** `Scope(path, file)`: a resolver for one file, with a fresh package
        for the path as given and a fresh import map, after every type
        object of the file's scope is resolved. */
    method Scope(currentPackagePath: string, file: File) returns (s: ScopedTypeResolver)
      requires Valid()
      modifies this
      ensures Valid() && Registry.Extends(old(types), types)
      ensures fresh(s) && fresh(s.pkg) && s.parent == this
      ensures s.pkg.path == currentPackagePath && s.pkg.name == AfterLastSlash(currentPackagePath)
      ensures Mirrors(s.imports, Registry.ImportPaths(file.imports))
      ensures forall k :: k in s.imports ==> fresh(s.imports[k])
      ensures file.scope.Some? ==> forall o :: o in file.scope.value && o.kind == TypObj ==>
        Registry.TypeKey(s.pkg, o.specName) in types
      ensures file.scope.None? ==> types == old(types)
    {
      var pkg := new Package(currentPackagePath);
      var imports := NewImportsMap(file.imports);
      s := new ScopedTypeResolver(this, pkg, imports);
      if file.scope.Some? {
        ResolveObjs(s, file.scope.value);
      }
    }

    /** The loop of `Scope` over the file's scope: every type object's
        type is resolved in the scoped resolver's package. */
    method ResolveObjs(s: ScopedTypeResolver, objs: seq<Object>)
      requires Valid() && s.parent == this
      modifies this
      ensures Valid() && Registry.Extends(old(types), types)
      ensures forall o :: o in objs && o.kind == TypObj ==> Registry.TypeKey(s.pkg, o.specName) in types
    {
      ghost var start := types;
      for i := 0 to |objs|
        invariant Valid() && Registry.Extends(start, types)
        invariant forall j :: 0 <= j < i && objs[j].kind == TypObj ==> Registry.TypeKey(s.pkg, objs[j].specName) in types
      {
        ghost var before := types;
        var _ := s.Obj(objs[i]);
        Registry.ExtendsTrans(start, before, types);
      }
      forall o | o in objs && o.kind == TypObj
        ensures Registry.TypeKey(s.pkg, o.specName) in types
      {
        var j :| 0 <= j < |objs| && objs[j] == o;
      }
    }
  }

  /** A resolver scoped to one file: its package and its import map. */
  class ScopedTypeResolver {
    const parent: TypeResolver
    const pkg: Package
    const imports: map<string, Package>

    constructor (parent: TypeResolver, pkg: Package, imports: map<string, Package>)
      ensures this.parent == parent && this.pkg == pkg && this.imports == imports
    {
      this.parent := parent;
      this.pkg := pkg;
      this.imports := imports;
    }

    /** `Obj(obj)`: nothing for an object that is not a type; the type of
        its spec's name in this package otherwise. */
    method Obj(o: Object) returns (t: Type?)
      requires parent.Valid()
      modifies parent
      ensures parent.Valid() && Registry.Extends(old(parent.types), parent.types)
      ensures o.kind != TypObj ==> t == null && parent.types == old(parent.types)
      ensures o.kind == TypObj ==>
        t != null && t.String() == Registry.TypeKey(pkg, o.specName) && t.String() in parent.types && parent.types[t.String()] == t
    {
      if o.kind != TypObj {
        return null;
      }
      t := parent.Resolve(pkg, o.specName);
    }

    /** `Func(decl)`: a fresh function of this package, its receiver,
        parameters and results parsed at once (the result loop guarded as
        in `Func.parse`). */
    method Func(d: FuncDecl) returns (fn: Registry.Func)
      requires parent.Valid()
      modifies parent
      ensures parent.Valid() && Registry.Extends(old(parent.types), parent.types)
      ensures fresh(fn) && fn.pkg == pkg && fn.name == d.name && fn.file == null && fn.decl.None?
      ensures d.recv.Some? <==> fn.recv.Some?
      ensures d.recv.Some? ==> Registry.Describes(fn.recv.value, d.recv.value, pkg, imports, VarKindIdent)
      ensures Registry.DescribesAll(fn.params, d.params, pkg, imports, VarKindIdent)
      ensures d.results.Some? ==> Registry.DescribesAll(fn.results, d.results.value, pkg, imports, VarKindIdent)
      ensures d.results.None? ==> fn.results == []
    {
      fn := new Registry.Func(pkg, d.name);
      if d.recv.Some? {
        var v := Field(d.recv.value);
        fn.recv := Some(v);
      }
      if d.params != [] {
        var ps := FieldList(d.params);
        fn.params := ps;
      }
      if d.results.Some? {
        var rs := FieldList(d.results.value);
        fn.results := rs;
      }
    }

    /** `Func(decl)` as written: the result loop ranges over
        `decl.Type.Results.List` also when `decl.Type.Results` is nil, so a
        function without results fails with `NilResultList` once its
        receiver and parameters are parsed; with results it is the guarded
        `Func`. */
    method FuncAsWritten(d: FuncDecl) returns (r: Result<Registry.Func, Registry.NilDeref>)
      requires parent.Valid()
      modifies parent
      ensures parent.Valid() && Registry.Extends(old(parent.types), parent.types)
      ensures r.Err? <==> d.results.None?
      ensures r.Err? ==> r.error == Registry.NilResultList
      ensures r.Ok? ==>
        && fresh(r.value) && r.value.pkg == pkg && r.value.name == d.name && r.value.decl.None?
        && (d.recv.Some? <==> r.value.recv.Some?)
        && (d.recv.Some? ==> Registry.Describes(r.value.recv.value, d.recv.value, pkg, imports, VarKindIdent))
        && Registry.DescribesAll(r.value.params, d.params, pkg, imports, VarKindIdent)
        && Registry.DescribesAll(r.value.results, d.results.value, pkg, imports, VarKindIdent)
    {
      if d.results.None? {
        var _ := Func(d);
        return Err(Registry.NilResultList);
      }
      var fn := Func(d);
      r := Ok(fn);
    }

    /** One var per field, in order. */
    method FieldList(fields: seq<Field>) returns (vs: seq<Var>)
      requires parent.Valid()
      modifies parent
      ensures parent.Valid() && Registry.Extends(old(parent.types), parent.types)
      ensures Registry.DescribesAll(vs, fields, pkg, imports, VarKindIdent)
    {
      vs := [];
      for i := 0 to |fields|
        invariant parent.Valid() && Registry.Extends(old(parent.types), parent.types)
        invariant Registry.DescribesAll(vs, fields[..i], pkg, imports, VarKindIdent)
      {
        var v := Field(fields[i]);
        vs := vs + [v];
      }
      assert fields[..|fields|] == fields;
    }

    /** `Field(field)`: the field's first name, and the type and kind bits
        of its type expression. */
    method Field(f: Syntax.Field) returns (v: Var)
      requires parent.Valid()
      modifies parent
      ensures parent.Valid() && Registry.Extends(old(parent.types), parent.types)
      ensures Registry.Describes(v, f, pkg, imports, VarKindIdent)
    {
      var name := if f.names != [] then f.names[0] else "";
      var t, k := ParseType(f.typ, pkg, VarKindUnknown);
      v := Var(name, k, t);
    }

    /** `parseType`: the walk over a type expression, with `VarKindIdent`
        for a qualified identifier. */
    method ParseType(e: Expr, p: Package?, kind: bv8) returns (t: Type?, k: bv8)
      requires parent.Valid()
      modifies parent
      ensures parent.Valid() && Registry.Extends(old(parent.types), parent.types)
      ensures Walk(e, p, imports, kind, VarKindIdent).None? ==> t == null && k == VarKindUnknown
      ensures Walk(e, p, imports, kind, VarKindIdent).Some? ==>
        var l := Walk(e, p, imports, kind, VarKindIdent).value;
        && t != null
        && t.String() == FullyQualifiedName(LeafPackage(l), l.name)
        && t.String() in parent.types && parent.types[t.String()] == t
        && k == FinalKind(l.kind, t.IsBuiltin())
      decreases e
    {
      match e
      case Ident(n) =>
        t, k := ParseIdent(p, n, kind);
      case Star(x) =>
        var next := kind;
        if IsFlagSet(kind, VarKindSlice) {
          next := next | VarKindSliceOfPointer;
        } else {
          next := next | VarKindPointer;
        }
        t, k := ParseType(x, p, next);
      case ArrayT(elt) =>
        t, k := ParseType(elt, p, kind | VarKindSlice);
      case MapT(_, value) =>
        t, k := ParseType(value, p, kind | VarKindMap);
      case Selector(x, sel) =>
        var q: Package? := if x in imports then imports[x] else null;
        t, k := ParseIdent(q, sel, kind | VarKindIdent);
      case Other =>
        t, k := null, VarKindUnknown;
    }

    /** The identifier case of `parseType`. */
    method ParseIdent(p: Package?, n: string, kind: bv8) returns (t: Type, k: bv8)
      requires parent.Valid()
      modifies parent
      ensures parent.Valid() && Registry.Extends(old(parent.types), parent.types)
      ensures t.String() == Registry.TypeKey(p, n) && t.String() in parent.types && parent.types[t.String()] == t
      ensures k == FinalKind(kind, t.IsBuiltin())
    {
      t := parent.Resolve(p, n);
      k := kind;
      if !t.IsBuiltin() {
        k := k | VarKindIdent;
      } else {
        k := k | VarKindBuiltin;
      }
    }
  }
}
