/** pkg/generator/gin/server.go, `Generate` up to the emission of the
    template: the data the server template is given. `Imports` collects
    the packages of the handlers' parameter types and of the chosen
    constructors, keyed by path; `Fields` collects the receiver types of
    the handlers, keyed by their string; `Dependencies` records, under each
    receiver type's string, the first function of the resolved call order
    that returns that type. Each is a `Set`, so a key keeps its first item. */
module GinServer {
  import opened Results
  import opened Entities
  import opened Collection
  import Registry
  import ApiSchema

  /** Every parameter and every receiver of the handlers has a type: the
      source asks each for its package or its string. */
  predicate Ready(eps: seq<ApiSchema.Endpoint>) {
    forall i :: 0 <= i < |eps| ==>
      && ApiSchema.Typed(eps[i].handler.params)
      && (eps[i].handler.recv.Some? ==> eps[i].handler.recv.value.underlying != null)
  }

  /** The import requests of some parameters: one per parameter whose type
      has a package, keyed by the package's path. */
  function PackagesOf(vs: seq<Var>): seq<(string, Package)>
    requires ApiSchema.Typed(vs)
  {
    if vs == [] then []
    else
      var t := vs[|vs| - 1].underlying;
      PackagesOf(vs[..|vs| - 1]) + (if t.pkg != null then [(t.pkg.path, t.pkg)] else [])
  }

  /** The import requests of the handlers' parameters, endpoint by
      endpoint. */
  function ParamImports(eps: seq<ApiSchema.Endpoint>): seq<(string, Package)>
    requires Ready(eps)
  {
    if eps == [] then []
    else ParamImports(eps[..|eps| - 1]) + PackagesOf(eps[|eps| - 1].handler.params)
  }

  /** The field requests: one per handler with a receiver, keyed by the
      receiver type's string. */
  function ReceiverFields(eps: seq<ApiSchema.Endpoint>): seq<(string, Type)>
    requires Ready(eps)
  {
    if eps == [] then []
    else
      ReceiverFields(eps[..|eps| - 1]) + ReceiverField(eps[|eps| - 1].handler)
  }

  /** The field request of one handler: its receiver type, keyed by the
      type's string, when it has a receiver. */
  function ReceiverField(h: Registry.Signature): seq<(string, Type)>
    requires h.recv.Some? ==> h.recv.value.underlying != null
  {
    if h.recv.Some? then [(h.recv.value.underlying.String(), h.recv.value.underlying)] else []
  }

  /** The key a handler's field request adds. */
  lemma ReceiverFieldKeys(h: Registry.Signature)
    requires h.recv.Some? ==> h.recv.value.underlying != null
    ensures KeysOf(ReceiverField(h)) == if h.recv.Some? then {h.recv.value.underlying.String()} else {}
  {
    if h.recv.Some? {
      assert ReceiverField(h)[0].0 == h.recv.value.underlying.String();
    }
  }

  /** Some result of `fn` is of type `t` (the very same type instance). */
  predicate ReturnsType(fn: Registry.Signature, t: Type) {
    exists k :: 0 <= k < |fn.results| && fn.results[k].underlying == t
  }

  /** The position of the first function returning `t`, `|fns|` if none. */
  function FirstCtorIndex(fns: seq<Registry.Signature>, t: Type): (k: nat)
    ensures k <= |fns|
    ensures forall j :: 0 <= j < k ==> !ReturnsType(fns[j], t)
    ensures k < |fns| ==> ReturnsType(fns[k], t)
  {
    if fns == [] || ReturnsType(fns[0], t) then 0
    else 1 + FirstCtorIndex(fns[1..], t)
  }

  /** The constructor of `t`: the first function returning it. */
  function FirstCtor(fns: seq<Registry.Signature>, t: Type): Option<Registry.Func> {
    var k := FirstCtorIndex(fns, t);
    if k < |fns| then Some(fns[k].fn) else None
  }

  /** The requests of the first `i + 1` endpoints are those of the first
      `i`, then those of endpoint `i`. */
  lemma EndpointStep(eps: seq<ApiSchema.Endpoint>, i: nat)
    requires Ready(eps) && i < |eps|
    ensures Ready(eps[..i]) && Ready(eps[..i + 1])
    ensures ParamImports(eps[..i + 1]) == ParamImports(eps[..i]) + PackagesOf(eps[i].handler.params)
    ensures ReceiverFields(eps[..i + 1]) == ReceiverFields(eps[..i]) + ReceiverField(eps[i].handler)
  {
    assert eps[..i + 1][..i] == eps[..i];
  }

  /** The dependency requests: one per receiver type with a constructor. */
  function CtorRequests(recvs: seq<Type>, fns: seq<Registry.Signature>): seq<(string, Registry.Func)> {
    if recvs == [] then []
    else CtorRequests(recvs[..|recvs| - 1], fns) + CtorRequest(recvs[|recvs| - 1], fns)
  }

  /** The dependency request of one receiver type. */
  function CtorRequest(t: Type, fns: seq<Registry.Signature>): seq<(string, Registry.Func)> {
    var c := FirstCtor(fns, t);
    if c.Some? then [(t.String(), c.value)] else []
  }

  /** The import requests of the constructors that have a package. */
  function CtorImports(recvs: seq<Type>, fns: seq<Registry.Signature>): seq<(string, Package)> {
    if recvs == [] then []
    else CtorImports(recvs[..|recvs| - 1], fns) + CtorImport(recvs[|recvs| - 1], fns)
  }

  /** The import request of one receiver type's constructor. */
  function CtorImport(t: Type, fns: seq<Registry.Signature>): seq<(string, Package)> {
    var c := FirstCtor(fns, t);
    if c.Some? && c.value.pkg != null then [(c.value.pkg.path, c.value.pkg)] else []
  }

  /** The requests of the first `i + 1` receiver types are those of the
      first `i`, then those of type `i`. */
  lemma CtorStep(recvs: seq<Type>, fns: seq<Registry.Signature>, i: nat)
    requires i < |recvs|
    ensures CtorRequests(recvs[..i + 1], fns) == CtorRequests(recvs[..i], fns) + CtorRequest(recvs[i], fns)
    ensures CtorImports(recvs[..i + 1], fns) == CtorImports(recvs[..i], fns) + CtorImport(recvs[i], fns)
  {
    assert recvs[..i + 1][..i] == recvs[..i];
  }

  /** `Generate`: the `Imports`, `Fields` and `Dependencies` sets of the
      template data, for the endpoints of the schema and the functions of
      the resolved call order `fns`. */
  method Generate(eps: seq<ApiSchema.Endpoint>, fns: seq<Registry.Signature>)
    returns (imports: Set<Package>, fields: Set<Type>, dependencies: Set<Registry.Func>)
    requires Ready(eps)
    ensures fresh(imports) && fresh(fields) && fresh(dependencies)
    ensures imports.Valid() && fields.Valid() && dependencies.Valid()
    ensures fields.Model() == PutAll(Empty(), ReceiverFields(eps))
    ensures fields.Items() == FirstItems(ReceiverFields(eps))
    ensures dependencies.Model() == PutAll(Empty(), CtorRequests(fields.Items(), fns))
    ensures imports.Model() == PutAll(Empty(), ParamImports(eps) + CtorImports(fields.Items(), fns))
    ensures forall i :: 0 <= i < |fields.Items()| && FirstCtor(fns, fields.Items()[i]).Some? ==>
      var key := fields.Items()[i].String();
      key in dependencies.indexes && dependencies.Model().Get(key) == FirstCtor(fns, fields.Items()[i]).value
  {
    imports := new Set<Package>();
    fields := new Set<Type>();
    dependencies := new Set<Registry.Func>();
    RegisterEndpoints(imports, fields, eps);
    PutAllFirstItems(ReceiverFields(eps));
    var recvs := fields.Items();
    RegisterDependencies(imports, dependencies, recvs, fns);
    PutAllAppend(Empty(), ParamImports(eps), CtorImports(recvs, fns));
    ReceiverFieldsKeyed(eps);
    FieldItemsDistinct(ReceiverFields(eps));
    DependenciesAreFirstCtors(recvs, fns);
  }

  /** Over receiver types with distinct strings, every one with a
      constructor has its first constructor recorded under its string. */
  lemma DependenciesAreFirstCtors(recvs: seq<Type>, fns: seq<Registry.Signature>)
    requires forall a, b :: 0 <= a < b < |recvs| ==> recvs[a].String() != recvs[b].String()
    ensures PutAll(Empty(), CtorRequests(recvs, fns)).Valid()
    ensures forall i :: 0 <= i < |recvs| && FirstCtor(fns, recvs[i]).Some? ==>
      var key := recvs[i].String();
      key in PutAll(Empty(), CtorRequests(recvs, fns)).indexes &&
      PutAll(Empty(), CtorRequests(recvs, fns)).Get(key) == FirstCtor(fns, recvs[i]).value
  {
    PutAllFirstItems(CtorRequests(recvs, fns));
    forall i | 0 <= i < |recvs| && FirstCtor(fns, recvs[i]).Some?
      ensures recvs[i].String() in PutAll(Empty(), CtorRequests(recvs, fns)).indexes
      ensures PutAll(Empty(), CtorRequests(recvs, fns)).Get(recvs[i].String()) == FirstCtor(fns, recvs[i]).value
    {
      DependencyIsFirstCtor(recvs, fns, i);
    }
  }

  /** The loop over the endpoints: the packages of each handler's
      parameters, then its receiver type if it has one. */
  method RegisterEndpoints(imports: Set<Package>, fields: Set<Type>, eps: seq<ApiSchema.Endpoint>)
    requires Ready(eps) && imports.Valid() && fields.Valid()
    requires imports.Model() == Empty() && fields.Model() == Empty()
    modifies imports, fields
    ensures imports.Valid() && fields.Valid()
    ensures imports.Model() == PutAll(Empty(), ParamImports(eps))
    ensures fields.Model() == PutAll(Empty(), ReceiverFields(eps))
  {
    for i := 0 to |eps|
      invariant imports.Valid() && fields.Valid()
      invariant imports.Model() == PutAll(Empty(), ParamImports(eps[..i]))
      invariant fields.Model() == PutAll(Empty(), ReceiverFields(eps[..i]))
    {
      var h := eps[i].handler;
      EndpointStep(eps, i);
      RegisterParams(imports, h.params);
      PutAllAppend(Empty(), ParamImports(eps[..i]), PackagesOf(h.params));

      var request := ReceiverField(h);
      PutAllAppend(Empty(), ReceiverFields(eps[..i]), request);
      if h.recv.None? {
        continue;
      }
      var recvType := h.recv.value.underlying;
      var _ := fields.Set(recvType.String(), recvType);
    }
    assert eps[..|eps|] == eps;
  }

  /** The loop over the receiver types: each one's constructor, if found,
      is recorded, and its package imported. */
  method RegisterDependencies(imports: Set<Package>, dependencies: Set<Registry.Func>, recvs: seq<Type>, fns: seq<Registry.Signature>)
    requires imports.Valid() && dependencies.Valid() && dependencies.Model() == Empty()
    modifies imports, dependencies
    ensures imports.Valid() && dependencies.Valid()
    ensures dependencies.Model() == PutAll(Empty(), CtorRequests(recvs, fns))
    ensures imports.Model() == PutAll(old(imports.Model()), CtorImports(recvs, fns))
  {
    for i := 0 to |recvs|
      invariant imports.Valid() && dependencies.Valid()
      invariant dependencies.Model() == PutAll(Empty(), CtorRequests(recvs[..i], fns))
      invariant imports.Model() == PutAll(old(imports.Model()), CtorImports(recvs[..i], fns))
    {
      var recv := recvs[i];
      var ctor := FindCtor(fns, recv);
      CtorStep(recvs, fns, i);
      PutAllAppend(Empty(), CtorRequests(recvs[..i], fns), CtorRequest(recv, fns));
      PutAllAppend(old(imports.Model()), CtorImports(recvs[..i], fns), CtorImport(recv, fns));
      if ctor.None? {
        continue;
      }
      var _ := dependencies.Set(recv.String(), ctor.value);
      var pkg := ctor.value.pkg;
      if pkg == null {
        continue;
      }
      var _ := imports.Set(pkg.path, pkg);
    }
    assert recvs[..|recvs|] == recvs;
  }

  /** The loop over one handler's parameters. */
  method RegisterParams(imports: Set<Package>, vs: seq<Var>)
    requires ApiSchema.Typed(vs) && imports.Valid()
    modifies imports
    ensures imports.Valid()
    ensures imports.Model() == PutAll(old(imports.Model()), PackagesOf(vs))
  {
    for j := 0 to |vs|
      invariant imports.Valid()
      invariant imports.Model() == PutAll(old(imports.Model()), PackagesOf(vs[..j]))
    {
      var pkg := vs[j].underlying.pkg;
      var request: seq<(string, Package)> := if pkg != null then [(pkg.path, pkg)] else [];
      PackagesOfStep(vs, j);
      PutAllAppend(old(imports.Model()), PackagesOf(vs[..j]), request);
      if pkg != null {
        var _ := imports.Set(pkg.path, pkg);
      }
    }
    assert vs[..|vs|] == vs;
  }

  /** The import requests of one more parameter. */
  lemma PackagesOfStep(vs: seq<Var>, j: nat)
    requires ApiSchema.Typed(vs) && j < |vs|
    ensures ApiSchema.Typed(vs[..j]) && ApiSchema.Typed(vs[..j + 1])
    ensures var pkg := vs[j].underlying.pkg;
      PackagesOf(vs[..j + 1]) == PackagesOf(vs[..j]) + (if pkg != null then [(pkg.path, pkg)] else [])
  {
    assert vs[..j + 1][..j] == vs[..j];
  }

  /** The constructor search: the functions in order, each one's results in
      order, stopping at the first result of type `recv`. */
  method FindCtor(fns: seq<Registry.Signature>, recv: Type) returns (ctor: Option<Registry.Func>)
    ensures ctor == FirstCtor(fns, recv)
  {
    ctor := None;
    for i := 0 to |fns|
      invariant ctor.None?
      invariant forall j :: 0 <= j < i ==> !ReturnsType(fns[j], recv)
    {
      var fn := fns[i];
      var rs := fn.results;
      for k := 0 to |rs|
        invariant ctor.None? ==> forall m :: 0 <= m < k ==> rs[m].underlying != recv
        invariant ctor.Some? ==> ctor == Some(fn.fn) && ReturnsType(fn, recv)
      {
        if rs[k].underlying == recv {
          ctor := Some(fn.fn);
          break;
        }
      }
      if ctor.Some? {
        break;
      }
    }
  }

  /** Each field request is keyed by its type's string. */
  lemma {:induction false} ReceiverFieldsKeyed(eps: seq<ApiSchema.Endpoint>)
    requires Ready(eps)
    ensures forall n :: 0 <= n < |ReceiverFields(eps)| ==> ReceiverFields(eps)[n].0 == ReceiverFields(eps)[n].1.String()
  {
    if eps != [] {
      assert forall i :: 0 <= i < |eps| - 1 ==> eps[..|eps| - 1][i] == eps[i];
      ReceiverFieldsKeyed(eps[..|eps| - 1]);
    }
  }

  /** The receiver types recorded as fields are keyed by exactly the
      strings of the handlers' receiver types: a handler without a
      receiver adds nothing. */
  lemma FieldKeys(eps: seq<ApiSchema.Endpoint>)
    requires Ready(eps)
    ensures forall i :: 0 <= i < |eps| && eps[i].handler.recv.Some? ==>
      eps[i].handler.recv.value.underlying.String() in KeysOf(ReceiverFields(eps))
    ensures forall key :: key in KeysOf(ReceiverFields(eps)) ==>
      exists i :: 0 <= i < |eps| && eps[i].handler.recv.Some? && eps[i].handler.recv.value.underlying.String() == key
  {
    forall i | 0 <= i < |eps| && eps[i].handler.recv.Some?
      ensures eps[i].handler.recv.value.underlying.String() in KeysOf(ReceiverFields(eps))
    {
      FieldHas(eps, i);
    }
    forall key | key in KeysOf(ReceiverFields(eps))
      ensures exists i :: 0 <= i < |eps| && eps[i].handler.recv.Some? && eps[i].handler.recv.value.underlying.String() == key
    {
      FieldWitness(eps, key);
    }
  }

  /** The field requests of all handlers but the last, and the last one's. */
  lemma FieldsStep(eps: seq<ApiSchema.Endpoint>)
    requires Ready(eps) && eps != []
    ensures Ready(eps[..|eps| - 1])
    ensures var h := eps[|eps| - 1].handler;
      KeysOf(ReceiverFields(eps)) ==
        KeysOf(ReceiverFields(eps[..|eps| - 1])) + (if h.recv.Some? then {h.recv.value.underlying.String()} else {})
  {
    var init := eps[..|eps| - 1];
    assert forall n :: 0 <= n < |init| ==> init[n] == eps[n];
    var h := eps[|eps| - 1].handler;
    KeysOfAppend(ReceiverFields(init), ReceiverField(h));
    ReceiverFieldKeys(h);
  }

  /** A handler's receiver type string is a field key. */
  lemma {:induction false} FieldHas(eps: seq<ApiSchema.Endpoint>, i: nat)
    requires Ready(eps) && i < |eps| && eps[i].handler.recv.Some?
    ensures eps[i].handler.recv.value.underlying.String() in KeysOf(ReceiverFields(eps))
  {
    FieldsStep(eps);
    if i < |eps| - 1 {
      FieldHas(eps[..|eps| - 1], i);
    }
  }

  /** A field key is some handler's receiver type string. */
  lemma {:induction false} FieldWitness(eps: seq<ApiSchema.Endpoint>, key: string)
    requires Ready(eps) && key in KeysOf(ReceiverFields(eps))
    ensures exists i :: 0 <= i < |eps| && eps[i].handler.recv.Some? && eps[i].handler.recv.value.underlying.String() == key
  {
    FieldsStep(eps);
    var init := eps[..|eps| - 1];
    if key in KeysOf(ReceiverFields(init)) {
      FieldWitness(init, key);
      var i :| 0 <= i < |init| && init[i].handler.recv.Some? && init[i].handler.recv.value.underlying.String() == key;
      assert eps[i] == init[i];
    }
  }

  /** The imports from parameters are keyed by exactly the paths of the
      packages of the parameters' types. */
  lemma PackagesOfKeys(vs: seq<Var>)
    requires ApiSchema.Typed(vs)
    ensures forall j :: 0 <= j < |vs| && vs[j].underlying.pkg != null ==> vs[j].underlying.pkg.path in KeysOf(PackagesOf(vs))
    ensures forall key :: key in KeysOf(PackagesOf(vs)) ==>
      exists j :: 0 <= j < |vs| && vs[j].underlying.pkg != null && vs[j].underlying.pkg.path == key
  {
    forall j | 0 <= j < |vs| && vs[j].underlying.pkg != null
      ensures vs[j].underlying.pkg.path in KeysOf(PackagesOf(vs))
    {
      PackagesOfHas(vs, j);
    }
    forall key | key in KeysOf(PackagesOf(vs))
      ensures exists j :: 0 <= j < |vs| && vs[j].underlying.pkg != null && vs[j].underlying.pkg.path == key
    {
      PackagesOfWitness(vs, key);
    }
  }

  /** The import keys of all parameters but the last, and the last one's. */
  lemma PackagesOfKeysStep(vs: seq<Var>)
    requires ApiSchema.Typed(vs) && vs != []
    ensures ApiSchema.Typed(vs[..|vs| - 1])
    ensures var pkg := vs[|vs| - 1].underlying.pkg;
      KeysOf(PackagesOf(vs)) == KeysOf(PackagesOf(vs[..|vs| - 1])) + (if pkg != null then {pkg.path} else {})
  {
    var init := vs[..|vs| - 1];
    var pkg := vs[|vs| - 1].underlying.pkg;
    var request: seq<(string, Package)> := if pkg != null then [(pkg.path, pkg)] else [];
    assert forall j :: 0 <= j < |init| ==> init[j] == vs[j];
    KeysOfAppend(PackagesOf(init), request);
  }

  /** A parameter package's path is an import key. */
  lemma {:induction false} PackagesOfHas(vs: seq<Var>, j: nat)
    requires ApiSchema.Typed(vs) && j < |vs| && vs[j].underlying.pkg != null
    ensures vs[j].underlying.pkg.path in KeysOf(PackagesOf(vs))
  {
    PackagesOfKeysStep(vs);
    if j < |vs| - 1 {
      PackagesOfHas(vs[..|vs| - 1], j);
    }
  }

  /** An import key is the path of some parameter's package. */
  lemma {:induction false} PackagesOfWitness(vs: seq<Var>, key: string)
    requires ApiSchema.Typed(vs) && key in KeysOf(PackagesOf(vs))
    ensures exists j :: 0 <= j < |vs| && vs[j].underlying.pkg != null && vs[j].underlying.pkg.path == key
  {
    PackagesOfKeysStep(vs);
    var init := vs[..|vs| - 1];
    if key in KeysOf(PackagesOf(init)) {
      PackagesOfWitness(init, key);
      var j :| 0 <= j < |init| && init[j].underlying.pkg != null && init[j].underlying.pkg.path == key;
      assert vs[j] == init[j];
    }
  }

  /** The import keys of all endpoints but the last, and the last one's. */
  lemma ParamImportsStep(eps: seq<ApiSchema.Endpoint>)
    requires Ready(eps) && eps != []
    ensures Ready(eps[..|eps| - 1])
    ensures KeysOf(ParamImports(eps)) ==
      KeysOf(ParamImports(eps[..|eps| - 1])) + KeysOf(PackagesOf(eps[|eps| - 1].handler.params))
  {
    var init := eps[..|eps| - 1];
    assert forall n :: 0 <= n < |init| ==> init[n] == eps[n];
    KeysOfAppend(ParamImports(init), PackagesOf(eps[|eps| - 1].handler.params));
  }

  /** An import key of one endpoint's parameters is an import key of all
      the endpoints. */
  lemma {:induction false} ParamImportsHas(eps: seq<ApiSchema.Endpoint>, i: nat, key: string)
    requires Ready(eps) && i < |eps| && key in KeysOf(PackagesOf(eps[i].handler.params))
    ensures key in KeysOf(ParamImports(eps))
  {
    ParamImportsStep(eps);
    if i < |eps| - 1 {
      assert eps[..|eps| - 1][i] == eps[i];
      ParamImportsHas(eps[..|eps| - 1], i, key);
    }
  }

  /** Each import key of all the endpoints comes from one endpoint's
      parameters. */
  lemma {:induction false} ParamImportsFrom(eps: seq<ApiSchema.Endpoint>, key: string)
    requires Ready(eps) && key in KeysOf(ParamImports(eps))
    ensures exists i :: 0 <= i < |eps| && key in KeysOf(PackagesOf(eps[i].handler.params))
  {
    ParamImportsStep(eps);
    var init := eps[..|eps| - 1];
    if key in KeysOf(ParamImports(init)) {
      ParamImportsFrom(init, key);
      var i :| 0 <= i < |init| && key in KeysOf(PackagesOf(init[i].handler.params));
      assert eps[i] == init[i];
    }
  }

  /** Every package of a handler parameter's type is imported under its
      path. */
  lemma ParamImportsComplete(eps: seq<ApiSchema.Endpoint>)
    requires Ready(eps)
    ensures forall i, j :: 0 <= i < |eps| && 0 <= j < |eps[i].handler.params| && eps[i].handler.params[j].underlying.pkg != null ==>
      eps[i].handler.params[j].underlying.pkg.path in KeysOf(ParamImports(eps))
  {
    forall i, j | 0 <= i < |eps| && 0 <= j < |eps[i].handler.params| && eps[i].handler.params[j].underlying.pkg != null
      ensures eps[i].handler.params[j].underlying.pkg.path in KeysOf(ParamImports(eps))
    {
      PackagesOfHas(eps[i].handler.params, j);
      ParamImportsHas(eps, i, eps[i].handler.params[j].underlying.pkg.path);
    }
  }

  /** Every import from parameters is the package of some handler
      parameter's type. */
  lemma ParamImportsSound(eps: seq<ApiSchema.Endpoint>)
    requires Ready(eps)
    ensures forall key :: key in KeysOf(ParamImports(eps)) ==>
      exists i, j :: 0 <= i < |eps| && 0 <= j < |eps[i].handler.params| &&
        eps[i].handler.params[j].underlying.pkg != null && eps[i].handler.params[j].underlying.pkg.path == key
  {
    forall key | key in KeysOf(ParamImports(eps))
      ensures exists i, j :: (0 <= i < |eps| && 0 <= j < |eps[i].handler.params| &&
        eps[i].handler.params[j].underlying.pkg != null && eps[i].handler.params[j].underlying.pkg.path == key)
    {
      ParamImportsFrom(eps, key);
      var i :| 0 <= i < |eps| && key in KeysOf(PackagesOf(eps[i].handler.params));
      PackagesOfWitness(eps[i].handler.params, key);
      var j :| 0 <= j < |eps[i].handler.params| && eps[i].handler.params[j].underlying.pkg != null && eps[i].handler.params[j].underlying.pkg.path == key;
    }
  }

  /** A dependency is recorded for exactly the receiver types that have a
      constructor: one without is skipped. */
  lemma DependencyKeys(recvs: seq<Type>, fns: seq<Registry.Signature>)
    ensures forall i :: 0 <= i < |recvs| && FirstCtor(fns, recvs[i]).Some? ==> recvs[i].String() in KeysOf(CtorRequests(recvs, fns))
    ensures forall key :: key in KeysOf(CtorRequests(recvs, fns)) ==>
      exists i :: 0 <= i < |recvs| && FirstCtor(fns, recvs[i]).Some? && recvs[i].String() == key
  {
    forall i | 0 <= i < |recvs| && FirstCtor(fns, recvs[i]).Some?
      ensures recvs[i].String() in KeysOf(CtorRequests(recvs, fns))
    {
      DependencyHas(recvs, fns, i);
    }
    forall key | key in KeysOf(CtorRequests(recvs, fns))
      ensures exists i :: 0 <= i < |recvs| && FirstCtor(fns, recvs[i]).Some? && recvs[i].String() == key
    {
      DependencyWitness(recvs, fns, key);
    }
  }

  /** The dependency keys of all receiver types but the last, and the last
      one's. */
  lemma DependencyStep(recvs: seq<Type>, fns: seq<Registry.Signature>)
    requires recvs != []
    ensures var t := recvs[|recvs| - 1];
      KeysOf(CtorRequests(recvs, fns)) ==
        KeysOf(CtorRequests(recvs[..|recvs| - 1], fns)) + (if FirstCtor(fns, t).Some? then {t.String()} else {})
  {
    KeysOfAppend(CtorRequests(recvs[..|recvs| - 1], fns), CtorRequest(recvs[|recvs| - 1], fns));
  }

  /** A receiver type with a constructor has its string as a dependency
      key. */
  lemma {:induction false} DependencyHas(recvs: seq<Type>, fns: seq<Registry.Signature>, i: nat)
    requires i < |recvs| && FirstCtor(fns, recvs[i]).Some?
    ensures recvs[i].String() in KeysOf(CtorRequests(recvs, fns))
  {
    DependencyStep(recvs, fns);
    if i < |recvs| - 1 {
      assert recvs[..|recvs| - 1][i] == recvs[i];
      DependencyHas(recvs[..|recvs| - 1], fns, i);
    }
  }

  /** A dependency key is the string of a receiver type with a
      constructor. */
  lemma {:induction false} DependencyWitness(recvs: seq<Type>, fns: seq<Registry.Signature>, key: string)
    requires key in KeysOf(CtorRequests(recvs, fns))
    ensures exists i :: 0 <= i < |recvs| && FirstCtor(fns, recvs[i]).Some? && recvs[i].String() == key
  {
    DependencyStep(recvs, fns);
    var init := recvs[..|recvs| - 1];
    if key in KeysOf(CtorRequests(init, fns)) {
      DependencyWitness(init, fns, key);
      var i :| 0 <= i < |init| && FirstCtor(fns, init[i]).Some? && init[i].String() == key;
      assert recvs[i] == init[i];
    }
  }

  /** The dependency requests of a concatenation are those of each part. */
  lemma {:induction false} CtorRequestsAppend(a: seq<Type>, b: seq<Type>, fns: seq<Registry.Signature>)
    ensures CtorRequests(a + b, fns) == CtorRequests(a, fns) + CtorRequests(b, fns)
    decreases |b|
  {
    if b == [] {
      assert a + b == a;
    } else {
      assert (a + b)[..|a + b| - 1] == a + b[..|b| - 1];
      CtorRequestsAppend(a, b[..|b| - 1], fns);
    }
  }

  /** When the receiver types have distinct strings (as the items of
      `Fields` do), each one with a constructor has that constructor, the
      first function returning it, recorded under its string. */
  lemma {:induction false} DependencyIsFirstCtor(recvs: seq<Type>, fns: seq<Registry.Signature>, i: nat)
    requires forall a, b :: 0 <= a < b < |recvs| ==> recvs[a].String() != recvs[b].String()
    requires i < |recvs| && FirstCtor(fns, recvs[i]).Some?
    ensures PutAll(Empty(), CtorRequests(recvs, fns)).Valid()
    ensures recvs[i].String() in PutAll(Empty(), CtorRequests(recvs, fns)).indexes
    ensures PutAll(Empty(), CtorRequests(recvs, fns)).Get(recvs[i].String()) == FirstCtor(fns, recvs[i]).value
  {
    var before := recvs[..i];
    var rest := recvs[i + 1..];
    assert recvs == before + [recvs[i]] + rest;
    CtorRequestsAppend(before + [recvs[i]], rest, fns);
    CtorRequestsAppend(before, [recvs[i]], fns);
    assert [recvs[i]][..0] == [];
    var reqs := CtorRequests(recvs, fns);
    var p := |CtorRequests(before, fns)|;
    assert reqs[p] == (recvs[i].String(), FirstCtor(fns, recvs[i]).value);
    DependencyKeys(before, fns);
    forall j | 0 <= j < p ensures reqs[j].0 != reqs[p].0 {
      assert reqs[j] == CtorRequests(before, fns)[j];
      assert reqs[j].0 in KeysOf(CtorRequests(before, fns));
    }
    PutAllGet(reqs, p);
  }

  /** The items of `Fields` have distinct strings: a later receiver type
      with the string of an earlier one is dropped. */
  lemma {:induction false} FieldItemsDistinct(kvs: seq<(string, Type)>)
    requires forall n :: 0 <= n < |kvs| ==> kvs[n].0 == kvs[n].1.String()
    ensures forall t :: t in FirstItems(kvs) ==> t.String() in KeysOf(kvs)
    ensures forall a, b :: 0 <= a < b < |FirstItems(kvs)| ==> FirstItems(kvs)[a].String() != FirstItems(kvs)[b].String()
  {
    if kvs != [] {
      var init := kvs[..|kvs| - 1];
      var last := kvs[|kvs| - 1];
      assert forall n :: 0 <= n < |init| ==> init[n] == kvs[n];
      FieldItemsDistinct(init);
      assert init + [last] == kvs;
      KeysOfAppend(init, [last]);
      var items := FirstItems(init);
      if last.0 in KeysOf(init) {
        assert FirstItems(kvs) == items;
      } else {
        assert FirstItems(kvs) == items + [last.1];
        assert last.1.String() == last.0;
        DistinctStringsSnoc(items, last.1);
      }
    }
  }

  /** A type whose string no item has keeps the item strings distinct. */
  lemma DistinctStringsSnoc(items: seq<Type>, t: Type)
    requires forall a, b :: 0 <= a < b < |items| ==> items[a].String() != items[b].String()
    requires forall u :: u in items ==> u.String() != t.String()
    ensures forall a, b :: 0 <= a < b < |items + [t]| ==> (items + [t])[a].String() != (items + [t])[b].String()
  {
    forall a, b | 0 <= a < b < |items| + 1
      ensures (items + [t])[a].String() != (items + [t])[b].String()
    {
      if b == |items| {
        assert items[a] in items;
      }
    }
  }
}
