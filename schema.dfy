/** pkg/parser/api/schema.go: turning an `ease:api` directive and the
    function it annotates into an endpoint. The directive's `method` is
    validated, its `path` is required, every parameter of the handler that
    is not a `context.Context` becomes a request parameter whose source
    (path, query or body) follows from the path and the method, and the
    response is the first result that is not an `error`.

    The directive's parameters are a Go map, whose iteration order is
    unspecified: the loop over them picks any remaining key, and the
    contract holds for every order. */
module ApiSchema {
  import opened Results
  import opened Text
  import opened Entities
  import opened HttpMethods
  import Registry

  /** `ParamFrom`: where a request parameter is read. */
  datatype ParamFrom = FromPath | FromQuery | FromBody

  /** `ErrInvalidPath` and `ErrInvalidMethod`. */
  datatype ApiError = InvalidPath | InvalidMethod

  /** `Param`: a request parameter, its source and the handler parameter it
      fills. */
  datatype Param = Param(name: string, src: ParamFrom, decl: Var)

  /** `Endpoint`: the handler with its parsed signature, the method (empty
      when the directive names none), the path, the request parameters and
      the response value (`returns`), if any. */
  datatype Endpoint = Endpoint(
    handler: Registry.Signature,
    verb: string,
    path: string,
    params: seq<Param>,
    response: Option<Var>)

  const MethodParam: string := "method"
  const PathParam: string := "path"

  /** `parseMethod`: the six methods pass unchanged, an empty value means
      GET, and anything else is rejected. */
  function ParseMethod(value: string): (r: Result<string, ApiError>)
    ensures r.Ok? <==> value in Methods || value == ""
    ensures r.Ok? ==> r.value in Methods
    ensures value in Methods ==> r == Ok(value)
    ensures value == "" ==> r == Ok(Get)
    ensures r.Err? ==> r.error == InvalidMethod
  {
    if value in Methods then Ok(value)
    else if value == "" then Ok(Get)
    else Err(InvalidMethod)
  }

  /** Every var has a type: the source asks each parameter whether it is a
      context and each result whether it is an error. */
  predicate Typed(vs: seq<Var>) {
    forall i :: 0 <= i < |vs| ==> vs[i].underlying != null
  }

  /** The source of a parameter named `name`: the path when it holds
      `:name`, otherwise the query for GET and the body for any other
      method, including the empty one. */
  function Source(name: string, path: string, verb: string): ParamFrom {
    if Contains(path, ":" + name) then FromPath
    else if verb == Get then FromQuery
    else FromBody
  }

  /** The request parameter a handler parameter yields, if any. */
  function ParamOf(v: Var, path: string, verb: string): seq<Param>
    requires v.underlying != null
  {
    if v.underlying.IsContext() then [] else [Param(v.name, Source(v.name, path, verb), v)]
  }

  /** The request parameters of the handler parameters `vs`. */
  function EndpointParams(vs: seq<Var>, path: string, verb: string): seq<Param>
    requires Typed(vs)
  {
    if vs == [] then []
    else EndpointParams(vs[..|vs| - 1], path, verb) + ParamOf(vs[|vs| - 1], path, verb)
  }

  /** The position of the first result that is not an `error`, `|rs|` when
      there is none. */
  function FirstNonErrorIndex(rs: seq<Var>): (k: nat)
    requires Typed(rs)
    ensures k <= |rs|
    ensures forall j :: 0 <= j < k ==> rs[j].underlying.IsError()
    ensures k < |rs| ==> !rs[k].underlying.IsError()
  {
    if rs == [] || !rs[0].underlying.IsError() then 0
    else 1 + FirstNonErrorIndex(rs[1..])
  }

  /** The response value: the first result that is not an `error`. */
  function FirstNonError(rs: seq<Var>): Option<Var>
    requires Typed(rs)
  {
    var k := FirstNonErrorIndex(rs);
    if k < |rs| then Some(rs[k]) else None
  }

  /** `parseEndpoint(directive, handler)`.

      An invalid `method` fails with `ErrInvalidMethod`; otherwise a missing
      or empty `path` fails with `ErrInvalidPath`; otherwise the endpoint
      holds the handler, the method as `parseMethod` gives it (the empty
      string when the directive has no `method`), the path, the request
      parameters and the response value. */
  method ParseEndpoint(params: map<string, string>, handler: Registry.Signature) returns (r: Result<Endpoint, ApiError>)
    requires Typed(handler.params) && Typed(handler.results)
    ensures MethodParam in params && ParseMethod(params[MethodParam]).Err? ==> r == Err(InvalidMethod)
    ensures r.Ok? <==>
      && (MethodParam in params ==> ParseMethod(params[MethodParam]).Ok?)
      && PathParam in params && params[PathParam] != ""
    ensures r.Err? && (MethodParam in params ==> ParseMethod(params[MethodParam]).Ok?) ==> r == Err(InvalidPath)
    ensures r.Ok? ==>
      var verb := if MethodParam in params then ParseMethod(params[MethodParam]).value else "";
      && r.value.handler == handler
      && r.value.verb == verb
      && r.value.path == params[PathParam]
      && r.value.params == EndpointParams(handler.params, params[PathParam], verb)
      && r.value.response == FirstNonError(handler.results)
  {
    var verb := "";
    var path := "";
    var todo := params.Keys;
    while todo != {}
      invariant todo <= params.Keys
      invariant MethodParam in params && MethodParam !in todo ==> ParseMethod(params[MethodParam]).Ok?
      invariant verb == if MethodParam in params && MethodParam !in todo then ParseMethod(params[MethodParam]).value else ""
      invariant path == if PathParam in params && PathParam !in todo then params[PathParam] else ""
      decreases |todo|
    {
      var name :| name in todo;
      todo := todo - {name};
      if name == MethodParam {
        var m := ParseMethod(params[name]);
        if m.Err? {
          return Err(m.error);
        }
        verb := m.value;
      } else if name == PathParam {
        path := params[name];
      }
    }

    if path == "" {
      return Err(InvalidPath);
    }

    var ps := RequestParams(handler.params, path, verb);
    var response := Returns(handler.results);
    r := Ok(Endpoint(handler, verb, path, ps, response));
  }

  /** The loop over the handler's parameters: context parameters are
      skipped, the others appended in order with their source. */
  method RequestParams(vs: seq<Var>, path: string, verb: string) returns (ps: seq<Param>)
    requires Typed(vs)
    ensures ps == EndpointParams(vs, path, verb)
  {
    ps := [];
    for i := 0 to |vs|
      invariant ps == EndpointParams(vs[..i], path, verb)
    {
      assert vs[..i + 1][..i] == vs[..i];
      var v := vs[i];
      if v.underlying.IsContext() {
        continue;
      }
      var src: ParamFrom;
      if Contains(path, ":" + v.name) {
        src := FromPath;
      } else if verb == Get {
        src := FromQuery;
      } else {
        src := FromBody;
      }
      ps := ps + [Param(v.name, src, v)];
    }
    assert vs[..|vs|] == vs;
  }

  /** The loop over the handler's results: `error` results are skipped, the
      first other one is taken. */
  method Returns(rs: seq<Var>) returns (ret: Option<Var>)
    requires Typed(rs)
    ensures ret == FirstNonError(rs)
  {
    ret := None;
    for i := 0 to |rs|
      invariant forall j :: 0 <= j < i ==> rs[j].underlying.IsError()
    {
      if rs[i].underlying.IsError() {
        continue;
      }
      ret := Some(rs[i]);
      break;
    }
  }

  /** The request parameters of a concatenation are those of each part, in
      order: the parameters are filtered, never reordered. */
  lemma {:induction false} EndpointParamsAppend(a: seq<Var>, b: seq<Var>, path: string, verb: string)
    requires Typed(a) && Typed(b)
    ensures Typed(a + b)
    ensures EndpointParams(a + b, path, verb) == EndpointParams(a, path, verb) + EndpointParams(b, path, verb)
    decreases |b|
  {
    if b == [] {
      assert a + b == a;
    } else {
      var b' := b[..|b| - 1];
      var v := b[|b| - 1];
      TypedAppend(a, b);
      assert (a + b)[..|a + b| - 1] == a + b';
      assert (a + b)[|a + b| - 1] == v;
      EndpointParamsAppend(a, b', path, verb);
      assert EndpointParams(a + b, path, verb) == EndpointParams(a + b', path, verb) + ParamOf(v, path, verb);
    }
  }

  /** Typed parts make a typed concatenation, and a typed sequence has
      typed prefixes. */
  lemma TypedAppend(a: seq<Var>, b: seq<Var>)
    requires Typed(a) && Typed(b)
    ensures Typed(a + b) && (b != [] ==> Typed(b[..|b| - 1]))
  {
    assert forall i :: 0 <= i < |a + b| ==> (a + b)[i] == if i < |a| then a[i] else b[i - |a|];
  }

  /** A request parameter is made for exactly the non-context handler
      parameters, and carries that parameter's name, its source and the
      parameter itself. */
  lemma {:induction false} EndpointParamsMembers(vs: seq<Var>, path: string, verb: string)
    requires Typed(vs)
    ensures forall p :: p in EndpointParams(vs, path, verb) ==>
      && p.decl in vs && !p.decl.underlying.IsContext()
      && p.name == p.decl.name && p.src == Source(p.name, path, verb)
    ensures forall i :: 0 <= i < |vs| && !vs[i].underlying.IsContext() ==>
      exists p :: p in EndpointParams(vs, path, verb) && p.decl == vs[i]
  {
    if vs != [] {
      var init := vs[..|vs| - 1];
      EndpointParamsMembers(init, path, verb);
      forall i | 0 <= i < |vs| && !vs[i].underlying.IsContext()
        ensures exists p :: p in EndpointParams(vs, path, verb) && p.decl == vs[i]
      {
        if i < |vs| - 1 {
          assert vs[i] == init[i];
        } else {
          assert Param(vs[i].name, Source(vs[i].name, path, verb), vs[i]) in EndpointParams(vs, path, verb);
        }
      }
      forall p | p in EndpointParams(vs, path, verb)
        ensures p.decl in vs
      {
        if p in EndpointParams(init, path, verb) {
          assert p.decl in init;
        }
      }
    }
  }

  /** Without context parameters nothing is dropped: one request parameter
      per handler parameter. */
  lemma {:induction false} EndpointParamsNoContext(vs: seq<Var>, path: string, verb: string)
    requires Typed(vs)
    requires forall i :: 0 <= i < |vs| ==> !vs[i].underlying.IsContext()
    ensures |EndpointParams(vs, path, verb)| == |vs|
    ensures forall i :: 0 <= i < |vs| ==> EndpointParams(vs, path, verb)[i].decl == vs[i]
  {
    if vs != [] {
      EndpointParamsNoContext(vs[..|vs| - 1], path, verb);
    }
  }

  /** The source test is a substring test: in `/api/todos/:id` a parameter
      named `i` is also read from the path. */
  lemma PrefixNameReadFromPath()
    ensures Source("id", "/api/todos/:id", Put) == FromPath
    ensures Source("i", "/api/todos/:id", Put) == FromPath
    ensures Source("cmd", "/api/todos/:id", Put) == FromBody
  {
    var path := "/api/todos/:id";
    assert path[11..] == ":id";
    assert ":" + "id" == path[11..14] && OccursAt(path, ":" + "id", 11);
    assert ":" + "i" == path[11..13] && OccursAt(path, ":" + "i", 11);
    assert 'c' !in path by {
      assert forall j :: 0 <= j < |path| ==> path[j] != 'c';
    }
    NotContainsMissingChar(path, ":" + "cmd", 'c');
  }

  /** A directive without `method` leaves the method empty, which is not
      GET: a parameter missing from the path is then read from the body,
      whereas an explicit empty `method` means GET and the query. */
  lemma MissingMethodReadsBody(name: string, path: string)
    requires !Contains(path, ":" + name)
    ensures Source(name, path, "") == FromBody
    ensures ParseMethod("") == Ok(Get) && Source(name, path, ParseMethod("").value) == FromQuery
  {
  }

  /** The `Update` handler of the todo example, annotated
      `ease:api method=PUT path=/api/todos/:id` and taking a context, an
      `id` and a `cmd`: the context is dropped, `id` is read from the path,
      `cmd` from the body, and the `*Todo` result is the response. */
  method UpdateTodoScenario() returns (r: Result<Endpoint, ApiError>)
    ensures r.Ok? && r.value.verb == Put && r.value.path == "/api/todos/:id"
    ensures |r.value.params| == 2
    ensures r.value.params[0].name == "id" && r.value.params[0].src == FromPath
    ensures r.value.params[1].name == "cmd" && r.value.params[1].src == FromBody
    ensures r.value.response.Some? && r.value.response.value.underlying != null && r.value.response.value.underlying.name == "Todo"
  {
    var contextPkg := new Package("context");
    var todoPkg := new Package("github.com/YuukanOO/ease/examples/todo");
    var contextType := new Type(contextPkg, "Context");
    var uintType := new Type(null, "uint");
    var commandType := new Type(todoPkg, "TodoUpdateCommand");
    var todoType := new Type(todoPkg, "Todo");
    var errorType := new Type(null, "error");
    var fn := new Registry.Func(todoPkg, "Update");
    var ctx := Var("ctx", VarKindIdent, contextType);
    var id := Var("id", VarKindBuiltin, uintType);
    var cmd := Var("cmd", VarKindIdent, commandType);
    var todo := Var("", VarKindPointer | VarKindIdent, todoType);
    var handler := Registry.Signature(fn, None, [ctx, id, cmd], [todo, Var("", VarKindBuiltin, errorType)]);
    var path := "/api/todos/:id";

    assert contextType.IsContext() by { IsContextIff(contextType); }
    assert !uintType.IsContext() by { IsContextIff(uintType); }
    assert !commandType.IsContext() by { IsContextIff(commandType); }
    assert !todoType.IsError() by { IsErrorIff(todoType); }
    r := ParseUpdateTodo(handler);
  }

  /** `parseEndpoint` of `ease:api method=PUT path=/api/todos/:id` on a
      handler taking a context, an `id` and a `cmd` and returning a
      non-error first. */
  method ParseUpdateTodo(handler: Registry.Signature) returns (r: Result<Endpoint, ApiError>)
    requires |handler.params| == 3 && Typed(handler.params) && Typed(handler.results)
    requires handler.params[0].underlying.IsContext()
    requires handler.params[1].name == "id" && !handler.params[1].underlying.IsContext()
    requires handler.params[2].name == "cmd" && !handler.params[2].underlying.IsContext()
    requires handler.results != [] && !handler.results[0].underlying.IsError()
    ensures r == Ok(Endpoint(handler, Put, "/api/todos/:id",
      [Param("id", FromPath, handler.params[1]), Param("cmd", FromBody, handler.params[2])],
      Some(handler.results[0])))
  {
    var path := "/api/todos/:id";
    assert handler.params == [handler.params[0], handler.params[1], handler.params[2]];
    UpdateTodoParams(handler.params[0], handler.params[1], handler.params[2]);
    FirstResultNotError(handler.results);
    var params := map[MethodParam := Put, PathParam := path];
    DirectiveParams(Put, path);
    r := ParseEndpoint(params, handler);
  }

  /** The parameters of `ease:api method=<verb> path=<path>`. */
  lemma DirectiveParams(verb: string, path: string)
    requires verb in Methods
    ensures var params := map[MethodParam := verb, PathParam := path];
      && MethodParam in params && params[MethodParam] == verb
      && PathParam in params && params[PathParam] == path
      && ParseMethod(verb) == Ok(verb)
  {
    assert MethodParam[0] != PathParam[0];
  }

  /** A first result that is not an `error` is the response. */
  lemma FirstResultNotError(rs: seq<Var>)
    requires Typed(rs) && rs != [] && !rs[0].underlying.IsError()
    ensures FirstNonError(rs) == Some(rs[0])
  {
  }

  /** The request parameters of `Update(ctx, id, cmd)` on
      `PUT /api/todos/:id`. */
  lemma UpdateTodoParams(ctx: Var, id: Var, cmd: Var)
    requires ctx.underlying != null && ctx.underlying.IsContext()
    requires id.name == "id" && id.underlying != null && !id.underlying.IsContext()
    requires cmd.name == "cmd" && cmd.underlying != null && !cmd.underlying.IsContext()
    ensures EndpointParams([ctx, id, cmd], "/api/todos/:id", Put) == [Param("id", FromPath, id), Param("cmd", FromBody, cmd)]
  {
    var path := "/api/todos/:id";
    PrefixNameReadFromPath();
    assert ParamOf(id, path, Put) == [Param("id", FromPath, id)];
    assert ParamOf(cmd, path, Put) == [Param("cmd", FromBody, cmd)];
    assert [ctx, id, cmd][..2] == [ctx, id] && [ctx, id][..1] == [ctx] && [ctx][..0] == [];
    assert EndpointParams([ctx], path, Put) == [];
    assert EndpointParams([ctx, id], path, Put) == [Param("id", FromPath, id)];
  }

  /** A text lacking some character of `sub` does not contain `sub`. */
  lemma NotContainsMissingChar(s: string, sub: string, c: char)
    requires c in sub && c !in s
    ensures !Contains(s, sub)
  {
    var k :| 0 <= k < |sub| && sub[k] == c;
    assert forall i :: OccursAt(s, sub, i) ==> s[i + k] == c;
  }
}
