/** pkg/parser/api/parser.go: the older reading of an `ease:api` directive
    into a method and a path. Unlike the schema's reading, an unknown or
    missing method is never an error: it falls back to GET. Keys other than
    `method` and `path` are ignored, and as in the schema the loop over the
    directive's map takes its keys in any order. */
module ApiParser {
  import opened Results
  import opened HttpMethods

  /** `Endpoint`: method and path. */
  datatype Endpoint = Endpoint(verb: string, path: string)

  /** `ErrInvalidPath`. */
  datatype ApiError = InvalidPath

  /** `MethodInvalid`. */
  const NoMethod: string := ""

  /** `methodFromRawValue`: the six exact upper-case names map to themselves,
      anything else to `MethodInvalid`. */
  function MethodFromRawValue(value: string): (m: string)
    ensures value in Methods ==> m == value
    ensures value !in Methods ==> m == NoMethod
    ensures m == NoMethod || m in Methods
  {
    if value in Methods then value else NoMethod
  }

  /** `parseEndpoint(directive, decl)`: fails with `ErrInvalidPath` exactly
      when the path is missing or empty; otherwise the method is the
      directive's one if it names one of the six, GET in every other case,
      and the path is the directive's. */
  method ParseEndpoint(params: map<string, string>) returns (r: Result<Endpoint, ApiError>)
    ensures r.Err? <==> "path" !in params || params["path"] == ""
    ensures r.Err? ==> r.error == InvalidPath
    ensures r.Ok? ==> r.value.path == params["path"]
    ensures r.Ok? ==>
      r.value.verb == (if "method" in params && params["method"] in Methods then params["method"] else Get)
  {
    var endpoint := Endpoint(NoMethod, "");
    var todo := params.Keys;
    while todo != {}
      invariant todo <= params.Keys
      invariant endpoint.verb == if "method" in params && "method" !in todo then MethodFromRawValue(params["method"]) else NoMethod
      invariant endpoint.path == if "path" in params && "path" !in todo then params["path"] else ""
      decreases |todo|
    {
      var name :| name in todo;
      todo := todo - {name};
      if name == "method" {
        endpoint := endpoint.(verb := MethodFromRawValue(params[name]));
      } else if name == "path" {
        endpoint := endpoint.(path := params[name]);
      }
    }

    if endpoint.verb == NoMethod {
      endpoint := endpoint.(verb := Get);
    }

    if endpoint.path == "" {
      return Err(InvalidPath);
    }
    r := Ok(endpoint);
  }

  /** Whatever the directive says, a parsed endpoint has one of the six
      methods, and a key other than `method` and `path` changes nothing:
      parsing the map with or without it gives the same outcome. */
  method ExtraKeysIgnored(params: map<string, string>, key: string, value: string)
    returns (r: Result<Endpoint, ApiError>, r': Result<Endpoint, ApiError>)
    requires key != "method" && key != "path"
    ensures r == r'
    ensures r.Ok? ==> r.value.verb in Methods
  {
    r := ParseEndpoint(params);
    r' := ParseEndpoint(params[key := value]);
  }

  /** A lower-case `post` is not a method name, so it silently becomes GET. */
  method LowerCasePostScenario() returns (r: Result<Endpoint, ApiError>)
    ensures r == Ok(Endpoint(Get, "/api/todos"))
  {
    assert "post" !in Methods by {
      assert "post"[0] == 'p';
    }
    r := ParseEndpoint(map["method" := "post", "path" := "/api/todos"]);
  }
}
