/** Constructor dependency resolution (pkg/parser/func.go `Funcs.Resolve`
    and `ResolveResult.resolveFn`): which functions must be called, and in
    which order, to build values of some types. A parameter type not yet
    recorded is looked up among the results of every function; each match
    is resolved recursively (its own parameters first), recorded under the
    type's string and appended to the call order.

    The functions are read through the signatures `Params()`/`Returns()`
    yield (`Signature`), as `Registry.Func.Accessors` returns them. The
    registered functions have no declaration, and pkg/parser/func.go's
    `parse` would dereference it (`Registry.RegisteredAccessFails`); that
    pairs pkg/parser/result.go with a `Func` from another revision, since
    result.go sets a `name` field func.go's `Func` lacks and calls a
    three-argument `newType` pkg/parser/type.go declares with two. Matching compares type instances,
    memoisation uses the type's string. Every parameter must have a type
    (`Typed`): the source calls `String()` on it. The source has no cycle
    guard, only the memo: it recurses without end when its scan reaches a
    producer on a cycle while that producer's type is not yet recorded. A
    cycle no target reaches, or one the memo breaks because a producer
    outside it is listed, and so resolved, first (a decorator such as
    `Wrap(l Logger) Logger` after `NewLogger() Logger`), ends. The model
    takes a `rank` that every producer of a parameter type undercuts
    (`Ranked`), which makes the whole dependency graph acyclic and so also
    excludes those terminating cases. */
module Resolution {
  import opened Results
  import opened Entities
  import Registry

  type Signature = Registry.Signature

  /** The resolution state: the producer recorded per type string and the
      functions in call order. */
  datatype State = State(types: map<string, Registry.Func>, ordered: seq<Registry.Func>)

  /** The error for a parameter type nobody produces. */
  function MissingConstructor(typeName: string): string {
    "could not find a valid constructor for " + typeName
  }

  /** Every parameter has a type (the source calls `String()` on it). */
  predicate Typed(fns: seq<Signature>) {
    forall i, k :: 0 <= i < |fns| && 0 <= k < |fns[i].params| ==> fns[i].params[k].underlying != null
  }

  /** Every function producing a parameter type of function `i` ranks
      strictly below `i`. */
  predicate Ranked(fns: seq<Signature>, rank: seq<nat>) {
    && |rank| == |fns|
    && forall i, k, j, m ::
      (&& 0 <= i < |fns| && 0 <= k < |fns[i].params| && 0 <= j < |fns| && 0 <= m < |fns[j].results|
       && fns[j].results[m].underlying == fns[i].params[k].underlying) ==> rank[j] < rank[i]
  }

  /** `resolveFn(fns, fns[i])` from state `st`: the parameters in order,
      then the function itself appended. */
  function ResolveFnF(fns: seq<Signature>, rank: seq<nat>, i: nat, st: State): Result<State, string>
    requires Typed(fns) && Ranked(fns, rank) && i < |fns|
    decreases rank[i], 2, 0, 0
  {
    match ParamsF(fns, rank, i, 0, st)
    case Err(e) => Err(e)
    case Ok(st') => Ok(st'.(ordered := st'.ordered + [fns[i].fn]))
  }

  /** The parameter loop of `resolveFn`, from parameter `k` on: a type
      already recorded is skipped, otherwise every producer is resolved,
      and no producer at all is an error. */
  function ParamsF(fns: seq<Signature>, rank: seq<nat>, i: nat, k: nat, st: State): Result<State, string>
    requires Typed(fns) && Ranked(fns, rank) && i < |fns| && k <= |fns[i].params|
    decreases rank[i], 1, |fns[i].params| - k, 0
  {
    if k == |fns[i].params| then Ok(st)
    else
      var t := fns[i].params[k].underlying;
      if t.String() in st.types then ParamsF(fns, rank, i, k + 1, st)
      else
        match ScanF(fns, rank, i, k, 0, 0, st, false)
        case Err(e) => Err(e)
        case Ok(r) =>
          if !r.1 then Err(MissingConstructor(t.String()))
          else ParamsF(fns, rank, i, k + 1, r.0)
  }

  /** The producer scan for parameter `k` of function `i`, from result `m`
      of function `j` on; `found` tells whether a producer was met. Every
      producer is resolved and recorded, the last one staying. */
  function ScanF(fns: seq<Signature>, rank: seq<nat>, i: nat, k: nat, j: nat, m: nat, st: State, found: bool): Result<(State, bool), string>
    requires Typed(fns) && Ranked(fns, rank) && i < |fns| && k < |fns[i].params|
    requires j <= |fns| && (j < |fns| ==> m <= |fns[j].results|)
    decreases rank[i], 0, |fns| - j, if j < |fns| then |fns[j].results| - m else 0
  {
    if j == |fns| then Ok((st, found))
    else if m == |fns[j].results| then ScanF(fns, rank, i, k, j + 1, 0, st, found)
    else
      var t := fns[i].params[k].underlying;
      if fns[j].results[m].underlying == t then
        match ResolveFnF(fns, rank, j, st)
        case Err(e) => Err(e)
        case Ok(st') => ScanF(fns, rank, i, k, j, m + 1, st'.(types := st'.types[t.String() := fns[j].fn]), true)
      else ScanF(fns, rank, i, k, j, m + 1, st, found)
  }

  /** `Resolve(targets...)`'s loop from target `t` on: a target already
      recorded is skipped, otherwise every producer is resolved. */
  function ResolveF(fns: seq<Signature>, rank: seq<nat>, targets: seq<Type>, t: nat, st: State): Result<State, string>
    requires Typed(fns) && Ranked(fns, rank) && t <= |targets|
    decreases |targets| - t
  {
    if t == |targets| then Ok(st)
    else if targets[t].String() in st.types then ResolveF(fns, rank, targets, t + 1, st)
    else
      match TopScanF(fns, rank, targets[t], 0, 0, st)
      case Err(e) => Err(e)
      case Ok(st') => ResolveF(fns, rank, targets, t + 1, st')
  }

  /** The producer scan for a target of `Resolve`. */
  function TopScanF(fns: seq<Signature>, rank: seq<nat>, target: Type, j: nat, m: nat, st: State): Result<State, string>
    requires Typed(fns) && Ranked(fns, rank)
    requires j <= |fns| && (j < |fns| ==> m <= |fns[j].results|)
    decreases |fns| - j, if j < |fns| then |fns[j].results| - m else 0
  {
    if j == |fns| then Ok(st)
    else if m == |fns[j].results| then TopScanF(fns, rank, target, j + 1, 0, st)
    else if fns[j].results[m].underlying == target then
      match ResolveFnF(fns, rank, j, st)
      case Err(e) => Err(e)
      case Ok(st') => TopScanF(fns, rank, target, j, m + 1, st'.(types := st'.types[target.String() := fns[j].fn]))
    else TopScanF(fns, rank, target, j, m + 1, st)
  }

  /** The outcome of `Resolve` over `fns` for `targets`. */
  function Resolved(fns: seq<Signature>, rank: seq<nat>, targets: seq<Type>): Result<State, string>
    requires Typed(fns) && Ranked(fns, rank)
  {
    ResolveF(fns, rank, targets, 0, State(map[], []))
  }

  /** The result of a resolution: the producer per type and the call order. */
  class ResolveResult {
    var ordered: seq<Registry.Func>
    var types: map<string, Registry.Func>

    function Current(): State
      reads this
    {
      State(types, ordered)
    }

    constructor ()
      ensures ordered == [] && types == map[]
    {
      ordered := [];
      types := map[];
    }

    /** `Funcs()`: the functions in call order. */
    function Funcs(): seq<Registry.Func>
      reads this
    {
      ordered
    }

    /** `resolveFn(fns, fns[i])`: on success the function itself, with the
        state advanced as `ResolveFnF` says; on failure its error. */
    method ResolveFn(fns: seq<Signature>, rank: seq<nat>, i: nat) returns (res: Result<Registry.Func, string>)
      requires Typed(fns) && Ranked(fns, rank) && i < |fns|
      modifies this
      ensures res.Ok? <==> ResolveFnF(fns, rank, i, old(Current())).Ok?
      ensures res.Ok? ==> res.value == fns[i].fn && Current() == ResolveFnF(fns, rank, i, old(Current())).value
      ensures res.Err? ==> res.error == ResolveFnF(fns, rank, i, old(Current())).error
      decreases rank[i]
    {
      ghost var st0 := Current();
      var ps := fns[i].params;
      for k := 0 to |ps|
        invariant ParamsF(fns, rank, i, k, Current()) == ParamsF(fns, rank, i, 0, st0)
      {
        var t := ps[k].underlying;
        if t.String() in types {
          continue;
        }
        ghost var stk := Current();
        var found := false;
        for j := 0 to |fns|
          invariant ScanF(fns, rank, i, k, j, 0, Current(), found) == ScanF(fns, rank, i, k, 0, 0, stk, false)
        {
          for m := 0 to |fns[j].results|
            invariant ScanF(fns, rank, i, k, j, m, Current(), found) == ScanF(fns, rank, i, k, 0, 0, stk, false)
          {
            if fns[j].results[m].underlying == t {
              var r := ResolveFn(fns, rank, j);
              if r.Err? {
                return Err(r.error);
              }
              types := types[t.String() := r.value];
              found := true;
            }
          }
        }
        if !found {
          return Err(MissingConstructor(t.String()));
        }
      }
      ordered := ordered + [fns[i].fn];
      return Ok(fns[i].fn);
    }
  }

  /** `Funcs.Resolve(targets...)`: a fresh result advanced as `Resolved`
      says, or the error, in which case no result is returned. */
  method Resolve(fns: seq<Signature>, rank: seq<nat>, targets: seq<Type>) returns (res: Result<ResolveResult, string>)
    requires Typed(fns) && Ranked(fns, rank)
    ensures res.Ok? <==> Resolved(fns, rank, targets).Ok?
    ensures res.Ok? ==> fresh(res.value) && res.value.Current() == Resolved(fns, rank, targets).value
    ensures res.Err? ==> res.error == Resolved(fns, rank, targets).error
  {
    var r := new ResolveResult();
    for t := 0 to |targets|
      invariant ResolveF(fns, rank, targets, t, r.Current()) == Resolved(fns, rank, targets)
    {
      var typ := targets[t];
      if typ.String() in r.types {
        continue;
      }
      ghost var stt := r.Current();
      for j := 0 to |fns|
        invariant TopScanF(fns, rank, typ, j, 0, r.Current()) == TopScanF(fns, rank, typ, 0, 0, stt)
      {
        for m := 0 to |fns[j].results|
          invariant TopScanF(fns, rank, typ, j, m, r.Current()) == TopScanF(fns, rank, typ, 0, 0, stt)
        {
          if fns[j].results[m].underlying == typ {
            var resolved := r.ResolveFn(fns, rank, j);
            if resolved.Err? {
              return Err(resolved.error);
            }
            r.types := r.types[typ.String() := resolved.value];
          }
        }
      }
    }
    return Ok(r);
  }

  /** Some result of a function at or after result `m` of function `j`
      has type `t`. */
  ghost predicate ProducerAfter(fns: seq<Signature>, t: Type?, j: nat, m: nat) {
    exists j', m' ::
      && j <= j' < |fns| && 0 <= m' < |fns[j'].results| && (j' == j ==> m <= m')
      && fns[j'].results[m'].underlying == t
  }

  /** Some function of `fns` produces `t`. */
  ghost predicate HasProducer(fns: seq<Signature>, t: Type?) {
    ProducerAfter(fns, t, 0, 0)
  }

  /** Every parameter type of every function has a producer. */
  ghost predicate Complete(fns: seq<Signature>) {
    forall i, k :: 0 <= i < |fns| && 0 <= k < |fns[i].params| ==> HasProducer(fns, fns[i].params[k].underlying)
  }

  /** `f` is a function of `fns` with a result whose type string is `key`. */
  ghost predicate Produces(fns: seq<Signature>, f: Registry.Func, key: string) {
    exists j, m ::
      && 0 <= j < |fns| && 0 <= m < |fns[j].results| && fns[j].fn == f
      && fns[j].results[m].underlying != null && fns[j].results[m].underlying.String() == key
  }

  /** Every recorded producer returns the recorded type and is already in
      the call order, and the call order lists functions of `fns` only. */
  ghost predicate Sound(fns: seq<Signature>, st: State) {
    && (forall key :: key in st.types ==> st.types[key] in st.ordered && Produces(fns, st.types[key], key))
    && (forall x :: 0 <= x < |st.ordered| ==> exists j :: 0 <= j < |fns| && fns[j].fn == st.ordered[x])
  }

  /** Resolution only adds: recorded types stay recorded (possibly with a
      later producer) and the call order is only appended to. */
  ghost predicate Grows(before: State, after: State) {
    before.types.Keys <= after.types.Keys && before.ordered <= after.ordered
  }

  lemma GrowsTrans(a: State, b: State, c: State)
    requires Grows(a, b) && Grows(b, c)
    ensures Grows(a, c)
  {
  }

  /** Dependency-first: a resolved function comes last in the call order,
      after the producers recorded for all of its parameter types. */
  lemma {:induction false} ResolveFnSound(fns: seq<Signature>, rank: seq<nat>, i: nat, st: State)
    requires Typed(fns) && Ranked(fns, rank) && i < |fns| && Sound(fns, st)
    ensures ResolveFnF(fns, rank, i, st).Ok? ==>
      var st' := ResolveFnF(fns, rank, i, st).value;
      && Grows(st, st') && Sound(fns, st') && |st.ordered| < |st'.ordered|
      && st'.ordered[|st'.ordered| - 1] == fns[i].fn
      && forall k :: 0 <= k < |fns[i].params| ==>
        var key := fns[i].params[k].underlying.String();
        key in st'.types && st'.types[key] in st'.ordered[..|st'.ordered| - 1]
    decreases rank[i], 2, 0, 0
  {
    ParamsSound(fns, rank, i, 0, st);
    var p := ParamsF(fns, rank, i, 0, st);
    if p.Ok? {
      var s := p.value;
      var s' := ResolveFnF(fns, rank, i, st).value;
      assert s' == s.(ordered := s.ordered + [fns[i].fn]);
      assert s'.ordered[..|s'.ordered| - 1] == s.ordered;
      AppendSound(fns, s, i);
    }
  }

  /** Appending a function of `fns` to the call order keeps the state
      sound and only adds. */
  lemma AppendSound(fns: seq<Signature>, s: State, i: nat)
    requires i < |fns| && Sound(fns, s)
    ensures var s' := s.(ordered := s.ordered + [fns[i].fn]);
      Sound(fns, s') && Grows(s, s')
  {
    var s' := s.(ordered := s.ordered + [fns[i].fn]);
    forall key | key in s'.types
      ensures s'.types[key] in s'.ordered
    {
      var x :| 0 <= x < |s.ordered| && s.ordered[x] == s.types[key];
      assert s'.ordered[x] == s.ordered[x];
    }
    forall x | 0 <= x < |s'.ordered|
      ensures exists j :: 0 <= j < |fns| && fns[j].fn == s'.ordered[x]
    {
      if x == |s.ordered| {
        assert fns[i].fn == s'.ordered[x];
      } else {
        assert s'.ordered[x] == s.ordered[x];
      }
    }
  }

  /** The parameter loop keeps the state sound and records every parameter
      type from `k` on. */
  lemma {:induction false} ParamsSound(fns: seq<Signature>, rank: seq<nat>, i: nat, k: nat, st: State)
    requires Typed(fns) && Ranked(fns, rank) && i < |fns| && k <= |fns[i].params| && Sound(fns, st)
    ensures ParamsF(fns, rank, i, k, st).Ok? ==>
      var st' := ParamsF(fns, rank, i, k, st).value;
      && Grows(st, st') && Sound(fns, st')
      && forall k' :: k <= k' < |fns[i].params| ==> fns[i].params[k'].underlying.String() in st'.types
    decreases rank[i], 1, |fns[i].params| - k, 1
  {
    if k < |fns[i].params| {
      if fns[i].params[k].underlying.String() in st.types {
        ParamsSound(fns, rank, i, k + 1, st);
        var p := ParamsF(fns, rank, i, k + 1, st);
        assert ParamsF(fns, rank, i, k, st) == p;
        if p.Ok? {
          RecordedFrom(fns, i, k, st, p.value);
        }
      } else {
        ParamsScanSound(fns, rank, i, k, st);
      }
    }
  }

  /** Parameter `k`'s type, recorded before the rest of the loop, stays
      recorded with the types of the parameters after it. */
  lemma RecordedFrom(fns: seq<Signature>, i: nat, k: nat, before: State, after: State)
    requires Typed(fns) && i < |fns| && k < |fns[i].params|
    requires fns[i].params[k].underlying.String() in before.types && Grows(before, after)
    requires forall k' :: k + 1 <= k' < |fns[i].params| ==> fns[i].params[k'].underlying.String() in after.types
    ensures forall k' :: k <= k' < |fns[i].params| ==> fns[i].params[k'].underlying.String() in after.types
  {
  }

  /** `ParamsSound` for a parameter type not yet recorded. */
  lemma {:induction false} ParamsScanSound(fns: seq<Signature>, rank: seq<nat>, i: nat, k: nat, st: State)
    requires Typed(fns) && Ranked(fns, rank) && i < |fns| && k < |fns[i].params| && Sound(fns, st)
    requires fns[i].params[k].underlying.String() !in st.types
    ensures ParamsF(fns, rank, i, k, st).Ok? ==>
      var st' := ParamsF(fns, rank, i, k, st).value;
      && Grows(st, st') && Sound(fns, st')
      && forall k' :: k <= k' < |fns[i].params| ==> fns[i].params[k'].underlying.String() in st'.types
    decreases rank[i], 1, |fns[i].params| - k, 0
  {
    ScanSound(fns, rank, i, k, 0, 0, st, false);
    var r := ScanF(fns, rank, i, k, 0, 0, st, false);
    if r.Ok? && r.value.1 {
      var s1 := r.value.0;
      ParamsSound(fns, rank, i, k + 1, s1);
      var p := ParamsF(fns, rank, i, k + 1, s1);
      assert ParamsF(fns, rank, i, k, st) == p;
      if p.Ok? {
        GrowsTrans(st, s1, p.value);
        RecordedFrom(fns, i, k, s1, p.value);
      }
    }
  }

  /** The producer scan keeps the state sound and, once a producer is
      met, the parameter type recorded. */
  lemma {:induction false} ScanSound(fns: seq<Signature>, rank: seq<nat>, i: nat, k: nat, j: nat, m: nat, st: State, found: bool)
    requires Typed(fns) && Ranked(fns, rank) && i < |fns| && k < |fns[i].params|
    requires j <= |fns| && (j < |fns| ==> m <= |fns[j].results|)
    requires Sound(fns, st) && (found ==> fns[i].params[k].underlying.String() in st.types)
    ensures ScanF(fns, rank, i, k, j, m, st, found).Ok? ==>
      var r := ScanF(fns, rank, i, k, j, m, st, found).value;
      && Grows(st, r.0) && Sound(fns, r.0)
      && (r.1 ==> fns[i].params[k].underlying.String() in r.0.types)
    decreases rank[i], 0, |fns| - j, if j < |fns| then |fns[j].results| - m else 0, 1
  {
    if j == |fns| {
    } else if m == |fns[j].results| {
      ScanSound(fns, rank, i, k, j + 1, 0, st, found);
      assert ScanF(fns, rank, i, k, j, m, st, found) == ScanF(fns, rank, i, k, j + 1, 0, st, found);
    } else if fns[j].results[m].underlying == fns[i].params[k].underlying {
      ScanHit(fns, rank, i, k, j, m, st, found);
    } else {
      ScanSound(fns, rank, i, k, j, m + 1, st, found);
      assert ScanF(fns, rank, i, k, j, m, st, found) == ScanF(fns, rank, i, k, j, m + 1, st, found);
    }
  }

  /** `ScanSound` at a producer of the parameter type: it is resolved,
      then recorded. */
  lemma {:induction false} ScanHit(fns: seq<Signature>, rank: seq<nat>, i: nat, k: nat, j: nat, m: nat, st: State, found: bool)
    requires Typed(fns) && Ranked(fns, rank) && i < |fns| && k < |fns[i].params|
    requires j < |fns| && m < |fns[j].results| && fns[j].results[m].underlying == fns[i].params[k].underlying
    requires Sound(fns, st)
    ensures ScanF(fns, rank, i, k, j, m, st, found).Ok? ==>
      var r := ScanF(fns, rank, i, k, j, m, st, found).value;
      && Grows(st, r.0) && Sound(fns, r.0)
      && fns[i].params[k].underlying.String() in r.0.types
    decreases rank[i], 0, |fns| - j, |fns[j].results| - m, 0
  {
    var t := fns[i].params[k].underlying;
    ResolveFnSound(fns, rank, j, st);
    var r := ResolveFnF(fns, rank, j, st);
    if r.Ok? {
      var s := r.value;
      var s' := s.(types := s.types[t.String() := fns[j].fn]);
      RecordSound(fns, s, j, m);
      ScanSound(fns, rank, i, k, j, m + 1, s', true);
      var q := ScanF(fns, rank, i, k, j, m + 1, s', true);
      assert ScanF(fns, rank, i, k, j, m, st, found) == q;
      if q.Ok? {
        GrowsTrans(st, s, s');
        GrowsTrans(st, s', q.value.0);
      }
    }
  }

  /** Recording a function just resolved as the producer of one of its
      result types keeps the state sound and only adds. */
  lemma RecordSound(fns: seq<Signature>, s: State, j: nat, m: nat)
    requires j < |fns| && m < |fns[j].results| && fns[j].results[m].underlying != null
    requires Sound(fns, s) && s.ordered != [] && s.ordered[|s.ordered| - 1] == fns[j].fn
    ensures var s' := s.(types := s.types[fns[j].results[m].underlying.String() := fns[j].fn]);
      Sound(fns, s') && Grows(s, s')
  {
    var key := fns[j].results[m].underlying.String();
    assert fns[j].fn in s.ordered;
    assert Produces(fns, fns[j].fn, key);
  }

  /** The scan meets a producer exactly when there is one ahead of it. */
  lemma {:induction false} ScanFound(fns: seq<Signature>, rank: seq<nat>, i: nat, k: nat, j: nat, m: nat, st: State, found: bool)
    requires Typed(fns) && Ranked(fns, rank) && i < |fns| && k < |fns[i].params|
    requires j <= |fns| && (j < |fns| ==> m <= |fns[j].results|)
    ensures ScanF(fns, rank, i, k, j, m, st, found).Ok? ==>
      ScanF(fns, rank, i, k, j, m, st, found).value.1 == (found || ProducerAfter(fns, fns[i].params[k].underlying, j, m))
    decreases |fns| - j, if j < |fns| then |fns[j].results| - m else 0
  {
    var t := fns[i].params[k].underlying;
    if j == |fns| {
    } else if m == |fns[j].results| {
      ScanFound(fns, rank, i, k, j + 1, 0, st, found);
      ProducerAfterNext(fns, t, j);
    } else if fns[j].results[m].underlying == t {
      var r := ResolveFnF(fns, rank, j, st);
      if r.Ok? {
        ScanFound(fns, rank, i, k, j, m + 1, r.value.(types := r.value.types[t.String() := fns[j].fn]), true);
      }
    } else {
      ScanFound(fns, rank, i, k, j, m + 1, st, found);
      ProducerAfterStep(fns, t, j, m);
    }
  }

  /** Past the last result of function `j`, the producers ahead are those
      of the next functions. */
  lemma ProducerAfterNext(fns: seq<Signature>, t: Type?, j: nat)
    requires j < |fns|
    ensures ProducerAfter(fns, t, j, |fns[j].results|) <==> ProducerAfter(fns, t, j + 1, 0)
  {
    if ProducerAfter(fns, t, j, |fns[j].results|) {
      var j', m' :| && j <= j' < |fns| && 0 <= m' < |fns[j'].results| && (j' == j ==> |fns[j].results| <= m')
                    && fns[j'].results[m'].underlying == t;
      assert j' > j;
    }
  }

  /** A result that is not a producer can be stepped over. */
  lemma ProducerAfterStep(fns: seq<Signature>, t: Type?, j: nat, m: nat)
    requires j < |fns| && m < |fns[j].results| && fns[j].results[m].underlying != t
    ensures ProducerAfter(fns, t, j, m) <==> ProducerAfter(fns, t, j, m + 1)
  {
    if ProducerAfter(fns, t, j, m) {
      var j', m' :| && j <= j' < |fns| && 0 <= m' < |fns[j'].results| && (j' == j ==> m <= m')
                    && fns[j'].results[m'].underlying == t;
      assert j' == j ==> m' != m;
    }
  }

  /** With no producer ahead, the scan changes nothing. */
  lemma {:induction false} ScanNone(fns: seq<Signature>, rank: seq<nat>, i: nat, k: nat, j: nat, m: nat, st: State, found: bool)
    requires Typed(fns) && Ranked(fns, rank) && i < |fns| && k < |fns[i].params|
    requires j <= |fns| && (j < |fns| ==> m <= |fns[j].results|)
    requires !ProducerAfter(fns, fns[i].params[k].underlying, j, m)
    ensures ScanF(fns, rank, i, k, j, m, st, found) == Ok((st, found))
    decreases |fns| - j, if j < |fns| then |fns[j].results| - m else 0
  {
    var t := fns[i].params[k].underlying;
    if j == |fns| {
    } else if m == |fns[j].results| {
      ProducerAfterNext(fns, t, j);
      ScanNone(fns, rank, i, k, j + 1, 0, st, found);
    } else {
      assert fns[j].results[m].underlying != t;
      ProducerAfterStep(fns, t, j, m);
      ScanNone(fns, rank, i, k, j, m + 1, st, found);
    }
  }

  /** Parameters whose types are all recorded are skipped. */
  lemma {:induction false} ParamsSkip(fns: seq<Signature>, rank: seq<nat>, i: nat, k: nat, n: nat, st: State)
    requires Typed(fns) && Ranked(fns, rank) && i < |fns| && k <= n <= |fns[i].params|
    requires forall k' :: k <= k' < n ==> fns[i].params[k'].underlying.String() in st.types
    ensures ParamsF(fns, rank, i, k, st) == ParamsF(fns, rank, i, n, st)
    decreases n - k
  {
    if k < n {
      ParamsSkip(fns, rank, i, k + 1, n, st);
    }
  }

  /** The first parameter type that is neither recorded nor produced by any
      function makes the resolution fail with its name, before anything
      changes. */
  lemma MissingConstructorError(fns: seq<Signature>, rank: seq<nat>, i: nat, k: nat, st: State)
    requires Typed(fns) && Ranked(fns, rank) && i < |fns| && k < |fns[i].params|
    requires forall k' :: 0 <= k' < k ==> fns[i].params[k'].underlying.String() in st.types
    requires fns[i].params[k].underlying.String() !in st.types
    requires !HasProducer(fns, fns[i].params[k].underlying)
    ensures ResolveFnF(fns, rank, i, st) == Err(MissingConstructor(fns[i].params[k].underlying.String()))
  {
    ParamsSkip(fns, rank, i, 0, k, st);
    ScanNone(fns, rank, i, k, 0, 0, st, false);
  }

  /** When every parameter type has a producer, resolving a function
      succeeds. */
  lemma {:induction false} ResolveFnOk(fns: seq<Signature>, rank: seq<nat>, i: nat, st: State)
    requires Typed(fns) && Ranked(fns, rank) && i < |fns| && Complete(fns)
    ensures ResolveFnF(fns, rank, i, st).Ok?
    decreases rank[i], 2, 0, 0
  {
    ParamsOk(fns, rank, i, 0, st);
  }

  lemma {:induction false} ParamsOk(fns: seq<Signature>, rank: seq<nat>, i: nat, k: nat, st: State)
    requires Typed(fns) && Ranked(fns, rank) && i < |fns| && k <= |fns[i].params| && Complete(fns)
    ensures ParamsF(fns, rank, i, k, st).Ok?
    decreases rank[i], 1, |fns[i].params| - k, 0
  {
    if k < |fns[i].params| {
      var t := fns[i].params[k].underlying;
      if t.String() in st.types {
        ParamsOk(fns, rank, i, k + 1, st);
      } else {
        ScanOk(fns, rank, i, k, 0, 0, st, false);
        ScanFound(fns, rank, i, k, 0, 0, st, false);
        assert HasProducer(fns, t);
        ParamsOk(fns, rank, i, k + 1, ScanF(fns, rank, i, k, 0, 0, st, false).value.0);
      }
    }
  }

  lemma {:induction false} ScanOk(fns: seq<Signature>, rank: seq<nat>, i: nat, k: nat, j: nat, m: nat, st: State, found: bool)
    requires Typed(fns) && Ranked(fns, rank) && i < |fns| && k < |fns[i].params| && Complete(fns)
    requires j <= |fns| && (j < |fns| ==> m <= |fns[j].results|)
    ensures ScanF(fns, rank, i, k, j, m, st, found).Ok?
    decreases rank[i], 0, |fns| - j, if j < |fns| then |fns[j].results| - m else 0
  {
    if j == |fns| {
    } else if m == |fns[j].results| {
      ScanOk(fns, rank, i, k, j + 1, 0, st, found);
    } else {
      var t := fns[i].params[k].underlying;
      if fns[j].results[m].underlying == t {
        ResolveFnOk(fns, rank, j, st);
        var s := ResolveFnF(fns, rank, j, st).value;
        ScanOk(fns, rank, i, k, j, m + 1, s.(types := s.types[t.String() := fns[j].fn]), true);
      } else {
        ScanOk(fns, rank, i, k, j, m + 1, st, found);
      }
    }
  }

  /** The target scan keeps the state sound and records the target once a
      producer of it is met. */
  lemma {:induction false} TopScanSound(fns: seq<Signature>, rank: seq<nat>, target: Type, j: nat, m: nat, st: State)
    requires Typed(fns) && Ranked(fns, rank) && Sound(fns, st)
    requires j <= |fns| && (j < |fns| ==> m <= |fns[j].results|)
    ensures TopScanF(fns, rank, target, j, m, st).Ok? ==>
      var st' := TopScanF(fns, rank, target, j, m, st).value;
      && Grows(st, st') && Sound(fns, st')
      && (target.String() in st.types || ProducerAfter(fns, target, j, m) ==> target.String() in st'.types)
    decreases |fns| - j, if j < |fns| then |fns[j].results| - m else 0, 1
  {
    if j == |fns| {
    } else if m == |fns[j].results| {
      ProducerAfterNext(fns, target, j);
      TopScanSound(fns, rank, target, j + 1, 0, st);
      assert TopScanF(fns, rank, target, j, m, st) == TopScanF(fns, rank, target, j + 1, 0, st);
    } else if fns[j].results[m].underlying == target {
      TopScanHit(fns, rank, target, j, m, st);
    } else {
      ProducerAfterStep(fns, target, j, m);
      TopScanSound(fns, rank, target, j, m + 1, st);
      assert TopScanF(fns, rank, target, j, m, st) == TopScanF(fns, rank, target, j, m + 1, st);
    }
  }

  /** `TopScanSound` at a producer of the target: it is resolved, then
      recorded. */
  lemma {:induction false} TopScanHit(fns: seq<Signature>, rank: seq<nat>, target: Type, j: nat, m: nat, st: State)
    requires Typed(fns) && Ranked(fns, rank) && Sound(fns, st)
    requires j < |fns| && m < |fns[j].results| && fns[j].results[m].underlying == target
    ensures TopScanF(fns, rank, target, j, m, st).Ok? ==>
      var st' := TopScanF(fns, rank, target, j, m, st).value;
      Grows(st, st') && Sound(fns, st') && target.String() in st'.types
    decreases |fns| - j, |fns[j].results| - m, 0
  {
    ResolveFnSound(fns, rank, j, st);
    var r := ResolveFnF(fns, rank, j, st);
    if r.Ok? {
      var s := r.value;
      var s' := s.(types := s.types[target.String() := fns[j].fn]);
      RecordSound(fns, s, j, m);
      TopScanSound(fns, rank, target, j, m + 1, s');
      var p := TopScanF(fns, rank, target, j, m + 1, s');
      assert TopScanF(fns, rank, target, j, m, st) == p;
      if p.Ok? {
        GrowsTrans(st, s, s');
        GrowsTrans(st, s', p.value);
      }
    }
  }

  /** `Resolve` from target `t` on keeps the state sound and records every
      target some function produces. */
  lemma {:induction false} ResolveFSound(fns: seq<Signature>, rank: seq<nat>, targets: seq<Type>, t: nat, st: State)
    requires Typed(fns) && Ranked(fns, rank) && t <= |targets| && Sound(fns, st)
    ensures ResolveF(fns, rank, targets, t, st).Ok? ==>
      var st' := ResolveF(fns, rank, targets, t, st).value;
      && Grows(st, st') && Sound(fns, st')
      && forall t' :: t <= t' < |targets| && HasProducer(fns, targets[t']) ==> targets[t'].String() in st'.types
    decreases |targets| - t
  {
    if t < |targets| {
      var s1 := if targets[t].String() in st.types then Ok(st) else TopScanF(fns, rank, targets[t], 0, 0, st);
      if targets[t].String() !in st.types {
        TopScanSound(fns, rank, targets[t], 0, 0, st);
      }
      if s1.Ok? {
        ResolveFSound(fns, rank, targets, t + 1, s1.value);
        var p := ResolveF(fns, rank, targets, t + 1, s1.value);
        assert ResolveF(fns, rank, targets, t, st) == p;
        if p.Ok? {
          GrowsTrans(st, s1.value, p.value);
          forall t' | t <= t' < |targets| && HasProducer(fns, targets[t'])
            ensures targets[t'].String() in p.value.types
          {
            if t' == t {
              assert s1.value.types.Keys <= p.value.types.Keys;
            }
          }
        }
      }
    }
  }

  /** What `Resolve` records: a sound state (every type mapped to a
      function of `fns` returning it, already in the call order; the call
      order made of functions of `fns`) recording every target that has a
      producer. */
  lemma ResolvedSound(fns: seq<Signature>, rank: seq<nat>, targets: seq<Type>)
    requires Typed(fns) && Ranked(fns, rank)
    ensures Resolved(fns, rank, targets).Ok? ==>
      var st := Resolved(fns, rank, targets).value;
      && Sound(fns, st)
      && forall t :: 0 <= t < |targets| && HasProducer(fns, targets[t]) ==> targets[t].String() in st.types
  {
    ResolveFSound(fns, rank, targets, 0, State(map[], []));
  }

  /** With no producer ahead, the target scan changes nothing. */
  lemma {:induction false} TopScanNone(fns: seq<Signature>, rank: seq<nat>, target: Type, j: nat, m: nat, st: State)
    requires Typed(fns) && Ranked(fns, rank)
    requires j <= |fns| && (j < |fns| ==> m <= |fns[j].results|)
    requires !ProducerAfter(fns, target, j, m)
    ensures TopScanF(fns, rank, target, j, m, st) == Ok(st)
    decreases |fns| - j, if j < |fns| then |fns[j].results| - m else 0
  {
    if j == |fns| {
    } else if m == |fns[j].results| {
      ProducerAfterNext(fns, target, j);
      TopScanNone(fns, rank, target, j + 1, 0, st);
    } else {
      ProducerAfterStep(fns, target, j, m);
      TopScanNone(fns, rank, target, j, m + 1, st);
    }
  }

  /** Targets whose types are all recorded are skipped: `Resolve` already
      knows how to build them and scans no function for them. */
  lemma {:induction false} TargetsSkip(fns: seq<Signature>, rank: seq<nat>, targets: seq<Type>, t: nat, n: nat, st: State)
    requires Typed(fns) && Ranked(fns, rank) && t <= n <= |targets|
    requires forall t' :: t <= t' < n ==> targets[t'].String() in st.types
    ensures ResolveF(fns, rank, targets, t, st) == ResolveF(fns, rank, targets, n, st)
    decreases n - t
  {
    if t < n {
      TargetsSkip(fns, rank, targets, t + 1, n, st);
    }
  }

  /** A target that no function produces is skipped without an error. */
  lemma TargetWithoutProducerSkipped(fns: seq<Signature>, rank: seq<nat>, targets: seq<Type>, t: nat, st: State)
    requires Typed(fns) && Ranked(fns, rank) && t < |targets|
    requires !HasProducer(fns, targets[t])
    ensures ResolveF(fns, rank, targets, t, st) == ResolveF(fns, rank, targets, t + 1, st)
  {
    TopScanNone(fns, rank, targets[t], 0, 0, st);
  }

  lemma {:induction false} TopScanOk(fns: seq<Signature>, rank: seq<nat>, target: Type, j: nat, m: nat, st: State)
    requires Typed(fns) && Ranked(fns, rank) && Complete(fns)
    requires j <= |fns| && (j < |fns| ==> m <= |fns[j].results|)
    ensures TopScanF(fns, rank, target, j, m, st).Ok?
    decreases |fns| - j, if j < |fns| then |fns[j].results| - m else 0
  {
    if j == |fns| {
    } else if m == |fns[j].results| {
      TopScanOk(fns, rank, target, j + 1, 0, st);
    } else if fns[j].results[m].underlying == target {
      ResolveFnOk(fns, rank, j, st);
      var s := ResolveFnF(fns, rank, j, st).value;
      TopScanOk(fns, rank, target, j, m + 1, s.(types := s.types[target.String() := fns[j].fn]));
    } else {
      TopScanOk(fns, rank, target, j, m + 1, st);
    }
  }

  lemma {:induction false} ResolveFOk(fns: seq<Signature>, rank: seq<nat>, targets: seq<Type>, t: nat, st: State)
    requires Typed(fns) && Ranked(fns, rank) && Complete(fns) && t <= |targets|
    ensures ResolveF(fns, rank, targets, t, st).Ok?
    decreases |targets| - t
  {
    if t < |targets| {
      if targets[t].String() in st.types {
        ResolveFOk(fns, rank, targets, t + 1, st);
      } else {
        TopScanOk(fns, rank, targets[t], 0, 0, st);
        ResolveFOk(fns, rank, targets, t + 1, TopScanF(fns, rank, targets[t], 0, 0, st).value);
      }
    }
  }

  /** When every parameter type of every function has a producer, `Resolve`
      succeeds, whatever the targets. */
  lemma ResolvedComplete(fns: seq<Signature>, rank: seq<nat>, targets: seq<Type>)
    requires Typed(fns) && Ranked(fns, rank) && Complete(fns)
    ensures Resolved(fns, rank, targets).Ok?
  {
    ResolveFOk(fns, rank, targets, 0, State(map[], []));
  }

  /** `t` is produced by result `m0` of function `j0` and by nothing else. */
  ghost predicate OnlyProducer(fns: seq<Signature>, t: Type?, j0: nat, m0: nat) {
    && j0 < |fns| && m0 < |fns[j0].results| && fns[j0].results[m0].underlying == t
    && forall j, m :: 0 <= j < |fns| && 0 <= m < |fns[j].results| && fns[j].results[m].underlying == t ==> j == j0 && m == m0
  }

  /** With a single producer, the parameter scan resolves it and records
      it, and does nothing else. */
  lemma {:induction false} ScanOne(fns: seq<Signature>, rank: seq<nat>, i: nat, k: nat, j0: nat, m0: nat, j: nat, m: nat, st: State, found: bool)
    requires Typed(fns) && Ranked(fns, rank) && i < |fns| && k < |fns[i].params|
    requires OnlyProducer(fns, fns[i].params[k].underlying, j0, m0)
    requires j < j0 || (j == j0 && m <= m0)
    requires j < |fns| ==> m <= |fns[j].results|
    ensures ScanF(fns, rank, i, k, j, m, st, found) ==
      match ResolveFnF(fns, rank, j0, st)
      case Err(e) => Err(e)
      case Ok(s) => Ok((s.(types := s.types[fns[i].params[k].underlying.String() := fns[j0].fn]), true))
    decreases |fns| - j, if j < |fns| then |fns[j].results| - m else 0
  {
    var t := fns[i].params[k].underlying;
    if m == |fns[j].results| {
      ScanOne(fns, rank, i, k, j0, m0, j + 1, 0, st, found);
    } else if j == j0 && m == m0 {
      var r := ResolveFnF(fns, rank, j0, st);
      if r.Ok? {
        assert !ProducerAfter(fns, t, j0, m0 + 1);
        ScanNone(fns, rank, i, k, j0, m0 + 1, r.value.(types := r.value.types[t.String() := fns[j0].fn]), true);
      }
    } else {
      assert fns[j].results[m].underlying != t;
      ScanOne(fns, rank, i, k, j0, m0, j, m + 1, st, found);
    }
  }

  /** With a single producer, the target scan resolves it and records it. */
  lemma {:induction false} TopScanOne(fns: seq<Signature>, rank: seq<nat>, target: Type, j0: nat, m0: nat, j: nat, m: nat, st: State)
    requires Typed(fns) && Ranked(fns, rank)
    requires OnlyProducer(fns, target, j0, m0)
    requires j < j0 || (j == j0 && m <= m0)
    requires j < |fns| ==> m <= |fns[j].results|
    ensures TopScanF(fns, rank, target, j, m, st) ==
      match ResolveFnF(fns, rank, j0, st)
      case Err(e) => Err(e)
      case Ok(s) => Ok(s.(types := s.types[target.String() := fns[j0].fn]))
    decreases |fns| - j, if j < |fns| then |fns[j].results| - m else 0
  {
    if m == |fns[j].results| {
      TopScanOne(fns, rank, target, j0, m0, j + 1, 0, st);
    } else if j == j0 && m == m0 {
      var r := ResolveFnF(fns, rank, j0, st);
      if r.Ok? {
        assert !ProducerAfter(fns, target, j0, m0 + 1);
        TopScanNone(fns, rank, target, j0, m0 + 1, r.value.(types := r.value.types[target.String() := fns[j0].fn]));
      }
    } else {
      assert fns[j].results[m].underlying != target;
      TopScanOne(fns, rank, target, j0, m0, j, m + 1, st);
    }
  }

  /** The types and functions of pkg/parser/testdepdata/dep.go. */
  datatype DepWorld = DepWorld(
    pkg: Package,
    dbOptions: Type, service: Type, logger: Type, database: Type, otherService: Type,
    loadOptions: Registry.Func, newService: Registry.Func, newLogger: Registry.Func,
    newOtherService: Registry.Func, openDatabase: Registry.Func)

  /** Each type is the one of that name declared in the package. */
  predicate DepDeclared(w: DepWorld) {
    && w.dbOptions.pkg == w.pkg && w.dbOptions.name == "DBOptions"
    && w.service.pkg == w.pkg && w.service.name == "Service"
    && w.logger.pkg == w.pkg && w.logger.name == "Logger"
    && w.database.pkg == w.pkg && w.database.name == "Database"
    && w.otherService.pkg == w.pkg && w.otherService.name == "OtherService"
  }

  /** The signatures, in declaration order. */
  function DepFns(w: DepWorld): seq<Signature> {
    [ Registry.Signature(w.loadOptions, None, [], [Var("", VarKindIdent, w.dbOptions)]),
      Registry.Signature(w.newService, None,
        [ Var("logger", VarKindIdent, w.logger), Var("db", VarKindIdent, w.database),
          Var("other", VarKindPointer | VarKindIdent, w.otherService) ],
        [Var("", VarKindPointer | VarKindIdent, w.service)]),
      Registry.Signature(w.newLogger, None, [Var("", VarKindIdent, w.database)], [Var("", VarKindIdent, w.logger)]),
      Registry.Signature(w.newOtherService, None, [Var("logger", VarKindIdent, w.logger)],
        [Var("", VarKindPointer | VarKindIdent, w.otherService)]),
      Registry.Signature(w.openDatabase, None, [Var("", VarKindIdent, w.dbOptions)], [Var("", VarKindIdent, w.database)]) ]
  }

  /** LoadOptions, OpenDatabase, NewLogger, NewOtherService, NewService. */
  const DepRank: seq<nat> := [0, 4, 2, 3, 1]

  lemma DepWellFormed(w: DepWorld)
    requires DepDeclared(w)
    ensures Typed(DepFns(w)) && Ranked(DepFns(w), DepRank)
    ensures OnlyProducer(DepFns(w), w.dbOptions, 0, 0)
    ensures OnlyProducer(DepFns(w), w.service, 1, 0)
    ensures OnlyProducer(DepFns(w), w.logger, 2, 0)
    ensures OnlyProducer(DepFns(w), w.otherService, 3, 0)
    ensures OnlyProducer(DepFns(w), w.database, 4, 0)
  {
    DepRanked(w);
    DepProducers(w);
  }

  /** Every producer of a parameter type of dep.go ranks below its user. */
  lemma DepRanked(w: DepWorld)
    requires DepDeclared(w)
    ensures Typed(DepFns(w)) && Ranked(DepFns(w), DepRank)
  {
    var fns := DepFns(w);
    forall i, k, j, m |
      && 0 <= i < |fns| && 0 <= k < |fns[i].params| && 0 <= j < |fns| && 0 <= m < |fns[j].results|
      && fns[j].results[m].underlying == fns[i].params[k].underlying
      ensures DepRank[j] < DepRank[i]
    {
      assert m == 0;
      if i == 0 {} else if i == 1 {} else if i == 2 {} else if i == 3 {} else {}
    }
  }

  /** Each type of dep.go is the result of exactly one function. */
  lemma DepProducers(w: DepWorld)
    requires DepDeclared(w)
    ensures OnlyProducer(DepFns(w), w.dbOptions, 0, 0)
    ensures OnlyProducer(DepFns(w), w.service, 1, 0)
    ensures OnlyProducer(DepFns(w), w.logger, 2, 0)
    ensures OnlyProducer(DepFns(w), w.otherService, 3, 0)
    ensures OnlyProducer(DepFns(w), w.database, 4, 0)
  {
    var fns := DepFns(w);
    assert forall j :: 0 <= j < |fns| ==> |fns[j].results| == 1;
  }

  /** The string keys of the five types differ (their lengths do). */
  lemma DepKeysDiffer(w: DepWorld)
    requires DepDeclared(w)
    ensures |w.dbOptions.String()| == |w.pkg.path| + 10
    ensures |w.service.String()| == |w.pkg.path| + 8
    ensures |w.logger.String()| == |w.pkg.path| + 7
    ensures |w.database.String()| == |w.pkg.path| + 9
    ensures |w.otherService.String()| == |w.pkg.path| + 13
  {
  }

  /** Resolving `Service` over the functions of dep.go in declaration order
      calls LoadOptions, OpenDatabase, NewLogger, NewOtherService and
      NewService, in that order, each recorded for the type it returns. */
  lemma DepScenario(w: DepWorld)
    requires DepDeclared(w)
    ensures Typed(DepFns(w)) && Ranked(DepFns(w), DepRank)
    ensures Resolved(DepFns(w), DepRank, [w.service]) == Ok(State(
      map[w.dbOptions.String() := w.loadOptions, w.database.String() := w.openDatabase,
          w.logger.String() := w.newLogger, w.otherService.String() := w.newOtherService,
          w.service.String() := w.newService],
      [w.loadOptions, w.openDatabase, w.newLogger, w.newOtherService, w.newService]))
  {
    DepWellFormed(w);
    DepKeysDiffer(w);
    var fns, rank := DepFns(w), DepRank;
    var e := State(map[], []);
    // NewService, reached from the target scan.
    var s5 := DepLogger(w, e);
    var o, d, l, x := w.dbOptions.String(), w.database.String(), w.logger.String(), w.otherService.String();
    assert ParamsF(fns, rank, 1, 1, s5) == ParamsF(fns, rank, 1, 2, s5);
    var s6 := s5.(ordered := s5.ordered + [w.newOtherService]);
    ParamsSkip(fns, rank, 3, 0, 1, s5);
    assert ResolveFnF(fns, rank, 3, s5) == Ok(s6);
    ScanOne(fns, rank, 1, 2, 3, 0, 0, 0, s5, false);
    var s7 := s6.(types := s6.types[x := w.newOtherService]);
    assert ScanF(fns, rank, 1, 2, 0, 0, s5, false) == Ok((s7, true));
    assert ParamsF(fns, rank, 1, 2, s5) == Ok(s7);
    var s8 := s7.(ordered := s7.ordered + [w.newService]);
    assert ResolveFnF(fns, rank, 1, e) == Ok(s8);
    TopScanOne(fns, rank, w.service, 1, 0, 0, 0, e);
    var s9 := s8.(types := s8.types[w.service.String() := w.newService]);
    assert TopScanF(fns, rank, w.service, 0, 0, e) == Ok(s9);
    assert ResolveF(fns, rank, [w.service], 1, s9) == Ok(s9);
    assert Resolved(fns, rank, [w.service]) == Ok(s9);
    assert s9.ordered == [w.loadOptions, w.openDatabase, w.newLogger, w.newOtherService, w.newService];
  }

  /** Within NewService, its first parameter `Logger`: NewLogger, after
      OpenDatabase, after LoadOptions. */
  lemma DepLogger(w: DepWorld, e: State) returns (s5: State)
    requires DepDeclared(w) && e == State(map[], [])
    requires Typed(DepFns(w)) && Ranked(DepFns(w), DepRank)
    ensures s5 == State(
      map[w.dbOptions.String() := w.loadOptions, w.database.String() := w.openDatabase,
          w.logger.String() := w.newLogger],
      [w.loadOptions, w.openDatabase, w.newLogger])
    ensures ParamsF(DepFns(w), DepRank, 1, 0, e) == ParamsF(DepFns(w), DepRank, 1, 1, s5)
  {
    DepWellFormed(w);
    DepKeysDiffer(w);
    var fns, rank := DepFns(w), DepRank;
    var o, d, l := w.dbOptions.String(), w.database.String(), w.logger.String();
    // LoadOptions has no parameter.
    var s0 := e.(ordered := e.ordered + [w.loadOptions]);
    assert ParamsF(fns, rank, 0, 0, e) == Ok(e);
    assert ResolveFnF(fns, rank, 0, e) == Ok(s0);
    // OpenDatabase needs DBOptions.
    ScanOne(fns, rank, 4, 0, 0, 0, 0, 0, e, false);
    var s1 := s0.(types := s0.types[o := w.loadOptions]);
    assert ParamsF(fns, rank, 4, 0, e) == Ok(s1);
    var s2 := s1.(ordered := s1.ordered + [w.openDatabase]);
    assert ResolveFnF(fns, rank, 4, e) == Ok(s2);
    // NewLogger needs Database.
    ScanOne(fns, rank, 2, 0, 4, 0, 0, 0, e, false);
    var s3 := s2.(types := s2.types[d := w.openDatabase]);
    assert ParamsF(fns, rank, 2, 0, e) == Ok(s3);
    var s4 := s3.(ordered := s3.ordered + [w.newLogger]);
    assert ResolveFnF(fns, rank, 2, e) == Ok(s4);
    // NewService's Logger.
    ScanOne(fns, rank, 1, 0, 2, 0, 0, 0, e, false);
    s5 := s4.(types := s4.types[l := w.newLogger]);
    assert ScanF(fns, rank, 1, 0, 0, 0, e, false) == Ok((s5, true));
    assert s5.ordered == [w.loadOptions, w.openDatabase, w.newLogger];
  }

  /** Two functions producing `t` and one needing it. */
  function TwoProducers(p1: Registry.Func, p2: Registry.Func, c: Registry.Func, t: Type): seq<Signature> {
    [ Registry.Signature(p1, None, [], [Var("", VarKindIdent, t)]),
      Registry.Signature(p2, None, [], [Var("", VarKindIdent, t)]),
      Registry.Signature(c, None, [Var("x", VarKindIdent, t)], []) ]
  }

  /** The scan does not stop at the first producer: both are resolved and
      appended, and the type stays recorded with the last one. */
  lemma EveryProducerResolved(p1: Registry.Func, p2: Registry.Func, c: Registry.Func, t: Type)
    ensures Typed(TwoProducers(p1, p2, c, t)) && Ranked(TwoProducers(p1, p2, c, t), [0, 0, 1])
    ensures ResolveFnF(TwoProducers(p1, p2, c, t), [0, 0, 1], 2, State(map[], [])) ==
      Ok(State(map[t.String() := p2], [p1, p2, c]))
  {
    var fns, rank := TwoProducers(p1, p2, c, t), [0, 0, 1];
    assert Ranked(fns, rank);
    var s1 := State(map[t.String() := p1], [p1]);
    var s2 := State(map[t.String() := p2], [p1, p2]);
    FirstProducer(p1, p2, c, t);
    SecondProducer(p1, p2, c, t);
    assert ParamsF(fns, rank, 2, 0, State(map[], [])) == Ok(s2);
    assert s2.ordered + [c] == [p1, p2, c];
  }

  lemma FirstProducer(p1: Registry.Func, p2: Registry.Func, c: Registry.Func, t: Type)
    requires Typed(TwoProducers(p1, p2, c, t)) && Ranked(TwoProducers(p1, p2, c, t), [0, 0, 1])
    ensures ScanF(TwoProducers(p1, p2, c, t), [0, 0, 1], 2, 0, 0, 0, State(map[], []), false)
      == ScanF(TwoProducers(p1, p2, c, t), [0, 0, 1], 2, 0, 1, 0, State(map[t.String() := p1], [p1]), true)
  {
    var fns, rank := TwoProducers(p1, p2, c, t), [0, 0, 1];
    var e := State(map[], []);
    var s1 := State(map[t.String() := p1], [p1]);
    assert ParamsF(fns, rank, 0, 0, e) == Ok(e);
    assert ResolveFnF(fns, rank, 0, e) == Ok(e.(ordered := e.ordered + [p1]));
    assert e.ordered + [p1] == [p1];
    assert fns[0].results[0].underlying == fns[2].params[0].underlying;
    assert ScanF(fns, rank, 2, 0, 0, 0, e, false) == ScanF(fns, rank, 2, 0, 0, 1, s1, true);
  }

  lemma SecondProducer(p1: Registry.Func, p2: Registry.Func, c: Registry.Func, t: Type)
    requires Typed(TwoProducers(p1, p2, c, t)) && Ranked(TwoProducers(p1, p2, c, t), [0, 0, 1])
    ensures ScanF(TwoProducers(p1, p2, c, t), [0, 0, 1], 2, 0, 1, 0, State(map[t.String() := p1], [p1]), true)
      == Ok((State(map[t.String() := p2], [p1, p2]), true))
  {
    var fns, rank := TwoProducers(p1, p2, c, t), [0, 0, 1];
    var s1 := State(map[t.String() := p1], [p1]);
    var s2 := State(map[t.String() := p2], [p1, p2]);
    assert ParamsF(fns, rank, 1, 0, s1) == Ok(s1);
    assert ResolveFnF(fns, rank, 1, s1) == Ok(s1.(ordered := s1.ordered + [p2]));
    assert s1.ordered + [p2] == [p1, p2];
    assert s1.types[t.String() := p2] == map[t.String() := p2];
    assert fns[1].results[0].underlying == fns[2].params[0].underlying;
    assert ScanF(fns, rank, 2, 0, 1, 0, s1, true) == ScanF(fns, rank, 2, 0, 1, 1, s2, true);
    assert ScanF(fns, rank, 2, 0, 1, 1, s2, true) == ScanF(fns, rank, 2, 0, 2, 0, s2, true);
  }
}
