/** The emitted decoder against a declarative specification of parameter extraction. */
module Decoder {
  import opened Wrappers
  import opened Json
  import opened Protocol
  import opened Api
  import opened Search
  import opened Target
  import opened Render

  // ---- specification ----

  /** `v` carries a value for parameter `i`. */
  predicate Present(ep: Endpoint, v: Value, i: nat)
    requires i < |ep.params|
  {
    if ep.kind.MapKind? then v.Obj? && ep.params[i].Name() in v.entries
    else v.Arr? && i < |v.items|
  }

  function ValueAt(ep: Endpoint, v: Value, i: nat): Value
    requires i < |ep.params| && Present(ep, v, i)
  {
    if ep.kind.MapKind? then v.entries[ep.params[i].Name()] else v.items[i]
  }

  predicate Good(ep: Endpoint, v: Value, i: nat)
    requires i < |ep.params|
  {
    Present(ep, v, i) && FromValue(ep.params[i].ty, ValueAt(ep, v, i)).Some?
  }

  predicate GoodBelow(ep: Endpoint, v: Value, n: nat)
    requires n <= |ep.params|
  {
    forall i :: 0 <= i < n ==> Good(ep, v, i)
  }

  function DataAt(ep: Endpoint, v: Value, i: nat): Data
    requires i < |ep.params| && Good(ep, v, i)
  {
    FromValue(ep.params[i].ty, ValueAt(ep, v, i)).value
  }

  /** The parameters come in the declared container, in the declared number if it is an array. */
  predicate RightShape(ep: Endpoint, v: Value) {
    if ep.kind.MapKind? then v.Obj? else v.Arr? && |v.items| == |ep.params|
  }

  predicate Accepts(ep: Endpoint, params: Option<Value>) {
    ep.params == [] ||
    (var v := ParamsValue(params); RightShape(ep, v) && GoodBelow(ep, v, |ep.params|))
  }

  function IndexOf(ps: seq<Param>, ident: string): nat {
    First(ps, (p: Param) => p.ident == ident)
  }

  function FieldsOf(ep: Endpoint, params: Option<Value>): map<string, Data>
    requires Accepts(ep, params)
  {
    map x | x in Idents(ep.params) ::
      (var i := IndexOf(ep.params, x); DataAt(ep, ParamsValue(params), i))
  }

  function ArgsOf(ep: Endpoint, params: Option<Value>): seq<Data>
    requires Accepts(ep, params)
  {
    seq(|ep.params|, i requires 0 <= i < |ep.params| => DataAt(ep, ParamsValue(params), i))
  }

  /** Why parameter `i` alone is rejected. */
  function ErrorAt(ep: Endpoint, v: Value, i: nat): ErrorObject
    requires i < |ep.params| && !Good(ep, v, i)
  {
    ErrorObject(INVALID_PARAMS,
                if !Present(ep, v, i) then MissingParameter(ep.params[i].Name())
                else BadValue(ep.params[i].ty, ValueAt(ep, v, i)))
  }

  function LeastBad(ep: Endpoint, v: Value, from: nat): (i: nat)
    requires from <= |ep.params| && GoodBelow(ep, v, from) && !GoodBelow(ep, v, |ep.params|)
    ensures i < |ep.params| && !Good(ep, v, i) && GoodBelow(ep, v, i)
    decreases |ep.params| - from
  {
    if !Good(ep, v, from) then from else LeastBad(ep, v, from + 1)
  }

  /** Container first, then the count of an array, then the least parameter that is missing or ill-typed. */
  function Rejection(ep: Endpoint, params: Option<Value>): ErrorObject
    requires !Accepts(ep, params)
  {
    var v := ParamsValue(params);
    if (if ep.kind.MapKind? then !v.Obj? else !v.Arr?) then ErrorObject(INVALID_PARAMS, NotParsed(v))
    else if !RightShape(ep, v) then ErrorObject(INVALID_PARAMS, WrongCount(|ep.params|, |v.items|))
    else ErrorAt(ep, v, LeastBad(ep, v, 0))
  }

  function Extraction(ep: Endpoint, params: Option<Value>): DecodeResult {
    if Accepts(ep, params) then Accepted(TypedRequest(ep.VariantName(), FieldsOf(ep, params)))
    else Rejected(Rejection(ep, params))
  }

  /** The endpoint that answers to a wire name: the first that lists it. */
  function Owner(d: RpcDescription, name: string): (k: nat)
    ensures k <= EndpointCount(d)
    ensures forall i :: 0 <= i < k ==> name !in NamesOf(d, i)
    ensures k < EndpointCount(d) ==> name in NamesOf(d, k)
  {
    OwnerFrom(d, name, 0)
  }

  function OwnerFrom(d: RpcDescription, name: string, from: nat): (k: nat)
    requires from <= EndpointCount(d)
    ensures from <= k <= EndpointCount(d)
    ensures forall i :: from <= i < k ==> name !in NamesOf(d, i)
    ensures k < EndpointCount(d) ==> name in NamesOf(d, k)
    decreases EndpointCount(d) - from
  {
    if from == EndpointCount(d) || name in NamesOf(d, from) then from else OwnerFrom(d, name, from + 1)
  }

  predicate Owns(d: RpcDescription, name: string) {
    exists j :: 0 <= j < EndpointCount(d) && name in NamesOf(d, j)
  }

  // ---- the emitted extraction program ----

  lemma {:induction false} RunAppend(a: seq<Step>, b: seq<Step>, v: Value, env: Env)
    ensures RunSteps(a + b, v, env) ==
            match RunSteps(a, v, env)
            case Done(env') => RunSteps(b, v, env')
            case other => other
  {
    if a == [] {
      assert a + b == b;
    } else {
      assert (a + b)[0] == a[0] && (a + b)[1..] == a[1..] + b;
      match RunStep(a[0], v, env)
      case Done(env') => RunAppend(a[1..], b, v, env');
      case _ =>
    }
  }

  function EnvOf(ep: Endpoint, v: Value, n: nat): Env
    requires n <= |ep.params| && GoodBelow(ep, v, n)
  {
    if n == 0 then map[] else EnvOf(ep, v, n - 1)[ep.params[n - 1].ident := Typed(DataAt(ep, v, n - 1))]
  }

  lemma {:induction false} EnvLookup(ep: Endpoint, v: Value, n: nat)
    requires n <= |ep.params| && GoodBelow(ep, v, n) && DistinctIdents(ep.params)
    ensures forall i :: 0 <= i < n ==>
      ep.params[i].ident in EnvOf(ep, v, n) && EnvOf(ep, v, n)[ep.params[i].ident] == Typed(DataAt(ep, v, i))
  {
    if n > 0 { EnvLookup(ep, v, n - 1); }
  }

  /** The statements of one parameter bind its value or fail with its error. */
  lemma {:induction false} RunParam(ep: Endpoint, v: Value, i: nat, env: Env)
    requires i < |ep.params| && RightShape(ep, v)
    ensures RunSteps(ParamSteps(ep.kind, ep.params, i), v, env) ==
            if Good(ep, v, i) then Done(env[ep.params[i].ident := Typed(DataAt(ep, v, i))])
            else Failed(ErrorAt(ep, v, i))
  {
    var get, parse := ParamSteps(ep.kind, ep.params, i)[0], FromJson(ep.params[i].ident, ep.params[i].ty);
    assert ParamSteps(ep.kind, ep.params, i) == [get] + [parse];
    RunAppend([get], [parse], v, env);
    RunOne(get, v, env);
    if Present(ep, v, i) {
      var env' := env[ep.params[i].ident := Raw(ValueAt(ep, v, i))];
      RunOne(parse, v, env');
      if Good(ep, v, i) {
        var x := Typed(DataAt(ep, v, i));
        assert env'[ep.params[i].ident := x] == env[ep.params[i].ident := x];
      }
    }
  }

  lemma {:induction false} RunOne(step: Step, v: Value, env: Env)
    ensures RunSteps([step], v, env) == RunStep(step, v, env)
  {
    assert [step][1..] == [];
  }

  lemma {:induction false} RunGood(ep: Endpoint, v: Value, n: nat)
    requires n <= |ep.params| && RightShape(ep, v) && GoodBelow(ep, v, n)
    ensures RunSteps(StepsUpTo(ep.kind, ep.params, n), v, map[]) == Done(EnvOf(ep, v, n))
  {
    if n > 0 {
      RunGood(ep, v, n - 1);
      RunAppend(StepsUpTo(ep.kind, ep.params, n - 1), ParamSteps(ep.kind, ep.params, n - 1), v, map[]);
      RunParam(ep, v, n - 1, EnvOf(ep, v, n - 1));
    }
  }

  /** The first parameter that is bad stops the program, whatever follows. */
  lemma {:induction false} RunBad(ep: Endpoint, v: Value, n: nat, i: nat)
    requires i < n <= |ep.params| && RightShape(ep, v) && GoodBelow(ep, v, i) && !Good(ep, v, i)
    ensures RunSteps(StepsUpTo(ep.kind, ep.params, n), v, map[]) == Failed(ErrorAt(ep, v, i))
  {
    RunAppend(StepsUpTo(ep.kind, ep.params, n - 1), ParamSteps(ep.kind, ep.params, n - 1), v, map[]);
    if i < n - 1 {
      RunBad(ep, v, n - 1, i);
    } else {
      RunGood(ep, v, i);
      RunParam(ep, v, i, EnvOf(ep, v, i));
    }
  }

  lemma {:induction false} IndexOfDistinct(ps: seq<Param>, i: nat)
    requires DistinctIdents(ps) && i < |ps|
    ensures IndexOf(ps, ps[i].ident) == i
  {
    var p := (x: Param) => x.ident == ps[i].ident;
    var k := First(ps, p);
    assert p(ps[i]);
  }

  /** The fields of an accepted request are the declared ones, each holding its parameter. */
  lemma {:induction false} AcceptedFields(ep: Endpoint, params: Option<Value>)
    requires DistinctIdents(ep.params) && Accepts(ep, params)
    ensures FieldsFit(ep.params, FieldsOf(ep, params))
    ensures forall i :: 0 <= i < |ep.params| ==>
      FieldsOf(ep, params)[ep.params[i].ident] == DataAt(ep, ParamsValue(params), i)
  {
    forall i | 0 <= i < |ep.params|
      ensures ep.params[i].ident in FieldsOf(ep, params)
      ensures FieldsOf(ep, params)[ep.params[i].ident] == DataAt(ep, ParamsValue(params), i)
      ensures HasType(DataAt(ep, ParamsValue(params), i), ep.params[i].ty)
    {
      assert Good(ep, ParamsValue(params), i);
      IndexOfDistinct(ep.params, i);
      AcceptedIsExact(ep.params[i].ty, ValueAt(ep, ParamsValue(params), i));
    }
  }

  lemma {:induction false} SameFields(ps: seq<Param>, a: map<string, Data>, b: map<string, Data>)
    requires a.Keys == Idents(ps) == b.Keys
    requires forall i :: 0 <= i < |ps| ==> ps[i].ident in a && ps[i].ident in b && a[ps[i].ident] == b[ps[i].ident]
    ensures a == b
  {
    forall x | x in a ensures a[x] == b[x] {
      assert x in Idents(ps);
      var i :| 0 <= i < |ps| && ps[i].ident == x;
    }
  }

  /** Reading the locals back gives the fields of the specification. */
  lemma {:induction false} EnvFields(ep: Endpoint, params: Option<Value>)
    requires DistinctIdents(ep.params) && ep.params != [] && Accepts(ep, params)
    ensures var env := EnvOf(ep, ParamsValue(params), |ep.params|);
            AllTyped(ParamIdents(ep.params), env) &&
            Fields(ParamIdents(ep.params), env) == FieldsOf(ep, params)
  {
    var env, fields := EnvOf(ep, ParamsValue(params), |ep.params|), FieldsOf(ep, params);
    forall i | 0 <= i < |ep.params|
      ensures var x := ep.params[i].ident; x in env && x in fields && env[x] == Typed(fields[x])
    {
      EnvHolds(ep, params, i);
    }
    ReadBack(ep.params, env, fields);
  }

  lemma {:induction false} EnvHolds(ep: Endpoint, params: Option<Value>, i: nat)
    requires DistinctIdents(ep.params) && ep.params != [] && Accepts(ep, params) && i < |ep.params|
    ensures var x, env := ep.params[i].ident, EnvOf(ep, ParamsValue(params), |ep.params|);
            x in env && x in FieldsOf(ep, params) && env[x] == Typed(FieldsOf(ep, params)[x])
  {
    EnvLookup(ep, ParamsValue(params), |ep.params|);
    AcceptedFields(ep, params);
  }

  lemma {:induction false} ReadBack(ps: seq<Param>, env: Env, fields: map<string, Data>)
    requires fields.Keys == Idents(ps)
    requires forall i :: 0 <= i < |ps| ==>
      ps[i].ident in env && ps[i].ident in fields && env[ps[i].ident] == Typed(fields[ps[i].ident])
    ensures AllTyped(ParamIdents(ps), env) && Fields(ParamIdents(ps), env) == fields
  {
    IdentsAreNames(ps);
    assert Fields(ParamIdents(ps), env).Keys == Idents(ps);
    SameFields(ps, Fields(ParamIdents(ps), env), fields);
  }

  lemma {:induction false} IdentsAreNames(ps: seq<Param>)
    ensures forall x :: x in ParamIdents(ps) <==> x in Idents(ps)
    ensures forall i :: 0 <= i < |ps| ==> ParamIdents(ps)[i] == ps[i].ident
  {
    forall x ensures x in ParamIdents(ps) <==> x in Idents(ps) {
      if x in ParamIdents(ps) {
        var i :| 0 <= i < |ps| && ParamIdents(ps)[i] == x;
        assert ps[i] in ps;
      }
      if x in Idents(ps) {
        var i :| 0 <= i < |ps| && ps[i].ident == x;
        assert ParamIdents(ps)[i] == x;
      }
    }
  }

  /** The emitted patterns and signatures bind every parameter and nothing else. */
  lemma {:induction false} LocalsAreFields(ps: seq<Param>, fields: map<string, Data>)
    requires FieldsFit(ps, fields)
    ensures Locals(ParamIdents(ps), fields) == fields
  {
    IdentsAreNames(ps);
  }

  /** The arm of an endpoint never panics and does what the specification says. */
  lemma {:induction false} ArmMeetsSpec(d: RpcDescription, j: nat, params: Option<Value>)
    requires j < EndpointCount(d) && DistinctIdents(EndpointAt(d, j).params)
    ensures RunArm(RenderDecodeArm(d, j), params) == Extraction(EndpointAt(d, j), params)
  {
    var ep := EndpointAt(d, j);
    var v := ParamsValue(params);
    if ep.params == [] {
      assert Fields([], map[]) == FieldsOf(ep, params);
    } else if RightShape(ep, v) {
      var n := |ep.params|;
      var steps := StepsUpTo(ep.kind, ep.params, n);
      if GoodBelow(ep, v, n) {
        RunGood(ep, v, n);
      } else {
        RunBad(ep, v, n, LeastBad(ep, v, 0));
      }
      if ep.kind.ArrayKind? {
        RunAppend([LenCheck(n)], steps, v, map[]);
        RunOne(LenCheck(n), v, map[]);
      }
      if Accepts(ep, params) {
        EnvFields(ep, params);
      }
    } else if v.Arr? && ep.kind.ArrayKind? {
      CountFailure(ep, v);
    }
  }

  lemma {:induction false} CountFailure(ep: Endpoint, v: Value)
    requires v.Arr? && |v.items| != |ep.params|
    ensures RunSteps([LenCheck(|ep.params|)] + StepsUpTo(ep.kind, ep.params, |ep.params|), v, map[]) ==
            Failed(ErrorObject(INVALID_PARAMS, WrongCount(|ep.params|, |v.items|)))
  {
    RunOne(LenCheck(|ep.params|), v, map[]);
    RunAppend([LenCheck(|ep.params|)], StepsUpTo(ep.kind, ep.params, |ep.params|), v, map[]);
  }

  /** `TryFrom<Request>`: the first endpoint that lists the method decides, by its specification. */
  lemma {:induction false} DecodeMeetsSpec(d: RpcDescription, q: Request)
    requires DistinctNames(d)
    ensures Decode(RenderTryFromRequest(d), q) ==
            var k := Owner(d, q.method_);
            if k == EndpointCount(d) then Rejected(ErrorObject(METHOD_NOT_FOUND, NoDetail))
            else Extraction(EndpointAt(d, k), q.params)
  {
    var arms := RenderTryFromRequest(d);
    forall j | 0 <= j < EndpointCount(d) ensures arms[j].patterns == NamesOf(d, j) {}
    var p := (arm: DecodeArm) => q.method_ in arm.patterns;
    var k := First(arms, p);
    var o := Owner(d, q.method_);
    assert k < |arms| ==> p(arms[k]);
    assert o < |arms| ==> p(arms[o]);
    assert k == o;
    if k < EndpointCount(d) {
      ArmMeetsSpec(d, k, q.params);
    }
  }

  // ---- consequences ----

  /** By position: accepted iff the parameters are an array of as many values as there are parameters, each
      of the type of its parameter; the field of a parameter is the value at its position. */
  lemma {:induction false} PositionalDecoding(d: RpcDescription, j: nat, params: Option<Value>)
    requires j < EndpointCount(d) && DistinctIdents(EndpointAt(d, j).params)
    requires EndpointAt(d, j).kind.ArrayKind? && EndpointAt(d, j).params != []
    ensures var ps, c := EndpointAt(d, j).params, RunArm(RenderDecodeArm(d, j), params);
      && (c.Accepted? <==>
            params.Some? && params.value.Arr? && |params.value.items| == |ps| &&
            forall i :: 0 <= i < |ps| ==> FromValue(ps[i].ty, params.value.items[i]).Some?)
      && (c.Accepted? ==> forall i :: 0 <= i < |ps| ==>
            ps[i].ident in c.req.fields &&
            Some(c.req.fields[ps[i].ident]) == FromValue(ps[i].ty, params.value.items[i]))
      && (params.Some? && params.value.Arr? && |params.value.items| != |ps| ==>
            c == Rejected(ErrorObject(-32602, WrongCount(|ps|, |params.value.items|))))
  {
    ArmMeetsSpec(d, j, params);
    PositionalExtraction(EndpointAt(d, j), params);
  }

  lemma {:induction false} PositionalExtraction(ep: Endpoint, params: Option<Value>)
    requires DistinctIdents(ep.params) && ep.kind.ArrayKind? && ep.params != []
    ensures var ps, c := ep.params, Extraction(ep, params);
      && (c.Accepted? <==>
            params.Some? && params.value.Arr? && |params.value.items| == |ps| &&
            forall i :: 0 <= i < |ps| ==> FromValue(ps[i].ty, params.value.items[i]).Some?)
      && (c.Accepted? ==> forall i :: 0 <= i < |ps| ==>
            ps[i].ident in c.req.fields &&
            Some(c.req.fields[ps[i].ident]) == FromValue(ps[i].ty, params.value.items[i]))
      && (params.Some? && params.value.Arr? && |params.value.items| != |ps| ==>
            c == Rejected(ErrorObject(-32602, WrongCount(|ps|, |params.value.items|))))
  {
    var v := ParamsValue(params);
    if v.Arr? && |v.items| == |ep.params| {
      forall i | 0 <= i < |ep.params| ensures Good(ep, v, i) <==> FromValue(ep.params[i].ty, v.items[i]).Some? {}
    }
    if Accepts(ep, params) {
      AcceptedFields(ep, params);
      forall i | 0 <= i < |ep.params|
        ensures Some(FieldsOf(ep, params)[ep.params[i].ident]) == FromValue(ep.params[i].ty, v.items[i])
      {
        assert Good(ep, v, i);
      }
    }
  }

  /** By name: accepted iff the parameters are an object that has, under the key of each parameter, a value
      of its type; the key is the renaming if there is one, else the name of the parameter. */
  lemma {:induction false} ByNameDecoding(d: RpcDescription, j: nat, params: Option<Value>, keys: seq<string>)
    requires j < EndpointCount(d) && DistinctIdents(EndpointAt(d, j).params)
    requires EndpointAt(d, j).kind.MapKind? && EndpointAt(d, j).params != []
    requires var ps := EndpointAt(d, j).params;
      |keys| == |ps| && forall i :: 0 <= i < |ps| ==>
        ps[i].renameTo == Some(keys[i]) || (ps[i].renameTo.None? && ps[i].ident == keys[i])
    ensures var ps, c := EndpointAt(d, j).params, RunArm(RenderDecodeArm(d, j), params);
      && (c.Accepted? <==>
            params.Some? && params.value.Obj? && forall i :: 0 <= i < |ps| ==>
              keys[i] in params.value.entries && FromValue(ps[i].ty, params.value.entries[keys[i]]).Some?)
      && (c.Accepted? ==> forall i :: 0 <= i < |ps| ==>
            ps[i].ident in c.req.fields &&
            Some(c.req.fields[ps[i].ident]) == FromValue(ps[i].ty, params.value.entries[keys[i]]))
  {
    ArmMeetsSpec(d, j, params);
    ByNameExtraction(EndpointAt(d, j), params, keys);
  }

  lemma {:induction false} ByNameExtraction(ep: Endpoint, params: Option<Value>, keys: seq<string>)
    requires DistinctIdents(ep.params) && ep.kind.MapKind? && ep.params != []
    requires |keys| == |ep.params| && forall i :: 0 <= i < |ep.params| ==>
      ep.params[i].renameTo == Some(keys[i]) || (ep.params[i].renameTo.None? && ep.params[i].ident == keys[i])
    ensures var ps, c := ep.params, Extraction(ep, params);
      && (c.Accepted? <==>
            params.Some? && params.value.Obj? && forall i :: 0 <= i < |ps| ==>
              keys[i] in params.value.entries && FromValue(ps[i].ty, params.value.entries[keys[i]]).Some?)
      && (c.Accepted? ==> forall i :: 0 <= i < |ps| ==>
            ps[i].ident in c.req.fields &&
            Some(c.req.fields[ps[i].ident]) == FromValue(ps[i].ty, params.value.entries[keys[i]]))
  {
    var v := ParamsValue(params);
    if v.Obj? {
      forall i | 0 <= i < |ep.params|
        ensures Good(ep, v, i) <==> keys[i] in v.entries && FromValue(ep.params[i].ty, v.entries[keys[i]]).Some?
      {
        assert ep.params[i].Name() == keys[i];
      }
    }
    if Accepts(ep, params) {
      AcceptedFields(ep, params);
      forall i | 0 <= i < |ep.params|
        ensures Some(FieldsOf(ep, params)[ep.params[i].ident]) == FromValue(ep.params[i].ty, v.entries[keys[i]])
      {
        assert ep.params[i].Name() == keys[i] && Good(ep, v, i);
      }
    }
  }

  /** Absent parameters read as `null`: they do for an endpoint without parameters, which looks at nothing,
      and for no other. Every rejection of a known method has the code of invalid parameters, every request
      for a name that no endpoint lists the code of an unknown method. */
  lemma {:induction false} RejectionCodes(d: RpcDescription, q: Request)
    requires DistinctNames(d)
    ensures var j, c := Owner(d, q.method_), Decode(RenderTryFromRequest(d), q);
      && (j == EndpointCount(d) ==> c == Rejected(ErrorObject(-32601, NoDetail)))
      && (j < EndpointCount(d) && EndpointAt(d, j).params == [] ==>
            c == Accepted(TypedRequest(EndpointAt(d, j).VariantName(), map[])))
      && (j < EndpointCount(d) && EndpointAt(d, j).params != [] && q.params.None? ==>
            c == Rejected(ErrorObject(-32602, NotParsed(Null))))
      && (j < EndpointCount(d) && c.Rejected? ==> c.err.code == -32602)
  {
    DecodeMeetsSpec(d, q);
    var j := Owner(d, q.method_);
    if j < EndpointCount(d) && EndpointAt(d, j).params == [] {
      assert FieldsOf(EndpointAt(d, j), q.params) == map[];
    }
  }

  /** The two objects hold the same under every declared key. */
  predicate AgreeOnKeys(ep: Endpoint, a: map<string, Value>, b: map<string, Value>) {
    forall i :: 0 <= i < |ep.params| ==>
      var key := ep.params[i].Name();
      (key in a <==> key in b) && (key in a ==> a[key] == b[key])
  }

  lemma {:induction false} SameAt(ep: Endpoint, a: map<string, Value>, b: map<string, Value>, i: nat)
    requires ep.kind.MapKind? && AgreeOnKeys(ep, a, b) && i < |ep.params|
    ensures Present(ep, Obj(a), i) == Present(ep, Obj(b), i)
    ensures Present(ep, Obj(a), i) ==> ValueAt(ep, Obj(a), i) == ValueAt(ep, Obj(b), i)
    ensures Good(ep, Obj(a), i) == Good(ep, Obj(b), i)
  {
    var key := ep.params[i].Name();
  }

  lemma {:induction false} SameFieldsOf(ep: Endpoint, a: map<string, Value>, b: map<string, Value>)
    requires ep.kind.MapKind? && AgreeOnKeys(ep, a, b) && Accepts(ep, Some(Obj(a))) && Accepts(ep, Some(Obj(b)))
    ensures FieldsOf(ep, Some(Obj(a))) == FieldsOf(ep, Some(Obj(b)))
  {
    forall x | x in Idents(ep.params) ensures FieldsOf(ep, Some(Obj(a)))[x] == FieldsOf(ep, Some(Obj(b)))[x] {
      SameAt(ep, a, b, IndexOf(ep.params, x));
    }
  }

  lemma {:induction false} SameRejection(ep: Endpoint, a: map<string, Value>, b: map<string, Value>)
    requires ep.kind.MapKind? && AgreeOnKeys(ep, a, b) && !Accepts(ep, Some(Obj(a))) && !Accepts(ep, Some(Obj(b)))
    ensures Rejection(ep, Some(Obj(a))) == Rejection(ep, Some(Obj(b)))
  {
    var i, k := LeastBad(ep, Obj(a), 0), LeastBad(ep, Obj(b), 0);
    SameAt(ep, a, b, i);
    SameAt(ep, a, b, k);
    assert i == k;
  }

  /** Decoding by name looks at the declared keys and at nothing else. */
  lemma {:induction false} MapDecodingReadsDeclaredKeys(ep: Endpoint, a: map<string, Value>, b: map<string, Value>)
    requires ep.kind.MapKind? && AgreeOnKeys(ep, a, b)
    ensures Extraction(ep, Some(Obj(a))) == Extraction(ep, Some(Obj(b)))
  {
    forall i | 0 <= i < |ep.params| ensures Good(ep, Obj(a), i) == Good(ep, Obj(b), i) {
      SameAt(ep, a, b, i);
    }
    assert Accepts(ep, Some(Obj(a))) == Accepts(ep, Some(Obj(b)));
    if Accepts(ep, Some(Obj(a))) {
      SameFieldsOf(ep, a, b);
    } else {
      SameRejection(ep, a, b);
    }
  }
}
