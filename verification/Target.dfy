/** The code the macro emits, as a small abstract syntax, and an interpreter for it. */
module Target {
  import opened Wrappers
  import opened Json
  import opened Protocol
  import opened Api
  import opened Search

  // ---- `impl From<XRequest> for Request` and the parameter builders of the client stubs ----

  datatype Insert = Insert(key: string, bind: string)

  datatype Builder = NoParams | BuildMap(inserts: seq<Insert>) | BuildVec(pushes: seq<string>)

  datatype EncodeArm = EncodeArm(variant: string, binds: seq<string>, wire: string, builder: Builder)

  predicate InsertsBound(inserts: seq<Insert>, fields: map<string, Data>) {
    forall i :: 0 <= i < |inserts| ==> inserts[i].bind in fields
  }

  predicate AllBound(names: seq<string>, fields: map<string, Data>) {
    forall i :: 0 <= i < |names| ==> names[i] in fields
  }

  /** The locals of an arm `Variant { a, b }` or of a function with parameters `a` and `b`: the listed
      names and nothing else. */
  function Locals(binds: seq<string>, fields: map<string, Data>): map<string, Data> {
    map x | x in binds && x in fields :: fields[x]
  }

  /** Inserting in order: the last insert of a key wins. */
  function InsertAll(inserts: seq<Insert>, fields: map<string, Data>): map<string, Value>
    requires InsertsBound(inserts, fields)
  {
    if inserts == [] then map[]
    else
      var last := |inserts| - 1;
      InsertAll(inserts[..last], fields)[inserts[last].key := ToValue(fields[inserts[last].bind])]
  }

  function PushAll(pushes: seq<string>, fields: map<string, Data>): seq<Value>
    requires AllBound(pushes, fields)
  {
    seq(|pushes|, i requires 0 <= i < |pushes| => ToValue(fields[pushes[i]]))
  }

  /** The outer option says whether the names are bound; the inner one is the emitted value. */
  function RunBuilder(b: Builder, fields: map<string, Data>): Option<Option<Value>> {
    match b
    case NoParams => Some(None)
    case BuildMap(inserts) =>
      if InsertsBound(inserts, fields) then Some(Some(Obj(InsertAll(inserts, fields)))) else None
    case BuildVec(pushes) =>
      if AllBound(pushes, fields) then Some(Some(Arr(PushAll(pushes, fields)))) else None
  }

  /** The emitted block `{ let mut map = Map::new(); map.insert(..);* map }`. */
  method ExecuteInserts(inserts: seq<Insert>, fields: map<string, Data>) returns (entries: map<string, Value>)
    requires InsertsBound(inserts, fields)
    ensures entries == InsertAll(inserts, fields)
  {
    entries := map[];
    for i := 0 to |inserts|
      invariant entries == InsertAll(inserts[..i], fields)
    {
      assert inserts[..i + 1][..i] == inserts[..i];
      entries := entries[inserts[i].key := ToValue(fields[inserts[i].bind])];
    }
    assert inserts[..|inserts|] == inserts;
  }

  /** The emitted `match req { .. }`; `None` when no arm covers the value. */
  function Encode(arms: seq<EncodeArm>, r: TypedRequest): Option<Request> {
    var k := First(arms, (arm: EncodeArm) => arm.variant == r.variant);
    if k == |arms| then None
    else
      match RunBuilder(arms[k].builder, Locals(arms[k].binds, r.fields))
      case None => None
      case Some(params) => Some(Request(arms[k].wire, params, NumberId(0)))
  }

  // ---- `impl TryFrom<Request> for XRequest` ----

  datatype Step =
    | LenCheck(expected: nat)
    | MapGet(bind: string, key: string)
    | ArrGet(bind: string, index: nat)
    | FromJson(bind: string, ty: Ty)

  /** How an arm parses the parameters before its steps run. */
  datatype Container = Unparsed | AsMap | AsVec

  datatype DecodeArm = DecodeArm(
    patterns: seq<string>, parse: Container, steps: seq<Step>, variant: string, fields: seq<string>)

  /** A local of an arm holds a raw JSON value until `from_value` shadows it. */
  datatype Bound = Raw(v: Value) | Typed(d: Data)

  type Env = map<string, Bound>

  /** `Crashed` is an out-of-range index or a name that is not bound as the step expects. */
  datatype StepResult = Done(env: Env) | Failed(err: ErrorObject) | Crashed

  datatype DecodeResult = Accepted(req: TypedRequest) | Rejected(err: ErrorObject) | Panicked

  function RunStep(step: Step, params: Value, env: Env): StepResult {
    match step
    case LenCheck(n) =>
      if !params.Arr? then Crashed
      else if |params.items| != n then Failed(ErrorObject(INVALID_PARAMS, WrongCount(n, |params.items|)))
      else Done(env)
    case MapGet(bind, key) =>
      if !params.Obj? then Crashed
      else if key !in params.entries then Failed(ErrorObject(INVALID_PARAMS, MissingParameter(key)))
      else Done(env[bind := Raw(params.entries[key])])
    case ArrGet(bind, i) =>
      if params.Arr? && i < |params.items| then Done(env[bind := Raw(params.items[i])]) else Crashed
    case FromJson(bind, ty) =>
      if bind !in env || !env[bind].Raw? then Crashed
      else
        match FromValue(ty, env[bind].v)
        case Some(d) => Done(env[bind := Typed(d)])
        case None => Failed(ErrorObject(INVALID_PARAMS, BadValue(ty, env[bind].v)))
  }

  function RunSteps(steps: seq<Step>, params: Value, env: Env): StepResult {
    if steps == [] then Done(env)
    else
      match RunStep(steps[0], params, env)
      case Done(env') => RunSteps(steps[1..], params, env')
      case other => other
  }

  predicate AllTyped(names: seq<string>, env: Env) {
    forall i :: 0 <= i < |names| ==> names[i] in env && env[names[i]].Typed?
  }

  function Fields(names: seq<string>, env: Env): map<string, Data>
    requires AllTyped(names, env)
  {
    map x | x in names :: env[x].d
  }

  function RunArm(arm: DecodeArm, params: Option<Value>): DecodeResult {
    var v := ParamsValue(params);
    if (arm.parse.AsMap? && !v.Obj?) || (arm.parse.AsVec? && !v.Arr?) then
      Rejected(ErrorObject(INVALID_PARAMS, NotParsed(v)))
    else
      match RunSteps(arm.steps, v, map[])
      case Done(env) =>
        if AllTyped(arm.fields, env) then Accepted(TypedRequest(arm.variant, Fields(arm.fields, env)))
        else Panicked
      case Failed(err) => Rejected(err)
      case Crashed => Panicked
  }

  /** The emitted `match request.method.as_ref() { .. , _ => MethodNotFound }`. */
  function Decode(arms: seq<DecodeArm>, q: Request): DecodeResult {
    var k := First(arms, (arm: DecodeArm) => q.method_ in arm.patterns);
    if k == |arms| then Rejected(ErrorObject(METHOD_NOT_FOUND, NoDetail))
    else RunArm(arms[k], q.params)
  }

  // ---- the generated server service ----

  datatype DispatchArm =
    | CallHandler(variant: string, binds: seq<string>, fnIdent: string, args: seq<string>, awaits: bool)
    | RejectSubscription(variant: string)

  /** A function of the emitted trait; the handler implements the trait. */
  datatype Signature = Signature(ident: string, params: seq<string>, ret: RetTy)

  datatype ServiceCode = ServiceCode(
    handler: seq<Signature>, gate: seq<string>, decode: seq<DecodeArm>, dispatch: seq<DispatchArm>)

  function ReturnType(handler: seq<Signature>, ident: string): Option<RetTy> {
    var k := First(handler, (f: Signature) => f.ident == ident);
    if k < |handler| then Some(handler[k].ret) else None
  }

  /** `match handler.f(..) { Ok(..) => .., Err(..) => .. }`, with or without `.await`, has a type. */
  predicate MatchesResult(ret: RetTy, awaits: bool) {
    if awaits then ret.FutureOf? && ret.output.ResultTy? else ret.ResultTy?
  }

  /** What one `call` of the generated service does. `Stuck` is a panic, a value that no arm covers, or
      an arm that has no type; the compiler rejects the last two. */
  datatype Decision =
    | Fail(err: RpcError)
    | Forward(q: Request)
    | Reply(response: Response)
    | Invoke(fnIdent: string, args: seq<Data>, id: Id)
    | Stuck

  function Dispatch(handler: seq<Signature>, arms: seq<DispatchArm>, r: TypedRequest, id: Id): Decision {
    var k := First(arms, (arm: DispatchArm) => arm.variant == r.variant);
    if k == |arms| then Stuck
    else
      match arms[k]
      case CallHandler(_, binds, fnIdent, args, awaits) =>
        var locals := Locals(binds, r.fields);
        var ret := ReturnType(handler, fnIdent);
        if AllBound(args, locals) && ret.Some? && MatchesResult(ret.value, awaits) then
          Invoke(fnIdent, seq(|args|, i requires 0 <= i < |args| => locals[args[i]]), id)
        else Stuck
      case RejectSubscription(_) =>
        Reply(Response(Error(ErrorObject(INVALID_REQUEST, SubscriptionsNotImplemented)), id))
  }

  /** `call`, from the converted transport request to the point where something else takes over. */
  function Decide(code: ServiceCode, incoming: Result<Request, RpcError>): Decision {
    match incoming
    case Err(e) => Fail(e)
    case Ok(q) =>
      if q.method_ !in code.gate then Forward(q)
      else
        match Decode(code.decode, q)
        case Accepted(r) => Dispatch(code.handler, code.dispatch, r, q.id)
        case Rejected(err) => Reply(Response(Error(err), q.id))
        case Panicked => Stuck
  }

  /** The response built from what the handler returned. */
  function HandlerResponse(outcome: Result<Data, ErrorObject>, id: Id): Response {
    match outcome
    case Ok(d) => Response(Success(ToValue(d)), id)
    case Err(e) => Response(Error(e), id)
  }

  // ---- the generated client ----

  /** `ok` is the type that the stub reads from the response. */
  datatype StubCode = StubCode(fnIdent: string, inputs: seq<string>, wire: string, builder: Builder, ok: RetTy)

  datatype ResponseArm = ResponseArm(variant: string, ty: Ty)

  /** A value of the generated response enum. */
  datatype TypedResponse = TypedResponse(variant: string, value: Data)

  // ---- the whole output, and what the compiler can object to in it ----

  datatype ServerCode = ServerCode(encode: seq<EncodeArm>, service: ServiceCode)

  datatype ClientCode = ClientCode(encode: seq<EncodeArm>, stubs: seq<StubCode>, responses: seq<ResponseArm>)

  /** `requests` are the variants of the request enum, which both sides share. */
  datatype Emitted = Emitted(
    handler: seq<Signature>, requests: seq<string>, server: Option<ServerCode>, client: Option<ClientCode>)

  predicate NoTwins<X(==)>(xs: seq<X>) {
    forall i, j :: 0 <= i < j < |xs| ==> xs[i] != xs[j]
  }

  predicate HasEncodeArm(arms: seq<EncodeArm>, variant: string) {
    exists j :: 0 <= j < |arms| && arms[j].variant == variant
  }

  predicate HasDispatchArm(arms: seq<DispatchArm>, variant: string) {
    exists j :: 0 <= j < |arms| && arms[j].variant == variant
  }

  /** The encoding `match` on a request enum with these variants is exhaustive. */
  predicate Covers(arms: seq<EncodeArm>, variants: seq<string>) {
    forall i :: 0 <= i < |variants| ==> HasEncodeArm(arms, variants[i])
  }

  predicate CoversDispatch(arms: seq<DispatchArm>, variants: seq<string>) {
    forall i :: 0 <= i < |variants| ==> HasDispatchArm(arms, variants[i])
  }

  /** The arm calls a function of the trait and matches on a `Result`. */
  predicate ArmHasType(handler: seq<Signature>, arm: DispatchArm) {
    arm.CallHandler? ==>
      var ret := ReturnType(handler, arm.fnIdent);
      ret.Some? && MatchesResult(ret.value, arm.awaits)
  }

  /** No function and no parameter of a function is declared twice. */
  predicate TraitTypeChecks(handler: seq<Signature>) {
    && NoTwins(seq(|handler|, i requires 0 <= i < |handler| => handler[i].ident))
    && forall i :: 0 <= i < |handler| ==> NoTwins(handler[i].params)
  }

  /** Every `match` on the request enum is exhaustive, and every dispatch arm matches on a `Result`. */
  predicate ServerTypeChecks(handler: seq<Signature>, requests: seq<string>, c: ServerCode) {
    && Covers(c.encode, requests) && CoversDispatch(c.service.dispatch, requests)
    && forall i :: 0 <= i < |c.service.dispatch| ==> ArmHasType(handler, c.service.dispatch[i])
  }

  /** The encoder is exhaustive, every stub reads data, and no variant of the response enum occurs twice. */
  predicate ClientTypeChecks(requests: seq<string>, c: ClientCode) {
    && Covers(c.encode, requests)
    && (forall i :: 0 <= i < |c.stubs| ==> c.stubs[i].ok.IsData())
    && NoTwins(seq(|c.responses|, i requires 0 <= i < |c.responses| => c.responses[i].variant))
  }

  predicate TypeChecks(e: Emitted) {
    && TraitTypeChecks(e.handler) && NoTwins(e.requests)
    && (e.server.Some? ==> ServerTypeChecks(e.handler, e.requests, e.server.value))
    && (e.client.Some? ==> ClientTypeChecks(e.requests, e.client.value))
  }
}
