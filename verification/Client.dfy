/** The generated client: stubs, `rpc_call`, and what comes back through a server stack. */
module Client {
  import opened Wrappers
  import opened Json
  import opened Protocol
  import opened Api
  import opened Search
  import opened Target
  import opened Render
  import opened Decoder
  import opened RoundTrip
  import opened Service
  import opened Tower

  // ---- requests ----

  /** The request a stub builds from its arguments, given by name. */
  function StubRequest(code: StubCode, fields: map<string, Data>): Request
    requires RunBuilder(code.builder, Locals(code.inputs, fields)).Some?
  {
    Request(code.wire, RunBuilder(code.builder, Locals(code.inputs, fields)).value, NumberId(0))
  }

  lemma {:induction false} BuilderBound(ps: seq<Param>, kind: ParamKind, fields: map<string, Data>)
    requires FieldsFit(ps, fields)
    ensures RunBuilder(RenderBuilder(ps, kind), Locals(ParamIdents(ps), fields)).Some?
  {
    LocalsAreFields(ps, fields);
  }

  /** The request the stub of method `j` sends. */
  function Sent(d: RpcDescription, j: nat, fields: map<string, Data>): Request
    requires j < |d.methods| && FieldsFit(d.methods[j].params, fields)
  {
    BuilderBound(d.methods[j].params, d.methods[j].kind, fields);
    StubRequest(RenderStub(d, j), fields)
  }

  lemma {:induction false} SentIsEncoded(d: RpcDescription, j: nat, fields: map<string, Data>)
    requires j < |d.methods| && FieldsFit(d.methods[j].params, fields)
    ensures Sent(d, j, fields) ==
            Request(WireName(d, EndpointAt(d, j).name), EncodedParams(EndpointAt(d, j), fields), NumberId(0))
  {
    LocalsAreFields(d.methods[j].params, fields);
  }

  /** The wire name of the request of a stub, letter by letter. */
  lemma {:induction false} WireNameOfStub(d: RpcDescription, j: nat, fields: map<string, Data>)
    requires j < |d.methods| && FieldsFit(d.methods[j].params, fields)
    ensures var name := d.methods[j].name;
      Sent(d, j, fields).method_ ==
        match d.namespace
        case None => name
        case Some(ns) => ns + (match d.separator case None => "_" case Some(sep) => sep) + name
  {
    SentIsEncoded(d, j, fields);
  }

  /** The three emitted encoders write the same request for a method. */
  lemma {:induction false} EncodersAgree(d: RpcDescription, j: nat, r: TypedRequest)
    requires DistinctNames(d) && j < |d.methods| && WellTypedAt(d, j, r)
    ensures Encode(RenderIntoRequest(d), r) == Some(Sent(d, j, r.fields))
    ensures Encode(RenderServerRequestImpl(d), r) == Some(Sent(d, j, r.fields))
  {
    EncodeWellTyped(d, j, r);
    var arms := RenderServerRequestImpl(d);
    var p := (arm: EncodeArm) => arm.variant == r.variant;
    forall i | 0 <= i < j ensures !p(arms[i]) {
      assert EndpointAt(d, i).VariantName() != EndpointAt(d, j).VariantName();
    }
    assert p(arms[j]);
    assert First(arms, p) == j;
    LocalsAreFields(d.methods[j].params, r.fields);
  }

  /** A value of the emitted request enum. */
  predicate InEnum(d: RpcDescription, r: TypedRequest) {
    exists j :: 0 <= j < EnumSize(d) && WellTypedAt(d, j, r)
  }

  /** With the enum of a client alone the encoder of `rpc_call` covers every value. With the enum of the
      server side it covers every value exactly when the API has no subscriptions; otherwise the `match`
      is not exhaustive, and the compiler rejects it (`Compile.RpcCallEncoderCovers`). */
  lemma {:induction false} RpcCallEncoderIsTotal(d: RpcDescription)
    requires DistinctNames(d) && d.needsClient
    ensures (forall r :: InEnum(d, r) ==> Encode(RenderServerRequestImpl(d), r).Some?) <==>
            !(d.needsServer && d.subscriptions != [])
  {
    if d.needsServer && d.subscriptions != [] {
      var r := UncoveredRequest(d);
      assert InEnum(d, r);
    } else {
      forall r | InEnum(d, r) ensures Encode(RenderServerRequestImpl(d), r).Some? {
        var j :| 0 <= j < EnumSize(d) && WellTypedAt(d, j, r);
        EncodersAgree(d, j, r);
      }
    }
  }

  /** A request of the first subscription. */
  lemma {:induction false} UncoveredRequest(d: RpcDescription) returns (r: TypedRequest)
    requires DistinctNames(d) && d.subscriptions != []
    ensures WellTypedAt(d, |d.methods|, r) && Encode(RenderServerRequestImpl(d), r) == None
  {
    var ep := EndpointAt(d, |d.methods|);
    SamplesFit(ep.params);
    r := TypedRequest(ep.VariantName(), Samples(ep.params));
    var arms := RenderServerRequestImpl(d);
    var p := (arm: EncodeArm) => arm.variant == r.variant;
    forall i | 0 <= i < |arms| ensures !p(arms[i]) { assert EndpointAt(d, i).VariantName() != ep.VariantName(); }
    assert First(arms, p) == |arms|;
  }

  // ---- responses ----

  /** How a stub reads the response payload. */
  function ReadAs(ty: Ty, response: Response): Result<Data, RpcError> {
    match response.payload
    case Success(v) =>
      (match FromValue(ty, v)
       case Some(x) => Ok(x)
       case None => Err(SerdeJson(ty, v)))
    case Error(err) => Err(RequestProcessing(ErrorText(err)))
  }

  /** How the generated response enum guesses its variant: the first return type that accepts. */
  function ReadAsEnum(arms: seq<ResponseArm>, response: Response): Result<TypedResponse, RpcError> {
    match response.payload
    case Success(v) =>
      var k := First(arms, (arm: ResponseArm) => FromValue(arm.ty, v).Some?);
      if k < |arms| then Ok(TypedResponse(arms[k].variant, FromValue(arms[k].ty, v).value))
      else Err(RequestProcessing(NoKnownVariant))
    case Error(err) => Err(RequestProcessing(ErrorText(err)))
  }

  /** What the enum reads for what handler `k` returned. For a value it is the least variant whose type
      accepts it, hence no later one than `k`; it is the variant of `k` with the value that the stub
      reads exactly when no earlier return type accepts it. For an error it is the error of the stub. */
  lemma {:induction false} FirstMatchDecoding(d: RpcDescription, k: nat, outcome: Result<Data, ErrorObject>, id: Id)
    requires DistinctNames(d) && k < |d.methods| && (outcome.Ok? ==> HasType(outcome.value, d.methods[k].Output()))
    ensures var response := HandlerResponse(outcome, id);
      var read, stub := ReadAsEnum(RenderResponseEnum(d), response), ReadAs(d.methods[k].Output(), response);
      && (outcome.Err? ==> stub == Err(RequestProcessing(ErrorText(outcome.error))) && read == Err(stub.error))
      && (outcome.Ok? ==>
            var v := ToValue(outcome.value);
            && stub.Ok?
            && (exists j :: 0 <= j <= k && FromValue(d.methods[j].Output(), v).Some? &&
                  (forall i :: 0 <= i < j ==> FromValue(d.methods[i].Output(), v).None?) &&
                  read == Ok(TypedResponse(EndpointAt(d, j).VariantName(), FromValue(d.methods[j].Output(), v).value)))
            && (read == Ok(TypedResponse(EndpointAt(d, k).VariantName(), stub.value)) <==>
                  forall i :: 0 <= i < k ==> FromValue(d.methods[i].Output(), v).None?)
            && (d.methods[k].Output().Lawful() ==> stub.value == outcome.value))
  {
    if outcome.Ok? {
      var v := ToValue(outcome.value);
      WrittenIsAccepted(d.methods[k].Output(), outcome.value);
      if d.methods[k].Output().Lawful() { LawfulRoundTrip(d.methods[k].Output(), outcome.value); }
      LeastAccepting(d, k, v);
    }
  }

  lemma {:induction false} LeastAccepting(d: RpcDescription, k: nat, v: Value)
    requires DistinctNames(d) && k < |d.methods| && FromValue(d.methods[k].Output(), v).Some?
    ensures var j := First(RenderResponseEnum(d), (arm: ResponseArm) => FromValue(arm.ty, v).Some?);
      && j <= k && FromValue(d.methods[j].Output(), v).Some?
      && RenderResponseEnum(d)[j] == ResponseArm(EndpointAt(d, j).VariantName(), d.methods[j].Output())
      && (forall i :: 0 <= i < j ==> FromValue(d.methods[i].Output(), v).None?)
      && (j == k <==> EndpointAt(d, j).VariantName() == EndpointAt(d, k).VariantName())
  {
    var arms := RenderResponseEnum(d);
    var p := (arm: ResponseArm) => FromValue(arm.ty, v).Some?;
    var j := First(arms, p);
    assert p(arms[k]);
    forall i | 0 <= i < j ensures FromValue(d.methods[i].Output(), v).None? { assert !p(arms[i]); }
    assert p(arms[j]);
  }

  /** `rpc_call` reads variant `k` with the value of the stub, for every value that handler `k` may return. */
  ghost predicate ReadsLikeStub(d: RpcDescription, k: nat, id: Id)
    requires k < |d.methods|
  {
    forall x :: HasType(x, d.methods[k].Output()) ==>
      var response := Response(Success(ToValue(x)), id);
      var stub := ReadAs(d.methods[k].Output(), response);
      stub.Ok? &&
      ReadAsEnum(RenderResponseEnum(d), response) == Ok(TypedResponse(EndpointAt(d, k).VariantName(), stub.value))
  }

  /** The condition on the types alone: no earlier return type overlaps the one of method `k`. */
  lemma {:induction false} RpcCallReadsExactly(d: RpcDescription, k: nat, id: Id)
    requires DistinctNames(d) && k < |d.methods|
    ensures ReadsLikeStub(d, k, id) <==>
            forall i :: 0 <= i < k ==> !Overlap(d.methods[i].Output(), d.methods[k].Output())
  {
    var t := d.methods[k].Output();
    if ReadsLikeStub(d, k, id) {
      forall i | 0 <= i < k ensures !Overlap(d.methods[i].Output(), t) {
        if Overlap(d.methods[i].Output(), t) {
          var x := Common(d.methods[i].Output(), t);
          FirstMatchDecoding(d, k, Ok(x), id);
        }
      }
    }
    if forall i :: 0 <= i < k ==> !Overlap(d.methods[i].Output(), t) {
      forall x | HasType(x, t)
        ensures var response := Response(Success(ToValue(x)), id);
          var stub := ReadAs(t, response);
          stub.Ok? && ReadAsEnum(RenderResponseEnum(d), response) ==
                        Ok(TypedResponse(EndpointAt(d, k).VariantName(), stub.value))
      {
        forall i | 0 <= i < k ensures FromValue(d.methods[i].Output(), ToValue(x)).None? {
          if FromValue(d.methods[i].Output(), ToValue(x)).Some? { AcceptedOverlaps(d.methods[i].Output(), t, x); }
        }
        FirstMatchDecoding(d, k, Ok(x), id);
      }
    }
  }

  // ---- the whole way ----

  /** What the stub is meant to return for what the handler returned. */
  function Expected(outcome: Result<Data, ErrorObject>): Result<Data, RpcError> {
    match outcome
    case Ok(x) => Ok(x)
    case Err(e) => Err(RequestProcessing(ErrorText(e)))
  }

  /** The handler arguments of the given fields, in the order of the signature. */
  function ArgsIn(ps: seq<Param>, fields: map<string, Data>): seq<Data>
    requires FieldsFit(ps, fields)
  {
    seq(|ps|, i requires 0 <= i < |ps| => fields[ps[i].ident])
  }

  type DirectStages<!A> = Stages<Request, Request, Response, Response, A, RpcError>

  /** The stages around a direct `Request` transport, which converts nothing. */
  function Direct<A>(q: Request, read: Response -> Result<A, RpcError>): DirectStages<A> {
    Stages(Completed(Ok(q)), (t: Request) => Completed(Ok(t)), (r: Response) => Completed(Ok(r)),
           (r: Response) => Completed(read(r)))
  }

  function Responder<W>(layers: seq<Layer<W>>, fallback: Fallback<W>, w: W): Request -> Completion<Response, RpcError> {
    q => Completed(CallStack(layers, fallback, Ok(q), w).1)
  }

  /** The stages of the stub of method `j`. */
  function StubStages(d: RpcDescription, j: nat, fields: map<string, Data>): DirectStages<Data>
    requires j < |d.methods| && FieldsFit(d.methods[j].params, fields)
  {
    Direct(Sent(d, j, fields), (r: Response) => ReadAs(RenderStub(d, j).ok.JsonTy(), r))
  }

  /** The stages of `rpc_call` with the request `q` of an API. */
  function RpcCallStages(d: RpcDescription, q: Request): DirectStages<TypedResponse> {
    Direct(q, (r: Response) => ReadAsEnum(RenderResponseEnum(d), r))
  }

  /** What the stub of method `j` yields once `poll_ready` has answered as in `script`. */
  function StubOutcome<W>(layers: seq<Layer<W>>, fallback: Fallback<W>, d: RpcDescription, j: nat,
                          fields: map<string, Data>, script: seq<Poll<RpcError>>, w: W): Completion<Data, RpcError>
    requires j < |d.methods| && FieldsFit(d.methods[j].params, fields)
  {
    Outcome(StubStages(d, j, fields), script, Responder(layers, fallback, w))
  }

  /** What a stub makes of the answer of any service, once it is ready. It returns a value iff the payload
      is a JSON value that serde reads at the type `t` inside the `Ok` of the function; the value is well
      typed and stands for that JSON. Other JSON is an error that says what could not be read, and an
      error object is an error that renders it. */
  lemma {:induction false} StubReadsAnswer(
      d: RpcDescription, j: nat, fields: map<string, Data>, script: seq<Poll<RpcError>>,
      respond: Request -> Completion<Response, RpcError>, t: Ty)
    requires j < |d.methods| && FieldsFit(d.methods[j].params, fields) && Readiness(script) == Completed(Ok(()))
    requires var returned := d.methods[j].declared;
      returned == ResultTy(t) || returned == DataTy(t) || (returned == UnitTy && t == TUnit)
    ensures var out := Outcome(StubStages(d, j, fields), script, respond);
      match respond(Sent(d, j, fields))
      case Waiting => out == Waiting
      case Completed(Err(e)) => out == Completed(Err(e))
      case Completed(Ok(Response(Error(err), _))) => out == Completed(Err(RequestProcessing(ErrorText(err))))
      case Completed(Ok(Response(Success(v), _))) =>
        if FromValue(t, v).None? then out == Completed(Err(SerdeJson(t, v)))
        else
          && out == Completed(Ok(FromValue(t, v).value))
          && HasType(out.result.value, t) && ToValue(out.result.value) == v
  {
    match respond(Sent(d, j, fields))
    case Completed(Ok(Response(Success(v), _))) =>
      if FromValue(t, v).Some? { AcceptedIsExact(t, v); }
    case _ =>
  }

  /** What `rpc_call` makes of the answer of any service: the first return type that accepts a JSON value
      decides, and if none does the error says that no variant is known. */
  lemma {:induction false} RpcCallReadsAnswer(
      d: RpcDescription, q: Request, script: seq<Poll<RpcError>>, respond: Request -> Completion<Response, RpcError>)
    requires Readiness(script) == Completed(Ok(()))
    ensures var out := Outcome(RpcCallStages(d, q), script, respond);
      match respond(q)
      case Waiting => out == Waiting
      case Completed(Err(e)) => out == Completed(Err(e))
      case Completed(Ok(Response(Error(err), _))) => out == Completed(Err(RequestProcessing(ErrorText(err))))
      case Completed(Ok(Response(Success(v), _))) =>
        && (out == Completed(Err(RequestProcessing(NoKnownVariant))) <==>
              forall i :: 0 <= i < |d.methods| ==> FromValue(d.methods[i].Output(), v).None?)
        && (forall j, x :: 0 <= j < |d.methods| && FromValue(d.methods[j].Output(), v) == Some(x) &&
                           (forall i :: 0 <= i < j ==> FromValue(d.methods[i].Output(), v).None?) ==>
              out == Completed(Ok(TypedResponse(EndpointAt(d, j).VariantName(), x))))
  {
    match respond(q)
    case Completed(Ok(Response(Success(v), _))) =>
      FirstAccepting(d, v);
    case _ =>
  }

  lemma {:induction false} FirstAccepting(d: RpcDescription, v: Value)
    ensures var arms := RenderResponseEnum(d);
      var k := First(arms, (arm: ResponseArm) => FromValue(arm.ty, v).Some?);
      && |arms| == |d.methods|
      && (forall i :: 0 <= i < k ==> FromValue(d.methods[i].Output(), v).None?)
      && (k < |arms| ==> FromValue(d.methods[k].Output(), v).Some? &&
                         arms[k] == ResponseArm(EndpointAt(d, k).VariantName(), d.methods[k].Output()))
  {
    var arms := RenderResponseEnum(d);
    var p := (arm: ResponseArm) => FromValue(arm.ty, v).Some?;
    var k := First(arms, p);
    forall i | 0 <= i < k ensures FromValue(d.methods[i].Output(), v).None? { assert !p(arms[i]); }
    if k < |arms| { assert p(arms[k]); }
  }

  /** The world after the calls of a trace. */
  function Effects<W>(layers: seq<Layer<W>>, fallback: Fallback<W>, log: seq<Event<Request, RpcError>>, w: W): W {
    if log == [] then w
    else
      var last := |log| - 1;
      var before := Effects(layers, fallback, log[..last], w);
      if log[last].Called? then CallStack(layers, fallback, Ok(log[last].request), before).0 else before
  }

  lemma {:induction false} OnlyCallsHaveEffects<W>(
      layers: seq<Layer<W>>, fallback: Fallback<W>, log: seq<Event<Request, RpcError>>, w: W)
    requires forall i :: 0 <= i < |log| ==> !log[i].Called?
    ensures Effects(layers, fallback, log, w) == w
  {
    if log != [] { OnlyCallsHaveEffects(layers, fallback, log[..|log| - 1], w); }
  }

  /** The service is called once, with the request, if it gets ready, and not at all otherwise. */
  lemma {:induction false} DirectEffects<W, A>(
      layers: seq<Layer<W>>, fallback: Fallback<W>, q: Request, read: Response -> Result<A, RpcError>,
      self: nat, copy: nat, script: seq<Poll<RpcError>>, w: W)
    ensures Effects(layers, fallback, Events(Direct(q, read), self, copy, script), w) ==
            if Readiness(script) == Completed(Ok(())) then CallStack(layers, fallback, Ok(q), w).0 else w
  {
    var log := Events(Direct(q, read), self, copy, script);
    var quiet := [Cloned(self, copy)] + PollEvents(copy, script);
    OnlyCallsHaveEffects(layers, fallback, quiet, w);
    if Readiness(script) == Completed(Ok(())) {
      assert log == quiet + [Called(copy, q)];
      assert log[..|log| - 1] == quiet;
    } else {
      assert log == quiet;
    }
  }

  /** The method can be served: its requests come back, and as written it returns a `Result`. */
  predicate ServedAt(d: RpcDescription, j: nat)
    requires j < |d.methods|
  {
    SafeAt(d, j) && d.methods[j].declared.ResultTy?
  }

  /** The request of a stub makes the server call the function of the stub with its arguments:
      for all arguments exactly when the method can be served. */
  lemma {:induction false} StubReachesItsHandler(d: RpcDescription, j: nat)
    requires DistinctNames(d) && j < |d.methods|
    ensures (forall fields :: FieldsFit(d.methods[j].params, fields) ==>
               Decide(RenderService(d), Ok(Sent(d, j, fields))) ==
               Invoke(d.methods[j].fnIdent, ArgsIn(d.methods[j].params, fields), NumberId(0)))
            <==> ServedAt(d, j)
  {
    if ServedAt(d, j) {
      forall fields | FieldsFit(d.methods[j].params, fields)
        ensures Decide(RenderService(d), Ok(Sent(d, j, fields))) ==
                Invoke(d.methods[j].fnIdent, ArgsIn(d.methods[j].params, fields), NumberId(0))
      {
        SafeStubIsServed(d, j, fields);
      }
    } else {
      var fields := MisservedStub(d, j);
    }
  }

  lemma {:induction false} SafeStubIsServed(d: RpcDescription, j: nat, fields: map<string, Data>)
    requires DistinctNames(d) && j < |d.methods| && ServedAt(d, j) && FieldsFit(d.methods[j].params, fields)
    ensures Decide(RenderService(d), Ok(Sent(d, j, fields))) ==
            Invoke(d.methods[j].fnIdent, ArgsIn(d.methods[j].params, fields), NumberId(0))
  {
    var ep := EndpointAt(d, j);
    var q := Sent(d, j, fields);
    OwnerOfPrimary(d, j);
    SentIsEncoded(d, j, fields);
    ExtractionInvertsEncoding(ep, fields);
    CallMeetsSpec(d, Ok(q));
    AcceptedFields(ep, q.params);
    assert ArgsOf(ep, q.params) == ArgsIn(ep.params, fields);
  }

  /** A method that cannot be served has arguments for which its handler is not called with them. */
  lemma {:induction false} MisservedStub(d: RpcDescription, j: nat) returns (fields: map<string, Data>)
    requires DistinctNames(d) && j < |d.methods| && !ServedAt(d, j)
    ensures FieldsFit(d.methods[j].params, fields)
    ensures Decide(RenderService(d), Ok(Sent(d, j, fields))) !=
            Invoke(d.methods[j].fnIdent, ArgsIn(d.methods[j].params, fields), NumberId(0))
  {
    if UnshadowedAt(d, j) && d.methods[j].declared.ResultTy? {
      fields := UnsafeLoses(EndpointAt(d, j));
      LosingStub(d, j, fields);
    } else {
      assert DistinctIdents(EndpointAt(d, j).params);
      SamplesFit(d.methods[j].params);
      fields := Samples(d.methods[j].params);
      OtherFunction(d, j, fields);
    }
  }

  lemma {:induction false} OtherFunction(d: RpcDescription, j: nat, fields: map<string, Data>)
    requires DistinctNames(d) && j < |d.methods| && FieldsFit(d.methods[j].params, fields)
    requires !UnshadowedAt(d, j) || !d.methods[j].declared.ResultTy?
    ensures var c := Decide(RenderService(d), Ok(Sent(d, j, fields)));
            c.Invoke? ==> c.fnIdent != d.methods[j].fnIdent
  {
    OwnerOfPrimary(d, j);
    CallMeetsSpec(d, Ok(Sent(d, j, fields)));
  }

  lemma {:induction false} LosingStub(d: RpcDescription, j: nat, fields: map<string, Data>)
    requires DistinctNames(d) && j < |d.methods| && UnshadowedAt(d, j) && Loses(EndpointAt(d, j), fields)
    ensures Decide(RenderService(d), Ok(Sent(d, j, fields))) !=
            Invoke(d.methods[j].fnIdent, ArgsIn(d.methods[j].params, fields), NumberId(0))
  {
    var ep := EndpointAt(d, j);
    var q := Sent(d, j, fields);
    OwnerOfPrimary(d, j);
    SentIsEncoded(d, j, fields);
    CallMeetsSpec(d, Ok(q));
    if Accepts(ep, q.params) { SameArgsSameFields(ep, q.params, fields); }
  }

  lemma {:induction false} SameArgsSameFields(ep: Endpoint, params: Option<Value>, fields: map<string, Data>)
    requires DistinctIdents(ep.params) && Accepts(ep, params) && FieldsFit(ep.params, fields)
    ensures ArgsOf(ep, params) == ArgsIn(ep.params, fields) ==> FieldsOf(ep, params) == fields
  {
    AcceptedFields(ep, params);
    if ArgsOf(ep, params) == ArgsIn(ep.params, fields) {
      forall i | 0 <= i < |ep.params| ensures FieldsOf(ep, params)[ep.params[i].ident] == fields[ep.params[i].ident] {
        assert ArgsOf(ep, params)[i] == ArgsIn(ep.params, fields)[i];
      }
      SameFields(ep.params, FieldsOf(ep, params), fields);
    }
  }

  /** What readiness makes of a call: it happens, or the error or the wait of `poll_ready` takes its place. */
  function IfReady<W, A>(script: seq<Poll<RpcError>>, w: W, after: W, answer: Result<A, RpcError>)
    : (W, Completion<A, RpcError>)
  {
    match Readiness(script)
    case Completed(Ok(_)) => (after, Completed(answer))
    case Completed(Err(e)) => (w, Completed(Err(e)))
    case Waiting => (w, Waiting)
  }

  /** No earlier layer lists the primary name of method `j` of layer `k`. */
  predicate ReachedFirst<W>(layers: seq<Layer<W>>, k: nat, j: nat)
    requires k < |layers| && j < |layers[k].api.methods|
  {
    forall i :: 0 <= i < k ==> !Owns(layers[i].api, WireName(layers[k].api, layers[k].api.methods[j].name))
  }

  /** A layer reached first by the name of a method that can be served serves the stub of the method: once the stub is
      ready the world is the handler's and the stub returns what the handler returned, whatever else is
      in the stack; if it does not get ready nothing happens. */
  lemma {:induction false} EndToEnd<W>(
      layers: seq<Layer<W>>, fallback: Fallback<W>, k: nat, j: nat, fields: map<string, Data>,
      self: nat, copy: nat, script: seq<Poll<RpcError>>, w: W)
    requires AllDistinct(layers) && k < |layers| && j < |layers[k].api.methods|
    requires var d, m := layers[k].api, layers[k].api.methods[j];
      && ServedAt(d, j) && m.Output().Lawful() && ReachedFirst(layers, k, j)
      && FieldsFit(m.params, fields)
      && (var outcome := layers[k].handler(w, m.fnIdent, ArgsIn(m.params, fields)).1;
          outcome.Ok? ==> HasType(outcome.value, m.Output()))
    ensures var d, m := layers[k].api, layers[k].api.methods[j];
      var (world, outcome) := layers[k].handler(w, m.fnIdent, ArgsIn(m.params, fields));
      (Effects(layers, fallback, Events(StubStages(d, j, fields), self, copy, script), w),
       StubOutcome(layers, fallback, d, j, fields, script, w)) ==
      IfReady(script, w, world, Expected(outcome))
  {
    var d, m := layers[k].api, layers[k].api.methods[j];
    StubServed(layers, fallback, k, j, fields, w);
    DirectEffects(layers, fallback, Sent(d, j, fields), (r: Response) => ReadAs(RenderStub(d, j).ok.JsonTy(), r),
                  self, copy, script, w);
    var (world, outcome) := layers[k].handler(w, m.fnIdent, ArgsIn(m.params, fields));
    ReadAsExpected(m.Output(), outcome);
  }

  /** A stub with a lawful return type reads the response to a handler's outcome as that outcome. */
  lemma {:induction false} ReadAsExpected(ty: Ty, outcome: Result<Data, ErrorObject>)
    requires ty.Lawful() && (outcome.Ok? ==> HasType(outcome.value, ty))
    ensures ReadAs(ty, HandlerResponse(outcome, NumberId(0))) == Expected(outcome)
  {
    if outcome.Ok? { LawfulRoundTrip(ty, outcome.value); }
  }

  lemma {:induction false} StubServed<W>(
      layers: seq<Layer<W>>, fallback: Fallback<W>, k: nat, j: nat, fields: map<string, Data>, w: W)
    requires AllDistinct(layers) && k < |layers| && j < |layers[k].api.methods|
    requires var d, m := layers[k].api, layers[k].api.methods[j];
      ServedAt(d, j) && FieldsFit(m.params, fields) && ReachedFirst(layers, k, j)
    ensures var d, m := layers[k].api, layers[k].api.methods[j];
      var (world, outcome) := layers[k].handler(w, m.fnIdent, ArgsIn(m.params, fields));
      CallStack(layers, fallback, Ok(Sent(d, j, fields)), w) == (world, Ok(HandlerResponse(outcome, NumberId(0))))
  {
    var d := layers[k].api;
    OwnLayerAnswers(layers, k, fallback, j, fields, w);
    SafeStubIsServed(d, j, fields);
    CallMeetsSpec(d, Ok(Sent(d, j, fields)));
  }

  /** The stack with another handler in layer `k`. */
  function WithHandler<W>(layers: seq<Layer<W>>, k: nat, h: Handler<W>): (r: seq<Layer<W>>)
    requires k < |layers|
    ensures |r| == |layers| && r[k] == Layer(layers[k].api, h)
    ensures forall i :: 0 <= i < |layers| ==> r[i].api == layers[i].api && (i != k ==> r[i] == layers[i])
  {
    layers[k := Layer(layers[k].api, h)]
  }

  /** The stub of method `j` returns what the handler of layer `k` returns, for these arguments. */
  ghost predicate FaithfulFor<W>(
      layers: seq<Layer<W>>, k: nat, fallback: Fallback<W>, j: nat, fields: map<string, Data>, w: W)
    requires k < |layers| && j < |layers[k].api.methods|
  {
    var m := layers[k].api.methods[j];
    FieldsFit(m.params, fields) ==>
      var outcome := layers[k].handler(w, m.fnIdent, ArgsIn(m.params, fields)).1;
      (outcome.Ok? ==> HasType(outcome.value, m.Output())) ==>
        StubOutcome(layers, fallback, layers[k].api, j, fields, [Ready], w) == Completed(Expected(outcome))
  }

  /** A handler that answers one call of `fnIdent` in its own way and every other call with an error. */
  function Marked<W>(fnIdent: string, args: seq<Data>, outcome: Result<Data, ErrorObject>): Handler<W> {
    (w, f, xs) => (w, if f == fnIdent && xs == args then outcome else Err(ErrorObject(2, NoDetail)))
  }

  /** The meaning of a method of a layer is preserved, for every handler of the layer and all arguments,
      exactly when no earlier layer owns its name, its name is unshadowed in its own layer, its keys are
      safe, it returns a `Result`, and no parameter or return type nests `null`. */
  lemma {:induction false} EndToEndExactly<W(!new)>(
      layers: seq<Layer<W>>, k: nat, fallback: Fallback<W>, j: nat, w: W)
    requires AllDistinct(layers) && k < |layers| && j < |layers[k].api.methods|
    ensures (forall h, fields :: FaithfulFor(WithHandler(layers, k, h), k, fallback, j, fields, w)) <==>
            ReachedFirst(layers, k, j) && ServedAt(layers[k].api, j) && layers[k].api.methods[j].Output().Lawful()
  {
    if !ReachedFirst(layers, k, j) {
      var h, fields := TakenBefore(layers, k, fallback, j, w);
    } else if !ServedAt(layers[k].api, j) {
      var h, fields := LostCall(layers, k, fallback, j, w);
    } else if !layers[k].api.methods[j].Output().Lawful() {
      var h, fields := LostResult(layers, k, fallback, j, w);
    } else {
      forall h, fields ensures FaithfulFor(WithHandler(layers, k, h), k, fallback, j, fields, w) {
        FaithfulWhenSafe(WithHandler(layers, k, h), k, fallback, j, fields, w);
      }
    }
  }

  lemma {:induction false} FaithfulWhenSafe<W>(
      layers: seq<Layer<W>>, k: nat, fallback: Fallback<W>, j: nat, fields: map<string, Data>, w: W)
    requires AllDistinct(layers) && k < |layers| && j < |layers[k].api.methods|
    requires ReachedFirst(layers, k, j) && ServedAt(layers[k].api, j) && layers[k].api.methods[j].Output().Lawful()
    ensures FaithfulFor(layers, k, fallback, j, fields, w)
  {
    var m := layers[k].api.methods[j];
    if FieldsFit(m.params, fields) {
      var outcome := layers[k].handler(w, m.fnIdent, ArgsIn(m.params, fields)).1;
      if outcome.Ok? ==> HasType(outcome.value, m.Output()) {
        EndToEnd(layers, fallback, k, j, fields, 0, 1, [Ready], w);
      }
    }
  }

  /** A stub whose service is ready reads the answer of the stack. */
  lemma {:induction false} ReadyStub<W>(
      layers: seq<Layer<W>>, fallback: Fallback<W>, d: RpcDescription, j: nat, fields: map<string, Data>, w: W)
    requires j < |d.methods| && FieldsFit(d.methods[j].params, fields)
    ensures StubOutcome(layers, fallback, d, j, fields, [Ready], w) ==
            match CallStack(layers, fallback, Ok(Sent(d, j, fields)), w).1
            case Err(e) => Completed(Err(e))
            case Ok(response) => Completed(ReadAs(d.methods[j].Output(), response))
  {}

  /** An earlier layer owns the name: the answer does not depend on the handler, so some handler answers
      otherwise. */
  lemma {:induction false} TakenBefore<W>(
      layers: seq<Layer<W>>, k: nat, fallback: Fallback<W>, j: nat, w: W)
    returns (h: Handler<W>, fields: map<string, Data>)
    requires AllDistinct(layers) && k < |layers| && j < |layers[k].api.methods| && !ReachedFirst(layers, k, j)
    ensures !FaithfulFor(WithHandler(layers, k, h), k, fallback, j, fields, w)
  {
    var d, m := layers[k].api, layers[k].api.methods[j];
    assert DistinctIdents(EndpointAt(d, j).params);
    SamplesFit(m.params);
    fields := Samples(m.params);
    var answer := StubOutcome(layers, fallback, d, j, fields, [Ready], w);
    var one: Result<Data, RpcError> := Err(RequestProcessing(ErrorText(ErrorObject(1, NoDetail))));
    var outcome := Err(ErrorObject(if answer == Completed(one) then 2 else 1, NoDetail));
    h := Marked(m.fnIdent, ArgsIn(m.params, fields), outcome);
    SameBefore(layers, k, h, fallback, Sent(d, j, fields), w);
    ReadyStub(layers, fallback, d, j, fields, w);
    ReadyStub(WithHandler(layers, k, h), fallback, d, j, fields, w);
  }

  lemma {:induction false} SameBefore<W>(
      layers: seq<Layer<W>>, k: nat, h: Handler<W>, fallback: Fallback<W>, q: Request, w: W)
    requires AllDistinct(layers) && k < |layers| && exists i :: 0 <= i < k && Owns(layers[i].api, q.method_)
    ensures CallStack(WithHandler(layers, k, h), fallback, Ok(q), w) == CallStack(layers, fallback, Ok(q), w)
  {
    var changed := WithHandler(layers, k, h);
    StackIsFlatLookup(layers, fallback, q, w);
    StackIsFlatLookup(changed, fallback, q, w);
    assert FirstOwner(changed, q.method_) == FirstOwner(layers, q.method_) < k;
  }

  /** A method that cannot be served: the handler is not reached with the arguments, so its answer is
      not returned. */
  lemma {:induction false} LostCall<W>(layers: seq<Layer<W>>, k: nat, fallback: Fallback<W>, j: nat, w: W)
    returns (h: Handler<W>, fields: map<string, Data>)
    requires AllDistinct(layers) && k < |layers| && j < |layers[k].api.methods|
    requires ReachedFirst(layers, k, j) && !ServedAt(layers[k].api, j)
    ensures !FaithfulFor(WithHandler(layers, k, h), k, fallback, j, fields, w)
  {
    var m := layers[k].api.methods[j];
    fields := MisservedStub(layers[k].api, j);
    h := Marked(m.fnIdent, ArgsIn(m.params, fields), Err(ErrorObject(1, NoDetail)));
    AnswersOtherwise(WithHandler(layers, k, h), k, fallback, j, fields, w);
    ReadyStub(WithHandler(layers, k, h), fallback, layers[k].api, j, fields, w);
  }

  /** Any decision but the call of the function with the arguments leads to another error. */
  lemma {:induction false} AnswersOtherwise<W>(
      layers: seq<Layer<W>>, k: nat, fallback: Fallback<W>, j: nat, fields: map<string, Data>, w: W)
    requires AllDistinct(layers) && k < |layers| && j < |layers[k].api.methods| && ReachedFirst(layers, k, j)
    requires var d, m := layers[k].api, layers[k].api.methods[j];
      FieldsFit(m.params, fields) && (var args := ArgsIn(m.params, fields);
        && layers[k].handler == Marked(m.fnIdent, args, Err(ErrorObject(1, NoDetail)))
        && Decide(RenderService(d), Ok(Sent(d, j, fields))) != Invoke(m.fnIdent, args, NumberId(0)))
    ensures var answer := CallStack(layers, fallback, Ok(Sent(layers[k].api, j, fields)), w).1;
      match answer
      case Err(e) => e == Foreign(0)
      case Ok(response) => response.payload.Error? && response.payload.err.code != 1
  {
    var q := Sent(layers[k].api, j, fields);
    OwnLayerAnswers(layers, k, fallback, j, fields, w);
    CallMeetsSpec(layers[k].api, Ok(q));
    FiveFates(layers[k].api, Ok(q));
  }

  /** A layer lists its own names, so it answers if it is reached. */
  lemma {:induction false} OwnLayerAnswers<W>(
      layers: seq<Layer<W>>, k: nat, fallback: Fallback<W>, j: nat, fields: map<string, Data>, w: W)
    requires AllDistinct(layers) && k < |layers| && j < |layers[k].api.methods| && ReachedFirst(layers, k, j)
    requires FieldsFit(layers[k].api.methods[j].params, fields)
    ensures var q := Sent(layers[k].api, j, fields);
      Owns(layers[k].api, q.method_) && CallStack(layers, fallback, Ok(q), w) == Answer(layers[k], q, w)
  {
    var q := Sent(layers[k].api, j, fields);
    assert q.method_ in NamesOf(layers[k].api, j);
    StackIsFlatLookup(layers, fallback, q, w);
    assert FirstOwner(layers, q.method_) == k;
  }

  /** A return type that nests `null`: the response cannot tell what the handler returned. */
  lemma {:induction false} LostResult<W>(layers: seq<Layer<W>>, k: nat, fallback: Fallback<W>, j: nat, w: W)
    returns (h: Handler<W>, fields: map<string, Data>)
    requires AllDistinct(layers) && k < |layers| && j < |layers[k].api.methods|
    requires ReachedFirst(layers, k, j) && ServedAt(layers[k].api, j) && !layers[k].api.methods[j].Output().Lawful()
    ensures !FaithfulFor(WithHandler(layers, k, h), k, fallback, j, fields, w)
  {
    var d, m := layers[k].api, layers[k].api.methods[j];
    assert DistinctIdents(EndpointAt(d, j).params);
    SamplesFit(m.params);
    fields := Samples(m.params);
    var x := Lost(m.Output());
    h := Marked(m.fnIdent, ArgsIn(m.params, fields), Ok(x));
    StubServed(WithHandler(layers, k, h), fallback, k, j, fields, w);
    ReadyStub(WithHandler(layers, k, h), fallback, d, j, fields, w);
    assert ReadAs(m.Output(), HandlerResponse(Ok(x), NumberId(0))) != Ok(x);
  }

  /** `rpc_call` with a request of method `j`: the same handler call, read by the response enum. */
  lemma {:induction false} RpcCallEndToEnd<W>(
      layers: seq<Layer<W>>, fallback: Fallback<W>, k: nat, j: nat, r: TypedRequest,
      self: nat, copy: nat, script: seq<Poll<RpcError>>, w: W)
    requires AllDistinct(layers) && k < |layers| && j < |layers[k].api.methods|
    requires var d, m := layers[k].api, layers[k].api.methods[j];
      ServedAt(d, j) && WellTypedAt(d, j, r) && ReachedFirst(layers, k, j)
    ensures Encode(RenderServerRequestImpl(layers[k].api), r).Some?
    ensures var d, m := layers[k].api, layers[k].api.methods[j];
      var q := Encode(RenderServerRequestImpl(d), r).value;
      var (world, outcome) := layers[k].handler(w, m.fnIdent, ArgsIn(m.params, r.fields));
      (Effects(layers, fallback, Events(RpcCallStages(d, q), self, copy, script), w),
       Outcome(RpcCallStages(d, q), script, Responder(layers, fallback, w))) ==
      IfReady(script, w, world, ReadAsEnum(RenderResponseEnum(d), HandlerResponse(outcome, NumberId(0))))
  {
    var d := layers[k].api;
    EncodersAgree(d, j, r);
    StubServed(layers, fallback, k, j, r.fields, w);
    DirectEffects(layers, fallback, Encode(RenderServerRequestImpl(d), r).value,
                  (x: Response) => ReadAsEnum(RenderResponseEnum(d), x), self, copy, script, w);
  }
}
