/** One generated server service, and stacks of them. */
module Service {
  import opened Wrappers
  import opened Json
  import opened Protocol
  import opened Api
  import opened Search
  import opened Target
  import opened Render
  import opened Decoder
  import opened Compile

  // ---- one call ----

  /** What `call` is meant to do, said in terms of the description. A method that is not written with a
      `Result` cannot be served: the compiler rejects its dispatch arm. */
  function Intended(d: RpcDescription, incoming: Result<Request, RpcError>): Decision {
    match incoming
    case Err(e) => Fail(e)
    case Ok(q) =>
      var k := Owner(d, q.method_);
      if k == EndpointCount(d) then Forward(q)
      else
        var ep := EndpointAt(d, k);
        if !Accepts(ep, q.params) then Reply(Response(Error(Rejection(ep, q.params)), q.id))
        else if k < |d.methods| then
          if d.methods[k].declared.ResultTy? then Invoke(d.methods[k].fnIdent, ArgsOf(ep, q.params), q.id) else Stuck
        else Reply(Response(Error(ErrorObject(INVALID_REQUEST, SubscriptionsNotImplemented)), q.id))
  }

  lemma {:induction false} GateIsUnion(d: RpcDescription, n: nat, name: string)
    requires n <= EndpointCount(d)
    ensures name in GateUpTo(d, n) <==> exists j :: 0 <= j < n && name in NamesOf(d, j)
  {
    if n > 0 { GateIsUnion(d, n - 1, name); }
  }

  /** The name gate lets through exactly what some arm of the decoder matches. */
  lemma {:induction false} GateMatchesDecoder(d: RpcDescription, name: string)
    ensures name in RenderService(d).gate <==> Owner(d, name) < EndpointCount(d)
    ensures name in RenderService(d).gate <==>
            exists j :: 0 <= j < |RenderTryFromRequest(d)| && name in RenderTryFromRequest(d)[j].patterns
  {
    GateIsUnion(d, EndpointCount(d), name);
    var arms := RenderTryFromRequest(d);
    forall j | 0 <= j < EndpointCount(d) ensures arms[j].patterns == NamesOf(d, j) {}
    var k := Owner(d, name);
    if k < EndpointCount(d) { assert name in arms[k].patterns; }
  }

  /** The endpoint answers to `name`: it is the prefixed name of the endpoint, or an alias as written. */
  predicate ListensTo(d: RpcDescription, j: nat, name: string)
    requires j < EndpointCount(d)
  {
    if j < |d.methods| then Hears(d, d.methods[j].name, d.methods[j].aliases, name)
    else Hears(d, d.subscriptions[j - |d.methods|].name, d.subscriptions[j - |d.methods|].aliases, name)
  }

  predicate Hears(d: RpcDescription, own: string, aliases: seq<string>, name: string) {
    || name in aliases
    || name == match d.namespace
               case None => own
               case Some(ns) => ns + (match d.separator case None => "_" case Some(sep) => sep) + own
  }

  /** The arm of an endpoint matches exactly the names it answers to. */
  lemma {:induction false} ArmListens(d: RpcDescription, j: nat, name: string)
    requires j < EndpointCount(d)
    ensures name in RenderTryFromRequest(d)[j].patterns <==> ListensTo(d, j, name)
  {
    assert RenderTryFromRequest(d)[j].patterns == NamesOf(d, j);
    NamesListed(d, j, name);
  }

  /** Exactly the names that some endpoint answers to pass the gate; every other request is handed on. */
  lemma {:induction false} GateListens(d: RpcDescription, q: Request)
    requires DistinctNames(d)
    ensures q.method_ in RenderService(d).gate <==>
            exists j :: 0 <= j < EndpointCount(d) && ListensTo(d, j, q.method_)
    ensures Decide(RenderService(d), Ok(q)) == Forward(q) <==>
            forall j :: 0 <= j < EndpointCount(d) ==> !ListensTo(d, j, q.method_)
  {
    forall j | 0 <= j < EndpointCount(d) ensures q.method_ in NamesOf(d, j) <==> ListensTo(d, j, q.method_) {
      NamesListed(d, j, q.method_);
    }
    GateIsUnion(d, EndpointCount(d), q.method_);
    OwnsOrForwards(d, q);
    if exists j :: 0 <= j < EndpointCount(d) && ListensTo(d, j, q.method_) {
      var j :| 0 <= j < EndpointCount(d) && ListensTo(d, j, q.method_);
      assert q.method_ in NamesOf(d, j);
    }
  }

  /** The first endpoint that answers to the method decides: no function but its own is called. */
  lemma {:induction false} FirstListenerDecides(d: RpcDescription, j: nat, q: Request)
    requires DistinctNames(d) && j < EndpointCount(d) && ListensTo(d, j, q.method_)
    requires forall i :: 0 <= i < j ==> !ListensTo(d, i, q.method_)
    ensures var c := Decide(RenderService(d), Ok(q));
      c.Invoke? ==> j < |d.methods| && c.fnIdent == d.methods[j].fnIdent
  {
    FirstListenerOwns(d, j, q.method_);
    CallMeetsSpec(d, Ok(q));
  }

  lemma {:induction false} FirstListenerOwns(d: RpcDescription, j: nat, name: string)
    requires j < EndpointCount(d) && ListensTo(d, j, name)
    requires forall i :: 0 <= i < j ==> !ListensTo(d, i, name)
    ensures Owner(d, name) == j
  {
    forall i | 0 <= i <= j ensures name in NamesOf(d, i) <==> ListensTo(d, i, name) { NamesListed(d, i, name); }
  }

  lemma {:induction false} NamesListed(d: RpcDescription, j: nat, name: string)
    requires j < EndpointCount(d)
    ensures name in NamesOf(d, j) <==> ListensTo(d, j, name)
  {
    var names := NamesOf(d, j);
    assert names[0] == WireName(d, EndpointAt(d, j).name) && names[1..] == EndpointAt(d, j).aliases;
    if name in names && name != names[0] {
      var i :| 0 <= i < |names| && names[i] == name;
      assert names[1..][i - 1] == name;
    }
  }

  /** The dispatcher sends a typed request of endpoint `k` to the function of endpoint `k`, if `match` on
      what it returns, awaited or not, has a type. */
  lemma {:induction false} DispatchMeetsSpec(d: RpcDescription, k: nat, params: Option<Value>, id: Id)
    requires DistinctNames(d) && k < EndpointCount(d) && Accepts(EndpointAt(d, k), params)
    ensures var ep := EndpointAt(d, k);
            Dispatch(RenderTrait(d), RenderService(d).dispatch,
                     TypedRequest(ep.VariantName(), FieldsOf(ep, params)), id) ==
            if k < |d.methods| then
              if d.methods[k].declared.ResultTy? then Invoke(d.methods[k].fnIdent, ArgsOf(ep, params), id) else Stuck
            else Reply(Response(Error(ErrorObject(INVALID_REQUEST, SubscriptionsNotImplemented)), id))
  {
    var ep := EndpointAt(d, k);
    var arms := RenderService(d).dispatch;
    var p := (arm: DispatchArm) => arm.variant == ep.VariantName();
    forall i | 0 <= i < k ensures !p(arms[i]) {}
    assert p(arms[k]);
    assert First(arms, p) == k;
    if k < |d.methods| {
      ArgsInOrder(ep, params);
      OwnSignature(d, k);
    }
  }

  lemma {:induction false} ArgsInOrder(ep: Endpoint, params: Option<Value>)
    requires DistinctIdents(ep.params) && Accepts(ep, params)
    ensures var names, fields := ParamIdents(ep.params), FieldsOf(ep, params);
            Locals(names, fields) == fields && AllBound(names, fields) &&
            seq(|names|, i requires 0 <= i < |names| => fields[names[i]]) == ArgsOf(ep, params)
  {
    AcceptedFields(ep, params);
    LocalsAreFields(ep.params, FieldsOf(ep, params));
  }

  /** The emitted gate, decoder and dispatcher together do what is intended. */
  lemma {:induction false} CallMeetsSpec(d: RpcDescription, incoming: Result<Request, RpcError>)
    requires DistinctNames(d)
    ensures Decide(RenderService(d), incoming) == Intended(d, incoming)
  {
    match incoming
    case Err(_) =>
    case Ok(q) =>
      GateMatchesDecoder(d, q.method_);
      DecodeMeetsSpec(d, q);
      var k := Owner(d, q.method_);
      if k < EndpointCount(d) && Accepts(EndpointAt(d, k), q.params) {
        DispatchMeetsSpec(d, k, q.params, q.id);
      }
  }

  /** Each request meets exactly one of five fates; the emitted code never panics, and the decoder's
      `MethodNotFound` arm is never reached behind the gate. Only a call of a method that returns no
      `Result` gets stuck, and the compiler rejects an API with such a method. */
  lemma {:induction false} FiveFates(d: RpcDescription, incoming: Result<Request, RpcError>)
    requires DistinctNames(d)
    ensures ReturnsResults(d) ==> Decide(RenderService(d), incoming) != Stuck
    ensures Decide(RenderService(d), incoming).Fail? <==> incoming.Err?
    ensures incoming.Err? ==> Decide(RenderService(d), incoming) == Fail(incoming.error)
    ensures incoming.Ok? ==>
      var q, c := incoming.value, Decide(RenderService(d), incoming);
      var k := Owner(d, q.method_);
      && (c.Forward? <==> !Owns(d, q.method_))
      && (c.Forward? ==> c.q == q)
      && (c.Invoke? <==>
            k < |d.methods| && Accepts(EndpointAt(d, k), q.params) && d.methods[k].declared.ResultTy?)
      && (c.Stuck? <==>
            k < |d.methods| && Accepts(EndpointAt(d, k), q.params) && !d.methods[k].declared.ResultTy?)
      && (c.Invoke? ==> c.id == q.id && c.fnIdent == d.methods[k].fnIdent)
      && (c.Reply? <==> k < EndpointCount(d) && (k >= |d.methods| || !Accepts(EndpointAt(d, k), q.params)))
      && (c.Reply? ==> c.response.id == q.id && c.response.payload.Error?)
      && (c.Reply? && Accepts(EndpointAt(d, k), q.params) ==> c.response.payload.err.code == -32600)
      && (c.Reply? && !Accepts(EndpointAt(d, k), q.params) ==> c.response.payload.err.code == -32602)
  {
    CallMeetsSpec(d, incoming);
    if incoming.Ok? {
      var k := Owner(d, incoming.value.method_);
      assert Owns(d, incoming.value.method_) <==> k < EndpointCount(d);
    }
  }

  lemma {:induction false} OwnsOrForwards(d: RpcDescription, q: Request)
    requires DistinctNames(d)
    ensures var c := Decide(RenderService(d), Ok(q));
            c == Intended(d, Ok(q)) && (if Owns(d, q.method_) then !c.Forward? && !c.Fail? else c == Forward(q))
  {
    CallMeetsSpec(d, Ok(q));
    var k := Owner(d, q.method_);
  }

  // ---- one call, from the source of the API ----

  /** The request carries the typed values `args` for the parameters: by position, or by name under the
      renaming of each parameter or else its own name. What is sent for no parameters does not matter. */
  predicate Carries(params: seq<Param>, kind: ParamKind, sent: Option<Value>, args: seq<Data>) {
    && |args| == |params|
    && (params == [] || (sent.Some? && CarriesIn(params, kind, sent.value, args)))
  }

  predicate CarriesIn(params: seq<Param>, kind: ParamKind, sent: Value, args: seq<Data>)
    requires |args| == |params|
  {
    match kind
    case ArrayKind =>
      sent.Arr? && |sent.items| == |params| &&
      forall i :: 0 <= i < |params| ==> FromValue(params[i].ty, sent.items[i]) == Some(args[i])
    case MapKind =>
      sent.Obj? && forall i :: 0 <= i < |params| ==>
        var key := match params[i].renameTo case Some(k) => k case None => params[i].ident;
        key in sent.entries && FromValue(params[i].ty, sent.entries[key]) == Some(args[i])
  }

  /** Accepting a request is finding the arguments in it. */
  lemma {:induction false} AcceptedCarries(ep: Endpoint, sent: Option<Value>, args: seq<Data>)
    ensures Accepts(ep, sent) && ArgsOf(ep, sent) == args <==> Carries(ep.params, ep.kind, sent, args)
  {
    if Carries(ep.params, ep.kind, sent, args) {
      var v := ParamsValue(sent);
      forall i | 0 <= i < |ep.params| ensures Good(ep, v, i) && DataAt(ep, v, i) == args[i] {}
    }
    if Accepts(ep, sent) { ArgsAreCarried(ep, sent); }
  }

  lemma {:induction false} ArgsAreCarried(ep: Endpoint, sent: Option<Value>)
    requires Accepts(ep, sent)
    ensures Carries(ep.params, ep.kind, sent, ArgsOf(ep, sent))
  {
    var v, args := ParamsValue(sent), ArgsOf(ep, sent);
    if ep.params != [] {
      assert sent == Some(v);
      forall i | 0 <= i < |ep.params|
        ensures Present(ep, v, i) && FromValue(ep.params[i].ty, ValueAt(ep, v, i)) == Some(args[i])
      {
        assert Good(ep, v, i);
      }
    }
  }

  /** A request for a method whose name no earlier endpoint listens to: if it carries arguments, the function
      of the method is called with exactly these; otherwise the answer is the error for invalid parameters. */
  lemma {:induction false} MethodIsServed(d: RpcDescription, j: nat, q: Request, args: seq<Data>)
    requires DistinctNames(d) && j < |d.methods|
    requires ListensTo(d, j, q.method_) && forall i :: 0 <= i < j ==> !ListensTo(d, i, q.method_)
    ensures var m, c := d.methods[j], Decide(RenderService(d), Ok(q));
      && (m.declared.ResultTy? ==>
            (c == Invoke(m.fnIdent, args, q.id) <==> Carries(m.params, m.kind, q.params, args)))
      && (c.Reply? <==> forall args :: !Carries(m.params, m.kind, q.params, args))
      && (c.Reply? ==> c.response.id == q.id && c.response.payload.Error? && c.response.payload.err.code == -32602)
  {
    var ep := EndpointAt(d, j);
    FirstListenerOwns(d, j, q.method_);
    CallMeetsSpec(d, Ok(q));
    FiveFates(d, Ok(q));
    forall other { AcceptedCarries(ep, q.params, other); }
    if Accepts(ep, q.params) { ArgsAreCarried(ep, q.params); }
  }

  /** A request for a subscription is never served: the answer is an error, for the parameters if they do not
      fit, else because subscriptions are not implemented. */
  lemma {:induction false} SubscriptionIsAnswered(d: RpcDescription, i: nat, q: Request)
    requires DistinctNames(d) && i < |d.subscriptions|
    requires ListensTo(d, |d.methods| + i, q.method_)
    requires forall k :: 0 <= k < |d.methods| + i ==> !ListensTo(d, k, q.method_)
    ensures var s, c := d.subscriptions[i], Decide(RenderService(d), Ok(q));
      && c.Reply? && c.response.id == q.id && c.response.payload.Error?
      && c.response.payload.err.code ==
           if exists args :: Carries(s.params, s.kind, q.params, args) then -32600 else -32602
  {
    var ep := EndpointAt(d, |d.methods| + i);
    FirstListenerOwns(d, |d.methods| + i, q.method_);
    FiveFates(d, Ok(q));
    forall args { AcceptedCarries(ep, q.params, args); }
    if Accepts(ep, q.params) { ArgsAreCarried(ep, q.params); }
  }

  // ---- stacks ----

  /** A handler is a function on the state `W` of everything outside the generated code; it is what the
      functions that return a `Result` do, and no other function is ever called. */
  type Handler<!W> = (W, string, seq<Data>) -> (W, Result<Data, ErrorObject>)

  datatype Layer<!W> = Layer(api: RpcDescription, handler: Handler<W>)

  type Fallback<!W> = (W, Request) -> (W, Result<Response, RpcError>)

  /** The outermost service first; each runs its emitted code and may hand the request inwards. */
  function CallStack<W>(layers: seq<Layer<W>>, fallback: Fallback<W>,
                        incoming: Result<Request, RpcError>, w: W): (W, Result<Response, RpcError>)
  {
    if layers == [] then
      match incoming
      case Err(e) => (w, Err(e))
      case Ok(q) => fallback(w, q)
    else
      match Decide(RenderService(layers[0].api), incoming)
      case Fail(e) => (w, Err(e))
      case Forward(q) => CallStack(layers[1..], fallback, Ok(q), w)
      case Reply(response) => (w, Ok(response))
      case Invoke(fnIdent, args, id) =>
        var (w', outcome) := layers[0].handler(w, fnIdent, args);
        (w', Ok(HandlerResponse(outcome, id)))
      case Stuck => (w, Err(Foreign(0)))
  }

  /** The layer replies and leaves the world alone, or it runs its handler once, keeps the new world and
      writes what the handler returned under the id of the request. */
  ghost predicate SettledBy<W>(layer: Layer<W>, q: Request, w: W, result: (W, Result<Response, RpcError>)) {
    match Decide(RenderService(layer.api), Ok(q))
    case Reply(response) => result == (w, Ok(response))
    case Invoke(fnIdent, args, id) =>
      var (world, outcome) := layer.handler(w, fnIdent, args);
      var payload := match outcome case Ok(x) => Success(ToValue(x)) case Err(e) => Error(e);
      result == (world, Ok(Response(payload, id)))
    case Forward(_) => false
    case _ => result.0 == w && result.1.Err?
  }

  /** The layers in front hand the request on; the first that does not settles it, and without such a layer
      the fallback answers. */
  lemma {:induction false} StackRuns<W>(layers: seq<Layer<W>>, fallback: Fallback<W>, k: nat, q: Request, w: W)
    requires k <= |layers|
    requires forall i :: 0 <= i < k ==> Decide(RenderService(layers[i].api), Ok(q)) == Forward(q)
    ensures k == |layers| ==> CallStack(layers, fallback, Ok(q), w) == fallback(w, q)
    ensures k < |layers| && !Decide(RenderService(layers[k].api), Ok(q)).Forward? ==>
      SettledBy(layers[k], q, w, CallStack(layers, fallback, Ok(q), w))
  {
    HandOn(layers, fallback, k, q, w);
    if k < |layers| && !Decide(RenderService(layers[k].api), Ok(q)).Forward? {
      assert layers[k..][0] == layers[k];
      Decides(layers[k..], fallback, q, w);
    }
  }

  lemma {:induction false} HandOn<W>(layers: seq<Layer<W>>, fallback: Fallback<W>, k: nat, q: Request, w: W)
    requires k <= |layers|
    requires forall i :: 0 <= i < k ==> Decide(RenderService(layers[i].api), Ok(q)) == Forward(q)
    ensures CallStack(layers, fallback, Ok(q), w) == CallStack(layers[k..], fallback, Ok(q), w)
  {
    if k > 0 {
      HandOn(layers, fallback, k - 1, q, w);
      var rest := layers[k - 1..];
      assert rest[0] == layers[k - 1] && rest[1..] == layers[k..];
    } else {
      assert layers[0..] == layers;
    }
  }

  lemma {:induction false} Decides<W>(layers: seq<Layer<W>>, fallback: Fallback<W>, q: Request, w: W)
    requires layers != [] && !Decide(RenderService(layers[0].api), Ok(q)).Forward?
    ensures SettledBy(layers[0], q, w, CallStack(layers, fallback, Ok(q), w))
  {}

  /** A transport request that cannot be converted fails with its own error and touches nothing. */
  lemma {:induction false} FailedConversion<W>(layers: seq<Layer<W>>, fallback: Fallback<W>, e: RpcError, w: W)
    ensures CallStack(layers, fallback, Err(e), w) == (w, Err(e))
  {}

  predicate AllDistinct<W>(layers: seq<Layer<W>>) {
    forall i :: 0 <= i < |layers| ==> DistinctNames(layers[i].api)
  }

  /** The answer of a layer that owns the method, by its description. */
  function Answer<W>(layer: Layer<W>, q: Request, w: W): (W, Result<Response, RpcError>) {
    match Intended(layer.api, Ok(q))
    case Invoke(fnIdent, args, id) =>
      var (w', outcome) := layer.handler(w, fnIdent, args);
      (w', Ok(HandlerResponse(outcome, id)))
    case Reply(response) => (w, Ok(response))
    case _ => (w, Err(Foreign(0)))
  }

  /** The outermost layer answers by its description or passes the request on unchanged. */
  lemma {:induction false} OneLayer<W>(layers: seq<Layer<W>>, fallback: Fallback<W>, q: Request, w: W)
    requires layers != [] && DistinctNames(layers[0].api)
    ensures CallStack(layers, fallback, Ok(q), w) ==
            if Owns(layers[0].api, q.method_) then Answer(layers[0], q, w)
            else CallStack(layers[1..], fallback, Ok(q), w)
  {
    OwnsOrForwards(layers[0].api, q);
  }

  ghost function FirstOwner<W>(layers: seq<Layer<W>>, name: string): (k: nat)
    ensures k <= |layers|
    ensures forall i :: 0 <= i < k ==> !Owns(layers[i].api, name)
    ensures k < |layers| ==> Owns(layers[k].api, name)
  {
    if layers == [] || Owns(layers[0].api, name) then 0 else 1 + FirstOwner(layers[1..], name)
  }

  /** One flat table: the first layer that lists the method answers, else the fallback does. */
  ghost function FlatLookup<W>(layers: seq<Layer<W>>, fallback: Fallback<W>, q: Request, w: W)
    : (W, Result<Response, RpcError>)
  {
    var k := FirstOwner(layers, q.method_);
    if k < |layers| then Answer(layers[k], q, w) else fallback(w, q)
  }

  lemma {:induction false} StackIsFlatLookup<W>(layers: seq<Layer<W>>, fallback: Fallback<W>, q: Request, w: W)
    requires AllDistinct(layers)
    ensures CallStack(layers, fallback, Ok(q), w) == FlatLookup(layers, fallback, q, w)
  {
    if layers != [] {
      OneLayer(layers, fallback, q, w);
      if !Owns(layers[0].api, q.method_) {
        StackIsFlatLookup(layers[1..], fallback, q, w);
      }
    }
  }

  ghost predicate DisjointNames<W>(layers: seq<Layer<W>>) {
    forall i, j, name :: 0 <= i < j < |layers| && Owns(layers[i].api, name) ==> !Owns(layers[j].api, name)
  }

  /** Layers that share no name may be stacked in any order. */
  lemma {:induction false} OrderIsIrrelevant<W>(
      layers: seq<Layer<W>>, permuted: seq<Layer<W>>, fallback: Fallback<W>, q: Request, w: W)
    requires AllDistinct(layers) && DisjointNames(layers)
    requires multiset(permuted) == multiset(layers)
    ensures CallStack(permuted, fallback, Ok(q), w) == CallStack(layers, fallback, Ok(q), w)
  {
    forall x ensures x in permuted <==> x in layers {
      assert x in multiset(permuted) <==> x in multiset(layers);
    }
    forall i | 0 <= i < |permuted| ensures DistinctNames(permuted[i].api) {
      assert permuted[i] in layers;
    }
    StackIsFlatLookup(layers, fallback, q, w);
    StackIsFlatLookup(permuted, fallback, q, w);
    var k, m := FirstOwner(layers, q.method_), FirstOwner(permuted, q.method_);
    if k < |layers| {
      assert layers[k] in permuted;
      var n :| 0 <= n < |permuted| && permuted[n] == layers[k];
      assert m <= n;
    }
    if m < |permuted| {
      assert permuted[m] in layers;
      var n :| 0 <= n < |layers| && layers[n] == permuted[m];
      assert n == k;
    }
  }

  /** Without aliases, layers under pairwise incomparable prefixes share no name at all. */
  lemma {:induction false} NamespacesMakeDisjoint<W>(layers: seq<Layer<W>>)
    requires forall i :: 0 <= i < |layers| ==> AliasFree(layers[i].api)
    requires forall i, j :: 0 <= i < j < |layers| ==> Incomparable(layers[i].api, layers[j].api)
    ensures DisjointNames(layers)
  {
    forall i, j, name | 0 <= i < j < |layers| && Owns(layers[i].api, name) ensures !Owns(layers[j].api, name) {
      if Owns(layers[j].api, name) {
        var m :| 0 <= m < EndpointCount(layers[i].api) && name in NamesOf(layers[i].api, m);
        var n :| 0 <= n < EndpointCount(layers[j].api) && name in NamesOf(layers[j].api, n);
        NamespacesSeparateApis(layers[i].api, layers[j].api, m, n);
      }
    }
  }

  /** Alias-free APIs under pairwise incomparable prefixes may be stacked in any order. */
  lemma {:induction false} NamespacedLayersCommute<W>(
      layers: seq<Layer<W>>, permuted: seq<Layer<W>>, fallback: Fallback<W>, q: Request, w: W)
    requires AllDistinct(layers) && multiset(permuted) == multiset(layers)
    requires forall i :: 0 <= i < |layers| ==> AliasFree(layers[i].api)
    requires forall i, j :: 0 <= i < j < |layers| ==> Incomparable(layers[i].api, layers[j].api)
    ensures CallStack(permuted, fallback, Ok(q), w) == CallStack(layers, fallback, Ok(q), w)
  {
    NamespacesMakeDisjoint(layers);
    OrderIsIrrelevant(layers, permuted, fallback, q, w);
  }

  /** The innermost service answers with the id it was asked with. */
  ghost predicate Echoes<W(!new)>(fallback: Fallback<W>) {
    forall w: W, q: Request :: fallback(w, q).1.Ok? ==> fallback(w, q).1.value.id == q.id
  }

  /** Section 5 of the JSON-RPC 2.0 specification: the id of a response is the id of its request,
      whichever layer answers and whether it is a result or an error. */
  lemma {:induction false} IdsArePreserved<W(!new)>(layers: seq<Layer<W>>, fallback: Fallback<W>, q: Request, w: W)
    requires AllDistinct(layers) && Echoes(fallback)
    ensures var result := CallStack(layers, fallback, Ok(q), w).1;
            result.Ok? ==> result.value.id == q.id
  {
    if layers != [] {
      OneLayer(layers, fallback, q, w);
      if !Owns(layers[0].api, q.method_) {
        IdsArePreserved(layers[1..], fallback, q, w);
      }
    }
  }
}
