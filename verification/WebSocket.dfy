/** The WebSocket client hands parameters to jsonrpsee as a list, whatever they were. */
module WebSocket {
  import opened Wrappers
  import opened Json
  import opened Protocol
  import opened Api
  import opened Target
  import opened Render
  import opened Decoder
  import opened RoundTrip

  /** `from_str::<Vec<Value>>(..).unwrap_or_default()`, and the empty list for absent parameters. */
  function ListParams(params: Option<Value>): seq<Value> {
    match params
    case Some(Arr(items)) => items
    case _ => []
  }

  /** The request that reaches the server; the id is chosen by the WebSocket library. */
  function Relayed(q: Request, id: Id): Request {
    Request(q.method_, Some(Arr(ListParams(q.params))), id)
  }

  predicate SurvivesRelay(d: RpcDescription, r: TypedRequest, id: Id) {
    var q := Encode(RenderIntoRequest(d), r);
    q.Some? && Decode(RenderTryFromRequest(d), Relayed(q.value, id)) == Accepted(r)
  }

  /** A typed request survives the relay exactly when it survives without it and is not a by-name
      request with parameters. */
  lemma {:induction false} RelayKeepsPositionalRequests(d: RpcDescription, j: nat, r: TypedRequest, id: Id)
    requires DistinctNames(d) && j < EndpointCount(d) && WellTypedAt(d, j, r)
    ensures SurvivesRelay(d, r, id) <==>
            ComesBack(d, r) && !(EndpointAt(d, j).kind.MapKind? && EndpointAt(d, j).params != [])
  {
    var ep := EndpointAt(d, j);
    EncodeWellTyped(d, j, r);
    var q := Encode(RenderIntoRequest(d), r).value;
    DecodeMeetsSpec(d, Relayed(q, id));
    DecodeMeetsSpec(d, q);
    OwnerOfPrimary(d, j);
    if ep.params == [] {
      assert FieldsOf(ep, Relayed(q, id).params) == FieldsOf(ep, q.params);
    } else if ep.kind.ArrayKind? {
      assert Relayed(q, id).params == q.params;
    }
  }

  /** All requests of a variant survive the relay exactly when the endpoint is safe and has no by-name
      parameters. */
  lemma {:induction false} RelayIsFaithfulExactly(d: RpcDescription, j: nat, id: Id)
    requires DistinctNames(d) && j < EndpointCount(d)
    ensures (forall r :: WellTypedAt(d, j, r) ==> SurvivesRelay(d, r, id)) <==>
            SafeAt(d, j) && !(EndpointAt(d, j).kind.MapKind? && EndpointAt(d, j).params != [])
  {
    var ep := EndpointAt(d, j);
    forall r | WellTypedAt(d, j, r)
      ensures SurvivesRelay(d, r, id) <==> ComesBack(d, r) && !(ep.kind.MapKind? && ep.params != [])
    {
      RelayKeepsPositionalRequests(d, j, r, id);
    }
    RoundTripAt(d, j);
    SamplesFit(ep.params);
    assert WellTypedAt(d, j, TypedRequest(ep.VariantName(), Samples(ep.params)));
  }

  /** The relay keeps the method, and the parameters if they are an array. Absent parameters, and
      parameters that are no array, become the empty array. */
  lemma {:induction false} RelayedParameters(q: Request, id: Id)
    ensures Relayed(q, id).method_ == q.method_ && Relayed(q, id).id == id
    ensures q.params.Some? && q.params.value.Arr? ==> Relayed(q, id).params == q.params
    ensures !(q.params.Some? && q.params.value.Arr?) ==> Relayed(q, id).params == Some(Arr([]))
  {}

  /** Under a by-name method with parameters the server rejects every relayed request before it looks at any
      parameter, because an array is no object. */
  lemma {:induction false} RelayedByNameIsRejected(d: RpcDescription, q: Request, id: Id)
    requires DistinctNames(d) && Owner(d, q.method_) < EndpointCount(d)
    requires var ep := EndpointAt(d, Owner(d, q.method_)); ep.kind.MapKind? && ep.params != []
    ensures Decode(RenderTryFromRequest(d), Relayed(q, id)) ==
            Rejected(ErrorObject(-32602, NotParsed(
              if q.params.Some? && q.params.value.Arr? then q.params.value else Arr([]))))
  {
    RelayedParameters(q, id);
    DecodeMeetsSpec(d, Relayed(q, id));
  }

  /** Under a positional method with parameters a relayed request that had no array is rejected for its
      count, even if every parameter could be absent. */
  lemma {:induction false} RelayedWithoutArrayIsRejected(d: RpcDescription, q: Request, id: Id)
    requires DistinctNames(d) && Owner(d, q.method_) < EndpointCount(d)
    requires var ep := EndpointAt(d, Owner(d, q.method_)); ep.kind.ArrayKind? && ep.params != []
    requires !(q.params.Some? && q.params.value.Arr?)
    ensures Decode(RenderTryFromRequest(d), Relayed(q, id)) ==
            Rejected(ErrorObject(-32602, WrongCount(|EndpointAt(d, Owner(d, q.method_)).params|, 0)))
  {
    RelayedParameters(q, id);
    DecodeMeetsSpec(d, Relayed(q, id));
  }
}
