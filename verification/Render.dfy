/** The code generator: from the description to the emitted code. */
module Render {
  import opened Wrappers
  import opened Api
  import opened Target

  function ParamIdents(ps: seq<Param>): seq<string> {
    seq(|ps|, i requires 0 <= i < |ps| => ps[i].ident)
  }

  function ParamInserts(ps: seq<Param>): seq<Insert> {
    seq(|ps|, i requires 0 <= i < |ps| => Insert(ps[i].Name(), ps[i].ident))
  }

  function RenderBuilder(ps: seq<Param>, kind: ParamKind): Builder {
    if ps == [] then NoParams
    else if kind.MapKind? then
      BuildMap(ParamInserts(ps))
    else BuildVec(ParamIdents(ps))
  }

  function RenderEncodeArm(d: RpcDescription, j: nat): EncodeArm
    requires j < EndpointCount(d)
  {
    var ep := EndpointAt(d, j);
    EncodeArm(ep.VariantName(), ParamIdents(ep.params), WireName(d, ep.name), RenderBuilder(ep.params, ep.kind))
  }

  /** `From<XRequest> for Request`. */
  function RenderIntoRequest(d: RpcDescription): seq<EncodeArm> {
    seq(EndpointCount(d), j requires 0 <= j < EndpointCount(d) => RenderEncodeArm(d, j))
  }

  function ParamSteps(kind: ParamKind, ps: seq<Param>, i: nat): seq<Step>
    requires i < |ps|
  {
    [if kind.MapKind? then MapGet(ps[i].ident, ps[i].Name()) else ArrGet(ps[i].ident, i),
     FromJson(ps[i].ident, ps[i].ty)]
  }

  /** The extraction statements of the first `n` parameters. */
  function StepsUpTo(kind: ParamKind, ps: seq<Param>, n: nat): seq<Step>
    requires n <= |ps|
  {
    if n == 0 then [] else StepsUpTo(kind, ps, n - 1) + ParamSteps(kind, ps, n - 1)
  }

  function RenderDecodeArm(d: RpcDescription, j: nat): DecodeArm
    requires j < EndpointCount(d)
  {
    var ep := EndpointAt(d, j);
    var names := NamesOf(d, j);
    if ep.params == [] then DecodeArm(names, Unparsed, [], ep.VariantName(), [])
    else
      var steps := StepsUpTo(ep.kind, ep.params, |ep.params|);
      if ep.kind.MapKind? then DecodeArm(names, AsMap, steps, ep.VariantName(), ParamIdents(ep.params))
      else
        DecodeArm(names, AsVec, [LenCheck(|ep.params|)] + steps, ep.VariantName(), ParamIdents(ep.params))
  }

  /** `TryFrom<Request> for XRequest`. */
  function RenderTryFromRequest(d: RpcDescription): seq<DecodeArm> {
    seq(EndpointCount(d), j requires 0 <= j < EndpointCount(d) => RenderDecodeArm(d, j))
  }

  /** The names of the first `n` endpoints, in order. */
  function GateUpTo(d: RpcDescription, n: nat): seq<string>
    requires n <= EndpointCount(d)
  {
    if n == 0 then [] else GateUpTo(d, n - 1) + NamesOf(d, n - 1)
  }

  function GateNames(d: RpcDescription): seq<string> {
    GateUpTo(d, EndpointCount(d))
  }

  method NamesWithAliases(primary: string, aliases: seq<string>) returns (names: seq<string>)
    ensures names == [primary] + aliases
  {
    names := [];
    names := names + [primary];
    for i := 0 to |aliases|
      invariant names == [primary] + aliases[..i]
    {
      names := names + [aliases[i]];
    }
  }

  /** The loop over methods and then over subscriptions that grows the list of the name gate. */
  method CollectGateNames(d: RpcDescription) returns (all: seq<string>)
    ensures all == GateNames(d)
  {
    all := [];
    for i := 0 to |d.methods|
      invariant all == GateUpTo(d, i)
    {
      var names := NamesWithAliases(WireName(d, d.methods[i].name), d.methods[i].aliases);
      all := all + names;
    }
    for i := 0 to |d.subscriptions|
      invariant all == GateUpTo(d, |d.methods| + i)
    {
      var names := NamesWithAliases(WireName(d, d.subscriptions[i].name), d.subscriptions[i].aliases);
      all := all + names;
    }
  }

  function RenderDispatchArm(d: RpcDescription, j: nat): DispatchArm
    requires j < EndpointCount(d)
  {
    var ep := EndpointAt(d, j);
    if j < |d.methods| then
      CallHandler(ep.VariantName(), ParamIdents(ep.params), d.methods[j].fnIdent, ParamIdents(ep.params),
                  d.methods[j].isAsync)
    else RejectSubscription(ep.VariantName())
  }

  function FnIdent(d: RpcDescription, j: nat): string
    requires j < EndpointCount(d)
  {
    if j < |d.methods| then d.methods[j].fnIdent else d.subscriptions[j - |d.methods|].fnIdent
  }

  /** The functions of the rewritten trait. What a subscription function returns does not matter. */
  function RenderTrait(d: RpcDescription): seq<Signature> {
    seq(EndpointCount(d), j requires 0 <= j < EndpointCount(d) =>
      Signature(FnIdent(d, j), ParamIdents(EndpointAt(d, j).params),
                if j < |d.methods| then d.methods[j].Rewritten() else UnitTy))
  }

  function RenderService(d: RpcDescription): ServiceCode {
    ServiceCode(RenderTrait(d), GateNames(d), RenderTryFromRequest(d),
                seq(EndpointCount(d), j requires 0 <= j < EndpointCount(d) => RenderDispatchArm(d, j)))
  }

  /** `ServerRequest for XRequest`: methods only. */
  function RenderServerRequestImpl(d: RpcDescription): seq<EncodeArm> {
    seq(|d.methods|, j requires 0 <= j < |d.methods| => RenderEncodeArm(d, j))
  }

  function RenderStub(d: RpcDescription, j: nat): StubCode
    requires j < |d.methods|
  {
    var m := d.methods[j];
    StubCode(m.fnIdent, ParamIdents(m.params), WireName(d, m.name), RenderBuilder(m.params, m.kind),
             m.declared.OkType())
  }

  function RenderResponseEnum(d: RpcDescription): seq<ResponseArm> {
    seq(|d.methods|, j requires 0 <= j < |d.methods| =>
      ResponseArm(MethodEndpoint(d.methods[j]).VariantName(), d.methods[j].Output()))
  }

  /** How many variants the emitted request enum has: the server side emits it with all endpoints; the
      client side emits it, with the methods only, when there is no server side. */
  function EnumSize(d: RpcDescription): nat {
    if d.needsServer then EndpointCount(d) else if d.needsClient then |d.methods| else 0
  }

  function RenderRequestEnum(d: RpcDescription): seq<string> {
    seq(EnumSize(d), j requires 0 <= j < EnumSize(d) => EndpointAt(d, j).VariantName())
  }

  /** Everything the macro emits for the two flags of the description. */
  function Rendered(d: RpcDescription): Emitted {
    Emitted(
      RenderTrait(d), RenderRequestEnum(d),
      if d.needsServer then Some(ServerCode(RenderIntoRequest(d), RenderService(d))) else None,
      if d.needsClient then
        Some(ClientCode(RenderServerRequestImpl(d),
                        seq(|d.methods|, j requires 0 <= j < |d.methods| => RenderStub(d, j)),
                        RenderResponseEnum(d)))
      else None)
  }
}
