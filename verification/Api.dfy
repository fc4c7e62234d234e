/** The description the macro collects from a trait: the source language of the code generator. */
module Api {
  import opened Wrappers
  import opened Json
  import opened Names

  datatype ParamKind = ArrayKind | MapKind

  datatype Param = Param(ident: string, renameTo: Option<string>, ty: Ty) {
    /** The key of the parameter in a by-name request. */
    function Name(): string {
      match renameTo
      case Some(key) => key
      case None => ident
    }
  }

  /** The return type of a trait function. */
  datatype RetTy = UnitTy | DataTy(ty: Ty) | ResultTy(ok: Ty) | FutureOf(output: RetTy) {
    /** The type inside `Ok` if this is a `Result`, else the type itself. */
    function OkType(): RetTy {
      if ResultTy? then DataTy(ok) else this
    }

    /** serde can read values of the type. */
    predicate IsData() {
      UnitTy? || DataTy?
    }

    /** The data type; a type that serde cannot read stands as unit, and code that reads it is rejected. */
    function JsonTy(): Ty {
      if DataTy? then ty else TUnit
    }
  }

  /** The signature is `declared` and `isAsync`, as written. */
  datatype Method = Method(
    fnIdent: string, name: string, params: seq<Param>, kind: ParamKind, aliases: seq<string>,
    isAsync: bool, declared: RetTy)
  {
    /** The type of the values that the client reads. */
    function Output(): Ty {
      declared.OkType().JsonTy()
    }

    /** The return type in the rewritten trait: `async` becomes a future of the declared type. */
    function Rewritten(): RetTy {
      if isAsync then FutureOf(declared) else declared
    }
  }

  datatype Subscription = Subscription(
    fnIdent: string, name: string, unsubscribe: string, notifName: string, params: seq<Param>,
    kind: ParamKind, aliases: seq<string>)

  datatype RpcDescription = RpcDescription(
    needsServer: bool, needsClient: bool,
    namespace: Option<string>, separator: Option<string>,
    methods: seq<Method>, subscriptions: seq<Subscription>)

  /** What a method and a subscription have in common: a wire entry point with parameters. */
  datatype Endpoint = Endpoint(name: string, params: seq<Param>, kind: ParamKind, aliases: seq<string>) {
    function VariantName(): string {
      Names.VariantName(name)
    }
  }

  function MethodEndpoint(m: Method): Endpoint {
    Endpoint(m.name, m.params, m.kind, m.aliases)
  }

  function SubscriptionEndpoint(s: Subscription): Endpoint {
    Endpoint(s.name, s.params, s.kind, s.aliases)
  }

  /** Methods first, then subscriptions: the order of every generated `match`. */
  function EndpointCount(d: RpcDescription): nat {
    |d.methods| + |d.subscriptions|
  }

  function EndpointAt(d: RpcDescription, j: nat): Endpoint
    requires j < EndpointCount(d)
  {
    if j < |d.methods| then MethodEndpoint(d.methods[j])
    else SubscriptionEndpoint(d.subscriptions[j - |d.methods|])
  }

  function WireName(d: RpcDescription, name: string): string {
    RpcIdentifier(d.namespace, d.separator, name)
  }

  /** The wire names that reach endpoint `j`: the primary one, then the aliases as written. */
  function NamesOf(d: RpcDescription, j: nat): seq<string>
    requires j < EndpointCount(d)
  {
    [WireName(d, EndpointAt(d, j).name)] + EndpointAt(d, j).aliases
  }

  function Idents(ps: seq<Param>): set<string> {
    set p | p in ps :: p.ident
  }

  predicate DistinctIdents(ps: seq<Param>) {
    forall i, j :: 0 <= i < j < |ps| ==> ps[i].ident != ps[j].ident
  }

  /** Distinct enum variants, distinct trait functions, distinct parameters of one function. */
  predicate DistinctNames(d: RpcDescription) {
    && (forall i, j :: 0 <= i < j < EndpointCount(d) ==>
          EndpointAt(d, i).VariantName() != EndpointAt(d, j).VariantName())
    && (forall i, j :: 0 <= i < j < |d.methods| ==> d.methods[i].fnIdent != d.methods[j].fnIdent)
    && (forall j :: 0 <= j < EndpointCount(d) ==> DistinctIdents(EndpointAt(d, j).params))
  }

  /** A value of the generated request enum. */
  datatype TypedRequest = TypedRequest(variant: string, fields: map<string, Data>)

  predicate FieldsFit(ps: seq<Param>, fields: map<string, Data>) {
    && fields.Keys == Idents(ps)
    && forall i :: 0 <= i < |ps| ==> ps[i].ident in fields && HasType(fields[ps[i].ident], ps[i].ty)
  }

  predicate WellTypedAt(d: RpcDescription, j: nat, r: TypedRequest)
    requires j < EndpointCount(d)
  {
    r.variant == EndpointAt(d, j).VariantName() && FieldsFit(EndpointAt(d, j).params, r.fields)
  }

  /** No arm before the one of endpoint `j` matches the primary name of `j`. */
  predicate UnshadowedAt(d: RpcDescription, j: nat)
    requires j < EndpointCount(d)
  {
    forall i :: 0 <= i < j ==> WireName(d, EndpointAt(d, j).name) !in NamesOf(d, i)
  }

  /** Two parameters may share a key only when neither carries information. */
  predicate KeysSafe(ep: Endpoint) {
    ep.kind.MapKind? ==>
      forall i, j :: 0 <= i < j < |ep.params| && ep.params[i].Name() == ep.params[j].Name() ==>
        ep.params[i].ty == TUnit && ep.params[j].ty == TUnit
  }

  predicate LawfulParams(ep: Endpoint) {
    forall i :: 0 <= i < |ep.params| ==> ep.params[i].ty.Lawful()
  }

  /** Distinct variants come from distinct names, hence distinct primary wire names. */
  lemma {:induction false} VariantsSeparateWireNames(d: RpcDescription, i: nat, j: nat)
    requires i < EndpointCount(d) && j < EndpointCount(d)
    requires EndpointAt(d, i).VariantName() != EndpointAt(d, j).VariantName()
    ensures WireName(d, EndpointAt(d, i).name) != WireName(d, EndpointAt(d, j).name)
  {
    if WireName(d, EndpointAt(d, i).name) == WireName(d, EndpointAt(d, j).name) {
      IdentifierIsInjective(d.namespace, d.separator, EndpointAt(d, i).name, EndpointAt(d, j).name);
    }
  }

  predicate AliasFree(d: RpcDescription) {
    forall j :: 0 <= j < EndpointCount(d) ==> EndpointAt(d, j).aliases == []
  }

  /** An API without aliases is never shadowed. */
  lemma {:induction false} AliasFreeIsUnshadowed(d: RpcDescription)
    requires DistinctNames(d) && AliasFree(d)
    ensures forall j :: 0 <= j < EndpointCount(d) ==> UnshadowedAt(d, j)
  {
    forall i, j | 0 <= i < j < EndpointCount(d)
      ensures WireName(d, EndpointAt(d, j).name) !in NamesOf(d, i)
    {
      VariantsSeparateWireNames(d, i, j);
    }
  }

  /** Neither prefix of the two APIs extends the other. */
  predicate Incomparable(d: RpcDescription, e: RpcDescription) {
    var p, q := Prefix(d.namespace, d.separator), Prefix(e.namespace, e.separator);
    !(p <= q) && !(q <= p)
  }

  /** APIs under incomparable prefixes share no primary wire name. */
  lemma {:induction false} NamespacesSeparateApis(d: RpcDescription, e: RpcDescription, i: nat, j: nat)
    requires i < EndpointCount(d) && j < EndpointCount(e)
    requires Incomparable(d, e)
    ensures WireName(d, EndpointAt(d, i).name) != WireName(e, EndpointAt(e, j).name)
  {
    IdentifierIsPrefixed(d.namespace, d.separator, EndpointAt(d, i).name);
    IdentifierIsPrefixed(e.namespace, e.separator, EndpointAt(e, j).name);
    IncomparablePrefixesSeparate(
      Prefix(d.namespace, d.separator), Prefix(e.namespace, e.separator),
      EndpointAt(d, i).name, EndpointAt(e, j).name);
  }
}
