/** When the Rust compiler accepts what the macro emits, in terms of the description. */
module Compile {
  import opened Wrappers
  import opened Names
  import opened Api
  import opened Search
  import opened Target
  import opened Render

  predicate DistinctFns(d: RpcDescription) {
    forall i, j :: 0 <= i < j < EndpointCount(d) ==> FnIdent(d, i) != FnIdent(d, j)
  }

  predicate DistinctVariants(d: RpcDescription, n: nat)
    requires n <= EndpointCount(d)
  {
    forall i, j :: 0 <= i < j < n ==> EndpointAt(d, i).VariantName() != EndpointAt(d, j).VariantName()
  }

  /** Every method, as written, returns a `Result`. */
  predicate ReturnsResults(d: RpcDescription) {
    forall j :: 0 <= j < |d.methods| ==> d.methods[j].declared.ResultTy?
  }

  predicate DeclaresNoFuture(d: RpcDescription) {
    forall j :: 0 <= j < |d.methods| ==> !d.methods[j].declared.FutureOf?
  }

  /** The server side needs methods that return `Result`, the client side methods that declare no future,
      and both together an API without subscriptions. */
  predicate Compiles(d: RpcDescription) {
    && DistinctFns(d)
    && (forall j :: 0 <= j < EndpointCount(d) ==> DistinctIdents(EndpointAt(d, j).params))
    && DistinctVariants(d, EnumSize(d))
    && (d.needsServer ==> ReturnsResults(d))
    && (d.needsClient ==> DeclaresNoFuture(d))
    && (d.needsServer && d.needsClient ==> d.subscriptions == [])
  }

  lemma {:induction false} TraitChecks(d: RpcDescription)
    ensures TraitTypeChecks(RenderTrait(d)) <==>
            DistinctFns(d) && forall j :: 0 <= j < EndpointCount(d) ==> DistinctIdents(EndpointAt(d, j).params)
  {
    var fns := RenderTrait(d);
    var idents := seq(|fns|, i requires 0 <= i < |fns| => fns[i].ident);
    assert forall i :: 0 <= i < |fns| ==> idents[i] == FnIdent(d, i);
    forall i | 0 <= i < |fns| ensures NoTwins(fns[i].params) <==> DistinctIdents(EndpointAt(d, i).params) {
      ParamsCheck(EndpointAt(d, i).params);
    }
  }

  lemma {:induction false} ParamsCheck(ps: seq<Param>)
    ensures NoTwins(ParamIdents(ps)) <==> DistinctIdents(ps)
  {
    assert forall i :: 0 <= i < |ps| ==> ParamIdents(ps)[i] == ps[i].ident;
  }

  lemma {:induction false} EnumChecks(d: RpcDescription)
    ensures NoTwins(RenderRequestEnum(d)) <==> DistinctVariants(d, EnumSize(d))
  {
    assert forall i :: 0 <= i < EnumSize(d) ==> RenderRequestEnum(d)[i] == EndpointAt(d, i).VariantName();
  }

  /** A dispatch arm has a type exactly when its function, as written, returns a `Result`: `async` and
      `.await` cancel, and a future that the function declares itself is not awaited. */
  lemma {:induction false} DispatchArmChecks(d: RpcDescription, j: nat)
    requires DistinctFns(d) && j < EndpointCount(d)
    ensures ArmHasType(RenderTrait(d), RenderDispatchArm(d, j)) <==>
            (j < |d.methods| ==> d.methods[j].declared.ResultTy?)
  {
    if j < |d.methods| {
      assert forall i :: 0 <= i <= j ==> FnIdent(d, i) == d.methods[i].fnIdent;
      OwnSignature(d, j);
    }
  }

  lemma {:induction false} OwnSignature(d: RpcDescription, j: nat)
    requires j < |d.methods|
    requires forall i :: 0 <= i < j ==> d.methods[i].fnIdent != d.methods[j].fnIdent
    ensures ReturnType(RenderTrait(d), d.methods[j].fnIdent) == Some(d.methods[j].Rewritten())
  {
    var fns := RenderTrait(d);
    var p := (f: Signature) => f.ident == d.methods[j].fnIdent;
    forall i | 0 <= i < j ensures !p(fns[i]) { assert fns[i].ident == d.methods[i].fnIdent; }
    assert p(fns[j]);
    assert First(fns, p) == j;
  }

  lemma {:induction false} ServerChecks(d: RpcDescription)
    requires DistinctFns(d) && d.needsServer
    ensures ServerTypeChecks(RenderTrait(d), RenderRequestEnum(d), Rendered(d).server.value) <==> ReturnsResults(d)
  {
    var encode, arms, variants := RenderIntoRequest(d), RenderService(d).dispatch, RenderRequestEnum(d);
    forall i | 0 <= i < |variants| ensures HasEncodeArm(encode, variants[i]) && HasDispatchArm(arms, variants[i]) {
      assert encode[i].variant == variants[i] && arms[i].variant == variants[i];
    }
    forall j | 0 <= j < EndpointCount(d)
      ensures ArmHasType(RenderTrait(d), arms[j]) <==> (j < |d.methods| ==> d.methods[j].declared.ResultTy?)
    {
      DispatchArmChecks(d, j);
    }
  }

  /** The encoder of `rpc_call` has an arm for every method. The enum of the server side has variants for
      subscriptions as well, the enum that a client alone emits has not. */
  lemma {:induction false} RpcCallEncoderCovers(d: RpcDescription)
    requires DistinctVariants(d, EnumSize(d)) && d.needsClient
    ensures Covers(RenderServerRequestImpl(d), RenderRequestEnum(d)) <==> !(d.needsServer && d.subscriptions != [])
  {
    var arms, variants := RenderServerRequestImpl(d), RenderRequestEnum(d);
    var m := |d.methods|;
    forall i | 0 <= i < m ensures HasEncodeArm(arms, variants[i]) { assert arms[i].variant == variants[i]; }
    if d.needsServer && d.subscriptions != [] {
      forall j | 0 <= j < |arms| ensures arms[j].variant != variants[m] {
        assert EndpointAt(d, j).VariantName() != EndpointAt(d, m).VariantName();
      }
      assert !HasEncodeArm(arms, variants[m]);
    } else {
      assert |variants| == m;
    }
  }

  lemma {:induction false} ClientChecks(d: RpcDescription)
    requires DistinctVariants(d, EnumSize(d)) && d.needsClient
    ensures ClientTypeChecks(RenderRequestEnum(d), Rendered(d).client.value) <==>
            DeclaresNoFuture(d) && !(d.needsServer && d.subscriptions != [])
  {
    RpcCallEncoderCovers(d);
    var c := Rendered(d).client.value;
    forall j | 0 <= j < |d.methods| ensures c.stubs[j].ok.IsData() <==> !d.methods[j].declared.FutureOf? {
      assert c.stubs[j] == RenderStub(d, j);
    }
    var variants := seq(|c.responses|, i requires 0 <= i < |c.responses| => c.responses[i].variant);
    assert forall j :: 0 <= j < |d.methods| ==> variants[j] == EndpointAt(d, j).VariantName();
  }

  /** The output of the macro passes the compiler exactly when the description meets `Compiles`. */
  lemma {:induction false} CompilesExactly(d: RpcDescription)
    ensures TypeChecks(Rendered(d)) <==> Compiles(d)
  {
    TraitChecks(d);
    EnumChecks(d);
    if DistinctFns(d) && d.needsServer { ServerChecks(d); }
    if DistinctVariants(d, EnumSize(d)) && d.needsClient { ClientChecks(d); }
  }

  /** The emitted trait has the functions of the source, one for each method and subscription, with its
      identifier and its parameters in order, and the request enum of a server the variants of their names. */
  lemma {:induction false} FunctionsAreKept(d: RpcDescription)
    ensures var out := Rendered(d);
      && |out.handler| == |d.methods| + |d.subscriptions|
      && (d.needsServer <==> out.server.Some?) && (d.needsServer ==> |out.requests| == |out.handler|)
    ensures forall j :: 0 <= j < |d.methods| ==>
      FunctionIs(d, j, d.methods[j].fnIdent, d.methods[j].params, d.methods[j].name)
    ensures forall j :: 0 <= j < |d.subscriptions| ==>
      FunctionIs(d, |d.methods| + j, d.subscriptions[j].fnIdent, d.subscriptions[j].params, d.subscriptions[j].name)
  {
    forall j | 0 <= j < |d.subscriptions| ensures FunctionIs(
      d, |d.methods| + j, d.subscriptions[j].fnIdent, d.subscriptions[j].params, d.subscriptions[j].name)
    {
      assert EndpointAt(d, |d.methods| + j).params == d.subscriptions[j].params;
    }
  }

  predicate FunctionIs(d: RpcDescription, j: nat, ident: string, params: seq<Param>, name: string) {
    var out := Rendered(d);
    && j < |out.handler| && out.handler[j].ident == ident && Declares(out.handler[j].params, params)
    && (d.needsServer ==> j < |out.requests| && out.requests[j] == VariantName(name))
  }

  /** The client has a stub for each method, with its identifier and its parameters in order, that reads the
      type inside the `Ok` of the method, and a variant of its name with that type in the response enum. */
  lemma {:induction false} StubsAreKept(d: RpcDescription)
    ensures d.needsClient <==> Rendered(d).client.Some?
    ensures d.needsClient ==>
      |Rendered(d).client.value.stubs| == |Rendered(d).client.value.responses| == |d.methods|
    ensures d.needsClient ==> forall j :: 0 <= j < |d.methods| ==>
      var m, stub, arm := d.methods[j], Rendered(d).client.value.stubs[j], Rendered(d).client.value.responses[j];
      && stub.fnIdent == m.fnIdent && Declares(stub.inputs, m.params) && arm.variant == VariantName(m.name)
      && (m.declared.ResultTy? ==> stub.ok == DataTy(m.declared.ok) && arm.ty == m.declared.ok)
  {}

  predicate Declares(idents: seq<string>, params: seq<Param>) {
    |idents| == |params| && forall i :: 0 <= i < |params| ==> idents[i] == params[i].ident
  }

  /** What the theorems about names assume holds of every server that compiles. */
  lemma {:induction false} CompiledNamesAreDistinct(d: RpcDescription)
    requires Compiles(d) && (d.needsServer || d.subscriptions == []) && (d.needsServer || d.needsClient)
    ensures DistinctNames(d)
  {
    assert forall i :: 0 <= i < |d.methods| ==> FnIdent(d, i) == d.methods[i].fnIdent;
  }
}
