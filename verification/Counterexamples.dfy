/** Traits that the macro accepts and that miss one of the conditions that the exact results name: first
    those that compile and then do not do what they are written for, then those whose output the Rust
    compiler rejects. */
module Counterexamples {
  import opened Wrappers
  import opened Json
  import opened Names
  import opened Protocol
  import opened Api
  import opened Attributes
  import opened Target
  import opened Render
  import opened Decoder
  import opened RoundTrip
  import opened Compile
  import opened Service
  import opened Client
  import opened FrontEnd
  import opened Meanings

  /** `#[rpc(client, server)]` */
  const RPC: Attr := Attr("rpc", Some([Ident("client"), Comma, Ident("server")]))

  lemma {:induction false} NoneFilled(slots: seq<Slot>, from: nat, n: nat)
    requires from <= n <= |slots| && forall i :: from <= i < n ==> slots[i].Missing?
    ensures FilledArguments(slots, n) == FilledArguments(slots, from)
  {
    if from < n {
      NoneFilled(slots, from, n - 1);
      assert FilledArguments(slots, n - 1) + [] == FilledArguments(slots, n - 1);
    }
  }

  lemma {:induction false} OnlyFilled(slots: seq<Slot>, k: nat)
    requires k < |slots| && slots[k].Filled?
    requires forall i :: 0 <= i < |slots| && i != k ==> slots[i].Missing?
    ensures FilledArguments(slots, |slots|) == [slots[k].arg]
  {
    NoneFilled(slots, 0, k);
    NoneFilled(slots, k + 1, |slots|);
    assert [] + [slots[k].arg] == [slots[k].arg];
  }

  lemma {:induction false} TwoFilled(slots: seq<Slot>, k: nat)
    requires k + 1 < |slots| && slots[k].Filled? && slots[k + 1].Filled?
    requires forall i :: 0 <= i < |slots| && i != k && i != k + 1 ==> slots[i].Missing?
    ensures FilledArguments(slots, |slots|) == [slots[k].arg, slots[k + 1].arg]
  {
    NoneFilled(slots, 0, k);
    NoneFilled(slots, k + 2, |slots|);
    assert [] + [slots[k].arg] == [slots[k].arg];
    assert [slots[k].arg] + [slots[k + 1].arg] == [slots[k].arg, slots[k + 1].arg];
  }

  lemma {:induction false} PrintOne(a: Argument)
    ensures Print([a]) == [Ident(a.name)] + a.tokens
  {
    assert ([Ident(a.name)] + a.tokens) + [] == [Ident(a.name)] + a.tokens;
  }

  lemma {:induction false} PrintTwo(a: Argument, b: Argument)
    ensures Print([a, b]) == [Ident(a.name)] + a.tokens + ([Comma] + ([Ident(b.name)] + b.tokens))
  {
    assert [a, b][1..] == [b];
    PrintOne(b);
  }

  /** The attribute of the trait asks for both sides and for no namespace. */
  lemma {:induction false} RpcIsRead()
    ensures ReadRpcMeta(RPC) == Ok(RpcMeta(true, true, None, None))
  {
    RpcTokensAreRead(RPC, RpcMeta(true, true, None, None));
  }

  lemma {:induction false} RpcTokensAreRead(attr: Attr, meta: RpcMeta)
    requires attr.path == "rpc" && attr.args.Some? && |attr.args.value| == 3
    requires attr.args.value[0] == Ident("client") && attr.args.value[1] == Comma
    requires attr.args.value[2] == Ident("server")
    requires meta == RpcMeta(true, true, None, None)
    ensures ReadRpcMeta(attr) == Ok(meta)
  {
    RpcTokens(attr.args.value, RpcSlots(meta));
    RpcMetaReadsBack(meta);
    assert attr == Attr("rpc", Some(Print(FilledArguments(RpcSlots(meta), |RPC_ARGUMENTS|))));
  }

  lemma {:induction false} RpcTokens(tokens: seq<Token>, slots: seq<Slot>)
    requires |tokens| == 3 && tokens[0] == Ident("client") && tokens[1] == Comma && tokens[2] == Ident("server")
    requires |slots| == 6 && slots[0] == Filled(Argument("client", [])) && slots[1] == Filled(Argument("server", []))
    requires forall i :: 2 <= i < 6 ==> slots[i].Missing?
    ensures tokens == Print(FilledArguments(slots, 6))
  {
    TwoFilled(slots, 0);
    PrintTwo(slots[0].arg, slots[1].arg);
  }

  /** The description of an API under `RPC`. */
  function BothSides(methods: seq<Method>, subscriptions: seq<Subscription>): RpcDescription {
    RpcDescription(true, true, None, None, methods, subscriptions)
  }

  lemma {:induction false} Described(items: seq<TraitItem>, all: Collected)
    requires CollectAll(items) == Ok(all) && (all.methods != [] || all.subscriptions != [])
    ensures Describe(RPC, items) == Ok(BothSides(all.methods, all.subscriptions))
  {
    RpcIsRead();
  }

  /** What a function without attributes is read as. */
  function PlainMethod(f: TraitFn, params: seq<Param>): Method {
    Method(f.ident, f.ident, params, ArrayKind, [], f.isAsync, f.output.Declared())
  }

  lemma {:induction false} PlainMethodIsRead(f: TraitFn, params: seq<Param>)
    requires '_' !in f.ident && ParamsOf(f.inputs, BadPattern) == Ok(params)
    ensures MethodFromItem(None, f) == Ok(PlainMethod(f, params))
  {
    ManglingIsIdempotent(f.ident);
  }

  lemma {:induction false} OneMethodCompiles(m: Method)
    requires m.declared.ResultTy? && DistinctIdents(m.params)
    ensures var d := BothSides([m], []); Compiles(d) && DistinctNames(d) && UnshadowedAt(d, 0)
  {
    assert EndpointCount(BothSides([m], [])) == 1;
  }

  lemma {:induction false} TwoMethodsCompile(a: Method, b: Method)
    requires a.declared.ResultTy? && b.declared.ResultTy? && a.params == [] && b.params == []
    requires a.fnIdent != b.fnIdent && VariantName(a.name) != VariantName(b.name)
    ensures var d := BothSides([a, b], []); Compiles(d) && DistinctNames(d)
  {
    assert EndpointCount(BothSides([a, b], [])) == 2;
  }

  /** A trait with one function without attributes. */
  lemma {:induction false} PlainTrait(f: TraitFn, params: seq<Param>)
    requires f.attrs == [] && Receiver in f.inputs && '_' !in f.ident
    requires ParamsOf(f.inputs, BadPattern) == Ok(params)
    ensures Describe(RPC, [FnItem(f)]) == Ok(BothSides([PlainMethod(f, params)], []))
  {
    PlainMethodIsRead(f, params);
    OneItem(FnItem(f));
    var all := Collected([PlainMethod(f, params)], []);
    MethodIsCollected(f, None, PlainMethod(f, params), Collected([], []), all);
    Described([FnItem(f)], all);
  }

  // ---- a name shadowed by an alias ----

  function AliasAttr(alias: string): Attr {
    Attr("method", Some([Ident("aliases"), Equals, Brackets([Lit(alias)])]))
  }

  /** `#[method(aliases = ["b"])] async fn a(&self) -> Result<(), _>; async fn b(&self) -> Result<(), _>;` */
  function ShadowingTrait(a: string, b: string): seq<TraitItem> {
    [FnItem(TraitFn(a, [AliasAttr(b)], true, [Receiver], Returns(ResultTy(TUnit)))),
     FnItem(TraitFn(b, [], true, [Receiver], Returns(ResultTy(TUnit))))]
  }

  function ShadowingApi(a: string, b: string): RpcDescription {
    BothSides([Method(a, a, [], ArrayKind, [b], true, ResultTy(TUnit)),
               Method(b, b, [], ArrayKind, [], true, ResultTy(TUnit))], [])
  }

  /** An attribute with one argument is read as what fills only that slot. */
  lemma {:induction false} OneArgumentIsRead(attr: Attr, meta: MethodMeta, k: nat)
    requires k < 5 && MethodSlots(meta)[k].Filled?
    requires forall i :: 0 <= i < 5 && i != k ==> MethodSlots(meta)[i].Missing?
    requires var arg := MethodSlots(meta)[k].arg; attr == Attr("method", Some([Ident(arg.name)] + arg.tokens))
    ensures ReadMethodMeta(attr) == Ok(meta)
  {
    OnlyFilled(MethodSlots(meta), k);
    PrintOne(MethodSlots(meta)[k].arg);
    MethodMetaReadsBack(meta);
  }

  lemma {:induction false} AliasIsRead(alias: string)
    ensures ReadMethodMeta(AliasAttr(alias)) == Ok(MethodMeta([alias], false, None, ArrayKind))
  {
    var meta := MethodMeta([alias], false, None, ArrayKind);
    AliasSlots(meta, alias);
    assert AliasAttr(alias).args.value == [Ident("aliases")] + [Equals, Brackets([Lit(alias)])];
    OneArgumentIsRead(AliasAttr(alias), meta, 0);
  }

  lemma {:induction false} AliasSlots(meta: MethodMeta, alias: string)
    requires meta == MethodMeta([alias], false, None, ArrayKind)
    ensures MethodSlots(meta)[0] == Filled(Argument("aliases", [Equals, Brackets([Lit(alias)])]))
    ensures forall i :: 1 <= i < 5 ==> MethodSlots(meta)[i].Missing?
  {
    assert PrintLiterals([alias]) == [Lit(alias)];
  }

  lemma {:induction false} AliasedMethodIsRead(f: TraitFn, alias: string)
    requires '_' !in f.ident && ParamsOf(f.inputs, BadPattern) == Ok([])
    ensures MethodFromItem(Some(AliasAttr(alias)), f) ==
            Ok(Method(f.ident, f.ident, [], ArrayKind, [alias], f.isAsync, f.output.Declared()))
  {
    AliasIsRead(alias);
    ManglingIsIdempotent(f.ident);
  }

  lemma {:induction false} AliasedMethodIsCollected(f: TraitFn, alias: string, m: Method, all: Collected)
    requires '_' !in f.ident && f.attrs == [AliasAttr(alias)] && f.inputs == [Receiver]
    requires m == Method(f.ident, f.ident, [], ArrayKind, [alias], f.isAsync, f.output.Declared())
    requires all == Collected([m], [])
    ensures CollectAll([FnItem(f)]) == Ok(all)
  {
    AliasedMethodIsRead(f, alias);
    MethodIsCollected(f, Some(AliasAttr(alias)), m, Collected([], []), all);
    OneItem(FnItem(f));
  }

  lemma {:induction false} ShadowingIsDescribed(a: string, b: string)
    requires '_' !in a && '_' !in b
    ensures Describe(RPC, ShadowingTrait(a, b)) == Ok(ShadowingApi(a, b))
  {
    var items, d := ShadowingTrait(a, b), ShadowingApi(a, b);
    var g := items[1].fn;
    var first, both := Collected([d.methods[0]], []), Collected(d.methods, []);
    AliasedMethodIsCollected(items[0].fn, b, d.methods[0], first);
    PlainMethodIsRead(g, []);
    MethodIsCollected(g, None, d.methods[1], first, both);
    TwoItems(items[0], items[1]);
    assert items == [items[0], items[1]];
    Described(items, both);
  }

  /** The alias of `a` takes the calls of `b`: the stub of `b` makes the server call `a`. */
  lemma {:induction false} AliasShadowsName(a: string, b: string)
    requires '_' !in a && '_' !in b && VariantName(a) != VariantName(b)
    ensures Describe(RPC, ShadowingTrait(a, b)) == Ok(ShadowingApi(a, b)) && Compiles(ShadowingApi(a, b))
    ensures !UnshadowedAt(ShadowingApi(a, b), 1)
    ensures FieldsFit(ShadowingApi(a, b).methods[1].params, map[])
    ensures Decide(RenderService(ShadowingApi(a, b)), Ok(Sent(ShadowingApi(a, b), 1, map[]))) ==
            Invoke(a, [], NumberId(0))
  {
    ShadowingIsDescribed(a, b);
    ShadowedIsMisdirected(ShadowingApi(a, b), a, b);
  }

  lemma {:induction false} ShadowedIsMisdirected(d: RpcDescription, a: string, b: string)
    requires d == ShadowingApi(a, b) && VariantName(a) != VariantName(b)
    ensures Compiles(d) && !UnshadowedAt(d, 1) && FieldsFit(d.methods[1].params, map[])
    ensures Decide(RenderService(d), Ok(Sent(d, 1, map[]))) == Invoke(a, [], NumberId(0))
  {
    TwoMethodsCompile(d.methods[0], d.methods[1]);
    assert d == BothSides([d.methods[0], d.methods[1]], []);
    assert NamesOf(d, 0) == [a, b];
    assert WireName(d, b) == NamesOf(d, 0)[1];
    FirstTakesCall(d, map[]);
  }

  /** A first method without parameters takes every call of the second if it lists its name. */
  lemma {:induction false} FirstTakesCall(d: RpcDescription, fields: map<string, Data>)
    requires DistinctNames(d) && |d.methods| > 1 && d.methods[0].params == [] && FieldsFit(d.methods[1].params, fields)
    requires WireName(d, d.methods[1].name) in NamesOf(d, 0) && d.methods[0].declared.ResultTy?
    ensures Decide(RenderService(d), Ok(Sent(d, 1, fields))) == Invoke(d.methods[0].fnIdent, [], NumberId(0))
  {
    CallMeetsSpec(d, Ok(Sent(d, 1, fields)));
  }

  // ---- two parameters under one key ----

  function KindAttr(kind: string): Attr {
    Attr("method", Some([Ident("param_kind"), Equals, Ident(kind)]))
  }

  function RenameAttr(key: string): Attr {
    Attr("argument", Some([Ident("rename"), Equals, Lit(key)]))
  }

  /** `#[method(param_kind = map)]
      async fn f(&self, #[argument(rename = "k")] x: bool, #[argument(rename = "k")] y: bool) -> Result<(), _>;` */
  function SharedKeyFn(f: string, x: string, y: string, key: string): TraitFn {
    TraitFn(f, [KindAttr("map")], true,
            [Receiver, TypedArg(IdentPattern(x), [RenameAttr(key)], TBool),
             TypedArg(IdentPattern(y), [RenameAttr(key)], TBool)],
            Returns(ResultTy(TUnit)))
  }

  function SharedKeyMethod(f: string, x: string, y: string, key: string): Method {
    Method(f, f, [Param(x, Some(key), TBool), Param(y, Some(key), TBool)], MapKind, [], true, ResultTy(TUnit))
  }

  lemma {:induction false} KindIsRead(attr: Attr, kind: string, meta: MethodMeta)
    requires kind == "map" && attr == KindAttr(kind)
    requires meta.aliases == [] && !meta.blocking && meta.name == None && meta.kind == MapKind
    ensures ReadMethodMeta(attr) == Ok(meta)
  {
    assert attr.args.value == [Ident("param_kind")] + [Equals, Ident(kind)];
    OneArgumentIsRead(attr, meta, 3);
  }

  lemma {:induction false} TwoParams(inputs: seq<FnArg>, ps: seq<Param>, bad: MacroError)
    requires |inputs| == 3 && |ps| == 2 && inputs[0] == Receiver
    requires inputs[1].TypedArg? && inputs[1].pat == IdentPattern(ps[0].ident)
    requires inputs[2].TypedArg? && inputs[2].pat == IdentPattern(ps[1].ident)
    requires ParamFromArg(ps[0].ident, inputs[1].attrs, inputs[1].ty) == Ok(ps[0])
    requires ParamFromArg(ps[1].ident, inputs[2].attrs, inputs[2].ty) == Ok(ps[1])
    ensures ParamsOf(inputs, bad) == Ok(ps)
  {
    var rest, last := inputs[1..], inputs[2..];
    assert rest[0] == inputs[1] && rest[1..] == last && last[0] == inputs[2] && last[1..] == [];
    assert ParamsOf(last, bad) == Ok([ps[1]] + []);
    assert [ps[0]] + ([ps[1]] + []) == ps;
  }

  lemma {:induction false} SharedKeyIsRead(fn: TraitFn, attr: Attr, kind: string, m: Method, key: string)
    requires kind == "map" && attr == KindAttr(kind) && '_' !in fn.ident && |m.params| == 2
    requires var x, y := m.params[0].ident, m.params[1].ident;
      fn == SharedKeyFn(fn.ident, x, y, key) && m == SharedKeyMethod(fn.ident, x, y, key)
    ensures MethodFromItem(Some(attr), fn) == Ok(m)
  {
    KindIsRead(attr, kind, MethodMeta([], false, None, m.kind));
    SharedKeyParams(fn.inputs, m.params, key);
    ManglingIsIdempotent(fn.ident);
  }

  lemma {:induction false} SharedKeyParams(inputs: seq<FnArg>, ps: seq<Param>, key: string)
    requires |inputs| == 3 && |ps| == 2 && inputs[0] == Receiver
    requires inputs[1] == TypedArg(IdentPattern(ps[0].ident), [RenameAttr(key)], ps[0].ty)
    requires inputs[2] == TypedArg(IdentPattern(ps[1].ident), [RenameAttr(key)], ps[1].ty)
    requires ps[0].renameTo == ps[1].renameTo == Some(key)
    ensures ParamsOf(inputs, BadPattern) == Ok(ps)
  {
    RenameReadsBack(ps[0].ident, key, ps[0].ty);
    RenameReadsBack(ps[1].ident, key, ps[1].ty);
    TwoParams(inputs, ps, BadPattern);
  }

  lemma {:induction false} SharedKeyIsDescribed(f: string, x: string, y: string, key: string)
    requires '_' !in f
    ensures Describe(RPC, [FnItem(SharedKeyFn(f, x, y, key))]) ==
            Ok(BothSides([SharedKeyMethod(f, x, y, key)], []))
  {
    var fn, m := SharedKeyFn(f, x, y, key), SharedKeyMethod(f, x, y, key);
    var kind, all := fn.attrs[0], Collected([m], []);
    SharedKeyIsRead(fn, kind, "map", m, key);
    MethodIsCollected(fn, Some(kind), m, Collected([], []), all);
    OneItem(FnItem(fn));
    Described([FnItem(fn)], all);
  }

  /** The second parameter overwrites the first: called with `true` and `false`, the handler gets `false`
      twice. */
  lemma {:induction false} SharedKeyLosesValue(f: string, x: string, y: string, key: string)
    requires '_' !in f && x != y
    ensures var d := BothSides([SharedKeyMethod(f, x, y, key)], []);
      var fields := map[x := DBool(true), y := DBool(false)];
      && Describe(RPC, [FnItem(SharedKeyFn(f, x, y, key))]) == Ok(d) && Compiles(d)
      && UnshadowedAt(d, 0) && LawfulParams(EndpointAt(d, 0)) && !KeysSafe(EndpointAt(d, 0))
      && FieldsFit(d.methods[0].params, fields)
      && Decide(RenderService(d), Ok(Sent(d, 0, fields))) == Invoke(f, [DBool(false), DBool(false)], NumberId(0))
  {
    SharedKeyIsDescribed(f, x, y, key);
    SharedKeyIsOverwritten(BothSides([SharedKeyMethod(f, x, y, key)], []), f, x, y, key);
  }

  lemma {:induction false} SharedKeyIsOverwritten(d: RpcDescription, f: string, x: string, y: string, key: string)
    requires d == BothSides([SharedKeyMethod(f, x, y, key)], []) && x != y
    ensures Compiles(d) && UnshadowedAt(d, 0) && LawfulParams(EndpointAt(d, 0)) && !KeysSafe(EndpointAt(d, 0))
    ensures var fields := map[x := DBool(true), y := DBool(false)];
      && FieldsFit(d.methods[0].params, fields)
      && Decide(RenderService(d), Ok(Sent(d, 0, fields))) == Invoke(f, [DBool(false), DBool(false)], NumberId(0))
  {
    var m, fields := d.methods[0], map[x := DBool(true), y := DBool(false)];
    assert m.params[0].ident == x && m.params[1].ident == y;
    OneMethodCompiles(m);
    assert d == BothSides([m], []) && EndpointAt(d, 0) == MethodEndpoint(m);
    SharedKeyArgs(MethodEndpoint(m), fields);
    FirstIsInvoked(d, fields, [DBool(false), DBool(false)]);
  }

  lemma {:induction false} SharedKeyArgs(ep: Endpoint, fields: map<string, Data>)
    requires ep.kind.MapKind? && |ep.params| == 2 && ep.params[0].ident != ep.params[1].ident
    requires ep.params[0].Name() == ep.params[1].Name() && ep.params[0].ty == ep.params[1].ty == TBool
    requires fields == map[ep.params[0].ident := DBool(true), ep.params[1].ident := DBool(false)]
    ensures LawfulParams(ep) && !KeysSafe(ep) && FieldsFit(ep.params, fields)
    ensures var params := EncodedParams(ep, fields);
      Accepts(ep, params) && ArgsOf(ep, params) == [DBool(false), DBool(false)]
  {
    assert ep.params == [ep.params[0], ep.params[1]];
    assert Idents(ep.params) == {ep.params[0].ident, ep.params[1].ident};
    EncodedShape(ep, fields);
    var v := ParamsValue(EncodedParams(ep, fields));
    assert Survives(ep, 1);
    assert ValueAt(ep, v, 0) == ValueAt(ep, v, 1) == Bool(false);
    TwoAreAccepted(ep, EncodedParams(ep, fields), false, false);
  }

  lemma {:induction false} TwoAreAccepted(ep: Endpoint, params: Option<Value>, a: bool, b: bool)
    requires |ep.params| == 2 && ep.params[0].ty == ep.params[1].ty == TBool && RightShape(ep, ParamsValue(params))
    requires var v := ParamsValue(params);
      Present(ep, v, 0) && Present(ep, v, 1) && ValueAt(ep, v, 0) == Bool(a) && ValueAt(ep, v, 1) == Bool(b)
    ensures Accepts(ep, params) && ArgsOf(ep, params) == [DBool(a), DBool(b)]
  {
    var v := ParamsValue(params);
    assert Good(ep, v, 0) && Good(ep, v, 1);
  }

  /** The stub of the first method of an API is served by it, with what the server reads. */
  lemma {:induction false} FirstIsInvoked(d: RpcDescription, fields: map<string, Data>, args: seq<Data>)
    requires DistinctNames(d) && d.methods != [] && FieldsFit(d.methods[0].params, fields)
    requires d.methods[0].declared.ResultTy?
    requires var ep := EndpointAt(d, 0);
      Accepts(ep, EncodedParams(ep, fields)) && ArgsOf(ep, EncodedParams(ep, fields)) == args
    ensures Decide(RenderService(d), Ok(Sent(d, 0, fields))) == Invoke(d.methods[0].fnIdent, args, NumberId(0))
  {
    SentIsEncoded(d, 0, fields);
    OwnerOfPrimary(d, 0);
    CallMeetsSpec(d, Ok(Sent(d, 0, fields)));
  }

  // ---- `null` inside an `Option` ----

  /** `async fn f(&self, x: Option<Option<_>>) -> Result<Option<Option<_>>, _>;` and the like. */
  function NestedFn(f: string, x: string, of: Ty): TraitFn {
    TraitFn(f, [], true, [Receiver, TypedArg(IdentPattern(x), [], TOption(of))], Returns(ResultTy(TOption(of))))
  }

  function NestedApi(f: string, x: string, of: Ty): RpcDescription {
    BothSides([Method(f, f, [Param(x, None, TOption(of))], ArrayKind, [], true, ResultTy(TOption(of)))], [])
  }

  lemma {:induction false} NestedIsDescribed(f: string, x: string, of: Ty)
    requires '_' !in f
    ensures Describe(RPC, [FnItem(NestedFn(f, x, of))]) == Ok(NestedApi(f, x, of))
  {
    var fn, p := NestedFn(f, x, of), Param(x, None, TOption(of));
    assert fn.inputs[1..] == [fn.inputs[1]] && fn.inputs[1..][1..] == [];
    assert ParamFromArg(x, [], TOption(of)) == Ok(p);
    assert ParamsOf([], BadPattern) == Ok([]);
    assert [p] + [] == [p];
    PlainTrait(fn, [p]);
  }

  /** `Some` of a value that is written as `null` arrives as `None`, as an argument and as a result. */
  lemma {:induction false} NestedNullIsLost(f: string, x: string, of: Ty, id: Id)
    requires '_' !in f && of.Nullable()
    ensures var d, fields := NestedApi(f, x, of), map[x := DSome(Sample(of))];
      && Describe(RPC, [FnItem(NestedFn(f, x, of))]) == Ok(d) && Compiles(d)
      && UnshadowedAt(d, 0) && KeysSafe(EndpointAt(d, 0)) && !LawfulParams(EndpointAt(d, 0))
      && FieldsFit(d.methods[0].params, fields)
      && Decide(RenderService(d), Ok(Sent(d, 0, fields))) == Invoke(f, [DNone], NumberId(0))
      && HasType(DSome(Sample(of)), d.methods[0].Output())
      && ReadAs(d.methods[0].Output(), HandlerResponse(Ok(DSome(Sample(of))), id)) == Ok(DNone)
  {
    NestedIsDescribed(f, x, of);
    var d, fields := NestedApi(f, x, of), map[x := DSome(Sample(of))];
    NestedIsServed(d, f, x, of, fields);
    NestedResult(of, id);
  }

  lemma {:induction false} NestedIsServed(
      d: RpcDescription, f: string, x: string, of: Ty, fields: map<string, Data>)
    requires d == NestedApi(f, x, of) && fields == map[x := DSome(Sample(of))] && of.Nullable()
    ensures Compiles(d) && UnshadowedAt(d, 0) && KeysSafe(EndpointAt(d, 0)) && !LawfulParams(EndpointAt(d, 0))
    ensures FieldsFit(d.methods[0].params, fields)
    ensures Decide(RenderService(d), Ok(Sent(d, 0, fields))) == Invoke(f, [DNone], NumberId(0))
  {
    var m := d.methods[0];
    assert m.params[0].ident == x && m.params[0].ty == TOption(of);
    OneMethodCompiles(m);
    assert d == BothSides([m], []) && EndpointAt(d, 0) == MethodEndpoint(m);
    NestedArgs(MethodEndpoint(m), of, fields);
    FirstIsInvoked(d, fields, [DNone]);
  }

  lemma {:induction false} NestedResult(of: Ty, id: Id)
    requires of.Nullable()
    ensures HasType(DSome(Sample(of)), TOption(of))
    ensures ReadAs(TOption(of), HandlerResponse(Ok(DSome(Sample(of))), id)) == Ok(DNone)
  {
    assert ToValue(Sample(of)) == Null;
  }

  lemma {:induction false} NestedArgs(ep: Endpoint, of: Ty, fields: map<string, Data>)
    requires ep.kind.ArrayKind? && |ep.params| == 1 && ep.params[0].ty == TOption(of) && of.Nullable()
    requires fields == map[ep.params[0].ident := DSome(Sample(of))]
    ensures FieldsFit(ep.params, fields)
    ensures var params := EncodedParams(ep, fields); Accepts(ep, params) && ArgsOf(ep, params) == [DNone]
  {
    assert ep.params == [ep.params[0]];
    assert Idents(ep.params) == {ep.params[0].ident};
    EncodedShape(ep, fields);
    assert ValueAt(ep, ParamsValue(EncodedParams(ep, fields)), 0) == Null;
  }

  // ---- two methods with one return type ----

  /** `async fn a(&self) -> Result<T, _>; async fn b(&self) -> Result<T, _>;` */
  function TwinsTrait(a: string, b: string, t: Ty): seq<TraitItem> {
    [FnItem(TraitFn(a, [], true, [Receiver], Returns(ResultTy(t)))),
     FnItem(TraitFn(b, [], true, [Receiver], Returns(ResultTy(t))))]
  }

  function TwinsApi(a: string, b: string, t: Ty): RpcDescription {
    BothSides([Method(a, a, [], ArrayKind, [], true, ResultTy(t)),
               Method(b, b, [], ArrayKind, [], true, ResultTy(t))], [])
  }

  lemma {:induction false} TwinsAreDescribed(a: string, b: string, t: Ty)
    requires '_' !in a && '_' !in b
    ensures Describe(RPC, TwinsTrait(a, b, t)) == Ok(TwinsApi(a, b, t))
  {
    var items, d := TwinsTrait(a, b, t), TwinsApi(a, b, t);
    var f, g := items[0].fn, items[1].fn;
    var first, both := Collected([d.methods[0]], []), Collected(d.methods, []);
    PlainMethodIsRead(f, []);
    MethodIsCollected(f, None, d.methods[0], Collected([], []), first);
    OneItem(items[0]);
    PlainMethodIsRead(g, []);
    MethodIsCollected(g, None, d.methods[1], first, both);
    TwoItems(items[0], items[1]);
    assert items == [items[0], items[1]];
    Described(items, both);
  }

  /** Whatever `b` returns, `rpc_call` reads it as the variant of `a`; the stub of `b` reads it well. */
  lemma {:induction false} TwinsAreConfused(a: string, b: string, t: Ty, x: Data, id: Id)
    requires '_' !in a && '_' !in b && VariantName(a) != VariantName(b) && HasType(x, t)
    ensures var d, response := TwinsApi(a, b, t), Response(Success(ToValue(x)), id);
      && Describe(RPC, TwinsTrait(a, b, t)) == Ok(d) && Compiles(d)
      && ReadAs(d.methods[1].Output(), response).Ok?
      && ReadAsEnum(RenderResponseEnum(d), response) ==
           Ok(TypedResponse(VariantName(a), ReadAs(d.methods[1].Output(), response).value))
  {
    TwinsAreDescribed(a, b, t);
    TwinIsFirst(TwinsApi(a, b, t), a, b, t, x, id);
  }

  lemma {:induction false} TwinIsFirst(d: RpcDescription, a: string, b: string, t: Ty, x: Data, id: Id)
    requires d == TwinsApi(a, b, t) && VariantName(a) != VariantName(b) && HasType(x, t)
    ensures Compiles(d) && d.methods[1].Output() == t
    ensures var response := Response(Success(ToValue(x)), id);
      && ReadAs(t, response).Ok?
      && ReadAsEnum(RenderResponseEnum(d), response) == Ok(TypedResponse(VariantName(a), ReadAs(t, response).value))
  {
    TwoMethodsCompile(d.methods[0], d.methods[1]);
    assert d == BothSides([d.methods[0], d.methods[1]], []);
    WrittenIsAccepted(t, x);
    LeastAccepting(d, 0, ToValue(x));
  }

  // ---- a function that returns no `Result` ----

  /** `fn f(&self) -> bool;`, `async fn f(&self) -> bool;`, `fn f(&self) -> impl Future<Output = _>;` and
      the like. */
  function ReturningFn(f: string, isAsync: bool, declared: RetTy): TraitFn {
    TraitFn(f, [], isAsync, [Receiver], Returns(declared))
  }

  /** The dispatch arm has no type, so a server does not compile; a client alone does, unless the function
      declares a future. */
  lemma {:induction false} NoResultIsRejected(f: string, isAsync: bool, declared: RetTy)
    requires '_' !in f && !declared.ResultTy?
    ensures var fn := ReturningFn(f, isAsync, declared);
      var d := BothSides([PlainMethod(fn, [])], []);
      && Describe(RPC, [FnItem(fn)]) == Ok(d)
      && !Compiles(d) && !Compiles(d.(needsClient := false))
      && (Compiles(d.(needsServer := false)) <==> !declared.FutureOf?)
      && Decide(RenderService(d), Ok(Sent(d, 0, map[]))) == Stuck
  {
    var fn := ReturningFn(f, isAsync, declared);
    PlainTrait(fn, []);
    NoResultIsStuck(BothSides([PlainMethod(fn, [])], []), f, isAsync, declared);
  }

  lemma {:induction false} NoResultIsStuck(d: RpcDescription, f: string, isAsync: bool, declared: RetTy)
    requires d == BothSides([PlainMethod(ReturningFn(f, isAsync, declared), [])], []) && !declared.ResultTy?
    ensures !Compiles(d) && !Compiles(d.(needsClient := false))
    ensures Compiles(d.(needsServer := false)) <==> !declared.FutureOf?
    ensures Decide(RenderService(d), Ok(Sent(d, 0, map[]))) == Stuck
  {
    var m := d.methods[0];
    assert d == BothSides([m], []) && m.declared == declared && m.params == [];
    OneMethodWithoutResult(m);
    FirstIsStuck(d);
  }

  lemma {:induction false} OneMethodWithoutResult(m: Method)
    requires !m.declared.ResultTy? && m.params == []
    ensures var d := BothSides([m], []);
      && DistinctNames(d) && !Compiles(d) && !Compiles(d.(needsClient := false))
      && (Compiles(d.(needsServer := false)) <==> !m.declared.FutureOf?)
  {
    var d := BothSides([m], []);
    assert EndpointCount(d) == 1 && d.methods[0] == m;
  }

  lemma {:induction false} FirstIsStuck(d: RpcDescription)
    requires DistinctNames(d) && d.methods != [] && d.methods[0].params == [] && !d.methods[0].declared.ResultTy?
    ensures FieldsFit(d.methods[0].params, map[]) && Decide(RenderService(d), Ok(Sent(d, 0, map[]))) == Stuck
  {
    OwnerOfPrimary(d, 0);
    CallMeetsSpec(d, Ok(Sent(d, 0, map[])));
  }

  /** A future that the function declares itself is not awaited. */
  lemma {:induction false} DeclaredFutureIsNotAwaited(f: string, output: RetTy)
    requires '_' !in f
    ensures var fn := ReturningFn(f, false, FutureOf(output));
      var d := BothSides([PlainMethod(fn, [])], []);
      && Describe(RPC, [FnItem(fn)]) == Ok(d) && !Compiles(d)
      && !RenderDispatchArm(d, 0).awaits && RewrittenItem(FnItem(fn)).fn.output.IsFuture()
  {
    NoResultIsRejected(f, false, FutureOf(output));
  }

  // ---- a subscription ----

  function SubscriptionAttr(item: string, name: string): Attr {
    Attr("subscription", Some([Ident("item"), Equals, Ident(item), Comma, Ident("name"), Equals, Lit(name)]))
  }

  /** `#[subscription(item = T, name = "subscribe..")] async fn f(&self);` */
  function SubscriptionFn(f: string, item: string, name: string): TraitFn {
    TraitFn(f, [SubscriptionAttr(item, name)], true, [Receiver], NoOutput)
  }

  function SubscriptionApi(f: string, name: string): RpcDescription {
    BothSides([], [Subscription(f, name, "un" + name, name, [], ArrayKind, [])])
  }

  lemma {:induction false} SubscriptionIsRead(f: TraitFn, item: string, name: string)
    requires "subscribe" <= name && ParamsOf(f.inputs, Panic) == Ok([])
    ensures SubscriptionFromItem(SubscriptionAttr(item, name), f) ==
            Ok(Subscription(f.ident, name, "un" + name, name, [], ArrayKind, []))
  {
    var meta, tokens := SubscriptionMeta([], name, None, ArrayKind, None), [Ident(item)];
    var slots := SubscriptionSlots(meta, tokens);
    FlatTokens([Equals] + tokens);
    SubscriptionReadsBack(meta, tokens, f, []);
    SubscriptionTokens(SubscriptionAttr(item, name).args.value, slots, item, name);
  }

  lemma {:induction false} SubscriptionTokens(tokens: seq<Token>, slots: seq<Slot>, item: string, name: string)
    requires tokens == [Ident("item"), Equals, Ident(item), Comma, Ident("name"), Equals, Lit(name)]
    requires slots == SubscriptionSlots(SubscriptionMeta([], name, None, ArrayKind, None), [Ident(item)])
    ensures Print(FilledArguments(slots, |slots|)) == tokens
  {
    TwoFilled(slots, 1);
    PrintTwo(slots[1].arg, slots[2].arg);
  }

  lemma {:induction false} SubscriptionIsCollected(f: TraitFn, s: Subscription)
    requires |f.attrs| == 1 && f.attrs[0].path == "subscription" && Receiver in f.inputs
    requires SubscriptionFromItem(f.attrs[0], f) == Ok(s)
    ensures CollectItem(FnItem(f), Collected([], [])) == Ok(Collected([], [s]))
  {
    assert f.attrs == [f.attrs[0]];
    OnlyAttr(f.attrs[0]);
    assert FindAttr(f.attrs, "method") == None;
    assert [] + [s] == [s];
  }

  lemma {:induction false} SubscriptionIsDescribed(f: string, item: string, name: string)
    requires "subscribe" <= name
    ensures Describe(RPC, [FnItem(SubscriptionFn(f, item, name))]) == Ok(SubscriptionApi(f, name))
  {
    var fn, s := SubscriptionFn(f, item, name), SubscriptionApi(f, name).subscriptions[0];
    SubscriptionIsRead(fn, item, name);
    SubscriptionIsCollected(fn, s);
    OneItem(FnItem(fn));
    Described([FnItem(fn)], Collected([], [s]));
  }

  /** The encoder of `rpc_call` has no arm for the request of a subscription. With both flags the `match`
      is not exhaustive and the compiler rejects it; with one flag there is no such request, or no such
      `match`. */
  lemma {:induction false} SubscriptionIsNotEncoded(f: string, item: string, name: string)
    requires "subscribe" <= name
    ensures var d, r := SubscriptionApi(f, name), TypedRequest(VariantName(name), map[]);
      && Describe(RPC, [FnItem(SubscriptionFn(f, item, name))]) == Ok(d)
      && InEnum(d, r) && Encode(RenderServerRequestImpl(d), r) == None
      && !Compiles(d) && Compiles(d.(needsClient := false)) && Compiles(d.(needsServer := false))
  {
    SubscriptionIsDescribed(f, item, name);
    SubscriptionHasNoArm(SubscriptionApi(f, name), f, name);
  }

  lemma {:induction false} SubscriptionHasNoArm(d: RpcDescription, f: string, name: string)
    requires d == SubscriptionApi(f, name)
    ensures var r := TypedRequest(VariantName(name), map[]);
      InEnum(d, r) && Encode(RenderServerRequestImpl(d), r) == None
    ensures !Compiles(d) && Compiles(d.(needsClient := false)) && Compiles(d.(needsServer := false))
  {
    assert WellTypedAt(d, 0, TypedRequest(VariantName(name), map[]));
  }

  // ---- an instance ----

  /** The shadowing trait, with names whose variants differ. */
  lemma {:induction false} ShadowingInstance()
    ensures Describe(RPC, ShadowingTrait("a", "b")) == Ok(ShadowingApi("a", "b"))
    ensures Compiles(ShadowingApi("a", "b")) && !UnshadowedAt(ShadowingApi("a", "b"), 1)
  {
    VariantsOfAB("a", "b");
    AliasShadowsName("a", "b");
  }

  lemma {:induction false} VariantsOfAB(a: string, b: string)
    requires a == "a" && b == "b"
    ensures VariantName(a) != VariantName(b)
  {
    WithoutSeparators(a, true);
    WithoutSeparators(b, true);
    assert VariantName(a)[0] == 'A' && VariantName(b)[0] == 'B';
  }
}
