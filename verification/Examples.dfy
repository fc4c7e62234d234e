/** The trait of the crate's own integration test, from its tokens to the answers of its service. */
module Examples {
  import opened Wrappers
  import opened Json
  import opened Names
  import opened Protocol
  import opened Api
  import opened Attributes
  import opened Target
  import opened Render
  import opened Compile
  import opened Service
  import opened FrontEnd
  import opened Meanings

  /** `#[rpc(server, namespace = "say")]` */
  function RpcTokens(namespace: string): seq<Token> {
    [Ident("server"), Comma, Ident("namespace"), Equals, Lit(namespace)]
  }

  /** `#[method(name = "hello", aliases = ["say_hello_alias"])]` */
  function HelloTokens(name: string, alias: string): seq<Token> {
    [Ident("name"), Equals, Lit(name), Comma, Ident("aliases"), Equals, Brackets([Lit(alias)])]
  }

  /** `#[method(name = "goodbye")]` */
  function GoodbyeTokens(name: string): seq<Token> {
    [Ident("name"), Equals, Lit(name)]
  }

  /** `async fn say_hello(&self, param_0: bool) -> Result<String, _>;` */
  function HelloFn(ident: string, param: string, name: string, alias: string): TraitFn {
    TraitFn(ident, [Attr("method", Some(HelloTokens(name, alias)))], true,
            [Receiver, TypedArg(IdentPattern(param), [], TBool)], Returns(ResultTy(TString)))
  }

  /** `fn say_goodbye(&self, name: String) -> Result<String, _>;` */
  function GoodbyeFn(ident: string, param: string, name: string): TraitFn {
    TraitFn(ident, [Attr("method", Some(GoodbyeTokens(name)))], false,
            [Receiver, TypedArg(IdentPattern(param), [], TString)], Returns(ResultTy(TString)))
  }

  function HelloMethod(ident: string, param: string, name: string, alias: string): Method {
    Method(ident, name, [Param(param, None, TBool)], ArrayKind, [alias], true, ResultTy(TString))
  }

  function GoodbyeMethod(ident: string, param: string, name: string): Method {
    Method(ident, name, [Param(param, None, TString)], ArrayKind, [], false, ResultTy(TString))
  }

  // ---- reading the trait ----

  lemma {:induction false} TwoArguments(tokens: seq<Token>, a: Argument, b: Argument, allowed: seq<string>)
    requires Flat(a.tokens) && Flat(b.tokens) && a.name != b.name && a.name in allowed && b.name in allowed
    requires tokens == [Ident(a.name)] + a.tokens + ([Comma] + ([Ident(b.name)] + b.tokens))
    ensures Lists(tokens, allowed, [a, b])
  {
    var args := [a, b];
    FlatTokens(a.tokens);
    FlatTokens(b.tokens);
    assert [a, b][1..] == [b];
    assert ([Ident(b.name)] + b.tokens) + [] == [Ident(b.name)] + b.tokens;
    assert Print(args) == tokens;
    ParseUndoesPrint(args);
  }

  lemma {:induction false} OneArgument(tokens: seq<Token>, a: Argument, allowed: seq<string>)
    requires Flat(a.tokens) && a.name in allowed && tokens == [Ident(a.name)] + a.tokens
    ensures Lists(tokens, allowed, [a])
  {
    FlatTokens(a.tokens);
    assert ([Ident(a.name)] + a.tokens) + [] == tokens;
    ParseUndoesPrint([a]);
  }

  lemma {:induction false} RpcIsRead(attr: Attr, namespace: string)
    requires attr.args == Some(RpcTokens(namespace))
    ensures ReadRpcMeta(attr) == Ok(RpcMeta(true, false, Some(namespace), None))
  {
    var a, b := Argument("server", []), Argument("namespace", [Equals, Lit(namespace)]);
    var allowed := ["client", "server", "namespace", "namespace_separator", "client_bounds", "server_bounds"];
    assert a.name == allowed[1] && b.name == allowed[2];
    TwoArguments(RpcTokens(namespace), a, b, allowed);
    RpcIsSaid([a, b], namespace);
    RpcMeaning(attr, RpcMeta(true, false, Some(namespace), None));
  }

  lemma {:induction false} RpcIsSaid(args: seq<Argument>, namespace: string)
    requires |args| == 2 && args[0] == Argument("server", [])
    requires args[1] == Argument("namespace", [Equals, Lit(namespace)])
    ensures SaysRpc(args, RpcMeta(true, false, Some(namespace), None))
  {}

  lemma {:induction false} HelloIsRead(attr: Attr, name: string, alias: string)
    requires attr.args == Some(HelloTokens(name, alias))
    ensures ReadMethodMeta(attr) == Ok(MethodMeta([alias], false, Some(name), ArrayKind))
  {
    var a, b := Argument("name", [Equals, Lit(name)]), Argument("aliases", [Equals, Brackets([Lit(alias)])]);
    var allowed := ["aliases", "blocking", "name", "param_kind", "with_extensions"];
    assert a.name == allowed[2] && b.name == allowed[0];
    TwoArguments(HelloTokens(name, alias), a, b, allowed);
    HelloIsSaid([a, b], name, alias);
    MethodMeaning(attr, MethodMeta([alias], false, Some(name), ArrayKind));
  }

  lemma {:induction false} HelloIsSaid(args: seq<Argument>, name: string, alias: string)
    requires |args| == 2 && args[0] == Argument("name", [Equals, Lit(name)])
    requires args[1] == Argument("aliases", [Equals, Brackets([Lit(alias)])])
    ensures SaysMethod(args, MethodMeta([alias], false, Some(name), ArrayKind))
  {
    assert Spells([Lit(alias)], [alias]) by { assert PrintLiterals([alias]) == [Lit(alias)]; }
    assert Says(args, "aliases", [Equals, Brackets([Lit(alias)])]);
  }

  lemma {:induction false} GoodbyeIsRead(attr: Attr, name: string)
    requires attr.args == Some(GoodbyeTokens(name))
    ensures ReadMethodMeta(attr) == Ok(MethodMeta([], false, Some(name), ArrayKind))
  {
    var a := Argument("name", [Equals, Lit(name)]);
    var allowed := ["aliases", "blocking", "name", "param_kind", "with_extensions"];
    assert a.name == allowed[2];
    OneArgument(GoodbyeTokens(name), a, allowed);
    var args := [a];
    assert args[0] == a;
    MethodMeaning(attr, MethodMeta([], false, Some(name), ArrayKind));
  }

  lemma {:induction false} HelloIsMethod(f: TraitFn, param: string, name: string, alias: string)
    requires f == HelloFn(f.ident, param, name, alias)
    ensures MethodFromItem(Some(f.attrs[0]), f) == Ok(HelloMethod(f.ident, param, name, alias))
  {
    HelloIsRead(f.attrs[0], name, alias);
    OneParam(f.inputs, Param(param, None, TBool), BadPattern);
  }

  lemma {:induction false} GoodbyeIsMethod(f: TraitFn, param: string, name: string)
    requires f == GoodbyeFn(f.ident, param, name)
    ensures MethodFromItem(Some(f.attrs[0]), f) == Ok(GoodbyeMethod(f.ident, param, name))
  {
    GoodbyeIsRead(f.attrs[0], name);
    OneParam(f.inputs, Param(param, None, TString), BadPattern);
  }

  /** Two marked functions are collected as the two methods they are read as. */
  lemma {:induction false} TwoMarked(f: TraitFn, g: TraitFn, m: Method, n: Method)
    requires |f.attrs| == 1 && f.attrs[0].path == "method" && Receiver in f.inputs
    requires |g.attrs| == 1 && g.attrs[0].path == "method" && Receiver in g.inputs
    requires MethodFromItem(Some(f.attrs[0]), f) == Ok(m) && MethodFromItem(Some(g.attrs[0]), g) == Ok(n)
    ensures CollectAll([FnItem(f), FnItem(g)]) == Ok(Collected([m, n], []))
  {
    assert f.attrs == [f.attrs[0]] && g.attrs == [g.attrs[0]];
    assert [] + [m] == [m] && [m] + [n] == [m, n];
    MethodIsCollected(f, Some(f.attrs[0]), m, Collected([], []), Collected([m], []));
    OneItem(FnItem(f));
    MethodIsCollected(g, Some(g.attrs[0]), n, Collected([m], []), Collected([m, n], []));
    TwoItems(FnItem(f), FnItem(g));
  }

  lemma {:induction false} SayIsDescribed(rpc: Attr, namespace: string, f: TraitFn, g: TraitFn, m: Method, n: Method)
    requires rpc.args == Some(RpcTokens(namespace)) && CollectAll([FnItem(f), FnItem(g)]) == Ok(Collected([m, n], []))
    ensures Describe(rpc, [FnItem(f), FnItem(g)]) ==
            Ok(RpcDescription(true, false, Some(namespace), None, [m, n], []))
  {
    RpcIsRead(rpc, namespace);
  }

  // ---- its service ----

  /** A request with one value by position, for a method whose name no earlier endpoint listens to. */
  lemma {:induction false} OneParameterIsServed(d: RpcDescription, j: nat, x: Data, q: Request)
    requires DistinctNames(d) && j < |d.methods| && d.methods[j].declared.ResultTy?
    requires var m := d.methods[j];
      |m.params| == 1 && m.kind.ArrayKind? && m.params[0].ty.Lawful() && HasType(x, m.params[0].ty)
    requires ListensTo(d, j, q.method_) && forall i :: 0 <= i < j ==> !ListensTo(d, i, q.method_)
    requires q.params == Some(Arr([ToValue(x)]))
    ensures Decide(RenderService(d), Ok(q)) == Invoke(d.methods[j].fnIdent, [x], q.id)
  {
    LawfulRoundTrip(d.methods[j].params[0].ty, x);
    MethodIsServed(d, j, q, [x]);
  }

  /** `say_hello`, `say_hello_alias` and `say_goodbye` reach their functions with the typed argument, and
      every other name is handed to the inner service. */
  lemma {:induction false} SayIsServed(d: RpcDescription, m: Method, n: Method, greet: bool, who: string, q: Request)
    requires m == HelloMethod("say_hello", "param_0", "hello", "say_hello_alias")
    requires n == GoodbyeMethod("say_goodbye", "name", "goodbye")
    requires d == RpcDescription(true, false, Some("say"), None, [m, n], [])
    ensures Compiles(d)
    ensures q.method_ in {"say_hello", "say_hello_alias"} && q.params == Some(Arr([Bool(greet)])) ==>
      Decide(RenderService(d), Ok(q)) == Invoke("say_hello", [DBool(greet)], q.id)
    ensures q.method_ == "say_goodbye" && q.params == Some(Arr([Str(who)])) ==>
      Decide(RenderService(d), Ok(q)) == Invoke("say_goodbye", [DString(who)], q.id)
    ensures q.method_ !in {"say_hello", "say_hello_alias", "say_goodbye"} ==>
      Decide(RenderService(d), Ok(q)) == Forward(q)
  {
    SayCompiles(d, m, n);
    SayListens(d, m, n, q.method_);
    SayIsCalled(d, m, n, greet, who, q);
  }

  /** The same for any two functions of these types that listen to different names. */
  lemma {:induction false} SayIsCalled(d: RpcDescription, m: Method, n: Method, greet: bool, who: string, q: Request)
    requires DistinctNames(d) && d.methods == [m, n] && d.subscriptions == []
    requires !(ListensTo(d, 0, q.method_) && ListensTo(d, 1, q.method_))
    requires m.declared.ResultTy? && |m.params| == 1 && m.kind.ArrayKind? && m.params[0].ty == TBool
    requires n.declared.ResultTy? && |n.params| == 1 && n.kind.ArrayKind? && n.params[0].ty == TString
    ensures ListensTo(d, 0, q.method_) && q.params == Some(Arr([Bool(greet)])) ==>
      Decide(RenderService(d), Ok(q)) == Invoke(m.fnIdent, [DBool(greet)], q.id)
    ensures ListensTo(d, 1, q.method_) && q.params == Some(Arr([Str(who)])) ==>
      Decide(RenderService(d), Ok(q)) == Invoke(n.fnIdent, [DString(who)], q.id)
    ensures !ListensTo(d, 0, q.method_) && !ListensTo(d, 1, q.method_) ==>
      Decide(RenderService(d), Ok(q)) == Forward(q)
  {
    GateListens(d, q);
    if ListensTo(d, 0, q.method_) && q.params == Some(Arr([Bool(greet)])) {
      OneParameterIsServed(d, 0, DBool(greet), q);
    }
    if ListensTo(d, 1, q.method_) && q.params == Some(Arr([Str(who)])) {
      OneParameterIsServed(d, 1, DString(who), q);
    }
  }

  lemma {:induction false} SayCompiles(d: RpcDescription, m: Method, n: Method)
    requires m == HelloMethod("say_hello", "param_0", "hello", "say_hello_alias")
    requires n == GoodbyeMethod("say_goodbye", "name", "goodbye")
    requires d == RpcDescription(true, false, Some("say"), None, [m, n], [])
    ensures Compiles(d) && DistinctNames(d)
  {
    VariantsDiffer(m.name, n.name);
    assert |m.fnIdent| == 9 && |n.fnIdent| == 11;
    TwoMethodsCompile(d, m, n);
  }

  lemma {:induction false} VariantsDiffer(hello: string, goodbye: string)
    requires hello == "hello" && goodbye == "goodbye"
    ensures VariantName(hello) != VariantName(goodbye)
  {
    VariantLetters(hello, 0);
    VariantLetters(goodbye, 0);
  }

  lemma {:induction false} TwoMethodsCompile(d: RpcDescription, m: Method, n: Method)
    requires d.methods == [m, n] && d.subscriptions == [] && d.needsServer && !d.needsClient
    requires m.declared.ResultTy? && n.declared.ResultTy? && |m.params| == 1 && |n.params| == 1
    requires m.fnIdent != n.fnIdent && VariantName(m.name) != VariantName(n.name)
    ensures Compiles(d) && DistinctNames(d)
  {
    assert EndpointCount(d) == 2;
  }

  lemma {:induction false} SayListens(d: RpcDescription, m: Method, n: Method, name: string)
    requires m == HelloMethod("say_hello", "param_0", "hello", "say_hello_alias")
    requires n == GoodbyeMethod("say_goodbye", "name", "goodbye")
    requires d == RpcDescription(true, false, Some("say"), None, [m, n], [])
    ensures ListensTo(d, 0, name) <==> name in {"say_hello", "say_hello_alias"}
    ensures ListensTo(d, 1, name) <==> name == "say_goodbye"
    ensures EndpointCount(d) == 2
    ensures name == "say_goodbye" ==> name !in {"say_hello", "say_hello_alias"}
  {
    assert "say" + "_" + "hello" == "say_hello" && "say" + "_" + "goodbye" == "say_goodbye";
    assert |"say_hello"| == 9 && |"say_hello_alias"| == 15 && |"say_goodbye"| == 11;
  }

  /** The trait as it stands in the test. */
  lemma {:induction false} SayFromTokens(f: TraitFn, g: TraitFn, m: Method, n: Method)
    requires f == HelloFn("say_hello", "param_0", "hello", "say_hello_alias")
    requires g == GoodbyeFn("say_goodbye", "name", "goodbye")
    requires m == HelloMethod("say_hello", "param_0", "hello", "say_hello_alias")
    requires n == GoodbyeMethod("say_goodbye", "name", "goodbye")
    ensures Describe(Attr("rpc", Some(RpcTokens("say"))), [FnItem(f), FnItem(g)]) ==
            Ok(RpcDescription(true, false, Some("say"), None, [m, n], []))
  {
    HelloIsMethod(f, "param_0", "hello", "say_hello_alias");
    GoodbyeIsMethod(g, "name", "goodbye");
    TwoMarked(f, g, m, n);
    SayIsDescribed(Attr("rpc", Some(RpcTokens("say"))), "say", f, g, m, n);
  }
}
