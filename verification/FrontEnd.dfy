/** From the annotated trait to the description, and the rewriting of the trait itself. */
module FrontEnd {
  import opened Wrappers
  import opened Json
  import opened Names
  import opened Api
  import opened Attributes
  import opened Search
  import opened Target
  import opened Render

  // ---- the trait as written ----

  /** An attribute; `args` is absent when there are no parentheses. */
  datatype Attr = Attr(path: string, args: Option<seq<Token>>)

  datatype Pattern = IdentPattern(ident: string) | Wildcard | OtherPattern

  datatype FnArg = Receiver | TypedArg(pat: Pattern, attrs: seq<Attr>, ty: Ty)

  datatype Output = NoOutput | Returns(ty: RetTy) {
    function Declared(): RetTy {
      match this
      case NoOutput => UnitTy
      case Returns(t) => t
    }

    predicate IsFuture() {
      Returns? && ty.FutureOf?
    }
  }

  datatype TraitFn = TraitFn(ident: string, attrs: seq<Attr>, isAsync: bool, inputs: seq<FnArg>, output: Output)

  datatype TraitItem = FnItem(fn: TraitFn) | OtherItem

  datatype MacroError =
    | NoArguments
    | AttributeSyntax(pos: nat)
    | AttributeArguments(e: RetainError)
    | BadArgument(arg: string)
    | MissingArgument(arg: string)
    | BlockingMustBeSynchronous
    | BadPattern
    | NoReceiver
    | MethodAndSubscription
    | NotAFunction
    | NeitherServerNorClient
    | BoundsWithoutImpl
    | EmptyApi
    | Panic

  // ---- reading attributes ----

  function ReadSlots(attr: Attr, allowed: seq<string>): (r: Result<seq<Slot>, MacroError>)
    ensures r.Ok? ==> |r.value| == |allowed|
  {
    match attr.args
    case None => Err(NoArguments)
    case Some(tokens) =>
      match ParseList(tokens)
      case BadStart(p) => Err(AttributeSyntax(p))
      case Parsed(args) =>
        match Retained(args, allowed)
        case Err(e) => Err(AttributeArguments(e))
        case Ok(slots) => Ok(slots)
  }

  function OptionalString(slot: Slot): Result<Option<string>, MacroError> {
    match slot
    case Missing(_) => Ok(None)
    case Filled(Argument(name, tokens)) =>
      if |tokens| == 2 && tokens[0] == Equals && tokens[1].Lit? then Ok(Some(tokens[1].text))
      else Err(BadArgument(name))
  }

  function OptionalFlag(slot: Slot): Result<bool, MacroError> {
    match slot
    case Missing(_) => Ok(false)
    case Filled(Argument(name, tokens)) => if tokens == [] then Ok(true) else Err(BadArgument(name))
  }

  function OptionalGroup(slot: Slot): Result<bool, MacroError> {
    match slot
    case Missing(_) => Ok(false)
    case Filled(Argument(name, tokens)) =>
      if |tokens| == 1 && tokens[0].Parens? then Ok(true) else Err(BadArgument(name))
  }

  function ReadParamKind(slot: Slot): Result<ParamKind, MacroError> {
    match slot
    case Missing(_) => Ok(ArrayKind)
    case Filled(Argument(name, tokens)) =>
      if tokens == [Equals, Ident("array")] then Ok(ArrayKind)
      else if tokens == [Equals, Ident("map")] then Ok(MapKind)
      else Err(BadArgument(name))
  }

  /** String literals separated, and possibly ended, by commas. */
  function Literals(ts: seq<Token>): Option<seq<string>> {
    if ts == [] then Some([])
    else if !ts[0].Lit? then None
    else if |ts| == 1 then Some([ts[0].text])
    else if ts[1] != Comma then None
    else
      match Literals(ts[2..])
      case None => None
      case Some(more) => Some([ts[0].text] + more)
  }

  function ReadAliases(slot: Slot): Result<seq<string>, MacroError> {
    match slot
    case Missing(_) => Ok([])
    case Filled(Argument(name, tokens)) =>
      if |tokens| == 2 && tokens[0] == Equals && tokens[1].Brackets? then
        match Literals(tokens[1].content)
        case None => Err(BadArgument(name))
        case Some(aliases) => Ok(aliases)
      else Err(BadArgument(name))
  }

  /** `"name"` or `"name" => "notification"`. */
  function ReadNameMapping(slot: Slot): Result<(string, string), MacroError> {
    match slot
    case Missing(name) => Err(MissingArgument(name))
    case Filled(Argument(name, tokens)) =>
      if |tokens| == 2 && tokens[0] == Equals && tokens[1].Lit? then Ok((tokens[1].text, tokens[1].text))
      else if |tokens| == 5 && tokens[0] == Equals && tokens[1].Lit? && tokens[2] == Equals && tokens[3] == Gt &&
              tokens[4].Lit? then Ok((tokens[1].text, tokens[4].text))
      else Err(BadArgument(name))
  }

  /** The item type of a subscription; the syntax of the type itself is not looked into. */
  function ReadItem(slot: Slot): Result<(), MacroError> {
    match slot
    case Missing(name) => Err(MissingArgument(name))
    case Filled(Argument(name, tokens)) =>
      if |tokens| >= 2 && tokens[0] == Equals then Ok(()) else Err(BadArgument(name))
  }

  function FindAttr(attrs: seq<Attr>, path: string): Option<Attr> {
    var k := First(attrs, (a: Attr) => a.path == path);
    if k < |attrs| then Some(attrs[k]) else None
  }

  // ---- methods and subscriptions ----

  function ParamFromArg(ident: string, attrs: seq<Attr>, ty: Ty): Result<Param, MacroError> {
    match FindAttr(attrs, "argument")
    case None => Ok(Param(ident, None, ty))
    case Some(attr) =>
      var slots :- ReadSlots(attr, ["rename"]);
      var rename :- OptionalString(slots[0]);
      Ok(Param(ident, rename, ty))
  }

  /** The parameters of a signature; `bad` is what a pattern that is no identifier leads to. */
  function ParamsOf(inputs: seq<FnArg>, bad: MacroError): Result<seq<Param>, MacroError> {
    if inputs == [] then Ok([])
    else
      match inputs[0]
      case Receiver => ParamsOf(inputs[1..], bad)
      case TypedArg(pat, attrs, ty) =>
        if !pat.IdentPattern? then Err(bad)
        else
          var p :- ParamFromArg(pat.ident, attrs, ty);
          var ps :- ParamsOf(inputs[1..], bad);
          Ok([p] + ps)
  }

  datatype MethodMeta = MethodMeta(aliases: seq<string>, blocking: bool, name: Option<string>, kind: ParamKind)

  const METHOD_ARGUMENTS: seq<string> := ["aliases", "blocking", "name", "param_kind", "with_extensions"]

  function ReadMethodMeta(attr: Attr): Result<MethodMeta, MacroError> {
    var slots :- ReadSlots(attr, METHOD_ARGUMENTS);
    MethodMetaOf(slots)
  }

  function MethodMetaOf(slots: seq<Slot>): Result<MethodMeta, MacroError>
    requires |slots| == |METHOD_ARGUMENTS|
  {
    var aliases :- ReadAliases(slots[0]);
    var blocking :- OptionalFlag(slots[1]);
    var name :- OptionalString(slots[2]);
    var kind :- ReadParamKind(slots[3]);
    var withExtensions :- OptionalFlag(slots[4]);
    Ok(MethodMeta(aliases, blocking, name, kind))
  }

  function MethodFromItem(attr: Option<Attr>, f: TraitFn): Result<Method, MacroError> {
    var meta :- match attr
                case Some(a) => ReadMethodMeta(a)
                case None => Ok(MethodMeta([], false, None, ArrayKind));
    if meta.blocking && f.isAsync then Err(BlockingMustBeSynchronous)
    else
      var params :- ParamsOf(f.inputs, BadPattern);
      var name := match meta.name case Some(n) => n case None => SnakeToCamel(f.ident);
      Ok(Method(f.ident, name, params, meta.kind, meta.aliases, f.isAsync, f.output.Declared()))
  }

  const SUBSCRIPTION_ARGUMENTS: seq<string> :=
    ["aliases", "item", "name", "param_kind", "unsubscribe", "unsubscribe_aliases", "with_extensions"]

  function UnsubscribeName(name: string): Option<string> {
    var prefix := "subscribe";
    if prefix <= name then Some("unsubscribe" + name[|prefix|..]) else None
  }

  function SubscriptionFromItem(attr: Attr, f: TraitFn): Result<Subscription, MacroError> {
    var slots :- ReadSlots(attr, SUBSCRIPTION_ARGUMENTS);
    SubscriptionOf(slots, f)
  }

  function SubscriptionOf(slots: seq<Slot>, f: TraitFn): Result<Subscription, MacroError>
    requires |slots| == |SUBSCRIPTION_ARGUMENTS|
  {
    var aliases :- ReadAliases(slots[0]);
    var (name, notifName) :- ReadNameMapping(slots[2]);
    var item :- ReadItem(slots[1]);
    var kind :- ReadParamKind(slots[3]);
    var unsubscribeAliases :- ReadAliases(slots[5]);
    var withExtensions :- OptionalFlag(slots[6]);
    var explicit :- OptionalString(slots[4]);
    var unsubscribe :- match (if explicit.Some? then explicit else UnsubscribeName(name))
                       case Some(u) => Ok(u)
                       case None => Err(Panic);
    var params :- ParamsOf(f.inputs, Panic);
    Ok(Subscription(f.ident, name, unsubscribe, notifName, params, kind, aliases))
  }

  // ---- collecting ----

  datatype Collected = Collected(methods: seq<Method>, subscriptions: seq<Subscription>)

  /** What one trait item adds to what has been collected. */
  function CollectItem(item: TraitItem, sofar: Collected): Result<Collected, MacroError> {
    match item
    case OtherItem => Err(NotAFunction)
    case FnItem(f) =>
      if Receiver !in f.inputs then Err(NoReceiver)
      else
        var methodAttr, subAttr := FindAttr(f.attrs, "method"), FindAttr(f.attrs, "subscription");
        if methodAttr.Some? && subAttr.Some? then Err(MethodAndSubscription)
        else if subAttr.Some? then
          var s :- SubscriptionFromItem(subAttr.value, f);
          Ok(sofar.(subscriptions := sofar.subscriptions + [s]))
        else
          var m :- MethodFromItem(methodAttr, f);
          Ok(sofar.(methods := sofar.methods + [m]))
  }

  function CollectAll(items: seq<TraitItem>): Result<Collected, MacroError> {
    if items == [] then Ok(Collected([], []))
    else
      var sofar :- CollectAll(items[..|items| - 1]);
      CollectItem(items[|items| - 1], sofar)
  }

  lemma {:induction false} CollectErrorsPersist(items: seq<TraitItem>, n: nat)
    requires n <= |items| && CollectAll(items[..n]).Err?
    ensures CollectAll(items) == CollectAll(items[..n])
    decreases |items| - n
  {
    if n < |items| {
      assert items[..n + 1][..n] == items[..n];
      CollectErrorsPersist(items, n + 1);
    } else {
      assert items[..n] == items;
    }
  }

  /** The loop that pushes each function into one of the two vectors. */
  method Collect(items: seq<TraitItem>) returns (r: Result<Collected, MacroError>)
    ensures r == CollectAll(items)
  {
    var methods: seq<Method>, subscriptions: seq<Subscription> := [], [];
    for n := 0 to |items|
      invariant CollectAll(items[..n]) == Ok(Collected(methods, subscriptions))
    {
      assert items[..n + 1][..n] == items[..n];
      if items[n].OtherItem? {
        CollectErrorsPersist(items, n + 1);
        return Err(NotAFunction);
      }
      var f := items[n].fn;
      if Receiver !in f.inputs {
        CollectErrorsPersist(items, n + 1);
        return Err(NoReceiver);
      }
      var methodAttr := FindAttr(f.attrs, "method");
      var subAttr := FindAttr(f.attrs, "subscription");
      if methodAttr.Some? && subAttr.Some? {
        CollectErrorsPersist(items, n + 1);
        return Err(MethodAndSubscription);
      }
      if subAttr.Some? {
        var s := SubscriptionFromItem(subAttr.value, f);
        if s.Err? {
          CollectErrorsPersist(items, n + 1);
          return Err(s.error);
        }
        subscriptions := subscriptions + [s.value];
      } else {
        var m := MethodFromItem(methodAttr, f);
        if m.Err? {
          CollectErrorsPersist(items, n + 1);
          return Err(m.error);
        }
        methods := methods + [m.value];
      }
    }
    assert items[..|items|] == items;
    return Ok(Collected(methods, subscriptions));
  }

  // ---- rewriting the trait in place ----

  function Without(attrs: seq<Attr>, paths: set<string>): seq<Attr> {
    if attrs == [] then []
    else (if attrs[0].path in paths then [] else [attrs[0]]) + Without(attrs[1..], paths)
  }

  function StripInput(input: FnArg): FnArg {
    match input
    case Receiver => Receiver
    case TypedArg(pat, attrs, ty) => TypedArg(pat, Without(attrs, {"argument"}), ty)
  }

  function StripInputs(inputs: seq<FnArg>): seq<FnArg> {
    seq(|inputs|, i requires 0 <= i < |inputs| => StripInput(inputs[i]))
  }

  function StripItem(item: TraitItem): TraitItem {
    match item
    case OtherItem => OtherItem
    case FnItem(f) =>
      FnItem(f.(attrs := Without(f.attrs, {"method", "subscription"}), inputs := StripInputs(f.inputs)))
  }

  function RewriteItem(item: TraitItem): TraitItem {
    match item
    case OtherItem => OtherItem
    case FnItem(f) =>
      if f.isAsync then FnItem(f.(isAsync := false, output := Returns(FutureOf(f.output.Declared())))) else item
  }

  function RewrittenItem(item: TraitItem): TraitItem {
    RewriteItem(StripItem(item))
  }

  method StripRpcAttrs(items: array<TraitItem>)
    modifies items
    ensures forall i :: 0 <= i < items.Length ==> items[i] == StripItem(old(items[i]))
  {
    for n := 0 to items.Length
      invariant forall i :: 0 <= i < n ==> items[i] == StripItem(old(items[i]))
      invariant forall i :: n <= i < items.Length ==> items[i] == old(items[i])
    {
      if items[n].FnItem? {
        var f := items[n].fn;
        f := f.(attrs := Without(f.attrs, {"method", "subscription"}));
        var inputs := f.inputs;
        for k := 0 to |inputs|
          invariant |inputs| == |f.inputs|
          invariant forall i :: 0 <= i < k ==> inputs[i] == StripInput(f.inputs[i])
          invariant forall i :: k <= i < |inputs| ==> inputs[i] == f.inputs[i]
        {
          if inputs[k].TypedArg? {
            inputs := inputs[k := inputs[k].(attrs := Without(inputs[k].attrs, {"argument"}))];
          }
        }
        assert inputs == StripInputs(f.inputs);
        items[n] := FnItem(f.(inputs := inputs));
      }
    }
  }

  method RewriteAsyncMethods(items: array<TraitItem>)
    modifies items
    ensures forall i :: 0 <= i < items.Length ==> items[i] == RewriteItem(old(items[i]))
  {
    for n := 0 to items.Length
      invariant forall i :: 0 <= i < n ==> items[i] == RewriteItem(old(items[i]))
      invariant forall i :: n <= i < items.Length ==> items[i] == old(items[i])
    {
      if items[n].FnItem? && items[n].fn.isAsync {
        var f := items[n].fn.(isAsync := false);
        var output := f.output.Declared();
        items[n] := FnItem(f.(output := Returns(FutureOf(output))));
      }
    }
  }

  // ---- the whole front end ----

  const RPC_ARGUMENTS: seq<string> :=
    ["client", "server", "namespace", "namespace_separator", "client_bounds", "server_bounds"]

  datatype RpcMeta = RpcMeta(needsServer: bool, needsClient: bool, namespace: Option<string>, separator: Option<string>)

  function ReadRpcMeta(attr: Attr): Result<RpcMeta, MacroError> {
    var slots :- ReadSlots(attr, RPC_ARGUMENTS);
    RpcMetaOf(slots)
  }

  function RpcMetaOf(slots: seq<Slot>): Result<RpcMeta, MacroError>
    requires |slots| == |RPC_ARGUMENTS|
  {
    var needsServer :- OptionalFlag(slots[1]);
    var needsClient :- OptionalFlag(slots[0]);
    var namespace :- OptionalString(slots[2]);
    var separator :- OptionalString(slots[3]);
    var clientBounds :- OptionalGroup(slots[4]);
    var serverBounds :- OptionalGroup(slots[5]);
    if !needsServer && !needsClient then Err(NeitherServerNorClient)
    else if (clientBounds && !needsClient) || (serverBounds && !needsServer) then Err(BoundsWithoutImpl)
    else Ok(RpcMeta(needsServer, needsClient, namespace, separator))
  }

  function Describe(attr: Attr, items: seq<TraitItem>): Result<RpcDescription, MacroError> {
    var meta :- ReadRpcMeta(attr);
    var all :- CollectAll(items);
    if all.methods == [] && all.subscriptions == [] then Err(EmptyApi)
    else
      Ok(RpcDescription(meta.needsServer, meta.needsClient, meta.namespace, meta.separator,
                        all.methods, all.subscriptions))
  }

  /** `RpcDescription::from_item`: reads the trait, then rewrites its items in place. On an error the
      items are left as they were. */
  method FromItem(attr: Attr, items: array<TraitItem>) returns (r: Result<RpcDescription, MacroError>)
    modifies items
    ensures r == Describe(attr, old(items[..]))
    ensures forall i :: 0 <= i < items.Length ==>
      items[i] == if r.Ok? then RewrittenItem(old(items[i])) else old(items[i])
  {
    var meta := ReadRpcMeta(attr);
    if meta.Err? {
      return Err(meta.error);
    }
    var all := Collect(items[..]);
    if all.Err? {
      return Err(all.error);
    }
    if all.value.methods == [] && all.value.subscriptions == [] {
      return Err(EmptyApi);
    }
    StripRpcAttrs(items);
    RewriteAsyncMethods(items);
    r := Ok(RpcDescription(meta.value.needsServer, meta.value.needsClient, meta.value.namespace, meta.value.separator,
                           all.value.methods, all.value.subscriptions));
  }

  // ---- coherence ----

  predicate IsSubscription(item: TraitItem) {
    item.FnItem? && FindAttr(item.fn.attrs, "subscription").Some?
  }

  /** The functions that are, or are not, subscriptions, in source order. */
  function Pick(items: seq<TraitItem>, subscriptions: bool): seq<TraitFn> {
    if items == [] then []
    else
      var last := items[|items| - 1];
      Pick(items[..|items| - 1], subscriptions) +
      (if last.FnItem? && IsSubscription(last) == subscriptions then [last.fn] else [])
  }

  /** Each function is placed exactly once: in the methods or in the subscriptions, in source order. */
  lemma {:induction false} PlacedExactlyOnce(items: seq<TraitItem>)
    requires CollectAll(items).Ok?
    ensures var all := CollectAll(items).value;
      && |all.methods| == |Pick(items, false)| && |all.subscriptions| == |Pick(items, true)|
      && |all.methods| + |all.subscriptions| == |items|
      && (forall k :: 0 <= k < |all.methods| ==>
            var f := Pick(items, false)[k]; MethodFromItem(FindAttr(f.attrs, "method"), f) == Ok(all.methods[k]))
      && (forall k :: 0 <= k < |all.subscriptions| ==>
            var f := Pick(items, true)[k];
            FindAttr(f.attrs, "subscription").Some? &&
            SubscriptionFromItem(FindAttr(f.attrs, "subscription").value, f) == Ok(all.subscriptions[k]))
  {
    if items != [] { PlacedExactlyOnce(items[..|items| - 1]); }
  }

  lemma {:induction false} WithoutTwice(attrs: seq<Attr>, paths: set<string>)
    ensures Without(Without(attrs, paths), paths) == Without(attrs, paths)
    ensures forall a :: a in Without(attrs, paths) <==> a in attrs && a.path !in paths
  {
    if attrs != [] {
      WithoutTwice(attrs[1..], paths);
      assert attrs == [attrs[0]] + attrs[1..];
      var rest := Without(attrs[1..], paths);
      if attrs[0].path in paths {
        assert [] + rest == rest;
      } else {
        assert ([attrs[0]] + rest)[1..] == rest;
      }
    }
  }

  /** Stripping goes attribute by attribute: what is kept is kept as often and in the order it was there. */
  lemma {:induction false} WithoutInOrder(a: seq<Attr>, b: seq<Attr>, paths: set<string>)
    ensures Without(a + b, paths) == Without(a, paths) + Without(b, paths)
    ensures |b| == 1 ==> Without(b, paths) == if b[0].path in paths then [] else b
  {
    if a == [] {
      assert [] + b == b && [] + Without(b, paths) == Without(b, paths);
    } else {
      assert (a + b)[0] == a[0] && (a + b)[1..] == a[1..] + b;
      WithoutInOrder(a[1..], b, paths);
      var head: seq<Attr> := if a[0].path in paths then [] else [a[0]];
      assert (head + Without(a[1..], paths)) + Without(b, paths) == head + (Without(a[1..], paths) + Without(b, paths));
    }
    if |b| == 1 { assert b == [b[0]] && Without(b[1..], paths) == [] && [b[0]] + [] == [b[0]]; }
  }

  /** The rewriting keeps identifiers, parameters and foreign attributes, leaves no attribute of the
      macro and no `async`, and does nothing the second time. */
  lemma {:induction false} RewritingIsClean(item: TraitItem)
    ensures item.FnItem? <==> RewrittenItem(item).FnItem?
    ensures RewrittenItem(RewrittenItem(item)) == RewrittenItem(item)
    ensures item.FnItem? ==>
      var f, g := item.fn, RewrittenItem(item).fn;
      && g.ident == f.ident && !g.isAsync && |g.inputs| == |f.inputs|
      && (forall a :: a in g.attrs <==> a in f.attrs && a.path != "method" && a.path != "subscription")
      && (forall i :: 0 <= i < |f.inputs| && f.inputs[i].Receiver? ==> g.inputs[i].Receiver?)
      && (forall i :: 0 <= i < |f.inputs| && f.inputs[i].TypedArg? ==>
            g.inputs[i].TypedArg? && g.inputs[i].pat == f.inputs[i].pat && g.inputs[i].ty == f.inputs[i].ty &&
            forall a :: a in g.inputs[i].attrs <==> a in f.inputs[i].attrs && a.path != "argument")
  {
    if item.FnItem? {
      var f := item.fn;
      WithoutTwice(f.attrs, {"method", "subscription"});
      forall i | 0 <= i < |f.inputs|
        ensures StripInput(StripInput(f.inputs[i])) == StripInput(f.inputs[i])
        ensures f.inputs[i].TypedArg? ==>
          forall a :: a in StripInput(f.inputs[i]).attrs <==> a in f.inputs[i].attrs && a.path != "argument"
      {
        if f.inputs[i].TypedArg? { WithoutTwice(f.inputs[i].attrs, {"argument"}); }
      }
      assert StripInputs(StripInputs(f.inputs)) == StripInputs(f.inputs);
    }
  }

  /** The emitted trait has the return type of the rewritten function, an introduced future yielding the
      declared type. The dispatcher awaits exactly when that type is a future, except for a function that
      was written without `async` and declares a future itself; and its `match` on the awaited value has
      a type exactly when the function, as written, returns a `Result`. */
  lemma {:induction false} AwaitMatchesRewriting(attr: Attr, items: seq<TraitItem>, k: nat)
    requires Describe(attr, items).Ok? && k < |Describe(attr, items).value.methods|
    ensures k < |Pick(items, false)|
    ensures var d := Describe(attr, items).value;
      var arm, f := RenderDispatchArm(d, k), Pick(items, false)[k];
      var g := RewrittenItem(FnItem(f)).fn;
      && arm.CallHandler? && arm.fnIdent == f.ident
      && RenderTrait(d)[k].ident == g.ident && RenderTrait(d)[k].ret == g.output.Declared()
      && (f.isAsync ==> g.output == Returns(FutureOf(f.output.Declared())))
      && (!f.isAsync ==> g.output == f.output)
      && ((arm.awaits <==> g.output.IsFuture()) <==> f.isAsync || !f.output.IsFuture())
      && (MatchesResult(g.output.Declared(), arm.awaits) <==> f.output.Declared().ResultTy?)
  {
    PlacedExactlyOnce(items);
    var f := Pick(items, false)[k];
    assert MethodFromItem(FindAttr(f.attrs, "method"), f) == Ok(CollectAll(items).value.methods[k]);
    MethodKeepsSignature(FindAttr(f.attrs, "method"), f);
  }

  lemma {:induction false} MethodKeepsSignature(attr: Option<Attr>, f: TraitFn)
    requires MethodFromItem(attr, f).Ok?
    ensures MethodFromItem(attr, f).value.fnIdent == f.ident
    ensures MethodFromItem(attr, f).value.isAsync == f.isAsync
    ensures MethodFromItem(attr, f).value.declared == f.output.Declared()
    ensures attr.None? ==> VariantName(MethodFromItem(attr, f).value.name) == VariantName(f.ident)
  {
    VariantIgnoresCamelCasing(f.ident);
  }

  /** The order of the arguments of an attribute does not matter. */
  lemma {:induction false} AttributeOrderIsIrrelevant(args: seq<Argument>, permuted: seq<Argument>, f: TraitFn)
    requires Printable(args) && Printable(permuted) && multiset(permuted) == multiset(args)
    ensures var a, b := Attr("method", Some(Print(args))), Attr("method", Some(Print(permuted)));
      && (MethodFromItem(Some(a), f).Ok? <==> MethodFromItem(Some(b), f).Ok?)
      && (MethodFromItem(Some(a), f).Ok? ==> MethodFromItem(Some(b), f) == MethodFromItem(Some(a), f))
  {
    var a, b := Attr("method", Some(Print(args))), Attr("method", Some(Print(permuted)));
    SlotsIgnoreOrder(args, permuted, METHOD_ARGUMENTS, "method");
    if ReadSlots(a, METHOD_ARGUMENTS).Ok? {
      assert ReadMethodMeta(a) == ReadMethodMeta(b);
    } else {
      assert ReadMethodMeta(a).Err? && ReadMethodMeta(b).Err?;
    }
  }

  lemma {:induction false} SlotsIgnoreOrder(
      args: seq<Argument>, permuted: seq<Argument>, allowed: seq<string>, path: string)
    requires Printable(args) && Printable(permuted) && multiset(permuted) == multiset(args)
    ensures var a := ReadSlots(Attr(path, Some(Print(args))), allowed);
            var b := ReadSlots(Attr(path, Some(Print(permuted))), allowed);
            (a.Ok? <==> b.Ok?) && (a.Ok? ==> a == b)
  {
    ParseUndoesPrint(args);
    ParseUndoesPrint(permuted);
    RetainIgnoresOrder(args, permuted, allowed);
  }

  // ---- reading back what is written ----

  function PrintLiterals(texts: seq<string>): seq<Token> {
    if texts == [] then []
    else if |texts| == 1 then [Lit(texts[0])]
    else [Lit(texts[0]), Comma] + PrintLiterals(texts[1..])
  }

  lemma {:induction false} LiteralsReadBack(texts: seq<string>)
    ensures Literals(PrintLiterals(texts)) == Some(texts)
  {
    if |texts| > 1 {
      LiteralsReadBack(texts[1..]);
      assert PrintLiterals(texts)[2..] == PrintLiterals(texts[1..]);
      assert [texts[0]] + texts[1..] == texts;
    } else if |texts| == 1 {
      assert [texts[0]] == texts;
    }
  }

  /** Nothing opens a bracket and nothing splits; a closing bracket at depth 0 does no harm. */
  predicate Flat(tokens: seq<Token>) {
    forall i :: 0 <= i < |tokens| ==> tokens[i] != Comma && tokens[i] != Lt
  }

  lemma {:induction false} FlatTokens(tokens: seq<Token>)
    requires Flat(tokens)
    ensures Whole(tokens) && Depth(tokens) == 0
  {
    if tokens != [] { FlatTokens(tokens[..|tokens| - 1]); }
  }

  /** The slots that the arguments of `#[method(..)]` fill when only what differs from the defaults is said. */
  function MethodSlots(meta: MethodMeta): seq<Slot> {
    [if meta.aliases == [] then Missing("aliases")
     else Filled(Argument("aliases", [Equals, Brackets(PrintLiterals(meta.aliases))])),
     if meta.blocking then Filled(Argument("blocking", [])) else Missing("blocking"),
     if meta.name.None? then Missing("name") else Filled(Argument("name", [Equals, Lit(meta.name.value)])),
     if meta.kind.MapKind? then Filled(Argument("param_kind", [Equals, Ident("map")])) else Missing("param_kind"),
     Missing("with_extensions")]
  }

  lemma {:induction false} MethodSlotsReadBack(meta: MethodMeta)
    ensures MethodMetaOf(MethodSlots(meta)) == Ok(meta)
  {
    LiteralsReadBack(meta.aliases);
  }

  predicate FlatSlot(slot: Slot) {
    slot.Filled? ==> Flat(slot.arg.tokens)
  }

  lemma {:induction false} FlatSlotsArePrintable(slots: seq<Slot>, n: nat)
    requires n <= |slots| && forall i :: 0 <= i < |slots| ==> FlatSlot(slots[i])
    ensures Printable(FilledArguments(slots, n))
  {
    forall i | 0 <= i < |slots| && slots[i].Filled?
      ensures Whole(slots[i].arg.tokens) && Depth(slots[i].arg.tokens) == 0
    {
      assert FlatSlot(slots[i]);
      FlatTokens(slots[i].arg.tokens);
    }
    WholeSlotsArePrintable(slots, n);
  }

  lemma {:induction false} WholeSlotsArePrintable(slots: seq<Slot>, n: nat)
    requires n <= |slots|
    requires forall i :: 0 <= i < |slots| && slots[i].Filled? ==>
      Whole(slots[i].arg.tokens) && Depth(slots[i].arg.tokens) == 0
    ensures forall i :: 0 <= i < |FilledArguments(slots, n)| ==>
      Whole(FilledArguments(slots, n)[i].tokens) && Depth(FilledArguments(slots, n)[i].tokens) == 0
  {
    if n > 0 { WholeSlotsArePrintable(slots, n - 1); }
  }

  /** Every method attribute that can be meant can be written, and is read as it was meant; by
      `AttributeOrderIsIrrelevant` its arguments may come in any order. */
  lemma {:induction false} MethodMetaReadsBack(meta: MethodMeta)
    ensures var args := FilledArguments(MethodSlots(meta), |METHOD_ARGUMENTS|);
            Printable(args) && ReadMethodMeta(Attr("method", Some(Print(args)))) == Ok(meta)
  {
    var slots := MethodSlots(meta);
    MethodArgumentsAreDistinct();
    FlatSlotsArePrintable(slots, |METHOD_ARGUMENTS|);
    SlotsReadBack(slots, METHOD_ARGUMENTS, "method");
    MethodSlotsReadBack(meta);
  }

  lemma {:induction false} SlotsReadBack(slots: seq<Slot>, allowed: seq<string>, path: string)
    requires |slots| == |allowed| && forall i :: 0 <= i < |slots| ==> SlotFits(slots[i], allowed[i])
    requires forall k, m :: 0 <= k < m < |allowed| ==> allowed[k] != allowed[m]
    requires Printable(FilledArguments(slots, |slots|))
    ensures ReadSlots(Attr(path, Some(Print(FilledArguments(slots, |slots|)))), allowed) == Ok(slots)
  {
    RetainInvertsFilling(slots, allowed);
    ParseUndoesPrint(FilledArguments(slots, |slots|));
  }

  lemma {:induction false} MethodArgumentsAreDistinct()
    ensures forall k, m :: 0 <= k < m < |METHOD_ARGUMENTS| ==> METHOD_ARGUMENTS[k] != METHOD_ARGUMENTS[m]
  {
    assert METHOD_ARGUMENTS[0][0] == 'a' && METHOD_ARGUMENTS[1][0] == 'b' && METHOD_ARGUMENTS[2][0] == 'n' &&
           METHOD_ARGUMENTS[3][0] == 'p' && METHOD_ARGUMENTS[4][0] == 'w';
  }

  /** The renaming of a parameter is read as it was meant. */
  lemma {:induction false} RenameReadsBack(ident: string, key: string, ty: Ty)
    ensures ParamFromArg(ident, [Attr("argument", Some([Ident("rename"), Equals, Lit(key)]))], ty) ==
            Ok(Param(ident, Some(key), ty))
  {
    var arg := Argument("rename", [Equals, Lit(key)]);
    var slots := [Filled(arg)];
    FlatSlotsArePrintable(slots, 1);
    assert FilledArguments(slots, 1) == [arg];
    assert Print([arg]) == [Ident("rename"), Equals, Lit(key)];
    SlotsReadBack(slots, ["rename"], "argument");
    var attr := Attr("argument", Some([Ident("rename"), Equals, Lit(key)]));
    assert FindAttr([attr], "argument") == Some(attr);
  }

  function RpcSlots(meta: RpcMeta): seq<Slot> {
    [if meta.needsClient then Filled(Argument("client", [])) else Missing("client"),
     if meta.needsServer then Filled(Argument("server", [])) else Missing("server"),
     if meta.namespace.None? then Missing("namespace")
     else Filled(Argument("namespace", [Equals, Lit(meta.namespace.value)])),
     if meta.separator.None? then Missing("namespace_separator")
     else Filled(Argument("namespace_separator", [Equals, Lit(meta.separator.value)])),
     Missing("client_bounds"),
     Missing("server_bounds")]
  }

  lemma {:induction false} RpcArgumentsAreDistinct()
    ensures forall k, m :: 0 <= k < m < |RPC_ARGUMENTS| ==> RPC_ARGUMENTS[k] != RPC_ARGUMENTS[m]
  {
    var r := RPC_ARGUMENTS;
    assert |r[0]| == 6 && |r[1]| == 6 && r[0][0] == 'c' && r[1][0] == 's';
    assert |r[2]| == 9 && |r[3]| == 19;
    assert |r[4]| == 13 && |r[5]| == 13 && r[4][0] == 'c' && r[5][0] == 's';
  }

  /** The attribute of the trait is read as it was meant, if it asks for a server or a client. */
  lemma {:induction false} RpcMetaReadsBack(meta: RpcMeta)
    requires meta.needsServer || meta.needsClient
    ensures var args := FilledArguments(RpcSlots(meta), |RPC_ARGUMENTS|);
            Printable(args) && ReadRpcMeta(Attr("rpc", Some(Print(args)))) == Ok(meta)
  {
    RpcArgumentsAreDistinct();
    FlatSlotsArePrintable(RpcSlots(meta), |RPC_ARGUMENTS|);
    SlotsReadBack(RpcSlots(meta), RPC_ARGUMENTS, "rpc");
    RpcSlotsReadBack(meta);
  }

  lemma {:induction false} RpcSlotsReadBack(meta: RpcMeta)
    requires meta.needsServer || meta.needsClient
    ensures RpcMetaOf(RpcSlots(meta)) == Ok(meta)
  {}

  /** What a subscription attribute says; the notification name and the unsubscribe name may be left out. */
  datatype SubscriptionMeta = SubscriptionMeta(
    aliases: seq<string>, name: string, mapped: Option<string>, kind: ParamKind, unsubscribe: Option<string>)

  /** `item` are the tokens of the item type. */
  function SubscriptionSlots(s: SubscriptionMeta, item: seq<Token>): seq<Slot> {
    [if s.aliases == [] then Missing("aliases")
     else Filled(Argument("aliases", [Equals, Brackets(PrintLiterals(s.aliases))])),
     Filled(Argument("item", [Equals] + item)),
     Filled(Argument("name", [Equals, Lit(s.name)] +
                             (if s.mapped.None? then [] else [Equals, Gt, Lit(s.mapped.value)]))),
     if s.kind.MapKind? then Filled(Argument("param_kind", [Equals, Ident("map")])) else Missing("param_kind"),
     if s.unsubscribe.None? then Missing("unsubscribe")
     else Filled(Argument("unsubscribe", [Equals, Lit(s.unsubscribe.value)])),
     Missing("unsubscribe_aliases"),
     Missing("with_extensions")]
  }

  /** The subscription that is meant: the notification name defaults to the name, the unsubscribe name
      to the name with `un` in front, which takes a name that begins with `subscribe`. */
  function Meant(s: SubscriptionMeta, fnIdent: string, params: seq<Param>): Result<Subscription, MacroError> {
    if s.unsubscribe.None? && !("subscribe" <= s.name) then Err(Panic)
    else
      Ok(Subscription(fnIdent, s.name, if s.unsubscribe.None? then "un" + s.name else s.unsubscribe.value,
                      if s.mapped.None? then s.name else s.mapped.value, params, s.kind, s.aliases))
  }

  lemma {:induction false} SubscriptionArgumentsAreDistinct()
    ensures forall k, m :: 0 <= k < m < |SUBSCRIPTION_ARGUMENTS| ==>
      SUBSCRIPTION_ARGUMENTS[k] != SUBSCRIPTION_ARGUMENTS[m]
  {
    var r := SUBSCRIPTION_ARGUMENTS;
    assert |r[0]| == 7 && |r[1]| == 4 && |r[2]| == 4 && |r[3]| == 10 && |r[4]| == 11 && |r[5]| == 19 && |r[6]| == 15;
    assert r[1][0] == 'i' && r[2][0] == 'n';
  }

  /** A subscription attribute is read as it was meant, if the item type splits at no comma. */
  lemma {:induction false} SubscriptionReadsBack(
      s: SubscriptionMeta, item: seq<Token>, f: TraitFn, params: seq<Param>)
    requires item != [] && Whole([Equals] + item) && Depth([Equals] + item) == 0
    requires ParamsOf(f.inputs, Panic) == Ok(params)
    ensures var args := FilledArguments(SubscriptionSlots(s, item), |SUBSCRIPTION_ARGUMENTS|);
      Printable(args) &&
      SubscriptionFromItem(Attr("subscription", Some(Print(args))), f) == Meant(s, f.ident, params)
  {
    var slots := SubscriptionSlots(s, item);
    SubscriptionArgumentsAreDistinct();
    SubscriptionSlotsArePrintable(s, item);
    SlotsReadBack(slots, SUBSCRIPTION_ARGUMENTS, "subscription");
    SubscriptionSlotsReadBack(s, item, f, params);
  }

  lemma {:induction false} SubscriptionSlotsReadBack(
      s: SubscriptionMeta, item: seq<Token>, f: TraitFn, params: seq<Param>)
    requires item != [] && ParamsOf(f.inputs, Panic) == Ok(params)
    ensures SubscriptionOf(SubscriptionSlots(s, item), f) == Meant(s, f.ident, params)
  {
    var slots := SubscriptionSlots(s, item);
    LiteralsReadBack(s.aliases);
    UnsubscribeNames(s.name);
    NameReadsBack(s, slots[2]);
    assert ReadItem(slots[1]).Ok?;
  }

  lemma {:induction false} NameReadsBack(s: SubscriptionMeta, slot: Slot)
    requires slot == SubscriptionSlots(s, [])[2]
    ensures ReadNameMapping(slot) == Ok((s.name, if s.mapped.None? then s.name else s.mapped.value))
  {}

  lemma {:induction false} UnsubscribeNames(name: string)
    ensures UnsubscribeName(name) == if "subscribe" <= name then Some("un" + name) else None
  {
    if "subscribe" <= name {
      var prefix := "subscribe";
      var rest := name[|prefix|..];
      assert name == prefix + rest && "un" + prefix == "unsubscribe";
      assert ("un" + prefix) + rest == "un" + (prefix + rest);
    }
  }

  lemma {:induction false} SubscriptionSlotsArePrintable(s: SubscriptionMeta, item: seq<Token>)
    requires Whole([Equals] + item) && Depth([Equals] + item) == 0
    ensures Printable(FilledArguments(SubscriptionSlots(s, item), |SUBSCRIPTION_ARGUMENTS|))
  {
    var slots := SubscriptionSlots(s, item);
    forall i | 0 <= i < |slots| && slots[i].Filled?
      ensures Whole(slots[i].arg.tokens) && Depth(slots[i].arg.tokens) == 0
    {
      if i != 1 { FlatTokens(slots[i].arg.tokens); }
    }
    WholeSlotsArePrintable(slots, |slots|);
  }

  /** The arguments besides the receiver, in order. */
  function TypedInputs(inputs: seq<FnArg>): seq<FnArg> {
    if inputs == [] then []
    else if inputs[0].TypedArg? then [inputs[0]] + TypedInputs(inputs[1..])
    else TypedInputs(inputs[1..])
  }

  /** The parameter has the identifier and the type of the argument and the renaming of its attribute. */
  predicate ReadFrom(p: Param, x: FnArg) {
    x.TypedArg? && x.pat == IdentPattern(p.ident) && x.ty == p.ty && ParamFromArg(p.ident, x.attrs, p.ty) == Ok(p)
  }

  /** The parameters are the arguments of the signature in their order. */
  lemma {:induction false} ParamsFollowSignature(inputs: seq<FnArg>, bad: MacroError)
    requires ParamsOf(inputs, bad).Ok?
    ensures var ps, xs := ParamsOf(inputs, bad).value, TypedInputs(inputs);
      |ps| == |xs| && forall i :: 0 <= i < |ps| ==> ReadFrom(ps[i], xs[i])
  {
    if inputs != [] {
      ParamsFollowSignature(inputs[1..], bad);
      if inputs[0].TypedArg? {
        var ps, xs := ParamsOf(inputs, bad).value, TypedInputs(inputs);
        assert ReadFrom(ps[0], xs[0]);
        assert ps[1..] == ParamsOf(inputs[1..], bad).value && xs[1..] == TypedInputs(inputs[1..]);
        forall i | 0 < i < |ps| ensures ReadFrom(ps[i], xs[i]) {
          assert ps[i] == ps[1..][i - 1] && xs[i] == xs[1..][i - 1];
        }
      }
    }
  }
}
