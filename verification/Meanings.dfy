/** What the attributes mean, exactly: an attribute is read as a meaning iff its tokens say it, in any order
    and with nothing else among them. */
module Meanings {
  import opened Wrappers
  import opened Json
  import opened Api
  import opened Names
  import opened Search
  import opened Attributes
  import opened FrontEnd

  // ---- what a list of arguments says ----

  predicate Says(args: seq<Argument>, key: string, tokens: seq<Token>) {
    Argument(key, tokens) in args
  }

  predicate Silent(args: seq<Argument>, key: string) {
    forall i :: 0 <= i < |args| ==> args[i].name != key
  }

  /** The slot holds the one argument with the key, or there is none. */
  ghost predicate SlotIs(slot: Slot, args: seq<Argument>, key: string) {
    match slot
    case Filled(arg) => arg.name == key && forall tokens :: Says(args, key, tokens) <==> tokens == arg.tokens
    case Missing(name) => name == key && Silent(args, key) && forall tokens :: !Says(args, key, tokens)
  }

  lemma {:induction false} RetainedSlotIs(args: seq<Argument>, allowed: seq<string>, i: nat)
    requires DistinctLabels(args) && i < |allowed|
    requires forall k, m :: 0 <= k < m < |allowed| ==> allowed[k] != allowed[m]
    ensures SlotIs(SlotFor(args, allowed, i), args, allowed[i])
    ensures SlotFor(args, allowed, i).Filled? <==> !Silent(args, allowed[i])
  {
    var p := (a: Argument) => a.name == allowed[i];
    var k := First(args, p);
    var q := (probe: string) => probe == allowed[i];
    assert q(allowed[i]);
    assert Position(allowed, allowed[i]) == First(allowed, q) == i;
    forall tokens | Says(args, allowed[i], tokens) ensures k < |args| && args[k].tokens == tokens {
      var n :| 0 <= n < |args| && args[n] == Argument(allowed[i], tokens);
      assert p(args[n]);
    }
    if k < |args| {
      assert args[k] == Argument(allowed[i], args[k].tokens);
    } else {
      forall n | 0 <= n < |args| ensures args[n].name != allowed[i] { assert !p(args[n]); }
    }
  }

  /** The argument lists that an attribute may have: they parse, and every label is allowed and used once. */
  predicate Lists(tokens: seq<Token>, allowed: seq<string>, args: seq<Argument>) {
    ParseList(tokens) == Parsed(args) && AllAllowed(args, allowed) && DistinctLabels(args)
  }

  lemma {:induction false} SlotsRead(attr: Attr, allowed: seq<string>)
    requires forall k, m :: 0 <= k < m < |allowed| ==> allowed[k] != allowed[m]
    ensures match ReadSlots(attr, allowed)
            case Ok(slots) =>
              attr.args.Some? && ParseList(attr.args.value).Parsed? &&
              var args := ParseList(attr.args.value).args;
              && Lists(attr.args.value, allowed, args) && |slots| == |allowed|
              && forall i :: 0 <= i < |allowed| ==> SlotIs(slots[i], args, allowed[i])
            case Err(_) => attr.args.None? || forall args :: !Lists(attr.args.value, allowed, args)
  {
    if attr.args.Some? && ParseList(attr.args.value).Parsed? {
      var args := ParseList(attr.args.value).args;
      RetainLosesNothing(args, allowed);
      if ReadSlots(attr, allowed).Ok? {
        forall i | 0 <= i < |allowed| ensures SlotIs(SlotFor(args, allowed, i), args, allowed[i]) {
          RetainedSlotIs(args, allowed, i);
        }
      }
    }
  }

  /** Why the arguments of an attribute cannot be told apart: no parentheses, no identifier where an argument
      begins, or a label that is unknown or used before. */
  lemma {:induction false} SlotErrors(attr: Attr, allowed: seq<string>)
    requires ReadSlots(attr, allowed).Err?
    ensures match ReadSlots(attr, allowed).error
            case NoArguments => attr.args == None
            case AttributeSyntax(p) => attr.args.Some? && ParseList(attr.args.value) == BadStart(p)
            case AttributeArguments(e) =>
              attr.args.Some? && ParseList(attr.args.value).Parsed? &&
              Retained(ParseList(attr.args.value).args, allowed) == Err(e)
            case _ => false
  {}

  // ---- single arguments ----

  /** The literals with commas between them, and possibly one behind the last. */
  predicate Spells(content: seq<Token>, texts: seq<string>) {
    content == PrintLiterals(texts) || (texts != [] && content == PrintLiterals(texts) + [Comma])
  }

  lemma {:induction false} LiteralsSpelt(content: seq<Token>, texts: seq<string>)
    ensures Literals(content) == Some(texts) <==> Spells(content, texts)
  {
    if Spells(content, texts) { SpeltIsRead(content, texts); }
    if Literals(content) == Some(texts) { ReadIsSpelt(content, texts); }
  }

  lemma {:induction false} SpeltIsRead(content: seq<Token>, texts: seq<string>)
    requires Spells(content, texts)
    ensures Literals(content) == Some(texts)
  {
    if |texts| == 1 {
      assert [texts[0]] == texts && PrintLiterals(texts) == [Lit(texts[0])];
      if content != PrintLiterals(texts) {
        assert content == [Lit(texts[0]), Comma] && content[2..] == [];
        assert [texts[0]] + [] == texts;
      }
    } else if |texts| > 1 {
      var p := PrintLiterals(texts);
      assert p == [Lit(texts[0]), Comma] + PrintLiterals(texts[1..]);
      assert content[0] == Lit(texts[0]) && content[1] == Comma;
      if content == p {
        assert content[2..] == PrintLiterals(texts[1..]);
      } else {
        assert content[2..] == PrintLiterals(texts[1..]) + [Comma];
      }
      PrintedLength(texts[1..]);
      SpeltIsRead(content[2..], texts[1..]);
      assert [texts[0]] + texts[1..] == texts;
    }
  }

  lemma {:induction false} PrintedLength(texts: seq<string>)
    ensures texts != [] ==> |PrintLiterals(texts)| > 0
  {}

  lemma {:induction false} ReadIsSpelt(content: seq<Token>, texts: seq<string>)
    requires Literals(content) == Some(texts)
    ensures Spells(content, texts)
  {
    if |content| == 1 {
      assert content == [Lit(texts[0])] && PrintLiterals(texts) == content;
    } else if |content| > 1 {
      var more := Literals(content[2..]).value;
      ReadIsSpelt(content[2..], more);
      assert texts == [content[0].text] + more && texts[1..] == more;
      assert content == [content[0], Comma] + content[2..];
      if more == [] {
        assert content == PrintLiterals(texts) + [Comma];
      } else {
        assert PrintLiterals(texts) == [content[0], Comma] + PrintLiterals(more);
        if content[2..] != PrintLiterals(more) {
          assert content == PrintLiterals(texts) + [Comma];
        }
      }
    }
  }

  lemma {:induction false} StringExactly(slot: Slot, args: seq<Argument>, key: string)
    requires SlotIs(slot, args, key)
    ensures OptionalString(slot) == Ok(None) <==> Silent(args, key)
    ensures forall s :: OptionalString(slot) == Ok(Some(s)) <==> Says(args, key, [Equals, Lit(s)])
    ensures OptionalString(slot).Err? ==> OptionalString(slot) == Err(BadArgument(key)) && !Silent(args, key)
  {
    FilledIsNotSilent(slot, args, key);
  }

  lemma {:induction false} FilledIsNotSilent(slot: Slot, args: seq<Argument>, key: string)
    requires SlotIs(slot, args, key)
    ensures slot.Filled? <==> !Silent(args, key)
    ensures slot.Filled? ==> slot.arg == Argument(key, slot.arg.tokens)
  {
    if slot.Filled? { assert Says(args, key, slot.arg.tokens); }
  }

  lemma {:induction false} FlagExactly(slot: Slot, args: seq<Argument>, key: string)
    requires SlotIs(slot, args, key)
    ensures OptionalFlag(slot) == Ok(false) <==> Silent(args, key)
    ensures OptionalFlag(slot) == Ok(true) <==> Says(args, key, [])
    ensures OptionalFlag(slot).Err? ==> OptionalFlag(slot) == Err(BadArgument(key)) && !Silent(args, key)
  {
    FilledIsNotSilent(slot, args, key);
  }

  lemma {:induction false} GroupExactly(slot: Slot, args: seq<Argument>, key: string)
    requires SlotIs(slot, args, key)
    ensures OptionalGroup(slot) == Ok(false) <==> Silent(args, key)
    ensures OptionalGroup(slot) == Ok(true) <==> exists content :: Says(args, key, [Parens(content)])
    ensures OptionalGroup(slot).Err? ==> OptionalGroup(slot) == Err(BadArgument(key)) && !Silent(args, key)
  {
    FilledIsNotSilent(slot, args, key);
    if slot.Filled? && |slot.arg.tokens| == 1 && slot.arg.tokens[0].Parens? {
      assert slot.arg.tokens == [Parens(slot.arg.tokens[0].content)];
      assert Says(args, key, [Parens(slot.arg.tokens[0].content)]);
    }
  }

  lemma {:induction false} KindExactly(slot: Slot, args: seq<Argument>, key: string)
    requires SlotIs(slot, args, key)
    ensures ReadParamKind(slot) == Ok(MapKind) <==> Says(args, key, [Equals, Ident("map")])
    ensures ReadParamKind(slot) == Ok(ArrayKind) <==> Silent(args, key) || Says(args, key, [Equals, Ident("array")])
    ensures ReadParamKind(slot).Err? ==> ReadParamKind(slot) == Err(BadArgument(key)) && !Silent(args, key)
  {
    FilledIsNotSilent(slot, args, key);
    assert "map" != "array" by { assert |"map"| == 3 && |"array"| == 5; }
  }

  /** The argument says the list, or there is no argument and the list is empty. */
  ghost predicate SaysList(args: seq<Argument>, key: string, texts: seq<string>) {
    || (Silent(args, key) && texts == [])
    || exists content :: Says(args, key, [Equals, Brackets(content)]) && Spells(content, texts)
  }

  lemma {:induction false} ListExactly(slot: Slot, args: seq<Argument>, key: string, texts: seq<string>)
    requires SlotIs(slot, args, key)
    ensures ReadAliases(slot) == Ok(texts) <==> SaysList(args, key, texts)
    ensures ReadAliases(slot).Err? ==> ReadAliases(slot) == Err(BadArgument(key)) && !Silent(args, key)
  {
    FilledIsNotSilent(slot, args, key);
    if slot.Filled? {
      var tokens := slot.arg.tokens;
      if |tokens| == 2 && tokens[0] == Equals && tokens[1].Brackets? {
        var content := tokens[1].content;
        assert tokens == [Equals, Brackets(content)];
        LiteralsSpelt(content, texts);
        forall other | Says(args, key, [Equals, Brackets(other)]) ensures other == content {
          assert [Equals, Brackets(other)][1] == tokens[1];
        }
      } else {
        forall other ensures !Says(args, key, [Equals, Brackets(other)]) {
          assert [Equals, Brackets(other)][1].Brackets?;
        }
      }
    }
  }

  predicate SaysText(args: seq<Argument>, key: string, text: Option<string>) {
    match text
    case None => Silent(args, key)
    case Some(s) => Says(args, key, [Equals, Lit(s)])
  }

  predicate SaysFlag(args: seq<Argument>, key: string, flag: bool) {
    if flag then Says(args, key, []) else Silent(args, key)
  }

  /** `array` is the default and may be said as well. */
  predicate SaysKind(args: seq<Argument>, key: string, kind: ParamKind) {
    match kind
    case MapKind => Says(args, key, [Equals, Ident("map")])
    case ArrayKind => Silent(args, key) || Says(args, key, [Equals, Ident("array")])
  }

  // ---- `#[method(..)]` ----

  /** The flag `with_extensions` is accepted and has no effect. */
  ghost predicate SaysMethod(args: seq<Argument>, meta: MethodMeta) {
    && SaysList(args, "aliases", meta.aliases) && SaysFlag(args, "blocking", meta.blocking)
    && SaysText(args, "name", meta.name) && SaysKind(args, "param_kind", meta.kind)
    && (Silent(args, "with_extensions") || Says(args, "with_extensions", []))
  }

  lemma {:induction false} MethodSlotsExactly(slots: seq<Slot>, args: seq<Argument>, meta: MethodMeta)
    requires |slots| == |METHOD_ARGUMENTS|
    requires forall i :: 0 <= i < |slots| ==> SlotIs(slots[i], args, METHOD_ARGUMENTS[i])
    ensures MethodMetaOf(slots) == Ok(meta) <==> SaysMethod(args, meta)
    ensures MethodMetaOf(slots).Err? ==>
      exists i :: 0 <= i < |slots| && MethodMetaOf(slots) == Err(BadArgument(METHOD_ARGUMENTS[i])) &&
        !Silent(args, METHOD_ARGUMENTS[i])
  {
    forall texts { ListExactly(slots[0], args, METHOD_ARGUMENTS[0], texts); }
    FlagExactly(slots[1], args, METHOD_ARGUMENTS[1]);
    StringExactly(slots[2], args, METHOD_ARGUMENTS[2]);
    KindExactly(slots[3], args, METHOD_ARGUMENTS[3]);
    FlagExactly(slots[4], args, METHOD_ARGUMENTS[4]);
  }

  /** A method attribute means `meta` iff its arguments say so. */
  lemma {:induction false} MethodMeaning(attr: Attr, meta: MethodMeta)
    ensures ReadMethodMeta(attr) == Ok(meta) <==>
            attr.args.Some? && exists args ::
              Lists(attr.args.value, ["aliases", "blocking", "name", "param_kind", "with_extensions"], args) &&
              SaysMethod(args, meta)
  {
    MethodArgumentsAreDistinct();
    SlotsRead(attr, METHOD_ARGUMENTS);
    if ReadSlots(attr, METHOD_ARGUMENTS).Ok? {
      var args := ParseList(attr.args.value).args;
      MethodSlotsExactly(ReadSlots(attr, METHOD_ARGUMENTS).value, args, meta);
      assert Lists(attr.args.value, METHOD_ARGUMENTS, args);
    }
  }

  /** Why a method attribute cannot be read: its arguments cannot be told apart, or one of them is malformed. */
  lemma {:induction false} MethodMetaErrors(attr: Attr)
    requires ReadMethodMeta(attr).Err?
    ensures match ReadMethodMeta(attr).error
            case NoArguments => attr.args == None
            case AttributeSyntax(p) => attr.args.Some? && ParseList(attr.args.value) == BadStart(p)
            case AttributeArguments(e) =>
              attr.args.Some? && ParseList(attr.args.value).Parsed? &&
              Retained(ParseList(attr.args.value).args, METHOD_ARGUMENTS) == Err(e)
            case BadArgument(key) =>
              attr.args.Some? && ParseList(attr.args.value).Parsed? &&
              key in METHOD_ARGUMENTS && !Silent(ParseList(attr.args.value).args, key)
            case _ => false
  {
    MethodArgumentsAreDistinct();
    SlotsRead(attr, METHOD_ARGUMENTS);
    match ReadSlots(attr, METHOD_ARGUMENTS)
    case Err(_) => SlotErrors(attr, METHOD_ARGUMENTS);
    case Ok(slots) =>
      MethodSlotsExactly(slots, ParseList(attr.args.value).args, MethodMeta([], false, None, ArrayKind));
  }

  // ---- `#[rpc(..)]` ----

  /** The contents of the bounds do not matter, but bounds are for a side that is asked for. */
  ghost predicate SaysRpc(args: seq<Argument>, meta: RpcMeta) {
    && SaysFlag(args, "server", meta.needsServer) && SaysFlag(args, "client", meta.needsClient)
    && SaysText(args, "namespace", meta.namespace) && SaysText(args, "namespace_separator", meta.separator)
    && (meta.needsServer || meta.needsClient)
    && SaysBounds(args, "client_bounds", meta.needsClient) && SaysBounds(args, "server_bounds", meta.needsServer)
  }

  ghost predicate SaysBounds(args: seq<Argument>, key: string, allowed: bool) {
    Silent(args, key) || (allowed && exists content :: Says(args, key, [Parens(content)]))
  }

  lemma {:induction false} RpcParts(slots: seq<Slot>, meta: RpcMeta)
    requires |slots| == |RPC_ARGUMENTS|
    ensures RpcMetaOf(slots) == Ok(meta) <==>
            && OptionalFlag(slots[0]) == Ok(meta.needsClient) && OptionalFlag(slots[1]) == Ok(meta.needsServer)
            && OptionalString(slots[2]) == Ok(meta.namespace) && OptionalString(slots[3]) == Ok(meta.separator)
            && (meta.needsServer || meta.needsClient)
            && BoundsAllowed(slots[4], meta.needsClient) && BoundsAllowed(slots[5], meta.needsServer)
  {}

  predicate BoundsAllowed(slot: Slot, allowed: bool) {
    OptionalGroup(slot).Ok? && (OptionalGroup(slot).value ==> allowed)
  }

  lemma {:induction false} BoundsExactly(slot: Slot, args: seq<Argument>, key: string, allowed: bool)
    requires SlotIs(slot, args, key)
    ensures BoundsAllowed(slot, allowed) <==> SaysBounds(args, key, allowed)
  {
    GroupExactly(slot, args, key);
  }

  lemma {:induction false} TextExactly(slot: Slot, args: seq<Argument>, key: string, text: Option<string>)
    requires SlotIs(slot, args, key)
    ensures OptionalString(slot) == Ok(text) <==> SaysText(args, key, text)
  {
    StringExactly(slot, args, key);
  }

  lemma {:induction false} RpcSlotsExactly(slots: seq<Slot>, args: seq<Argument>, meta: RpcMeta)
    requires |slots| == |RPC_ARGUMENTS|
    requires forall i :: 0 <= i < |slots| ==> SlotIs(slots[i], args, RPC_ARGUMENTS[i])
    ensures RpcMetaOf(slots) == Ok(meta) <==> SaysRpc(args, meta)
  {
    var keys := RPC_ARGUMENTS;
    RpcParts(slots, meta);
    FlagExactly(slots[0], args, keys[0]);
    FlagExactly(slots[1], args, keys[1]);
    TextExactly(slots[2], args, keys[2], meta.namespace);
    TextExactly(slots[3], args, keys[3], meta.separator);
    BoundsExactly(slots[4], args, keys[4], meta.needsClient);
    BoundsExactly(slots[5], args, keys[5], meta.needsServer);
  }

  /** The attribute of the trait means `meta` iff its arguments say so. */
  lemma {:induction false} RpcMeaning(attr: Attr, meta: RpcMeta)
    ensures ReadRpcMeta(attr) == Ok(meta) <==>
            attr.args.Some? && exists args ::
              Lists(attr.args.value,
                    ["client", "server", "namespace", "namespace_separator", "client_bounds", "server_bounds"], args) &&
              SaysRpc(args, meta)
  {
    RpcArgumentsAreDistinct();
    SlotsRead(attr, RPC_ARGUMENTS);
    if ReadSlots(attr, RPC_ARGUMENTS).Ok? {
      var args := ParseList(attr.args.value).args;
      RpcSlotsExactly(ReadSlots(attr, RPC_ARGUMENTS).value, args, meta);
      assert Lists(attr.args.value, RPC_ARGUMENTS, args);
    }
  }

  // ---- `#[subscription(..)]` ----

  /** `name = "n"`, which is then the notification name as well, or `name = "n" => "m"`. */
  predicate SaysName(args: seq<Argument>, name: string, notifName: string) {
    || (Says(args, "name", [Equals, Lit(name)]) && notifName == name)
    || Says(args, "name", [Equals, Lit(name), Equals, Gt, Lit(notifName)])
  }

  /** What the arguments say of a subscription; without an unsubscribe name it is the name with `un` in
      front, if that begins with `subscribe`. */
  ghost predicate SaysSubscription(args: seq<Argument>, s: Subscription) {
    && SaysList(args, "aliases", s.aliases)
    && (exists item: seq<Token> :: item != [] && Says(args, "item", [Equals] + item))
    && SaysName(args, s.name, s.notifName) && SaysKind(args, "param_kind", s.kind)
    && (if Silent(args, "unsubscribe") then "subscribe" <= s.name && s.unsubscribe == "un" + s.name
        else Says(args, "unsubscribe", [Equals, Lit(s.unsubscribe)]))
    && (exists aliases :: SaysList(args, "unsubscribe_aliases", aliases))
    && (Silent(args, "with_extensions") || Says(args, "with_extensions", []))
  }

  lemma {:induction false} ItemExactly(slot: Slot, args: seq<Argument>, key: string)
    requires SlotIs(slot, args, key)
    ensures ReadItem(slot).Ok? <==> exists item: seq<Token> :: item != [] && Says(args, key, [Equals] + item)
    ensures slot.Missing? ==> ReadItem(slot) == Err(MissingArgument(key))
  {
    FilledIsNotSilent(slot, args, key);
    if slot.Filled? {
      var tokens := slot.arg.tokens;
      if ReadItem(slot).Ok? {
        assert tokens == [Equals] + tokens[1..];
        assert tokens[1..] != [] && Says(args, key, [Equals] + tokens[1..]);
      }
      forall item: seq<Token> | item != [] && Says(args, key, [Equals] + item) ensures ReadItem(slot).Ok? {
        assert tokens == [Equals] + item;
      }
    }
  }

  lemma {:induction false} NameExactly(slot: Slot, args: seq<Argument>, name: string, notifName: string)
    requires SlotIs(slot, args, "name")
    ensures ReadNameMapping(slot) == Ok((name, notifName)) <==> SaysName(args, name, notifName)
    ensures slot.Missing? ==> ReadNameMapping(slot) == Err(MissingArgument("name"))
  {
    FilledIsNotSilent(slot, args, "name");
  }

  lemma {:induction false} SubscriptionParts(slots: seq<Slot>, f: TraitFn, s: Subscription)
    requires |slots| == |SUBSCRIPTION_ARGUMENTS|
    ensures SubscriptionOf(slots, f) == Ok(s) <==>
            && f.ident == s.fnIdent && ParamsOf(f.inputs, Panic) == Ok(s.params)
            && ReadAliases(slots[0]) == Ok(s.aliases) && ReadItem(slots[1]).Ok?
            && ReadNameMapping(slots[2]) == Ok((s.name, s.notifName)) && ReadParamKind(slots[3]) == Ok(s.kind)
            && UnsubscribeIs(slots[4], s) && ReadAliases(slots[5]).Ok? && OptionalFlag(slots[6]).Ok?
  {}

  predicate UnsubscribeIs(slot: Slot, s: Subscription) {
    var explicit := OptionalString(slot);
    explicit.Ok? && (if explicit.value.Some? then explicit.value else UnsubscribeName(s.name)) == Some(s.unsubscribe)
  }

  lemma {:induction false} AnyList(slot: Slot, args: seq<Argument>, key: string)
    requires SlotIs(slot, args, key)
    ensures ReadAliases(slot).Ok? <==> exists texts :: SaysList(args, key, texts)
  {
    if ReadAliases(slot).Ok? { ListExactly(slot, args, key, ReadAliases(slot).value); }
    forall texts | SaysList(args, key, texts) ensures ReadAliases(slot).Ok? { ListExactly(slot, args, key, texts); }
  }

  lemma {:induction false} SubscriptionSlotsExactly(
      slots: seq<Slot>, args: seq<Argument>, f: TraitFn, s: Subscription)
    requires |slots| == |SUBSCRIPTION_ARGUMENTS|
    requires forall i :: 0 <= i < |slots| ==> SlotIs(slots[i], args, SUBSCRIPTION_ARGUMENTS[i])
    ensures SubscriptionOf(slots, f) == Ok(s) <==>
            f.ident == s.fnIdent && ParamsOf(f.inputs, Panic) == Ok(s.params) && SaysSubscription(args, s)
  {
    var keys := SUBSCRIPTION_ARGUMENTS;
    SubscriptionParts(slots, f, s);
    ListExactly(slots[0], args, keys[0], s.aliases);
    ItemExactly(slots[1], args, keys[1]);
    NameExactly(slots[2], args, s.name, s.notifName);
    KindExactly(slots[3], args, keys[3]);
    UnsubscribeSaid(slots[4], args, s);
    AnyList(slots[5], args, keys[5]);
    FlagExactly(slots[6], args, keys[6]);
  }

  lemma {:induction false} UnsubscribeSaid(slot: Slot, args: seq<Argument>, s: Subscription)
    requires SlotIs(slot, args, "unsubscribe")
    ensures UnsubscribeIs(slot, s) <==>
      if Silent(args, "unsubscribe") then "subscribe" <= s.name && s.unsubscribe == "un" + s.name
      else Says(args, "unsubscribe", [Equals, Lit(s.unsubscribe)])
  {
    StringExactly(slot, args, "unsubscribe");
    FilledIsNotSilent(slot, args, "unsubscribe");
    UnsubscribeNames(s.name);
  }

  /** A subscription attribute on `f` means `s` iff its arguments and the signature say so. */
  lemma {:induction false} SubscriptionMeaning(attr: Attr, f: TraitFn, s: Subscription)
    ensures SubscriptionFromItem(attr, f) == Ok(s) <==>
            f.ident == s.fnIdent && ParamsOf(f.inputs, Panic) == Ok(s.params) &&
            attr.args.Some? && exists args ::
              Lists(attr.args.value,
                    ["aliases", "item", "name", "param_kind", "unsubscribe", "unsubscribe_aliases", "with_extensions"],
                    args) &&
              SaysSubscription(args, s)
  {
    SubscriptionArgumentsAreDistinct();
    SlotsRead(attr, SUBSCRIPTION_ARGUMENTS);
    if ReadSlots(attr, SUBSCRIPTION_ARGUMENTS).Ok? {
      var args := ParseList(attr.args.value).args;
      SubscriptionSlotsExactly(ReadSlots(attr, SUBSCRIPTION_ARGUMENTS).value, args, f, s);
      assert Lists(attr.args.value, SUBSCRIPTION_ARGUMENTS, args);
    }
  }

  // ---- `#[argument(..)]` ----

  lemma {:induction false} RenameExactly(attr: Attr, renameTo: Option<string>)
    ensures var slots := ReadSlots(attr, ["rename"]);
            (slots.Ok? && OptionalString(slots.value[0]) == Ok(renameTo)) <==>
            attr.args.Some? && exists args ::
              Lists(attr.args.value, ["rename"], args) && SaysText(args, "rename", renameTo)
  {
    SlotsRead(attr, ["rename"]);
    if ReadSlots(attr, ["rename"]).Ok? {
      var args := ParseList(attr.args.value).args;
      var slots := ReadSlots(attr, ["rename"]).value;
      assert SlotIs(slots[0], args, ["rename"][0]);
      TextExactly(slots[0], args, "rename", renameTo);
      assert Lists(attr.args.value, ["rename"], args);
    }
  }

  /** A parameter has the key that the first argument attribute says, and its own name without one. */
  lemma {:induction false} ArgumentMeaning(ident: string, attrs: seq<Attr>, ty: Ty, p: Param)
    ensures ParamFromArg(ident, attrs, ty) == Ok(p) <==>
            && p.ident == ident && p.ty == ty
            && match FindAttr(attrs, "argument")
               case None => p.renameTo == None
               case Some(attr) =>
                 attr.args.Some? && exists args ::
                   Lists(attr.args.value, ["rename"], args) && SaysText(args, "rename", p.renameTo)
  {
    match FindAttr(attrs, "argument")
    case None =>
    case Some(attr) => RenameExactly(attr, p.renameTo);
  }

  // ---- functions ----

  /** `m` is what a method attribute says: the explicit name, or the function name in camelCase. */
  ghost predicate SaysMethodOf(tokens: seq<Token>, f: TraitFn, m: Method) {
    exists args, blocking, name ::
      && Lists(tokens, ["aliases", "blocking", "name", "param_kind", "with_extensions"], args)
      && SaysMethod(args, MethodMeta(m.aliases, blocking, name, m.kind))
      && !(blocking && f.isAsync)
      && m.name == match name case Some(n) => n case None => SnakeToCamel(f.ident)
  }

  /** A function is the method `m` iff its signature and its attribute say so. Without an attribute it has
      the function name in camelCase, takes its parameters as an array and has no aliases. A function that is
      written without a return type returns unit. */
  lemma {:induction false} MethodExactly(attr: Option<Attr>, f: TraitFn, m: Method)
    ensures MethodFromItem(attr, f) == Ok(m) <==>
            && m.fnIdent == f.ident && m.isAsync == f.isAsync
            && m.declared == (match f.output case NoOutput => UnitTy case Returns(returned) => returned)
            && ParamsOf(f.inputs, BadPattern) == Ok(m.params)
            && match attr
               case None => m.name == SnakeToCamel(f.ident) && m.kind == ArrayKind && m.aliases == []
               case Some(a) => a.args.Some? && SaysMethodOf(a.args.value, f, m)
  {
    if attr.Some? {
      if MethodFromItem(attr, f) == Ok(m) {
        MethodMeaning(attr.value, ReadMethodMeta(attr.value).value);
      }
      if attr.value.args.Some? && SaysMethodOf(attr.value.args.value, f, m) {
        var args, blocking, name :|
          && Lists(attr.value.args.value, ["aliases", "blocking", "name", "param_kind", "with_extensions"], args)
          && SaysMethod(args, MethodMeta(m.aliases, blocking, name, m.kind))
          && !(blocking && f.isAsync)
          && m.name == match name case Some(n) => n case None => SnakeToCamel(f.ident);
        MethodMeaning(attr.value, MethodMeta(m.aliases, blocking, name, m.kind));
      }
    }
  }

  /** Every method attribute that can be meant can be written, and makes the function the method that is
      meant; but a function cannot be blocking and `async`. */
  lemma {:induction false} MethodReadsBack(meta: MethodMeta, f: TraitFn, params: seq<Param>)
    requires ParamsOf(f.inputs, BadPattern) == Ok(params)
    ensures var attr := Attr("method", Some(Print(FilledArguments(MethodSlots(meta), 5))));
      MethodFromItem(Some(attr), f) ==
        if meta.blocking && f.isAsync then Err(BlockingMustBeSynchronous)
        else
          Ok(Method(f.ident, match meta.name case Some(n) => n case None => SnakeToCamel(f.ident),
                    params, meta.kind, meta.aliases, f.isAsync,
                    match f.output case NoOutput => UnitTy case Returns(returned) => returned))
  {
    MethodMetaReadsBack(meta);
  }

  /** Which check of a method fails first: its attribute, `blocking` with `async`, or its parameters. */
  lemma {:induction false} MethodErrors(attr: Option<Attr>, f: TraitFn)
    ensures attr.Some? && ReadMethodMeta(attr.value).Err? ==>
      MethodFromItem(attr, f) == Err(ReadMethodMeta(attr.value).error)
    ensures attr.Some? && ReadMethodMeta(attr.value).Ok? && ReadMethodMeta(attr.value).value.blocking && f.isAsync ==>
      MethodFromItem(attr, f) == Err(BlockingMustBeSynchronous)
    ensures MethodFromItem(attr, f).Err? && (attr.None? || ReadMethodMeta(attr.value).Ok?) &&
            !(attr.Some? && ReadMethodMeta(attr.value).value.blocking && f.isAsync) ==>
      ParamsOf(f.inputs, BadPattern) == Err(MethodFromItem(attr, f).error)
  {}

  /** What is wrong with an argument of a signature: its pattern is no identifier, or its attribute. */
  function ArgError(x: FnArg, bad: MacroError): Option<MacroError> {
    match x
    case Receiver => None
    case TypedArg(pat, attrs, ty) =>
      if !pat.IdentPattern? then Some(bad)
      else match ParamFromArg(pat.ident, attrs, ty) case Ok(_) => None case Err(e) => Some(e)
  }

  /** A signature is read iff nothing is wrong with any argument; otherwise the first wrong one decides. */
  lemma {:induction false} ParamsExactly(inputs: seq<FnArg>, bad: MacroError)
    ensures ParamsOf(inputs, bad).Ok? <==> forall i :: 0 <= i < |inputs| ==> ArgError(inputs[i], bad) == None
    ensures ParamsOf(inputs, bad).Err? ==>
      exists n :: 0 <= n < |inputs| && ArgError(inputs[n], bad) == Some(ParamsOf(inputs, bad).error) &&
        forall i :: 0 <= i < n ==> ArgError(inputs[i], bad) == None
  {
    if inputs != [] {
      var rest := inputs[1..];
      ParamsExactly(rest, bad);
      assert forall i :: 1 <= i < |inputs| ==> inputs[i] == rest[i - 1];
      if ArgError(inputs[0], bad) != None {
        assert ArgError(inputs[0], bad) == Some(ParamsOf(inputs, bad).error);
      } else if ParamsOf(rest, bad).Err? {
        var n :| 0 <= n < |rest| && ArgError(rest[n], bad) == Some(ParamsOf(rest, bad).error) &&
                 forall i :: 0 <= i < n ==> ArgError(rest[i], bad) == None;
        assert ArgError(inputs[n + 1], bad) == Some(ParamsOf(inputs, bad).error);
      }
    }
  }

  // ---- traits ----

  lemma {:induction false} FirstAttribute(attrs: seq<Attr>, path: string, k: nat)
    requires k <= |attrs| && (forall i :: 0 <= i < k ==> attrs[i].path != path)
    ensures k < |attrs| && attrs[k].path == path ==> FindAttr(attrs, path) == Some(attrs[k])
    ensures k == |attrs| ==> FindAttr(attrs, path) == None
  {
    var p := (a: Attr) => a.path == path;
    if k < |attrs| && attrs[k].path == path { assert p(attrs[k]); }
    var n := First(attrs, p);
    assert n < |attrs| ==> p(attrs[n]);
  }

  predicate Marked(f: TraitFn, path: string) {
    FindAttr(f.attrs, path).Some?
  }

  /** What is wrong with a trait item: it is no function, has no receiver, is both a method and a
      subscription, or cannot be read. */
  function ItemError(item: TraitItem): Option<MacroError> {
    match item
    case OtherItem => Some(NotAFunction)
    case FnItem(f) =>
      if Receiver !in f.inputs then Some(NoReceiver)
      else if Marked(f, "method") && Marked(f, "subscription") then Some(MethodAndSubscription)
      else if Marked(f, "subscription") then
        match SubscriptionFromItem(FindAttr(f.attrs, "subscription").value, f) case Ok(_) => None case Err(e) => Some(e)
      else
        match MethodFromItem(FindAttr(f.attrs, "method"), f) case Ok(_) => None case Err(e) => Some(e)
  }

  /** A trait is collected iff nothing is wrong with any item; otherwise the error is that of the first item
      with which something is wrong. */
  lemma {:induction false} CollectsExactly(items: seq<TraitItem>)
    ensures CollectAll(items).Ok? <==> forall i :: 0 <= i < |items| ==> ItemError(items[i]) == None
    ensures CollectAll(items).Err? ==>
      exists n :: 0 <= n < |items| && ItemError(items[n]) == Some(CollectAll(items).error) &&
        forall i :: 0 <= i < n ==> ItemError(items[i]) == None
  {
    if items != [] {
      var init, last := items[..|items| - 1], items[|items| - 1];
      assert items == init + [last];
      CollectsExactly(init);
      if CollectAll(init).Ok? { LastItem(last, CollectAll(init).value); }
      FirstErrorOf(init, last, CollectAll(init), CollectAll(items));
    }
  }

  /** The first error of a list that grows by one item. */
  lemma {:induction false} FirstErrorOf(
      init: seq<TraitItem>, last: TraitItem,
      before: Result<Collected, MacroError>, after: Result<Collected, MacroError>)
    requires before.Ok? <==> forall i :: 0 <= i < |init| ==> ItemError(init[i]) == None
    requires before.Err? ==> after == before
    requires before.Err? ==>
      exists n :: 0 <= n < |init| && ItemError(init[n]) == Some(before.error) &&
        forall i :: 0 <= i < n ==> ItemError(init[i]) == None
    requires before.Ok? ==> (after.Ok? <==> ItemError(last) == None)
    requires before.Ok? && after.Err? ==> ItemError(last) == Some(after.error)
    ensures var items := init + [last];
      && (after.Ok? <==> forall i :: 0 <= i < |items| ==> ItemError(items[i]) == None)
      && (after.Err? ==>
            exists n :: 0 <= n < |items| && ItemError(items[n]) == Some(after.error) &&
              forall i :: 0 <= i < n ==> ItemError(items[i]) == None)
  {
    var items := init + [last];
    forall i | 0 <= i < |init| ensures items[i] == init[i] {}
    assert items[|init|] == last;
    if before.Err? {
      var n :| 0 <= n < |init| && ItemError(init[n]) == Some(before.error) &&
               forall i :: 0 <= i < n ==> ItemError(init[i]) == None;
      assert ItemError(items[n]) == Some(after.error);
    }
  }

  lemma {:induction false} LastItem(item: TraitItem, sofar: Collected)
    ensures CollectItem(item, sofar).Ok? <==> ItemError(item) == None
    ensures CollectItem(item, sofar).Err? ==> ItemError(item) == Some(CollectItem(item, sofar).error)
  {}

  /** The trait is described iff its attribute can be read, nothing is wrong with any item, and there is one. */
  lemma {:induction false} DescribesExactly(attr: Attr, items: seq<TraitItem>)
    ensures Describe(attr, items).Ok? <==>
            ReadRpcMeta(attr).Ok? && items != [] && forall i :: 0 <= i < |items| ==> ItemError(items[i]) == None
    ensures Describe(attr, items).Ok? ==>
      var d, meta := Describe(attr, items).value, ReadRpcMeta(attr).value;
      && d.needsServer == meta.needsServer && d.needsClient == meta.needsClient
      && d.namespace == meta.namespace && d.separator == meta.separator
    ensures ReadRpcMeta(attr).Ok? && items == [] ==> Describe(attr, items) == Err(EmptyApi)
  {
    CollectsExactly(items);
    if CollectAll(items).Ok? { PlacedExactlyOnce(items); }
  }

  /** Each method of a description is what the attribute and the signature of its function say. */
  lemma {:induction false} DescribedMethod(attr: Attr, items: seq<TraitItem>, j: nat)
    requires Describe(attr, items).Ok? && j < |Describe(attr, items).value.methods|
    ensures j < |Pick(items, false)|
    ensures var m, f := Describe(attr, items).value.methods[j], Pick(items, false)[j];
      match FindAttr(f.attrs, "method")
      case None => m.name == SnakeToCamel(f.ident) && m.kind == ArrayKind && m.aliases == []
      case Some(a) => a.args.Some? && SaysMethodOf(a.args.value, f, m)
  {
    PlacedExactlyOnce(items);
    var m, f := CollectAll(items).value.methods[j], Pick(items, false)[j];
    assert MethodFromItem(FindAttr(f.attrs, "method"), f) == Ok(m);
    MethodExactly(FindAttr(f.attrs, "method"), f, m);
  }

  // ---- small traits ----

  lemma {:induction false} OnlyAttr(attr: Attr)
    ensures FindAttr([attr], attr.path) == Some(attr)
    ensures forall path :: path != attr.path ==> FindAttr([attr], path) == None
  {
    assert [attr][1..] == [];
  }

  lemma {:induction false} OneItem(item: TraitItem)
    ensures CollectAll([item]) == CollectItem(item, Collected([], []))
  {
    assert [item][..0] == [];
  }

  lemma {:induction false} TwoItems(first: TraitItem, second: TraitItem)
    requires CollectAll([first]).Ok?
    ensures CollectAll([first, second]) == CollectItem(second, CollectAll([first]).value)
  {
    assert [first, second][..1] == [first];
  }

  /** A function whose attributes are at most one `method`. */
  lemma {:induction false} MethodIsCollected(
      f: TraitFn, attr: Option<Attr>, m: Method, sofar: Collected, all: Collected)
    requires f.attrs == (match attr case None => [] case Some(a) => [a]) && (attr.Some? ==> attr.value.path == "method")
    requires Receiver in f.inputs && MethodFromItem(attr, f) == Ok(m)
    requires all == Collected(sofar.methods + [m], sofar.subscriptions)
    ensures CollectItem(FnItem(f), sofar) == Ok(all)
  {
    if attr.Some? { OnlyAttr(attr.value); }
    assert FindAttr(f.attrs, "method") == attr && FindAttr(f.attrs, "subscription") == None;
  }

  lemma {:induction false} OneParam(inputs: seq<FnArg>, p: Param, bad: MacroError)
    requires |inputs| == 2 && inputs[0] == Receiver && inputs[1] == TypedArg(IdentPattern(p.ident), [], p.ty)
    requires p.renameTo == None
    ensures ParamsOf(inputs, bad) == Ok([p])
  {
    var rest := inputs[1..];
    assert rest == [inputs[1]] && rest[1..] == [];
    assert ParamFromArg(p.ident, [], p.ty) == Ok(p);
    assert ParamsOf([], bad) == Ok([]) && [p] + [] == [p];
    assert ParamsOf(rest, bad) == Ok([p]);
  }
}
