/** The macro as a whole: from the trait as written to the value a client gets. */
module Macro {
  import opened Wrappers
  import opened Json
  import opened Api
  import opened Compile
  import opened Decoder
  import opened RoundTrip
  import opened Service
  import opened Tower
  import opened Client
  import opened FrontEnd

  /** One value for each typed argument of a signature, of its type. */
  predicate ArgsFit(inputs: seq<FnArg>, args: seq<Data>) {
    |args| == |inputs| && forall i :: 0 <= i < |args| ==> inputs[i].TypedArg? && HasType(args[i], inputs[i].ty)
  }

  /** The arguments by the names of the parameters. */
  function Named(ps: seq<Param>, args: seq<Data>): map<string, Data> {
    map x | x in Idents(ps) :: (var i := IndexOf(ps, x); if i < |args| then args[i] else DUnit)
  }

  lemma {:induction false} NamedInOrder(ps: seq<Param>, args: seq<Data>)
    requires DistinctIdents(ps) && |args| == |ps|
    requires forall i :: 0 <= i < |ps| ==> HasType(args[i], ps[i].ty)
    ensures FieldsFit(ps, Named(ps, args)) && ArgsIn(ps, Named(ps, args)) == args
  {
    forall i | 0 <= i < |ps| ensures ps[i].ident in Named(ps, args) && Named(ps, args)[ps[i].ident] == args[i] {
      IndexOfDistinct(ps, i);
    }
  }

  lemma {:induction false} NamedAgain(ps: seq<Param>, fields: map<string, Data>)
    requires DistinctIdents(ps) && FieldsFit(ps, fields)
    ensures Named(ps, ArgsIn(ps, fields)) == fields
  {
    var args := ArgsIn(ps, fields);
    NamedInOrder(ps, args);
    forall i | 0 <= i < |ps| ensures Named(ps, args)[ps[i].ident] == fields[ps[i].ident] {
      assert ArgsIn(ps, Named(ps, args))[i] == args[i];
    }
    SameFields(ps, Named(ps, args), fields);
  }

  /** Calling the stub of the trait function `f` with `args` gives what the handler's `f` returns for them. */
  ghost predicate CallsThrough<W>(
      layers: seq<Layer<W>>, k: nat, fallback: Fallback<W>, j: nat, f: TraitFn, args: seq<Data>, w: W)
    requires k < |layers| && j < |layers[k].api.methods|
  {
    var m := layers[k].api.methods[j];
    FieldsFit(m.params, Named(m.params, args)) &&
    var outcome := layers[k].handler(w, f.ident, args).1;
    (outcome.Ok? ==> HasType(outcome.value, OkData(f))) ==>
      StubOutcome(layers, fallback, layers[k].api, j, Named(m.params, args), [Ready], w) ==
        Completed(Expected(outcome))
  }

  /** The data in the `Ok` of a trait function. */
  function OkData(f: TraitFn): Ty {
    f.output.Declared().OkType().JsonTy()
  }

  /** What the description of a trait function keeps of its signature. */
  lemma {:induction false} DescribedSignature(attr: Attr, items: seq<TraitItem>, j: nat)
    requires Describe(attr, items).Ok? && j < |Describe(attr, items).value.methods|
    ensures j < |Pick(items, false)|
    ensures var m, f := Describe(attr, items).value.methods[j], Pick(items, false)[j];
      && m.fnIdent == f.ident && m.isAsync == f.isAsync && m.declared == f.output.Declared()
      && |m.params| == |TypedInputs(f.inputs)|
      && forall i :: 0 <= i < |m.params| ==> ReadFrom(m.params[i], TypedInputs(f.inputs)[i])
  {
    PlacedExactlyOnce(items);
    var f := Pick(items, false)[j];
    assert MethodFromItem(FindAttr(f.attrs, "method"), f) == Ok(CollectAll(items).value.methods[j]);
    ParamsFollowSignature(f.inputs, BadPattern);
  }

  lemma {:induction false} SameCalls<W>(
      layers: seq<Layer<W>>, k: nat, fallback: Fallback<W>, j: nat, f: TraitFn,
      args: seq<Data>, fields: map<string, Data>, w: W)
    requires k < |layers| && j < |layers[k].api.methods|
    requires var m := layers[k].api.methods[j];
      && f.ident == m.fnIdent && f.output.Declared() == m.declared
      && FieldsFit(m.params, fields) && fields == Named(m.params, args) && args == ArgsIn(m.params, fields)
    ensures CallsThrough(layers, k, fallback, j, f, args, w) <==> FaithfulFor(layers, k, fallback, j, fields, w)
  {}

  /** The function `f` was read as `m`. */
  predicate Describes(m: Method, f: TraitFn) {
    && m.fnIdent == f.ident && m.declared == f.output.Declared() && DistinctIdents(m.params)
    && |m.params| == |TypedInputs(f.inputs)|
    && forall i :: 0 <= i < |m.params| ==> ReadFrom(m.params[i], TypedInputs(f.inputs)[i])
  }

  /** Positional arguments and arguments by name are the same calls. */
  lemma {:induction false} ByNameAsPositional<W>(
      layers: seq<Layer<W>>, k: nat, fallback: Fallback<W>, j: nat, f: TraitFn, fields: map<string, Data>, w: W)
    requires k < |layers| && j < |layers[k].api.methods| && Describes(layers[k].api.methods[j], f)
    requires FieldsFit(layers[k].api.methods[j].params, fields)
    ensures var args := ArgsIn(layers[k].api.methods[j].params, fields);
      && ArgsFit(TypedInputs(f.inputs), args)
      && (CallsThrough(layers, k, fallback, j, f, args, w) <==> FaithfulFor(layers, k, fallback, j, fields, w))
  {
    var ps := layers[k].api.methods[j].params;
    NamedAgain(ps, fields);
    forall i | 0 <= i < |ps| ensures TypedInputs(f.inputs)[i].TypedArg? && TypedInputs(f.inputs)[i].ty == ps[i].ty {
      assert ReadFrom(ps[i], TypedInputs(f.inputs)[i]);
    }
    SameCalls(layers, k, fallback, j, f, ArgsIn(ps, fields), fields, w);
  }

  lemma {:induction false} PositionalAsByName<W>(
      layers: seq<Layer<W>>, k: nat, fallback: Fallback<W>, j: nat, f: TraitFn, args: seq<Data>, w: W)
    requires k < |layers| && j < |layers[k].api.methods| && Describes(layers[k].api.methods[j], f)
    requires ArgsFit(TypedInputs(f.inputs), args)
    ensures var fields := Named(layers[k].api.methods[j].params, args);
      CallsThrough(layers, k, fallback, j, f, args, w) <==> FaithfulFor(layers, k, fallback, j, fields, w)
  {
    var ps := layers[k].api.methods[j].params;
    forall i | 0 <= i < |ps| ensures HasType(args[i], ps[i].ty) {
      assert ReadFrom(ps[i], TypedInputs(f.inputs)[i]);
    }
    NamedInOrder(ps, args);
    SameCalls(layers, k, fallback, j, f, args, Named(ps, args), w);
  }

  /** For every handler of layer `k` and all arguments of its signature, `f` is called through. */
  ghost predicate ServedAsWritten<W(!new)>(
      layers: seq<Layer<W>>, k: nat, fallback: Fallback<W>, j: nat, f: TraitFn, w: W)
    requires k < |layers| && j < |layers[k].api.methods|
  {
    forall h, args :: ArgsFit(TypedInputs(f.inputs), args) ==>
      CallsThrough(WithHandler(layers, k, h), k, fallback, j, f, args, w)
  }

  lemma {:induction false} AsWrittenIsByName<W(!new)>(
      layers: seq<Layer<W>>, k: nat, fallback: Fallback<W>, j: nat, f: TraitFn, w: W)
    requires k < |layers| && j < |layers[k].api.methods| && Describes(layers[k].api.methods[j], f)
    requires ServedAsWritten(layers, k, fallback, j, f, w)
    ensures forall h, fields :: FaithfulFor(WithHandler(layers, k, h), k, fallback, j, fields, w)
  {
    forall h, fields ensures FaithfulFor(WithHandler(layers, k, h), k, fallback, j, fields, w) {
      if FieldsFit(layers[k].api.methods[j].params, fields) {
        ByNameAsPositional(WithHandler(layers, k, h), k, fallback, j, f, fields, w);
      }
    }
  }

  lemma {:induction false} ByNameIsAsWritten<W(!new)>(
      layers: seq<Layer<W>>, k: nat, fallback: Fallback<W>, j: nat, f: TraitFn, w: W)
    requires k < |layers| && j < |layers[k].api.methods| && Describes(layers[k].api.methods[j], f)
    requires forall h, fields :: FaithfulFor(WithHandler(layers, k, h), k, fallback, j, fields, w)
    ensures ServedAsWritten(layers, k, fallback, j, f, w)
  {
    forall h, args | ArgsFit(TypedInputs(f.inputs), args)
      ensures CallsThrough(WithHandler(layers, k, h), k, fallback, j, f, args, w)
    {
      PositionalAsByName(WithHandler(layers, k, h), k, fallback, j, f, args, w);
    }
  }

  /** From attribute tokens and signatures to the client, through any stack: for every handler of the layer
      and all arguments of its signature, the stub of a trait function returns what the handler returns,
      exactly when no earlier layer owns its name, it is safe in the description, it is written with a
      `Result`, and its return type nests no `null`. */
  lemma {:induction false} TraitIsServedExactly<W(!new)>(
      attr: Attr, items: seq<TraitItem>, layers: seq<Layer<W>>, k: nat, fallback: Fallback<W>, j: nat, w: W)
    requires AllDistinct(layers) && k < |layers| && Describe(attr, items) == Ok(layers[k].api)
    requires j < |layers[k].api.methods|
    ensures j < |Pick(items, false)|
    ensures var f := Pick(items, false)[j];
      ServedAsWritten(layers, k, fallback, j, f, w) <==>
        ReachedFirst(layers, k, j) && SafeAt(layers[k].api, j) &&
        f.output.Declared().ResultTy? && OkData(f).Lawful()
  {
    DescribedSignature(attr, items, j);
    assert DistinctIdents(EndpointAt(layers[k].api, j).params);
    var f := Pick(items, false)[j];
    EndToEndExactly(layers, k, fallback, j, w);
    if ServedAsWritten(layers, k, fallback, j, f, w) {
      AsWrittenIsByName(layers, k, fallback, j, f, w);
    }
    if forall h, fields :: FaithfulFor(WithHandler(layers, k, h), k, fallback, j, fields, w) {
      ByNameIsAsWritten(layers, k, fallback, j, f, w);
    }
  }

  /** What the compiler leaves of the condition: in a server that compiles the return type is a `Result`. */
  lemma {:induction false} CompiledTraitIsServed<W(!new)>(
      attr: Attr, items: seq<TraitItem>, fallback: Fallback<W>, j: nat, w: W, h: Handler<W>, args: seq<Data>)
    requires Describe(attr, items).Ok? && j < |Describe(attr, items).value.methods|
    requires var d := Describe(attr, items).value; d.needsServer && Compiles(d) && SafeAt(d, j)
    ensures j < |Pick(items, false)|
    ensures var d, f := Describe(attr, items).value, Pick(items, false)[j];
      OkData(f).Lawful() && ArgsFit(TypedInputs(f.inputs), args) ==>
        CallsThrough([Layer(d, h)], 0, fallback, j, f, args, w)
  {
    var d := Describe(attr, items).value;
    CompiledNamesAreDistinct(d);
    DescribedSignature(attr, items, j);
    var f := Pick(items, false)[j];
    assert DistinctIdents(EndpointAt(d, j).params);
    if OkData(f).Lawful() && ArgsFit(TypedInputs(f.inputs), args) {
      FaithfulWhenSafe([Layer(d, h)], 0, fallback, j, Named(d.methods[j].params, args), w);
      PositionalAsByName([Layer(d, h)], 0, fallback, j, f, args, w);
    }
  }
}
