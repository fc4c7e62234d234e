/** The emitted encoder and decoder undo each other: exactly when, and for which inputs. */
module RoundTrip {
  import opened Wrappers
  import opened Json
  import opened Protocol
  import opened Api
  import opened Search
  import opened Target
  import opened Render
  import opened Decoder

  // ---- the encoder ----

  /** The parameters the encoder writes for fields of the declared types. */
  function EncodedParams(ep: Endpoint, fields: map<string, Data>): Option<Value>
    requires FieldsFit(ep.params, fields)
  {
    RunBuilder(RenderBuilder(ep.params, ep.kind), fields).value
  }

  lemma {:induction false} EncodeWellTyped(d: RpcDescription, j: nat, r: TypedRequest)
    requires DistinctNames(d) && j < EndpointCount(d) && WellTypedAt(d, j, r)
    ensures Encode(RenderIntoRequest(d), r) ==
            Some(Request(WireName(d, EndpointAt(d, j).name), EncodedParams(EndpointAt(d, j), r.fields), NumberId(0)))
  {
    var arms := RenderIntoRequest(d);
    var p := (arm: EncodeArm) => arm.variant == r.variant;
    forall i | 0 <= i < j ensures !p(arms[i]) {}
    assert p(arms[j]);
    assert First(arms, p) == j;
    LocalsAreFields(EndpointAt(d, j).params, r.fields);
  }

  /** The wire name of a request: the namespace, the separator and the name; without a separator of its
      own an API has `_`, and without a namespace it has no prefix at all. */
  lemma {:induction false} WireNameOfRequest(d: RpcDescription, j: nat, r: TypedRequest)
    requires DistinctNames(d) && j < EndpointCount(d) && WellTypedAt(d, j, r)
    ensures Encode(RenderIntoRequest(d), r).Some?
    ensures var q, name := Encode(RenderIntoRequest(d), r).value, EndpointAt(d, j).name;
      q.method_ == match d.namespace
                   case None => name
                   case Some(ns) => ns + (match d.separator case None => "_" case Some(sep) => sep) + name
  {
    EncodeWellTyped(d, j, r);
  }

  /** What the first `n` inserts leave in the map. */
  function EntriesUpTo(ps: seq<Param>, fields: map<string, Data>, n: nat): map<string, Value>
    requires n <= |ps| && FieldsFit(ps, fields)
  {
    if n == 0 then map[]
    else EntriesUpTo(ps, fields, n - 1)[ps[n - 1].Name() := ToValue(fields[ps[n - 1].ident])]
  }

  lemma {:induction false} InsertsMakeEntries(ps: seq<Param>, fields: map<string, Data>, n: nat)
    requires n <= |ps| && FieldsFit(ps, fields)
    ensures InsertsBound(ParamInserts(ps)[..n], fields)
    ensures InsertAll(ParamInserts(ps)[..n], fields) == EntriesUpTo(ps, fields, n)
  {
    if n > 0 {
      InsertsMakeEntries(ps, fields, n - 1);
      assert ParamInserts(ps)[..n][..n - 1] == ParamInserts(ps)[..n - 1];
    }
  }

  /** The last insert of a key wins: no later parameter has the key of `i`. */
  lemma {:induction false} LastInsertWins(ps: seq<Param>, fields: map<string, Data>, n: nat, i: nat)
    requires i < n <= |ps| && FieldsFit(ps, fields)
    ensures ps[i].Name() in EntriesUpTo(ps, fields, n)
    ensures (forall k :: i < k < n ==> ps[k].Name() != ps[i].Name()) ==>
      EntriesUpTo(ps, fields, n)[ps[i].Name()] == ToValue(fields[ps[i].ident])
  {
    if i < n - 1 { LastInsertWins(ps, fields, n - 1, i); }
  }

  /** No later parameter overwrites the one at `i`. */
  predicate Survives(ep: Endpoint, i: nat)
    requires i < |ep.params|
  {
    ep.kind.MapKind? ==> forall k :: i < k < |ep.params| ==> ep.params[k].Name() != ep.params[i].Name()
  }

  /** The encoded parameters have the right shape, and a parameter that survives is found again. */
  lemma {:induction false} EncodedShape(ep: Endpoint, fields: map<string, Data>)
    requires FieldsFit(ep.params, fields) && ep.params != []
    ensures var v := ParamsValue(EncodedParams(ep, fields));
            RightShape(ep, v) &&
            forall i :: 0 <= i < |ep.params| ==>
              Present(ep, v, i) && (Survives(ep, i) ==> ValueAt(ep, v, i) == ToValue(fields[ep.params[i].ident]))
  {
    var ps := ep.params;
    if ep.kind.MapKind? {
      InsertsMakeEntries(ps, fields, |ps|);
      assert ParamInserts(ps)[..|ps|] == ParamInserts(ps);
      forall i | 0 <= i < |ps| ensures ps[i].Name() in EntriesUpTo(ps, fields, |ps|) {
        LastInsertWins(ps, fields, |ps|, i);
      }
      forall i | 0 <= i < |ps| && Survives(ep, i)
        ensures EntriesUpTo(ps, fields, |ps|)[ps[i].Name()] == ToValue(fields[ps[i].ident])
      {
        LastInsertWins(ps, fields, |ps|, i);
      }
    } else {
      assert AllBound(ParamIdents(ps), fields);
    }
  }

  /** The last parameter with the key of `i`. */
  function LastWith(ep: Endpoint, i: nat): (k: nat)
    requires i < |ep.params| && ep.kind.MapKind?
    ensures i <= k < |ep.params| && ep.params[k].Name() == ep.params[i].Name() && Survives(ep, k)
  {
    LastWithBelow(ep, i, |ep.params|)
  }

  function LastWithBelow(ep: Endpoint, i: nat, n: nat): (k: nat)
    requires i < n <= |ep.params| && ep.kind.MapKind?
    ensures i <= k < n && ep.params[k].Name() == ep.params[i].Name()
    ensures forall m :: k < m < n ==> ep.params[m].Name() != ep.params[i].Name()
  {
    if ep.params[n - 1].Name() == ep.params[i].Name() then n - 1 else LastWithBelow(ep, i, n - 1)
  }

  lemma {:induction false} EntriesKeys(ps: seq<Param>, fields: map<string, Data>, n: nat, key: string)
    requires n <= |ps| && FieldsFit(ps, fields)
    ensures key in EntriesUpTo(ps, fields, n) <==> exists i :: 0 <= i < n && ps[i].Name() == key
  {
    if n > 0 { EntriesKeys(ps, fields, n - 1, key); }
  }

  /** Section 4.2 of the JSON-RPC 2.0 specification: no parameters, or the values in the order of the
      signature, or an object with one member per key, a key being the renaming if there is one. */
  lemma {:induction false} ParameterStructure(d: RpcDescription, j: nat, r: TypedRequest)
    requires DistinctNames(d) && j < EndpointCount(d) && WellTypedAt(d, j, r)
    ensures Encode(RenderIntoRequest(d), r).Some?
    ensures var q, ps := Encode(RenderIntoRequest(d), r).value, EndpointAt(d, j).params;
      && (ps == [] <==> q.params == None)
      && (ps != [] && EndpointAt(d, j).kind.ArrayKind? ==>
            q.params.value.Arr? && |q.params.value.items| == |ps| &&
            forall i :: 0 <= i < |ps| ==> q.params.value.items[i] == ToValue(r.fields[ps[i].ident]))
      && (ps != [] && EndpointAt(d, j).kind.MapKind? ==>
            q.params.value.Obj? &&
            forall key :: key in q.params.value.entries <==>
              exists i :: 0 <= i < |ps| &&
                (ps[i].renameTo == Some(key) || (ps[i].renameTo.None? && ps[i].ident == key)))
  {
    EncodeWellTyped(d, j, r);
    if EndpointAt(d, j).params != [] && EndpointAt(d, j).kind.MapKind? {
      MembersAreKeys(EndpointAt(d, j).params, r.fields);
    }
  }

  lemma {:induction false} MembersAreKeys(ps: seq<Param>, fields: map<string, Data>)
    requires FieldsFit(ps, fields)
    ensures InsertsBound(ParamInserts(ps), fields)
    ensures forall key :: key in InsertAll(ParamInserts(ps), fields) <==>
      exists i :: 0 <= i < |ps| && (ps[i].renameTo == Some(key) || (ps[i].renameTo.None? && ps[i].ident == key))
  {
    InsertsMakeEntries(ps, fields, |ps|);
    assert ParamInserts(ps)[..|ps|] == ParamInserts(ps);
    forall key
      ensures key in EntriesUpTo(ps, fields, |ps|) <==>
        exists i :: 0 <= i < |ps| && (ps[i].renameTo == Some(key) || (ps[i].renameTo.None? && ps[i].ident == key))
    {
      EntriesKeys(ps, fields, |ps|, key);
    }
  }

  // ---- sufficiency ----

  lemma {:induction false} OwnerOfPrimary(d: RpcDescription, j: nat)
    requires j < EndpointCount(d)
    ensures Owner(d, WireName(d, EndpointAt(d, j).name)) <= j
    ensures Owner(d, WireName(d, EndpointAt(d, j).name)) == j <==> UnshadowedAt(d, j)
  {
    var name := WireName(d, EndpointAt(d, j).name);
    assert name in NamesOf(d, j);
  }

  /** Safe keys and lawful types: what was encoded is extracted again. */
  lemma {:induction false} ExtractionInvertsEncoding(ep: Endpoint, fields: map<string, Data>)
    requires DistinctIdents(ep.params) && FieldsFit(ep.params, fields)
    requires KeysSafe(ep) && LawfulParams(ep)
    ensures Extraction(ep, EncodedParams(ep, fields)) == Accepted(TypedRequest(ep.VariantName(), fields))
  {
    var params := EncodedParams(ep, fields);
    if ep.params == [] {
      assert FieldsOf(ep, params) == fields;
    } else {
      var v := ParamsValue(params);
      EncodedShape(ep, fields);
      forall i | 0 <= i < |ep.params|
        ensures Good(ep, v, i) && DataAt(ep, v, i) == fields[ep.params[i].ident]
      {
        var x := fields[ep.params[i].ident];
        assert HasType(x, ep.params[i].ty);
        if Survives(ep, i) {
          LawfulRoundTrip(ep.params[i].ty, x);
        } else {
          var k := LastWith(ep, i);
          assert ValueAt(ep, v, k) == ToValue(fields[ep.params[k].ident]);
          assert HasType(fields[ep.params[k].ident], ep.params[k].ty);
        }
      }
      AcceptedFields(ep, params);
      SameFields(ep.params, FieldsOf(ep, params), fields);
    }
  }

  // ---- necessity ----

  function Samples(ps: seq<Param>): map<string, Data> {
    map x | x in Idents(ps) :: (var i := IndexOf(ps, x); if i < |ps| then Sample(ps[i].ty) else DUnit)
  }

  lemma {:induction false} SamplesFit(ps: seq<Param>)
    requires DistinctIdents(ps)
    ensures FieldsFit(ps, Samples(ps))
  {
    forall i | 0 <= i < |ps| ensures ps[i].ident in Samples(ps) && HasType(Samples(ps)[ps[i].ident], ps[i].ty) {
      IndexOfDistinct(ps, i);
    }
  }

  lemma {:induction false} ReplacedFits(ps: seq<Param>, fields: map<string, Data>, i: nat, x: Data)
    requires DistinctIdents(ps) && FieldsFit(ps, fields) && i < |ps| && HasType(x, ps[i].ty)
    ensures FieldsFit(ps, fields[ps[i].ident := x])
  {
    var fields' := fields[ps[i].ident := x];
    assert fields'.Keys == fields.Keys;
    forall k | 0 <= k < |ps| ensures ps[k].ident in fields' && HasType(fields'[ps[k].ident], ps[k].ty) {
      if k != i { assert ps[k].ident != ps[i].ident; }
    }
  }

  /** If extraction gives the fields back, each parameter was read from what the encoder wrote for it. */
  lemma {:induction false} GivenBack(ep: Endpoint, fields: map<string, Data>, i: nat)
    requires DistinctIdents(ep.params) && FieldsFit(ep.params, fields) && i < |ep.params|
    requires Extraction(ep, EncodedParams(ep, fields)) == Accepted(TypedRequest(ep.VariantName(), fields))
    ensures var v := ParamsValue(EncodedParams(ep, fields));
            Present(ep, v, i) && FromValue(ep.params[i].ty, ValueAt(ep, v, i)) == Some(fields[ep.params[i].ident])
  {
    var params := EncodedParams(ep, fields);
    assert Accepts(ep, params);
    AcceptedFields(ep, params);
    assert Good(ep, ParamsValue(params), i);
  }

  /** The fields make a request whose extraction is not the request. */
  predicate Loses(ep: Endpoint, fields: map<string, Data>) {
    FieldsFit(ep.params, fields) &&
    Extraction(ep, EncodedParams(ep, fields)) != Accepted(TypedRequest(ep.VariantName(), fields))
  }

  lemma {:induction false} UnlawfulLoses(ep: Endpoint, i: nat) returns (fields: map<string, Data>)
    requires DistinctIdents(ep.params) && i < |ep.params| && Survives(ep, i) && !ep.params[i].ty.Lawful()
    ensures Loses(ep, fields)
  {
    var x := Lost(ep.params[i].ty);
    SamplesFit(ep.params);
    ReplacedFits(ep.params, Samples(ep.params), i, x);
    fields := Samples(ep.params)[ep.params[i].ident := x];
    EncodedShape(ep, fields);
    if Extraction(ep, EncodedParams(ep, fields)) == Accepted(TypedRequest(ep.VariantName(), fields)) {
      GivenBack(ep, fields, i);
    }
  }

  /** Two parameters under one key, one of them informative: the value of the earlier one is lost. */
  lemma {:induction false} OverwrittenLoses(ep: Endpoint, i: nat, k: nat) returns (fields: map<string, Data>)
    requires DistinctIdents(ep.params) && ep.kind.MapKind? && i < k < |ep.params|
    requires ep.params[i].Name() == ep.params[k].Name() && Survives(ep, k)
    requires ep.params[i].ty != TUnit || ep.params[k].ty != TUnit
    ensures Loses(ep, fields)
  {
    var s, t := ep.params[i].ty, ep.params[k].ty;
    if s == TUnit && !t.Lawful() {
      fields := UnlawfulLoses(ep, k);
    } else {
      var y := if s == TUnit then NonNull(t) else Sample(t);
      var back := FromValue(s, ToValue(y));
      var x := if s == TUnit then DUnit else if back.Some? then Other(s, back.value) else Sample(s);
      SamplesFit(ep.params);
      ReplacedFits(ep.params, Samples(ep.params), i, x);
      var fields1 := Samples(ep.params)[ep.params[i].ident := x];
      ReplacedFits(ep.params, fields1, k, y);
      fields := fields1[ep.params[k].ident := y];
      assert ep.params[i].ident != ep.params[k].ident;
      EncodedShape(ep, fields);
      if Extraction(ep, EncodedParams(ep, fields)) == Accepted(TypedRequest(ep.VariantName(), fields)) {
        GivenBack(ep, fields, i);
      }
    }
  }

  lemma {:induction false} UnsafeLoses(ep: Endpoint) returns (fields: map<string, Data>)
    requires DistinctIdents(ep.params) && !(KeysSafe(ep) && LawfulParams(ep))
    ensures Loses(ep, fields)
  {
    if !KeysSafe(ep) {
      var i, j :| 0 <= i < j < |ep.params| && ep.params[i].Name() == ep.params[j].Name() &&
                  !(ep.params[i].ty == TUnit && ep.params[j].ty == TUnit);
      var k := LastWith(ep, j);
      if ep.params[i].ty != TUnit || ep.params[k].ty != TUnit {
        fields := OverwrittenLoses(ep, i, k);
      } else {
        fields := OverwrittenLoses(ep, j, k);
      }
    } else {
      var i :| 0 <= i < |ep.params| && !ep.params[i].ty.Lawful();
      assert ep.params[i].ty != TUnit;
      fields := UnlawfulLoses(ep, i);
    }
  }

  // ---- the characterisation ----

  predicate SafeAt(d: RpcDescription, j: nat)
    requires j < EndpointCount(d)
  {
    UnshadowedAt(d, j) && KeysSafe(EndpointAt(d, j)) && LawfulParams(EndpointAt(d, j))
  }

  /** `TryFrom(From(r)) == Ok(r)`. */
  predicate ComesBack(d: RpcDescription, r: TypedRequest) {
    var q := Encode(RenderIntoRequest(d), r);
    q.Some? && Decode(RenderTryFromRequest(d), q.value) == Accepted(r)
  }

  lemma {:induction false} ComesBackWhenSafe(d: RpcDescription, j: nat, r: TypedRequest)
    requires DistinctNames(d) && j < EndpointCount(d) && SafeAt(d, j) && WellTypedAt(d, j, r)
    ensures ComesBack(d, r)
  {
    EncodeWellTyped(d, j, r);
    DecodeMeetsSpec(d, Encode(RenderIntoRequest(d), r).value);
    OwnerOfPrimary(d, j);
    ExtractionInvertsEncoding(EndpointAt(d, j), r.fields);
  }

  /** Every request of one variant survives encoding and decoding iff its primary name is not claimed
      by an earlier arm, informative parameters do not share a key and no type nests `null`. */
  lemma {:induction false} RoundTripAt(d: RpcDescription, j: nat)
    requires DistinctNames(d) && j < EndpointCount(d)
    ensures (forall r :: WellTypedAt(d, j, r) ==> ComesBack(d, r)) <==> SafeAt(d, j)
  {
    var ep := EndpointAt(d, j);
    OwnerOfPrimary(d, j);
    if SafeAt(d, j) {
      forall r | WellTypedAt(d, j, r) ensures ComesBack(d, r) {
        ComesBackWhenSafe(d, j, r);
      }
    } else {
      var fields;
      if UnshadowedAt(d, j) {
        fields := UnsafeLoses(ep);
      } else {
        SamplesFit(ep.params);
        fields := Samples(ep.params);
      }
      var r := TypedRequest(ep.VariantName(), fields);
      EncodeWellTyped(d, j, r);
      DecodeMeetsSpec(d, Encode(RenderIntoRequest(d), r).value);
      assert WellTypedAt(d, j, r) && !ComesBack(d, r);
    }
  }

  predicate WellTyped(d: RpcDescription, r: TypedRequest) {
    exists j :: 0 <= j < EndpointCount(d) && WellTypedAt(d, j, r)
  }

  /** The characterisation for a whole API. */
  lemma {:induction false} RoundTripExactly(d: RpcDescription)
    requires DistinctNames(d)
    ensures (forall r :: WellTyped(d, r) ==> ComesBack(d, r)) <==>
            (forall j :: 0 <= j < EndpointCount(d) ==> SafeAt(d, j))
  {
    if forall r :: WellTyped(d, r) ==> ComesBack(d, r) {
      forall j | 0 <= j < EndpointCount(d) ensures SafeAt(d, j) {
        forall r | WellTypedAt(d, j, r) ensures ComesBack(d, r) {
          assert WellTyped(d, r);
        }
        RoundTripAt(d, j);
      }
    }
    if forall j :: 0 <= j < EndpointCount(d) ==> SafeAt(d, j) {
      forall r | WellTyped(d, r) ensures ComesBack(d, r) {
        var j :| 0 <= j < EndpointCount(d) && WellTypedAt(d, j, r);
        ComesBackWhenSafe(d, j, r);
      }
    }
  }

  // ---- normalisation ----

  /** Writing extracted fields again writes what was read, key by key, even when keys are shared. */
  lemma {:induction false} ReencodingIsRead(ep: Endpoint, params: Option<Value>)
    requires DistinctIdents(ep.params) && Accepts(ep, params)
    ensures FieldsFit(ep.params, FieldsOf(ep, params))
    ensures Extraction(ep, EncodedParams(ep, FieldsOf(ep, params))) == Extraction(ep, params)
  {
    AcceptedFields(ep, params);
    if ep.params != [] {
      var fields := FieldsOf(ep, params);
      EncodedShape(ep, fields);
      forall i | 0 <= i < |ep.params| { ReadAgain(ep, params, i); }
      AcceptedFields(ep, EncodedParams(ep, fields));
      SameFields(ep.params, FieldsOf(ep, EncodedParams(ep, fields)), fields);
    }
  }

  lemma {:induction false} ReadAgain(ep: Endpoint, params: Option<Value>, i: nat)
    requires DistinctIdents(ep.params) && Accepts(ep, params) && i < |ep.params|
    requires FieldsFit(ep.params, FieldsOf(ep, params))
    ensures var v, w := ParamsValue(params), ParamsValue(EncodedParams(ep, FieldsOf(ep, params)));
      Good(ep, v, i) && Good(ep, w, i) && DataAt(ep, w, i) == DataAt(ep, v, i)
  {
    var k := if ep.kind.MapKind? then LastWith(ep, i) else i;
    assert Good(ep, ParamsValue(params), i);
    WrittenAgain(ep, params, k);
    SameKeySameData(ep, ParamsValue(params), ParamsValue(EncodedParams(ep, FieldsOf(ep, params))), i, k);
  }

  lemma {:induction false} SameKeySameData(ep: Endpoint, v: Value, w: Value, i: nat, k: nat)
    requires i < |ep.params| && k < |ep.params| && Good(ep, v, i)
    requires if ep.kind.MapKind? then ep.params[k].Name() == ep.params[i].Name() else k == i
    requires Present(ep, v, k) && Present(ep, w, k) && ValueAt(ep, w, k) == ValueAt(ep, v, k)
    ensures Good(ep, w, i) && DataAt(ep, w, i) == DataAt(ep, v, i)
  {
    assert Present(ep, w, i) && ValueAt(ep, w, i) == ValueAt(ep, v, i);
  }

  /** A parameter that survives is written as the value it was read from. */
  lemma {:induction false} WrittenAgain(ep: Endpoint, params: Option<Value>, k: nat)
    requires DistinctIdents(ep.params) && Accepts(ep, params) && k < |ep.params| && Survives(ep, k)
    requires FieldsFit(ep.params, FieldsOf(ep, params))
    ensures var v, w := ParamsValue(params), ParamsValue(EncodedParams(ep, FieldsOf(ep, params)));
      Present(ep, v, k) && Present(ep, w, k) && ValueAt(ep, w, k) == ValueAt(ep, v, k)
  {
    var v := ParamsValue(params);
    assert Good(ep, v, k);
    AcceptedIsExact(ep.params[k].ty, ValueAt(ep, v, k));
    assert FieldsOf(ep, params)[ep.params[k].ident] == DataAt(ep, v, k) by { AcceptedFields(ep, params); }
    EncodedShape(ep, FieldsOf(ep, params));
  }

  /** `decode(encode(decode(q))) == decode(q)` for an accepted `q` exactly when the arm that accepted is
      unshadowed: aliases, ids, extra keys and their order are erased. Shared keys and nested `null`
      do no harm here, because only values that were read are written. */
  lemma {:induction false} Normalisation(d: RpcDescription, q: Request)
    requires DistinctNames(d)
    requires Decode(RenderTryFromRequest(d), q).Accepted?
    ensures var j := Owner(d, q.method_);
            j < EndpointCount(d) &&
            (ComesBack(d, Decode(RenderTryFromRequest(d), q).req) <==> UnshadowedAt(d, j))
  {
    DecodeMeetsSpec(d, q);
    var j := Owner(d, q.method_);
    var ep := EndpointAt(d, j);
    var r := Decode(RenderTryFromRequest(d), q).req;
    ReencodingIsRead(ep, q.params);
    EncodeWellTyped(d, j, r);
    DecodeMeetsSpec(d, Encode(RenderIntoRequest(d), r).value);
    OwnerOfPrimary(d, j);
  }
}
