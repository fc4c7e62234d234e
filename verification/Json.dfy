/** JSON values, the parameter and result types that occur in RPC traits, and the
    `to_value` / `from_value` pair of serde for them. */
module Json {
  import opened Wrappers

  datatype Value =
    | Null
    | Bool(b: bool)
    | Num(n: int)
    | Str(s: string)
    | Arr(items: seq<Value>)
    | Obj(entries: map<string, Value>)

  datatype Width = W8 | W16 | W32 | W64 {
    function Max(): nat {
      match this
      case W8 => 0xFF
      case W16 => 0xFFFF
      case W32 => 0xFFFF_FFFF
      case W64 => 0xFFFF_FFFF_FFFF_FFFF
    }
  }

  datatype Ty = TUnit | TBool | TUInt(width: Width) | TString | TOption(of: Ty) | TVec(of: Ty) {

    /** `null` is a value of the type. */
    predicate Nullable() {
      TUnit? || TOption?
    }

    /** No `Option` of a type that already uses `null`: serde cannot tell `Some(None)` from `None`. */
    predicate Lawful() {
      match this
      case TOption(of) => !of.Nullable() && of.Lawful()
      case TVec(of) => of.Lawful()
      case _ => true
    }
  }

  /** Typed Rust values. */
  datatype Data =
    | DUnit
    | DBool(b: bool)
    | DUInt(n: nat)
    | DString(s: string)
    | DNone
    | DSome(d: Data)
    | DVec(items: seq<Data>)

  predicate HasType(d: Data, t: Ty)
    decreases t
  {
    match t
    case TUnit => d.DUnit?
    case TBool => d.DBool?
    case TUInt(w) => d.DUInt? && d.n <= w.Max()
    case TString => d.DString?
    case TOption(of) => d.DNone? || (d.DSome? && HasType(d.d, of))
    case TVec(of) => d.DVec? && forall i :: 0 <= i < |d.items| ==> HasType(d.items[i], of)
  }

  function ToValue(d: Data): Value {
    match d
    case DUnit => Null
    case DBool(b) => Bool(b)
    case DUInt(n) => Num(n)
    case DString(s) => Str(s)
    case DNone => Null
    case DSome(x) => ToValue(x)
    case DVec(items) => Arr(seq(|items|, i requires 0 <= i < |items| => ToValue(items[i])))
  }

  function FromValue(t: Ty, v: Value): Option<Data>
    decreases t
  {
    match t
    case TUnit => if v.Null? then Some(DUnit) else None
    case TBool => if v.Bool? then Some(DBool(v.b)) else None
    case TUInt(w) => if v.Num? && 0 <= v.n <= w.Max() then Some(DUInt(v.n)) else None
    case TString => if v.Str? then Some(DString(v.s)) else None
    case TOption(of) =>
      if v.Null? then Some(DNone)
      else
        var r := FromValue(of, v);
        if r.Some? then Some(DSome(r.value)) else None
    case TVec(of) =>
      if v.Arr? && forall i :: 0 <= i < |v.items| ==> FromValue(of, v.items[i]).Some? then
        Some(DVec(seq(|v.items|, i requires 0 <= i < |v.items| && FromValue(of, v.items[i]).Some? =>
          FromValue(of, v.items[i]).value)))
      else None
  }

  /** Whatever is accepted is well typed and is written back exactly as it was read. */
  lemma {:induction false} AcceptedIsExact(t: Ty, v: Value)
    requires FromValue(t, v).Some?
    ensures HasType(FromValue(t, v).value, t)
    ensures ToValue(FromValue(t, v).value) == v
    decreases t
  {
    match t
    case TOption(of) =>
      if !v.Null? { AcceptedIsExact(of, v); }
    case TVec(of) =>
      var d := FromValue(t, v).value;
      forall i | 0 <= i < |v.items|
        ensures HasType(d.items[i], of) && ToValue(d.items[i]) == v.items[i]
      {
        AcceptedIsExact(of, v.items[i]);
      }
      assert ToValue(d).items == v.items;
    case _ =>
  }

  /** A value of a type without `null` is never written as `null`. */
  lemma {:induction false} NotNull(t: Ty, d: Data)
    requires HasType(d, t) && !t.Nullable()
    ensures !ToValue(d).Null?
  {
    match t
    case _ =>
  }

  /** Every type accepts what it wrote, though perhaps as another value. */
  lemma {:induction false} WrittenIsAccepted(t: Ty, d: Data)
    requires HasType(d, t)
    ensures FromValue(t, ToValue(d)).Some?
    decreases t
  {
    match t
    case TOption(of) =>
      if d.DSome? { WrittenIsAccepted(of, d.d); }
    case TVec(of) =>
      var v := ToValue(d);
      forall i | 0 <= i < |d.items| ensures FromValue(of, v.items[i]).Some? {
        WrittenIsAccepted(of, d.items[i]);
      }
    case _ =>
  }

  lemma {:induction false} LawfulRoundTrip(t: Ty, d: Data)
    requires t.Lawful() && HasType(d, t)
    ensures FromValue(t, ToValue(d)) == Some(d)
    decreases t
  {
    match t
    case TOption(of) =>
      if d.DSome? {
        LawfulRoundTrip(of, d.d);
        NotNull(of, d.d);
      }
    case TVec(of) =>
      var v := ToValue(d);
      forall i | 0 <= i < |d.items| ensures FromValue(of, v.items[i]) == Some(d.items[i]) {
        LawfulRoundTrip(of, d.items[i]);
      }
      assert FromValue(t, v).value.items == d.items;
    case _ =>
  }

  function Sample(t: Ty): (d: Data)
    ensures HasType(d, t)
  {
    match t
    case TUnit => DUnit
    case TBool => DBool(false)
    case TUInt(_) => DUInt(0)
    case TString => DString("")
    case TOption(_) => DNone
    case TVec(_) => DVec([])
  }

  /** Every type but the unit type has a value besides `x`. */
  function Other(t: Ty, x: Data): (d: Data)
    requires t != TUnit
    ensures HasType(d, t) && d != x
  {
    match t
    case TBool => if x == DBool(true) then DBool(false) else DBool(true)
    case TUInt(_) => if x == DUInt(0) then DUInt(1) else DUInt(0)
    case TString => if x == DString("") then DString("a") else DString("")
    case TOption(of) => if x == DNone then DSome(Sample(of)) else DNone
    case TVec(of) => if x == DVec([]) then DVec([Sample(of)]) else DVec([])
  }

  /** Some value of `t` is written as something that `s` accepts. */
  predicate Overlap(s: Ty, t: Ty) {
    if s.TOption? then t.Nullable() || Overlap(s.of, t)
    else if t.TOption? then s == TUnit || Overlap(s, t.of)
    else (s.TUInt? && t.TUInt?) || (s.TVec? && t.TVec?) || s == t
  }

  /** A value of `t` that `s` accepts. */
  function Common(s: Ty, t: Ty): (d: Data)
    requires Overlap(s, t)
    ensures HasType(d, t) && FromValue(s, ToValue(d)).Some?
  {
    if s.TOption? then if t.Nullable() then Sample(t) else Common(s.of, t)
    else if t.TOption? then if s == TUnit then DNone else DSome(Common(s, t.of))
    else Sample(t)
  }

  lemma {:induction false} AcceptedOverlaps(s: Ty, t: Ty, d: Data)
    requires HasType(d, t) && FromValue(s, ToValue(d)).Some?
    ensures Overlap(s, t)
  {
    if s.TOption? {
      if !t.Nullable() {
        NotNull(t, d);
        AcceptedOverlaps(s.of, t, d);
      }
    } else if t.TOption? {
      if d.DSome? { AcceptedOverlaps(s, t.of, d.d); }
    }
  }

  /** The JSON that the simple types accept, and what it is read as. The widths are 8, 16, 32 and 64 bits. */
  lemma {:induction false} AcceptedJson(v: Value)
    ensures FromValue(TUnit, v) == (if v == Null then Some(DUnit) else None)
    ensures FromValue(TBool, v) == match v case Bool(b) => Some(DBool(b)) case _ => None
    ensures FromValue(TString, v) == match v case Str(s) => Some(DString(s)) case _ => None
    ensures FromValue(TUInt(W8), v) == if v.Num? && 0 <= v.n < 256 then Some(DUInt(v.n)) else None
    ensures FromValue(TUInt(W16), v) == if v.Num? && 0 <= v.n < 65536 then Some(DUInt(v.n)) else None
    ensures FromValue(TUInt(W32), v) == if v.Num? && 0 <= v.n < 4294967296 then Some(DUInt(v.n)) else None
    ensures FromValue(TUInt(W64), v) == if v.Num? && 0 <= v.n < 18446744073709551616 then Some(DUInt(v.n)) else None
  {}

  /** `null` or what the type accepts; an array of what the element type accepts, in its order. */
  lemma {:induction false} AcceptedCompounds(t: Ty, v: Value)
    ensures FromValue(TOption(t), v) ==
            if v == Null then Some(DNone)
            else match FromValue(t, v) case Some(d) => Some(DSome(d)) case None => None
    ensures FromValue(TVec(t), v).Some? <==>
            v.Arr? && forall i :: 0 <= i < |v.items| ==> FromValue(t, v.items[i]).Some?
    ensures FromValue(TVec(t), v).Some? ==>
      var d := FromValue(TVec(t), v).value;
      && d.DVec? && |d.items| == |v.items|
      && forall i :: 0 <= i < |v.items| ==> Some(d.items[i]) == FromValue(t, v.items[i])
  {}

  /** `Overlap` is exact, by recursion on the two types. */
  lemma {:induction false} OverlapExactly(s: Ty, t: Ty)
    ensures Overlap(s, t) <==> exists d :: HasType(d, t) && FromValue(s, ToValue(d)).Some?
  {
    if Overlap(s, t) {
      var d := Common(s, t);
      assert HasType(d, t) && FromValue(s, ToValue(d)).Some?;
    }
    if exists d :: HasType(d, t) && FromValue(s, ToValue(d)).Some? {
      var d :| HasType(d, t) && FromValue(s, ToValue(d)).Some?;
      AcceptedOverlaps(s, t, d);
    }
  }

  /** A value that an unlawful type loses. */
  function Lost(t: Ty): (d: Data)
    requires !t.Lawful()
    ensures HasType(d, t)
    ensures FromValue(t, ToValue(d)) != Some(d)
  {
    match t
    case TOption(of) => if of.Nullable() then DSome(Sample(of)) else DSome(Lost(of))
    case TVec(of) =>
      var bad := Lost(of);
      var d := DVec([bad]);
      assert ToValue(d).items[0] == ToValue(bad);
      assert FromValue(t, ToValue(d)).Some? ==> FromValue(t, ToValue(d)).value.items[0] != bad;
      d
  }

  /** A non-`null` value, for a lawful type other than the unit type. */
  function NonNull(t: Ty): (d: Data)
    requires t.Lawful() && t != TUnit
    ensures HasType(d, t) && !ToValue(d).Null?
  {
    if t.TOption? then NotNull(t.of, Sample(t.of)); DSome(Sample(t.of)) else Sample(t)
  }

  /** serde reads back every value of a type exactly when the type nests no `null` in an `Option`. */
  lemma {:induction false} CodecRoundTripsExactly(t: Ty)
    ensures (forall d :: HasType(d, t) ==> FromValue(t, ToValue(d)) == Some(d)) <==> t.Lawful()
  {
    if t.Lawful() {
      forall d | HasType(d, t) ensures FromValue(t, ToValue(d)) == Some(d) {
        LawfulRoundTrip(t, d);
      }
    } else {
      var d := Lost(t);
      assert HasType(d, t) && FromValue(t, ToValue(d)) != Some(d);
    }
  }
}
