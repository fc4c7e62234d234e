/** The name-mangling loops of the macro and the way the namespace is prefixed. */
module Names {
  import opened Wrappers

  /** ASCII upper-casing; every other character is left alone. */
  function Upper(c: char): char {
    if 'a' <= c <= 'z' then ((c as int) - 32) as char else c
  }

  /** snake_case to camelCase, from the state `capitalize` of the loop flag. */
  function Camel(s: string, capitalize: bool): string {
    if s == [] then []
    else if s[0] == '_' then Camel(s[1..], true)
    else [if capitalize then Upper(s[0]) else s[0]] + Camel(s[1..], false)
  }

  function SnakeToCamel(s: string): string {
    Camel(s, false)
  }

  /** The enum variant of a method name, from the state `capitalize` of the loop flag. */
  function Variant(s: string, capitalize: bool): string {
    if s == [] then []
    else if s[0] == '_' || s[0] == '-' then Variant(s[1..], true)
    else [if capitalize then Upper(s[0]) else s[0]] + Variant(s[1..], false)
  }

  function VariantName(s: string): string {
    Variant(s, true)
  }

  lemma {:induction false} CamelUnfolds(s: string, i: nat, capitalize: bool, done: string)
    requires i < |s|
    ensures done + Camel(s[i..], capitalize) ==
            if s[i] == '_' then done + Camel(s[i + 1..], true)
            else (done + [if capitalize then Upper(s[i]) else s[i]]) + Camel(s[i + 1..], false)
  {
    assert s[i..][0] == s[i] && s[i..][1..] == s[i + 1..];
  }

  method ComputeSnakeToCamel(s: string) returns (result: string)
    ensures result == SnakeToCamel(s)
    ensures forall i :: 0 <= i < |s| && s[i] != '_' ==>
      var p := Place(s, {'_'}, i);
      p < |result| &&
      if i > 0 && s[i - 1] == '_' && 'a' <= s[i] <= 'z'
      then result[p] as int == 'A' as int + (s[i] as int - 'a' as int) else result[p] == s[i]
  {
    result := "";
    var capitalizeNext := false;
    for i := 0 to |s|
      invariant result + Camel(s[i..], capitalizeNext) == SnakeToCamel(s)
    {
      var ch := s[i];
      CamelUnfolds(s, i, capitalizeNext, result);
      if ch == '_' {
        capitalizeNext := true;
      } else if capitalizeNext {
        result := result + [Upper(ch)];
        capitalizeNext := false;
      } else {
        result := result + [ch];
      }
    }
    forall i: nat | i < |s| && s[i] != '_' { CamelCaseLetters(s, i); }
  }

  lemma {:induction false} VariantUnfolds(s: string, i: nat, capitalize: bool, done: string)
    requires i < |s|
    ensures done + Variant(s[i..], capitalize) ==
            if s[i] == '_' || s[i] == '-' then done + Variant(s[i + 1..], true)
            else (done + [if capitalize then Upper(s[i]) else s[i]]) + Variant(s[i + 1..], false)
  {
    assert s[i..][0] == s[i] && s[i..][1..] == s[i + 1..];
  }

  method ComputeVariantName(s: string) returns (result: string)
    ensures result == VariantName(s)
    ensures forall i :: 0 <= i < |s| && s[i] != '_' && s[i] != '-' ==>
      var p := Place(s, {'_', '-'}, i);
      p < |result| &&
      if (i == 0 || s[i - 1] == '_' || s[i - 1] == '-') && 'a' <= s[i] <= 'z'
      then result[p] as int == 'A' as int + (s[i] as int - 'a' as int) else result[p] == s[i]
  {
    result := "";
    var capitalizeNext := true;
    for i := 0 to |s|
      invariant result + Variant(s[i..], capitalizeNext) == VariantName(s)
    {
      var ch := s[i];
      VariantUnfolds(s, i, capitalizeNext, result);
      if ch == '_' || ch == '-' {
        capitalizeNext := true;
      } else if capitalizeNext {
        result := result + [Upper(ch)];
        capitalizeNext := false;
      } else {
        result := result + [ch];
      }
    }
    forall i: nat | i < |s| && s[i] != '_' && s[i] != '-' { VariantLetters(s, i); }
  }

  /** Running one loop on the output of the other is running it with the disjunction of their flags. */
  lemma {:induction false} FlagSimulation(s: string, camelFlag: bool, variantFlag: bool)
    ensures Variant(Camel(s, camelFlag), variantFlag) == Variant(s, camelFlag || variantFlag)
  {
    if s == [] {
    } else if s[0] == '_' {
      FlagSimulation(s[1..], true, variantFlag);
    } else {
      var c := if camelFlag then Upper(s[0]) else s[0];
      var out := Camel(s, camelFlag);
      assert out[0] == c && out[1..] == Camel(s[1..], false);
      FlagSimulation(s[1..], false, c == '-');
    }
  }

  /** A function gets the same enum variant whether its wire name is derived or left in snake case. */
  lemma {:induction false} VariantIgnoresCamelCasing(s: string)
    ensures VariantName(SnakeToCamel(s)) == VariantName(s)
  {
    FlagSimulation(s, false, true);
  }

  /** Both outputs are free of the separators the loops consume. */
  lemma {:induction false} SeparatorsAreConsumed(s: string, capitalize: bool)
    ensures '_' !in Camel(s, capitalize)
    ensures '_' !in Variant(s, capitalize) && '-' !in Variant(s, capitalize)
  {
    if s != [] {
      SeparatorsAreConsumed(s[1..], true);
      SeparatorsAreConsumed(s[1..], false);
    }
  }

  /** The first letter as the flag wants it. */
  function Cased(s: string, capitalize: bool): string {
    if s == [] || !capitalize then s else [Upper(s[0])] + s[1..]
  }

  /** Without separators the loops change at most the first letter. */
  lemma {:induction false} WithoutSeparators(s: string, capitalize: bool)
    ensures '_' !in s ==> Camel(s, capitalize) == Cased(s, capitalize)
    ensures '_' !in s && '-' !in s ==> Variant(s, capitalize) == Cased(s, capitalize)
  {
    if s != [] {
      assert s == [s[0]] + s[1..];
      WithoutSeparators(s[1..], false);
    }
  }

  /** The names that a loop leaves alone are exactly the names it can produce, so mangling twice is
      mangling once: a wire name is a derived one iff it has no `_`, and a variant iff it has neither
      separator and begins with no lower-case letter. */
  lemma {:induction false} ManglingIsIdempotent(s: string)
    ensures SnakeToCamel(SnakeToCamel(s)) == SnakeToCamel(s)
    ensures VariantName(VariantName(s)) == VariantName(s)
    ensures SnakeToCamel(s) == s <==> '_' !in s
    ensures VariantName(s) == s <==> '_' !in s && '-' !in s && (s == [] || !('a' <= s[0] <= 'z'))
  {
    SeparatorsAreConsumed(s, false);
    SeparatorsAreConsumed(s, true);
    WithoutSeparators(s, false);
    WithoutSeparators(s, true);
    WithoutSeparators(SnakeToCamel(s), false);
    WithoutSeparators(VariantName(s), true);
    VariantStartsUpper(s);
  }

  lemma {:induction false} VariantStartsUpper(s: string)
    ensures VariantName(s) == [] || !('a' <= VariantName(s)[0] <= 'z')
  {
    if s != [] && (s[0] == '_' || s[0] == '-') { VariantStartsUpper(s[1..]); }
  }

  // ---- the letters of the outputs ----

  /** How many of the first `i` characters are not separators: where character `i` ends up. */
  function Place(s: string, separators: set<char>, i: nat): (p: nat)
    requires i <= |s|
    ensures p <= i
  {
    if i == 0 then 0 else Place(s, separators, i - 1) + if s[i - 1] in separators then 0 else 1
  }

  lemma {:induction false} PlaceShifts(s: string, separators: set<char>, i: nat)
    requires 0 < i <= |s|
    ensures Place(s, separators, i) == Place(s[1..], separators, i - 1) + if s[0] in separators then 0 else 1
  {
    if i > 1 {
      PlaceShifts(s, separators, i - 1);
      assert s[1..][i - 2] == s[i - 1];
    }
  }

  lemma {:induction false} CamelAt(s: string, capitalize: bool, i: nat)
    requires i < |s| && s[i] != '_'
    ensures var out, p := Camel(s, capitalize), Place(s, {'_'}, i);
      p < |out| &&
      if (if i == 0 then capitalize else s[i - 1] == '_') && 'a' <= s[i] <= 'z'
      then out[p] as int == 'A' as int + (s[i] as int - 'a' as int) else out[p] == s[i]
  {
    if i > 0 {
      PlaceShifts(s, {'_'}, i);
      CamelAt(s[1..], s[0] == '_', i - 1);
    }
  }

  lemma {:induction false} VariantAt(s: string, capitalize: bool, i: nat)
    requires i < |s| && s[i] !in {'_', '-'}
    ensures var out, p := Variant(s, capitalize), Place(s, {'_', '-'}, i);
      p < |out| &&
      if (if i == 0 then capitalize else s[i - 1] in {'_', '-'}) && 'a' <= s[i] <= 'z'
      then out[p] as int == 'A' as int + (s[i] as int - 'a' as int) else out[p] == s[i]
  {
    if i > 0 {
      PlaceShifts(s, {'_', '-'}, i);
      VariantAt(s[1..], s[0] in {'_', '-'}, i - 1);
    }
  }

  lemma {:induction false} OutputLengths(s: string, capitalize: bool)
    ensures |Camel(s, capitalize)| == Place(s, {'_'}, |s|)
    ensures |Variant(s, capitalize)| == Place(s, {'_', '-'}, |s|)
  {
    if s != [] {
      PlaceShifts(s, {'_'}, |s|);
      PlaceShifts(s, {'_', '-'}, |s|);
      OutputLengths(s[1..], true);
      OutputLengths(s[1..], false);
    }
  }

  /** camelCase, letter by letter: every character but `_` is kept in its order; a small letter right
      after a `_` becomes the capital letter, every other character stays as it is. */
  lemma {:induction false} CamelCaseLetters(s: string, i: nat)
    requires i < |s| && s[i] != '_'
    ensures |SnakeToCamel(s)| == Place(s, {'_'}, |s|)
    ensures var out, p := SnakeToCamel(s), Place(s, {'_'}, i);
      p < |out| &&
      if i > 0 && s[i - 1] == '_' && 'a' <= s[i] <= 'z'
      then out[p] as int == 'A' as int + (s[i] as int - 'a' as int) else out[p] == s[i]
  {
    OutputLengths(s, false);
    CamelAt(s, false, i);
  }

  /** The variant, letter by letter: every character but `_` and `-` is kept in its order; a small letter
      at the start or right after a separator becomes the capital letter. So no variant begins with a
      small letter. */
  lemma {:induction false} VariantLetters(s: string, i: nat)
    requires i < |s| && s[i] != '_' && s[i] != '-'
    ensures |VariantName(s)| == Place(s, {'_', '-'}, |s|)
    ensures VariantName(s) != [] && !('a' <= VariantName(s)[0] <= 'z')
    ensures var out, p := VariantName(s), Place(s, {'_', '-'}, i);
      p < |out| &&
      if (i == 0 || s[i - 1] == '_' || s[i - 1] == '-') && 'a' <= s[i] <= 'z'
      then out[p] as int == 'A' as int + (s[i] as int - 'a' as int) else out[p] == s[i]
  {
    OutputLengths(s, true);
    VariantAt(s, true, i);
    VariantStartsUpper(s);
  }

  /** The prefix put before every wire name of an API. */
  function Prefix(namespace: Option<string>, separator: Option<string>): string {
    match namespace
    case None => ""
    case Some(ns) => ns + (match separator case Some(sep) => sep case None => "_")
  }

  function RpcIdentifier(namespace: Option<string>, separator: Option<string>, name: string): string {
    match namespace
    case Some(ns) => ns + (match separator case Some(sep) => sep case None => "_") + name
    case None => name
  }

  lemma {:induction false} IdentifierIsPrefixed(namespace: Option<string>, separator: Option<string>, name: string)
    ensures RpcIdentifier(namespace, separator, name) == Prefix(namespace, separator) + name
  {
    assert "" + name == name;
  }

  lemma {:induction false} IdentifierIsInjective(
      namespace: Option<string>, separator: Option<string>, a: string, b: string)
    requires RpcIdentifier(namespace, separator, a) == RpcIdentifier(namespace, separator, b)
    ensures a == b
  {
    var p := Prefix(namespace, separator);
    IdentifierIsPrefixed(namespace, separator, a);
    IdentifierIsPrefixed(namespace, separator, b);
    assert a == (p + a)[|p|..] == (p + b)[|p|..] == b;
  }

  /** Two prefixes neither of which is a prefix of the other never yield the same wire name. */
  lemma {:induction false} IncomparablePrefixesSeparate(p: string, q: string, a: string, b: string)
    requires !(p <= q) && !(q <= p)
    ensures p + a != q + b
  {
    var k :| 0 <= k < |p| && k < |q| && p[k] != q[k];
    assert (p + a)[k] == p[k] && (q + b)[k] == q[k];
  }
}
