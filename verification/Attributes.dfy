/** The parser of attribute argument lists and the slot filling that follows it. */
module Attributes {
  import opened Wrappers
  import opened Search

  /** Token trees. `Ident` is an identifier that is no keyword; a delimited group is one token tree. */
  datatype Token =
    | Ident(name: string)
    | Comma
    | Lt
    | Gt
    | Equals
    | Lit(text: string)
    | Brackets(content: seq<Token>)
    | Parens(content: seq<Token>)
    | Other(text: string)

  datatype Argument = Argument(name: string, tokens: seq<Token>)

  /** `BadStart(p)`: an argument was expected at token `p`, and no identifier is there. */
  datatype ParseResult = Parsed(args: seq<Argument>) | BadStart(pos: nat)

  // ---- specification of the parser ----

  /** The saturating angle-bracket counter. */
  function Nest(scope: nat, t: Token): nat {
    match t
    case Lt => scope + 1
    case Gt => if scope > 0 then scope - 1 else 0
    case _ => scope
  }

  /** Where the argument that reaches position `i` with counter `scope` ends. */
  function ScanEnd(ts: seq<Token>, i: nat, scope: nat): (n: nat)
    requires i <= |ts|
    ensures i <= n <= |ts|
    ensures n < |ts| ==> ts[n] == Comma
    decreases |ts| - i
  {
    if i == |ts| || (scope == 0 && ts[i] == Comma) then i
    else ScanEnd(ts, i + 1, Nest(scope, ts[i]))
  }

  /** The arguments from position `i` on. */
  function ParseFrom(ts: seq<Token>, i: nat): ParseResult
    requires i <= |ts|
    decreases |ts| - i
  {
    if i == |ts| then Parsed([])
    else if !ts[i].Ident? then BadStart(i)
    else
      var n := ScanEnd(ts, i + 1, 0);
      var arg := Argument(ts[i].name, ts[i + 1..n]);
      if n == |ts| then Parsed([arg]) else Prepend([arg], ParseFrom(ts, n + 1))
  }

  function ParseList(ts: seq<Token>): ParseResult {
    ParseFrom(ts, 0)
  }

  function Prepend(args: seq<Argument>, r: ParseResult): ParseResult {
    match r
    case Parsed(more) => Parsed(args + more)
    case BadStart(p) => r
  }

  lemma {:induction false} PrependTwice(args: seq<Argument>, a: Argument, r: ParseResult)
    ensures Prepend(args, Prepend([a], r)) == Prepend(args + [a], r)
  {
    if r.Parsed? { assert args + ([a] + r.args) == args + [a] + r.args; }
  }

  // ---- the parser ----

  class ParseStream {
    const tokens: seq<Token>
    var pos: nat

    constructor (tokens: seq<Token>)
      ensures this.tokens == tokens && pos == 0
    {
      this.tokens := tokens;
      pos := 0;
    }

    /** One argument: a name and everything up to a comma outside angle brackets. */
    method ParseArgument() returns (r: Option<Argument>)
      requires pos <= |tokens|
      modifies this
      ensures pos <= |tokens|
      ensures old(pos) == |tokens| || !tokens[old(pos)].Ident? ==> r == None && pos == old(pos)
      ensures old(pos) < |tokens| && tokens[old(pos)].Ident? ==>
        pos == ScanEnd(tokens, old(pos) + 1, 0) &&
        r == Some(Argument(tokens[old(pos)].name, tokens[old(pos) + 1..pos]))
    {
      if pos == |tokens| || !tokens[pos].Ident? {
        return None;
      }
      var name := tokens[pos].name;
      pos := pos + 1;
      ghost var start := pos;
      var scope: nat := 0;
      var taken: seq<Token> := [];
      while pos < |tokens| && !(scope == 0 && tokens[pos] == Comma)
        invariant start <= pos <= |tokens|
        invariant taken == tokens[start..pos]
        invariant ScanEnd(tokens, pos, scope) == ScanEnd(tokens, start, 0)
        decreases |tokens| - pos
      {
        var t := tokens[pos];
        if t == Lt {
          scope := scope + 1;
        } else if t == Gt {
          scope := if scope > 0 then scope - 1 else 0;
        }
        taken := taken + [t];
        pos := pos + 1;
      }
      r := Some(Argument(name, taken));
    }

    /** `input.parse_terminated(Argument::parse, Token![,])`. */
    method ParseTerminated() returns (r: ParseResult)
      requires pos == 0
      modifies this
      ensures r == ParseList(tokens)
    {
      var args: seq<Argument> := [];
      while pos < |tokens|
        invariant pos <= |tokens|
        invariant ParseList(tokens) == Prepend(args, ParseFrom(tokens, pos))
        decreases |tokens| - pos
      {
        var arg := ParseArgument();
        match arg
        case None => return BadStart(pos);
        case Some(a) =>
          if pos == |tokens| {
            return Parsed(args + [a]);
          }
          PrependTwice(args, a, ParseFrom(tokens, pos + 1));
          args := args + [a];
          pos := pos + 1;
      }
      return Parsed(args);
    }
  }

  // ---- the counter in closed form ----

  /** The counter after the tokens `p`. */
  function Depth(p: seq<Token>): nat {
    if p == [] then 0 else Nest(Depth(p[..|p| - 1]), p[|p| - 1])
  }

  /** Opening minus closing angle brackets. */
  function Balance(p: seq<Token>): int {
    if p == [] then 0
    else Balance(p[..|p| - 1]) + (if p[|p| - 1] == Lt then 1 else if p[|p| - 1] == Gt then -1 else 0)
  }

  /** The counter is the balance above its lowest point: `k` is where the balance is least. */
  lemma {:induction false} DepthIsBalanceAboveMinimum(p: seq<Token>) returns (k: nat)
    ensures k <= |p|
    ensures Depth(p) == Balance(p) - Balance(p[..k])
    ensures forall i :: 0 <= i <= |p| ==> Balance(p[..k]) <= Balance(p[..i])
  {
    assert p[..|p|] == p;
    if p == [] {
      k := 0;
    } else {
      var q := p[..|p| - 1];
      k := DepthIsBalanceAboveMinimum(q);
      assert forall i :: 0 <= i < |p| ==> p[..i] == q[..i];
      if Depth(q) == 0 && p[|p| - 1] == Gt {
        k := |p|;
        assert Balance(q) <= Balance(q[..|q|]) && q[..|q|] == q;
      }
    }
  }

  /** The scan of the tokens after `start` stops at the first comma at depth 0, that is, where the
      balance since `start` is the least so far. */
  lemma {:induction false} ScanStopsAtDepthZero(ts: seq<Token>, start: nat)
    requires start <= |ts|
    ensures var n := ScanEnd(ts, start, 0);
            (forall k :: start <= k < n && ts[k] == Comma ==> Depth(ts[start..k]) > 0) &&
            (n < |ts| ==> Depth(ts[start..n]) == 0)
  {
    ScanFrom(ts, start, start);
  }

  lemma {:induction false} ScanFrom(ts: seq<Token>, start: nat, i: nat)
    requires start <= i <= |ts|
    ensures var n := ScanEnd(ts, i, Depth(ts[start..i]));
            (forall k :: i <= k < n && ts[k] == Comma ==> Depth(ts[start..k]) > 0) &&
            (n < |ts| ==> Depth(ts[start..n]) == 0)
    decreases |ts| - i
  {
    if i < |ts| && !(Depth(ts[start..i]) == 0 && ts[i] == Comma) {
      assert ts[start..i + 1][..i - start] == ts[start..i];
      ScanFrom(ts, start, i + 1);
    }
  }

  // ---- printing ----

  function Print(args: seq<Argument>): seq<Token> {
    if args == [] then []
    else
      [Ident(args[0].name)] + args[0].tokens +
      (if |args| == 1 then [] else [Comma] + Print(args[1..]))
  }

  /** No comma of the tokens is outside angle brackets. */
  predicate Whole(tokens: seq<Token>) {
    forall i :: 0 <= i < |tokens| && tokens[i] == Comma ==> Depth(tokens[..i]) > 0
  }

  lemma {:induction false} ScanOfPrinted(ts: seq<Token>, i: nat, tokens: seq<Token>)
    requires i + |tokens| <= |ts| && ts[i..i + |tokens|] == tokens
    requires i + |tokens| == |ts| || ts[i + |tokens|] == Comma
    ensures ScanEnd(ts, i, 0) == i + |tokens| <==>
            Whole(tokens) && (i + |tokens| == |ts| || Depth(tokens) == 0)
  {
    ScanStopsAtDepthZero(ts, i);
    var n, m := ScanEnd(ts, i, 0), i + |tokens|;
    forall k | 0 <= k <= |tokens| ensures ts[i..i + k] == tokens[..k] && (k < |tokens| ==> tokens[k] == ts[i + k]) {}
    assert tokens[..|tokens|] == tokens;
    if n == m {
      forall k | 0 <= k < |tokens| && tokens[k] == Comma ensures Depth(tokens[..k]) > 0 {
        assert ts[i + k] == Comma;
      }
    } else if n < m {
      assert tokens[n - i] == Comma && Depth(tokens[..n - i]) == 0;
    } else {
      assert Depth(ts[i..m]) > 0;
    }
  }

  /** Every argument survives being printed: none splits, and none but the last leaves a bracket open. */
  predicate Printable(args: seq<Argument>) {
    forall i :: 0 <= i < |args| ==> Whole(args[i].tokens) && (i < |args| - 1 ==> Depth(args[i].tokens) == 0)
  }

  /** Parsing undoes printing exactly for printable lists. */
  lemma {:induction false} ParseUndoesPrint(args: seq<Argument>)
    ensures ParseList(Print(args)) == Parsed(args) <==> Printable(args)
  {
    ParseUndoesPrintAt(Print(args), 0, args);
  }

  lemma {:induction false} ParseUndoesPrintAt(ts: seq<Token>, i: nat, args: seq<Argument>)
    requires i <= |ts| && ts[i..] == Print(args)
    ensures ParseFrom(ts, i) == Parsed(args) <==> Printable(args)
    decreases |args|
  {
    if args != [] {
      var m := i + 1 + |args[0].tokens|;
      PrintedParts(ts, i, args);
      ScanOfPrinted(ts, i + 1, args[0].tokens);
      PrintableTail(args);
      var n := ScanEnd(ts, i + 1, 0);
      if n != m {
        FirstParsed(ts, i, args);
      } else if |args| > 1 {
        ParseUndoesPrintAt(ts, m + 1, args[1..]);
        PrependParsed(args, ParseFrom(ts, m + 1));
      } else {
        assert [args[0]] == args;
      }
    }
  }

  lemma {:induction false} PrintedParts(ts: seq<Token>, i: nat, args: seq<Argument>)
    requires i <= |ts| && ts[i..] == Print(args) && args != []
    ensures var m := i + 1 + |args[0].tokens|;
      m <= |ts| && ts[i] == Ident(args[0].name) && ts[i + 1..m] == args[0].tokens &&
      (if |args| == 1 then m == |ts| else m < |ts| && ts[m] == Comma && ts[m + 1..] == Print(args[1..]))
  {
    var p := Print(args);
    var k := 1 + |args[0].tokens|;
    assert forall x :: 0 <= x < |p| ==> p[x] == ts[i + x];
    assert p[1..k] == args[0].tokens;
    assert ts[i + 1..i + k] == p[1..k];
    if |args| > 1 {
      assert p[k + 1..] == Print(args[1..]);
      assert ts[i + k + 1..] == p[k + 1..];
    }
  }

  lemma {:induction false} PrependParsed(args: seq<Argument>, r: ParseResult)
    requires args != []
    ensures Prepend([args[0]], r) == Parsed(args) <==> r == Parsed(args[1..])
  {
    assert [args[0]] + args[1..] == args;
    if r.Parsed? && [args[0]] + r.args == args { assert r.args == ([args[0]] + r.args)[1..]; }
  }

  /** The first argument has the tokens that were scanned, so it is not one of another length. */
  lemma {:induction false} FirstParsed(ts: seq<Token>, i: nat, args: seq<Argument>)
    requires i < |ts| && ts[i].Ident? && args != []
    requires ScanEnd(ts, i + 1, 0) != i + 1 + |args[0].tokens|
    ensures ParseFrom(ts, i) != Parsed(args)
  {
    var n := ScanEnd(ts, i + 1, 0);
    if ParseFrom(ts, i).Parsed? {
      assert ParseFrom(ts, i).args[0].tokens == ts[i + 1..n];
    }
  }

  lemma {:induction false} PrintableTail(args: seq<Argument>)
    requires args != []
    ensures Printable(args) <==>
            Whole(args[0].tokens) && (|args| > 1 ==> Depth(args[0].tokens) == 0) && Printable(args[1..])
  {
    assert forall i :: 0 <= i < |args| - 1 ==> args[1..][i] == args[i + 1];
    if Whole(args[0].tokens) && (|args| > 1 ==> Depth(args[0].tokens) == 0) && Printable(args[1..]) {
      forall i | 0 <= i < |args|
        ensures Whole(args[i].tokens) && (i < |args| - 1 ==> Depth(args[i].tokens) == 0)
      {
        if i > 0 { assert args[i] == args[1..][i - 1]; }
      }
    }
  }

  /** The tokens are the printout of the arguments, up to a trailing comma. */
  predicate PrintoutOf(tokens: seq<Token>, args: seq<Argument>) {
    tokens == Print(args) || (args != [] && tokens == Print(args) + [Comma])
  }

  /** Nothing is lost: an accepted stream is the printout of its arguments. */
  lemma {:induction false} PrintRestoresParsed(ts: seq<Token>)
    requires ParseList(ts).Parsed?
    ensures PrintoutOf(ts, ParseList(ts).args)
  {
    assert ts[0..] == ts;
    PrintRestoresFrom(ts, 0);
  }

  lemma {:induction false} PrintRestoresFrom(ts: seq<Token>, i: nat)
    requires i <= |ts| && ParseFrom(ts, i).Parsed?
    ensures PrintoutOf(ts[i..], ParseFrom(ts, i).args)
    decreases |ts| - i
  {
    if i < |ts| {
      var n := ScanEnd(ts, i + 1, 0);
      SplitAt(ts, i, n);
      if n < |ts| {
        PrintRestoresFrom(ts, n + 1);
        PrintoutGrows(Argument(ts[i].name, ts[i + 1..n]), ts[n + 1..], ParseFrom(ts, n + 1).args);
      }
    }
  }

  lemma {:induction false} SplitAt(ts: seq<Token>, i: nat, n: nat)
    requires i < n <= |ts| && ts[i].Ident?
    ensures ts[i..] == [Ident(ts[i].name)] + ts[i + 1..n] + ts[n..]
    ensures n == |ts| ==> ts[i..] == [Ident(ts[i].name)] + ts[i + 1..n]
    ensures n < |ts| && ts[n] == Comma ==> ts[i..] == [Ident(ts[i].name)] + ts[i + 1..n] + [Comma] + ts[n + 1..]
  {}

  lemma {:induction false} PrintoutGrows(a: Argument, rest: seq<Token>, more: seq<Argument>)
    requires PrintoutOf(rest, more)
    ensures PrintoutOf([Ident(a.name)] + a.tokens + [Comma] + rest, [a] + more)
  {
    assert ([a] + more)[1..] == more;
    var front := [Ident(a.name)] + a.tokens;
    if more == [] {
      assert front + [Comma] + rest == Print([a] + more) + [Comma];
    } else {
      assert Print([a] + more) == front + ([Comma] + Print(more));
      if rest == Print(more) {
        assert front + [Comma] + rest == front + ([Comma] + Print(more));
      } else {
        assert front + [Comma] + rest == front + ([Comma] + Print(more)) + [Comma];
      }
    }
  }

  /** Parsing fails only where an argument should begin and no identifier is there: at the start, or
      after a comma that ends a list that parses. */
  lemma {:induction false} FailureIsABadStart(ts: seq<Token>)
    requires ParseList(ts).BadStart?
    ensures var p := ParseList(ts).pos;
      p < |ts| && !ts[p].Ident? &&
      (p > 0 ==> ts[p - 1] == Comma && ParseList(ts[..p]).Parsed? && ParseList(ts[..p]).args != [])
  {
    FailureFrom(ts, 0, ParseList(ts).pos);
  }

  lemma {:induction false} FailureFrom(ts: seq<Token>, i: nat, p: nat)
    requires i <= |ts| && ParseFrom(ts, i) == BadStart(p)
    ensures i <= p < |ts| && !ts[p].Ident?
    ensures p > i ==> ts[p - 1] == Comma && ParseFrom(ts[..p], i).Parsed? && ParseFrom(ts[..p], i).args != []
    decreases |ts| - i
  {
    if ts[i].Ident? {
      var n := ScanEnd(ts, i + 1, 0);
      assert ParseFrom(ts, n + 1) == BadStart(p);
      FailureFrom(ts, n + 1, p);
      ParsePrefix(ts, i, p);
      assert ParseFrom(ts[..p], n + 1).Parsed?;
    }
  }

  /** Cutting the stream behind the comma of an argument leaves the argument as it is. */
  lemma {:induction false} ParsePrefix(ts: seq<Token>, i: nat, p: nat)
    requires i < p <= |ts| && ts[i].Ident? && ScanEnd(ts, i + 1, 0) < p
    ensures var n := ScanEnd(ts, i + 1, 0);
            ParseFrom(ts[..p], i) == Prepend([Argument(ts[i].name, ts[i + 1..n])], ParseFrom(ts[..p], n + 1))
  {
    var n := ScanEnd(ts, i + 1, 0);
    ScanPrefix(ts, p, i + 1, 0);
    assert ts[..p][i + 1..n] == ts[i + 1..n];
  }

  /** A scan that stops inside a prefix stops there as well when only the prefix is given. */
  lemma {:induction false} ScanPrefix(ts: seq<Token>, m: nat, i: nat, scope: nat)
    requires i <= m <= |ts| && ScanEnd(ts, i, scope) < m
    ensures ScanEnd(ts[..m], i, scope) == ScanEnd(ts, i, scope)
    decreases |ts| - i
  {
    if !(scope == 0 && ts[i] == Comma) { ScanPrefix(ts, m, i + 1, Nest(scope, ts[i])); }
  }

  // ---- retain ----

  datatype Slot = Filled(arg: Argument) | Missing(name: string)

  datatype RetainError = UnknownArgument(name: string) | DuplicateArgument(name: string)

  function Position(allowed: seq<string>, name: string): nat {
    First(allowed, (probe: string) => probe == name)
  }

  /** The argument may not stand here: its label is not allowed, or an earlier argument has it. */
  predicate Offends(args: seq<Argument>, allowed: seq<string>, i: nat)
    requires i < |args|
  {
    args[i].name !in allowed || exists k :: 0 <= k < i && args[k].name == args[i].name
  }

  function Offence(args: seq<Argument>, allowed: seq<string>, i: nat): RetainError
    requires i < |args|
  {
    if args[i].name in allowed then DuplicateArgument(args[i].name) else UnknownArgument(args[i].name)
  }

  /** The argument for the name at `i`, which must be the first place of that name. */
  function SlotFor(args: seq<Argument>, allowed: seq<string>, i: nat): Slot
    requires i < |allowed|
  {
    var k := First(args, (a: Argument) => a.name == allowed[i]);
    if Position(allowed, allowed[i]) == i && k < |args| then Filled(args[k]) else Missing(allowed[i])
  }

  function SlotsFor(args: seq<Argument>, allowed: seq<string>): seq<Slot> {
    seq(|allowed|, i requires 0 <= i < |allowed| => SlotFor(args, allowed, i))
  }

  /** One slot per name if no argument offends; otherwise the offence of the earliest one that does. */
  ghost predicate IsRetained(args: seq<Argument>, allowed: seq<string>, r: Result<seq<Slot>, RetainError>) {
    match r
    case Ok(slots) => (forall i :: 0 <= i < |args| ==> !Offends(args, allowed, i)) && slots == SlotsFor(args, allowed)
    case Err(e) => exists i :: 0 <= i < |args| && Offends(args, allowed, i) &&
                     e == (if args[i].name !in allowed then UnknownArgument(args[i].name)
                           else DuplicateArgument(args[i].name)) &&
                     forall k :: 0 <= k < i ==> !Offends(args, allowed, k)
  }

  function FirstOffender(args: seq<Argument>, allowed: seq<string>, from: nat): (i: nat)
    requires from <= |args| && forall k :: 0 <= k < from ==> !Offends(args, allowed, k)
    ensures i <= |args| && forall k :: 0 <= k < i ==> !Offends(args, allowed, k)
    ensures i < |args| ==> Offends(args, allowed, i)
    decreases |args| - from
  {
    if from == |args| || Offends(args, allowed, from) then from else FirstOffender(args, allowed, from + 1)
  }

  function Retained(args: seq<Argument>, allowed: seq<string>): (r: Result<seq<Slot>, RetainError>)
    ensures IsRetained(args, allowed, r)
  {
    var i := FirstOffender(args, allowed, 0);
    if i < |args| then Err(Offence(args, allowed, i)) else Ok(SlotsFor(args, allowed))
  }

  lemma {:induction false} FirstAfterAppend<T>(xs: seq<T>, x: T, p: T -> bool)
    ensures First(xs + [x], p) == if First(xs, p) < |xs| || p(x) then First(xs, p) else |xs| + 1
  {
    var k := First(xs + [x], p);
    assert forall i :: 0 <= i < |xs| ==> (xs + [x])[i] == xs[i];
    if k < |xs| { assert p((xs + [x])[k]); }
    if First(xs, p) < |xs| { assert p((xs + [x])[First(xs, p)]); }
    if p(x) { assert p((xs + [x])[|xs|]); }
    if k == |xs| { assert p((xs + [x])[|xs|]); }
  }

  /** Placing one more argument changes the one slot of its label. */
  lemma {:induction false} PlaceOne(args: seq<Argument>, n: nat, allowed: seq<string>, idx: nat)
    requires n < |args| && !Offends(args, allowed, n) && idx == Position(allowed, args[n].name) < |allowed|
    ensures SlotsFor(args[..n], allowed)[idx].Missing?
    ensures SlotsFor(args[..n + 1], allowed) == SlotsFor(args[..n], allowed)[idx := Filled(args[n])]
  {
    assert args[..n + 1] == args[..n] + [args[n]];
    assert allowed[idx] == args[n].name;
    forall i | 0 <= i < |allowed|
      ensures SlotFor(args[..n + 1], allowed, i) ==
              if i == idx then Filled(args[n]) else SlotFor(args[..n], allowed, i)
    {
      var p := (a: Argument) => a.name == allowed[i];
      FirstAfterAppend(args[..n], args[n], p);
      if i == idx {
        var k := First(args[..n], p);
        forall m | 0 <= m < n ensures !p(args[..n][m]) {
          assert args[m].name != args[n].name;
        }
        assert k == n;
      }
    }
  }

  /** Fills one slot per allowed name in place; the first argument that offends stops it. */
  method Retain(args: seq<Argument>, allowed: seq<string>) returns (r: Result<array<Slot>, RetainError>)
    requires allowed != []
    ensures r.Ok? ==> fresh(r.value) && Retained(args, allowed) == Ok(r.value[..])
    ensures r.Err? ==> Retained(args, allowed) == Err(r.error)
  {
    var result := new Slot[|allowed|](i requires 0 <= i < |allowed| => Missing(allowed[i]));
    assert result[..] == SlotsFor([], allowed);
    for n := 0 to |args|
      invariant forall k :: 0 <= k < n ==> !Offends(args, allowed, k)
      invariant result[..] == SlotsFor(args[..n], allowed)
    {
      var argument := args[n];
      var idx := Position(allowed, argument.name);
      if idx < |allowed| {
        assert result[idx] == SlotsFor(args[..n], allowed)[idx];
        if result[idx].Filled? {
          SlotTaken(args, n, allowed, idx);
          return Err(DuplicateArgument(result[idx].arg.name));
        }
        SlotFree(args, n, allowed, idx);
        PlaceOne(args, n, allowed, idx);
        result[idx] := Filled(argument);
      } else {
        assert Offends(args, allowed, n);
        assert FirstOffender(args, allowed, 0) == n;
        return Err(UnknownArgument(argument.name));
      }
    }
    assert args[..|args|] == args;
    r := Ok(result);
  }

  lemma {:induction false} SlotTaken(args: seq<Argument>, n: nat, allowed: seq<string>, idx: nat)
    requires n < |args| && idx == Position(allowed, args[n].name) < |allowed|
    requires SlotFor(args[..n], allowed, idx).Filled?
    requires forall k :: 0 <= k < n ==> !Offends(args, allowed, k)
    ensures SlotFor(args[..n], allowed, idx).arg.name == args[n].name
    ensures FirstOffender(args, allowed, 0) == n
  {
    var k := First(args[..n], (a: Argument) => a.name == allowed[idx]);
    assert args[k].name == allowed[idx] == args[n].name;
    assert Offends(args, allowed, n);
  }

  lemma {:induction false} SlotFree(args: seq<Argument>, n: nat, allowed: seq<string>, idx: nat)
    requires n < |args| && idx == Position(allowed, args[n].name) < |allowed|
    requires SlotFor(args[..n], allowed, idx).Missing?
    ensures !Offends(args, allowed, n)
  {
    assert allowed[idx] == args[n].name;
    var p := (a: Argument) => a.name == allowed[idx];
    assert Position(allowed, allowed[idx]) == idx;
    forall k | 0 <= k < n ensures args[k].name != args[n].name {
      assert !p(args[..n][k]);
    }
  }

  // ---- what retain promises ----

  predicate DistinctLabels(args: seq<Argument>) {
    forall i, j :: 0 <= i < j < |args| ==> args[i].name != args[j].name
  }

  predicate AllAllowed(args: seq<Argument>, allowed: seq<string>) {
    forall i :: 0 <= i < |args| ==> args[i].name in allowed
  }

  /** Success iff all labels are allowed and distinct, and then the slots hold exactly the arguments. */
  lemma {:induction false} RetainLosesNothing(args: seq<Argument>, allowed: seq<string>)
    ensures Retained(args, allowed).Ok? <==> AllAllowed(args, allowed) && DistinctLabels(args)
    ensures Retained(args, allowed).Ok? ==>
      var slots := Retained(args, allowed).value;
      |slots| == |allowed| &&
      (forall a :: a in args <==> Filled(a) in slots) &&
      (forall i, a :: 0 <= i < |slots| && slots[i] == Filled(a) ==> allowed[i] == a.name)
  {
    if AllAllowed(args, allowed) && DistinctLabels(args) {
      assert forall i :: 0 <= i < |args| ==> !Offends(args, allowed, i);
    }
    if Retained(args, allowed).Ok? {
      forall i | 0 <= i < |args| ensures args[i].name in allowed { assert !Offends(args, allowed, i); }
      forall i, j | 0 <= i < j < |args| ensures args[i].name != args[j].name {
        assert !Offends(args, allowed, j);
      }
      var slots := SlotsFor(args, allowed);
      forall a | a in args ensures Filled(a) in slots {
        var i := Position(allowed, a.name);
        SlotHolds(args, allowed, a);
        assert slots[i] == Filled(a);
      }
    }
  }

  lemma {:induction false} SlotHolds(args: seq<Argument>, allowed: seq<string>, a: Argument)
    requires a in args && DistinctLabels(args) && AllAllowed(args, allowed)
    ensures Position(allowed, a.name) < |allowed|
    ensures SlotFor(args, allowed, Position(allowed, a.name)) == Filled(a)
  {
    var i := Position(allowed, a.name);
    var q := (probe: string) => probe == a.name;
    assert First(allowed, q) < |allowed| by {
      var m :| 0 <= m < |allowed| && allowed[m] == a.name;
      assert q(allowed[m]);
    }
    var p := (x: Argument) => x.name == allowed[i];
    var k := First(args, p);
    var n :| 0 <= n < |args| && args[n] == a;
    assert p(args[n]);
    assert k <= n && args[k].name == args[n].name;
  }

  lemma {:induction false} DistinctLabelsPermuted(args: seq<Argument>, permuted: seq<Argument>)
    requires DistinctLabels(args) && multiset(permuted) == multiset(args)
    ensures DistinctLabels(permuted)
  {
    forall i, j | 0 <= i < j < |permuted| ensures permuted[i].name != permuted[j].name {
      var x, y := permuted[i], permuted[j];
      assert x in multiset(permuted) && y in multiset(permuted);
      assert x in args && y in args;
      if x == y {
        TwiceIn(permuted, i, j);
        OnceIn(args, x);
      }
    }
  }

  lemma {:induction false} TwiceIn(s: seq<Argument>, i: nat, j: nat)
    requires i < j < |s| && s[i] == s[j]
    ensures multiset(s)[s[i]] >= 2
  {
    assert s == s[..j] + [s[j]] + s[j + 1..];
    assert s[i] in s[..j];
    assert multiset(s) == multiset(s[..j]) + multiset([s[j]]) + multiset(s[j + 1..]);
  }

  lemma {:induction false} OnceIn(s: seq<Argument>, x: Argument)
    requires DistinctLabels(s) && x in s
    ensures multiset(s)[x] == 1
  {
    var i :| 0 <= i < |s| && s[i] == x;
    assert s == s[..i] + [x] + s[i + 1..];
    assert x !in s[..i] && x !in s[i + 1..];
    assert multiset(s) == multiset(s[..i]) + multiset([x]) + multiset(s[i + 1..]);
  }

  /** The order of the arguments is irrelevant. */
  lemma {:induction false} RetainIgnoresOrder(args: seq<Argument>, permuted: seq<Argument>, allowed: seq<string>)
    requires multiset(permuted) == multiset(args)
    ensures Retained(args, allowed).Ok? <==> Retained(permuted, allowed).Ok?
    ensures Retained(args, allowed).Ok? ==> Retained(permuted, allowed) == Retained(args, allowed)
  {
    if Retained(args, allowed).Ok? { RetainedPermuted(args, permuted, allowed); }
    if Retained(permuted, allowed).Ok? { RetainedPermuted(permuted, args, allowed); }
  }

  lemma {:induction false} RetainedPermuted(args: seq<Argument>, permuted: seq<Argument>, allowed: seq<string>)
    requires multiset(permuted) == multiset(args) && Retained(args, allowed).Ok?
    ensures Retained(permuted, allowed) == Retained(args, allowed)
  {
    RetainLosesNothing(args, allowed);
    SameElements(args, permuted);
    AllAllowedPermuted(args, permuted, allowed);
    DistinctLabelsPermuted(args, permuted);
    RetainLosesNothing(permuted, allowed);
    forall i | 0 <= i < |allowed| ensures SlotFor(args, allowed, i) == SlotFor(permuted, allowed, i) {
      SameSlot(args, permuted, allowed, i);
      SameSlot(permuted, args, allowed, i);
    }
    assert SlotsFor(args, allowed) == SlotsFor(permuted, allowed);
  }

  lemma {:induction false} SameElements(args: seq<Argument>, permuted: seq<Argument>)
    requires multiset(permuted) == multiset(args)
    ensures forall a :: a in args <==> a in permuted
  {
    forall a ensures a in args <==> a in permuted {
      assert a in multiset(args) <==> a in multiset(permuted);
    }
  }

  lemma {:induction false} AllAllowedPermuted(args: seq<Argument>, permuted: seq<Argument>, allowed: seq<string>)
    requires AllAllowed(args, allowed) && forall a :: a in args <==> a in permuted
    ensures AllAllowed(permuted, allowed)
  {
    forall i | 0 <= i < |permuted| ensures permuted[i].name in allowed {
      assert permuted[i] in args;
    }
  }

  lemma {:induction false} SameSlot(args: seq<Argument>, permuted: seq<Argument>, allowed: seq<string>, i: nat)
    requires i < |allowed| && (forall a :: a in args <==> a in permuted)
    requires AllAllowed(permuted, allowed) && DistinctLabels(permuted)
    ensures SlotFor(args, allowed, i).Filled? ==> SlotFor(permuted, allowed, i) == SlotFor(args, allowed, i)
  {
    if SlotFor(args, allowed, i).Filled? {
      var a := SlotFor(args, allowed, i).arg;
      assert a.name == allowed[i];
      SlotHolds(permuted, allowed, a);
    }
  }

  /** The arguments in the first `n` slots. */
  function FilledArguments(slots: seq<Slot>, n: nat): seq<Argument>
    requires n <= |slots|
  {
    if n == 0 then []
    else FilledArguments(slots, n - 1) + (if slots[n - 1].Filled? then [slots[n - 1].arg] else [])
  }

  predicate SlotFits(slot: Slot, name: string) {
    match slot
    case Filled(arg) => arg.name == name
    case Missing(missing) => missing == name
  }

  lemma {:induction false} FilledAreAllowed(slots: seq<Slot>, allowed: seq<string>, n: nat)
    requires n <= |slots| == |allowed| && forall i :: 0 <= i < |slots| ==> SlotFits(slots[i], allowed[i])
    requires forall k, m :: 0 <= k < m < |allowed| ==> allowed[k] != allowed[m]
    ensures var args := FilledArguments(slots, n);
      DistinctLabels(args) && AllAllowed(args, allowed) &&
      forall a :: a in args <==> exists i :: 0 <= i < n && slots[i] == Filled(a)
  {
    if n > 0 {
      FilledAreAllowed(slots, allowed, n - 1);
      var args := FilledArguments(slots, n - 1);
      assert SlotFits(slots[n - 1], allowed[n - 1]);
      forall a | a in args ensures a.name != allowed[n - 1] {
        var i :| 0 <= i < n - 1 && slots[i] == Filled(a);
        assert SlotFits(slots[i], allowed[i]);
      }
    }
  }

  /** Whatever slots can be meant, their arguments fill exactly them. */
  lemma {:induction false} RetainInvertsFilling(slots: seq<Slot>, allowed: seq<string>)
    requires |slots| == |allowed| && forall i :: 0 <= i < |slots| ==> SlotFits(slots[i], allowed[i])
    requires forall k, m :: 0 <= k < m < |allowed| ==> allowed[k] != allowed[m]
    ensures Retained(FilledArguments(slots, |slots|), allowed) == Ok(slots)
  {
    var args := FilledArguments(slots, |slots|);
    FilledAreAllowed(slots, allowed, |slots|);
    RetainLosesNothing(args, allowed);
    forall i | 0 <= i < |slots| ensures SlotFor(args, allowed, i) == slots[i] {
      SlotRefilled(slots, allowed, args, i);
    }
    assert SlotsFor(args, allowed) == slots;
  }

  lemma {:induction false} SlotRefilled(slots: seq<Slot>, allowed: seq<string>, args: seq<Argument>, i: nat)
    requires |slots| == |allowed| && forall i :: 0 <= i < |slots| ==> SlotFits(slots[i], allowed[i])
    requires forall k, m :: 0 <= k < m < |allowed| ==> allowed[k] != allowed[m]
    requires DistinctLabels(args) && AllAllowed(args, allowed) && i < |slots|
    requires forall a :: a in args <==> exists i :: 0 <= i < |slots| && slots[i] == Filled(a)
    ensures SlotFor(args, allowed, i) == slots[i]
  {
    assert SlotFits(slots[i], allowed[i]);
    if slots[i].Filled? {
      var a := slots[i].arg;
      assert a in args;
      SlotHolds(args, allowed, a);
      var q := (probe: string) => probe == a.name;
      assert q(allowed[i]) && Position(allowed, a.name) == First(allowed, q);
    } else {
      forall a | a in args ensures a.name != allowed[i] {
        var m :| 0 <= m < |slots| && slots[m] == Filled(a);
        assert SlotFits(slots[m], allowed[m]);
      }
    }
  }
}
