/** Calls in flight at the same time on one stack. The handlers are shared behind an `Arc` and the inner
    services are clones of one another, so all of them act on one world; each handler or fallback
    invocation is one atomic step, and every other step of a call touches only that call. */
module Concurrency {
  import opened Wrappers
  import opened Json
  import opened Protocol
  import opened Target
  import opened Render
  import opened Service

  type Incoming = Result<Request, RpcError>

  type CallResult = Result<Response, RpcError>

  /** Where a call is: about to run layer `depth`, waiting for a handler or the fallback, on its way
      back out, or done. */
  datatype Phase =
    | Entering(depth: nat, incoming: Incoming)
    | AtHandler(depth: nat, fnIdent: string, args: seq<Data>, id: Id)
    | AtFallback(q: Request)
    | Returning(depth: nat, result: CallResult)
    | Finished(result: CallResult)

  /** `order` records the calls in the order of their atomic steps. */
  datatype System<W> = System(world: W, calls: seq<Phase>, order: seq<nat>)

  datatype Stack<!W> = Stack(layers: seq<Layer<W>>, fallback: Fallback<W>)

  function Start<W>(incoming: seq<Incoming>, w: W): System<W> {
    System(w, seq(|incoming|, c requires 0 <= c < |incoming| => Entering(0, incoming[c])), [])
  }

  function Enter<W>(stack: Stack<W>, depth: nat, incoming: Incoming): Phase
    requires depth <= |stack.layers|
  {
    if depth == |stack.layers| then
      match incoming
      case Err(e) => Returning(depth, Err(e))
      case Ok(q) => AtFallback(q)
    else
      match Decide(RenderService(stack.layers[depth].api), incoming)
      case Fail(e) => Returning(depth, Err(e))
      case Forward(q) => Entering(depth + 1, Ok(q))
      case Reply(response) => Returning(depth, Ok(response))
      case Invoke(fnIdent, args, id) => AtHandler(depth, fnIdent, args, id)
      case Stuck => Returning(depth, Err(Foreign(0)))
  }

  predicate InRange<W>(stack: Stack<W>, phase: Phase) {
    match phase
    case Entering(depth, _) => depth <= |stack.layers|
    case AtHandler(depth, _, _, _) => depth < |stack.layers|
    case _ => true
  }

  /** One step of call `c`. */
  function Advance<W>(stack: Stack<W>, s: System<W>, c: nat): System<W>
    requires c < |s.calls| && InRange(stack, s.calls[c])
  {
    match s.calls[c]
    case Entering(depth, incoming) => s.(calls := s.calls[c := Enter(stack, depth, incoming)])
    case AtHandler(depth, fnIdent, args, id) =>
      var (w, outcome) := stack.layers[depth].handler(s.world, fnIdent, args);
      System(w, s.calls[c := Returning(depth, Ok(HandlerResponse(outcome, id)))], s.order + [c])
    case AtFallback(q) =>
      var (w, result) := stack.fallback(s.world, q);
      System(w, s.calls[c := Returning(|stack.layers|, result)], s.order + [c])
    case Returning(depth, result) =>
      s.(calls := s.calls[c := if depth == 0 then Finished(result) else Returning(depth - 1, result)])
    case Finished(_) => s
  }

  /** A way of serving one request at a time. */
  type Serving<!W> = (Incoming, W) -> (W, CallResult)

  /** Serving one request at a time on the stack. */
  function Serve<W>(stack: Stack<W>): Serving<W> {
    (request, w) => CallStack(stack.layers, stack.fallback, request, w)
  }

  /** The world after serving the listed calls one after the other. */
  function SerialWorld<W>(serve: Serving<W>, incoming: seq<Incoming>, order: seq<nat>, w: W): W
    requires forall p :: 0 <= p < |order| ==> order[p] < |incoming|
  {
    if order == [] then w
    else
      var last := |order| - 1;
      serve(incoming[order[last]], SerialWorld(serve, incoming, order[..last], w)).0
  }

  /** What the call at position `p` of the serial run answers. */
  function SerialResult<W>(serve: Serving<W>, incoming: seq<Incoming>, order: seq<nat>, w: W, p: nat)
    : CallResult
    requires p < |order| && forall i :: 0 <= i < |order| ==> order[i] < |incoming|
  {
    serve(incoming[order[p]], SerialWorld(serve, incoming, order[..p], w)).1
  }

  predicate Distinct(order: seq<nat>, bound: nat) {
    && (forall i :: 0 <= i < |order| ==> order[i] < bound)
    && (forall i, j :: 0 <= i < j < |order| ==> order[i] != order[j])
  }

  // ---- the invariant ----

  /** What a call at this point will do to the world and answer, if nothing comes between. */
  function Ahead<W>(stack: Stack<W>, phase: Phase, w: W): (W, CallResult)
    requires InRange(stack, phase)
  {
    match phase
    case Entering(depth, incoming) => CallStack(stack.layers[depth..], stack.fallback, incoming, w)
    case AtHandler(depth, fnIdent, args, id) =>
      var (world, outcome) := stack.layers[depth].handler(w, fnIdent, args);
      (world, Ok(HandlerResponse(outcome, id)))
    case AtFallback(q) => stack.fallback(w, q)
    case Returning(_, result) => (w, result)
    case Finished(result) => (w, result)
  }

  /** The call answers `result` whatever the world is, and leaves the world alone. */
  ghost predicate Pure<W(!new)>(serve: Serving<W>, request: Incoming, result: CallResult) {
    forall w: W :: serve(request, w) == (w, result)
  }

  ghost predicate BeforeAtom<W(!new)>(stack: Stack<W>, serve: Serving<W>, request: Incoming, phase: Phase) {
    InRange(stack, phase) && forall w: W :: serve(request, w) == Ahead(stack, phase, w)
  }

  predicate Answered(phase: Phase, result: CallResult) {
    phase == Finished(result) || (phase.Returning? && phase.result == result)
  }

  ghost predicate CallOk<W(!new)>(
      stack: Stack<W>, serve: Serving<W>, incoming: seq<Incoming>, w: W, s: System<W>, c: nat)
    requires c < |incoming| == |s.calls| && Distinct(s.order, |incoming|)
  {
    if c in s.order then
      forall p :: 0 <= p < |s.order| && s.order[p] == c ==>
        Answered(s.calls[c], SerialResult(serve, incoming, s.order, w, p))
    else BeforeAtom(stack, serve, incoming[c], s.calls[c])
  }

  ghost predicate Inv<W(!new)>(stack: Stack<W>, serve: Serving<W>, incoming: seq<Incoming>, w: W, s: System<W>) {
    && |s.calls| == |incoming|
    && Distinct(s.order, |incoming|)
    && s.world == SerialWorld(serve, incoming, s.order, w)
    && forall c :: 0 <= c < |incoming| ==> CallOk(stack, serve, incoming, w, s, c)
  }

  lemma {:induction false} StartInv<W(!new)>(stack: Stack<W>, incoming: seq<Incoming>, w: W)
    ensures Inv(stack, Serve(stack), incoming, w, Start(incoming, w))
  {
    assert stack.layers[0..] == stack.layers;
  }

  /** Running one layer of emitted code changes where the call is, not what it will answer. */
  lemma {:induction false} EnterKeeps<W>(stack: Stack<W>, depth: nat, incoming: Incoming, w: W)
    requires depth <= |stack.layers|
    ensures InRange(stack, Enter(stack, depth, incoming))
    ensures Ahead(stack, Enter(stack, depth, incoming), w) == Ahead(stack, Entering(depth, incoming), w)
  {
    var rest := stack.layers[depth..];
    if depth < |stack.layers| {
      assert rest[0] == stack.layers[depth] && rest[1..] == stack.layers[depth + 1..];
    }
  }

  /** Where a call goes from a layer that forwards it or invokes its own function. */
  lemma {:induction false} EnterFollows<W>(stack: Stack<W>, depth: nat, q: Request)
    requires depth < |stack.layers|
    ensures var next := Enter(stack, depth, Ok(q));
      match Decide(RenderService(stack.layers[depth].api), Ok(q))
      case Forward(q') => next == Entering(depth + 1, Ok(q'))
      case Invoke(fnIdent, args, id) => next == AtHandler(depth, fnIdent, args, id)
      case _ => true
  {}

  lemma {:induction false} AdvanceKeepsInv<W(!new)>(
      stack: Stack<W>, serve: Serving<W>, incoming: seq<Incoming>, w: W, s: System<W>, c: nat)
    requires Inv(stack, serve, incoming, w, s) && c < |incoming|
    ensures InRange(stack, s.calls[c])
    ensures Inv(stack, serve, incoming, w, Advance(stack, s, c))
  {
    CallInRange(stack, serve, incoming, w, s, c);
    if s.calls[c].AtHandler? || s.calls[c].AtFallback? {
      AtomKeepsInv(stack, serve, incoming, w, s, c);
    } else {
      var s' := Advance(stack, s, c);
      forall e | 0 <= e < |incoming| ensures CallOk(stack, serve, incoming, w, s', e) {
        if e == c {
          MoveKeepsCall(stack, serve, incoming, w, s, c);
        } else {
          OtherCallUntouched(stack, serve, incoming, w, s, s', e);
        }
      }
    }
  }

  lemma {:induction false} CallInRange<W(!new)>(
      stack: Stack<W>, serve: Serving<W>, incoming: seq<Incoming>, w: W, s: System<W>, c: nat)
    requires Inv(stack, serve, incoming, w, s) && c < |incoming|
    ensures InRange(stack, s.calls[c])
  {
    assert CallOk(stack, serve, incoming, w, s, c);
  }

  /** A call that is where it was is as good as it was. */
  lemma {:induction false} OtherCallUntouched<W(!new)>(
      stack: Stack<W>, serve: Serving<W>, incoming: seq<Incoming>, w: W, s: System<W>, s': System<W>, e: nat)
    requires e < |incoming| == |s.calls| == |s'.calls| && Distinct(s.order, |incoming|)
    requires s'.order == s.order && s'.calls[e] == s.calls[e] && CallOk(stack, serve, incoming, w, s, e)
    ensures CallOk(stack, serve, incoming, w, s', e)
  {}

  /** Entering the next layer and returning from one change where the call is, not what it answers. */
  lemma {:induction false} MoveKeepsCall<W(!new)>(
      stack: Stack<W>, serve: Serving<W>, incoming: seq<Incoming>, w: W, s: System<W>, c: nat)
    requires Inv(stack, serve, incoming, w, s) && c < |incoming| && InRange(stack, s.calls[c])
    requires !s.calls[c].AtHandler? && !s.calls[c].AtFallback?
    ensures CallOk(stack, serve, incoming, w, Advance(stack, s, c), c)
  {
    assert CallOk(stack, serve, incoming, w, s, c);
    if c !in s.order && s.calls[c].Entering? {
      forall w: W { EnterKeeps(stack, s.calls[c].depth, s.calls[c].incoming, w); }
    }
  }

  /** An atomic step appends its call to the serial run. */
  lemma {:induction false} AtomKeepsInv<W(!new)>(
      stack: Stack<W>, serve: Serving<W>, incoming: seq<Incoming>, w: W, s: System<W>, c: nat)
    requires Inv(stack, serve, incoming, w, s) && c < |incoming|
    requires s.calls[c].AtHandler? || s.calls[c].AtFallback?
    ensures InRange(stack, s.calls[c])
    ensures Inv(stack, serve, incoming, w, Advance(stack, s, c))
  {
    AtomServes(stack, serve, incoming, w, s, c);
    var s' := Advance(stack, s, c);
    AppendSerial(serve, incoming, s.order, c, w);
    forall e | 0 <= e < |incoming| ensures CallOk(stack, serve, incoming, w, s', e) {
      assert CallOk(stack, serve, incoming, w, s, e);
      AppendedCall(stack, serve, incoming, w, s, s', c, e);
    }
  }

  /** An atomic step does to the world, and answers, what serving the call now would. */
  lemma {:induction false} AtomServes<W(!new)>(
      stack: Stack<W>, serve: Serving<W>, incoming: seq<Incoming>, w: W, s: System<W>, c: nat)
    requires Inv(stack, serve, incoming, w, s) && c < |incoming|
    requires s.calls[c].AtHandler? || s.calls[c].AtFallback?
    ensures c !in s.order && InRange(stack, s.calls[c])
    ensures var s', (world, result) := Advance(stack, s, c), serve(incoming[c], s.world);
      && s'.world == world && s'.order == s.order + [c] && |s'.calls| == |s.calls|
      && Answered(s'.calls[c], result) && (forall e :: 0 <= e < |s.calls| && e != c ==> s'.calls[e] == s.calls[e])
  {
    assert CallOk(stack, serve, incoming, w, s, c);
    assert c !in s.order;
    assert serve(incoming[c], s.world) == Ahead(stack, s.calls[c], s.world);
  }

  /** What appending call `c` to the order means for call `e`. */
  lemma {:induction false} AppendedCall<W(!new)>(
      stack: Stack<W>, serve: Serving<W>, incoming: seq<Incoming>, w: W, s: System<W>, s': System<W>, c: nat, e: nat)
    requires |s.calls| == |s'.calls| == |incoming| && e < |incoming|
    requires Distinct(s.order, |incoming|) && s'.order == s.order + [c] && Distinct(s'.order, |incoming|)
    requires forall p :: 0 <= p < |s.order| ==>
      SerialResult(serve, incoming, s'.order, w, p) == SerialResult(serve, incoming, s.order, w, p)
    requires e != c ==> s'.calls[e] == s.calls[e] && CallOk(stack, serve, incoming, w, s, e)
    requires e == c ==> Answered(s'.calls[c], SerialResult(serve, incoming, s'.order, w, |s.order|))
    ensures CallOk(stack, serve, incoming, w, s', e)
  {
    assert s'.order[|s.order|] == c;
    if e != c {
      assert e in s'.order <==> e in s.order;
      forall p | 0 <= p < |s'.order| && s'.order[p] == e
        ensures Answered(s'.calls[e], SerialResult(serve, incoming, s'.order, w, p))
      {
        assert p < |s.order| && s.order[p] == e;
      }
    }
  }

  /** Serving one more call last changes no earlier answer. */
  lemma {:induction false} AppendSerial<W(!new)>(
      serve: Serving<W>, incoming: seq<Incoming>, order: seq<nat>, c: nat, w: W)
    requires Distinct(order, |incoming|) && c < |incoming|
    ensures var world := SerialWorld(serve, incoming, order, w);
      SerialWorld(serve, incoming, order + [c], w) == serve(incoming[c], world).0 &&
      SerialResult(serve, incoming, order + [c], w, |order|) ==
        serve(incoming[c], world).1
    ensures forall p :: 0 <= p < |order| ==>
      SerialResult(serve, incoming, order + [c], w, p) == SerialResult(serve, incoming, order, w, p)
  {
    assert (order + [c])[..|order|] == order;
    forall p | 0 <= p < |order|
      ensures SerialResult(serve, incoming, order + [c], w, p) == SerialResult(serve, incoming, order, w, p)
    {
      assert (order + [c])[..p] == order[..p];
    }
  }

  // ---- runs ----

  /** The system after the scheduler picked the calls of `schedule` in turn. */
  ghost predicate Reaches<W(!new)>(stack: Stack<W>, s: System<W>, schedule: seq<nat>, t: System<W>)
    decreases |schedule|
  {
    if schedule == [] then t == s
    else
      schedule[0] < |s.calls| && InRange(stack, s.calls[schedule[0]]) &&
      Reaches(stack, Advance(stack, s, schedule[0]), schedule[1..], t)
  }

  lemma {:induction false} RunKeepsInv<W(!new)>(stack: Stack<W>, serve: Serving<W>, incoming: seq<Incoming>, w: W,
                                               s: System<W>, schedule: seq<nat>, t: System<W>)
    requires Inv(stack, serve, incoming, w, s) && Reaches(stack, s, schedule, t)
    ensures Inv(stack, serve, incoming, w, t)
    decreases |schedule|
  {
    if schedule != [] {
      AdvanceKeepsInv(stack, serve, incoming, w, s, schedule[0]);
      RunKeepsInv(stack, serve, incoming, w, Advance(stack, s, schedule[0]), schedule[1..], t);
    }
  }

  /** Every schedule of in-range calls is a run: no interleaving gets stuck. */
  lemma {:induction false} EveryScheduleRuns<W(!new)>(stack: Stack<W>, serve: Serving<W>, incoming: seq<Incoming>, w: W,
                                                     s: System<W>, schedule: seq<nat>)
    requires Inv(stack, serve, incoming, w, s)
    requires forall i :: 0 <= i < |schedule| ==> schedule[i] < |incoming|
    ensures exists t :: Reaches(stack, s, schedule, t)
    decreases |schedule|
  {
    if schedule == [] {
      assert Reaches(stack, s, schedule, s);
    } else {
      AdvanceKeepsInv(stack, serve, incoming, w, s, schedule[0]);
      EveryScheduleRuns(stack, serve, incoming, w, Advance(stack, s, schedule[0]), schedule[1..]);
      var t :| Reaches(stack, Advance(stack, s, schedule[0]), schedule[1..], t);
      assert Reaches(stack, s, schedule, t);
    }
  }

  /** Serving the calls of `full` one by one leads to the world and to the answers of `s`. */
  predicate SerialOf<W(==)>(serve: Serving<W>, incoming: seq<Incoming>, w: W, s: System<W>, full: seq<nat>) {
    && |s.calls| == |incoming|
    && Distinct(full, |incoming|)
    && s.world == SerialWorld(serve, incoming, full, w)
    && forall p {:trigger SerialResult(serve, incoming, full, w, p)} :: 0 <= p < |full| ==>
         s.calls[full[p]] == Finished(SerialResult(serve, incoming, full, w, p))
  }

  lemma {:induction false} AppendPure<W(!new)>(serve: Serving<W>, incoming: seq<Incoming>, w: W, s: System<W>,
                            full: seq<nat>, c: nat)
    requires SerialOf(serve, incoming, w, s, full) && c < |incoming| && c !in full
    requires s.calls[c].Finished? && Pure(serve, incoming[c], s.calls[c].result)
    ensures SerialOf(serve, incoming, w, s, full + [c])
  {
    AppendSerial(serve, incoming, full, c, w);
    assert serve(incoming[c], s.world) == (s.world, s.calls[c].result);
    forall p | 0 <= p < |full + [c]|
      ensures s.calls[(full + [c])[p]] == Finished(SerialResult(serve, incoming, full + [c], w, p))
    {
      if p < |full| { assert (full + [c])[p] == full[p]; }
    }
  }

  /** Calls that never reached an atomic step may be served last: `full` is the order of the atomic
      steps, followed by the calls below `n` that took none. */
  lemma {:induction false} RestIsPure<W(!new)>(serve: Serving<W>, incoming: seq<Incoming>,
                                              w: W, s: System<W>, order: seq<nat>, n: nat) returns (full: seq<nat>)
    requires SerialOf(serve, incoming, w, s, order) && n <= |incoming|
    requires forall c :: 0 <= c < |incoming| && c !in order ==>
      s.calls[c].Finished? && Pure(serve, incoming[c], s.calls[c].result)
    ensures SerialOf(serve, incoming, w, s, full) && order <= full
    ensures forall c: nat :: c in full <==> c in order || c < n
  {
    if n == 0 {
      full := order;
    } else {
      full := RestIsPure(serve, incoming, w, s, order, n - 1);
      if n - 1 !in order {
        AppendPure(serve, incoming, w, s, full, n - 1);
        full := full + [n - 1];
      }
    }
  }

  lemma {:induction false} NoAtomMeansPure<W(!new)>(stack: Stack<W>, serve: Serving<W>, incoming: seq<Incoming>,
                                 w: W, s: System<W>, c: nat)
    requires Inv(stack, serve, incoming, w, s) && c < |incoming| && c !in s.order && s.calls[c].Finished?
    ensures Pure(serve, incoming[c], s.calls[c].result)
  {
    assert CallOk(stack, serve, incoming, w, s, c);
  }

  lemma {:induction false} AtomsAnswered<W(!new)>(
      stack: Stack<W>, serve: Serving<W>, incoming: seq<Incoming>, w: W, s: System<W>)
    requires Inv(stack, serve, incoming, w, s)
    ensures forall p :: 0 <= p < |s.order| && s.calls[s.order[p]].Finished? ==>
      s.calls[s.order[p]] == Finished(SerialResult(serve, incoming, s.order, w, p))
  {
    forall p | 0 <= p < |s.order| && s.calls[s.order[p]].Finished?
      ensures s.calls[s.order[p]] == Finished(SerialResult(serve, incoming, s.order, w, p))
    {
      assert CallOk(stack, serve, incoming, w, s, s.order[p]);
    }
  }

  /** Every interleaving is equivalent to serving the calls one by one in the order of their atomic
      steps: the same world, and every call that reached its atomic step and finished has the answer
      it gets in that serial run; the other finished calls answer without touching the world. */
  lemma {:induction false} RunsAreSerializable<W(!new)>(stack: Stack<W>, incoming: seq<Incoming>, w: W,
                                     schedule: seq<nat>, t: System<W>)
    requires Reaches(stack, Start(incoming, w), schedule, t)
    ensures |t.calls| == |incoming| && Distinct(t.order, |incoming|)
    ensures t.world == SerialWorld(Serve(stack), incoming, t.order, w)
    ensures forall p :: 0 <= p < |t.order| && t.calls[t.order[p]].Finished? ==>
      t.calls[t.order[p]].result == SerialResult(Serve(stack), incoming, t.order, w, p)
    ensures forall c :: 0 <= c < |incoming| && c !in t.order && t.calls[c].Finished? ==>
      Pure(Serve(stack), incoming[c], t.calls[c].result)
  {
    StartInv(stack, incoming, w);
    RunKeepsInv(stack, Serve(stack), incoming, w, Start(incoming, w), schedule, t);
    AtomsAnswered(stack, Serve(stack), incoming, w, t);
    forall c | 0 <= c < |incoming| && c !in t.order && t.calls[c].Finished?
      ensures Pure(Serve(stack), incoming[c], t.calls[c].result)
    {
      NoAtomMeansPure(stack, Serve(stack), incoming, w, t, c);
    }
  }

  /** When all calls have finished there is one serial order of all of them, each exactly once, with
      the same final world and the same answer for every call: the order of the atomic steps, and then
      the calls that needed none. */
  lemma {:induction false} FinishedRunsAreSerial<W(!new)>(stack: Stack<W>, incoming: seq<Incoming>, w: W,
                                       schedule: seq<nat>, t: System<W>) returns (full: seq<nat>)
    requires Reaches(stack, Start(incoming, w), schedule, t)
    requires forall c :: 0 <= c < |t.calls| ==> t.calls[c].Finished?
    ensures SerialOf(Serve(stack), incoming, w, t, full) && t.order <= full
    ensures forall c: nat :: c in full <==> c < |incoming|
  {
    StartInv(stack, incoming, w);
    RunKeepsInv(stack, Serve(stack), incoming, w, Start(incoming, w), schedule, t);
    AtomsAnswered(stack, Serve(stack), incoming, w, t);
    forall c | 0 <= c < |incoming| && c !in t.order ensures Pure(Serve(stack), incoming[c], t.calls[c].result) {
      NoAtomMeansPure(stack, Serve(stack), incoming, w, t, c);
    }
    full := RestIsPure(Serve(stack), incoming, w, t, t.order, |incoming|);
  }
}
