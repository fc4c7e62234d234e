/** Many stub futures against one server stack: the futures of `Pipelines` are answered by the calls of
    `Concurrency`, one call for each future, and everything interleaves. */
module Fleet {
  import opened Wrappers
  import opened Json
  import opened Protocol
  import opened Api
  import opened Decoder
  import opened Service
  import opened Tower
  import opened Client
  import P = Pipelines
  import C = Concurrency

  type Future = P.Task<Request, Data, RpcError>

  type Futures = P.World<Request, Data, RpcError>

  type Said = P.Input<Request, Data, RpcError>

  /** A use of a stub: of method `method_` of layer `layer`, with arguments by name. */
  datatype Use = Use(layer: nat, method_: nat, fields: map<string, Data>)

  /** The clients and the server side of the fleet: future `c` waits for call `c`. */
  datatype World<W> = World(clients: Futures, server: C.System<W>)

  /** The scheduler wakes up a future, whose service would answer `poll`, or lets a call take a step. */
  datatype Turn = Wake(c: nat, poll: Poll<RpcError>) | Serve(c: nat)

  predicate Exists<W>(stack: C.Stack<W>, u: Use) {
    && u.layer < |stack.layers| && u.method_ < |stack.layers[u.layer].api.methods|
    && FieldsFit(stack.layers[u.layer].api.methods[u.method_].params, u.fields)
  }

  function MethodOf<W>(stack: C.Stack<W>, u: Use): Method
    requires Exists(stack, u)
  {
    stack.layers[u.layer].api.methods[u.method_]
  }

  function RequestOf<W>(stack: C.Stack<W>, u: Use): Request
    requires Exists(stack, u)
  {
    Sent(stack.layers[u.layer].api, u.method_, u.fields)
  }

  /** What the handler of the stub does with the arguments of the stub. */
  function Handled<W>(stack: C.Stack<W>, u: Use, w: W): (W, Result<Data, ErrorObject>)
    requires Exists(stack, u)
  {
    stack.layers[u.layer].handler(w, MethodOf(stack, u).fnIdent, ArgsIn(MethodOf(stack, u).params, u.fields))
  }

  /** The stub is served end to end when it is alone, and the handler returns values of its type. */
  ghost predicate Sound<W(!new)>(stack: C.Stack<W>, u: Use) {
    && Exists(stack, u)
    && ServedAt(stack.layers[u.layer].api, u.method_) && MethodOf(stack, u).Output().Lawful()
    && ReachedFirst(stack.layers, u.layer, u.method_)
    && (forall w: W :: Handled(stack, u, w).1.Ok? ==>
          HasType(Handled(stack, u, w).1.value, MethodOf(stack, u).Output()))
  }

  ghost predicate AllSound<W(!new)>(stack: C.Stack<W>, uses: seq<Use>) {
    AllDistinct(stack.layers) && forall c :: 0 <= c < |uses| ==> Sound(stack, uses[c])
  }

  function Requests<W>(stack: C.Stack<W>, uses: seq<Use>): seq<C.Incoming>
    requires forall c :: 0 <= c < |uses| ==> Exists(stack, uses[c])
  {
    seq(|uses|, c requires 0 <= c < |uses| => Ok(RequestOf(stack, uses[c])))
  }

  /** How the stub reads what the server side answered. */
  function Read(ty: Ty, result: C.CallResult): Result<Data, RpcError> {
    match result
    case Err(e) => Err(e)
    case Ok(response) => ReadAs(ty, response)
  }

  /** What a future is told when it is woken up: its request over a direct transport, the state of its
      clone, or the answer of its call if there is one. */
  function Told<W>(stack: C.Stack<W>, u: Use, future: Future, call: C.Phase, poll: Poll<RpcError>): Said
    requires Exists(stack, u)
  {
    match future
    case Preparing(_) => P.Prepare(Completed(Ok(RequestOf(stack, u))))
    case AwaitingReady(_, _) => P.Readiness(poll)
    case _ =>
      P.Answer(if call.Finished? then Completed(Read(MethodOf(stack, u).Output(), call.result)) else Waiting)
  }

  /** A call takes a step only when its future has made it. */
  function Next<W>(stack: C.Stack<W>, uses: seq<Use>, s: World<W>, turn: Turn): World<W>
    requires |uses| == |s.clients.tasks| == |s.server.calls|
    requires forall c :: 0 <= c < |uses| ==> Exists(stack, uses[c])
  {
    var c := turn.c;
    if c >= |uses| then s
    else
      match turn
      case Wake(_, poll) =>
        s.(clients := P.Step(s.clients, c, Told(stack, uses[c], s.clients.tasks[c], s.server.calls[c], poll)))
      case Serve(_) =>
        if s.clients.tasks[c].InFlight? && C.InRange(stack, s.server.calls[c]) then
          s.(server := C.Advance(stack, s.server, c))
        else s
  }

  function Run<W>(stack: C.Stack<W>, uses: seq<Use>, s: World<W>, turns: seq<Turn>): World<W>
    requires |uses| == |s.clients.tasks| == |s.server.calls|
    requires forall c :: 0 <= c < |uses| ==> Exists(stack, uses[c])
    decreases |turns|
  {
    if turns == [] then s else Run(stack, uses, Next(stack, uses, s, turns[0]), turns[1..])
  }

  function Start<W>(stack: C.Stack<W>, uses: seq<Use>, selves: seq<nat>, next: nat, w: W): World<W>
    requires |selves| == |uses| && forall c :: 0 <= c < |uses| ==> Exists(stack, uses[c])
  {
    World(P.Start(selves, next), C.Start(Requests(stack, uses), w))
  }

  // ---- the invariant ----

  /** Before its atomic step the call is on its way to the handler of the stub. */
  predicate Heading<W>(stack: C.Stack<W>, u: Use, call: C.Phase)
    requires Exists(stack, u)
  {
    match call
    case Entering(depth, incoming) => depth <= u.layer && incoming == Ok(RequestOf(stack, u))
    case AtHandler(depth, fnIdent, args, id) =>
      depth == u.layer && fnIdent == MethodOf(stack, u).fnIdent && args == ArgsIn(MethodOf(stack, u).params, u.fields)
    case _ => false
  }

  predicate NotMade<W>(stack: C.Stack<W>, u: Use, call: C.Phase)
    requires Exists(stack, u)
  {
    call == C.Entering(0, Ok(RequestOf(stack, u)))
  }

  /** Where a future and its call may be at the same time. */
  predicate Linked<W>(stack: C.Stack<W>, u: Use, future: Future, call: C.Phase)
    requires Exists(stack, u)
  {
    match future
    case Created(_) => NotMade(stack, u, call)
    case Preparing(_) => NotMade(stack, u, call)
    case AwaitingReady(_, t) => NotMade(stack, u, call) && t == RequestOf(stack, u)
    case ReadyToCall(_, t) => NotMade(stack, u, call) && t == RequestOf(stack, u)
    case InFlight(_) => true
    case Finished(_, r) =>
      if call.Finished? then r == Read(MethodOf(stack, u).Output(), call.result) else NotMade(stack, u, call) && r.Err?
  }

  /** A future that ended without an answer of its call has the error that its clone reported, and its
      clone was never called. */
  ghost predicate FailedUncalled(clients: Futures, c: nat, call: C.Phase)
    requires c < |clients.tasks|
  {
    clients.tasks[c].Finished? && !call.Finished? && clients.tasks[c].result.Err? ==>
      P.GaveUp(clients.log, clients.tasks[c].copy, clients.tasks[c].result.error)
  }

  ghost predicate FutureOk<W(!new)>(stack: C.Stack<W>, uses: seq<Use>, s: World<W>, c: nat)
    requires c < |uses| == |s.clients.tasks| == |s.server.calls| && Exists(stack, uses[c])
  {
    && Linked(stack, uses[c], s.clients.tasks[c], s.server.calls[c])
    && FailedUncalled(s.clients, c, s.server.calls[c])
    && (c !in s.server.order ==> Heading(stack, uses[c], s.server.calls[c]))
  }

  ghost predicate Inv<W(!new)>(stack: C.Stack<W>, uses: seq<Use>, first: nat, w: W, s: World<W>)
    requires AllSound(stack, uses)
  {
    && |uses| == |s.clients.tasks| == |s.server.calls|
    && P.Inv(s.clients, first)
    && C.Inv(stack, C.Serve(stack), Requests(stack, uses), w, s.server)
    && forall c :: 0 <= c < |uses| ==> FutureOk(stack, uses, s, c)
  }

  /** The next step of a call on its way stays on the way or is the atomic step of its handler. */
  lemma {:induction false} HeadingKept<W(!new)>(stack: C.Stack<W>, uses: seq<Use>, s: C.System<W>, c: nat)
    requires AllSound(stack, uses) && c < |uses| == |s.calls| && Heading(stack, uses[c], s.calls[c])
    ensures C.InRange(stack, s.calls[c])
    ensures c !in C.Advance(stack, s, c).order ==> Heading(stack, uses[c], C.Advance(stack, s, c).calls[c])
  {
    if s.calls[c].Entering? {
      EnterHeads(stack, uses, c, s.calls[c].depth);
    }
  }

  lemma {:induction false} EnterHeads<W(!new)>(stack: C.Stack<W>, uses: seq<Use>, c: nat, depth: nat)
    requires AllSound(stack, uses) && c < |uses| && depth <= uses[c].layer
    ensures Heading(stack, uses[c], C.Enter(stack, depth, Ok(RequestOf(stack, uses[c]))))
  {
    var u := uses[c];
    assert Sound(stack, u);
    var api := stack.layers[depth].api;
    assert DistinctNames(api);
    if depth == u.layer {
      SafeStubIsServed(api, u.method_, u.fields);
      C.EnterFollows(stack, depth, RequestOf(stack, u));
    } else {
      assert !Owns(api, RequestOf(stack, u).method_);
      OwnsOrForwards(api, RequestOf(stack, u));
      C.EnterFollows(stack, depth, RequestOf(stack, u));
    }
  }

  lemma {:induction false} NextKeepsInv<W(!new)>(
      stack: C.Stack<W>, uses: seq<Use>, first: nat, w: W, s: World<W>, turn: Turn)
    requires AllSound(stack, uses) && Inv(stack, uses, first, w, s)
    ensures Inv(stack, uses, first, w, Next(stack, uses, s, turn))
  {
    var c := turn.c;
    if c < |uses| {
      var s' := Next(stack, uses, s, turn);
      assert Sound(stack, uses[c]) && FutureOk(stack, uses, s, c);
      match turn {
        case Wake(_, poll) =>
          P.StepKeepsInv(s.clients, first, c, Told(stack, uses[c], s.clients.tasks[c], s.server.calls[c], poll));
          WakeKeepsFuture(stack, uses, first, s, c, poll);
        case Serve(_) =>
          C.AdvanceKeepsInv(stack, C.Serve(stack), Requests(stack, uses), w, s.server, c);
          if s.clients.tasks[c].InFlight? { ServeKeepsFuture(stack, uses, s, c); }
      }
      forall e | 0 <= e < |uses| ensures FutureOk(stack, uses, s', e) {
        assert FutureOk(stack, uses, s, e);
        if e != c {
          OtherFailureKept(stack, uses, first, s, turn, e);
          OtherFutureUntouched(stack, uses, s, s', e);
        }
      }
    }
  }

  lemma {:induction false} OtherFutureUntouched<W(!new)>(
      stack: C.Stack<W>, uses: seq<Use>, s: World<W>, s': World<W>, e: nat)
    requires e < |uses| == |s.clients.tasks| == |s.server.calls| && Exists(stack, uses[e])
    requires |uses| == |s'.clients.tasks| == |s'.server.calls|
    requires s'.clients.tasks[e] == s.clients.tasks[e] && s'.server.calls[e] == s.server.calls[e]
    requires e in s'.server.order <==> e in s.server.order
    requires FutureOk(stack, uses, s, e) && FailedUncalled(s'.clients, e, s'.server.calls[e])
    ensures FutureOk(stack, uses, s', e)
  {}

  lemma {:induction false} OtherFailureKept<W>(
      stack: C.Stack<W>, uses: seq<Use>, first: nat, s: World<W>, turn: Turn, e: nat)
    requires |uses| == |s.clients.tasks| == |s.server.calls| && e < |uses| && turn.c < |uses| && turn.c != e
    requires forall c :: 0 <= c < |uses| ==> Exists(stack, uses[c])
    requires P.Inv(s.clients, first) && FailedUncalled(s.clients, e, s.server.calls[e])
    ensures var s' := Next(stack, uses, s, turn); FailedUncalled(s'.clients, e, s'.server.calls[e])
  {
    var c, future := turn.c, s.clients.tasks[e];
    if turn.Wake? && future.Finished? && !s.server.calls[e].Finished? && future.result.Err? {
      P.GivenUpForGood(s.clients, first, c,
                       Told(stack, uses[c], s.clients.tasks[c], s.server.calls[c], turn.poll), e, future.result.error);
    }
  }

  lemma {:induction false} WakeKeepsFuture<W(!new)>(
      stack: C.Stack<W>, uses: seq<Use>, first: nat, s: World<W>, c: nat, poll: Poll<RpcError>)
    requires AllSound(stack, uses) && c < |uses| == |s.clients.tasks| == |s.server.calls|
    requires Sound(stack, uses[c]) && FutureOk(stack, uses, s, c) && P.Inv(s.clients, first)
    ensures FutureOk(stack, uses, Next(stack, uses, s, Wake(c, poll)), c)
  {
    var future, input := s.clients.tasks[c], Told(stack, uses[c], s.clients.tasks[c], s.server.calls[c], poll);
    if future.AwaitingReady? && poll.Broken? {
      P.BrokenGivesUp(s.clients, first, c, poll.err);
    } else if future.Finished? && !s.server.calls[c].Finished? {
      P.GivenUpForGood(s.clients, first, c, input, c, future.result.error);
    }
  }

  lemma {:induction false} ServeKeepsFuture<W(!new)>(stack: C.Stack<W>, uses: seq<Use>, s: World<W>, c: nat)
    requires AllSound(stack, uses) && c < |uses| == |s.clients.tasks| == |s.server.calls|
    requires s.clients.tasks[c].InFlight? && C.InRange(stack, s.server.calls[c])
    requires Sound(stack, uses[c]) && FutureOk(stack, uses, s, c)
    ensures FutureOk(stack, uses, Next(stack, uses, s, Serve(c)), c)
  {
    if c !in s.server.order { HeadingKept(stack, uses, s.server, c); }
  }

  lemma {:induction false} RunKeepsInv<W(!new)>(
      stack: C.Stack<W>, uses: seq<Use>, first: nat, w: W, s: World<W>, turns: seq<Turn>)
    requires AllSound(stack, uses) && Inv(stack, uses, first, w, s)
    ensures Inv(stack, uses, first, w, Run(stack, uses, s, turns))
    decreases |turns|
  {
    if turns != [] {
      NextKeepsInv(stack, uses, first, w, s, turns[0]);
      RunKeepsInv(stack, uses, first, w, Next(stack, uses, s, turns[0]), turns[1..]);
    }
  }

  lemma {:induction false} StartInv<W(!new)>(
      stack: C.Stack<W>, uses: seq<Use>, selves: seq<nat>, next: nat, w: W)
    requires AllSound(stack, uses) && |selves| == |uses|
    ensures Inv(stack, uses, next, w, Start(stack, uses, selves, next, w))
  {
    C.StartInv(stack, Requests(stack, uses), w);
  }

  // ---- what the clients see ----

  /** The world after the handlers of the listed futures ran one after the other. */
  function AfterHandlers<W>(stack: C.Stack<W>, uses: seq<Use>, order: seq<nat>, w: W): W
    requires forall c :: 0 <= c < |uses| ==> Exists(stack, uses[c])
    requires forall p :: 0 <= p < |order| ==> order[p] < |uses|
  {
    if order == [] then w
    else
      var last := |order| - 1;
      Handled(stack, uses[order[last]], AfterHandlers(stack, uses, order[..last], w)).0
  }

  /** Serving a stub's request is running its handler. */
  lemma {:induction false} ServedIsHandled<W(!new)>(stack: C.Stack<W>, uses: seq<Use>, c: nat, w: W)
    requires AllSound(stack, uses) && c < |uses|
    ensures var (world, result) := C.Serve(stack)(Ok(RequestOf(stack, uses[c])), w);
      && world == Handled(stack, uses[c], w).0
      && Read(MethodOf(stack, uses[c]).Output(), result) == Expected(Handled(stack, uses[c], w).1)
  {
    var u := uses[c];
    assert Sound(stack, u);
    StubServed(stack.layers, stack.fallback, u.layer, u.method_, u.fields, w);
    ReadAsExpected(MethodOf(stack, u).Output(), Handled(stack, u, w).1);
  }

  lemma {:induction false} SerialIsHandlers<W(!new)>(stack: C.Stack<W>, uses: seq<Use>, order: seq<nat>, w: W)
    requires AllSound(stack, uses) && forall p :: 0 <= p < |order| ==> order[p] < |uses|
    ensures C.SerialWorld(C.Serve(stack), Requests(stack, uses), order, w) == AfterHandlers(stack, uses, order, w)
  {
    if order != [] {
      var last := |order| - 1;
      SerialIsHandlers(stack, uses, order[..last], w);
      ServedIsHandled(stack, uses, order[last], AfterHandlers(stack, uses, order[..last], w));
    }
  }

  /** The future failed before its call was made: no handler ran for it, its clone was never called, and
      its error is the one that its clone reported instead of getting ready. */
  ghost predicate NeverCalled<W>(s: World<W>, c: nat)
    requires c < |s.clients.tasks|
  {
    var future := s.clients.tasks[c];
    c !in s.server.order && future.Finished? && future.result.Err? &&
    P.GaveUp(s.clients.log, future.copy, future.result.error)
  }

  /** The future whose handler ran at place `p`, if it has finished, returns what the handler returned. */
  predicate ReturnsHandled<W>(stack: C.Stack<W>, uses: seq<Use>, w: W, s: World<W>, p: nat)
    requires forall c :: 0 <= c < |uses| ==> Exists(stack, uses[c])
    requires |s.clients.tasks| == |uses| && C.Distinct(s.server.order, |uses|) && p < |s.server.order|
  {
    var order, c := s.server.order, s.server.order[p];
    s.clients.tasks[c].Finished? ==>
      s.clients.tasks[c].result == Expected(Handled(stack, uses[c], AfterHandlers(stack, uses, order[..p], w)).1)
  }

  /** End to end under any interleaving: the world is that of the handlers run one after the other, each
      at most once and with the arguments of its stub; a stub that finished returns what its handler
      returned at its place in that order, or failed before it called its clone; the readiness rule is kept, and no
      call is ever stuck. */
  lemma {:induction false} FleetEndToEnd<W(!new)>(
      stack: C.Stack<W>, uses: seq<Use>, selves: seq<nat>, next: nat, w: W, turns: seq<Turn>)
    requires AllSound(stack, uses) && |selves| == |uses|
    ensures var s := Run(stack, uses, Start(stack, uses, selves, next, w), turns);
      && |s.clients.tasks| == |uses| == |s.server.calls| && C.Distinct(s.server.order, |uses|)
      && P.Safe(s.clients.log, next)
      && (forall c :: 0 <= c < |uses| ==> C.InRange(stack, s.server.calls[c]))
      && s.server.world == AfterHandlers(stack, uses, s.server.order, w)
      && (forall c :: 0 <= c < |uses| && s.clients.tasks[c].Finished? && c !in s.server.order ==> NeverCalled(s, c))
      && (forall p :: 0 <= p < |s.server.order| ==> ReturnsHandled(stack, uses, w, s, p))
  {
    var s0 := Start(stack, uses, selves, next, w);
    var s := Run(stack, uses, s0, turns);
    StartInv(stack, uses, selves, next, w);
    RunKeepsInv(stack, uses, next, w, s0, turns);
    SerialIsHandlers(stack, uses, s.server.order, w);
    CallsInRange(stack, uses, next, w, s);
    UncalledFailed(stack, uses, next, w, s);
    forall p | 0 <= p < |s.server.order| ensures ReturnsHandled(stack, uses, w, s, p) {
      FinishedAnswer(stack, uses, next, w, s, p);
    }
  }

  lemma {:induction false} CallsInRange<W(!new)>(
      stack: C.Stack<W>, uses: seq<Use>, first: nat, w: W, s: World<W>)
    requires AllSound(stack, uses) && Inv(stack, uses, first, w, s)
    ensures forall c :: 0 <= c < |uses| ==> C.InRange(stack, s.server.calls[c])
  {
    forall c | 0 <= c < |uses| ensures C.InRange(stack, s.server.calls[c]) {
      C.CallInRange(stack, C.Serve(stack), Requests(stack, uses), w, s.server, c);
    }
  }

  lemma {:induction false} UncalledFailed<W(!new)>(
      stack: C.Stack<W>, uses: seq<Use>, first: nat, w: W, s: World<W>)
    requires AllSound(stack, uses) && Inv(stack, uses, first, w, s)
    ensures forall c :: 0 <= c < |uses| && s.clients.tasks[c].Finished? && c !in s.server.order ==> NeverCalled(s, c)
  {
    forall c | 0 <= c < |uses| && s.clients.tasks[c].Finished? && c !in s.server.order ensures NeverCalled(s, c) {
      assert FutureOk(stack, uses, s, c);
    }
  }

  lemma {:induction false} FinishedAnswer<W(!new)>(
      stack: C.Stack<W>, uses: seq<Use>, first: nat, w: W, s: World<W>, p: nat)
    requires AllSound(stack, uses) && Inv(stack, uses, first, w, s) && p < |s.server.order|
    ensures ReturnsHandled(stack, uses, w, s, p)
  {
    var c, before := s.server.order[p], s.server.order[..p];
    if s.clients.tasks[c].Finished? {
      FinishedCall(stack, uses, first, w, s, p);
      SerialIsHandlers(stack, uses, before, w);
      ServedIsHandled(stack, uses, c, AfterHandlers(stack, uses, before, w));
    }
  }

  /** The call whose atomic step was the one at place `p` has finished with the answer that the serial run
      gives there, and its future has read it. */
  lemma {:induction false} FinishedCall<W(!new)>(
      stack: C.Stack<W>, uses: seq<Use>, first: nat, w: W, s: World<W>, p: nat)
    requires AllSound(stack, uses) && Inv(stack, uses, first, w, s) && p < |s.server.order|
    requires s.clients.tasks[s.server.order[p]].Finished?
    ensures var c := s.server.order[p];
      s.clients.tasks[c].result == Read(
        MethodOf(stack, uses[c]).Output(), C.SerialResult(C.Serve(stack), Requests(stack, uses), s.server.order, w, p))
  {
    var c := s.server.order[p];
    assert FutureOk(stack, uses, s, c);
    assert C.CallOk(stack, C.Serve(stack), Requests(stack, uses), w, s.server, c);
    assert C.Answered(s.server.calls[c],
                      C.SerialResult(C.Serve(stack), Requests(stack, uses), s.server.order, w, p));
  }

  // ---- progress ----

  /** How far a future is from its end, and how far its call is. */
  function StagesLeft(future: Future): nat {
    match future
    case Created(_) => 5
    case Preparing(_) => 4
    case AwaitingReady(_, _) => 3
    case ReadyToCall(_, _) => 2
    case InFlight(_) => 1
    case Finished(_, _) => 0
  }

  function StepsLeft(call: C.Phase, depths: nat): nat {
    match call
    case Entering(depth, _) => if depth <= depths then 2 * depths - depth + 3 else 0
    case AtHandler(_, _, _, _) => depths + 2
    case AtFallback(_) => depths + 2
    case Returning(depth, _) => depth + 1
    case Finished(_) => 0
  }

  /** The turn that takes a future towards its end. */
  function Forwards<W>(s: World<W>, c: nat): Turn
    requires c < |s.clients.tasks| == |s.server.calls|
  {
    if s.clients.tasks[c].InFlight? && !s.server.calls[c].Finished? then Serve(c) else Wake(c, Ready)
  }

  lemma {:induction false} CallAdvances<W(!new)>(stack: C.Stack<W>, s: C.System<W>, c: nat)
    requires c < |s.calls| && C.InRange(stack, s.calls[c]) && !s.calls[c].Finished?
    ensures StepsLeft(C.Advance(stack, s, c).calls[c], |stack.layers|) < StepsLeft(s.calls[c], |stack.layers|)
  {}

  lemma {:induction false} FutureAdvances<W(!new)>(
      stack: C.Stack<W>, uses: seq<Use>, first: nat, w: W, s: World<W>, c: nat)
    requires AllSound(stack, uses) && Inv(stack, uses, first, w, s)
    requires c < |uses| && !s.clients.tasks[c].Finished?
    ensures var s' := Next(stack, uses, s, Forwards(s, c));
      var was, now := StagesLeft(s.clients.tasks[c]), StagesLeft(s'.clients.tasks[c]);
      now < was || (now == was &&
        StepsLeft(s'.server.calls[c], |stack.layers|) < StepsLeft(s.server.calls[c], |stack.layers|))
  {
    assert FutureOk(stack, uses, s, c);
    if Forwards(s, c).Serve? {
      C.CallInRange(stack, C.Serve(stack), Requests(stack, uses), w, s.server, c);
      CallAdvances(stack, s.server, c);
    } else {
      WakeAdvances(stack, uses[c], s.clients.tasks[c], s.server.calls[c], s.clients.next);
    }
  }

  lemma {:induction false} WakeAdvances<W>(stack: C.Stack<W>, u: Use, future: Future, call: C.Phase, next: nat)
    requires Exists(stack, u) && !future.Finished? && (future.InFlight? ==> call.Finished?)
    ensures StagesLeft(P.Wake(future, Told(stack, u, future, call, Ready), next)) < StagesLeft(future)
  {}

  /** Turns that bring a future to its end, by the stages and steps that are left. */
  lemma {:induction false} CanFinish<W(!new)>(
      stack: C.Stack<W>, uses: seq<Use>, first: nat, w: W, s: World<W>, c: nat) returns (turns: seq<Turn>)
    requires AllSound(stack, uses) && Inv(stack, uses, first, w, s) && c < |uses|
    ensures Inv(stack, uses, first, w, Run(stack, uses, s, turns))
    ensures Run(stack, uses, s, turns).clients.tasks[c].Finished?
    decreases StagesLeft(s.clients.tasks[c]), StepsLeft(s.server.calls[c], |stack.layers|)
  {
    if s.clients.tasks[c].Finished? {
      turns := [];
    } else {
      var turn := Forwards(s, c);
      FutureAdvances(stack, uses, first, w, s, c);
      NextKeepsInv(stack, uses, first, w, s, turn);
      var more := CanFinish(stack, uses, first, w, Next(stack, uses, s, turn), c);
      turns := [turn] + more;
      assert turns[1..] == more;
    }
  }

  /** No interleaving deadlocks: whatever has happened, every future can be brought to its end. */
  lemma {:induction false} NoDeadlock<W(!new)>(
      stack: C.Stack<W>, uses: seq<Use>, selves: seq<nat>, next: nat, w: W, turns: seq<Turn>, c: nat)
    returns (more: seq<Turn>)
    requires AllSound(stack, uses) && |selves| == |uses| && c < |uses|
    ensures var s := Run(stack, uses, Start(stack, uses, selves, next, w), turns);
      && |s.clients.tasks| == |uses| == |s.server.calls|
      && |Run(stack, uses, s, more).clients.tasks| == |uses|
      && Run(stack, uses, s, more).clients.tasks[c].Finished?
  {
    StartInv(stack, uses, selves, next, w);
    RunKeepsInv(stack, uses, next, w, Start(stack, uses, selves, next, w), turns);
    more := CanFinish(stack, uses, next, w, Run(stack, uses, Start(stack, uses, selves, next, w), turns), c);
  }
}
