/** The Tower readiness protocol: `rpc_call` and the generated stubs as clients of it, and the
    server wrapper, over every behaviour of the services and futures involved. */
module Tower {
  import opened Wrappers
  import opened Search

  /** What `poll_ready` answers. */
  datatype Poll<+E> = Pending | Ready | Broken(err: E)

  /** A future that is awaited: it may never complete. */
  datatype Completion<+T, +E> = Waiting | Completed(result: Result<T, E>)

  /** What happens to service instances; every `clone` makes a new instance. */
  datatype Event<+T, +E> =
    | Cloned(source: nat, copy: nat)
    | Polled(inst: nat, poll: Poll<E>)
    | Called(inst: nat, request: T)

  /** `await?`: go on with the value, or stop with the error or with the wait. */
  function Then<T, U, E>(c: Completion<T, E>, f: T -> Completion<U, E>): Completion<U, E> {
    match c
    case Waiting => Waiting
    case Completed(Err(e)) => Completed(Err(e))
    case Completed(Ok(x)) => f(x)
  }

  /** The services and the executor: `script` is what successive calls of `poll_ready` will answer
      before the future is no longer woken up, `respond` what `call` will answer. */
  class Runtime<T, R, E> {
    var log: seq<Event<T, E>>
    var nextInstance: nat
    var script: seq<Poll<E>>
    const respond: T -> Completion<R, E>

    constructor (instances: nat, script: seq<Poll<E>>, respond: T -> Completion<R, E>)
      ensures log == [] && nextInstance == instances && this.script == script && this.respond == respond
    {
      log, nextInstance := [], instances;
      this.script, this.respond := script, respond;
    }

    method Clone(source: nat) returns (copy: nat)
      modifies this
      ensures copy == old(nextInstance) && nextInstance == copy + 1 && script == old(script)
      ensures log == old(log) + [Cloned(source, copy)]
    {
      copy := nextInstance;
      nextInstance := nextInstance + 1;
      log := log + [Cloned(source, copy)];
    }

    method PollReady(inst: nat) returns (poll: Poll<E>)
      requires script != []
      modifies this
      ensures poll == old(script)[0] && script == old(script)[1..] && nextInstance == old(nextInstance)
      ensures log == old(log) + [Polled(inst, poll)]
    {
      poll := script[0];
      script := script[1..];
      log := log + [Polled(inst, poll)];
    }

    method Call(inst: nat, request: T) returns (answer: Completion<R, E>)
      modifies this
      ensures answer == respond(request) && script == old(script) && nextInstance == old(nextInstance)
      ensures log == old(log) + [Called(inst, request)]
    {
      log := log + [Called(inst, request)];
      answer := respond(request);
    }
  }

  /** The stages around the service: the future that yields the JSON-RPC request, the conversions to
      and from the transport, and the decoding of the response. */
  datatype Stages<!Q, !T, !R, !P, !A, !E> = Stages(
    intoRequest: Completion<Q, E>, toTransport: Q -> Completion<T, E>,
    toResponse: R -> Completion<P, E>, decode: P -> Completion<A, E>)

  // ---- specification ----

  /** Where `poll_ready` first answers something else than `Pending`. */
  function SettledAt<E>(script: seq<Poll<E>>): nat {
    First(script, (p: Poll<E>) => !p.Pending?)
  }

  function Readiness<E>(script: seq<Poll<E>>): Completion<(), E> {
    var k := SettledAt(script);
    if k < |script| then Completed(if script[k].Broken? then Err(script[k].err) else Ok(())) else Waiting
  }

  function PollEvents<T, E>(inst: nat, script: seq<Poll<E>>): seq<Event<T, E>> {
    var k := SettledAt(script);
    seq(if k < |script| then k + 1 else k, i requires 0 <= i < |script| => Polled(inst, script[i]))
  }

  function Prepared<Q, T, R, P, A, E>(st: Stages<Q, T, R, P, A, E>): Completion<T, E> {
    Then(st.intoRequest, st.toTransport)
  }

  /** The first stage that does not succeed decides; otherwise the decoded response is the result. */
  function Outcome<Q, T, R, P, A, E>(st: Stages<Q, T, R, P, A, E>, script: seq<Poll<E>>,
                                     respond: T -> Completion<R, E>): Completion<A, E>
  {
    Then(Prepared(st), t =>
      Then(Readiness(script), _ =>
        Then(Then(respond(t), st.toResponse), st.decode)))
  }

  function Events<Q, T, R, P, A, E>(st: Stages<Q, T, R, P, A, E>, self: nat, copy: nat,
                                    script: seq<Poll<E>>): seq<Event<T, E>>
  {
    [Cloned(self, copy)] +
    (match Prepared(st)
     case Completed(Ok(t)) =>
       PollEvents(copy, script) + (if Readiness(script) == Completed(Ok(())) then [Called(copy, t)] else [])
     case _ => [])
  }

  // ---- the emitted pipeline ----

  method RpcCall<Q, T, R, P, A, E>(rt: Runtime<T, R, E>, self: nat, st: Stages<Q, T, R, P, A, E>)
    returns (result: Completion<A, E>)
    modifies rt
    ensures result == Outcome(st, old(rt.script), rt.respond)
    ensures rt.log == old(rt.log) + Events(st, self, old(rt.nextInstance), old(rt.script))
  {
    var service := rt.Clone(self);
    match st.intoRequest
    case Waiting => result := Waiting;
    case Completed(Err(e)) => result := Completed(Err(e));
    case Completed(Ok(request)) =>
      match st.toTransport(request)
      case Waiting => result := Waiting;
      case Completed(Err(e)) => result := Completed(Err(e));
      case Completed(Ok(clientRequest)) =>
        var readiness := PollUntilReady(rt, service);
        match readiness
        case Waiting => result := Waiting;
        case Completed(Err(e)) => result := Completed(Err(e));
        case Completed(Ok(_)) =>
          var answer := rt.Call(service, clientRequest);
          match answer
          case Waiting => result := Waiting;
          case Completed(Err(e)) => result := Completed(Err(e));
          case Completed(Ok(raw)) =>
            match st.toResponse(raw)
            case Waiting => result := Waiting;
            case Completed(Err(e)) => result := Completed(Err(e));
            case Completed(Ok(response)) => result := st.decode(response);
  }

  /** `poll_fn(|cx| service.poll_ready(cx)).await`. */
  method PollUntilReady<T, R, E>(rt: Runtime<T, R, E>, service: nat) returns (readiness: Completion<(), E>)
    modifies rt
    ensures readiness == Readiness(old(rt.script))
    ensures rt.log == old(rt.log) + PollEvents(service, old(rt.script))
  {
    ghost var script, log := rt.script, rt.log;
    ghost var k := SettledAt(script);
    ghost var n := 0;
    while rt.script != []
      invariant n <= |script| && n <= k && rt.script == script[n..]
      invariant rt.log == log + seq(n, i requires 0 <= i < n && n <= |script| => Polled(service, script[i]))
      decreases |rt.script|
    {
      var poll := rt.PollReady(service);
      assert poll == script[n];
      n := n + 1;
      match poll
      case Pending =>
      case Ready =>
        assert k == n - 1;
        assert rt.log == log + PollEvents(service, script);
        return Completed(Ok(()));
      case Broken(e) =>
        assert k == n - 1;
        assert rt.log == log + PollEvents(service, script);
        return Completed(Err(e));
    }
    assert k == |script|;
    assert rt.log == log + PollEvents(service, script);
    return Waiting;
  }

  // ---- safety ----

  predicate CalledAtMostOnce<T, E>(log: seq<Event<T, E>>) {
    forall i, j :: 0 <= i < j < |log| ==> !(log[i].Called? && log[j].Called?)
  }

  /** Every call is made on an instance whose readiness was the last thing observed. */
  predicate CalledWhenReady<T, E>(log: seq<Event<T, E>>) {
    forall i :: 0 <= i < |log| && log[i].Called? ==>
      i > 0 && log[i - 1].Polled? && log[i - 1].inst == log[i].inst && log[i - 1].poll.Ready?
  }

  predicate NotCalledAfterError<T, E>(log: seq<Event<T, E>>) {
    forall i, j :: 0 <= i < j < |log| && log[i].Polled? && log[i].poll.Broken? ==> !log[j].Called?
  }

  /** The caller's own instance is neither polled nor called. */
  predicate LeavesAlone<T, E>(log: seq<Event<T, E>>, self: nat) {
    forall i :: 0 <= i < |log| && !log[i].Cloned? ==> log[i].inst != self
  }

  /** Over every behaviour of futures and services, the service is called at most once, on the clone
      that was just found ready, and never after an error. */
  lemma {:induction false} PipelineIsSafe<Q, T, R, P, A, E>(
      st: Stages<Q, T, R, P, A, E>, self: nat, copy: nat, script: seq<Poll<E>>)
    requires self < copy
    ensures var log := Events(st, self, copy, script);
            CalledAtMostOnce(log) && CalledWhenReady(log) && NotCalledAfterError(log) && LeavesAlone(log, self)
  {
    EventsShape(st, self, copy, script);
  }

  /** The clone, then the polls up to the first that settles, then at most one call of the clone. */
  lemma {:induction false} EventsShape<Q, T, R, P, A, E>(
      st: Stages<Q, T, R, P, A, E>, self: nat, copy: nat, script: seq<Poll<E>>)
    ensures var log, k := Events(st, self, copy, script), SettledAt(script);
      && log[0] == Cloned(self, copy)
      && (forall i :: 1 <= i < |log| ==> i == k + 2 || (i <= |script| && log[i] == Polled(copy, script[i - 1])))
      && (forall i :: 0 <= i < k ==> script[i].Pending?)
      && (forall i :: k + 2 <= i < |log| ==>
            i == k + 2 && k < |script| && script[k].Ready? && log[i].Called? && log[i].inst == copy)
  {
    var log, k := Events(st, self, copy, script), SettledAt(script);
    var p := (p: Poll<E>) => !p.Pending?;
    forall i | 0 <= i < k ensures script[i].Pending? { assert !p(script[i]); }
    match Prepared(st)
    case Completed(Ok(t)) =>
      var polls: seq<Event<T, E>> := PollEvents(copy, script);
      assert |polls| <= k + 1;
      forall i | 0 <= i < |polls| ensures log[i + 1] == Polled(copy, script[i]) {
        assert log[i + 1] == polls[i];
      }
      forall i | 1 <= i < |log| ensures i == k + 2 || (i <= |script| && log[i] == Polled(copy, script[i - 1])) {
        if i <= |polls| { assert log[(i - 1) + 1] == Polled(copy, script[i - 1]); }
      }
    case _ =>
  }

  /** A completed pipeline either called the service or stopped with an error. */
  lemma {:induction false} OnlyErrorsSkipTheCall<Q, T, R, P, A, E>(
      st: Stages<Q, T, R, P, A, E>, self: nat, copy: nat, script: seq<Poll<E>>, respond: T -> Completion<R, E>)
    requires Outcome(st, script, respond).Completed?
    requires Outcome(st, script, respond).result.Ok?
    ensures exists i :: 0 <= i < |Events(st, self, copy, script)| && Events(st, self, copy, script)[i].Called?
  {
    var log := Events(st, self, copy, script);
    assert log[|log| - 1].Called?;
  }

  // ---- the server wrapper ----

  /** `JsonRpcServer<S>`: holds an instance of the inner service. */
  class JsonRpcServer<T, R, E> {
    const inner: nat

    constructor (inner: nat)
      ensures this.inner == inner
    {
      this.inner := inner;
    }

    method PollReady(rt: Runtime<T, R, E>) returns (poll: Poll<E>)
      requires rt.script != []
      modifies rt
      ensures poll == old(rt.script)[0]
      ensures rt.log == old(rt.log) + [Polled(inner, poll)]
    {
      poll := rt.PollReady(inner);
    }

    method Call<A>(rt: Runtime<T, R, E>, converted: Completion<T, E>, fromResponse: R -> Completion<A, E>)
      returns (result: Completion<A, E>)
      modifies rt
      ensures result == Then(Then(converted, rt.respond), fromResponse)
      ensures rt.log == old(rt.log) + ServerEvents(inner, old(rt.nextInstance), converted)
    {
      var service := rt.Clone(inner);
      match converted
      case Waiting => result := Waiting;
      case Completed(Err(e)) => result := Completed(Err(e));
      case Completed(Ok(request)) =>
        var answer := rt.Call(service, request);
        match answer
        case Waiting => result := Waiting;
        case Completed(Err(e)) => result := Completed(Err(e));
        case Completed(Ok(response)) => result := fromResponse(response);
    }
  }

  function ServerEvents<T, E>(inner: nat, copy: nat, converted: Completion<T, E>): seq<Event<T, E>> {
    [Cloned(inner, copy)] +
    (match converted case Completed(Ok(request)) => [Called(copy, request)] case _ => [])
  }

  /** Whatever was polled and called before, the server wrapper calls a fresh clone, so the readiness
      rule goes on being kept exactly when the conversion of the request leaves nothing to call. */
  lemma {:induction false} ServerReadiness<T, E>(
      before: seq<Event<T, E>>, inner: nat, copy: nat, converted: Completion<T, E>)
    requires CalledWhenReady(before)
    ensures CalledWhenReady(before + ServerEvents(inner, copy, converted)) <==>
            !(converted.Completed? && converted.result.Ok?)
  {
    var log := before + ServerEvents(inner, copy, converted);
    if converted.Completed? && converted.result.Ok? {
      assert log[|before| + 1].Called? && log[|before|].Cloned?;
    }
  }
}
