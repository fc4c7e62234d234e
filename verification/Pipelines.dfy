/** Any number of `rpc_call` and stub futures, started from any service instances and woken up in any
    order, while the environment answers every wake-up as it likes. */
module Pipelines {
  import opened Wrappers
  import opened Tower

  /** Where a future is. The step out of `Created` is the caller's call, which clones at once; after
      that the future waits for the request to be prepared, for its clone to get ready, or for the
      answer. `ReadyToCall` is the point between readiness and the call. `copy` is the clone. */
  datatype Task<+T, +A, +E> =
    | Created(self: nat)
    | Preparing(copy: nat)
    | AwaitingReady(copy: nat, request: T)
    | ReadyToCall(copy: nat, request: T)
    | InFlight(copy: nat)
    | Finished(copy: nat, result: Result<A, E>)

  /** What the environment has to say when a future is woken up. */
  datatype Input<+T, +A, +E> =
    | Prepare(request: Completion<T, E>)
    | Readiness(poll: Poll<E>)
    | Answer(answer: Completion<A, E>)

  datatype World<T, A, E> = World(tasks: seq<Task<T, A, E>>, log: seq<Event<T, E>>, next: nat)

  function Start<T, A, E>(selves: seq<nat>, next: nat): World<T, A, E> {
    World(seq(|selves|, i requires 0 <= i < |selves| => Created(selves[i])), [], next)
  }

  /** The next state of a task that is woken up; an input for another stage leaves it where it is. */
  function Wake<T, A, E>(task: Task<T, A, E>, input: Input<T, A, E>, next: nat): Task<T, A, E> {
    match (task, input)
    case (Created(_), _) => Preparing(next)
    case (Preparing(copy), Prepare(Completed(Ok(t)))) => AwaitingReady(copy, t)
    case (Preparing(copy), Prepare(Completed(Err(e)))) => Finished(copy, Err(e))
    case (AwaitingReady(copy, t), Readiness(Ready)) => ReadyToCall(copy, t)
    case (AwaitingReady(copy, _), Readiness(Broken(e))) => Finished(copy, Err(e))
    case (ReadyToCall(copy, _), _) => InFlight(copy)
    case (InFlight(copy), Answer(Completed(r))) => Finished(copy, r)
    case _ => task
  }

  /** The event that waking up the task causes, if any. */
  function Emitted<T, A, E>(task: Task<T, A, E>, input: Input<T, A, E>, next: nat): seq<Event<T, E>> {
    match (task, input)
    case (Created(self), _) => [Cloned(self, next)]
    case (AwaitingReady(copy, _), Readiness(p)) => [Polled(copy, p)]
    case (ReadyToCall(copy, t), _) => [Called(copy, t)]
    case _ => []
  }

  function Step<T, A, E>(w: World<T, A, E>, c: nat, input: Input<T, A, E>): World<T, A, E>
    requires c < |w.tasks|
  {
    World(w.tasks[c := Wake(w.tasks[c], input, w.next)], w.log + Emitted(w.tasks[c], input, w.next),
          if w.tasks[c].Created? then w.next + 1 else w.next)
  }

  /** Wake-ups of tasks that do not exist are skipped. */
  function Run<T, A, E>(w: World<T, A, E>, schedule: seq<(nat, Input<T, A, E>)>): World<T, A, E>
    decreases |schedule|
  {
    if schedule == [] then w
    else if schedule[0].0 < |w.tasks| then Run(Step(w, schedule[0].0, schedule[0].1), schedule[1..])
    else Run(w, schedule[1..])
  }

  // ---- safety ----

  predicate About<T, E>(event: Event<T, E>, inst: nat) {
    !event.Cloned? && event.inst == inst
  }

  /** The instance was polled, if at all, without an error, and was not called. */
  predicate Unspoiled<T, E>(log: seq<Event<T, E>>, inst: nat) {
    forall i :: 0 <= i < |log| && About(log[i], inst) ==> log[i].Polled? && !log[i].poll.Broken?
  }

  /** The last thing that happened to the instance is that it was found ready. */
  predicate FoundReady<T, E>(log: seq<Event<T, E>>, inst: nat) {
    exists j :: 0 <= j < |log| && log[j] == Polled(inst, Ready) && forall i :: j < i < |log| ==> !About(log[i], inst)
  }

  /** Each call is the first call of its instance, right after the instance was found ready, and no
      poll of the instance ever failed; the instance is a clone made for the call. */
  predicate Safe<T, E>(log: seq<Event<T, E>>, first: nat) {
    forall i :: 0 <= i < |log| && log[i].Called? ==>
      Unspoiled(log[..i], log[i].inst) && FoundReady(log[..i], log[i].inst) && log[i].inst >= first
  }

  /** The task has made its clone. */
  predicate Started<T, A, E>(task: Task<T, A, E>) {
    !task.Created?
  }

  predicate TaskOk<T, A, E>(w: World<T, A, E>, first: nat, c: nat)
    requires c < |w.tasks|
  {
    Started(w.tasks[c]) ==>
      && first <= w.tasks[c].copy < w.next
      && (!w.tasks[c].InFlight? && !w.tasks[c].Finished? ==> Unspoiled(w.log, w.tasks[c].copy))
      && (w.tasks[c].ReadyToCall? ==> FoundReady(w.log, w.tasks[c].copy))
  }

  predicate Apart<T, A, E>(w: World<T, A, E>) {
    forall c, e :: 0 <= c < e < |w.tasks| && Started(w.tasks[c]) && Started(w.tasks[e]) ==>
      w.tasks[c].copy != w.tasks[e].copy
  }

  predicate Inv<T, A, E>(w: World<T, A, E>, first: nat) {
    && first <= w.next
    && (forall i :: 0 <= i < |w.log| ==> Instance(w.log[i]) < w.next)
    && (forall c :: 0 <= c < |w.tasks| ==> TaskOk(w, first, c))
    && Apart(w)
    && Safe(w.log, first)
  }

  /** What is known of an instance stays true when something happens that is not about it. */
  lemma {:induction false} OtherEvent<T, E>(log: seq<Event<T, E>>, event: Event<T, E>, inst: nat)
    requires !About(event, inst)
    ensures Unspoiled(log, inst) ==> Unspoiled(log + [event], inst)
    ensures FoundReady(log, inst) ==> FoundReady(log + [event], inst)
  {
    if FoundReady(log, inst) {
      var j :| 0 <= j < |log| && log[j] == Polled(inst, Ready) && forall i :: j < i < |log| ==> !About(log[i], inst);
      assert (log + [event])[j] == Polled(inst, Ready);
    }
  }

  lemma {:induction false} PolledOnce<T, E>(log: seq<Event<T, E>>, inst: nat, poll: Poll<E>)
    requires Unspoiled(log, inst)
    ensures !poll.Broken? ==> Unspoiled(log + [Polled(inst, poll)], inst)
    ensures poll.Ready? ==> FoundReady(log + [Polled(inst, poll)], inst)
  {
    var log' := log + [Polled(inst, poll)];
    assert log'[|log|] == Polled(inst, poll);
  }

  lemma {:induction false} SafeGrows<T, E>(log: seq<Event<T, E>>, event: Event<T, E>, first: nat)
    requires Safe(log, first)
    requires event.Called? ==> Unspoiled(log, event.inst) && FoundReady(log, event.inst) && event.inst >= first
    ensures Safe(log + [event], first)
  {
    var log' := log + [event];
    forall i | 0 <= i < |log'| && log'[i].Called?
      ensures Unspoiled(log'[..i], log'[i].inst) && FoundReady(log'[..i], log'[i].inst) && log'[i].inst >= first
    {
      assert log'[..i] == log[..i];
      if i == |log| { assert log[..i] == log; }
    }
  }

  lemma {:induction false} StepKeepsInv<T, A, E>(w: World<T, A, E>, first: nat, c: nat, input: Input<T, A, E>)
    requires Inv(w, first) && c < |w.tasks|
    ensures Inv(Step(w, c, input), first)
  {
    var w' := Step(w, c, input);
    var emitted := Emitted(w.tasks[c], input, w.next);
    assert TaskOk(w, first, c);
    if emitted == [] {
      assert w'.log == w.log;
    } else {
      var event := emitted[0];
      assert emitted == [event];
      SafeGrows(w.log, event, first);
    }
    forall e | 0 <= e < |w.tasks| ensures TaskOk(w', first, e) { StepKeepsTask(w, first, c, input, e); }
    StepKeepsApart(w, first, c, input);
  }

  lemma {:induction false} StepKeepsApart<T, A, E>(w: World<T, A, E>, first: nat, c: nat, input: Input<T, A, E>)
    requires Inv(w, first) && c < |w.tasks|
    ensures Apart(Step(w, c, input))
  {
    var w' := Step(w, c, input);
    forall a, b | 0 <= a < b < |w'.tasks| && Started(w'.tasks[a]) && Started(w'.tasks[b])
      ensures w'.tasks[a].copy != w'.tasks[b].copy
    {
      assert TaskOk(w, first, a) && TaskOk(w, first, b);
    }
  }

  /** The step of task `c` keeps what is known of task `e`. */
  lemma {:induction false} StepKeepsTask<T, A, E>(
      w: World<T, A, E>, first: nat, c: nat, input: Input<T, A, E>, e: nat)
    requires Inv(w, first) && c < |w.tasks| && e < |w.tasks|
    ensures TaskOk(Step(w, c, input), first, e)
  {
    var w' := Step(w, c, input);
    var emitted := Emitted(w.tasks[c], input, w.next);
    assert TaskOk(w, first, c) && TaskOk(w, first, e);
    if emitted == [] {
      assert w'.log == w.log;
    } else if Started(w'.tasks[e]) && !w'.tasks[e].InFlight? && !w'.tasks[e].Finished? {
      var event, inst := emitted[0], w'.tasks[e].copy;
      assert w'.log == w.log + [event];
      if event.Polled? && e == c {
        PolledOnce(w.log, inst, event.poll);
      } else {
        OtherEvent(w.log, event, inst);
      }
    }
  }

  lemma {:induction false} RunKeepsInv<T, A, E>(
      w: World<T, A, E>, first: nat, schedule: seq<(nat, Input<T, A, E>)>)
    requires Inv(w, first)
    ensures Inv(Run(w, schedule), first)
    decreases |schedule|
  {
    if schedule != [] {
      if schedule[0].0 < |w.tasks| {
        StepKeepsInv(w, first, schedule[0].0, schedule[0].1);
        RunKeepsInv(Step(w, schedule[0].0, schedule[0].1), first, schedule[1..]);
      } else {
        RunKeepsInv(w, first, schedule[1..]);
      }
    }
  }

  /** Over every interleaving and every answer of the environment, the service is called only on clones,
      at most once per clone, right after the clone was found ready and never after an error. */
  lemma {:induction false} EveryRunIsSafe<T, A, E>(selves: seq<nat>, next: nat, schedule: seq<(nat, Input<T, A, E>)>)
    requires forall i :: 0 <= i < |selves| ==> selves[i] < next
    ensures Safe(Run<T, A, E>(Start(selves, next), schedule).log, next)
  {
    RunKeepsInv(Start(selves, next), next, schedule);
  }

  /** Each call uses up its clone. */
  lemma {:induction false} CallsAreDistinct<T, E>(log: seq<Event<T, E>>, first: nat, i: nat, j: nat)
    requires Safe(log, first) && i < j < |log| && log[i].Called? && log[j].Called?
    ensures log[i].inst != log[j].inst
  {
    assert log[..j][i] == log[i];
  }

  // ---- failure before the call ----

  /** The clone reported the error and was never called. */
  ghost predicate GaveUp<T, E>(log: seq<Event<T, E>>, copy: nat, error: E) {
    && (exists i :: 0 <= i < |log| && log[i] == Polled(copy, Broken(error)))
    && (forall i :: 0 <= i < |log| && log[i].Called? ==> log[i].inst != copy)
  }

  lemma {:induction false} BrokenGivesUp<T, A, E>(w: World<T, A, E>, first: nat, c: nat, error: E)
    requires Inv(w, first) && c < |w.tasks| && w.tasks[c].AwaitingReady?
    ensures GaveUp(Step(w, c, Readiness(Broken(error))).log, w.tasks[c].copy, error)
  {
    assert TaskOk(w, first, c);
    var log := Step(w, c, Readiness(Broken(error))).log;
    assert log[|w.log|] == Polled(w.tasks[c].copy, Broken(error));
  }

  /** Nothing that other tasks do, and nothing more from the task itself, brings the clone back. */
  lemma {:induction false} GivenUpForGood<T, A, E>(
      w: World<T, A, E>, first: nat, c: nat, input: Input<T, A, E>, e: nat, error: E)
    requires Inv(w, first) && c < |w.tasks| && e < |w.tasks| && w.tasks[e].Finished?
    requires GaveUp(w.log, w.tasks[e].copy, error)
    ensures GaveUp(Step(w, c, input).log, w.tasks[e].copy, error)
  {
    assert TaskOk(w, first, c) && TaskOk(w, first, e);
    var log, copy := Step(w, c, input).log, w.tasks[e].copy;
    var i :| 0 <= i < |w.log| && w.log[i] == Polled(copy, Broken(error));
    assert log[i] == Polled(copy, Broken(error));
  }

  // ---- isolation ----

  /** The inputs of one task, in order. */
  function InputsOf<T, A, E>(schedule: seq<(nat, Input<T, A, E>)>, c: nat): seq<Input<T, A, E>> {
    if schedule == [] then []
    else (if schedule[0].0 == c then [schedule[0].1] else []) + InputsOf(schedule[1..], c)
  }

  /** What a task does when it is the only one; `copy` is the clone it makes. */
  function Alone<T, A, E>(task: Task<T, A, E>, inputs: seq<Input<T, A, E>>, copy: nat): Task<T, A, E>
    decreases |inputs|
  {
    if inputs == [] then task else Alone(Wake(task, inputs[0], copy), inputs[1..], copy)
  }

  /** The events it causes. */
  function AloneLog<T, A, E>(task: Task<T, A, E>, inputs: seq<Input<T, A, E>>, copy: nat): seq<Event<T, E>>
    decreases |inputs|
  {
    if inputs == [] then []
    else Emitted(task, inputs[0], copy) + AloneLog(Wake(task, inputs[0], copy), inputs[1..], copy)
  }

  /** The instance that an event made, polled or called. */
  function Instance<T, E>(event: Event<T, E>): nat {
    if event.Cloned? then event.copy else event.inst
  }

  /** The part of a log that is about one clone. */
  function EventsOf<T, E>(log: seq<Event<T, E>>, copy: nat): seq<Event<T, E>> {
    if log == [] then []
    else
      var last := |log| - 1;
      EventsOf(log[..last], copy) + (if Instance(log[last]) == copy then [log[last]] else [])
  }

  lemma {:induction false} EventsOfMore<T, E>(log: seq<Event<T, E>>, more: seq<Event<T, E>>, copy: nat)
    requires |more| <= 1
    ensures EventsOf(log + more, copy) ==
            if more != [] && Instance(more[0]) == copy then EventsOf(log, copy) + more else EventsOf(log, copy)
  {
    if more == [] {
      assert log + more == log;
    } else {
      assert (log + more)[..|log|] == log && more == [more[0]];
      assert EventsOf(log, copy) + [] == EventsOf(log, copy);
    }
  }

  lemma {:induction false} NoEventsOf<T, E>(log: seq<Event<T, E>>, copy: nat)
    requires forall i :: 0 <= i < |log| ==> Instance(log[i]) != copy
    ensures EventsOf(log, copy) == []
  {
    if log != [] { NoEventsOf(log[..|log| - 1], copy); }
  }

  lemma {:induction false} AloneUnfold<T, A, E>(
      task: Task<T, A, E>, input: Input<T, A, E>, more: seq<Input<T, A, E>>, copy: nat)
    ensures Alone(task, [input] + more, copy) == Alone(Wake(task, input, copy), more, copy)
    ensures AloneLog(task, [input] + more, copy) ==
            Emitted(task, input, copy) + AloneLog(Wake(task, input, copy), more, copy)
  {
    assert ([input] + more)[1..] == more;
  }

  /** Task `c` has made the clone `copy`, and no other task will act on it. */
  predicate Keeps<T, A, E>(w: World<T, A, E>, c: nat, copy: nat) {
    && c < |w.tasks| && !w.tasks[c].Created? && copy < w.next
    && (Started(w.tasks[c]) ==> w.tasks[c].copy == copy)
    && forall e :: 0 <= e < |w.tasks| && e != c && Started(w.tasks[e]) ==> w.tasks[e].copy != copy
  }

  /** What a task does is about the clone it holds, or about the one it makes. */
  lemma {:induction false} ActsOnItsClone<T, A, E>(task: Task<T, A, E>, input: Input<T, A, E>, next: nat)
    ensures var events := Emitted(task, input, next);
      && |events| <= 1
      && (events != [] ==> Instance(events[0]) == if task.Created? then next else task.copy)
      && (events != [] ==> task.Created? || Started(task))
    ensures Started(Wake(task, input, next)) ==>
      (task.Created? || Started(task)) && Wake(task, input, next).copy == if task.Created? then next else task.copy
  {}

  lemma {:induction false} StartedIgnoresNext<T, A, E>(task: Task<T, A, E>, input: Input<T, A, E>, a: nat, b: nat)
    requires !task.Created?
    ensures Wake(task, input, a) == Wake(task, input, b) && Emitted(task, input, a) == Emitted(task, input, b)
    ensures !Wake(task, input, a).Created?
  {}

  lemma {:induction false} StepKeepsClone<T, A, E>(
      w: World<T, A, E>, e: nat, input: Input<T, A, E>, c: nat, copy: nat)
    requires Keeps(w, c, copy) && e < |w.tasks|
    ensures Keeps(Step(w, e, input), c, copy)
  {
    ActsOnItsClone(w.tasks[e], input, w.next);
  }

  /** One step, seen from a task that has made its clone. */
  lemma {:induction false} StepSeenFrom<T, A, E>(
      w: World<T, A, E>, e: nat, input: Input<T, A, E>, c: nat, copy: nat)
    requires Keeps(w, c, copy) && e < |w.tasks|
    ensures Step(w, e, input).tasks[c] == if e == c then Wake(w.tasks[c], input, copy) else w.tasks[c]
    ensures EventsOf(Step(w, e, input).log, copy) ==
            if e == c then EventsOf(w.log, copy) + Emitted(w.tasks[c], input, copy) else EventsOf(w.log, copy)
  {
    ActsOnItsClone(w.tasks[e], input, w.next);
    EventsOfMore(w.log, Emitted(w.tasks[e], input, w.next), copy);
    StartedIgnoresNext(w.tasks[c], input, w.next, copy);
    if Emitted(w.tasks[e], input, w.next) == [] { assert EventsOf(w.log, copy) + [] == EventsOf(w.log, copy); }
  }

  lemma {:induction false} FirstStepSeenFrom<T, A, E>(w: World<T, A, E>, first: nat, c: nat, input: Input<T, A, E>)
    requires Inv(w, first) && c < |w.tasks| && w.tasks[c].Created?
    ensures Keeps(Step(w, c, input), c, w.next)
  {
    forall e | 0 <= e < |w.tasks| && e != c && Started(w.tasks[e]) ensures w.tasks[e].copy != w.next {
      assert TaskOk(w, first, e);
    }
  }

  /** Task `c` is where the inputs lead from `w`, and so is the trace on its clone. */
  ghost predicate Followed<T, A, E>(
      w: World<T, A, E>, r: World<T, A, E>, c: nat, inputs: seq<Input<T, A, E>>, copy: nat)
    requires c < |w.tasks|
  {
    && |r.tasks| == |w.tasks| && r.tasks[c] == Alone(w.tasks[c], inputs, copy)
    && EventsOf(r.log, copy) == EventsOf(w.log, copy) + AloneLog(w.tasks[c], inputs, copy)
  }

  lemma {:induction false} FollowsStep<T, A, E>(
      w: World<T, A, E>, e: nat, input: Input<T, A, E>, r: World<T, A, E>, c: nat,
      more: seq<Input<T, A, E>>, copy: nat)
    requires Keeps(w, c, copy) && e < |w.tasks| && Followed(Step(w, e, input), r, c, more, copy)
    ensures Followed(w, r, c, if e == c then [input] + more else more, copy)
  {
    StepSeenFrom(w, e, input, c, copy);
    if e == c {
      var task := w.tasks[c];
      AloneUnfold(task, input, more, copy);
      Associative(EventsOf(w.log, copy), Emitted(task, input, copy), AloneLog(Wake(task, input, copy), more, copy));
    }
  }

  lemma {:induction false} Associative<X>(a: seq<X>, b: seq<X>, c: seq<X>)
    ensures (a + b) + c == a + (b + c)
  {}

  lemma {:induction false} StartedIsIsolated<T, A, E>(
      w: World<T, A, E>, schedule: seq<(nat, Input<T, A, E>)>, c: nat, copy: nat)
    requires Keeps(w, c, copy)
    ensures Followed(w, Run(w, schedule), c, InputsOf(schedule, c), copy)
    decreases |schedule|
  {
    if schedule != [] {
      var (e, input) := schedule[0];
      InputsUnfold(schedule, c);
      if e < |w.tasks| {
        StepKeepsClone(w, e, input, c, copy);
        StartedIsIsolated(Step(w, e, input), schedule[1..], c, copy);
        FollowsStep(w, e, input, Run(w, schedule), c, InputsOf(schedule[1..], c), copy);
      } else {
        StartedIsIsolated(w, schedule[1..], c, copy);
      }
    }
  }

  lemma {:induction false} InputsUnfold<T, A, E>(schedule: seq<(nat, Input<T, A, E>)>, c: nat)
    requires schedule != []
    ensures var inputs, more := InputsOf(schedule, c), InputsOf(schedule[1..], c);
            inputs == if schedule[0].0 == c then [schedule[0].1] + more else more
  {
    var more := InputsOf(schedule[1..], c);
    assert [] + more == more;
  }

  /** From its first step on, which makes the clone. */
  lemma {:induction false} CreatedIsIsolated<T, A, E>(
      w: World<T, A, E>, first: nat, input: Input<T, A, E>, schedule: seq<(nat, Input<T, A, E>)>, c: nat)
    requires Inv(w, first) && c < |w.tasks| && w.tasks[c].Created?
    ensures var r, inputs := Run(Step(w, c, input), schedule), [input] + InputsOf(schedule, c);
      && |r.tasks| == |w.tasks| && r.tasks[c] == Alone(w.tasks[c], inputs, w.next)
      && EventsOf(r.log, w.next) == AloneLog(w.tasks[c], inputs, w.next)
  {
    var made: seq<Event<T, E>> := [Cloned(w.tasks[c].self, w.next)];
    assert Emitted(w.tasks[c], input, w.next) == made;
    NoEventsOf(w.log, w.next);
    EventsOfMore(w.log, made, w.next);
    assert [] + made == made;
    FirstStepSeenFrom(w, first, c, input);
    AloneUnfold(w.tasks[c], input, InputsOf(schedule, c), w.next);
    StartedIsIsolated(Step(w, c, input), schedule, c, w.next);
  }

  /** No future notices the others: in every interleaving it makes one clone, is where its own inputs
      lead to, and leaves on that clone the trace it would leave alone. */
  lemma {:induction false} TasksAreIsolated<T, A, E>(
      w: World<T, A, E>, first: nat, schedule: seq<(nat, Input<T, A, E>)>, c: nat) returns (copy: nat)
    requires Inv(w, first) && c < |w.tasks| && w.tasks[c].Created?
    ensures var r, inputs := Run(w, schedule), InputsOf(schedule, c);
      && copy >= w.next && |r.tasks| == |w.tasks| && r.tasks[c] == Alone(w.tasks[c], inputs, copy)
      && EventsOf(r.log, copy) == AloneLog(w.tasks[c], inputs, copy)
    decreases |schedule|
  {
    if schedule == [] {
      copy := w.next;
      NoEventsOf(w.log, copy);
    } else {
      var (e, input) := schedule[0];
      InputsUnfold(schedule, c);
      if e == c {
        copy := w.next;
        CreatedIsIsolated(w, first, input, schedule[1..], c);
      } else if e < |w.tasks| {
        StepKeepsInv(w, first, e, input);
        copy := TasksAreIsolated(Step(w, e, input), first, schedule[1..], c);
      } else {
        copy := TasksAreIsolated(w, first, schedule[1..], c);
      }
    }
  }

  // ---- refinement of the sequential pipeline ----

  function Repeat<X>(x: X, n: nat): seq<X> {
    if n == 0 then [] else [x] + Repeat(x, n - 1)
  }

  function PollInputs<T, A, E>(script: seq<Poll<E>>): seq<Input<T, A, E>> {
    if script == [] then [] else [Readiness(script[0])] + PollInputs(script[1..])
  }

  function AnswerTo<Q, T, R, P, A, E>(
      st: Stages<Q, T, R, P, A, E>, respond: T -> Completion<R, E>, t: T): Completion<A, E>
  {
    Then(Then(respond(t), st.toResponse), st.decode)
  }

  /** What an environment that behaves as `Tower` describes it says to one future, which is woken up
      `m` times in vain before the request is prepared and `n` times before the answer is there. */
  function InputsFrom<Q, T, R, P, A, E>(
      st: Stages<Q, T, R, P, A, E>, script: seq<Poll<E>>, respond: T -> Completion<R, E>, m: nat, n: nat)
    : seq<Input<T, A, E>>
  {
    ([Prepare(Waiting)] + Repeat(Prepare(Waiting), m) + [Prepare(Prepared(st))]) +
    ((PollInputs(script) + [Answer(Waiting)]) +
     (Repeat(Answer(Waiting), n) + [Answer(Then(Prepared(st), t => AnswerTo(st, respond, t)))]))
  }

  /** Where the sequential pipeline ends or waits. */
  function Rest<Q, T, R, P, A, E>(
      st: Stages<Q, T, R, P, A, E>, script: seq<Poll<E>>, respond: T -> Completion<R, E>, copy: nat): Task<T, A, E>
  {
    match Prepared(st)
    case Waiting => Preparing(copy)
    case Completed(Err(e)) => Finished(copy, Err(e))
    case Completed(Ok(t)) =>
      match Tower.Readiness(script)
      case Waiting => AwaitingReady(copy, t)
      case Completed(Err(e)) => Finished(copy, Err(e))
      case Completed(Ok(_)) =>
        match AnswerTo(st, respond, t)
        case Waiting => InFlight(copy)
        case Completed(r) => Finished(copy, r)
  }

  lemma {:induction false} AloneAppend<T, A, E>(
      task: Task<T, A, E>, a: seq<Input<T, A, E>>, b: seq<Input<T, A, E>>, copy: nat)
    ensures Alone(task, a + b, copy) == Alone(Alone(task, a, copy), b, copy)
    ensures AloneLog(task, a + b, copy) == AloneLog(task, a, copy) + AloneLog(Alone(task, a, copy), b, copy)
    decreases |a|
  {
    if a == [] {
      assert a + b == b;
    } else {
      assert (a + b)[0] == a[0] && (a + b)[1..] == a[1..] + b;
      AloneAppend(Wake(task, a[0], copy), a[1..], b, copy);
    }
  }

  lemma {:induction false} AloneOnce<T, A, E>(task: Task<T, A, E>, input: Input<T, A, E>, copy: nat)
    ensures Alone(task, [input], copy) == Wake(task, input, copy)
    ensures AloneLog(task, [input], copy) == Emitted(task, input, copy)
  {
    assert [input][1..] == [];
    assert AloneLog(Wake(task, input, copy), [], copy) == [];
  }

  /** Inputs that neither move a task nor make it act. */
  lemma {:induction false} InVain<T, A, E>(task: Task<T, A, E>, inputs: seq<Input<T, A, E>>, copy: nat)
    requires forall i :: 0 <= i < |inputs| ==>
      Wake(task, inputs[i], copy) == task && Emitted(task, inputs[i], copy) == []
    ensures Alone(task, inputs, copy) == task && AloneLog(task, inputs, copy) == []
    decreases |inputs|
  {
    if inputs != [] { InVain(task, inputs[1..], copy); }
  }

  lemma {:induction false} Repeated<X>(x: X, n: nat)
    ensures forall i :: 0 <= i < |Repeat(x, n)| ==> Repeat(x, n)[i] == x
  {
    if n > 0 { Repeated(x, n - 1); }
  }

  lemma {:induction false} AllPolls<T, A, E>(script: seq<Poll<E>>)
    ensures forall i :: 0 <= i < |PollInputs<T, A, E>(script)| ==> PollInputs<T, A, E>(script)[i].Readiness?
  {
    if script != [] { AllPolls<T, A, E>(script[1..]); }
  }

  lemma {:induction false} PollEventsUnfold<T, E>(copy: nat, script: seq<Poll<E>>)
    requires script != []
    ensures PollEvents<T, E>(copy, script) ==
            [Polled(copy, script[0])] + if script[0].Pending? then PollEvents<T, E>(copy, script[1..]) else []
    ensures Tower.Readiness(script) == match script[0]
                                       case Pending => Tower.Readiness(script[1..])
                                       case Ready => Completed(Ok(()))
                                       case Broken(e) => Completed(Err(e))
  {
    var whole: seq<Event<T, E>> := PollEvents(copy, script);
    if script[0].Pending? {
      var tail: seq<Event<T, E>> := PollEvents(copy, script[1..]);
      forall i | 0 < i < |whole| ensures whole[i] == tail[i - 1] {}
      assert whole == [Polled(copy, script[0])] + tail;
    }
  }

  /** The future that waits for readiness goes through the polls as the sequential loop does, and then
      makes the call if it was found ready. */
  lemma {:induction false} PollsRefineLoop<T, A, E>(t: T, script: seq<Poll<E>>, copy: nat)
    ensures var inputs: seq<Input<T, A, E>> := PollInputs(script) + [Answer(Waiting)];
      var task := AwaitingReady(copy, t);
      && Alone(task, inputs, copy) == (match Tower.Readiness(script)
                                       case Waiting => task
                                       case Completed(Err(e)) => Finished(copy, Err(e))
                                       case Completed(Ok(_)) => InFlight(copy))
      && AloneLog(task, inputs, copy) ==
           PollEvents(copy, script) + if Tower.Readiness(script) == Completed(Ok(())) then [Called(copy, t)] else []
    decreases |script|
  {
    var task: Task<T, A, E> := AwaitingReady(copy, t);
    var inputs: seq<Input<T, A, E>> := PollInputs(script) + [Answer(Waiting)];
    if script == [] {
      assert inputs == [Answer(Waiting)];
      AloneOnce(task, Answer(Waiting), copy);
    } else {
      PollEventsUnfold<T, E>(copy, script);
      var more: seq<Input<T, A, E>> := PollInputs(script[1..]) + [Answer(Waiting)];
      assert inputs[0] == Readiness(script[0]) && inputs[1..] == more;
      match script[0]
      case Pending => PollsRefineLoop<T, A, E>(t, script[1..], copy);
      case Ready => CallsNext(t, script[1..], more, copy);
      case Broken(e) => InVain(Finished(copy, Err(e)), more, copy);
    }
  }

  lemma {:induction false} CallsNext<T, A, E>(t: T, script: seq<Poll<E>>, more: seq<Input<T, A, E>>, copy: nat)
    requires more == PollInputs(script) + [Answer(Waiting)]
    ensures Alone(ReadyToCall(copy, t), more, copy) == InFlight(copy)
    ensures AloneLog(ReadyToCall(copy, t), more, copy) == [Called(copy, t)]
  {
    AllPolls<T, A, E>(script);
    InVain(InFlight(copy), more[1..], copy);
  }

  /** The future is woken up until its request is prepared. */
  lemma {:induction false} PreparesRequest<T, A, E>(self: nat, prepared: Completion<T, E>, m: nat, copy: nat)
    ensures var inputs: seq<Input<T, A, E>> :=
        [Prepare(Waiting)] + Repeat(Prepare(Waiting), m) + [Prepare(prepared)];
      && Alone(Created(self), inputs, copy) == (match prepared
                                                case Waiting => Preparing(copy)
                                                case Completed(Err(e)) => Finished(copy, Err(e))
                                                case Completed(Ok(t)) => AwaitingReady(copy, t))
      && AloneLog(Created(self), inputs, copy) == [Cloned(self, copy)]
  {
    var wait: Input<T, A, E> := Prepare(Waiting);
    var idle := Repeat(wait, m);
    AloneAppend(Created(self), [wait] + idle, [Prepare(prepared)], copy);
    AloneAppend(Created(self), [wait], idle, copy);
    AloneOnce(Created(self), wait, copy);
    Repeated(wait, m);
    InVain(Preparing(copy), idle, copy);
    AloneOnce<T, A, E>(Preparing(copy), Prepare(prepared), copy);
  }

  /** Once the call is made, or will never be made, only an answer makes a difference. */
  lemma {:induction false} TakesAnswer<T, A, E>(task: Task<T, A, E>, answer: Completion<A, E>, n: nat, copy: nat)
    requires !task.Created? && !task.ReadyToCall?
    ensures var inputs: seq<Input<T, A, E>> := Repeat(Answer(Waiting), n) + [Answer(answer)];
      && Alone(task, inputs, copy) ==
           (if task.InFlight? && answer.Completed? then Finished(task.copy, answer.result) else task)
      && AloneLog(task, inputs, copy) == []
  {
    var idle: seq<Input<T, A, E>> := Repeat(Answer(Waiting), n);
    Repeated<Input<T, A, E>>(Answer(Waiting), n);
    AloneAppend(task, idle, [Answer(answer)], copy);
    InVain(task, idle, copy);
    AloneOnce(task, Answer(answer), copy);
  }

  /** Under such an environment a future leaves the same trace of clones, polls and calls as the
      sequential pipeline, ends as it does, and waits at the stage where it waits. */
  lemma {:induction false} FutureRefinesPipeline<Q, T, R, P, A, E>(
      self: nat, st: Stages<Q, T, R, P, A, E>, script: seq<Poll<E>>, respond: T -> Completion<R, E>,
      m: nat, n: nat, copy: nat)
    ensures var inputs, last := InputsFrom(st, script, respond, m, n), Rest(st, script, respond, copy);
      && Alone(Created(self), inputs, copy) == last
      && AloneLog(Created(self), inputs, copy) == Events(st, self, copy, script)
      && Outcome(st, script, respond) == if last.Finished? then Completed(last.result) else Waiting
  {
    var wait: Input<T, A, E> := Prepare(Waiting);
    var front := [wait] + Repeat(wait, m) + [Prepare(Prepared(st))];
    var polls: seq<Input<T, A, E>> := PollInputs(script) + [Answer(Waiting)];
    var answer := Then(Prepared(st), t => AnswerTo(st, respond, t));
    var back: seq<Input<T, A, E>> := Repeat(Answer(Waiting), n) + [Answer(answer)];
    AloneAppend(Created(self), front, polls + back, copy);
    PreparesRequest<T, A, E>(self, Prepared(st), m, copy);
    var prepared: Task<T, A, E> := Alone(Created(self), front, copy);
    AloneAppend(prepared, polls, back, copy);
    if prepared.AwaitingReady? {
      PollsRefineLoop<T, A, E>(prepared.request, script, copy);
    } else {
      AllPolls<T, A, E>(script);
      InVain(prepared, polls, copy);
    }
    TakesAnswer(Alone(prepared, polls, copy), answer, n, copy);
  }

  /** The sequential pipeline and its trace are what any one of many interleaved futures does, if its
      own part of the environment behaves as `Tower` describes it. */
  lemma {:induction false} InterleavedFutureRefines<Q, T, R, P, A, E>(
      selves: seq<nat>, next: nat, schedule: seq<(nat, Input<T, A, E>)>, c: nat,
      st: Stages<Q, T, R, P, A, E>, script: seq<Poll<E>>, respond: T -> Completion<R, E>, m: nat, n: nat)
    returns (copy: nat)
    requires c < |selves| && InputsOf(schedule, c) == InputsFrom(st, script, respond, m, n)
    ensures var r := Run(Start(selves, next), schedule);
      && copy >= next && |r.tasks| == |selves| && r.tasks[c] == Rest(st, script, respond, copy)
      && EventsOf(r.log, copy) == Events(st, selves[c], copy, script)
  {
    copy := TasksAreIsolated(Start(selves, next), next, schedule, c);
    FutureRefinesPipeline(selves[c], st, script, respond, m, n, copy);
  }
}
