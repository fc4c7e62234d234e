# Verified model of tower-json-rpc

`tower-json-rpc` turns an annotated Rust trait into a JSON-RPC API: a request enum with an encoder and a
decoder, a Tower service that dispatches to a handler, and client stubs. This project models the macro as a
small compiler and proves that the code it emits preserves the meaning of the API, from the attribute tokens
to the value a client gets back.

The source language of the compiler is `Api.RpcDescription`. The target is a small syntax in `Target`:
ordered `match` arms with name patterns, extraction steps (`LenCheck`, `MapGet`, `ArrGet`, `FromJson`),
parameter builders (`BuildMap`, `BuildVec`), dispatch arms and stubs. `Target` also interprets that syntax, and
`Render` is the code generator. The main theorems are about interpreting rendered code.

| file | what it holds |
|---|---|
| `Json.dfy` | JSON values, the parameter types, and serde's conversion between them |
| `Protocol.dfy` | JSON-RPC 2.0 messages and error codes |
| `Names.dfy` | name mangling and the namespace prefix |
| `Api.dfy` | the description and the conditions on it |
| `Target.dfy`, `Render.dfy` | the emitted code, its interpreter, the generator |
| `Compile.dfy` | exactly when the Rust compiler accepts the emitted code, for each choice of server and client |
| `Decoder.dfy` | the emitted decoder against a declarative specification |
| `RoundTrip.dfy` | exactly when encoder and decoder undo each other; normalisation |
| `Service.dfy` | one generated service, and stacks of services |
| `Concurrency.dfy` | calls in flight at the same time |
| `Tower.dfy` | the readiness protocol: `rpc_call`, the stubs, the server wrapper |
| `Pipelines.dfy` | any number of `rpc_call` and stub futures at the same time |
| `Client.dfy` | stubs and `rpc_call` end to end |
| `Fleet.dfy` | many stub futures against one server stack, end to end under any interleaving |
| `WebSocket.dfy` | the list normalisation of the WebSocket client |
| `Attributes.dfy` | the attribute parser and `retain` |
| `FrontEnd.dfy` | from trait to description; the rewriting of the trait |
| `Meanings.dfy` | exactly which tokens and signatures mean which description |
| `Macro.dfy` | the whole way, from the trait as written to the value a client gets |
| `Counterexamples.dfy` | traits that the macro accepts and that miss one of the conditions |
| `Examples.dfy` | the trait of the crate's integration test, from its tokens to its answers |
| `Search.dfy`, `Wrappers.dfy` | first-match search; `Option` and `Result` |

## Conditions that turned out to be exact

Some properties the macro is for do not hold for every trait it accepts. Each is proved to hold for all inputs
if and only if a condition holds that can be read off the description before anything is generated.
`Counterexamples` gives, for each condition on a trait, traits that the macro accepts and that miss it. Some
of them compile and then misbehave:

- **Round trip.** `SafeAt(d, j)` says: no earlier arm lists the primary wire name of endpoint `j`
  (`UnshadowedAt`; missed by `AliasShadowsName`), two parameters of a by-name endpoint share a key only if both
  are of the unit type (`KeysSafe`; missed by `SharedKeyLosesValue`), and no parameter type nests `null` in an
  `Option` (`LawfulParams`; missed by `NestedNullIsLost`). An API without aliases is never shadowed.
- **End-to-end meaning** in a stack of services needs, besides: no earlier layer of the stack lists the name
  (`ReachedFirst`), the function is written with a `Result` (`ServedAt`), and the return type nests no `null`.
- **`rpc_call` reads like the stub** exactly when no earlier return type overlaps that of the method
  (`Json.Overlap`; missed by `TwinsAreConfused`).

The others are rejected by the Rust compiler, so that no running program meets them. `Target.TypeChecks` says
what the compiler can object to in the emitted code, and `Compile.CompilesExactly` when it does not:

- **A server** needs methods that are written with a `Result`. The dispatcher puts `.await` after a call exactly
  when the function is `async`, and matches on a `Result`; a function that returns anything else, or that
  declares a future itself, leaves the arm without a type (`NoResultIsRejected`, `DeclaredFutureIsNotAwaited`).
- **A client** needs methods that declare no future.
- **Server and client together** need an API without subscriptions: the request enum of the server side has
  variants for them, and the encoder of `rpc_call` has arms for methods only (`SubscriptionIsNotEncoded`).

Two smaller ones: by-name parameters do not survive the WebSocket client, and the server wrapper calls a clone
that was never polled, so the readiness rule is kept there only when nothing is called.

## Assumptions

- `DistinctNames(d)`, which most theorems assume, demands distinct enum variants, distinct methods and distinct
  parameters of a function. It holds of every server that compiles (`Compile.CompiledNamesAreDistinct`). Theorems
  about the server or the stubs speak of the code that is rendered for them, whichever flag asks for it.
- A handler is a total function on a world `W` that stands for all state outside the emitted code, and it
  returns values of its declared type. It may change the world, so nothing is assumed about purity.
- In a by-name decode the source binds the raw member to a local that is already annotated with the parameter
  type (`tower-json-rpc-derive/src/render_server.rs:185`). The model follows the evident intent: the raw value
  is bound first and then given to `from_value`. `TypeChecks` does not count that line as an error.
- Automatic induction is switched off in every lemma, so each proof shows the recursion it needs.
- Where the doc comments of the macro (`tower-json-rpc-derive/src/lib.rs:148-171`) say that `name` is mandatory
  and that unmarked functions are not allowed, the model follows the code: an unmarked function is a method,
  and a missing name is derived from the function.

## Model

| member | source | states |
|---|---|---|
| `Json.CodecRoundTripsExactly` | tower-json-rpc-derive/src/render_server.rs:106-115 | `to_value` followed by `from_value` gives back every value of a type iff the type nests no `null` in an `Option` |
| `Json.AcceptedIsExact` | tower-json-rpc-derive/src/render_server.rs:192-197 | what `from_value` accepts is well typed and is written back unchanged |
| `Json.AcceptedJson` | tower-json-rpc-derive/src/render_server.rs:192-197 | which JSON the simple types accept and as which value: `null`, booleans, strings, and numbers below 2^8, 2^16, 2^32 and 2^64 |
| `Json.AcceptedCompounds` | tower-json-rpc-derive/src/render_server.rs:192-197 | `Option` accepts `null` and what its type accepts; `Vec` an array of accepted elements, read in order |
| `Json.WrittenIsAccepted` | tower-json-rpc-derive/src/render_client.rs:330-332 | every type accepts what it wrote, though perhaps as another value |
| `Json.OverlapExactly` | tower-json-rpc-derive/src/render_client.rs:330-332 | `Overlap(s, t)`, a recursion on the two types, holds iff some value of `t` is accepted by `s` |
| `Names.ComputeSnakeToCamel` | tower-json-rpc-derive/src/rpc_macro.rs:376-392 | the flag loop computes camelCase: every character but `_` is kept in order, a small letter right after a `_` becomes the capital letter, and nothing else changes |
| `Names.ComputeVariantName` | tower-json-rpc-derive/src/render_server.rs:518-534 | the flag loop computes the enum variant: every character but `_` and `-` is kept in order, a small letter at the start or right after a separator becomes the capital letter, and nothing else changes |
| `Names.CamelCaseLetters` | tower-json-rpc-derive/src/rpc_macro.rs:376-392 | the same letter by letter, for the function that names a method |
| `Names.VariantLetters` | tower-json-rpc-derive/src/render_server.rs:518-534 | the same letter by letter, for the function that names a variant |
| `Names.FlagSimulation` | tower-json-rpc-derive/src/rpc_macro.rs:376-392 | running one mangling loop on the output of the other is one run with the disjunction of the two flags |
| `Names.VariantIgnoresCamelCasing` | tower-json-rpc-derive/src/render_client.rs:366-382 | the variant is the same for a name in snake_case and its camelCase form, for every string |
| `Names.ManglingIsIdempotent` | tower-json-rpc-derive/src/rpc_macro.rs:376-392 | mangling twice is mangling once, and exactly the names that a loop can produce are left alone by it: a name is a derived one iff it has no `_`, a variant iff it has no separator and does not start with a letter from `a` to `z`; no variant starts with such a letter |
| `Names.IdentifierIsInjective` | tower-json-rpc-derive/src/rpc_macro.rs:344-351 | under one namespace different names have different wire names |
| `Names.IncomparablePrefixesSeparate` | tower-json-rpc-derive/src/rpc_macro.rs:344-351 | names under prefixes neither of which extends the other never coincide |
| `Api.VariantsSeparateWireNames` | tower-json-rpc-derive/src/rpc_macro.rs:344-351 | distinct variants force distinct primary wire names |
| `Api.AliasFreeIsUnshadowed` | tower-json-rpc-derive/src/render_server.rs:171-178 | an API without aliases meets the no-shadowing condition |
| `Api.NamespacesSeparateApis` | tower-json-rpc-derive/src/rpc_macro.rs:339-351 | APIs under incomparable namespace prefixes share no primary wire name |
| `Target.ExecuteInserts` | tower-json-rpc-derive/src/render_server.rs:103-109 | the emitted block that fills a mutable map leaves, per key, the last inserted value |
| `Render.NamesWithAliases` | tower-json-rpc-derive/src/render_server.rs:536-541 | the primary name first, then the aliases in order |
| `Render.CollectGateNames` | tower-json-rpc-derive/src/render_server.rs:329-336 | the two loops collect the names of all methods, then of all subscriptions |
| `Compile.CompilesExactly` | tower-json-rpc-derive/src/rpc_macro.rs:327-337 | the emitted trait, request enum, server and client type-check iff functions, parameters and variants are distinct, a server's methods return `Result`, a client's declare no future, and both together have no subscriptions |
| `Compile.FunctionsAreKept` | tower-json-rpc-derive/src/render_server.rs:46-90 | the emitted trait has one function for each method and subscription, with its identifier and its parameters in order, and the request enum of a server one variant for each, named after its name |
| `Compile.StubsAreKept` | tower-json-rpc-derive/src/render_client.rs:52-92 | the client has a stub for each method, with its identifier, its parameters in order and the type inside its `Ok`, and a variant of the response enum with that type |
| `Compile.DispatchArmChecks` | tower-json-rpc-derive/src/render_server.rs:342-368 | the `match` on the called, possibly awaited, function has a type iff the function is written with a `Result` |
| `Compile.RpcCallEncoderCovers` | tower-json-rpc-derive/src/render_client.rs:40-45 | the `match` of the `rpc_call` encoder is exhaustive for the emitted request enum iff there is no server side or no subscription |
| `Decoder.RunParam` | tower-json-rpc-derive/src/render_server.rs:180-199 | the statements of one parameter bind its typed value or fail with the error of that parameter |
| `Decoder.ArmMeetsSpec` | tower-json-rpc-derive/src/render_server.rs:177-235 | a decode arm never panics; it accepts iff every declared parameter is present and well typed (and the count of an array is right), and rejects with the container error, the count error, or the error of the least bad parameter |
| `Decoder.LeastBad` | tower-json-rpc-derive/src/render_server.rs:209-220 | the parameter a rejection names is bad and all before it are good |
| `Decoder.DecodeMeetsSpec` | tower-json-rpc-derive/src/render_server.rs:312-325 | `TryFrom` is the extraction of the first endpoint that lists the method, and `MethodNotFound` iff none does |
| `Decoder.AcceptedFields` | tower-json-rpc-derive/src/render_server.rs:201-206 | an accepted request has exactly the declared fields, well typed, each from its own parameter |
| `Decoder.PositionalDecoding` | tower-json-rpc-derive/src/render_server.rs:212-235 | by position: accepted iff the parameters are an array of the right count, each value of its type; each field is the value at its position; a wrong count is -32602 |
| `Decoder.ByNameDecoding` | tower-json-rpc-derive/src/render_server.rs:177-206 | by name: accepted iff the parameters are an object with a value of the right type under each key, the renaming if there is one; each field is the value under its key |
| `Decoder.RejectionCodes` | tower-json-rpc-derive/src/render_server.rs:312-325 | an unknown method is -32601, every other rejection -32602; absent parameters read as `null`, which only an endpoint without parameters accepts |
| `Decoder.MapDecodingReadsDeclaredKeys` | tower-json-rpc-derive/src/render_server.rs:179-206 | by-name decoding depends on the declared keys only |
| `RoundTrip.EncodeWellTyped` | tower-json-rpc-derive/src/render_server.rs:92-169 | every well-typed request is encoded under its primary wire name with id 0 |
| `RoundTrip.WireNameOfRequest` | tower-json-rpc-derive/src/rpc_macro.rs:344-351 | the encoded request of an endpoint is for `name` without a namespace, for namespace, separator and `name` with one, and the separator is `_` if none is given |
| `RoundTrip.ParameterStructure` | tower-json-rpc-derive/src/render_server.rs:98-117 | JSON-RPC 2.0 section 4.2: no parameters, values in signature order, or one member per key, a key being the renaming if there is one |
| `RoundTrip.LastInsertWins` | tower-json-rpc-derive/src/render_server.rs:103-109 | a key holds the value of its last parameter |
| `RoundTrip.ExtractionInvertsEncoding` | tower-json-rpc-derive/src/render_server.rs:247-305 | with safe keys and lawful types the extraction gives back the encoded fields |
| `RoundTrip.RoundTripAt` | tower-json-rpc-derive/src/render_server.rs:171-325 | all requests of one variant survive encode and decode iff the endpoint is safe |
| `RoundTrip.RoundTripExactly` | tower-json-rpc-derive/src/render_server.rs:92-325 | all typed requests of an API survive iff every endpoint is safe |
| `RoundTrip.OverwrittenLoses` | tower-json-rpc-derive/src/render_server.rs:103-109 | two parameters under one key, one of them informative: gives fields that do not come back |
| `RoundTrip.Normalisation` | tower-json-rpc-derive/src/render_server.rs:98-123 | `decode(encode(decode(q))) == decode(q)` for an accepted `q` iff the accepting arm is unshadowed |
| `Service.GateMatchesDecoder` | tower-json-rpc-derive/src/render_server.rs:329-336 | the name gate lets through exactly what some decode arm matches |
| `Service.ArmListens` | tower-json-rpc-derive/src/render_server.rs:171-178 | a decode arm matches exactly the prefixed name of its endpoint, with `_` where no separator is given, and the aliases as written |
| `Service.GateListens` | tower-json-rpc-derive/src/render_server.rs:329-336 | exactly these names, over all endpoints, pass the gate; a request for any other is handed on unchanged |
| `Service.FirstListenerDecides` | tower-json-rpc-derive/src/render_server.rs:462-471 | of the endpoints with a name the first decides, and only its own function is called |
| `Service.DispatchMeetsSpec` | tower-json-rpc-derive/src/render_server.rs:338-397 | a decoded request calls the function of its own method with the arguments in signature order if the `match` on what it returns has a type, a subscription answers InvalidRequest |
| `Service.CallMeetsSpec` | tower-json-rpc-derive/src/render_server.rs:450-500 | gate, decoder and dispatcher together do what the description intends |
| `Service.FiveFates` | tower-json-rpc-derive/src/render_server.rs:457-498 | exactly one of: conversion error, forward of the unchanged request, InvalidParams, one handler call, InvalidRequest; no panic and no MethodNotFound behind the gate; stuck only at a method written without a `Result` |
| `Service.MethodIsServed` | tower-json-rpc-derive/src/render_server.rs:171-235 | from the source of a method: a request under its name that no earlier endpoint has calls its function with `args` iff it carries `args`, by position or under the keys; if it carries none the answer is -32602 under the id of the request |
| `Service.SubscriptionIsAnswered` | tower-json-rpc-derive/src/render_server.rs:375-395 | a request for a subscription is answered with -32600 if it carries arguments, else with -32602 |
| `Service.StackRuns` | tower-json-rpc-derive/src/render_server.rs:450-500 | layers that forward change nothing; the first that does not runs its handler once, keeps the new world and writes what it returned under the id, or replies and leaves the world alone; else the fallback answers |
| `Service.FailedConversion` | tower-json-rpc-derive/src/render_server.rs:457-498 | a request that cannot be converted fails with its own error and leaves the world alone |
| `Service.StackIsFlatLookup` | tower-json-rpc-derive/src/render_server.rs:462-471 | a stack of any depth is one lookup: the first layer that owns the method answers, else the fallback |
| `Service.OrderIsIrrelevant` | tower-json-rpc-derive/src/render_server.rs:462-471 | layers with disjoint names may be permuted without changing any answer |
| `Service.NamespacesMakeDisjoint` | tower-json-rpc-derive/src/rpc_macro.rs:339-351 | alias-free layers under pairwise incomparable namespace prefixes share no name at all |
| `Service.NamespacedLayersCommute` | tower-json-rpc-derive/src/render_server.rs:462-471 | such layers may be stacked in any order |
| `Service.IdsArePreserved` | tower-json-rpc-derive/src/render_server.rs:349-396 | JSON-RPC 2.0 section 5: every response of every stack carries the id of its request, if the fallback echoes ids |
| `Concurrency.EveryScheduleRuns` | tower-json-rpc-derive/src/render_server.rs:450-500 | no interleaving of calls gets stuck |
| `Concurrency.AtomKeepsInv` | tower-json-rpc-derive/src/render_server.rs:353-369 | an atomic step appends its call to the serial run and disturbs no other call |
| `Concurrency.EnterKeeps` | tower-json-rpc-derive/src/render_server.rs:457-498 | running one layer of emitted code changes where a call is, not what it will do and answer |
| `Concurrency.RunsAreSerializable` | tower-json-rpc-derive/src/render_server.rs:450-500 | every interleaving has the world and the answers of the serial run in the order of the atomic steps; each finished call gets the outcome of its own request |
| `Concurrency.FinishedRunsAreSerial` | tower-json-rpc/src/server.rs:62-80 | when all calls have finished there is one serial order of all of them with the same world and answers: the order of the atomic steps, and then the calls that needed none |
| `Tower.RpcCall` | tower-json-rpc/src/client.rs:131-153 | the pipeline yields the first stage that does not succeed, or the decoded response, and leaves exactly the specified trace of clones, polls and calls |
| `Tower.PollUntilReady` | tower-json-rpc/src/client.rs:140-147 | polls until the first answer that is not Pending and reports it |
| `Tower.PipelineIsSafe` | tower-json-rpc-derive/src/render_client.rs:94-117 | over every behaviour of services and futures: at most one call, only on the clone that was just found ready, never after an error, and never on the caller's own instance |
| `Tower.OnlyErrorsSkipTheCall` | tower-json-rpc/src/client.rs:131-153 | a pipeline that completes with a value did call the service |
| `Pipelines.StepKeepsInv` | tower-json-rpc/src/client.rs:137-153 | waking up one of many futures keeps the readiness invariant: clones are told apart, and a future about to call holds a clone whose last observation is readiness |
| `Pipelines.EveryRunIsSafe` | tower-json-rpc/src/client.rs:135-153 | over every interleaving of any number of futures and every answer of the environment: only clones are called, each right after it was found ready, each unused before, and none that ever reported an error |
| `Pipelines.CallsAreDistinct` | tower-json-rpc/src/client.rs:149-151 | no clone is called twice |
| `Pipelines.TasksAreIsolated` | tower-json-rpc-derive/src/render_client.rs:93-117 | in every interleaving each future makes one clone, is where its own inputs alone lead to, and leaves on that clone the trace it would leave alone |
| `Pipelines.FutureRefinesPipeline` | tower-json-rpc/src/client.rs:136-153 | the resumable future, woken up in vain any number of times, leaves the trace of clones, polls and calls of the sequential pipeline, ends as it does, and waits at the stage where it waits |
| `Pipelines.InterleavedFutureRefines` | tower-json-rpc/src/client.rs:131-153 | the same for any one of many interleaved futures: its end and the part of the log about its clone are those of the sequential pipeline |
| `Fleet.NextKeepsInv` | tower-json-rpc-derive/src/render_server.rs:450-500 | a wake-up or a step of a call keeps futures and calls linked: a call moves only after its future made it, heads for the handler of its stub, and answers only its future |
| `Fleet.FleetEndToEnd` | tower-json-rpc-derive/src/render_client.rs:88-118 | any number of stub futures against one stack, under any interleaving: the world is that of the handlers run one after the other with the arguments of their stubs; each finished stub returns what its handler returned at its place in that order, or has the error that its clone reported and never called the clone; and the readiness rule is kept |
| `Fleet.NoDeadlock` | tower-json-rpc-derive/src/render_client.rs:94-117 | whatever has happened, every future can be brought to its end |
| `Tower.JsonRpcServer.Call` | tower-json-rpc/src/server.rs:62-80 | clones the held instance, converts, calls the clone, converts back; the first failure decides |
| `Tower.ServerReadiness` | tower-json-rpc/src/server.rs:58-80 | after any trace that kept the readiness rule, the wrapper keeps it iff the conversion leaves nothing to call, because the clone was not polled |
| `Client.EncodersAgree` | tower-json-rpc-derive/src/render_client.rs:256-309 | `From`, the encoder of `rpc_call` and the stub write the same request for a method, each from the names that its own pattern or signature binds |
| `Client.RpcCallEncoderIsTotal` | tower-json-rpc-derive/src/render_client.rs:261-309 | the encoder of `rpc_call` covers every value of the emitted request enum iff there is no server side or no subscription |
| `Client.FirstMatchDecoding` | tower-json-rpc-derive/src/render_client.rs:323-358 | for what handler `k` returned, the response enum reads the least variant whose type accepts the value; it agrees with the stub iff no earlier return type accepts it; an error reads as the same error on both paths |
| `Client.RpcCallReadsExactly` | tower-json-rpc-derive/src/render_client.rs:323-334 | for every value that handler `k` may return, `rpc_call` reads variant `k` with the value of the stub, iff no earlier return type overlaps that of `k` |
| `Client.RpcCallReadsAnswer` | tower-json-rpc-derive/src/render_client.rs:323-358 | for every answer of every service: the first return type that accepts the JSON decides the variant, and if none does the error says so |
| `Client.StubReachesItsHandler` | tower-json-rpc-derive/src/render_client.rs:52-120 | for all arguments the stub's request makes the server call the stub's function with those arguments, iff the method is safe and written with a `Result` |
| `Client.WireNameOfStub` | tower-json-rpc-derive/src/rpc_macro.rs:344-351 | the request of a stub has the same name, letter by letter |
| `Client.StubReadsAnswer` | tower-json-rpc-derive/src/render_client.rs:88-118 | for every answer of every service: a ready stub returns `Ok(x)` iff the payload is JSON that the type inside the `Ok` of the function reads as `x`, and `x` is well typed and stands for that JSON; other JSON is the error that names the type and the JSON, an error object is `RequestProcessing`, a transport error is itself |
| `Client.EndToEnd` | tower-json-rpc-derive/src/render_client.rs:88-118 | through any stack in which the method's layer owns the name first, and for every answer of `poll_ready`: once ready, the stub returns `Ok(v)` for `Ok(v)` and `RequestProcessing` of the error text for `Err(e)`, and the calls in its trace leave the handler's world; otherwise it yields the readiness error or waits, and the world is untouched |
| `Client.EndToEndExactly` | tower-json-rpc-derive/src/render_client.rs:52-120 | the meaning of a method of any layer of any stack is preserved, for every handler of the layer and all arguments, iff no earlier layer owns its name, it is safe, it is written with a `Result`, and its return type nests no `null` |
| `Client.RpcCallEndToEnd` | tower-json-rpc/src/client.rs:131-153 | `rpc_call` makes the same handler call under the same conditions and reads the response with the response enum |
| `WebSocket.RelayKeepsPositionalRequests` | tower-json-rpc/src/ws_client.rs:66-79 | a typed request of any description survives the WebSocket client iff it survives without it and is not a by-name request with parameters |
| `WebSocket.RelayIsFaithfulExactly` | tower-json-rpc/src/ws_client.rs:66-79 | all requests of a variant survive the WebSocket client iff the endpoint is safe and has no by-name parameters |
| `WebSocket.RelayedByNameIsRejected` | tower-json-rpc/src/ws_client.rs:71-76 | a by-name method with parameters rejects every relayed request with -32602 before it looks at a parameter: what it rejects is the array that was sent, or the empty array |
| `WebSocket.RelayedParameters` | tower-json-rpc/src/ws_client.rs:66-79 | an array is relayed as it is; absent parameters and anything else become the empty array |
| `WebSocket.RelayedWithoutArrayIsRejected` | tower-json-rpc/src/ws_client.rs:71-76 | a positional method with parameters rejects a relayed request that had no array, for its count |
| `Attributes.ParseStream.ParseArgument` | tower-json-rpc-derive/src/attributes.rs:61-87 | one argument extends to the first comma at depth 0; nothing is consumed when there is no identifier |
| `Attributes.ParseStream.ParseTerminated` | tower-json-rpc-derive/src/attributes.rs:128-134 | the list parser computes the specified list or the position where an argument was expected |
| `Attributes.DepthIsBalanceAboveMinimum` | tower-json-rpc-derive/src/attributes.rs:65-79 | the saturating counter equals the balance minus the least balance of all prefixes |
| `Attributes.ScanStopsAtDepthZero` | tower-json-rpc-derive/src/attributes.rs:70-83 | a comma splits iff the counter since the label is 0 there |
| `Attributes.ParseUndoesPrint` | tower-json-rpc-derive/src/attributes.rs:61-87 | parsing the comma-joined printout returns the list iff no argument has a bare comma at depth 0 and none but the last ends above depth 0 |
| `Attributes.PrintRestoresParsed` | tower-json-rpc-derive/src/attributes.rs:128-134 | an accepted stream is the printout of its arguments, up to a trailing comma |
| `Attributes.FailureIsABadStart` | tower-json-rpc-derive/src/attributes.rs:62-63 | parsing fails only where an argument should begin and no identifier is there |
| `Attributes.Retain` | tower-json-rpc-derive/src/attributes.rs:139-168 | the in-place loop fills the specified slots or stops with the offence of the earliest offending argument |
| `Attributes.Retained` | tower-json-rpc-derive/src/attributes.rs:147-167 | on failure the error is that of the earliest argument whose label is unknown or already used |
| `Attributes.RetainLosesNothing` | tower-json-rpc-derive/src/attributes.rs:136-168 | success iff all labels are allowed and distinct, and then the filled slots are exactly the arguments, each under its name |
| `Attributes.RetainIgnoresOrder` | tower-json-rpc-derive/src/attributes.rs:136-168 | success and slots are invariant under permuting the arguments |
| `Attributes.RetainInvertsFilling` | tower-json-rpc-derive/src/attributes.rs:136-168 | any slots are the result of retaining their own arguments |
| `FrontEnd.Collect` | tower-json-rpc-derive/src/rpc_macro.rs:275-307 | the loop pushes each function into one of two vectors or stops with the first error |
| `FrontEnd.PlacedExactlyOnce` | tower-json-rpc-derive/src/rpc_macro.rs:280-307 | each trait function is in exactly one of methods and subscriptions, in source order, as read from its own attribute |
| `FrontEnd.ParamsFollowSignature` | tower-json-rpc-derive/src/rpc_macro.rs:107-127 | the parameters are the arguments besides the receiver, in order, with their types and renamings |
| `FrontEnd.MethodMetaReadsBack` | tower-json-rpc-derive/src/rpc_macro.rs:84-101 | every meaning of a method attribute can be written, and is read as meant |
| `FrontEnd.RenameReadsBack` | tower-json-rpc-derive/src/rpc_macro.rs:49-65 | the renaming of a parameter is read as meant |
| `FrontEnd.SubscriptionReadsBack` | tower-json-rpc-derive/src/rpc_macro.rs:156-212 | a subscription attribute is read as meant if the tokens of its item type split at no comma: with or without a notification name, and without an unsubscribe name iff the name begins with `subscribe` |
| `FrontEnd.RpcMetaReadsBack` | tower-json-rpc-derive/src/rpc_macro.rs:237-271 | the attribute of the trait is read as meant if it asks for a server or a client |
| `FrontEnd.AttributeOrderIsIrrelevant` | tower-json-rpc-derive/src/rpc_macro.rs:84-97 | the order of the arguments of a method attribute changes neither success nor the method |
| `FrontEnd.MethodKeepsSignature` | tower-json-rpc-derive/src/rpc_macro.rs:98-101 | a method keeps its function, its `async` and its return type; without an attribute its variant is that of the function name |
| `Meanings.MethodExactly` | tower-json-rpc-derive/src/rpc_macro.rs:82-140 | a function is the method `m` iff its signature and its attribute say so: the name is the explicit one, else the function name in camelCase; aliases and kind are those of the attribute; not both `blocking` and `async` |
| `Meanings.MethodReadsBack` | tower-json-rpc-derive/src/rpc_macro.rs:82-140 | every method attribute that can be meant can be written, and makes the function exactly the method that is meant, or the blocking error |
| `Meanings.MethodErrors` | tower-json-rpc-derive/src/rpc_macro.rs:103-127 | which check fails first: the attribute, `blocking` with `async`, or the parameters |
| `Meanings.MethodMeaning` | tower-json-rpc-derive/src/rpc_macro.rs:84-97 | a method attribute means `meta` iff its argument list parses with allowed, distinct labels and says `meta`, in any order and with nothing else; `param_kind` may say `array`, which is the default |
| `Meanings.SubscriptionMeaning` | tower-json-rpc-derive/src/rpc_macro.rs:156-212 | the same for subscriptions, with the notification name and the derived unsubscribe name |
| `Meanings.ArgumentMeaning` | tower-json-rpc-derive/src/rpc_macro.rs:49-65 | the same for the renaming of a parameter |
| `Meanings.RpcMeaning` | tower-json-rpc-derive/src/rpc_macro.rs:236-271 | the same for the attribute of the trait, with the bounds that are only allowed for a side that is asked for |
| `Meanings.ParamsExactly` | tower-json-rpc-derive/src/rpc_macro.rs:107-127 | the arguments are read iff none is wrong, else the first wrong one decides |
| `Meanings.FirstAttribute` | tower-json-rpc-derive/src/rpc_macro.rs:366-368 | of several attributes of one kind the first counts |
| `Meanings.CollectsExactly` | tower-json-rpc-derive/src/rpc_macro.rs:275-307 | the items are collected iff none is wrong (no function, no receiver, both kinds, or unreadable), else the first wrong one decides |
| `Meanings.DescribesExactly` | tower-json-rpc-derive/src/rpc_macro.rs:236-325 | a trait is described iff its attribute is readable, no item is wrong and there is one; server, client, namespace and separator are those of the attribute |
| `Meanings.DescribedMethod` | tower-json-rpc-derive/src/rpc_macro.rs:82-140 | each method of a description is what the attribute of its function says |
| `FrontEnd.StripRpcAttrs` | tower-json-rpc-derive/src/rpc_macro.rs:394-407 | in place: every item loses exactly the attributes of the macro |
| `FrontEnd.WithoutInOrder` | tower-json-rpc-derive/src/rpc_macro.rs:394-407 | stripping goes attribute by attribute, so what is kept keeps its order |
| `FrontEnd.RewriteAsyncMethods` | tower-json-rpc-derive/src/rpc_macro.rs:409-425 | in place: every async function becomes a function that returns a future of its declared type |
| `FrontEnd.FromItem` | tower-json-rpc-derive/src/rpc_macro.rs:236-325 | yields the description or the first error, and rewrites the items only on success |
| `FrontEnd.RewritingIsClean` | tower-json-rpc-derive/src/rpc_macro.rs:394-425 | identifiers, parameters and foreign attributes are kept, no attribute of the macro and no `async` remains, and a second run changes nothing |
| `FrontEnd.AwaitMatchesRewriting` | tower-json-rpc-derive/src/render_server.rs:342-354 | `.await` is emitted iff the rewritten function returns a future, unless a function without `async` declares a future itself; an introduced future yields the declared type; the `match` on the awaited value has a type iff the function is written with a `Result` |
| `Macro.DescribedSignature` | tower-json-rpc-derive/src/rpc_macro.rs:280-307 | a described method keeps the identifier, the `async`, the return type and the arguments of its trait function, in order |
| `Macro.TraitIsServedExactly` | tower-json-rpc-derive/src/rpc_macro.rs:236-325 | from attribute tokens and signatures, through any stack: for every handler of the layer and all arguments of the signature, the stub of a trait function returns what the handler returns, iff no earlier layer owns its name, it is safe in the description, it is written with a `Result`, and its return type nests no `null` |
| `Macro.CompiledTraitIsServed` | tower-json-rpc-derive/src/rpc_macro.rs:327-337 | in a server that compiles, a safe function whose return type nests no `null` is served as written |
| `Counterexamples.AliasShadowsName` | tower-json-rpc-derive/src/render_server.rs:174-175 | `aliases = ["b"]` on `a` before `b`: the stub of `b` makes the server call `a` |
| `Counterexamples.SharedKeyLosesValue` | tower-json-rpc-derive/src/render_server.rs:103-109 | two parameters renamed to one key: called with `true` and `false`, the handler gets `false` twice |
| `Counterexamples.NestedNullIsLost` | tower-json-rpc-derive/src/render_server.rs:192-197 | `Some(None)` arrives as `None`, as an argument and as a result |
| `Counterexamples.TwinsAreConfused` | tower-json-rpc-derive/src/render_client.rs:323-334 | two methods with one return type: whatever the second returns, `rpc_call` reads it as the first |
| `Counterexamples.NoResultIsRejected` | tower-json-rpc-derive/src/render_server.rs:354-368 | a function that returns no `Result`: the arm gets stuck, a server does not compile, a client alone does unless a future is declared |
| `Counterexamples.DeclaredFutureIsNotAwaited` | tower-json-rpc-derive/src/render_server.rs:342-354 | a function without `async` that declares a future is not awaited although it returns a future; the output does not compile |
| `Counterexamples.SubscriptionIsNotEncoded` | tower-json-rpc-derive/src/render_client.rs:261-309 | an API with a subscription: the encoder of `rpc_call` has no arm for its request, so the output does not compile for server and client together, but does for each alone |
| `Examples.SayFromTokens` | tower-json-rpc-derive/tests/test_basic.rs:6-16 | the tokens and signatures of the trait of the integration test give the description that is meant |
| `Examples.SayIsServed` | tower-json-rpc-derive/tests/test_basic.rs:18-71 | it compiles; `say_hello` and `say_hello_alias` call one function and `say_goodbye` the other, with the argument that was sent, and every other name is handed on |

## Left out

- HTTP bodies, headers and status codes, and the hyper and axum glue: the transport is the identity on method, parameters and id.
- JSON text: parameters are values, absent parameters read as `null`, and duplicate members or the order of members in text do not exist.
- Numbers other than integers, and signed, floating-point, tuple and user-defined types: the types are unit, bool, the unsigned widths, string, `Option` and `Vec`.
- Error texts: an error says what its text is made from, and `RequestProcessing` says which error object it renders.
- Parameter names that collide with locals of the emitted code (`map`, `arr`, `handler`, `request_id`): the model keeps the two apart, while in the emitted code such a parameter shadows the local.
- Names that mangle to an empty or otherwise invalid Rust identifier, for which the macro panics.
- Spans, generics, trait bounds and lifetimes; the content of `client_bounds` and `server_bounds` is not looked into.
- The syntax of types: the item type of a subscription is any non-empty run of tokens, and `ok_type` is applied to the types of the model only, so aliases of `Result` do not occur. A declared future stands as unit where a data type is needed; `TypeChecks` rejects the client that reads it.
- Live subscriptions, unsubscribe calls and notification names beyond reading them from the attribute: the server only answers with an error, and the client side is jsonrpsee's.
- Client.EndToEnd: over the direct transport only readiness can fail or wait; other transports, whose conversions may fail or never complete, are covered by Tower.RpcCall and Pipelines.FutureRefinesPipeline.
- Fleet.FleetEndToEnd: the transport is the direct one here as well, and each future uses one stub once.
- Concurrency.RunsAreSerializable: a handler or fallback invocation is one atomic step; the inside of a handler is not interleaved.
- The blanket conversions of the error type, `into` between error types, and the conversion that is left as `todo!()`.
- Response handling of the WebSocket client: the value is wrapped with the request's id, and errors are turned into text.
