# A verified model of gd's concurrent and stateful cores

gd is a Go toolkit for servers. This project models the parts of it that are hardest to get right by reading, in
Dafny, and proves what they promise.

* **dogrpc** (`net/dogrpc`): many callers share connections to a server. On the client a bounded queue that drops its
  oldest entry, a pool of recycled results, and per connection a writer, a reader and a map of pending requests by
  Seq; on the server a worker semaphore and a message pool shared by all connections, and per connection a reader,
  workers, a response queue and a writer; between them two length-prefixed packet formats. `ClientSteps` and
  `ServerSteps` are state machines with one step per channel operation, locked section or atomic update, interleaved
  in any order; `ClientSafety`, `ClientRuns`, `ClientOutcomes`, `ClientSeqs`, `ClientTries`, `ServerSafety` and
  `ServerRuns` prove what holds of all their runs, and `ClientCancels` what may still follow a cancel; `RpcSystem`
  joins them through byte streams, and `RpcMisdelivery` is a run of the whole in which a reply reaches the wrong call.
  `ClientCode`, `ServerCode` and `RpcServerCode` are the code's own objects and loops, each with what it does to its
  own fields, proved to take exactly those steps, so that what holds of every run of the machines holds of them. A
  server remembers which handlers it called and what they returned. `Encoding` has the packet formats.
* **inject and orderedmap** (`runtime/inject`, `utls/orderedmap`): a registry that builds, fills and starts missing
  dependencies recursively and closes them in reverse, on a hash map with a doubly linked ring of its keys.
  `OrderedMap` proves the ring, with its nodes updated in place, against sequences of pairs; `Inject` says what a
  registry remembers and when its shutdown is in order, `InjectCode` runs the registry on that class, and `InjectRuns`
  follows a registry through any list of registrations and its shutdown. Every successful `Start` and every `Close`
  leaves an event, so the order of starts and closings is that of the calls themselves.
* **Smaller cores**: file-log rotation over a disk (`FileLog`), semaphore pools (`GoroutinePool`), batch retries
  (`RedisBatch`), the SQL WHERE builder and its escaper (`SqlWhere`), and the streaming statistics table (`Stat`).

`dafny verify dfyconfig.toml` checks everything.

## How to read it

A step of a machine has a guard (`Enabled`) and an effect (`Apply`); `Legal` runs are lists of steps each enabled
where it is taken, and `After` is where a run ends. An invariant (`Inv`) speaks of the state and of a history that
remembers what the state forgets. Each `Keeps` lemma shows one kind of step keeping it, and the `EveryRun` lemmas draw
the conclusions for all runs. Timers, cancellation, broken connections, failing disks and failing `Start` calls are
steps or outcomes that may happen whenever their place in the code allows.

## What the code does that its documentation or reading suggests otherwise

* Requests are matched by Seq alone. Two different requests with one Seq can be confused (`SharedSeqMisdelivers`); a
  reply always carries its caller's Seq and is the result of dispatching some call's request with that Seq
  (`Correlation`), which is the caller's own request if requests do not share Seqs (`OwnAnswer`).
* The over-limit sweep deletes only the entry its writer has just filed, once for every canceled entry, and lowers the
  counter for every entry it walks; filing over a pending Seq counts it twice. `CounterLaw` says by exactly how much
  the counter is off in any run, `CounterConserved` when it is not, and `SharedSeqMisleads` ends with it wrong. A
  caller waits for a result nobody has (`OverwrittenIsLost`) exactly if its entry was overwritten or swept while it
  waited (`NothingIsLost`); overwriting one's own expired entry is harmless, so if no two calls that wait at once
  share a Seq and no writer sweeps, retries lose nothing (`OrderlyLosesNothing`).
* A recycled result keeps its canceled flag. That does no harm as long as callers cancel only results that nothing
  will use again (`NobodyElseCancels`, `CancelIff`), such as those CallAsync gave them to wait for (`HandedIsApart`);
  canceling the result of a one-way send makes a later call fail (`OneWayCancelMisfires`). `MisfiresIff` and
  `CancelMisfiresIff` say from exactly which states, and by which cancels, a call can come to fail as canceled: its
  result must be pooled or on a way back, past a writer that may displace it. A result may also be recycled between
  its filing and its encoding; the safety results hold all the same.
* When a client stops, its pending calls complete with neither an error nor a response (`StopSaysNothing`). Callers
  are told an error or given a response in every run exactly if no connection with pending calls ends without an error
  (`CallersAreTold`).
* A DogPacket's checksum covers the JSON of its body, where nil and empty differ, but a decoder always makes a body: a
  nil body is delivered only if both happen to have the same sum. `Deliverable` is the exact condition.
* `OrderedMap.Delete` leaves the node in `mapper`; deleting a key that is already gone splices stale neighbours.
  `HarmlessIff` says when that does no harm, `Replay` that runs without it keep the ring whole, and `StaleBreaks` how
  it breaks; `Graph.Close`, which deletes keys repeatedly, promises the store and not the ring.
* Registration overwrites a key in two cases: a dependency tagged with a name still being registered, and `setBoth` on
  a type name in use. The replaced object may then never be closed, and the one that took its key may be closed after
  something it was injected with: a single registration does both (`SelfNamed`). `SafeIff` says exactly when shutdown
  closes every object and each before what it was injected with, and `Lifecycle` gives a condition on the schema and
  the registrations under which no entry is replaced.
* In `register` the second lookup and the check after it cannot fail once the dependency was registered (`Provide`),
  so the use of the outer `singleton` there has no effect.
* The comment on `NewFileLogWriter` covers only rotating writers; others append to the file that is there.
* A pool's `Close` can return while an `Execute` is between its semaphore send and `wg.Add` (`CloseMisses`);
  `CloseHoldsIff` says that a call there when Close is called is the only way for a function to run afterwards.
* The dump of the statistics splits a row's key at the first separator it finds, so a command that ends in a dollar
  sign is reported under another name and with the largest int32 as its result (`RowIsOwn`).
* A table prefix is escaped twice; `EscapingTwice` says when that matters. The test that should leave out WHERE before
  a bare LIMIT or ORDER BY is always true (`PrefixesDiffer`).

## Model

| member | source | states |
|---|---|---|
| Encoding.EncodeRpc | net/dogrpc/encoding.go:101-122 | the encoder appends Seq, ErrCode, Cmd and PacketLen as big-endian words at their places, then the body, and refuses any other packet type |
| Bytes.BigEndianWeighs | net/dogrpc/encoding.go:103-114 | of the four bytes of a word the one of greatest weight comes first |
| Encoding.EncodeDog | net/dogrpc/encoding.go:243-255 | the encoder appends five words and four marks, each at its place in the 24-byte header, then the body, and refuses any other packet type |
| Encoding.DecodeRpcStream | net/dogrpc/encoding.go:124-147 | reading the stream field by field gives the packet or error DecodeRpc says and leaves the same bytes unread; a packet is refused, as the end of the stream or an unexpected one, exactly if the header or the body is cut short |
| Encoding.DecodeDogStream | net/dogrpc/encoding.go:257-295 | the same for DogPacket; it is refused for the first of a header cut short, a length below 24, a wrong SOH, a wrong EOH, a body cut short and a wrong checksum |
| Encoding.DecodeIsExact | net/dogrpc/encoding.go:124-147 | whatever a decoder accepts, encoding it again gives exactly the bytes consumed |
| Encoding.DogAcceptsIff | net/dogrpc/encoding.go:257-295 | a DogPacket is accepted iff length, both marks and checksum agree with the stream, on uint32 |
| Encoding.RoundTrip | net/dogrpc/encoding.go:83-91 | a constructed packet survives the wire in front of any bytes iff its length fits and, for DogPacket, its body is non-nil or sums the same |
| Encoding.DogCut | net/dogrpc/encoding.go:212-234 | a DogPacket body too long for the length field is never delivered whole |
| Encoding.RpcCut | net/dogrpc/encoding.go:83-91 | an RpcPacket body of 2^32 bytes or more is never delivered whole |
| Encoding.DecodeExtends | net/dogrpc/encoding.go:124-147 | bytes arriving later never change an answer that did not run out of input |
| Encoding.Framing | net/dogrpc/encoding.go:101-147 | decoding the concatenated encodings of any list of deliverable packets returns the list, then EOF |
| Encoding.FramingOfPrefix | net/dogrpc/encoding.go:257-295 | decoding any strict prefix returns a prefix of the list, then EOF or an unexpected EOF |
| Encoding.DecodeHead | net/dogrpc/encoding.go:124-147 | on a cut stream of sent packets, what is accepted first is what was sent first, and the rest is a cut stream of the others |
| Encoding.SeqCounter.NextSeq | net/dogrpc/encoding.go:50-52 | the i-th Seq taken is the start plus i, on uint32 |
| Encoding.SeqsCollide | net/dogrpc/encoding.go:50-52 | two takings give the same Seq iff a multiple of 2^32 lies between them |
| RpcSystem.CountedSeqsAreUnique | net/dogrpc/encoding.go:74-77 | calls numbered by one counter, fewer than 2^32 apart, do not share a Seq between different requests |
| OrderedMap.EveryRun | utls/orderedmap/orderedmap.go:52-80 | over any run of Set and Delete, keys are distinct, a lookup gives the last value written and not deleted, and the order is that in which the present stays began |
| OrderedMap.PutRefines | utls/orderedmap/orderedmap.go:52-61 | what Set does to keys and store is Put on the pairs |
| OrderedMap.DropRefines | utls/orderedmap/orderedmap.go:68-80 | what Delete does to keys and store is Drop on the pairs |
| OrderedMap.SpliceIn | utls/orderedmap/orderedmap.go:54-58 | the four link updates put the new node before the sentinel in both directions |
| OrderedMap.SpliceOut | utls/orderedmap/orderedmap.go:73-79 | the two link updates take a live node out of the ring in both directions |
| OrderedMap.SpliceStale | utls/orderedmap/orderedmap.go:73-79 | made for a stale node they leave the live ring alone iff they write what its links already hold |
| OrderedMap.Ring.constructor | utls/orderedmap/list.go:19-24 | a new ring is the sentinel linked to itself |
| OrderedMap.Ring.Add | utls/orderedmap/list.go:30-35 | a new node joins before the sentinel; every other link is as it was |
| OrderedMap.OrderedMap.constructor | utls/orderedmap/orderedmap.go:31-38 | a new map is empty and its ring whole |
| OrderedMap.OrderedMap.Set | utls/orderedmap/orderedmap.go:52-61 | the pairs change by Put: a new key goes last, an old one keeps its place; ring, store and mapper stay in agreement |
| OrderedMap.OrderedMap.Get | utls/orderedmap/orderedmap.go:63-66 | the value of the key among the pairs, if there is one |
| OrderedMap.OrderedMap.Delete | utls/orderedmap/orderedmap.go:68-80 | the pairs change by Drop; the ring stays whole for a live or unknown key, and for a stale key iff the splice is harmless |
| OrderedMap.OrderedMap.HarmlessIff | utls/orderedmap/orderedmap.go:68-80 | while only present or unknown keys were deleted, deleting a key that is gone does no harm iff the neighbours its node left are still neighbours or have both gone |
| OrderedMap.UnseenIff | utls/orderedmap/orderedmap.go:73-79 | splicing a node out writes nothing new on a ring iff its neighbours are neighbours there or both off it |
| OrderedMap.Replay | utls/orderedmap/orderedmap.go:52-80 | any run of Set and Delete on an object gives the run's pairs, and the ring stays whole if no key is deleted that was there and is gone |
| OrderedMap.StaleBreaks | utls/orderedmap/orderedmap.go:68-80 | with one such Delete it does not: set a, delete a, set b, delete a |
| OrderedMap.OrderedMap.Len | utls/orderedmap/orderedmap.go:153-155 | the number of pairs |
| OrderedMap.Iterator.Next | utls/orderedmap/orderedmap.go:116-129 | each call yields the next live pair until none is left |
| OrderedMap.RevIterator.Next | utls/orderedmap/orderedmap.go:131-151 | each call yields the previous live pair until none is left |
| OrderedMap.Iterate | utls/orderedmap/orderedmap.go:116-129 | draining IterFunc gives exactly the live pairs in insertion order |
| OrderedMap.RevIterate | utls/orderedmap/orderedmap.go:131-151 | draining RevIterFunc gives exactly the reverse |
| ClientSafety.Keeps | net/dogrpc/client.go:163-429 | every step of callers, writers, readers and teardown keeps the ownership invariant |
| ClientSafety.InvGives | net/dogrpc/client.go:195-429 | every result is in at most one of queue, pool and the pending maps, nothing queued or filed is completed, and the sizes are bounded |
| ClientRuns.EveryRunIsSafe | net/dogrpc/client.go:163-429 | in every interleaving no channel is closed twice or nil, ownership is exclusive, the queue holds at most PendingRequests and a pending map at most 3*PendingRequests+2 entries |
| ClientRuns.CounterLaw | net/dogrpc/client.go:195-323 | in any run pendingRequestsCount is the number of pending entries plus the drift of overwrites and sweeps, on uint32 |
| ClientRuns.CounterConserved | net/dogrpc/client.go:257-323 | without overwrites and sweeps it is exactly the number of pending entries |
| ClientRuns.SharedSeqMisleads | net/dogrpc/client.go:254-326 | a run in which, only one of two requests with one Seq having been written, any reply with that Seq completes the call for the other, the first is filed nowhere any more, and the counter says 1 with nothing pending |
| RpcMisdelivery.SharedSeqMisdelivers | net/dogrpc/client.go:254-326 | a run of client, streams and server in which two requests share a Seq, only the first is dispatched, and its answer, with the code and body its handler returned, read off the wire, completes the call that made the second |
| ClientOutcomes.LostIff | net/dogrpc/client.go:254-273 | a step loses a result a caller waits for iff it files another in that result's place or sweeps it away |
| ClientOutcomes.NothingIsLost | net/dogrpc/client.go:195-429 | throughout a run the result any caller waits for is complete, queued, in a writer's hands or in a pending map, iff no step overwrites or sweeps away one that is waited for |
| ClientSeqs.OrderlyLosesNothing | net/dogrpc/client.go:254-373 | nothing is lost if no two calls that wait at once share a Seq and no writer enters the sweep, however often calls time out and are retried over their own entries |
| ClientOutcomes.InformedIff | net/dogrpc/client.go:195-201 | the one step that completes a call with neither an error nor a response is the teardown of a pending entry without an error |
| ClientOutcomes.CallersAreTold | net/dogrpc/client.go:163-429 | throughout a run every completed call has an error or a response, iff no connection with pending calls ends without an error |
| ClientOutcomes.StopSaysNothing | net/dogrpc/client.go:184-201 | a run in which the client is stopped and a pending call comes back with neither |
| ClientTries.TriesLaw | net/dogrpc/client.go:346-376 | over every run a call with retries has timed out exactly tryNum times, tries on while that is at most its number of retries, and, if no connection ends with a timeout of its own, fails as timed out exactly when it is one more; other calls have no timer |
| ClientOutcomes.OverwrittenIsLost | net/dogrpc/client.go:254-263 | with an overwrite a caller can wait for a result nobody has |
| ClientOutcomes.NobodyElseCancels | net/dogrpc/client.go:243-459 | as long as callers cancel only results that are not pooled, not one-way and in no other call's hands, no canceled result is up for reuse and no call fails as canceled |
| ClientOutcomes.CancelIff | net/dogrpc/client.go:441-447 | a cancel keeps it so iff the result is such a one |
| ClientOutcomes.HandedIsApart | net/dogrpc/client.go:378-429 | what CallAsync gave its caller to wait for is such a one |
| ClientOutcomes.OneWayCancelMisfires | net/dogrpc/client.go:378-459 | canceling the result of a one-way send makes a later call that gets it from the pool fail as canceled |
| ClientCancels.MisfiresIff | net/dogrpc/client.go:243-459 | after any run of a client whose queue has room for at least one, as Start makes it, and whose connections end with errors of their own, it can go on without another cancel to a call that fails as canceled, iff one has already or a canceled result is pooled, or can come back to the pool or to a caller that waits for it |
| ClientCancels.CancelMisfiresIff | net/dogrpc/client.go:441-447 | where no call can fail so, a cancel makes it possible iff its result is pooled or can come back, or if canceling it keeps a writer from displacing a canceled one that can |
| ClientCancels.StaysUnarmed | net/dogrpc/client.go:163-429 | no step but a cancel brings a canceled result that cannot come back to where it can |
| ClientCancels.ArmedFails | net/dogrpc/client.go:163-429 | from every state with one that can, some way to go on ends in such a failure |
| ClientCode.Client.Acquire | net/dogrpc/client.go:382-397 | a pooled result, or a new one if the pool may not be used, is given its request, its skipResponse and a fresh Done channel unless it is one-way, as one step of the machine |
| ClientCode.Client.TrySend | net/dogrpc/client.go:399-406 | the first send queues the result exactly if there is room, unchanged; else a one-way result is given back to the pool |
| ClientCode.Client.EvictOldest | net/dogrpc/client.go:407-418 | the oldest queued result leaves the queue and is completed with an overflow error, or given back if it has no channel and the pool may be used |
| ClientCode.Client.Resend | net/dogrpc/client.go:419-428 | the second send queues the result exactly if there is room, else gives it back if it may, and the call fails with an overflow error |
| ClientCode.Client.CallAsync | net/dogrpc/client.go:382-429 | undisturbed, it is a run of the machine that fails iff the queue is full and room may not or cannot be made, with the error of that case, and else leaves the result, filled with its request, newest in the queue and in its caller's hands |
| ClientCode.Client.Complete | net/dogrpc/client.go:354-361 | a completed call returns its response and error and gives its result back, cleared |
| ClientCode.Client.Expire | net/dogrpc/client.go:362-373 | a timed-out call cancels its result, counts the try, and tries again iff it had tries left, else fails as timed out |
| ClientCode.Client.Take | net/dogrpc/client.go:218-237 | the writer takes the oldest queued result off the queue |
| ClientCode.Client.CheckCanceled | net/dogrpc/client.go:243-252 | a result is dropped exactly if it is canceled, completed with an error or given back; else it goes on unchanged to be filed, or if one-way to be written |
| ClientCode.Client.File | net/dogrpc/client.go:254-263 | the result is filed under its Seq and counted on uint32, and the limit of 3*PendingRequests is judged by the size before filing |
| ClientCode.Walk | net/dogrpc/client.go:266-273 | whatever the order of the walk, the sweep lowers the counter per entry walked and removes the writer's own entry iff some entry is canceled |
| ClientCode.Client.Sweep | net/dogrpc/client.go:263-273 | the writer's own entry goes iff some entry is canceled, and the counter goes down once per entry walked: one step of the machine |
| ClientCode.Client.Recount | net/dogrpc/client.go:274-278 | the writer gives up iff the map still has more than 3*PendingRequests entries |
| ClientCode.Client.Encode | net/dogrpc/client.go:282-284 | the bytes of the request the result holds by then are written; without one, or with one of another codec, none are and the writer ends |
| ClientCode.Client.Deliver | net/dogrpc/client.go:311-326 | a reply with a pending Seq takes exactly that entry out, stores itself as its response and completes it; any other changes nothing |
| ClientCode.CompleteAll | net/dogrpc/client.go:195-201 | the teardown loop completes every entry with the error, once, and lowers the counter once for each |
| ClientCode.LoweredBy | net/dogrpc/client.go:195-196 | lowering the counter n times takes n off it on uint32 |
| ClientCode.TornDown | net/dogrpc/client.go:195-201 | tearing entries down one by one is a run that fails exactly the results left in the map and empties it |
| ClientCode.Client.Teardown | net/dogrpc/client.go:191-202 | when a connection ends, every call left in its map is completed with its error and the counter gives up exactly as many |
| ServerSafety.Keeps | net/dogrpc/server.go:187-313 | every step of readers, workers and writers keeps the message and token invariant |
| ServerRuns.EveryRun | net/dogrpc/server.go:187-313 | over every run the history that says which request each response answers agrees with what was received and written |
| ServerRuns.EveryRunIsSafe | net/dogrpc/server.go:78-313 | handlers in flight never exceed Concurrency, tokens are conserved, and each decoded request yields at most one response, on its own connection |
| ServerCode.Server.Receive | net/dogrpc/server.go:204-213 | a decoded request is put with its client in a pooled or new message |
| ServerCode.Server.Spawn | net/dogrpc/server.go:215-224 | a worker for the message read starts only with a semaphore token, one more than before |
| ServerCode.Server.Begin | net/dogrpc/server.go:228-233 | the worker takes request and address out of the message and clears them |
| ServerCode.Server.Handle | net/dogrpc/server.go:235-236 | the handler of the request's command is called once, for its client, and what it returned is in the message, or InvalidParam if the command has none |
| ServerCode.Server.Answer | net/dogrpc/server.go:237-244 | the message joins the response queue of its own connection, which has room, last |
| ServerCode.Server.Leave | net/dogrpc/server.go:245 | the token a worker came with is still there when it leaves, and is given back |
| ServerCode.Server.ServerRequest | net/dogrpc/server.go:227-246 | from the machine's invariant alone, a worker finds its request, has the handler of its command called once, leaves the code and body it returned newest in its own connection's queue unless that is full, and gives its token back: a run of the machine |
| ServerCode.Server.Admit | net/dogrpc/server.go:204-224 | with a token free, a decoded request gets a message and a worker of its own: a run of the machine |
| ServerCode.Server.TakeResponse | net/dogrpc/server.go:277-306 | the writer takes the oldest response out of its message and gives the message, emptied, back |
| ServerCode.Server.Encode | net/dogrpc/server.go:306-311 | the bytes of the response are written, or none if it is missing or of another codec, and then the writer ends |
| RpcServerCode.FirstForStays | net/dogrpc/rpc_server.go:106-118 | the first registration of a command wins, whatever follows |
| RpcServerCode.RpcServer.AddHandler | net/dogrpc/rpc_server.go:106-118 | a handler is kept iff its command has none yet |
| RpcServerCode.RpcServer.AddDogHandler | net/dogrpc/dog_server.go:37-49 | the same for functions to be wrapped |
| RpcServerCode.RpcServer.DogRpcRegister | net/dogrpc/dog_server.go:51-61 | succeeds iff every function can be wrapped; handlers already there stay, new ones are the wrapped functions |
| RpcServerCode.RpcServer.DispatchPacket | net/dogrpc/rpc_server.go:120-139 | the handler registered for the command is called once and the answer has exactly the code and body it returned; without one nobody is called and the answer is an empty body with code 10004; either way it carries the request's Cmd and Seq |
| ServerSteps.Dispatch | net/dogrpc/dog_server.go:63-82 | an answer has the Seq and Cmd of its request, and the handler's code and body exactly if the command has a handler, else InvalidParam and an empty body |
| RpcSystem.EveryRun | net/dogrpc/client.go:163-429 | the joint invariant holds after every run of client, streams and server together |
| RpcSystem.Correlation | net/dogrpc/client.go:254-326 | a call that completes with a response gets one with its own Seq, whose code and body are those with which a handler answered some call's request with that Seq, or which says that the command of that request has no handler |
| RpcSystem.OwnAnswer | net/dogrpc/server.go:203-312 | if different requests use different Seqs, that request is the call's own: the response has the code and body its own handler returned, or is the refusal exactly if its command has none |
| RpcSystem.SystemIsSafe | net/dogrpc/client.go:163-429 | client and server safety hold in every reachable state of the whole |
| InjectCode.Graph.constructor | runtime/inject/inject.go:60-64 | a new graph is empty |
| InjectCode.Graph.Find | runtime/inject/inject.go:108-121 | the object under a name, which is one that was started |
| InjectCode.Graph.FindByType | runtime/inject/inject.go:91-94 | the object under a type's name |
| InjectCode.Graph.FindFor | runtime/inject/inject.go:288-298 | a field's object is looked up by tag, then for a singleton pointer by type, and by type without a tag name, spelled out over what stands under either key |
| InjectCode.Graph.FirstImpl | runtime/inject/inject.go:310-321 | the first registered implementation that is assignable to the field's interface, if there is one |
| InjectCode.Graph.Provide | runtime/inject/inject.go:304-341 | a missing dependency is registered under the field's key and is then found there, newest of all and assignable, with the fields it started with |
| InjectCode.Graph.Supply | runtime/inject/inject.go:288-345 | a field is to be injected with what is there under its tag or type, else with what is registered for it, else with nothing if it may stay nil |
| InjectCode.Graph.FillField | runtime/inject/inject.go:250-391 | a tagged field keeps a non-zero value, stays zero if it may and nothing was found, or takes the converted registered value of the object its tag leads to; which error ends its turn is decided by its tag, its value and the type of what its lookup found; on an error it is unchanged |
| InjectCode.Graph.Place | runtime/inject/inject.go:346-391 | an object of an assignable type puts its own value into the field; between int kinds the field gets the value in range with the same low bits, between float kinds the number, rounded for float32; any other is refused and the field stays as it was |
| Inject.CarriedIsInjected | runtime/inject/inject.go:346-391 | that value is the only one the field may hold, and there is one exactly if the types are assignable, both ints or both floats |
| Inject.AssignableIffFits | runtime/inject/inject.go:347-347 | a struct pointer is assignable exactly to the fields that can hold it |
| Inject.ZeroIff | runtime/inject/inject.go:267-269 | a field is taken for empty exactly if it holds the zero of its type |
| InjectCode.Graph.Fill | runtime/inject/inject.go:245-392 | every field is accounted for by what the lookup found when its turn came: it takes the registered value of the object found, or of the one registered for it because nothing was, and stays nil only if it may and nothing was found; fields stay well typed, and only keys the fields can reach are added |
| InjectCode.Graph.Build | runtime/inject/inject.go:234-399 | a given struct is used itself, a nil one is made; noFill leaves a given one untouched; a nil value of another type is refused and any other is used as it is; of each field it is recorded what its lookup found |
| InjectCode.Graph.Start | runtime/inject/inject.go:401-408 | what an object was injected with is built before its own Start is called, which leaves its mark on the run of events if it succeeds |
| InjectCode.Graph.Admit | runtime/inject/inject.go:401-415 | an object whose Start succeeds enters the order after all its dependencies, and the starts on record are those of the order; one that fails leaves the graph and the record as they were |
| InjectCode.Graph.RegisterFree | runtime/inject/inject.go:230-419 | the new object is started last, after everything it was injected with, and stands under its name, not closed, with the value returned; no entry is replaced if the schema is tidy and the keys are apart; with sturdy types only Start can fail |
| InjectCode.Graph.Register | runtime/inject/inject.go:211-420 | refused exactly for a missing or taken name with the graph unchanged; any later failure leaves earlier entries intact and the name absent unless a dependency has it; success fills each field with the registered value its tag or type led to, the very value if it is assignable, leaving nil only what may stay so and had nothing to be found, and the value returned is the object's |
| Inject.InsertSound | runtime/inject/inject.go:127-137 | inserting a started object keeps starts in dependency order, and the entries in start order unless one was replaced |
| Inject.InsertedLook | runtime/inject/inject.go:127-137 | a started object is then found under its name, and as a singleton struct under its type's name too; every other lookup is as before |
| Inject.PutKeepsIff | runtime/inject/inject.go:127-137 | setting a key keeps all earlier entries in place iff it replaces no other object |
| Inject.FieldKeys | runtime/inject/inject.go:304-328 | a dependency's keys are among those its field can add, and apart from its own dependencies' in a tidy schema |
| InjectCode.Graph.CloseEach | runtime/inject/inject.go:455-482 | the loop calls Close on each closable object not yet closed exactly where the walk first meets it, in that order |
| Inject.CloseRunOnce | runtime/inject/inject.go:455-482 | whatever entries were replaced, no object is closed twice and every closable one among the entries is closed |
| Inject.WrapIsExact | runtime/inject/inject.go:350-370 | an int injected into a narrower field becomes the one value of that kind with the same low bits, itself if it fits |
| Inject.Ranges | runtime/inject/inject.go:350-370 | the int kinds range over the signed integers of 8, 16, 32 and 64 bits |
| Inject.CloseIsReverse | runtime/inject/inject.go:446-490 | if no entry was replaced, shutdown is exactly the reverse of the start order of the closable objects |
| Inject.LastFirstIsSafe | runtime/inject/inject.go:446-490 | in that order a dependent comes before anything it was injected with |
| Inject.ShutdownIsSafe | runtime/inject/inject.go:446-490 | if no entry was replaced, every closable object that ever started is closed exactly once, before its dependencies |
| Inject.ClosedIffPresent | runtime/inject/inject.go:446-490 | shutdown closes exactly the closable objects that still have an entry, once, so every one that started iff each still has an entry |
| Inject.SafeIff | runtime/inject/inject.go:446-490 | shutdown closes every closable object that started once and before anything it was injected with, iff each still has an entry and the last key of each stands after the last keys of what it was injected with |
| Inject.ReplacedIsLate | runtime/inject/inject.go:127-137 | of three objects inserted in turn, the third under the key of the first, shutdown closes the second and then the third, and the first never |
| Inject.SelfNamedClashes | runtime/inject/inject.go:411-415 | a dependency found under its object's own name has been replaced by it |
| Inject.CarriedFits | runtime/inject/inject.go:346-391 | what is injected is a value of the field's type |
| Inject.RunIsOrderly | runtime/inject/inject.go:401-482 | starts in the order of the history and the closings after them make a run in which each object starts once, after what it was injected with and before anything closes, and, if the shutdown is safe, every closable one closes before what it was injected with |
| InjectRuns.Lifecycle | runtime/inject/inject.go:187-490 | a graph's whole life: a list of registrations, each of which may fail, then Close; of every object that started it is known what each field's lookup found and which object it was injected with, whose value it holds if that is assignable, objects made for a field were given nothing, and fields stay as they were when it started; the calls of Start and Close that took place are those of the start order and then of the closings, each Start after those of what the object was injected with; no object is closed twice, and in a tidy schema with keys apart every closable one is closed, in exactly the reverse of the start order and so before what it was injected with; in a sturdy schema where no start can fail a registration fails only for a missing name or one already taken |
| InjectRuns.SelfNamed | runtime/inject/inject.go:211-490 | a registration and shutdown in which nothing fails, a started dependency tagged with the name being registered is never closed, and another dependency is closed before the object that was injected with it |
| InjectCode.Graph.Close | runtime/inject/inject.go:446-490 | after any registrations calls Close on what CloseRun says, in that order and on nothing else, which is the reverse start order if no entry was replaced, and empties the store |
| FileLog.FileLogWriter.FreeName | dlog/filelog.go:200-228 | the first of a thousand numbered names that nothing on the disk has, or none because all are taken |
| FileLog.FileLogWriter.NextName | dlog/filelog.go:203-232 | that name with yesterday's date on a new day, else the last hour on a new hour, else this hour, in that order |
| FileLog.FileLogWriter.Archive | dlog/filelog.go:198-240 | the old file becomes the newest archive, whole, under the name NextName says; it fails for want of a number only if all thousand are taken |
| FileLog.FileLogWriter.IntRotateTime | dlog/filelog.go:183-290 | a rotation archives iff rotating and the file exists, under that name, resets the counters and dates, and loses no record even on an error; if no write fails, the old file ends with the trailer and the new one begins with the header |
| FileLog.FileLogWriter.Write | dlog/filelog.go:134-162 | the file is archived, if rotating, exactly when a limit was reached or a day or hour tested is a new one, after which the dates are the record's, and otherwise stays; each accepted record is on the disk exactly once, after all earlier ones, and last in the file; a failing write leaves at most a torn line behind the records accepted; rotating files stay within maxLines and maxsize, all but an oldest archive that is, line for line, the file found at the start |
| FileLog.RenameConserves | dlog/filelog.go:236-240 | renaming keeps the archives and the current file an exact record of everything written |
| FileLog.RecordKeeps | dlog/filelog.go:139-161 | a record written below the limits leaves the file within them |
| FileLog.CandidatesDiffer | dlog/filelog.go:205-227 | different numbers give different names |
| FileLog.PadSpells | dlog/filelog.go:208-223 | three digits that spell the number |
| GoroutinePool.Keeps | runtime/gr/goroutine_helper.go:19-92 | every step keeps the token count, the wait group and the run counts |
| GoroutinePool.EveryRun | runtime/gr/goroutine_helper.go:24-92 | at most Size functions run at once, each admitted one runs exactly once, one turned away never runs |
| GoroutinePool.FixedGoroutinePool.Acquire | runtime/gr/goroutine_helper.go:24-26 | a token is sent while there is room; on a closed channel the send panics |
| GoroutinePool.FixedGoroutinePool.WgAdd | runtime/gr/goroutine_helper.go:26-27 | the admitted call is counted by the wait group |
| GoroutinePool.FixedGoroutinePool.RunAndRelease | runtime/gr/goroutine_helper.go:27-33 | the function runs once and its token is then still in the channel to be taken back |
| GoroutinePool.FixedGoroutinePool.WgDone | runtime/gr/goroutine_helper.go:28-31 | the wait group's count never runs out before its goroutines do |
| GoroutinePool.FixedGoroutinePool.CloseChannel | runtime/gr/goroutine_helper.go:48-49 | the channel is closed while calls may be on their way |
| GoroutinePool.CloseGuarantee | runtime/gr/goroutine_helper.go:48-51 | after Close returns nothing runs any more iff no Execute was between its send and its Add when it returned |
| GoroutinePool.CloseHoldsIff | runtime/gr/goroutine_helper.go:24-51 | whatever happens until Close returns, nothing runs afterwards, iff no Execute is between its send and its Add when Close is called |
| GoroutinePool.CloseMisses | runtime/gr/goroutine_helper.go:24-51 | a run from a new pool in which a function runs after Close has returned |
| GoroutinePool.GoRoutinePoolWithConfig.AllTogether | runtime/gr/goroutine_helper.go:101-135 | after a start and any steps of any of the pools, at most the default size and the reserved sizes run together |
| GoroutinePool.GoRoutinePoolWithConfig.Start | runtime/gr/goroutine_helper.go:101-122 | one pool of the configured size per key and a default pool, or the error that applies |
| GoroutinePool.GoRoutinePoolWithConfig.ExecuteKey | runtime/gr/goroutine_helper.go:128-135 | a call is offered to its key's pool if there is one, else to the default pool, and every pool stays within its bound |
| RedisBatch.Round.Submit | databases/redisdb/pool.go:380-395 | a request is taken by the pool or fails at once with the pool's timeout, and its answer always fits the channel |
| RedisBatch.Round.Complete | databases/redisdb/pool.go:380-391 | a request taken is answered with exactly the reply and the error that Do returned for it |
| RedisBatch.Round.Wait | databases/redisdb/pool.go:396-397 | when the pool is closed every request of the round is answered |
| RedisBatch.Drain | databases/redisdb/pool.go:398-407 | the answers, unchanged, are parted into successes and failures, and the failures' requests are left over |
| RedisBatch.BatchDoOnce | databases/redisdb/pool.go:371-409 | each request of a round comes back exactly once, with exactly what the client answered to it in that round: what Do returned for the command, or the pool's timeout |
| RedisBatch.BatchDo | databases/redisdb/pool.go:351-369 | there are at most max(1, retry) rounds, each but the first asked exactly what failed in the one before; the replies are the successes of all rounds and the failures of the last, as the client gave them, and answer each request given once |
| SqlWhere.MysqlEscapeString | databases/mysqldb/utils.go:391-427 | the buffer loop computes Escape, one byte longer for each of the seven bytes MySQL wants escaped |
| SqlWhere.EscapeRoundTrip | databases/mysqldb/utils.go:391-427 | unescaping by the rules of MySQL string literals gives the source back, and no quote stands without its escape |
| SqlWhere.EscapeHidesControl | databases/mysqldb/utils.go:391-427 | no NUL, line end or Ctrl-Z is left as it was |
| SqlWhere.EscapeIsInjective | databases/mysqldb/utils.go:391-427 | different strings stay different |
| SqlWhere.EscapingTwice | databases/mysqldb/utils.go:220-303 | escaping the prefix twice is the same as once iff it needs no escape |
| SqlWhere.MakeSqlPlaceHolderForIn | databases/mysqldb/utils.go:181-191 | a parenthesised list of as many placeholders as values, with a comma between any two |
| SqlWhere.InListMarks | databases/mysqldb/utils.go:181-191 | the list has one placeholder for each value |
| SqlWhere.Aligned | databases/mysqldb/utils.go:302-369 | placeholders and values agree in number iff no key spells a placeholder, and then clause by clause, so the i-th belongs to the clause that supplied the i-th value |
| SqlWhere.StatementFits | databases/mysqldb/utils.go:302-369 | every clause of every statement has a placeholder per value, the offset's before the limit's |
| SqlWhere.PrefixesDiffer | databases/mysqldb/utils.go:366 | no statement starts both as a limit and as an order, so the test is always true |
| SqlWhere.SqlCondition.constructor | databases/mysqldb/utils.go:212-218 | an empty condition with limit 300 |
| SqlWhere.SqlCondition.WithTablePrefix | databases/mysqldb/utils.go:220-223 | the prefix is kept escaped |
| SqlWhere.SqlCondition.WithCondition | databases/mysqldb/utils.go:225-241 | a blank key adds nothing, any other adds its escaped trimmed self with one of the six operators, equality by default; it spells a placeholder iff the key does |
| SqlWhere.SqlCondition.WithOrder | databases/mysqldb/utils.go:243-253 | the escaped quoted key is added, even a blank one; it spells a placeholder iff the key does |
| SqlWhere.KeyKeepsMarks | databases/mysqldb/utils.go:225-253 | neither trimming, quoting nor escaping makes or hides a placeholder |
| SqlWhere.TrimIsExact | databases/mysqldb/utils.go:226-244 | trimming takes the blanks at both ends, all of them and nothing else |
| SqlWhere.Placeholder | databases/mysqldb/utils.go:306-339 | a condition becomes its quoted key with IN and a list for many values, or with its operator and one placeholder, and supplies those values |
| SqlWhere.SqlCondition.WithLimit | databases/mysqldb/utils.go:255-260 | a negative limit is ignored |
| SqlWhere.SqlCondition.WithOffset | databases/mysqldb/utils.go:262-267 | only a positive offset is kept |
| SqlWhere.SqlCondition.OrderClause | databases/mysqldb/utils.go:341-354 | nothing without an order, else ORDER BY and each key in turn with DESC exactly if it is descending, else ASC |
| SqlWhere.SqlCondition.LimitClause | databases/mysqldb/utils.go:356-364 | no limit, a limit alone, or offset and limit in that order |
| SqlWhere.SqlCondition.BuildShardWhereSql | databases/mysqldb/utils.go:302-370 | the statement is its clauses in order and the values theirs, and they agree in number iff no key spells a placeholder |
| SqlWhere.BuildWhereSql | databases/mysqldb/utils.go:145-179 | each key of the map gives one clause, in some order, with its values in the same order |
| Stat.KeyIsOwn | runtime/stat/stat.go:261-263 | two samples share a row iff they share command and result |
| Stat.SepsOfKey | runtime/stat/stat.go:211-215 | a row's key has exactly one separator iff its command has none |
| Stat.Micros | runtime/stat/stat.go:264-264 | a duration counts as whole microseconds, cut toward zero |
| Stat.RowIsOwn | runtime/stat/stat.go:211-223 | a reported row shows its own command and result iff the command does not end in a dollar sign; else a part of the command and the largest int32 |
| Stat.AtoiInverse | runtime/stat/stat.go:220-222 | the result is read back as it was written |
| Stat.StatMgr.AddStat | runtime/stat/stat.go:260-305 | the running table stays the batch summary of all samples: count, sum, extremes and the three latency buckets |
| Stat.PickMore | runtime/stat/stat.go:207-242 | the samples of some rows and one more are counted row by row |
| Stat.StatMgr.Dump | runtime/stat/stat.go:175-258 | one line for each row with a well-formed key, with the command and result read back from it; the tail line is the summary of all samples in such rows, and the table is emptied |
| Stat.StatFiles.RotateFile | runtime/stat/stat.go:310-337 | every file numbered below 10 moves up by one, files above keep what they hold; only number 10 can be lost, iff number 9 exists |

## Left out

- Sockets, TLS, dialling, listeners, reconnecting, real clocks, timers and flush delays: nondeterministic steps take their place.
- `bufio`, JSON text and the CRC-32 of section 8 of RFC 1952: streams are byte sequences, and the checksum is one arbitrary function of the header with CheckSum 0 and the optional body.
- A handler that panics outside the filter chain: `callHandlerWithRecover` then sets a code on a nil response and crashes; a handler's result is any code and body.
- ServerSteps.Dispatch: says nothing of what a handler computes, since handlers are user code; the filter chain is part of that arbitrary result.
- `SetErrCode` after a packet was built, which leaves a DogPacket's checksum stale.
- The counter update and the map update of one filing or delivery are one step, so the counter is not observed between the two.
- ClientCode.Client.CallAsync: states its outcome with no other goroutine in between; under interference its steps are those of the machine.
- ServerCode.Server.ServerRequest: states its outcome with no other goroutine in between; a worker that finds its queue full then waits for the connection's stop.
- `asyncResultPool` and `serverMessagePool` are shared by all clients and all servers of a process; here each has its own.
- ClientCode.Client.Teardown: empties the map as it walks it, where the source drops the map with the connection.
- `node.Add` of other than string values, `String`, `Iter` and the channel iterator of the ordered map.
- Registration on a cyclic schema, which overflows the stack in the source; `Ranked` rules it out and is the termination measure.
- InjectCode.Graph.Register: the condition for replacing no entry is sufficient, not necessary, because whether a key clashes depends on which dependencies are already there.
- Go types outside the schema: named types with equal underlying types, unsigned and complex kinds, and a nil interface value, on which `register` panics.
- Stat.StatMgr.Dump: the sorting of the rows and their layout, and overflow of the int64 sum of durations.
- ClientTries.TriesLaw: counts tries without bound, where the source counts them on uint32, which matters only for a call with 2^32-1 retries.
- RedisBatch.BatchDo: how a key and its arguments are spread into a command; `Do` is given the request whole.
- FileLog.FileLogWriter.Write: other processes on the disk, directories, and the header `SetHeadFoot` writes.
- Creating a missing log directory, and the cached time format of the log pattern.
- A second `Close` of a pool, which panics, and functions that panic.
- GoroutinePool.GoRoutinePoolWithConfig.ExecuteKey: keeps the keyed pools as values, so sharing of a pool object is not modelled.
- The choice of server inside `RedisPoolClient.Do`, which is one arbitrary outcome per request.
- `SqlCondition.Valid`, `IsDbConnError`, field reflection and the execution of statements.
- The HTTP server and client, gRPC interceptors, service discovery, MongoDB, single-key Redis calls, configuration and performance counters: glue over other libraries, or only easy members.
