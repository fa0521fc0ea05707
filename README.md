# curl ↔ libuv bridge: a Dafny model

This project is a model of the two headers of the project:

- `curlpp.hpp` drives libcurl's multi interface from a libuv event loop.
- `uvpp.hpp` wraps libuv handles so that each callback-taking operation accepts a
  `std::function`.

It proves the properties below about that model.

**`Curl` (curlpp.dfy).**
- `curlpp::Easy` is one transfer, with its back-reference through CURLOPT_PRIVATE.
- `curlpp::Multi` is the coordinator.
- The socket hook turns the engine's `CURL_POLL_*` requests into one Poll per
  transfer.
- The readiness callback turns libuv's event set into `CURL_CSELECT_*` flags.
- The timer hook turns the engine's timeout request into a one-shot timer.
- After every step, `checkMultiInfo` drains the completion queue. For each DONE
  message it invokes the transfer's completion callback and then removes the
  transfer from the engine.

Every state-changing call the bridge makes is appended in order to
`Multi.trace`. These are:
- Poll create, start and stop;
- `curl_multi_assign`;
- timer start and stop;
- `curl_multi_socket_action`;
- `curl_multi_add_handle` and `curl_multi_remove_handle`;
- the completion callback;
- the diagnostic line.

Queries are not recorded. These are `curl_multi_info_read` and the
CURLINFO_PRIVATE lookup behind `Easy::get`. `curl_easy_init` and
`curl_easy_setopt` in `Easy()` are the Easy constructor's effect on the
back-reference registry and are not recorded either. The drain is specified by the pure function
`Drain`, and `CheckMultiInfo`'s loop is proved against it.

**`Uv` (uvpp.dfy).**
- `Handle::close` and the Stream operations (`shutdown`, `listen`, `readStart`,
  `write`) are modelled.
- So are `Tcp::connect` and `Tcp::closeReset`.
- Each wrapper is a class whose fields are the callback slots and the write table.
- Each libuv notification is a method. Its precondition states what libuv
  guarantees before it delivers the notification, for example "a close was issued
  and has not yet been reported".
- A callback is a `std::function`, which may be empty: the model takes
  `Option<Callback>`.
- Invoking a non-empty callback appends a `Fired` record. Invoking an empty one
  throws `std::bad_function_call` out of the libuv callback, and the model
  records that as `BadFunctionCall`.
- The invocation is always the last thing a notification does, so the
  post-state is what the callback observes.

A C++ derived class is modelled by composition: `Stream.base` is the Handle part
and `Tcp.stream` is the Stream part. `Tcp` declares its own `closeCb`, so its
reset slot is separate from the one `Handle::close` uses.

**Scenarios (scenarios.dfy).** Client code, proved from the contracts alone:
- watching and then removing a descriptor;
- the timer requests 0, 20 and -1;
- two completions drained in queue order;
- the chaining pattern of `main.cpp`;
- two outstanding writes, matched against the write-table model;
- a failed connect followed by a close;
- closing with an empty callback;
- a shutdown whose first callback was empty, replaced while its completion is pending.

**Behaviour of the code that the model keeps.**
- The code never clears `doneCb` when it invokes it. A second DONE message for the
  same transfer would invoke the same callback again. `DrainExactlyOnce` counts
  invocations per DONE message accordingly.
- There is no object pool. Each write allocates its request through
  `unique_ptr`, and each shutdown allocates its request with `new`. `connect`
  reuses the Tcp's own `connectReq` member.
- A failed `uv_shutdown` or `uv_tcp_connect` leaves the callback in its slot, and a
  later call on that wrapper violates the assertion.
- A failed `uv_write` leaves its entry in the write table with no completion to
  come, because `write` does not return uv_write's result.
- When an Easy already has a Poll, a watch request restarts that Poll, which stays
  on the descriptor it was created on. The readiness callback reports the socket
  named by the latest request.
- `listen` and `readStart` overwrite their slot without an assertion. The connection
  and read callbacks stay in place after each notification.
- A slot counts as empty when it holds an empty `std::function`. Passing an empty
  callback to `close`, `shutdown` or `connect` therefore leaves the slot empty,
  and the assertion would not catch a second call.
  - For `close`, libuv's demand on `uv_close` rules the second call out. The
    notification then throws (`Scenarios.EmptyCallbackScenario`).
  - For `shutdown` and `connect`, libuv refuses the second request while the
    first is in flight. The first request's completion stays pending and invokes
    the callback the second call stored (`Scenarios.ReplacedShutdownScenario`).
- `Handle::close` and `Tcp::closeReset` require, beyond the source's assertion,
  that the handle is not already closing. libuv demands this of `uv_close`.

## Model

| member | source | states |
|---|---|---|
| Curl.Easy.constructor | curlpp.hpp:15 | A new transfer gets a handle distinct from every live one. Its back-reference is registered, so `Easy.Get` on that handle returns this wrapper. It has no Poll and no callback. |
| Curl.Easy.Get | curlpp.hpp:20-25 | The lookup through the back-reference returns the wrapper that owns the given handle. |
| Curl.WatchMask | curlpp.hpp:42-46 | The mask has the writable bit iff the action is not IN, the readable bit iff it is not OUT, and no other bits. |
| Curl.WatchMaskValues | curlpp.hpp:39-46 | IN, OUT and INOUT give {R}, {W} and {R, W}. |
| Curl.SelectFlags | curlpp.hpp:51-55 | CSELECT_IN is set iff the readable bit is set, CSELECT_OUT iff the writable bit is set, and no other flag is set. |
| Curl.ReadinessReportsWatchedDirections | curlpp.hpp:42-55 | Readiness on everything a Poll watches is reported as exactly the directions the engine asked for. |
| Curl.SelectFlagsIgnoresOtherEvents | curlpp.hpp:51-55 | Event bits other than readable and writable do not affect the flags. |
| Curl.TimerPlan | curlpp.hpp:72-85 | A negative request stops the timer, 0 arms it for 1 ms, and any positive t arms it for t ms; the timer never repeats. |
| Curl.TimerPlanNeverBusy | curlpp.hpp:76-85 | An armed timer is one-shot and never armed for less than 1 ms or less than requested. |
| Curl.NextPoll | curlpp.hpp:42-68 | After the hook: a Poll exists iff the action is a watch request, or it is NONE and one existed. A watched Poll carries `WatchMask(action)` and reports the new socket. An existing Poll keeps its descriptor; a new one is created on the socket. |
| Curl.PollRefinesWatchState | curlpp.hpp:37-69 | The Poll bookkeeping implements the watch state machine (unwatched, read, write, both): an existing Poll means "watched" and its mask gives the direction. |
| Curl.WatchReusesPoll | curlpp.hpp:47-49 | A watch request on a transfer that has a Poll keeps that Poll, with its descriptor, and restarts it with the new mask. |
| Curl.RemoveIsIdempotent | curlpp.hpp:61-68 | REMOVE leaves no Poll, and a second REMOVE changes nothing. |
| Curl.Multi.constructor | curlpp.hpp:34-35 | A new coordinator has no transfers, an empty queue, a stopped timer and no calls made. |
| Curl.Multi.AddHandle | curlpp.hpp:92 | The transfer is added to the engine and nothing else changes. |
| Curl.Multi.SocketHook | curlpp.hpp:36-70 | The Easy's Poll becomes `NextPoll` of the old one. A watch request creates a Poll only if none exists, then starts it with `WatchMask`. REMOVE with a Poll stops it, drops it and unassigns the socket. REMOVE without a Poll and NONE make no call. |
| Curl.Multi.TimerHook | curlpp.hpp:71-87 | The timer becomes `TimerPlan(timeoutMs)`, after a stop call or a one-shot start call. |
| Curl.Multi.SocketAction | curlpp.hpp:111-114 | One engine step for the socket and flags, which appends the produced messages to the queue. |
| Curl.Multi.CheckMultiInfo | curlpp.hpp:116-137 | The queue ends empty. The calls made are exactly `Drain` of the old queue. Exactly the transfers of its DONE messages are detached. |
| Curl.Multi.HandleMessage | curlpp.hpp:123-135 | For DONE: the owner's callback is invoked if one is set, and is not cleared. The transfer is removed after the callback returns. Any other message only logs. |
| Curl.Multi.OnReadiness | curlpp.hpp:49-58 | The engine is stepped for the socket captured at the latest watch request, with `SelectFlags(events)`; then the queue is drained. |
| Curl.Multi.OnTimeout | curlpp.hpp:78-83 | The one-shot timer is spent, the engine is stepped for CURL_SOCKET_TIMEOUT with no flags, then the queue is drained. |
| Curl.DrainOne | curlpp.hpp:123-135 | One message yields one or two calls. The last is the removal of the transfer for DONE and the diagnostic otherwise. There are two calls iff the message is DONE and its transfer has a callback, and then the first is that callback. |
| Curl.Drain | curlpp.hpp:121-136 | The loop over the queue makes at least one call per message. |
| Curl.DrainInQueueOrder | curlpp.hpp:121-136 | Draining a queue is draining its first part, then its second. |
| Curl.DrainExactlyOnce | curlpp.hpp:125-131 | Per transfer: the callback is invoked once per DONE message if it is set and never otherwise. The removal happens once per DONE message. |
| Curl.DrainInvokesOwnCallbackThenRemoves | curlpp.hpp:126-130 | Every invoked callback is the completion callback registered for that transfer, and the transfer's removal immediately follows it. |
| Curl.DoneHandlesAreRemoved | curlpp.hpp:125-131 | A transfer is removed by a drain iff the queue holds a DONE message for it. |
| Curl.OtherMessageOnlyLogs | curlpp.hpp:134 | A non-DONE message invokes and removes nothing; it only logs. |
| Uv.Handle.Close | uvpp.hpp:52-56 | Requires an empty slot; the callback, possibly empty, is stored and a close is pending. |
| Uv.Handle.OnClose | uvpp.hpp:56-61 | The slot is emptied before the stored callback is invoked, exactly once, or `BadFunctionCall` if it is empty. |
| Uv.Stream.Shutdown | uvpp.hpp:77-82 | Requires an empty slot; the callback, possibly empty, is stored and uv_shutdown's result returned. Afterwards a completion is pending iff one already was or the call succeeded. A failure does not cancel a completion already pending. |
| Uv.Stream.OnShutdown | uvpp.hpp:82-88 | The slot is emptied, then the stored callback is invoked with the status. An empty callback yields `BadFunctionCall` instead. |
| Uv.Stream.Listen | uvpp.hpp:93-96 | The connection callback is replaced by the given one, possibly empty, and uv_listen's result returned. |
| Uv.Stream.OnConnection | uvpp.hpp:96 | The current connection callback receives the status and stays in place. An empty callback yields `BadFunctionCall` instead. |
| Uv.Stream.ReadStart | uvpp.hpp:101-105 | The read callback is replaced by the given one, possibly empty, and uv_read_start's result returned. |
| Uv.Resized | uvpp.hpp:108 | `std::vector::resize`: the length is n, the common prefix is kept, and new elements are zero. |
| Uv.ResizedKeepsSameSize | uvpp.hpp:106-111 | Resizing a buffer to its own size leaves it unchanged, so the scratch buffer is reused. |
| Uv.ResizedIdempotent | uvpp.hpp:106-111 | Two resizes to the same size equal one. |
| Uv.Stream.OnAlloc | uvpp.hpp:106-111 | `readBuf` is resized to the suggested size, and the buffer handed out has exactly that length. |
| Uv.Stream.OnRead | uvpp.hpp:112 | The read callback receives nread and the scratch buffer. An empty callback yields `BadFunctionCall` instead. |
| Uv.Stream.Write | uvpp.hpp:125-132 | Exactly one entry, holding the buffers and the callback, is added under the fresh request. A completion is pending only if uv_write succeeded. |
| Uv.Stream.OnWrite | uvpp.hpp:132-137 | The entry's callback is taken, exactly that key is erased, and then the callback is invoked; it sees the table without its own entry. An empty callback yields `BadFunctionCall` instead. |
| Uv.AfterCompletions | uvpp.hpp:132-137 | A run of completions libuv can deliver leaves every surviving entry as it was and none of the completed keys; with no completions the table is unchanged. |
| Uv.CompletionsAtMostOnce | uvpp.hpp:132-137 | Any run of completions libuv can deliver completes each request at most once and only issued requests. It leaves exactly the other entries in the table. |
| Uv.DrainedTableMeansExactlyOnce | uvpp.hpp:125-137 | If the table ends empty, every issued request was completed exactly once. |
| Uv.Tcp.constructor | uvpp.hpp:238-242 | A new Tcp has every slot empty, no write requests and nothing pending. |
| Uv.Tcp.Connect | uvpp.hpp:175-179 | Requires an empty slot; the callback, possibly empty, is stored and the result returned. Afterwards a completion is pending iff one already was or the call succeeded. A failure does not cancel a completion already pending. |
| Uv.Tcp.OnConnect | uvpp.hpp:179-184 | The slot is emptied, then the stored callback is invoked with the status. An empty callback yields `BadFunctionCall` instead. |
| Uv.Tcp.CloseReset | uvpp.hpp:188-192 | Requires the Tcp's own slot to be empty; the callback, possibly empty, is stored, the Handle's close slot is untouched, and the handle is closing on success. |
| Uv.Tcp.OnReset | uvpp.hpp:192-197 | The Tcp's slot is emptied, then the stored callback is invoked. An empty callback yields `BadFunctionCall` instead. |

## Left out

- The engine inside libcurl is not modelled: which messages a step produces, and the running-handles count. Produced messages are an input of `SocketAction`, `OnReadiness` and `OnTimeout`.
- Hooks that libcurl calls from inside `curl_multi_socket_action`, `curl_multi_add_handle` or `curl_multi_remove_handle` are not interleaved with the calls around them.
  - The hooks are the socket hook and the timer hook.
  - The client makes them as separate method calls.
  - In the code, the hook calls made by `curl_multi_remove_handle` fall inside the drain loop, between one message and the next. These are the REMOVE for the transfer's sockets and the timer update.
  - `CheckMultiInfo`'s trace leaves them out.
- Re-entrancy is outside the model. A user callback's own calls, such as adding a new transfer from a completion callback, are made after the notification that invoked it returns (`Scenarios.ChainingScenario`).
- The libuv loop, its scheduling and the Poll and Timer classes are not modelled. uvpp::Poll and uvpp::Timer are not part of this model; their effect is kept as the `Poll` and `Timer` values and the start and stop records in the trace.
- The registration plumbing is folded into the `Multi` methods: `setSocketCb`, `setTimerCb`, and the `socketFunc`/`timerFunc` (curlpp.hpp:95-109, 139-143).
- `Multi.OnReadiness` ignores the readiness callback's `status` argument, as the code does.
- Destructors are not modelled: `~Easy`/curl_easy_cleanup, `~Multi`/curl_multi_cleanup and `Loop`'s. The back-reference registry never shrinks.
- `Easy::setUrl` and the `get()` accessors are configuration pass-throughs with no logic.
- The `UVPP_DECL_METHOD` / `UVPP_DECL_CMETHOD` forwarders are one-line calls into libuv, among them `accept`, `readStop`, `tryWrite`, `bind` and `Loop::run`. So is `Loop::walk`.
- `Tcp(Loop&, unsigned)` (uvpp.hpp:244-248) is not modelled separately. It sets up the same wrapper state as `Tcp(Loop&)`.
- `connect`'s socket address and the bytes of write buffers are not interpreted.
- Invoking an empty `std::function` is recorded as `BadFunctionCall`. Where the exception then goes is not modelled, since it leaves through libuv's C code.
- Uv.Stream.OnRead: records the length of the scratch buffer, not its bytes, which libuv fills.
- Memory management is not modelled: `new`, `delete`, `unique_ptr` and the request allocation of `shutdown`.
- Two source lines are modelled as evidently intended. In each case the model resolves the back-reference to the owning wrapper.
  - `uv_close` is passed the handle structure rather than its address.
  - The shutdown completion rebuilds a temporary `Stream` from the request's handle.
- The `hasRef` forwarder names `uv_has_re`; it is left out with the other forwarders.
- `main.cpp` is not modelled beyond the chaining pattern in `Scenarios.ChainingScenario`.
- The `fprintf` diagnostic is kept only as a `Diagnostic` record.
