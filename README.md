# Durable JSON-RPC client, modelled in Dafny

This project models the two cooperating parts of a line-oriented JSON-RPC 2.0
client for Node.js:

- **`DurableSocket`** (`src/durable.js`), a TCP socket that reconnects by
  itself. After a close it schedules one retry timer. The delay starts at
  `minTs` and grows by the factor `jitter` (floored, capped at `maxTs`). A
  one-shot `connect` or a `disconnect` switches this off.
- **`JsonRpcClient`** (`src/jsonrpc-client.js`), which writes one request line
  per `invoke`. It correlates each response with its call through the table
  `invokeMap`. A call whose id no other call shares resolves exactly once:
  with the response carrying its id, or with a synthesised timeout error,
  whichever can delete the id from the table first. Two calls given the same
  id share one table entry, and then one of them can stay unresolved for
  ever; the model proves the exactly-once property for unique ids only. The
  client can also upgrade the connection to TLS in band.

Both are sequential event handlers that update their own fields, so both are
Dafny classes. The socket, timers, clock and random source are outside the
model:

- every clock reading is a `now` parameter;
- every random draw is a `UnitDraw`, a rational in [0, 1);
- the retry timer is a flag plus event methods for its firing;
- the calls made on the underlying stream socket are recorded in a sequence.

The client's pending table and once-listeners are specified by pure functions
in `Correlation`, and the client's methods are proved against them.

Files: `js.dfy` (JavaScript `||` defaults, rationals), `backoff.dfy`,
`durable.dfy`, `ids.dfy`, `frames.dfy` (the frames of sections 4, 5, 5.1 and 6
of the JSON-RPC 2.0 Specification as a datatype), `correlation.dfy`,
`client.dfy`, `tls.dfy`, and `scenarios.dfy` (concrete runs).

The comment at `src/durable.js:28-31` says the 'connect' handler should
keep a server that ends each connection at once from causing fast
reconnects. The test below it computes `_closedOn - Date.now()` and resets
the backoff to `minTs` when that exceeds `minTs` (`src/durable.js:32-35`).
`_closedOn` is a reading taken earlier, so the difference is never positive,
and for a non-negative `minTs` the reset never happens.
`DurableSocket.OnConnect` keeps the test as written and proves that it does
nothing. `Scenarios.BackoffScenario` shows the delays going on growing
across reconnections. The handler also emits `reconnect` with the counter's
old value (`src/durable.js:27`), so the very first connection after
`reconnect()` is reported with count 0. The model keeps that too.

## Model

| member | source | states |
|---|---|---|
| Js.OrInt | src/durable.js:16-17 | `a \|\| d` on a numeric option is falsy (0) only when both operands are; it is the option when that is truthy (present and not 0), else the default |
| Js.OrMaterial | src/jsonrpc-client.js:16-17 | `a \|\| b` on certificate material (a string, a Buffer or an array): truthy exactly when either is; the first when it is truthy, else the second; only the empty string is falsy, an empty Buffer or array is truthy |
| Js.OrFraction | src/durable.js:18 | `o.jitter \|\| Jitter` is zero only when both operands are; it is the given jitter when that is truthy, else the default |
| Js.FloorMul | src/durable.js:70 | `Math.floor(ts * jitter)` with a rational jitter: the unique integer r with r·den ≤ ts·num < (r+1)·den |
| Backoff.NextBackoff | src/durable.js:70-71 | the grown delay never exceeds `maxTs`; it is floor(ts·jitter) unless capped; with jitter ≥ 1 and 0 ≤ ts ≤ maxTs it is not below ts |
| Backoff.GrowthNotBelow | src/durable.js:70 | flooring ts·jitter with jitter ≥ 1 never goes below ts |
| Backoff.DelaysGrowWithinBounds | src/durable.js:69-71 | with 0 ≤ minTs ≤ maxTs and jitter ≥ 1, the n-th retry delay lies in [minTs, maxTs] and the delays never decrease |
| Durable.DurableSocket.constructor | src/durable.js:6-24 | the defaults 200, 600000 and 1.2 for falsy options; backoff at minTs, auto-reconnect off, no timer, counter 0, close time = now |
| Durable.DurableSocket.OnConnect | src/durable.js:25-36 | with the flag set: emits the old counter, counter + 1, the reset test as written, and for minTs ≥ 0 the backoff is unchanged; with the flag clear nothing changes |
| Durable.DurableSocket.OnClose | src/durable.js:37-42 | with the flag clear nothing changes; otherwise the close time is recorded, `_disconnecting` cleared and a retry scheduled as `_reconnect` does |
| Durable.DurableSocket.Connect | src/durable.js:45-48 | a one-shot attempt clears the auto-reconnect flag and connects once |
| Durable.DurableSocket.Reconnect | src/durable.js:50-55 | options merged, flag on, backoff back to minTs, one connection attempt; an armed timer's handle is dropped and the timer stays live |
| Durable.DurableSocket.Disconnect | src/durable.js:57-64 | flag off, `_disconnecting` on, the armed timer cancelled, `end()` called; the fields it sets do not depend on the old state, so a second call leaves them as they are |
| Durable.DurableSocket.ScheduleReconnect | src/durable.js:66-72 | no second timer while one is armed or while disconnecting; otherwise a timer with the current delay, and the delay grows by NextBackoff |
| Durable.DurableSocket.DoReconnect | src/durable.js:74-77 | the handle is nulled without clearing the timer (an armed timer becomes an orphan) and one connection attempt is made |
| Durable.DurableSocket.FireArmedTimer | src/durable.js:69 | the armed timer fires: one connection attempt, no timer left armed |
| Durable.DurableSocket.FireOrphanTimer | src/durable.js:69-76 | an orphaned timer still fires and connects, whatever the flag says |
| Durable.DurableSocket.ReconnectClearingTimer | src/durable.js:50-77 | corrected `reconnect`: the armed timer is cleared, so the number of live timers never grows |
| Durable.RunWithClearingReconnect | src/durable.js:25-77 | over any sequence of calls, socket events and timer firings, with the corrected `reconnect`: no timer is orphaned, at most one is live, and when a `disconnect` is the latest public call, auto-reconnect is off, no timer is live and the latest stream-socket call is that disconnect's `end()`, so nothing connected after it |
| Ids.Random | src/jsonrpc-client.js:6 | `random(low, high)` lies in [low, high) |
| Ids.GetId | src/jsonrpc-client.js:7 | corrected `getId` (exact integers), the corrected half of the ids finding: an id is now·100000 + r with r = random(0, 100000): `id div 100000` is the millisecond, `id mod 100000` the draw |
| Ids.IdsOfDistinctMillisDiffer | src/jsonrpc-client.js:7 | corrected `getId` (exact integers): ids made in different milliseconds differ; the double-precision line as written does not promise this (see IdCollisionAsWritten) |
| Ids.RoundToMultiple | src/jsonrpc-client.js:7 | the result is a multiple of p at most p/2 from n, and on a tie it is the even multiple |
| Ids.ToDouble | src/jsonrpc-client.js:7 | the double for an integer n is a multiple of the spacing of the doubles around n, at most half a spacing from n, the even one on a tie; below 2^53 it is n itself |
| Ids.GetIdAsWritten | src/jsonrpc-client.js:7 | `getId` in doubles, as written: it equals the exact id for every draw while (now + 1)·100000 ≤ 2^53, that is, before November 1972; after that, a sum that is not a multiple of the spacing of the doubles is rounded |
| Ids.IdCollisionAsWritten | src/jsonrpc-client.js:7 | as written in doubles: draw 99999 at ms 1569456000000 and draw 0 at the next ms give the same id, and that id's millisecond is wrong |
| Frames.ResponseId | src/jsonrpc-client.js:163-167 | only success and error frames carry an id that is emitted; for a success frame it is its id, for an error frame its (possibly null) id |
| Frames.TimeoutError | src/jsonrpc-client.js:8 | the timeout payload is an error response for the same id, message "timeout", code 11 |
| Correlation.SingleFrameIsBatchOfOne | src/jsonrpc-client.js:161 | a single parsed frame is dispatched exactly as a batch holding only that frame, and as that one frame on its own |
| Correlation.Deliver | src/jsonrpc-client.js:101-107 | emitting an id runs its once-listeners in order; only the first can delete the id and resolve its call, every listener for the id is removed |
| Correlation.Register | src/jsonrpc-client.js:89-107 | the id enters the table and no id leaves it; earlier calls are kept; under an id no earlier call has, the new call is the only one |
| Correlation.Expire | src/jsonrpc-client.js:93-98 | a firing timer is dead afterwards, its call keeps its id, the table only loses ids and no call is added |
| Correlation.ExpireOnce | src/jsonrpc-client.js:93-98 | a timer that has fired changes nothing if it fires again |
| Correlation.Emit | src/jsonrpc-client.js:101-107 | after an emit no once-listener for the id is left, no call is added and the table only loses ids |
| Correlation.EmitDeleteHasClaimant | src/jsonrpc-client.js:101-106 | when an emit deletes the id, the first listener for it claims its call with the payload, and no other call's outcome changes |
| Correlation.Dispatch | src/jsonrpc-client.js:163-173 | a success or error frame leaves no listener for its id, no call is added and the table only loses ids |
| Correlation.DispatchAll | src/jsonrpc-client.js:162-174 | the frames of a line, in order, add or rename no call, and the table only loses ids |
| Correlation.RegisterKeepsSound | src/jsonrpc-client.js:89-107 | registering a call keeps the invariant (an unresolved call with a unique id is in the table with live timer and listener) and touches no other call |
| Correlation.ExpireEffect | src/jsonrpc-client.js:93-98 | a timer firing changes only its own call, and resolves it only when its id was deleted from the table |
| Correlation.ExpireKeepsSound | src/jsonrpc-client.js:93-98 | a timer firing keeps the invariant and never changes a resolved outcome |
| Correlation.TimeoutResolvesPending | src/jsonrpc-client.js:93-98 | the timer of a pending call whose id no other call shares resolves it with the timeout error for its id and removes the id |
| Correlation.FirstListenerExists | src/jsonrpc-client.js:101 | an id with a listener has a first-registered listener |
| Correlation.EmitEffect | src/jsonrpc-client.js:101-107 | an emitted id changes only calls with that id; an id not in the table resolves nothing |
| Correlation.EmitKeepsSound | src/jsonrpc-client.js:101-107 | an emitted response keeps the invariant and never changes a resolved outcome |
| Correlation.ResponseResolvesPending | src/jsonrpc-client.js:101-107 | a response for a pending call whose id no other call shares resolves it with that response and removes the id |
| Correlation.DispatchIsolation | src/jsonrpc-client.js:163-173 | a frame touches only calls with its own id; invalid and other frames, and errors with a null id, change nothing |
| Correlation.DispatchUnknownId | src/jsonrpc-client.js:101-107 | a response for an id not in the table (unknown or timed out) leaves table and outcomes unchanged |
| Correlation.DispatchAllKeepsSound | src/jsonrpc-client.js:158-175 | a whole line of frames keeps the invariant; no call is resolved twice |
| RpcClient.ClientTimeout | src/jsonrpc-client.js:9-15 | the client timeout is the option when truthy, else 2000; never 0 |
| RpcClient.CallTimeout | src/jsonrpc-client.js:85 | a call uses its own timeout when truthy, else the client's |
| RpcClient.TlsSetting | src/jsonrpc-client.js:16-17 | `tlsEnabled` is truthy exactly when cert, key or ca is, so an empty Buffer or an empty `ca` array turns TLS on; when truthy it is one of the three |
| RpcClient.JsonRpcClient.constructor | src/jsonrpc-client.js:12-19 | the timeout default, the TLS setting and an empty table |
| RpcClient.JsonRpcClient.AttachTlsSocket | src/jsonrpc-client.js:129 | the encrypted session exists from the handshake on |
| RpcClient.JsonRpcClient.WireWrite | src/jsonrpc-client.js:150-156 | each write goes to the TLS session exactly when TLS is enabled, else to the raw socket; with TLS enabled and no session yet it throws and writes nothing |
| RpcClient.JsonRpcClient.Invoke | src/jsonrpc-client.js:84-109 | one request line under the id GetId(now, draw), the id enters the table, the call waits with a non-zero timeout; if the write throws, the call rejects and the table is unchanged; the invariant is kept |
| RpcClient.JsonRpcClient.FireTimeout | src/jsonrpc-client.js:93-98 | the table becomes Expire of the old one; the invariant is kept |
| RpcClient.JsonRpcClient.EmitResponse | src/jsonrpc-client.js:166 | the table becomes Emit of the old one; the invariant is kept |
| RpcClient.JsonRpcClient.OnFrame | src/jsonrpc-client.js:163-173 | one frame: the table becomes Dispatch of the old one (a success or error frame is emitted under its id, any other frame changes nothing) and the invariant is kept |
| RpcClient.JsonRpcClient.OnResponse | src/jsonrpc-client.js:158-175 | the loop over the normalised frames leaves the table at DispatchAll of the old one; the invariant is kept |
| Tls.RemoveLast | src/jsonrpc-client.js:115 | removing a listener takes out its last occurrence and keeps the others in order |
| Tls.FixTlsConnect | src/jsonrpc-client.js:111-117 | after pruning, exactly the first 'error' listener is left (none if there were none) |
| Tls.HandshakeOptions | src/jsonrpc-client.js:120-124 | cert, key and ca are passed to the handshake exactly when truthy (an empty Buffer or array included), with their values; the other entry, the raw socket, is left implicit |
| Tls.TlsHandshake.constructor | src/jsonrpc-client.js:119-130 | a handshake starts unsettled, with its once-listener for 'secureConnect' |
| Tls.TlsHandshake.OnSecureConnect | src/jsonrpc-client.js:130-139 | the session is secure with exactly one line reader; the promise resolves unless it already settled |
| Tls.TlsHandshake.OnError | src/jsonrpc-client.js:141-146 | the promise rejects unless it already settled; the settlement is always that of the first event |
| Scenarios.BackoffScenario | src/durable.js:25-72 | minTs 300, five immediate closes: delays 300, 360, 432, 518, 621 and reconnect counts 0 to 4 |
| Scenarios.OneShotScenario | src/durable.js:37-48 | after a one-shot connect, a close schedules nothing and leaves backoff and close time alone |
| Scenarios.OrphanTimerScenario | src/durable.js:50-77 | as written: reconnect, close, reconnect, disconnect; a connection attempt still follows the disconnect |
| Scenarios.ClearedTimerScenario | src/durable.js:57-64 | with the corrected reconnect, nothing connects after disconnect and no timer is live |
| Scenarios.TimeoutScenario | src/jsonrpc-client.js:84-109 | an unanswered call resolves with the timeout error for its id; a late response changes nothing |
| Scenarios.ResponseScenario | src/jsonrpc-client.js:158-175 | a batch resolves only the call it answers; an unknown id and the later timer change nothing |
| Scenarios.TlsScenario | src/jsonrpc-client.js:84-156 | with a certificate, a call before the session exists rejects and stays out of the table; after the session is created requests go to it; the handshake settles with the first event |

## Left out

- Socket, TLS and line I/O: `net.Socket`, `super.connect`, `end()`, `tls.connect` and `readline` become recorded calls or events. Bytes on the wire are not modelled.
- Serialisation: the `jsonrpc-lite` parse and serialise functions become the `Message` and `Parsed` datatypes. A written frame stands for its JSON text plus `'\n'`.
- Clock: `Date.now` is a parameter and is assumed never to go backwards (`clock <= now`).
- Randomness: `Math.random` is a parameter, a rational draw in [0, 1).
- Ids are kept as numbers, not as the strings sent. The code sends `'' + x`, the shortest decimal that reads back as the same double. For example, the double 156945600000000032 is sent as "156945600000000030". That conversion is one-to-one, so ids that collide as numbers also collide as strings, and ids that differ as numbers differ as strings.
- Numeric options (`minTs`, `maxTs`, `timeout`) are integers. The source accepts any number.
- Timers: `setTimeout` and `clearTimeout` become the armed flag, the orphan count and the Fire methods. Their firing order is chosen by the caller.
- Callback and promise conventions: the two calling styles of the client's `connect` and `disconnect` (src/jsonrpc-client.js:38-82) are left out. So are the socket's `cb` arguments.
- Re-emission of socket errors (src/jsonrpc-client.js:25) is left out.
- The client's own connect and close handlers (src/jsonrpc-client.js:21-35) are left out. The plain line reader attached when TLS is off (src/jsonrpc-client.js:28-31) is not modelled; incoming lines reach the model as parsed frames. Only the handshake and its reader (src/jsonrpc-client.js:119-148) are modelled, in `Tls`.
- The `connected` flag is left out.
- Floating point: jitter is an exact rational. A NaN option is not modelled. The only double arithmetic modelled is the id rounding in `Ids`.
- Durable.DurableSocket.OnConnect: the "backoff is unchanged" promise is stated for minTs ≥ 0 only. A negative but truthy `minTs` makes the reset test fire for a short connection, and the model computes that case as written.
- RpcClient.JsonRpcClient.Invoke: uses the exact id `GetId`, not the rounded double (see Findings).
- An error frame with a null id emits under `null`, where no call listens. The model dispatches nothing for it.
- Invalid and unknown frames are only logged. Logging is not modelled.
- `src/proxy-client.js` is not part of this model. It is a facade that calls `invoke` with fixed method names.
- The test programs are not part of this model. They are demo harnesses with real servers and certificates.

## Findings

| source | as written | input that shows it | evidently intended | confidence | as-written member | corrected member |
|---|---|---|---|---|---|---|
| src/durable.js:50-55, 74-77 | `reconnect()` while a retry timer is armed nulls `_reconnTimeout` in `_doReconnect` without `clearTimeout`; `disconnect()` can then no longer cancel that timer | reconnect, server closes (timer armed), reconnect again, disconnect; the orphaned timer fires and connects again after `disconnect()` | clear the armed timer before dropping its handle, so nothing reconnects after `disconnect()` | not executed | Durable.DurableSocket.Reconnect, Scenarios.OrphanTimerScenario | Durable.DurableSocket.ReconnectClearingTimer, Durable.RunWithClearingReconnect, Scenarios.ClearedTimerScenario |
| src/jsonrpc-client.js:7 | `Date.now() * 100000 + random(0, 100000)` is computed in doubles, and the values lie above 2^57, where doubles are 32 apart | now = 1569456000000 with r = 99999, and now + 1 with r = 0: both round to 156945600000100000, so two calls can share an id, and `id div 100000` is now + 1 | ids equal to now·100000 + r exactly: unique across milliseconds, and the millisecond is recovered by division | not executed | Ids.GetIdAsWritten, Ids.IdCollisionAsWritten | Ids.GetId, Ids.IdsOfDistinctMillisDiffer |
