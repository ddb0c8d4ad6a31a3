# MicroExpress core in Dafny

A model of the two stateful parts of MicroExpress, a small Express-style HTTP
middleware framework on SwiftNIO:

- **The middleware dispatch pipeline** (`Router` in Sources/MicroExpress/Router.swift).
  `use` appends middleware to an ordered list. `handle` snapshots the list into a
  cursor (`State`) holding a slice and the fallback `next`. `step` pops the first
  middleware and runs it with `step` itself as its `next`. On an empty slice it fires
  the fallback and clears it. `get(path, mw)` wraps `mw` in a GET / URI-prefix filter.
- **The write-once response** (`ServerResponse` in Sources/MicroExpress/ServerResponse.swift).
  Two flags, `didWriteHeader` and `didEnd`, guard the head, body and end parts
  written to the NIO channel. `send`, `send(bytes:)` and `json` flush the head, skip
  the rest once ended, write one body and end. `end` writes the end part once and
  closes the channel after that write succeeded. `handleError` ends the response.

Files:

- `router.dfy` (module `Routing`): requests, middleware, the classes `Router` and
  `State`, and the reference semantics of dispatch.
- `response.dfy` (module `Response`): the channel log, the classes `Channel` and
  `ServerResponse`, and the pure functions `After*` giving the state after each
  operation.
- `headers.dfy` (module `Headers`): NIO's `HTTPHeaders` as an ordered list of
  (name, value) pairs.
- `encoding.dfy` (module `Encoding`): the UTF-8 bytes of a string and the decimal
  Content-Length.
- `express.dfy` (module `Express`): the 404 fallback of Express.swift and request
  scenarios.
- `wrappers.dfy`: `Option`.

## How the model reads

**Middleware.** A middleware's effect on the request and the response is abstract.
The pipeline sees two things of it: the labels of the application handlers that ran,
and how many times it called `next()`.

- `Handler(id, k)` calls `next()` k times:
  - 0: it answers the request;
  - 1: it passes the request on;
  - more: it misbehaves, which is exactly the case `next = nil` guards against.
- `GetFilter(path, inner)` is the closure that `get` registers.

**Dispatch.** `Drain` is the reference semantics: a counter machine. It counts the
calls to `step` still owed and the cursor position. `State.Step` and `State.Invoke`
are mutually recursive methods, as `step` and the middleware that receive it are.
They are proved to end in the state `Drain` predicts. `Dispatch` turns that state
into what `handle` observably does: the positions popped, the handlers run, and how
often the fallback fired.

**Response.** The channel is an append-only log of events:

- `Write(Head(version, status, headers))`, `Write(Body(bytes))`, `Write(End)`;
- `Close`.

`writeAndFlush` completes synchronously. The channel's `failing` set decides which
writes fail: the write that becomes log entry i fails when i is in the set. The
JSON encoder is a parameter, the result it produced (`None` when `encode` throws).

`WellFormed` is the response invariant. It is an automaton over the log, with one
phase per log a response can leave behind.

## Behaviour worth noting

- **A failed head write ends the response.** `flushHeader` routes a failed head
  write to `handleError`, which calls `end()` (ServerResponse.swift:54, 60-63). With
  synchronous completion the response is then ended, and `send` writes no body.
- **A head can follow the end.** `send`, `send(bytes:)` and `json` call
  `flushHeader()` before their `didEnd` guard (ServerResponse.swift:20-21, 100-101,
  173-174). So a response that ended before any head was written still writes a
  head. The logs `[E, H]` and `[E, C, H]` are in the invariant for this reason. No
  body is ever written after the end.
- **The channel is closed only when the end write succeeds.** `close()` runs in the
  `.map` of the end write (ServerResponse.swift:68-69). A failed end write leaves the
  channel open.
- **Setting a header after the head is out is rejected.** The setter asserts
  `!didWriteHeader` (ServerResponse.swift:79). The model makes this a precondition of
  `SetHeader`, `AfterSetHeader` and of `json` on its success path.
- **`next()` can be called after the fallback fired.** `step` can be reached after
  the fallback fired, by a middleware calling `next()` again. The call is inert because
  `next` was cleared (Router.swift:41). "Middleware k stops the pipeline" therefore
  holds when no earlier middleware calls `next()` more than once. `ShortCircuit` and
  `NothingRunsAfterStop` state it with that hypothesis.

## Model

| member | source | states |
|---|---|---|
| `Routing.HasPrefix` | Sources/MicroExpress/Router.swift:59 | the character-by-character prefix test holds exactly when `prefix` is a prefix of `s` |
| `Routing.Matches` | Sources/MicroExpress/Router.swift:58-59 | the `get` guard accepts exactly the GET requests whose URI starts with the path |
| `Routing.Ran` | Sources/MicroExpress/Router.swift:57-62 | invoking one registered middleware runs at most one handler; a plain handler always runs, so only a `get` wrapper can run none |
| `Routing.NextCalls` | Sources/MicroExpress/Router.swift:57-62 | a request that a `get` wrapper filters out, so that no handler runs, is passed on with exactly one `next()` |
| `Routing.GetFilterRunsInnerIff` | Sources/MicroExpress/Router.swift:57-62 | the `get` wrapper runs its handler iff the method is GET and the URI starts with the path; otherwise it runs nothing and calls `next()` exactly once |
| `Routing.DefaultPathMatchesEveryGet` | Sources/MicroExpress/Router.swift:56-60 | with the default path "" the wrapper accepts every GET request and nothing else |
| `Routing.Drain` | Sources/MicroExpress/Router.swift:36-43 | the cursor only moves forward and stays within the snapshot; calls to `step` are left owed only when the snapshot is exhausted |
| `Routing.DrainSplit` | Sources/MicroExpress/Router.swift:36-43 | owing a + b calls to `step` is owing a, then b from wherever the first a left the cursor; this is how successive `next()` calls of one middleware compose |
| `Routing.Dispatch` | Sources/MicroExpress/Router.swift:15-49 | a dispatch pops positions 0, 1, … in order, at most n of them; the fallback fires at most once, and only after the whole snapshot was popped |
| `Routing.DispatchEmpty` | Sources/MicroExpress/Router.swift:40-48 | with no middleware the fallback fires at once and nothing else runs |
| `Routing.ShortCircuit` | Sources/MicroExpress/Router.swift:36-39 | if every middleware before k passes the request on and middleware k does not call `next()`, exactly middlewares 0..k run, in order, and the fallback does not fire |
| `Routing.NothingRunsAfterStop` | Sources/MicroExpress/Router.swift:36-39 | if no middleware before k calls `next()` twice and middleware k does not call it, no middleware after k runs and the fallback does not fire |
| `Routing.AllPassOn` | Sources/MicroExpress/Router.swift:36-42 | if every middleware calls `next()`, all of them run in registration order and the fallback fires exactly once |
| `Routing.Router.constructor` | Sources/MicroExpress/Router.swift:6 | a new router has an empty middleware list |
| `Routing.Router.Use` | Sources/MicroExpress/Router.swift:9-11 | the arguments are appended in argument order after the unchanged earlier entries |
| `Routing.Router.Get` | Sources/MicroExpress/Router.swift:56-64 | registers exactly one entry, the GET/prefix wrapper around the handler, at the end |
| `Routing.Router.Handle` | Sources/MicroExpress/Router.swift:15-49 | the fresh cursor walks a snapshot of the list taken at call time; what it observes equals `Dispatch` of that snapshot |
| `Routing.State.constructor` | Sources/MicroExpress/Router.swift:25-34 | the cursor starts at the front of the slice with the fallback set and nothing observed |
| `Routing.State.Step` | Sources/MicroExpress/Router.swift:36-43 | one call pops one middleware, or fires the still-set fallback on an empty slice and clears it; it ends where the counter machine predicts and keeps the cursor invariant |
| `Routing.State.Invoke` | Sources/MicroExpress/Router.swift:38 | running a popped middleware with `step` as `next` (including the `get` wrapper's closure) ends where the machine owing its `next()` calls predicts |
| `Routing.LateRegistration` | Sources/MicroExpress/Router.swift:46-48 | a `use` made after the snapshot was taken does not affect the dispatch in flight |
| `Routing.StrayNext` | Sources/MicroExpress/Router.swift:40-41 | a call to `step` after the fallback fired changes nothing |
| `Encoding.EncodeScalar` | Sources/MicroExpress/ServerResponse.swift:23 | each scalar takes one to four bytes, and one byte equal to its code exactly when it is ASCII |
| `Encoding.Utf8` | Sources/MicroExpress/ServerResponse.swift:23 | the UTF-8 view of a string has between one and four bytes per character |
| `Encoding.Utf8OfAscii` | Sources/MicroExpress/ServerResponse.swift:23 | an ASCII string is sent byte for byte |
| `Encoding.Decimal` | Sources/MicroExpress/ServerResponse.swift:170 | the rendered count is a non-empty string of digits without a leading zero |
| `Encoding.ParseDecimalOfDecimal` | Sources/MicroExpress/ServerResponse.swift:170 | the Content-Length digits read back as the byte count |
| `Headers.Values` | Sources/MicroExpress/ServerResponse.swift:88 | the lookup `headers[name]` returns at most one value per field |
| `Headers.Remove` | Sources/MicroExpress/ServerResponse.swift:84 | `remove(name:)` leaves only fields of the list stored under other names |
| `Headers.ReplaceOrAdd` | Sources/MicroExpress/ServerResponse.swift:81 | `replaceOrAdd` leaves the new field last, after only fields of the old list stored under other names |
| `Headers.Join` | Sources/MicroExpress/ServerResponse.swift:88 | `joined(separator:)` gives "" for no strings, the string itself for one, and otherwise starts with the first string and has the strings' total length plus one separator between each neighbouring pair |
| `Headers.Get` | Sources/MicroExpress/ServerResponse.swift:87-89 | the getter yields "" for a missing header, the value itself for a single one, and the first value followed by ", " for several |
| `Headers.ValuesOfRemove` | Sources/MicroExpress/ServerResponse.swift:84 | after `remove(name:)` the name has no value and every other name keeps its values |
| `Headers.ValuesOfReplaceOrAdd` | Sources/MicroExpress/ServerResponse.swift:81 | after `replaceOrAdd` the name holds exactly the new value and every other name keeps its values |
| `Headers.GetAfterSet` | Sources/MicroExpress/ServerResponse.swift:79-88 | after `self[name] = v` the getter returns `v` |
| `Headers.GetAfterRemove` | Sources/MicroExpress/ServerResponse.swift:83-88 | after `self[name] = nil` the getter returns "", never nil |
| `Response.AfterEnd` | Sources/MicroExpress/ServerResponse.swift:65-70 | `end` leaves the response ended; a second call changes nothing; it only appends the end part and a close |
| `Response.AfterFlushHeader` | Sources/MicroExpress/ServerResponse.swift:46-58 | after `flushHeader` the head is out and `didWriteHeader` never reverts; a second call changes nothing; an ended response stays ended |
| `Response.AfterSend` | Sources/MicroExpress/ServerResponse.swift:99-121 | after `send(bytes:)` the head is out and the response has ended, whatever the write outcomes; the log only grows |
| `Response.AfterSetHeader` | Sources/MicroExpress/ServerResponse.swift:78-86 | setting a header writes nothing and changes neither status nor flags |
| `Response.AfterJson` | Sources/MicroExpress/ServerResponse.swift:158-193 | after `json` the response has ended, on encoder failure as on success; the log only grows |
| `Response.EndKeepsWellFormed` | Sources/MicroExpress/ServerResponse.swift:65-70 | `end` keeps the response invariant |
| `Response.FlushHeaderKeepsWellFormed` | Sources/MicroExpress/ServerResponse.swift:46-58 | `flushHeader` keeps the response invariant |
| `Response.SendKeepsWellFormed` | Sources/MicroExpress/ServerResponse.swift:99-121 | `send(bytes:)` keeps the response invariant |
| `Response.JsonKeepsWellFormed` | Sources/MicroExpress/ServerResponse.swift:158-193 | `json` keeps the response invariant |
| `Response.HeadOnce` | Sources/MicroExpress/ServerResponse.swift:47-48 | a well-formed log holds at most one head |
| `Response.EndOnce` | Sources/MicroExpress/ServerResponse.swift:66-67 | a well-formed log holds at most one end part |
| `Response.CloseFollowsEnd` | Sources/MicroExpress/ServerResponse.swift:68-69 | a close comes right after an end part |
| `Response.BodyBetweenHeadAndEnd` | Sources/MicroExpress/ServerResponse.swift:99-121 | a body comes right after the head and right before the end part |
| `Response.WellFormedLogOrder` | Sources/MicroExpress/ServerResponse.swift:46-70 | in every log a response leaves behind, head, end, body and close each appear at most once; a close directly follows the end; a body sits directly between head and end |
| `Response.SendOnFreshResponse` | Sources/MicroExpress/ServerResponse.swift:19-41 | `send(s)` on an unwritten response with successful writes emits exactly Head(HTTP/1.1, status, headers), Body(utf8 of s), End, Close |
| `Response.NoBodyAfterEnd` | Sources/MicroExpress/ServerResponse.swift:100-101 | once ended, `send` writes no body; it writes a head only if none was written before |
| `Response.JsonSuccess` | Sources/MicroExpress/ServerResponse.swift:169-173 | on encoder success the head carries Content-Type application/json and a Content-Length that reads back as the data's byte count, and the response ends |
| `Response.JsonHeadersRead` | Sources/MicroExpress/ServerResponse.swift:169-170 | the headers `json` sets read back as Content-Type "application/json" and a Content-Length that parses to the byte count |
| `Response.JsonSendsData` | Sources/MicroExpress/ServerResponse.swift:173-187 | when the response had not ended and the head write succeeds, the part `json` writes right after the head is the body holding exactly the encoded bytes |
| `Response.JsonNoBodyAfterEnd` | Sources/MicroExpress/ServerResponse.swift:173-174 | once the response has ended, `json` writes no body, whatever the encoder produced |
| `Response.SendWritesHeadFirst` | Sources/MicroExpress/ServerResponse.swift:99-101 | on a response whose head is not out, the first part `send(bytes:)` writes is the head built from the current status and headers, even when the response has ended |
| `Response.JsonEncodeFailure` | Sources/MicroExpress/ServerResponse.swift:161-166 | on encoder failure `json` writes neither head nor body; it only ends the response |
| `Response.Channel.WriteAndFlush` | Sources/MicroExpress/ServerResponse.swift:34-36 | a write appends its part to the channel log and reports the channel's outcome |
| `Response.Channel.Close` | Sources/MicroExpress/ServerResponse.swift:69 | closing appends a close to the channel log |
| `Response.ServerResponse.constructor` | Sources/MicroExpress/ServerResponse.swift:8-16 | a new response has status 200 OK, no headers, neither flag set, nothing written |
| `Response.ServerResponse.End` | Sources/MicroExpress/ServerResponse.swift:65-70 | performs `end` step by step, reaching exactly `AfterEnd`, and keeps the invariant |
| `Response.ServerResponse.HandleError` | Sources/MicroExpress/ServerResponse.swift:60-63 | every failure funnelled here ends the response |
| `Response.ServerResponse.FlushHeader` | Sources/MicroExpress/ServerResponse.swift:46-58 | reaches exactly `AfterFlushHeader` and keeps the invariant |
| `Response.ServerResponse.SendBytes` | Sources/MicroExpress/ServerResponse.swift:99-121 | reaches exactly `AfterSend` and keeps the invariant |
| `Response.ServerResponse.Send` | Sources/MicroExpress/ServerResponse.swift:19-42 | sends the string's UTF-8 bytes as `send(bytes:)` does |
| `Response.ServerResponse.SetHeader` | Sources/MicroExpress/ServerResponse.swift:78-86 | only before the head is out; afterwards the getter returns the value set, or "" after a removal |
| `Response.ServerResponse.Header` | Sources/MicroExpress/ServerResponse.swift:87-89 | the subscript getter yields "" for a missing header and the value itself for a single one, never nil |
| `Response.ServerResponse.Json` | Sources/MicroExpress/ServerResponse.swift:158-193 | reaches exactly `AfterJson` and keeps the invariant |
| `Express.FinalHandler` | Sources/MicroExpress/Express.swift:97-101 | the fallback sets status 404 and sends the fixed message |
| `Express.FinalHandlerOnFreshResponse` | Sources/MicroExpress/Express.swift:99-100 | on a fresh response the fallback writes a 404 head, the message as the body, the end, and closes |
| `Express.NotFoundBodyLength` | Sources/MicroExpress/Express.swift:100 | the fallback's body is the 34 ASCII bytes of the message |
| `Express.PassOnThenAnswer` | Sources/MicroExpress/Router.swift:36-39 | a handler that passes on, then one that answers: both run, in order, and there is no fallback |
| `Express.NothingRegistered` | Sources/MicroExpress/Router.swift:46-48 | with nothing registered every request reaches the fallback |
| `Express.GetOnOtherPath` | Sources/MicroExpress/Router.swift:57-60 | `get("/api", h)` does not run `h` for GET /other; the request reaches the fallback |
| `Express.DoubleNextFiresFallbackOnce` | Sources/MicroExpress/Router.swift:41 | a handler that calls `next()` twice with nothing after it fires the fallback once, not twice |

## Left out

- Sources/MicroExpress/FS.swift (the worker pool and blocking file reads) is not part of this model: it is concurrency and I/O on NIO APIs.
- `render` and `path(to:)` (ServerResponse.swift:203-257) are not part of this model: they depend on the Mustache engine, the file bridge and Foundation URL paths.
- Server bootstrap, `listen` and the `HTTPHandler` glue (Express.swift:7-123) are left out as network plumbing. This includes its `IncomingMessage(header:)` call, which does not match the only initializer, `init(header:body:)` (IncomingMessage.swift:11). Only the final handler's behaviour is kept.
- IncomingMessage is reduced to its method and URI. The body, the other head fields and the untyped `userInfo` bag are dropped.
- What a middleware does to the request and the response is abstract: a handler label and a count of `next()` calls. The arguments passed to `next(...)` are ignored by the source and are not modelled.
- `writeAndFlush` futures complete synchronously in the model. Real NIO may complete them later, which can reorder a failure's `end()` against the `didEnd` guard. A successful body write likewise runs its `.map { self.end() }` (ServerResponse.swift:113-115) only when its future completes, so a second `send` issued before that passes the `didEnd` guard and writes a second body: the at-most-one-body fact of `WellFormedLogOrder` rests on synchronous completion.
- The `print` logging in `handleError` is not modelled, and neither is the error value.
- The NIO1 (`#else`) branches and the Swift 4.1 `send(bytes:)` duplicate (ServerResponse.swift:125-147) are not modelled. They do the same as the NIO2 branches.
- `JSONEncoder` is not modelled; `json` takes the encoder's result as a parameter. `ByteBuffer` allocation is not modelled either.
- Header names compare ASCII case-insensitively. NIO's keep-alive bookkeeping in `replaceOrAdd` for a Connection header is not modelled.
- `hasPrefix` is modelled on Unicode scalars. Swift compares extended grapheme clusters, which differs for strings with combining marks.
- Swift's `assert` is compiled out in optimised builds, where the setter would change headers after the head is out. The model follows debug builds and makes it a precondition.
- Response.ServerResponse.constructor: requires a channel that nothing has been written to. The model gives every response its own channel log. This matches the source, since `end()` closes the connection after one response; responses sharing a connection are not modelled.
- Status is modelled as its numeric code only; the reason phrase is left out.
