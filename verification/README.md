# jrpc2go dispatch engine, modelled in Dafny

This project models the transport-independent core of jrpc2go, a JSON-RPC 2.0
request dispatcher written in Go. The core has four parts:

- the error catalogue (`errors.go`): seven codes, each with a canonical message;
- the message model and request framing (`jrpc2go.go`): requests, responses,
  context copies, parameter decoding, and the first-rune choice between a single
  request object and a batch;
- the registry builder (`manager.go`): default timeout, `SetTimeout`, `Add`
  (last registration wins; an empty name or nil handler aborts), and `Build`;
- the dispatcher (`manager.go`): `execMethod` checks the version, then the
  method name, then looks the method up, then applies the handler outcome.
  `Handle` refuses nil endpoints and empty batches, runs the calls in order,
  drops successful notifications, and writes nothing, one object, or an array.

Everything is an immutable datatype or a pure function. Four impure parts
become inputs:

- JSON decoding is a `Decoder` with one function for a single object and one
  for an array. Each function sees the whole input, first rune included.
- A handler run is an `Executor` returning an `Outcome`. `Timeout(partial)`
  means the deadline won the race; `partial` is the result the handler had
  already written. `Done(result, error)` means the handler finished first.
- Writing is a `Writer` that reports the error from encoding and writing an
  output, if there is one.
- A reader is a `Source`: the runes it holds, and the error it reports once
  empty (normally `EOF`).

Go panics become `Err` results carrying the panic text. There are two:
`WithContext` given a nil context, and `Add` given an empty name or a nil handler.

Modules: `Wrappers` (Option, Result), `Json` (opaque payload values),
`Errors`, `Messages`, `Registry`, `Dispatch`.

Where the code differs from the JSON-RPC 2.0 standard, the model follows the code:

- A failed notification is still answered. Section 4.1 of the standard says
  notifications get no reply.
- A batch that leaves exactly one reply is answered with a bare object.
  Section 6 of the standard expects an array.
- An empty batch `[]` is returned to the caller as an error. No response is written.

Two further behaviours of the code are kept as written:

- After a timeout the code does not clear `Result`. A result the handler wrote
  before the deadline stays beside the ExecutionTimeout error, so result/error
  exclusivity is proved only for handlers that finished in time.
- The error for an empty method name is MethodNotFound with the data text
  `Method not specified or empty` (manager.go:123).

The dispatcher writes `errCodeInternal` (manager.go:68,72) and the catalogue
defines `ErrCodeInternal` (errors.go:38). Both are modelled as the single
constant -32603.

## Model

| member | source | states |
|---|---|---|
| Errors.CanonicalMessage | errors.go:52-68 | the message agrees with the seven-entry catalogue table; it is empty exactly for codes outside the catalogue (the switch has no default) |
| Errors.Catalogued | errors.go:47-69 | the internal constructor keeps code and data verbatim; the message is the catalogue's text for catalogued codes and empty otherwise |
| Errors.Custom | errors.go:72-77 | the caller-facing constructor keeps code and message verbatim and leaves data absent |
| Errors.CatalogueIsInjective | errors.go:26-44 | the seven code constants are pairwise distinct and no two catalogued codes share a message |
| Errors.CatalogueMessagesNonEmpty | errors.go:52-68 | a code is catalogued if and only if its canonical message is non-empty |
| Errors.CustomAgreesWithCatalogue | errors.go:47-77 | the caller-facing constructor given the canonical message builds the same error as the internal one without data |
| Messages.BaseContext | manager.go:80-82 | a nil caller context is replaced by the background context; a given one is used as is |
| Messages.ContextOf | jrpc2go.go:58-63 | a request without a context reports the background context, and a request with one reports exactly that context |
| Messages.WithContext | jrpc2go.go:67-75 | a nil context is refused (the panic); otherwise the copy keeps version, method, id and params, and carries the new context |
| Messages.WithContextOverrides | jrpc2go.go:67-75 | replacing the context twice equals replacing it once with the second context |
| Messages.WithContextOnlyChangesContext | jrpc2go.go:71-73 | the copy differs from the original in the context field alone |
| Messages.ContextRoundTrip | jrpc2go.go:58-75 | reading back the context of a copy returns the context that was set |
| Messages.NewResponse | jrpc2go.go:92-97 | a fresh response echoes the request's version and id, with no result and no error |
| Messages.ParseParams | jrpc2go.go:42-53 | success exactly when the target is non-nil, params are present and unmarshalling succeeds, yielding the unmarshalled value; otherwise InvalidParams, with the nil-target check first, then absent params, then the unmarshal error as data |
| Messages.ParseMethodRequest | jrpc2go.go:115-145 | ParseError exactly for empty input; a first rune `[` selects the batch decoder, any other (blanks included) the single decoder, each applied to the whole input; one decoded object gives a one-element sequence, a decoded array is returned as is, and a decode failure is InvalidRequest with the decoder's error as data |
| Messages.SingleObjectYieldsOne | jrpc2go.go:131-138 | a successful read off the single-object path yields exactly one request |
| Messages.EmptyArrayIsDecodeSuccess | jrpc2go.go:140-144 | an array that decodes to no requests is a successful read with zero requests |
| Registry.NewManagerBuilder | manager.go:18-23 | a fresh builder has a ten-second timeout and no methods |
| Registry.SetTimeout | manager.go:28-31 | only the timeout changes; the methods are kept |
| Registry.Add | manager.go:37-45 | refused exactly for an empty name or a nil handler; on success the name maps to the handler, all other entries and the timeout are unchanged, and no other key appears |
| Registry.Build | manager.go:49-54 | the manager carries the builder's methods and timeout |
| Registry.Lookup | manager.go:127-129 | the lookup finds a handler exactly for registered names, and it is the registered one |
| Registry.LastRegistrationWins | manager.go:33-43 | registering a name twice leaves the same builder as registering only the second handler |
| Registry.DistinctAddsCommute | manager.go:43 | registrations under different names can be made in either order |
| Registry.AddAll | manager.go:37-45 | a chain of registrations succeeds exactly when every name is non-empty and every handler non-nil, and it never registers the empty name |
| Registry.AddAllLastWins | manager.go:33-45 | after a chain of registrations, each name resolves to its last registration in the chain, or to its original entry if the chain never names it |
| Dispatch.HandlerView | manager.go:138-140 | the handler sees a copy of the request with the same fields and a fresh context, a child of the caller's, that expires the manager's timeout after this call started |
| Dispatch.ApplyOutcome | manager.go:148-155 | a completed handler's error clears the result, and its result is kept when there is no error; a timeout sets ExecutionTimeout without data and keeps any partial result; version and id are untouched |
| Dispatch.ExecMethod | manager.go:115-157 | every response echoes the request's version and id; a response with both result and error can only come from a timed-out registered handler, and one without error only from a registered handler that completed |
| Dispatch.VersionCheckedFirst | manager.go:116-120 | a version other than "2.0" gives InvalidRPCVersion with the version as data and no result, whatever the method, registry, handlers or context |
| Dispatch.EmptyMethodNotFound | manager.go:122-125 | with the right version, an empty method gives MethodNotFound with data "Method not specified or empty", independent of registry and handlers |
| Dispatch.UnknownMethodNotFound | manager.go:127-134 | with the right version, an unregistered non-empty name gives MethodNotFound with the name as data, independent of the handlers |
| Dispatch.RegisteredMethodRunsHandler | manager.go:136-156 | for a registered method the response is decided by its handler's outcome on the deadline-carrying copy |
| Dispatch.Kept | manager.go:92-96 | a reply is kept whenever its call has an id or the reply has an error, and dropped exactly for a notification that succeeded |
| Dispatch.Collect | manager.go:88-97 | never more replies than calls; when replies echo ids, every kept reply has an id or an error |
| Dispatch.CollectIsOrderedSelection | manager.go:88-97 | the kept replies are the replies, each computed at its own call position, at a strictly increasing list of positions, and a position is in that list exactly when its call has an id or its reply has an error |
| Dispatch.SuccessfulNotificationsAreDropped | manager.go:92-96 | a run of successful notifications keeps no reply |
| Dispatch.SameCallMayEndDifferently | manager.go:136-146 | each call of a batch gets its own deadline, so the same call made twice can complete once and time out once |
| Dispatch.Shape | manager.go:99-111 | the output carries exactly the kept replies in order: nothing for none, a bare object for one, an array for two or more |
| Dispatch.Handle | manager.go:66-112 | a refusal hands nothing to the writer; a write error comes from the writer on a non-empty output; a nil reader or writer is an Internal error; an array output holds at least two replies; each reply handed to the writer has an id or an error |
| Dispatch.NilReaderRefused | manager.go:67-69 | a nil reader is refused with Internal and fixed data, independent of writer, input and handlers |
| Dispatch.NilWriterRefused | manager.go:71-73 | a nil writer is refused with Internal and fixed data before the input is read |
| Dispatch.ReadFailureReturned | manager.go:75-78 | a read failure is returned unchanged and nothing is written |
| Dispatch.EmptyInputIsParseError | jrpc2go.go:122-125 | empty input is returned as ParseError and nothing is written |
| Dispatch.EmptyBatchRefused | manager.go:84-86 | zero decoded requests are refused with InvalidRequest "no methods specified" and nothing is written |
| Dispatch.OutputIsKeptReplies | manager.go:88-111 | the replies handed to the writer are exactly the kept ones; with none kept the writer is not used and no error is returned; otherwise success means the writer succeeded |
| Dispatch.SilentNotifications | manager.go:90-111 | a batch of notifications that all succeed writes nothing and returns no error |
| Dispatch.FailedNotificationAnswered | manager.go:92-96 | a single failing notification is answered as a bare object without id |
| Dispatch.WrittenInCallOrder | manager.go:88-111 | end to end, the replies handed to the writer are those of the kept calls, each once, in call order |
| Dispatch.OneKeptReplyIsBareObject | manager.go:106-109 | a batch leaving one kept reply is written as a bare object |
| Dispatch.OneCallWritten | manager.go:88-109 | a read yielding one call with an id writes exactly that call's reply as a bare object |
| Dispatch.TwoCallsWritten | manager.go:88-101 | a read yielding two calls with ids writes an array of their replies in call order, the second run at position 1 |
| Dispatch.TestManagerBuilt | manager_test.go:91-95 | the test registry (`add` and `sum`, one-second timeout) is what the builder chain produces |
| Dispatch.TestAdderOutcome | manager_test.go:21-39 | the test handler answers the sum of its two decoded operands; a sum of 1 also sets the test error; a sum of 20 produces nothing under a deadline shorter than ten seconds |
| Dispatch.TestAdderSums | manager.go:115-156 | a well-formed call of a test method whose operands sum to neither 1 nor 20 is answered with the sum, whatever its position |
| Dispatch.EmptyObjectAnswered | manager_test.go:159-167 | the empty object is answered with InvalidRPCVersion, empty version as data and no id |
| Dispatch.AddCallAnswered | manager_test.go:124-132 | a call of `add` with id "1" and operands 10 and 120 is answered with that id and the result 130 |
| Dispatch.BatchAnsweredInOrder | manager_test.go:141-148 | a batch of `add` (10, 120) and `sum` (10, 20) is answered with an array holding 130 then 30 |
| Dispatch.SumCallTimesOut | manager_test.go:195-203 | a `sum` call whose handler sleeps past the one-second deadline is answered with ExecutionTimeout and no result |
| Dispatch.ErrorClearsResult | manager_test.go:204-211 | a handler that sets both a result and an error is answered with the error alone |

## Left out

- `http.go` and the two example programs: HTTP status mapping, process start-up and read/write loops are I/O plumbing.
- The goroutine, channel, `select`, `context.WithTimeout` and read-write mutex machinery (manager.go:127-155). Which side wins the race is the `Outcome` input. A handler that keeps running after a timeout, and its later racy writes to the response, are not modelled.
- Handler behaviour: a handler gets a `*Response` and could also overwrite its version or id. The model assumes it sets only the result and the error. A handler that panics is not modelled either; the code does not guard against it.
- `encoding/json`: byte layout, key order, the encoder's trailing newline, trailing input after the first JSON value, and how a JSON `null` id decodes. The decoder and the writer are inputs.
- `Error.Error()` string formatting (errors.go:18-20): it depends on `fmt`'s `%+v` rendering.
- The `br.Size() == 0` guard (jrpc2go.go:118-120) is unreachable, because the buffer size is fixed. The `UnreadRune` failure (jrpc2go.go:127-129) cannot follow a successful `ReadRune`. Neither is modelled; empty input is caught by the first read.
- A reader that fails after delivering some runes. The decoder functions see only the runes, and `endError` is used only for empty input, so such a failure can be represented only by choosing a different `dec` for that source.
- A JSON `null` decodes to a nil request that the code would dereference (jrpc2go.go:94), both as the whole single request and as an element of a batch such as `[null]` or `[{…}, null]`, which the loop passes to `execMethod` (manager.go:91). Decoded requests, single or in a batch, are always records here.
- Map aliasing between builder and manager: `Build` shares the Go map, so later `Add` calls on the builder would show through. Here `Build` copies the map, and mutation after `Build` is not modelled.
- Deadlines are not evaluated against a clock. The timeout and the call's position only flow into the handler's context (`HandlerView`), and the `Outcome` input stands for the race.
- Dispatch.Handle: on an `Io` failure, `written` is the output handed to the encoder. The encoder marshals the whole value before writing (manager.go:101,108), so a marshalling failure writes no bytes, and a failing writer may have written only part of the output. Which bytes reached the sink is not modelled.
- Dispatch.TestAdderSums: the sum is unbounded, so operands whose int64 sum wraps to 1 or 20 (for example -2^63 and -2^63+20) are answered here with their mathematical sum, while the test handler would set its error or sleep.
- Dispatch.TestAdderOutcome: the test handler's int64 addition is modelled without wrap-around, and a ten-second sleep against a deadline of exactly ten seconds, a race in the code, is modelled as completing.
- Dispatch.ExecMethod: result/error exclusivity is not claimed after a timeout, because the code keeps a partial result there.
