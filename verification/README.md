# LINE account-linking webhook: the `/callback` dispatch decision

This project models the decision procedure of a LINE messaging bot's webhook
handler (`/callback` in `server.go`). The handler does three things:

- It maps the outcome of parsing the request to an HTTP status: 400 for an invalid signature, 500 for any other parse error, 200 otherwise.
- It walks the decoded event batch in order.
- For each event it decides which outbound calls and which reply it makes:
  - a text message runs an exact-match rule table: the link trigger `連携する`, the unlink trigger `連携解除`, or an echo;
  - an account-link event branches on its result: `ok`, `failed` or anything else;
  - non-text messages and other event kinds are only logged.

The model has five modules:

- `Wrappers` holds `Option`.
- `Webhook` holds the inbound event, source, message and parse-result datatypes, and `ExtractUserId`.
- `Messaging` holds the reply requests: a text message, or a buttons template with one URI action.
- `Callback` holds the handler's constants and the specification functions:
  - `EventStep` is the per-event decision table;
  - `Dispatch` walks the batch and stops at the first aborting event;
  - `Handle` covers a whole delivery.

  It also holds the imperative handler, proved equal to those functions: `HandleEvent` is the loop body with its mutable `replyMessage`, and `HandleCallback` is the loop with its early `return`.
- `CallbackProperties` holds the lemmas about them.

The handler's behaviour is an ordered trace of `Effect`s plus a status code. The effects are:

- a link-token request for a user id;
- an unlink request for a user id;
- a reply request on a reply token.

The answers of the outside world come in as one `Upstream` value per event:

- the issued link token, or `None` when the request fails;
- whether the unlink request succeeds;
- whether the reply send succeeds.

The login base URL is an immutable `Config` value.

The model follows the code as written:

- The trigger phrases are compared exactly. There is no trimming, so `" 連携する"` is echoed (`TriggersMatchExactly`).
- A message from a source that is not a direct user is not skipped. `extractUserId`'s error is only logged, and the empty id `""` is passed to the link-token or unlink request (`NonUserSourceUsesEmptyId`).
- A failed link-token request `return`s out of the whole handler. This drops every later event of the batch, not just the current one (`AbortEndsBatch`). No status is written on that path, so the response is the implicit 200 (`Handle`).

## Model

| member | source | states |
|---|---|---|
| Webhook.ExtractUserId | server.go:189-196 | the id is the user id exactly for a user source; any other source, even a group or room naming a user, gives `""` and an error |
| Callback.LoginUrl | server.go:73-74 | the login URL is the base URL, then `?linkToken=`, then the token, each recoverable at its position |
| Callback.EchoText | server.go:111 | the echo reply is `あなたは`, the text unchanged, then `と言いました。` |
| Callback.EventStep | server.go:57-173 | an event makes at most one outbound call and at most one reply, the call before the reply; handling stops only right after a link-token request, with no other effect |
| Callback.Dispatch | server.go:54-174 | the batch trace holds at most two effects per event |
| Callback.Handle | server.go:42-51 | status 400 iff the signature is invalid, 500 iff another parse error, 200 iff parsed, even when handling stopped early; no effect on a parse failure |
| Callback.HandleEvent | server.go:57-173 | the loop body, with its mutable `replyMessage` and its early `return`, produces exactly the effects and stop flag of the decision table `EventStep` |
| Callback.HandleCallback | server.go:39-175 | the handler with its event loop and early return produces exactly the status and effect trace of `Handle` |
| CallbackProperties.AbortOnlyOnTokenFailure | server.go:67-71 | handling stops iff the event is the exact link trigger and the token request fails; then the only effect is that request |
| CallbackProperties.LinkTriggerWithToken | server.go:63-98 | the link trigger with an issued token: one token request for the extracted id, then one buttons reply on the event's token whose single URI action is `loginBase + "?linkToken=" + token` |
| CallbackProperties.LinkTriggerWithoutToken | server.go:67-71 | the link trigger without a token: the request is made, no reply, and handling stops |
| CallbackProperties.UnlinkTriggerReply | server.go:101-109 | the unlink trigger: one unlink request, then one text reply, `連携解除が完了しました。` on success and `連携解除が失敗しました。` otherwise |
| CallbackProperties.EchoOtherText | server.go:110-126 | any other text T: no outbound call and exactly one reply `あなたは` + T + `と言いました。` |
| CallbackProperties.EchoInjective | server.go:111 | two echo replies are equal only for equal texts |
| CallbackProperties.TriggersMatchExactly | server.go:63-111 | a trigger with a leading blank or a trailing newline is echoed, not acted on |
| CallbackProperties.AccountLinkReply | server.go:131-169 | result `ok` gives one reply `アカウント連携が完了しました。`, `failed` one reply `アカウント連携が失敗しました。`, anything else none; never stops |
| CallbackProperties.SilentEventStep | server.go:57-173 | non-text messages, unknown event kinds and other link results produce no effect and do not stop handling |
| CallbackProperties.StepReplies | server.go:57-173 | an event gets at most one reply, always on its own reply token; a text message that does not stop handling gets exactly one |
| CallbackProperties.NonUserSourceUsesEmptyId | server.go:59-60 | for a non-user source the link or unlink request is made with the empty id |
| CallbackProperties.DispatchAppend | server.go:54-70 | handling `a + b` is handling `a` followed by handling `b` when `a` runs to the end, and just handling `a` otherwise |
| CallbackProperties.AbortEndsBatch | server.go:54-71 | after an event whose token request fails nothing more happens, and no reply comes from that event or any later one |
| CallbackProperties.SilentEventTransparent | server.go:54-173 | a silent event inserted anywhere in a batch changes nothing; later events are still handled |
| CallbackProperties.ReplyOutcomeIgnored | server.go:94-166 | whether reply sends fail never changes the handler's trace |
| CallbackProperties.TextBatchRepliesInOrder | server.go:54-126 | a batch of text messages that runs to the end gets one reply per event, in batch order, each on its own event's reply token |
| CallbackProperties.RepliesInBatchOrder | server.go:54-174 | in every batch, mixed or stopped early, each reply is on the reply token of an event that carries one, and the replies follow batch order (strictly increasing event indices) |
| CallbackProperties.UnlinkTwice | server.go:101-121 | two unlink triggers give two requests and two replies, each reporting its own request's outcome |
| CallbackProperties.LinkScenario | server.go:42-98 | a delivery with one link trigger and an issued token: status 200, one token request, one reply carrying `<base>?linkToken=<token>` |
| CallbackProperties.AbortScenario | server.go:54-71 | a failed token request for the first event: status 200 and the second event gets no reply |

## Left out

- Server bootstrap, `.env` loading, reading the environment, the port default and `ListenAndServe` (server.go:16-37, 177-185) are process plumbing. The login base URL, which the handler reads from the environment on each link request, is the immutable `Config` parameter.
- `webhook.ParseRequest` (server.go:42): signature verification and JSON decoding happen in the LINE SDK, whose code is not part of this model. Its result is the `ParseResult` input: parsed events, invalid signature, or any other error.
- The bodies of `getLinkToken` and `requestUnlinkAccount` (server.go:199-251) are HTTP requests, status checks and JSON decoding. Their outcomes are the `Upstream` oracle values. The unlink request actually targets the rich-menu endpoint (line 229), and the model gives it no further meaning.
- `bot.ReplyMessage` and every `log` call are I/O. A reply is an `Effect` appended to the trace, and a send error is swallowed, as in the code.
- Concurrency between HTTP requests is not modelled. Each delivery is handled independently and without state.
- The `/` handler (server.go:32-37) answers a GET with the fixed body `hello world` and any other method with an empty 200, on every path other than `/callback`. It is outside the webhook dispatch and is not modelled.
- An account-link event without a link payload would dereference a nil pointer in the Go code. The model's `AccountLinkEvent` always carries a result.
