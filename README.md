# digital-locker event bridge — a Dafny model

This project models the core of `src/blockchain/events.js` in the
digital-locker repository: the bridge that watches every event of the
document-locker smart contract and turns each one into a push notification
for the account concerned.

It has two parts.

* **Event translator** (`Events`): `eventResultToData` and the static
  `eventMessages` table. A raw event becomes `{eventName, message,
  toEthAccount}`. The recipient is `args.to`, or `args.from` when `to` is
  falsy. The body comes from a four-entry table, and an unknown name gives an
  absent body rather than an error. The title is the hex decoding of
  `args.docName`. `additionalData.info` is the serialisation of the whole
  event. Three display hints are constant.
* **Per-event pipeline** (`Pipeline`): the `allEvents.watch` callback,
  `notifyUser` and `logError`, written as a function from the callback's
  outcome and the directory lookup's outcome to a trace of effects. Each
  effect is either `Log(tag, error)` (a `logError` call) or
  `Dispatch(token, message)` (a `gcmMesage` call). `Run` strings callbacks
  together over a finite stretch of the subscription; each callback carries
  the directory as it answers that callback's own lookup, so the answer for
  one account may change from one callback to the next.

Supporting modules: `Wrappers` (an `Option` type), `Js` (the JavaScript
values that can stand where an address is expected, their truthiness and
their string conversion) and `Hex` (the decoder used for the title).

Collaborators are inputs. `JSON.stringify` becomes a parameter
`serialize: RawEvent -> string`. `userHelpers.findUser` becomes a parameter
`findUser: Js.Value -> Lookup`, keyed by the account the code passes to it.
Its settled outcome is a user, no user (`null`), or a rejection.

`web3.toAscii` is library code and is not part of this model. `Hex.ToAscii`
is an assumed stand-in for it:
* an optional lower-case `0x` prefix is skipped;
* the rest is read two characters at a time, and each chunk of hex digits
  becomes the character with that code;
* zero bytes are kept, including trailing ones.

A chunk that holds a non-hex character decodes to code 0 here. The lemmas
about decoded contents cover lower-case hex only, as the encoder `Hex.ToHex`
writes it; they claim nothing about other input, and nothing about trimming
or UTF-8.

Two behaviours of the code are worth stating because one might expect
otherwise:
* When `gcmMesage` rejects, nothing is logged. One might expect dispatch
  failures to be logged like lookup failures, but the `gcmMesage` promise is
  neither returned nor given a `.catch` (events.js:87-88), so a dispatch is
  an effect with no outcome. The rejection is then an unhandled promise
  rejection, which the runtime reports on its own; depending on the runtime
  (recent Node versions end the process by default) this may also end the
  subscription that `Run` continues. That behaviour is not modelled.
* When both `to` and `from` are absent, translation does not fail. The
  recipient is then `undefined`, and `undefined` is passed on to the lookup.

The `.catch` at events.js:39 (the tag `eventResultToData`) is attached only
after `eventResultToData` has returned, so it cannot catch a synchronous
throw from translation; it is reached only when the `.then` callback at
events.js:35-38 throws. Under the assumption stated in "## Left out"
(`findUser` and `gcmMesage` always return a promise and never throw
synchronously) that callback does not throw, so the tag never appears.

## Model

| member | source | states |
|---|---|---|
| `Events.Body` | src/blockchain/events.js:61 | the body is present exactly for the four names of the table, and then it is that name's message: "Document uploaded", "Document deleted", "A document has been shared with you" or "Document updated" |
| `Events.KnownBodies` | src/blockchain/events.js:18-23 | the four known event names give "Document uploaded", "Document deleted", "A document has been shared with you" and "Document updated"; any other name gives an absent body, and translation still succeeds |
| `Events.Recipient` | src/blockchain/events.js:47-55 | the recipient is `to` when `to` is truthy, otherwise `from`; it is always one of the two, and it is truthy iff at least one of them is; no error when both are absent |
| `Events.FromIgnoredWhenToSet` | src/blockchain/events.js:50-55 | with a truthy `to`, changing `from` does not change the recipient |
| `Events.EventResultToData` | src/blockchain/events.js:43-79 | the name passes through unchanged; the recipient is `Recipient(args)`; `info` is the serialisation of the whole event, including the fields the translator does not read (`others`); the title is the decoding of `docName`; the body is the table lookup; the constant hints are attached |
| `Events.TitleOnlyFromDocName` | src/blockchain/events.js:62 | two events with the same `docName` get the same title, whatever else differs, including the serialiser |
| `Events.UploadScenario` | src/blockchain/events.js:43-79 | an AddDocument event from 0xA to 0xB whose `docName` is the hex encoding of any byte text (such as "report.pdf") gets body "Document uploaded", that text as title, and recipient 0xB |
| `Hex.ToAscii` | src/blockchain/events.js:62 | the decoded title has one character per two hex characters after the optional prefix, rounded up |
| `Hex.RoundTrip` | src/blockchain/events.js:62 | decoding the `0x`-hex encoding of any byte text gives that text back |
| `Hex.PrefixOptional` | src/blockchain/events.js:62 | the hex digits decode to the same text with or without the `0x` prefix |
| `Hex.TrailingZeroKept` | src/blockchain/events.js:62 | a trailing `00` decodes to a trailing NUL, so trailing zero bytes are not stripped |
| `Pipeline.UnknownAccountError` | src/blockchain/events.js:85 | the not-found error text starts with "Error: Cannot send notification to unknown Ethereum user account: " and ends with the unresolved account's text |
| `Pipeline.LogLine` | src/blockchain/events.js:93-94 | the logged line is "Error in: ", the tag, a newline, the error text and two newlines, and nothing else |
| `Pipeline.NotifyUser` | src/blockchain/events.js:81-91 | exactly one effect; it is a dispatch iff a user was found, and then it goes to that user's token with the message unchanged; otherwise it is a log under the event name, carrying the not-found error for the account or the lookup's own rejection |
| `Pipeline.OnWatch` | src/blockchain/events.js:27-40 | every callback causes exactly one effect |
| `Pipeline.SubscriptionErrorLogsOnce` | src/blockchain/events.js:28-30 | a subscription error gives exactly one log tagged "allEvents" and no dispatch |
| `Pipeline.NotFoundNoDispatch` | src/blockchain/events.js:84-86 | with no user for the recipient: exactly one log under the event name, whose error ends with the unresolved account, and no dispatch |
| `Pipeline.FoundDispatchesOnce` | src/blockchain/events.js:87 | with a user for the recipient: exactly one dispatch, to `user.firebaseToken`, of the translated message unchanged, and no log |
| `Pipeline.RejectedLogsOnce` | src/blockchain/events.js:90 | a rejected lookup gives exactly one log under the event name carrying that rejection, and no dispatch |
| `Pipeline.DispatchIffFound` | src/blockchain/events.js:82-90 | a callback dispatches exactly once iff it carries an event whose recipient resolves to a user, and logs exactly once otherwise |
| `Pipeline.FallbackScenario` | src/blockchain/events.js:53-55 | a DeleteDocument event from 0xA with an empty `to` goes to 0xA; if 0xA is unknown, there is one log under "DeleteDocument" and no dispatch |
| `Pipeline.Run` | src/blockchain/events.js:26-27 | a run of callbacks, each with the directory answer it saw, has one effect per callback |
| `Pipeline.RunAt` | src/blockchain/events.js:27-40 | the i-th effect of a run is the effect of the i-th callback alone, with that callback's own directory answer |
| `Pipeline.RunAppend` | src/blockchain/events.js:27-30 | an error does not end the subscription: the run of `a + b` is the run of `a` followed by the run of `b` |
| `Pipeline.DirectoryChangesWithinRun` | src/blockchain/events.js:82-87 | each callback looks its account up anew: the same event seen first with no user and then with a user is logged once and then dispatched once |
| `Pipeline.RunCounts` | src/blockchain/events.js:81-91 | over a run, the number of dispatches is the number of callbacks whose recipient resolves to a user, and every other callback logs once |

## Left out

- Reading `ABI.txt` and `contractAddress.txt`, building the Web3 provider and the contract instance, and opening the live `allEvents` subscription (events.js:11-16, 26): these are setup and I/O. `Run` stands for a finite stretch of the subscription.
- All `console.log` output (events.js:31-32, 36, 88): informational output with no effect on the decisions.
- `JSON.stringify` and `userHelpers.findUser` are parameters. `notifier.gcmMesage` is the `Dispatch` effect. Its reply is only printed (events.js:88), and console output is left out, so the reply is not modelled.
- Promise scheduling: effects of different events may complete in any order and interleave. `Run` lists them in arrival order, and the actual order may be any interleaving of those effects.
- Unbounded concurrent fan-out of pipelines: a concurrency concern, with no sequential logic to model.
- Hex.ToAscii: `web3.toAscii` is not part of this model. The decoder is an assumption, and its lemmas about decoded contents cover only lower-case hex (upper-case digits are accepted by the decoder but no lemma covers them). Input that is not hex is decoded to code 0 per chunk, which may differ from web3.
- Synchronous throws from `userHelpers.findUser` or `notifier.gcmMesage`: the model assumes both always return a promise and never throw synchronously. A synchronous throw (or a non-promise return) from `findUser` would be logged under `eventResultToData` by the `.catch` at events.js:39, and a synchronous throw from `gcmMesage` would be logged under the event name by the `.catch` at events.js:90 after the dispatch was attempted, giving two effects; neither path is modelled, and `Pipeline.OnWatch`'s one-effect promise holds only under this assumption.
- Events.RawEvent: the fields of the event that the translator does not read (chain metadata such as the block and transaction, and any further arguments) are carried only as one opaque string `others`, which only the serialiser sees; so `info` depends on them, but their structure is not modelled. The model also assumes `args` is present: a result without `args` would throw synchronously at events.js:47, before the `.catch` at events.js:39 is attached, like the missing-`docName` case below.
- A missing `docName`: `toAscii` would throw synchronously inside the watch callback, before the `.catch` at events.js:39 is attached. `docName` is a required field of `Events.Args`, so this path is not modelled.
- Event names that are inherited properties of a JavaScript object (such as `toString`): `eventMessages[name]` would yield the inherited property. The table here is a plain map, so such names give an absent body.
- Pipeline.User: `firebaseToken` is modelled as a string. A user record without a token is not distinguished.
- Pipeline.ErrorValue: a thrown or rejected value is modelled only by its string form, which is all that `logError` uses.
