# jand-ipc client protocol engine, in Dafny

This project models the protocol logic of `JandIpcClient` (`index.js`), the
Node.js client of the JanD process-supervisor daemon, and proves properties
of that model. The client talks to the daemon over a named pipe (Windows) or a
Unix-domain socket (elsewhere). It sends `{Type, Data}` frames and gets back
either JSON or bare text. No reply carries a request identifier.

The revision modelled here correlates replies by scanning, not with a queue.
`_expectResponse` appends an expectation record (field names, an "is array"
flag, a pattern) and never removes it. Every inbound payload is matched
against the whole list:

- JSON is matched by field names.
- Text is matched by a regular expression.
- Text that starts with `ERR:` is thrown.

A JSON payload with an `Event` tag goes to `_handleEvent`. That method filters
it against the subscription bitmask `expectsEvent`.

Modules, one per component, and their files:

- `Common` (common.dfy): option, result and error types; `startsWith` and `includes`.
- `Addressing` (addressing.dfy): the name and address logic of the constructor and `connect`.
- `Events` (events.dfy): the category table; `subscribe` as written and as intended; the `_handleEvent` filter.
- `Patterns` (patterns.dfy): the regular-expression subset the client uses.
- `Correlation` (correlation.dfy): payload classification, the JSON and text scans, and runs of requests and replies.
- `Protocol` (protocol.dfy): the frame, the request formats, what each wrapper sends and waits for, and the reply decoders.
- `Client` (client.dfy): the class `JandIpcClient`. Its methods update `expectations`, `expectsEvent`, the frames written and the events emitted. Each method is proved against the functions above.

How the model represents the source:

- **Inbound payloads are already classified** (`Correlation.Payload`), since `JSON.parse` is not modelled. `Text(raw)` is a payload that does not parse. `JsonNull` is `null`. `Json(keys, first, event)` is any other JSON value, described by three things:
  - `keys`: `Object.keys(v)`. For an array these are its index strings; for a quoted string, its character indexes.
  - `first`: `Object.keys(v[0])`, or `None` when `v[0]` is null or undefined.
  - `event`: the `Event` tag when it is a non-empty string.
- **A promise is an `Outcome`** in the record: `Pending`, `Resolved(value)` or `Rejected(error)`. Resolving a settled promise changes nothing (`Correlation.Settle`). The handle `_expectResponse` returns is the record's position.
- **The mask**: `expectsEvent` is a 32-bit integer in the client. It is modelled as the set of positions of its one-bits (`Events.Mask`), so `|` is union and "`&` is non-zero" is a non-empty intersection. `Events.Bits` is JavaScript's ToUint32 read as bits. The table keeps the source's values 1, 2, 4, … 64.
- **Regular expressions**: each is a list of alternatives (`Patterns.Pattern`). An alternative is either "contains this literal" or "contains this literal followed by one more character that is not a line terminator", which is `lit.+`. `RegExp.test` is an unanchored search. The default `/asdgneigioqeg/` is modelled as the literal it is, so it matches text that contains it. It matches no text shorter than 13 characters (`Patterns.SentinelMissesShortText`).
- **Side effects become logs or parameters**: `socket.write` appends a `Frame` to `written`, and `emit` appends an `Emission` to `emitted`. `os.platform()` is a parameter of `connect`.
- **Guards left out**: two guards can never fire, so the model leaves them out.
  - The `data.length` guard (index.js:267) sits on a path where `data` has already parsed as JSON, so it is not empty. A `Json` payload carries no raw text, so the model cannot state this guard.
  - The `!exp.match` guard (index.js:298) cannot fire because every record has a pattern (`Correlation.NewExpectation` always supplies one).
- **An equivalent check**: the `expectations.length > 0` test (index.js:260) does the same as scanning an empty list.

Four behaviours of this revision are easy to mistake for something else. The model follows the code:

- **No queue.** Replies are not paired with requests in order. Every inbound payload is matched against every record ever registered, from the oldest. An answered record stays in the list. If it is the first record whose pattern matches a later text, it catches that text again, and a newer request waiting for the same text is not resolved (`Correlation.AnsweredRecordCapturesText`). A text-only record stops every later JSON scan (`Correlation.NoFieldsBlocksJson`).
- **`ERR:` replies are thrown, not delivered.** An `ERR:` text does not reject the waiting request. It is thrown out of the data handler, and nothing in the client ever calls `reject` (`Correlation.RunNeverRejects`). So `getProcessInfo`'s mapping of `ERR:invalid-process` to `null` can never be reached.
- **`subscribe` does not set category bits.** The typings declare `subscribe(events: EventString[])` as "Subscribe to a list of events" (index.d.ts:243-246). The code does not OR the listed categories' bits into the mask (see Findings).
- **Empty arrays are never accepted.** A record waiting for an array does not accept an empty array. Reading the keys of its missing first element throws a `TypeError`, which is swallowed, and the scan stops.

## Model

| member | source | states |
|---|---|---|
| Addressing.ClientName | index.js:142 | the client's name is the one given unless it is missing or empty, in which case it is `jand`; it is never empty |
| Addressing.ResolvePath | index.js:196-210 | on win32 a name starting with `/` or `\` is used verbatim, otherwise the address is `\\.\pipe\` + name; elsewhere a name starting with `/` is verbatim, otherwise `/tmp/CoreFxPipe_` + name |
| Addressing.ResolvedIsVerbatim | index.js:196-210 | every resolved address starts with a separator, so it would itself be taken verbatim |
| Addressing.ResolveIdempotent | index.js:196-210 | resolving a resolved address gives the same address |
| Addressing.PipeNamesCollide | index.js:197-202 | on win32 a plain name and its own pipe path open the same pipe |
| Addressing.DefaultAddresses | index.js:196-210 | a default client opens `/tmp/CoreFxPipe_jand` or `\\.\pipe\jand`; `myapp` resolves to `/tmp/CoreFxPipe_myapp`, `/custom/sock` to itself |
| Events.TableValueIsSingleBit | index.js:117-131 | each category's value is 2 to the power of its position and has exactly that one bit |
| Events.TableValue | index.js:117-131 | the module-level table has a non-zero entry for exactly the seven category names |
| Events.TableBitsAreDisjoint | index.js:117-131 | two different categories AND to zero |
| Events.PositionIsInjective | index.js:117-131 | different categories have different bits |
| Events.DeliversIffOwnBit | index.js:312-319 | an event is emitted exactly when its tag is a category whose own bit is in the mask |
| Events.Delivers | index.js:314-315 | the `_handleEvent` filter: only a tag with a table entry can pass it, and an empty mask lets nothing through |
| Events.DeliversOwnBitOnly | index.js:314-315 | a category's bit alone lets that category, and no other, through the filter |
| Events.OutlogNeedsItsBit | index.js:314-316 | an `outlog` event is emitted only while bit 0 of the mask is set |
| Events.MaskAfter | index.js:185-189 | the `for` loop as written: the mask afterwards is the old mask together with every bit the handled names' lookups yield, and nothing else; no set bit is ever cleared |
| Events.SubscribeStays32Bit | index.js:185-189 | the mask stays a 32-bit value |
| Events.Contribution | index.js:186-187 | what `events[event]` ORs in when `events` is the argument array: at most 32 bits; nothing for a category name, nor for any name that is neither `length` nor an array index |
| Events.InertNamesKeepMask | index.js:185-189 | names that are neither `length` nor an array-index string leave the mask unchanged |
| Events.CategoryNamesAreInert | index.js:117-131 | no category name is `length` or an array-index string |
| Events.SubscribeToCategoriesIsNoOp | index.js:184-189 | as written, subscribing to any list of categories leaves the mask unchanged, so a fresh client never emits an event |
| Events.SubscribeLengthQuirk | index.js:186-187 | as written, `subscribe(["length"])` ORs in the array's length 1, the `outlog` bit |
| Events.SubscribeIndexQuirk | index.js:186-187 | as written, `subscribe(["1", "3"])` ORs in element 1, the number 3 |
| Events.SubscribeShadowingDiffers | index.js:184-189 | the intended `subscribe(["outlog"])` sets bit 0, the written one leaves the mask empty |
| Events.RequestedBitsAppend | index.js:184-191 | the bits requested by two lists together are the union of each list's bits |
| Events.DeliversRequested | index.js:184-191 | under the intended mask exactly the requested categories are emitted |
| Events.IntendedSubscribeAccumulates | index.js:184-191 | intended: subscribing to A then B gives `mask | A | B`, clears no bit, and lets exactly the categories of A and B through |
| Patterns.MatchSurvivesContext | index.js:299 | `RegExp.test` is unanchored: a match stays a match with any text around it |
| Patterns.Test | index.js:299 | `RegExp.test`: a pattern matches only text that contains the literal of one of its alternatives |
| Patterns.LiteralMatchesIncludingText | index.js:299 | a pattern with a literal alternative matches every text that contains that literal |
| Patterns.ShortTextMatchesNothing | index.js:299 | text shorter than every literal of a pattern matches nothing |
| Patterns.SentinelMissesShortText | index.js:238 | the default pattern matches no text shorter than 13 characters |
| Patterns.ReplyTokensMatch | index.js:350-488 | `done`, `killed`, `already-stopped`, `True`, `False` and `added` match the patterns of the wrappers that wait for them, `done` also under `renameProcess`'s `/done|ERR:.+/` |
| Patterns.BareErrorPrefixIsNoMatch | index.js:448 | `ERR:.+` needs a character after the colon: `ERR:` alone does not match, `ERR:x` does |
| Correlation.NewExpectation | index.js:232-241 | a new record is pending, keeps the given fields and array flag, and carries the given pattern, or the sentinel when none is given |
| Correlation.Settle | index.js:284 | resolving a pending promise records the value; resolving a settled one changes nothing; the request part never changes |
| Correlation.RouteOf | index.js:249-294 | exactly: `null` is dropped, JSON with an `Event` tag goes to event handling, other JSON to the field scan, text starting with `ERR:` is thrown with the text as message, other text goes to the pattern scan |
| Correlation.AcceptedPrefix | index.js:262-285 | the JSON scan resolves the records from the front while each has fields, readable keys and all its fields present, and stops at the first that does not |
| Correlation.FirstMatch | index.js:297-303 | the text scan stops at the first record in list order whose pattern matches, whether or not its promise is pending |
| Correlation.HasField | index.js:277 | `targetFields.find(i => i == field)` is truthy: the field is among the keys and is not the empty string, which `find` would return as a falsy value |
| Correlation.Accepts | index.js:264-285 | the JSON scan resolves a record and moves on only when the record has fields, its keys can be read, and every field is a non-empty name among those keys |
| Correlation.AfterResponse | index.js:248-306 | handling one payload keeps the list's length, and leaves each record as it was or resolves it with that payload |
| Correlation.ResponseKeepsRecords | index.js:248-306 | handling a payload keeps the list's length, order and requests, changes no settled promise and rejects nothing |
| Correlation.EventSettlesNothing | index.js:256-258 | a JSON payload with an `Event` tag resolves no expectation |
| Correlation.ErrorTextSettlesNothing | index.js:292-294 | an `ERR:` text resolves no expectation |
| Correlation.TextSettlesFirstMatchOnly | index.js:297-303 | other text changes record i exactly when i is the first match and still pending, and then resolves it with the text |
| Correlation.JsonSettlesAcceptedPrefix | index.js:262-285 | a JSON reply resolves record i exactly when it is pending and it and every record before it accept the reply |
| Correlation.NoFieldsBlocksJson | index.js:264 | a record with no fields is never resolved by JSON and shields every record behind it |
| Correlation.AnsweredRecordCapturesText | index.js:297-303 | an answered record that is the first to match a text swallows it: the list is unchanged |
| Correlation.RunOnlyGrows | index.js:232-306 | over any sequence of requests and replies the list grows by exactly one record per `_expectResponse` call (`exit`, and a send that throws, register none), with nothing removed or reordered and no settled promise changed |
| Correlation.RunNeverRejects | index.js:232-306 | over any sequence of requests and replies no promise is ever rejected |
| Protocol.BuildFrame | index.js:164-174 | the frame keeps the type; `Data` is absent exactly when the argument is undefined, verbatim exactly when it is a string, otherwise its JSON encoding |
| Protocol.FrameRoundTrip | index.js:165-172 | the model's frame keeps the type and the argument: both can be read back from it |
| Protocol.SplitAtColon | index.js:349 | splitting at the first colon gives a colon-free head and returns the text it came from |
| Protocol.Joined | index.js:349 | the template `${a}:${b}` is a, then one colon, then b |
| Protocol.SplitJoined | index.js:349 | a `${a}:${b}` request reads back as (a, b) when a holds no colon |
| Protocol.JoinedIsAmbiguous | index.js:349 | with a colon in the first part the `${a}:${b}` format is ambiguous |
| Protocol.ColonRequestsReadBack | index.js:348-481 | rename, stdin-line, set-enabled and set-config send a verbatim `${a}:${b}` string that reads back as their arguments |
| Protocol.RequestType | index.js:328-490 | the `Type` each wrapper passes to `_sendData` |
| Protocol.RequestData | index.js:328-490 | the `data` each wrapper passes: none for the six wrappers that pass only a type, a string for every other wrapper except `setProcessProperty` (an object) and `newProcess` (its descriptor) |
| Protocol.Awaited | index.js:328-490 | what each wrapper passes to `_expectResponse`: only `exit` waits for nothing; a wait has fields exactly when it has no pattern of its own; only `getRuntimeProcessList` samples an array |
| Protocol.WaitsAreTextOrJson | index.js:328-490 | every wrapper waits either for text (no fields, its own pattern) or for JSON (fields, the sentinel); a text wait is never resolved by JSON and a JSON wait by no short text |
| Protocol.StopProcessReports | index.js:427-431 | `stopProcess` reports a running process exactly for the reply `killed`; `already-stopped`, and `killed` with a newline, match the pattern but report it stopped |
| Protocol.StopProcessResult | index.js:429-430 | `stopProcess` reports a running process only for a reply its pattern accepts |
| Protocol.SetPropertyResult | index.js:395-397 | `setProcessProperty` throws exactly when the reply starts with `Invalid`, with the message `Property <p> is invalid.` |
| Protocol.SetPropertyAcceptsOtherMatches | index.js:395-397 | replies the pattern accepts but the decoder does not recognise, such as `undone`, count as success |
| Protocol.ProcessInfoResult | index.js:405-419 | `getProcessInfo` returns the reply; on a rejection it returns null exactly when the message includes `ERR:invalid-process`, otherwise it passes the error on |
| Protocol.ProcessInfoNotFound | index.js:409-411 | an `ERR:invalid-process` rejection maps to null, another error does not |
| Client.JandIpcClient.constructor | index.js:140-157 | a new client has its name, no socket, no expectations and an empty mask |
| Client.JandIpcClient.Connect | index.js:194-212 | the socket is opened on the resolved address |
| Client.JandIpcClient.SendData | index.js:164-174 | without a socket it throws `Socket not connected` and writes nothing; otherwise it writes exactly the built frame |
| Client.JandIpcClient.Subscribe | index.js:184-191 | the mask becomes the written loop's result and keeps every old bit; the argument array is sent encoded, or the send throws |
| Client.JandIpcClient.ExpectResponse | index.js:232-242 | exactly one pending record is appended at the end, and its position is returned |
| Client.JandIpcClient.HandleEvent | index.js:312-319 | one emission is logged exactly when the tag is delivered under the mask; nothing else changes |
| Client.JandIpcClient.HandleResponse | index.js:248-306 | the list becomes the one `AfterResponse` describes; `ERR:` text is thrown; events are emitted only for tagged JSON |
| Client.JandIpcClient.ScanFields | index.js:262-285 | the loops with early `return`/`break` resolve exactly the accepted prefix |
| Client.JandIpcClient.Invoke | index.js:328-490 | a wrapper sends its frame, then registers exactly its wait; if the send throws, nothing is registered |

## Findings

| source | as written | input that shows it | evidently intended | confidence | as-written member | corrected member |
|---|---|---|---|---|---|---|
| index.js:184-189 | the parameter `events` shadows the category table, so `events[event]` looks each name up as a property of the argument array | `subscribe(["outlog"])` on a fresh client leaves `expectsEvent` at 0, so no event is ever emitted; `subscribe(["length"])` sets the `outlog` bit | OR the table bit of each requested category into the mask | high (not executed) | Events.SubscribeShadowingDiffers | Events.IntendedSubscribeAccumulates |

The class method `Client.JandIpcClient.Subscribe` models the code as written
(`Events.MaskAfter`). The corrected behaviour is `Events.IntendedMask`. Its
lemmas prove that subscribing accumulates `A | B` and lets exactly the
requested categories through.

## Left out

- Protocol.FrameRoundTrip: the read-back holds of the model's frame, which keeps the `Verbatim`/`Encoded` tag. The bytes written carry no such tag: `Data` is a string either way. So on the wire a string argument that is itself JSON text cannot be told apart from the value it encodes. `newProcess('{"Name":"a"}')` and `newProcess({Name: "a"})` write the same frame.
- Socket creation, the `ready` and `data` handlers, `socket.write` and the `connected` getter are I/O. The model opens the socket by recording its address, and hands each inbound chunk to `HandleResponse` as one payload. Whether a stream write arrives as one message is not modelled.
- `_sendRaw` (index.js:180-182) writes to a module-level `socket` that is never assigned. It is I/O and is not modelled.
- `JSON.parse` and `JSON.stringify` (RFC 8259) are not modelled. Payloads come in already classified, and an encoded frame keeps the value it encodes (`Protocol.Wire`).
- The Promise and EventEmitter machinery is not modelled. A promise is an outcome in its record, and `emit` appends to a log. Listener registration and the promise continuations of the wrappers are left out. The reply decoders are modelled as functions of the reply.
- DEBUG console logging is left out.
- `Events.StringBits`: a subscribed name that is an array-index string contributes that array element, converted with ToNumber then ToInt32. The model converts exactly only elements made of decimal digits, and does not model the rounding of values from 2^53 up. Every other string is taken as NaN, that is 0. JavaScript would convert strings such as " 7", "0x10" and "1e3" to numbers.
- An `Event` tag that is truthy but not a string (a number, `true`, an array) is treated like a missing tag. JavaScript would hand it to `_handleEvent`, which matches no category with it (the one exception is an array holding a category name).
- Strings are sequences of Unicode scalar values, not UTF-16 code units. This makes no difference to the prefix and substring tests used here.
- The wrappers' own post-processing that does nothing is not modelled. `renameProcess`, `deleteProcess` and `setConfig` test `== 'done'`, and `newProcess` tests `== 'added'`; each then returns `undefined` whichever way the test goes.
