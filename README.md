# TechSanju support chat: a Dafny model

TechSanju's support widget is a single-page chat. A user types a question. A remote
language model answers in a stream of text chunks. Along the way the model may ask
for one of three "tools": an order tracker, a stock check and a service-centre
finder. The widget runs these locally as canned lookups, sends their records back
and streams the model's next answer. This repeats until the model answers without
asking for a tool.

This project models three parts of the widget and proves properties about them:

- **`MockApis`** (`mock_apis.dfy`): the three lookups with their normalisation,
  keyword matching and fallback records, and the lookup table keyed by tool name.
  A record is a map from property name to value, as the object literal is.
  The lookups are Dafny functions, so equal arguments give equal records by
  construction.
- **`GeminiService`** (`gemini_service.dfy`):
  - dispatch of one function call: a registered lookup, or the "not implemented"
    record for an unknown name;
  - packaging of the responses;
  - the multi-round loop of `sendMessageStream`.

  The remote model is an input. It is the sequence of streams it replies with,
  one per round, and each stream ends normally or throws. The loop is a `method`
  proved equal to a recursive reference function, `Drain`. The loop's properties
  are proved about `Drain`:
  - which texts are yielded, in which order;
  - after which rounds a new round is requested, and with which responses;
  - how the loop ends.
- **`App`** (`app.dfy`): the chat component's state as a class `ChatApp`, whose
  fields are the transcript, the input text, the loading flag and whether a
  session exists. Its methods model:
  - starting a new session;
  - editing the input;
  - sending a message: the user message and a typing placeholder are appended, the
    streamed fragments are accumulated into the placeholder by id, and on failure
    the apology text replaces them;
  - submitting the form.

  Every method keeps the message ids distinct.

`JsString` (`js_string.dfy`) holds the JavaScript string operations the code uses:
- `toUpperCase` and `toLowerCase`;
- `includes` and `startsWith`;
- `replace` with a one-character pattern, which removes the first occurrence;
- `trim`;
- concatenation.

`Wrappers` holds `Option` and `Result`.

Three behaviours of the code that the model reproduces:
- **Order IDs.** `trackOrder` removes only the *first* `#` of an order ID
  (`String.prototype.replace` with a string pattern). `##ORD-123` is therefore not
  found (`MockApis.DoubleHashIdIsNotFound`).
- **Text streamed before a failure.** It is not kept in the transcript. The loop
  yields one error fragment, which is shown, and then re-raises. The component's
  `catch` then overwrites the whole bot message with the fixed apology
  (`App.ApologyAfterStream`, `App.SendTouchesOnlyItsBotMessage`).
- **A tool call that lacks its parameter.** The lookup reads a string method of
  `undefined` and throws. The model treats this like a stream failure: one error
  fragment, then the fault is re-raised (`GeminiService.MockDispatch`,
  `GeminiService.DrainStopsAtFirstUnanswered`).

## Model

| member | source | states |
|---|---|---|
| `JsString.ToUpper` | services/geminiService.ts:63 | upper-casing keeps the length and maps every character on its own, ASCII letters to upper case |
| `JsString.ToLower` | services/geminiService.ts:75 | lower-casing keeps the length and maps every character on its own, ASCII letters to lower case |
| `JsString.RemoveFirst` | services/geminiService.ts:63 | `replace` with a one-character string pattern and an empty replacement: the string with its first occurrence of the character removed |
| `JsString.StartsWith` | services/geminiService.ts:68 | `startsWith`: the prefix is at most as long as the string and equals its first characters |
| `JsString.Includes` | services/geminiService.ts:76-92 | `includes`: the substring occurs at some position of the string |
| `JsString.RemoveFirstDeletesFirst` | services/geminiService.ts:63 | removing a character deletes exactly its first occurrence and keeps everything before and after; with no occurrence the string is unchanged |
| `JsString.IncludesTransitive` | services/geminiService.ts:76-81 | a string that contains `mid` contains everything `mid` contains |
| `JsString.Trim` | App.tsx:61 | `trim`: the string without its leading and trailing ECMAScript white space and line terminators |
| `JsString.TrimEmptyIffBlank` | App.tsx:61 | `text.trim()` is empty exactly when every character is white space |
| `JsString.Concat` | App.tsx:93 | the parts joined in order, the value `fullResponse` accumulates with `+=` |
| `JsString.ConcatSnoc` | App.tsx:93 | appending one more part to the accumulated response appends that part's text |
| `MockApis.NormalizeOrderId` | services/geminiService.ts:63 | the order ID upper-cased with its first `#` removed |
| `MockApis.TrackOrder` | services/geminiService.ts:61-73 | on the upper-cased ID with the first `#` removed: In Transit exactly for ORD-123, Delivered exactly for ORD-456, Processing exactly for any other ID starting with ORD; a status exactly when the ID starts with ORD, an error record exactly otherwise |
| `MockApis.NormalizeLeadingHash` | services/geminiService.ts:63 | a leading `#` is dropped and the rest upper-cased |
| `MockApis.NormalizeWithoutHash` | services/geminiService.ts:63 | an ID without `#` is only upper-cased |
| `MockApis.LowerCaseHashIdIsInTransit` | services/geminiService.ts:63-65 | `#ord-123` normalises to ORD-123 and is in transit |
| `MockApis.DoubleHashIdIsNotFound` | services/geminiService.ts:63-72 | an ID starting with two `#` keeps one after normalisation and gets the not-found error and no status |
| `MockApis.OtherOrdIdIsProcessing` | services/geminiService.ts:68-69 | ORD-999 is processing |
| `MockApis.UnprefixedIdIsNotFound` | services/geminiService.ts:70-72 | XYZ gets an error and no status |
| `MockApis.CheckStock` | services/geminiService.ts:74-85 | on the lower-cased name, tested in order: In Stock exactly when it contains laptop or book; Low Stock exactly when it contains headphone or audio but neither of those; Out of Stock exactly when it then contains phone or mobile; Unknown Item otherwise, echoing the name as given with stock 0; the laptop record names the laptop and its price |
| `MockApis.HeadphoneIsNeverOutOfStock` | services/geminiService.ts:76-81 | a name containing headphone also contains phone, yet is never out of stock: it is in stock or low stock, and low stock unless it also matches the laptop keywords |
| `MockApis.UnknownItemEchoesInput` | services/geminiService.ts:82-83 | any casing of "umbrella" is an unknown item, with the product echoed exactly as given and stock 0 |
| `MockApis.GamingLaptopInStock` | services/geminiService.ts:76-77 | any casing of "gaming laptop" is in stock at the laptop price |
| `MockApis.WirelessHeadphoneLowStock` | services/geminiService.ts:78-79 | any casing of "wireless headphone" is low stock, although it mentions a phone |
| `MockApis.FindServiceCenter` | services/geminiService.ts:86-97 | on the lower-cased city, tested in order: the Mumbai centre for mumbai, Delhi NCR for delhi or noida, Bangalore for bangalore or bengaluru; an address exactly when some city matched, advice exactly when none did; the fallback echoes the city as given with the no-centre status |
| `MockApis.MumbaiHasCenter` | services/geminiService.ts:88-89 | any casing of "mumbai" gets the Mumbai centre and its phone number |
| `MockApis.PuneGetsAdvisory` | services/geminiService.ts:94-95 | "pune" gets the advisory record echoing the city, with the no-centre status and no address |
| `MockApis.Handler` | services/geminiService.ts:60-98 | the table has exactly the three lookups; each throws exactly when its parameter is missing, and otherwise returns its lookup's record for that argument |
| `GeminiService.Dispatch` | services/geminiService.ts:148-149 | one call: the registered handler's record, the fault it throws, or the not-implemented record when no handler is registered under the name |
| `GeminiService.NotImplemented` | services/geminiService.ts:149 | the record for an unknown name carries the error naming the function and no status |
| `GeminiService.MockDispatch` | services/geminiService.ts:148-149 | against the widget's table an unknown name gets the not-implemented record; a registered lookup fails exactly when its parameter is missing; otherwise the call gets that lookup's record |
| `GeminiService.Package` | services/geminiService.ts:151-157 | the response for a call: the call's name and id around `{ result: record }` |
| `GeminiService.RespondAll` | services/geminiService.ts:141-158 | the responses to a batch of calls, dispatched in call order, or the fault of the first call whose lookup throws |
| `GeminiService.PrefixedTwice` | services/geminiService.ts:151-157 | pushing two batches of responses, one after the other, is pushing both in order |
| `GeminiService.RespondAllOnePerCall` | services/geminiService.ts:141-158 | the responses succeed exactly when every lookup does; then there is one response per call, in call order, each with the call's name and id around the dispatched record; otherwise the fault is that of the first call whose lookup throws |
| `GeminiService.Texts` | services/geminiService.ts:127-132 | a stream yields at most one text per chunk and never an empty one |
| `GeminiService.TextsAppend` | services/geminiService.ts:127-132 | the texts of two runs of chunks, one after the other, are both runs' texts in order |
| `GeminiService.TextsJoinAllText` | services/geminiService.ts:130-131 | skipping the empty chunk texts loses nothing of the accumulated reply |
| `GeminiService.Calls` | services/geminiService.ts:134-137 | every chunk's calls, accumulated in arrival order |
| `GeminiService.CallsAppend` | services/geminiService.ts:134-137 | the calls of two runs of chunks are both runs' calls in order |
| `GeminiService.CallsFromEveryChunk` | services/geminiService.ts:134-137 | a call is accumulated exactly when some chunk requested it |
| `GeminiService.Drain` | services/geminiService.ts:123-173 | the reference loop over the remaining rounds: each round's non-empty texts; a failed stream or a throwing lookup yields the error fragment and fails; a round without calls completes; otherwise the responses are submitted and the next round follows; no round left means still waiting |
| `GeminiService.Reply` | services/geminiService.ts:117-173 | the whole generator: the user's message is submitted first, then the reference loop runs over the rounds |
| `GeminiService.DrainFirstRound` | services/geminiService.ts:123-173 | one round of the loop, by how it ends: a failed stream yields the error fragment and fails; a round without calls completes; a failing lookup yields the error fragment and fails with its fault; otherwise the responses are submitted and the loop goes on |
| `GeminiService.Answered` | services/geminiService.ts:141-167 | the rounds answered with tool responses are a prefix of the rounds, and the round after that prefix does not resubmit |
| `GeminiService.DrainSubmitsPerAnsweredRound` | services/geminiService.ts:141-163 | one batch of responses is submitted per answered round and nothing else is; batch j holds round j's responses in call order |
| `GeminiService.DrainStopsAtFirstUnanswered` | services/geminiService.ts:123-173 | the loop is still waiting exactly when every round supplied was answered; it completes exactly when the first unanswered round ended without calls; it re-raises that round's stream failure, or the fault of its first throwing lookup |
| `GeminiService.DrainFragments` | services/geminiService.ts:127-173 | the yielded fragments are every non-empty text of every answered round and of the round that ended the loop, in order, followed by exactly one error fragment when the loop fails and by none otherwise |
| `GeminiService.ReplyAfterRound` | services/geminiService.ts:123-167 | after round r has been read, the rest of the reply follows from the fragments and messages so far, by how round r ends |
| `GeminiService.DrainStream` | services/geminiService.ts:124-138 | the `for await` over one stream yields exactly the stream's non-empty texts and accumulates exactly its calls, in arrival order |
| `GeminiService.RespondToCalls` | services/geminiService.ts:141-158 | the `for` over the calls computes exactly the response batch or first fault specified above |
| `GeminiService.SendMessageStream` | services/geminiService.ts:117-175 | the generator sends the message and then produces exactly the fragments, submitted messages and outcome of the reference loop |
| `App.UserMessage` | App.tsx:67-72 | the user message: the given id, sender user, the typed text, no typing flag |
| `App.Placeholder` | App.tsx:75-81 | the bot placeholder: the given id, sender bot, empty text, typing |
| `App.Greeting` | App.tsx:47-52 | the greeting: the given id, sender bot, the fixed welcome text |
| `App.ShowText` | App.tsx:95-99 | the update by id keeps the length and order; every message with that id gets the text and stops typing; every other message is unchanged |
| `App.ShowTextOverwrites` | App.tsx:95-108 | a later update by the same id overwrites an earlier one completely |
| `App.Streamed` | App.tsx:88-100 | the transcript after some fragments have streamed in: the bot message shows their concatenation, and is untouched while there are none |
| `App.StreamedStep` | App.tsx:92-99 | one more streamed fragment extends the accumulated response by that fragment and shows it in the bot message |
| `App.Settled` | App.tsx:88-108 | the transcript once the reply has been consumed: the apology in the bot message on failure, otherwise everything streamed |
| `App.ApologyAfterStream` | App.tsx:102-108 | the apology replaces whatever had streamed in before the failure |
| `App.ShowTextKeepsIds` | App.tsx:95-99 | updating by id keeps the ids distinct |
| `App.SendTouchesOnlyItsBotMessage` | App.tsx:83-108 | a send appends the user message and the bot message and keeps every earlier message; the bot message shows the apology on failure and all streamed fragments otherwise, typing only while nothing has streamed in |
| `App.DirectReplyShowsStreamText` | App.tsx:88-100 | a reply that needs no tool completes, and the bot message shows every chunk text of its one stream concatenated |
| `App.ChatApp.constructor` | App.tsx:17-26 | the initial state: the greeting with id init-1, empty input, not loading, no session, the widget's own tool table |
| `App.ChatApp.StartNewSession` | App.tsx:44-58 | when the session is created, the transcript is reset to a single greeting and the input and loading flag are cleared; when creating it throws, nothing changes |
| `App.ChatApp.EditInput` | App.tsx:165 | the input takes the new value and nothing else changes |
| `App.ChatApp.CanSend` | App.tsx:61 | the send guard: the text is not blank after trimming, nothing is loading and a session exists |
| `App.ChatApp.HandleSendMessage` | App.tsx:60-116 | a send is accepted exactly when the text is not blank, nothing is loading and a session exists; a blocked send changes nothing; an accepted one appends the user message and placeholder, clears the input, and leaves the transcript settled on the reply; loading ends unless the reply is still awaited; ids stay distinct |
| `App.ChatApp.Submit` | App.tsx:118-121 | submitting sends the current input, with the same outcome |

## Left out

- Creating the session (services/geminiService.ts:103-112) and the remote calls
  (`chat.sendMessageStream`, lines 120 and 163) are not modelled as code. The model
  takes the remote replies as given input: one stream per round, each with its
  chunks and whether it throws after them. It records what is sent as `sent`.
  Network errors are a stream that throws.
- `HandleSendMessage` runs the whole service loop first and then consumes the
  fragments in order. It does not model the async generator interleaving UI events
  with the stream. It also does not model another action (a reset, say) landing
  while a send is in progress.
- HandleSendMessage: the `while (true)` loop has no bound in the source. The model
  has only finitely many rounds. When the loop would still wait for a reply, the
  outcome is `AwaitingReply` and `isLoading` stays true. The source's `finally`
  would only run after that reply arrives.
- `generateId` (`Math.random`) is not modelled. Callers supply fresh, distinct ids
  as arguments.
- The model's `Message` has no `timestamp` field. Every message carries one in the
  source, and the by-id update keeps it. No transition reads it.
- `console.log`/`console.error`, scrolling, focusing and the window-width test are
  not modelled. They do not change the transcript.
- `JsString.ToUpper` and `JsString.ToLower` map only ASCII letters. The full Unicode
  case mapping of `toUpperCase`/`toLowerCase` is not modelled. So the model differs
  on non-ASCII input whose case mapping produces a keyword. The Kelvin sign in
  `"BOO\u212A"` lower-cases to `"book"` in the source, which returns the laptop
  record; the model returns Unknown Item. `"MUMBA\u0130"` lower-cases to
  `"mumbai\u0307"` in the source, which contains `"mumbai"`; the model returns the
  advisory record.
- Tool arguments are modelled as string-valued only. A non-string argument, which
  would make the lookup throw or compare differently, is not modelled.
- `mockAPIs[name]` for names inherited from `Object.prototype` (`toString` and the
  like) is not modelled. Such names are treated as unregistered.
- The order of properties in a record is not modelled. Records are maps, which
  matters only for how the record would be serialised.
- The tool declarations sent to the model (services/geminiService.ts:1-56), the
  system instruction, `constants.ts` and the presentational components are not
  part of this model. The quick-action buttons appear only as callers of
  `HandleSendMessage`.
