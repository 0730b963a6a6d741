# Number lookup of the Wschacker relay bot

This project models the number-check feature of `main.js` in Dafny:

- the WhatsApp readiness flag `waReady`, raised by the client's `ready` event and lowered by its `disconnected` event;
- the Telegram `/checknumbers` command, which is refused while the flag is down and otherwise registers one more `message` listener;
- what each registered listener does with an incoming message:
  - it ignores a missing or empty text;
  - it normalises the text into a list of digit strings;
  - it asks WhatsApp about each number in turn and partitions them into a found list and a not-found list, marking failed queries with " (error)";
  - it sends a checking notice and then a two-section summary.

Modules, one per concern:

- `Normalization` (`normalization.dfy`): `text.split(/[\s,]+/).map(n => n.replace(/\D/g, "")).filter(Boolean)`.
  - `Split` follows the JavaScript semantics of `split` with a regular expression exactly. There is an empty piece before a leading run of separators and after a trailing one, and the empty text splits into one empty piece.
  - `IsSeparator` is the character class `[\s,]` of ECMAScript.
- `Lookup` (`lookup.dfy`): the `for` loop over the numbers (`CheckBatch`), specified by the functions `Found` and `NotFound`.
  - The registration query `waClient.isRegisteredUser` is an oracle. The i-th element of `outcomes` is what the i-th query came back with: `Registered`, `NotRegistered`, or `Fault` for a thrown error.
- `ReplyFormat` (`reply_format.dfy`): the Markdown summary text.
  - `Lines` is how a reader sees that text, line by line. It is the partner against which `join("\n")` and the `|| "None"` fallback are proved.
- `Relay` (`relay.dfy`): the class `Bot` with the readiness flag, the number of registered listeners, and one log of the replies the bot sends, all chats together.
  - `RunListener` is one run of a listener.
  - `Transcript` is everything all the listeners send for one message.
  - A few short sessions are written as methods that drive a fresh `Bot`.
- `Sequences` (`sequences.dfy`): small facts about concatenation and slicing that the proofs call.

The text is split on whitespace and commas before the non-digits are stripped. So `"+1 (555) 123-4567, abc"` yields the three numbers `"1"`, `"555"` and `"1234567"`, not one eleven-digit number. `Normalization.NormalizeThreeTokens` states this for any three separator-free tokens, and `Normalization.NormalizeSplitAt` states it for any separator.

## Model

| member | source | states |
|---|---|---|
| Normalization.IsSeparator | main.js:93 | the class `[\s,]` without the `u` flag: the comma, ASCII space, tab, line feed, vertical tab, form feed and carriage return, and the nineteen white-space and line-terminator characters at or above U+00A0 |
| Normalization.Split | main.js:93 | the pieces between maximal runs of separators, in order, with an empty piece before a leading run and after a trailing run; the empty text is one empty piece |
| Normalization.StripNonDigits | main.js:94 | the ASCII digits of a piece, in order, every other character removed |
| Normalization.StripEach | main.js:94 | every piece replaced by its digits, one result per piece, in order |
| Normalization.DropEmpty | main.js:95 | the non-empty strings of the list, in order |
| Normalization.Normalize | main.js:92-95 | the numbers of a text: split it, strip each piece to its digits, drop the empty results |
| Normalization.TokenEndSpec | main.js:93 | the first separator at or after a position: nothing before it is a separator, and it is one unless it is the end of the text |
| Normalization.SplitTokensHaveNoSeparator | main.js:93 | no piece of the split contains a separator |
| Normalization.StripAppend | main.js:94 | stripping non-digits distributes over concatenation, so digits keep their order |
| Normalization.StripYieldsDigits | main.js:94 | only ASCII digits survive stripping |
| Normalization.StripDigits | main.js:94 | a string of digits is left unchanged |
| Normalization.StripIdempotent | main.js:94 | stripping twice is stripping once |
| Normalization.NormalizeCons | main.js:94-95 | a token contributes its digits as one number when it has any, and nothing otherwise |
| Normalization.NormalizeNoSeparator | main.js:92-95 | a text without separators yields its digits as one number, or no number when it has no digit |
| Normalization.SplitLeadingSeparator | main.js:93 | a text that starts with a separator splits into an empty first piece followed by the pieces after the whole leading run |
| Normalization.NormalizeDropSeparators | main.js:92-95 | a leading run of separators yields no number |
| Normalization.NormalizeLeadingSeparator | main.js:92-95 | one leading separator yields no number |
| Normalization.NormalizeFirstToken | main.js:92-95 | the numbers of a text are the number of its first token, if any, followed by the numbers of the text after the first separator |
| Normalization.NormalizeYieldsDigitStrings | main.js:94-95 | every number handed to the lookup is non-empty and made only of ASCII digits |
| Normalization.NormalizeEntriesComeFromTokens | main.js:92-95 | every number is the digits of one piece of the split |
| Normalization.NormalizeSplitAt | main.js:92-95 | at any separator the numbers of the text are those of the part before it followed by those of the part after it, so digits on two sides of a separator are never joined |
| Normalization.NormalizeKeepsDigits | main.js:92-95 | the numbers, concatenated, are exactly the digits of the text in their original order: none lost, none invented, none reordered |
| Normalization.StripSkipsSeparator | main.js:93-94 | a separator is not a digit, so it contributes nothing to the stripped text |
| Normalization.NormalizeThreeTokens | main.js:92-95 | three separator-free tokens joined by separators give at most three numbers, one per token, in order |
| Lookup.Found | main.js:102-110 | the found list after the loop: `+num` for each number answered "registered", in batch order |
| Lookup.NotFound | main.js:102-110 | the not-found list after the loop: `+num` for each number answered "not registered" and `+num (error)` for each failed query, in batch order |
| Lookup.CheckBatch | main.js:97-110 | the loop leaves `found` equal to `Found` and `notFound` equal to `NotFound` of the numbers and their answers, and the two lengths add up to the number of numbers |
| Lookup.BatchStep | main.js:102-109 | each answered query extends the found list by that number's found part and the not-found list by its not-found part, and exactly one of the two parts is non-empty: it holds the single entry of that number |
| Lookup.PartitionIsTotal | main.js:102-110 | every number yields exactly one entry: the two list lengths add up to the batch length |
| Lookup.PartitionAppend | main.js:102-110 | the lists of two consecutive stretches of a batch are the lists of the first stretch followed by those of the second, so batch order is kept |
| Lookup.PartitionSingle | main.js:104-108 | a one-number batch lists `+num` as found when registered, `+num` as not found when not, and `+num (error)` as not found when the query failed |
| Lookup.Contribution | main.js:102-110 | the number at any position contributes exactly one entry, in its place between the entries of the earlier and of the later numbers |
| Lookup.FaultIsIsolated | main.js:107-109 | a failed query puts `+num (error)` in the not-found list, adds nothing to the found list, and leaves the entries of every later number in place after it |
| Lookup.FoundMembers | main.js:104-105 | an entry is in the found list if and only if it is `+num` for some number answered "registered" |
| Lookup.NotFoundMembers | main.js:104-108 | an entry is in the not-found list if and only if it is the entry of some number not answered "registered": `+num`, with ` (error)` after a failed query |
| Lookup.EntriesAreOneLine | main.js:105-108 | for numbers without line breaks, no entry of either list is empty or holds a line break |
| ReplyFormat.JoinLines | main.js:113-114 | the entries with a single line break between each two neighbours and none at either end; the empty list joins to the empty string |
| ReplyFormat.ShowList | main.js:113-114 | the joined entries, or `None` when the join is the empty string |
| ReplyFormat.FormatReply | main.js:112-114 | the summary text: the first header, the shown found list, an empty line, the second header and the shown not-found list, separated by line breaks |
| ReplyFormat.LineEndSpec | main.js:113-114 | the first line break at or after a position: none before it, and one at it unless it is the end of the text |
| ReplyFormat.LinesAppend | main.js:113-114 | a line break separates the lines before it from the lines after it |
| ReplyFormat.LinesOfJoin | main.js:113-114 | reading a non-empty list of one-line entries joined by `"\n"` line by line gives back the list |
| ReplyFormat.JoinLinesEmpty | main.js:113-114 | a join of non-empty entries is the empty string if and only if the list is empty |
| ReplyFormat.ShowListOfEntries | main.js:113-114 | the shown list is `"None"` for an empty list and the entries joined by `"\n"` otherwise |
| ReplyFormat.ShownLines | main.js:113-114 | read line by line, a shown list is its entries, or the single line `None` |
| ReplyFormat.ReplyLines | main.js:112-114 | read line by line, the summary is the first header, the found entries or `None`, an empty line, the second header, and the not-found entries or `None` |
| Relay.IsTruthy | main.js:89-90 | a listener goes on only with a text that is present and not empty |
| Relay.Queried | main.js:89-95 | the numbers a listener queries: the normalised text when it goes on, none otherwise |
| Relay.ListenerReplies | main.js:89-116 | what one listener sends: nothing for a missing or empty text, otherwise the checking notice and then the summary of the found and not-found lists |
| Relay.Transcript | main.js:88-116 | what the registered listeners send for one message: the replies of each, listener after listener in registration order as modelled |
| Relay.RunListener | main.js:88-116 | one listener run sends nothing for a missing or empty text; otherwise it sends the checking notice and then the summary of the found and not-found lists of the normalised numbers |
| Relay.Bot.constructor | main.js:28-29 | at start-up the flag is down, no listener is registered and nothing has been sent |
| Relay.Bot.OnReady | main.js:50-53 | the `ready` event raises the flag and changes nothing else |
| Relay.Bot.OnDisconnected | main.js:55-59 | the `disconnected` event lowers the flag and keeps every registered listener |
| Relay.Bot.CheckNumbers | main.js:84-88 | while the flag is down the command only sends the not-ready notice; while it is up it sends the prompt and registers exactly one more listener |
| Relay.Bot.OnMessage | main.js:88-116 | an incoming message runs every registered listener, in registration order as modelled (see "Left out"), whatever the flag says; the log grows by their transcript; flag and listener count are unchanged |
| Relay.TranscriptStep | main.js:88 | one more listener appends its own replies after those of the earlier ones |
| Relay.TranscriptLength | main.js:88-90 | k listeners send 2k messages for a non-empty text and none for a missing or empty one |
| Relay.TranscriptAt | main.js:88-116 | messages 2k and 2k + 1 of the transcript are the two replies of the k-th listener |
| Relay.TranscriptShape | main.js:88-116 | for a non-empty text, message 2k is the checking notice and message 2k + 1 is the summary of the k-th listener's batch; a missing or empty text gets no message |
| Relay.TranscriptSingle | main.js:88 | with a single listener the transcript is that listener's replies |
| Relay.SummaryLines | main.js:92-115 | read line by line, a listener's summary lists `+num` for each registered number under the first header, and the other numbers, with ` (error)` after a failure, under the second; an empty list reads `None` |
| Relay.ReadyThenCommands | main.js:50-88 | after `ready`, k uses of /checknumbers send k prompts, and one message then runs k lookup batches |
| Relay.CommandBeforeReady | main.js:84-85 | before `ready`, /checknumbers only sends the not-ready notice, and a following message gets no reply and makes no query |
| Relay.CommandAfterDisconnect | main.js:50-88 | after a disconnection, /checknumbers is refused again, but the listener registered earlier still answers the next message |

## Left out

- Telegram I/O: `Telegraf`, `ctx.reply`, `msgCtx.reply`, `replyWithDocument`, `sendPhoto` and `bot.launch` (main.js:25, 42-46, 66-81, 100, 115, 139) are library calls.
  - A reply is modelled as a string appended to the log `Bot.sent`.
  - The Markdown `parse_mode` of the summary is not modelled; the model states the raw text.
- The `/start` and `/linkwhatsapp` replies (main.js:66-81) are fixed texts that do not touch the lookup state.
- Which updates reach the listeners is decided by Telegraf's middleware order. `Bot.OnMessage` stands for a message that no command handler consumed.
- WhatsApp client internals (main.js:31-63) are library and browser-automation code:
  - client construction and `initialize`;
  - `LocalAuth` persistence;
  - the restart that `startWhatsApp` performs after a disconnection.
  Only their effect on `waReady` is modelled.
- `isRegisteredUser` (main.js:104) is an external network call. Its answers are the `outcomes` parameter, one per query, in query order.
  - Since the number of queries is `|outcomes|`, which must equal `|Queried(text)|`, a missing or empty text makes no query at all.
  - What WhatsApp would answer while the client is disconnected is part of the oracle: `Fault` when it throws.
- QR encoding and delivery (main.js:38-48) is a foreign library.
- Session export (main.js:119-136) is filesystem and compression I/O with asynchronous stream events.
- Start-up configuration, `process.exit` and the Express liveness route (main.js:9-22, 141 onwards) are process and network plumbing.
- Asynchronous interleaving: each event handler and each listener run is treated as one atomic step. In the model the listeners run one after another in registration order; this is a modelling choice, see the next line.
- Relay.Bot.OnMessage: the model assumes that every registered listener runs on each message. The text of main.js does not establish this. `bot.on("message", ...)` (main.js:88) registers Telegraf middleware, and Telegraf passes an update on to later middleware only through `next()`. The handler never calls `next`, so under Telegraf's composition only the first registered listener may answer. The model states the all-listeners reading; `Relay.ReadyThenCommands`, `Relay.TranscriptShape` and `Relay.CommandAfterDisconnect` inherit it.
- Reply log (`Bot.sent`): the log holds the replies of all chats merged into one sequence. `msgCtx.reply` (main.js:100, 115) answers in the chat the message came from, and each listener answers messages from every chat; which chat a message belongs to is not modelled. Every reply is also assumed to succeed: a rejected `await msgCtx.reply` at main.js:100 would end the run before any query, and that path is not modelled.
- Unicode: JavaScript strings are sequences of UTF-16 code units, while Dafny's `char` here is a Unicode scalar value.
  - A character outside the Basic Multilingual Plane is neither a separator nor a digit either way, so normalisation gives the same result.
  - `IsSeparator` lists the white space of the current Unicode standard. A JavaScript engine built on an older Unicode version could differ.
