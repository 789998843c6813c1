# Chat client session and backend helpers, modelled in Dafny

This project models the plain logic inside a small medical-consultation chat
application: a browser client (`static/js/chat.js`) and its FastAPI backend
(`main.py`). The client keeps one session with three module-level variables:
the `conversation` transcript, the `currentChatId` and the `isNewChat` flag.
Sending a message trims the text and appends it. For a new chat it also creates
the chat under a title made from the text. It then posts the transcript to
`/api/chat` and streams the reply into an assistant message. The backend turns
that transcript into a prompt and keeps chats and users in two collections.

Modules, one per concern:

- `Messages` (`messages.dfy`): roles, messages and an `Option` type, used by both sides.
- `Text` (`text.dfy`): the JavaScript string built-ins the client relies on (`trim`, `includes`, `toLowerCase`, `split`), with their properties.
- `Api` (`api.dfy`): how `apiCall` classifies a response, including the message it derives for a 500.
- `Client` (`client.dfy`): the `Session` class with `sendMessage`, `createNewChat`, `loadChat`, `startNewChat` and `updateChat`, plus the title rule, the keyword tests and the address rule.
- `Prompt` (`prompt.dfy`): the prompt serialiser of `chat_endpoint`.
- `Records` (`records.dfy`): the chat documents. This covers the record a new chat is stored as, the `chat_id` backfill, the update key field and the message replacement.
- `Backend` (`backend.dfy`): a `Database` class holding the `users` map and the `chats` sequence, with the register, login and chat endpoints as methods.

Inputs that come from outside the model are parameters:

- whether a token is stored;
- the status, body text and parse result of each response;
- the chat-creation and chat-load answers;
- the decoded pieces of the streamed reply, and whether reading it failed;
- generated ids and clock readings;
- on the backend, the authenticated caller's user id.

Three facts about the code shape the model:

- Persistence is one PUT of the whole conversation (static/js/chat.js:256-258, main.py:301-304); there is no per-message save.
- When chat creation fails, the user's message stays in the transcript (static/js/chat.js:285-305).
- `apiCall` catches every error and returns null (static/js/chat.js:81-84), rather than failing with a typed error.

Two behaviours the proofs make explicit:

- A 33-character text that already ends in `...` keeps its own text as its title.
- A stored chat whose `id` and `chat_id` differ can be found by its `chat_id`. The update then filters on `id` alone, with no owner, so the found chat is not written (`UpdateMissesChatFoundByAlias`). The document written, if any, is the first whose `id` is the requested id, and it may be another user's chat (`UpdateWritesOtherUsersChat`). The answer is "updated" either way. Chats made by `create_chat` never have both fields.

## Model

| member | source | states |
|---|---|---|
| `Text.Trim` | static/js/chat.js:266 | the trimmed text is no longer than the input and neither starts nor ends with white space |
| `Text.TrimStart` | static/js/chat.js:266 | the result is the longest suffix of the input not starting with ECMAScript white space; everything dropped is white space |
| `Text.TrimEnd` | static/js/chat.js:266 | the result is the longest prefix not ending with white space; everything dropped is white space |
| `Text.TrimIsSlice` | static/js/chat.js:266 | `trim` keeps one contiguous slice, surrounded only by white space, that neither starts nor ends with white space |
| `Text.TrimEmptyIffAllSpace` | static/js/chat.js:266-267 | the trimmed text is empty exactly when the input is all white space, the case `sendMessage` ignores |
| `Text.TrimIdempotent` | static/js/chat.js:266 | trimming twice is trimming once |
| `Text.Contains` | static/js/chat.js:55 | `includes` never finds a text longer than the searched one, and always finds the empty text |
| `Text.ContainsIffOccurs` | static/js/chat.js:55 | `includes` holds exactly when the searched text starts at some index |
| `Text.Lower` | static/js/chat.js:423-426 | every upper-case ASCII letter becomes lower case and every other character is kept |
| `Text.Split` | static/js/chat.js:97 | `split` gives at least one part and no part contains the separator |
| `Text.JoinSplit` | static/js/chat.js:97 | joining the parts of a split with the separator gives back the input |
| `Text.SplitJoin` | static/js/chat.js:97 | splitting a join of separator-free parts gives back the parts |
| `Api.OrDefault` | static/js/chat.js:58 | JavaScript's `detail` or-else fallback is the detail when it is a non-empty string, otherwise the fallback |
| `Api.NonQuotePrefix` | static/js/chat.js:61 | the longest quote-free prefix, followed by a quote when shorter than the input |
| `Api.QuoteRun` | static/js/chat.js:61 | `[^"]+"` matches at the start exactly when the input starts with a non-quote and holds a quote; the capture is non-empty, quote-free and followed by a quote |
| `Api.FirstMatch` | static/js/chat.js:61 | the leftmost index at or after the start where the expression matches, or none when it matches at no such index |
| `Api.MatchFrom` | static/js/chat.js:61-62 | the regular expression's result is its leftmost match: no earlier index matches, and no index matches when it finds nothing |
| `Api.RegexDetail` | static/js/chat.js:61-62 | the capture comes from the leftmost index where the expression matches, and there is none when no index matches |
| `Api.LeadingMatch` | static/js/chat.js:61 | the expression matches wherever `"detail":"` is followed by a non-empty quote-free run and a quote, capturing that run |
| `Api.MatchShowsDetail` | static/js/chat.js:55-61 | any regex match implies the text mentions `detail`, so the `includes` guard never hides a match |
| `Api.RegexFindsLeadingDetail` | static/js/chat.js:61-63 | text starting with `"detail":"`, a non-empty quote-free message and a quote yields exactly that message |
| `Api.ServerErrorMessage` | static/js/chat.js:49-69 | the 500 message is the default without `detail` in the text; otherwise the parsed truthy `detail`, or the regex capture when parsing fails, else the default |
| `Api.TruncatedServerErrorKeepsDetail` | static/js/chat.js:56-64 | an unparsable, truncated FastAPI error body `{"detail":"<message>"...` still gives its message as the 500 message |
| `Api.MatchedBodyMessage` | static/js/chat.js:55-64 | an unparsable body whose first match is at some index gives that match's capture as the 500 message |
| `Api.Classify` | static/js/chat.js:19-85 | a missing token, 401, 500, another non-2xx status and a network failure are told apart exactly; only a 2xx with a parsed object yields the parsed body; the 500 and other-error messages are as derived |
| `Api.Returned` | static/js/chat.js:79-85 | `apiCall` resolves to a body exactly on success, and to that body |
| `Api.ApiCallResult` | static/js/chat.js:19-85 | `apiCall` resolves to the parsed body exactly when a token is stored and a 2xx response parses to an object; every other path resolves to null |
| `Client.Title` | static/js/chat.js:292 | up to 30 characters the title is the text; beyond, it is the first 30 characters and `...`, length 33; it equals the text only in those cases |
| `Client.TitleKeepsPrefix` | static/js/chat.js:292 | the title starts with as much of the text as it keeps |
| `Client.IsUrgent` | static/js/chat.js:421-430 | an assistant message is urgent exactly when its lower-cased text includes `emergency`, `urgent`, `call 911` or `immediate medical attention` |
| `Client.NeedsDisclaimer` | static/js/chat.js:452-458 | an assistant message gets the disclaimer exactly when its lower-cased text includes `treatment`, `diagnosis`, `medication` or `therapy` |
| `Client.KeywordAnywhereInAnyCase` | static/js/chat.js:421-430 | a keyword in any letter case anywhere in the content makes the keyword test succeed |
| `Client.TestsIgnoreCase` | static/js/chat.js:452-458 | the urgent and disclaimer tests give the same answer on lower-cased content |
| `Client.ChatIdFromPath` | static/js/chat.js:97-100 | the id taken from the address never contains `/` |
| `Client.ChatPathOpensId` | static/js/chat.js:97-100 | `/chat/<id>` and `/chat/<id>/...` open `<id>` |
| `Client.ChatPathShape` | static/js/chat.js:97-100 | an id is only taken when the second part is `chat`, and it is the third part of the address |
| `Client.ConcatAppend` | static/js/chat.js:353 | the concatenation of the streamed pieces distributes over splitting them |
| `Client.Session.constructor` | static/js/chat.js:2-4 | the page starts with an empty conversation, no chat id and a new chat |
| `Client.Session.StartNewChat` | static/js/chat.js:541-547 | afterwards the conversation is empty, the chat id null and the chat new, whatever the prior state |
| `Client.Session.LoadChat` | static/js/chat.js:170-185 | a null load changes nothing; a load adopts the id, clears the new flag and takes the loaded messages, or `[]` if absent |
| `Client.Session.OpenFromPath` | static/js/chat.js:97-101 | with an address naming a chat and a successful load, the session takes that id, is not new and holds the loaded messages (or `[]`); otherwise nothing changes |
| `Client.Session.CreateNewChat` | static/js/chat.js:220-247 | a null answer changes nothing and yields null; an answer sets the chat id to its `chat_id`, even an absent one, and clears the new flag |
| `Client.Session.UpdateChat` | static/js/chat.js:251-258 | no save without a truthy chat id; otherwise a save of the whole conversation under that id |
| `Client.Session.StreamReply` | static/js/chat.js:345-360 | the assistant message last pushed ends up holding every streamed piece in order; nothing else changes |
| `Client.Session.Exchange` | static/js/chat.js:309-363 | the conversation is posted as it stands; a refused answer changes nothing; a 2xx answer adds one assistant message holding all pieces in order, then a save unless reading failed; the chat id and flag are kept |
| `Client.Session.SendMessage` | static/js/chat.js:265-363 | blank input changes nothing; failed creation adds only the user message; a refused answer adds only the user message; a read answer adds the user message and one assistant message holding all pieces in order; the save follows only a completed read |
| `Prompt.BuildPrompt` | main.py:186-195 | the loop's prompt is the lines of all messages in order followed by `Assistant:`, so it always ends with `Assistant:` |
| `Prompt.EmptyPrompt` | main.py:186-195 | no messages give exactly `Assistant:` |
| `Prompt.PromptBody` | main.py:187-193 | the body is empty exactly for no messages, and otherwise ends with a newline, so the cue starts its own line |
| `Prompt.BodyAppend` | main.py:187-193 | the prompt body of `xs + ys` is the body of `xs` followed by that of `ys` |
| `Prompt.BodySnoc` | main.py:187-193 | appending a message appends its line |
| `Prompt.BodyLineAt` | main.py:187-193 | message `k`'s line sits between the lines of the messages before and after it |
| `Prompt.PromptOfUserTurn` | main.py:186-195 | for the transcript a client turn posts, the prompt is the earlier lines, `User: <text>`, a newline and `Assistant:` |
| `Records.Matches` | main.py:249-256 | a matching chat is the user's, and after the backfill it still carries the requested id and the owner, under `chat_id` when it had none |
| `Records.NewChatRecord` | main.py:207-215 | a new chat record has exactly the created fields: the given id, the requested title, the owner, the two times, and only the system message `You are a helpful assistant.` |
| `Records.Backfill` | main.py:240-241 | `chat_id` is added, equal to `id`, only when `id` is present and `chat_id` absent; every existing field keeps its value |
| `Records.BackfillIdempotent` | main.py:270-271 | backfilling twice is backfilling once |
| `Records.CreatedChatIsBackfilled` | main.py:209 | a created chat is returned with `chat_id` equal to its `id` |
| `Records.KeyField` | main.py:298 | the update filters on `id` exactly when the stored chat has `id`, else on `chat_id` |
| `Records.SetMessages` | main.py:301-304 | the message list is replaced wholesale, `updated_at` set, every other field kept |
| `Backend.FirstIndex` | main.py:249-256 | the first document satisfying the filter, or none when no document does |
| `Backend.FindChat` | main.py:249-256 | the first document owned by the user whose `chat_id` or `id` is the requested id |
| `Backend.FindByKey` | main.py:301-302 | the first document holding the id under the key field |
| `Backend.Owned` | main.py:228 | the listing holds only stored chats of the user, each exactly as often as the store does |
| `Backend.OwnedAppend` | main.py:228 | the listing keeps storage order: listing two stretches of the store is listing the first, then the second |
| `Backend.OwnedMembers` | main.py:228 | a chat is listed exactly when it is stored and is the user's |
| `Backend.Updated` | main.py:301-304 | the first document holding the id under the key field gets the new messages and time, every other document is unchanged, and with no such document nothing changes |
| `Backend.Database.Register` | main.py:139-161 | a taken username is refused with 400 and nothing changes; otherwise the user is added and a token for the username issued |
| `Backend.Database.Login` | main.py:165-175 | a token is issued exactly for a registered username; otherwise 401 "Invalid username" |
| `Backend.Database.CreateChat` | main.py:205-222 | the new chat record is appended and its id and title answered; a failed insert answers 500 and stores nothing |
| `Backend.Database.GetChats` | main.py:226-243 | every chat of the user is returned, each backfilled |
| `Backend.Database.GetChat` | main.py:247-273 | the first matching chat, backfilled, or 404 "Chat not found" |
| `Backend.Database.UpdateChat` | main.py:281-306 | 404 without a matching chat; otherwise the first document holding the id under the chosen key field gets the new messages and the answer is "updated" |
| `Backend.UpdateReachesFoundChat` | main.py:286-304 | with unique ids, the update writes the chat it found whenever that chat's key field holds the requested id |
| `Backend.UpdateMissesChatFoundByAlias` | main.py:286-304 | in any store, a chat found by its `chat_id` whose `id` is a different value is left as it was by the update |
| `Backend.UpdateWritesOtherUsersChat` | main.py:286-304 | a user whose chat has `id` "a" and `chat_id` "b" updating "b" overwrites the messages of another user's chat whose `id` is "b" |
| `Backend.CreatedChatIsFound` | main.py:207-219 | a chat just created under a fresh id is what `get_chat` finds for that id, with that `chat_id` and only the greeting |

## Left out

- Rendering is not modelled. This covers `addMessageToUI` node building (except its two keyword tests) and `updateMessageInUI`. It also covers the typing indicator, scrolling, textarea resizing, sidebar toggling, the welcome screen, the history list built by `loadChatHistory`, and the system error messages shown to the user.
- `fetch`, `localStorage`, `window.location` and `history.pushState` are parameters, or have no effect in the model. This covers the redirect and token removal of `apiCall`, which the `Api.Outcome` value reports.
- `TextDecoder` is not modelled: the reply arrives as already-decoded pieces.
- `JSON.parse` and `JSON.stringify` are not modelled. A parse result is an input that keeps only what `apiCall` reads: parse failure, `null`, or an object with an optional `detail`. A truthy `detail` that is not a string stands for its string form; a falsy one (`0`, `false`, `null`) is modelled as an absent `detail`.
- The regular expression engine is not modelled; the one expression used is written out as a leftmost search.
- The ids made from `Date.now()` are left out: they come from a clock and may collide.
- Concurrency is left out. `updateChat` is not awaited. `sendMessage`, `loadChat` and `startNewChat` can interleave at their awaits. The model runs each handler to completion, and `SendMessage` reports the save request it would issue.
- `apiCall`: a failure of `response.text()` on a 500 is not modelled (the body text is given), and neither is console logging. Its 500 message is computed but, as in the source, never returned.
- `Text.Lower`: lower-cases ASCII letters only. JavaScript's `toLowerCase` also maps non-ASCII letters, some of them to ASCII (KELVIN SIGN to `k`), which the model does not capture.
- `Client.Title`: counts Unicode scalar values. JavaScript's `length` and `substring` count UTF-16 code units, so a text with characters outside the Basic Multilingual Plane is cut at a different place.
- `Client.Session.SendMessage`: the assistant message that `conversation` shares with the read loop is modelled by rewriting the last transcript entry on each piece, not by aliasing.
- Model and tokenizer loading, `torch`, and the `chat_stream` thread with its `TextIteratorStreamer` are left out: they are a foreign library and concurrency.
- JWT signing and decoding (`create_jwt_token`, `get_current_user`) belong to a foreign crypto library. A token is reduced to its `sub` claim. The authenticated user id is a parameter.
- MongoDB is replaced by a map of users and a sequence of chats in natural order. `find_one` and `update_one` take the first match. A failed `insert_one` is modelled only for `create_chat`, the one endpoint that catches it.
- `Backend.Database.GetChats`: returns the user's chats in storage order. The source sorts them by `updated_at`, newest first. The model does not order them.
- `Backend.Database.GetChats` and `Backend.Database.GetChat` do not turn `_id` and the timestamps into strings. That is JSON serialisation and is not modelled.
- `Backend.Database.Register`: the gap between the username lookup and the insert is not modelled. Two concurrent registrations could both pass the check.
- FastAPI routing, request validation, the HTML pages (`root`, `login_page`, `register_page`, `chat_ui`, `chat_by_id`) and static mounting are left out.
- `Records.SetMessages` and `Backend.Database.UpdateChat`: `update_chat` accepts any list of dictionaries as messages (main.py:277) and stores them as given; the model stores only messages with one of the three roles and a text content.
