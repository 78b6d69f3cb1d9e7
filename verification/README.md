# Password-gated chat thread store — Dafny model

This project models the logic of a browser-only chat client (`script.js`).
The client keeps conversation threads in `localStorage` and hides the app behind a weak password gate.
It sends each user message to a chat-completion API and appends the reply, or an error note, to the thread.
The DOM and the network are removed. What is left is a sequential state machine over plain values:

- `JsString`: the JavaScript string behaviour the code relies on. This covers `trim`, the UTF-16 code units `charCodeAt` returns, and the decimal text of `String(n)`.
- `Djb2`: `hashString`. The source loop runs on JavaScript Numbers. `h << 5` applies ToInt32, so `h` is partly reduced on every step. The model computes that loop exactly and proves it equals the DJB2 fold (seed 5381, `33*h + c`) modulo 2^32. It also proves that every value of `h` and of `(h<<5)+h` is a safe integer for inputs under 2^21 code units.
- `Threads`: the `Message`, `Thread` and `State` records, plus the read-only queries: `activeThread()`, the three-entry recent list, and the title rule.
- `Storage`: `localStorage` as a map from key to entry, with `loadData`/`saveData`.
- `Repository`: the page (storage, in-memory state and the gate's variables) and the thread handlers: `ensureThread`, "New chat", picking a recent thread, "Save" and "Clear".
- `Gate`: `tryUnlock` and `resetPassword`.
- `Send`: the send button in two steps. `SendStart` runs the synchronous part, including the decisions `callOpenAI` makes before awaiting. `SendFinish` runs when the call settles and appends the reply to the thread captured at send time.
- `Export`: the download file name.

Parameters replace the environment:
- `crypto.randomUUID()` is a fresh id, with a precondition that it is non-empty and unused.
- `Date.now()` is an integer.
- `confirm(...)` is a boolean.
- The network exchange is an abstract `Response`: a successful status with the first choice's content (or none), an unsuccessful status with the response body, or a thrown error with its display text.

Points where the code behaves differently from what a reader might expect:
- A wrong password is not always refused. Unlocking compares digests, so two passwords whose digests collide (for example "Ez" and "FY") both unlock. See `Djb2.HashCollisionExample`.
- The reply goes to the thread captured at script.js:255, not to the thread that is active when the reply arrives. See `Send.ReplyFollowsCapturedThread`.
- Storage errors while setting the password (script.js:162-163) are not caught.
- `resetPassword` shows the gate again but never sets the `unlocked` variable back to false. The model keeps both. `gateShown` is the lock the user actually sees.
- A successful load replaces the whole state (script.js:69). Fields absent from the stored state get no per-field defaults.

## Model

| member | source | states |
|---|---|---|
| `Wrappers.FindFirst` | script.js:93 | `find`: the position returned holds the predicate and none before it does; absent exactly when no element holds it |
| `JsString.Trim` | script.js:253 | the trimmed text is the infix left after removing white space at both ends; empty exactly when the input is all white space |
| `JsString.TrimIdempotent` | script.js:214 | a trimmed key is its own trim |
| `JsString.Utf16Units` | script.js:28 | `charCodeAt` units of one character: the character itself inside the BMP, otherwise a high/low surrogate pair that decodes back to it |
| `JsString.Utf16` | script.js:28 | the code-unit view of a string is at least as long as the string and every unit is below 2^16; for text inside the BMP it is exactly the characters' code points |
| `JsString.Utf16Append` | script.js:28 | the code units of a concatenation are the two parts' code units, in order |
| `JsString.Utf16Single` | script.js:28 | a one-character string has exactly that character's code units |
| `JsString.NatToDecimal` | script.js:29 | `String(n)` is a non-empty string of digits with no leading zero |
| `JsString.DecimalRoundTrip` | script.js:29 | reading back the decimal text of `n` yields `n` |
| `JsString.DecimalInjective` | script.js:166 | two digest texts are equal exactly when the numbers are equal |
| `Djb2.ToInt32` | script.js:28 | the shift's ToInt32 result is a signed 32-bit value congruent to its input modulo 2^32 |
| `Djb2.ToUint32` | script.js:29 | `>>> 0` yields a value in [0, 2^32) congruent to its input |
| `Djb2.ShiftAddStep` | script.js:28 | one step `((h<<5)+h)+c` moves `h + c` by a signed 32-bit amount and agrees with the DJB2 step `33*h + c` modulo 2^32 |
| `Djb2.JsFold` | script.js:27-28 | the value the loop leaves in `h` agrees with the DJB2 fold `33*h + c` from 5381 modulo 2^32, though the loop never reduces `h` to [0, 2^32) |
| `Djb2.JsFoldBounds` | script.js:27-28 | after n code units the loop variable stays within 5381 ± n·(2^31 + 2^16) |
| `Djb2.JsFoldIsSafeInteger` | script.js:27-28 | below 2^21 code units, every value of `h` and of `(h<<5)+h`, where `h<<5` is `ToInt32(ToInt32(h)*32)`, is a safe integer, so the Number arithmetic is exact |
| `Djb2.HashValue` | script.js:25-30 | the printed number always lies in [0, 2^32) and is the DJB2 value of the UTF-16 code units modulo 2^32 |
| `Djb2.HashString` | script.js:29 | `hashString` returns the canonical decimal text of that uint32 value: digits only, no leading zero |
| `Djb2.HashStringEqualIff` | script.js:166 | two digests are equal exactly when the DJB2 values agree modulo 2^32 |
| `Djb2.HashCollisionExample` | script.js:166 | two distinct passwords, "Ez" and "FY", have the same digest |
| `Threads.Replace` | script.js:226-227 | mutating one thread in place changes that position only: the length, every other thread and every id stay, so unique ids stay unique |
| `Threads.FindThread` | script.js:93 | thread lookup returns the first thread with the id, or nothing when no thread has it |
| `Threads.FindThreadUnique` | script.js:93 | with unique ids, looking up thread `k`'s id finds `k` |
| `Threads.FindThreadPrepend` | script.js:93 | putting a thread with another id in front moves the first match one place down |
| `Threads.FindThreadSameIds` | script.js:93 | the lookup depends only on the ids and their order |
| `Threads.ActiveIndex` | script.js:92-94 | the active position is the first thread whose id is the active id; absent when the id is null or names no thread |
| `Threads.ActiveThread` | script.js:92-94 | `activeThread()` resolves exactly when the active position exists; it is then the thread at that position, which carries the active id and is its first occurrence |
| `Threads.ActiveIndexSameIds` | script.js:92-94 | changing messages or titles without touching ids or order keeps the active position |
| `Threads.Recent` | script.js:123 | the recent list is a prefix of `threads` holding at most 3 entries, and all of them when there are fewer |
| `Threads.Prefix` | script.js:88 | `slice(0, n)` is a prefix of at most `n` elements, and the whole input when that is shorter |
| `Threads.FirstUserMessage` | script.js:86 | the first message with role user, or nothing when there is none |
| `Threads.TitleFromFirstUserMessage` | script.js:85-90 | the title becomes the first 60 characters of the first user message, or of "New chat" when that message is empty; no user message leaves the thread alone; id, date and messages never change |
| `Threads.FirstUserMessageStable` | script.js:86 | appending a message does not move an existing first user message |
| `Threads.TitleRuleStable` | script.js:85-90 | once a thread has a user message, further messages do not change the derived title |
| `Threads.TitleRuleIdempotent` | script.js:85-90 | applying the title rule twice equals applying it once |
| `Storage.LoadData` | script.js:66-70 | a saved state replaces the in-memory state wholesale; an absent, empty or unparsable entry leaves it unchanged |
| `Storage.SaveData` | script.js:72-74 | saving writes the state under the data key and leaves every other key unchanged |
| `Storage.SaveThenLoad` | script.js:66-74 | loading after saving gives back the saved state, whatever was in memory |
| `Repository.Startup` | script.js:33-39 | a fresh page reads nothing from storage: memory holds no key, the default model and no threads, nothing is unlocked and the gate is shown |
| `Repository.Commit` | script.js:72-74 | a handler that saves leaves the data key equal to the new in-memory state and the gate keys untouched |
| `Repository.NewChat` | script.js:203-207 | "New chat" adds exactly one empty "New chat" thread at index 0 and makes it active; the old threads follow unchanged and in order; ids stay unique |
| `Repository.EnsureThread` | script.js:76-83 | no-op when the active id is truthy and names a thread; otherwise prepends one empty thread and activates it; afterwards the active thread always resolves; existing threads keep their order |
| `Repository.EnsureThreadIdempotent` | script.js:76-83 | a second `ensureThread` creates nothing |
| `Repository.SelectRecent` | script.js:131 | clicking a recent entry makes that thread active and resolvable, and changes no thread |
| `Repository.SaveSettings` | script.js:213-216 | "Save" stores the trimmed key and the chosen model; threads and the active pointer are unchanged |
| `Repository.ClearActive` | script.js:223-229 | a confirmed clear empties the active thread's messages and resets its title to "New chat"; other threads and the active pointer are untouched; no active thread or no confirmation changes nothing |
| `Repository.NewChatHeadsRecent` | script.js:203-207 | after "New chat" the recent list starts with the new thread and continues with the previous first two |
| `Gate.Enter` | script.js:171-176 | a successful unlock clears the hint and hides the gate; when the loaded active id is truthy and names a thread, the state is exactly the loaded one, otherwise an empty "New chat" thread with the fresh id is put in front of the loaded threads and made active |
| `Gate.RecordPassword` | script.js:162-163 | a first-time set stores the digest and the flag '1' and no other key |
| `Gate.GateKeysSurviveSave` | script.js:162-176 | the data write during unlock keeps the stored digest and flag |
| `Gate.TryUnlock` | script.js:155-178 | an empty trimmed password sets "Password required" and changes nothing else; a first use stores the digest and the flag and unlocks; with a password set, the gate opens exactly when the stored digest equals the attempt's digest, and otherwise only the hint becomes "Incorrect password"; on success the state is the loaded one, with an empty active "New chat" thread in front exactly when the loaded active id is falsy or names no thread |
| `Gate.ResetPassword` | script.js:180-185 | a confirmed reset removes exactly the flag and the digest and shows the gate; the data entry and the in-memory state are untouched; a cancelled reset changes nothing |
| `Gate.UnlockAfterReload` | script.js:159-169 | after choosing a password and reloading, an attempt unlocks exactly when its digest equals the chosen password's, and it then shows the saved state |
| `Gate.ResetKeepsData` | script.js:180-185 | after a reset, choosing any new password reopens the page with the same threads, key and model |
| `Send.Project` | script.js:281 | the request lists every message in order as its role and content |
| `Send.PrepareRequest` | script.js:276-281 | an empty key fails with "No API key set. Add one in Settings." and no request is built; otherwise the request carries the key, the model (or "gpt-4o-mini" when it is empty) and the messages |
| `Send.ApiError` | script.js:298 | the error text is "API error ", the status in canonical decimal (no leading zero), ": " and the body, and status and body can be read back from it |
| `Send.Completion` | script.js:296-303 | a successful status yields the trimmed content, or "(no content)" when there is none; a non-ok status gives "API error {status}: {body}"; a thrown error keeps its text |
| `Send.AssistantText` | script.js:264-268 | a reply is shown as it is; an error is shown as "⚠️ " followed by exactly the error text |
| `Send.ReplyText` | script.js:263-303 | for every state and response: no key gives "⚠️ No API key set. Add one in Settings." whatever the response; with a key the assistant text is the trimmed reply, "(no content)", or "⚠️ " followed by the status error or the thrown error's text |
| `Send.Push` | script.js:256 | `push` keeps the thread's id, title and date, keeps its messages as a prefix and puts the new message last |
| `Send.AddUserMessage` | script.js:256-257 | the user message is appended; a "New chat" title is then derived by the title rule, and any other title stays |
| `Send.SendStart` | script.js:252-260 | blank input, or no active thread, changes nothing; otherwise the active thread gains the trimmed user message, a "New chat" title is derived from the first user message, any other title stays, the state is saved, and the reply is tied to that thread's id |
| `Send.SendFinish` | script.js:262-271 | exactly one assistant message is appended to the captured thread: the reply, or "⚠️ " and the error; no other thread changes, and the active pointer stays as it is |
| `Send.SendThenReply` | script.js:252-271 | for any state, unique ids or not, a completed send adds the user message and then exactly one assistant message to the captured thread, and nothing to any other |
| `Send.FinishAfterNewChat` | script.js:255 | a reply for the thread first found at `i` lands on it after "New chat" has moved it to `i + 1`, whether or not ids are unique |
| `Send.ReplyFollowsCapturedThread` | script.js:255-264 | for any state, switching to a new chat while a reply is pending leaves the new thread empty, and the reply goes to the thread the message was sent from |
| `Send.NoKeyScenario` | script.js:276-277 | with no key, sending "hi" to an empty thread yields exactly the user message "hi" and the assistant message "⚠️ No API key set. Add one in Settings." |
| `Send.ApiErrorScenario` | script.js:296-299 | a 401 response with body "invalid key" shows as "⚠️ API error 401: invalid key" |
| `Send.FirstSendNamesThread` | script.js:257 | the first user message sent to a "New chat" thread sets its title to that message's first 60 characters |
| `Send.NextSendKeepsTitle` | script.js:257 | for any state, the send after that leaves the title as it is |
| `Export.Sanitize` | script.js:239 | every output character is in `[A-Za-z0-9_-]`; the output has one character per UTF-16 code unit of the input; a name already safe is kept |
| `Export.SanitizeIdempotent` | script.js:239 | sanitizing twice equals sanitizing once |
| `Export.SanitizeUnits` | script.js:239 | for every input, output character `k` is UTF-16 code unit `k` when that unit is an ASCII letter, digit, `-` or `_`, and `_` otherwise; so a character outside the BMP becomes two underscores |
| `Export.SanitizePointwise` | script.js:239 | inside the BMP, each character is kept if allowed and replaced by `_` otherwise |
| `Export.ExportFileName` | script.js:239 | the download name is a safe stem followed by ".json": "chat.json" for an untitled thread; otherwise the stem has one character per UTF-16 unit of the title, the unit itself when it is an ASCII letter, digit, `-` or `_`, and `_` otherwise |

## Left out

- DOM rendering, templates, the gate's prompt texts, CSS blur, focus handling, event wiring and the `setTimeout` label reset (script.js:96-153, 188-201, 208-211, 217-218, 230, 244-250, 307-311) are user-interface plumbing. `Repository.Startup` keeps only the in-memory part of the page's start-up.
- The `fetch` call, its headers, the `temperature: 0.7` float and JSON parsing of the reply are a foreign network call. They are the `Response` parameter.
- JSON serialisation in `loadData`/`saveData` is abstracted. Stored text under the data key stands for an empty or unparsable blob, which the load ignores. Valid JSON that is not a state (such as `null`) is not modelled. The source would replace the state with it and fail later.
- `localStorage` exceptions are not modelled: every write is taken to succeed. The source catches a storage error in one place only. The `saveData()` after a reply (script.js:265) sits inside the `try` of script.js:262-271. If it fails, the `catch` pushes a second assistant message, "⚠️ " followed by the storage error's text (script.js:268), and the `saveData()` at script.js:269 then throws uncaught. Every other storage error propagates uncaught.
- SendFinish: "exactly one assistant message" holds only when the `saveData()` at script.js:265 succeeds. When it fails, the source appends a second assistant message carrying the storage error, as described above.
- SendStart: assumes the `saveData()` at script.js:259 succeeds. When it fails, the handler stops before `callOpenAI` runs: the user message stays in memory unsaved, and no assistant message follows.
- The Blob/URL download and the exported JSON text are not modelled. Only the file name is.
- `script1.js` is a corrupted rich-text copy of part of `script.js` and adds no logic.
- Lone UTF-16 surrogates cannot appear in a Dafny string, so passwords and titles containing them are not modelled.
- TitleFromFirstUserMessage: `slice(0, 60)` counts UTF-16 code units, but the model counts characters. The two differ only for text with characters outside the Basic Multilingual Plane.
- HashValue: the model computes on exact integers. `Djb2.JsFoldIsSafeInteger` shows this matches the source's floating-point arithmetic for inputs under 2^21 code units. Rounding beyond that length is not modelled.
- SendFinish: finds the captured thread by id, as the first thread carrying it. The captured thread is `activeThread()`, the first thread with its id, and no handler puts a thread with an existing id in front of it. This differs from the source's object reference in one case only. If the page is reset and unlocked again while a reply is pending, the state is reloaded. The source then pushes the reply onto the discarded object, which is lost.
- Send.Completion: a thrown error is represented by its display text (`err.message || err`). A reply whose content is present but not a string, which would make `trim` throw, is not modelled.
