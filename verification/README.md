# Verified model of the SafarAI AI engine core

This project is a Dafny model of the parts of the SafarAI AI engine that have logic of their own.
Its main subject is the tolerant JSON extractor that turns a language model's free-text reply into a
dict. It also models three smaller pieces. The first is the realtime-session table behind the
`/realtime` routes. The second is the chatbot's message assembly, reply collection, history update
and event stream. The third is the requirements de-duplicator.

- `wrappers.dfy`: `Option` and `Result`.
- `text.dfy`: module `Text`. Python's `str.strip()` and `str.startswith()` over `seq<char>`, with
  whitespace as `str.isspace()` defines it.
- `json.dfy`: module `Json`. The `json.loads` call as CPython's scanner reads it. This is the RFC 8259
  grammar plus `NaN`/`Infinity`, with errors for control characters, bad escapes, extra data and a
  byte-order mark. An object is a `map`, so a later duplicate key wins, as in a dict.
- `extractor.dfy`: module `Extractor`. The pipeline of `extract_json_from_response`, one function per
  step: strip, header removal, greedy `\{.*\}` span, score/feedback recovery or brace wrapping,
  `'key':` rewrite, then decode or fall back. Each regular expression is a recursive search with a
  declarative match predicate. The search is proved to return the leftmost match, and the match to
  take as much as the greedy quantifiers allow.
- `extractor_properties.dfy`: module `ExtractorProperties`. The pipeline's promises over whole
  replies, proved by walking the decoder through the texts that the pipeline builds.
- `extractor_quotes.dfy`: module `ExtractorQuotes`. What happens to replies whose values are
  single-quoted.
- `session_prompt.dfy`: modules `SessionPrompt` and `SessionPromptProperties`. The tutor instruction
  built from the session request, with the request's defaults and the table lookups with defaults.
- `sessions.dfy`: modules `Sessions` and `SessionProperties`. The `active_sessions` dict is a class
  `SessionStore` with a `map` field and the dict's insertion order as a `seq` field. Each route that
  changes the dict is a method, proved equal to a transition function over a `Table` value. The 400,
  404 and 500 outcomes and the route's uncaught exceptions are part of the `Outcome`.
- `chatbot.dfy`: modules `Chatbot` and `ChatbotProperties`. The loops of `chatbot_chat` and
  `generate_stream` as methods with invariants, each proved against a function. The model's stream is
  an input: its chunk texts and an optional failure message.
- `cleanreq.dfy`: modules `CleanReq` and `CleanReqProperties`. The de-duplication loop as a method
  over the lines read, proved against the function `Packages`.

Points where the extractor's behaviour is easy to misread, as the model states them:

- When both recovery patterns match (util/parsingoutput.py:30-33), the code does not return the
  two-key record at once. It builds the text `{"score": D, "feedback": "F"}` and sends it through the
  key rewrite (line 40) and `json.loads` (line 43) like any other text.
  `ExtractorProperties.RecoveredRecord` shows that the outcome is still that record. A score with a
  leading zero reaches it through the decode fallback (lines 47-54), not through `json.loads`.
- A reply such as `score: 'score': 9, 'feedback': 'Good job'` with header `score:` does not yield a
  record. The key rewrite at line 40 leaves the value `'Good job'` single-quoted, so `json.loads`
  fails. The feedback pattern at line 48 wants a double-quoted value, so line 56 raises the decode
  error again. `ExtractorQuotes.SingleQuotedReplyRaises` proves this for every reply of that shape.
- The comment at line 39 says string values are preserved. The regular expression at line 40 does
  not look at string boundaries, so `'k':` inside a double-quoted value is rewritten too.
  `Extractor.QuoteKeys` models the regular expression as written.
- Empty or blank input is wrapped into `{}` at line 36 and yields the empty dict
  (`ExtractorProperties.EmptyInputGivesEmptyDict`).

## Model

| member | source | states |
|---|---|---|
| `Text.Strip` | util/parsingoutput.py:13 | The result has no whitespace at either end. It is a contiguous part of the input, and only whitespace was removed around it. |
| `Text.StripIdempotent` | util/parsingoutput.py:17 | Stripping an already stripped text changes nothing, so the second `strip()` after header removal only matters when the header is followed by whitespace. |
| `Extractor.WithoutHeader` | util/parsingoutput.py:13-17 | The header is removed only when the stripped text starts with it exactly. Otherwise the text is only stripped. Either way the result is trimmed. |
| `Extractor.BraceSpan` | util/parsingoutput.py:20 | There is no span exactly when no `{` has a `}` after it. Otherwise the span runs from the leftmost `{` to the rightmost `}` after it, newlines included. |
| `Extractor.CutSpan` | util/parsingoutput.py:20-22 | When a span exists, the working text becomes exactly that substring, which starts with `{` and ends with `}`. Otherwise the text is unchanged. |
| `Extractor.ScoreAt` | util/parsingoutput.py:27 | `"score":\s*(\d+)` matches at an index exactly when the key is there followed by optional whitespace and at least one digit. The group is the whole digit run. |
| `Extractor.FeedbackAt` | util/parsingoutput.py:28 | `"feedback":\s*"([^"]*)"` matches exactly when the key, optional whitespace and a `"` are followed by another `"`. The group is the quote-free text between the two. |
| `Extractor.MatchAtMatches` | util/parsingoutput.py:27-28 | The matcher at one index returns a match the pattern accepts there, and returns nothing only when the pattern accepts no match there. |
| `Extractor.Search` | util/parsingoutput.py:27-28 | `re.search` returns the match at the leftmost index where the pattern matches, and nothing when it matches nowhere. |
| `Extractor.ScoreAndFeedback` | util/parsingoutput.py:27-32 | Recovery succeeds exactly when both patterns match. The pair is the group texts of the two leftmost matches. The score group is a non-empty digit string and the feedback group holds no `"`. |
| `Extractor.Recover` | util/parsingoutput.py:25-36 | A text starting with `{` is kept. Otherwise the text is replaced by `{"score": D, "feedback": "F"}` from the first matches when both patterns match, or wrapped as `"{" + text + "}"`. |
| `Extractor.QuoteKeysFromChanges` | util/parsingoutput.py:40 | From any index on, the rewrite keeps the length, and every character it changes is a `'` that became `"` where a key is quoted with `'` and followed by `:`. |
| `Extractor.QuoteKeys` | util/parsingoutput.py:40 | The rewrite keeps the length. Every character is kept, except a `'` that opens or closes a quote-free run followed by `:`, which may become `"`. |
| `Extractor.NextStop` | util/parsingoutput.py:40 | After trying the pattern at an index, `re.sub` resumes just past the `:` when a key matched there, and at the next index otherwise. |
| `Extractor.TriedSuffix` | util/parsingoutput.py:40 | From any index the scan reaches, the rest of the rewritten text is the rewrite of the rest of the input. |
| `Extractor.TriedKeyRewritten` | util/parsingoutput.py:40 | Every key that the left-to-right scan reaches is rewritten: both of its quotes become `"`, and its text and its `:` are kept. |
| `Extractor.TriedThroughPlain` | util/parsingoutput.py:40 | The scan reaches every index of a stretch without `'` that follows an index it reaches. |
| `Extractor.FirstKeyRewritten` | util/parsingoutput.py:40 | The first `'key':` of a text, with no `'` before it, becomes `"key":`. |
| `Extractor.Prepared` | util/parsingoutput.py:13-40 | The text handed to `json.loads` always starts with `{`. It ends with `}` unless the stripped text started with `{` and had no `}`. |
| `Extractor.Extract` | util/parsingoutput.py:4-56 | A successful result is always a dict. If `json.loads` accepts the prepared text, the result is its value. Otherwise the result is `{"score": int(D), "feedback": F}` when both patterns match the prepared text, else the original decode error. |
| `Json.Loads` | util/parsingoutput.py:43 | A text starting with `{` can only decode to an object. A successful decode needs some non-whitespace. |
| `Json.Value` | util/parsingoutput.py:43 | A JSON value is an object, array or string exactly when its first character is `{`, `[` or `"`. |
| `ExtractorProperties.EmptyInputGivesEmptyDict` | util/parsingoutput.py:13-44 | Empty or whitespace-only input becomes the text `{}` and yields the empty dict, whatever the header. |
| `ExtractorProperties.ObjectTextPassesThrough` | util/parsingoutput.py:13-44 | A reply that is, after stripping and header removal, an object text without `'` reaches `json.loads` unchanged. When `json.loads` accepts that text, the result is its value. |
| `ExtractorProperties.RecordTextDecodes` | util/parsingoutput.py:33-43 | The record text built at line 33 decodes to `{"score": int(D), "feedback": F}` when `D` has no superfluous leading zero and `F` needs no escaping. |
| `ExtractorProperties.LeadingZeroRecordFails` | util/parsingoutput.py:33-45 | With a leading zero in the digits, the record text is not valid JSON. |
| `ExtractorProperties.RecordTextSearches` | util/parsingoutput.py:47-48 | Both recovery patterns find the same digits and feedback again in the record text built from them. |
| `ExtractorProperties.RecoveredRecord` | util/parsingoutput.py:25-56 | When the text does not start with `{`, both patterns match, and the feedback needs no escaping and has no `'`, the extractor returns `{"score": int(D), "feedback": F}` from their first matches. A leading-zero score gets there through the fallback. |
| `ExtractorProperties.RecordAmidProse` | util/parsingoutput.py:20-56 | A record text with prose around it, no `{` before it and no `}` after it, is cut out and returned as the record. |
| `ExtractorQuotes.RewriteQuotedText` | util/parsingoutput.py:40 | In `{'score': D, 'feedback': 'F'}` the rewrite double-quotes the two keys and leaves the single-quoted value as it is. |
| `ExtractorQuotes.SingleQuotedReplyRaises` | util/parsingoutput.py:13-56 | For any non-empty header that does not start with whitespace, digits `D`, and feedback `F` without quotes or `{`, the reply `header 'score': D, 'feedback': 'F'` reaches `json.loads` as `{"score": D, "feedback": 'F'}`, and the extractor raises the decode error. |
| `SessionPrompt.ReadSettings` | safarai_realtime/backend/session.py:36-40 | The settings are those of the dict of documented defaults updated with the request's fields. |
| `SessionPrompt.SessionDetails` | safarai_realtime/backend/session.py:105-112 | Each of the seven labelled lines is in the session-details block, with the value of its setting. |
| `SessionPrompt.BeforeDetails` | safarai_realtime/backend/session.py:79-104 | The part of the instruction before the session details holds the style text of the personality. |
| `SessionPrompt.StyleText` | safarai_realtime/backend/session.py:82 | The style section is always one of the six personality texts. |
| `SessionPrompt.TopicText` | safarai_realtime/backend/session.py:110 | The topic line is never empty, and a non-empty topic is shown as given. |
| `SessionPromptProperties.EmptyRequestDefaults` | safarai_realtime/backend/session.py:36-40 | An empty request gets level `Intermediate`, theme `Daily Life`, empty topic, personality `Friendly Mentor` and avatar `friendly`. Every default is a key of its table. |
| `SessionPromptProperties.RequestValuesWin` | safarai_realtime/backend/session.py:36-40 | Every setting that the request gives overrides its default. |
| `SessionPromptProperties.DefaultSessionDetails` | safarai_realtime/backend/session.py:105-112 | With the defaults, the session details show the Intermediate and Daily Life texts, the general-topics note and the Friendly Mentor approach. |
| `SessionPromptProperties.UnknownPersonality` | safarai_realtime/backend/session.py:82-112 | An unknown personality gets the Friendly Mentor text in the style section and an empty teaching-approach line. |
| `SessionPromptProperties.LevelAndThemeLines` | safarai_realtime/backend/session.py:107-109 | The level and theme instruction lines are empty exactly when the level or theme is not in its table. |
| `Sessions.UnderflowIsFalsy` | safarai_realtime/backend/session.py:144 | A float whose value rounds to `0.0`, with at most `n` significant digits and a scale of `-(n + 359)` or lower, is a falsy id. |
| `Sessions.NoUnderflowIsTruthy` | safarai_realtime/backend/session.py:167 | A float with a non-zero digit and a scale of `-300` or higher is a truthy id. |
| `Sessions.Without` | safarai_realtime/backend/session.py:192 | Deleting a key that is absent changes nothing. Deleting a key of a list without repeats removes it at its one index, so the ids before and after keep their order. |
| `Sessions.Created` | safarai_realtime/backend/session.py:135-152 | The store step of `create_session` keeps the table well formed, never loses a session, and adds at most one id. |
| `Sessions.KeptAlive` | safarai_realtime/backend/session.py:158-176 | `keep_alive` keeps the table well formed and never changes its key set or order. |
| `Sessions.Closed` | safarai_realtime/backend/session.py:181-209 | `close_session` keeps the table well formed and never adds a session. |
| `Sessions.SessionStore.constructor` | safarai_realtime/backend/session.py:20 | The table starts empty. |
| `Sessions.SessionStore.CreateSession` | safarai_realtime/backend/session.py:135-152 | Updating the dict in place gives the outcome and the new table that `Created` specifies, and keeps the table valid. |
| `Sessions.SessionStore.KeepAlive` | safarai_realtime/backend/session.py:155-176 | Updating the stored session in place gives the outcome and the new table that `KeptAlive` specifies, and keeps the table valid. |
| `Sessions.SessionStore.CloseSession` | safarai_realtime/backend/session.py:178-209 | Deleting from the dict gives the outcome and the new table that `Closed` specifies, and keeps the table valid. |
| `Sessions.SessionStore.DebugSessions` | safarai_realtime/backend/session.py:211-218 | The reported count equals the number of ids listed, which equals the number of stored sessions. The ids are exactly the keys of the dict returned. |
| `Sessions.DistinctOrderCountsSessions` | safarai_realtime/backend/session.py:214-216 | In a well-formed table the dict's key list is as long as the dict. |
| `SessionProperties.CreateWithoutIdKeepsTable` | safarai_realtime/backend/session.py:135-144 | A non-200 provider status, a reply without a truthy id, or an unusable id leaves the table unchanged. A non-200 status is passed on with the provider's text, and a reply without an id is returned as it is. |
| `SessionProperties.CreateStoresSession` | safarai_realtime/backend/session.py:141-152 | A 200 reply with an id is stored under that id with `last_activity = now` added, and that record is returned. No other session changes, and a new id goes to the end of the order. |
| `SessionProperties.KeepAliveNotFound` | safarai_realtime/backend/session.py:167-171 | Keep-alive answers 404 exactly when the id is missing or falsy, or is not in the table. Any outcome other than 200 leaves the table unchanged. |
| `SessionProperties.KeepAliveRefreshesOnlyThatSession` | safarai_realtime/backend/session.py:173-176 | For a stored id, only that session's `last_activity` becomes `now`, and the same timestamp is returned. Its other fields, all other sessions, the key set and the order are unchanged. |
| `SessionProperties.CloseStatuses` | safarai_realtime/backend/session.py:185-203 | Close answers 400 exactly when the id is missing or falsy, and 404 exactly when a usable id is not stored. Every outcome other than 200 leaves the table unchanged. |
| `SessionProperties.CloseTinyFloatId` | safarai_realtime/backend/session.py:183-187 | Closing with the id `1e-400`, which decodes to `0.0`, answers 400 for a missing id. |
| `SessionProperties.CloseRemovesExactlyThatSession` | safarai_realtime/backend/session.py:191-194 | Closing a stored id answers `Session closed` and removes exactly that key. Every other session is unchanged, and the table shrinks by one. |
| `SessionProperties.CloseThenKeepAlive` | safarai_realtime/backend/session.py:167-194 | After a successful close, keep-alive with the same request answers 404. |
| `SessionProperties.CreateThenKeepAlive` | safarai_realtime/backend/session.py:144-176 | A session just stored can be kept alive by its id, and the reply carries the new timestamp. |
| `Chatbot.EntryMessages` | EndPoint/chatbot.py:16-20 | A `user` entry becomes one human message and an `assistant` entry one AI message, each with the entry's content or `""`. Any other entry becomes nothing. |
| `Chatbot.HistoryMessages` | EndPoint/chatbot.py:16-20 | A history never yields more messages than it has entries, and none of them is a system message. |
| `Chatbot.BuildMessages` | EndPoint/chatbot.py:13-23 | The message list is the system prompt, then the history's messages, then the current user message. |
| `Chatbot.NonEmpty` | EndPoint/chatbot.py:28 | The chunks kept are only non-empty ones, no more than the chunks, and every non-empty chunk is kept exactly as often as it occurs. |
| `Chatbot.NonEmptyAppend` | EndPoint/chatbot.py:26-28 | Keeping the non-empty chunks of two streams one after the other gives the two kept lists in that order, so the kept chunks keep the stream's order. |
| `Chatbot.CollectReply` | EndPoint/chatbot.py:26-29 | `full_response` is the in-order concatenation of the non-empty chunks, which equals that of all chunks. |
| `Chatbot.SkippingEmptyChunksKeepsText` | EndPoint/chatbot.py:28-29 | Skipping empty chunks does not change the concatenated reply. |
| `Chatbot.UpdateHistory` | EndPoint/chatbot.py:32-34 | The returned history is the input history followed by exactly two entries: the user's message, then the assistant's reply. |
| `Chatbot.Missing` | util/classes.py:59-63 | The missing fields are exactly the declared response fields that the construction does not give. |
| `Chatbot.AsWrittenMissesTwoFields` | EndPoint/chatbot.py:36-39 | The response is built without `status` and `token_count`, both required by the response model. |
| `Chatbot.ChatbotChat` | EndPoint/chatbot.py:11-41 | As written: a failing stream gives a 500 with its message, and a successful one also gives a 500, for the two missing response fields. |
| `Chatbot.ChatbotChatIntended` | EndPoint/chatbot.py:11-41 | With the two fields supplied: a successful stream answers `success` with the concatenated reply and the history extended by the two new entries. |
| `Chatbot.ContentEvents` | EndPoint/chatbot.py:66-69 | There is one `done: false` event per non-empty chunk, carrying that chunk, in order. |
| `Chatbot.StreamEvents` | EndPoint/chatbot.py:64-73 | The stream yields exactly one event more than there are non-empty chunks. |
| `Chatbot.GenerateStream` | EndPoint/chatbot.py:64-73 | The events yielded are the content events, then the completion event, or the error event when the stream fails. |
| `ChatbotProperties.RolesMapInOrder` | EndPoint/chatbot.py:16-20 | A history of `user` and `assistant` entries becomes one message per entry, in order, with the matching role and the entry's content, or `""` when it has none. |
| `ChatbotProperties.OtherRolesDropped` | EndPoint/chatbot.py:16-20 | An entry with any other role adds no message. |
| `ChatbotProperties.OnlyLastEventDone` | EndPoint/chatbot.py:64-73 | Every event says `done`, and only the last one says `done: true`. |
| `ChatbotProperties.StreamCarriesReply` | EndPoint/chatbot.py:26-69 | The content events carry the non-empty chunks in order, and their texts put together are the reply that `/chatbot` builds from the same stream. |
| `ChatbotProperties.FailingStreamEndsWithError` | EndPoint/chatbot.py:72-73 | A failing stream ends with one error event carrying its message and yields no completion event. |
| `CleanReq.ReadLines` | util/cleanreq.py:4 | The lines put together give back the text. Each line is non-empty, holds `\n` only at its end, and every line but the last ends with `\n`. |
| `CleanReq.StripAll` | util/cleanreq.py:8 | Each line is replaced by its stripped text, and the number of lines is kept. |
| `CleanReq.Unique` | util/cleanreq.py:7-11 | The kept texts are non-empty and distinct. Every non-empty text of the input is kept, and nothing else is. |
| `CleanReq.Packages` | util/cleanreq.py:7-11 | Each output line is a stripped, non-empty input line, and none appears twice. Every non-blank input line's stripped text appears. |
| `CleanReq.Dedup` | util/cleanreq.py:7-11 | The loop writes exactly `Packages(lines)`, each followed by a newline. `seen` ends as the set of lines written. |
| `CleanReqProperties.FirstOccurrenceOrder` | util/cleanreq.py:7-11 | Output lines appear in the order of their first occurrence among the stripped input lines. |
| `CleanReqProperties.UniqueKeepsFirstOccurrenceOrder` | util/cleanreq.py:9-11 | Keeping first occurrences preserves their order. |
| `CleanReqProperties.DedupIdempotent` | util/cleanreq.py:7-11 | De-duplicating the output again changes nothing. |
| `CleanReqProperties.ReadLinesOfFileText` | util/cleanreq.py:11 | Read back line by line, the text written gives each package followed by its `\n`, in order, when no package holds a `\n`. |
| `CleanReqProperties.RerunKeepsPackages` | util/cleanreq.py:3-11 | Run on the file it wrote, the de-duplicator finds the same packages in the same order, so it writes the same file again. |

## Left out

- Calls to the language-model provider (the realtime session request, the LangChain chat stream, the
  reply's `output_text`) are inputs to the model. The SSL context (safarai_realtime/backend/session.py:117-134)
  is not modelled.
- `time.time()` is an integer parameter `now`, not a float clock reading.
- Logging calls are not modelled.
- `format_json_response` (util/parsingoutput.py:59-68) and `json.dumps` are not modelled. Events of
  `generate_stream` are JSON values rather than their `data: ...` text. No property about extracting
  again from a re-serialised result is stated.
- `Json.Loads`: strings are sequences of Unicode scalar values, so a `\u` escape that leaves a lone
  surrogate is an error in the model, while Python accepts it. Numbers with a fraction or exponent are
  kept as their lexeme. Python's limit on the number of digits in an integer is not modelled. The order
  of dict members is not kept.
- `Extractor.ScoreAt`: `\d` is read as the ASCII digits `0`-`9`. In a `str` pattern Python's `\d` also
  matches every other Unicode decimal digit (category Nd, such as `٣` or `３`), and `int()` accepts
  them, with a set that depends on the interpreter's Unicode version. A reply whose score is written
  in such digits is recovered by Python but is a failed recovery in the model.
- `Json.Loads` and `Sessions.IsZeroFloat`: a float lexeme is kept as written; only whether its value
  rounds to `0.0` is computed, for truthiness.
- `ExtractorProperties.ObjectTextPassesThrough`: only covers object texts without `'`, because the key
  rewrite also rewrites `'k':` inside string values, so such texts can reach `json.loads` changed.
- `ExtractorProperties.RecordTextDecodes`: only covers feedback that needs no JSON escaping.
- `ExtractorProperties.RecoveredRecord`: only covers feedback that needs no JSON escaping and has no
  `'`. Other feedback can change under the key rewrite or decode to a different string.
- `ExtractorQuotes.SingleQuotedReplyRaises`: covers replies of that one shape, with a feedback that has
  no quote or `{`.
- Session ids are JSON values compared structurally. Python's dict also treats `1`, `1.0` and `True` as
  the same key, and two lexemes of the same float, such as `1.0` and `1.00`, which the model does not.
  The reverse holds for `NaN`: `json.loads` builds a fresh `float('nan')` for every request, and it
  equals no stored key, so keep-alive and close answer 404 for a session created with id `NaN`
  (safarai_realtime/backend/session.py:167-171, 188-190), while the model finds it.
- `SessionProperties.CreateThenKeepAlive`: stated under the structural id comparison above, so for an
  id `NaN` it claims the model's 200, not Python's 404.
- `Json.Loads`: parses nesting of any depth. In Python, arrays and objects nested deeper than the
  interpreter's recursion limit make `json.loads` raise `RecursionError`, which the handler at
  util/parsingoutput.py:45 does not catch, so it leaves `extract_json_from_response` with no fallback.
- A request body that is not valid JSON (`request.json()` raising) is not modelled. Request bodies and
  provider replies are JSON values.
- `SessionPrompt.ReadSettings` takes the request's settings as strings. A non-string setting is not
  modelled.
- `SessionPrompt.Instruction` assembles the template without a contract of its own. Its parts carry
  the contracts: `BeforeDetails` holds the style text and `SessionDetails` the line of every setting.
- `serve_newcall` only serves a file, and is not modelled.
- History entries are maps from strings to strings. A non-dict entry or non-string content, which makes
  the route answer 500, is not modelled. Chunk contents are strings.
- Exceptions raised while building the message list in `chatbot_stream` are not modelled.
- `CleanReq.ReadLines` splits at `\n` only. Python opens the file in text mode, which also turns
  `\r\n` and a lone `\r` into line ends; a `\r` is whitespace, so only a lone `\r` inside a line
  gives different packages.
- Reading `requirements.txt` and writing `clean_requirements.txt` (util/cleanreq.py:3-6, 11) are left
  out. The lines read are an input and the text written is an output (`CleanReq.FileText`).
- All other files of the repository (routing, prompt-file reads, audio, token counting, logging
  middleware, configuration, schemas) are HTTP or library glue with no logic of their own beyond
  sentinel defaults.

## Findings

| source | as written | input that shows it | evidently intended | confidence | as-written member | corrected member |
|---|---|---|---|---|---|---|
| EndPoint/chatbot.py:36-39 | `ChatbotResponse` is built with only `response` and `conversation_history`, but the model declares `status` and `token_count` as required fields (util/classes.py:59-63). Validation fails, and the route's own handler turns every successful chat into a 500. | any request whose model stream completes, e.g. message `hi`, empty history, chunks `["Hello"]` | answer `status="success"` with a token count, as EndPoint/audio_book.py:38-45 fills them | high (not executed) | `Chatbot.ChatbotChat` | `Chatbot.ChatbotChatIntended` |
