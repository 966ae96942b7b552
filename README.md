# Chat store, context replay and attachment pipeline — a Dafny model

The repository is a local chat application. Two Streamlit front ends talk to a
hosted completion model, and every turn is kept in a DuckDB table `chats` with
rows `(session_id, timestamp, role, content_text, has_attachment)`.

- **The classic app** (`app.py` with `app_ui.py`) stores the user's row before it asks for a reply.
- **The integrated app** (`app_integrated.py`) asks for the reply first and stores both rows only when the reply exists.
  - It can bind an uploaded CSV as a table and answer questions with generated SQL.
  - It sends images to an OCR server and audio to a transcription server.
- **Two model components** belong to the same repository and are modelled here:
  - an offline Vosk speech-to-text library (`vosk_stt_service.py`), whose functions the apps can import and which has a command-line entry point of its own;
  - a doctr OCR server, a Flask application (`ocr_model/ocr_server.py`).
- The transcription server the integrated app calls over HTTP (`whisper_model/whisper_server.py`) is not part of this model.

This project models:

- the message store;
- the lazily created chat handle, primed by replaying the stored history;
- both turn-commit state machines;
- the tabular Q&A text logic (prompt, query clean-up, result formatting, routing);
- attachment dispatch;
- the Vosk transcript assembler and the OCR line flattener, each with its lazy model cache.

External effects are abstracted as follows:

- The remote model, the SQL engine, the schema reader, the recognisers and the HTTP clients are function-valued parameters (oracles).
- A PDF arrives as its list of page texts and a CSV as its list of records; these are plain values, so reading them cannot fail in the model.
- Timestamps are natural numbers the caller supplies; the user's is taken before the assistant's.
- State the source changes in place is modelled as classes:
  - `st.session_state` → `SessionState.Session`;
  - the DuckDB table → `DbUtils.Store`;
  - a chat handle → `Gemini.Chat`;
  - the module-level model slots → `VoskStt.ModelCache` and `OcrServer.PredictorCache`.

Modules, one file each:

| Module | Models |
|---|---|
| `Wrappers` | `Option`, `Result` and `Outcome` |
| `Text` | strip, substring removal, join, concatenation, decimal rendering, and the "contains" predicate |
| `Average` | sum and mean of reals, with their bounds |
| `DbUtils` | the `chats` table and its role check |
| `Gemini` | a chat handle that records every message it is sent and the messages the remote context accepted |
| `SessionState` | session fields and attachment values |
| `ChatSession` | `get_or_create_chat_session`, whose code is identical in both apps |
| `App` | the classic app's reply |
| `AppUi` | the classic turn and attachment handling |
| `CsvQa` | the tabular Q&A text logic |
| `AppIntegrated` | the integrated app |
| `VoskStt` | the speech-to-text service |
| `OcrServer` | the OCR server |

## Model

| member | source | states |
|---|---|---|
| DbUtils.ParseRole | db_utils.py:7 | a role string is storable exactly when it is `'user'` or `'assistant'`, and parsing gives back that role |
| DbUtils.RoleRoundTrip | db_utils.py:7 | parsing the stored name of any role yields that role |
| DbUtils.RowsOf | db_utils.py:29 | the selection keeps, as a multiset, exactly the rows of the given session |
| DbUtils.InsertByTimeSorted | db_utils.py:29 | inserting a row into a time-ordered history keeps it ordered and adds exactly that row |
| DbUtils.SortByTime | db_utils.py:29 | `ORDER BY timestamp` gives a time-ordered permutation of its input |
| DbUtils.History | db_utils.py:27-29 | a session's history is time-ordered and holds exactly that session's rows, as a multiset |
| DbUtils.HistoryAfterAppend | db_utils.py:23-29 | appending a row strictly newer than every stored row puts it at the end of its session's history and changes no other session's history |
| DbUtils.InsertUnique | db_utils.py:48 | inserting an id into a strictly ascending id list keeps it strictly ascending and adds exactly that id |
| DbUtils.DistinctSessions | db_utils.py:44-50 | the distinct ids are strictly ascending, and an id is present iff some row carries it |
| DbUtils.StrictlySortedDistinct | db_utils.py:48 | a strictly ascending id list repeats no id |
| DbUtils.Store.constructor | db_utils.py:4-7 | a new table holds no rows |
| DbUtils.Store.SaveMessage | db_utils.py:7-25 | the insert succeeds iff the role passes the table's check; it then appends exactly one row holding the five values; otherwise it fails with the check's error and leaves the table unchanged |
| DbUtils.Store.TryMessageInsert | db_utils.py:33-38 | the same effect and the same failure as `save_message`; the failure is passed on |
| DbUtils.Store.LoadHistory | db_utils.py:27-29 | the session's rows (as a multiset) in non-decreasing timestamp order; the table is unchanged |
| DbUtils.Store.GetAllSessions | db_utils.py:44-50 | every stored session id exactly once, ascending, and nothing else; the table is unchanged |
| Gemini.Chat.Create | app.py:73-78 | a new handle for `gemini-2.5-flash` with the given system instruction; it has sent and accepted nothing |
| Gemini.Chat.SendMessage | app.py:62 | the reply is the remote model's answer given the chat's system instruction and its accepted context; the message is recorded as sent, and it joins the context only when the call succeeds |
| SessionState.UserContent | app_ui.py:148-153 | the stored user text ends with the prompt, equals it exactly when there is no attachment, and otherwise is preceded by `[Attached: name]` and a newline |
| SessionState.Session.constructor | app_integrated.py:202-254 | a fresh session holds the loaded messages, no chat handle, the default system prompt, no attachment, no table binding, no transcription, no OCR result and image mode `vision`; the classic app's `initialize_session` (app_ui.py:55-86) sets the subset of these fields it has to the same values |
| ChatSession.UserPositions | app.py:83-86 | the positions of the user rows: ascending, in range, each one a user row, and every user row listed |
| ChatSession.UserMessagesInOrder | app.py:83-86 | replay sends one message per user row and nothing else, in stored order; each message is that row's content |
| ChatSession.UserMessagesAppend | app.py:83-86 | replaying two stretches of history in turn sends what replaying them together sends |
| ChatSession.InFlightUserNotReplayed | app.py:80-81 | dropping the last record removes a just-stored user row from what is replayed |
| ChatSession.AssistantTailNotReplayed | app.py:80-86 | dropping a trailing assistant row changes nothing that is replayed |
| ChatSession.Replay | app.py:83-86 | a complete replay sends exactly the user messages in order, and all are accepted; a replay that stops has sent a prefix of them and has at least one more message recorded as sent; the accepted context is everything sent except the last message, which is the one the model refused is the one the model refused |
| ChatSession.GetOrCreateChatSession | app_integrated.py:487-510 | a cached handle is returned untouched and nothing is loaded or sent. Otherwise a fresh handle primed with the user rows of the history minus its last record is cached; a history of at most one record primes nothing; a failed priming caches nothing |
| App.MessageParts | app.py:54-60 | the user's text first, then the text context when it is non-empty, then the image whenever there is one; no vision-mode check |
| App.GenerateResponse | app.py:48-64 | the message parts are sent to the cached chat, answered under that chat's own system instruction, or to a fresh one primed from the store under the current system prompt and then cached; the reply is the model's answer to exactly what was sent |
| AppUi.ConvertCsvToJson | app_ui.py:15-27 | every data row appears under its position `0..n-1`, nothing else appears, nothing is truncated, and the JSON is the serialisation of that table |
| AppUi.ProcessFile | app_ui.py:32-52 | a PDF gives the plain concatenation of its page texts; a CSV gives its JSON; PNG and JPEG give `[Image: name]` and the image; any other type gives `("", None)` |
| AppUi.ReplaySkipsInFlightTurn | app_ui.py:166-174 | when the user's row is strictly newer than every stored row, priming right after storing it replays exactly the earlier history |
| AppUi.RecordUserTurn | app_ui.py:148-172 | the same user entry (prefixed when attached) is appended both to the in-memory messages and to the store |
| AppUi.RecordReply | app_ui.py:179-195 | the reply's entry and row are appended without an attachment flag, and the three attachment fields are reset |
| AppUi.Respond | app_ui.py:174-195 | a reply is recorded in both places and the attachment is cleared; a failure records nothing and clears nothing; a new chat is primed from the store as it stood before |
| AppUi.HandleUserInput | app_ui.py:147-195 | the user row is stored before generation. A completed turn appends user then assistant to both the store and the messages and clears the attachment; a failed one keeps exactly the user row and entry. A newly primed chat, when the user's timestamp is strictly later than every stored row's, replays the earlier history plus this turn's message parts |
| CsvQa.SchemaListsEveryColumn | app_integrated.py:444 | the schema text names every column with its type |
| CsvQa.PromptCarriesSchemaAndQuestion | app_integrated.py:446-454 | the SQL prompt contains the schema text and the user's question |
| CsvQa.CleanSql | app_integrated.py:461-462 | the cleaned query contains no triple backtick and has no white space at either end |
| CsvQa.CleanSqlKeepsCleanQuery | app_integrated.py:461-462 | the clean-up leaves an already clean query unchanged |
| CsvQa.CleanSqlUnwrapsFence | app_integrated.py:461-462 | a clean query that the model wraps in a fenced `sql` block comes out of the clean-up as the query itself |
| CsvQa.GenerateSqlQuery | app_integrated.py:441-467 | the query is clean; the call fails iff the model call fails, with `Failed to generate SQL: ` before the error |
| CsvQa.FormatQueryResults | app_integrated.py:470-484 | the text built line by line equals the result text, which `ResultsLineCount` and `ResultsShowQueryAndCount` describe |
| CsvQa.ResultsLineCount | app_integrated.py:472-482 | with single-line cells, the text has the query's lines plus 5 without rows. With rows it has 10 more plus one line per row: header, one separator line and the note included |
| CsvQa.ResultsShowQueryAndCount | app_integrated.py:472-482 | the text always shows the query. It ends with `No data found.` when there are no rows, and otherwise with the `Found n row(s)` note, whose digits read back as the row count |
| CsvQa.ExecutionFailureShowsErrorAndQuery | app_integrated.py:529 | the execution-failure text contains both the engine's error and the generated SQL |
| CsvQa.OutcomeShowsQuery | app_integrated.py:521-529 | every text the table branch answers with shows the query, and a failure text also shows the error |
| CsvQa.CsvReply | app_integrated.py:516-529 | the table branch fails iff query generation fails, with its error |
| CsvQa.CsvReplyShowsQuery | app_integrated.py:516-529 | once a query is generated, the table branch answers with a text that shows it, and with the engine's error when execution fails |
| AppIntegrated.ConvertCsvToJson | app_integrated.py:46-63 | only the first `max_rows` rows appear, under their positions; the truncation note appears exactly when a further row exists |
| AppIntegrated.MeanConfidenceInUnitRange | app_integrated.py:130 | line confidences within [0, 1] average to a value within [0, 1] |
| AppIntegrated.ExtractTextViaOcrServer | app_integrated.py:106-138 | the server's text and lines, with confidence 0 when there are no lines and in [0, 1] otherwise; any failure becomes `OCR server error: ` followed by the error |
| AppIntegrated.TranscribeAudioViaServer | app_integrated.py:76-103 | the transcription, or any failure as `Whisper server error: ` followed by the error |
| AppIntegrated.PdfSentinelNotBlank | app_integrated.py:158-159 | the no-text sentinel is not blank |
| AppIntegrated.ProcessFile | app_integrated.py:141-195 | the five results for each media type. PDF: the non-empty page texts, or the sentinel when blank, and every other result empty. CSV: the binding and the upload note when the schema is read, otherwise only the failure note; every other result empty. Image: OCR text in OCR mode, `[Image: name]` otherwise. Audio: the transcription. Other types: all empty. In the model only the OCR and transcription requests fail, and an attachment is never of two kinds |
| AppIntegrated.VisionImage | app_integrated.py:543-544 | an image is sent iff there is one and the mode is vision |
| AppIntegrated.AnswerFromCsv | app_integrated.py:516-529 | the table branch answers with `CsvReply` |
| AppIntegrated.AnswerFromChat | app_integrated.py:532-548 | the message parts (image only in vision mode) go to the cached chat, under its own system instruction, or to a fresh one primed from the store under the current system prompt; the reply answers exactly what was sent |
| AppIntegrated.GenerateResponse | app_integrated.py:513-553 | with a bound table the reply comes from the table, and the chat is neither created nor sent anything. Otherwise the parts go to the cached or newly primed chat. Every failure starts with the Gemini API error lead |
| AppIntegrated.CommitTurn | app_integrated.py:568-596 | exactly two rows are appended, user then assistant (no attachment flag), and the messages are dropped to be reloaded |
| AppIntegrated.ClearAttachments | app_integrated.py:586-592 | all six attachment fields are reset |
| AppIntegrated.FinishTurn | app_integrated.py:568-607 | a reply stores two rows and drops the messages; a failure leaves store and messages unchanged; either way the six attachment fields are reset and the chat handle is kept |
| AppIntegrated.HandleUserInput | app_integrated.py:556-608 | generation comes first. Success stores the prefixed user row, then the reply row; failure stores nothing and reports the Gemini error. Either way the six attachment fields are reset. A bound table answers without touching the chat, and a newly primed chat is sent the raw prompt |
| AppIntegrated.IntegratedTurnReplayedInFull | app_integrated.py:500-508 | when the user row is strictly newer than every stored row and the assistant row strictly newer than the user row, the history after the committed turn ends with the assistant's row, so a chat primed later replays every user message, this turn's included |
| Average.SumBounds | ocr_model/ocr_server.py:79 | a sum of values within bounds lies within count × bounds |
| Average.MeanBounds | ocr_model/ocr_server.py:79 | the mean of a non-empty sequence lies within any bounds of its values |
| Average.MeanOfConstant | ocr_model/ocr_server.py:79 | the mean of a constant sequence is that constant |
| VoskStt.ModelCache.constructor | vosk_stt_service.py:7 | the slot starts empty |
| VoskStt.ModelCache.GetVoskModel | vosk_stt_service.py:9-20 | a cached model is returned as is. With an empty slot, a missing model directory is the not-found error and leaves the slot empty; otherwise a fresh model is built and cached. At most one is ever built |
| VoskStt.Chunks | vosk_stt_service.py:57-60 | the blocks read, in order, make up all the samples; each is non-empty and at most 4000 frames; all but the last are full |
| VoskStt.CheckAudio | vosk_stt_service.py:37-49 | the audio is accepted iff the file exists, is a WAV file, is mono, is 16-bit and has a supported rate; then its rate and samples are returned |
| VoskStt.Transcription | vosk_stt_service.py:23-77 | a transcript is produced iff the checks pass and a model is at hand; every error starts with `Vosk transcription failed: ` |
| VoskStt.TranscribeAudioVosk | vosk_stt_service.py:23-77 | the result is `Transcription` of the file with the model cache consulted; the cache stays valid and is untouched when a check fails. A loaded model is kept and never reloaded; with an empty slot and the checks passed, a model is loaded exactly when its directory is present |
| VoskStt.FeedChunks | vosk_stt_service.py:56-65 | the loop feeds exactly the successive blocks, and the transcript so far is each non-empty accepted phrase followed by one space, in chunk order |
| VoskStt.AccumulatedHasPhrase | vosk_stt_service.py:62-65 | every non-empty accepted phrase appears in the accumulated transcript, followed by a space |
| VoskStt.TranscriptKeepsFinalText | vosk_stt_service.py:68-74 | the final text survives the closing strip whenever it has no white space at its ends |
| VoskStt.TranscriptKeepsPhrase | vosk_stt_service.py:62-74 | every accepted phrase survives the closing strip whenever it has no white space at its ends |
| VoskStt.SuccessMeansValidAudio | vosk_stt_service.py:37-53 | a transcript implies a mono, 16-bit file at a supported rate, with a model at hand |
| VoskStt.ErrorsInOrder | vosk_stt_service.py:36-77 | the first failing check is the one reported, in order: the missing file, the reader's error, channels, width, rate, then the missing model; each behind the failure lead |
| OcrServer.MissingModel | ocr_model/ocr_server.py:19-23 | an error iff a model file is absent; the detection model is checked first |
| OcrServer.PredictorCache.constructor | ocr_model/ocr_server.py:10 | the slot starts empty |
| OcrServer.PredictorCache.GetOcrModel | ocr_model/ocr_server.py:12-45 | a cached predictor is returned as is. With an empty slot, a missing model file is its not-found error and leaves the slot empty; otherwise a fresh predictor is built and cached. At most one is ever built, and a cached predictor leaves the build count unchanged |
| OcrServer.WordValues | ocr_model/ocr_server.py:78 | the words' values, one per word, in order |
| OcrServer.WordConfidences | ocr_model/ocr_server.py:79 | the words' confidences, one per word, in order |
| OcrServer.Entries | ocr_model/ocr_server.py:77-83 | one entry per line, in order, each the line's joined text and mean confidence |
| OcrServer.ExtractLines | ocr_model/ocr_server.py:74-83 | the nested loops produce exactly the entries of all lines in page → block → line order |
| OcrServer.EntryTexts | ocr_model/ocr_server.py:86 | the entries' texts, one per entry, in order |
| OcrServer.Ocr | ocr_model/ocr_server.py:49-107 | a request without a file gets `No file provided` with status 400, and any later failure gets status 500. Success needs a file, a usable predictor and a recognition; it gives one entry per recognised line, `total_lines` equal to their count, and a text that is the line texts joined with newlines. Conversely, a file, a usable predictor and a recognition always give success |
| OcrServer.PerformOcr | ocr_model/ocr_server.py:49-107 | the response is `Ocr` of the request with the predictor cache consulted; the cache stays valid. A cached predictor is kept and none is rebuilt; a request without a file leaves the slot as it was; with a file and an empty slot, a predictor is cached exactly when both model files are present |
| OcrServer.EveryLineListed | ocr_model/ocr_server.py:75-77 | every line of every block of every page is among the flattened lines |
| OcrServer.LineInBlocks | ocr_model/ocr_server.py:76-77 | every line of every block is among a page's flattened lines |
| OcrServer.AllLinesAppend | ocr_model/ocr_server.py:75-77 | flattening two runs of pages gives the first's lines followed by the second's |
| OcrServer.LineTextsInFullText | ocr_model/ocr_server.py:74-86 | in a successful OCR response, the k-th line entry renders the k-th recognised line and the full text contains its text |
| OcrServer.LineEntryFacts | ocr_model/ocr_server.py:78-79 | a line's text contains each of its words; a line without words has empty text and confidence 0; word confidences in [0, 1] give a line confidence in [0, 1] |
| Text.Strip | app_integrated.py:461 | the result has no white space at either end, occurs in the input with only white space around it, and is empty iff the input is blank |
| Text.StripKeepsInner | vosk_stt_service.py:74 | stripping keeps every substring that has no white space at its ends |
| Text.RemoveFenceLeavesNone | app_integrated.py:462 | deleting every triple backtick leaves none |
| Text.JoinContainsPart | ocr_model/ocr_server.py:78-86 | a join contains each of its parts |
| Text.NatToStringRoundTrip | app_integrated.py:482 | a count's decimal rendering reads back as the count |

## Left out

- **UI and bootstrapping.** The Streamlit widgets and session bootstrapping are not modelled:
  - `display_sidebar`, `display_chat_history`, `display_file_uploader`, `display_voice_input`;
  - `initialize_session`, apart from the initial field values in `SessionState.Session.constructor`;
  - the main script bodies;
  - `st.error`, `st.rerun` and `st.stop`.

  A turn ends where these are called.
- **The completion service.** The remote model is an oracle from the chat's system instruction, the accepted context and a message to a reply or an error. A cached chat answers with the instruction it was created with, so a later edit of the sidebar prompt does not reach it. Text from `response.text` is the reply; the API's own retry and streaming behaviour is not modelled.
- **The DuckDB engine.** The engine is not modelled. `db_utils.get_csv_schema` and `db_utils.execute_csv_query`, which the integrated app calls, are not defined in db_utils.py; they are not part of this model and appear as oracles.
  - The rewrite of `csv_data` to the staged file is not modelled.
  - Query cells reach the formatter already rendered as text (`str(val)` is not modelled).
- DbUtils.History: `ORDER BY timestamp` leaves rows with equal timestamps in an unspecified order. The model orders them by storage order (a stable sort). The contract of `History` itself states only ordering and contents, which holds for any tie order; the lemmas below about the last row do not.
- DbUtils.HistoryAfterAppend: assumes the new row is strictly newer than every stored row. With an equal timestamp the engine may order the new row before an older one, so nothing is promised about where it lands.
- AppUi.ReplaySkipsInFlightTurn: promises the replay only when the user's row is strictly newer than every stored row, for the same reason.
- AppUi.HandleUserInput: the replay clause about a newly primed chat is stated only for a user timestamp strictly later than every stored row's.
- AppIntegrated.IntegratedTurnReplayedInFull: assumes strictly increasing timestamps (stored rows, then the user row, then the assistant row). The source takes the two timestamps from two separate `datetime.now()` calls (app_integrated.py:571 and app_integrated.py:580). If they are equal, the engine may order the assistant row first; the user row then ends the history, and a later priming, which drops the last record, leaves out this turn's user message.
- **HTTP, files and servers.** None of these is modelled. The clients are oracles from the uploaded file to a reply or an error message; a non-200 status and an unsuccessful JSON body are both such an error.
  - the health check, `requests.post` and the temporary files;
  - `save_csv_to_disk`, beyond the path it returns (`uploads/<session>/<name>`, without `os.path.join`'s handling of absolute names);
  - the `output.json` write;
  - Flask routing, `jsonify`, `app.run` and `/health`.
- AppUi.ConvertCsvToJson, AppIntegrated.ConvertCsvToJson: `json.dumps` is an oracle over the row table, so the JSON text itself is not described; UTF-8 decoding and CSV parsing are the caller's `records`.
- **Floating point.** Confidences are exact reals. The mean is modelled, but Python's float rounding and `round(confidence, 3)` in the OCR server are not.
- **Other services.** `transcribe_audio_vosk_realtime` is an endless microphone loop and is not modelled. Nor are the whisper services and `ocr_model/test_ocr.py`.
- **Model loading.** Model loading in vosk and doctr is reduced to the at-most-once cache; `modelPresent`, `detectionPresent` and `recognitionPresent` stand for the `os.path.exists` checks.
- VoskStt.TranscribeAudioVosk: the recogniser's JSON answers are already decoded (an `Option` phrase per accepted chunk, the final text); errors inside `json.loads` or the recogniser are not modelled. `wf.close()` and the file handle left open on an error path are not modelled.
- AppIntegrated.ProcessFile: failures of the PDF reader, of UTF-8 decoding, of the CSV parser, of `Image.open` and of `save_csv_to_disk` are not modelled; the readers' outputs are given as values.
- AppUi.ProcessFile: failures of the PDF reader, of UTF-8 decoding, of CSV parsing and of `Image.open` are not modelled; the readers' outputs are given as values.
- OcrServer.PerformOcr: image decoding and recognition are one oracle from the uploaded bytes to pages or an error; errors raised while saving the temporary file are not modelled.
- **Character encoding.** app_integrated.py's warning, cross-mark and chart emoji appear in the source as mis-decoded UTF-8 (for example `‚ö†Ô∏è`). The model uses the characters evidently intended, U+26A0 U+FE0F, U+274C and U+1F4CA.
- App.GenerateResponse, AppIntegrated.AnswerFromChat: the message parts are built before the chat lookup rather than after it. The lookup changes only the cached handle, which the parts do not read, so nothing observable differs.
- AppIntegrated.HandleUserInput: the exact message sent to an already cached chat and that chat's record of sends are not restated here; `AppIntegrated.GenerateResponse` states them, and `HandleUserInput` states that the cached handle is kept.
- AppIntegrated.ConvertCsvToJson: `max_rows` is a natural number. Python would also accept a negative limit, which truncates before the first row; that case is not modelled.
- **Where the code and the system's design description disagree.** The model follows the code in each case:
  - The description rejects an attachment of an unsupported media type. Both `process_file`s return empty values for it instead (`AppIntegrated.ProcessFile`, `AppUi.ProcessFile`).
  - The description aborts the turn when a CSV cannot be read. The code stores the placeholder `[CSV upload failed]` and binds no table.
  - The description keeps a table binding across turns until it is replaced. The integrated `handle_user_input` clears `csv_info` together with the other attachment fields after every turn, successful or not (`AppIntegrated.HandleUserInput`).
  - The description stores nothing for a failed turn. The classic app stores the user's row before generating, so a failed turn leaves that row (`AppUi.HandleUserInput`).
  - The description rewrites a placeholder table name to the staged path. That happens in code that is not part of this model, so no rewrite is modelled.
  - The description has an unreachable store fail with a persistence error. The model's store is always reachable; only the role check can make an insert fail.
