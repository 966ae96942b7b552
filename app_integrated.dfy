/**
 * The integrated app: attachments are dispatched by media type (PDF text, a
 * CSV bound as a queryable table, an image for vision or OCR, audio
 * transcribed), a turn is answered from the bound table or from the chat, and
 * the user and assistant rows are stored only once the reply exists.
 */
module AppIntegrated {
  import opened Wrappers
  import opened Text
  import opened DbUtils
  import opened Gemini
  import opened SessionState
  import opened ChatSession
  import opened CsvQa
  import opened Average
  import App

  // ---------------------------------------------------------------------------
  // convert_csv_to_json
  // ---------------------------------------------------------------------------

  /** A key of the dictionary `convert_csv_to_json` fills: a row number, or `"warning"`. */
  datatype JsonKey = Index(i: nat) | Warning

  /** A value of that dictionary: a data row, or the truncation note. */
  datatype JsonValue = RowValue(row: CsvRecord) | Note(text: string)

  /** `json.dumps(data, indent=2)`; the serialiser itself is a parameter of the model. */
  type JsonDumps = map<JsonKey, JsonValue> -> string

  /** The default row limit of `convert_csv_to_json`. */
  const DefaultMaxRows: nat := 100

  /** The note stored under `"warning"` when rows were dropped. */
  function TruncationWarning(maxRows: nat): string
  {
    "CSV truncated: only first " + NatToString(maxRows) + " rows processed"
  }

  /**
   * `convert_csv_to_json(csv_file, max_rows)`: the first `maxRows` data rows
   * under their positions, and the truncation note exactly when a further
   * row exists.
   */
  method ConvertCsvToJson(records: seq<CsvRecord>, maxRows: nat, dumps: JsonDumps)
    returns (json: string, data: map<JsonKey, JsonValue>)
    ensures forall i: nat :: Index(i) in data <==> i < |records| && i < maxRows
    ensures forall i :: 0 <= i < |records| && i < maxRows ==> data[Index(i)] == RowValue(records[i])
    ensures Warning in data <==> |records| > maxRows
    ensures Warning in data ==> data[Warning] == Note(TruncationWarning(maxRows))
    ensures json == dumps(data)
  {
    data := map[];
    var i := 0;
    while i < |records|
      invariant 0 <= i <= |records| && i <= maxRows
      invariant forall k: nat :: Index(k) in data <==> k < i
      invariant forall k :: 0 <= k < i ==> data[Index(k)] == RowValue(records[k])
      invariant Warning !in data
    {
      if i >= maxRows {
        data := data[Warning := Note(TruncationWarning(maxRows))];
        break;
      }
      data := data[Index(i) := RowValue(records[i])];
      i := i + 1;
    }
    json := dumps(data);
  }

  // ---------------------------------------------------------------------------
  // The model servers, seen from the app
  // ---------------------------------------------------------------------------

  /** What the OCR server answered for an image: its text and lines. */
  datatype OcrReply = OcrReply(text: string, lines: seq<OcrLine>)

  /** The OCR request: the server's answer, or the message of whatever went wrong. */
  type OcrClient = UploadedFile -> Result<OcrReply, string>

  /** The transcription request: the transcription, or the message of whatever went wrong. */
  type WhisperClient = UploadedFile -> Result<string, string>

  function LineConfidences(lines: seq<OcrLine>): seq<real>
  {
    seq(|lines|, i requires 0 <= i < |lines| => lines[i].confidence)
  }

  /** Line confidences between 0 and 1 average to a value between 0 and 1. */
  lemma MeanConfidenceInUnitRange(lines: seq<OcrLine>)
    ensures (forall i :: 0 <= i < |lines| ==> 0.0 <= lines[i].confidence <= 1.0) ==>
      0.0 <= Mean(LineConfidences(lines)) <= 1.0
  {
    var confidences := LineConfidences(lines);
    if lines != [] && forall i :: 0 <= i < |lines| ==> 0.0 <= lines[i].confidence <= 1.0 {
      MeanBounds(confidences, 0.0, 1.0);
    }
  }

  /**
   * `extract_text_via_ocr_server(image_file)`: the server's text and lines with
   * their mean confidence (0 without lines); every failure is re-raised as an
   * OCR server error.
   */
  function ExtractTextViaOcrServer(file: UploadedFile, ocr: OcrClient): (r: Result<OcrResult, string>)
    ensures r.Failure? <==> ocr(file).Failure?
    ensures r.Failure? ==> r.error == "OCR server error: " + ocr(file).error
    ensures r.Success? ==> r.value.text == ocr(file).value.text && r.value.lines == ocr(file).value.lines
    ensures r.Success? && r.value.lines == [] ==> r.value.confidence == 0.0
    ensures r.Success? && (forall i :: 0 <= i < |r.value.lines| ==> 0.0 <= r.value.lines[i].confidence <= 1.0) ==>
      0.0 <= r.value.confidence <= 1.0
  {
    match ocr(file)
    case Failure(e) => Failure("OCR server error: " + e)
    case Success(reply) =>
      MeanConfidenceInUnitRange(reply.lines);
      Success(OcrResult(reply.text, reply.lines, Mean(LineConfidences(reply.lines))))
  }

  /** `transcribe_audio_via_server(audio_file)`: every failure is re-raised as a Whisper server error. */
  function TranscribeAudioViaServer(file: UploadedFile, whisper: WhisperClient): (r: Result<string, string>)
    ensures r.Failure? <==> whisper(file).Failure?
    ensures r.Failure? ==> r.error == "Whisper server error: " + whisper(file).error
    ensures r.Success? ==> r.value == whisper(file).value
  {
    match whisper(file)
    case Failure(e) => Failure("Whisper server error: " + e)
    case Success(t) => Success(t)
  }

  // ---------------------------------------------------------------------------
  // process_file
  // ---------------------------------------------------------------------------

  /** The five values `process_file` returns. */
  datatype Attachment = Attachment(fileContext: string, imageData: Option<Image>, csvInfo: Option<CsvInfo>,
                                   audioTranscription: Option<string>, ocrResult: Option<OcrResult>)

  /** An attachment is of one kind: a bound table, a transcription or an OCR reading, never two. */
  predicate OneKind(a: Attachment)
  {
    (a.csvInfo.Some? ==> a.audioTranscription.None? && a.ocrResult.None? && a.imageData.None?) &&
    (a.audioTranscription.Some? ==> a.ocrResult.None? && a.imageData.None?) &&
    (a.ocrResult.Some? ==> a.imageData.Some?)
  }

  /** The image types the integrated app accepts. */
  const IntegratedImageTypes: seq<string> := ["image/png", "image/jpeg", "image/jpg", "image/webp"]

  /** The audio types it transcribes. */
  const AudioTypes: seq<string> := ["audio/mpeg", "audio/wav", "audio/mp3", "audio/x-wav"]

  /** The context of a PDF none of whose pages yields text. */
  const PdfWithoutText: string := "[PDF uploaded but no text could be extracted]"

  /** `db_utils.get_csv_schema(path)`: the inferred columns, or the reader's error. */
  type SchemaReader = string -> Result<seq<Column>, string>

  /** Where `save_csv_to_disk` puts an uploaded table: `uploads/<session>/<name>`. */
  function CsvPath(sessionId: string, name: string): string
  {
    "uploads/" + sessionId + "/" + name
  }

  lemma PdfSentinelNotBlank()
    ensures !IsBlank(PdfWithoutText)
  {
    assert PdfWithoutText == "[" + PdfWithoutText[1..];
    assert PdfWithoutText[0] == '[';
  }

  /**
   * `process_file(uploaded_file, session_id, ocr_mode)` of the integrated app.
   * `pages` are the page texts the PDF reader extracts (`""` for a page
   * without text). Only the OCR and transcription requests can fail, and
   * their failure is the whole call's.
   */
  method ProcessFile(file: UploadedFile, sessionId: string, ocrMode: string, pages: seq<string>,
                     readSchema: SchemaReader, ocr: OcrClient, whisper: WhisperClient)
    returns (r: Result<Attachment, string>)
    ensures r.Success? ==> OneKind(r.value)
    ensures file.mediaType == "application/pdf" ==>
      r.Success? && !IsBlank(r.value.fileContext) &&
      r == Success(Attachment(if IsBlank(Concat(pages)) then PdfWithoutText else Concat(pages), None, None, None, None))
    ensures file.mediaType == "text/csv" ==>
      var path := CsvPath(sessionId, file.name);
      (readSchema(path).Success? ==>
         r == Success(Attachment("[CSV uploaded: " + file.name + "]", None,
                                 Some(CsvInfo(path, file.name, readSchema(path).value)), None, None))) &&
      (readSchema(path).Failure? ==> r == Success(Attachment("[CSV upload failed]", None, None, None, None)))
    ensures file.mediaType in IntegratedImageTypes ==>
      (r.Failure? <==> ocrMode == "ocr" && ocr(file).Failure?) &&
      (r.Failure? ==> r.error == "OCR server error: " + ocr(file).error) &&
      (r.Success? ==> r.value.imageData == Some(Image(file.bytes)))
    ensures file.mediaType in IntegratedImageTypes && ocrMode == "ocr" && r.Success? ==>
      r.value.ocrResult == Some(ExtractTextViaOcrServer(file, ocr).value) &&
      r.value.fileContext == "[OCR extracted from " + file.name + "]:\n" + ocr(file).value.text
    ensures file.mediaType in IntegratedImageTypes && ocrMode != "ocr" ==>
      r.Success? && r.value.ocrResult.None? && r.value.fileContext == "[Image: " + file.name + "]"
    ensures file.mediaType in AudioTypes ==>
      (r.Failure? <==> whisper(file).Failure?) &&
      (r.Failure? ==> r.error == "Whisper server error: " + whisper(file).error) &&
      (r.Success? ==>
         r.value.audioTranscription == Some(whisper(file).value) && r.value.imageData.None? &&
         r.value.fileContext == "[Audio transcription from " + file.name + "]:\n" + whisper(file).value)
    ensures file.mediaType !in ["application/pdf", "text/csv"] + IntegratedImageTypes + AudioTypes ==>
      r == Success(Attachment("", None, None, None, None))
  {
    var fileContext := "";
    var imageData: Option<Image> := None;
    var csvInfo: Option<CsvInfo> := None;
    var audioTranscription: Option<string> := None;
    var ocrResult: Option<OcrResult> := None;
    if file.mediaType == "application/pdf" {
      for i := 0 to |pages|
        invariant fileContext == Concat(pages[..i])
      {
        ConcatAppend(pages[..i], [pages[i]]);
        assert pages[..i + 1] == pages[..i] + [pages[i]];
        if pages[i] != "" {
          fileContext := fileContext + pages[i];
        }
      }
      assert pages[..|pages|] == pages;
      if IsBlank(fileContext) {
        PdfSentinelNotBlank();
        fileContext := PdfWithoutText;
      }
    } else if file.mediaType == "text/csv" {
      var path := CsvPath(sessionId, file.name);
      var schema := readSchema(path);
      if schema.Success? {
        csvInfo := Some(CsvInfo(path, file.name, schema.value));
        fileContext := "[CSV uploaded: " + file.name + "]";
      } else {
        fileContext := "[CSV upload failed]";
      }
    } else if file.mediaType in IntegratedImageTypes {
      imageData := Some(Image(file.bytes));
      if ocrMode == "ocr" {
        var extracted := ExtractTextViaOcrServer(file, ocr);
        if extracted.Failure? {
          return Failure(extracted.error);
        }
        ocrResult := Some(extracted.value);
        fileContext := "[OCR extracted from " + file.name + "]:\n" + extracted.value.text;
      } else {
        fileContext := "[Image: " + file.name + "]";
      }
    } else if file.mediaType in AudioTypes {
      var transcribed := TranscribeAudioViaServer(file, whisper);
      if transcribed.Failure? {
        return Failure(transcribed.error);
      }
      audioTranscription := Some(transcribed.value);
      fileContext := "[Audio transcription from " + file.name + "]:\n" + transcribed.value;
    }
    r := Success(Attachment(fileContext, imageData, csvInfo, audioTranscription, ocrResult));
  }

  // ---------------------------------------------------------------------------
  // generate_response
  // ---------------------------------------------------------------------------

  /** The prefix every failure of `generate_response` carries. */
  const GeminiErrorLead: string := "\U{26A0}\U{FE0F} Gemini API Error: "

  function GeminiError(e: string): string
  {
    GeminiErrorLead + e
  }

  /** A reply, with its failure re-raised as a Gemini API error. */
  function Reported(r: Result<string, string>): Result<string, string>
  {
    if r.Success? then r else Failure(GeminiError(r.error))
  }

  /** The image sent along: only in vision mode. */
  function VisionImage(imageData: Option<Image>, mode: string): (image: Option<Image>)
    ensures image.Some? <==> imageData.Some? && mode == "vision"
    ensures image.Some? ==> image == imageData
  {
    if mode == "vision" then imageData else None
  }

  /** The message the integrated app sends for one turn in chat mode. */
  function ChatParts(userMessage: string, fileContext: string, imageData: Option<Image>, mode: string): Message
  {
    App.MessageParts(userMessage, fileContext, VisionImage(imageData, mode))
  }

  /**
   * The CSV branch of `generate_response`: the generated query is run and the
   * results formatted; the chat is not touched.
   */
  method AnswerFromCsv(question: string, info: CsvInfo, generate: Generate, execute: Executor)
    returns (r: Result<string, string>)
    ensures r == CsvReply(question, info, generate, execute)
  {
    var sql := GenerateSqlQuery(question, info.schema, generate);
    if sql.Failure? {
      return Failure(sql.error);
    }
    var outcome := execute(info.path, sql.value);
    if outcome.QueryOk? {
      var text := FormatQueryResults(sql.value, outcome.columns, outcome.rows);
      return Success(text);
    }
    return Success(ExecutionFailedText(outcome.error, sql.value));
  }

  /**
   * The chat branch of `generate_response`: the user's text, the text context
   * when there is one, and the image only in vision mode, sent to the cached
   * or newly primed chat.
   */
  method AnswerFromChat(session: Session, store: Store, userMessage: string, service: Service)
    returns (r: Result<string, string>)
    modifies session`geminiChat, session.CachedChat()
    ensures old(session.geminiChat).Some? ==>
      var c := old(session.geminiChat).value;
      var parts := ChatParts(userMessage, old(session.fileContext), old(session.imageData), old(session.imageProcessingMode));
      session.geminiChat == old(session.geminiChat) &&
      r == c.service(c.systemInstruction, old(c.history), parts) &&
      c.sent == old(c.sent) + [parts]
    ensures old(session.geminiChat).None? && session.geminiChat.Some? ==>
      var c := session.geminiChat.value;
      var replayed := Primed(old(store.rows), session.sessionId);
      fresh(c) && c.systemInstruction == session.systemPrompt && c.service == service &&
      r == service(session.systemPrompt, replayed, ChatParts(userMessage, old(session.fileContext), old(session.imageData), old(session.imageProcessingMode))) &&
      c.sent == replayed + [ChatParts(userMessage, old(session.fileContext), old(session.imageData), old(session.imageProcessingMode))]
    ensures session.geminiChat.None? ==> r.Failure?
  {
    ghost var parts := ChatParts(userMessage, session.fileContext, session.imageData, session.imageProcessingMode);
    var messageParts := [TextPart(userMessage)];
    if session.fileContext != "" {
      messageParts := messageParts + [TextPart(session.fileContext)];
    }
    if session.imageData.Some? && session.imageProcessingMode == "vision" {
      messageParts := messageParts + [ImagePart(session.imageData.value)];
    }
    assert messageParts == parts;
    var chat := GetOrCreateChatSession(session, store, session.sessionId, session.systemPrompt, service);
    if chat.Failure? {
      return Failure(chat.error);
    }
    r := chat.value.SendMessage(messageParts);
  }

  /**
   * `generate_response(user_message)` of the integrated app: with a bound
   * table the reply comes from the table and the chat is neither created nor
   * sent anything; otherwise from the chat. Every failure is re-raised as a
   * Gemini API error.
   */
  method GenerateResponse(session: Session, store: Store, userMessage: string, service: Service,
                          generate: Generate, execute: Executor)
    returns (r: Result<string, string>)
    modifies session`geminiChat, session.CachedChat()
    ensures r.Failure? ==> GeminiErrorLead <= r.error
    ensures session.csvInfo == old(session.csvInfo)
    ensures session.csvInfo.Some? ==> session.geminiChat == old(session.geminiChat)
    ensures session.csvInfo.Some? && old(session.geminiChat).Some? ==> unchanged(old(session.geminiChat).value)
    ensures session.csvInfo.Some? ==> r == Reported(CsvReply(userMessage, session.csvInfo.value, generate, execute))
    ensures old(session.geminiChat).Some? ==> session.geminiChat == old(session.geminiChat)
    ensures session.csvInfo.None? && old(session.geminiChat).Some? ==>
      var c := old(session.geminiChat).value;
      var parts := ChatParts(userMessage, old(session.fileContext), old(session.imageData), old(session.imageProcessingMode));
      r == Reported(c.service(c.systemInstruction, old(c.history), parts)) &&
      c.sent == old(c.sent) + [parts]
    ensures session.csvInfo.None? && old(session.geminiChat).None? && session.geminiChat.Some? ==>
      var c := session.geminiChat.value;
      var replayed := Primed(old(store.rows), session.sessionId);
      fresh(c) && c.systemInstruction == session.systemPrompt && c.service == service &&
      r == Reported(service(session.systemPrompt, replayed, ChatParts(userMessage, old(session.fileContext), old(session.imageData), old(session.imageProcessingMode)))) &&
      c.sent == replayed + [ChatParts(userMessage, old(session.fileContext), old(session.imageData), old(session.imageProcessingMode))]
  {
    var reply;
    if session.csvInfo.Some? {
      reply := AnswerFromCsv(userMessage, session.csvInfo.value, generate, execute);
    } else {
      reply := AnswerFromChat(session, store, userMessage, service);
    }
    if reply.Failure? {
      return Failure(GeminiError(reply.error));
    }
    r := reply;
  }

  // ---------------------------------------------------------------------------
  // handle_user_input
  // ---------------------------------------------------------------------------

  /** A successful turn: the user's row, then the assistant's; the history is dropped to be reloaded. */
  method CommitTurn(session: Session, store: Store, userContent: string, hasAttachment: bool, reply: string,
                    userTime: nat, assistantTime: nat)
    modifies session`messages, store
    ensures store.rows == old(store.rows) + [Row(session.sessionId, userTime, User, userContent, hasAttachment)] +
      [Row(session.sessionId, assistantTime, Assistant, reply, false)]
    ensures session.messages.None?
  {
    var _ := store.SaveMessage(session.sessionId, userTime, "user", userContent, hasAttachment);
    var _ := store.SaveMessage(session.sessionId, assistantTime, "assistant", reply, false);
    session.messages := None;
  }

  /** The six attachment fields emptied, as both outcomes of a turn do. */
  method ClearAttachments(session: Session)
    modifies session`uploadedFile, session`fileContext, session`imageData, session`csvInfo
    modifies session`audioTranscription, session`ocrResult
    ensures session.AttachmentsCleared()
  {
    session.uploadedFile := None;
    session.fileContext := "";
    session.imageData := None;
    session.csvInfo := None;
    session.audioTranscription := None;
    session.ocrResult := None;
  }

  /**
   * What follows the reply in `handle_user_input`: the two rows and the
   * history reload only after a reply, the attachment cleared either way.
   */
  method FinishTurn(session: Session, store: Store, userContent: string, hasAttachment: bool,
                    r: Result<string, string>, userTime: nat, assistantTime: nat)
    modifies session`messages, session`uploadedFile, session`fileContext, session`imageData
    modifies session`csvInfo, session`audioTranscription, session`ocrResult, store
    ensures r.Success? ==>
      store.rows == old(store.rows) + [Row(session.sessionId, userTime, User, userContent, hasAttachment)] +
        [Row(session.sessionId, assistantTime, Assistant, r.value, false)] &&
      session.messages.None?
    ensures r.Failure? ==> store.rows == old(store.rows) && session.messages == old(session.messages)
    ensures session.AttachmentsCleared()
    ensures session.geminiChat == old(session.geminiChat)
  {
    if r.Success? {
      CommitTurn(session, store, userContent, hasAttachment, r.value, userTime, assistantTime);
    }
    ClearAttachments(session);
  }

  /**
   * `handle_user_input(prompt)` of the integrated app: the reply is generated
   * first; only when that succeeds are the user's row and the reply's row
   * stored, and the in-memory history dropped to be reloaded. Either way the
   * attachment is cleared; a failed turn stores nothing.
   */
  method HandleUserInput(session: Session, store: Store, prompt: string, userTime: nat, assistantTime: nat,
                         service: Service, generate: Generate, execute: Executor)
    returns (r: Result<string, string>)
    modifies session`messages, session`geminiChat, session`uploadedFile, session`fileContext, session`imageData
    modifies session`csvInfo, session`audioTranscription, session`ocrResult, store, session.CachedChat()
    ensures r.Success? ==>
      store.rows == old(store.rows) +
        [Row(session.sessionId, userTime, User, UserContent(old(session.uploadedFile), prompt),
             old(session.uploadedFile).Some?)] +
        [Row(session.sessionId, assistantTime, Assistant, r.value, false)] &&
      session.messages.None?
    ensures r.Failure? ==>
      store.rows == old(store.rows) && session.messages == old(session.messages) && GeminiErrorLead <= r.error
    ensures session.AttachmentsCleared()
    ensures old(session.geminiChat).Some? || old(session.csvInfo).Some? ==>
      session.geminiChat == old(session.geminiChat)
    ensures old(session.csvInfo).Some? ==>
      r == Reported(CsvReply(prompt, old(session.csvInfo).value, generate, execute))
    ensures old(session.csvInfo).None? && old(session.geminiChat).None? && session.geminiChat.Some? ==>
      session.geminiChat.value.sent == Primed(old(store.rows), session.sessionId) +
        [ChatParts(prompt, old(session.fileContext), old(session.imageData), old(session.imageProcessingMode))]
  {
    var hasAttachment := session.uploadedFile.Some?;
    var userMessage := UserContent(session.uploadedFile, prompt);
    r := GenerateResponse(session, store, prompt, service, generate, execute);
    FinishTurn(session, store, userMessage, hasAttachment, r, userTime, assistantTime);
  }

  /**
   * Every successful turn ends the session's history on the assistant's row,
   * so a chat primed afterwards replays every user message, this turn's
   * included, unlike the classic app's priming right after storing a user row.
   */
  lemma IntegratedTurnReplayedInFull(rows: seq<Row>, u: Row, a: Row)
    requires u.role == User && a.role == Assistant && a.sessionId == u.sessionId
    requires forall i :: 0 <= i < |rows| ==> rows[i].timestamp < u.timestamp
    requires u.timestamp < a.timestamp
    ensures Primed(rows + [u] + [a], u.sessionId) == UserMessages(History(rows, u.sessionId)) + [[TextPart(u.content)]]
  {
    var s := u.sessionId;
    HistoryAfterAppend(rows, u, s);
    var withUser := rows + [u];
    forall i | 0 <= i < |withUser| ensures withUser[i].timestamp < a.timestamp {
      if i < |rows| {
        assert withUser[i] == rows[i];
      }
    }
    HistoryAfterAppend(withUser, a, s);
    var h := History(rows, s) + [u] + [a];
    AssistantTailNotReplayed(h);
    assert DropLast(h) == h[..|h| - 1];
    UserMessagesAppend(History(rows, s), [u]);
    UserMessagesAppend(History(rows, s) + [u], [a]);
  }
}
