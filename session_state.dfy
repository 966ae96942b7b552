/**
 * The per-browser-session state the Streamlit apps keep in `st.session_state`,
 * and the values an attachment leaves in it.
 */
module SessionState {
  import opened Wrappers
  import opened DbUtils
  import opened Gemini

  /** A file handed over by the uploader: its name, declared media type and content. */
  datatype UploadedFile = UploadedFile(name: string, mediaType: string, bytes: seq<bv8>)

  /** A data row as `csv.DictReader` yields it: header name to cell text. */
  type CsvRecord = map<string, string>

  /** One column of an inferred CSV schema: `{"name": ..., "type": ...}`. */
  datatype Column = Column(name: string, typ: string)

  /** The active table binding: `{"path": ..., "filename": ..., "schema": ...}`. */
  datatype CsvInfo = CsvInfo(path: string, filename: string, schema: seq<Column>)

  /** One recognised line as the OCR server reports it. */
  datatype OcrLine = OcrLine(text: string, confidence: real)

  /** The OCR client's result: `{"text": ..., "lines": ..., "confidence": ...}`. */
  datatype OcrResult = OcrResult(text: string, lines: seq<OcrLine>, confidence: real)

  /** One entry of the in-memory `messages` list. */
  datatype Entry = Entry(role: Role, content: string, hasAttachment: bool)

  /**
   * The text stored for the user's side of a turn: the prompt, behind a line
   * naming the attachment when one is present (both apps word it the same).
   */
  function UserContent(uploaded: Option<UploadedFile>, prompt: string): (r: string)
    ensures |r| >= |prompt| && r[|r| - |prompt|..] == prompt
    ensures r == prompt <==> uploaded.None?
    ensures uploaded.Some? ==> r[..|r| - |prompt|] == "[Attached: " + uploaded.value.name + "]\n"
  {
    if uploaded.Some? then "[Attached: " + uploaded.value.name + "]\n" + prompt else prompt
  }

  /** `st.session_state` of one browser session. */
  class Session {
    const sessionId: string
    var systemPrompt: string
    /** The cached chat handle, `"gemini_chat"`. */
    var geminiChat: Option<Chat>
    /** The in-memory history; `None` once the key has been deleted to force a reload. */
    var messages: Option<seq<Entry>>
    var uploadedFile: Option<UploadedFile>
    var fileContext: string
    var imageData: Option<Image>
    var csvInfo: Option<CsvInfo>
    var audioTranscription: Option<string>
    var ocrResult: Option<OcrResult>
    var imageProcessingMode: string

    /** A session as `initialize_session` leaves it, given the messages it loaded. */
    constructor (sessionId: string, loaded: seq<Entry>)
      ensures this.sessionId == sessionId && messages == Some(loaded)
      ensures geminiChat.None? && systemPrompt == "You are a helpful AI assistant."
      ensures AttachmentsCleared() && imageProcessingMode == "vision"
    {
      this.sessionId := sessionId;
      systemPrompt := "You are a helpful AI assistant.";
      geminiChat := None;
      messages := Some(loaded);
      uploadedFile := None;
      fileContext := "";
      imageData := None;
      csvInfo := None;
      audioTranscription := None;
      ocrResult := None;
      imageProcessingMode := "vision";
    }

    /** None of the six turn-scoped attachment fields holds anything. */
    ghost predicate AttachmentsCleared()
      reads this
    {
      uploadedFile.None? && fileContext == "" && imageData.None? &&
      csvInfo.None? && audioTranscription.None? && ocrResult.None?
    }

    /** The chat object the session caches, or `null`: what sending to it may change. */
    function CachedChat(): Chat?
      reads this`geminiChat
    {
      if geminiChat.Some? then geminiChat.value else null
    }
  }
}
