/**
 * The classic app's turn handling and attachment processing: the user's
 * message is stored before the reply is generated, and an attachment is
 * turned into text context (PDF page text, CSV rows as JSON) or an image.
 */
module AppUi {
  import opened Wrappers
  import opened Text
  import opened DbUtils
  import opened Gemini
  import opened SessionState
  import opened ChatSession
  import App

  /** `json.dumps(data, indent=2)`; the serialiser itself is a parameter of the model. */
  type Dumps = map<nat, CsvRecord> -> string

  /** The dictionary `convert_csv_to_json` fills: row number to row, for every row. */
  function CsvTable(records: seq<CsvRecord>): map<nat, CsvRecord>
  {
    map i: nat | i < |records| :: records[i]
  }

  /** `convert_csv_to_json(csv_file)`: every data row under its position, none dropped. */
  method ConvertCsvToJson(records: seq<CsvRecord>, dumps: Dumps) returns (json: string, data: map<nat, CsvRecord>)
    ensures forall i: nat :: i in data <==> i < |records|
    ensures forall i :: 0 <= i < |records| ==> data[i] == records[i]
    ensures data == CsvTable(records)
    ensures json == dumps(data)
  {
    data := map[];
    var i := 0;
    while i < |records|
      invariant 0 <= i <= |records|
      invariant forall k: nat :: k in data <==> k < i
      invariant forall k :: 0 <= k < i ==> data[k] == records[k]
    {
      data := data[i := records[i]];
      i := i + 1;
    }
    json := dumps(data);
  }

  /** The image types the classic app accepts. */
  const ImageTypes: seq<string> := ["image/png", "image/jpeg", "image/jpg"]

  /**
   * `process_file(uploaded_file)`: the text context and image of an attachment.
   * `pages` are the page texts the PDF reader extracts; `records` are the rows
   * the CSV reader yields.
   */
  method ProcessFile(file: UploadedFile, pages: seq<string>, records: seq<CsvRecord>, dumps: Dumps)
    returns (fileContext: string, imageData: Option<Image>)
    ensures file.mediaType == "application/pdf" ==> fileContext == Concat(pages) && imageData.None?
    ensures file.mediaType == "text/csv" ==> fileContext == dumps(CsvTable(records)) && imageData.None?
    ensures file.mediaType in ImageTypes ==>
      fileContext == "[Image: " + file.name + "]" && imageData == Some(Image(file.bytes))
    ensures file.mediaType !in ["application/pdf", "text/csv"] + ImageTypes ==> fileContext == "" && imageData.None?
  {
    fileContext := "";
    imageData := None;
    if file.mediaType == "application/pdf" {
      var i := 0;
      while i < |pages|
        invariant 0 <= i <= |pages|
        invariant fileContext == Concat(pages[..i])
      {
        ConcatAppend(pages[..i], [pages[i]]);
        assert pages[..i + 1] == pages[..i] + [pages[i]];
        fileContext := fileContext + pages[i];
        i := i + 1;
      }
      assert pages[..i] == pages;
    } else if file.mediaType == "text/csv" {
      var json, _ := ConvertCsvToJson(records, dumps);
      fileContext := json;
    } else if file.mediaType in ImageTypes {
      imageData := Some(Image(file.bytes));
      fileContext := "[Image: " + file.name + "]";
    }
  }

  /**
   * In the classic app the user's row is stored before the chat is primed; when
   * it is the newest row, priming replays exactly the history before the turn.
   */
  lemma ReplaySkipsInFlightTurn(rows: seq<Row>, u: Row)
    ensures (forall i :: 0 <= i < |rows| ==> rows[i].timestamp < u.timestamp) ==>
      Primed(rows + [u], u.sessionId) == UserMessages(History(rows, u.sessionId))
  {
    if forall i :: 0 <= i < |rows| ==> rows[i].timestamp < u.timestamp {
      HistoryAfterAppend(rows, u, u.sessionId);
      InFlightUserNotReplayed(History(rows, u.sessionId), u);
    }
  }

  /** The first half of a turn: the user's entry and row, naming the attachment when there is one. */
  method RecordUserTurn(session: Session, store: Store, prompt: string, userTime: nat)
    requires session.messages.Some?
    modifies session`messages, store
    ensures var content := UserContent(session.uploadedFile, prompt);
      var has := session.uploadedFile.Some?;
      session.messages == Some(old(session.messages).value + [Entry(User, content, has)]) &&
      store.rows == old(store.rows) + [Row(session.sessionId, userTime, User, content, has)]
  {
    var hasAttachment := session.uploadedFile.Some?;
    var userMessage := UserContent(session.uploadedFile, prompt);
    session.messages := Some(session.messages.value + [Entry(User, userMessage, hasAttachment)]);
    var _ := store.SaveMessage(session.sessionId, userTime, "user", userMessage, hasAttachment);
  }

  /** A successful turn's reply: its entry and row; the attachment is then cleared. */
  method RecordReply(session: Session, store: Store, reply: string, assistantTime: nat)
    requires session.messages.Some?
    modifies session`messages, session`uploadedFile, session`fileContext, session`imageData, store
    ensures session.messages == Some(old(session.messages).value + [Entry(Assistant, reply, false)])
    ensures store.rows == old(store.rows) + [Row(session.sessionId, assistantTime, Assistant, reply, false)]
    ensures session.uploadedFile.None? && session.fileContext == "" && session.imageData.None?
  {
    session.messages := Some(session.messages.value + [Entry(Assistant, reply, false)]);
    var _ := store.SaveMessage(session.sessionId, assistantTime, "assistant", reply, false);
    session.uploadedFile := None;
    session.fileContext := "";
    session.imageData := None;
  }

  /**
   * The second half of a turn: the reply is generated and, only when that
   * succeeds, recorded, after which the attachment is cleared.
   */
  method Respond(session: Session, store: Store, prompt: string, assistantTime: nat, service: Service)
    returns (r: Result<string, string>)
    requires session.messages.Some?
    modifies session`messages, session`geminiChat, session`uploadedFile, session`fileContext, session`imageData
    modifies store, session.CachedChat()
    ensures r.Success? ==>
      store.rows == old(store.rows) + [Row(session.sessionId, assistantTime, Assistant, r.value, false)] &&
      session.messages == Some(old(session.messages).value + [Entry(Assistant, r.value, false)]) &&
      session.uploadedFile.None? && session.fileContext == "" && session.imageData.None?
    ensures r.Failure? ==>
      store.rows == old(store.rows) && session.messages == old(session.messages) &&
      session.uploadedFile == old(session.uploadedFile) && session.fileContext == old(session.fileContext) &&
      session.imageData == old(session.imageData)
    ensures old(session.geminiChat).Some? ==> session.geminiChat == old(session.geminiChat)
    ensures old(session.geminiChat).None? && session.geminiChat.Some? ==>
      session.geminiChat.value.sent ==
        Primed(old(store.rows), session.sessionId) +
        [App.MessageParts(prompt, old(session.fileContext), old(session.imageData))]
  {
    r := App.GenerateResponse(session, store, prompt, service);
    ghost var chat := session.CachedChat();
    ghost var sent := if chat != null then chat.sent else [];
    assert chat != null ==> chat as object != store && chat as object != session;
    if r.Success? {
      RecordReply(session, store, r.value, assistantTime);
    }
    assert chat != null ==> chat.sent == sent;
  }

  /**
   * `handle_user_input(prompt, generate_response)`: the user's entry and row are
   * stored first; the reply, its entry and row follow only when generation
   * succeeds, and only then is the attachment cleared.
   */
  method HandleUserInput(session: Session, store: Store, prompt: string, userTime: nat, assistantTime: nat,
                         service: Service)
    returns (r: Result<string, string>)
    requires session.messages.Some?
    modifies session`messages, session`geminiChat, session`uploadedFile, session`fileContext, session`imageData
    modifies store, session.CachedChat()
    ensures var content := UserContent(old(session.uploadedFile), prompt);
      var has := old(session.uploadedFile).Some?;
      r.Success? ==>
        store.rows == old(store.rows) + [Row(session.sessionId, userTime, User, content, has)] +
          [Row(session.sessionId, assistantTime, Assistant, r.value, false)]
    ensures var content := UserContent(old(session.uploadedFile), prompt);
      var has := old(session.uploadedFile).Some?;
      r.Success? ==>
        session.messages == Some(old(session.messages).value + [Entry(User, content, has)] + [Entry(Assistant, r.value, false)])
    ensures r.Success? ==> session.uploadedFile.None? && session.fileContext == "" && session.imageData.None?
    ensures var content := UserContent(old(session.uploadedFile), prompt);
      var has := old(session.uploadedFile).Some?;
      r.Failure? ==>
        store.rows == old(store.rows) + [Row(session.sessionId, userTime, User, content, has)] &&
        session.messages == Some(old(session.messages).value + [Entry(User, content, has)])
    ensures r.Failure? ==>
      session.uploadedFile == old(session.uploadedFile) && session.fileContext == old(session.fileContext) &&
      session.imageData == old(session.imageData)
    ensures old(session.geminiChat).Some? ==> session.geminiChat == old(session.geminiChat)
    ensures (old(session.geminiChat).None? && session.geminiChat.Some? &&
             forall i :: 0 <= i < |old(store.rows)| ==> old(store.rows)[i].timestamp < userTime) ==>
      session.geminiChat.value.sent ==
        UserMessages(History(old(store.rows), session.sessionId)) +
        [App.MessageParts(prompt, old(session.fileContext), old(session.imageData))]
  {
    ghost var before := store.rows;
    ghost var u := Row(session.sessionId, userTime, User, UserContent(session.uploadedFile, prompt),
                       session.uploadedFile.Some?);
    RecordUserTurn(session, store, prompt, userTime);
    assert store.rows == before + [u];
    r := Respond(session, store, prompt, assistantTime, service);
    ReplaySkipsInFlightTurn(before, u);
  }
}
