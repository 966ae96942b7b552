/**
 * The classic app's reply generation: the cached (or newly primed) chat is
 * sent the user's text, the attachment's text context when there is one,
 * and the attached image whenever there is one.
 */
module App {
  import opened Wrappers
  import opened DbUtils
  import opened Gemini
  import opened SessionState
  import opened ChatSession

  /** The message the classic app sends for one turn. */
  function MessageParts(userMessage: string, fileContext: string, imageData: Option<Image>): (parts: Message)
    ensures |parts| == 1 + (if fileContext != "" then 1 else 0) + (if imageData.Some? then 1 else 0)
    ensures parts[0] == TextPart(userMessage)
    ensures fileContext != "" ==> parts[1] == TextPart(fileContext)
    ensures forall i :: 0 <= i < |parts| - 1 ==> parts[i].TextPart?
    ensures imageData.Some? ==> parts[|parts| - 1] == ImagePart(imageData.value)
    ensures imageData.None? ==> parts[|parts| - 1].TextPart?
  {
    var texts := [TextPart(userMessage)] + (if fileContext != "" then [TextPart(fileContext)] else []);
    assert forall i :: 0 <= i < |texts| ==> texts[i].TextPart?;
    texts + (if imageData.Some? then [ImagePart(imageData.value)] else [])
  }

  /** `generate_response(user_message)` of the classic app. */
  method GenerateResponse(session: Session, store: Store, userMessage: string, service: Service)
    returns (r: Result<string, string>)
    modifies session`geminiChat, session.CachedChat()
    ensures old(session.geminiChat).Some? ==>
      var c := old(session.geminiChat).value;
      var parts := MessageParts(userMessage, old(session.fileContext), old(session.imageData));
      session.geminiChat == old(session.geminiChat) &&
      r == c.service(c.systemInstruction, old(c.history), parts) &&
      c.sent == old(c.sent) + [parts] &&
      c.history == old(c.history) + (if r.Success? then [parts] else [])
    ensures old(session.geminiChat).None? && session.geminiChat.Some? ==>
      var c := session.geminiChat.value;
      var parts := MessageParts(userMessage, old(session.fileContext), old(session.imageData));
      var replayed := Primed(old(store.rows), session.sessionId);
      fresh(c) && c.systemInstruction == session.systemPrompt && c.service == service &&
      r == service(session.systemPrompt, replayed, parts) &&
      c.sent == replayed + [parts] &&
      c.history == replayed + (if r.Success? then [parts] else [])
    ensures session.geminiChat.None? ==> r.Failure?
  {
    // The parts read only fields the chat lookup leaves alone, so they are built first.
    ghost var parts := MessageParts(userMessage, session.fileContext, session.imageData);
    var messageParts := [TextPart(userMessage)];
    if session.fileContext != "" {
      messageParts := messageParts + [TextPart(session.fileContext)];
    }
    if session.imageData.Some? {
      messageParts := messageParts + [ImagePart(session.imageData.value)];
    }
    assert messageParts == parts;
    var chat := GetOrCreateChatSession(session, store, session.sessionId, session.systemPrompt, service);
    if chat.Failure? {
      return Failure(chat.error);
    }
    r := chat.value.SendMessage(messageParts);
  }
}
