/**
 * The remote conversational context of the completion service, seen from
 * the client: a chat created with a system instruction, to which messages
 * are sent one at a time. The remote model itself is an oracle.
 */
module Gemini {
  import opened Wrappers

  /** An opened image (the result of `Image.open` on an uploaded file). */
  datatype Image = Image(bytes: seq<bv8>)

  /** One part of a message: text, or an image for the vision model. */
  datatype Part = TextPart(text: string) | ImagePart(image: Image)

  /** What `send_message` is given: a plain string becomes a one-part message. */
  type Message = seq<Part>

  /**
   * The remote model: its reply to a message, given the chat's system
   * instruction and the messages the context has already accepted, or the
   * error the API raises.
   */
  type Service = (string, seq<Message>, Message) -> Result<string, string>

  /** The model every chat is created with. */
  const ModelName: string := "gemini-2.5-flash"

  /** A chat handle returned by `client.chats.create`. */
  class Chat {
    const model: string
    const systemInstruction: string
    const service: Service
    /** The messages the remote context has accepted, oldest first. */
    var history: seq<Message>
    /** Every message handed to `send_message`, oldest first, whether or not it was accepted. */
    var sent: seq<Message>

    /** `client.chats.create(model=..., config=GenerateContentConfig(system_instruction=...))`. */
    constructor Create(systemInstruction: string, service: Service)
      ensures this.model == ModelName
      ensures this.systemInstruction == systemInstruction && this.service == service
      ensures history == [] && sent == []
    {
      this.model := ModelName;
      this.systemInstruction := systemInstruction;
      this.service := service;
      history := [];
      sent := [];
    }

    /** `chat.send_message(m)`: the reply; the context keeps `m` only when the call succeeds. */
    method SendMessage(m: Message) returns (r: Result<string, string>)
      modifies this
      ensures r == service(systemInstruction, old(history), m)
      ensures history == if r.Success? then old(history) + [m] else old(history)
      ensures sent == old(sent) + [m]
    {
      r := service(systemInstruction, history, m);
      sent := sent + [m];
      if r.Success? {
        history := history + [m];
      }
    }
  }
}
