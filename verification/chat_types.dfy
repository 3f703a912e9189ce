/** Chat messages and context items shared by the stream driver, the tool-call thunk and the RAG provider. */
module ChatTypes {
  import opened Wrappers

  datatype Role = User | Assistant | System | Tool | Thinking

  /** One part of a multi-part message: text, or anything else (an image). */
  datatype MessagePart = TextPart(text: string) | OtherPart

  /** A message body is either plain text or a list of parts. */
  datatype Content = Text(text: string) | Parts(parts: seq<MessagePart>)

  /** `ChatMessage`: `toolCallId` is set on tool-role messages. */
  datatype ChatMessage = ChatMessage(role: Role, content: Content, toolCallId: Option<string>)

  /** `ContextItem`: a named piece of retrieved or tool-produced text. */
  datatype ContextItem = ContextItem(name: string, description: string, content: string, uri: Option<string>)

  /** JavaScript truthiness of an optional string: present and non-empty. */
  predicate Truthy(s: Option<string>) {
    s.Some? && s.value != ""
  }
}
