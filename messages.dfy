/** The shape of a chat message as the AI SDK stores it in a transcript: the fields the
    core reads. A transcript is a `seq<Message>`, stored as a JSON column. */
module Messages {
  import opened Wrappers

  datatype Role = System | User | Assistant | Data

  /** One entry of `message.parts`: its `type` tag and, when that key is present, its
      `text`. */
  datatype Part = Part(kind: string, text: Option<string>)

  /** An entry of an array-valued `content`: a string, an object (with or without a
      `text` key), or anything else (null, a number, ...). */
  datatype ContentItem = StringItem(s: string) | ObjectItem(text: Option<string>) | OtherItem

  /** `message.content` is a string, an array, or missing / of another type. */
  datatype Content = StringContent(s: string) | ArrayContent(items: seq<ContentItem>) | NoContent

  datatype Message = Message(id: string, role: Role, content: Content, parts: Option<seq<Part>>)
}
