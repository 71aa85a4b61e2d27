/** The chat document of the chat server: its embedded message schema, its own fields
    with their defaults, the unique (patient, doctor) index and the `pre('save')` hook
    that keeps `lastMessage` in step with the newest message. */
module ChatSchema {
  import opened Common
  import opened Text

  /** One element of a chat's `messages` array, as stored. */
  datatype Message = Message(sender: Id, content: string, timestamp: Time)

  /** The fields handed to `messages.push`; each one may be absent. */
  datatype MessageInput = MessageInput(sender: Option<Id>, content: Option<string>, timestamp: Option<Time>)

  datatype Chat = Chat(
    id: Id,
    patient: Id,
    doctor: Id,
    messages: seq<Message>,
    lastMessage: Time,
    isActive: bool)

  /** What the message schema demands of a stored message: its content is trimmed
      (the `trim` setter) and not empty (`required` rejects the empty string). */
  predicate ValidMessage(m: Message)
    ensures ValidMessage(m) <==> Trim(m.content) == m.content && !AllWhitespace(m.content)
  {
    TrimEmptyIffBlank(m.content);
    if IsTrimmed(m.content) then TrimOfTrimmed(m.content); m.content != [] else false
  }

  /** Casting and validating a message subdocument: the `trim` setter runs on the
      content, a missing timestamp takes the current time, and the `required`
      validators reject a missing sender and a missing or blank content. */
  function CastMessage(input: MessageInput, now: Time): (r: Option<Message>)
    ensures r.Some? <==> input.sender.Some? && input.content.Some? && !AllWhitespace(input.content.value)
    ensures r.Some? ==> ValidMessage(r.value)
    ensures r.Some? ==> r.value.sender == input.sender.value && r.value.content == Trim(input.content.value)
    ensures r.Some? ==> r.value.timestamp == if input.timestamp.Some? then input.timestamp.value else now
  {
    TrimEmptyIffBlank(if input.content.Some? then input.content.value else "");
    if input.sender.None? || input.content.None? then None
    else
      var content := Trim(input.content.value);
      if content == [] then None
      else Some(Message(input.sender.value, content, if input.timestamp.Some? then input.timestamp.value else now))
  }

  /** `new Chat({doctor, patient, messages: []})`: `lastMessage` defaults to the creation
      time and `isActive` to true. */
  function NewChat(id: Id, patient: Id, doctor: Id, now: Time): (c: Chat)
    ensures c.id == id && c.patient == patient && c.doctor == doctor
    ensures c.messages == [] && c.lastMessage == now && c.isActive
  {
    Chat(id, patient, doctor, [], now, true)
  }

  /** `lastMessage` is the timestamp of the newest message, when there is one. */
  predicate LastMessageInSync(c: Chat) {
    |c.messages| > 0 ==> c.lastMessage == c.messages[|c.messages| - 1].timestamp
  }

  /** A chat as the database holds it: every message passed the message schema and
      the document is one the `pre('save')` hook leaves unchanged. */
  predicate ValidChat(c: Chat)
    ensures ValidChat(c) <==> (forall m <- c.messages :: ValidMessage(m)) && PreSave(c) == c
  {
    (forall m <- c.messages :: ValidMessage(m)) && LastMessageInSync(c)
  }

  /** The unique index `{patient: 1, doctor: 1}`: no two chats share a pair. */
  predicate UniquePairs(chats: seq<Chat>) {
    forall i, j :: 0 <= i < j < |chats| ==>
      !(chats[i].patient == chats[j].patient && chats[i].doctor == chats[j].doctor)
  }

  /** The `pre('save')` hook: with messages present it copies the newest message's
      timestamp to `lastMessage`; with none it leaves the document alone. */
  function PreSave(c: Chat): (r: Chat)
    ensures LastMessageInSync(r)
    ensures r == c.(lastMessage := r.lastMessage)
    ensures c.messages == [] ==> r == c
    ensures LastMessageInSync(c) ==> r == c
  {
    if |c.messages| > 0 then c.(lastMessage := c.messages[|c.messages| - 1].timestamp) else c
  }
}
