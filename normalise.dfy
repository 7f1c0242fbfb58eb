/**
 * Turning one update into the canonical display record: which payload variant
 * is used, and the fallbacks for a missing sender, text or chat.
 */
module Normalise {
  import opened Wrappers
  import opened Updates

  /** Sender shown when neither `from.first_name` nor `sender_chat.title` is usable. */
  const UNKNOWN_SENDER: string := "未知用户"
  /** Text shown for a payload without (non-empty) text. */
  const NON_TEXT: string := "[非文本消息]"
  /** Chat id shown when the payload has no `chat`. */
  const UNKNOWN_CHAT: string := "未知"

  /** The record's `chatId` is the chat's numeric id or, without a chat, a string. */
  datatype ChatRef = ChatNumber(id: int) | ChatText(text: string)

  /** The record appended to the display buffer: `{id, chatId, from, text, date}`. */
  datatype Message = Message(id: int, chatId: ChatRef, from: string, text: string, date: string)

  /** `from.first_name`, absent when `from` is. */
  function FirstName(p: Payload): Option<string>
  {
    if p.from.Some? then p.from.value.firstName else None
  }

  /** `sender_chat.title`, absent when `sender_chat` is. */
  function SenderTitle(p: Payload): Option<string>
  {
    if p.senderChat.Some? then p.senderChat.value.title else None
  }

  /**
   * The payload the update carries: `message`, else `channel_post`, else
   * `edited_message`; none when the update has none of the three.
   */
  function SelectPayload(u: Update): (r: Option<Payload>)
    ensures r.None? <==> u.message.None? && u.channelPost.None? && u.editedMessage.None?
    ensures r.Some? ==> r == u.message || r == u.channelPost || r == u.editedMessage
    ensures u.message.Some? ==> r == u.message
    ensures u.message.None? && u.channelPost.Some? ==> r == u.channelPost
    ensures u.message.None? && u.channelPost.None? ==> r == u.editedMessage
  {
    if u.message.Some? then u.message
    else if u.channelPost.Some? then u.channelPost
    else u.editedMessage
  }

  /** The display name of the sender; never empty. */
  function SenderName(p: Payload): (r: string)
    ensures r != ""
    ensures Truthy(FirstName(p)) ==> r == FirstName(p).value
    ensures !Truthy(FirstName(p)) && Truthy(SenderTitle(p)) ==> r == SenderTitle(p).value
    ensures !Truthy(FirstName(p)) && !Truthy(SenderTitle(p)) ==> r == UNKNOWN_SENDER
  {
    if Truthy(FirstName(p)) then FirstName(p).value
    else if Truthy(SenderTitle(p)) then SenderTitle(p).value
    else UNKNOWN_SENDER
  }

  /** The text shown: the payload's text when it is non-empty, else the placeholder; never empty. */
  function DisplayText(p: Payload): (r: string)
    ensures r != ""
    ensures Truthy(p.text) ==> r == p.text.value
    ensures !Truthy(p.text) ==> r == NON_TEXT
  {
    if Truthy(p.text) then p.text.value else NON_TEXT
  }

  /** The chat id recorded: numeric exactly when the payload has a chat. */
  function ChatIdOf(p: Payload): (r: ChatRef)
    ensures r.ChatNumber? <==> p.chat.Some?
    ensures r.ChatNumber? ==> r.id == p.chat.value.id
    ensures r.ChatText? ==> r.text == UNKNOWN_CHAT
  {
    if p.chat.Some? then ChatNumber(p.chat.value.id) else ChatText(UNKNOWN_CHAT)
  }

  /**
   * The canonical record for payload `p` of update `id`. `fmt` stands for the
   * locale date formatting of the payload's epoch-seconds date.
   */
  function ToMessage(id: int, p: Payload, fmt: int -> string): (m: Message)
    ensures m.id == id && m.date == fmt(p.date)
    ensures m.chatId == ChatIdOf(p) && m.from == SenderName(p) && m.text == DisplayText(p)
    ensures m.from != "" && m.text != ""
  {
    Message(id, ChatIdOf(p), SenderName(p), DisplayText(p), fmt(p.date))
  }
}
