/**
 * What the bot sees and what it does to the outside world: inbound Telegram
 * messages, the Airtable row format, and the outbound calls it makes
 * (replies, `table.create`, `table.all`, `bot.send_message`, `state.clear`).
 */
module Events {
  import opened Optional

  /** `message.from_user`: the numeric id and the optional `@username`. */
  datatype User = User(id: int, username: Option<string>)

  /** What a message carries: text, a shared contact, or anything else (a photo, a sticker, ...). */
  datatype Content = Text(text: string) | Contact(phone: string) | Other

  datatype Message = Message(sender: User, content: Content)

  /** `message.text`, which is `None` unless the message is a text message. */
  function TextOf(c: Content): (t: Option<string>)
    ensures t.Some? <==> c.Text?
    ensures c.Text? ==> t == Some(c.text)
  {
    if c.Text? then Some(c.text) else None
  }

  /** A value in an Airtable row's `fields`: Python `None` or a string. */
  datatype FieldValue = Null | Str(value: string)

  /** An Airtable row's `fields` dictionary. */
  type Fields = map<string, FieldValue>

  /** Python truthiness of a field value: a non-empty string. */
  predicate Truthy(v: FieldValue) {
    v.Str? && v.value != []
  }

  // The column names of the registrants table.
  const TelegramIdField := "Telegram ID"
  const UsernameField := "Username"
  const PhoneField := "Phone"
  const EmailField := "Email"
  const RegisteredAtField := "Registered At"

  /** The fixed texts the bot answers with, told apart by tag rather than by wording. */
  datatype Reply =
    | AskContact      // greeting with the "share phone number" keyboard
    | AskEmail        // "now enter your email"
    | Welcome         // thanks, with the link to the channel
    | Denied          // the sender may not broadcast
    | UsageHint       // the broadcast text is empty
    | Report(sent: nat) // the broadcast finished, `sent` messages delivered

  /** One outbound call, in the order the handler makes them. */
  datatype Effect =
    | Answer(reply: Reply)                     // message.answer(...) in the sender's chat
    | CreateRecord(fields: Fields)             // table.create(fields)
    | ReadAll                                  // table.all()
    | SendMessage(chat: string, text: string)  // an attempt: int(chat), then bot.send_message(chat_id=..., text=text)
    | ClearState                               // state.clear()
}
