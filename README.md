# Onboarding bot: conversation and broadcast model

A Dafny model of the decision logic of `bot.py`, a Telegram bot that onboards
members of a channel and lets operators broadcast to them. Two parts are
modelled.

1. **The onboarding conversation.** Each user has a context: a state, either
   none or `Form.waiting_for_email`, and a data dictionary that only ever
   holds `phone`.
   - `/start` answers with a contact-request prompt.
   - Sharing a contact stores the phone number and waits for the email.
   - While the email is awaited, the next message is taken as the email. It
     is written to the Airtable registrants table with the sender's id and
     username, the stored phone and a timestamp. Then the bot sends the
     welcome link and clears the context.
   - The handlers are tried in registration order and the first matching
     filter wins. So `/start` and a contact are handled in every state, and
     an operator's `/sendall ...` typed while the email is awaited is stored
     as the email.
2. **The `/sendall` broadcast.** Only senders in `ADMINS` may broadcast.
   - The text is `message.text.replace("/sendall", "").strip()`. Every
     occurrence of the command is removed, not only the leading one.
   - An empty text gets the usage hint.
   - Otherwise every row of `table.all()` whose `"Telegram ID"` is present
     and non-empty gets one send. A failing send, including one for an ID
     that `int()` rejects, does not stop the loop.
   - The number of sends that went through is reported.

The code collects only the phone number and the email. There is no full-name
step and no intent choice, and the model has none. When `table.create`
raises, the exception leaves `get_email`: no welcome is sent and the context
stays in `waiting_for_email`. The model follows the code here.

The outside world is a set of parameters (`Onboarding.World`):
- the timestamp;
- whether `table.create` returns;
- the operator list;
- the rows `table.all()` returns;
- per row, whether parsing its ID and sending to it succeeds.

Every outbound call is recorded, in order, as an `Events.Effect`.

Modules:
- `Optional`: Python `None`-or-value.
- `PyText`: `str.strip`, `str.replace`, `str.split`, `str.join`, `str(int)` and `int()` on decimal text.
- `Events`: messages, table rows, outbound calls.
- `Routing`: handler filters and registration order.
- `Broadcast`: `send_all`.
- `Onboarding`: the per-user context as a function (`Step`) and as a class (`Session`) updated in place.

## Model

| member | source | states |
|---|---|---|
| `Routing.FirstMatch` | bot.py:31-71 | the dispatcher's choice is the first handler in the list whose filter accepts the message, and `Unhandled` exactly when no filter accepts it |
| `Routing.Route` | bot.py:31-71 | the routing table (start, contact, waiting state, `/sendall` prefix) agrees with first-match dispatch over the handlers in registration order |
| `Routing.StartAndContactInAnyState` | bot.py:31-42 | `/start` and a shared contact reach their handlers whatever the state |
| `Routing.WaitingCapturesSendAll` | bot.py:45-71 | a `/sendall ...` text goes to `get_email` while the email is awaited and to `send_all` otherwise |
| `Events.TextOf` | bot.py:49 | `message.text` is present exactly for text messages, and is then the message's text |
| `PyText.LStrip` | bot.py:76 | `lstrip()` returns a suffix of the text; what it drops is all whitespace, and what it keeps starts with a non-whitespace character or is empty |
| `PyText.RStrip` | bot.py:76 | `rstrip()` returns a prefix of the text; what it drops is all whitespace, and what it keeps ends with a non-whitespace character or is empty |
| `PyText.Strip` | bot.py:76 | `strip()` never lengthens the text and leaves no whitespace at either end |
| `PyText.StripEmpty` | bot.py:76-77 | `strip()` gives the empty text exactly when the text is all whitespace |
| `PyText.StripPadded` | bot.py:76 | whitespace around a trimmed text is exactly what `strip()` removes |
| `PyText.StripIdempotent` | bot.py:76 | stripping twice is stripping once |
| `PyText.RemoveAll` | bot.py:76 | `replace(p, "")` never lengthens the text |
| `PyText.JoinSplit` | bot.py:76 | `p.join(s.split(p)) == s`: the occurrences `replace` removes cut `s` into pieces that rebuild it |
| `PyText.RemoveAllJoinsPieces` | bot.py:76 | `s.replace(p, "")` is the concatenation of the pieces of `s.split(p)` |
| `PyText.RemoveAllAbsent` | bot.py:76 | a text in which the command does not occur is left unchanged by `replace` |
| `PyText.SplitHeadPrefix` | bot.py:76 | the first piece of `s.split(p)` is a prefix of `s` |
| `PyText.SplitPiecesFree` | bot.py:76 | no piece of `s.split(p)` contains `p`, so `replace(p, "")`, which joins those pieces, leaves no occurrence that `split` cuts at |
| `PyText.RemoveAllKeepsHead` | bot.py:76 | `replace` keeps the first character of a text that does not start with the pattern |
| `PyText.RemoveAllAt` | bot.py:76 | the first occurrence of the pattern is removed, the text before it is kept, and removal goes on after it |
| `PyText.ShowNat` | bot.py:56 | `str(n)` of a natural number is a non-empty run of digits without a leading zero |
| `PyText.ShowInt` | bot.py:56 | `str(n)` is non-empty and starts with `-` exactly for negative `n` |
| `PyText.ParseShowInt` | bot.py:56-87 | `int(str(n)) == n` |
| `Broadcast.Normalize` | bot.py:76-77 | the broadcast text is no longer than the message, is trimmed, and is empty exactly when what remains after removing the command is all whitespace |
| `Broadcast.NormalizeCommandLine` | bot.py:76 | for `/sendall`, blanks, then a text free of the command, the broadcast text is that text |
| `Broadcast.BlankCommandIsEmpty` | bot.py:76-78 | `/sendall` followed only by blanks leaves an empty broadcast text |
| `Broadcast.RemoveAllKeepsSpace` | bot.py:76 | removing the command from blank text leaves blank text |
| `Broadcast.NormalizeRemovesInnerCommand` | bot.py:76 | a command inside the text is removed too: the text before its first occurrence is kept and removal goes on after it |
| `Broadcast.InnerCommandRemoved` | bot.py:76 | `" hi /sendall there".replace("/sendall", "")` is `" hi  there"` |
| `Broadcast.CommandLineRemoved` | bot.py:76 | `"/sendall hi /sendall there".replace("/sendall", "")` is `" hi  there"` |
| `Broadcast.RemovedLineStripped` | bot.py:76 | `" hi  there".strip()` is `"hi  there"` |
| `Broadcast.EveryCommandRemoved` | bot.py:76-77 | `/sendall hi /sendall there` broadcasts `hi  there`: both occurrences of the command go |
| `Broadcast.Recipients` | bot.py:83-85 | at most one recipient per row, and every recipient ID is non-empty |
| `Broadcast.Successes` | bot.py:82-88 | the tally never exceeds the number of recipients |
| `Broadcast.SendAll` | bot.py:71-92 | a non-operator gets only the denial (no table read, no sends); an empty text gets only the usage hint; otherwise one table read, one send per recipient in table order with the broadcast text, then the report of exactly the tally of sends that went through |
| `Broadcast.Deliver` | bot.py:81-90 | the loop sends the broadcast text once to each recipient, in table order, and counts exactly the sends that went through |
| `Broadcast.ReportRunCalls` | bot.py:80-92 | a run of a table read, sends and the report is made only of broadcast calls |
| `Broadcast.ExpectedCallsOnly` | bot.py:71-92 | a broadcast only reads the table, sends, and answers with the denial, the hint or the report |
| `Broadcast.RecipientsAppend` | bot.py:83-85 | recipients keep table order: the recipients of two tables in sequence are the recipients of each, in sequence |
| `Broadcast.OneSendPerRecipient` | bot.py:83-87 | a row with a non-empty ID gets exactly one send at its position, and a row without one gets none |
| `Broadcast.OutcomeIsolation` | bot.py:86-90 | changing the outcome of one send changes the tally by that send's contribution only |
| `Broadcast.AllDelivered` | bot.py:82-88 | when every send goes through, the tally equals the number of recipients |
| `Broadcast.SecondOfThreeFails` | bot.py:83-92 | three registrants with a failing second send: all three are attempted and the tally is 2 |
| `Onboarding.StoredPhone` | bot.py:47-48 | `user_data.get("phone")` is present exactly when a phone is stored, and is that phone |
| `Onboarding.NewRegistrant` | bot.py:50-61 | the row has exactly the keys Telegram ID, Username, Phone, Email, Registered At; its ID is non-empty and reads back as the sender's id; Username is the username or `""`; Phone and Email are the given values or `None`; Registered At is the handler's timestamp |
| `Onboarding.Step` | bot.py:31-71 | the handler is the routed one; the context invariant is kept; only `get_contact` and `get_email` change the context; an exception leaves the context unchanged |
| `Onboarding.Session.constructor` | bot.py:27-28 | a new context has no state and no data |
| `Onboarding.Session.Start` | bot.py:31-35 | `start` only answers with the contact prompt; it has no `modifies` clause, so state and data cannot change |
| `Onboarding.Session.GetContact` | bot.py:38-42 | stores the phone under `phone`, sets `waiting_for_email` whatever the prior state, answers with the email prompt |
| `Onboarding.Session.GetEmail` | bot.py:45-68 | writes the registrant row, whose phone cell is the stored phone when the email was awaited; if `table.create` returns, answers with the welcome and clears state and data; if it raises, no welcome, and state and data are unchanged |
| `Onboarding.Session.Receive` | bot.py:31-92 | handling one message in place does what `Step` describes, and keeps the context invariant |
| `Onboarding.StartOnlyPrompts` | bot.py:31-35 | `/start` leaves the context unchanged and only prompts for the contact |
| `Onboarding.ContactStoresPhone` | bot.py:38-42 | a contact stores its phone, keeps the other data, and moves to waiting for the email, in any state |
| `Onboarding.FailedCreateKeepsWaiting` | bot.py:55-68 | a failed `table.create` gives no welcome and no clear, and the user is still waiting for the email |
| `Onboarding.WelcomeOnlyAfterCreate` | bot.py:55-68 | the welcome and the clear happen only right after a `table.create` that returned, and end the conversation |
| `Onboarding.AtMostOneRowPerMessage` | bot.py:45-61 | a message writes at most one row; it is written as the first call, and only by `get_email` |
| `Onboarding.RegistrationFlow` | bot.py:38-68 | contact then email writes exactly one row with the sender's ID, the shared phone, the email text and the timestamp, then clears the context |
| `Onboarding.WaitingRowHasPhone` | bot.py:38-61 | while the email is awaited, the row `get_email` writes first carries the stored phone, never a null phone cell |
| `Onboarding.BroadcastCapturedAsEmail` | bot.py:45-71 | an operator's `/sendall ...` while the email is awaited is stored as the email; nothing is read or broadcast |
| `Onboarding.WrittenRowReachesBroadcast` | bot.py:55-87 | the row written for a user is a broadcast recipient whose ID `int()` reads back as that user's id |
| `Onboarding.ReplayConsistent` | bot.py:38-68 | no sequence of messages breaks the context invariant (data holds only `phone`; waiting implies a stored phone) |

These definitions carry no contract of their own. The members above state what they mean:
- `Routing.Accepts` (bot.py:31, 38, 45, 71): each handler's filter.
- `Broadcast.HasRecipient` (bot.py:84-85): the check for a present, non-empty `"Telegram ID"`.
- `PyText.IsSpace` (bot.py:76): the characters `str.strip()` removes.
- `Broadcast.Expected` (bot.py:71-92): the effects `send_all` produces.
- `PyText.ParseDecimal` (bot.py:87): `int()` on decimal text.

## Left out

- The aiogram dispatcher, polling, `asyncio` and `MemoryStorage` (bot.py:23-24, 95-97) are framework plumbing. Handler order is `Routing.Registered`. A user's context is one `Session` object, and each handler changes only that object.
- Replies (`message.answer`), `state.update_data` and `state.set_state` are assumed to return normally. A reply that raises, for example in `get_email` after the row was written, is not modelled.
- `table.create`, `table.all` and `bot.send_message` are network calls. They appear as `World` parameters: a create flag, the list of rows, and one send outcome per row. `Broadcast.SendAll` and `Onboarding.Step` require one outcome per row.
- `int(user_id)` inside the broadcast loop is part of the per-row send outcome. `PyText.ParseDecimal` reads only an optional `-` followed by digits. It is used only to show that `str()` of an id reads back. Python's `int()` also accepts surrounding whitespace, `+` and underscores.
- Table cells that are not text (numbers, lists) are not modelled. A cell is `None` or a string.
- Keyboards, `hlink` and the exact message wording (bot.py:33-35, 63-67) are abstracted to `Events.Reply` tags.
- `datetime.now().isoformat()` (bot.py:52) is the `World.now` parameter.
- Logging and the configuration import (bot.py:14-20) are left out. `ADMINS` is the `World.admins` parameter.
- Message kinds other than text and contact are one `Other` case. Captions are not text, matching `message.text`.
