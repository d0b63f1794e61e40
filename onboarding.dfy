/**
 * The per-user onboarding conversation: `/start` asks for the phone number,
 * a shared contact stores it and waits for the email, and the next message
 * becomes the email, is written to the registrants table together with the
 * sender's identity, and ends the conversation.
 */
module Onboarding {
  import opened Optional
  import opened PyText
  import opened Events
  import opened Routing
  import Broadcast

  /** The key under which `get_contact` stores the phone number in the state data. */
  const PhoneKey := "phone"

  /** One user's FSM context: the current state and the data dictionary. */
  datatype SessionData = SessionData(state: FormState, data: map<string, string>)

  /** A context with no state and no data: the start, and what `state.clear()` leaves. */
  const Idle := SessionData(NoState, map[])

  /**
   * What the handlers keep true of a context: the data holds at most the
   * phone number, and the email is awaited only once a phone is stored.
   */
  predicate Consistent(s: SessionData) {
    s.data.Keys <= {PhoneKey} && (s.state == WaitingForEmail ==> PhoneKey in s.data)
  }

  /**
   * Everything the outside world decides while one message is handled: the
   * clock, whether `table.create` returns, the configured operators, the rows
   * `table.all()` returns and, per row, whether the send to it goes through.
   */
  datatype World = World(now: string, created: bool, admins: set<int>,
                         records: seq<Fields>, delivered: seq<bool>)

  /** Whether the handler returned or an exception escaped it. */
  datatype Outcome = Returned | Raised

  datatype StepResult = StepResult(handler: Handler, next: SessionData,
                                   effects: seq<Effect>, outcome: Outcome)

  /** `user_data.get("phone")`. */
  function StoredPhone(data: map<string, string>): (phone: Option<string>)
    ensures phone.Some? <==> PhoneKey in data
    ensures phone.Some? ==> phone.value == data[PhoneKey]
  {
    if PhoneKey in data then Some(data[PhoneKey]) else None
  }

  /** A Python value that may be `None`, as written into a row. */
  function FieldOf(v: Option<string>): FieldValue {
    if v.Some? then Str(v.value) else Null
  }

  /** The row `get_email` hands to `table.create`. */
  function NewRegistrant(u: User, phone: Option<string>, email: Option<string>, now: string): (row: Fields)
    ensures row.Keys == {TelegramIdField, UsernameField, PhoneField, EmailField, RegisteredAtField}
    ensures Broadcast.HasRecipient(row)
    ensures ParseDecimal(row[TelegramIdField].value) == Some(u.id)
    ensures row[UsernameField] == Str(if u.username.Some? then u.username.value else "")
    ensures row[PhoneField].Str? <==> phone.Some?
    ensures row[EmailField].Str? <==> email.Some?
    ensures phone.Some? ==> row[PhoneField].value == phone.value
    ensures email.Some? ==> row[EmailField].value == email.value
    ensures row[RegisteredAtField] == Str(now)
  {
    ParseShowInt(u.id);
    map[TelegramIdField := Str(ShowInt(u.id)),
        UsernameField := Str(u.username.GetOr("")),
        PhoneField := FieldOf(phone),
        EmailField := FieldOf(email),
        RegisteredAtField := Str(now)]
  }

  /** The row built for a message `m` handled in context `s` at time `now`. */
  function RowFor(s: SessionData, m: Message, now: string): Fields {
    NewRegistrant(m.sender, StoredPhone(s.data), TextOf(m.content), now)
  }

  /** How one inbound message changes a user's context and what it makes the bot do. */
  function Step(s: SessionData, m: Message, w: World): (r: StepResult)
    requires |w.delivered| == |w.records|
    ensures r.handler == Route(s.state, m)
    ensures Consistent(s) ==> Consistent(r.next)
    ensures r.handler !in {HandleContact, HandleEmail} ==> r.next == s
    ensures r.outcome == Raised ==> r.next == s && r.handler == HandleEmail
  {
    match Route(s.state, m)
    case HandleStart =>
      StepResult(HandleStart, s, [Answer(AskContact)], Returned)
    case HandleContact =>
      StepResult(HandleContact, SessionData(WaitingForEmail, s.data[PhoneKey := m.content.phone]),
                 [Answer(AskEmail)], Returned)
    case HandleEmail =>
      var row := RowFor(s, m, w.now);
      if w.created then
        StepResult(HandleEmail, Idle, [CreateRecord(row), Answer(Welcome), ClearState], Returned)
      else
        StepResult(HandleEmail, s, [CreateRecord(row)], Raised)
    case HandleSendAll =>
      var run := Broadcast.Expected(m.sender, m.content.text, w.admins, w.records, w.delivered);
      StepResult(HandleSendAll, s, run.effects, Returned)
    case Unhandled =>
      StepResult(Unhandled, s, [], Returned)
  }

  /** One user's FSM context, updated in place by the handlers. */
  class Session {
    var state: FormState
    var data: map<string, string>

    function Snapshot(): SessionData
      reads this
    {
      SessionData(state, data)
    }

    ghost predicate Valid()
      reads this
    {
      Consistent(Snapshot())
    }

    constructor ()
      ensures Valid() && Snapshot() == Idle
    {
      state := NoState;
      data := map[];
    }

    /** `start`: answers with the contact prompt; it changes nothing in the context. */
    method Start() returns (effects: seq<Effect>)
      ensures effects == [Answer(AskContact)]
    {
      effects := [Answer(AskContact)];
    }

    /** `get_contact`: stores the phone and waits for the email, whatever the state was. */
    method GetContact(phone: string) returns (effects: seq<Effect>)
      requires Valid()
      modifies this
      ensures Valid()
      ensures Snapshot() == SessionData(WaitingForEmail, old(data)[PhoneKey := phone])
      ensures effects == [Answer(AskEmail)]
    {
      data := data[PhoneKey := phone];
      effects := [Answer(AskEmail)];
      state := WaitingForEmail;
    }

    /**
     * `get_email`: writes the registrant row; only if `table.create` returns
     * does it answer with the welcome and clear the context.
     */
    method GetEmail(m: Message, now: string, created: bool) returns (effects: seq<Effect>, outcome: Outcome)
      requires Valid()
      modifies this
      ensures Valid()
      ensures created ==>
        && outcome == Returned
        && effects == [CreateRecord(RowFor(old(Snapshot()), m, now)), Answer(Welcome), ClearState]
        && Snapshot() == Idle
      ensures !created ==>
        && outcome == Raised
        && effects == [CreateRecord(RowFor(old(Snapshot()), m, now))]
        && Snapshot() == old(Snapshot())
      ensures old(state) == WaitingForEmail ==>
        RowFor(old(Snapshot()), m, now)[PhoneField] == Str(old(data)[PhoneKey])
    {
      var phone := StoredPhone(data);
      var email := TextOf(m.content);
      var row := NewRegistrant(m.sender, phone, email, now);
      effects := [CreateRecord(row)];
      if !created {
        return effects, Raised;
      }
      effects := effects + [Answer(Welcome)];
      state, data := NoState, map[];
      effects := effects + [ClearState];
      outcome := Returned;
    }

    /** The dispatcher handing one message of this user to the first matching handler. */
    method Receive(m: Message, w: World) returns (handler: Handler, effects: seq<Effect>, outcome: Outcome)
      requires Valid() && |w.delivered| == |w.records|
      modifies this
      ensures Valid()
      ensures StepResult(handler, Snapshot(), effects, outcome) == Step(old(Snapshot()), m, w)
    {
      handler := Route(state, m);
      match handler
      case HandleStart =>
        effects := Start();
        outcome := Returned;
      case HandleContact =>
        effects := GetContact(m.content.phone);
        outcome := Returned;
      case HandleEmail =>
        effects, outcome := GetEmail(m, w.now, w.created);
      case HandleSendAll =>
        var _, sent := Broadcast.SendAll(m.sender, m.content.text, w.admins, w.records, w.delivered);
        effects := sent;
        outcome := Returned;
      case Unhandled =>
        effects := [];
        outcome := Returned;
    }
  }

  // ------------------------------------------------------------ properties

  /** `start` only prompts for the contact; the context is left as it was. */
  lemma {:induction false} StartOnlyPrompts(s: SessionData, u: User, w: World)
    requires |w.delivered| == |w.records|
    ensures var r := Step(s, Message(u, Text(StartCommand)), w);
      r.handler == HandleStart && r.next == s && r.effects == [Answer(AskContact)]
  {
  }

  /** A shared contact stores its phone number and moves to waiting for the email, in any state. */
  lemma {:induction false} ContactStoresPhone(s: SessionData, u: User, phone: string, w: World)
    requires |w.delivered| == |w.records|
    ensures var r := Step(s, Message(u, Contact(phone)), w);
      && r.next.state == WaitingForEmail
      && StoredPhone(r.next.data) == Some(phone)
      && (forall k :: k in s.data && k != PhoneKey ==> k in r.next.data && r.next.data[k] == s.data[k])
      && r.effects == [Answer(AskEmail)]
  {
  }

  /**
   * A failed `table.create` stops the handler: no welcome, no `state.clear()`,
   * and the user is still asked for the email.
   */
  lemma {:induction false} FailedCreateKeepsWaiting(s: SessionData, m: Message, w: World)
    requires |w.delivered| == |w.records|
    requires s.state == WaitingForEmail && Route(s.state, m) == HandleEmail && !w.created
    ensures var r := Step(s, m, w);
      && r.outcome == Raised && r.next == s && r.next.state == WaitingForEmail
      && r.effects == [CreateRecord(RowFor(s, m, w.now))]
      && Answer(Welcome) !in r.effects && ClearState !in r.effects
  {
  }

  /**
   * The welcome is sent, and the context cleared, only right after a
   * `table.create` that returned; then the conversation is over.
   */
  lemma {:induction false} WelcomeOnlyAfterCreate(s: SessionData, m: Message, w: World)
    requires |w.delivered| == |w.records|
    ensures var r := Step(s, m, w);
      (Answer(Welcome) in r.effects || ClearState in r.effects) ==>
        && w.created && r.outcome == Returned && r.handler == HandleEmail
        && r.effects == [CreateRecord(RowFor(s, m, w.now)), Answer(Welcome), ClearState]
        && r.next == Idle
  {
    var r := Step(s, m, w);
    if r.handler == HandleSendAll {
      Broadcast.ExpectedCallsOnly(m.sender, m.content.text, w.admins, w.records, w.delivered);
      forall i | 0 <= i < |r.effects| ensures r.effects[i] != Answer(Welcome) && r.effects[i] != ClearState {
        assert Broadcast.BroadcastCall(r.effects[i]);
      }
    }
  }

  /**
   * At most one row is written per message, as the message's first call, and
   * only by `get_email`.
   */
  lemma {:induction false} AtMostOneRowPerMessage(s: SessionData, m: Message, w: World)
    requires |w.delivered| == |w.records|
    ensures var r := Step(s, m, w);
      && (forall i :: 0 <= i < |r.effects| && r.effects[i].CreateRecord? ==>
            i == 0 && r.effects[i] == CreateRecord(RowFor(s, m, w.now)))
      && ((exists i :: 0 <= i < |r.effects| && r.effects[i].CreateRecord?) <==> r.handler == HandleEmail)
  {
    var r := Step(s, m, w);
    if r.handler == HandleSendAll {
      Broadcast.ExpectedCallsOnly(m.sender, m.content.text, w.admins, w.records, w.delivered);
      forall i | 0 <= i < |r.effects| ensures !r.effects[i].CreateRecord? {
        assert Broadcast.BroadcastCall(r.effects[i]);
      }
    } else if r.handler == HandleEmail {
      assert r.effects[0].CreateRecord?;
    }
  }

  /**
   * The whole conversation: a contact, then an email. Exactly one row is
   * written, holding exactly the sender's identity, the shared phone number,
   * the email text and the time of the second message, and the context ends
   * cleared.
   */
  lemma {:induction false} RegistrationFlow(s: SessionData, u: User, phone: string, email: string, w1: World, w2: World)
    requires |w1.delivered| == |w1.records| && |w2.delivered| == |w2.records|
    requires email != StartCommand && w2.created
    ensures var r1 := Step(s, Message(u, Contact(phone)), w1);
      var r2 := Step(r1.next, Message(u, Text(email)), w2);
      var row := NewRegistrant(u, Some(phone), Some(email), w2.now);
      && r1.next.state == WaitingForEmail
      && r2.handler == HandleEmail
      && r2.effects == [CreateRecord(row), Answer(Welcome), ClearState]
      && row[TelegramIdField] == Str(ShowInt(u.id))
      && row[PhoneField] == Str(phone)
      && row[EmailField] == Str(email)
      && row[RegisteredAtField] == Str(w2.now)
      && r2.next == Idle
  {
    var r1 := Step(s, Message(u, Contact(phone)), w1);
    assert StoredPhone(r1.next.data) == Some(phone);
  }

  /**
   * Whenever the email is awaited, the row the next text writes carries the
   * stored phone number, never a null phone cell.
   */
  lemma {:induction false} WaitingRowHasPhone(s: SessionData, m: Message, w: World)
    requires |w.delivered| == |w.records|
    requires Consistent(s) && s.state == WaitingForEmail
    ensures var r := Step(s, m, w);
      r.handler == HandleEmail ==>
        && r.effects[0] == CreateRecord(RowFor(s, m, w.now))
        && RowFor(s, m, w.now)[PhoneField] == Str(s.data[PhoneKey])
  {
    assert StoredPhone(s.data) == Some(s.data[PhoneKey]);
  }

  /**
   * An operator's `/sendall ...` sent while the email is awaited is stored
   * as the email: nothing is read from the table and nothing is broadcast.
   */
  lemma {:induction false} BroadcastCapturedAsEmail(s: SessionData, u: User, text: string, w: World)
    requires |w.delivered| == |w.records|
    requires s.state == WaitingForEmail && StartsWith(text, SendAllCommand) && u.id in w.admins
    ensures var r := Step(s, Message(u, Text(text)), w);
      && r.handler == HandleEmail
      && r.effects[0] == CreateRecord(RowFor(s, Message(u, Text(text)), w.now))
      && RowFor(s, Message(u, Text(text)), w.now)[EmailField] == Str(text)
      && ReadAll !in r.effects
      && (forall e :: e in r.effects ==> !e.SendMessage?)
  {
    WaitingCapturesSendAll(u, text);
  }

  /**
   * The row the conversation writes names its user in a form the broadcast
   * picks up, and `int()` reads that ID back as the user's id.
   */
  lemma {:induction false} WrittenRowReachesBroadcast(s: SessionData, m: Message, now: string)
    ensures Broadcast.Recipients([RowFor(s, m, now)]) == [ShowInt(m.sender.id)]
    ensures ParseDecimal(Broadcast.Recipients([RowFor(s, m, now)])[0]) == Some(m.sender.id)
  {
    var row := RowFor(s, m, now);
    assert [row][..0] == [];
  }

  /** The context after a sequence of messages from one user. */
  function Replay(s: SessionData, msgs: seq<Message>, worlds: seq<World>): SessionData
    requires |worlds| == |msgs|
    requires forall i :: 0 <= i < |worlds| ==> |worlds[i].delivered| == |worlds[i].records|
    decreases |msgs|
  {
    if msgs == [] then s
    else Replay(Step(s, msgs[0], worlds[0]).next, msgs[1..], worlds[1..])
  }

  /** No sequence of messages breaks the context invariant. */
  lemma {:induction false} ReplayConsistent(s: SessionData, msgs: seq<Message>, worlds: seq<World>)
    requires |worlds| == |msgs|
    requires forall i :: 0 <= i < |worlds| ==> |worlds[i].delivered| == |worlds[i].records|
    requires Consistent(s)
    ensures Consistent(Replay(s, msgs, worlds))
    decreases |msgs|
  {
    if msgs != [] {
      ReplayConsistent(Step(s, msgs[0], worlds[0]).next, msgs[1..], worlds[1..]);
    }
  }
}
