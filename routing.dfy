/**
 * Which handler takes a message. The dispatcher tries the handlers in the
 * order they were registered and gives the message to the first whose
 * filter accepts it; a message no filter accepts is dropped.
 */
module Routing {
  import opened Optional
  import opened PyText
  import opened Events

  /** The conversation state: none, or `Form.waiting_for_email`. */
  datatype FormState = NoState | WaitingForEmail

  datatype Handler = HandleStart | HandleContact | HandleEmail | HandleSendAll | Unhandled

  /** The handlers in registration order. */
  const Registered: seq<Handler> := [HandleStart, HandleContact, HandleEmail, HandleSendAll]

  const StartCommand := "/start"
  const SendAllCommand := "/sendall"

  /** The filter each handler is registered with. */
  predicate Accepts(h: Handler, st: FormState, m: Message) {
    match h
    case HandleStart => TextOf(m.content) == Some(StartCommand)
    case HandleContact => m.content.Contact?
    case HandleEmail => st == WaitingForEmail
    case HandleSendAll => m.content.Text? && StartsWith(m.content.text, SendAllCommand)
    case Unhandled => false
  }

  /** The dispatcher: the first handler of `hs` whose filter accepts the message. */
  function FirstMatch(hs: seq<Handler>, st: FormState, m: Message): (h: Handler)
    ensures h == Unhandled <==> forall i :: 0 <= i < |hs| ==> !Accepts(hs[i], st, m)
    ensures h != Unhandled ==>
      exists i :: 0 <= i < |hs| && hs[i] == h && Accepts(h, st, m)
        && forall j :: 0 <= j < i ==> !Accepts(hs[j], st, m)
  {
    if hs == [] then Unhandled
    else if Accepts(hs[0], st, m) then hs[0]
    else
      var h := FirstMatch(hs[1..], st, m);
      assert forall i :: 1 <= i < |hs| ==> hs[i] == hs[1..][i - 1];
      h
  }

  /** The routing decision written as a table over the message shape and the state. */
  function Route(st: FormState, m: Message): (h: Handler)
    ensures h == FirstMatch(Registered, st, m)
  {
    var r1, r2, r3 := Registered[1..], Registered[2..], Registered[3..];
    assert r1 == [HandleContact, HandleEmail, HandleSendAll] && r1[1..] == r2;
    assert r2 == [HandleEmail, HandleSendAll] && r2[1..] == r3;
    assert r3 == [HandleSendAll] && r3[1..] == [];
    assert !Accepts(HandleStart, st, m) ==> FirstMatch(Registered, st, m) == FirstMatch(r1, st, m);
    assert !Accepts(HandleContact, st, m) ==> FirstMatch(r1, st, m) == FirstMatch(r2, st, m);
    assert !Accepts(HandleEmail, st, m) ==> FirstMatch(r2, st, m) == FirstMatch(r3, st, m);
    if m.content == Text(StartCommand) then HandleStart
    else if m.content.Contact? then HandleContact
    else if st == WaitingForEmail then HandleEmail
    else if m.content.Text? && StartsWith(m.content.text, SendAllCommand) then HandleSendAll
    else Unhandled
  }

  /** `/start` and a shared contact are handled in every state. */
  lemma {:induction false} StartAndContactInAnyState(st: FormState, u: User, phone: string)
    ensures Route(st, Message(u, Text(StartCommand))) == HandleStart
    ensures Route(st, Message(u, Contact(phone))) == HandleContact
  {
  }

  /**
   * While an email is awaited, everything except `/start` and a contact is
   * taken as the email, an operator's `/sendall ...` included.
   */
  lemma {:induction false} WaitingCapturesSendAll(u: User, text: string)
    requires StartsWith(text, SendAllCommand)
    ensures Route(WaitingForEmail, Message(u, Text(text))) == HandleEmail
    ensures Route(NoState, Message(u, Text(text))) == HandleSendAll
  {
    assert text != StartCommand by {
      assert |text| >= |SendAllCommand| > |StartCommand|;
    }
  }
}
