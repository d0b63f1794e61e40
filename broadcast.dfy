/**
 * The `/sendall` command: an operator check, the broadcast text cut out of
 * the command, and one send per registrant that has a Telegram ID, tallying
 * the sends that went through.
 */
module Broadcast {
  import opened PyText
  import opened Events
  import opened Routing

  /** `message.text.replace("/sendall", "").strip()`. */
  function Normalize(text: string): (body: string)
    ensures |body| <= |text|
    ensures Trimmed(body)
    ensures body == [] <==> AllSpace(RemoveAll(text, SendAllCommand))
  {
    StripEmpty(RemoveAll(text, SendAllCommand));
    Strip(RemoveAll(text, SendAllCommand))
  }

  /**
   * The usual command shape: the command, some blanks, then a text that does
   * not itself contain the command. The broadcast text is that text, trimmed.
   */
  lemma {:induction false} NormalizeCommandLine(pad: string, body: string)
    requires AllSpace(pad) && Trimmed(body)
    requires forall i :: !OccursAt(pad + body, SendAllCommand, i)
    ensures Normalize(SendAllCommand + pad + body) == body
  {
    var rest := pad + body;
    var line := SendAllCommand + pad + body;
    assert line == SendAllCommand + rest;
    assert line[..|SendAllCommand|] == SendAllCommand;
    assert line[|SendAllCommand|..] == rest;
    RemoveAllAbsent(rest, SendAllCommand);
    assert pad + body == pad + body + [];
    StripPadded(pad, body, []);
  }

  /**
   * A command inside the text is removed as well: an occurrence with no
   * earlier one before it disappears, the text around it is kept.
   */
  lemma {:induction false} NormalizeRemovesInnerCommand(a: string, b: string)
    requires forall i :: 0 <= i < |a| ==> !OccursAt(a + SendAllCommand + b, SendAllCommand, i)
    ensures Normalize(a + SendAllCommand + b) == Strip(a + RemoveAll(b, SendAllCommand))
  {
    RemoveAllAt(a, SendAllCommand, b);
  }

  /** `" hi /sendall there".replace("/sendall", "")` is `" hi  there"`. */
  lemma {:induction false} InnerCommandRemoved()
    ensures RemoveAll(" hi /sendall there", SendAllCommand) == " hi  there"
  {
    var a, b := " hi ", " there";
    assert " hi /sendall there" == a + SendAllCommand + b;
    forall i | 0 <= i < |a| ensures !OccursAt(a + SendAllCommand + b, SendAllCommand, i) {
      assert (a + SendAllCommand + b)[i] == a[i];
    }
    RemoveAllAt(a, SendAllCommand, b);
    assert a + b == " hi  there";
  }

  /** Both commands go: `"/sendall hi /sendall there"` broadcasts `"hi  there"`. */
  lemma {:induction false} EveryCommandRemoved()
    ensures Normalize("/sendall hi /sendall there") == "hi  there"
  {
    CommandLineRemoved();
    RemovedLineStripped();
  }

  /** Stripping what is left drops the blank the first command was followed by. */
  lemma {:induction false} RemovedLineStripped()
    ensures Strip(" hi  there") == "hi  there"
  {
    assert " hi  there" == " " + "hi  there" + [];
    StripPadded(" ", "hi  there", []);
  }

  /** The leading command goes first, then the inner one. */
  lemma {:induction false} CommandLineRemoved()
    ensures RemoveAll("/sendall hi /sendall there", SendAllCommand) == " hi  there"
  {
    var rest := " hi /sendall there";
    assert "/sendall hi /sendall there" == [] + SendAllCommand + rest;
    RemoveAllAt([], SendAllCommand, rest);
    InnerCommandRemoved();
  }

  /** `"/sendall"` followed only by blanks leaves nothing to send. */
  lemma {:induction false} BlankCommandIsEmpty(pad: string)
    requires AllSpace(pad)
    ensures Normalize(SendAllCommand + pad) == []
  {
    var line := SendAllCommand + pad;
    assert line[..|SendAllCommand|] == SendAllCommand;
    assert line[|SendAllCommand|..] == pad;
    assert AllSpace(RemoveAll(pad, SendAllCommand)) by {
      assert RemoveAll(pad, SendAllCommand) == Join(Split(pad, SendAllCommand), []) by {
        RemoveAllJoinsPieces(pad, SendAllCommand);
      }
      RemoveAllKeepsSpace(pad);
    }
  }

  /** Removing the command from an all-blank text leaves an all-blank text. */
  lemma {:induction false} RemoveAllKeepsSpace(s: string)
    requires AllSpace(s)
    ensures AllSpace(RemoveAll(s, SendAllCommand))
    decreases |s|
  {
    if |s| >= |SendAllCommand| {
      if s[..|SendAllCommand|] == SendAllCommand {
        RemoveAllKeepsSpace(s[|SendAllCommand|..]);
      } else {
        RemoveAllKeepsSpace(s[1..]);
      }
    }
  }

  /** `if user_id:` for `user_id = record['fields'].get("Telegram ID")`. */
  predicate HasRecipient(fields: Fields) {
    TelegramIdField in fields && Truthy(fields[TelegramIdField])
  }

  /** The Telegram IDs that get a send, in table order. */
  function Recipients(records: seq<Fields>): (ids: seq<string>)
    ensures |ids| <= |records|
    ensures forall k :: 0 <= k < |ids| ==> ids[k] != []
  {
    if records == [] then []
    else
      var last := records[|records| - 1];
      Recipients(records[..|records| - 1])
        + (if HasRecipient(last) then [last[TelegramIdField].value] else [])
  }

  /**
   * The number of sends that did not raise; `delivered[i]` is what parsing
   * the ID of `records[i]` and sending to it would do.
   */
  function Successes(records: seq<Fields>, delivered: seq<bool>): (n: nat)
    requires |delivered| == |records|
    ensures n <= |Recipients(records)|
  {
    if records == [] then 0
    else
      var k := |records| - 1;
      Successes(records[..k], delivered[..k])
        + (if HasRecipient(records[k]) && delivered[k] then 1 else 0)
  }

  /** One `bot.send_message` per recipient, carrying the same text. */
  function Sends(ids: seq<string>, text: string): seq<Effect> {
    seq(|ids|, k requires 0 <= k < |ids| => SendMessage(ids[k], text))
  }

  datatype Result = Unauthorized | EmptyMessage | Finished(sent: nat)

  datatype Run = Run(result: Result, effects: seq<Effect>)

  /** What one `/sendall` does, given the operator list and the table's answers. */
  function Expected(sender: User, text: string, admins: set<int>,
                    records: seq<Fields>, delivered: seq<bool>): (run: Run)
    requires |delivered| == |records|
  {
    if sender.id !in admins then Run(Unauthorized, [Answer(Denied)])
    else if Normalize(text) == [] then Run(EmptyMessage, [Answer(UsageHint)])
    else
      var n := Successes(records, delivered);
      Run(Finished(n), [ReadAll] + Sends(Recipients(records), Normalize(text)) + [Answer(Report(n))])
  }

  /** `send_all`: the handler itself, with its loop over `table.all()`. */
  method SendAll(sender: User, text: string, admins: set<int>,
                 records: seq<Fields>, delivered: seq<bool>)
    returns (result: Result, effects: seq<Effect>)
    requires |delivered| == |records|
    ensures Run(result, effects) == Expected(sender, text, admins, records, delivered)
    ensures result == Unauthorized <==> sender.id !in admins
    ensures sender.id !in admins ==> effects == [Answer(Denied)]
    ensures sender.id in admins && Normalize(text) == [] ==>
      result == EmptyMessage && effects == [Answer(UsageHint)]
    ensures sender.id in admins && Normalize(text) != [] ==>
      && result == Finished(Successes(records, delivered))
      && effects[0] == ReadAll
      && effects[1..|effects| - 1] == Sends(Recipients(records), Normalize(text))
      && effects[|effects| - 1] == Answer(Report(result.sent))
  {
    if sender.id !in admins {
      return Unauthorized, [Answer(Denied)];
    }
    var body := Normalize(text);
    if body == [] {
      return EmptyMessage, [Answer(UsageHint)];
    }
    var sends, success := Deliver(records, delivered, body);
    effects := [ReadAll] + sends + [Answer(Report(success))];
    result := Finished(success);
  }

  /**
   * The loop of `send_all` over the rows of `table.all()`: one send per row
   * with a non-empty Telegram ID, counting the sends that did not raise.
   */
  method Deliver(records: seq<Fields>, delivered: seq<bool>, body: string)
    returns (sends: seq<Effect>, success: nat)
    requires |delivered| == |records|
    ensures sends == Sends(Recipients(records), body)
    ensures success == Successes(records, delivered)
  {
    sends := [];
    success := 0;
    var i := 0;
    while i < |records|
      invariant 0 <= i <= |records|
      invariant sends == Sends(Recipients(records[..i]), body)
      invariant success == Successes(records[..i], delivered[..i])
    {
      var fields := records[i];
      assert records[..i + 1][..i] == records[..i];
      assert delivered[..i + 1][..i] == delivered[..i];
      if TelegramIdField in fields && Truthy(fields[TelegramIdField]) {
        var userId := fields[TelegramIdField].value;
        assert Recipients(records[..i + 1]) == Recipients(records[..i]) + [userId];
        SendsSnoc(Recipients(records[..i]), userId, body);
        sends := sends + [SendMessage(userId, body)];
        if delivered[i] {
          success := success + 1;
        }
      }
      i := i + 1;
    }
    assert records[..i] == records && delivered[..i] == delivered;
  }

  lemma {:induction false} SendsSnoc(ids: seq<string>, id: string, text: string)
    ensures Sends(ids + [id], text) == Sends(ids, text) + [SendMessage(id, text)]
  {
  }

  /** The calls a broadcast can make: reading the table, sending, and its own three answers. */
  predicate BroadcastCall(e: Effect) {
    e == ReadAll || e.SendMessage?
    || (e.Answer? && (e.reply == Denied || e.reply == UsageHint || e.reply.Report?))
  }

  /** `/sendall` never writes a row, never touches the conversation and never sends another user's prompt. */
  lemma {:induction false} ExpectedCallsOnly(sender: User, text: string, admins: set<int>,
                          records: seq<Fields>, delivered: seq<bool>)
    requires |delivered| == |records|
    ensures var run := Expected(sender, text, admins, records, delivered);
      forall i :: 0 <= i < |run.effects| ==> BroadcastCall(run.effects[i])
  {
    if sender.id in admins && Normalize(text) != [] {
      ReportRunCalls(Recipients(records), Normalize(text), Successes(records, delivered));
    }
  }

  lemma {:induction false} ReportRunCalls(ids: seq<string>, body: string, n: nat)
    ensures var effects := [ReadAll] + Sends(ids, body) + [Answer(Report(n))];
      forall i :: 0 <= i < |effects| ==> BroadcastCall(effects[i])
  {
    var sends := Sends(ids, body);
    var effects := [ReadAll] + sends + [Answer(Report(n))];
    forall i | 0 <= i < |effects| ensures BroadcastCall(effects[i]) {
      if 1 <= i < |effects| - 1 {
        assert effects[i] == sends[i - 1];
      }
    }
  }

  /** Recipients are collected record by record, so concatenating tables concatenates recipients. */
  lemma {:induction false} RecipientsAppend(a: seq<Fields>, b: seq<Fields>)
    ensures Recipients(a + b) == Recipients(a) + Recipients(b)
    decreases |b|
  {
    if b == [] {
      assert a + b == a;
    } else {
      var k := |b| - 1;
      assert (a + b)[..|a + b| - 1] == a + b[..k];
      RecipientsAppend(a, b[..k]);
    }
  }

  /**
   * Per-record behaviour: a record with a non-empty Telegram ID gets exactly
   * one send, at its place in table order; a record without one gets none.
   */
  lemma {:induction false} OneSendPerRecipient(before: seq<Fields>, r: Fields, after: seq<Fields>)
    ensures HasRecipient(r) ==>
      Recipients(before + [r] + after)
        == Recipients(before) + [r[TelegramIdField].value] + Recipients(after)
    ensures !HasRecipient(r) ==>
      Recipients(before + [r] + after) == Recipients(before) + Recipients(after)
  {
    RecipientsAppend(before + [r], after);
    RecipientsAppend(before, [r]);
    assert [r][..0] == [];
  }

  /**
   * A send that fails costs exactly itself: changing the outcome of one
   * record changes the tally by that record's contribution only.
   */
  lemma {:induction false} OutcomeIsolation(records: seq<Fields>, delivered: seq<bool>, j: int, v: bool)
    requires |delivered| == |records| && 0 <= j < |records|
    ensures Successes(records, delivered[j := v])
      == Successes(records, delivered)
         - (if HasRecipient(records[j]) && delivered[j] then 1 else 0)
         + (if HasRecipient(records[j]) && v then 1 else 0)
    decreases |records|
  {
    var k := |records| - 1;
    var d' := delivered[j := v];
    if j == k {
      assert d'[..k] == delivered[..k];
    } else {
      assert d'[..k] == delivered[..k][j := v];
      OutcomeIsolation(records[..k], delivered[..k], j, v);
    }
  }

  /** When every send goes through, the tally is the number of recipients. */
  lemma {:induction false} AllDelivered(records: seq<Fields>, delivered: seq<bool>)
    requires |delivered| == |records|
    requires forall i :: 0 <= i < |delivered| ==> delivered[i]
    ensures Successes(records, delivered) == |Recipients(records)|
    decreases |records|
  {
    if records != [] {
      var k := |records| - 1;
      AllDelivered(records[..k], delivered[..k]);
    }
  }

  /** Three registrants, the second send fails: the loop still reaches the third and reports 2. */
  lemma {:induction false} SecondOfThreeFails(a: string, b: string, c: string)
    requires a != [] && b != [] && c != []
    ensures
      var records := [map[TelegramIdField := Str(a)], map[TelegramIdField := Str(b)],
                      map[TelegramIdField := Str(c)]];
      Successes(records, [true, false, true]) == 2 && Recipients(records) == [a, b, c]
  {
    var records := [map[TelegramIdField := Str(a)], map[TelegramIdField := Str(b)],
                    map[TelegramIdField := Str(c)]];
    var d := [true, false, true];
    assert records[..2][..1] == records[..1] && d[..2][..1] == d[..1];
    assert records[..1][..0] == [] && d[..1][..0] == [];
    assert HasRecipient(records[0]) && HasRecipient(records[1]) && HasRecipient(records[2]);
    assert Recipients(records[..1]) == [a];
    assert Recipients(records[..2]) == [a, b];
    assert Successes(records[..1], d[..1]) == 1;
    assert Successes(records[..2], d[..2]) == 1;
    assert records[..2] == records[..|records| - 1] && d[..2] == d[..|d| - 1];
  }
}
