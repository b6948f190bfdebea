/** The Business-API front end: the webhook handshake, the webhook that
    receives message notifications, and the handling of one incoming message
    (custom rule, then the AI, then a fixed apology). */
module BusinessApi {
  import opened Documents
  import opened Outcomes
  import opened Text
  import opened Rules
  import opened Store

  /** The reply when there is no truthy custom reply and the AI call fails. */
  const Apology := "Lo siento, estoy teniendo problemas técnicos. ¿Puedes intentar de nuevo?"

  /** The `plataforma` stamped on every record this front end saves. */
  const Plataforma := "whatsapp_business_api"

  /** The `object` of a notification the webhook accepts. */
  const AccountObject := "whatsapp_business_account"

  /** An HTTP response: its status and its body text. */
  datatype Response = Response(status: int, body: string)

  /** The fields of a message notification the handler reads; `body` is
      `text.body`, `None` when `text` or its `body` is absent. */
  datatype WaMessage = WaMessage(from: string, kind: string, body: Option<string>)

  /** One element of `entry[].changes`; `messages` is `value.messages`, `None`
      when `value` or `messages` is absent. */
  datatype Change = Change(messages: Option<seq<WaMessage>>)

  datatype Entry = Entry(changes: seq<Change>)

  /** The parsed body of a notification; `objectName` is its `object` field, `None` when absent. */
  datatype WebhookBody = WebhookBody(objectName: Option<string>, entry: seq<Entry>)

  /** What `processIncomingMessage` resolves to when it resolves to an object. */
  datatype ProcessResult = Success(response: string) | Failure(error: string)

  /** A message handed to `sendMessage`. */
  datatype Outgoing = Outgoing(to: string, text: string)

  /** Only text messages with a truthy body are handled. */
  predicate IsText(m: WaMessage) {
    m.kind == "text" && Truthy(m.body)
  }

  /** `generateResponse`: a truthy custom reply wins and the AI is not asked;
      otherwise the AI's text trimmed, or the apology when the call fails.
      There is no local keyword table in this front end. */
  function GenerateResponse(rules: Doc<seq<Rule>>, message: string, ai: AiOutcome): (r: string)
    ensures Truthy(CustomReply(rules, message)) ==> r == CustomReply(rules, message).value
    ensures !Truthy(CustomReply(rules, message)) && ai.Ok? ==> r == Trim(ai.text)
    ensures !Truthy(CustomReply(rules, message)) && ai.Fail? ==> r == Apology
    ensures ai.Fail? ==> r != ""
  {
    var custom := CustomReply(rules, message);
    if Truthy(custom) then custom.value
    else match ai
      case Ok(text) => Trim(text)
      case Fail => Apology
  }

  // ----- traversal of a notification -----

  /** The messages of a list of changes, in order; a change without
      `value.messages` contributes nothing. */
  function ChangesMessages(changes: seq<Change>): seq<WaMessage>
    decreases |changes|
  {
    if changes == [] then []
    else
      var last := changes[|changes| - 1];
      ChangesMessages(changes[..|changes| - 1]) + (if last.messages.Some? then last.messages.value else [])
  }

  /** The messages of a list of entries: entry by entry, change by change. */
  function EntriesMessages(entries: seq<Entry>): seq<WaMessage>
    decreases |entries|
  {
    if entries == [] then []
    else EntriesMessages(entries[..|entries| - 1]) + ChangesMessages(entries[|entries| - 1].changes)
  }

  lemma {:induction false} ChangesMessagesAppend(a: seq<Change>, b: seq<Change>)
    ensures ChangesMessages(a + b) == ChangesMessages(a) + ChangesMessages(b)
    decreases |b|
  {
    if b != [] {
      var front := b[..|b| - 1];
      assert (a + b)[..|a + b| - 1] == a + front;
      assert (a + b)[|a + b| - 1] == b[|b| - 1];
      ChangesMessagesAppend(a, front);
    } else {
      assert a + b == a;
    }
  }

  /** The messages of consecutive entries come one block after the other: an
      earlier entry's messages are all dispatched before a later one's. */
  lemma {:induction false} EntriesMessagesAppend(a: seq<Entry>, b: seq<Entry>)
    ensures EntriesMessages(a + b) == EntriesMessages(a) + EntriesMessages(b)
    decreases |b|
  {
    if b != [] {
      var front := b[..|b| - 1];
      assert (a + b)[..|a + b| - 1] == a + front;
      assert (a + b)[|a + b| - 1] == b[|b| - 1];
      EntriesMessagesAppend(a, front);
    } else {
      assert a + b == a;
    }
  }

  /** Proof step: a one-entry notification unfolds to that entry's changes. */
  lemma EntryMessages(e: Entry)
    ensures EntriesMessages([e]) == ChangesMessages(e.changes)
  {
    assert [e][..0] == [];
  }

  lemma SkippedChange(before: seq<Change>, after: seq<Change>)
    ensures ChangesMessages(before + [Change(None)] + after) == ChangesMessages(before + after)
  {
    ChangesMessagesAppend(before + [Change(None)], after);
    ChangesMessagesAppend(before, after);
    assert (before + [Change(None)])[..|before|] == before;
  }

  /** The record saved for a message. */
  function RecordFor(m: WaMessage, now: Clock): Record
    requires IsText(m)
  {
    Record(now.millis, m.from, m.body.value, now.iso, false, Some(Plataforma))
  }

  /** The records the dispatched messages save, in order: one per text
      message, none for any other message. */
  function TextRecords(ms: seq<WaMessage>, now: Clock): seq<Record>
    decreases |ms|
  {
    if ms == [] then []
    else
      var last := ms[|ms| - 1];
      TextRecords(ms[..|ms| - 1], now) + (if IsText(last) then [RecordFor(last, now)] else [])
  }

  /** Proof step for the message loop: one unfolding of `TextRecords`. */
  lemma TextRecordsSnoc(ms: seq<WaMessage>, m: WaMessage, now: Clock)
    ensures TextRecords(ms + [m], now) ==
      TextRecords(ms, now) + (if IsText(m) then [RecordFor(m, now)] else [])
  {
    assert (ms + [m])[..|ms|] == ms;
  }

  /** Every text message saves a record and nothing else does: at most one
      record per message, exactly one each when all are text, none when none is. */
  lemma {:induction false} TextRecordsCount(ms: seq<WaMessage>, now: Clock)
    ensures |TextRecords(ms, now)| <= |ms|
    ensures (forall i :: 0 <= i < |ms| ==> IsText(ms[i])) ==> |TextRecords(ms, now)| == |ms|
    ensures (forall i :: 0 <= i < |ms| ==> !IsText(ms[i])) ==> TextRecords(ms, now) == []
    decreases |ms|
  {
    if ms != [] {
      var front := ms[..|ms| - 1];
      TextRecordsCount(front, now);
      assert forall i :: 0 <= i < |front| ==> front[i] == ms[i];
    }
  }

  /** The records of consecutive groups of messages come one group after the other. */
  lemma {:induction false} TextRecordsAppend(a: seq<WaMessage>, b: seq<WaMessage>, now: Clock)
    ensures TextRecords(a + b, now) == TextRecords(a, now) + TextRecords(b, now)
    decreases |b|
  {
    if b == [] {
      assert a + b == a;
    } else {
      var front := b[..|b| - 1];
      assert (a + b)[..|a + b| - 1] == a + front;
      assert (a + b)[|a + b| - 1] == b[|b| - 1];
      TextRecordsAppend(a, front, now);
    }
  }

  /** One instance of the front end. Its settings come from the environment
      and never change. */
  class WhatsAppBusinessApi {
    const accessToken: Option<string>
    const phoneNumberId: Option<string>
    const verifyToken: Option<string>
    const apiVersion: string

    constructor (accessToken: Option<string>, phoneNumberId: Option<string>, verifyToken: Option<string>)
      ensures this.accessToken == accessToken && this.phoneNumberId == phoneNumberId
      ensures this.verifyToken == verifyToken && this.apiVersion == "v18.0"
    {
      this.accessToken := accessToken;
      this.phoneNumberId := phoneNumberId;
      this.verifyToken := verifyToken;
      this.apiVersion := "v18.0";
    }

    /** `verifyWebhook`: the challenge is echoed with status 200 exactly when
        the mode is `subscribe` and a truthy token equals the configured one;
        403 when mode and token are both truthy but do not pass; no response
        at all when either is missing or empty. */
    function VerifyWebhook(mode: Option<string>, token: Option<string>, challenge: Option<string>): (r: Option<Response>)
      ensures r.Some? && r.value.status == 200 <==> mode == Some("subscribe") && Truthy(token) && token == verifyToken
      ensures r.Some? && r.value.status == 200 ==> r.value.body == (if challenge.Some? then challenge.value else "")
      ensures r == Some(Response(403, "Forbidden")) <==>
        Truthy(mode) && Truthy(token) && !(mode == Some("subscribe") && token == verifyToken)
      ensures r.None? <==> !(Truthy(mode) && Truthy(token))
    {
      if Truthy(mode) && Truthy(token) then
        if mode == Some("subscribe") && token == verifyToken then
          Some(Response(200, if challenge.Some? then challenge.value else ""))
        else
          Some(Response(403, "Forbidden"))
      else
        None
    }

    /** `saveIncomingMessage`: prepend a record marked unanswered and stamped
        with this platform, keeping at most 100 records. */
    method SaveIncomingMessage(store: DataStore, from: string, message: string, now: Clock)
      modifies store
      ensures store.incoming == WithIncoming(old(store.incoming),
        Record(now.millis, from, message, now.iso, false, Some(Plataforma)))
      ensures store.rules == old(store.rules) && store.users == old(store.users)
      ensures store.history == old(store.history)
    {
      store.SaveIncoming(from, message, false, Some(Plataforma), now);
    }

    /** `processIncomingMessage`: a message that is not text is ignored and
        the call resolves to nothing. A text message is saved, answered and
        sent back to its sender; the call resolves to success with exactly
        the text sent, or to failure with the error of a send that threw.
        Users and histories are not touched by this front end. */
    method ProcessIncomingMessage(store: DataStore, message: WaMessage, ai: AiOutcome, send: SendOutcome, now: Clock)
      returns (result: Option<ProcessResult>, sent: Option<Outgoing>)
      modifies store
      ensures !IsText(message) ==> result == None && sent == None && unchanged(store)
      ensures IsText(message) ==>
        var reply := GenerateResponse(old(store.rules), message.body.value, ai);
        && sent == Some(Outgoing(message.from, reply))
        && result == Some(if send.Delivered? then Success(reply) else Failure(send.message))
        && store.incoming == WithIncoming(old(store.incoming), RecordFor(message, now))
      ensures store.rules == old(store.rules) && store.users == old(store.users)
      ensures store.history == old(store.history)
    {
      result, sent := None, None;
      if !IsText(message) {
        return;
      }
      var mensajeUsuario := message.body.value;
      var numeroUsuario := message.from;
      SaveIncomingMessage(store, numeroUsuario, mensajeUsuario, now);
      var respuesta := GenerateResponse(store.rules, mensajeUsuario, ai);
      sent := Some(Outgoing(numeroUsuario, respuesta));
      match send
      case Delivered =>
        result := Some(Success(respuesta));
      case Threw(error) =>
        result := Some(Failure(error));
    }

    /** `change.value.messages.forEach(...)`: dispatch the messages of one
        change in order; the synchronous part of each dispatch saves a text
        message and does nothing for any other message. */
    method DispatchMessages(store: DataStore, messages: seq<WaMessage>, now: Clock)
      modifies store
      ensures store.incoming == IncomingAfter(old(store.incoming), TextRecords(messages, now))
      ensures store.rules == old(store.rules) && store.users == old(store.users)
      ensures store.history == old(store.history)
    {
      var k := 0;
      while k < |messages|
        invariant 0 <= k <= |messages|
        invariant store.incoming == IncomingAfter(old(store.incoming), TextRecords(messages[..k], now))
        invariant store.rules == old(store.rules) && store.users == old(store.users)
        invariant store.history == old(store.history)
      {
        var m := messages[k];
        assert messages[..k + 1] == messages[..k] + [m];
        TextRecordsSnoc(messages[..k], m, now);
        if IsText(m) {
          IncomingAfterSnoc(old(store.incoming), TextRecords(messages[..k], now), RecordFor(m, now));
          SaveIncomingMessage(store, m.from, m.body.value, now);
        } else {
          assert TextRecords(messages[..k], now) + [] == TextRecords(messages[..k], now);
        }
        k := k + 1;
      }
      assert messages[..k] == messages;
    }

    /** `entry.changes.forEach(...)`: the changes of one entry in order; a
        change without `value.messages` is skipped. */
    method DispatchChanges(store: DataStore, changes: seq<Change>, now: Clock) returns (dispatched: seq<WaMessage>)
      modifies store
      ensures dispatched == ChangesMessages(changes)
      ensures store.incoming == IncomingAfter(old(store.incoming), TextRecords(dispatched, now))
      ensures store.rules == old(store.rules) && store.users == old(store.users)
      ensures store.history == old(store.history)
    {
      dispatched := [];
      var j := 0;
      while j < |changes|
        invariant 0 <= j <= |changes|
        invariant dispatched == ChangesMessages(changes[..j])
        invariant store.incoming == IncomingAfter(old(store.incoming), TextRecords(dispatched, now))
        invariant store.rules == old(store.rules) && store.users == old(store.users)
        invariant store.history == old(store.history)
      {
        assert changes[..j + 1][..j] == changes[..j];
        var messages := if changes[j].messages.Some? then changes[j].messages.value else [];
        DispatchMessages(store, messages, now);
        TextRecordsAppend(dispatched, messages, now);
        IncomingAfterAppend(old(store.incoming), TextRecords(dispatched, now), TextRecords(messages, now));
        dispatched := dispatched + messages;
        j := j + 1;
      }
      assert changes[..j] == changes;
    }

    /** The POST webhook: a notification for another object gets 404 and
        nothing happens. Otherwise every message is dispatched, entry by
        entry, change by change, in order, and the call answers 200 at once.
        The part of each dispatch that runs before the handler's first wait
        is the save of a text message, so the log ends up holding one record
        per text message, in dispatch order; the replies follow later. */
    method ReceiveWebhook(store: DataStore, body: WebhookBody, now: Clock)
      returns (response: Response, dispatched: seq<WaMessage>)
      modifies store
      ensures body.objectName != Some(AccountObject) ==>
        response == Response(404, "Not Found") && dispatched == [] && unchanged(store)
      ensures body.objectName == Some(AccountObject) ==>
        response == Response(200, "EVENT_RECEIVED")
        && dispatched == EntriesMessages(body.entry)
        && store.incoming == IncomingAfter(old(store.incoming), TextRecords(dispatched, now))
      ensures store.rules == old(store.rules) && store.users == old(store.users)
      ensures store.history == old(store.history)
    {
      dispatched := [];
      if body.objectName != Some(AccountObject) {
        response := Response(404, "Not Found");
        return;
      }
      var entries := body.entry;
      var i := 0;
      while i < |entries|
        invariant 0 <= i <= |entries|
        invariant dispatched == EntriesMessages(entries[..i])
        invariant store.incoming == IncomingAfter(old(store.incoming), TextRecords(dispatched, now))
        invariant store.rules == old(store.rules) && store.users == old(store.users)
        invariant store.history == old(store.history)
      {
        assert entries[..i + 1][..i] == entries[..i];
        var more := DispatchChanges(store, entries[i].changes, now);
        TextRecordsAppend(dispatched, more, now);
        IncomingAfterAppend(old(store.incoming), TextRecords(dispatched, now), TextRecords(more, now));
        dispatched := dispatched + more;
        i := i + 1;
      }
      assert entries[..i] == entries;
      response := Response(200, "EVENT_RECEIVED");
    }
  }
}
