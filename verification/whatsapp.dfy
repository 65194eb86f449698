/**
 * src/whatsapp/whatsapp.controller.ts: the Meta webhook handshake and the
 * status the event endpoint answers with. The configured verify token and the
 * query parameters may be missing (`undefined`), so they are options.
 */
module WhatsApp {
  import opened Common

  const Subscribe := "subscribe"
  const BusinessAccount := "whatsapp_business_account"

  /**
   * `verifyWebhook(mode, token, challenge)`: the challenge is echoed back when
   * the mode is `subscribe` and the token equals the configured one; `===` on
   * two missing values holds, so an unconfigured token accepts a request that
   * sends none.
   */
  function VerifyWebhook(configured: Option<string>, mode: Option<string>, token: Option<string>,
                         challenge: Option<string>): (r: Result<Option<string>>)
    ensures r.Ok? <==> mode == Some(Subscribe) && token == configured
    ensures r.Ok? ==> r.value == challenge
    ensures r.Err? ==> r.error == Forbidden("Forbidden")
  {
    if mode == Some(Subscribe) && token == configured then Ok(challenge)
    else Err(Forbidden("Forbidden"))
  }

  /** With no token configured, a handshake that sends no token either is accepted. */
  lemma UnconfiguredTokenAcceptsMissingToken(challenge: Option<string>)
    ensures VerifyWebhook(None, Some(Subscribe), None, challenge) == Ok(challenge)
    ensures forall t :: VerifyWebhook(None, Some(Subscribe), Some(t), challenge).Err?
  {
  }

  datatype Change = Change(field: Option<string>, value: string)
  datatype Entry = Entry(changes: Option<seq<Change>>)
  /** The POST body: its `object` field (`objectType`) and its `entry` list (either may be missing). */
  datatype Payload = Payload(objectType: Option<string>, entries: Option<seq<Entry>>)

  datatype WebhookStatus = Ignored | Handled | Failed

  /** The changes of one entry; a missing `changes` list contributes none. */
  function EntryChanges(e: Entry): seq<Change>
  {
    if e.changes.Some? then e.changes.value else []
  }

  /** Every change of every entry, entry by entry and in each entry's own order. */
  function AllChanges(entries: seq<Entry>): (r: seq<Change>)
    ensures forall c :: c in r <==> exists i :: 0 <= i < |entries| && c in EntryChanges(entries[i])
  {
    if entries == [] then []
    else
      var rest := AllChanges(entries[1..]);
      assert forall i :: 1 <= i < |entries| ==> entries[i] == entries[1..][i - 1];
      EntryChanges(entries[0]) + rest
  }

  /** The `if (change.field === 'messages')` test. */
  predicate IsMessages(c: Change)
  {
    c.field == Some("messages")
  }

  /** Filtering a concatenation filters each part. */
  lemma {:induction false} FilterAppend<T(!new)>(a: seq<T>, b: seq<T>, p: T -> bool)
    ensures Filter(a + b, p) == Filter(a, p) + Filter(b, p)
  {
    if b == [] {
      assert a + b == a;
    } else {
      var b0 := b[..|b| - 1];
      assert (a + b)[..|a + b| - 1] == a + b0;
      assert (a + b)[|a + b| - 1] == b[|b| - 1];
      FilterAppend(a, b0, p);
    }
  }

  /**
   * The changes the controller hands to `handleMessageEvent`: the nested loops
   * over entries and their changes, keeping the `messages` ones. The result is
   * the flattened changes filtered, so it keeps entry order and change order
   * and holds nothing the payload does not.
   */
  function MessageChanges(entries: seq<Entry>): (r: seq<Change>)
    ensures r == Filter(AllChanges(entries), IsMessages)
    ensures forall c :: c in r ==> c.field == Some("messages")
    ensures forall c :: c in r ==> exists i :: 0 <= i < |entries| && c in EntryChanges(entries[i])
    ensures forall i, c ::
              (0 <= i < |entries| && entries[i].changes.Some? && c in entries[i].changes.value &&
               c.field == Some("messages")) ==> c in r
  {
    if entries == [] then []
    else
      var rest := MessageChanges(entries[1..]);
      FilterAppend(EntryChanges(entries[0]), AllChanges(entries[1..]), IsMessages);
      Filter(EntryChanges(entries[0]), IsMessages) + rest
  }

  /**
   * `handleWebhook(body)`: anything other than a WhatsApp business account event
   * is ignored; otherwise every `messages` change is handled and the answer is
   * `ok`, or `error` when handling throws (`handles` says whether the
   * logging-only handler completes). It never throws to the caller.
   */
  function HandleWebhook(body: Payload, handles: Change -> bool): (s: WebhookStatus)
    ensures s == Ignored <==> body.objectType != Some(BusinessAccount)
    ensures s == Failed <==>
      body.objectType == Some(BusinessAccount) &&
      exists c :: c in MessageChanges(if body.entries.Some? then body.entries.value else []) && !handles(c)
  {
    if body.objectType != Some(BusinessAccount) then Ignored
    else
      var changes := MessageChanges(if body.entries.Some? then body.entries.value else []);
      if forall c :: c in changes ==> handles(c) then Handled else Failed
  }
}
