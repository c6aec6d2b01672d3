/** `email_worker` of `src/workers/email.rs`: it polls the pending messages
    and, for each, spawns a task that marks the message `sending`, sends the
    notification and the receipt, and records `sent` or `failed`. A task
    runs as one step, right after it is spawned. */
module DeliveryWorker {
  import opened Wrappers
  import opened Strings
  import opened Utils
  import opened Mail

  /** `FROM_STANDARD`, `FROM_URGENT` and `FROM_IMMEDIATE`. */
  datatype Senders = Senders(standard: string, urgent: string, immediate: string)

  /** The priority to from-address map. */
  function FromMap(senders: Senders): map<string, string> {
    map[Standard := senders.standard, Urgent := senders.urgent, Immediate := senders.immediate]
  }

  /** `from_map`, built by three inserts. */
  method BuildFromMap(senders: Senders) returns (fromMap: map<string, string>)
    ensures fromMap == FromMap(senders)
  {
    fromMap := map[];
    fromMap := fromMap[Standard := senders.standard];
    fromMap := fromMap[Urgent := senders.urgent];
    fromMap := fromMap[Immediate := senders.immediate];
  }

  /** `from_map.get(priority).cloned()`: nothing for a priority outside the
      map, where the worker panics. */
  function FromAddress(fromMap: map<string, string>, priority: string): (r: Option<string>)
    ensures r.Some? <==> priority in fromMap
    ensures r.Some? ==> r.value == fromMap[priority]
  {
    if priority in fromMap then Some(fromMap[priority]) else None
  }

  /** Each priority picks its own sender; any other priority has none. */
  lemma FromAddressByPriority(senders: Senders, priority: string)
    ensures FromAddress(FromMap(senders), Standard) == Some(senders.standard)
    ensures FromAddress(FromMap(senders), Urgent) == Some(senders.urgent)
    ensures FromAddress(FromMap(senders), Immediate) == Some(senders.immediate)
    ensures FromAddress(FromMap(senders), priority).None? <==>
      priority != Standard && priority != Urgent && priority != Immediate
  {
  }

  /** The notification: to the owner, replies going to the submitter. */
  function NotificationMail(from: string, notificationEmail: string, msg: Message): Email {
    Email(from, notificationEmail, Some(msg.email),
      NotificationSubject(CapitalizeFirst(msg.priority), msg.name, CapitalizeFirst(msg.sender)),
      EscapeHtml(msg.message))
  }

  /** The receipt: to the submitter, replies going to the owner. */
  function ReceiptMail(from: string, notificationEmail: string, msg: Message): Email {
    Email(from, msg.email, Some(notificationEmail),
      ReceiptSubject(CapitalizeFirst(msg.priority)),
      EscapeHtml(msg.message))
  }

  /** The two mails swap sender and recipient roles, share the sender
      address and carry the message escaped, with no raw quote, slash or
      newline and no `<` outside a `<br>`. */
  lemma MailsAddressed(from: string, notificationEmail: string, msg: Message)
    ensures NotificationMail(from, notificationEmail, msg).to == ReceiptMail(from, notificationEmail, msg).replyTo.value
    ensures ReceiptMail(from, notificationEmail, msg).to == NotificationMail(from, notificationEmail, msg).replyTo.value
    ensures NotificationMail(from, notificationEmail, msg).from == ReceiptMail(from, notificationEmail, msg).from == from
    ensures NotificationMail(from, notificationEmail, msg).body == ReceiptMail(from, notificationEmail, msg).body
    ensures LtOnlyInBreaks(NotificationMail(from, notificationEmail, msg).body)
    ensures forall c :: c in NotificationMail(from, notificationEmail, msg).body ==> c !in "\"'/\n"
    ensures Unescape(NotificationMail(from, notificationEmail, msg).body) == msg.message
  {
    EscapeHtmlOutput(msg.message);
    EscapeHtmlRoundTrip(msg.message);
  }

  /** What one task does, in order: `sending`, both sends, the outcome. */
  function TaskEffects(id: int, notification: Email, receipt: Email, d: Delivery): seq<Effect> {
    [ Effect.SetStatus(id, Sending),
      Send(notification, d.notificationOk),
      Send(receipt, d.receiptOk),
      Effect.SetStatus(id, FinalStatus(d.notificationOk, d.receiptOk)) ]
  }

  /** The spawned task, run as one step; the mails are built before it is
      spawned. */
  method RunTask(db: Backend, id: int, notification: Email, receipt: Email, d: Delivery)
    modifies db
    ensures db.rows == old(db.rows)
    ensures db.status == old(db.status)[id := FinalStatus(d.notificationOk, d.receiptOk)]
    ensures db.log == old(db.log) + TaskEffects(id, notification, receipt, d)
  {
    db.SetStatus(id, Sending);
    var isOk := true;
    var notificationResult := db.Send(notification, d.notificationOk);
    if !notificationResult {
      isOk := false;
    }
    var userResult := db.Send(receipt, d.receiptOk);
    if !userResult {
      isOk := false;
    }
    db.SetStatus(id, if isOk then Sent else Failed);
  }

  /** Everything the poll does for the dispatched messages `batch`: each
      task, then a pause. */
  function PollEffects(batch: seq<Message>, ds: seq<Delivery>, fromMap: map<string, string>, notificationEmail: string): seq<Effect>
    requires |ds| == |batch|
    requires forall i :: 0 <= i < |batch| ==> batch[i].priority in fromMap
  {
    if batch == [] then []
    else
      var last := |batch| - 1;
      PollEffects(batch[..last], ds[..last], fromMap, notificationEmail)
        + TaskEffects(batch[last].id,
            NotificationMail(fromMap[batch[last].priority], notificationEmail, batch[last]),
            ReceiptMail(fromMap[batch[last].priority], notificationEmail, batch[last]),
            ds[last])
        + [Sleep(PollPause)]
  }

  /** One more dispatched message: its task's effects, then a pause. */
  lemma PollStep(batch: seq<Message>, ds: seq<Delivery>, fromMap: map<string, string>, notificationEmail: string, i: nat)
    requires |ds| == |batch| && i < |batch|
    requires forall j :: 0 <= j <= i ==> batch[j].priority in fromMap
    ensures PollEffects(batch[..i + 1], ds[..i + 1], fromMap, notificationEmail) ==
      PollEffects(batch[..i], ds[..i], fromMap, notificationEmail)
        + TaskEffects(batch[i].id,
            NotificationMail(fromMap[batch[i].priority], notificationEmail, batch[i]),
            ReceiptMail(fromMap[batch[i].priority], notificationEmail, batch[i]),
            ds[i])
        + [Sleep(PollPause)]
  {
    assert batch[..i + 1][..i] == batch[..i] && ds[..i + 1][..i] == ds[..i];
    assert batch[..i + 1][i] == batch[i] && ds[..i + 1][i] == ds[i];
  }

  /** A task for the message, then the pause before the next one. */
  method Dispatch(db: Backend, msg: Message, from: string, notificationEmail: string, d: Delivery)
    modifies db
    ensures db.rows == old(db.rows)
    ensures db.status == old(db.status)[msg.id := FinalStatus(d.notificationOk, d.receiptOk)]
    ensures db.log == old(db.log)
      + TaskEffects(msg.id, NotificationMail(from, notificationEmail, msg), ReceiptMail(from, notificationEmail, msg), d)
      + [Sleep(PollPause)]
  {
    var notification := NotificationMail(from, notificationEmail, msg);
    var receipt := ReceiptMail(from, notificationEmail, msg);
    RunTask(db, msg.id, notification, receipt, d);
    db.Sleep(PollPause);
  }

  /** Message `i` of the batch, the ones before it dispatched: the status
      and the log move on by one task and its pause. */
  method DispatchNext(db: Backend, messages: seq<Message>, fromMap: map<string, string>,
                      notificationEmail: string, ds: seq<Delivery>,
                      i: nat, ghost status0: map<int, Status>, ghost log0: seq<Effect>)
    requires |ds| == |messages| && i < |messages|
    requires forall j :: 0 <= j <= i ==> messages[j].priority in fromMap
    requires db.status == StatusAfter(status0, messages[..i], ds[..i])
    requires db.log == log0 + PollEffects(messages[..i], ds[..i], fromMap, notificationEmail)
    modifies db
    ensures db.rows == old(db.rows)
    ensures db.status == StatusAfter(status0, messages[..i + 1], ds[..i + 1])
    ensures db.log == log0 + PollEffects(messages[..i + 1], ds[..i + 1], fromMap, notificationEmail)
  {
    var msg := messages[i];
    var from := fromMap[msg.priority];
    StatusAfterStep(status0, messages, ds, i);
    PollStep(messages, ds, fromMap, notificationEmail, i);
    ghost var pe := PollEffects(messages[..i], ds[..i], fromMap, notificationEmail);
    ghost var te := TaskEffects(msg.id, NotificationMail(from, notificationEmail, msg),
      ReceiptMail(from, notificationEmail, msg), ds[i]);
    Dispatch(db, msg, from, notificationEmail, ds[i]);
    SeqAssoc(log0, pe, te);
    SeqAssoc(log0, pe + te, [Sleep(PollPause)]);
  }

  /** The `for msg in messages` loop over a non-empty poll: each message,
      in order, gets a task and a pause, until a message with an unknown
      priority panics the worker. */
  method DispatchBatch(db: Backend, messages: seq<Message>, fromMap: map<string, string>,
                       notificationEmail: string, ds: seq<Delivery>)
    returns (panicked: bool)
    requires |ds| == |messages|
    modifies db
    ensures db.rows == old(db.rows)
    ensures panicked == (Dispatched(messages, fromMap) < |messages|)
    ensures db.status == StatusAfter(old(db.status), messages[..Dispatched(messages, fromMap)], ds[..Dispatched(messages, fromMap)])
    ensures db.log == old(db.log) + PollEffects(messages[..Dispatched(messages, fromMap)], ds[..Dispatched(messages, fromMap)], fromMap, notificationEmail)
  {
    ghost var status0 := db.status;
    ghost var log0 := db.log;
    ghost var n := Dispatched(messages, fromMap);
    for i := 0 to |messages|
      invariant i <= n
      invariant db.rows == old(db.rows)
      invariant db.status == StatusAfter(status0, messages[..i], ds[..i])
      invariant db.log == log0 + PollEffects(messages[..i], ds[..i], fromMap, notificationEmail)
    {
      var msg := messages[i];
      var from := FromAddress(fromMap, msg.priority);
      if from.None? {
        assert i == n;
        return true;
      }
      assert i < n;
      DispatchNext(db, messages, fromMap, notificationEmail, ds, i, status0, log0);
    }
    assert n == |messages|;
    return false;
  }

  /** One pass of the worker's loop: an empty poll pauses and changes
      nothing; otherwise the pending messages are dispatched in table
      order. `ds` holds the mailer's verdicts for the pending messages. */
  method Poll(db: Backend, fromMap: map<string, string>, notificationEmail: string, ds: seq<Delivery>)
    returns (panicked: bool)
    requires |ds| == |PendingMessages(db.rows, db.status)|
    modifies db
    ensures db.rows == old(db.rows)
    ensures PendingMessages(old(db.rows), old(db.status)) == [] ==>
      !panicked && db.status == old(db.status) && db.log == old(db.log) + [Sleep(PollPause)]
    ensures
      var batch := PendingMessages(old(db.rows), old(db.status));
      var n := Dispatched(batch, fromMap);
      batch != [] ==>
        && panicked == (n < |batch|)
        && db.status == StatusAfter(old(db.status), batch[..n], ds[..n])
        && db.log == old(db.log) + PollEffects(batch[..n], ds[..n], fromMap, notificationEmail)
  {
    var messages := PendingMessages(db.rows, db.status);
    if messages == [] {
      db.Sleep(PollPause);
      return false;
    }
    panicked := DispatchBatch(db, messages, fromMap, notificationEmail, ds);
  }

  /** Every task marks its message `sending` before either send, and
      attempts both sends whatever the first one's verdict. */
  lemma TaskOrder(id: int, notification: Email, receipt: Email, d: Delivery)
    ensures
      var e := TaskEffects(id, notification, receipt, d);
      && e[0] == Effect.SetStatus(id, Sending)
      && (forall i :: 0 <= i < |e| && e[i].Send? ==> 0 < i < |e| - 1)
      && (exists i :: 0 <= i < |e| && e[i] == Send(notification, d.notificationOk))
      && (exists i :: 0 <= i < |e| && e[i] == Send(receipt, d.receiptOk))
      && e[|e| - 1] == Effect.SetStatus(id, FinalStatus(d.notificationOk, d.receiptOk))
  {
    var e := TaskEffects(id, notification, receipt, d);
    assert e[1] == Send(notification, d.notificationOk);
    assert e[2] == Send(receipt, d.receiptOk);
  }
}
