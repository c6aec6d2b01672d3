/** The older `email_worker` of `src/worker.rs`: it polls the pending
    messages and handles them one after another, with no `sending` state:
    both sends, then `sent` or `failed`, then a pause; and a pause after
    each poll. The mail bodies are its two HTML templates with their
    placeholders replaced; the template text itself is a parameter. */
module LegacyDeliveryWorker {
  import opened Wrappers
  import opened Strings
  import opened Utils
  import opened Mail
  import opened MailTemplates
  import DeliveryWorker

  /** `SMTP_FROM`, `SMTP_FROM_URGENT` and `SMTP_FROM_IMMEDIATE`, when set. */
  datatype Env = Env(smtpFrom: Option<string>, smtpFromUrgent: Option<string>, smtpFromImmediate: Option<string>)

  /** The two templates, `NOTIFICATION_EMAIL_TEMPLATE` and `USER_EMAIL_TEMPLATE`. */
  datatype Templates = Templates(notification: string, user: string)

  /** The priority to from-address map: nothing when `SMTP_FROM` is unset,
      where the worker panics; the urgent and immediate senders fall back
      to `SMTP_FROM`. */
  function FromMap(env: Env): Option<map<string, string>> {
    match env.smtpFrom
    case None => None
    case Some(standard) =>
      Some(map[Standard := standard,
               Urgent := env.smtpFromUrgent.GetOr(standard),
               Immediate := env.smtpFromImmediate.GetOr(standard)])
  }

  /** `from_map`, built by three inserts after reading the environment. */
  method BuildFromMap(env: Env) returns (fromMap: Option<map<string, string>>)
    ensures fromMap == FromMap(env)
  {
    if env.smtpFrom.None? {
      return None;
    }
    var fromStandard := env.smtpFrom.value;
    var fromUrgent := if env.smtpFromUrgent.Some? then env.smtpFromUrgent.value else fromStandard;
    var fromImmediate := if env.smtpFromImmediate.Some? then env.smtpFromImmediate.value else fromStandard;
    var m: map<string, string> := map[];
    m := m[Standard := fromStandard];
    m := m[Urgent := fromUrgent];
    m := m[Immediate := fromImmediate];
    fromMap := Some(m);
  }

  /** The fallbacks: standard mail always comes from `SMTP_FROM`; urgent and
      immediate mail from their own variable when set, else from
      `SMTP_FROM`; no other priority has a sender. */
  lemma FromMapFallbacks(env: Env, priority: string)
    ensures FromMap(env).Some? <==> env.smtpFrom.Some?
    ensures FromMap(env).Some? ==>
      && FromMap(env).value[Standard] == env.smtpFrom.value
      && FromMap(env).value[Urgent] == (if env.smtpFromUrgent.Some? then env.smtpFromUrgent.value else env.smtpFrom.value)
      && FromMap(env).value[Immediate] == (if env.smtpFromImmediate.Some? then env.smtpFromImmediate.value else env.smtpFrom.value)
      && (priority in FromMap(env).value <==> priority == Standard || priority == Urgent || priority == Immediate)
  {
  }

  /** The message as the bodies show it: `replace("\n", "<br>")`. */
  function MessageHtml(m: string): string {
    ReplaceAll(m, "\n", "<br>")
  }

  /** Only newlines are rewritten: every other character, markup included,
      reaches the body as written. */
  lemma MessageHtmlNewlinesOnly(m: string)
    ensures MessageHtml(m) == ReplaceChar(m, '\n', "<br>")
    ensures '\n' !in MessageHtml(m)
    ensures '\n' !in m ==> MessageHtml(m) == m
    ensures forall c :: c in MessageHtml(m) ==> c in m || c in "<br>"
  {
    ReplaceAllOneChar(m, '\n', "<br>");
    ReplaceCharFrom(m, '\n', "<br>");
  }

  /** Markup in a message survives into the older worker's mails, where
      the newer worker's escaping leaves no `<` outside a `<br>`. */
  lemma MessageHtmlKeepsMarkup()
    ensures MessageHtml("<b>") == "<b>"
    ensures !LtOnlyInBreaks(MessageHtml("<b>"))
    ensures LtOnlyInBreaks(EscapeHtml("<b>"))
  {
    assert '\n' !in "<b>";
    MessageHtmlNewlinesOnly("<b>");
    assert "<b>"[0] == '<';
    EscapeHtmlOutput("<b>");
  }

  /** The notification body: the message first, then priority, name,
      e-mail, sender class, both times and the version. */
  function NotificationBody(template: string, msg: Message, submitted: string, delivered: string, version: string): string {
    var s1 := ReplaceAll(template, "{{message}}", MessageHtml(msg.message));
    var s2 := ReplaceAll(s1, "{{priority}}", CapitalizeFirst(msg.priority));
    var s3 := ReplaceAll(s2, "{{name}}", msg.name);
    var s4 := ReplaceAll(s3, "{{email}}", msg.email);
    var s5 := ReplaceAll(s4, "{{status}}", CapitalizeFirst(msg.sender));
    var s6 := ReplaceAll(s5, "{{submitted_time}}", submitted);
    var s7 := ReplaceAll(s6, "{{delivered_time}}", delivered);
    ReplaceAll(s7, "{{version}}", version)
  }

  /** The receipt body: name, e-mail, then the message, then the version. */
  function UserBody(template: string, msg: Message, version: string): string {
    var s1 := ReplaceAll(template, "{{name}}", msg.name);
    var s2 := ReplaceAll(s1, "{{email}}", msg.email);
    var s3 := ReplaceAll(s2, "{{message}}", MessageHtml(msg.message));
    ReplaceAll(s3, "{{version}}", version)
  }

  /** In `pre{{message}}post`, with no `{` in `pre` or `post`, no
      placeholder other than `{{message}}` occurs. */
  lemma OnlyMessagePlaceholder(pre: string, post: string, pat: string)
    requires '{' !in pre && '{' !in post
    requires |pat| >= 3 && pat[0] == '{' && pat[1] == '{' && pat[2] != 'm'
    ensures !Contains(pre + "{{message}}" + post, pat)
  {
    var s, k := pre + "{{message}}" + post, |pre|;
    forall j | 0 <= j < |s| && j != k && j != k + 1
      ensures s[j] != '{'
    {
      if j < k {
        assert s[j] == pre[j];
      } else if j < k + 11 {
        assert s[j] == "{{message}}"[j - k];
      } else {
        assert s[j] == post[j - k - 11];
      }
    }
  }

  /** What the notification fills, in its order of replacement. */
  function NotificationFields(msg: Message, submitted: string, delivered: string, version: string): map<string, string> {
    map["message" := MessageHtml(msg.message), "priority" := CapitalizeFirst(msg.priority),
        "name" := msg.name, "email" := msg.email, "status" := CapitalizeFirst(msg.sender),
        "submitted_time" := submitted, "delivered_time" := delivered, "version" := version]
  }

  /** What the receipt fills, in its order of replacement. */
  function UserFields(msg: Message, version: string): map<string, string> {
    map["name" := msg.name, "email" := msg.email, "message" := MessageHtml(msg.message), "version" := version]
  }

  /** Capitalising adds no brace. */
  lemma CapitalizeFirstNoBrace(s: string)
    requires '{' !in s
    ensures '{' !in CapitalizeFirst(s)
  {
    var r := CapitalizeFirst(s);
    if s != [] {
      assert s[0] in s;
      assert r == [r[0]] + s[1..];
    }
  }

  /** Turning newlines into `<br>` adds no brace. */
  lemma MessageHtmlNoBrace(m: string)
    requires '{' !in m
    ensures '{' !in MessageHtml(m)
  {
    MessageHtmlNewlinesOnly(m);
  }

  /** The notification body of a well-formed template: every placeholder
      among the eight is filled with its value, the message with newlines
      as `<br>`, priority and sender class capitalised; all other text,
      style blocks included, stays as written. The values filled before
      the last carry no `{`, so none of them is read as a placeholder. */
  lemma NotificationBodyFills(ps: seq<Piece>, msg: Message, submitted: string, delivered: string, version: string)
    requires WellFormed(ps)
    requires '{' !in msg.message && '{' !in msg.priority && '{' !in msg.name && '{' !in msg.email
    requires '{' !in msg.sender && '{' !in submitted && '{' !in delivered
    ensures NotificationBody(Render(ps), msg, submitted, delivered, version)
      == Expand(ps, NotificationFields(msg, submitted, delivered, version))
  {
    var h, p, st := MessageHtml(msg.message), CapitalizeFirst(msg.priority), CapitalizeFirst(msg.sender);
    MessageHtmlNoBrace(msg.message);
    CapitalizeFirstNoBrace(msg.priority);
    CapitalizeFirstNoBrace(msg.sender);
    var f0: map<string, string> := map[];
    var f1 := f0["message" := h];
    var f2 := f1["priority" := p];
    var f3 := f2["name" := msg.name];
    var f4 := f3["email" := msg.email];
    NotificationFirstFour(ps, h, p, msg.name, msg.email);
    NotificationLastFour(ps, f4, st, submitted, delivered, version);
  }

  lemma NotificationFirstFour(ps: seq<Piece>, h: string, p: string, name: string, email: string)
    requires WellFormed(ps)
    requires '{' !in h && '{' !in p && '{' !in name
    ensures ReplaceAll(ReplaceAll(ReplaceAll(ReplaceAll(Render(ps),
      "{{message}}", h), "{{priority}}", p), "{{name}}", name), "{{email}}", email)
      == Expand(ps, map["message" := h, "priority" := p, "name" := name, "email" := email])
  {
    var f0: map<string, string> := map[];
    var f1 := f0["message" := h];
    var f2 := f1["priority" := p];
    var f3 := f2["name" := name];
    SpellingFirstFour();
    ReplaceFills(ps, f0, "message", h);
    ReplaceFills(ps, f1, "priority", p);
    ReplaceFills(ps, f2, "name", name);
    ReplaceFills(ps, f3, "email", email);
  }

  lemma NotificationLastFour(ps: seq<Piece>, f4: map<string, string>, st: string, submitted: string, delivered: string, version: string)
    requires WellFormed(ps)
    requires forall k :: k in f4 ==> '{' !in f4[k]
    requires "status" !in f4 && "submitted_time" !in f4 && "delivered_time" !in f4 && "version" !in f4
    requires '{' !in st && '{' !in submitted && '{' !in delivered
    ensures ReplaceAll(ReplaceAll(ReplaceAll(ReplaceAll(Expand(ps, f4),
      "{{status}}", st), "{{submitted_time}}", submitted), "{{delivered_time}}", delivered), "{{version}}", version)
      == Expand(ps, f4["status" := st]["submitted_time" := submitted]["delivered_time" := delivered]["version" := version])
  {
    var f5 := f4["status" := st];
    var f6 := f5["submitted_time" := submitted];
    var f7 := f6["delivered_time" := delivered];
    SpellingStatusVersion();
    SpellingTimes();
    ReplaceFills(ps, f4, "status", st);
    ReplaceFills(ps, f5, "submitted_time", submitted);
    ReplaceFills(ps, f6, "delivered_time", delivered);
    ReplaceFills(ps, f7, "version", version);
  }

  /** The receipt body of a well-formed template: name, e-mail, message
      and version placeholders are filled with their values, the message
      with newlines as `<br>`; all other text stays as written. */
  lemma UserBodyFills(ps: seq<Piece>, msg: Message, version: string)
    requires WellFormed(ps)
    requires '{' !in msg.name && '{' !in msg.email && '{' !in msg.message
    ensures UserBody(Render(ps), msg, version) == Expand(ps, UserFields(msg, version))
  {
    var h := MessageHtml(msg.message);
    MessageHtmlNoBrace(msg.message);
    var f0: map<string, string> := map[];
    var f1 := f0["name" := msg.name];
    var f2 := f1["email" := msg.email];
    var f3 := f2["message" := h];
    SpellingFirstFour();
    SpellingStatusVersion();
    ReplaceFills(ps, f0, "name", msg.name);
    ReplaceFills(ps, f1, "email", msg.email);
    ReplaceFills(ps, f2, "message", h);
    ReplaceFills(ps, f3, "version", version);
  }

  /** The placeholders the notification replaces first, and their names. */
  lemma SpellingFirstFour()
    ensures Placeholder("message") == "{{message}}" && Placeholder("priority") == "{{priority}}"
    ensures Placeholder("name") == "{{name}}" && Placeholder("email") == "{{email}}"
    ensures ValidName("message") && ValidName("priority") && ValidName("name") && ValidName("email")
  {
  }

  /** The sender-class and version placeholders, and their names. */
  lemma SpellingStatusVersion()
    ensures Placeholder("status") == "{{status}}" && Placeholder("version") == "{{version}}"
    ensures ValidName("status") && ValidName("version")
  {
  }

  /** The two time placeholders, and their names. */
  lemma SpellingTimes()
    ensures Placeholder("submitted_time") == "{{submitted_time}}"
    ensures Placeholder("delivered_time") == "{{delivered_time}}"
    ensures ValidName("submitted_time") && ValidName("delivered_time")
  {
  }

  /** The order of the replacements shows: the notification fills the
      message first, so a placeholder written in a message is filled in
      turn, while the receipt fills the name before the message, so the
      same text reaches the submitter as written. */
  lemma PlaceholderInMessage(template: string, msg: Message, submitted: string, delivered: string, version: string)
    requires template == "{{message}}" && msg.message == "{{name}}" && '{' !in msg.name
    ensures NotificationBody(template, msg, submitted, delivered, version) == msg.name
    ensures UserBody(template, msg, version) == msg.message
  {
    NotificationExpandsName(template, msg, submitted, delivered, version);
    ReceiptKeepsName(template, msg, version);
  }

  lemma NotificationExpandsName(template: string, msg: Message, submitted: string, delivered: string, version: string)
    requires template == "{{message}}" && msg.message == "{{name}}" && '{' !in msg.name
    ensures NotificationBody(template, msg, submitted, delivered, version) == msg.name
  {
    var m, n := msg.message, msg.name;
    assert '\n' !in m;
    MessageHtmlNewlinesOnly(m);
    ReplaceAllWhole(template, m);
    ReplaceAllShort(m, "{{priority}}", CapitalizeFirst(msg.priority));
    ReplaceAllWhole(m, n);
    ReplaceAllAbsent(n, "{{email}}", msg.email);
    ReplaceAllAbsent(n, "{{status}}", CapitalizeFirst(msg.sender));
    ReplaceAllAbsent(n, "{{submitted_time}}", submitted);
    ReplaceAllAbsent(n, "{{delivered_time}}", delivered);
    ReplaceAllAbsent(n, "{{version}}", version);
  }

  lemma ReceiptKeepsName(template: string, msg: Message, version: string)
    requires template == "{{message}}" && msg.message == "{{name}}"
    ensures UserBody(template, msg, version) == msg.message
  {
    var m := msg.message;
    MessagePlaceholderAlone(template, msg.name, msg.email);
    assert '\n' !in m;
    MessageHtmlNewlinesOnly(m);
    ReplaceAllWhole(template, m);
    ReplaceAllShort(m, "{{version}}", version);
  }

  /** The receipt fills the version after the message, so a `{{version}}`
      written in a message does reach the submitter filled in. */
  lemma ReceiptExpandsVersion(template: string, msg: Message, version: string)
    requires template == "{{message}}" && msg.message == "{{version}}"
    ensures UserBody(template, msg, version) == version
  {
    var m := msg.message;
    MessagePlaceholderAlone(template, msg.name, msg.email);
    assert '\n' !in m;
    MessageHtmlNewlinesOnly(m);
    ReplaceAllWhole(template, m);
    ReplaceAllWhole(m, version);
  }

  /** A template that is just `{{message}}` has no name or e-mail
      placeholder to fill. */
  lemma MessagePlaceholderAlone(template: string, name: string, email: string)
    requires template == "{{message}}"
    ensures ReplaceAll(ReplaceAll(template, "{{name}}", name), "{{email}}", email) == template
  {
    assert [] + template + [] == template;
    OnlyMessagePlaceholder([], [], "{{name}}");
    OnlyMessagePlaceholder([], [], "{{email}}");
  }

  /** What the worker knows when it sends a message's mails. */
  datatype Context = Context(
    fromMap: map<string, string>,
    notificationEmail: string,
    templates: Templates,
    version: string,
    formatTime: int -> string)

  /** The notification: to the owner, with no reply-to. */
  function NotificationMail(ctx: Context, from: string, msg: Message, delivered: string): Email {
    Email(from, ctx.notificationEmail, None,
      NotificationSubject(CapitalizeFirst(msg.priority), msg.name, CapitalizeFirst(msg.sender)),
      NotificationBody(ctx.templates.notification, msg, ctx.formatTime(msg.submittedTime), delivered, ctx.version))
  }

  /** The receipt: to the submitter, with no reply-to. */
  function ReceiptMail(ctx: Context, from: string, msg: Message): Email {
    Email(from, msg.email, None,
      ReceiptSubject(CapitalizeFirst(msg.priority)),
      UserBody(ctx.templates.user, msg, ctx.version))
  }

  /** The older worker's mails have the recipients, sender and subjects
      of the newer worker's, but no reply-to: the owner cannot answer the
      submitter from the notification. */
  lemma MailsAddressed(ctx: Context, from: string, msg: Message, delivered: string)
    ensures var n, r := NotificationMail(ctx, from, msg, delivered), ReceiptMail(ctx, from, msg);
      var n2, r2 := DeliveryWorker.NotificationMail(from, ctx.notificationEmail, msg),
        DeliveryWorker.ReceiptMail(from, ctx.notificationEmail, msg);
      && n.from == r.from == from
      && n.to == ctx.notificationEmail && r.to == msg.email
      && n.replyTo.None? && r.replyTo.None?
      && n.to == n2.to && r.to == r2.to && n.subject == n2.subject && r.subject == r2.subject
      && n2.replyTo == Some(msg.email)
  {
  }

  /** What handling one message does, in order: both sends, the outcome,
      a pause. */
  function MessageEffects(notification: Email, receipt: Email, id: int, d: Delivery): seq<Effect> {
    [ Send(notification, d.notificationOk),
      Send(receipt, d.receiptOk),
      Effect.SetStatus(id, FinalStatus(d.notificationOk, d.receiptOk)),
      Sleep(PollPause) ]
  }

  /** One message, its mails built: both sends are attempted, then the row
      is set to the outcome, then the worker pauses. */
  method HandleMessage(db: Backend, id: int, notification: Email, receipt: Email, d: Delivery)
    modifies db
    ensures db.rows == old(db.rows)
    ensures db.status == old(db.status)[id := FinalStatus(d.notificationOk, d.receiptOk)]
    ensures db.log == old(db.log) + MessageEffects(notification, receipt, id, d)
  {
    var notificationResult := db.Send(notification, d.notificationOk);
    var userResult := db.Send(receipt, d.receiptOk);
    var newStatus := if notificationResult && userResult then Sent else Failed;
    db.SetStatus(id, newStatus);
    db.Sleep(PollPause);
  }

  /** One message of the batch: its mails, then `HandleMessage`. */
  method Handle(db: Backend, ctx: Context, from: string, msg: Message, delivered: string, d: Delivery)
    modifies db
    ensures db.rows == old(db.rows)
    ensures db.status == old(db.status)[msg.id := FinalStatus(d.notificationOk, d.receiptOk)]
    ensures db.log == old(db.log) + MessageEffects(NotificationMail(ctx, from, msg, delivered), ReceiptMail(ctx, from, msg), msg.id, d)
  {
    var notification := NotificationMail(ctx, from, msg, delivered);
    var receipt := ReceiptMail(ctx, from, msg);
    HandleMessage(db, msg.id, notification, receipt, d);
  }

  /** Everything the worker does for the handled messages `batch`, given
      the clock reading `clock[i]` at message `i`. */
  function BatchEffects(ctx: Context, batch: seq<Message>, ds: seq<Delivery>, clock: seq<string>): seq<Effect>
    requires |ds| == |batch| && |clock| == |batch|
    requires forall i :: 0 <= i < |batch| ==> batch[i].priority in ctx.fromMap
  {
    if batch == [] then []
    else
      var last := |batch| - 1;
      var msg := batch[last];
      var from := ctx.fromMap[msg.priority];
      BatchEffects(ctx, batch[..last], ds[..last], clock[..last])
        + MessageEffects(NotificationMail(ctx, from, msg, clock[last]), ReceiptMail(ctx, from, msg), msg.id, ds[last])
  }

  /** One more handled message. */
  lemma BatchStep(ctx: Context, batch: seq<Message>, ds: seq<Delivery>, clock: seq<string>, i: nat)
    requires |ds| == |batch| && |clock| == |batch| && i < |batch|
    requires forall j :: 0 <= j <= i ==> batch[j].priority in ctx.fromMap
    ensures BatchEffects(ctx, batch[..i + 1], ds[..i + 1], clock[..i + 1]) ==
      BatchEffects(ctx, batch[..i], ds[..i], clock[..i])
        + MessageEffects(
            NotificationMail(ctx, ctx.fromMap[batch[i].priority], batch[i], clock[i]),
            ReceiptMail(ctx, ctx.fromMap[batch[i].priority], batch[i]),
            batch[i].id, ds[i])
  {
    assert batch[..i + 1][..i] == batch[..i] && ds[..i + 1][..i] == ds[..i] && clock[..i + 1][..i] == clock[..i];
    assert batch[..i + 1][i] == batch[i] && ds[..i + 1][i] == ds[i] && clock[..i + 1][i] == clock[i];
  }

  /** Message `i` of the batch, the ones before it handled: the status
      and the log move on by one message. */
  method HandleNext(db: Backend, ctx: Context, messages: seq<Message>, ds: seq<Delivery>, clock: seq<string>,
                    i: nat, ghost status0: map<int, Status>, ghost log0: seq<Effect>)
    requires |ds| == |messages| && |clock| == |messages| && i < |messages|
    requires forall j :: 0 <= j <= i ==> messages[j].priority in ctx.fromMap
    requires db.status == StatusAfter(status0, messages[..i], ds[..i])
    requires db.log == log0 + BatchEffects(ctx, messages[..i], ds[..i], clock[..i])
    modifies db
    ensures db.rows == old(db.rows)
    ensures db.status == StatusAfter(status0, messages[..i + 1], ds[..i + 1])
    ensures db.log == log0 + BatchEffects(ctx, messages[..i + 1], ds[..i + 1], clock[..i + 1])
  {
    var msg := messages[i];
    var from := ctx.fromMap[msg.priority];
    StatusAfterStep(status0, messages, ds, i);
    BatchStep(ctx, messages, ds, clock, i);
    ghost var be := BatchEffects(ctx, messages[..i], ds[..i], clock[..i]);
    ghost var me := MessageEffects(NotificationMail(ctx, from, msg, clock[i]), ReceiptMail(ctx, from, msg), msg.id, ds[i]);
    Handle(db, ctx, from, msg, clock[i], ds[i]);
    SeqAssoc(log0, be, me);
  }

  /** The `for msg in messages` loop: each message in order, until a
      message with an unknown priority panics the worker on `from_map[…]`. */
  method HandleBatch(db: Backend, ctx: Context, messages: seq<Message>, ds: seq<Delivery>, clock: seq<string>)
    returns (panicked: bool)
    requires |ds| == |messages| && |clock| == |messages|
    modifies db
    ensures db.rows == old(db.rows)
    ensures panicked == (Dispatched(messages, ctx.fromMap) < |messages|)
    ensures db.status == StatusAfter(old(db.status), messages[..Dispatched(messages, ctx.fromMap)], ds[..Dispatched(messages, ctx.fromMap)])
    ensures db.log == old(db.log) + BatchEffects(ctx, messages[..Dispatched(messages, ctx.fromMap)],
      ds[..Dispatched(messages, ctx.fromMap)], clock[..Dispatched(messages, ctx.fromMap)])
  {
    ghost var status0 := db.status;
    ghost var log0 := db.log;
    ghost var n := Dispatched(messages, ctx.fromMap);
    for i := 0 to |messages|
      invariant i <= n
      invariant db.rows == old(db.rows)
      invariant db.status == StatusAfter(status0, messages[..i], ds[..i])
      invariant db.log == log0 + BatchEffects(ctx, messages[..i], ds[..i], clock[..i])
    {
      var msg := messages[i];
      if msg.priority !in ctx.fromMap {
        assert i == n;
        return true;
      }
      assert i < n;
      HandleNext(db, ctx, messages, ds, clock, i, status0, log0);
    }
    assert n == |messages|;
    return false;
  }

  /** One pass of the worker's loop: the pending messages, in table order,
      then a pause (also after an empty poll). `ds` and `clock` hold the
      mailer's verdicts and the clock readings for the pending messages. */
  method Poll(db: Backend, ctx: Context, ds: seq<Delivery>, clock: seq<string>)
    returns (panicked: bool)
    requires |ds| == |PendingMessages(db.rows, db.status)| && |clock| == |ds|
    modifies db
    ensures db.rows == old(db.rows)
    ensures
      var batch := PendingMessages(old(db.rows), old(db.status));
      var n := Dispatched(batch, ctx.fromMap);
      && panicked == (n < |batch|)
      && db.status == StatusAfter(old(db.status), batch[..n], ds[..n])
      && db.log == old(db.log) + BatchEffects(ctx, batch[..n], ds[..n], clock[..n])
        + (if panicked then [] else [Sleep(PollPause)])
  {
    var messages := PendingMessages(db.rows, db.status);
    panicked := HandleBatch(db, ctx, messages, ds, clock);
    if !panicked {
      db.Sleep(PollPause);
    }
  }

  /** The older worker never writes `sending`: every status it writes is
      `sent` or `failed`, one per handled message. */
  lemma {:induction false} NoSendingState(ctx: Context, batch: seq<Message>, ds: seq<Delivery>, clock: seq<string>)
    requires |ds| == |batch| && |clock| == |batch|
    requires forall i :: 0 <= i < |batch| ==> batch[i].priority in ctx.fromMap
    ensures forall e :: e in BatchEffects(ctx, batch, ds, clock) && e.SetStatus? ==> e.status == Sent || e.status == Failed
    decreases |batch|
  {
    if batch != [] {
      var last := |batch| - 1;
      assert forall i :: 0 <= i < last ==> batch[..last][i] == batch[i];
      NoSendingState(ctx, batch[..last], ds[..last], clock[..last]);
    }
  }
}
