/** What the two delivery workers share: the `messages` table, the mail
    they send, and the order in which their effects happen. */
module Mail {
  import opened Wrappers

  /** The `status` column of the `messages` table. */
  datatype Status = Pending | Sending | Sent | Failed

  /** A row of the `messages` table, as the workers select it. */
  datatype Message = Message(
    id: int,
    name: string,
    email: string,
    message: string,
    priority: string,
    sender: string,
    submittedTime: int)

  /** A mail handed to the mailer; the older worker sets no reply-to. */
  datatype Email = Email(from: string, to: string, replyTo: Option<string>, subject: string, body: string)

  /** What a worker does to the outside world, in order: a status update, a
      send attempt with the mailer's verdict, or a pause. */
  datatype Effect =
    | SetStatus(id: int, status: Status)
    | Send(mail: Email, ok: bool)
    | Sleep(seconds: nat)

  /** The pause after each message and between polls, in seconds. */
  const PollPause: nat := 10

  /** The three priorities a message can have. */
  const Standard: string := "standard"
  const Urgent: string := "urgent"
  const Immediate: string := "immediate"

  /** A delivery's status: `sent` exactly when both sends succeeded. */
  function FinalStatus(notificationOk: bool, receiptOk: bool): (s: Status)
    ensures s == Sent <==> notificationOk && receiptOk
    ensures s == Sent || s == Failed
  {
    if notificationOk && receiptOk then Sent else Failed
  }

  /** The rows `SELECT … WHERE status = 'pending'` returns, in table order. */
  function PendingMessages(rows: seq<Message>, status: map<int, Status>): (batch: seq<Message>)
    ensures |batch| <= |rows|
    ensures forall m :: m in batch <==> m in rows && m.id in status && status[m.id] == Pending
  {
    if rows == [] then []
    else
      var rest := PendingMessages(rows[1..], status);
      var m := rows[0];
      assert forall x :: x in rows <==> x == m || x in rows[1..];
      if m.id in status && status[m.id] == Pending then [m] + rest else rest
  }

  /** No two rows share an id: `id` is the table's key. */
  predicate DistinctIds(s: seq<Message>) {
    forall i, j :: 0 <= i < j < |s| ==> s[i].id != s[j].id
  }

  /** The pending rows keep the table's order, so their ids stay distinct. */
  lemma {:induction false} PendingDistinct(rows: seq<Message>, status: map<int, Status>)
    requires DistinctIds(rows)
    ensures DistinctIds(PendingMessages(rows, status))
  {
    if rows != [] {
      PendingDistinct(rows[1..], status);
      var rest := PendingMessages(rows[1..], status);
      forall x | x in rest ensures x.id != rows[0].id {
        var k :| 0 <= k < |rows[1..]| && rows[1..][k] == x;
        assert rows[k + 1] == x;
      }
    }
  }

  /** The mailer's verdicts on a message's two sends. */
  datatype Delivery = Delivery(notificationOk: bool, receiptOk: bool)

  /** The notification's subject, from the capitalised priority and sender class. */
  function NotificationSubject(priority: string, name: string, sender: string): string {
    "[Enviame] " + priority + " Message from " + name + "(" + sender + ")"
  }

  /** The receipt's subject, from the capitalised priority. */
  function ReceiptSubject(priority: string): string {
    "[Enviame] " + priority + " Message Delivered"
  }

  /** Both subjects open with the tag and the priority; the notification
      goes on with "from", the sender's name and class in parentheses, the
      receipt with "Delivered", so the two never coincide. */
  lemma SubjectsTagged(priority: string, name: string, sender: string)
    ensures var head, n, r := "[Enviame] " + priority + " Message ",
        NotificationSubject(priority, name, sender), ReceiptSubject(priority);
      && |head| < |n| && |head| < |r|
      && n[..|head|] == head && r[..|head|] == head
      && n[|head|..|head| + 5] == "from " && r[|head|..] == "Delivered"
      && n[|head| + 5..|head| + 5 + |name|] == name
      && n[|n| - 1] == ')'
      && n != r
  {
    var head := "[Enviame] " + priority + " Message ";
    var n, r := NotificationSubject(priority, name, sender), ReceiptSubject(priority);
    assert n == head + ("from " + name + "(" + sender + ")");
    assert r == head + "Delivered";
    assert n[|head|] == 'f' && r[|head|] == 'D';
  }

  /** How many messages of the batch are dispatched: all of them, or those
      before the first with a priority outside the map. */
  function Dispatched(batch: seq<Message>, fromMap: map<string, string>): (n: nat)
    ensures n <= |batch|
    ensures forall i :: 0 <= i < n ==> batch[i].priority in fromMap
    ensures n < |batch| ==> batch[n].priority !in fromMap
  {
    if batch == [] then 0
    else if batch[0].priority !in fromMap then 0
    else 1 + Dispatched(batch[1..], fromMap)
  }

  /** The status column after the tasks for `batch` have run. */
  function StatusAfter(status: map<int, Status>, batch: seq<Message>, ds: seq<Delivery>): map<int, Status>
    requires |ds| == |batch|
  {
    if batch == [] then status
    else
      var last := |batch| - 1;
      StatusAfter(status, batch[..last], ds[..last])[batch[last].id := FinalStatus(ds[last].notificationOk, ds[last].receiptOk)]
  }

  /** One more task: its message's row gets the task's outcome. */
  lemma StatusAfterStep(status: map<int, Status>, batch: seq<Message>, ds: seq<Delivery>, i: nat)
    requires |ds| == |batch| && i < |batch|
    ensures StatusAfter(status, batch[..i + 1], ds[..i + 1]) ==
      StatusAfter(status, batch[..i], ds[..i])[batch[i].id := FinalStatus(ds[i].notificationOk, ds[i].receiptOk)]
  {
    assert batch[..i + 1][..i] == batch[..i] && ds[..i + 1][..i] == ds[..i];
    assert batch[..i + 1][i] == batch[i] && ds[..i + 1][i] == ds[i];
  }

  /** A row no task touches keeps its status. */
  lemma {:induction false} StatusAfterFrame(status: map<int, Status>, batch: seq<Message>, ds: seq<Delivery>, id: int)
    requires |ds| == |batch|
    requires forall i :: 0 <= i < |batch| ==> batch[i].id != id
    ensures id in StatusAfter(status, batch, ds) <==> id in status
    ensures id in status ==> StatusAfter(status, batch, ds)[id] == status[id]
    decreases |batch|
  {
    if batch != [] {
      var last := |batch| - 1;
      assert forall i :: 0 <= i < last ==> batch[..last][i] == batch[i];
      StatusAfterFrame(status, batch[..last], ds[..last], id);
    }
  }

  /** Every dispatched message ends `sent` or `failed`. */
  lemma {:induction false} StatusAfterSettled(status: map<int, Status>, batch: seq<Message>, ds: seq<Delivery>, i: nat)
    requires |ds| == |batch| && i < |batch|
    ensures batch[i].id in StatusAfter(status, batch, ds)
    ensures StatusAfter(status, batch, ds)[batch[i].id] == Sent || StatusAfter(status, batch, ds)[batch[i].id] == Failed
    decreases |batch|
  {
    var last := |batch| - 1;
    if i < last {
      assert batch[..last][i] == batch[i];
      StatusAfterSettled(status, batch[..last], ds[..last], i);
    }
  }

  /** With distinct ids, each dispatched message ends with its own verdict:
      `sent` exactly when both its sends succeeded. */
  lemma {:induction false} StatusAfterOwnVerdict(status: map<int, Status>, batch: seq<Message>, ds: seq<Delivery>, i: nat)
    requires |ds| == |batch| && i < |batch|
    requires DistinctIds(batch)
    ensures batch[i].id in StatusAfter(status, batch, ds)
    ensures StatusAfter(status, batch, ds)[batch[i].id] == FinalStatus(ds[i].notificationOk, ds[i].receiptOk)
    ensures StatusAfter(status, batch, ds)[batch[i].id] == Sent <==> ds[i].notificationOk && ds[i].receiptOk
    decreases |batch|
  {
    StatusAfterSettled(status, batch, ds, i);
    var last := |batch| - 1;
    if i < last {
      assert batch[..last][i] == batch[i] && ds[..last][i] == ds[i];
      assert DistinctIds(batch[..last]) by {
        forall p, q | 0 <= p < q < last ensures batch[..last][p].id != batch[..last][q].id {
          assert batch[..last][p] == batch[p] && batch[..last][q] == batch[q];
        }
      }
      StatusAfterOwnVerdict(status, batch[..last], ds[..last], i);
      assert batch[last].id != batch[i].id;
    }
  }

  lemma SeqAssoc<T>(a: seq<T>, b: seq<T>, c: seq<T>)
    ensures a + (b + c) == a + b + c
  {
  }

  /** The `messages` table, the mailer and the clock, as the workers see
      them: `rows` is what the select reads, `status` the column the
      workers write, `log` everything done so far. */
  class Backend {
    var rows: seq<Message>
    var status: map<int, Status>
    ghost var log: seq<Effect>

    constructor(rows: seq<Message>, status: map<int, Status>)
      ensures this.rows == rows && this.status == status && log == []
    {
      this.rows := rows;
      this.status := status;
      log := [];
    }

    /** `UPDATE messages SET status = $1 WHERE id = $2`. */
    method SetStatus(id: int, s: Status)
      modifies this
      ensures rows == old(rows) && status == old(status)[id := s]
      ensures log == old(log) + [Effect.SetStatus(id, s)]
    {
      status := status[id := s];
      log := log + [Effect.SetStatus(id, s)];
    }

    /** A send attempt; `ok` is the mailer's verdict, given from outside. */
    method Send(mail: Email, ok: bool) returns (sent: bool)
      modifies this
      ensures sent == ok
      ensures rows == old(rows) && status == old(status)
      ensures log == old(log) + [Effect.Send(mail, ok)]
    {
      sent := ok;
      log := log + [Effect.Send(mail, ok)];
    }

    /** `sleep(Duration::from_secs(seconds))`. */
    method Sleep(seconds: nat)
      modifies this
      ensures rows == old(rows) && status == old(status)
      ensures log == old(log) + [Effect.Sleep(seconds)]
    {
      log := log + [Effect.Sleep(seconds)];
    }
  }
}
