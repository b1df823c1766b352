// The repair of reminders left in `processing`: four updates of one table under a partial unique index
// that admits one active reminder per user and message. Identifiers are integers in the order in which
// the database sorts them, times are integers.
module ReminderRepair {
  import opened Options

  type Id = int

  datatype Status = Active | Processing | Delivered | Cancelled

  datatype Reminder = Reminder(
    user: string,
    message: string,
    status: Status,
    notification: Option<Id>,
    deliveredAt: Option<int>,
    cancelledAt: Option<int>,
    createdAt: Option<int>,
    updatedAt: int
  )

  datatype Notification = Notification(kind: string, user: string, message: string, createdAt: Option<int>)

  type Reminders = map<Id, Reminder>
  type Notifications = map<Id, Notification>

  predicate SamePair(a: Reminder, b: Reminder) {
    a.user == b.user && a.message == b.message
  }

  // The partial unique index.
  predicate Unique(t: Reminders) {
    forall a, b | a in t && b in t && t[a].status.Active? && t[b].status.Active? && SamePair(t[a], t[b]) :: a == b
  }

  // ---------- The four statements ----------

  // The notification that the reminder points to is the one it asked for.
  predicate Notified(r: Reminder, notifications: Notifications) {
    && r.notification.Some? && r.notification.value in notifications
    && var n := notifications[r.notification.value];
       n.kind == "message_reminder" && n.user == r.user && n.message == r.message
  }

  // `created_at DESC NULLS LAST, id DESC`
  predicate Before(t: Reminders, a: Id, b: Id)
    requires a in t && b in t
  {
    match (t[a].createdAt, t[b].createdAt)
    case (Some(x), Some(y)) => x > y || (x == y && a > b)
    case (Some(_), None) => true
    case (None, Some(_)) => false
    case (None, None) => a > b
  }

  // The rows of the same pair that are still in processing.
  function Partition(t: Reminders, id: Id): set<Id>
    requires id in t
  {
    set other | other in t && t[other].status.Processing? && SamePair(t[other], t[id])
  }

  function RowNumber(t: Reminders, id: Id): (n: nat)
    requires id in t
    ensures n >= 1
  {
    1 + |set other | other in Partition(t, id) && Before(t, other, id)|
  }

  predicate HasActive(t: Reminders, id: Id)
    requires id in t
  {
    exists other | other in t :: t[other].status.Active? && SamePair(t[other], t[id])
  }

  datatype Statement = DeliverNotified | DeliverStamped | CancelLosers | Reactivate

  predicate Selects(statement: Statement, t: Reminders, notifications: Notifications, id: Id): (selected: bool)
    requires id in t
    ensures selected && statement.DeliverNotified? ==> Notified(t[id], notifications)
  {
    && t[id].status.Processing?
    && match statement
       case DeliverNotified => Notified(t[id], notifications)
       case DeliverStamped => t[id].deliveredAt.Some?
       case CancelLosers => RowNumber(t, id) > 1 || HasActive(t, id)
       case Reactivate => true
  }

  function Coalesce(a: Option<int>, b: Option<int>): Option<int> {
    if a.Some? then a else b
  }

  function Assigned(statement: Statement, r: Reminder, notifications: Notifications, now: int): Reminder
    requires statement.DeliverNotified? ==> Notified(r, notifications)
  {
    match statement
    case DeliverNotified =>
      r.(status := Delivered, deliveredAt := Coalesce(r.deliveredAt, notifications[r.notification.value].createdAt), updatedAt := now)
    case DeliverStamped => r.(status := Delivered, updatedAt := now)
    case CancelLosers => r.(status := Cancelled, cancelledAt := Some(now), updatedAt := now)
    case Reactivate => r.(status := Active, notification := None, cancelledAt := None, updatedAt := now)
  }

  // A row after a statement that sees the table `t`.
  function RowAfter(statement: Statement, t: Reminders, notifications: Notifications, now: int, id: Id): Reminder
    requires id in t
  {
    if Selects(statement, t, notifications, id) then Assigned(statement, t[id], notifications, now) else t[id]
  }

  function After(statement: Statement, t: Reminders, notifications: Notifications, now: int): Reminders {
    map id | id in t :: RowAfter(statement, t, notifications, now, id)
  }

  function Repaired(t: Reminders, notifications: Notifications, now: int): Reminders {
    var delivered := After(DeliverStamped, After(DeliverNotified, t, notifications, now), notifications, now);
    After(Reactivate, After(CancelLosers, delivered, notifications, now), notifications, now)
  }

  class Database {
    var reminders: Reminders
    const notifications: Notifications

    constructor (reminders: Reminders, notifications: Notifications)
      ensures this.reminders == reminders && this.notifications == notifications
    {
      this.reminders, this.notifications := reminders, notifications;
    }

    // One statement. It decides on the table as it was before, and writes row after row in any order;
    // the index, which looks at every single write, never refuses one.
    method Execute(statement: Statement, now: int)
      requires Unique(reminders)
      requires statement.Reactivate? ==> Unique(After(statement, reminders, notifications, now))
      modifies this
      ensures reminders == After(statement, old(reminders), notifications, now)
      ensures Unique(reminders)
    {
      hide Selects, Assigned, Partly, Unique, After;
      var before := reminders;
      var todo := reminders.Keys;
      PartlyEnds(statement, before, notifications, now);
      while todo != {}
        invariant todo <= before.Keys
        invariant reminders == Partly(statement, before, notifications, now, todo)
        invariant Unique(reminders)
      {
        assert exists id :: id in todo by {
          NotEmpty(todo);
        }
        var id :| id in todo;
        PartlyStep(statement, before, notifications, now, todo, id);
        todo := todo - {id};
        PartlyUnique(statement, before, notifications, now, todo);
        if Selects(statement, before, notifications, id) {
          reminders := reminders[id := Assigned(statement, before[id], notifications, now)];
        }
      }
    }

    method Up(now: int)
      requires Unique(reminders)
      modifies this
      ensures reminders == Repaired(old(reminders), notifications, now)
      ensures Unique(reminders)
    {
      Execute(DeliverNotified, now);
      Execute(DeliverStamped, now);
      LosersMakeRoom(reminders, notifications, now);
      Execute(CancelLosers, now);
      Execute(Reactivate, now);
    }
  }

  // The table in the middle of a statement: the rows of `todo` still wait for it.
  function Partly(statement: Statement, t: Reminders, notifications: Notifications, now: int, todo: set<Id>): Reminders {
    map id | id in t :: if id in todo then t[id] else RowAfter(statement, t, notifications, now, id)
  }

  lemma PartlyEnds(statement: Statement, t: Reminders, notifications: Notifications, now: int)
    ensures Partly(statement, t, notifications, now, t.Keys) == t
    ensures Partly(statement, t, notifications, now, {}) == After(statement, t, notifications, now)
  {
  }

  lemma PartlyStep(statement: Statement, t: Reminders, notifications: Notifications, now: int, todo: set<Id>, id: Id)
    requires id in todo && todo <= t.Keys
    ensures Partly(statement, t, notifications, now, todo - {id}) ==
      if Selects(statement, t, notifications, id)
      then Partly(statement, t, notifications, now, todo)[id := Assigned(statement, t[id], notifications, now)]
      else Partly(statement, t, notifications, now, todo)
  {
    hide Selects;
  }

  // Whatever part of the rows a statement has written, the index holds.
  lemma PartlyUnique(statement: Statement, t: Reminders, notifications: Notifications, now: int, todo: set<Id>)
    requires Unique(t)
    requires statement.Reactivate? ==> Unique(After(statement, t, notifications, now))
    ensures Unique(Partly(statement, t, notifications, now, todo))
  {
    hide Selects;
    var partly := Partly(statement, t, notifications, now, todo);
    forall a, b | a in partly && b in partly && partly[a].status.Active? && partly[b].status.Active? && SamePair(partly[a], partly[b])
      ensures a == b
    {
      if statement.Reactivate? {
        ActiveStaysActive(statement, t, notifications, now, a);
        ActiveStaysActive(statement, t, notifications, now, b);
        var after := After(statement, t, notifications, now);
        assert after[a].status.Active? && after[b].status.Active? && SamePair(after[a], after[b]);
      } else {
        assert t[a].status.Active? && t[b].status.Active?;
      }
    }
  }

  lemma ActiveStaysActive(statement: Statement, t: Reminders, notifications: Notifications, now: int, id: Id)
    requires id in t
    ensures t[id].status.Active? ==> RowAfter(statement, t, notifications, now, id) == t[id]
    ensures SamePair(RowAfter(statement, t, notifications, now, id), t[id])
  {
  }

  // ---------- Newest first ----------

  lemma BeforeIsStrictTotal(t: Reminders, a: Id, b: Id, c: Id)
    requires a in t && b in t && c in t
    ensures !(Before(t, a, b) && Before(t, b, a))
    ensures a != b ==> Before(t, a, b) || Before(t, b, a)
    ensures Before(t, a, b) && Before(t, b, c) ==> Before(t, a, c)
  {
  }

  lemma NotEmpty(rows: set<Id>)
    requires rows != {}
    ensures exists id :: id in rows
  {
    assert (forall id :: id !in rows) ==> rows == {};
  }

  // Every nonempty set of rows has a newest one.
  lemma {:induction false} Newest(t: Reminders, rows: set<Id>) returns (newest: Id)
    requires rows != {} && rows <= t.Keys
    ensures newest in rows && forall other | other in rows && other != newest :: Before(t, newest, other)
  {
    assert exists id :: id in rows by {
      NotEmpty(rows);
    }
    var some :| some in rows;
    if rows == {some} {
      newest := some;
    } else {
      var rest := rows - {some};
      assert rest == {} ==> rows == {some};
      var best := Newest(t, rest);
      newest := if Before(t, some, best) then some else best;
      forall other | other in rows && other != newest ensures Before(t, newest, other) {
        BeforeIsStrictTotal(t, some, best, other);
      }
    }
  }

  // A row has number one exactly when no other of its partition comes before it.
  lemma FirstIsNewest(t: Reminders, id: Id)
    requires id in t
    ensures RowNumber(t, id) == 1 <==> forall other | other in Partition(t, id) :: !Before(t, other, id)
  {
    var earlier := set other | other in Partition(t, id) && Before(t, other, id);
    if earlier == {} {
      forall other | other in Partition(t, id) ensures !Before(t, other, id) {
        assert other !in earlier;
      }
    } else {
      var other :| other in earlier;
      assert other in Partition(t, id) && Before(t, other, id);
    }
  }

  // Once the losers are cancelled, reactivating all that is left keeps the index.
  lemma LosersMakeRoom(t: Reminders, notifications: Notifications, now: int)
    requires Unique(t)
    ensures Unique(After(Reactivate, After(CancelLosers, t, notifications, now), notifications, now))
  {
    var cut := After(CancelLosers, t, notifications, now);
    var end := After(Reactivate, cut, notifications, now);
    forall a, b | a in end && b in end && end[a].status.Active? && end[b].status.Active? && SamePair(end[a], end[b])
      ensures a == b
    {
      KeptIsAlone(t, notifications, now, a, b);
    }
  }

  lemma KeptIsAlone(t: Reminders, notifications: Notifications, now: int, a: Id, b: Id)
    requires Unique(t) && a in t && b in t && SamePair(t[a], t[b])
    requires Remains(t, a) && Remains(t, b)
    ensures a == b
  {
    if t[a].status.Processing? && t[b].status.Processing? {
      FirstIsNewest(t, a);
      FirstIsNewest(t, b);
      assert a in Partition(t, b) && b in Partition(t, a);
      BeforeIsStrictTotal(t, a, b, a);
    }
  }

  // Active, or in processing and not among the losers.
  predicate Remains(t: Reminders, id: Id)
    requires id in t
  {
    || t[id].status.Active?
    || (t[id].status.Processing? && RowNumber(t, id) == 1 && !HasActive(t, id))
  }

  // ---------- What the repair does to a row ----------

  predicate Undelivered(t: Reminders, notifications: Notifications, id: Id)
    requires id in t
  {
    t[id].status.Processing? && !Notified(t[id], notifications) && t[id].deliveredAt.None?
  }

  // The row that is to be the active one of its pair: the old active one, or else the newest of those
  // in processing that were not delivered.
  predicate Chosen(t: Reminders, notifications: Notifications, id: Id)
    requires id in t
  {
    if HasActive(t, id) then t[id].status.Active?
    else
      && Undelivered(t, notifications, id)
      && forall other | other in t && Undelivered(t, notifications, other) && SamePair(t[other], t[id]) && other != id :: Before(t, id, other)
  }

  // Without an active reminder of the pair, the chosen one is that of the latest date among the undelivered
  // ones, where no date counts as the earliest, and of these the one with the greatest identifier.
  lemma ChosenIsLatest(t: Reminders, notifications: Notifications, id: Id)
    requires id in t && !HasActive(t, id)
    ensures Chosen(t, notifications, id) <==>
      && Undelivered(t, notifications, id)
      && forall other | other in t && Undelivered(t, notifications, other) && SamePair(t[other], t[id]) ::
           && (t[other].createdAt.Some? ==> t[id].createdAt.Some? && t[other].createdAt.value <= t[id].createdAt.value)
           && (t[other].createdAt == t[id].createdAt ==> other <= id)
  {
  }

  function AfterDelivery(t: Reminders, notifications: Notifications, now: int): Reminders {
    After(DeliverStamped, After(DeliverNotified, t, notifications, now), notifications, now)
  }

  // Delivered, at its own stamp or else at the time of the notification it asked for.
  function MarkedDelivered(r: Reminder, notifications: Notifications, now: int): Reminder {
    var at := if r.deliveredAt.None? && Notified(r, notifications) then notifications[r.notification.value].createdAt else r.deliveredAt;
    r.(status := Delivered, deliveredAt := at, updatedAt := now)
  }

  lemma DeliveryOf(t: Reminders, notifications: Notifications, now: int, id: Id)
    requires id in t
    ensures var d := AfterDelivery(t, notifications, now);
      && d.Keys == t.Keys
      && SamePair(d[id], t[id]) && d[id].createdAt == t[id].createdAt
      && (!t[id].status.Processing? || Undelivered(t, notifications, id) ==> d[id] == t[id])
      && (t[id].status.Processing? && !Undelivered(t, notifications, id) ==> d[id] == MarkedDelivered(t[id], notifications, now))
  {
  }

  lemma ChosenRemains(t: Reminders, notifications: Notifications, now: int, id: Id)
    requires id in t
    ensures Remains(AfterDelivery(t, notifications, now), id) <==> Chosen(t, notifications, id)
  {
    hide AfterDelivery;
    var d := AfterDelivery(t, notifications, now);
    forall other | other in t
      ensures d.Keys == t.Keys && SamePair(d[other], t[other]) && d[other].createdAt == t[other].createdAt
      ensures d[other].status.Active? <==> t[other].status.Active?
      ensures d[other].status.Processing? <==> Undelivered(t, notifications, other)
    {
      DeliveryOf(t, notifications, now, other);
    }
    assert d.Keys == t.Keys by { DeliveryOf(t, notifications, now, id); }
    HasActiveAlike(t, d, id);
    if Undelivered(t, notifications, id) {
      FirstIsNewest(d, id);
      forall other | other in t && Undelivered(t, notifications, other) && SamePair(t[other], t[id]) && other != id
        ensures other in Partition(d, id)
        ensures Before(t, id, other) <==> !Before(d, other, id)
      {
        BeforeIsStrictTotal(t, id, other, id);
      }
      BeforeIsStrictTotal(d, id, id, id);
    }
  }

  lemma HasActiveAlike(t: Reminders, d: Reminders, id: Id)
    requires id in t && t.Keys == d.Keys
    requires forall other | other in t :: SamePair(d[other], t[other]) && (d[other].status.Active? <==> t[other].status.Active?)
    ensures HasActive(t, id) <==> HasActive(d, id)
  {
    if HasActive(t, id) {
      var other :| other in t && t[other].status.Active? && SamePair(t[other], t[id]);
      assert d[other].status.Active? && SamePair(d[other], d[id]);
    }
    if HasActive(d, id) {
      var other :| other in d && d[other].status.Active? && SamePair(d[other], d[id]);
      assert t[other].status.Active? && SamePair(t[other], t[id]);
    }
  }

  lemma RepairedIs(t: Reminders, notifications: Notifications, now: int, id: Id)
    requires id in t
    ensures Repaired(t, notifications, now).Keys == t.Keys
    ensures var d := AfterDelivery(t, notifications, now);
      Repaired(t, notifications, now)[id] ==
        if !d[id].status.Processing? then d[id]
        else if Remains(d, id) then Assigned(Reactivate, d[id], notifications, now)
        else Assigned(CancelLosers, d[id], notifications, now)
  {
    hide RowNumber, HasActive;
    var d := AfterDelivery(t, notifications, now);
    var cut := After(CancelLosers, d, notifications, now);
    assert cut[id] == RowAfter(CancelLosers, d, notifications, now, id);
    assert Repaired(t, notifications, now)[id] == RowAfter(Reactivate, cut, notifications, now, id);
  }

  // The fate of every row: settled rows are untouched; one in processing is delivered when it was
  // notified or stamped, reactivated when it is the chosen one of its pair, and cancelled otherwise.
  lemma FateOfRow(t: Reminders, notifications: Notifications, now: int, id: Id)
    requires id in t
    ensures id in Repaired(t, notifications, now)
    ensures var r := Repaired(t, notifications, now)[id];
      && SamePair(r, t[id])
      && (!t[id].status.Processing? ==> r == t[id])
      && (t[id].status.Processing? && !Undelivered(t, notifications, id) ==> r == MarkedDelivered(t[id], notifications, now))
      && (Undelivered(t, notifications, id) && Chosen(t, notifications, id) ==>
            r == t[id].(status := Active, notification := None, cancelledAt := None, updatedAt := now))
      && (Undelivered(t, notifications, id) && !Chosen(t, notifications, id) ==>
            r == t[id].(status := Cancelled, cancelledAt := Some(now), updatedAt := now))
  {
    hide Repaired, AfterDelivery, Chosen, Remains;
    RepairedIs(t, notifications, now, id);
    DeliveryOf(t, notifications, now, id);
    ChosenRemains(t, notifications, now, id);
  }

  // Delivered are exactly the processing rows that carry a delivery date or point to a reminder
  // notification of their own user and message; those without a date get that of the notification.
  lemma DeliveredIff(t: Reminders, notifications: Notifications, now: int, id: Id)
    requires id in t && t[id].status.Processing?
    ensures id in Repaired(t, notifications, now)
    ensures var own := t[id].notification.Some? && t[id].notification.value in notifications
        && notifications[t[id].notification.value].kind == "message_reminder"
        && notifications[t[id].notification.value].user == t[id].user && notifications[t[id].notification.value].message == t[id].message;
      var r := Repaired(t, notifications, now)[id];
      && (r.status.Delivered? <==> t[id].deliveredAt.Some? || own)
      && (r.status.Delivered? ==> r.deliveredAt == if t[id].deliveredAt.Some? then t[id].deliveredAt else notifications[t[id].notification.value].createdAt)
      && (!r.status.Delivered? ==> r.deliveredAt.None?)
  {
    hide Repaired, Chosen;
    FateOfRow(t, notifications, now, id);
  }

  lemma NothingIsLeft(t: Reminders, notifications: Notifications, now: int, id: Id)
    requires id in t
    ensures id in Repaired(t, notifications, now) && !Repaired(t, notifications, now)[id].status.Processing?
    ensures Repaired(t, notifications, now)[id].status.Active? <==> Chosen(t, notifications, id)
  {
    hide Repaired;
    FateOfRow(t, notifications, now, id);
  }

  // The pair of a row is alive: it has an active reminder, or one in processing that was not delivered.
  predicate Alive(t: Reminders, notifications: Notifications, user: string, message: string) {
    exists id | id in t :: t[id].user == user && t[id].message == message && (t[id].status.Active? || Undelivered(t, notifications, id))
  }

  predicate ActiveFor(t: Reminders, user: string, message: string, id: Id) {
    id in t && t[id].status.Active? && t[id].user == user && t[id].message == message
  }

  // Exactly the pairs that were alive end with an active reminder, and with one only: the chosen one.
  lemma OneActivePerLivePair(t: Reminders, notifications: Notifications, now: int, user: string, message: string)
    requires Unique(t)
    ensures Unique(Repaired(t, notifications, now))
    ensures var r := Repaired(t, notifications, now);
      && (Alive(t, notifications, user, message) <==> exists id :: ActiveFor(r, user, message, id))
      && (forall id :: ActiveFor(r, user, message, id) ==> id in t && Chosen(t, notifications, id))
      && (forall id, other :: ActiveFor(r, user, message, id) && ActiveFor(r, user, message, other) ==> id == other)
  {
    hide Repaired, Chosen;
    var r := Repaired(t, notifications, now);
    RepairKeepsUnique(t, notifications, now);
    assert r.Keys == t.Keys by { RepairedKeys(t, notifications, now); }
    forall id | id in t
      ensures SamePair(r[id], t[id]) && (r[id].status.Active? <==> Chosen(t, notifications, id))
    {
      FateOfRow(t, notifications, now, id);
      NothingIsLeft(t, notifications, now, id);
    }
    if Alive(t, notifications, user, message) {
      var id := ChosenExists(t, notifications, user, message);
      assert ActiveFor(r, user, message, id);
    }
    forall id | ActiveFor(r, user, message, id) ensures Alive(t, notifications, user, message) {
      ChosenIsAlive(t, notifications, id);
    }
  }

  lemma RepairedKeys(t: Reminders, notifications: Notifications, now: int)
    ensures Repaired(t, notifications, now).Keys == t.Keys
  {
  }

  lemma ChosenIsAlive(t: Reminders, notifications: Notifications, id: Id)
    requires id in t && Chosen(t, notifications, id)
    ensures Alive(t, notifications, t[id].user, t[id].message)
  {
  }

  lemma ChosenExists(t: Reminders, notifications: Notifications, user: string, message: string) returns (id: Id)
    requires Alive(t, notifications, user, message)
    ensures id in t && t[id].user == user && t[id].message == message && Chosen(t, notifications, id)
  {
    var some :| some in t && t[some].user == user && t[some].message == message && (t[some].status.Active? || Undelivered(t, notifications, some));
    if HasActive(t, some) {
      id :| id in t && t[id].status.Active? && SamePair(t[id], t[some]);
      assert SamePair(t[id], t[id]);
    } else {
      var candidates := set other | other in t && Undelivered(t, notifications, other) && SamePair(t[other], t[some]);
      assert some in candidates;
      id := Newest(t, candidates);
      HasActiveOfPair(t, id, some);
      forall other | other in t && Undelivered(t, notifications, other) && SamePair(t[other], t[id]) && other != id
        ensures Before(t, id, other)
      {
        assert other in candidates;
      }
    }
  }

  lemma HasActiveOfPair(t: Reminders, a: Id, b: Id)
    requires a in t && b in t && SamePair(t[a], t[b])
    ensures HasActive(t, a) <==> HasActive(t, b)
  {
    if HasActive(t, a) {
      var other :| other in t && t[other].status.Active? && SamePair(t[other], t[a]);
      assert SamePair(t[other], t[b]);
    }
    if HasActive(t, b) {
      var other :| other in t && t[other].status.Active? && SamePair(t[other], t[b]);
      assert SamePair(t[other], t[a]);
    }
  }

  lemma RepairKeepsUnique(t: Reminders, notifications: Notifications, now: int)
    requires Unique(t)
    ensures Unique(Repaired(t, notifications, now))
  {
    hide Selects, Unique;
    var notified := After(DeliverNotified, t, notifications, now);
    StatementKeepsUnique(DeliverNotified, t, notifications, now);
    StatementKeepsUnique(DeliverStamped, notified, notifications, now);
    LosersMakeRoom(After(DeliverStamped, notified, notifications, now), notifications, now);
  }

  lemma StatementKeepsUnique(statement: Statement, t: Reminders, notifications: Notifications, now: int)
    requires Unique(t) && !statement.Reactivate?
    ensures Unique(After(statement, t, notifications, now))
  {
    PartlyUnique(statement, t, notifications, now, {});
    PartlyEnds(statement, t, notifications, now);
  }

  // A second run, at any later time and with any notifications, changes nothing.
  lemma SecondRunChangesNothing(t: Reminders, notifications: Notifications, now: int, later: Notifications, then': int)
    ensures Repaired(Repaired(t, notifications, now), later, then') == Repaired(t, notifications, now)
  {
    hide Repaired;
    var r := Repaired(t, notifications, now);
    RepairedKeys(t, notifications, now);
    RepairedKeys(r, later, then');
    forall id | id in r ensures Repaired(r, later, then')[id] == r[id] {
      NothingIsLeft(t, notifications, now, id);
      FateOfRow(r, later, then', id);
    }
  }
}
