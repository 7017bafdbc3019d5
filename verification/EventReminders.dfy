/**
  Calendar events and the reminders linked to them (`sync_event_reminder` in
  backend/app/event_reminders.py, the cancellation in backend/app/notification_service.py). The
  session does not flush by itself: a lookup sees the rows, not what was added since the last flush,
  and the constraints of backend/app/models.py are checked when the session is flushed.
 */
module EventReminders {
  import opened Wrappers

  datatype EventType = Call | Interview | ReminderEvent

  datatype EventStatus = Scheduled | Postponed | Completed | Cancelled

  datatype Event = Event(id: int, kind: EventType, status: EventStatus, startsAt: int, remindAt: Option<int>,
                         title: string, note: Option<string>, candidate: Option<int>)

  datatype ReminderStatus = Active | Done | Closed

  datatype Reminder = Reminder(id: int, owner: int, assignee: int, title: string, note: Option<string>, candidate: Option<int>,
                               eventId: Option<int>, dueAt: int, timezone: string, status: ReminderStatus,
                               completedAt: Option<int>, version: nat, updatedAt: int)

  datatype ObjectType = ReminderObject | OtherObject

  datatype DeliveryStatus = Queued | Sending | Delivered | Failed | Withdrawn

  /** An outbox row, as far as cancellation reads and writes it. */
  datatype Delivery = Delivery(objectType: ObjectType, objectId: int, status: DeliveryStatus, cancelledAt: Option<int>)

  /** The session: flushed rows, rows added since, and the outbox. */
  datatype Store = Store(rows: seq<Reminder>, added: seq<Reminder>, outbox: seq<Delivery>)

  /** `author`, `assignee` and the assignee's timezone, the clock, and the id a new row gets. */
  datatype Context = Context(author: int, assignee: int, timezone: string, now: int, newId: int)

  function Moment(e: Event): (r: Option<int>)
    ensures r.None? <==> e.remindAt.None? && !e.kind.ReminderEvent?
    ensures e.remindAt.Some? ==> r == e.remindAt
    ensures e.remindAt.None? && r.Some? ==> r.value == e.startsAt
  {
    if e.remindAt.Some? then e.remindAt else if e.kind.ReminderEvent? then Some(e.startsAt) else None
  }

  predicate Terminal(e: Event) { e.status == Completed || e.status == Cancelled }

  /** An event that should have an active reminder. */
  predicate Reminds(e: Event) { !Terminal(e) && Moment(e).Some? }

  function Take(s: string, n: nat): string { if |s| <= n then s else s[..n] }

  function TitleFor(e: Event): string {
    Take((if e.kind.ReminderEvent? then "Напоминание" else "Событие") + ": " + e.title, 200)
  }

  function NoteFor(e: Event): Option<string> {
    if e.note.Some? && e.note.value != "" then Some(Take(e.note.value, 2000)) else None
  }

  /** `_linked_reminder`: the first flushed row of the event. */
  function Linked(rows: seq<Reminder>, event: int): (r: Option<nat>)
    ensures r.Some? ==> r.value < |rows| && rows[r.value].eventId == Some(event)
    ensures r.Some? ==> forall i :: 0 <= i < r.value ==> rows[i].eventId != Some(event)
    ensures r.None? ==> forall i :: 0 <= i < |rows| ==> rows[i].eventId != Some(event)
  {
    if rows == [] then None
    else
      var earlier := Linked(rows[..|rows| - 1], event);
      if earlier.Some? then earlier
      else if rows[|rows| - 1].eventId == Some(event) then Some(|rows| - 1) else None
  }

  /** `cancel_pending_for_object`. */
  function CancelPending(outbox: seq<Delivery>, id: int, now: int): seq<Delivery> {
    seq(|outbox|, i requires 0 <= i < |outbox| =>
      var d := outbox[i];
      if d.objectType == ReminderObject && d.objectId == id && d.status == Queued
      then d.(status := Withdrawn, cancelledAt := Some(now)) else d)
  }

  function Fresh(e: Event, at: int, ctx: Context): Reminder {
    Reminder(ctx.newId, ctx.author, ctx.assignee, TitleFor(e), NoteFor(e), e.candidate, Some(e.id), at, ctx.timezone, Active,
             None, 1, ctx.now)
  }

  predicate Moved(r: Reminder, e: Event, at: int, ctx: Context) {
    r.dueAt != at || r.assignee != ctx.assignee || r.title != TitleFor(e) || r.status != Active
  }

  function Repointed(r: Reminder, e: Event, at: int, ctx: Context): Reminder {
    var here := r.(assignee := ctx.assignee, title := TitleFor(e), dueAt := at, timezone := ctx.timezone, status := Active);
    if Moved(r, e, at, ctx) then here.(version := r.version + 1, updatedAt := ctx.now) else here
  }

  function Released(r: Reminder, e: Event, ctx: Context): Reminder {
    var here := if Terminal(e) then r.(status := Closed) else r.(eventId := None);
    here.(version := r.version + 1, updatedAt := ctx.now)
  }

  /** `sync_event_reminder`. */
  function Sync(s: Store, e: Event, ctx: Context): Store {
    var existing := Linked(s.rows, e.id);
    if !Reminds(e) then
      if existing.Some? && s.rows[existing.value].status == Active then
        var r := s.rows[existing.value];
        s.(rows := s.rows[existing.value := Released(r, e, ctx)], outbox := CancelPending(s.outbox, r.id, ctx.now))
      else s
    else if existing.None? then s.(added := s.added + [Fresh(e, Moment(e).value, ctx)])
    else
      var r := s.rows[existing.value];
      s.(rows := s.rows[existing.value := Repointed(r, e, Moment(e).value, ctx)],
         outbox := if Moved(r, e, Moment(e).value, ctx) then CancelPending(s.outbox, r.id, ctx.now) else s.outbox)
  }

  // ---------------------------------------------------------------- constraints

  /** `uq_reminders_event_id`. */
  ghost predicate UniqueEvents(rows: seq<Reminder>) {
    forall i, j :: 0 <= i < j < |rows| && rows[i].eventId.Some? ==> rows[i].eventId != rows[j].eventId
  }

  ghost predicate UniqueIds(rows: seq<Reminder>) { forall i, j :: 0 <= i < j < |rows| ==> rows[i].id != rows[j].id }

  /** `ck_reminders_completed_at_consistent`. */
  ghost predicate Consistent(rows: seq<Reminder>) {
    forall i :: 0 <= i < |rows| ==> (rows[i].status == Done <==> rows[i].completedAt.Some?)
  }

  ghost predicate Accepted(rows: seq<Reminder>) { UniqueEvents(rows) && UniqueIds(rows) && Consistent(rows) }

  /** A flush writes what was added, unless a constraint refuses it. */
  ghost function Flush(s: Store): Option<Store> {
    if Accepted(s.rows + s.added) then Some(s.(rows := s.rows + s.added, added := [])) else None
  }

  ghost predicate Flushed(s: Store) { s.added == [] && Accepted(s.rows) }

  ghost predicate NewId(s: Store, id: int) { forall i :: 0 <= i < |s.rows| ==> s.rows[i].id != id }

  /** The session, as the function works on it. */
  class Session {
    var rows: seq<Reminder>
    var added: seq<Reminder>
    var outbox: seq<Delivery>

    ghost function Value(): Store
      reads this
    {
      Store(rows, added, outbox)
    }

    constructor (s: Store)
      ensures Value() == s
    {
      rows, added, outbox := s.rows, s.added, s.outbox;
    }

    method SyncEventReminder(e: Event, ctx: Context) returns (linked: Option<int>)
      modifies this
      ensures Value() == Sync(old(Value()), e, ctx)
      ensures linked == match Linked(old(rows), e.id)
                        case Some(i) => Some(old(rows)[i].id)
                        case None => if Reminds(e) then Some(ctx.newId) else None
    {
      var existing := Linked(rows, e.id);
      var moment := Moment(e);
      var terminal := e.status == Completed || e.status == Cancelled;
      if terminal || moment.None? {
        if existing.Some? {
          var i := existing.value;
          if rows[i].status == Active {
            outbox := CancelPending(outbox, rows[i].id, ctx.now);
            if terminal {
              rows := rows[i := rows[i].(status := Closed)];
            } else {
              rows := rows[i := rows[i].(eventId := None)];
            }
            rows := rows[i := rows[i].(version := rows[i].version + 1, updatedAt := ctx.now)];
          }
          return Some(rows[i].id);
        }
        return None;
      }
      if existing.None? {
        added := added + [Fresh(e, moment.value, ctx)];
        return Some(ctx.newId);
      }
      var i := existing.value;
      var moved := rows[i].dueAt != moment.value || rows[i].assignee != ctx.assignee || rows[i].title != TitleFor(e);
      rows := rows[i := rows[i].(assignee := ctx.assignee, title := TitleFor(e), dueAt := moment.value, timezone := ctx.timezone)];
      if rows[i].status != Active {
        rows := rows[i := rows[i].(status := Active)];
        moved := true;
      }
      if moved {
        outbox := CancelPending(outbox, rows[i].id, ctx.now);
        rows := rows[i := rows[i].(version := rows[i].version + 1, updatedAt := ctx.now)];
      }
      linked := Some(rows[i].id);
    }
  }

  // ---------------------------------------------------------------- what a sync achieves

  /**
    The sync is accepted exactly when it does not reactivate a completed reminder: reactivating one
    leaves its completion time set, and the check refuses the row.
   */
  lemma SyncAcceptedIff(s: Store, e: Event, ctx: Context)
    requires Flushed(s) && NewId(s, ctx.newId)
    ensures Flush(Sync(s, e, ctx)).Some? <==>
      !(Reminds(e) && exists i :: 0 <= i < |s.rows| && s.rows[i].eventId == Some(e.id) && s.rows[i].status == Done)
  {
    var after := Sync(s, e, ctx);
    var all := after.rows + after.added;
    var existing := Linked(s.rows, e.id);
    if existing.Some? {
      assert all == after.rows;
      assert all[existing.value].completedAt == s.rows[existing.value].completedAt;
    }
  }

  /** Completing the reminder of a standing event and touching the event again: the flush is refused. */
  lemma CompletedReminderBlocksSync(r: Reminder, e: Event, ctx: Context)
    requires r.eventId == Some(e.id) && r.status == Done && r.completedAt.Some?
    requires Reminds(e) && ctx.newId != r.id
    ensures Flushed(Store([r], [], [])) && Flush(Sync(Store([r], [], []), e, ctx)).None?
  {
    var s := Store([r], [], []);
    assert s.rows + s.added == [r] && s.rows[0] == r;
    SyncAcceptedIff(s, e, ctx);
  }

  /** A session with the event's reminder as it should be. */
  ghost predicate InStep(s: Store, e: Event, ctx: Context) {
    if Reminds(e) then
      exists i :: 0 <= i < |s.rows| && PointsAt(s.rows[i], e, ctx)
                  && forall j :: 0 <= j < |s.rows| && s.rows[j].eventId == Some(e.id) ==> j == i
    else forall i :: 0 <= i < |s.rows| && s.rows[i].eventId == Some(e.id) ==> s.rows[i].status != Active
  }

  ghost predicate PointsAt(r: Reminder, e: Event, ctx: Context)
    requires Reminds(e)
  {
    && r.eventId == Some(e.id) && r.status == Active && r.dueAt == Moment(e).value
    && r.assignee == ctx.assignee && r.title == TitleFor(e) && r.timezone == ctx.timezone
  }

  /**
    After a sync that is accepted, a live event with a moment has exactly one linked reminder: active,
    at that moment, for that assignee. Any other event has no active one.
   */
  lemma SyncBringsInStep(s: Store, e: Event, ctx: Context)
    requires Flushed(s) && NewId(s, ctx.newId) && Flush(Sync(s, e, ctx)).Some?
    ensures Flushed(Flush(Sync(s, e, ctx)).value) && InStep(Flush(Sync(s, e, ctx)).value, e, ctx)
  {
    var after := Flush(Sync(s, e, ctx)).value;
    var existing := Linked(s.rows, e.id);
    if existing.Some? {
      var i := existing.value;
      assert after.rows == Sync(s, e, ctx).rows;
      assert Reminds(e) ==> PointsAt(after.rows[i], e, ctx);
    } else if Reminds(e) {
      assert PointsAt(after.rows[|s.rows|], e, ctx);
    } else {
      assert after.rows == s.rows;
    }
  }

  /** What a sync never changes in a row: whose it is, what it says besides its title, and its completion. */
  ghost predicate SameOrigin(a: Reminder, b: Reminder) {
    && a.id == b.id && a.owner == b.owner && a.note == b.note && a.candidate == b.candidate
    && a.completedAt == b.completedAt && (b.eventId == a.eventId || b.eventId == None) && a.version <= b.version
  }

  /**
    Reminders not linked to the event, and deliveries about other objects, are exactly as before; and
    no row loses its owner, note, candidate or completion.
   */
  lemma OthersUntouched(s: Store, e: Event, ctx: Context)
    requires UniqueEvents(s.rows)
    ensures var after := Sync(s, e, ctx);
            && |after.rows| == |s.rows| && |after.outbox| == |s.outbox| && s.added <= after.added
            && (forall i :: 0 <= i < |s.rows| ==> SameOrigin(s.rows[i], after.rows[i]))
            && (forall i :: 0 <= i < |s.rows| && s.rows[i].eventId != Some(e.id) ==> after.rows[i] == s.rows[i])
            && forall d :: 0 <= d < |s.outbox| && after.outbox[d] != s.outbox[d] ==>
                 && s.outbox[d].objectType == ReminderObject && s.outbox[d].status == Queued
                 && Linked(s.rows, e.id).Some? && s.outbox[d].objectId == s.rows[Linked(s.rows, e.id).value].id
  {
  }

  /**
    No delivery outlives the moment it was queued for: if a linked reminder's time, assignee, title,
    status or link changed, nothing of it is queued any more; and if none did, nothing was cancelled.
   */
  lemma StaleDeliveriesCancelled(s: Store, e: Event, ctx: Context, i: nat)
    requires i < |s.rows| && Linked(s.rows, e.id) == Some(i)
    ensures var before, after := s.rows[i], Sync(s, e, ctx).rows[i];
            var changed := before.dueAt != after.dueAt || before.assignee != after.assignee || before.title != after.title
                           || before.status != after.status || before.eventId != after.eventId;
            && (changed ==> after.version == before.version + 1 && NoneQueued(Sync(s, e, ctx).outbox, before.id))
            && (!changed ==> after.version == before.version && Sync(s, e, ctx).outbox == s.outbox)
  {
  }

  ghost predicate NoneQueued(outbox: seq<Delivery>, id: int) {
    forall d :: 0 <= d < |outbox| && outbox[d].objectType == ReminderObject && outbox[d].objectId == id ==>
      outbox[d].status != Queued
  }

  /** What the queue of a reminder becomes: its queued deliveries are withdrawn now, all others stay. */
  ghost predicate Withdrew(before: seq<Delivery>, after: seq<Delivery>, id: int, now: int) {
    && |after| == |before|
    && forall d :: 0 <= d < |before| ==>
         if before[d].objectType == ReminderObject && before[d].objectId == id && before[d].status == Queued
         then after[d] == Delivery(ReminderObject, id, Withdrawn, Some(now)) else after[d] == before[d]
  }

  /**
    What becomes of a linked reminder. A completed or cancelled event closes it and keeps the link; an
    event left without a moment gives it up, still active; a standing one moves it. Each change bumps
    the version now and withdraws what is queued, and a reminder that was not active is left as it is
    unless its event stands.
   */
  lemma LinkedReminderBecomes(s: Store, e: Event, ctx: Context, i: nat)
    requires i < |s.rows| && Linked(s.rows, e.id) == Some(i)
    ensures var r, after := s.rows[i], Sync(s, e, ctx);
            var over := e.status == Completed || e.status == Cancelled;
            var moment := if e.remindAt.Some? then e.remindAt else if e.kind == ReminderEvent then Some(e.startsAt) else None;
            var next := after.rows[i];
            if over || moment.None? then
              if r.status == Active then
                && next == (if over then r.(status := Closed, version := r.version + 1, updatedAt := ctx.now)
                            else r.(eventId := None, version := r.version + 1, updatedAt := ctx.now))
                && Withdrew(s.outbox, after.outbox, r.id, ctx.now)
              else after == s
            else
              && next == r.(assignee := ctx.assignee, title := TitleFor(e), dueAt := moment.value, timezone := ctx.timezone,
                            status := Active, version := next.version, updatedAt := next.updatedAt)
              && (if r.(timezone := ctx.timezone, version := next.version, updatedAt := next.updatedAt) == next
                  then next.version == r.version && next.updatedAt == r.updatedAt && after.outbox == s.outbox
                  else next.version == r.version + 1 && next.updatedAt == ctx.now && Withdrew(s.outbox, after.outbox, r.id, ctx.now))
  {
  }

  /** The beginning of a text, all of it if it has at most `n` characters. */
  ghost predicate Begins(part: string, whole: string, n: nat) {
    part <= whole && |part| == if |whole| <= n then |whole| else n
  }

  /**
    The reminder of a standing event that had none: its author's, for its assignee, at its own reminder
    time or, for a reminder event, its beginning; labelled and cut to what the columns hold.
   */
  lemma NewReminderSays(s: Store, e: Event, ctx: Context)
    requires Linked(s.rows, e.id).None? && (e.remindAt.Some? || e.kind == ReminderEvent)
    requires e.status == Scheduled || e.status == Postponed
    ensures var after := Sync(s, e, ctx);
            && after.rows == s.rows && after.outbox == s.outbox && |after.added| == |s.added| + 1 && s.added <= after.added
            && var r := after.added[|s.added|];
            && r.id == ctx.newId && r.owner == ctx.author && r.assignee == ctx.assignee && r.candidate == e.candidate
            && r.eventId == Some(e.id) && r.dueAt == (if e.remindAt.Some? then e.remindAt.value else e.startsAt)
            && r.timezone == ctx.timezone && r.status == Active && r.completedAt == None && r.version == 1 && r.updatedAt == ctx.now
            && Begins(r.title, (if e.kind == ReminderEvent then "Напоминание: " else "Событие: ") + e.title, 200)
            && (r.note.None? <==> e.note.None? || e.note.value == "")
            && (r.note.Some? ==> Begins(r.note.value, e.note.value, 2000))
  {
    var head := if e.kind.ReminderEvent? then "Напоминание" else "Событие";
    assert head + ": " + e.title == (if e.kind == ReminderEvent then "Напоминание: " else "Событие: ") + e.title;
  }

  /** Reopening a completed or cancelled event brings back the reminder it closed; no second one is made. */
  lemma ReopenedEventReusesReminder(s: Store, over: Event, ctx: Context, again: Event, later: Context, i: nat)
    requires Flushed(s) && i < |s.rows| && Linked(s.rows, over.id) == Some(i) && s.rows[i].status == Active
    requires Terminal(over) && again.id == over.id && Reminds(again)
    ensures var closed := Flush(Sync(s, over, ctx));
            && closed.Some? && closed.value.rows[i].status == Closed
            && var reopened := Flush(Sync(closed.value, again, later));
            && reopened.Some? && |reopened.value.rows| == |s.rows|
            && reopened.value.rows[i].id == s.rows[i].id && PointsAt(reopened.value.rows[i], again, later)
  {
    var closed := Sync(s, over, ctx);
    assert closed.rows + closed.added == closed.rows;
    var reopened := Sync(closed, again, later);
    assert closed.rows[i].eventId == Some(again.id);
    assert reopened.rows + reopened.added == reopened.rows;
  }

  /**
    An event that loses its moment gives its reminder up for good: when it gets one again, a second
    reminder is made, and the first stays, active and on its own.
   */
  lemma ReleasedReminderIsNotReused(s: Store, bare: Event, ctx: Context, again: Event, later: Context, i: nat)
    requires Flushed(s) && i < |s.rows| && Linked(s.rows, bare.id) == Some(i) && s.rows[i].status == Active
    requires !Terminal(bare) && Moment(bare).None? && again.id == bare.id && Reminds(again) && NewId(s, later.newId)
    ensures var freed := Flush(Sync(s, bare, ctx));
            && freed.Some? && freed.value.rows[i].status == Active && freed.value.rows[i].eventId.None?
            && var remade := Flush(Sync(freed.value, again, later));
            && remade.Some? && |remade.value.rows| == |s.rows| + 1
            && remade.value.rows[i] == freed.value.rows[i] && PointsAt(remade.value.rows[|s.rows|], again, later)
  {
    var freed := Sync(s, bare, ctx);
    assert freed.rows + freed.added == freed.rows;
    assert Linked(freed.rows, again.id).None?;
    SyncAcceptedIff(freed, again, later);
  }

  /** A second sync changes nothing, at whatever time it runs. */
  lemma SecondSyncChangesNothing(s: Store, e: Event, ctx: Context, later: Context)
    requires Flushed(s) && NewId(s, ctx.newId) && Flush(Sync(s, e, ctx)).Some?
    requires later == ctx.(now := later.now, newId := later.newId)
    ensures Sync(Flush(Sync(s, e, ctx)).value, e, later) == Flush(Sync(s, e, ctx)).value
  {
    var once := Flush(Sync(s, e, ctx)).value;
    SyncBringsInStep(s, e, ctx);
    if Reminds(e) {
      var i :| 0 <= i < |once.rows| && PointsAt(once.rows[i], e, ctx)
               && forall j :: 0 <= j < |once.rows| && once.rows[j].eventId == Some(e.id) ==> j == i;
      assert once.rows[i := once.rows[i]] == once.rows;
    }
  }

  /**
    The lookup does not see unflushed rows: creating the reminder twice with no flush in between makes
    two rows of one event, and the unique index then refuses the transaction.
   */
  lemma TwiceUnflushedIsRefused(s: Store, e: Event, ctx: Context, later: Context)
    requires Flushed(s) && Reminds(e) && Linked(s.rows, e.id).None?
    ensures |Sync(Sync(s, e, ctx), e, later).added| == 2 && Flush(Sync(Sync(s, e, ctx), e, later)).None?
  {
    var twice := Sync(Sync(s, e, ctx), e, later);
    var all, n := twice.rows + twice.added, |s.rows|;
    assert all[n].eventId == Some(e.id) == all[n + 1].eventId;
  }

  // ---------------------------------------------------------------- runs

  /** A run of syncs, each flushed; a refused one changes nothing. */
  ghost function Run(s: Store, calls: seq<(Event, Context)>): Store {
    if calls == [] then s
    else
      var before := Run(s, calls[..|calls| - 1]);
      var (e, ctx) := calls[|calls| - 1];
      var after := Flush(Sync(before, e, ctx));
      if after.Some? then after.value else before
  }

  /** Over any run no event ever has two reminders, and the store satisfies its constraints. */
  lemma {:induction false} RunsStayAccepted(s: Store, calls: seq<(Event, Context)>)
    requires Flushed(s)
    ensures Flushed(Run(s, calls)) && |s.rows| <= |Run(s, calls).rows|
  {
    if calls == [] {
    } else {
      RunsStayAccepted(s, calls[..|calls| - 1]);
      var (e, ctx) := calls[|calls| - 1];
      OthersUntouched(Run(s, calls[..|calls| - 1]), e, ctx);
    }
  }
}
