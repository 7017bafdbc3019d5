/**
  The transactional outbox (`schedule` and `_flush_inside_savepoint` in
  backend/app/notification_service.py): inside the caller's transaction, one row an idempotency key.
  The database session is as documented: entering a savepoint first flushes what is pending, and a
  flush that fails outside a savepoint rolls the transaction back and bars its use.
 */
module Outbox {
  import opened Wrappers

  datatype Channel = InApp | Email | Telegram

  /** An address as given, and what `validate_mailbox` makes of it. */
  datatype Mailbox = Mailbox(raw: string, parsed: Option<string>)

  datatype Request = Request(user: Option<int>, external: Option<Mailbox>, candidate: Option<int>, channel: Channel,
                             verification: bool, kind: string, dedupeKey: string, text: string)

  datatype Row = Row(user: Option<int>, external: Option<string>, candidate: Option<int>, channel: Channel,
                     verification: bool, key: string, text: string)

  datatype Error = NoRecipient | SeveralRecipients | ExternalNotAllowed | BadMailbox | Refused

  function One(b: bool): nat { if b then 1 else 0 }

  function RecipientCount(r: Request): nat { One(r.user.Some?) + One(r.external.Some?) + One(r.candidate.Some?) }

  /** `{type}:{dedupe_key}`. */
  function KeyOf(r: Request): string { r.kind + ":" + r.dedupeKey }

  /** One recipient; an outside address only on the letter that verifies it. */
  ghost predicate Addressed(row: Row) {
    && One(row.user.Some?) + One(row.external.Some?) + One(row.candidate.Some?) == 1
    && (row.external.Some? ==> row.channel == Email && row.verification)
  }

  /** The row a request asks for, or the error it is refused with before anything is written. */
  function RowFor(r: Request): (row: Result<Row, Error>)
    ensures row.Success? ==> row.value.key == KeyOf(r) && Addressed(row.value)
  {
    if RecipientCount(r) == 0 then Failure(NoRecipient)
    else if RecipientCount(r) > 1 then Failure(SeveralRecipients)
    else if r.external.None? then Success(Row(r.user, None, r.candidate, r.channel, r.verification, KeyOf(r), r.text))
    else if r.channel != Email || !r.verification then Failure(ExternalNotAllowed)
    else if r.external.value.parsed.None? then Failure(BadMailbox)
    else Success(Row(r.user, r.external.value.parsed, r.candidate, r.channel, r.verification, KeyOf(r), r.text))
  }

  function Keys(rows: seq<Row>): set<string> { set row | row in rows :: row.key }

  /** The unique index on `idempotency_key`. */
  ghost predicate UniqueKeys(rows: seq<Row>) { forall i, j :: 0 <= i < j < |rows| ==> rows[i].key != rows[j].key }

  /** What the database says to flushing the caller's own rows. */
  datatype Verdict = Fine | DuplicateKey | OtherError

  /**
    The caller's transaction: the outbox it began with and the one it sees, the caller's own rows not
    yet flushed and those flushed, in order, and whether a failed flush has rolled all of it back.
   */
  datatype Work = Work(begun: seq<Row>, outbox: seq<Row>, pending: seq<int>, flushed: seq<int>, failed: bool)

  /** Entering the savepoint flushes what the caller has pending; if that fails, the transaction is rolled back whole. */
  function Enter(t: Work, own: Verdict): Work {
    if t.failed then t
    else if t.pending != [] && own != Fine then Work(t.begun, t.begun, [], [], true)
    else t.(pending := [], flushed := t.flushed + t.pending)
  }

  /** What flushing one row inside a savepoint leaves: only a row of a new key that nothing refuses is added. */
  function Flush(t: Work, row: Row, own: Verdict, refused: bool): Work {
    var u := Enter(t, own);
    if u.failed || refused || row.key in Keys(u.outbox) then u else u.(outbox := u.outbox + [row])
  }

  /** What the caller is told: a duplicate key is no error, whether it is the row's or one of the caller's own. */
  function Answer(t: Work, row: Row, own: Verdict, refused: bool): Result<bool, Error> {
    if t.failed then Failure(Refused)
    else if Enter(t, own).failed then (if own == DuplicateKey then Success(false) else Failure(Refused))
    else if refused then Failure(Refused)
    else Success(row.key !in Keys(t.outbox))
  }

  class Transaction {
    var begun: seq<Row>
    var outbox: seq<Row>
    var pending: seq<int>
    var flushed: seq<int>
    var failed: bool

    ghost function Value(): Work
      reads this
    {
      Work(begun, outbox, pending, flushed, failed)
    }

    constructor (rows: seq<Row>)
      ensures Value() == Work(rows, rows, [], [], false)
    {
      begun, outbox, pending, flushed, failed := rows, rows, [], [], false;
    }

    /** The caller adds a row of its own. */
    method Add(w: int)
      modifies this`pending
      ensures Value() == Step(old(Value()), Own(w))
    {
      if !failed {
        pending := pending + [w];
      }
    }

    /** The flush on entering a savepoint; a failure rolls the whole transaction back and is answered once. */
    method BeginNested(own: Verdict) returns (error: Option<Verdict>)
      modifies this
      ensures Value() == Enter(old(Value()), own)
      ensures error == if old(failed) then Some(OtherError)
                       else if old(pending) != [] && own != Fine then Some(own) else None
    {
      if failed {
        return Some(OtherError);
      }
      if pending != [] && own != Fine {
        outbox, pending, flushed, failed := begun, [], [], true;
        return Some(own);
      }
      pending, flushed := [], flushed + pending;
      error := None;
    }

    /**
      Adds a row inside a savepoint. A duplicate key rolls back to the savepoint alone; any other
      refusal (`refused`) propagates, and what the caller wrote stays. The flush of the caller's own
      rows is under the same handler: their duplicate key is answered like the row's.
     */
    method FlushInsideSavepoint(row: Row, own: Verdict, refused: bool) returns (r: Result<bool, Error>)
      modifies this
      ensures Value() == Flush(old(Value()), row, own, refused)
      ensures !failed ==> flushed + pending == old(flushed + pending)
      ensures r == Answer(old(Value()), row, own, refused)
    {
      var error := BeginNested(own);
      if error.Some? {
        return if error.value == DuplicateKey then Success(false) else Failure(Refused);
      }
      var savepoint := (outbox, flushed);
      outbox := outbox + [row];
      if refused {
        outbox, flushed := savepoint.0, savepoint.1;
        return Failure(Refused);
      }
      for i := 0 to |savepoint.0|
        invariant Value() == Enter(old(Value()), own).(outbox := savepoint.0 + [row]) && row.key !in Keys(savepoint.0[..i])
      {
        if outbox[i].key == row.key {
          assert savepoint.0[i] in savepoint.0;
          outbox, flushed := savepoint.0, savepoint.1;
          return Success(false);
        }
        assert savepoint.0[..i + 1] == savepoint.0[..i] + [savepoint.0[i]];
      }
      assert savepoint.0[..|savepoint.0|] == savepoint.0;
      r := Success(true);
    }

    method Schedule(request: Request, own: Verdict, refused: bool) returns (r: Result<Option<Row>, Error>)
      modifies this
      ensures Value() == Step(old(Value()), Call(request, own, refused))
      ensures match RowFor(request)
              case Failure(e) => r == Failure(e)
              case Success(row) =>
                match Answer(old(Value()), row, own, refused)
                case Failure(e) => r == Failure(e)
                case Success(added) => r == Success(if added then Some(row) else None)
    {
      var count := 0;
      if request.user.Some? { count := count + 1; }
      if request.external.Some? { count := count + 1; }
      if request.candidate.Some? { count := count + 1; }
      if count == 0 {
        return Failure(NoRecipient);
      }
      if count > 1 {
        return Failure(SeveralRecipients);
      }
      var external: Option<string> := None;
      if request.external.Some? {
        if request.channel != Email || !request.verification {
          return Failure(ExternalNotAllowed);
        }
        external := request.external.value.parsed;
        if external.None? {
          return Failure(BadMailbox);
        }
      }
      var row := Row(request.user, external, request.candidate, request.channel, request.verification, KeyOf(request), request.text);
      var added := FlushInsideSavepoint(row, own, refused);
      if added.Failure? {
        return Failure(added.error);
      }
      r := Success(if added.value then Some(row) else None);
    }
  }

  /** One event of the transaction: the caller adds a row of its own, or calls `schedule`. */
  datatype Event = Own(w: int) | Call(request: Request, own: Verdict, refused: bool)

  function Step(t: Work, e: Event): Work {
    match e
    case Own(w) => if t.failed then t else t.(pending := t.pending + [w])
    case Call(request, own, refused) =>
      var row := RowFor(request);
      if row.Failure? then t else Flush(t, row.value, own, refused)
  }

  function Run(rows: seq<Row>, events: seq<Event>): Work {
    if events == [] then Work(rows, rows, [], [], false) else Step(Run(rows, events[..|events| - 1]), events[|events| - 1])
  }

  /** The caller's own rows, in order. */
  function Owned(events: seq<Event>): seq<int> {
    if events == [] then []
    else
      var last := events[|events| - 1];
      Owned(events[..|events| - 1]) + if last.Own? then [last.w] else []
  }

  /** The event whose flush of the caller's own rows fails. */
  predicate BreaksOn(t: Work, e: Event) {
    !t.failed && e.Call? && RowFor(e.request).Success? && t.pending != [] && e.own != Fine
  }

  /** The row an event asks for, if it is a call that is accepted and not refused. */
  function AskedBy(e: Event): seq<Row> {
    if e.Call? && RowFor(e.request).Success? && !e.refused then [RowFor(e.request).value] else []
  }

  /** The rows all accepted calls asked for, duplicates and all. */
  function Asked(events: seq<Event>): seq<Row> {
    if events == [] then [] else Asked(events[..|events| - 1]) + AskedBy(events[|events| - 1])
  }

  /** Of each key, the first row only. */
  function FirstPerKey(rows: seq<Row>): seq<Row> {
    if rows == [] then []
    else
      var last := rows[|rows| - 1];
      FirstPerKey(rows[..|rows| - 1]) + if last.key in Keys(rows[..|rows| - 1]) then [] else [last]
  }

  lemma KeysSnoc(rows: seq<Row>, row: Row)
    ensures Keys(rows + [row]) == Keys(rows) + {row.key}
  {
  }

  ghost predicate Earliest(rows: seq<Row>, row: Row) {
    exists i :: 0 <= i < |rows| && rows[i] == row && row.key !in Keys(rows[..i])
  }

  lemma FirstSnoc(front: seq<Row>, last: Row)
    ensures forall row :: Earliest(front + [last], row) <==> Earliest(front, row) || (row == last && last.key !in Keys(front))
  {
    var rows := front + [last];
    forall row ensures Earliest(rows, row) <==> Earliest(front, row) || (row == last && last.key !in Keys(front)) {
      if Earliest(front, row) {
        var i :| 0 <= i < |front| && front[i] == row && row.key !in Keys(front[..i]);
        assert rows[i] == row && rows[..i] == front[..i];
      }
      if row == last && last.key !in Keys(front) {
        assert rows[|front|] == row && rows[..|front|] == front;
      }
      if Earliest(rows, row) {
        var i :| 0 <= i < |rows| && rows[i] == row && row.key !in Keys(rows[..i]);
        if i < |front| {
          assert front[i] == row && front[..i] == rows[..i];
        } else {
          assert rows[..i] == front;
        }
      }
    }
  }

  /** No key is lost, and none is left twice. */
  lemma {:induction false} FirstPerKeyKeys(rows: seq<Row>)
    ensures UniqueKeys(FirstPerKey(rows)) && Keys(FirstPerKey(rows)) == Keys(rows)
  {
    if rows != [] {
      var front, last := rows[..|rows| - 1], rows[|rows| - 1];
      FirstPerKeyKeys(front);
      assert rows == front + [last];
      KeysSnoc(front, last);
      if last.key !in Keys(front) {
        KeysSnoc(FirstPerKey(front), last);
      }
    }
  }

  /** A row is kept exactly when it is the earliest with its key. */
  lemma {:induction false} FirstPerKeyIsEarliest(rows: seq<Row>, row: Row)
    ensures row in FirstPerKey(rows) <==> Earliest(rows, row)
  {
    if rows != [] {
      var front, last := rows[..|rows| - 1], rows[|rows| - 1];
      FirstPerKeyIsEarliest(front, row);
      assert rows == front + [last];
      FirstSnoc(front, last);
    }
  }

  lemma {:induction false} UniqueIsFirst(rows: seq<Row>)
    requires UniqueKeys(rows)
    ensures FirstPerKey(rows) == rows
  {
    if rows != [] {
      var n := |rows| - 1;
      UniqueIsFirst(rows[..n]);
      assert rows == rows[..n] + [rows[n]];
    }
  }

  lemma Joined<T>(a: seq<T>, b: seq<T>, c: seq<T>)
    ensures a + (b + c) == (a + b) + c
  {
  }

  lemma StepFails(t: Work, e: Event)
    ensures Step(t, e).failed <==> t.failed || BreaksOn(t, e)
    ensures !Step(t, e).failed ==> Step(t, e).begun == t.begun
    ensures !Step(t, e).failed ==>
              Step(t, e).outbox == if AskedBy(e) == [] || AskedBy(e)[0].key in Keys(t.outbox) then t.outbox else t.outbox + AskedBy(e)
  {
  }

  lemma {:induction false} RowsBefore(rows: seq<Row>, events: seq<Event>)
    requires UniqueKeys(rows) && !Run(rows, events).failed
    ensures Run(rows, events).begun == rows && Run(rows, events).outbox == FirstPerKey(rows + Asked(events))
  {
    if events == [] {
      UniqueIsFirst(rows);
      assert rows + Asked(events) == rows;
    } else {
      var front, last := events[..|events| - 1], events[|events| - 1];
      StepFails(Run(rows, front), last);
      RowsBefore(rows, front);
      FirstPerKeyAdd(rows + Asked(front), last);
      Joined(rows, Asked(front), AskedBy(last));
    }
  }

  lemma FirstPerKeyAdd(before: seq<Row>, e: Event)
    ensures FirstPerKey(before + AskedBy(e)) == if AskedBy(e) == [] || AskedBy(e)[0].key in Keys(FirstPerKey(before))
                                               then FirstPerKey(before) else FirstPerKey(before) + AskedBy(e)
  {
    FirstPerKeyKeys(before);
    if AskedBy(e) == [] {
      assert before + [] == before;
    }
  }

  lemma {:induction false} BegunStays(rows: seq<Row>, events: seq<Event>)
    ensures Run(rows, events).begun == rows
    ensures Run(rows, events).failed ==> Run(rows, events) == Work(rows, rows, [], [], true)
  {
    if events != [] {
      BegunStays(rows, events[..|events| - 1]);
    }
  }

  lemma {:induction false} OwnBefore(rows: seq<Row>, events: seq<Event>)
    requires !Run(rows, events).failed
    ensures Run(rows, events).flushed + Run(rows, events).pending == Owned(events)
  {
    if events != [] {
      var front, last := events[..|events| - 1], events[|events| - 1];
      OwnBefore(rows, front);
      var t := Run(rows, front);
      if last.Own? {
        Joined(t.flushed, t.pending, [last.w]);
      } else {
        assert Owned(events) == Owned(front);
        assert (t.flushed + t.pending) + [] == t.flushed + t.pending;
      }
    }
  }

  /** One of the first `k` events breaks. */
  ghost predicate Breaks(rows: seq<Row>, events: seq<Event>, k: nat)
    requires k <= |events|
  {
    exists n :: 0 <= n < k && BreaksOn(Run(rows, events[..n]), events[n])
  }

  lemma {:induction false} FailsIff(rows: seq<Row>, events: seq<Event>, k: nat)
    requires k <= |events|
    ensures Run(rows, events[..k]).failed <==> Breaks(rows, events, k)
  {
    if k > 0 {
      FailsIff(rows, events, k - 1);
      assert events[..k][..k - 1] == events[..k - 1];
      StepFails(Run(rows, events[..k - 1]), events[k - 1]);
    }
  }

  /**
    After any calls, valid or not, refused or not, between any writes of the caller: the outbox is what
    it was plus the accepted requests, the first of each key, and no write of the caller is lost.
    Only a failed flush of the caller's own rows undoes anything, and it undoes all of it.
   */
  lemma OutboxIsFirstPerKey(rows: seq<Row>, events: seq<Event>)
    requires UniqueKeys(rows)
    ensures var t := Run(rows, events);
            if Breaks(rows, events, |events|) then t == Work(rows, rows, [], [], true)
            else !t.failed && t.outbox == FirstPerKey(rows + Asked(events)) && t.flushed + t.pending == Owned(events)
  {
    FailsIff(rows, events, |events|);
    assert events[..|events|] == events;
    BegunStays(rows, events);
    if !Run(rows, events).failed {
      RowsBefore(rows, events);
      OwnBefore(rows, events);
    }
  }

  /** Whatever is called, every row has one recipient, and an outside address is only on its own verification letter. */
  lemma {:induction false} RowsAreAddressed(rows: seq<Row>, events: seq<Event>, i: nat)
    requires (forall row :: row in rows ==> Addressed(row)) && i < |Run(rows, events).outbox|
    ensures Addressed(Run(rows, events).outbox[i])
  {
    if events != [] {
      var front := events[..|events| - 1];
      BegunStays(rows, front);
      if i < |Run(rows, front).outbox| {
        RowsAreAddressed(rows, front, i);
      }
    }
  }

  /**
    No row back means that an earlier accepted request has the key, except when the caller's own rows
    break a unique index of theirs: that is answered alike, and every later step finds nothing kept.
   */
  lemma NoneMeansKnownKey(rows: seq<Row>, events: seq<Event>, n: nat)
    requires UniqueKeys(rows) && n < |events| && events[n].Call? && RowFor(events[n].request).Success?
    ensures var t, e, row := Run(rows, events[..n]), events[n], RowFor(events[n].request).value;
            if BreaksOn(t, e)
            then (Answer(t, row, e.own, e.refused) == Success(false) <==> e.own == DuplicateKey)
                 && Run(rows, events) == Work(rows, rows, [], [], true)
            else Answer(t, row, e.own, e.refused) == Success(false) <==>
                   !t.failed && !e.refused && row.key in Keys(rows + Asked(events[..n]))
  {
    var t := Run(rows, events[..n]);
    if BreaksOn(t, events[n]) {
      OutboxIsFirstPerKey(rows, events);
    } else if !t.failed {
      RowsBefore(rows, events[..n]);
      FirstPerKeyKeys(rows + Asked(events[..n]));
    }
  }

  /** One recipient is named; an outside address, by email, on its verification letter, and it parses. */
  ghost predicate WellAddressed(r: Request) {
    || (r.user.Some? && r.external.None? && r.candidate.None?)
    || (r.user.None? && r.external.None? && r.candidate.Some?)
    || (r.user.None? && r.external.Some? && r.candidate.None? && r.channel == Email && r.verification && r.external.value.parsed.Some?)
  }

  /** The row says what the request asked: its one recipient, its channel, its text, under its type and business key. */
  ghost predicate AsAsked(row: Row, r: Request) {
    && row.user == r.user && row.candidate == r.candidate && row.external.Some? == r.external.Some?
    && (r.external.Some? ==> row.external == r.external.value.parsed)
    && row.channel == r.channel && row.verification == r.verification && row.text == r.text
    && row.key == r.kind + ":" + r.dedupeKey
  }

  /**
    What one call does, exactly. A badly addressed request touches nothing. Any other flushes what the
    caller has pending, and if nothing refuses it and its key is new, adds one row: what was asked.
   */
  lemma CallWrites(t: Work, request: Request, own: Verdict, refused: bool)
    ensures var after := Step(t, Call(request, own, refused));
            if t.failed || !WellAddressed(request) then after == t
            else if t.pending != [] && own != Fine then after == Work(t.begun, t.begun, [], [], true)
            else
              && after == t.(outbox := after.outbox, pending := [], flushed := t.flushed + t.pending)
              && if refused || exists row :: row in t.outbox && row.key == request.kind + ":" + request.dedupeKey
                 then after.outbox == t.outbox
                 else |after.outbox| == |t.outbox| + 1 && t.outbox <= after.outbox && AsAsked(after.outbox[|t.outbox|], request)
  {
  }

  /** Why a request is refused before anything is written, and what a call answers otherwise. */
  lemma CallAnswers(t: Work, request: Request, own: Verdict, refused: bool)
    ensures RowFor(request) == Failure(NoRecipient) <==> request.user.None? && request.external.None? && request.candidate.None?
    ensures RowFor(request) == Failure(SeveralRecipients) <==>
      || (request.user.Some? && request.external.Some?) || (request.user.Some? && request.candidate.Some?)
      || (request.external.Some? && request.candidate.Some?)
    ensures RowFor(request).Success? <==> WellAddressed(request)
    ensures request.external.Some? && request.user.None? && request.candidate.None? ==>
      && (RowFor(request) == Failure(ExternalNotAllowed) <==> request.channel != Email || !request.verification)
      && (RowFor(request) == Failure(BadMailbox) <==>
            request.channel == Email && request.verification && request.external.value.parsed.None?)
    ensures RowFor(request).Success? ==>
      var answer := Answer(t, RowFor(request).value, own, refused);
      && (answer.Failure? <==> t.failed || if t.pending != [] && own != Fine then own == OtherError else refused)
      && (answer.Failure? ==> answer == Failure(Refused))
      && (answer == Success(true) <==>
            && !t.failed && (t.pending == [] || own == Fine) && !refused
            && forall row :: row in t.outbox ==> row.key != request.kind + ":" + request.dedupeKey)
  {
  }

  /** Over any run, every row that was not there before says what some well-addressed, unrefused call asked. */
  lemma {:induction false} RowsSayWhatWasAsked(rows: seq<Row>, events: seq<Event>, i: nat) returns (n: nat)
    requires |rows| <= i < |Run(rows, events).outbox|
    ensures n < |events| && events[n].Call? && WellAddressed(events[n].request) && !events[n].refused
    ensures AsAsked(Run(rows, events).outbox[i], events[n].request)
  {
    assert events != [];
    var front, last := events[..|events| - 1], events[|events| - 1];
    var t := Run(rows, front);
    BegunStays(rows, front);
    if last.Call? {
      CallWrites(t, last.request, last.own, last.refused);
    }
    if i < |t.outbox| {
      n := RowsSayWhatWasAsked(rows, front, i);
    } else {
      n := |events| - 1;
    }
  }

  /** Two requests share a key only if they share type and business key: no type name holds a colon. */
  lemma KeysDoNotCollide(a: Request, b: Request)
    requires ':' !in a.kind && ':' !in b.kind && KeyOf(a) == KeyOf(b)
    ensures a.kind == b.kind && a.dedupeKey == b.dedupeKey
  {
    var key, m, n := KeyOf(a), |a.kind|, |b.kind|;
    assert forall i :: 0 <= i < m ==> key[i] == a.kind[i] && key[i] != ':';
    assert forall i :: 0 <= i < n ==> key[i] == b.kind[i] && key[i] != ':';
    assert key[m] == ':' && key[n] == ':';
    assert m == n;
    assert a.kind == key[..m] && b.kind == key[..n];
    assert a.dedupeKey == key[m + 1..] && b.dedupeKey == key[n + 1..];
  }
}
