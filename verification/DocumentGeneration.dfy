/**
  Generating a candidate document under an idempotency key (`generate`, `_replay` in
  backend/app/document_templates.py). A call is a small state machine whose steps are its separate
  reads and its flush; any number of calls interleave on one table. The two unique indexes
  (backend/app/models.py:2483, 2487-2494) arbitrate; the advisory locks only make conflicts rarer and
  are not relied on.
 */
module DocumentGeneration {
  import opened Wrappers

  datatype Request = Request(user: int, key: string, candidate: int, version: int)

  datatype Document = Document(user: int, key: string, candidate: int, version: int, revision: nat, body: string)

  datatype Error = KeyReused | NotRenderable | TryAgain

  // ---------------------------------------------------------------- the table

  /** The row of a user's key, as the query of `_replay` finds it. */
  function Find(rows: seq<Document>, user: int, key: string): (r: Option<Document>)
    ensures r.Some? ==> r.value in rows && r.value.user == user && r.value.key == key
    ensures r.None? ==> forall i :: 0 <= i < |rows| ==> !(rows[i].user == user && rows[i].key == key)
  {
    if rows == [] then None
    else if rows[|rows| - 1].user == user && rows[|rows| - 1].key == key then Some(rows[|rows| - 1])
    else Find(rows[..|rows| - 1], user, key)
  }

  function MaxRevision(rows: seq<Document>, candidate: int): nat {
    if rows == [] then 0
    else
      var m, last := MaxRevision(rows[..|rows| - 1], candidate), rows[|rows| - 1];
      if last.candidate == candidate && last.revision > m then last.revision else m
  }

  /** A row that one of the unique indexes rejects. */
  predicate Violates(rows: seq<Document>, d: Document) {
    exists i :: 0 <= i < |rows| &&
      ((rows[i].user == d.user && rows[i].key == d.key) || (rows[i].candidate == d.candidate && rows[i].revision == d.revision))
  }

  /** `_replay`: the stored row if the key was used for this very request. */
  function Replay(rows: seq<Document>, r: Request): Result<Option<Document>, Error> {
    match Find(rows, r.user, r.key)
    case None => Success(None)
    case Some(d) =>
      if d.candidate != r.candidate || d.version != r.version then Failure(KeyReused) else Success(Some(d))
  }

  class GenerationTable {
    var rows: seq<Document>

    constructor ()
      ensures rows == []
    {
      rows := [];
    }

    method Flush(d: Document) returns (ok: bool)
      modifies this
      ensures ok == !Violates(old(rows), d)
      ensures rows == if ok then old(rows) + [d] else old(rows)
    {
      ok := !Violates(rows, d);
      if ok {
        rows := rows + [d];
      }
    }

    /**
      `generate` when nothing interferes: a known key gives back its row, a new one adds exactly
      one row with the next revision, and no failure changes the table.
     */
    method Generate(r: Request, rendered: Option<string>) returns (result: Result<(Document, bool), Error>)
      modifies this
      ensures result.Failure? ==> rows == old(rows)
      ensures result.Success? ==>
        var (d, created) := result.value;
        && d in rows && Answers(d, r)
        && (if created then rows == old(rows) + [d] && d.revision == MaxRevision(old(rows), r.candidate) + 1
            else rows == old(rows))
      ensures result.Failure? <==>
        Replay(old(rows), r).Failure? || (Replay(old(rows), r) == Success(None) && rendered == None)
    {
      var replay := Replay(rows, r);
      if replay.Failure? {
        return Failure(replay.error);
      }
      if replay.value.Some? {
        return Success((replay.value.value, false));
      }
      if rendered == None {
        return Failure(NotRenderable);
      }
      var revision := MaxRevision(rows, r.candidate) + 1;
      var d := Document(r.user, r.key, r.candidate, r.version, revision, rendered.value);
      MaxBoundsRevisions(rows, r.candidate);
      var ok := Flush(d);
      result := Success((d, true));
    }
  }

  lemma {:induction false} MaxBoundsRevisions(rows: seq<Document>, candidate: int)
    ensures forall i :: 0 <= i < |rows| && rows[i].candidate == candidate ==> rows[i].revision <= MaxRevision(rows, candidate)
  {
    if rows != [] {
      MaxBoundsRevisions(rows[..|rows| - 1], candidate);
    }
  }

  // ---------------------------------------------------------------- interleaved calls

  datatype Progress =
    | Replaying
    | Rendering
    | Inserting(revision: nat, body: string)
    | Conflicted
    | Returned(document: Document, created: bool)
    | Refused(error: Error)

  datatype Call = Call(request: Request, progress: Progress)

  datatype System = System(rows: seq<Document>, calls: seq<Call>)

  /** A new call arrives, or a call takes its next step; `rendered` is what its template yields then. */
  datatype Event = Arrive(request: Request) | Advance(call: nat, rendered: Option<string>)

  function AfterReplay(rows: seq<Document>, r: Request, otherwise: Progress): Progress {
    match Replay(rows, r)
    case Failure(e) => Refused(e)
    case Success(None) => otherwise
    case Success(Some(d)) => Returned(d, false)
  }

  /** The document a call is about to insert. */
  function Draft(r: Request, revision: nat, body: string): Document {
    Document(r.user, r.key, r.candidate, r.version, revision, body)
  }

  function Next(rows: seq<Document>, c: Call, rendered: Option<string>): (seq<Document>, Progress) {
    match c.progress
    case Replaying => (rows, AfterReplay(rows, c.request, Rendering))
    case Rendering =>
      (rows, match rendered
             case None => Refused(NotRenderable)
             case Some(body) => Inserting(MaxRevision(rows, c.request.candidate) + 1, body))
    case Inserting(revision, body) =>
      var d := Draft(c.request, revision, body);
      if Violates(rows, d) then (rows, Conflicted) else (rows + [d], Returned(d, true))
    case Conflicted => (rows, AfterReplay(rows, c.request, Refused(TryAgain)))
    case Returned(_, _) => (rows, c.progress)
    case Refused(_) => (rows, c.progress)
  }

  function Step(s: System, e: Event): System {
    match e
    case Arrive(r) => s.(calls := s.calls + [Call(r, Replaying)])
    case Advance(i, rendered) =>
      if i >= |s.calls| then s
      else
        var (rows, progress) := Next(s.rows, s.calls[i], rendered);
        System(rows, s.calls[i := s.calls[i].(progress := progress)])
  }

  function Run(events: seq<Event>): System {
    if events == [] then System([], []) else Step(Run(events[..|events| - 1]), events[|events| - 1])
  }

  // ---------------------------------------------------------------- what every interleaving keeps

  predicate Answers(d: Document, r: Request) {
    d.user == r.user && d.key == r.key && d.candidate == r.candidate && d.version == r.version
  }

  function CountOf(rows: seq<Document>, candidate: int): nat {
    if rows == [] then 0
    else CountOf(rows[..|rows| - 1], candidate) + (if rows[|rows| - 1].candidate == candidate then 1 else 0)
  }

  ghost predicate OneRowPerKey(rows: seq<Document>) {
    forall i, j :: 0 <= i < j < |rows| ==> rows[i].user != rows[j].user || rows[i].key != rows[j].key
  }

  /** In order of insertion, the documents of each candidate are numbered 1, 2, 3, ... */
  ghost predicate Numbered(rows: seq<Document>) {
    forall i :: 0 <= i < |rows| ==> rows[i].revision == CountOf(rows[..i], rows[i].candidate) + 1
  }

  /** What a call knows is true of the table. */
  ghost predicate Sound(rows: seq<Document>, c: Call) {
    match c.progress
    case Inserting(revision, _) => 1 <= revision <= CountOf(rows, c.request.candidate) + 1
    case Returned(d, _) => d in rows && Answers(d, c.request)
    case _ => true
  }

  ghost predicate Creator(c: Call, d: Document) {
    c.progress == Returned(d, true)
  }

  ghost predicate Inv(s: System) {
    && OneRowPerKey(s.rows) && Numbered(s.rows)
    && (forall i :: 0 <= i < |s.calls| ==> Sound(s.rows, s.calls[i]))
    && (forall i, j, d :: 0 <= i < j < |s.calls| && Creator(s.calls[i], d) ==> !Creator(s.calls[j], d))
  }

  lemma {:induction false} NumberedMax(rows: seq<Document>, candidate: int)
    requires Numbered(rows)
    ensures MaxRevision(rows, candidate) == CountOf(rows, candidate)
  {
    if rows != [] {
      var front := rows[..|rows| - 1];
      assert forall i :: 0 <= i < |front| ==> front[..i] == rows[..i];
      NumberedMax(front, candidate);
    }
  }

  /** Every number up to the count is taken, so a number that is free is the next one. */
  lemma {:induction false} NumbersTaken(rows: seq<Document>, candidate: int, revision: nat) returns (i: nat)
    requires Numbered(rows) && 1 <= revision <= CountOf(rows, candidate)
    ensures i < |rows| && rows[i].candidate == candidate && rows[i].revision == revision
  {
    var front, last := rows[..|rows| - 1], |rows| - 1;
    assert forall k :: 0 <= k < |front| ==> front[..k] == rows[..k];
    if rows[last].candidate == candidate && revision == CountOf(rows, candidate) {
      i := last;
    } else {
      i := NumbersTaken(front, candidate, revision);
    }
  }

  lemma InsertKeeps(rows: seq<Document>, d: Document)
    requires OneRowPerKey(rows) && Numbered(rows) && !Violates(rows, d)
    requires 1 <= d.revision <= CountOf(rows, d.candidate) + 1
    ensures OneRowPerKey(rows + [d]) && Numbered(rows + [d])
  {
    var after := rows + [d];
    if d.revision <= CountOf(rows, d.candidate) {
      var i := NumbersTaken(rows, d.candidate, d.revision);
    }
    forall i | 0 <= i < |after| ensures after[i].revision == CountOf(after[..i], after[i].candidate) + 1 {
      assert after[..i] == rows[..i];
      assert rows[..|rows|] == rows;
    }
  }

  lemma NextKeeps(s: System, i: nat, rendered: Option<string>)
    requires Inv(s) && i < |s.calls|
    ensures
      var (rows, progress) := Next(s.rows, s.calls[i], rendered);
      && s.rows <= rows && OneRowPerKey(rows) && Numbered(rows)
      && (forall j :: 0 <= j < |s.calls| ==> Sound(rows, s.calls[j]))
      && Sound(rows, s.calls[i].(progress := progress))
      && (progress.Returned? && progress.created ==> progress == s.calls[i].progress || progress.document !in s.rows)
  {
    var c := s.calls[i];
    match c.progress {
      case Replaying =>
      case Rendering => NumberedMax(s.rows, c.request.candidate);
      case Inserting(revision, body) =>
        var d := Draft(c.request, revision, body);
        if !Violates(s.rows, d) {
          InsertKeeps(s.rows, d);
          forall j | 0 <= j < |s.calls| ensures Sound(s.rows + [d], s.calls[j]) {
          }
          assert d in s.rows + [d];
        }
      case Conflicted =>
      case Returned(_, _) =>
      case Refused(_) =>
    }
  }

  lemma StepKeeps(s: System, e: Event)
    requires Inv(s)
    ensures Inv(Step(s, e)) && s.rows <= Step(s, e).rows
  {
    match e {
      case Arrive(r) =>
      case Advance(i, rendered) =>
        if i < |s.calls| {
          NextKeeps(s, i, rendered);
          var after := Step(s, e);
          forall j, k, d | 0 <= j < k < |after.calls| && Creator(after.calls[j], d) ensures !Creator(after.calls[k], d) {
            assert j != i ==> Sound(s.rows, s.calls[j]);
            assert k != i ==> Sound(s.rows, s.calls[k]);
          }
        }
    }
  }

  lemma {:induction false} RunKeeps(events: seq<Event>, n: nat)
    requires n <= |events|
    ensures Inv(Run(events)) && Run(events[..n]).rows <= Run(events).rows
  {
    if events != [] {
      var front := events[..|events| - 1];
      if n < |events| {
        RunKeeps(front, n);
        assert front[..n] == events[..n];
      } else {
        RunKeeps(front, |front|);
        assert events[..n] == events;
      }
      StepKeeps(Run(front), events[|events| - 1]);
    }
  }

  /**
    In every interleaving: at most one row per user and key; the documents of a candidate are
    numbered 1..n without a gap; and what was stored at any earlier point is a prefix of what is
    stored now, so no snapshot ever changes or disappears.
   */
  lemma TableIsSafe(events: seq<Event>, n: nat)
    requires n <= |events|
    ensures OneRowPerKey(Run(events).rows) && Numbered(Run(events).rows)
    ensures Run(events[..n]).rows <= Run(events).rows
  {
    RunKeeps(events, n);
  }

  /**
    In every interleaving, any two calls of one user with one key that return, return the same
    document; it answers both requests; and it was created by at most one of them.
   */
  lemma CallersAgree(events: seq<Event>, i: nat, j: nat)
    requires i != j && i < |Run(events).calls| && j < |Run(events).calls|
    requires Run(events).calls[i].progress.Returned? && Run(events).calls[j].progress.Returned?
    requires Run(events).calls[i].request.user == Run(events).calls[j].request.user
    requires Run(events).calls[i].request.key == Run(events).calls[j].request.key
    ensures
      var a, b := Run(events).calls[i], Run(events).calls[j];
      && a.progress.document == b.progress.document && a.request == b.request
      && Answers(a.progress.document, a.request) && a.progress.document in Run(events).rows
      && !(a.progress.created && b.progress.created)
  {
    RunKeeps(events, 0);
    var s := Run(events);
    assert Sound(s.rows, s.calls[i]) && Sound(s.rows, s.calls[j]);
    var d := s.calls[i].progress.document;
    assert s.calls[i].progress.created ==> Creator(s.calls[i], d);
    assert s.calls[j].progress.created ==> Creator(s.calls[j], s.calls[j].progress.document);
  }

  // ---------------------------------------------------------------- what a call comes to

  ghost predicate KeyUsed(rows: seq<Document>, r: Request) {
    exists d :: d in rows && d.user == r.user && d.key == r.key
  }

  ghost predicate NumberUsed(rows: seq<Document>, candidate: int, revision: nat) {
    exists d :: d in rows && d.candidate == candidate && d.revision == revision
  }

  /** A key is replayed with its own row, refused when that row answers another request, and new otherwise. */
  lemma ReplayIff(rows: seq<Document>, r: Request)
    requires OneRowPerKey(rows)
    ensures Replay(rows, r) == Success(None) <==> !KeyUsed(rows, r)
    ensures forall d :: Replay(rows, r) == Success(Some(d)) <==>
              d in rows && d.user == r.user && d.key == r.key && d.candidate == r.candidate && d.version == r.version
    ensures Replay(rows, r).Failure? <==>
              exists d :: d in rows && d.user == r.user && d.key == r.key && (d.candidate != r.candidate || d.version != r.version)
    ensures Replay(rows, r).Failure? ==> Replay(rows, r).error == KeyReused
  {
    var found := Find(rows, r.user, r.key);
    forall d | d in rows && d.user == r.user && d.key == r.key ensures found == Some(d) {
      var i :| 0 <= i < |rows| && rows[i] == d;
      var j :| 0 <= j < |rows| && rows[j] == found.value;
    }
  }

  lemma ViolatesIff(rows: seq<Document>, r: Request, revision: nat, body: string)
    ensures Violates(rows, Draft(r, revision, body)) <==> KeyUsed(rows, r) || NumberUsed(rows, r.candidate, revision)
  {
    if KeyUsed(rows, r) {
      var d :| d in rows && d.user == r.user && d.key == r.key;
      var i :| 0 <= i < |rows| && rows[i] == d;
    }
    if NumberUsed(rows, r.candidate, revision) {
      var d :| d in rows && d.candidate == r.candidate && d.revision == revision;
      var i :| 0 <= i < |rows| && rows[i] == d;
    }
  }

  /** What a call that looks its key up is told, other than to go on. */
  ghost predicate LookedUp(rows: seq<Document>, r: Request, told: Progress) {
    && KeyUsed(rows, r)
    && match told
       case Returned(d, created) => d in rows && Answers(d, r) && !created
       case Refused(e) => e == KeyReused && exists d :: d in rows && d.user == r.user && d.key == r.key && !Answers(d, r)
       case _ => false
  }

  /**
    How a call begins. A used key is answered at once; a new one is rendered, and gets the number
    after the candidate's last. Nothing is written yet.
   */
  lemma CallBegins(s: System, i: nat, ignored: Option<string>, rendered: Option<string>)
    requires Inv(s) && i < |s.calls| && s.calls[i].progress == Replaying
    ensures var r, after := s.calls[i].request, Step(Step(s, Advance(i, ignored)), Advance(i, rendered));
            && after.rows == s.rows
            && if KeyUsed(s.rows, r) then LookedUp(s.rows, r, after.calls[i].progress)
               else if rendered.None? then after.calls[i].progress == Refused(NotRenderable)
               else after.calls[i].progress == Inserting(CountOf(s.rows, r.candidate) + 1, rendered.value)
  {
    ReplayIff(s.rows, s.calls[i].request);
    NumberedMax(s.rows, s.calls[i].request.candidate);
  }

  /**
    How it ends. Whoever comes second with a key is given the first one's document, or told that the
    key is taken; whoever loses the number alone is told to try again; and the document of all others
    is stored, with their own text.
   */
  lemma CallEnds(s: System, i: nat, ignored: Option<string>, again: Option<string>)
    requires Inv(s) && i < |s.calls| && s.calls[i].progress.Inserting?
    ensures var c, after := s.calls[i], Step(Step(s, Advance(i, ignored)), Advance(i, again));
            var (r, n) := (c.request, c.progress.revision);
            if KeyUsed(s.rows, r) then after.rows == s.rows && LookedUp(s.rows, r, after.calls[i].progress)
            else if NumberUsed(s.rows, r.candidate, n) then after.rows == s.rows && after.calls[i].progress == Refused(TryAgain)
            else
              var d := Document(r.user, r.key, r.candidate, r.version, n, c.progress.body);
              after.rows == s.rows + [d] && after.calls[i].progress == Returned(d, true)
  {
    var c := s.calls[i];
    ReplayIff(s.rows, c.request);
    ViolatesIff(s.rows, c.request, c.progress.revision, c.progress.body);
  }
}
