/**
  Manual document messages (`document_message` in backend/app/document_messages.py), with their two
  layers of idempotency: the HTTP key of the request, and the durable key of the receipt state. Lists
  and receipts are those of CandidateDocuments. The digests of the source are modelled by the values
  they are taken of.
 */
module DocumentMessages {
  import opened Wrappers
  import D = CandidateDocuments

  datatype Channel = Email | Telegram

  datatype Wanted = Anything | Only(channel: Channel) | Unknown

  /** The request body; `extras` says that it names documents or an event. */
  datatype Request = Request(httpKey: string, kind: string, setId: Option<nat>, wanted: Wanted, extras: bool)

  datatype Payload = Payload(user: int, candidate: int, request: Request)

  /** `documents:{set}:{type}:{channel}:{digest of the item versions}`; a set is named by its position. */
  datatype DocKey = DocKey(candidate: int, setId: nat, kind: string, channel: Channel, versions: map<string, nat>)

  datatype Status = Queued | Sending | Delivered | Failed | Cancelled

  datatype Row = Row(key: DocKey, items: seq<D.Item>, status: Status)

  /** The answer: the outbox rows, by position, and their channels. */
  datatype Response = Response(rows: seq<nat>, channels: seq<Channel>)

  datatype Record = Record(httpKey: string, payload: Payload, response: Response)

  datatype Store = Store(sets: map<int, seq<D.DocumentSet>>, outbox: seq<Row>, requests: seq<Record>)

  /** Whether the user may access the candidate, and the channels allowed at this moment. */
  datatype Scene = Scene(accessible: bool, allowed: seq<Channel>)

  datatype Error = BadRequest | NotFound | KeyReused | ListChanged | NothingMissing | BadChannel | NoChannel

  function SetsOf(s: Store, c: int): seq<D.DocumentSet> { if c in s.sets then s.sets[c] else [] }

  function Versions(d: D.DocumentSet): map<string, nat> { map key | key in d.rows :: d.rows[key].version }

  function Find(outbox: seq<Row>, key: DocKey): (r: Option<nat>)
    ensures r.Some? ==> r.value < |outbox| && outbox[r.value].key == key
    ensures r.None? ==> forall i :: 0 <= i < |outbox| ==> outbox[i].key != key
  {
    if outbox == [] then None
    else
      var earlier := Find(outbox[..|outbox| - 1], key);
      if earlier.Some? then earlier else if outbox[|outbox| - 1].key == key then Some(|outbox| - 1) else None
  }

  function Replay(requests: seq<Record>, httpKey: string): (r: Option<Record>)
    ensures r.Some? ==> r.value in requests && r.value.httpKey == httpKey
    ensures r.None? ==> forall i :: 0 <= i < |requests| ==> requests[i].httpKey != httpKey
  {
    if requests == [] then None
    else if requests[|requests| - 1].httpKey == httpKey then Some(requests[|requests| - 1])
    else Replay(requests[..|requests| - 1], httpKey)
  }

  function Chosen(allowed: seq<Channel>, wanted: Wanted): (r: seq<Channel>)
    ensures forall ch :: ch in r <==> ch in allowed && (wanted == Anything || wanted == Only(ch))
    ensures wanted == Anything ==> r == allowed
  {
    if allowed == [] then []
    else
      var last := allowed[|allowed| - 1];
      Chosen(allowed[..|allowed| - 1], wanted) + if wanted == Anything || wanted == Only(last) then [last] else []
  }

  /** What a request sends: the durable key but for the channel, and the missing items. */
  datatype Letter = Letter(candidate: int, setId: nat, kind: string, versions: map<string, nat>, items: seq<D.Item>)

  function LetterFor(c: int, setId: nat, kind: string, d: D.DocumentSet): Letter {
    Letter(c, setId, kind, Versions(d), D.MissingItems(d))
  }

  function RowFor(letter: Letter, channel: Channel): Row {
    Row(DocKey(letter.candidate, letter.setId, letter.kind, channel, letter.versions), letter.items, Queued)
  }

  /** A row with the key exists already, or is queued now; either way, where it is. */
  function PlaceOne(outbox: seq<Row>, row: Row): (seq<Row>, nat) {
    var found := Find(outbox, row.key);
    if found.Some? then (outbox, found.value) else (outbox + [row], |outbox|)
  }

  /** The loop over the channels. */
  function Place(outbox: seq<Row>, letter: Letter, channels: seq<Channel>): (seq<Row>, Response) {
    if channels == [] then (outbox, Response([], []))
    else
      var (before, answer) := Place(outbox, letter, channels[..|channels| - 1]);
      var channel := channels[|channels| - 1];
      var (after, at) := PlaceOne(before, RowFor(letter, channel));
      (after, Response(answer.rows + [at], answer.channels + [channel]))
  }

  /** The checks and the answer of a request whose HTTP key is new. */
  function Send(s: Store, user: int, c: int, request: Request, scene: Scene): Result<(Store, Response), Error> {
    var payload := Payload(user, c, request);
    if request.extras || request.setId.None? then Failure(BadRequest)
    else if !scene.accessible then Failure(NotFound)
    else
      var replay := Replay(s.requests, request.httpKey);
      if replay.Some? then
        if replay.value.payload != payload then Failure(KeyReused) else Success((s, replay.value.response))
      else
        var sets := SetsOf(s, c);
        if D.Current(sets) != request.setId then Failure(ListChanged)
        else
          var d := sets[request.setId.value];
          if D.MissingItems(d) == [] then Failure(NothingMissing)
          else if request.wanted == Unknown then Failure(BadChannel)
          else
            var channels := Chosen(scene.allowed, request.wanted);
            if channels == [] then Failure(NoChannel)
            else
              var (outbox, response) := Place(s.outbox, LetterFor(c, request.setId.value, request.kind, d), channels);
              Success((s.(outbox := outbox, requests := s.requests + [Record(request.httpKey, payload, response)]), response))
  }

  /** The rows, as one request changes them. */
  class Rows {
    var sets: map<int, seq<D.DocumentSet>>
    var outbox: seq<Row>
    var requests: seq<Record>

    ghost function Value(): Store
      reads this
    {
      Store(sets, outbox, requests)
    }

    constructor (s: Store)
      ensures Value() == s
    {
      sets, outbox, requests := s.sets, s.outbox, s.requests;
    }

    method DocumentMessage(user: int, c: int, request: Request, scene: Scene) returns (r: Result<Response, Error>)
      modifies this
      ensures match Send(old(Value()), user, c, request, scene)
              case Failure(e) => r == Failure(e) && Value() == old(Value())
              case Success((after, response)) => r == Success(response) && Value() == after
    {
      if request.extras || request.setId.None? {
        return Failure(BadRequest);
      }
      if !scene.accessible {
        return Failure(NotFound);
      }
      var payload := Payload(user, c, request);
      var replay := Replay(requests, request.httpKey);
      if replay.Some? {
        if replay.value.payload != payload {
          return Failure(KeyReused);
        }
        return Success(replay.value.response);
      }
      var mine := if c in sets then sets[c] else [];
      var current := D.Current(mine);
      if current != request.setId {
        return Failure(ListChanged);
      }
      var d := mine[current.value];
      if D.MissingItems(d) == [] {
        return Failure(NothingMissing);
      }
      if request.wanted == Unknown {
        return Failure(BadChannel);
      }
      var channels := Chosen(scene.allowed, request.wanted);
      if channels == [] {
        return Failure(NoChannel);
      }
      var response := PlaceAll(LetterFor(c, current.value, request.kind, d), channels);
      requests := requests + [Record(request.httpKey, payload, response)];
      r := Success(response);
    }

    method PlaceAll(letter: Letter, channels: seq<Channel>) returns (response: Response)
      modifies this`outbox
      ensures (outbox, response) == Place(old(outbox), letter, channels)
    {
      response := Response([], []);
      for i := 0 to |channels|
        invariant (outbox, response) == Place(old(outbox), letter, channels[..i])
      {
        assert channels[..i + 1][..i] == channels[..i];
        var row := RowFor(letter, channels[i]);
        var found := Find(outbox, row.key);
        var at := if found.Some? then found.value else |outbox|;
        if found.None? {
          outbox := outbox + [row];
        }
        response := Response(response.rows + [at], response.channels + [channels[i]]);
      }
      assert channels[..|channels|] == channels;
    }
  }

  // ---------------------------------------------------------------- runs

  datatype Event =
    | SendMessage(user: int, c: int, request: Request, scene: Scene)
    | ApplyList(c: int, stage: string, id: int, version: Option<D.ListVersion>, expected: nat)
    | Receive(c: int, setId: nat, key: string, expected: nat, state: D.Receipt)
    | WorkerSets(i: nat, status: Status)       // claimed, delivered, cancelled by a revocation, ...

  function Step(s: Store, e: Event): Store {
    match e
    case SendMessage(user, c, request, scene) =>
      var r := Send(s, user, c, request, scene);
      if r.Success? then r.value.0 else s
    case ApplyList(c, stage, id, version, expected) =>
      var r := D.Apply(SetsOf(s, c), stage, id, version, expected);
      if r.Success? then s.(sets := s.sets[c := r.value]) else s
    case Receive(c, setId, key, expected, state) =>
      var r := D.SetReceipt(SetsOf(s, c), setId, key, expected, state);
      if r.Success? then s.(sets := s.sets[c := r.value]) else s
    case WorkerSets(i, status) =>
      if i < |s.outbox| then s.(outbox := s.outbox[i := s.outbox[i].(status := status)]) else s
  }

  function Run(s: Store, events: seq<Event>): Store {
    if events == [] then s else Step(Run(s, events[..|events| - 1]), events[|events| - 1])
  }

  const EMPTY: Store := Store(map[], [], [])

  // ---------------------------------------------------------------- what every run keeps

  ghost predicate UniqueKeys(outbox: seq<Row>) {
    forall i, j :: 0 <= i < j < |outbox| ==> outbox[i].key != outbox[j].key
  }

  ghost predicate UniqueHttp(requests: seq<Record>) {
    forall i, j :: 0 <= i < j < |requests| ==> requests[i].httpKey != requests[j].httpKey
  }

  /** Versions that were taken of the set, now or before. */
  ghost predicate NotAhead(versions: map<string, nat>, d: D.DocumentSet) {
    versions.Keys == d.rows.Keys && forall key :: key in versions ==> versions[key] <= d.rows[key].version
  }

  /** A row names what was missing in its set when it had the row's versions. */
  ghost predicate RowOk(sets: seq<D.DocumentSet>, row: Row) {
    && row.key.setId < |sets|
    && var d := sets[row.key.setId];
    && NotAhead(row.key.versions, d)
    && (row.key.versions == Versions(d) ==> row.items == D.MissingItems(d))
  }

  ghost predicate Inv(s: Store) {
    UniqueKeys(s.outbox) && UniqueHttp(s.requests) && RowsOk(s.sets, s.outbox)
  }

  /** Rows and answers are never lost or rewritten; only a row's status changes. */
  ghost predicate Grows(a: Store, b: Store) {
    && |a.outbox| <= |b.outbox|
    && (forall i :: 0 <= i < |a.outbox| ==> b.outbox[i] == a.outbox[i].(status := b.outbox[i].status))
    && a.requests <= b.requests
  }

  ghost predicate Answers(outbox: seq<Row>, at: nat, letter: Letter, channel: Channel) {
    at < |outbox| && outbox[at].key == RowFor(letter, channel).key
  }

  /** Keys stay unique, no row is lost, and every new row is of this letter. */
  ghost predicate Grown(outbox: seq<Row>, after: seq<Row>, letter: Letter) {
    && UniqueKeys(after) && outbox <= after
    && forall i :: |outbox| <= i < |after| ==> after[i] == RowFor(letter, after[i].key.channel)
  }

  /** One row a channel, in order. */
  ghost predicate Answered(outbox: seq<Row>, answer: Response, letter: Letter, channels: seq<Channel>) {
    && answer.channels == channels && |answer.rows| == |channels|
    && forall k :: 0 <= k < |channels| ==> Answers(outbox, answer.rows[k], letter, channels[k])
  }

  /** Placing a channel list queues rows only where no row had the key, and answers each channel with its row. */
  lemma {:induction false} PlaceMeans(outbox: seq<Row>, letter: Letter, channels: seq<Channel>)
    requires UniqueKeys(outbox)
    ensures Grown(outbox, Place(outbox, letter, channels).0, letter)
    ensures Answered(Place(outbox, letter, channels).0, Place(outbox, letter, channels).1, letter, channels)
  {
    if channels != [] {
      var front, last := channels[..|channels| - 1], channels[|channels| - 1];
      PlaceMeans(outbox, letter, front);
      var (before, answer) := Place(outbox, letter, front);
      assert channels == front + [last];
    }
  }

  ghost predicate Has(outbox: seq<Row>, letter: Letter, channel: Channel) { Find(outbox, RowFor(letter, channel).key).Some? }

  lemma OneFinds(outbox: seq<Row>, before: seq<Row>, letter: Letter, channel: Channel)
    requires UniqueKeys(before) && outbox <= before
    ensures PlaceOne(before, RowFor(letter, channel)).0 == outbox <==> before == outbox && Has(outbox, letter, channel)
  {
  }

  ghost predicate AllHave(outbox: seq<Row>, letter: Letter, channels: seq<Channel>) {
    forall k :: 0 <= k < |channels| ==> Has(outbox, letter, channels[k])
  }

  lemma AllHaveSnoc(outbox: seq<Row>, letter: Letter, front: seq<Channel>, last: Channel)
    ensures AllHave(outbox, letter, front + [last]) <==> AllHave(outbox, letter, front) && Has(outbox, letter, last)
  {
    var all := front + [last];
    assert all[|front|] == last && forall k :: 0 <= k < |front| ==> all[k] == front[k];
  }

  /** Placing adds nothing exactly when every channel has its row already. */
  lemma {:induction false} PlaceFinds(outbox: seq<Row>, letter: Letter, channels: seq<Channel>)
    requires UniqueKeys(outbox)
    ensures Place(outbox, letter, channels).0 == outbox <==> AllHave(outbox, letter, channels)
  {
    if channels != [] {
      var front, last := channels[..|channels| - 1], channels[|channels| - 1];
      PlaceFinds(outbox, letter, front);
      PlaceMeans(outbox, letter, front);
      var before := Place(outbox, letter, front).0;
      OneFinds(outbox, before, letter, last);
      AllHaveSnoc(outbox, letter, front, last);
      assert channels == front + [last];
    }
  }

  ghost predicate RowsOk(sets: map<int, seq<D.DocumentSet>>, outbox: seq<Row>) {
    forall i :: 0 <= i < |outbox| ==> RowOk(if outbox[i].key.candidate in sets then sets[outbox[i].key.candidate] else [], outbox[i])
  }

  /** A letter written from a set now makes rows that are right about it. */
  lemma PlaceOk(sets: map<int, seq<D.DocumentSet>>, outbox: seq<Row>, c: int, setId: nat, kind: string, channels: seq<Channel>)
    requires RowsOk(sets, outbox) && UniqueKeys(outbox) && c in sets && setId < |sets[c]|
    ensures var after := Place(outbox, LetterFor(c, setId, kind, sets[c][setId]), channels).0;
            RowsOk(sets, after) && UniqueKeys(after) && outbox <= after
  {
    var letter := LetterFor(c, setId, kind, sets[c][setId]);
    PlaceMeans(outbox, letter, channels);
    var after := Place(outbox, letter, channels).0;
    forall i | |outbox| <= i < |after| ensures RowOk(sets[c], after[i]) {
      assert after[i] == RowFor(letter, after[i].key.channel);
    }
  }

  lemma SendKeeps(s: Store, user: int, c: int, request: Request, scene: Scene)
    requires Inv(s)
    ensures Inv(Step(s, SendMessage(user, c, request, scene))) && Grows(s, Step(s, SendMessage(user, c, request, scene)))
  {
    var r := Send(s, user, c, request, scene);
    if r.Success? && Replay(s.requests, request.httpKey).None? {
      assert RowsOk(s.sets, s.outbox);
      PlaceOk(s.sets, s.outbox, c, request.setId.value, request.kind, Chosen(scene.allowed, request.wanted));
      assert RowsOk(s.sets, r.value.0.outbox);
    }
  }

  lemma ReceiveKeeps(s: Store, c: int, setId: nat, key: string, expected: nat, state: D.Receipt)
    requires Inv(s)
    ensures Inv(Step(s, Receive(c, setId, key, expected, state))) && Grows(s, Step(s, Receive(c, setId, key, expected, state)))
  {
  }

  lemma ApplyKeeps(s: Store, c: int, stage: string, id: int, version: Option<D.ListVersion>, expected: nat)
    requires Inv(s)
    ensures Inv(Step(s, ApplyList(c, stage, id, version, expected))) && Grows(s, Step(s, ApplyList(c, stage, id, version, expected)))
  {
  }

  lemma StepKeeps(s: Store, e: Event)
    requires Inv(s)
    ensures Inv(Step(s, e)) && Grows(s, Step(s, e))
  {
    match e {
      case SendMessage(user, c, request, scene) => SendKeeps(s, user, c, request, scene);
      case ApplyList(c, stage, id, version, expected) => ApplyKeeps(s, c, stage, id, version, expected);
      case Receive(c, setId, key, expected, state) => ReceiveKeeps(s, c, setId, key, expected, state);
      case WorkerSets(i, status) =>
        forall j | 0 <= j < |s.outbox| ensures RowOk(SetsOf(s, s.outbox[j].key.candidate), Step(s, e).outbox[j]) {
          assert RowOk(SetsOf(s, s.outbox[j].key.candidate), s.outbox[j]);
        }
    }
  }

  lemma {:induction false} RunKeeps(s: Store, events: seq<Event>)
    requires Inv(s)
    ensures Inv(Run(s, events)) && Grows(s, Run(s, events))
  {
    if events == [] {
    } else {
      var front := events[..|events| - 1];
      RunKeeps(s, front);
      StepKeeps(Run(s, front), events[|events| - 1]);
    }
  }

  lemma ReplayFinds(requests: seq<Record>, i: nat)
    requires UniqueHttp(requests) && i < |requests|
    ensures Replay(requests, requests[i].httpKey) == Some(requests[i])
  {
  }

  /**
    A request sent again with its HTTP key, after anything that may have happened in between: the same
    payload by the same user gets the stored answer and changes nothing, whatever the lists, channels
    and rows have become; any other payload or user is refused and changes nothing.
   */
  lemma RetryReturnsStored(s: Store, user: int, c: int, request: Request, scene: Scene, events: seq<Event>,
                           again: Request, user2: int, c2: int, scene2: Scene)
    requires Inv(s) && Send(s, user, c, request, scene).Success?
    requires again.httpKey == request.httpKey && !again.extras && again.setId.Some? && scene2.accessible
    ensures var (sent, response) := Send(s, user, c, request, scene).value;
            var later := Run(sent, events);
            Send(later, user2, c2, again, scene2) ==
              if Payload(user2, c2, again) == Payload(user, c, request) then Success((later, response)) else Failure(KeyReused)
  {
    SendKeeps(s, user, c, request, scene);
    var (sent, response) := Send(s, user, c, request, scene).value;
    RunKeeps(sent, events);
    var later := Run(sent, events);
    var record := Record(request.httpKey, Payload(user, c, request), response);
    var i :| 0 <= i < |sent.requests| && sent.requests[i] == record;
    assert later.requests[i] == record;
    ReplayFinds(later.requests, i);
  }

  /** Some channel is allowed and wanted. */
  ghost predicate Reaches(scene: Scene, wanted: Wanted) {
    exists ch :: ch in scene.allowed && (wanted == Anything || wanted == Only(ch))
  }

  /**
    Exactly when a request is answered: it is a retry of its own payload, or it names the current
    list, something required is missing there, and some wanted channel is allowed.
   */
  lemma AnsweredIff(s: Store, user: int, c: int, request: Request, scene: Scene)
    ensures Send(s, user, c, request, scene).Success? <==>
      && !request.extras && request.setId.Some? && scene.accessible
      && var replay := Replay(s.requests, request.httpKey);
         if replay.Some? then replay.value.payload == Payload(user, c, request)
         else D.Current(SetsOf(s, c)) == request.setId
              && (exists item :: item in SetsOf(s, c)[request.setId.value].items
                                 && D.IsMissing(SetsOf(s, c)[request.setId.value], item))
              && Reaches(scene, request.wanted)
  {
    if D.Current(SetsOf(s, c)) == request.setId && request.setId.Some? {
      var d := SetsOf(s, c)[request.setId.value];
      var missing, chosen := D.MissingItems(d), Chosen(scene.allowed, request.wanted);
      if missing != [] {
        assert missing[0] in missing;
      }
      if chosen != [] {
        assert chosen[0] in chosen;
      }
    }
  }

  /** Same list, same receipt state, same kind of message: what the durable key compares. */
  ghost predicate SameReceipts(a: Store, b: Store, c: int, setId: nat) {
    setId < |SetsOf(a, c)| && setId < |SetsOf(b, c)| && Versions(SetsOf(a, c)[setId]) == Versions(SetsOf(b, c)[setId])
  }

  /**
    A second send under a new HTTP key, on channels the first one used and with no receipt changed in
    between, adds no outbox row, whatever became of the first rows.
   */
  lemma UnchangedAddsNoRow(s: Store, user: int, c: int, first: Request, scene: Scene, events: seq<Event>,
                           user2: int, second: Request, scene2: Scene)
    requires Inv(s) && Replay(s.requests, first.httpKey).None? && Send(s, user, c, first, scene).Success?
    requires second.kind == first.kind && second.setId == first.setId
    requires var sent := Send(s, user, c, first, scene).value.0;
             var later := Run(sent, events);
             && SameReceipts(s, later, c, first.setId.value)
             && Replay(later.requests, second.httpKey).None? && Send(later, user2, c, second, scene2).Success?
    requires forall ch :: ch in Chosen(scene2.allowed, second.wanted) ==> ch in Chosen(scene.allowed, first.wanted)
    ensures var later := Run(Send(s, user, c, first, scene).value.0, events);
            Send(later, user2, c, second, scene2).value.0.outbox == later.outbox
  {
    SendKeeps(s, user, c, first, scene);
    var sent := Send(s, user, c, first, scene).value.0;
    RunKeeps(sent, events);
    var later, setId := Run(sent, events), first.setId.value;
    var letter := LetterFor(c, setId, first.kind, SetsOf(s, c)[setId]);
    var next := LetterFor(c, setId, first.kind, SetsOf(later, c)[setId]);
    forall ch | ch in Chosen(scene2.allowed, second.wanted) ensures Has(later.outbox, next, ch) {
      SentHas(s, user, c, first, scene, ch);
    }
    ResendAddsNothing(later, user2, c, second, scene2);
  }

  /** What a send under a new HTTP key writes and answers. */
  lemma SendPlaces(s: Store, user: int, c: int, request: Request, scene: Scene)
    requires Replay(s.requests, request.httpKey).None? && Send(s, user, c, request, scene).Success?
    ensures request.setId.Some? && request.setId.value < |SetsOf(s, c)|
    ensures var letter := LetterFor(c, request.setId.value, request.kind, SetsOf(s, c)[request.setId.value]);
            var (after, response) := Send(s, user, c, request, scene).value;
            && (after.outbox, response) == Place(s.outbox, letter, Chosen(scene.allowed, request.wanted))
            && after.sets == s.sets && after.requests == s.requests + [Record(request.httpKey, Payload(user, c, request), response)]
  {
  }

  /** After a send, each channel it used has its row. */
  lemma SentHas(s: Store, user: int, c: int, request: Request, scene: Scene, channel: Channel)
    requires Inv(s) && Replay(s.requests, request.httpKey).None? && Send(s, user, c, request, scene).Success?
    requires channel in Chosen(scene.allowed, request.wanted)
    ensures var letter := LetterFor(c, request.setId.value, request.kind, SetsOf(s, c)[request.setId.value]);
            Has(Send(s, user, c, request, scene).value.0.outbox, letter, channel)
  {
    var letter := LetterFor(c, request.setId.value, request.kind, SetsOf(s, c)[request.setId.value]);
    SendPlaces(s, user, c, request, scene);
    PlacedHas(s.outbox, letter, Chosen(scene.allowed, request.wanted), channel);
  }

  lemma PlacedHas(outbox: seq<Row>, letter: Letter, used: seq<Channel>, channel: Channel)
    requires UniqueKeys(outbox) && channel in used
    ensures Has(Place(outbox, letter, used).0, letter, channel)
  {
    PlaceMeans(outbox, letter, used);
    var j :| 0 <= j < |used| && used[j] == channel;
    assert Answers(Place(outbox, letter, used).0, Place(outbox, letter, used).1.rows[j], letter, used[j]);
  }

  /** A send all of whose channels have their rows adds none. */
  lemma ResendAddsNothing(s: Store, user: int, c: int, request: Request, scene: Scene)
    requires Inv(s) && Replay(s.requests, request.httpKey).None? && Send(s, user, c, request, scene).Success?
    requires var letter := LetterFor(c, request.setId.value, request.kind, SetsOf(s, c)[request.setId.value]);
             forall ch :: ch in Chosen(scene.allowed, request.wanted) ==> Has(s.outbox, letter, ch)
    ensures Send(s, user, c, request, scene).value.0.outbox == s.outbox
  {
    var letter := LetterFor(c, request.setId.value, request.kind, SetsOf(s, c)[request.setId.value]);
    SendPlaces(s, user, c, request, scene);
    PlaceFinds(s.outbox, letter, Chosen(scene.allowed, request.wanted));
  }

  /** A row of the same candidate, list, kind and channel, written for the same receipt versions, with any status. */
  ghost predicate SentAlready(outbox: seq<Row>, c: int, setId: nat, kind: string, ch: Channel, versions: map<string, nat>) {
    exists i :: 0 <= i < |outbox| && outbox[i].key == DocKey(c, setId, kind, ch, versions)
  }

  ghost predicate QueuedSince(outbox: seq<Row>, after: seq<Row>, ch: Channel) {
    exists i :: |outbox| <= i < |after| && after[i].key.channel == ch
  }

  lemma OneQueues(outbox: seq<Row>, before: seq<Row>, letter: Letter, last: Channel, ch: Channel)
    requires outbox <= before
    ensures var after := PlaceOne(before, RowFor(letter, last)).0;
            QueuedSince(outbox, after, ch) <==> QueuedSince(outbox, before, ch) || (last == ch && !Has(before, letter, ch))
  {
    var row := RowFor(letter, last);
    var after := PlaceOne(before, row).0;
    if Find(before, row.key).None? {
      assert after[|before|] == row && forall i :: 0 <= i < |before| ==> after[i] == before[i];
    }
  }

  lemma HasSince(outbox: seq<Row>, before: seq<Row>, letter: Letter, ch: Channel)
    requires Grown(outbox, before, letter)
    ensures Has(before, letter, ch) <==> Has(outbox, letter, ch) || QueuedSince(outbox, before, ch)
  {
    var key := RowFor(letter, ch).key;
    var now, earlier := Find(before, key), Find(outbox, key);
    if now.Some? && now.value < |outbox| {
      assert outbox[now.value] == before[now.value];
    }
    if earlier.Some? {
      assert before[earlier.value].key == key;
    }
  }

  /** Placing queues a row on just the channels that had none. */
  lemma {:induction false} PlaceQueues(outbox: seq<Row>, letter: Letter, channels: seq<Channel>, ch: Channel)
    requires UniqueKeys(outbox)
    ensures QueuedSince(outbox, Place(outbox, letter, channels).0, ch) <==> ch in channels && !Has(outbox, letter, ch)
  {
    if channels != [] {
      var front, last := channels[..|channels| - 1], channels[|channels| - 1];
      PlaceQueues(outbox, letter, front, ch);
      PlaceMeans(outbox, letter, front);
      var before := Place(outbox, letter, front).0;
      OneQueues(outbox, before, letter, last, ch);
      HasSince(outbox, before, letter, ch);
      assert channels == front + [last];
    }
  }

  /**
    Exactly what a new request queues. One row on each allowed and wanted channel on which nothing was
    sent yet for this candidate, list, kind of message and receipt state, and none on any other: a
    reminder is not swallowed by the request sent before it. Each new row is queued, names all that is
    missing, and earlier rows stay as they are.
   */
  lemma SendQueuesExactly(s: Store, user: int, c: int, request: Request, scene: Scene)
    requires Inv(s) && Replay(s.requests, request.httpKey).None? && Send(s, user, c, request, scene).Success?
    ensures var after := Send(s, user, c, request, scene).value.0;
            var setId, d := request.setId.value, SetsOf(s, c)[request.setId.value];
            && s.outbox <= after.outbox && UniqueKeys(after.outbox)
            && (forall i :: |s.outbox| <= i < |after.outbox| ==>
                  after.outbox[i] == Row(DocKey(c, setId, request.kind, after.outbox[i].key.channel, Versions(d)), D.MissingItems(d), Queued))
            && (forall ch :: QueuedSince(s.outbox, after.outbox, ch) <==>
                  ch in scene.allowed && (request.wanted == Anything || request.wanted == Only(ch))
                  && !SentAlready(s.outbox, c, setId, request.kind, ch, Versions(d)))
  {
    SendPlaces(s, user, c, request, scene);
    var letter := LetterFor(c, request.setId.value, request.kind, SetsOf(s, c)[request.setId.value]);
    var channels := Chosen(scene.allowed, request.wanted);
    PlaceMeans(s.outbox, letter, channels);
    forall ch ensures QueuedSince(s.outbox, Place(s.outbox, letter, channels).0, ch) <==> ch in channels && !Has(s.outbox, letter, ch) {
      PlaceQueues(s.outbox, letter, channels, ch);
    }
    forall ch ensures Has(s.outbox, letter, ch) <==>
                        SentAlready(s.outbox, c, request.setId.value, request.kind, ch, letter.versions) {
    }
  }

  lemma AnswerItems(sets: map<int, seq<D.DocumentSet>>, outbox: seq<Row>, at: nat, letter: Letter, channel: Channel)
    requires letter.candidate in sets && letter.setId < |sets[letter.candidate]|
    requires letter == LetterFor(letter.candidate, letter.setId, letter.kind, sets[letter.candidate][letter.setId])
    requires RowsOk(sets, outbox) && Answers(outbox, at, letter, channel)
    ensures outbox[at].items == letter.items
  {
  }

  /**
    In every reachable state a successful new request answers, channel by channel, with the one row of
    that durable key, and that row names exactly what is missing now; it adds a row exactly where the
    present receipt state had none. So any receipt change since the last send allows a new message.
   */
  lemma AnswersAreCurrent(events: seq<Event>, user: int, c: int, request: Request, scene: Scene)
    requires var s := Run(EMPTY, events);
             Replay(s.requests, request.httpKey).None? && Send(s, user, c, request, scene).Success?
    ensures var s := Run(EMPTY, events);
            var (after, response) := Send(s, user, c, request, scene).value;
            var d := SetsOf(s, c)[request.setId.value];
            var letter := LetterFor(c, request.setId.value, request.kind, d);
            && response.channels == Chosen(scene.allowed, request.wanted) && |response.rows| == |response.channels|
            && (forall k :: 0 <= k < |response.rows| ==>
                  && Answers(after.outbox, response.rows[k], letter, response.channels[k])
                  && after.outbox[response.rows[k]].items == D.MissingItems(d))
            && (after.outbox == s.outbox <==> AllHave(s.outbox, letter, response.channels))
  {
    RunKeeps(EMPTY, events);
    var s := Run(EMPTY, events);
    SendKeeps(s, user, c, request, scene);
    SendPlaces(s, user, c, request, scene);
    var (after, response) := Send(s, user, c, request, scene).value;
    var letter := LetterFor(c, request.setId.value, request.kind, SetsOf(s, c)[request.setId.value]);
    PlaceMeans(s.outbox, letter, Chosen(scene.allowed, request.wanted));
    PlaceFinds(s.outbox, letter, Chosen(scene.allowed, request.wanted));
    forall k | 0 <= k < |response.rows| ensures after.outbox[response.rows[k]].items == letter.items {
      AnswerItems(s.sets, after.outbox, response.rows[k], letter, response.channels[k]);
    }
  }

  /** Placing answers a channel with the row that has its key, whatever became of that row, and leaves the row as it is. */
  lemma FoundAgain(outbox: seq<Row>, letter: Letter, channels: seq<Channel>, i: nat) returns (k: nat)
    requires UniqueKeys(outbox) && i < |outbox| && outbox[i].key.channel in channels
    requires outbox[i].key == RowFor(letter, outbox[i].key.channel).key
    ensures var (after, answer) := Place(outbox, letter, channels);
            k < |answer.rows| == |channels| && channels[k] == outbox[i].key.channel
            && answer.rows[k] == i < |after| && after[i] == outbox[i]
  {
    PlaceMeans(outbox, letter, channels);
    var (after, answer) := Place(outbox, letter, channels);
    k :| 0 <= k < |channels| && channels[k] == outbox[i].key.channel;
    assert Answers(after, answer.rows[k], letter, channels[k]);
    assert after[i] == outbox[i];
  }

  lemma SentAnswers(s: Store, user: int, c: int, request: Request, scene: Scene, j: nat)
    requires Inv(s) && Replay(s.requests, request.httpKey).None? && Send(s, user, c, request, scene).Success?
    requires j < |Send(s, user, c, request, scene).value.1.rows| && j < |Send(s, user, c, request, scene).value.1.channels|
    ensures var (sent, response) := Send(s, user, c, request, scene).value;
            var letter := LetterFor(c, request.setId.value, request.kind, SetsOf(s, c)[request.setId.value]);
            Inv(sent) && sent.sets == s.sets && Answers(sent.outbox, response.rows[j], letter, response.channels[j])
  {
    var letter := LetterFor(c, request.setId.value, request.kind, SetsOf(s, c)[request.setId.value]);
    SendKeeps(s, user, c, request, scene);
    SendPlaces(s, user, c, request, scene);
    PlaceMeans(s.outbox, letter, Chosen(scene.allowed, request.wanted));
  }

  /** The state after a send whose row for one channel is then cancelled. */
  lemma CancelledAfterSend(s: Store, user: int, c: int, request: Request, scene: Scene, j: nat)
    requires Inv(s) && Replay(s.requests, request.httpKey).None? && Send(s, user, c, request, scene).Success?
    requires j < |Send(s, user, c, request, scene).value.1.rows| && j < |Send(s, user, c, request, scene).value.1.channels|
    ensures var (sent, response) := Send(s, user, c, request, scene).value;
            var later, at := Step(sent, WorkerSets(response.rows[j], Cancelled)), response.rows[j];
            var letter := LetterFor(c, request.setId.value, request.kind, SetsOf(s, c)[request.setId.value]);
            && Inv(later) && later.sets == s.sets && at < |later.outbox|
            && later.outbox[at].key == RowFor(letter, response.channels[j]).key && later.outbox[at].status == Cancelled
  {
    var (sent, response) := Send(s, user, c, request, scene).value;
    SentAnswers(s, user, c, request, scene, j);
    StepKeeps(sent, WorkerSets(response.rows[j], Cancelled));
  }

  /**
    A message is sent, its row is cancelled, and no receipt changes: a new request on that channel is
    answered with the cancelled row, and nothing is queued for it.
   */
  lemma CancelledRowIsAnswered(s: Store, user: int, c: int, first: Request, scene: Scene, sent: Store, response: Response, j: nat,
                               later: Store, user2: int, second: Request, scene2: Scene) returns (k: nat)
    requires Inv(s) && Replay(s.requests, first.httpKey).None? && Send(s, user, c, first, scene) == Success((sent, response))
    requires j < |response.rows| && j < |response.channels| && later == Step(sent, WorkerSets(response.rows[j], Cancelled))
    requires second.kind == first.kind && second.setId == first.setId && response.channels[j] in Chosen(scene2.allowed, second.wanted)
    requires Replay(later.requests, second.httpKey).None? && Send(later, user2, c, second, scene2).Success?
    ensures var (after, answer) := Send(later, user2, c, second, scene2).value;
            && k < |answer.rows| && answer.rows[k] == response.rows[j] < |after.outbox|
            && after.outbox[answer.rows[k]].status == Cancelled
  {
    CancelledAfterSend(s, user, c, first, scene, j);
    SendPlaces(later, user2, c, second, scene2);
    var letter := LetterFor(c, second.setId.value, second.kind, SetsOf(later, c)[second.setId.value]);
    k := FoundAgain(later.outbox, letter, Chosen(scene2.allowed, second.wanted), response.rows[j]);
  }

  /** Why a new request is refused, the first reason that applies. */
  lemma RefusedWith(s: Store, user: int, c: int, request: Request, scene: Scene)
    requires Send(s, user, c, request, scene).Failure?
    ensures Send(s, user, c, request, scene).error ==
      if request.extras || request.setId.None? then BadRequest
      else if !scene.accessible then NotFound
      else if exists i :: 0 <= i < |s.requests| && s.requests[i].httpKey == request.httpKey then KeyReused
      else if D.Current(SetsOf(s, c)) != request.setId then ListChanged
      else if forall item :: item in SetsOf(s, c)[request.setId.value].items ==> !D.IsMissing(SetsOf(s, c)[request.setId.value], item)
        then NothingMissing
      else if request.wanted == Unknown then BadChannel else NoChannel
  {
    if D.Current(SetsOf(s, c)) == request.setId && request.setId.Some? {
      var missing := D.MissingItems(SetsOf(s, c)[request.setId.value]);
      assert missing != [] ==> missing[0] in missing;
    }
    var replay := Replay(s.requests, request.httpKey);
    if replay.Some? {
      var i :| 0 <= i < |s.requests| && s.requests[i] == replay.value;
    }
  }

  /** A well-formed request about a list, under a key of its own, that reaches a channel. */
  ghost predicate Asks(s: Store, request: Request, setId: nat, scene: Scene, ch: Channel) {
    && !request.extras && request.setId == Some(setId) && scene.accessible
    && (forall i :: 0 <= i < |s.requests| ==> s.requests[i].httpKey != request.httpKey)
    && ch in scene.allowed && (request.wanted == Anything || request.wanted == Only(ch))
  }

  /** A request about the current list with something missing, on a channel where nothing was sent, is answered with a new row. */
  lemma AskedAnew(s: Store, user: int, c: int, request: Request, setId: nat, scene: Scene, ch: Channel, item: D.Item)
    requires Inv(s) && Asks(s, request, setId, scene, ch) && D.Current(SetsOf(s, c)) == Some(setId)
    requires item in SetsOf(s, c)[setId].items && D.IsMissing(SetsOf(s, c)[setId], item)
    requires !SentAlready(s.outbox, c, setId, request.kind, ch, Versions(SetsOf(s, c)[setId]))
    ensures Send(s, user, c, request, scene).Success?
    ensures QueuedSince(s.outbox, Send(s, user, c, request, scene).value.0.outbox, ch)
  {
    assert Replay(s.requests, request.httpKey).None?;
    assert Reaches(scene, request.wanted);
    AnsweredIff(s, user, c, request, scene);
    SendQueuesExactly(s, user, c, request, scene);
  }

  lemma RunSnoc(events: seq<Event>, e: Event)
    ensures Inv(Run(EMPTY, events)) && Inv(Run(EMPTY, events + [e]))
    ensures Run(EMPTY, events + [e]) == Step(Run(EMPTY, events), e)
  {
    RunKeeps(EMPTY, events);
    StepKeeps(Run(EMPTY, events), e);
    assert (events + [e])[..|events|] == events;
  }

  lemma NothingSentAhead(s: Store, c: int, setId: nat, kind: string, ch: Channel, versions: map<string, nat>)
    requires Inv(s) && setId >= |SetsOf(s, c)|
    ensures !SentAlready(s.outbox, c, setId, kind, ch, versions)
  {
    forall i | 0 <= i < |s.outbox| ensures s.outbox[i].key.candidate == c ==> s.outbox[i].key.setId < setId {
      assert RowOk(SetsOf(s, s.outbox[i].key.candidate), s.outbox[i]);
    }
  }

  /** However often the candidate was written to before: a list applied anew can be asked for on every channel. */
  lemma NewListIsAskedFor(events: seq<Event>, c: int, stage: string, id: int, version: D.ListVersion, expected: nat, item: D.Item,
                          user: int, request: Request, setId: nat, scene: Scene, ch: Channel)
    requires D.Apply(SetsOf(Run(EMPTY, events), c), stage, id, Some(version), expected).Success?
    requires setId == |SetsOf(Run(EMPTY, events), c)| && item in version.items && item.required
    requires Asks(Run(EMPTY, events), request, setId, scene, ch)
    ensures var later := Run(EMPTY, events + [ApplyList(c, stage, id, Some(version), expected)]);
            && Send(later, user, c, request, scene).Success?
            && QueuedSince(later.outbox, Send(later, user, c, request, scene).value.0.outbox, ch)
  {
    var s, e := Run(EMPTY, events), ApplyList(c, stage, id, Some(version), expected);
    RunSnoc(events, e);
    var later := Run(EMPTY, events + [e]);
    D.AppliesIff(SetsOf(s, c), stage, id, Some(version), expected);
    var d := SetsOf(later, c)[setId];
    assert item in D.MissingItems(d);
    NothingSentAhead(s, c, setId, request.kind, ch, Versions(d));
    assert later.outbox == s.outbox;
    AskedAnew(later, user, c, request, setId, scene, ch, item);
  }

  /** And any receipt, given or taken back, lets the same list be asked for again while something is missing. */
  lemma ReceiptReopens(events: seq<Event>, c: int, setId: nat, key: string, expected: nat, state: D.Receipt, item: D.Item,
                       user: int, request: Request, scene: Scene, ch: Channel)
    requires D.SetReceipt(SetsOf(Run(EMPTY, events), c), setId, key, expected, state).Success?
    requires var d := D.SetReceipt(SetsOf(Run(EMPTY, events), c), setId, key, expected, state).value;
             setId < |d| && item in d[setId].items && D.IsMissing(d[setId], item)
    requires Asks(Run(EMPTY, events), request, setId, scene, ch)
    ensures var later := Run(EMPTY, events + [Receive(c, setId, key, expected, state)]);
            && Send(later, user, c, request, scene).Success?
            && QueuedSince(later.outbox, Send(later, user, c, request, scene).value.0.outbox, ch)
  {
    var s, e := Run(EMPTY, events), Receive(c, setId, key, expected, state);
    RunSnoc(events, e);
    var later := Run(EMPTY, events + [e]);
    D.ReceiptChangesOneKey(SetsOf(s, c), setId, key, expected, state);
    D.ReceiptSucceedsIff(SetsOf(s, c), setId, key, expected, state);
    StillCurrent(SetsOf(s, c), setId, key, expected, state);
    var d := SetsOf(later, c)[setId];
    forall i | 0 <= i < |s.outbox|
      ensures s.outbox[i].key.candidate == c && s.outbox[i].key.setId == setId ==> s.outbox[i].key.versions != Versions(d)
    {
      assert RowOk(SetsOf(s, s.outbox[i].key.candidate), s.outbox[i]);
      assert Versions(d)[key] == expected + 1;
    }
    AskedAnew(later, user, c, request, setId, scene, ch, item);
  }

  lemma StillCurrent(sets: seq<D.DocumentSet>, setId: nat, key: string, expected: nat, state: D.Receipt)
    requires D.SetReceipt(sets, setId, key, expected, state).Success?
    ensures D.Current(D.SetReceipt(sets, setId, key, expected, state).value) == Some(setId)
  {
    D.HighestIsCurrent(sets, setId);
    D.HighestIsCurrent(D.SetReceipt(sets, setId, key, expected, state).value, setId);
  }
}
