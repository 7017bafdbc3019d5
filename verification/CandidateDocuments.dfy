/**
  One candidate's document list and the messages queued from it (backend/app/documents.py, the
  receipt endpoint in backend/app/routers/documents.py), down to the provider call and what a crash
  around it leaves (backend/app/worker.py). Mutations take the candidate lock, and the worker holds it
  from its last revalidation until the provider call is over, so a run is a sequence of steps; a raised
  HTTPException changes nothing.
 */
module CandidateDocuments {
  import opened Wrappers

  datatype Item = Item(key: string, name: string, required: bool)

  datatype Receipt = Missing | Received

  /** A CandidateDocumentItem row: its state and its optimistic version. */
  datatype ItemRow = ItemRow(state: Receipt, version: nat)

  /** A DocumentListVersion: `stage` "" means every stage. */
  datatype ListVersion = ListVersion(listId: int, published: bool, stage: string, items: seq<Item>)

  /** A CandidateDocumentSet: the frozen items of the applied version, and the receipt rows by key. */
  datatype DocumentSet = DocumentSet(revision: nat, versionId: int, listId: int, items: seq<Item>,
                                     rows: map<string, ItemRow>)

  datatype Rule = Rule(enabled: bool, version: nat, stage: string)

  datatype Status = Queued | Sending | Accepted | Skipped | Failed | Cancelled

  /** An outbox row with its document context; the set is named by its position. */
  datatype Message = Message(user: int, rule: Option<(int, nat)>, setIndex: nat, items: seq<Item>, status: Status,
                             attempts: nat)

  datatype Error = ListChanged | VersionUnavailable | ItemNotFound | StatusChanged

  // ---------------------------------------------------------------- the candidate's list

  /** `current_set`: the row with the highest revision. */
  function Current(sets: seq<DocumentSet>): (r: Option<nat>)
    ensures r.Some? ==> r.value < |sets|
    ensures r.None? <==> sets == []
    ensures r.Some? ==> forall i :: 0 <= i < |sets| ==> sets[i].revision <= sets[r.value].revision
  {
    if sets == [] then None
    else match Current(sets[..|sets| - 1])
      case None => Some(|sets| - 1)
      case Some(i) => if sets[i].revision > sets[|sets| - 1].revision then Some(i) else Some(|sets| - 1)
  }

  predicate IsMissing(s: DocumentSet, item: Item) {
    item.required && item.key in s.rows && s.rows[item.key].state == Missing
  }

  function Filter(s: DocumentSet, items: seq<Item>): (r: seq<Item>)
    ensures forall item :: item in r <==> item in items && IsMissing(s, item)
  {
    if items == [] then []
    else Filter(s, items[..|items| - 1]) + (if IsMissing(s, items[|items| - 1]) then [items[|items| - 1]] else [])
  }

  /** `missing_items`. */
  function MissingItems(s: DocumentSet): seq<Item> { Filter(s, s.items) }

  function Keys(items: seq<Item>): set<string> { set item | item in items :: item.key }

  function FreshRows(items: seq<Item>): map<string, ItemRow> {
    map key | key in Keys(items) :: ItemRow(Missing, 1)
  }

  lemma FreshRowsSnoc(items: seq<Item>, i: nat)
    requires i < |items|
    ensures FreshRows(items[..i + 1]) == FreshRows(items[..i])[items[i].key := ItemRow(Missing, 1)]
  {
    assert items[..i + 1] == items[..i] + [items[i]];
    assert Keys(items[..i + 1]) == Keys(items[..i]) + {items[i].key};
  }

  function Revision(sets: seq<DocumentSet>): nat {
    match Current(sets) case None => 0 case Some(i) => sets[i].revision
  }

  /** `apply_version`. */
  function Apply(sets: seq<DocumentSet>, stage: string, id: int, version: Option<ListVersion>, expected: nat)
    : Result<seq<DocumentSet>, Error>
  {
    if Revision(sets) != expected then Failure(ListChanged)
    else match version
      case None => Failure(VersionUnavailable)
      case Some(v) =>
        if !v.published || v.stage !in ["", stage] then Failure(VersionUnavailable)
        else Success(sets + [DocumentSet(expected + 1, id, v.listId, v.items, FreshRows(v.items))])
  }

  /** The receipt endpoint: only items of the current set, under their optimistic version. */
  function SetReceipt(sets: seq<DocumentSet>, setIndex: nat, key: string, expected: nat, state: Receipt)
    : Result<seq<DocumentSet>, Error>
  {
    if Current(sets) != Some(setIndex) then Failure(ListChanged)
    else if key !in sets[setIndex].rows then Failure(ItemNotFound)
    else if sets[setIndex].rows[key].version != expected then Failure(StatusChanged)
    else Success(sets[setIndex := sets[setIndex].(rows := sets[setIndex].rows[key := ItemRow(state, expected + 1)])])
  }

  /**
    The list, updated in place. Each operation leaves the candidate exactly as its specification
    says, and as it was when it fails.
   */
  class DocumentRows {
    var sets: seq<DocumentSet>

    constructor ()
      ensures sets == []
    {
      sets := [];
    }

    method ApplyVersion(stage: string, id: int, version: Option<ListVersion>, expected: nat)
      returns (r: Result<(), Error>)
      modifies this
      ensures match Apply(old(sets), stage, id, version, expected)
              case Failure(e) => r == Failure(e) && sets == old(sets)
              case Success(after) => r == Success(()) && sets == after
    {
      var previous := Current(sets);
      if (if previous.Some? then sets[previous.value].revision else 0) != expected {
        return Failure(ListChanged);
      }
      if version.None? || !version.value.published || version.value.stage !in ["", stage] {
        return Failure(VersionUnavailable);
      }
      var v := version.value;
      var rows: map<string, ItemRow> := map[];
      for i := 0 to |v.items|
        invariant sets == old(sets) && rows == FreshRows(v.items[..i])
      {
        FreshRowsSnoc(v.items, i);
        rows := rows[v.items[i].key := ItemRow(Missing, 1)];
      }
      assert v.items[..|v.items|] == v.items;
      sets := sets + [DocumentSet(expected + 1, id, v.listId, v.items, rows)];
      r := Success(());
    }

    method ItemState(setIndex: nat, key: string, expected: nat, state: Receipt) returns (r: Result<(), Error>)
      modifies this
      ensures match SetReceipt(old(sets), setIndex, key, expected, state)
              case Failure(e) => r == Failure(e) && sets == old(sets)
              case Success(after) => r == Success(()) && sets == after
    {
      var current := Current(sets);
      if current != Some(setIndex) {
        return Failure(ListChanged);
      }
      if key !in sets[setIndex].rows {
        return Failure(ItemNotFound);
      }
      if sets[setIndex].rows[key].version != expected {
        return Failure(StatusChanged);
      }
      sets := sets[setIndex := sets[setIndex].(rows := sets[setIndex].rows[key := ItemRow(state, expected + 1)])];
      r := Success(());
    }
  }

  /**
    A list is applied exactly on the expected revision, for a version published for every stage or
    the candidate's; then it is the current list, and precisely its required items are missing.
   */
  lemma AppliesIff(sets: seq<DocumentSet>, stage: string, id: int, version: Option<ListVersion>, expected: nat)
    ensures Apply(sets, stage, id, version, expected).Success? <==>
      && Revision(sets) == expected && version.Some? && version.value.published
      && (version.value.stage == "" || version.value.stage == stage)
    ensures Apply(sets, stage, id, version, expected).Success? ==>
      var after := Apply(sets, stage, id, version, expected).value;
      && |after| == |sets| + 1 && sets <= after && Current(after) == Some(|sets|)
      && forall item :: item in MissingItems(after[|sets|]) <==> item in version.value.items && item.required
  {
    if Apply(sets, stage, id, version, expected).Success? {
      var items := version.value.items;
      var d := DocumentSet(expected + 1, id, version.value.listId, items, FreshRows(items));
      NewSetIsCurrent(sets, d);
      FreshIsMissing(d);
    }
  }

  lemma NewSetIsCurrent(sets: seq<DocumentSet>, d: DocumentSet)
    requires d.revision == Revision(sets) + 1
    ensures Current(sets + [d]) == Some(|sets|)
  {
    assert (sets + [d])[..|sets|] == sets;
  }

  lemma FreshIsMissing(d: DocumentSet)
    requires d.rows == FreshRows(d.items)
    ensures forall item :: item in MissingItems(d) <==> item in d.items && item.required
  {
    forall item | item in d.items ensures IsMissing(d, item) <==> item.required {
      assert item.key in Keys(d.items);
    }
  }

  /** A receipt changes what is missing under its own key only, and moves that key's version on. */
  lemma ReceiptChangesOneKey(sets: seq<DocumentSet>, setIndex: nat, key: string, expected: nat, state: Receipt)
    requires SetReceipt(sets, setIndex, key, expected, state).Success?
    ensures
      var after := SetReceipt(sets, setIndex, key, expected, state).value;
      && Current(sets) == Some(setIndex) && sets[setIndex].rows[key].version == expected
      && |after| == |sets| && after[setIndex].items == sets[setIndex].items
      && after[setIndex].rows[key] == ItemRow(state, expected + 1)
      && (forall i :: 0 <= i < |sets| && i != setIndex ==> after[i] == sets[i])
      && forall item :: IsMissing(after[setIndex], item) <==>
           if item.key == key then item.required && state == Missing else IsMissing(sets[setIndex], item)
  {
  }

  /** A receipt is recorded exactly for an item of the current list, under its own version. */
  lemma ReceiptSucceedsIff(sets: seq<DocumentSet>, setIndex: nat, key: string, expected: nat, state: Receipt)
    ensures SetReceipt(sets, setIndex, key, expected, state).Success? <==>
      && setIndex < |sets| && key in sets[setIndex].rows && sets[setIndex].rows[key].version == expected
      && (forall i :: 0 <= i < |sets| ==> sets[i].revision <= sets[setIndex].revision)
      && forall i :: setIndex < i < |sets| ==> sets[i].revision < sets[setIndex].revision
  {
    HighestIsCurrent(sets, setIndex);
  }

  /** Of equal revisions the later row is the current one. */
  lemma {:induction false} HighestIsCurrent(sets: seq<DocumentSet>, k: nat)
    ensures Current(sets) == Some(k) <==>
      && k < |sets| && (forall i :: 0 <= i < |sets| ==> sets[i].revision <= sets[k].revision)
      && forall i :: k < i < |sets| ==> sets[i].revision < sets[k].revision
  {
    if sets != [] {
      var front := sets[..|sets| - 1];
      if front != [] {
        HighestIsCurrent(front, Current(front).value);
      }
    }
  }

  // ---------------------------------------------------------------- the messages

  /**
    The store, and where the workers are: `turns` holds a row once for every claim a worker still has
    to process, `inFlight` the rows handed to the provider and not yet finalised.
   */
  datatype System = System(
    sets: seq<DocumentSet>,
    messages: seq<Message>,
    stage: string,
    access: set<int>,              // the users `can_access` admits
    rules: map<int, Rule>,
    turns: multiset<nat>,
    inFlight: set<nat>,
    log: seq<Delivery>)

  /** A provider call: which message was handed over, and what the candidate's sets were then. */
  datatype Delivery = Delivery(message: nat, sets: seq<DocumentSet>, stage: string, rules: map<int, Rule>)

  /**
    `queue_documents` from any set the caller holds; `allowed` says whether the channel is allowed
    and the idempotency key unused.
   */
  function Queue(s: System, user: int, rule: Option<int>, setIndex: nat, allowed: bool): System {
    if setIndex >= |s.sets| || !allowed || (rule.Some? && rule.value !in s.rules) then s
    else
      var items := MissingItems(s.sets[setIndex]);
      if items == [] then s
      else
        var author := if rule.Some? then Some((rule.value, s.rules[rule.value].version)) else None;
        s.(messages := s.messages + [Message(user, author, setIndex, items, Queued, 0)])
  }

  datatype Reason = AccessRevoked | RuleDisabled | RuleConditionChanged | DocumentsStale

  /** `revalidate_documents`: None means that the message may leave. */
  function Revalidate(s: System, m: Message): Option<Reason> {
    if m.user !in s.access then Some(AccessRevoked)
    else if m.rule.Some? && (m.rule.value.0 !in s.rules || !s.rules[m.rule.value.0].enabled
                             || s.rules[m.rule.value.0].version != m.rule.value.1) then Some(RuleDisabled)
    else if m.rule.Some? && s.rules[m.rule.value.0].stage != s.stage then Some(RuleConditionChanged)
    else match Current(s.sets)
      case None => Some(DocumentsStale)
      case Some(i) =>
        if i != m.setIndex then Some(DocumentsStale)
        else if Keys(m.items) == {} || !(Keys(m.items) <= Keys(MissingItems(s.sets[i]))) then Some(DocumentsStale)
        else None
  }

  // ---------------------------------------------------------------- the worker

  predicate Has(s: System, i: nat, status: Status) { i < |s.messages| && s.messages[i].status == status }

  function WithStatus(s: System, i: nat, status: Status, attempts: nat): System
    requires i < |s.messages|
  {
    s.(messages := s.messages[i := s.messages[i].(status := status, attempts := attempts)])
  }

  /** `claim_batch`: the row is being sent, and some worker has it before it. */
  function Claim(s: System, i: nat): System {
    if Has(s, i, Queued) then WithStatus(s, i, Sending, s.messages[i].attempts).(turns := s.turns + multiset{i}) else s
  }

  /** A claimed row that quiet hours put off: no attempt is counted. */
  function Postpone(s: System, i: nat): System {
    if i in s.turns && Has(s, i, Sending)
    then WithStatus(s, i, Queued, s.messages[i].attempts).(turns := s.turns - multiset{i})
    else s
  }

  /**
    A worker's turn: another worker in flight with the row, or a row no longer being sent, ends it.
    Otherwise the row is revalidated, and it is skipped or handed to the provider while it still reads
    as being sent.
   */
  function Call(s: System, i: nat): System {
    if i !in s.turns then s
    else
      var turned := s.(turns := s.turns - multiset{i});
      if i in s.inFlight || !Has(s, i, Sending) then turned
      else if Revalidate(s, s.messages[i]).Some? then WithStatus(turned, i, Skipped, s.messages[i].attempts + 1)
      else turned.(inFlight := s.inFlight + {i}, log := s.log + [Delivery(i, s.sets, s.stage, s.rules)])
  }

  /** A failed attempt: an exception, a temporary provider error, or an expired lease. */
  function Fail(s: System, i: nat, max: nat): System {
    if !Has(s, i, Sending) then s
    else
      var attempts := s.messages[i].attempts + 1;
      WithStatus(s, i, if attempts < max then Queued else Failed, attempts)
  }

  datatype Outcome = Taken | Temporary | Permanent

  /** The last phase: the provider's verdict is written if the row still reads as being sent. */
  function Finalise(s: System, i: nat, outcome: Outcome, max: nat): System {
    if i !in s.inFlight then s
    else
      var landed := s.(inFlight := s.inFlight - {i});
      if !Has(s, i, Sending) then landed
      else match outcome
        case Taken => WithStatus(landed, i, Accepted, s.messages[i].attempts + 1)
        case Permanent => WithStatus(landed, i, Failed, s.messages[i].attempts + 1)
        case Temporary => Fail(landed, i, max)
  }

  /** By hand while queued, or by an edit of the rule, which waits for a call in flight. */
  function Cancel(s: System, i: nat): System {
    if Has(s, i, Queued) || (Has(s, i, Sending) && i !in s.inFlight) then WithStatus(s, i, Cancelled, s.messages[i].attempts) else s
  }

  datatype Event =
    | ApplyList(id: int, version: Option<ListVersion>, expected: nat)
    | Receive(setIndex: nat, key: string, expected: nat, state: Receipt)
    | QueueMessage(user: int, rule: Option<int>, setIndex: nat, allowed: bool)
    | ClaimRow(i: nat)
    | PostponeRow(i: nat)
    | CallProvider(i: nat)
    | FinaliseRow(i: nat, outcome: Outcome)
    | Crash(i: nat)                // a worker dies after the provider call
    | FailRow(i: nat)              // an exception, or the recovery of an expired lease
    | CancelRow(i: nat)
    | ChangeStage(stage: string)
    | ChangeAccess(access: set<int>)
    | ChangeRules(rules: map<int, Rule>)

  function Step(s: System, max: nat, e: Event): System {
    match e
    case ApplyList(id, version, expected) =>
      var r := Apply(s.sets, s.stage, id, version, expected);
      if r.Success? then s.(sets := r.value) else s
    case Receive(setIndex, key, expected, state) =>
      var r := SetReceipt(s.sets, setIndex, key, expected, state);
      if r.Success? then s.(sets := r.value) else s
    case QueueMessage(user, rule, setIndex, allowed) => Queue(s, user, rule, setIndex, allowed)
    case ClaimRow(i) => Claim(s, i)
    case PostponeRow(i) => Postpone(s, i)
    case CallProvider(i) => Call(s, i)
    case FinaliseRow(i, outcome) => Finalise(s, i, outcome, max)
    case Crash(i) => s.(inFlight := s.inFlight - {i})
    case FailRow(i) => Fail(s, i, max)
    case CancelRow(i) => Cancel(s, i)
    case ChangeStage(stage) => s.(stage := stage)
    case ChangeAccess(access) => s.(access := access)
    case ChangeRules(rules) => s.(rules := rules)
  }

  function Run(max: nat, events: seq<Event>): System {
    if events == [] then System([], [], "", {}, map[], multiset{}, {}, [])
    else Step(Run(max, events[..|events| - 1]), max, events[|events| - 1])
  }

  // ---------------------------------------------------------------- what every run keeps

  ghost predicate Numbered(sets: seq<DocumentSet>) {
    forall i :: 0 <= i < |sets| ==> sets[i].revision == i + 1
  }

  lemma CurrentIsLast(sets: seq<DocumentSet>)
    requires Numbered(sets) && sets != []
    ensures Current(sets) == Some(|sets| - 1)
  {
  }

  /** The items a message names are required items of the set it was queued from. */
  ghost predicate Grounded(sets: seq<DocumentSet>, m: Message) {
    && m.setIndex < |sets| && m.items != []
    && forall item :: item in m.items ==> item in sets[m.setIndex].items && item.required
  }

  /** Sets are never removed or renumbered, and what they list never changes. */
  ghost predicate Extends(a: seq<DocumentSet>, b: seq<DocumentSet>) {
    |a| <= |b| && forall i :: 0 <= i < |a| ==> a[i].revision == b[i].revision && a[i].items == b[i].items
  }

  /**
    A delivery that was right: the message came from the set that was current, named at least one
    item, and every item it named was required and still missing; if a rule sent it, the rule was
    enabled, unchanged and about the candidate's stage.
   */
  ghost predicate Right(messages: seq<Message>, d: Delivery) {
    && d.message < |messages|
    && var m := messages[d.message];
    && d.sets != [] && m.setIndex == |d.sets| - 1 && m.items != []
    && (forall item :: item in m.items ==> item in d.sets[m.setIndex].items && IsMissing(d.sets[m.setIndex], item))
    && (m.rule.Some? ==>
          var (id, version) := m.rule.value;
          id in d.rules && d.rules[id].enabled && d.rules[id].version == version && d.rules[id].stage == d.stage)
  }

  function Deliveries(log: seq<Delivery>, i: nat): nat {
    if log == [] then 0 else Deliveries(log[..|log| - 1], i) + if log[|log| - 1].message == i then 1 else 0
  }

  predicate Final(status: Status) { status in {Accepted, Skipped, Failed, Cancelled} }

  /**
    How often a row can still leave: once for its place in the queue and once for every outstanding
    claim. Each has been paid for by an attempt, and attempts run out.
   */
  ghost predicate Paid(m: Message, log: seq<Delivery>, turns: multiset<nat>, max: nat, i: nat) {
    && Deliveries(log, i) <= max
    && (!Final(m.status) ==>
          && m.attempts < max
          && Deliveries(log, i) + turns[i] + (if m.status == Queued then 1 else 0) <= m.attempts + 1)
  }

  ghost predicate Inv(s: System, max: nat) {
    && Numbered(s.sets)
    && (forall i :: 0 <= i < |s.messages| ==> Grounded(s.sets, s.messages[i]))
    && AllRight(s.messages, s.log)
    && AllPaid(s.messages, s.log, s.turns, max)
    && (forall i :: i in s.turns ==> i < |s.messages|)
  }

  /** Messages keep what they say, and a final status. */
  ghost predicate SameMessages(a: seq<Message>, b: seq<Message>) {
    |a| <= |b| && forall i :: 0 <= i < |a| ==>
      && b[i] == a[i].(status := b[i].status, attempts := b[i].attempts)
      && (Final(a[i].status) ==> b[i] == a[i])
  }

  ghost predicate AllRight(messages: seq<Message>, log: seq<Delivery>) {
    forall j :: 0 <= j < |log| ==> Right(messages, log[j])
  }

  ghost predicate AllPaid(messages: seq<Message>, log: seq<Delivery>, turns: multiset<nat>, max: nat) {
    forall i: nat {:trigger messages[i]} :: i < |messages| ==> Paid(messages[i], log, turns, max, i)
  }

  lemma RightStaysRight(a: seq<Message>, b: seq<Message>, log: seq<Delivery>)
    requires SameMessages(a, b) && AllRight(a, log)
    ensures AllRight(b, log)
  {
    forall j | 0 <= j < |log| ensures Right(b, log[j]) {
      assert Right(a, log[j]);
    }
  }

  lemma PaidStays(messages: seq<Message>, log: seq<Delivery>, a: multiset<nat>, b: multiset<nat>, max: nat, i: nat, m: Message)
    requires AllPaid(messages, log, a, max) && i < |messages| && (forall k :: k != i ==> b[k] == a[k])
    requires Paid(m, log, b, max, i)
    ensures AllPaid(messages[i := m], log, b, max)
  {
    var after := messages[i := m];
    forall k: nat | k < |after| ensures Paid(after[k], log, b, max, k) {
      assert Paid(messages[k], log, a, max, k);
    }
  }

  /** Revalidation is exact: what it lets pass is current, required and missing, item by item. */
  lemma RevalidateIsExact(s: System, m: Message)
    requires Numbered(s.sets) && Grounded(s.sets, m)
    ensures Revalidate(s, m) == None <==>
      && m.user in s.access
      && (m.rule.Some? ==>
            var (id, version) := m.rule.value;
            id in s.rules && s.rules[id].enabled && s.rules[id].version == version && s.rules[id].stage == s.stage)
      && m.setIndex == |s.sets| - 1
      && forall item :: item in m.items ==> IsMissing(s.sets[m.setIndex], item)
  {
    CurrentIsLast(s.sets);
    var current := s.sets[|s.sets| - 1];
    var missing := MissingItems(current);
    assert m.items[0].key in Keys(m.items);
    if m.setIndex == |s.sets| - 1 {
      forall item | item in m.items ensures item.key in Keys(missing) <==> IsMissing(current, item) {
        assert item in current.items && item.required;
        if IsMissing(current, item) {
          assert item in missing;
        }
      }
      if Keys(m.items) <= Keys(missing) {
        forall item | item in m.items ensures IsMissing(current, item) {
          assert item.key in Keys(m.items);
        }
      }
    }
  }

  lemma ApplyKeeps(s: System, max: nat, id: int, version: Option<ListVersion>, expected: nat)
    requires Inv(s, max)
    ensures Inv(Step(s, max, ApplyList(id, version, expected)), max)
    ensures Extends(s.sets, Step(s, max, ApplyList(id, version, expected)).sets)
  {
  }

  lemma ReceiveKeeps(s: System, max: nat, setIndex: nat, key: string, expected: nat, state: Receipt)
    requires Inv(s, max)
    ensures Inv(Step(s, max, Receive(setIndex, key, expected, state)), max)
    ensures Extends(s.sets, Step(s, max, Receive(setIndex, key, expected, state)).sets)
  {
  }

  lemma {:induction false} NoDelivery(log: seq<Delivery>, i: nat)
    requires forall j :: 0 <= j < |log| ==> log[j].message != i
    ensures Deliveries(log, i) == 0
  {
    if log != [] {
      NoDelivery(log[..|log| - 1], i);
    }
  }

  /** `found` are the missing ones of these items, at the positions `at`, in their order. */
  ghost predicate InOrder(d: DocumentSet, items: seq<Item>, found: seq<Item>, at: seq<nat>) {
    && |at| == |found|
    && (forall k :: 0 <= k < |at| ==> at[k] < |items| && items[at[k]] == found[k])
    && (forall j, k :: 0 <= j < k < |at| ==> at[j] < at[k])
    && forall i: nat :: i < |items| ==> (i in at <==> IsMissing(d, items[i]))
  }

  lemma InOrderSnoc(d: DocumentSet, items: seq<Item>, found: seq<Item>, at: seq<nat>, item: Item)
    requires InOrder(d, items, found, at)
    ensures if IsMissing(d, item) then InOrder(d, items + [item], found + [item], at + [|items|])
            else InOrder(d, items + [item], found, at)
  {
  }

  lemma {:induction false} FilterInOrder(d: DocumentSet, items: seq<Item>) returns (at: seq<nat>)
    ensures InOrder(d, items, Filter(d, items), at)
  {
    at := [];
    if items != [] {
      var front, last := items[..|items| - 1], items[|items| - 1];
      var before := FilterInOrder(d, front);
      InOrderSnoc(d, front, Filter(d, front), before, last);
      assert front + [last] == items;
      at := if IsMissing(d, last) then before + [|front|] else before;
      assert Filter(d, items) == if IsMissing(d, last) then Filter(d, front) + [last] else Filter(d, front);
    }
  }

  /**
    A call on an existing set and an allowed channel, with something required missing, queues exactly
    one message: everything required and missing, in list order, in the caller's name and under the
    rule's version of the moment. Any other call queues nothing.
   */
  lemma QueuesWhatIsMissing(s: System, user: int, rule: Option<int>, setIndex: nat, allowed: bool) returns (at: seq<nat>)
    ensures var after := Queue(s, user, rule, setIndex, allowed);
            if setIndex < |s.sets| && allowed && (rule.Some? ==> rule.value in s.rules)
               && (exists item :: item in s.sets[setIndex].items && IsMissing(s.sets[setIndex], item))
            then
              && |after.messages| == |s.messages| + 1 && after == s.(messages := after.messages)
              && after.messages[..|s.messages|] == s.messages
              && var m := after.messages[|s.messages|];
              && m.user == user && m.setIndex == setIndex && m.status == Queued && m.attempts == 0
              && (rule.None? ==> m.rule == None)
              && (rule.Some? ==> m.rule == Some((rule.value, s.rules[rule.value].version)))
              && InOrder(s.sets[setIndex], s.sets[setIndex].items, m.items, at)
            else after == s
  {
    at := [];
    if setIndex < |s.sets| {
      var d := s.sets[setIndex];
      at := FilterInOrder(d, d.items);
      if MissingItems(d) != [] {
        assert MissingItems(d)[0] in MissingItems(d);
      }
    }
  }

  lemma QueueKeeps(s: System, max: nat, user: int, rule: Option<int>, setIndex: nat, allowed: bool)
    requires Inv(s, max) && max >= 1
    ensures Inv(Queue(s, user, rule, setIndex, allowed), max)
    ensures SameMessages(s.messages, Queue(s, user, rule, setIndex, allowed).messages)
  {
    var after := Queue(s, user, rule, setIndex, allowed);
    RightStaysRight(s.messages, after.messages, s.log);
    forall i: nat | i < |after.messages| ensures Paid(after.messages[i], after.log, after.turns, max, i) {
      if i < |s.messages| {
        assert Paid(s.messages[i], s.log, s.turns, max, i);
      } else {
        NoDelivery(s.log, i);
      }
    }
  }

  /** A change of one row's status, attempts and turns that adds no delivery and stays paid for. */
  lemma ChangeKeeps(s: System, max: nat, i: nat, m: Message, turns: multiset<nat>, inFlight: set<nat>)
    requires Inv(s, max) && i < |s.messages| && m == s.messages[i].(status := m.status, attempts := m.attempts)
    requires forall k :: k != i ==> turns[k] == s.turns[k]
    requires Final(s.messages[i].status) ==> m == s.messages[i]
    requires !Final(m.status) ==>
      && m.attempts < max
      && Deliveries(s.log, i) + turns[i] + (if m.status == Queued then 1 else 0) <= m.attempts + 1
    ensures Inv(s.(messages := s.messages[i := m], turns := turns, inFlight := inFlight), max)
    ensures SameMessages(s.messages, s.messages[i := m])
  {
    assert Paid(s.messages[i], s.log, s.turns, max, i);
    RightStaysRight(s.messages, s.messages[i := m], s.log);
    PaidStays(s.messages, s.log, s.turns, turns, max, i, m);
    forall k | k in turns ensures k < |s.messages| {
      assert k != i ==> k in s.turns;
    }
  }

  lemma ClaimKeeps(s: System, max: nat, i: nat)
    requires Inv(s, max)
    ensures Inv(Claim(s, i), max) && SameMessages(s.messages, Claim(s, i).messages)
  {
    if Has(s, i, Queued) {
      assert Paid(s.messages[i], s.log, s.turns, max, i);
      ChangeKeeps(s, max, i, s.messages[i].(status := Sending), s.turns + multiset{i}, s.inFlight);
    }
  }

  lemma PostponeKeeps(s: System, max: nat, i: nat)
    requires Inv(s, max)
    ensures Inv(Postpone(s, i), max) && SameMessages(s.messages, Postpone(s, i).messages)
  {
    if i in s.turns && Has(s, i, Sending) {
      assert Paid(s.messages[i], s.log, s.turns, max, i);
      ChangeKeeps(s, max, i, s.messages[i].(status := Queued), s.turns - multiset{i}, s.inFlight);
    }
  }

  lemma FailKeeps(s: System, max: nat, i: nat)
    requires Inv(s, max)
    ensures Inv(Fail(s, i, max), max) && SameMessages(s.messages, Fail(s, i, max).messages)
  {
    if Has(s, i, Sending) {
      assert Paid(s.messages[i], s.log, s.turns, max, i);
      var attempts := s.messages[i].attempts + 1;
      var status := if attempts < max then Queued else Failed;
      ChangeKeeps(s, max, i, s.messages[i].(status := status, attempts := attempts), s.turns, s.inFlight);
    }
  }

  lemma FinaliseKeeps(s: System, max: nat, i: nat, outcome: Outcome)
    requires Inv(s, max)
    ensures Inv(Finalise(s, i, outcome, max), max) && SameMessages(s.messages, Finalise(s, i, outcome, max).messages)
  {
    if i in s.inFlight {
      var landed := s.(inFlight := s.inFlight - {i});
      if Has(s, i, Sending) {
        if outcome == Temporary {
          FailKeeps(landed, max, i);
        } else {
          var status := if outcome == Taken then Accepted else Failed;
          ChangeKeeps(landed, max, i, s.messages[i].(status := status, attempts := s.messages[i].attempts + 1),
                      s.turns, landed.inFlight);
        }
      }
    }
  }

  lemma CancelKeeps(s: System, max: nat, i: nat)
    requires Inv(s, max)
    ensures Inv(Cancel(s, i), max) && SameMessages(s.messages, Cancel(s, i).messages)
  {
    if Has(s, i, Queued) || (Has(s, i, Sending) && i !in s.inFlight) {
      ChangeKeeps(s, max, i, s.messages[i].(status := Cancelled), s.turns, s.inFlight);
    }
  }

  /** A row that passes its revalidation leaves right, and its turn pays for the call. */
  lemma HandOverKeeps(s: System, max: nat, i: nat)
    requires Inv(s, max) && i in s.turns && Has(s, i, Sending) && Revalidate(s, s.messages[i]).None?
    ensures Inv(s.(turns := s.turns - multiset{i}, inFlight := s.inFlight + {i},
                   log := s.log + [Delivery(i, s.sets, s.stage, s.rules)]), max)
  {
    var d := Delivery(i, s.sets, s.stage, s.rules);
    var after := s.(turns := s.turns - multiset{i}, inFlight := s.inFlight + {i}, log := s.log + [d]);
    RevalidateIsExact(s, s.messages[i]);
    CurrentIsLast(s.sets);
    assert Right(s.messages, d);
    assert after.log[..|s.log|] == s.log;
    forall k: nat | k < |s.messages| ensures Paid(after.messages[k], after.log, after.turns, max, k) {
      assert Paid(s.messages[k], s.log, s.turns, max, k);
    }
  }

  lemma CallKeeps(s: System, max: nat, i: nat)
    requires Inv(s, max)
    ensures Inv(Call(s, i), max) && SameMessages(s.messages, Call(s, i).messages)
  {
    if i in s.turns {
      if i in s.inFlight || !Has(s, i, Sending) {
      } else if Revalidate(s, s.messages[i]).Some? {
      } else {
        HandOverKeeps(s, max, i);
      }
    }
  }

  lemma StepInv(s: System, max: nat, e: Event)
    requires Inv(s, max) && max >= 1
    ensures Inv(Step(s, max, e), max)
    ensures SameMessages(s.messages, Step(s, max, e).messages)
  {
    match e {
      case ApplyList(id, version, expected) => ApplyKeeps(s, max, id, version, expected);
      case Receive(setIndex, key, expected, state) => ReceiveKeeps(s, max, setIndex, key, expected, state);
      case QueueMessage(user, rule, setIndex, allowed) => QueueKeeps(s, max, user, rule, setIndex, allowed);
      case ClaimRow(i) => ClaimKeeps(s, max, i);
      case PostponeRow(i) => PostponeKeeps(s, max, i);
      case CallProvider(i) => CallKeeps(s, max, i);
      case FinaliseRow(i, outcome) => FinaliseKeeps(s, max, i, outcome);
      case FailRow(i) => FailKeeps(s, max, i);
      case CancelRow(i) => CancelKeeps(s, max, i);
      case _ =>
    }
  }

  lemma SetsGrow(s: System, max: nat, e: Event)
    requires Inv(s, max)
    ensures Extends(s.sets, Step(s, max, e).sets)
  {
    match e {
      case ApplyList(id, version, expected) => ApplyKeeps(s, max, id, version, expected);
      case Receive(setIndex, key, expected, state) => ReceiveKeeps(s, max, setIndex, key, expected, state);
      case _ =>
    }
  }

  /** Calls are only added, and they are of rows that were being sent. */
  lemma LogGrows(s: System, max: nat, e: Event)
    ensures s.log <= Step(s, max, e).log
    ensures forall j :: |s.log| <= j < |Step(s, max, e).log| ==>
      e == CallProvider(Step(s, max, e).log[j].message) && Has(s, e.i, Sending) && Revalidate(s, s.messages[e.i]).None?
  {
  }

  lemma {:induction false} RunKeeps(max: nat, events: seq<Event>, n: nat)
    requires n <= |events| && max >= 1
    ensures Inv(Run(max, events), max) && |Run(max, events[..n]).sets| <= |Run(max, events).sets|
    ensures SameMessages(Run(max, events[..n]).messages, Run(max, events).messages)
    ensures Run(max, events[..n]).log <= Run(max, events).log
  {
    if events != [] {
      var front := events[..|events| - 1];
      if n < |events| {
        RunKeeps(max, front, n);
        assert front[..n] == events[..n];
      } else {
        RunKeeps(max, front, 0);
        assert events[..n] == events;
      }
      StepInv(Run(max, front), max, events[|events| - 1]);
      SetsGrow(Run(max, front), max, events[|events| - 1]);
      LogGrows(Run(max, front), max, events[|events| - 1]);
    }
  }

  /**
    In every run, whatever happens to lists, receipts, rules, access and stage, and wherever workers
    postpone, fail or crash: each message handed to the provider was right at that moment.
   */
  lemma EverySendIsRight(max: nat, events: seq<Event>, j: nat)
    requires j < |Run(max, events).log| && max >= 1
    ensures Right(Run(max, events).messages, Run(max, events).log[j])
  {
    RunKeeps(max, events, 0);
  }

  /**
    How often a row leaves: at most once for every attempt it has used and the one it is using, hence
    at most as often as attempts are allowed.
   */
  lemma LeavesBoundedly(max: nat, events: seq<Event>, i: nat)
    requires max >= 1 && i < |Run(max, events).messages|
    ensures Deliveries(Run(max, events).log, i) <= max
    ensures !Final(Run(max, events).messages[i].status) ==>
      Deliveries(Run(max, events).log, i) <= Run(max, events).messages[i].attempts + 1 <= max
  {
    RunKeeps(max, events, 0);
    assert Paid(Run(max, events).messages[i], Run(max, events).log, Run(max, events).turns, max, i);
  }

  lemma {:induction false} SameDeliveries(a: seq<Delivery>, b: seq<Delivery>, i: nat)
    requires a <= b && forall j :: |a| <= j < |b| ==> b[j].message != i
    ensures Deliveries(b, i) == Deliveries(a, i)
  {
    if |a| < |b| {
      SameDeliveries(a, b[..|b| - 1], i);
    } else {
      assert a == b;
    }
  }

  /** A row whose status is final keeps it, and never leaves again. */
  lemma {:induction false} FinalNeverLeaves(max: nat, events: seq<Event>, n: nat, i: nat)
    requires max >= 1 && n <= |events| && i < |Run(max, events[..n]).messages|
    requires Final(Run(max, events[..n]).messages[i].status)
    ensures i < |Run(max, events).messages| && Run(max, events).messages[i] == Run(max, events[..n]).messages[i]
    ensures Deliveries(Run(max, events).log, i) == Deliveries(Run(max, events[..n]).log, i)
  {
    RunKeeps(max, events, n);
    if n < |events| {
      var front, last := events[..|events| - 1], events[|events| - 1];
      assert front[..n] == events[..n];
      FinalNeverLeaves(max, front, n, i);
      LogGrows(Run(max, front), max, last);
      SameDeliveries(Run(max, front).log, Run(max, events).log, i);
    } else {
      assert events[..n] == events;
    }
  }

  /** What the provider's answer makes of a row. */
  function Answered(m: Message, outcome: Outcome, max: nat): Message {
    var status := match outcome
                  case Taken => Accepted
                  case Permanent => Failed
                  case Temporary => if m.attempts + 1 < max then Queued else Failed;
    m.(status := status, attempts := m.attempts + 1)
  }

  /** The row is claimed and the provider called, or the row skipped. */
  lemma TurnBegins(s: System, max: nat, i: nat)
    requires Has(s, i, Queued) && i !in s.inFlight
    ensures ClaimAndCall(s, max, i) ==
      if Revalidate(s, s.messages[i]).None?
      then s.(messages := s.messages[i := s.messages[i].(status := Sending)], inFlight := s.inFlight + {i},
              log := s.log + [Delivery(i, s.sets, s.stage, s.rules)])
      else s.(messages := s.messages[i := s.messages[i].(status := Skipped, attempts := s.messages[i].attempts + 1)])
  {
    var m := s.messages[i];
    var claimed := s.(messages := s.messages[i := m.(status := Sending)], turns := s.turns + multiset{i});
    assert Step(s, max, ClaimRow(i)) == claimed;
    assert claimed.turns - multiset{i} == s.turns;
    assert Revalidate(claimed, claimed.messages[i]) == Revalidate(s, m);
    assert s.messages[i := m.(status := Sending)][i := m.(status := Skipped, attempts := m.attempts + 1)]
        == s.messages[i := m.(status := Skipped, attempts := m.attempts + 1)];
  }

  lemma TurnIsOver(s: System, called: System, max: nat, i: nat, outcome: Outcome)
    requires Has(s, i, Queued) && i !in s.inFlight
    requires called == s.(messages := s.messages[i := s.messages[i].(status := Sending)], inFlight := s.inFlight + {i}, log := called.log)
    ensures Step(called, max, FinaliseRow(i, outcome)) ==
      s.(messages := s.messages[i := Answered(s.messages[i], outcome, max)], log := called.log)
  {
    var m := s.messages[i];
    assert s.inFlight + {i} - {i} == s.inFlight;
    assert s.messages[i := m.(status := Sending)][i := Answered(m, outcome, max)] == s.messages[i := Answered(m, outcome, max)];
  }

  /**
    An undisturbed turn of a worker on a queued row. A row that is still right is handed over once and
    ends as the provider answers; any other is skipped without a call. Either way nothing else changes.
   */
  lemma TurnEnds(s: System, max: nat, i: nat, outcome: Outcome)
    requires Has(s, i, Queued) && i !in s.inFlight
    ensures var after := Step(ClaimAndCall(s, max, i), max, FinaliseRow(i, outcome));
            var m := s.messages[i];
            if Revalidate(s, m).None?
            then after == s.(messages := s.messages[i := Answered(m, outcome, max)],
                             log := s.log + [Delivery(i, s.sets, s.stage, s.rules)])
            else after == s.(messages := s.messages[i := m.(status := Skipped, attempts := m.attempts + 1)])
  {
    TurnBegins(s, max, i);
    if Revalidate(s, s.messages[i]).None? {
      TurnIsOver(s, ClaimAndCall(s, max, i), max, i, outcome);
    }
  }

  /** Postponing a claimed row undoes the claim, attempts and all. */
  lemma PostponeUndoesClaim(s: System, max: nat, i: nat)
    requires Has(s, i, Queued)
    ensures Step(Step(s, max, ClaimRow(i)), max, PostponeRow(i)) == s
  {
    var claimed := Step(s, max, ClaimRow(i));
    assert claimed.turns - multiset{i} == s.turns;
    assert claimed.messages[i := s.messages[i]] == s.messages;
  }

  /** A row is cancelled exactly while no call of it is under way and it has no final status. */
  lemma CancelsIff(s: System, max: nat, i: nat)
    requires i < |s.messages|
    ensures var after := Step(s, max, CancelRow(i));
            if s.messages[i].status == Queued || (s.messages[i].status == Sending && i !in s.inFlight)
            then after == s.(messages := s.messages[i := s.messages[i].(status := Cancelled)])
            else after == s
  {
  }

  /** A row is claimed, and the worker that has it calls the provider. */
  function ClaimAndCall(s: System, max: nat, i: nat): System {
    Step(Step(s, max, ClaimRow(i)), max, CallProvider(i))
  }

  /** The worker dies after its call, and the lease expires. */
  function CrashAndRecover(s: System, max: nat, i: nat): System { Step(Step(s, max, Crash(i)), max, FailRow(i)) }

  /** What the next worker finds when it claims the row: one attempt less, or a failed row it leaves alone. */
  function Reclaimed(s: System, max: nat, i: nat): System
    requires i < |s.messages|
  {
    var next := s.messages[i].(attempts := s.messages[i].attempts + 1);
    var recovered := s.(inFlight := s.inFlight - {i});
    if next.attempts < max then recovered.(messages := s.messages[i := next], turns := s.turns + multiset{i})
    else recovered.(messages := s.messages[i := next.(status := Failed)])
  }

  lemma RecoveredIs(s: System, max: nat, i: nat)
    requires Has(s, i, Sending) && i in s.inFlight
    ensures Step(CrashAndRecover(s, max, i), max, ClaimRow(i)) == Reclaimed(s, max, i)
  {
    var next := s.messages[i].(attempts := s.messages[i].attempts + 1);
    assert s.messages[i := next.(status := Queued)][i := next] == s.messages[i := next];
  }

  lemma ReclaimedLeaves(s: System, max: nat, i: nat)
    requires Has(s, i, Sending)
    ensures Deliveries(Call(Reclaimed(s, max, i), i).log, i) ==
              Deliveries(s.log, i) + if s.messages[i].attempts + 1 < max && Revalidate(s, s.messages[i]).None? then 1 else 0
  {
    var claimed := Reclaimed(s, max, i);
    if s.messages[i].attempts + 1 < max {
      assert Revalidate(claimed, claimed.messages[i]) == Revalidate(s, s.messages[i]);
      CallHandsOver(claimed, i);
    } else {
      assert !Has(claimed, i, Sending);
    }
  }

  lemma CallHandsOver(s: System, i: nat)
    requires i in s.turns && i !in s.inFlight && Has(s, i, Sending)
    ensures Deliveries(Call(s, i).log, i) == Deliveries(s.log, i) + if Revalidate(s, s.messages[i]).None? then 1 else 0
  {
    if Revalidate(s, s.messages[i]).None? {
      assert Call(s, i).log[..|s.log|] == s.log;
    }
  }

  /**
    The provider has the message and the worker dies before it can write that down: the next worker
    hands the message over again exactly when an attempt is left and the message is still right.
   */
  lemma CrashResendsIff(s: System, max: nat, i: nat)
    requires Has(s, i, Sending) && i in s.inFlight
    ensures var again := ClaimAndCall(CrashAndRecover(s, max, i), max, i);
            Deliveries(again.log, i) ==
              Deliveries(s.log, i) + if s.messages[i].attempts + 1 < max && Revalidate(s, s.messages[i]).None? then 1 else 0
  {
    RecoveredIs(s, max, i);
    ReclaimedLeaves(s, max, i);
  }

  /** One step from a state in which message i names a replaced set does not hand it over. */
  lemma StaleIsNotCalled(s: System, max: nat, e: Event, i: nat)
    requires Inv(s, max) && i < |s.messages| && s.messages[i].setIndex + 1 < |s.sets|
    ensures Revalidate(s, s.messages[i]).Some?
    ensures s.log <= Step(s, max, e).log
    ensures forall j :: |s.log| <= j < |Step(s, max, e).log| ==> Step(s, max, e).log[j].message != i
  {
    CurrentIsLast(s.sets);
    SetsGrow(s, max, e);
    LogGrows(s, max, e);
  }

  /**
    A message whose set has been replaced can never become sendable again: it fails revalidation in
    every later state, and no later provider call is of that message.
   */
  lemma {:induction false} ReplacedIsNeverSent(max: nat, events: seq<Event>, n: nat, i: nat)
    requires max >= 1 && n <= |events| && i < |Run(max, events[..n]).messages|
    requires Run(max, events[..n]).messages[i].setIndex + 1 < |Run(max, events[..n]).sets|
    ensures i < |Run(max, events).messages|
    ensures Run(max, events).messages[i].setIndex + 1 < |Run(max, events).sets|
    ensures Revalidate(Run(max, events), Run(max, events).messages[i]).Some?
    ensures forall j :: |Run(max, events[..n]).log| <= j < |Run(max, events).log| ==> Run(max, events).log[j].message != i
    decreases |events|
  {
    RunKeeps(max, events, n);
    if n < |events| {
      var front := events[..|events| - 1];
      assert front[..n] == events[..n];
      ReplacedIsNeverSent(max, front, n, i);
      RunKeeps(max, front, n);
      StaleIsNotCalled(Run(max, front), max, events[|events| - 1], i);
    } else {
      assert events[..n] == events;
    }
    StaleIsNotCalled(Run(max, events), max, ChangeStage(""), i);
  }

  // ---------------------------------------------------------------- refusals

  /** Which error a list or a receipt is refused with: a stale view before anything else. */
  lemma RefusedWith(sets: seq<DocumentSet>, stage: string, id: int, version: Option<ListVersion>, setIndex: nat, key: string,
                    expected: nat, state: Receipt)
    ensures Apply(sets, stage, id, version, expected).Failure? ==>
      Apply(sets, stage, id, version, expected).error == if Revision(sets) != expected then ListChanged else VersionUnavailable
    ensures SetReceipt(sets, setIndex, key, expected, state).Failure? ==>
      SetReceipt(sets, setIndex, key, expected, state).error ==
        if Current(sets) != Some(setIndex) then ListChanged
        else if key !in sets[setIndex].rows then ItemNotFound else StatusChanged
  {
  }

  /** Why a message is skipped: lost access, then its rule, then the rule's stage, and only then its items. */
  lemma SkippedBecause(s: System, m: Message)
    requires Revalidate(s, m).Some?
    ensures var stands := m.rule.None? || (m.rule.value.0 in s.rules && s.rules[m.rule.value.0] ==
                                             Rule(true, m.rule.value.1, s.rules[m.rule.value.0].stage));
            Revalidate(s, m).value ==
              if m.user !in s.access then AccessRevoked
              else if !stands then RuleDisabled
              else if m.rule.Some? && s.rules[m.rule.value.0].stage != s.stage then RuleConditionChanged
              else DocumentsStale
  {
  }

  /** An answer counts only for the call that is under way, and only while the row still reads as being sent. */
  lemma LateAnswerIsIgnored(s: System, max: nat, i: nat, outcome: Outcome)
    requires i !in s.inFlight || !Has(s, i, Sending)
    ensures Step(s, max, FinaliseRow(i, outcome)) == s.(inFlight := s.inFlight - {i})
  {
    assert i !in s.inFlight ==> s.inFlight - {i} == s.inFlight;
  }

  // ---------------------------------------------------------------- what runs can reach

  lemma RunSnoc(max: nat, events: seq<Event>, e: Event)
    ensures Run(max, events + [e]) == Step(Run(max, events), max, e)
  {
    assert (events + [e])[..|events|] == events;
  }

  lemma RunTwo(max: nat, events: seq<Event>, a: Event, b: Event)
    ensures Run(max, events + [a]) == Step(Run(max, events), max, a)
    ensures Run(max, events + [a, b]) == Step(Run(max, events + [a]), max, b)
  {
    RunSnoc(max, events, a);
    assert events + [a, b] == events + [a] + [b];
    RunSnoc(max, events + [a], b);
  }

  ghost predicate FlightInRange(s: System) { forall i :: i in s.inFlight ==> i < |s.messages| }

  lemma StepInRange(s: System, max: nat, e: Event)
    requires FlightInRange(s)
    ensures FlightInRange(Step(s, max, e))
  {
  }

  lemma {:induction false} OnlyRowsAreInFlight(max: nat, events: seq<Event>)
    ensures FlightInRange(Run(max, events))
  {
    if events != [] {
      OnlyRowsAreInFlight(max, events[..|events| - 1]);
      StepInRange(Run(max, events[..|events| - 1]), max, events[|events| - 1]);
    }
  }

  /** The world around the rows, as the other parts of the system leave it. */
  lemma WorldChanges(s: System, max: nat, access: set<int>, rules: map<int, Rule>, stage: string)
    ensures Step(s, max, ChangeAccess(access)) == s.(access := access)
    ensures Step(s, max, ChangeRules(rules)) == s.(rules := rules)
    ensures Step(s, max, ChangeStage(stage)) == s.(stage := stage)
  {
  }

  /** The first message about a list applied now is right, and a worker hands it over. */
  lemma NewListStep(s: System, max: nat, id: int, version: ListVersion, expected: nat, user: int, rule: Option<int>, item: Item)
    requires Numbered(s.sets) && expected == |s.sets|
    requires version.published && (version.stage == "" || version.stage == s.stage) && item in version.items && item.required
    requires user in s.access && (rule.Some? ==> rule.value in s.rules && s.rules[rule.value].enabled && s.rules[rule.value].stage == s.stage)
    ensures var after := Step(Step(s, max, ApplyList(id, Some(version), expected)), max, QueueMessage(user, rule, |s.sets|, true));
            var i := |s.messages|;
            && after == s.(sets := after.sets, messages := after.messages) && |after.messages| == i + 1 && Has(after, i, Queued)
            && after.messages[i].user == user && Revalidate(after, after.messages[i]).None?
            && forall wanted :: wanted in after.messages[i].items <==> wanted in version.items && wanted.required
  {
    var applied := Step(s, max, ApplyList(id, Some(version), expected));
    if s.sets != [] {
      CurrentIsLast(s.sets);
    }
    AppliesIff(s.sets, s.stage, id, Some(version), expected);
    var n, i := |s.sets|, |s.messages|;
    var d := applied.sets[n];
    assert item in MissingItems(d);
    var after := Step(applied, max, QueueMessage(user, rule, n, true));
    var m := after.messages[i];
    assert m.items == MissingItems(d) && Keys(m.items) != {} by {
      assert item.key in Keys(m.items);
    }
  }

  /**
    After any run: once a published list is applied for a candidate somebody may write to, the message
    that asks for all it requires goes to the provider.
   */
  lemma AppliedListIsSent(max: nat, events: seq<Event>, id: int, version: ListVersion, user: int, rule: Option<int>, item: Item)
    requires max >= 1
    requires var s := Run(max, events);
             && user in s.access && version.published && (version.stage == "" || version.stage == s.stage)
             && (rule.Some? ==> rule.value in s.rules && s.rules[rule.value].enabled && s.rules[rule.value].stage == s.stage)
    requires item in version.items && item.required
    ensures var s := Run(max, events);
            var n, i := |s.sets|, |s.messages|;
            var queued := events + [ApplyList(id, Some(version), n), QueueMessage(user, rule, n, true)];
            var after := Run(max, queued + [ClaimRow(i), CallProvider(i)]);
            && |after.messages| == i + 1 && |after.log| == |s.log| + 1 && after.log[|s.log|].message == i
            && after.messages[i].user == user
            && forall wanted :: wanted in after.messages[i].items <==> wanted in version.items && wanted.required
  {
    var s := Run(max, events);
    var n, i := |s.sets|, |s.messages|;
    RunKeeps(max, events, 0);
    RunTwo(max, events, ApplyList(id, Some(version), n), QueueMessage(user, rule, n, true));
    NewListStep(s, max, id, version, n, user, rule, item);
    var queued := events + [ApplyList(id, Some(version), n), QueueMessage(user, rule, n, true)];
    RunTwo(max, queued, ClaimRow(i), CallProvider(i));
    OnlyRowsAreInFlight(max, events);
    TurnBegins(Run(max, queued), max, i);
  }

  /** After any run: a document received after it was asked for takes back the whole message that asked. */
  lemma ReceiptSilences(max: nat, events: seq<Event>, i: nat, key: string, expected: nat, item: Item)
    requires max >= 1 && Has(Run(max, events), i, Queued) && i !in Run(max, events).inFlight
    requires item in Run(max, events).messages[i].items && item.key == key
    requires SetReceipt(Run(max, events).sets, Run(max, events).messages[i].setIndex, key, expected, Received).Success?
    ensures var s := Run(max, events);
            var after := Run(max, events + [Receive(s.messages[i].setIndex, key, expected, Received)] + [ClaimRow(i), CallProvider(i)]);
            after.log == s.log && Has(after, i, Skipped)
  {
    var s := Run(max, events);
    var n := s.messages[i].setIndex;
    var told := events + [Receive(n, key, expected, Received)];
    RunKeeps(max, events, 0);
    RunSnoc(max, events, Receive(n, key, expected, Received));
    RunKeeps(max, told, 0);
    var after := Run(max, told);
    ReceiptChangesOneKey(s.sets, n, key, expected, Received);
    assert !IsMissing(after.sets[n], item);
    RevalidateIsExact(after, after.messages[i]);
    RunTwo(max, told, ClaimRow(i), CallProvider(i));
    TurnBegins(after, max, i);
  }
}
