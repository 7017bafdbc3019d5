/**
  Discovery of the facts personal document rules react to (`scan_document_rules` in
  backend/app/document_rules.py). The triggers a query can return are sequences already in its
  order, by creation time and id; the outbox is the sequence of rule jobs.
 */
module RuleScanning {
  import opened Wrappers

  datatype Action = ApplyList | DocumentRequest | DocumentReminder

  datatype Params = Params(scheduled: bool, action: Action, stage: string, listId: int, listVersion: Option<int>,
                           days: Option<nat>)

  datatype Rule = Rule(id: int, enabled: bool, version: nat, updatedAt: int, owner: int, params: Params)

  /** A rule's owner: `everywhere` is the grant on every candidate's documents. */
  datatype Owner = Owner(active: bool, admin: bool, everywhere: bool)

  datatype CandidateRow = CandidateRow(deleted: bool, owner: int)

  /** A stage change in the analytics ledger, or an applied list. */
  datatype Trigger =
    | StageChange(id: int, candidate: int, createdAt: int, stageTo: string)
    | Assignment(id: int, candidate: int, createdAt: int, revision: nat)

  /** What the rules, the people and the triggers are while scanners run. */
  datatype World = World(rules: seq<Rule>, owners: map<int, Owner>, candidates: map<int, CandidateRow>,
                         changes: seq<Trigger>, assignments: seq<Trigger>)

  /** The three parts of the idempotency key. */
  datatype Key = Key(rule: int, version: nat, trigger: int)

  datatype Status = Queued | Sending | Delivered | Failed | Cancelled

  datatype Job = Job(key: Key, candidate: int, triggerVersion: nat, params: Params, due: int, status: Status, attempts: nat)

  function Keys(jobs: seq<Job>): set<Key> { set job | job in jobs :: job.key }

  ghost predicate UniqueKeys(jobs: seq<Job>) {
    forall i, j :: 0 <= i < j < |jobs| ==> jobs[i].key != jobs[j].key
  }

  /** `schedule`: the unique idempotency key keeps the first row. */
  function Insert(jobs: seq<Job>, job: Job): seq<Job> {
    if job.key in Keys(jobs) then jobs else jobs + [job]
  }

  /** The days a rule waits; none given, or zero, means the default. */
  function Days(params: Params, default: nat): (d: nat)
    ensures d == default || (params.days == Some(d) && d > 0)
    ensures params.days.Some? && params.days.value > 0 ==> params.days == Some(d)
  {
    if params.days.None? || params.days.value == 0 then default else params.days.value
  }

  function Later(instant: int, days: nat): int { instant + 86_400_000_000 * days }

  predicate Active(w: World, rule: Rule) {
    && rule.enabled
    && rule.owner in w.owners
    && w.owners[rule.owner].active
    && (w.owners[rule.owner].admin ==> w.owners[rule.owner].everywhere)
  }

  function Source(w: World, rule: Rule): seq<Trigger> {
    if rule.params.scheduled then w.assignments else w.changes
  }

  predicate Eligible(w: World, rule: Rule, now: int, t: Trigger)
    requires rule.owner in w.owners
  {
    && t.candidate in w.candidates
    && !w.candidates[t.candidate].deleted
    && (w.owners[rule.owner].everywhere || w.candidates[t.candidate].owner == rule.owner)
    && match t
       case StageChange(_, _, at, stage) => !rule.params.scheduled && stage == rule.params.stage && at >= rule.updatedAt
       case Assignment(_, _, at, _) => rule.params.scheduled && Later(at, Days(rule.params, 1)) <= now
  }

  function KeyOf(rule: Rule, t: Trigger): Key { Key(rule.id, rule.version, t.id) }

  function JobOf(rule: Rule, t: Trigger): Job {
    Job(KeyOf(rule, t), t.candidate, if t.Assignment? then t.revision else 1, rule.params,
        Later(t.createdAt, Days(rule.params, 0)), Queued, 0)
  }

  /** The anti-join: eligible triggers without a job of this rule version, in the query's order. */
  function Pending(w: World, rule: Rule, now: int, source: seq<Trigger>, done: set<Key>): (r: seq<Trigger>)
    requires rule.owner in w.owners
    ensures forall t :: t in r <==> t in source && Eligible(w, rule, now, t) && KeyOf(rule, t) !in done
    ensures |r| <= |source|
  {
    if source == [] then []
    else
      var rest := Pending(w, rule, now, source[1..], done);
      if Eligible(w, rule, now, source[0]) && KeyOf(rule, source[0]) !in done then [source[0]] + rest else rest
  }

  function Min(a: nat, b: nat): nat { if a <= b then a else b }

  function Select(w: World, rule: Rule, now: int, batch: nat, done: set<Key>): seq<Trigger>
    requires rule.owner in w.owners
  {
    var pending := Pending(w, rule, now, Source(w, rule), done);
    pending[..Min(batch, |pending|)]
  }

  function InsertAll(jobs: seq<Job>, rule: Rule, triggers: seq<Trigger>): seq<Job> {
    if triggers == [] then jobs
    else Insert(InsertAll(jobs, rule, triggers[..|triggers| - 1]), JobOf(rule, triggers[|triggers| - 1]))
  }

  function ScanRule(w: World, rule: Rule, now: int, batch: nat, jobs: seq<Job>): seq<Job> {
    if Active(w, rule) then InsertAll(jobs, rule, Select(w, rule, now, batch, Keys(jobs))) else jobs
  }

  function ScanRules(w: World, rules: seq<Rule>, now: int, batch: nat, jobs: seq<Job>): seq<Job> {
    if rules == [] then jobs
    else ScanRule(w, rules[|rules| - 1], now, batch, ScanRules(w, rules[..|rules| - 1], now, batch, jobs))
  }

  function Scan(w: World, now: int, batch: nat, jobs: seq<Job>): seq<Job> { ScanRules(w, w.rules, now, batch, jobs) }

  /** `k` passes of the worker with the world held fixed. */
  function Scans(w: World, now: int, batch: nat, jobs: seq<Job>, k: nat): seq<Job> {
    if k == 0 then jobs else Scan(w, now, batch, Scans(w, now, batch, jobs, k - 1))
  }

  /** The outbox, as the scanner changes it row by row. */
  class Outbox {
    var jobs: seq<Job>

    constructor ()
      ensures jobs == []
    {
      jobs := [];
    }

    method Schedule(job: Job) returns (created: bool)
      modifies this
      ensures jobs == Insert(old(jobs), job) && created == (job.key !in Keys(old(jobs)))
    {
      created := true;
      for i := 0 to |jobs|
        invariant created && job.key !in Keys(jobs[..i])
      {
        if jobs[i].key == job.key {
          assert jobs[i] in jobs;
          return false;
        }
        assert jobs[..i + 1] == jobs[..i] + [jobs[i]];
      }
      assert jobs[..|jobs|] == jobs;
      jobs := jobs + [job];
    }

    method ScanOne(w: World, rule: Rule, now: int, batch: nat) returns (count: nat)
      modifies this
      ensures jobs == ScanRule(w, rule, now, batch, old(jobs)) && count == |jobs| - |old(jobs)|
    {
      count := 0;
      if !rule.enabled {
        return;
      }
      if rule.owner !in w.owners || !w.owners[rule.owner].active {
        return;
      }
      if w.owners[rule.owner].admin && !w.owners[rule.owner].everywhere {
        return;
      }
      var triggers := Select(w, rule, now, batch, Keys(jobs));
      for i := 0 to |triggers|
        invariant jobs == InsertAll(old(jobs), rule, triggers[..i]) && count == |jobs| - |old(jobs)|
      {
        assert triggers[..i + 1][..i] == triggers[..i];
        var created := Schedule(JobOf(rule, triggers[i]));
        if created {
          count := count + 1;
        }
      }
      assert triggers[..|triggers|] == triggers;
    }

    method ScanDocumentRules(w: World, now: int, batch: nat) returns (count: nat)
      modifies this
      ensures jobs == Scan(w, now, batch, old(jobs)) && count == |jobs| - |old(jobs)|
    {
      count := 0;
      for i := 0 to |w.rules|
        invariant jobs == ScanRules(w, w.rules[..i], now, batch, old(jobs)) && count == |jobs| - |old(jobs)|
      {
        assert w.rules[..i + 1][..i] == w.rules[..i];
        var created := ScanOne(w, w.rules[i], now, batch);
        count := count + created;
      }
      assert w.rules[..|w.rules|] == w.rules;
    }
  }

  // ---------------------------------------------------------------- at most one job a key

  /** Whoever inserts, and however often: the keys stay unique and no row is lost. */
  lemma InsertKeeps(jobs: seq<Job>, job: Job)
    requires UniqueKeys(jobs)
    ensures UniqueKeys(Insert(jobs, job)) && jobs <= Insert(jobs, job)
    ensures Keys(Insert(jobs, job)) == Keys(jobs) + {job.key}
  {
  }

  function TriggerKeys(rule: Rule, triggers: seq<Trigger>): set<Key> {
    set t | t in triggers :: KeyOf(rule, t)
  }

  lemma TriggerKeysSnoc(rule: Rule, triggers: seq<Trigger>, t: Trigger)
    ensures TriggerKeys(rule, triggers + [t]) == TriggerKeys(rule, triggers) + {KeyOf(rule, t)}
  {
  }

  lemma {:induction false} InsertAllKeeps(jobs: seq<Job>, rule: Rule, triggers: seq<Trigger>)
    requires UniqueKeys(jobs)
    ensures UniqueKeys(InsertAll(jobs, rule, triggers)) && jobs <= InsertAll(jobs, rule, triggers)
    ensures Keys(InsertAll(jobs, rule, triggers)) == Keys(jobs) + TriggerKeys(rule, triggers)
  {
    if triggers != [] {
      var front, last := triggers[..|triggers| - 1], triggers[|triggers| - 1];
      InsertAllKeeps(jobs, rule, front);
      InsertKeeps(InsertAll(jobs, rule, front), JobOf(rule, last));
      TriggerKeysSnoc(rule, front, last);
      assert triggers == front + [last];
    }
  }

  // ---------------------------------------------------------------- coverage

  ghost predicate DistinctIds(source: seq<Trigger>) {
    forall i, j :: 0 <= i < j < |source| ==> source[i].id != source[j].id
  }

  lemma {:induction false} PendingSame(w: World, rule: Rule, now: int, source: seq<Trigger>, a: set<Key>, b: set<Key>)
    requires rule.owner in w.owners
    requires forall t :: t in source ==> (KeyOf(rule, t) in a <==> KeyOf(rule, t) in b)
    ensures Pending(w, rule, now, source, a) == Pending(w, rule, now, source, b)
  {
    if source != [] {
      assert source[0] in source;
      PendingSame(w, rule, now, source[1..], a, b);
    }
  }

  /** A trigger that is not in the source makes no difference to what is pending there. */
  lemma PendingIgnores(w: World, rule: Rule, now: int, source: seq<Trigger>, done: set<Key>, t: Trigger)
    requires rule.owner in w.owners && forall other :: other in source ==> other.id != t.id
    ensures Pending(w, rule, now, source, {KeyOf(rule, t)} + done) == Pending(w, rule, now, source, done)
  {
  }

  /** Handling the first `k` pending triggers leaves exactly the others pending. */
  lemma {:induction false} PendingDrop(w: World, rule: Rule, now: int, source: seq<Trigger>, done: set<Key>, k: nat)
    requires rule.owner in w.owners && DistinctIds(source)
    requires k <= |Pending(w, rule, now, source, done)|
    ensures var pending := Pending(w, rule, now, source, done);
            Pending(w, rule, now, source, TriggerKeys(rule, pending[..k]) + done) == pending[k..]
    decreases |source|, 1
  {
    var pending := Pending(w, rule, now, source, done);
    if k == 0 {
      assert TriggerKeys(rule, pending[..0]) + done == done;
    } else {
      var t, rest := source[0], source[1..];
      if Eligible(w, rule, now, t) && KeyOf(rule, t) !in done {
        HeadDrop(w, rule, now, source, done, k);
      } else {
        PendingDrop(w, rule, now, rest, done, k);
      }
    }
  }

  lemma {:induction false} HeadDrop(w: World, rule: Rule, now: int, source: seq<Trigger>, done: set<Key>, k: nat)
    requires rule.owner in w.owners && DistinctIds(source) && source != []
    requires Eligible(w, rule, now, source[0]) && KeyOf(rule, source[0]) !in done
    requires 0 < k <= |Pending(w, rule, now, source, done)|
    ensures var pending := Pending(w, rule, now, source, done);
            Pending(w, rule, now, source, TriggerKeys(rule, pending[..k]) + done) == pending[k..]
    decreases |source|, 0
  {
    var t, rest := source[0], source[1..];
    var later := Pending(w, rule, now, rest, done);
    var taken := later[..k - 1];
    PendingDrop(w, rule, now, rest, done, k - 1);
    PendingIgnores(w, rule, now, rest, TriggerKeys(rule, taken) + done, t);
    HeadTaken(rule, t, later, k, done);
  }

  lemma HeadTaken(rule: Rule, t: Trigger, later: seq<Trigger>, k: nat, done: set<Key>)
    requires 0 < k <= |later| + 1
    ensures ([t] + later)[k..] == later[k - 1..]
    ensures TriggerKeys(rule, ([t] + later)[..k]) + done == {KeyOf(rule, t)} + (TriggerKeys(rule, later[..k - 1]) + done)
  {
    assert ([t] + later)[..k] == [t] + later[..k - 1];
  }

  /** More handled triggers leave no more pending. */
  lemma {:induction false} PendingShrinks(w: World, rule: Rule, now: int, source: seq<Trigger>, a: set<Key>, b: set<Key>)
    requires rule.owner in w.owners && a <= b
    ensures |Pending(w, rule, now, source, b)| <= |Pending(w, rule, now, source, a)|
  {
    if source != [] {
      PendingShrinks(w, rule, now, source[1..], a, b);
    }
  }

  function PendingCount(w: World, rule: Rule, now: int, jobs: seq<Job>): nat
    requires rule.owner in w.owners
  {
    |Pending(w, rule, now, Source(w, rule), Keys(jobs))|
  }

  lemma ScanRuleKeeps(w: World, rule: Rule, now: int, batch: nat, jobs: seq<Job>)
    requires UniqueKeys(jobs)
    ensures UniqueKeys(ScanRule(w, rule, now, batch, jobs)) && jobs <= ScanRule(w, rule, now, batch, jobs)
    ensures Active(w, rule) ==>
      Keys(ScanRule(w, rule, now, batch, jobs)) ==
      TriggerKeys(rule, Select(w, rule, now, batch, Keys(jobs))) + Keys(jobs)
    ensures !Active(w, rule) ==> Keys(ScanRule(w, rule, now, batch, jobs)) == Keys(jobs)
  {
    if Active(w, rule) {
      InsertAllKeeps(jobs, rule, Select(w, rule, now, batch, Keys(jobs)));
    }
  }

  ghost predicate SameFor(rule: int, a: set<Key>, b: set<Key>) {
    forall key: Key :: key.rule == rule ==> (key in a <==> key in b)
  }

  ghost predicate DistinctRules(rules: seq<Rule>) {
    forall i, j :: 0 <= i < j < |rules| ==> rules[i].id != rules[j].id
  }

  /** A pass over other rules touches no key of this one. */
  lemma {:induction false} OtherRulesApart(w: World, rules: seq<Rule>, now: int, batch: nat, jobs: seq<Job>, rule: Rule)
    requires UniqueKeys(jobs) && forall other :: other in rules ==> other.id != rule.id
    ensures UniqueKeys(ScanRules(w, rules, now, batch, jobs)) && jobs <= ScanRules(w, rules, now, batch, jobs)
    ensures SameFor(rule.id, Keys(jobs), Keys(ScanRules(w, rules, now, batch, jobs)))
  {
    if rules != [] {
      var front := rules[..|rules| - 1];
      OtherRulesApart(w, front, now, batch, jobs, rule);
      ScanRuleKeeps(w, rules[|rules| - 1], now, batch, ScanRules(w, front, now, batch, jobs));
    }
  }

  function Rest(n: nat, batch: nat): nat { if n <= batch then 0 else n - batch }

  /** One pass hands exactly min(batch, pending) triggers of an active rule to jobs. */
  lemma {:induction false} PassCovers(w: World, rules: seq<Rule>, now: int, batch: nat, jobs: seq<Job>, rule: Rule)
    requires UniqueKeys(jobs) && DistinctRules(rules) && rule in rules && Active(w, rule)
    requires DistinctIds(Source(w, rule))
    ensures UniqueKeys(ScanRules(w, rules, now, batch, jobs)) && jobs <= ScanRules(w, rules, now, batch, jobs)
    ensures PendingCount(w, rule, now, ScanRules(w, rules, now, batch, jobs)) == Rest(PendingCount(w, rule, now, jobs), batch)
  {
    var front, last := rules[..|rules| - 1], rules[|rules| - 1];
    var before := ScanRules(w, front, now, batch, jobs);
    var source := Source(w, rule);
    if last == rule {
      OtherRulesApart(w, front, now, batch, jobs, rule);
      PendingSame(w, rule, now, source, Keys(jobs), Keys(before));
      ScanRuleKeeps(w, rule, now, batch, before);
      PendingDrop(w, rule, now, source, Keys(before), Min(batch, PendingCount(w, rule, now, before)));
    } else {
      assert rule in front;
      PassCovers(w, front, now, batch, jobs, rule);
      OtherRulesApart(w, [last], now, batch, before, rule);
      assert [last][..0] == [];
      PendingSame(w, rule, now, source, Keys(before), Keys(ScanRules(w, rules, now, batch, jobs)));
    }
  }

  lemma {:induction false} PassesCover(w: World, now: int, batch: nat, jobs: seq<Job>, rule: Rule, k: nat)
    requires UniqueKeys(jobs) && DistinctRules(w.rules) && rule in w.rules && Active(w, rule)
    requires DistinctIds(Source(w, rule))
    ensures UniqueKeys(Scans(w, now, batch, jobs, k)) && jobs <= Scans(w, now, batch, jobs, k)
    ensures PendingCount(w, rule, now, Scans(w, now, batch, jobs, k)) == Rest(PendingCount(w, rule, now, jobs), k * batch)
  {
    if k > 0 {
      PassesCover(w, now, batch, jobs, rule, k - 1);
      PassCovers(w, w.rules, now, batch, Scans(w, now, batch, jobs, k - 1), rule);
      assert k * batch == (k - 1) * batch + batch;
    }
  }

  ghost predicate Covered(w: World, rule: Rule, now: int, jobs: seq<Job>)
    requires rule.owner in w.owners
  {
    forall t :: t in Source(w, rule) && Eligible(w, rule, now, t) ==> KeyOf(rule, t) in Keys(jobs)
  }

  /**
    With the world held fixed, `k` passes give every eligible trigger of an active rule its job
    exactly when `k` batches are at least as many as the triggers that had none: ceil(n / batch).
   */
  lemma CoveredAfter(w: World, now: int, batch: nat, jobs: seq<Job>, rule: Rule, k: nat)
    requires UniqueKeys(jobs) && DistinctRules(w.rules) && rule in w.rules && Active(w, rule)
    requires DistinctIds(Source(w, rule))
    ensures UniqueKeys(Scans(w, now, batch, jobs, k)) && jobs <= Scans(w, now, batch, jobs, k)
    ensures Covered(w, rule, now, Scans(w, now, batch, jobs, k)) <==> PendingCount(w, rule, now, jobs) <= k * batch
  {
    PassesCover(w, now, batch, jobs, rule, k);
    var pending := Pending(w, rule, now, Source(w, rule), Keys(Scans(w, now, batch, jobs, k)));
    if pending != [] {
      assert pending[0] in pending;
    }
  }

  /** A job that some active rule owes to one of its eligible triggers. */
  ghost predicate Justified(w: World, now: int, job: Job) {
    exists rule, t :: rule in w.rules && t in Source(w, rule) && Owes(w, rule, now, t, job)
  }

  ghost predicate Owes(w: World, rule: Rule, now: int, t: Trigger, job: Job) {
    Active(w, rule) && Eligible(w, rule, now, t) && job == JobOf(rule, t)
  }

  lemma {:induction false} InsertAllAdds(jobs: seq<Job>, rule: Rule, triggers: seq<Trigger>, job: Job)
    requires job in InsertAll(jobs, rule, triggers) && job !in jobs
    ensures exists t :: t in triggers && job == JobOf(rule, t)
  {
    if job in InsertAll(jobs, rule, triggers[..|triggers| - 1]) {
      InsertAllAdds(jobs, rule, triggers[..|triggers| - 1], job);
    }
  }

  /** A pass invents nothing, and what it finds for a timed rule is already due. */
  lemma {:induction false} ScanIsSound(w: World, rules: seq<Rule>, now: int, batch: nat, jobs: seq<Job>, job: Job)
    requires rules <= w.rules && job in ScanRules(w, rules, now, batch, jobs) && job !in jobs
    ensures Justified(w, now, job) && job.status == Queued && job.attempts == 0
    ensures job.params.scheduled ==> job.due <= now
  {
    var front, rule := rules[..|rules| - 1], rules[|rules| - 1];
    var before := ScanRules(w, front, now, batch, jobs);
    if job in before {
      ScanIsSound(w, front, now, batch, jobs, job);
    } else {
      var found := Select(w, rule, now, batch, Keys(before));
      InsertAllAdds(before, rule, found, job);
      var t :| t in found && job == JobOf(rule, t);
      assert t in Source(w, rule) && Owes(w, rule, now, t, job);
      assert rule in w.rules;
    }
  }

  /** Passes of this worker with anything other workers may have added before each of them. */
  ghost predicate Rounds(w: World, now: int, batch: nat, states: seq<seq<Job>>) {
    && (forall i :: 0 <= i < |states| ==> UniqueKeys(states[i]))
    && forall i :: 0 < i < |states| ==> Keys(Scan(w, now, batch, states[i - 1])) <= Keys(states[i])
  }

  /** A pass, and then anything that other scanners insert, takes a batch off what is pending. */
  lemma RoundHelps(w: World, now: int, batch: nat, before: seq<Job>, after: seq<Job>, rule: Rule)
    requires UniqueKeys(before) && Keys(Scan(w, now, batch, before)) <= Keys(after)
    requires DistinctRules(w.rules) && rule in w.rules && Active(w, rule) && DistinctIds(Source(w, rule))
    ensures PendingCount(w, rule, now, after) <= Rest(PendingCount(w, rule, now, before), batch)
  {
    PassCovers(w, w.rules, now, batch, before, rule);
    PendingShrinks(w, rule, now, Source(w, rule), Keys(Scan(w, now, batch, before)), Keys(after));
  }

  /** Other scanners in between can only help: the same bound holds whatever they insert. */
  lemma {:induction false} OthersOnlyHelp(w: World, now: int, batch: nat, states: seq<seq<Job>>, rule: Rule)
    requires Rounds(w, now, batch, states) && states != []
    requires DistinctRules(w.rules) && rule in w.rules && Active(w, rule) && DistinctIds(Source(w, rule))
    ensures PendingCount(w, rule, now, states[|states| - 1]) <= Rest(PendingCount(w, rule, now, states[0]), (|states| - 1) * batch)
  {
    if |states| > 1 {
      var n := |states| - 1;
      OthersOnlyHelp(w, now, batch, states[..n], rule);
      RoundHelps(w, now, batch, states[n - 1], states[n], rule);
      assert n * batch == (n - 1) * batch + batch;
    }
  }

  /** A rule that reacts at `now` to a trigger: who may act for whom, in which stage, since and until when. */
  ghost predicate ReactsTo(w: World, rule: Rule, now: int, t: Trigger) {
    && rule.enabled
    && rule.owner in w.owners && w.owners[rule.owner].active
    && (w.owners[rule.owner].everywhere
        || (!w.owners[rule.owner].admin && t.candidate in w.candidates && w.candidates[t.candidate].owner == rule.owner))
    && t.candidate in w.candidates && !w.candidates[t.candidate].deleted
    && if rule.params.scheduled
       then t in w.assignments && t.Assignment? && t.createdAt + Days(rule.params, 1) * 24 * 60 * 60 * 1_000_000 <= now
       else t in w.changes && t.StageChange? && t.stageTo == rule.params.stage && t.createdAt >= rule.updatedAt
  }

  /** What a job says of its rule and its trigger. */
  ghost predicate JobFor(job: Job, rule: Rule, t: Trigger) {
    && job.key == Key(rule.id, rule.version, t.id) && job.candidate == t.candidate && job.params == rule.params
    && (t.Assignment? ==> job.triggerVersion == t.revision) && (t.StageChange? ==> job.triggerVersion == 1)
    && job.due == t.createdAt + Days(rule.params, 0) * 24 * 60 * 60 * 1_000_000
    && job.status == Queued && job.attempts == 0
  }

  lemma OwesExactly(w: World, rule: Rule, now: int, t: Trigger, job: Job)
    ensures t in Source(w, rule) && Owes(w, rule, now, t, job) <==> ReactsTo(w, rule, now, t) && JobFor(job, rule, t)
  {
  }

  /** Every job a pass adds is that of a rule for a trigger it reacts to. */
  lemma PassAddsOnly(w: World, now: int, batch: nat, jobs: seq<Job>, job: Job) returns (rule: Rule, t: Trigger)
    requires job in Scan(w, now, batch, jobs) && job !in jobs
    ensures rule in w.rules && ReactsTo(w, rule, now, t) && JobFor(job, rule, t)
  {
    ScanIsSound(w, w.rules, now, batch, jobs, job);
    rule, t :| rule in w.rules && t in Source(w, rule) && Owes(w, rule, now, t, job);
    OwesExactly(w, rule, now, t, job);
  }

  /** A pass with room for all triggers adds the job of every rule for every trigger it reacts to. */
  lemma PassAddsAll(w: World, now: int, batch: nat, jobs: seq<Job>, rule: Rule, t: Trigger) returns (job: Job)
    requires UniqueKeys(jobs) && DistinctRules(w.rules) && rule in w.rules
    requires DistinctIds(w.assignments) && DistinctIds(w.changes) && |w.assignments| + |w.changes| <= batch
    requires ReactsTo(w, rule, now, t) && forall other :: other in jobs ==> other.key != Key(rule.id, rule.version, t.id)
    ensures job in Scan(w, now, batch, jobs) && JobFor(job, rule, t)
  {
    OwesExactly(w, rule, now, t, JobOf(rule, t));
    CoveredAfter(w, now, batch, jobs, rule, 1);
    assert Scans(w, now, batch, jobs, 1) == Scan(w, now, batch, Scans(w, now, batch, jobs, 0));
    assert KeyOf(rule, t) in Keys(Scan(w, now, batch, jobs));
    job :| job in Scan(w, now, batch, jobs) && job.key == KeyOf(rule, t);
    var r, u := PassAddsOnly(w, now, batch, jobs, job);
    SameRule(w.rules, r, rule);
    SameTrigger(Source(w, rule), u, t);
  }

  lemma SameRule(rules: seq<Rule>, a: Rule, b: Rule)
    requires DistinctRules(rules) && a in rules && b in rules && a.id == b.id
    ensures a == b
  {
    var i :| 0 <= i < |rules| && rules[i] == a;
    var j :| 0 <= j < |rules| && rules[j] == b;
    assert i == j;
  }

  lemma SameTrigger(source: seq<Trigger>, a: Trigger, b: Trigger)
    requires DistinctIds(source) && a in source && b in source && a.id == b.id
    ensures a == b
  {
    var i :| 0 <= i < |source| && source[i] == a;
    var j :| 0 <= j < |source| && source[j] == b;
    assert i == j;
  }
}
