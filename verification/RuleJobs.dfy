/**
  The life of a rule job: claimed, postponed, retried, recovered after a crash, cancelled by an edit
  of the rule, or performed (`perform_job` and `execution` in backend/app/document_rules.py, the
  retry branches in backend/app/worker.py, the rule edit in backend/app/routers/document_rules.py).
  Each of them is one transaction; one that raises changes nothing.
 */
module RuleJobs {
  import opened Wrappers
  import opened RuleScanning

  datatype RuleState = RuleState(version: nat, enabled: bool)

  /** A candidate's applied list: the set's id, the list and the list version. */
  datatype Applied = Applied(id: int, listId: int, versionId: int)

  datatype Outcome = ListApplied | MessageQueued | Skipped | GaveUp | Withdrawn

  /** A DocumentRuleExecution row; the job is named by its position in the outbox. */
  datatype Execution = Execution(job: nat, key: Key, candidate: int, triggerVersion: nat, action: Action, outcome: Outcome)

  datatype Store = Store(rules: map<int, RuleState>, jobs: seq<Job>, executions: seq<Execution>,
                         lists: map<int, seq<Applied>>)

  /**
    What a job finds under its locks: whether the owner may access the candidate, the candidate's
    stage, the published version of the rule's list for that stage, the id a new set would get, and
    whether `queue_documents` returned a row.
   */
  datatype Scene = Scene(accessible: bool, stage: string, published: Option<int>, newSet: int, queued: bool)

  predicate Terminal(status: Status) { status in {Delivered, Failed, Cancelled} }

  function ListsOf(s: Store, candidate: int): seq<Applied> {
    if candidate in s.lists then s.lists[candidate] else []
  }

  predicate MayAct(s: Store, job: Job, scene: Scene) {
    && job.key.rule in s.rules
    && s.rules[job.key.rule] == RuleState(job.key.version, true)
    && scene.accessible
    && scene.stage == job.params.stage
  }

  function Decide(s: Store, job: Job, scene: Scene): Outcome {
    var lists := ListsOf(s, job.candidate);
    if !MayAct(s, job, scene) then Skipped
    else if job.params.action == ApplyList && lists == [] then
      if scene.published.Some? then ListApplied else Skipped
    else if job.params.action != ApplyList && lists != []
            && lists[|lists| - 1].listId == job.params.listId
            && (job.params.listVersion.None? || lists[|lists| - 1].versionId == job.params.listVersion.value) then
      if (!job.params.scheduled || lists[|lists| - 1].id == job.key.trigger) && scene.queued then MessageQueued else Skipped
    else Skipped
  }

  function Note(job: Job, i: nat, outcome: Outcome): Execution {
    Execution(i, job.key, job.candidate, job.triggerVersion, job.params.action, outcome)
  }

  /** `perform_job`: only a row still being sent is performed. */
  function Perform(s: Store, i: nat, scene: Scene): Store {
    if i >= |s.jobs| || s.jobs[i].status != Sending then s
    else
      var job := s.jobs[i];
      var outcome := Decide(s, job, scene);
      s.(jobs := s.jobs[i := job.(status := Delivered, attempts := job.attempts + 1)],
         executions := s.executions + [Note(job, i, outcome)],
         lists := if outcome == ListApplied
                  then s.lists[job.candidate := [Applied(scene.newSet, job.params.listId, scene.published.value)]]
                  else s.lists)
  }

  /** A failed attempt or an expired lease: retried until the attempts run out. */
  function Fail(s: Store, i: nat, max: nat): Store {
    if i >= |s.jobs| || s.jobs[i].status != Sending then s
    else
      var job := s.jobs[i].(attempts := s.jobs[i].attempts + 1);
      if job.attempts < max then s.(jobs := s.jobs[i := job.(status := Queued)])
      else s.(jobs := s.jobs[i := job.(status := Failed)], executions := s.executions + [Note(job, i, GaveUp)])
  }

  function Move(s: Store, i: nat, from: Status, to: Status): Store {
    if i < |s.jobs| && s.jobs[i].status == from then s.(jobs := s.jobs[i := s.jobs[i].(status := to)]) else s
  }

  function Withdraw(s: Store, rule: int, i: nat): Store {
    if i < |s.jobs| && s.jobs[i].key.rule == rule && s.jobs[i].status in {Queued, Sending} then
      s.(jobs := s.jobs[i := s.jobs[i].(status := Cancelled)],
         executions := s.executions + [Note(s.jobs[i], i, Withdrawn)])
    else s
  }

  function WithdrawBelow(s: Store, rule: int, n: nat): Store {
    if n == 0 then s else Withdraw(WithdrawBelow(s, rule, n - 1), rule, n - 1)
  }

  /** An edit of a rule: its unfinished jobs are cancelled and its version grows. */
  function Edit(s: Store, rule: int, expected: nat, enabled: bool): Store {
    if rule !in s.rules || s.rules[rule].version != expected then s
    else WithdrawBelow(s, rule, |s.jobs|).(rules := s.rules[rule := RuleState(expected + 1, enabled)])
  }

  datatype Event =
    | InsertJob(job: Job)                       // by any scanner, however stale its query
    | Claim(i: nat)
    | Postpone(i: nat)
    | PerformJob(i: nat, scene: Scene)
    | FailJob(i: nat)                           // an exception or an expired lease
    | CreateRule(rule: int, enabled: bool)
    | EditRule(rule: int, expected: nat, enabled: bool)
    | ApplyByHand(candidate: int, list: Applied)   // a new set has an id of its own

  function Step(s: Store, max: nat, e: Event): Store {
    match e
    case InsertJob(job) => s.(jobs := Insert(s.jobs, job.(status := Queued, attempts := 0)))
    case Claim(i) => Move(s, i, Queued, Sending)
    case Postpone(i) => Move(s, i, Sending, Queued)
    case PerformJob(i, scene) => Perform(s, i, scene)
    case FailJob(i) => Fail(s, i, max)
    case CreateRule(rule, enabled) => if rule in s.rules then s else s.(rules := s.rules[rule := RuleState(1, enabled)])
    case EditRule(rule, expected, enabled) => Edit(s, rule, expected, enabled)
    case ApplyByHand(candidate, list) =>
      if exists i :: 0 <= i < |ListsOf(s, candidate)| && ListsOf(s, candidate)[i].id == list.id then s
      else s.(lists := s.lists[candidate := ListsOf(s, candidate) + [list]])
  }

  function Run(max: nat, events: seq<Event>): Store {
    if events == [] then Store(map[], [], [], map[])
    else Step(Run(max, events[..|events| - 1]), max, events[|events| - 1])
  }

  /** The rows as one transaction after another changes them in place. */
  class RuleStore {
    var rules: map<int, RuleState>
    var jobs: seq<Job>
    var executions: seq<Execution>
    var lists: map<int, seq<Applied>>

    ghost function Value(): Store
      reads this
    {
      Store(rules, jobs, executions, lists)
    }

    constructor ()
      ensures Value() == Run(0, [])
    {
      rules, jobs, executions, lists := map[], [], [], map[];
    }

    method PerformJob(i: nat, scene: Scene) returns (status: Status)
      requires i < |jobs|
      modifies this
      ensures Value() == Perform(old(Value()), i, scene) && status == jobs[i].status
    {
      var job := jobs[i];
      if job.status != Sending {
        return job.status;
      }
      var outcome := Skipped;
      if job.key.rule in rules && rules[job.key.rule].enabled && rules[job.key.rule].version == job.key.version
         && scene.accessible && scene.stage == job.params.stage {
        var mine := if job.candidate in lists then lists[job.candidate] else [];
        if job.params.action == ApplyList && mine == [] {
          if scene.published.Some? {
            lists := lists[job.candidate := [Applied(scene.newSet, job.params.listId, scene.published.value)]];
            outcome := ListApplied;
          }
        } else if job.params.action != ApplyList && mine != [] {
          var current := mine[|mine| - 1];
          if current.listId == job.params.listId
             && (job.params.listVersion.None? || current.versionId == job.params.listVersion.value) {
            if !job.params.scheduled || current.id == job.key.trigger {
              if scene.queued {
                outcome := MessageQueued;
              }
            }
          }
        }
      }
      executions := executions + [Note(job, i, outcome)];
      jobs := jobs[i := job.(status := Delivered, attempts := job.attempts + 1)];
      status := Delivered;
    }

    method RecordFailure(i: nat, max: nat) returns (status: Status)
      requires i < |jobs|
      modifies this
      ensures Value() == Fail(old(Value()), i, max) && status == jobs[i].status
    {
      if jobs[i].status != Sending {
        return jobs[i].status;
      }
      jobs := jobs[i := jobs[i].(attempts := jobs[i].attempts + 1)];
      if jobs[i].attempts < max {
        jobs := jobs[i := jobs[i].(status := Queued)];
      } else {
        executions := executions + [Note(jobs[i], i, GaveUp)];
        jobs := jobs[i := jobs[i].(status := Failed)];
      }
      status := jobs[i].status;
    }

    method UpdateRule(rule: int, expected: nat, enabled: bool) returns (ok: bool)
      requires rule in rules
      modifies this
      ensures Value() == Edit(old(Value()), rule, expected, enabled)
      ensures ok == (old(rules)[rule].version == expected)
    {
      if rules[rule].version != expected {
        return false;
      }
      for i := 0 to |jobs|
        invariant Value() == WithdrawBelow(old(Value()), rule, i)
        invariant |jobs| == |old(jobs)| && rules == old(rules)
      {
        if jobs[i].key.rule == rule && jobs[i].status in {Queued, Sending} {
          executions := executions + [Note(jobs[i], i, Withdrawn)];
          jobs := jobs[i := jobs[i].(status := Cancelled)];
        }
      }
      rules := rules[rule := RuleState(expected + 1, enabled)];
      ok := true;
    }
  }

  // ---------------------------------------------------------------- what every run keeps

  function Count(executions: seq<Execution>, i: nat): nat {
    if executions == [] then 0
    else Count(executions[..|executions| - 1], i) + if executions[|executions| - 1].job == i then 1 else 0
  }

  lemma {:induction false} CountNone(executions: seq<Execution>, i: nat)
    requires forall k :: 0 <= k < |executions| ==> executions[k].job != i
    ensures Count(executions, i) == 0
  {
    if executions != [] {
      CountNone(executions[..|executions| - 1], i);
    }
  }

  lemma {:induction false} CountSome(executions: seq<Execution>, a: nat)
    requires a < |executions|
    ensures Count(executions, executions[a].job) >= 1
  {
    if a < |executions| - 1 {
      CountSome(executions[..|executions| - 1], a);
    }
  }

  lemma {:induction false} CountTwice(executions: seq<Execution>, a: nat, b: nat)
    requires a < b < |executions| && executions[a].job == executions[b].job
    ensures Count(executions, executions[a].job) >= 2
  {
    var front := executions[..|executions| - 1];
    if b < |executions| - 1 {
      CountTwice(front, a, b);
    } else {
      CountSome(front, a);
    }
  }

  /** Exactly the finished jobs have an execution record, and they have one. */
  ghost predicate Recorded(jobs: seq<Job>, executions: seq<Execution>) {
    forall i: nat :: i < |jobs| ==> Count(executions, i) == if Terminal(jobs[i].status) then 1 else 0
  }

  /** A record says what its job was for, and how it ended. */
  ghost predicate Truthful(jobs: seq<Job>, e: Execution) {
    && e.job < |jobs|
    && e == Note(jobs[e.job], e.job, e.outcome)
    && jobs[e.job].status == (if e.outcome == Withdrawn then Cancelled else if e.outcome == GaveUp then Failed else Delivered)
  }

  ghost predicate AllTruthful(jobs: seq<Job>, executions: seq<Execution>) {
    forall k :: 0 <= k < |executions| ==> Truthful(jobs, executions[k])
  }

  /** Attempts are bounded, and a job that can still be retried has some left. */
  ghost predicate Bounded(jobs: seq<Job>, max: nat) {
    forall i :: 0 <= i < |jobs| ==>
      jobs[i].attempts <= max && (!Terminal(jobs[i].status) ==> jobs[i].attempts < max)
  }

  /** Rules apply a list to a candidate at most once, and the candidate has one from then on. */
  ghost predicate AppliedOnce(s: Store) {
    && (forall k :: 0 <= k < |s.executions| && s.executions[k].outcome == ListApplied
          ==> ListsOf(s, s.executions[k].candidate) != [])
    && forall j, k :: 0 <= j < k < |s.executions| && s.executions[j].outcome == ListApplied == s.executions[k].outcome
          ==> s.executions[j].candidate != s.executions[k].candidate
  }

  ghost predicate Books(jobs: seq<Job>, executions: seq<Execution>, max: nat) {
    UniqueKeys(jobs) && Recorded(jobs, executions) && AllTruthful(jobs, executions) && Bounded(jobs, max)
  }

  ghost predicate Inv(s: Store, max: nat) { Books(s.jobs, s.executions, max) && AppliedOnce(s) }

  /** Finished jobs are never touched again; no job is lost or changes what it is for. */
  ghost predicate Continues(a: seq<Job>, b: seq<Job>) {
    |a| <= |b| && forall i :: 0 <= i < |a| ==> Follows(a[i], b[i])
  }

  ghost predicate Follows(a: Job, b: Job) {
    && b == a.(status := b.status, attempts := b.attempts)
    && a.attempts <= b.attempts
    && (Terminal(a.status) ==> b == a)
  }

  /** Replacing an unfinished job by its finished form and noting it keeps the books. */
  lemma FinishKeeps(jobs: seq<Job>, executions: seq<Execution>, max: nat, i: nat, job: Job, outcome: Outcome)
    requires Books(jobs, executions, max) && i < |jobs| && !Terminal(jobs[i].status)
    requires job.attempts <= max && Follows(jobs[i], job)
    requires job.status == (if outcome == Withdrawn then Cancelled else if outcome == GaveUp then Failed else Delivered)
    ensures Books(jobs[i := job], executions + [Note(job, i, outcome)], max) && Continues(jobs, jobs[i := job])
  {
  }

  /** Replacing an unfinished job by another unfinished form of it keeps the books. */
  lemma ChangeKeeps(jobs: seq<Job>, executions: seq<Execution>, max: nat, i: nat, job: Job)
    requires Books(jobs, executions, max) && i < |jobs| && !Terminal(jobs[i].status) && !Terminal(job.status)
    requires job.attempts < max && Follows(jobs[i], job)
    ensures Books(jobs[i := job], executions, max) && Continues(jobs, jobs[i := job])
  {
  }

  lemma InsertJobKeeps(jobs: seq<Job>, executions: seq<Execution>, max: nat, job: Job)
    requires Books(jobs, executions, max) && job.status == Queued && job.attempts == 0 < max
    ensures Books(Insert(jobs, job), executions, max) && Continues(jobs, Insert(jobs, job))
  {
    InsertKeeps(jobs, job);
    var after := Insert(jobs, job);
    forall k | 0 <= k < |executions| ensures Truthful(after, executions[k]) && executions[k].job < |jobs| {
      assert Truthful(jobs, executions[k]);
    }
    if |after| > |jobs| {
      CountNone(executions, |jobs|);
    }
  }

  /** A record of anything but an application leaves the applications as they were. */
  lemma OtherOutcome(s: Store, e: Execution, jobs: seq<Job>)
    requires AppliedOnce(s) && e.outcome != ListApplied
    ensures AppliedOnce(s.(jobs := jobs, executions := s.executions + [e]))
  {
  }

  lemma PerformAppliedOnce(s: Store, i: nat, scene: Scene)
    requires AppliedOnce(s)
    ensures AppliedOnce(Perform(s, i, scene))
  {
  }

  lemma PerformKeeps(s: Store, max: nat, i: nat, scene: Scene)
    requires Inv(s, max)
    ensures Inv(Perform(s, i, scene), max) && Continues(s.jobs, Perform(s, i, scene).jobs)
  {
    PerformAppliedOnce(s, i, scene);
    if i < |s.jobs| && s.jobs[i].status == Sending {
      var job := s.jobs[i].(status := Delivered, attempts := s.jobs[i].attempts + 1);
      FinishKeeps(s.jobs, s.executions, max, i, job, Decide(s, s.jobs[i], scene));
    }
  }

  lemma FailKeeps(s: Store, max: nat, i: nat)
    requires Inv(s, max)
    ensures Inv(Fail(s, i, max), max) && Continues(s.jobs, Fail(s, i, max).jobs)
  {
    if i < |s.jobs| && s.jobs[i].status == Sending {
      var job := s.jobs[i].(attempts := s.jobs[i].attempts + 1);
      if job.attempts >= max {
        FinishKeeps(s.jobs, s.executions, max, i, job.(status := Failed), GaveUp);
        OtherOutcome(s, Note(job, i, GaveUp), Fail(s, i, max).jobs);
      } else {
        ChangeKeeps(s.jobs, s.executions, max, i, job.(status := Queued));
      }
    }
  }

  lemma MoveKeeps(s: Store, max: nat, i: nat, from: Status, to: Status)
    requires Inv(s, max) && !Terminal(from) && !Terminal(to)
    ensures Inv(Move(s, i, from, to), max) && Continues(s.jobs, Move(s, i, from, to).jobs)
  {
    if i < |s.jobs| && s.jobs[i].status == from {
      ChangeKeeps(s.jobs, s.executions, max, i, s.jobs[i].(status := to));
    }
  }

  lemma WithdrawKeeps(s: Store, max: nat, rule: int, i: nat)
    requires Inv(s, max)
    ensures Inv(Withdraw(s, rule, i), max) && Continues(s.jobs, Withdraw(s, rule, i).jobs)
  {
    if i < |s.jobs| && s.jobs[i].key.rule == rule && s.jobs[i].status in {Queued, Sending} {
      FinishKeeps(s.jobs, s.executions, max, i, s.jobs[i].(status := Cancelled), Withdrawn);
      OtherOutcome(s, Note(s.jobs[i], i, Withdrawn), Withdraw(s, rule, i).jobs);
    }
  }

  lemma ContinuesTransitive(a: seq<Job>, b: seq<Job>, c: seq<Job>)
    requires Continues(a, b) && Continues(b, c)
    ensures Continues(a, c)
  {
  }

  lemma {:induction false} SweepKeeps(s: Store, max: nat, rule: int, n: nat)
    requires Inv(s, max)
    ensures Inv(WithdrawBelow(s, rule, n), max) && Continues(s.jobs, WithdrawBelow(s, rule, n).jobs)
  {
    if n == 0 {
    } else {
      var before, after := WithdrawBelow(s, rule, n - 1), WithdrawBelow(s, rule, n);
      assert after == Withdraw(before, rule, n - 1);
      SweepKeeps(s, max, rule, n - 1);
      WithdrawKeeps(before, max, rule, n - 1);
      ContinuesTransitive(s.jobs, before.jobs, after.jobs);
    }
  }

  /** The sweep finishes the rule's jobs and touches nothing else. */
  lemma {:induction false} SweepEffect(s: Store, rule: int, n: nat, i: nat)
    requires n <= |s.jobs| && i < |s.jobs|
    ensures |WithdrawBelow(s, rule, n).jobs| == |s.jobs|
    ensures WithdrawBelow(s, rule, n).jobs[i] ==
      if i < n && s.jobs[i].key.rule == rule && !Terminal(s.jobs[i].status) then s.jobs[i].(status := Cancelled) else s.jobs[i]
    ensures WithdrawBelow(s, rule, n).rules == s.rules && WithdrawBelow(s, rule, n).lists == s.lists
  {
    if n > 0 {
      SweepEffect(s, rule, n - 1, i);
      var job := WithdrawBelow(s, rule, n - 1).jobs[n - 1];
      assert job.status == Queued || job.status == Sending || Terminal(job.status);
      SweepEffect(s, rule, n - 1, n - 1);
    }
  }

  lemma EditKeeps(s: Store, max: nat, rule: int, expected: nat, enabled: bool)
    requires Inv(s, max)
    ensures Inv(Edit(s, rule, expected, enabled), max) && Continues(s.jobs, Edit(s, rule, expected, enabled).jobs)
  {
    SweepKeeps(s, max, rule, |s.jobs|);
    var swept, after := WithdrawBelow(s, rule, |s.jobs|), Edit(s, rule, expected, enabled);
    assert forall c :: ListsOf(swept.(rules := after.rules), c) == ListsOf(swept, c);
  }

  lemma StepKeeps(s: Store, max: nat, e: Event)
    requires max >= 1 && Inv(s, max)
    ensures Inv(Step(s, max, e), max) && Continues(s.jobs, Step(s, max, e).jobs)
  {
    match e {
      case InsertJob(job) => InsertJobKeeps(s.jobs, s.executions, max, job.(status := Queued, attempts := 0));
      case Claim(i) => MoveKeeps(s, max, i, Queued, Sending);
      case Postpone(i) => MoveKeeps(s, max, i, Sending, Queued);
      case PerformJob(i, scene) => PerformKeeps(s, max, i, scene);
      case FailJob(i) => FailKeeps(s, max, i);
      case CreateRule(_, _) =>
      case EditRule(rule, expected, enabled) => EditKeeps(s, max, rule, expected, enabled);
      case ApplyByHand(candidate, list) =>
    }
  }

  lemma {:induction false} RunKeeps(max: nat, events: seq<Event>, n: nat)
    requires max >= 1 && n <= |events|
    ensures Inv(Run(max, events), max) && Continues(Run(max, events[..n]).jobs, Run(max, events).jobs)
  {
    if events == [] {
    } else {
      var front := events[..|events| - 1];
      RunKeeps(max, front, if n < |events| then n else 0);
      StepKeeps(Run(max, front), max, events[|events| - 1]);
      if n < |events| {
        assert front[..n] == events[..n];
        ContinuesTransitive(Run(max, events[..n]).jobs, Run(max, front).jobs, Run(max, events).jobs);
      } else {
        assert events[..n] == events;
      }
    }
  }

  /**
    Any interleaving of scanners, workers, crashes, retries, edits and applications by hand: one job
    a key, at most one execution record a key, a record for exactly the finished jobs, and at most
    one list a candidate ever got from a rule.
   */
  lemma RunsAreSafe(max: nat, events: seq<Event>)
    requires max >= 1
    ensures var s := Run(max, events);
            && UniqueKeys(s.jobs)
            && (forall j, k :: 0 <= j < k < |s.executions| ==> s.executions[j].key != s.executions[k].key)
            && Recorded(s.jobs, s.executions)
            && (forall i :: 0 <= i < |s.jobs| ==> s.jobs[i].attempts <= max)
            && AppliedOnce(s)
  {
    RunKeeps(max, events, 0);
    var s := Run(max, events);
    forall j, k | 0 <= j < k < |s.executions| ensures s.executions[j].key != s.executions[k].key {
      assert Truthful(s.jobs, s.executions[j]) && Truthful(s.jobs, s.executions[k]);
      if s.executions[j].job == s.executions[k].job {
        CountTwice(s.executions, j, k);
      }
    }
  }

  /** A rule applies a list exactly when the rule still stands, and only to a candidate with none. */
  lemma AppliesOnlyToNone(s: Store, i: nat, scene: Scene)
    requires i < |s.jobs| && s.jobs[i].status == Sending
    ensures var job, after := s.jobs[i], Perform(s, i, scene);
            && |after.executions| == |s.executions| + 1
            && (after.executions[|s.executions|].outcome == ListApplied <==>
                  MayAct(s, job, scene) && job.params.action == ApplyList && scene.published.Some?
                  && ListsOf(s, job.candidate) == [])
            && (forall c :: ListsOf(after, c) == ListsOf(s, c)
                  || (c == job.candidate && ListsOf(s, c) == [] && |ListsOf(after, c)| == 1))
  {
  }

  /** The candidate's current list is the one the rule is about. */
  predicate IsAbout(lists: seq<Applied>, params: Params) {
    && lists != []
    && lists[|lists| - 1].listId == params.listId
    && (params.listVersion.Some? ==> params.listVersion == Some(lists[|lists| - 1].versionId))
  }

  /** The current list is the one the job is about; for a timed reminder, the assignment it was due for. */
  ghost predicate MayMessage(s: Store, job: Job) {
    var lists := ListsOf(s, job.candidate);
    && job.params.action != ApplyList && IsAbout(lists, job.params)
    && (job.params.scheduled ==> lists[|lists| - 1].id == job.key.trigger)
  }

  /**
    What performing a job does, exactly. It applies the published list to a candidate who has none;
    it queues a message for every candidate whose current list is the one the rule is about, and for a
    timed reminder only if that is the very assignment it was due for; anything else is noted as
    skipped. The job is over in each case, with one record of its own.
   */
  lemma PerformsExactly(s: Store, i: nat, scene: Scene)
    requires i < |s.jobs| && s.jobs[i].status == Sending
    ensures var job, after := s.jobs[i], Perform(s, i, scene);
            var lists := ListsOf(s, job.candidate);
            var stands := job.key.rule in s.rules && s.rules[job.key.rule].enabled
                          && s.rules[job.key.rule].version == job.key.version
                          && scene.accessible && scene.stage == job.params.stage;
            var applies := stands && job.params.action == ApplyList && lists == [] && scene.published.Some?;
            var sends := stands && MayMessage(s, job) && scene.queued;
            var outcome := if applies then ListApplied else if sends then MessageQueued else Skipped;
            && after.executions == s.executions + [Execution(i, job.key, job.candidate, job.triggerVersion, job.params.action, outcome)]
            && after.jobs == s.jobs[i := job.(status := Delivered, attempts := job.attempts + 1)]
            && after.rules == s.rules
            && ListsOf(after, job.candidate) ==
                 (if applies then [Applied(scene.newSet, job.params.listId, scene.published.value)] else lists)
            && forall c :: c != job.candidate ==> ListsOf(after, c) == ListsOf(s, c)
  {
  }

  /** From discovery to message: a job of a standing rule with a message to send, once claimed, sends it. */
  lemma StandingRuleSends(s: Store, max: nat, job: Job, scene: Scene)
    requires job.key !in Keys(s.jobs) && MayAct(s, job, scene) && MayMessage(s, job) && scene.queued
    ensures var i := |s.jobs|;
            var after := Step(Step(Step(s, max, InsertJob(job)), max, Claim(i)), max, PerformJob(i, scene));
            && |after.jobs| == i + 1 && after.jobs[..i] == s.jobs && after.jobs[i].status == Delivered
            && after.executions == s.executions + [Execution(i, job.key, job.candidate, job.triggerVersion, job.params.action, MessageQueued)]
  {
    var i, queued := |s.jobs|, job.(status := Queued, attempts := 0);
    var inserted := Step(s, max, InsertJob(job));
    assert inserted == s.(jobs := s.jobs + [queued]);
    var claimed := Step(inserted, max, Claim(i));
    assert claimed == s.(jobs := s.jobs + [queued.(status := Sending)]);
    PerformsExactly(claimed, i, scene);
  }

  lemma RunSnoc(max: nat, events: seq<Event>, e: Event)
    ensures Run(max, events + [e]) == Step(Run(max, events), max, e)
  {
    assert (events + [e])[..|events|] == events;
  }

  lemma RunTwo(max: nat, events: seq<Event>, a: Event, b: Event)
    ensures Run(max, events + [a, b]) == Step(Step(Run(max, events), max, a), max, b)
  {
    RunSnoc(max, events, a);
    RunSnoc(max, events + [a], b);
    assert events + [a, b] == events + [a] + [b];
  }

  lemma Fifth(events: seq<Event>, a: Event, b: Event, c: Event, d: Event, e: Event)
    ensures events + [a, b, c, d, e] == (events + [a, b]) + [c, d] + [e]
  {
  }

  lemma RuleAndList(s: Store, max: nat, rule: int, list: Applied, candidate: int)
    requires rule !in s.rules && forall other :: other in ListsOf(s, candidate) ==> other.id != list.id
    ensures var after := Step(Step(s, max, CreateRule(rule, true)), max, ApplyByHand(candidate, list));
            && after.rules == s.rules[rule := RuleState(1, true)] && after.jobs == s.jobs && after.executions == s.executions
            && ListsOf(after, candidate) == ListsOf(s, candidate) + [list]
  {
  }

  /**
    From a rule's creation to its first message, after any run: a new rule, a list applied after it, the
    job a scanner inserts for that assignment, and a worker that finds the scene in order.
   */
  lemma NewRuleSends(max: nat, events: seq<Event>, rule: int, list: Applied, job: Job, scene: Scene)
    requires rule !in Run(max, events).rules && job.key == Key(rule, 1, list.id) && job.key !in Keys(Run(max, events).jobs)
    requires forall other :: other in ListsOf(Run(max, events), job.candidate) ==> other.id != list.id
    requires job.params.action != ApplyList && job.params.listId == list.listId
    requires job.params.listVersion.Some? ==> job.params.listVersion.value == list.versionId
    requires scene.accessible && scene.stage == job.params.stage && scene.queued
    ensures var s, i := Run(max, events), |Run(max, events).jobs|;
            Run(max, events + [CreateRule(rule, true), ApplyByHand(job.candidate, list), InsertJob(job), Claim(i),
                               PerformJob(i, scene)]).executions
            == s.executions + [Execution(i, job.key, job.candidate, job.triggerVersion, job.params.action, MessageQueued)]
  {
    var s, i := Run(max, events), |Run(max, events).jobs|;
    var front := events + [CreateRule(rule, true), ApplyByHand(job.candidate, list)];
    RunTwo(max, events, CreateRule(rule, true), ApplyByHand(job.candidate, list));
    RunTwo(max, front, InsertJob(job), Claim(i));
    RunSnoc(max, front + [InsertJob(job), Claim(i)], PerformJob(i, scene));
    Fifth(events, CreateRule(rule, true), ApplyByHand(job.candidate, list), InsertJob(job), Claim(i), PerformJob(i, scene));
    RuleAndList(s, max, rule, list, job.candidate);
    var ready := Step(Step(s, max, CreateRule(rule, true)), max, ApplyByHand(job.candidate, list));
    StandingRuleSends(ready, max, job, scene);
  }

  /** A failed attempt uses one up; the job waits for its next one, or is given up with its last. */
  lemma FailsExactly(s: Store, i: nat, max: nat)
    requires i < |s.jobs| && s.jobs[i].status == Sending
    ensures var job, after := s.jobs[i], Fail(s, i, max);
            var last := job.attempts + 1 >= max;
            && after.jobs == s.jobs[i := job.(status := if last then Failed else Queued, attempts := job.attempts + 1)]
            && after.executions == s.executions +
                 (if last then [Execution(i, job.key, job.candidate, job.triggerVersion, job.params.action, GaveUp)] else [])
            && after.rules == s.rules && after.lists == s.lists
  {
  }

  /** Claiming and postponing move one job between the queue and a worker, and touch nothing else. */
  lemma PostponeUndoesClaim(s: Store, max: nat, i: nat)
    requires i < |s.jobs| && s.jobs[i].status == Queued
    ensures Step(s, max, Claim(i)) == s.(jobs := s.jobs[i := s.jobs[i].(status := Sending)])
    ensures Step(Step(s, max, Claim(i)), max, Postpone(i)) == s
  {
    assert s.jobs[i := s.jobs[i].(status := Sending)][i := s.jobs[i]] == s.jobs;
  }

  /** An edit only adds records, and only of withdrawn jobs. */
  lemma {:induction false} SweepOnlyWithdraws(s: Store, rule: int, n: nat)
    ensures s.executions <= WithdrawBelow(s, rule, n).executions
    ensures forall k :: |s.executions| <= k < |WithdrawBelow(s, rule, n).executions|
              ==> WithdrawBelow(s, rule, n).executions[k].outcome == Withdrawn
  {
    if n > 0 {
      SweepOnlyWithdraws(s, rule, n - 1);
    }
  }

  /** A step that notes a queued message performs a job that may send one at that moment. */
  lemma MessageStep(s: Store, max: nat, e: Event, k: nat)
    requires |s.executions| <= k < |Step(s, max, e).executions| && Step(s, max, e).executions[k].outcome == MessageQueued
    ensures e.PerformJob? && e.i < |s.jobs| && s.jobs[e.i].status == Sending
    ensures Step(s, max, e).executions[k] == Note(s.jobs[e.i], e.i, MessageQueued)
    ensures MayAct(s, s.jobs[e.i], e.scene) && MayMessage(s, s.jobs[e.i])
  {
    if e.EditRule? {
      SweepOnlyWithdraws(s, e.rule, |s.jobs|);
    }
  }

  lemma ExecutionsGrow(s: Store, max: nat, e: Event)
    ensures s.executions <= Step(s, max, e).executions
  {
    if e.EditRule? {
      SweepOnlyWithdraws(s, e.rule, |s.jobs|);
    }
  }

  /**
    Every queued message of every run was noted at a moment when its rule stood and the list it is
    about was the candidate's current one; for a timed reminder, the very assignment that triggered it.
   */
  lemma {:induction false} MessagesNameTheCurrentList(max: nat, events: seq<Event>, k: nat) returns (n: nat)
    requires k < |Run(max, events).executions| && Run(max, events).executions[k].outcome == MessageQueued
    ensures n < |events| && events[n].PerformJob? && events[n].i == Run(max, events).executions[k].job
    ensures |Run(max, events[..n + 1]).executions| == k + 1
    ensures var s := Run(max, events[..n]);
            && |s.executions| == k && events[n].i < |s.jobs|
            && Run(max, events).executions[k].key == s.jobs[events[n].i].key
            && MayAct(s, s.jobs[events[n].i], events[n].scene) && MayMessage(s, s.jobs[events[n].i])
  {
    var front, last := events[..|events| - 1], |events| - 1;
    ExecutionsGrow(Run(max, front), max, events[last]);
    if k < |Run(max, front).executions| {
      n := MessagesNameTheCurrentList(max, front, k);
      assert front[..n] == events[..n] && front[..n + 1] == events[..n + 1];
    } else {
      n := last;
      assert events[..n + 1] == events;
      MessageStep(Run(max, front), max, events[last], k);
    }
  }

  ghost predicate DistinctSets(s: Store) {
    forall c, i, j :: 0 <= i < j < |ListsOf(s, c)| ==> ListsOf(s, c)[i].id != ListsOf(s, c)[j].id
  }

  lemma ListsGrow(s: Store, max: nat, e: Event, c: int)
    requires DistinctSets(s)
    ensures DistinctSets(Step(s, max, e)) && ListsOf(s, c) <= ListsOf(Step(s, max, e), c)
  {
    var after := Step(s, max, e);
    if e.EditRule? {
      SweepKeepsLists(s, e.rule, |s.jobs|);
    }
    forall d ensures ListsOf(s, d) <= ListsOf(after, d)
      ensures forall i, j :: 0 <= i < j < |ListsOf(after, d)| ==> ListsOf(after, d)[i].id != ListsOf(after, d)[j].id
    {
    }
  }

  lemma {:induction false} SweepKeepsLists(s: Store, rule: int, n: nat)
    ensures WithdrawBelow(s, rule, n).lists == s.lists
  {
    if n > 0 {
      SweepKeepsLists(s, rule, n - 1);
    }
  }

  lemma {:induction false} RunListsGrow(max: nat, events: seq<Event>, n: nat, c: int)
    requires n <= |events|
    ensures DistinctSets(Run(max, events)) && ListsOf(Run(max, events[..n]), c) <= ListsOf(Run(max, events), c)
  {
    if events == [] {
    } else {
      var front := events[..|events| - 1];
      RunListsGrow(max, front, if n < |events| then n else 0, c);
      ListsGrow(Run(max, front), max, events[|events| - 1], c);
      if n < |events| {
        assert front[..n] == events[..n];
      } else {
        assert events[..n] == events;
      }
    }
  }

  /** A timed reminder of an assignment that has been replaced is silent for the rest of every run. */
  lemma ReplacedAssignmentIsSilent(max: nat, events: seq<Event>, n: nat, c: int, p: nat, k: nat)
    requires max >= 1 && n <= |events| && p + 1 < |ListsOf(Run(max, events[..n]), c)|
    requires |Run(max, events[..n]).executions| <= k < |Run(max, events).executions|
    requires var e := Run(max, events).executions[k];
             e.outcome == MessageQueued && e.candidate == c && e.job < |Run(max, events).jobs|
             && Run(max, events).jobs[e.job].params.scheduled
    ensures Run(max, events).executions[k].key.trigger != ListsOf(Run(max, events[..n]), c)[p].id
  {
    var m := MessagesNameTheCurrentList(max, events, k);
    var s := Run(max, events[..m]);
    LaterHasMore(max, events, n, m, k);
    assert events[..m][..n] == events[..n];
    RunListsGrow(max, events[..m], n, c);
    RunKeeps(max, events, m);
    assert Truthful(Run(max, events).jobs, Run(max, events).executions[k]);
    assert Follows(s.jobs[events[m].i], Run(max, events).jobs[events[m].i]);
  }

  /** A record noted after the first `n` events was noted by a later one. */
  lemma LaterHasMore(max: nat, events: seq<Event>, n: nat, m: nat, k: nat)
    requires n <= |events| && m < |events| && |Run(max, events[..m]).executions| == k
    requires |Run(max, events[..n]).executions| <= k < |Run(max, events[..m + 1]).executions|
    ensures n <= m
  {
    if m < n {
      assert events[..n][..m + 1] == events[..m + 1];
      RunExecutionsGrow(max, events[..n], m + 1);
    }
  }

  lemma {:induction false} RunExecutionsGrow(max: nat, events: seq<Event>, n: nat)
    requires n <= |events|
    ensures Run(max, events[..n]).executions <= Run(max, events).executions
  {
    if n < |events| {
      var front := events[..|events| - 1];
      RunExecutionsGrow(max, front, n);
      assert front[..n] == events[..n];
      ExecutionsGrow(Run(max, front), max, events[|events| - 1]);
    } else {
      assert events[..n] == events;
    }
  }

  /**
    After an edit no job of the rule is left that could act: each unfinished one is cancelled with its
    record, finished and foreign ones stay as they are, and the rule is in its next version. An edit of
    any other version, or of no rule, does nothing.
   */
  lemma EditSettles(s: Store, max: nat, rule: int, expected: nat, enabled: bool, i: nat)
    requires Inv(s, max) && i < |s.jobs|
    ensures var after := Edit(s, rule, expected, enabled);
            if rule in s.rules && s.rules[rule].version == expected
            then
              && |after.jobs| == |s.jobs| && after.lists == s.lists
              && after.rules == s.rules[rule := RuleState(expected + 1, enabled)]
              && after.jobs[i] == (if s.jobs[i].key.rule == rule && !Terminal(s.jobs[i].status)
                                   then s.jobs[i].(status := Cancelled) else s.jobs[i])
              && (s.jobs[i].key.rule == rule ==> Terminal(after.jobs[i].status) && Count(after.executions, i) == 1)
            else after == s
  {
    SweepKeeps(s, max, rule, |s.jobs|);
    SweepEffect(s, rule, |s.jobs|, i);
  }
}
