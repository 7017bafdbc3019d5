/**
  One document template and its versions (backend/app/document_templates.py). Every operation runs
  under a row lock in one transaction, so a run is a sequence of operations; a raised HTTPException
  leaves the row as it was.
 */
module DocumentTemplates {
  import opened Wrappers

  const MAX_VERSIONS_PER_TEMPLATE := 100

  datatype VersionState = Draft | Active | Archived

  datatype Version = Version(number: nat, state: VersionState, title: string, body: string, activatedAt: Option<int>)

  /** A template row with its version rows; a version's identity is its position. */
  datatype Template = Template(name: string, revision: nat, versions: seq<Version>)

  datatype Error = RevisionChanged | SameName | VersionLimit | NotFound | AlreadyArchived | AlreadyActive

  datatype Operation =
    | Rename(name: string)
    | AddVersion(title: string, body: string)
    | Activate(version: nat, now: int)
    | Archive(version: nat)

  // ---------------------------------------------------------------- specification

  function Created(name: string, title: string, body: string): Template {
    Template(name, 1, [Version(1, Draft, title, body, None)])
  }

  function MaxNumber(versions: seq<Version>): nat {
    if versions == [] then 0
    else
      var m, last := MaxNumber(versions[..|versions| - 1]), versions[|versions| - 1].number;
      if last > m then last else m
  }

  /** The version the `state == 'active'` query returns. */
  function ActiveIndex(versions: seq<Version>): (r: Option<nat>)
    ensures r.Some? ==> r.value < |versions| && versions[r.value].state == Active
    ensures r.None? ==> forall i :: 0 <= i < |versions| ==> versions[i].state != Active
  {
    if versions == [] then None
    else if versions[|versions| - 1].state == Active then Some(|versions| - 1)
    else ActiveIndex(versions[..|versions| - 1])
  }

  function ArchiveCurrent(versions: seq<Version>): (r: seq<Version>)
    ensures |r| == |versions|
  {
    match ActiveIndex(versions)
    case None => versions
    case Some(i) => versions[i := versions[i].(state := Archived)]
  }

  /** What an operation does once the expected revision has matched. */
  function Body(t: Template, op: Operation): Result<Template, Error> {
    match op
    case Rename(name) =>
      if t.name == name then Failure(SameName) else Success(t.(name := name))
    case AddVersion(title, body) =>
      if |t.versions| >= MAX_VERSIONS_PER_TEMPLATE then Failure(VersionLimit)
      else Success(t.(versions := t.versions + [Version(MaxNumber(t.versions) + 1, Draft, title, body, None)]))
    case Activate(i, now) =>
      if i >= |t.versions| then Failure(NotFound)
      else if t.versions[i].state == Archived then Failure(AlreadyArchived)
      else if t.versions[i].state == Active then Failure(AlreadyActive)
      else
        var released := ArchiveCurrent(t.versions);
        Success(t.(versions := released[i := released[i].(state := Active, activatedAt := Some(now))]))
    case Archive(i) =>
      if i >= |t.versions| then Failure(NotFound)
      else if t.versions[i].state == Archived then Failure(AlreadyArchived)
      else Success(t.(versions := t.versions[i := t.versions[i].(state := Archived)]))
  }

  /** `_parent` followed by the operation. */
  function Step(t: Template, expected: nat, op: Operation): Result<Template, Error> {
    if t.revision != expected then Failure(RevisionChanged)
    else Body(t.(revision := t.revision + 1), op)
  }

  /** An answer `r` and a change of the row that agree with `Step`; a failure changes nothing. */
  ghost predicate Agrees(before: Template, expected: nat, op: Operation, r: Result<(), Error>, after: Template) {
    match Step(before, expected, op)
    case Failure(e) => r == Failure(e) && after == before
    case Success(t) => r == Success(()) && after == t
  }

  // ---------------------------------------------------------------- the row, updated in place

  class TemplateRow {
    var name: string
    var revision: nat
    var versions: seq<Version>

    ghost function Value(): Template
      reads this
    {
      Template(name, revision, versions)
    }

    /** `create_template`. */
    constructor (name: string, title: string, body: string)
      ensures Value() == Created(name, title, body)
    {
      this.name, revision := name, 1;
      versions := [Version(1, Draft, title, body, None)];
    }

    /** `rename_template`. */
    method RenameTo(expected: nat, newName: string) returns (r: Result<(), Error>)
      modifies this
      ensures Agrees(old(Value()), expected, Rename(newName), r, Value())
    {
      if revision != expected {
        return Failure(RevisionChanged);
      }
      if name == newName {
        return Failure(SameName);
      }
      revision := revision + 1;
      name := newName;
      r := Success(());
    }

    /** `add_version`, and `add_imported_version`, which takes the same path. */
    method Append(expected: nat, title: string, body: string) returns (r: Result<(), Error>)
      modifies this
      ensures Agrees(old(Value()), expected, AddVersion(title, body), r, Value())
    {
      if revision != expected {
        return Failure(RevisionChanged);
      }
      if |versions| >= MAX_VERSIONS_PER_TEMPLATE {
        return Failure(VersionLimit);
      }
      revision := revision + 1;
      var number := MaxNumber(versions) + 1;
      versions := versions + [Version(number, Draft, title, body, None)];
      r := Success(());
    }

    /** `activate_version`: the current active version is archived first. */
    method Publish(expected: nat, version: nat, now: int) returns (r: Result<(), Error>)
      modifies this
      ensures Agrees(old(Value()), expected, Activate(version, now), r, Value())
    {
      if revision != expected {
        return Failure(RevisionChanged);
      }
      if version >= |versions| {
        return Failure(NotFound);
      }
      if versions[version].state == Archived {
        return Failure(AlreadyArchived);
      }
      if versions[version].state == Active {
        return Failure(AlreadyActive);
      }
      revision := revision + 1;
      var current := ActiveIndex(versions);
      if current.Some? {
        versions := versions[current.value := versions[current.value].(state := Archived)];
      }
      versions := versions[version := versions[version].(state := Active, activatedAt := Some(now))];
      r := Success(());
    }

    /** `archive_version`. */
    method Retire(expected: nat, version: nat) returns (r: Result<(), Error>)
      modifies this
      ensures Agrees(old(Value()), expected, Archive(version), r, Value())
    {
      if revision != expected {
        return Failure(RevisionChanged);
      }
      if version >= |versions| {
        return Failure(NotFound);
      }
      if versions[version].state == Archived {
        return Failure(AlreadyArchived);
      }
      revision := revision + 1;
      versions := versions[version := versions[version].(state := Archived)];
      r := Success(());
    }
  }

  // ---------------------------------------------------------------- invariant of every run

  ghost predicate AtMostOneActive(versions: seq<Version>) {
    forall i, j :: 0 <= i < |versions| && 0 <= j < |versions| && versions[i].state == versions[j].state == Active ==> i == j
  }

  /** Numbers are exactly 1..n within the cap; at most one version is active, and it has its date. */
  ghost predicate WellFormed(t: Template) {
    && 1 <= |t.versions| <= MAX_VERSIONS_PER_TEMPLATE
    && (forall i :: 0 <= i < |t.versions| ==> t.versions[i].number == i + 1)
    && AtMostOneActive(t.versions)
    && (forall i :: 0 <= i < |t.versions| ==> (t.versions[i].state == Draft ==> t.versions[i].activatedAt == None))
    && (forall i :: 0 <= i < |t.versions| ==> (t.versions[i].state == Active ==> t.versions[i].activatedAt.Some?))
  }

  /**
    What the passing of time may do to a template: versions are only added; number, title and body
    are frozen; a publication date, once set, stays; archived is absorbing, and nothing returns to
    draft.
   */
  ghost predicate Evolves(a: Template, b: Template) {
    && a.revision <= b.revision && |a.versions| <= |b.versions|
    && forall i :: 0 <= i < |a.versions| ==> VersionEvolves(a.versions[i], b.versions[i])
  }

  ghost predicate VersionEvolves(v: Version, w: Version) {
    && v.number == w.number && v.title == w.title && v.body == w.body
    && (v.state == Archived ==> w.state == Archived)
    && (v.state == Active ==> w.state != Draft)
    && (v.activatedAt.Some? ==> v.activatedAt == w.activatedAt)
  }

  lemma {:induction false} MaxOfConsecutive(versions: seq<Version>)
    requires forall i :: 0 <= i < |versions| ==> versions[i].number == i + 1
    ensures MaxNumber(versions) == |versions|
  {
    if versions != [] {
      MaxOfConsecutive(versions[..|versions| - 1]);
    }
  }

  lemma ArchivePreserves(t: Template, after: Template, i: nat)
    requires WellFormed(t) && i < |t.versions| && t.revision <= after.revision
    requires after.versions == t.versions[i := t.versions[i].(state := Archived)]
    ensures WellFormed(after) && Evolves(t, after)
  {
  }

  lemma StepPreserves(t: Template, expected: nat, op: Operation)
    requires WellFormed(t) && Step(t, expected, op).Success?
    ensures WellFormed(Step(t, expected, op).value)
    ensures Evolves(t, Step(t, expected, op).value)
    ensures t.revision == expected && Step(t, expected, op).value.revision == expected + 1
  {
    var after := Step(t, expected, op).value;
    match op {
      case Rename(_) =>
      case AddVersion(title, body) =>
        MaxOfConsecutive(t.versions);
      case Activate(i, now) =>
        PublishedIsTheActiveOne(t, expected, i, now);
        PublishPreserves(t, after, i, now);
      case Archive(i) =>
        ArchivePreserves(t, after, i);
    }
  }

  lemma PublishPreserves(t: Template, after: Template, i: nat, now: int)
    requires WellFormed(t) && i < |t.versions| == |after.versions| && t.versions[i].state == Draft
    requires t.revision <= after.revision
    requires after.versions[i] == t.versions[i].(state := Active, activatedAt := Some(now))
    requires forall j :: 0 <= j < |t.versions| && j != i ==>
      after.versions[j] == if t.versions[j].state == Active then t.versions[j].(state := Archived) else t.versions[j]
    ensures WellFormed(after) && Evolves(t, after)
  {
  }

  /** Publishing a version leaves it as the only active one; all others keep their state, or retire. */
  lemma PublishedIsTheActiveOne(t: Template, expected: nat, i: nat, now: int)
    requires WellFormed(t) && i < |t.versions|
    ensures Step(t, expected, Activate(i, now)).Success? <==> t.revision == expected && t.versions[i].state == Draft
    ensures Step(t, expected, Activate(i, now)).Success? ==>
      var after := Step(t, expected, Activate(i, now)).value;
      && |after.versions| == |t.versions|
      && after.versions[i] == t.versions[i].(state := Active, activatedAt := Some(now))
      && forall j :: 0 <= j < |t.versions| && j != i ==>
           after.versions[j] == if t.versions[j].state == Active then t.versions[j].(state := Archived) else t.versions[j]
  {
  }

  /** Exactly when an operation succeeds, and what it leaves of the template besides the revision. */
  lemma SucceedsIff(t: Template, expected: nat, op: Operation)
    requires WellFormed(t)
    ensures Step(t, expected, op).Success? <==>
      && t.revision == expected
      && match op
         case Rename(name) => name != t.name
         case AddVersion(_, _) => |t.versions| < 100
         case Activate(i, _) => i < |t.versions| && t.versions[i].state == Draft
         case Archive(i) => i < |t.versions| && t.versions[i].state != Archived
    ensures Step(t, expected, op).Success? ==>
      var after := Step(t, expected, op).value;
      && (if op.Rename? then after.name == op.name && after.versions == t.versions else after.name == t.name)
      && (op.AddVersion? ==> after.versions == t.versions + [Version(|t.versions| + 1, Draft, op.title, op.body, None)])
      && (op.Archive? ==> after.versions == t.versions[op.version := t.versions[op.version].(state := VersionState.Archived)])
  {
    MaxOfConsecutive(t.versions);
  }

  /** Which error a refused operation gets: a stale revision before anything else. */
  lemma RefusedWith(t: Template, expected: nat, op: Operation)
    requires WellFormed(t) && Step(t, expected, op).Failure?
    ensures Step(t, expected, op).error ==
      if t.revision != expected then RevisionChanged
      else match op
        case Rename(_) => SameName
        case AddVersion(_, _) => VersionLimit
        case Activate(i, _) =>
          if i >= |t.versions| then NotFound else if t.versions[i].state == Active then AlreadyActive else AlreadyArchived
        case Archive(i) => if i >= |t.versions| then NotFound else AlreadyArchived
  {
  }

  // ---------------------------------------------------------------- runs

  datatype Request = Request(expected: nat, op: Operation)

  function Execute(t: Template, r: Request): Template {
    var outcome := Step(t, r.expected, r.op);
    if outcome.Success? then outcome.value else t
  }

  function Run(t: Template, requests: seq<Request>): Template {
    if requests == [] then t
    else Execute(Run(t, requests[..|requests| - 1]), requests[|requests| - 1])
  }

  /** Whether the request at a position of a run succeeded. */
  predicate Succeeded(t: Template, requests: seq<Request>, i: nat)
    requires i < |requests|
  {
    Step(Run(t, requests[..i]), requests[i].expected, requests[i].op).Success?
  }

  function Successes(t: Template, requests: seq<Request>): nat {
    if requests == [] then 0
    else Successes(t, requests[..|requests| - 1]) + (if Succeeded(t, requests, |requests| - 1) then 1 else 0)
  }

  /**
    Over any run of requests, successful or not: the template stays well formed, what it was at any
    earlier point still stands, and its revision is one plus the number of successful operations.
   */
  lemma {:induction false} RunsAreSafe(name: string, title: string, body: string, requests: seq<Request>, i: nat)
    requires i <= |requests|
    ensures
      var t := Created(name, title, body);
      && WellFormed(Run(t, requests))
      && Evolves(Run(t, requests[..i]), Run(t, requests))
      && Run(t, requests).revision == 1 + Successes(t, requests)
      && Run(t, requests).versions[0].title == title && Run(t, requests).versions[0].body == body
  {
    var t := Created(name, title, body);
    if requests == [] {
    } else {
      var front, last := requests[..|requests| - 1], requests[|requests| - 1];
      if i == |requests| {
        RunsAreSafe(name, title, body, front, i - 1);
        assert requests[..i] == requests;
      } else {
        RunsAreSafe(name, title, body, front, i);
        assert front[..i] == requests[..i];
      }
      if Step(Run(t, front), last.expected, last.op).Success? {
        StepPreserves(Run(t, front), last.expected, last.op);
      }
    }
  }

  /** Of two requests that carry the same expected revision, at most one succeeds in any run. */
  lemma AtMostOneWinner(name: string, title: string, body: string, requests: seq<Request>, i: nat, j: nat)
    requires i < j < |requests| && requests[i].expected == requests[j].expected
    ensures
      var t := Created(name, title, body);
      !(Succeeded(t, requests, i) && Succeeded(t, requests, j))
  {
    var t := Created(name, title, body);
    if Succeeded(t, requests, i) {
      assert requests[..i + 1][..i] == requests[..i];
      assert requests[..j][..i + 1] == requests[..i + 1];
      RunsAreSafe(name, title, body, requests[..i], 0);
      StepPreserves(Run(t, requests[..i]), requests[i].expected, requests[i].op);
      RunsAreSafe(name, title, body, requests[..j], i + 1);
    }
  }

  /** A new template under its name, whose one version can be published, by the first revision only. */
  lemma FirstVersionCanBePublished(name: string, title: string, body: string, expected: nat, now: int)
    ensures var t := Created(name, title, body);
            && t.name == name && |t.versions| == 1
            && (Step(t, expected, Activate(0, now)).Success? <==> expected == 1)
            && Run(t, [Request(1, Activate(0, now))]).versions == [Version(1, Active, title, body, Some(now))]
  {
    var t, requests := Created(name, title, body), [Request(1, Activate(0, now))];
    assert requests[..0] == [];
    assert Run(t, requests) == Execute(t, requests[0]);
    var versions := t.versions;
    assert versions[..0] == [] && ActiveIndex(versions) == None;
  }
}
