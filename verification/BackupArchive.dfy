/**
  The backup archive: which files retention deletes (`retention_plan` in backend/app/backup.py) and
  how a run publishes, records and then deletes (`run_backup` in backend/app/backup_runner.py,
  `update_state_backup`, and `backup-prune` in backend/app/cli.py). Instants are microseconds.
 */
module BackupArchive {
  import opened Wrappers
  import opened Decimals

  datatype File = File(name: string, at: int)

  datatype Config = Config(retentionDays: int, minCopies: int)

  function Days(n: int): int { 86_400_000_000 * n }

  /** Everything older than this is a deletion candidate. */
  function Cutoff(now: int, cfg: Config): int { now - Days(if cfg.retentionDays < 0 then 0 else cfg.retentionDays) }

  // ---------------------------------------------------------------- names

  /** What `BACKUP_FILE_RE` allows at each of its 47 positions. */
  predicate Fits(i: nat, c: char)
    requires i < 47
  {
    if i < 11 then c == "hr-manager-"[i]
    else if i == 19 then c == 'T'
    else if i < 26 then IsDigit(c)
    else if i < 28 then c == "Z-"[i - 26]
    else if i < 36 then IsLowerHexDigit(c)
    else c == ".pgdump.enc"[i - 36]
  }

  predicate Recognized(name: string) { |name| == 47 && forall i: nat :: i < 47 ==> Fits(i, name[i]) }

  /** `backup_filename` from the UTC date and time digits and the run id. */
  function FileName(date: string, time: string, runId: string): string {
    (("hr-manager-" + date) + ("T" + time)) + (("Z-" + runId) + ".pgdump.enc")
  }

  /** Every name a run gives its file is one that listing and retention recognise. */
  lemma OwnNamesAreRecognized(date: string, time: string, runId: string)
    requires |date| == 8 && |time| == 6 && |runId| == 8
    requires (forall c :: c in date + time ==> '0' <= c <= '9') && forall c :: c in runId ==> '0' <= c <= '9' || 'a' <= c <= 'f'
    ensures Recognized(FileName(date, time, runId))
  {
    assert (forall c :: c in date + time ==> IsDigit(c)) && forall c :: c in runId ==> IsLowerHexDigit(c);
  }

  /** And nothing else is: a recognised name is a run's, spelled out. */
  lemma RecognizedIsOwnName(name: string) returns (date: string, time: string, runId: string)
    requires Recognized(name)
    ensures |date| == 8 && |time| == 6 && |runId| == 8
    ensures (forall c :: c in date + time ==> '0' <= c <= '9') && forall c :: c in runId ==> '0' <= c <= '9' || 'a' <= c <= 'f'
    ensures name == "hr-manager-" + date + "T" + time + "Z-" + runId + ".pgdump.enc"
  {
    assert forall i: nat :: i < 47 ==> Fits(i, name[i]);
    date, time, runId := name[11..19], name[20..26], name[28..36];
    assert forall i :: 0 <= i < 11 ==> name[i] == "hr-manager-"[i];
    assert forall i :: 36 <= i < 47 ==> name[i] == ".pgdump.enc"[i - 36];
    assert name[..11] == "hr-manager-" && name[36..] == ".pgdump.enc" && name[19..20] == "T" && name[26..28] == "Z-";
    assert name == name[..11] + date + name[19..20] + time + name[26..28] + runId + name[36..];
  }

  // ---------------------------------------------------------------- the plan

  function Filter(files: seq<File>): seq<File> {
    if files == [] then []
    else Filter(files[..|files| - 1]) + if Recognized(files[|files| - 1].name) then [files[|files| - 1]] else []
  }

  /** After every file that is not newer: the sort is stable. */
  function Place(sorted: seq<File>, f: File): seq<File> {
    if sorted == [] then [f]
    else if sorted[|sorted| - 1].at <= f.at then sorted + [f]
    else Place(sorted[..|sorted| - 1], f) + [sorted[|sorted| - 1]]
  }

  function ByAge(files: seq<File>): seq<File> {
    if files == [] then [] else Place(ByAge(files[..|files| - 1]), files[|files| - 1])
  }

  function NameSet(files: seq<File>): set<string> { set f | f in files :: f.name }

  function Names(files: seq<File>): seq<string> { seq(|files|, i requires 0 <= i < |files| => files[i].name) }

  /** Where the newest `minCopies` of `n` files begin. */
  function Protected(n: nat, minCopies: int): (m: nat)
    ensures m <= n
  {
    if minCopies <= 0 then n else if minCopies >= n then 0 else n - minCopies
  }

  function Split(sorted: seq<File>, keep: set<string>, cutoff: int): (seq<string>, seq<string>) {
    if sorted == [] then ([], [])
    else
      var (del, kept) := Split(sorted[..|sorted| - 1], keep, cutoff);
      var f := sorted[|sorted| - 1];
      if f.name in keep || f.at >= cutoff then (del, kept + [f.name]) else (del + [f.name], kept)
  }

  function Plan(files: seq<File>, now: int, cfg: Config): (seq<string>, seq<string>) {
    var sorted := ByAge(Filter(files));
    Split(sorted, NameSet(sorted[Protected(|sorted|, cfg.minCopies)..]), Cutoff(now, cfg))
  }

  method RetentionPlan(files: seq<File>, now: int, cfg: Config) returns (toDelete: seq<string>, toKeep: seq<string>)
    ensures (toDelete, toKeep) == Plan(files, now, cfg)
  {
    var recognized: seq<File> := [];
    for i := 0 to |files|
      invariant recognized == Filter(files[..i])
    {
      assert files[..i + 1][..i] == files[..i];
      if Recognized(files[i].name) {
        recognized := recognized + [files[i]];
      }
    }
    assert files[..|files|] == files;
    recognized := ByAge(recognized);
    var cutoff := Cutoff(now, cfg);
    var keep := NameSet(recognized[Protected(|recognized|, cfg.minCopies)..]);
    toDelete, toKeep := [], [];
    for i := 0 to |recognized|
      invariant (toDelete, toKeep) == Split(recognized[..i], keep, cutoff)
    {
      assert recognized[..i + 1][..i] == recognized[..i];
      var f := recognized[i];
      if f.name in keep || f.at >= cutoff {
        toKeep := toKeep + [f.name];
      } else {
        toDelete := toDelete + [f.name];
      }
    }
    assert recognized[..|recognized|] == recognized;
  }

  // ---------------------------------------------------------------- what the plan means

  ghost predicate Sorted(s: seq<File>) { forall i, j :: 0 <= i < j < |s| ==> s[i].at <= s[j].at }

  ghost predicate DistinctNames(s: seq<File>) { forall i, j :: 0 <= i < j < |s| ==> s[i].name != s[j].name }

  lemma {:induction false} PlaceSorts(sorted: seq<File>, f: File)
    requires Sorted(sorted)
    ensures Sorted(Place(sorted, f)) && |Place(sorted, f)| == |sorted| + 1
    ensures forall x :: x in Place(sorted, f) <==> x in sorted || x == f
  {
    if sorted != [] && sorted[|sorted| - 1].at > f.at {
      var front, last := sorted[..|sorted| - 1], sorted[|sorted| - 1];
      PlaceSorts(front, f);
      assert sorted == front + [last];
      assert forall x :: x in Place(front, f) ==> x.at <= last.at;
    }
  }

  lemma {:induction false} ByAgeSorts(files: seq<File>)
    ensures Sorted(ByAge(files)) && |ByAge(files)| == |files|
    ensures forall x :: x in ByAge(files) <==> x in files
  {
    if files != [] {
      var front, last := files[..|files| - 1], files[|files| - 1];
      ByAgeSorts(front);
      PlaceSorts(ByAge(front), last);
      assert files == front + [last];
    }
  }

  lemma {:induction false} FilterMembers(files: seq<File>)
    ensures forall x :: x in Filter(files) <==> x in files && Recognized(x.name)
  {
    if files != [] {
      var front, last := files[..|files| - 1], files[|files| - 1];
      FilterMembers(front);
      assert files == front + [last];
    }
  }

  lemma {:induction false} FilterDistinct(files: seq<File>)
    requires DistinctNames(files)
    ensures DistinctNames(Filter(files))
  {
    if files != [] {
      var front, last := files[..|files| - 1], files[|files| - 1];
      FilterDistinct(front);
      FilterMembers(front);
      assert forall x :: x in Filter(front) ==> x in front && x.name != last.name;
    }
  }

  /** A duplicate-free sequence within another is no longer than it. */
  lemma {:induction false} DistinctWithin(a: seq<File>, b: seq<File>)
    requires DistinctNames(a) && forall x :: x in a ==> x in b
    ensures |a| <= |b|
  {
    if a != [] {
      var x := a[|a| - 1];
      assert x in b;
      var j :| 0 <= j < |b| && b[j] == x;
      var rest := b[..j] + b[j + 1..];
      forall y | y in a[..|a| - 1] ensures y in rest {
        assert y in b;
        var i :| 0 <= i < |b| && b[i] == y;
        assert y == rest[if i < j then i else i - 1];
      }
      DistinctWithin(a[..|a| - 1], rest);
    }
  }

  /** Sorting distinct names keeps them distinct: the result is as long and has the same members. */
  lemma {:induction false} ByAgeDistinct(files: seq<File>)
    requires DistinctNames(files)
    ensures DistinctNames(ByAge(files))
  {
    if files != [] {
      var front, last := files[..|files| - 1], files[|files| - 1];
      ByAgeDistinct(front);
      ByAgeSorts(front);
      forall x | x in front ensures x.name != last.name {
      }
      PlaceDistinct(ByAge(front), last);
    }
  }

  lemma {:induction false} PlaceDistinct(sorted: seq<File>, f: File)
    requires Sorted(sorted) && DistinctNames(sorted) && forall x :: x in sorted ==> x.name != f.name
    ensures DistinctNames(Place(sorted, f))
  {
    if sorted != [] && sorted[|sorted| - 1].at > f.at {
      var front, last := sorted[..|sorted| - 1], sorted[|sorted| - 1];
      PlaceDistinct(front, f);
      PlaceSorts(front, f);
      assert forall x :: x in front ==> x.name != last.name;
    }
  }

  /** How many files of a sorted archive are older than the cutoff. */
  function Older(s: seq<File>, cutoff: int): (n: nat)
    ensures n <= |s|
  {
    if s == [] then 0 else if s[|s| - 1].at < cutoff then |s| else Older(s[..|s| - 1], cutoff)
  }

  lemma {:induction false} OlderIsBoundary(s: seq<File>, cutoff: int)
    requires Sorted(s)
    ensures forall i :: 0 <= i < |s| ==> (s[i].at < cutoff <==> i < Older(s, cutoff))
  {
    if s != [] && s[|s| - 1].at >= cutoff {
      OlderIsBoundary(s[..|s| - 1], cutoff);
    }
  }

  function Min(a: nat, b: nat): nat { if a <= b then a else b }

  /** Where retention cuts the archive sorted by age. */
  function Cut(files: seq<File>, now: int, cfg: Config): nat {
    var s := ByAge(Filter(files));
    Min(Protected(|s|, cfg.minCopies), Older(s, Cutoff(now, cfg)))
  }

  lemma NamesSnoc(s: seq<File>, a: nat, k: nat)
    requires a < k <= |s|
    ensures Names(s[a..k]) == Names(s[a..k - 1]) + [s[k - 1].name]
  {
  }

  lemma SplitSnoc(s: seq<File>, k: nat, keep: set<string>, cutoff: int)
    requires 0 < k <= |s|
    ensures var (del, kept) := Split(s[..k - 1], keep, cutoff);
            Split(s[..k], keep, cutoff) ==
              if s[k - 1].name in keep || s[k - 1].at >= cutoff then (del, kept + [s[k - 1].name])
              else (del + [s[k - 1].name], kept)
  {
    assert s[..k][..k - 1] == s[..k - 1];
  }

  /** Splitting a sorted archive whose files from `d` on are exactly those to keep cuts it at `d`. */
  lemma {:induction false} SplitIsCut(s: seq<File>, keep: set<string>, cutoff: int, d: nat, k: nat)
    requires k <= |s|
    requires forall i :: 0 <= i < |s| ==> (d <= i <==> s[i].name in keep || s[i].at >= cutoff)
    ensures Split(s[..k], keep, cutoff) == (Names(s[..Min(d, k)]), Names(s[Min(d, k)..k]))
  {
    if k == 0 {
      assert Names(s[..0]) == [];
    } else {
      SplitIsCut(s, keep, cutoff, d, k - 1);
      SplitSnoc(s, k, keep, cutoff);
      if k - 1 < d {
        NamesSnoc(s, 0, k);
        assert Names(s[k - 1..k - 1]) == [] == Names(s[k..k]);
      } else {
        NamesSnoc(s, d, k);
      }
    }
  }

  /** The recognised files by age: sorted, duplicate-free, and no others. */
  lemma SortedArchive(files: seq<File>)
    requires DistinctNames(files)
    ensures var s := ByAge(Filter(files));
            Sorted(s) && DistinctNames(s) && |s| == |Filter(files)|
            && forall f :: f in s <==> f in files && Recognized(f.name)
  {
    FilterMembers(files);
    FilterDistinct(files);
    ByAgeSorts(Filter(files));
    ByAgeDistinct(Filter(files));
  }

  /** Before the cut lies what is both older than the cutoff and beyond the protected copies. */
  lemma CutIff(files: seq<File>, now: int, cfg: Config)
    requires DistinctNames(files)
    ensures var s := ByAge(Filter(files));
            forall i :: 0 <= i < |s| ==>
              (i < Cut(files, now, cfg) <==> s[i].at < Cutoff(now, cfg) && i < Protected(|s|, cfg.minCopies))
  {
    SortedArchive(files);
    OlderIsBoundary(ByAge(Filter(files)), Cutoff(now, cfg));
  }

  /**
    Retention deletes a prefix of the recognised files in age order and keeps the rest: everything
    beyond the newest `minCopies` that is older than the cutoff, and nothing else.
   */
  lemma DeletesPrefix(files: seq<File>, now: int, cfg: Config)
    requires DistinctNames(files)
    ensures var s, d := ByAge(Filter(files)), Cut(files, now, cfg);
            d <= |s| && Plan(files, now, cfg) == (Names(s[..d]), Names(s[d..]))
  {
    SortedArchive(files);
    CutIff(files, now, cfg);
    var s := ByAge(Filter(files));
    var m := Protected(|s|, cfg.minCopies);
    forall i: nat | i < |s| ensures s[i].name in NameSet(s[m..]) <==> m <= i {
    }
    SplitIsCut(s, NameSet(s[m..]), Cutoff(now, cfg), Cut(files, now, cfg), |s|);
    assert s[..|s|] == s;
  }

  /** At least min(minCopies, count) recognised files survive. */
  lemma KeepsMinimum(files: seq<File>, now: int, cfg: Config)
    requires DistinctNames(files)
    ensures var (del, kept) := Plan(files, now, cfg);
            && |del| + |kept| == |Filter(files)|
            && |kept| >= (if cfg.minCopies < |Filter(files)| then cfg.minCopies else |Filter(files)|)
  {
    DeletesPrefix(files, now, cfg);
    SortedArchive(files);
  }

  lemma InHead(s: seq<File>, d: nat, i: nat)
    requires DistinctNames(s) && d <= |s| && i < |s|
    ensures s[i].name in Names(s[..d]) <==> i < d
  {
    assert forall j :: 0 <= j < d ==> Names(s[..d])[j] == s[j].name;
  }

  /** By name: a recognised file is deleted exactly when it lies before the cut. */
  lemma DeletedByPlace(files: seq<File>, now: int, cfg: Config, i: nat)
    requires DistinctNames(files) && i < |ByAge(Filter(files))|
    ensures ByAge(Filter(files))[i].name in Plan(files, now, cfg).0 <==> i < Cut(files, now, cfg)
  {
    SortedArchive(files);
    DeletesPrefix(files, now, cfg);
    InHead(ByAge(Filter(files)), Cut(files, now, cfg), i);
  }

  lemma PlaceOf(files: seq<File>, f: File) returns (i: nat)
    requires DistinctNames(files) && f in files && Recognized(f.name)
    ensures i < |ByAge(Filter(files))| && ByAge(Filter(files))[i] == f
  {
    SortedArchive(files);
    i :| 0 <= i < |ByAge(Filter(files))| && ByAge(Filter(files))[i] == f;
  }

  /** A file the first plan kept is among those after its cut. */
  lemma KeptIsAfterCut(files: seq<File>, now: int, cfg: Config, f: File)
    requires DistinctNames(files) && f in files && Recognized(f.name) && f.name !in Plan(files, now, cfg).0
    ensures f in ByAge(Filter(files))[Cut(files, now, cfg)..]
  {
    var s, d := ByAge(Filter(files)), Cut(files, now, cfg);
    var i := PlaceOf(files, f);
    DeletedByPlace(files, now, cfg, i);
    assert s[d..][i - d] == f;
  }

  /** Planning again at the same time over what is left, listed in any order, deletes nothing. */
  lemma RerunDeletesNothing(files: seq<File>, again: seq<File>, now: int, cfg: Config)
    requires DistinctNames(files) && DistinctNames(again)
    requires forall f :: f in again ==> f in files && f.name !in Plan(files, now, cfg).0
    ensures Plan(again, now, cfg).0 == []
  {
    SortedArchive(again);
    CutIff(again, now, cfg);
    DeletesPrefix(again, now, cfg);
    var left, t := ByAge(Filter(files))[Cut(files, now, cfg)..], ByAge(Filter(again));
    forall f | f in t ensures f in left {
      KeptIsAfterCut(files, now, cfg, f);
    }
    DistinctWithin(t, left);
    LeftIsSafe(files, now, cfg);
    assert t != [] ==> t[0] in left;
    assert Cut(again, now, cfg) == 0;
    assert Names(t[..0]) == [];
  }

  /** What is left is no more than the protected copies, or all of it is young enough. */
  lemma LeftIsSafe(files: seq<File>, now: int, cfg: Config)
    requires DistinctNames(files)
    ensures var left := ByAge(Filter(files))[Cut(files, now, cfg)..];
            |left| <= cfg.minCopies || forall f :: f in left ==> f.at >= Cutoff(now, cfg)
  {
    SortedArchive(files);
    OlderIsBoundary(ByAge(Filter(files)), Cutoff(now, cfg));
  }

  ghost predicate StrictlySorted(s: seq<File>) { forall a, b :: 0 <= a < b < |s| ==> s[a].at < s[b].at }

  function Newer(files: seq<File>, at: int): set<File> { set g | g in files && g.at > at }

  /** The files newer than one in a sorted archive without equal times are those after it. */
  lemma {:induction false} NewerAreAfter(s: seq<File>, i: nat)
    requires i < |s| && StrictlySorted(s)
    ensures |Newer(s, s[i].at)| == |s| - 1 - i
    decreases |s| - i
  {
    if i == |s| - 1 {
      assert Newer(s, s[i].at) == {};
    } else {
      NewerAreAfter(s, i + 1);
      NextNewer(s, i);
    }
  }

  lemma NextNewer(s: seq<File>, i: nat)
    requires i + 1 < |s| && StrictlySorted(s)
    ensures Newer(s, s[i].at) == {s[i + 1]} + Newer(s, s[i + 1].at)
  {
  }

  lemma StrictArchive(files: seq<File>)
    requires DistinctNames(files) && forall g, h :: g in files && h in files && g.at == h.at ==> g == h
    ensures StrictlySorted(ByAge(Filter(files)))
  {
    SortedArchive(files);
    var s := ByAge(Filter(files));
    forall a, b | 0 <= a < b < |s| ensures s[a].at < s[b].at {
      assert s[a] in files && s[b] in files && s[a].name != s[b].name;
    }
  }

  lemma NewerInArchive(files: seq<File>, at: int)
    requires DistinctNames(files)
    ensures (set g | g in files && Recognized(g.name) && g.at > at) == Newer(ByAge(Filter(files)), at)
  {
    SortedArchive(files);
  }

  lemma DeletedByAge(files: seq<File>, now: int, cfg: Config, f: File)
    requires DistinctNames(files) && f in files && Recognized(f.name)
    requires forall g, h :: g in files && h in files && g.at == h.at ==> g == h
    ensures f.name in Plan(files, now, cfg).0 <==>
      f.at < Cutoff(now, cfg) && |set g | g in files && Recognized(g.name) && g.at > f.at| >= cfg.minCopies
  {
    var i := PlaceOf(files, f);
    StrictArchive(files);
    NewerAreAfter(ByAge(Filter(files)), i);
    NewerInArchive(files, f.at);
    DeletedByPlace(files, now, cfg, i);
    CutIff(files, now, cfg);
  }

  lemma CutoffIsInDays(now: int, cfg: Config)
    ensures Cutoff(now, cfg) == now - 24 * 60 * 60 * 1_000_000 * (if cfg.retentionDays < 0 then 0 else cfg.retentionDays)
  {
  }

  /**
    File by file, when no two have the same time: deleted exactly when it is more than `retentionDays`
    days old, none if that is negative, and at least `minCopies` newer files are recognised.
   */
  lemma DeletedIff(files: seq<File>, now: int, cfg: Config, f: File)
    requires DistinctNames(files) && f in files && Recognized(f.name)
    requires forall g, h :: g in files && h in files && g.at == h.at ==> g == h
    ensures f.name in Plan(files, now, cfg).0 <==>
      && f.at < now - 24 * 60 * 60 * 1_000_000 * (if cfg.retentionDays < 0 then 0 else cfg.retentionDays)
      && |set g | g in files && Recognized(g.name) && g.at > f.at| >= cfg.minCopies
  {
    CutoffIsInDays(now, cfg);
    DeletedByAge(files, now, cfg, f);
  }

  // ---------------------------------------------------------------- one run, in place

  /** A listing of the directory's recognised files, in whatever order the file system gives. */
  ghost predicate Listing(listing: seq<File>, files: map<string, int>) {
    && DistinctNames(listing)
    && (forall f :: f in listing ==> Recognized(f.name) && f.name in files && files[f.name] == f.at)
    && forall name :: name in files && Recognized(name) ==> File(name, files[name]) in listing
  }

  function Recent(name: string, recent: seq<string>): (r: seq<string>)
    ensures 1 <= |r| <= 20 && r[0] == name && r[1..] <= recent
  {
    if |recent| < 20 then [name] + recent else [name] + recent[..19]
  }

  /** What a run leaves behind: the files with their times, and what the state file says. */
  datatype Contents = Contents(files: map<string, int>, last: Option<string>, recent: seq<string>)

  /** Where a run can stop: at the lock, before or after publishing, after recording, after some deletions, or not at all. */
  datatype Fault = Locked | BeforePublish | BeforeRecord | BeforeRetention | AfterDeletions(k: nat) | NoFault

  function Kept(c: Contents, name: string, at: int): Contents {
    Contents(c.files[name := at], Some(name), Recent(name, c.recent))
  }

  function Each(names: seq<string>): set<string> { set name | name in names }

  function Without(c: Contents, names: seq<string>): Contents { c.(files := c.files - Each(names)) }

  /** The contents after a run that stopped there, given what its retention planned to delete. */
  function After(c: Contents, name: string, at: int, fault: Fault, deleted: seq<string>): Contents {
    match fault
    case Locked => c
    case BeforePublish => c
    case BeforeRecord => c.(files := c.files[name := at])
    case BeforeRetention => Kept(c, name, at)
    case AfterDeletions(k) => Without(Kept(c, name, at), deleted[..Min(k, |deleted|)])
    case NoFault => Without(Kept(c, name, at), deleted)
  }

  class Archive {
    var files: map<string, int>
    var last: Option<string>
    var recent: seq<string>

    constructor ()
      ensures files == map[] && last == None && recent == []
    {
      files, last, recent := map[], None, [];
    }

    ghost function Value(): Contents
      reads this
    {
      Contents(files, last, recent)
    }

    method ListBackupFiles() returns (listing: seq<File>)
      ensures Listing(listing, files)
    {
      listing := [];
      var names := files.Keys;
      while names != {}
        invariant names <= files.Keys && DistinctNames(listing)
        invariant forall f :: f in listing ==>
          Recognized(f.name) && f.name in files && files[f.name] == f.at && f.name !in names
        invariant forall name :: name in files && Recognized(name) ==> name in names || File(name, files[name]) in listing
        decreases |names|
      {
        var name :| name in names;
        if Recognized(name) {
          listing := listing + [File(name, files[name])];
        }
        names := names - {name};
      }
    }

    /** `update_state_backup`. */
    method UpdateState(name: string)
      modifies this`last, this`recent
      ensures last == Some(name) && recent == Recent(name, old(recent))
    {
      last := Some(name);
      recent := if |recent| < 20 then [name] + recent else [name] + recent[..19];
    }

    method Remove(names: seq<string>)
      modifies this`files
      ensures files == old(files) - Each(names)
    {
      for i := 0 to |names|
        invariant files == old(files) - Each(names[..i])
      {
        files := files - {names[i]};
      }
      assert names[..|names|] == names;
    }

    /** `run_backup`; `listing` and `deleted` are what its retention read and planned. */
    method RunBackup(name: string, at: int, now: int, cfg: Config, fault: Fault)
      returns (ok: bool, listing: seq<File>, deleted: seq<string>)
      modifies this
      ensures ok == fault.NoFault?
      ensures Value() == After(old(Value()), name, at, fault, deleted)
      ensures fault.AfterDeletions? || fault.NoFault? ==>
        Listing(listing, old(files)[name := at]) && deleted == Plan(listing, now, cfg).0
    {
      ok, listing, deleted := false, [], [];
      if fault == Locked || fault == BeforePublish {
        return;
      }
      files := files[name := at];
      if fault == BeforeRecord {
        return;
      }
      UpdateState(name);
      if fault == BeforeRetention {
        return;
      }
      listing := ListBackupFiles();
      var kept;
      deleted, kept := RetentionPlan(listing, now, cfg);
      if fault.AfterDeletions? {
        Remove(deleted[..Min(fault.k, |deleted|)]);
        return;
      }
      Remove(deleted);
      ok := true;
    }
  }

  // ---------------------------------------------------------------- runs, crash by crash

  datatype Phase = Idle | Published(name: string) | Recorded(name: string) | Deleting(rest: seq<string>, retention: bool)

  /** The archive between two steps; `clock` is when the newest backup was published. */
  datatype State = State(files: map<string, int>, last: Option<string>, recent: seq<string>, clock: int, phase: Phase)

  datatype Event =
    | Publish(name: string, at: int)
    | Record
    | PlanRetention(listing: seq<File>, now: int)
    | DeleteNext
    | Stop                                    // the run ends, fails or crashes here
    | Prune(listing: seq<File>, now: int)     // the command line, between runs

  ghost predicate Enabled(s: State, e: Event) {
    match e
    case Publish(name, at) => s.phase.Idle? && Recognized(name) && at > s.clock
    case Record => s.phase.Published?
    case PlanRetention(listing, now) => s.phase.Recorded? && Listing(listing, s.files)
    case DeleteNext => s.phase.Deleting? && s.phase.rest != []
    case Stop => true
    case Prune(listing, now) => s.phase.Idle? && Listing(listing, s.files)
  }

  function Step(s: State, cfg: Config, e: Event): State {
    match e
    case Publish(name, at) => s.(files := s.files[name := at], clock := at, phase := Published(name))
    case Record =>
      if s.phase.Published?
      then s.(last := Some(s.phase.name), recent := Recent(s.phase.name, s.recent), phase := Recorded(s.phase.name))
      else s
    case PlanRetention(listing, now) => s.(phase := Deleting(Plan(listing, now, cfg).0, true))
    case DeleteNext =>
      if s.phase.Deleting? && s.phase.rest != []
      then s.(files := s.files - {s.phase.rest[0]}, phase := s.phase.(rest := s.phase.rest[1..]))
      else s
    case Stop => s.(phase := Idle)
    case Prune(listing, now) => s.(phase := Deleting(Plan(listing, now, cfg).0, false))
  }

  function Run(start: int, cfg: Config, events: seq<Event>): State {
    if events == [] then State(map[], None, [], start, Idle)
    else Step(Run(start, cfg, events[..|events| - 1]), cfg, events[|events| - 1])
  }

  ghost predicate Possible(start: int, cfg: Config, events: seq<Event>) {
    events == [] ||
    (Possible(start, cfg, events[..|events| - 1]) && Enabled(Run(start, cfg, events[..|events| - 1]), events[|events| - 1]))
  }

  /** `name` is the newest file of all, published at `clock`. */
  ghost predicate Newest(s: State, name: string) {
    name in s.files && Recognized(name) && forall other :: other in s.files && other != name ==> s.files[other] < s.files[name]
  }

  ghost predicate Inv(s: State) {
    && (forall name :: name in s.files ==> s.files[name] <= s.clock)
    && (forall a, b :: a in s.files && b in s.files && s.files[a] == s.files[b] ==> a == b)
    && (s.last.Some? ==> s.last.value in s.files && Recognized(s.last.value))
    && (s.phase.Published? ==> Newest(s, s.phase.name))
    && (s.phase.Recorded? ==> s.last == Some(s.phase.name) && Newest(s, s.phase.name))
    && (s.phase.Deleting? && s.last.Some? ==> s.last.value !in s.phase.rest)
    && (s.phase.Deleting? && s.phase.retention ==> s.last.Some? && Newest(s, s.last.value))
    && |s.recent| <= 20 && (s.last.None? <==> s.recent == [])
    && (s.last.Some? ==> s.recent[0] == s.last.value)
  }

  /** With at least one protected copy, the newest file is never planned for deletion. */
  lemma NewestIsKept(s: State, name: string, listing: seq<File>, now: int, cfg: Config)
    requires Newest(s, name) && Listing(listing, s.files) && cfg.minCopies >= 1
    ensures name !in Plan(listing, now, cfg).0
  {
    var f := File(name, s.files[name]);
    assert f in listing;
    var i := PlaceOf(listing, f);
    NewestIsLast(listing, f, i);
    CutIff(listing, now, cfg);
    DeletedByPlace(listing, now, cfg, i);
  }

  lemma NewestIsLast(files: seq<File>, f: File, i: nat)
    requires DistinctNames(files) && forall g :: g in files && g != f ==> g.at < f.at
    requires i < |ByAge(Filter(files))| && ByAge(Filter(files))[i] == f
    ensures i == |ByAge(Filter(files))| - 1
  {
    SortedArchive(files);
    var s := ByAge(Filter(files));
    var n := |s| - 1;
    assert s[n] in s && s[i].at <= s[n].at;
    assert s[n] == s[i];
  }

  /**
    A prune that spares the recorded backup: the file is within the retention period, or fewer than
    `minCopies` newer files exist. Both can be seen in the directory before pruning.
   */
  ghost predicate Spares(s: State, cfg: Config, e: Event) {
    e.Prune? && s.last.Some? && s.last.value in s.files ==>
      var at := s.files[s.last.value];
      at >= Cutoff(e.now, cfg) || |Newer(e.listing, at)| < cfg.minCopies
  }

  /** `backup-prune` plans over the directory alone; the condition is exact. */
  lemma PruneSparesLast(s: State, listing: seq<File>, now: int, cfg: Config)
    requires Inv(s) && s.last.Some? && Listing(listing, s.files)
    ensures s.last.value !in Plan(listing, now, cfg).0 <==> Spares(s, cfg, Prune(listing, now))
  {
    var f := File(s.last.value, s.files[s.last.value]);
    DeletedByAge(listing, now, cfg, f);
    assert Newer(listing, f.at) == set g | g in listing && Recognized(g.name) && g.at > f.at;
  }

  lemma PruneKeeps(s: State, cfg: Config, listing: seq<File>, now: int)
    requires Inv(s) && Enabled(s, Prune(listing, now))
    ensures Inv(Step(s, cfg, Prune(listing, now))) <==> Spares(s, cfg, Prune(listing, now))
  {
    if s.last.Some? {
      PruneSparesLast(s, listing, now, cfg);
    }
  }

  lemma DeleteKeeps(s: State, cfg: Config)
    requires Inv(s) && Enabled(s, DeleteNext)
    ensures Inv(Step(s, cfg, DeleteNext))
  {
    var rest := s.phase.rest;
    assert s.last.Some? ==> s.last.value != rest[0] && s.last.value !in rest[1..];
  }

  lemma PublishKeeps(s: State, cfg: Config, name: string, at: int)
    requires Inv(s) && Enabled(s, Publish(name, at))
    ensures Inv(Step(s, cfg, Publish(name, at)))
  {
  }

  lemma PlanKeeps(s: State, cfg: Config, listing: seq<File>, now: int)
    requires Inv(s) && Enabled(s, PlanRetention(listing, now)) && cfg.minCopies >= 1
    ensures Inv(Step(s, cfg, PlanRetention(listing, now)))
  {
    NewestIsKept(s, s.phase.name, listing, now, cfg);
  }

  lemma StepKeeps(s: State, cfg: Config, e: Event)
    requires Inv(s) && Enabled(s, e) && cfg.minCopies >= 1
    ensures Inv(Step(s, cfg, e)) <==> Spares(s, cfg, e)
  {
    match e {
      case Publish(name, at) => PublishKeeps(s, cfg, name, at);
      case PlanRetention(listing, now) => PlanKeeps(s, cfg, listing, now);
      case DeleteNext => DeleteKeeps(s, cfg);
      case Prune(listing, now) => PruneKeeps(s, cfg, listing, now);
      case _ =>
    }
  }

  /** A file disappears only when a plan deletes it, and never the recorded one; retention first has the newest recorded. */
  lemma OnlyDeletionsRemove(s: State, cfg: Config, e: Event, name: string)
    requires Inv(s) && Enabled(s, e) && name in s.files && name !in Step(s, cfg, e).files
    ensures e.DeleteNext? && name == s.phase.rest[0] && s.last != Some(name)
    ensures s.phase.retention ==> s.last.Some? && Newest(s, s.last.value)
  {
    assert e.DeleteNext? ==> s.phase.rest[0] in s.phase.rest;
  }

  ghost predicate SafeThroughout(start: int, cfg: Config, events: seq<Event>) {
    Inv(Run(start, cfg, events)) && (events == [] || SafeThroughout(start, cfg, events[..|events| - 1]))
  }

  ghost predicate PrunesSpare(start: int, cfg: Config, events: seq<Event>) {
    events == [] || (PrunesSpare(start, cfg, events[..|events| - 1])
                     && Spares(Run(start, cfg, events[..|events| - 1]), cfg, events[|events| - 1]))
  }

  /**
    Every run of backups and prunes on a strictly increasing clock, stopped or crashed anywhere: at
    every moment the file in `last_backup` exists, is not about to be deleted and heads the at most
    twenty recent ones, and retention deletes only while the newest published backup is the recorded
    one, if and only if every prune met the condition that spares the recorded backup.
   */
  lemma {:induction false} LastBackupExists(start: int, cfg: Config, events: seq<Event>)
    requires cfg.minCopies >= 1 && Possible(start, cfg, events)
    ensures SafeThroughout(start, cfg, events) <==> PrunesSpare(start, cfg, events)
  {
    if events == [] {
    } else {
      var front := events[..|events| - 1];
      LastBackupExists(start, cfg, front);
      if SafeThroughout(start, cfg, front) {
        StepKeeps(Run(start, cfg, front), cfg, events[|events| - 1]);
      }
    }
  }

  // ---------------------------------------------------------------- the method's runs are these runs

  function Steps(s: State, cfg: Config, events: seq<Event>): State {
    if events == [] then s else Step(Steps(s, cfg, events[..|events| - 1]), cfg, events[|events| - 1])
  }

  ghost predicate AllEnabled(s: State, cfg: Config, events: seq<Event>) {
    events == [] || (AllEnabled(s, cfg, events[..|events| - 1])
                     && Enabled(Steps(s, cfg, events[..|events| - 1]), events[|events| - 1]))
  }

  function Deletions(k: nat): seq<Event> { seq(k, _ => DeleteNext) }

  /** The steps of a run of the method whose retention deletes `n` files. */
  function EventsOf(name: string, at: int, now: int, fault: Fault, listing: seq<File>, n: nat): seq<Event> {
    var planned := [Publish(name, at)] + [Record] + [PlanRetention(listing, now)];
    match fault
    case Locked => []
    case BeforePublish => []
    case BeforeRecord => [Publish(name, at)] + [Stop]
    case BeforeRetention => [Publish(name, at)] + [Record] + [Stop]
    case AfterDeletions(k) => planned + Deletions(Min(k, n)) + [Stop]
    case NoFault => planned + Deletions(n) + [Stop]
  }

  function ContentsOf(s: State): Contents { Contents(s.files, s.last, s.recent) }

  function Deleted(s: State, k: nat): State
    requires s.phase.Deleting? && k <= |s.phase.rest|
  {
    s.(files := s.files - Each(s.phase.rest[..k]), phase := s.phase.(rest := s.phase.rest[k..]))
  }

  lemma DeletedNext(s: State, cfg: Config, k: nat)
    requires s.phase.Deleting? && k < |s.phase.rest|
    ensures Enabled(Deleted(s, k), DeleteNext) && Step(Deleted(s, k), cfg, DeleteNext) == Deleted(s, k + 1)
  {
    assert s.phase.rest[k..][1..] == s.phase.rest[k + 1..];
  }

  lemma {:induction false} DeletionsDelete(s: State, cfg: Config, events: seq<Event>, k: nat)
    requires AllEnabled(s, cfg, events) && Steps(s, cfg, events).phase.Deleting? && k <= |Steps(s, cfg, events).phase.rest|
    ensures AllEnabled(s, cfg, events + Deletions(k))
    ensures Steps(s, cfg, events + Deletions(k)) == Deleted(Steps(s, cfg, events), k)
  {
    var t := Steps(s, cfg, events);
    if k == 0 {
      assert events + Deletions(0) == events && t.phase.rest[0..] == t.phase.rest && Each(t.phase.rest[..0]) == {};
      assert t.files - {} == t.files;
    } else {
      DeletionsDelete(s, cfg, events, k - 1);
      DeletedNext(t, cfg, k - 1);
      assert events + Deletions(k) == events + Deletions(k - 1) + [DeleteNext];
    }
  }

  /** The first two steps of a run. */
  lemma RecordedSteps(s: State, cfg: Config, name: string, at: int)
    requires Enabled(s, Publish(name, at))
    ensures AllEnabled(s, cfg, [Publish(name, at)]) && AllEnabled(s, cfg, [Publish(name, at)] + [Record])
    ensures Steps(s, cfg, [Publish(name, at)]) == s.(files := s.files[name := at], clock := at, phase := Published(name))
    ensures Steps(s, cfg, [Publish(name, at)] + [Record]) ==
      State(s.files[name := at], Some(name), Recent(name, s.recent), at, Recorded(name))
  {
    assert [] + [Publish(name, at)] == [Publish(name, at)];
  }

  /** The steps of a run whose retention deletes `k` of the planned files before it stops. */
  lemma RetentionSteps(s: State, cfg: Config, name: string, at: int, now: int, listing: seq<File>, k: nat)
    requires Enabled(s, Publish(name, at)) && Listing(listing, s.files[name := at]) && k <= |Plan(listing, now, cfg).0|
    ensures var events := [Publish(name, at)] + [Record] + [PlanRetention(listing, now)] + Deletions(k) + [Stop];
            && AllEnabled(s, cfg, events) && Steps(s, cfg, events).phase == Idle
            && ContentsOf(Steps(s, cfg, events)) == Without(Kept(ContentsOf(s), name, at), Plan(listing, now, cfg).0[..k])
  {
    var recorded := [Publish(name, at)] + [Record];
    RecordedSteps(s, cfg, name, at);
    DeletionsDelete(s, cfg, recorded + [PlanRetention(listing, now)], k);
  }

  /** What the method leaves behind, stopped anywhere, is what these steps of the archive leave. */
  lemma RunBackupIsRun(s: State, cfg: Config, name: string, at: int, now: int, fault: Fault, listing: seq<File>, deleted: seq<string>)
    requires Enabled(s, Publish(name, at))
    requires fault.AfterDeletions? || fault.NoFault? ==>
      Listing(listing, s.files[name := at]) && deleted == Plan(listing, now, cfg).0
    ensures var events := EventsOf(name, at, now, fault, listing, |deleted|);
            && AllEnabled(s, cfg, events) && Steps(s, cfg, events).phase == Idle
            && ContentsOf(Steps(s, cfg, events)) == After(ContentsOf(s), name, at, fault, deleted)
  {
    match fault {
      case Locked =>
      case BeforePublish =>
      case BeforeRecord =>
        RecordedSteps(s, cfg, name, at);
      case BeforeRetention =>
        RecordedSteps(s, cfg, name, at);
      case AfterDeletions(k) =>
        RetentionSteps(s, cfg, name, at, now, listing, Min(k, |deleted|));
      case NoFault =>
        RetentionSteps(s, cfg, name, at, now, listing, |deleted|);
        assert deleted[..|deleted|] == deleted;
    }
  }

  // ---------------------------------------------------------------- the gap

  /**
    So after a run that published but stopped before recording, a prune with one protected copy can
    delete the recorded backup: `a` is eight days old when `b` is published and never recorded.
   */
  lemma PruneCanDropLast(a: string, b: string)
    requires Recognized(a) && Recognized(b) && a != b
    ensures var cfg := Config(7, 1);
            var events := [Publish(a, 1), Record, Stop, Publish(b, Days(8)), Stop,
                           Prune([File(a, 1), File(b, Days(8))], Days(8)), DeleteNext];
            && Possible(0, cfg, events)
            && Run(0, cfg, events).last == Some(a)
            && a !in Run(0, cfg, events).files
  {
    var listing := [File(a, 1), File(b, Days(8))];
    CrashedRun(Config(7, 1), a, b);
    PruneOfTwo(File(a, 1), File(b, Days(8)), Days(8), Config(7, 1));
    var before := [Publish(a, 1), Record, Stop, Publish(b, Days(8)), Stop];
    PruneRun(Config(7, 1), a, b, before, listing, Days(8));
    assert before + [Prune(listing, Days(8)), DeleteNext] ==
      [Publish(a, 1), Record, Stop, Publish(b, Days(8)), Stop, Prune(listing, Days(8)), DeleteNext];
  }

  lemma CrashedRun(cfg: Config, a: string, b: string)
    requires Recognized(a) && Recognized(b) && a != b
    ensures var events := [Publish(a, 1), Record, Stop, Publish(b, Days(8)), Stop];
            Possible(0, cfg, events)
            && Run(0, cfg, events) == State(map[a := 1, b := Days(8)], Some(a), [a], Days(8), Idle)
  {
    var three := [Publish(a, 1), Record, Stop];
    RecordedRun(cfg, a, three);
    Extend(0, cfg, three, Publish(b, Days(8)));
    Extend(0, cfg, three + [Publish(b, Days(8))], Stop);
    assert three + [Publish(b, Days(8))] + [Stop] == [Publish(a, 1), Record, Stop, Publish(b, Days(8)), Stop];
  }

  lemma RecordedRun(cfg: Config, a: string, events: seq<Event>)
    requires Recognized(a) && events == [Publish(a, 1), Record, Stop]
    ensures Possible(0, cfg, events) && Run(0, cfg, events) == State(map[a := 1], Some(a), [a], 1, Idle)
  {
    var none: seq<Event> := [];
    Extend(0, cfg, none, Publish(a, 1));
    Extend(0, cfg, none + [Publish(a, 1)], Record);
    Extend(0, cfg, none + [Publish(a, 1)] + [Record], Stop);
    assert none + [Publish(a, 1)] + [Record] + [Stop] == events;
  }

  lemma PruneRun(cfg: Config, a: string, b: string, before: seq<Event>, listing: seq<File>, now: int)
    requires Possible(0, cfg, before) && Run(0, cfg, before).phase == Idle && Run(0, cfg, before).last == Some(a)
    requires Listing(listing, Run(0, cfg, before).files) && Plan(listing, now, cfg).0 == [a]
    ensures var events := before + [Prune(listing, now), DeleteNext];
            Possible(0, cfg, events) && Run(0, cfg, events).last == Some(a) && a !in Run(0, cfg, events).files
  {
    Extend(0, cfg, before, Prune(listing, now));
    Extend(0, cfg, before + [Prune(listing, now)], DeleteNext);
    assert before + [Prune(listing, now)] + [DeleteNext] == before + [Prune(listing, now), DeleteNext];
  }

  lemma Extend(start: int, cfg: Config, events: seq<Event>, e: Event)
    requires Possible(start, cfg, events) && Enabled(Run(start, cfg, events), e)
    ensures Possible(start, cfg, events + [e]) && Run(start, cfg, events + [e]) == Step(Run(start, cfg, events), cfg, e)
  {
  }

  lemma PruneOfTwo(f: File, g: File, now: int, cfg: Config)
    requires Recognized(f.name) && Recognized(g.name) && f.name != g.name && f.at <= g.at
    requires f.at < Cutoff(now, cfg) <= g.at && cfg.minCopies == 1
    ensures Plan([f, g], now, cfg).0 == [f.name]
  {
    PairFilter(f, g);
    PairByAge(f, g);
    DeletesPrefix([f, g], now, cfg);
    CutIff([f, g], now, cfg);
    assert Names([f, g][..1]) == [f.name];
  }

  lemma PairFilter(f: File, g: File)
    requires Recognized(f.name) && Recognized(g.name)
    ensures Filter([f, g]) == [f, g]
  {
    assert [f, g][..1] == [f] && [f][..0] == [];
    assert Filter([f]) == [f];
  }

  lemma PairByAge(f: File, g: File)
    requires f.at <= g.at
    ensures ByAge([f, g]) == [f, g]
  {
    assert [f, g][..1] == [f] && [f][..0] == [];
    assert ByAge([f]) == [f];
  }
}
