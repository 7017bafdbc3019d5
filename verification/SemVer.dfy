/**
  Version comparison of the update channel (backend/app/channel.py) against the precedence of
  Semantic Versioning 2.0.0, section 11.
 */
module SemVer {
  import opened Wrappers
  import opened Decimals

  datatype Error = BadSemver | UnevenLists

  // ---------------------------------------------------------------- orders

  function Sign(n: int): int { if n < 0 then -1 else if n > 0 then 1 else 0 }

  /** A three-way comparison that is antisymmetric, transitive and zero on equal values only. */
  ghost predicate TotalOrder<T(!new)>(cmp: (T, T) -> int) {
    && (forall a, b :: cmp(a, b) in {-1, 0, 1} && cmp(a, b) == -cmp(b, a))
    && (forall a, b :: cmp(a, b) == 0 <==> a == b)
    && (forall a, b, c :: cmp(a, b) <= 0 && cmp(b, c) <= 0 ==> cmp(a, c) <= 0)
  }

  /** Element by element; a proper prefix comes first. */
  function Lex<T>(cmp: (T, T) -> int, a: seq<T>, b: seq<T>): int {
    if a == [] then (if b == [] then 0 else -1)
    else if b == [] then 1
    else if cmp(a[0], b[0]) != 0 then cmp(a[0], b[0])
    else Lex(cmp, a[1..], b[1..])
  }

  lemma {:induction false} LexSign<T(!new)>(cmp: (T, T) -> int, a: seq<T>, b: seq<T>)
    requires TotalOrder(cmp)
    ensures Lex(cmp, a, b) in {-1, 0, 1} && Lex(cmp, a, b) == -Lex(cmp, b, a)
    ensures Lex(cmp, a, b) == 0 <==> a == b
  {
    if a != [] && b != [] {
      LexSign(cmp, a[1..], b[1..]);
      assert a == [a[0]] + a[1..] && b == [b[0]] + b[1..];
      assert cmp(a[0], b[0]) == -cmp(b[0], a[0]);
    }
  }

  lemma {:induction false} LexTransitive<T(!new)>(cmp: (T, T) -> int, a: seq<T>, b: seq<T>, c: seq<T>)
    requires TotalOrder(cmp) && Lex(cmp, a, b) <= 0 && Lex(cmp, b, c) <= 0
    ensures Lex(cmp, a, c) <= 0
  {
    if a != [] && b != [] && c != [] {
      assert cmp(a[0], b[0]) <= 0 && cmp(b[0], c[0]) <= 0;
      assert cmp(a[0], b[0]) == -cmp(b[0], a[0]) && cmp(b[0], c[0]) == -cmp(c[0], b[0]);
      if cmp(a[0], b[0]) == 0 && cmp(b[0], c[0]) == 0 {
        LexTransitive(cmp, a[1..], b[1..], c[1..]);
      }
    }
  }

  lemma LexIsTotalOrder<T(!new)>(cmp: (T, T) -> int)
    requires TotalOrder(cmp)
    ensures TotalOrder((a, b) => Lex(cmp, a, b))
  {
    forall a: seq<T>, b: seq<T>
      ensures Lex(cmp, a, b) in {-1, 0, 1} && Lex(cmp, a, b) == -Lex(cmp, b, a)
      ensures Lex(cmp, a, b) == 0 <==> a == b
    {
      LexSign(cmp, a, b);
    }
    forall a: seq<T>, b: seq<T>, c: seq<T> | Lex(cmp, a, b) <= 0 && Lex(cmp, b, c) <= 0
      ensures Lex(cmp, a, c) <= 0
    {
      LexTransitive(cmp, a, b, c);
    }
  }

  // ---------------------------------------------------------------- the reference precedence

  datatype Version = Version(core: seq<int>, pre: seq<string>)

  function CompareNumbers(a: int, b: int): int { Sign(a - b) }

  function CompareChars(a: char, b: char): int { Sign(a as int - b as int) }

  /** Numeric identifiers by value, below all others; the others by code point. */
  function CompareIdentifiers(a: string, b: string): int {
    if Canonical(a) && Canonical(b) then Sign(Value(a) - Value(b))
    else if Canonical(a) then -1
    else if Canonical(b) then 1
    else Lex(CompareChars, a, b)
  }

  /** A release comes after all its prereleases. */
  function ComparePrereleases(a: seq<string>, b: seq<string>): int {
    if a == [] || b == [] then Sign(|b|) - Sign(|a|) else Lex(CompareIdentifiers, a, b)
  }

  function Precedence(a: Version, b: Version): int {
    var core := Lex(CompareNumbers, a.core, b.core);
    if core != 0 then core else ComparePrereleases(a.pre, b.pre)
  }

  lemma IdentifiersAreOrdered()
    ensures TotalOrder(CompareIdentifiers)
  {
    LexIsTotalOrder(CompareChars);
    var text := (a: string, b: string) => Lex(CompareChars, a, b);
    assert TotalOrder(text);
    forall a: string, b: string
      ensures CompareIdentifiers(a, b) in {-1, 0, 1} && CompareIdentifiers(a, b) == -CompareIdentifiers(b, a)
      ensures CompareIdentifiers(a, b) == 0 <==> a == b
    {
      assert text(a, b) == -text(b, a) && (text(a, b) == 0 <==> a == b);
      if Canonical(a) && Canonical(b) && Value(a) == Value(b) {
        CanonicalUnique(a, b);
      }
    }
    forall a: string, b: string, c: string | CompareIdentifiers(a, b) <= 0 && CompareIdentifiers(b, c) <= 0
      ensures CompareIdentifiers(a, c) <= 0
    {
      assert text(a, b) <= 0 && text(b, c) <= 0 ==> text(a, c) <= 0;
    }
  }

  /** The reference precedence is a total order on (core, prerelease) pairs. */
  lemma PrecedenceIsTotalOrder()
    ensures TotalOrder(Precedence)
  {
    IdentifiersAreOrdered();
    LexIsTotalOrder(CompareIdentifiers);
    LexIsTotalOrder(CompareNumbers);
    var core := (a: seq<int>, b: seq<int>) => Lex(CompareNumbers, a, b);
    var pre := (a: seq<string>, b: seq<string>) => Lex(CompareIdentifiers, a, b);
    assert TotalOrder(core) && TotalOrder(pre);
    forall a: Version, b: Version
      ensures Precedence(a, b) in {-1, 0, 1} && Precedence(a, b) == -Precedence(b, a)
      ensures Precedence(a, b) == 0 <==> a == b
    {
      assert core(a.core, b.core) == -core(b.core, a.core) && (core(a.core, b.core) == 0 <==> a.core == b.core);
      assert pre(a.pre, b.pre) == -pre(b.pre, a.pre) && (pre(a.pre, b.pre) == 0 <==> a.pre == b.pre);
    }
    forall a: Version, b: Version, c: Version | Precedence(a, b) <= 0 && Precedence(b, c) <= 0
      ensures Precedence(a, c) <= 0
    {
      assert core(a.core, b.core) <= 0 && core(b.core, c.core) <= 0 ==> core(a.core, c.core) <= 0;
      assert core(a.core, b.core) == -core(b.core, a.core);
      assert core(c.core, b.core) == -core(b.core, c.core);
      assert pre(a.pre, b.pre) <= 0 && pre(b.pre, c.pre) <= 0 ==> pre(a.pre, c.pre) <= 0;
    }
  }

  /** Comes first: the first difference decides, and a proper prefix precedes. */
  ghost predicate Before<T>(less: (T, T) -> bool, a: seq<T>, b: seq<T>) {
    exists k :: DecidesAt(less, a, b, k)
  }

  ghost predicate DecidesAt<T>(less: (T, T) -> bool, a: seq<T>, b: seq<T>, k: int) {
    && 0 <= k <= |a| && k < |b| && a[..k] == b[..k] && (k < |a| ==> less(a[k], b[k]))
  }

  lemma DecidesLater<T>(less: (T, T) -> bool, a: seq<T>, b: seq<T>, k: int)
    requires a != [] && b != [] && a[0] == b[0]
    ensures k > 0 ==> (DecidesAt(less, a, b, k) <==> DecidesAt(less, a[1..], b[1..], k - 1))
  {
    if 0 < k <= |a| && k <= |b| {
      assert a[..k] == [a[0]] + a[1..][..k - 1] && b[..k] == [b[0]] + b[1..][..k - 1];
      assert a[..k][1..] == a[1..][..k - 1] && b[..k][1..] == b[1..][..k - 1];
    }
  }

  lemma {:induction false} LexIsBefore<T(!new)>(cmp: (T, T) -> int, less: (T, T) -> bool, a: seq<T>, b: seq<T>)
    requires TotalOrder(cmp) && forall x, y :: less(x, y) <==> cmp(x, y) < 0
    ensures Lex(cmp, a, b) < 0 <==> Before(less, a, b)
  {
    if b == [] {
    } else if a == [] {
      assert DecidesAt(less, a, b, 0);
    } else {
      assert cmp(a[0], b[0]) == 0 <==> a[0] == b[0];
      if a[0] == b[0] {
        LexIsBefore(cmp, less, a[1..], b[1..]);
        forall k: int {
          DecidesLater(less, a, b, k);
        }
        if Before(less, a[1..], b[1..]) {
          var k :| DecidesAt(less, a[1..], b[1..], k);
          assert DecidesAt(less, a, b, k + 1);
        }
      } else if less(a[0], b[0]) {
        assert DecidesAt(less, a, b, 0);
      } else {
        assert forall k :: 0 < k <= |a| && k < |b| ==> a[..k][0] == a[0] && b[..k][0] == b[0];
      }
    }
  }

  /** A number: digits, and no superfluous zero. */
  ghost predicate Numeric(s: string) {
    s != "" && (forall i :: 0 <= i < |s| ==> '0' <= s[i] <= '9') && !(|s| > 1 && s[0] == '0')
  }

  /** Section 11.4: numbers by value and below everything else, other identifiers by their characters. */
  ghost predicate IdentifierLess(a: string, b: string) {
    if Numeric(a) && Numeric(b) then Value(a) < Value(b)
    else if Numeric(a) || Numeric(b) then Numeric(a)
    else Before((x: char, y: char) => x < y, a, b)
  }

  lemma NumericIsCanonical(s: string)
    ensures Numeric(s) <==> Canonical(s)
  {
  }

  lemma IdentifiersCompare(a: string, b: string)
    ensures CompareIdentifiers(a, b) < 0 <==> IdentifierLess(a, b)
  {
    NumericIsCanonical(a);
    NumericIsCanonical(b);
    LexIsBefore(CompareChars, (x: char, y: char) => x < y, a, b);
  }

  /**
    Which version comes first: the lower major, minor and patch, then a prerelease before its release,
    then the first identifier that differs, and a shorter list before its continuation.
   */
  lemma PrecedenceMeans(a: Version, b: Version)
    ensures Precedence(a, b) < 0 <==>
      || Before((m: int, n: int) => m < n, a.core, b.core)
      || (a.core == b.core && a.pre != [] && (b.pre == [] || Before(IdentifierLess, a.pre, b.pre)))
  {
    IdentifiersAreOrdered();
    assert TotalOrder(CompareNumbers);
    LexSign(CompareNumbers, a.core, b.core);
    LexIsBefore(CompareNumbers, (m: int, n: int) => m < n, a.core, b.core);
    forall x: string, y: string ensures IdentifierLess(x, y) <==> CompareIdentifiers(x, y) < 0 {
      IdentifiersCompare(x, y);
    }
    LexIsBefore(CompareIdentifiers, IdentifierLess, a.pre, b.pre);
  }

  // ---------------------------------------------------------------- the text of a version

  /** `str.partition`: what precedes the first separator, and what follows it if there is one. */
  function Partition(s: string, separator: char): (string, Option<string>) {
    if s == "" then ("", None)
    else if s[0] == separator then ("", Some(s[1..]))
    else
      var (head, tail) := Partition(s[1..], separator);
      ([s[0]] + head, tail)
  }

  /** `str.split`: never empty. */
  function Split(s: string, separator: char): (parts: seq<string>)
    ensures parts != []
    decreases |s|
  {
    if s == "" then [""]
    else
      var rest := Split(s[1..], separator);
      if s[0] == separator then [""] + rest else [[s[0]] + rest[0]] + rest[1..]
  }

  /** The pattern's `$` also matches before one final line break, and `int` ignores it. */
  function Chomp(s: string): string {
    if s != "" && s[|s| - 1] == '\n' then s[..|s| - 1] else s
  }

  predicate IdentifierChar(c: char) {
    '0' <= c <= '9' || 'A' <= c <= 'Z' || 'a' <= c <= 'z' || c == '-'
  }

  predicate Identifiers(s: string) {
    forall part :: part in Split(s, '.') ==> part != "" && forall i :: 0 <= i < |part| ==> IdentifierChar(part[i])
  }

  predicate Core(s: string) {
    var parts := Split(s, '.');
    |parts| == 3 && forall i :: 0 <= i < 3 ==> parts[i] != "" && AllDigits(parts[i])
  }

  /** SEMVER_RE: three numbers, then optional prerelease and build identifiers. */
  predicate IsSemver(s: string) {
    var (version, build) := Partition(Chomp(s), '+');
    var (core, pre) := Partition(version, '-');
    && Core(core)
    && (pre.Some? ==> Identifiers(pre.value))
    && (build.Some? ==> Identifiers(build.value))
  }

  function Number(part: string): nat {
    var digits := Chomp(part);
    if AllDigits(digits) then Value(digits) else 0
  }

  function Numbers(parts: seq<string>): seq<int> { seq(|parts|, i requires 0 <= i < |parts| => Number(parts[i])) }

  /** `_split_identifiers`. */
  function SplitIdentifiers(s: string): Option<seq<string>> {
    if s == "" then Some([])
    else if "" in Split(s, '.') then None
    else Some(Split(s, '.'))
  }

  /** The core numbers and the raw prerelease text, build metadata dropped. */
  function Parts(s: string): (seq<int>, string) {
    var (core, pre) := Partition(Partition(s, '+').0, '-');
    (Numbers(Split(core, '.')), if pre.Some? then pre.value else "")
  }

  // ---------------------------------------------------------------- the comparison

  /** The loop over `zip(left, right, strict=True)`: it raises when one list runs out first. */
  function CompareZipped(left: seq<string>, right: seq<string>): Result<int, Error> {
    if left == [] && right == [] then Success(0)
    else if left == [] || right == [] then Failure(UnevenLists)
    else
      var a, b := left[0], right[0];
      if a == b then CompareZipped(left[1..], right[1..])
      else if Canonical(a) && Canonical(b) then Success(if Value(a) < Value(b) then -1 else 1)
      else if Canonical(a) != Canonical(b) then Success(if Canonical(a) then -1 else 1)
      else Success(if Lex(CompareChars, a, b) < 0 then -1 else 1)
  }

  /** `_compare_prerelease`. */
  function ComparePrerelease(left: seq<string>, right: seq<string>): Result<int, Error> {
    if left == [] && right == [] then Success(0)
    else if left == [] then Success(1)
    else if right == [] then Success(-1)
    else CompareZipped(left, right)
  }

  /** The comparison of two parsed versions. */
  function CompareParsed(l: Version, r: Version): Result<int, Error> {
    if l.core != r.core then Success(if Lex(CompareNumbers, l.core, r.core) < 0 then -1 else 1)
    else ComparePrerelease(l.pre, r.pre)
  }

  /** `compare_semver`. */
  function CompareSemver(left: string, right: string): Result<int, Error> {
    if !IsSemver(left) || !IsSemver(right) then Failure(BadSemver)
    else
      var (lCore, lPre) := Parts(left);
      var (rCore, rPre) := Parts(right);
      match (SplitIdentifiers(lPre), SplitIdentifiers(rPre))
      case (Some(l), Some(r)) => CompareParsed(Version(lCore, l), Version(rCore, r))
      case _ =>
        // the cores are compared before the identifiers are split
        if lCore != rCore then CompareParsed(Version(lCore, []), Version(rCore, [])) else Failure(BadSemver)
  }

  /** The version a valid text denotes. */
  function Denoted(s: string): Version {
    var (core, pre) := Parts(s);
    Version(core, match SplitIdentifiers(pre) case Some(ids) => ids case None => [])
  }

  // ---------------------------------------------------------------- correctness

  lemma {:induction false} PartitionOfChomp(s: string, separator: char)
    requires separator != '\n'
    ensures Partition(Chomp(s), separator) ==
      var (head, tail) := Partition(s, separator);
      if tail.Some? then (head, Some(Chomp(tail.value))) else (Chomp(head), None)
  {
    if s != "" && s[0] != separator {
      PartitionOfChomp(s[1..], separator);
      if |s| > 1 {
        assert Chomp(s)[1..] == Chomp(s[1..]);
        var (head, tail) := Partition(s[1..], separator);
        if tail.None? {
          PartitionWhole(s[1..], separator);
          assert Chomp([s[0]] + head) == [s[0]] + Chomp(head);
        }
      } else {
        assert s[1..] == "";
      }
    } else if s != "" {
      assert |s| > 1 ==> Chomp(s)[1..] == Chomp(s[1..]);
      assert |s| == 1 ==> s[1..] == "";
    }
  }

  lemma {:induction false} PartitionWhole(s: string, separator: char)
    ensures Partition(s, separator).1.None? ==> Partition(s, separator).0 == s
  {
    if s != "" && s[0] != separator {
      PartitionWhole(s[1..], separator);
      assert s == [s[0]] + s[1..];
    }
  }

  lemma ChompTail(s: string)
    requires |s| > 1
    ensures Chomp(s)[..1] == s[..1] && Chomp(s)[1..] == Chomp(s[1..])
  {
  }

  lemma {:induction false} EmptyPartOfChomp(s: string)
    requires "" in Split(s, '.')
    ensures "" in Split(Chomp(s), '.')
  {
    if s == "" {
    } else if |s| == 1 {
      assert s[1..] == "";
    } else {
      ChompTail(s);
      if s[0] != '.' {
        EmptyTailPartOfChomp(s[1..]);
      }
    }
  }

  lemma {:induction false} EmptyTailPartOfChomp(s: string)
    requires "" in Split(s, '.')[1..]
    ensures "" in Split(Chomp(s), '.')[1..]
  {
    if s != "" {
      var rest := Split(s[1..], '.');
      if |s| > 1 {
        ChompTail(s);
      }
      if s[0] == '.' {
        assert Split(s, '.')[1..] == rest;
        if |s| > 1 {
          EmptyPartOfChomp(s[1..]);
          assert Split(Chomp(s), '.')[1..] == Split(Chomp(s[1..]), '.');
        }
      } else {
        assert Split(s, '.')[1..] == rest[1..];
        EmptyTailPartOfChomp(s[1..]);
        assert |s| > 1;
        assert Split(Chomp(s), '.')[1..] == Split(Chomp(s[1..]), '.')[1..];
      }
    }
  }

  /** A text that matches the pattern always has well-formed prerelease identifiers. */
  lemma SemverHasIdentifiers(s: string)
    requires IsSemver(s)
    ensures SplitIdentifiers(Parts(s).1).Some?
  {
    PartitionOfChomp(s, '+');
    var (version, build) := Partition(s, '+');
    PartitionOfChomp(version, '-');
    var (core, pre) := Partition(version, '-');
    if pre.Some? && "" in Split(pre.value, '.') {
      EmptyPartOfChomp(pre.value);
    }
  }

  ghost predicate ProperPrefix(a: seq<string>, b: seq<string>) {
    |a| < |b| && b[..|a|] == a
  }

  lemma {:induction false} ZippedIsLex(left: seq<string>, right: seq<string>)
    ensures CompareZipped(left, right) ==
      if ProperPrefix(left, right) || ProperPrefix(right, left) then Failure(UnevenLists)
      else Success(Lex(CompareIdentifiers, left, right))
  {
    if left != [] && right != [] {
      var a, b := left[0], right[0];
      IdentifiersAreOrdered();
      assert CompareIdentifiers(a, b) == 0 <==> a == b;
      if a == b {
        ZippedIsLex(left[1..], right[1..]);
      } else {
        LexIsTotalOrder(CompareChars);
        var text := (a: string, b: string) => Lex(CompareChars, a, b);
        assert text(a, b) in {-1, 0, 1} && (text(a, b) == 0 <==> a == b);
        if Canonical(a) && Canonical(b) && Value(a) == Value(b) {
          CanonicalUnique(a, b);
        }
      }
    }
  }

  /**
    `compare_semver` on all pairs of texts: it rejects what the pattern rejects; it raises exactly
    when the cores agree and one non-empty prerelease list is a proper prefix of the other; and
    wherever it returns, it returns the precedence of the two versions.
   */
  lemma CompareIsPrecedence(left: string, right: string)
    ensures
      var l, r := Denoted(left), Denoted(right);
      CompareSemver(left, right) ==
      if !IsSemver(left) || !IsSemver(right) then Failure(BadSemver)
      else if Uneven(l, r) then Failure(UnevenLists)
      else Success(Precedence(l, r))
  {
    if IsSemver(left) && IsSemver(right) {
      SemverHasIdentifiers(left);
      SemverHasIdentifiers(right);
      ParsedIsPrecedence(Denoted(left), Denoted(right));
    }
  }

  lemma ParsedIsPrecedence(l: Version, r: Version)
    ensures CompareParsed(l, r) == if Uneven(l, r) then Failure(UnevenLists) else Success(Precedence(l, r))
  {
    assert TotalOrder(CompareNumbers);
    LexSign(CompareNumbers, l.core, r.core);
    ZippedIsLex(l.pre, r.pre);
  }

  /** Equal cores, and one non-empty prerelease list continues the other. */
  ghost predicate Uneven(l: Version, r: Version) {
    && l.core == r.core && l.pre != [] && r.pre != []
    && (ProperPrefix(l.pre, r.pre) || ProperPrefix(r.pre, l.pre))
  }

  /**
    Hence, wherever it returns, the comparison is sign-antisymmetric, transitive, and zero exactly
    for texts that denote the same core and the same prerelease identifiers.
   */
  lemma CompareIsTotalPreorder(a: string, b: string, c: string)
    requires CompareSemver(a, b).Success?
    ensures CompareSemver(b, a) == Success(-CompareSemver(a, b).value)
    ensures CompareSemver(a, b).value == 0 <==> Denoted(a) == Denoted(b)
    ensures CompareSemver(b, c).Success? && CompareSemver(a, c).Success?
            && CompareSemver(a, b).value <= 0 && CompareSemver(b, c).value <= 0
            ==> CompareSemver(a, c).value <= 0
  {
    CompareIsPrecedence(a, b);
    CompareIsPrecedence(b, a);
    CompareIsPrecedence(b, c);
    CompareIsPrecedence(a, c);
    PrecedenceLaws(Denoted(a), Denoted(b), Denoted(c));
  }

  lemma PrecedenceLaws(a: Version, b: Version, c: Version)
    ensures Precedence(a, b) == -Precedence(b, a)
    ensures Precedence(a, b) == 0 <==> a == b
    ensures Precedence(a, b) <= 0 && Precedence(b, c) <= 0 ==> Precedence(a, c) <= 0
  {
    PrecedenceIsTotalOrder();
  }

  // ---------------------------------------------------------------- the gap

  lemma {:induction false} PartitionAt(head: string, tail: string, separator: char)
    requires separator !in head
    ensures Partition(head + [separator] + tail, separator) == (head, Some(tail))
    ensures Partition(head, separator) == (head, None)
  {
    if head != "" {
      assert (head + [separator] + tail)[1..] == head[1..] + [separator] + tail;
      PartitionAt(head[1..], tail, separator);
      assert head == [head[0]] + head[1..];
    } else {
      assert ([separator] + tail)[1..] == tail;
    }
  }

  lemma {:induction false} SplitAt(head: string, tail: string, separator: char)
    requires separator !in head
    ensures Split(head + [separator] + tail, separator) == [head] + Split(tail, separator)
    ensures Split(head, separator) == [head]
  {
    if head != "" {
      assert (head + [separator] + tail)[1..] == head[1..] + [separator] + tail;
      SplitAt(head[1..], tail, separator);
      assert head == [head[0]] + head[1..];
    } else {
      assert ([separator] + tail)[1..] == tail;
    }
  }

  /** Splitting a joined text splits the two sides. */
  lemma {:induction false} SplitJoin(a: string, b: string, separator: char)
    ensures Split(a + [separator] + b, separator) == Split(a, separator) + Split(b, separator)
  {
    if a == "" {
      assert ([separator] + b)[1..] == b && a + [separator] + b == [separator] + b;
    } else {
      assert (a + [separator] + b)[1..] == a[1..] + [separator] + b;
      SplitJoin(a[1..], b, separator);
    }
  }

  /** Splitting loses nothing but the separators. */
  lemma {:induction false} CharIsInPart(s: string, c: char, separator: char) returns (part: string)
    requires c in s && c != separator
    ensures part in Split(s, separator) && c in part
  {
    var rest := Split(s[1..], separator);
    if s[0] == c {
      part := [s[0]] + rest[0];
    } else {
      part := CharIsInPart(s[1..], c, separator);
      if s[0] != separator && part == rest[0] {
        part := [s[0]] + rest[0];
        assert Split(s, separator)[0] == part;
      } else {
        assert s[0] != separator ==> part in rest[1..];
      }
    }
  }

  lemma IdentifiersAreVerbatim(s: string)
    requires Identifiers(s)
    ensures s != "" && '+' !in s && '\n' !in s
  {
    assert s != "" by {
      assert Split("", '.') == [""] && "" in Split("", '.');
    }
    if '+' in s {
      var part := CharIsInPart(s, '+', '.');
    }
    if '\n' in s {
      var part := CharIsInPart(s, '\n', '.');
    }
  }

  lemma CoreIsVerbatim(s: string)
    requires Core(s)
    ensures '+' !in s && '-' !in s
  {
    if '+' in s {
      var part := CharIsInPart(s, '+', '.');
    }
    if '-' in s {
      var part := CharIsInPart(s, '-', '.');
    }
  }

  lemma PrereleaseText(core: string, pre: string)
    requires Core(core) && Identifiers(pre)
    ensures var s := core + ['-'] + pre;
      IsSemver(s) && Denoted(s) == Version(Numbers(Split(core, '.')), Split(pre, '.'))
  {
    var s := core + ['-'] + pre;
    IdentifiersAreVerbatim(pre);
    CoreIsVerbatim(core);
    assert Chomp(s) == s by {
      assert s[|s| - 1] == pre[|pre| - 1];
    }
    assert '+' !in s;
    PartitionAt(s, "", '+');
    PartitionAt(core, pre, '-');
  }

  /** Build metadata does not change the version a text denotes, which is all a comparison depends on. */
  lemma BuildIsIgnored(s: string, build: string)
    requires '+' !in s
    ensures Denoted(s + ['+'] + build) == Denoted(s)
  {
    PartitionAt(s, build, '+');
  }

  // ---------------------------------------------------------------- which texts are versions

  ghost predicate Numeral(s: string) { s != "" && forall i :: 0 <= i < |s| ==> '0' <= s[i] <= '9' }

  /** Identifiers with single dots between them: none first, none last, no two in a row. */
  ghost predicate Dotted(s: string) {
    && s != "" && s[0] != '.' && Spaced(s)
    && forall i :: 0 <= i < |s| ==>
         s[i] == '.' || '0' <= s[i] <= '9' || 'A' <= s[i] <= 'Z' || 'a' <= s[i] <= 'z' || s[i] == '-'
  }

  ghost predicate Spaced(s: string) {
    (s != "" ==> s[|s| - 1] != '.') && forall i :: 0 < i < |s| ==> s[i - 1] != '.' || s[i] != '.'
  }

  lemma SpacedTail(s: string)
    requires s != ""
    ensures Spaced(s) <==> Spaced(s[1..]) && if s[0] == '.' then |s| > 1 && s[1] != '.' else true
  {
    if |s| > 1 {
      assert forall i :: 0 < i < |s| - 1 ==> s[1..][i] == s[i + 1] && s[1..][i - 1] == s[i];
      assert s[1..][0] == s[1] && s[1..][|s| - 2] == s[|s| - 1];
      if Spaced(s) {
        assert s[1 - 1] != '.' || s[1] != '.';
      }
      if Spaced(s[1..]) {
        forall i | 1 < i < |s| ensures s[i - 1] != '.' || s[i] != '.' {
          assert s[1..][i - 2] == s[i - 1] && s[1..][i - 1] == s[i];
        }
      }
    }
  }

  lemma {:induction false} PartsAreFilled(s: string)
    ensures Split(s, '.')[0] == "" <==> s == "" || s[0] == '.'
    ensures "" !in Split(s, '.')[1..] <==> Spaced(s)
  {
    if s != "" {
      PartsAreFilled(s[1..]);
      SpacedTail(s);
      var rest := Split(s[1..], '.');
      assert rest == [rest[0]] + rest[1..];
      if s[0] == '.' {
        assert Split(s, '.')[1..] == rest;
      } else {
        assert Split(s, '.')[1..] == rest[1..];
      }
    }
  }

  /** Splitting adds nothing. */
  lemma {:induction false} PartCharIsIn(s: string, part: string, i: nat)
    requires part in Split(s, '.') && i < |part|
    ensures part[i] in s && part[i] != '.'
  {
    if s != "" {
      var rest := Split(s[1..], '.');
      if part in rest {
        PartCharIsIn(s[1..], part, i);
      } else if s[0] != '.' && i > 0 {
        assert part == [s[0]] + rest[0];
        PartCharIsIn(s[1..], rest[0], i - 1);
      }
    }
  }

  lemma IdentifiersAreDotted(s: string)
    ensures Identifiers(s) <==> Dotted(s)
  {
    var parts := Split(s, '.');
    PartsAreFilled(s);
    assert parts == [parts[0]] + parts[1..];
    if Identifiers(s) {
      forall i | 0 <= i < |s| && s[i] != '.' ensures IdentifierChar(s[i]) {
        var part := CharIsInPart(s, s[i], '.');
        var k :| 0 <= k < |part| && part[k] == s[i];
      }
    }
    if Dotted(s) {
      forall part, i | part in parts && 0 <= i < |part| ensures IdentifierChar(part[i]) {
        PartCharIsIn(s, part, i);
      }
    }
  }

  ghost function Glue(parts: seq<string>, separator: char): string
    requires parts != []
  {
    if |parts| == 1 then parts[0] else parts[0] + [separator] + Glue(parts[1..], separator)
  }

  lemma {:induction false} SplitGlues(s: string, separator: char)
    ensures Glue(Split(s, separator), separator) == s
  {
    if s != "" {
      var rest := Split(s[1..], separator);
      SplitGlues(s[1..], separator);
      assert s == [s[0]] + s[1..];
      if s[0] == separator {
        assert ([""] + rest)[1..] == rest;
      } else {
        assert ([[s[0]] + rest[0]] + rest[1..])[1..] == rest[1..];
      }
    }
  }

  lemma CoreIsThreeNumerals(s: string) returns (a: string, b: string, c: string)
    requires Core(s)
    ensures Numeral(a) && Numeral(b) && Numeral(c) && s == a + "." + b + "." + c
  {
    var parts := Split(s, '.');
    SplitGlues(s, '.');
    a, b, c := parts[0], parts[1], parts[2];
    assert parts[1..][1..] == [c] && parts[1..][0] == b;
    assert Glue(parts[1..], '.') == b + ['.'] + c;
    assert s == a + ['.'] + (b + ['.'] + c);
  }

  lemma ThreeNumeralsAreCore(a: string, b: string, c: string)
    requires Numeral(a) && Numeral(b) && Numeral(c)
    ensures var s := a + "." + b + "." + c; Core(s) && Split(s, '.') == [a, b, c]
  {
    SplitAt(a, b + ['.'] + c, '.');
    SplitAt(b, c, '.');
    SplitAt(c, "", '.');
    assert a + "." + b + "." + c == a + ['.'] + (b + ['.'] + c);
  }

  lemma {:induction false} PartitionJoins(s: string, separator: char)
    ensures var (head, tail) := Partition(s, separator);
            separator !in head && s == head + if tail.Some? then [separator] + tail.value else ""
  {
    if s != "" {
      assert s == [s[0]] + s[1..];
      if s[0] != separator {
        PartitionJoins(s[1..], separator);
      }
    }
  }

  function After(separator: char, text: Option<string>): string {
    if text.Some? then [separator] + text.value else ""
  }

  /** Three numbers with dots, a prerelease after a hyphen if there is one, and build metadata after a plus if there is any. */
  ghost predicate Spells(s: string, a: string, b: string, c: string, pre: Option<string>, build: Option<string>) {
    && Numeral(a) && Numeral(b) && Numeral(c) && (pre.Some? ==> Dotted(pre.value)) && (build.Some? ==> Dotted(build.value))
    && s == (a + "." + b + "." + c) + After('-', pre) + After('+', build)
  }

  /** Every text that is accepted is spelled so, but for one line break at its end. */
  lemma SemverIsSpelled(s: string) returns (a: string, b: string, c: string, pre: Option<string>, build: Option<string>)
    requires IsSemver(s)
    ensures Spells(s, a, b, c, pre, build) || (s != "" && s[|s| - 1] == '\n' && Spells(s[..|s| - 1], a, b, c, pre, build))
  {
    var (version, meta) := Partition(Chomp(s), '+');
    var (core, tag) := Partition(version, '-');
    PartitionJoins(Chomp(s), '+');
    PartitionJoins(version, '-');
    a, b, c := CoreIsThreeNumerals(core);
    pre, build := tag, meta;
    if pre.Some? {
      IdentifiersAreDotted(pre.value);
    }
    if build.Some? {
      IdentifiersAreDotted(build.value);
    }
    assert Spells(Chomp(s), a, b, c, pre, build);
  }

  lemma NumeralsRead(a: string, b: string, c: string)
    requires Numeral(a) && Numeral(b) && Numeral(c)
    ensures Numbers([a, b, c]) == [Value(a), Value(b), Value(c)]
  {
    assert AllDigits(a) && AllDigits(b) && AllDigits(c);
    assert Chomp(a) == a && Chomp(b) == b && Chomp(c) == c;
  }

  lemma PartitionAfter(head: string, separator: char, tail: Option<string>)
    requires separator !in head
    ensures Partition(head + After(separator, tail), separator) == (head, tail)
  {
    if tail.Some? {
      PartitionAt(head, tail.value, separator);
      assert head + After(separator, tail) == head + [separator] + tail.value;
    } else {
      PartitionAt(head, "", separator);
      assert head + After(separator, tail) == head;
    }
  }

  /** A text that neither holds a plus nor ends its line. */
  ghost predicate Verbatim(s: string) { s != "" && '+' !in s && s[|s| - 1] != '\n' }

  lemma VersionIsVerbatim(core: string, pre: Option<string>)
    requires Core(core) && (pre.Some? ==> Identifiers(pre.value))
    ensures Verbatim(core + After('-', pre))
  {
    CoreIsVerbatim(core);
    PartsOfCoreEnd(core);
    if pre.Some? {
      IdentifiersAreVerbatim(pre.value);
      assert pre.value[|pre.value| - 1] in pre.value;
    }
  }

  lemma ChompAfter(version: string, build: Option<string>)
    requires Verbatim(version) && (build.Some? ==> Identifiers(build.value))
    ensures var s := version + After('+', build); Chomp(s) == s && Chomp(s + "\n") == s
  {
    if build.Some? {
      IdentifiersAreVerbatim(build.value);
      assert build.value[|build.value| - 1] in build.value;
    }
    var s := version + After('+', build);
    assert s[|s| - 1] != '\n';
    assert (s + "\n")[..|s|] == s;
  }

  lemma PartsOfCoreEnd(core: string)
    requires Core(core)
    ensures core != "" && core[|core| - 1] != '\n'
  {
    var a, b, c := CoreIsThreeNumerals(core);
    assert core[|core| - 1] == c[|c| - 1];
  }

  /** And every text spelled so is accepted, with or without the line break, and denotes what it spells. */
  lemma SpelledIsSemver(s: string, a: string, b: string, c: string, pre: Option<string>, build: Option<string>)
    requires Spells(s, a, b, c, pre, build)
    ensures IsSemver(s) && IsSemver(s + "\n")
    ensures Denoted(s) == Version([Value(a), Value(b), Value(c)], if pre.Some? then Split(pre.value, '.') else [])
  {
    var core := a + "." + b + "." + c;
    var version := core + After('-', pre);
    ThreeNumeralsAreCore(a, b, c);
    if pre.Some? {
      IdentifiersAreDotted(pre.value);
    }
    if build.Some? {
      IdentifiersAreDotted(build.value);
    }
    CoreIsVerbatim(core);
    VersionIsVerbatim(core, pre);
    PartitionAfter(core, '-', pre);
    PartitionAfter(version, '+', build);
    ChompAfter(version, build);
    NumeralsRead(a, b, c);
    FilledDenotes(s, core, pre);
  }

  lemma FilledDenotes(s: string, core: string, pre: Option<string>)
    requires Partition(Partition(s, '+').0, '-') == (core, pre) && (pre.Some? ==> Identifiers(pre.value))
    ensures Denoted(s) == Version(Numbers(Split(core, '.')), if pre.Some? then Split(pre.value, '.') else [])
  {
    if pre.Some? {
      IdentifiersAreVerbatim(pre.value);
    }
  }

  /** The code raises on two texts that section 11.4.4 puts in this order. */
  ghost predicate RaisesThoughOrdered(shorter: string, longer: string) {
    && CompareSemver(shorter, longer) == Failure(UnevenLists)
    && Precedence(Denoted(shorter), Denoted(longer)) == -1
  }

  /**
    The family on which the code departs from section 11.4.4: continuing a prerelease by any further
    fields makes the longer version the later one, but the comparison raises.
   */
  lemma ContinuedPrereleaseRaises(core: string, pre: string, more: string)
    requires Core(core) && Identifiers(pre) && Identifiers(more)
    ensures RaisesThoughOrdered(core + ['-'] + pre, core + ['-'] + (pre + ['.'] + more))
  {
    SplitJoin(pre, more, '.');
    PrereleaseText(core, pre);
    PrereleaseText(core, pre + ['.'] + more);
    var a := Version(Numbers(Split(core, '.')), Split(pre, '.'));
    var b := Version(a.core, Split(pre, '.') + Split(more, '.'));
    assert b.pre[..|a.pre|] == a.pre;
    CompareIsPrecedence(core + ['-'] + pre, core + ['-'] + (pre + ['.'] + more));
    PrefixPrecedes(a, b);
  }

  /** The gap on a concrete input: 1.0.0-rc against 1.0.0-rc.1. */
  lemma RcAgainstRc1(core: string, pre: string, field: string)
    requires core == "1.0.0" && pre == "rc" && field == "1"
    ensures RaisesThoughOrdered(core + ['-'] + pre, core + ['-'] + (pre + ['.'] + field))
  {
    OneIsCore(core);
    SplitAt(pre, "", '.');
    SplitAt(field, "", '.');
    ContinuedPrereleaseRaises(core, pre, field);
  }

  lemma OneIsCore(core: string)
    requires core == "1.0.0"
    ensures Core(core)
  {
    assert core == "1" + ['.'] + "0.0" && "0.0" == "0" + ['.'] + "0";
    SplitAt("1", "0.0", '.');
    SplitAt("0", "0", '.');
  }

  lemma PrefixPrecedes(a: Version, b: Version)
    requires a.core == b.core && a.pre != [] && ProperPrefix(a.pre, b.pre)
    ensures Precedence(a, b) == -1
  {
    assert TotalOrder(CompareNumbers);
    LexSign(CompareNumbers, a.core, b.core);
    LexPrefix(a.pre, b.pre);
  }

  lemma {:induction false} LexPrefix(a: seq<string>, b: seq<string>)
    requires ProperPrefix(a, b)
    ensures Lex(CompareIdentifiers, a, b) == -1
  {
    if a != [] {
      IdentifiersAreOrdered();
      assert CompareIdentifiers(a[0], b[0]) == 0;
      LexPrefix(a[1..], b[1..]);
    }
  }
}
