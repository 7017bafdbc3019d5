/**
  The canonical payload that a licence signature covers, and the expiry arithmetic
  (backend/app/license.py). UTF-8 is injective, so the payload is compared as text.
 */
module License {
  import opened Wrappers
  import opened Decimals

  datatype License = License(
    licenseId: string, clientName: string, issuedAt: string, expiresAt: string, maxActiveUsers: int)

  datatype Error = BadValue | BadLicenseId | BadClientName | BadDate

  const MAX_USERS_MIN := 1
  const MAX_USERS_MAX := 1000
  const CLIENT_NAME_MAX := 200

  // ---------------------------------------------------------------- validation

  predicate HasControl(s: string) {
    exists i :: 0 <= i < |s| && (s[i] as int) < 0x20
  }

  /** A text against a pattern in which d is a digit, x a hexadecimal digit, others themselves. */
  predicate Matches(s: string, pattern: string) {
    && |s| == |pattern|
    && forall i :: 0 <= i < |s| ==>
         if pattern[i] == 'd' then IsDigit(s[i]) else if pattern[i] == 'x' then IsHexDigit(s[i]) else s[i] == pattern[i]
  }

  /** The calendar, which the standard library provides: a day number for each real date. */
  type Calendar = string -> Option<int>

  /** The characters that `strip` removes. */
  predicate Blank(c: char) { c == ' ' || c == '\t' || c == '\n' || c == '\r' }

  function Strip(s: string): string
    decreases |s|
  {
    if s == "" then ""
    else if Blank(s[0]) then Strip(s[1..])
    else if Blank(s[|s| - 1]) then Strip(s[..|s| - 1])
    else s
  }

  predicate ValidTime(s: string, day: Calendar) {
    Matches(s, "dddd-dd-ddTdd:dd:ddZ") && day(s[..10]).Some?
  }

  predicate ValidDate(s: string, day: Calendar) {
    Matches(s, "dddd-dd-dd") && day(s).Some?
  }

  /** `_validate_payload_fields` on a payload whose five fields have their types. */
  function Validate(data: License, day: Calendar): Result<(), Error> {
    if HasControl(data.licenseId) || HasControl(data.clientName) || HasControl(data.issuedAt) || HasControl(data.expiresAt)
      then Failure(BadValue)
    else if !(MAX_USERS_MIN <= data.maxActiveUsers <= MAX_USERS_MAX) then Failure(BadValue)
    else if !Matches(data.licenseId, "xxxxxxxx-xxxx-xxxx-xxxx-xxxxxxxxxxxx") then Failure(BadLicenseId)
    else if Strip(data.clientName) == "" || |Strip(data.clientName)| > CLIENT_NAME_MAX then Failure(BadClientName)
    else if !ValidTime(data.issuedAt, day) || !ValidDate(data.expiresAt, day) then Failure(BadDate)
    else if day(data.issuedAt[..10]).value > day(data.expiresAt).value then Failure(BadDate)
    else Success(())
  }

  // ---------------------------------------------------------------- the signed text

  function Line(name: string, value: string): string { name + ":" + value + "\n" }

  function Canonical5(data: License): string
    requires data.maxActiveUsers >= 0
  {
    Line("license_id", data.licenseId) + (Line("client_name", data.clientName) + (Line("issued_at", data.issuedAt)
    + (Line("expires_at", data.expiresAt) + Line("max_active_users", Print(data.maxActiveUsers)))))
  }

  /** `canonical_bytes`. */
  function CanonicalText(data: License, day: Calendar): Result<string, Error> {
    match Validate(data, day)
    case Failure(e) => Failure(e)
    case Success(_) => Success(Canonical5(data))
  }

  /** Stripping takes the blanks off both ends, and all of them. */
  lemma {:induction false} StripTrims(s: string) returns (i: nat, j: nat)
    ensures i <= j <= |s| && Strip(s) == s[i..j]
    ensures forall k :: 0 <= k < |s| && (k < i || j <= k) ==> s[k] in {' ', '\t', '\n', '\r'}
    ensures i < j ==> s[i] !in {' ', '\t', '\n', '\r'} && s[j - 1] !in {' ', '\t', '\n', '\r'}
    decreases |s|
  {
    i, j := 0, |s|;
    if s == "" {
    } else if Blank(s[0]) {
      var m, n := StripTrims(s[1..]);
      assert s[1..][m..n] == s[m + 1..n + 1] && forall k :: 0 < k < |s| ==> s[k] == s[1..][k - 1];
      i, j := m + 1, n + 1;
    } else if Blank(s[|s| - 1]) {
      i, j := StripTrims(s[..|s| - 1]);
    }
  }

  /** Eight, four, four, four and twelve hexadecimal digits, hyphens between. */
  ghost predicate IsUuid(s: string) {
    |s| == 36 && forall i :: 0 <= i < 36 ==>
      if i == 8 || i == 13 || i == 18 || i == 23 then s[i] == '-'
      else '0' <= s[i] <= '9' || 'a' <= s[i] <= 'f' || 'A' <= s[i] <= 'F'
  }

  ghost predicate IsDate(s: string) {
    |s| == 10 && forall i :: 0 <= i < 10 ==> if i == 4 || i == 7 then s[i] == '-' else '0' <= s[i] <= '9'
  }

  /** A date, a T, and hours, minutes and seconds up to the Z. */
  ghost predicate IsTime(s: string) {
    && |s| == 20 && IsDate(s[..10]) && s[10] == 'T' && s[13] == ':' && s[16] == ':' && s[19] == 'Z'
    && forall i :: 11 <= i < 19 && i != 13 && i != 16 ==> '0' <= s[i] <= '9'
  }

  lemma UuidPattern(s: string)
    ensures Matches(s, "xxxxxxxx-xxxx-xxxx-xxxx-xxxxxxxxxxxx") <==> IsUuid(s)
  {
  }

  lemma DatePatterns(s: string)
    ensures Matches(s, "dddd-dd-dd") <==> IsDate(s)
    ensures Matches(s, "dddd-dd-ddTdd:dd:ddZ") <==> IsTime(s)
  {
    if |s| == 20 {
      var pattern := "dddd-dd-ddTdd:dd:ddZ";
      assert forall i :: 0 <= i < 10 ==> s[..10][i] == s[i] && pattern[i] == "dddd-dd-dd"[i];
      assert forall i :: 10 <= i < 20 ==> pattern[i] == "Tdd:dd:ddZ"[i - 10];
    }
  }

  ghost predicate Clean(s: string) { forall c :: c in s ==> 0x20 <= c as int }

  /**
    Exactly which payloads are signed: no control character in any text, one to a thousand users, a
    UUID, a client name of one to two hundred characters without its blanks, and two real dates, the
    issue not after the expiry.
   */
  lemma SignedIff(data: License, day: Calendar)
    ensures CanonicalText(data, day).Success? <==>
      && Clean(data.licenseId) && Clean(data.clientName) && Clean(data.issuedAt) && Clean(data.expiresAt)
      && 1 <= data.maxActiveUsers <= 1000
      && IsUuid(data.licenseId)
      && 1 <= |Strip(data.clientName)| <= 200
      && IsTime(data.issuedAt) && day(data.issuedAt[..10]).Some? && IsDate(data.expiresAt) && day(data.expiresAt).Some?
      && day(data.issuedAt[..10]).value <= day(data.expiresAt).value
  {
    CleanIff(data.licenseId);
    CleanIff(data.clientName);
    CleanIff(data.issuedAt);
    CleanIff(data.expiresAt);
    UuidPattern(data.licenseId);
    DatePatterns(data.issuedAt);
    DatePatterns(data.expiresAt);
  }

  /** Which error an unsigned payload gets, the first that applies. */
  lemma RefusedWith(data: License, day: Calendar)
    requires CanonicalText(data, day).Failure?
    ensures CanonicalText(data, day).error ==
      if !Clean(data.licenseId) || !Clean(data.clientName) || !Clean(data.issuedAt) || !Clean(data.expiresAt)
         || data.maxActiveUsers < 1 || data.maxActiveUsers > 1000 then BadValue
      else if !IsUuid(data.licenseId) then BadLicenseId
      else if |Strip(data.clientName)| < 1 || |Strip(data.clientName)| > 200 then BadClientName
      else BadDate
  {
    CleanIff(data.licenseId);
    CleanIff(data.clientName);
    CleanIff(data.issuedAt);
    CleanIff(data.expiresAt);
    UuidPattern(data.licenseId);
  }

  lemma CleanIff(s: string)
    ensures Clean(s) <==> !HasControl(s)
  {
    if HasControl(s) {
      var i :| 0 <= i < |s| && (s[i] as int) < 0x20;
      assert s[i] in s;
    }
  }

  /** The five lines that are signed, in order. */
  lemma SignedLines(data: License, day: Calendar)
    requires CanonicalText(data, day).Success?
    ensures CanonicalText(data, day).value ==
      ("license_id:" + data.licenseId + "\n") + (("client_name:" + data.clientName + "\n")
      + (("issued_at:" + data.issuedAt + "\n") + (("expires_at:" + data.expiresAt + "\n")
      + ("max_active_users:" + Print(data.maxActiveUsers) + "\n"))))
  {
    assert "license_id" + ":" == "license_id:" && "client_name" + ":" == "client_name:" && "issued_at" + ":" == "issued_at:";
    assert "expires_at" + ":" == "expires_at:" && "max_active_users" + ":" == "max_active_users:";
  }

  // ---------------------------------------------------------------- injectivity

  /** Two texts that agree, each a line-free prefix, a line break and a rest, agree in both parts. */
  lemma {:induction false} FirstLineIsUnique(a: string, restA: string, b: string, restB: string)
    requires '\n' !in a && '\n' !in b
    requires a + "\n" + restA == b + "\n" + restB
    ensures a == b && restA == restB
  {
    FirstChar(a, restA);
    FirstChar(b, restB);
    if a != "" && b != "" {
      FirstLineIsUnique(a[1..], restA, b[1..], restB);
      assert a == [a[0]] + a[1..] && b == [b[0]] + b[1..];
    }
  }

  lemma FirstChar(a: string, rest: string)
    ensures (a + "\n" + rest)[0] == if a == "" then '\n' else a[0]
    ensures (a + "\n" + rest)[1..] == if a == "" then rest else a[1..] + "\n" + rest
  {
  }

  lemma LineIsUnique(name: string, a: string, restA: string, b: string, restB: string)
    requires '\n' !in name && '\n' !in a && '\n' !in b
    requires Line(name, a) + restA == Line(name, b) + restB
    ensures a == b && restA == restB
  {
    var x, y := name + ":" + a, name + ":" + b;
    assert '\n' !in x && '\n' !in y;
    assert x + "\n" + restA == Line(name, a) + restA;
    assert y + "\n" + restB == Line(name, b) + restB;
    FirstLineIsUnique(x, restA, y, restB);
    assert a == x[|name| + 1..] && b == y[|name| + 1..];
  }

  lemma NoControlNoBreak(s: string)
    requires !HasControl(s)
    ensures '\n' !in s
  {
  }

  lemma NumeralHasNoBreak(n: nat)
    ensures '\n' !in Print(n)
  {
  }

  /**
    The signed text determines the licence: two payloads that pass validation and have the same
    canonical text agree in all five fields, so no signature can be carried over to other terms.
   */
  lemma CanonicalTextIsInjective(a: License, b: License, day: Calendar)
    requires CanonicalText(a, day).Success? && CanonicalText(a, day) == CanonicalText(b, day)
    ensures a == b
  {
    NoControlNoBreak(a.licenseId);
    NoControlNoBreak(b.licenseId);
    NoControlNoBreak(a.clientName);
    NoControlNoBreak(b.clientName);
    NoControlNoBreak(a.issuedAt);
    NoControlNoBreak(b.issuedAt);
    NoControlNoBreak(a.expiresAt);
    NoControlNoBreak(b.expiresAt);
    var a5, b5 := Line("max_active_users", Print(a.maxActiveUsers)), Line("max_active_users", Print(b.maxActiveUsers));
    var a4, b4 := Line("expires_at", a.expiresAt) + a5, Line("expires_at", b.expiresAt) + b5;
    var a3, b3 := Line("issued_at", a.issuedAt) + a4, Line("issued_at", b.issuedAt) + b4;
    LineIsUnique("license_id", a.licenseId, Line("client_name", a.clientName) + a3,
                 b.licenseId, Line("client_name", b.clientName) + b3);
    LineIsUnique("client_name", a.clientName, a3, b.clientName, b3);
    LineIsUnique("issued_at", a.issuedAt, a4, b.issuedAt, b4);
    LineIsUnique("expires_at", a.expiresAt, a5, b.expiresAt, b5);
    NumeralHasNoBreak(a.maxActiveUsers);
    NumeralHasNoBreak(b.maxActiveUsers);
    assert a5 + "" == a5 && b5 + "" == b5;
    LineIsUnique("max_active_users", Print(a.maxActiveUsers), "", Print(b.maxActiveUsers), "");
    ValueOfPrint(a.maxActiveUsers);
    ValueOfPrint(b.maxActiveUsers);
  }

  // ---------------------------------------------------------------- expiry

  /** 23:59:59.999999 of the expiry day, in microseconds since the epoch. */
  function ExpiryEnd(expiryDay: int): int { expiryDay * 86_400_000_000 + 86_399_999_999 }

  /** `is_expired`. */
  predicate IsExpired(expiryDay: int, now: int) { now > ExpiryEnd(expiryDay) }

  /** `days_left`; `timedelta.days` floors. */
  function DaysLeft(expiryDay: int, now: int): int {
    var days := (ExpiryEnd(expiryDay) - now) / 86_400_000_000;
    if days > -1 then days else -1
  }

  /** A licence is good through the last microsecond of its expiry day, and the counter agrees. */
  lemma ExpiryAgreesWithDaysLeft(expiryDay: int, now: int)
    ensures IsExpired(expiryDay, now) <==> DaysLeft(expiryDay, now) == -1
    ensures IsExpired(expiryDay, now) <==> now / 86_400_000_000 > expiryDay
    ensures !IsExpired(expiryDay, now) ==> DaysLeft(expiryDay, now) == expiryDay - now / 86_400_000_000
  {
  }
}
