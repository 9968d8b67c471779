/** The validators of the management surface: canonical decimals, tokens, callers
    and names, and the associated data that binds a receipt to its command. */
module Tokens {
  import opened Text
  import opened Tables

  // Canonical decimals

  predicate IsDigit(c: char) { '0' <= c <= '9' }

  function DigitChar(d: int): char
    requires 0 <= d < 10
  {
    (d + '0' as int) as char
  }

  predicate AllDigits(s: string) {
    forall i :: 0 <= i < |s| ==> IsDigit(s[i])
  }

  function Print(n: nat): (s: string)
    ensures s != "" && AllDigits(s)
  {
    if n < 10 then [DigitChar(n)] else Print(n / 10) + [DigitChar(n % 10)]
  }

  function Value(s: string): nat
    requires AllDigits(s)
  {
    if s == "" then 0 else 10 * Value(s[..|s| - 1]) + (s[|s| - 1] as int - '0' as int)
  }

  /** Rust's integer parsing: an optional plus sign (and, for a signed type, a minus
      sign), then at least one digit, any number of them zeros, within range. */
  function ParseInteger(s: string, signed: bool, max: nat): Option<int> {
    var negative := signed && s != "" && s[0] == '-';
    var digits := if s != "" && (s[0] == '+' || negative) then s[1..] else s;
    if digits == "" || !AllDigits(digits) then None
    else
      var n: int := Value(digits);
      if negative then if n <= max + 1 then Some(-n) else None
      else if n <= max then Some(n) else None
  }

  const MAX_U32: nat := 0xffff_ffff

  function ParseRevision(s: string): Option<int> {
    var r := ParseInteger(s, true, MAX_BIGINT);
    if r.Some? && r.value > 0 && Print(r.value) == s then r else None
  }

  function ParsePageLimit(s: string, max: int): Option<int> {
    var r := ParseInteger(s, false, MAX_U32);
    if r.Some? && 0 < r.value <= max && Print(r.value) == s then r else None
  }

  /** Digits with no leading zero. */
  predicate Canonical(s: string) {
    s != "" && AllDigits(s) && s[0] != '0'
  }

  lemma {:induction false} PrintedIsCanonical(n: nat)
    ensures Value(Print(n)) == n
    ensures n > 0 ==> Canonical(Print(n))
  {
    var s := Print(n);
    if n >= 10 {
      PrintedIsCanonical(n / 10);
      assert s[..|s| - 1] == Print(n / 10);
    } else {
      assert s[..|s| - 1] == "";
    }
  }

  lemma {:induction false} CanonicalIsPrinted(s: string)
    requires Canonical(s)
    ensures Value(s) > 0 && Print(Value(s)) == s
    decreases |s|
  {
    var front := s[..|s| - 1];
    if front == "" {
      assert Value(front) == 0;
      assert s == [s[0]];
    } else {
      assert AllDigits(front) && front[0] == s[0];
      CanonicalIsPrinted(front);
      assert s == front + [s[|s| - 1]];
    }
  }

  /** `parse_revision` accepts exactly the canonical spelling of each positive
      BIGINT, and reads it back as that number. */
  lemma RevisionTokens(s: string, r: int)
    ensures ParseRevision(s) == Some(r) <==> 0 < r <= MAX_BIGINT && s == Print(r)
    ensures ParseRevision(s).Some? <==> Canonical(s) && Value(s) <= MAX_BIGINT
  {
    if 0 < r { PrintedIsCanonical(r); }
    if Canonical(s) { CanonicalIsPrinted(s); }
    if ParseRevision(s).Some? { PrintedIsCanonical(ParseRevision(s).value); }
  }

  /** The same for page limits, which are also bounded by the configured page size. */
  lemma PageLimitTokens(s: string, max: int, r: int)
    requires 0 <= max <= MAX_U32
    ensures ParsePageLimit(s, max) == Some(r) <==> 0 < r <= max && s == Print(r)
    ensures ParsePageLimit(s, max).Some? <==> Canonical(s) && Value(s) <= max
  {
    if 0 < r { PrintedIsCanonical(r); }
    if Canonical(s) { CanonicalIsPrinted(s); }
    if ParsePageLimit(s, max).Some? { PrintedIsCanonical(ParsePageLimit(s, max).value); }
  }

  // Tokens and callers

  predicate IsAlphanumeric(c: char) {
    'a' <= c <= 'z' || 'A' <= c <= 'Z' || '0' <= c <= '9'
  }

  predicate IsTokenChar(c: char) {
    IsAlphanumeric(c) || c == '-' || c == '_' || c == '.' || c == ':'
  }

  predicate ValidToken(s: string, max: nat) {
    1 <= |s| <= max && forall i :: 0 <= i < |s| ==> IsTokenChar(s[i])
  }

  predicate ValidKey(s: string) { ValidToken(s, 128) }

  function Split(s: string, c: char): (parts: seq<string>)
    ensures parts != []
  {
    if s == "" then [""]
    else
      var rest := Split(s[1..], c);
      if s[0] == c then [""] + rest else [[s[0]] + rest[0]] + rest[1..]
  }

  /** One token, or two joined by a slash. */
  predicate ValidCaller(s: string) {
    var parts := Split(s, '/');
    |s| <= 128 && |parts| <= 2 && forall i :: 0 <= i < |parts| ==> ValidToken(parts[i], 128)
  }

  lemma {:induction false} SplitKeepsCharacters(s: string, c: char, x: char)
    requires x in s && x != c
    ensures exists j :: 0 <= j < |Split(s, c)| && x in Split(s, c)[j]
    decreases |s|
  {
    var rest, parts := Split(s[1..], c), Split(s, c);
    if x == s[0] {
      assert parts[0][0] == x;
      assert x in parts[0];
    } else {
      assert x in s[1..];
      SplitKeepsCharacters(s[1..], c, x);
      var j :| 0 <= j < |rest| && x in rest[j];
      SplitShifts(s, c, j, x);
    }
  }

  lemma SplitShifts(s: string, c: char, j: nat, x: char)
    requires s != "" && j < |Split(s[1..], c)| && x in Split(s[1..], c)[j]
    ensures exists i :: 0 <= i < |Split(s, c)| && x in Split(s, c)[i]
  {
    var rest, parts := Split(s[1..], c), Split(s, c);
    if s[0] == c {
      assert parts[j + 1] == rest[j];
    } else if j == 0 {
      assert parts[0] == [s[0]] + rest[0];
    } else {
      assert parts[j] == rest[j];
    }
  }

  lemma {:induction false} SplitJoins(s: string, c: char)
    ensures |Split(s, c)| == 1 ==> s == Split(s, c)[0]
    ensures |Split(s, c)| == 2 ==> s == Split(s, c)[0] + [c] + Split(s, c)[1]
    decreases |s|
  {
    if s != "" {
      SplitJoins(s[1..], c);
      assert s == [s[0]] + s[1..];
    }
  }

  lemma {:induction false} SplitWhole(s: string, c: char)
    requires forall i :: 0 <= i < |s| ==> s[i] != c
    ensures Split(s, c) == [s]
    decreases |s|
  {
    if s != "" {
      SplitWhole(s[1..], c);
      assert s == [s[0]] + s[1..];
    }
  }

  lemma {:induction false} SplitPair(a: string, b: string, c: char)
    requires forall i :: 0 <= i < |a| ==> a[i] != c
    requires forall i :: 0 <= i < |b| ==> b[i] != c
    ensures Split(a + [c] + b, c) == [a, b]
    decreases |a|
  {
    var s := a + [c] + b;
    if a == "" {
      assert s[1..] == b;
      SplitWhole(b, c);
    } else {
      assert s[1..] == a[1..] + [c] + b;
      SplitPair(a[1..], b, c);
      assert a == [a[0]] + a[1..];
    }
  }

  /** A caller is one token, or two joined by a slash, of 128 characters in all. */
  lemma CallersAreTokens(s: string)
    ensures ValidCaller(s) <==>
              |s| <= 128
              && (ValidToken(s, 128) || exists a, b :: ValidToken(a, 128) && ValidToken(b, 128) && s == a + "/" + b)
  {
    SplitJoins(s, '/');
    if ValidToken(s, 128) { SplitWhole(s, '/'); }
    if a, b :| ValidToken(a, 128) && ValidToken(b, 128) && s == a + "/" + b { SplitPair(a, b, '/'); }
    if ValidCaller(s) && |Split(s, '/')| == 2 {
      var a, b := Split(s, '/')[0], Split(s, '/')[1];
      assert ValidToken(a, 128) && ValidToken(b, 128) && s == a + "/" + b;
    }
  }

  // The associated data of a receipt

  function OperationName(o: Operation): string {
    match o
    case CreateAccount => "create"
    case RotateSecret => "rotate_secret"
    case RevokeAccount => "revoke"
    case ExchangeSecret => "exchange_secret"
  }

  function ReceiptAad(key: CommandKey): string {
    key.caller + "\0" + OperationName(key.operation) + "\0" + key.key
  }

  predicate NulFree(s: string) {
    forall i :: 0 <= i < |s| ==> s[i] != '\0'
  }

  lemma CallersAreNulFree(s: string)
    requires ValidCaller(s)
    ensures NulFree(s)
  {
    forall i | 0 <= i < |s| ensures s[i] != '\0' {
      if s[i] != '/' { SplitKeepsCharacters(s, '/', s[i]); }
    }
  }

  lemma FirstNulSplits(a: string, x: string, b: string, y: string)
    requires NulFree(a) && NulFree(b) && a + "\0" + x == b + "\0" + y
    ensures a == b && x == y
  {
    var s := a + "\0" + x;
    assert s[|a|] == '\0' && s == b + "\0" + y && s[|b|] == '\0';
    assert forall i :: 0 <= i < |a| ==> s[i] == a[i];
    assert forall i :: 0 <= i < |b| ==> s[i] == b[i];
    assert a == s[..|a|] && b == s[..|b|];
    assert x == s[|a| + 1..] && y == s[|b| + 1..];
  }

  /** Commands of valid callers have different associated data. */
  lemma ReceiptAadIsInjective(k: CommandKey, l: CommandKey)
    requires ValidCaller(k.caller) && ValidCaller(l.caller) && ReceiptAad(k) == ReceiptAad(l)
    ensures k == l
  {
    CallersAreNulFree(k.caller);
    CallersAreNulFree(l.caller);
    var x, y := OperationName(k.operation) + "\0" + k.key, OperationName(l.operation) + "\0" + l.key;
    assert ReceiptAad(k) == k.caller + "\0" + x;
    assert ReceiptAad(l) == l.caller + "\0" + y;
    FirstNulSplits(k.caller, x, l.caller, y);
    FirstNulSplits(OperationName(k.operation), k.key, OperationName(l.operation), l.key);
  }

  /** So a receipt opens for the command it was sealed for, and for no other. */
  lemma ReceiptOpensOnlyForItsCommand(k: CommandKey, l: CommandKey, body: Body)
    requires ValidCaller(k.caller) && ValidCaller(l.caller)
    ensures Open(Sealed(ReceiptAad(k), body), ReceiptAad(l)) == if k == l then Some(body) else None
  {
    if ReceiptAad(k) == ReceiptAad(l) { ReceiptAadIsInjective(k, l); }
  }

  // Names

  predicate IsAscii(c: char) { c as int < 128 }

  predicate IsControl(c: char) { c as int < 32 || 127 <= c as int < 160 }

  /** `len` counts bytes, which on text that passes the ASCII test is characters. */
  predicate ValidName(s: string) {
    var name := Trim(s);
    1 <= |name| <= 128 && forall i :: 0 <= i < |name| ==> IsAscii(name[i]) && !IsControl(name[i])
  }

  lemma {:induction false} DropRightEnds(s: string, p: char -> bool)
    ensures DropRight(s, p) != "" ==> !p(DropRight(s, p)[|DropRight(s, p)| - 1])
    ensures DropRight(s, p) <= s
    decreases |s|
  {
    if s != "" && p(s[|s| - 1]) { DropRightEnds(s[..|s| - 1], p); }
  }

  lemma {:induction false} DropLeftEnds(s: string, p: char -> bool)
    ensures DropLeft(s, p) != "" ==> !p(DropLeft(s, p)[0])
    decreases |s|
  {
    if s != "" && p(s[0]) { DropLeftEnds(s[1..], p); }
  }

  lemma TrimmedStaysTrimmed(s: string)
    ensures TrimSpaces(Trim(s)) == Trim(s)
  {
    var left := DropLeft(s, IsWhitespace);
    DropLeftEnds(s, IsWhitespace);
    DropRightEnds(left, IsWhitespace);
  }

  /** An accepted name is, once trimmed, one to 128 printable ASCII characters. */
  lemma NamesArePrintable(s: string)
    ensures ValidName(s) <==> 1 <= |Trim(s)| <= 128 && forall i :: 0 <= i < |Trim(s)| ==> ' ' <= Trim(s)[i] <= '~'
  {
  }

  /** The validators' limits count bytes; on the text they accept that is characters. */
  lemma LimitsCountBytes(s: string, max: nat)
    ensures ValidToken(s, max) <==> s != "" && Utf8Length(s) <= max && forall i :: 0 <= i < |s| ==> IsTokenChar(s[i])
    ensures ValidName(s) <==>
              var name := Trim(s);
              name != "" && Utf8Length(name) <= 128 && forall i :: 0 <= i < |name| ==> IsAscii(name[i]) && !IsControl(name[i])
  {
    var name := Trim(s);
    if forall i :: 0 <= i < |s| ==> IsTokenChar(s[i]) { AsciiLength(s); }
    if forall i :: 0 <= i < |name| ==> IsAscii(name[i]) { AsciiLength(name); }
  }

  /** A creation that passed the validators meets every CHECK of the accounts
      table: lengths, no surrounding spaces, and the key the lower-cased name. */
  lemma ValidRequestsMeetTheChecks(id: string, organization: string, subject: string, name: string, at: Time)
    requires ValidToken(id, 128) && ValidToken(organization, 256) && ValidToken(subject, 256) && ValidName(name)
    ensures AccountCheck(id, Account(organization, subject, Trim(name), Lower(Trim(name)), Active, 1, at, None, None))
  {
    TrimmedStaysTrimmed(name);
  }
}
