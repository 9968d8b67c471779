/** Strings as the database and the validators see them: a fixed total order on
    text keys, trimming and ASCII lower-casing. */
module Text {

  /** Lexicographic order, the order every ORDER BY on a text key follows. */
  predicate Less(a: string, b: string) {
    if b == "" then false
    else if a == "" then true
    else if a[0] == b[0] then Less(a[1..], b[1..])
    else a[0] < b[0]
  }

  lemma {:induction false} LessIsTotal(a: string, b: string)
    ensures a == b || Less(a, b) || Less(b, a)
    decreases |a|
  {
    if a != "" && b != "" && a[0] == b[0] {
      LessIsTotal(a[1..], b[1..]);
      if a[1..] == b[1..] {
        assert a == [a[0]] + a[1..] == [b[0]] + b[1..] == b;
      }
    }
  }

  lemma {:induction false} LessIsAsymmetric(a: string, b: string)
    requires Less(a, b)
    ensures a != b && !Less(b, a)
    decreases |a|
  {
    if a != "" && a[0] == b[0] {
      LessIsAsymmetric(a[1..], b[1..]);
    }
  }

  lemma {:induction false} LessIsTransitive(a: string, b: string, c: string)
    requires Less(a, b) && Less(b, c)
    ensures Less(a, c)
    decreases |a|
  {
    if a != "" && a[0] == b[0] == c[0] {
      LessIsTransitive(a[1..], b[1..], c[1..]);
    }
  }

  /** The first text ends, or has the smaller character, where the two first differ. */
  predicate DiffersAt(a: string, b: string, n: nat) {
    n <= |a| && n < |b| && a[..n] == b[..n] && (n == |a| || a[n] < b[n])
  }

  lemma {:induction false} LessIsFirstDifference(a: string, b: string)
    ensures Less(a, b) <==> exists n :: DiffersAt(a, b, n)
    decreases |a|
  {
    if a == "" || b == "" {
      if b != "" { assert DiffersAt(a, b, 0); }
    } else if a[0] == b[0] {
      LessIsFirstDifference(a[1..], b[1..]);
      if m: nat :| DiffersAt(a[1..], b[1..], m) {
        assert a[..m + 1] == [a[0]] + a[1..][..m] && b[..m + 1] == [b[0]] + b[1..][..m];
        assert DiffersAt(a, b, m + 1);
      }
      if n: nat :| DiffersAt(a, b, n) {
        assert n > 0;
        assert a[1..][..n - 1] == a[..n][1..] && b[1..][..n - 1] == b[..n][1..];
        assert DiffersAt(a[1..], b[1..], n - 1);
      }
    } else {
      if a[0] < b[0] { assert DiffersAt(a, b, 0); }
      if n: nat :| DiffersAt(a, b, n) {
        if n > 0 { assert a[..n][0] == b[..n][0]; }
      }
    }
  }

  // Trimming and case

  /** The characters `str::trim` removes: Unicode White_Space. */
  predicate IsWhitespace(c: char) {
    || '\t' <= c <= '\r'
    || c == ' '
    || c == '\U{0085}'
    || c == '\U{00A0}'
    || c == '\U{1680}'
    || '\U{2000}' <= c <= '\U{200A}'
    || c == '\U{2028}' || c == '\U{2029}'
    || c == '\U{202F}' || c == '\U{205F}' || c == '\U{3000}'
  }

  function DropLeft(s: string, p: char -> bool): string {
    if s != "" && p(s[0]) then DropLeft(s[1..], p) else s
  }

  function DropRight(s: string, p: char -> bool): string {
    if s != "" && p(s[|s| - 1]) then DropRight(s[..|s| - 1], p) else s
  }

  /** `str::trim`. */
  function Trim(s: string): string {
    DropRight(DropLeft(s, IsWhitespace), IsWhitespace)
  }

  predicate IsSpace(c: char) { c == ' ' }

  /** PostgreSQL's one-argument `btrim`, which removes spaces only. */
  function TrimSpaces(s: string): string {
    DropRight(DropLeft(s, IsSpace), IsSpace)
  }

  function LowerChar(c: char): char {
    if 'A' <= c <= 'Z' then (c as int + 32) as char else c
  }

  /** `to_ascii_lowercase`, and `lower` on ASCII text. */
  function Lower(s: string): string {
    seq(|s|, i requires 0 <= i < |s| => LowerChar(s[i]))
  }

  /** The same letter, in either case, or the same character. */
  predicate SameLetter(c: char, d: char) {
    || c == d
    || ('A' <= c <= 'Z' && d as int == c as int + 32)
    || ('A' <= d <= 'Z' && c as int == d as int + 32)
  }

  predicate SameIgnoringCase(a: string, b: string) {
    |a| == |b| && forall i :: 0 <= i < |a| ==> SameLetter(a[i], b[i])
  }

  /** Texts have the same lower-case form exactly when they differ in ASCII case only. */
  lemma LowerIgnoresCase(a: string, b: string)
    ensures Lower(a) == Lower(b) <==> SameIgnoringCase(a, b)
  {
    if Lower(a) == Lower(b) {
      assert |Lower(a)| == |a| && |Lower(b)| == |b|;
      forall i | 0 <= i < |a| ensures SameLetter(a[i], b[i]) {
        assert Lower(a)[i] == Lower(b)[i];
      }
    }
    if SameIgnoringCase(a, b) {
      assert forall i :: 0 <= i < |a| ==> Lower(a)[i] == Lower(b)[i];
    }
  }

  predicate AllWhitespace(s: string) {
    forall i :: 0 <= i < |s| ==> IsWhitespace(s[i])
  }

  /** What is dropped on either side holds throughout, and what is left ends without. */
  lemma {:induction false} DropLeftSplits(s: string, p: char -> bool) returns (l: string)
    ensures s == l + DropLeft(s, p) && forall i :: 0 <= i < |l| ==> p(l[i])
    ensures DropLeft(s, p) != "" ==> !p(DropLeft(s, p)[0])
    decreases |s|
  {
    if s != "" && p(s[0]) {
      var m := DropLeftSplits(s[1..], p);
      l := [s[0]] + m;
      assert s == [s[0]] + s[1..];
    } else {
      l := "";
    }
  }

  lemma {:induction false} DropRightSplits(s: string, p: char -> bool) returns (r: string)
    ensures s == DropRight(s, p) + r && forall i :: 0 <= i < |r| ==> p(r[i])
    ensures DropRight(s, p) != "" ==> !p(DropRight(s, p)[|DropRight(s, p)| - 1])
    decreases |s|
  {
    if s != "" && p(s[|s| - 1]) {
      var m := DropRightSplits(s[..|s| - 1], p);
      r := m + [s[|s| - 1]];
      assert s == s[..|s| - 1] + [s[|s| - 1]];
    } else {
      r := "";
    }
  }

  /** Trimming takes whitespace off both ends, all of it, and nothing else. */
  lemma TrimSplits(s: string) returns (l: string, r: string)
    ensures s == l + Trim(s) + r && AllWhitespace(l) && AllWhitespace(r)
    ensures Trim(s) != "" ==> !IsWhitespace(Trim(s)[0]) && !IsWhitespace(Trim(s)[|Trim(s)| - 1])
  {
    l := DropLeftSplits(s, IsWhitespace);
    var rest := DropLeft(s, IsWhitespace);
    r := DropRightSplits(rest, IsWhitespace);
    assert s == l + rest;
    assert rest == Trim(s) + r;
    if Trim(s) != "" { assert Trim(s)[0] == rest[0]; }
  }

  // Sizes as the validators count them: bytes of UTF-8

  function Utf8Size(c: char): nat {
    if c as int < 0x80 then 1 else if c as int < 0x800 then 2 else if c as int < 0x1_0000 then 3 else 4
  }

  function Utf8Length(s: string): (n: nat)
    ensures |s| <= n <= 4 * |s|
  {
    if s == "" then 0 else Utf8Length(s[..|s| - 1]) + Utf8Size(s[|s| - 1])
  }

  lemma {:induction false} AsciiLength(s: string)
    requires forall i :: 0 <= i < |s| ==> s[i] as int < 0x80
    ensures Utf8Length(s) == |s|
  {
    if s != "" { AsciiLength(s[..|s| - 1]); }
  }
}
