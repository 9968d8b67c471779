/** The wire form of account secrets: how it is printed from random bytes and how
    the credential id is read back from whatever a caller sends. */
module Secrets {
  import opened Tables
  import opened Tokens

  type Byte = b: int | 0 <= b < 256

  // base64url without padding (section 5 of RFC 4648)

  function Symbol(n: int): (c: char)
    requires 0 <= n < 64
    ensures IsSecretChar(c)
  {
    if n < 26 then ('A' as int + n) as char
    else if n < 52 then ('a' as int + n - 26) as char
    else if n < 62 then ('0' as int + n - 52) as char
    else if n == 62 then '-' else '_'
  }

  function Sextet(c: char): int {
    if 'A' <= c <= 'Z' then c as int - 'A' as int
    else if 'a' <= c <= 'z' then c as int - 'a' as int + 26
    else if '0' <= c <= '9' then c as int - '0' as int + 52
    else if c == '-' then 62 else 63
  }

  predicate IsSecretChar(c: char) { IsAlphanumeric(c) || c == '-' || c == '_' }

  /** Bytes in groups of three, as sextets. */
  function Groups(bytes: seq<Byte>): (n: seq<int>)
    ensures forall i :: 0 <= i < |n| ==> 0 <= n[i] < 64
  {
    if bytes == [] then []
    else if |bytes| == 1 then [bytes[0] / 4, bytes[0] % 4 * 16]
    else if |bytes| == 2 then [bytes[0] / 4, bytes[0] % 4 * 16 + bytes[1] / 16, bytes[1] % 16 * 4]
    else
      [bytes[0] / 4, bytes[0] % 4 * 16 + bytes[1] / 16, bytes[1] % 16 * 4 + bytes[2] / 64, bytes[2] % 64] + Groups(bytes[3..])
  }

  function Encode(bytes: seq<Byte>): string {
    var n := Groups(bytes);
    seq(|n|, i requires 0 <= i < |n| => Symbol(n[i]))
  }

  // the three bytes of four sextets

  function First(x: int, y: int): int { (x * 4 + y / 16) % 256 }
  function Second(y: int, z: int): int { (y % 16 * 16 + z / 4) % 256 }
  function Third(z: int, w: int): int { (z % 4 * 64 + w) % 256 }

  function Sextets(s: string): seq<int> {
    seq(|s|, i requires 0 <= i < |s| => Sextet(s[i]))
  }

  function Join(n: seq<int>): seq<Byte> {
    if |n| < 2 then []
    else if |n| == 2 then [First(n[0], n[1])]
    else if |n| == 3 then [First(n[0], n[1]), Second(n[1], n[2])]
    else [First(n[0], n[1]), Second(n[1], n[2]), Third(n[2], n[3])] + Join(n[4..])
  }

  function Decode(s: string): seq<Byte> { Join(Sextets(s)) }

  lemma SymbolsReadBack(n: int)
    requires 0 <= n < 64
    ensures Sextet(Symbol(n)) == n
  {
  }

  lemma FirstBack(a: Byte, b: Byte)
    ensures First(a / 4, a % 4 * 16 + b / 16) == a
    ensures First(a / 4, a % 4 * 16) == a
  {
  }

  lemma SecondBack(a: Byte, b: Byte, c: Byte)
    ensures Second(a % 4 * 16 + b / 16, b % 16 * 4 + c / 64) == b
    ensures Second(a % 4 * 16 + b / 16, b % 16 * 4) == b
  {
    assert (a % 4 * 16 + b / 16) % 16 == b / 16;
  }

  lemma ThirdBack(b: Byte, c: Byte)
    ensures Third(b % 16 * 4 + c / 64, c % 64) == c
  {
    assert (b % 16 * 4 + c / 64) % 4 == c / 64;
  }

  lemma {:induction false} GroupsJoin(bytes: seq<Byte>)
    ensures Join(Groups(bytes)) == bytes
    ensures |Groups(bytes)| == |bytes| / 3 * 4 + (if |bytes| % 3 == 0 then 0 else |bytes| % 3 + 1)
  {
    if |bytes| == 1 {
      FirstBack(bytes[0], 0);
    } else if |bytes| == 2 {
      FirstBack(bytes[0], bytes[1]);
      SecondBack(bytes[0], bytes[1], 0);
    } else if bytes != [] {
      var a, b, c := bytes[0], bytes[1], bytes[2];
      FirstBack(a, b);
      SecondBack(a, b, c);
      ThirdBack(b, c);
      GroupsJoin(bytes[3..]);
      var n := Groups(bytes);
      assert n[4..] == Groups(bytes[3..]);
      assert Join(n) == [a, b, c] + bytes[3..];
    }
  }

  lemma EncodedReadsBack(bytes: seq<Byte>)
    ensures Decode(Encode(bytes)) == bytes
    ensures |Encode(bytes)| == |bytes| / 3 * 4 + (if |bytes| % 3 == 0 then 0 else |bytes| % 3 + 1)
    ensures forall i :: 0 <= i < |Encode(bytes)| ==> IsSecretChar(Encode(bytes)[i])
  {
    GroupsJoin(bytes);
    forall i | 0 <= i < |Encode(bytes)| ensures Sextets(Encode(bytes))[i] == Groups(bytes)[i] {
      SymbolsReadBack(Groups(bytes)[i]);
    }
    assert Sextets(Encode(bytes)) == Groups(bytes);
  }

  /** Test vectors of section 10 of RFC 4648, unpadded. */
  lemma KnownEncodings()
    ensures Encode([]) == "" && Encode([102]) == "Zg" && Encode([102, 111]) == "Zm8" && Encode([102, 111, 111]) == "Zm9v"
  {
  }

  /** The two characters the URL-safe alphabet has of its own. */
  lemma UrlSafeCharacters()
    ensures Encode([251, 255]) == "-_8"
  {
  }

  // The secret

  const SECRET_PREFIX := "lenso_sa_"
  const CREDENTIAL_PREFIX := "sac_"

  function CredentialName(id: seq<Byte>): string {
    CREDENTIAL_PREFIX + Encode(id)
  }

  /** What `CredentialSecret::generate` prints for its random bytes. */
  function Wire(id: seq<Byte>, material: seq<Byte>): string {
    SECRET_PREFIX + CredentialName(id) + "." + Encode(material)
  }

  function FirstDot(s: string): (i: nat)
    ensures i <= |s|
  {
    if s == "" || s[0] == '.' then 0 else 1 + FirstDot(s[1..])
  }

  predicate Part(s: string, least: nat) {
    least <= |s| <= 128 && forall i :: 0 <= i < |s| ==> IsSecretChar(s[i])
  }

  /** `credential_id`: strip the prefix, split at the first dot, check both parts. */
  function CredentialId(secret: string): Option<string> {
    if !(SECRET_PREFIX <= secret) then None
    else
      var rest := secret[|SECRET_PREFIX|..];
      var dot := FirstDot(rest);
      if dot == |rest| then None
      else if Part(rest[..dot], 1) && Part(rest[dot + 1..], 32) then Some(rest[..dot])
      else None
  }

  lemma {:induction false} FirstDotIsFirst(s: string)
    ensures FirstDot(s) < |s| ==> s[FirstDot(s)] == '.'
    ensures forall i :: 0 <= i < FirstDot(s) ==> s[i] != '.'
    decreases |s|
  {
    if s != "" && s[0] != '.' { FirstDotIsFirst(s[1..]); }
  }

  lemma DotSplits(a: string, b: string)
    requires forall i :: 0 <= i < |a| ==> a[i] != '.'
    ensures FirstDot(a + "." + b) == |a|
  {
    var s := a + "." + b;
    FirstDotIsFirst(s);
    assert s[|a|] == '.';
    assert forall i :: 0 <= i < |a| ==> s[i] == a[i];
  }

  lemma AcceptedParts(secret: string) returns (material: string)
    requires CredentialId(secret).Some?
    ensures var id := CredentialId(secret).value;
            secret == SECRET_PREFIX + id + "." + material && Part(id, 1) && Part(material, 32)
  {
    var id, rest := CredentialId(secret).value, secret[|SECRET_PREFIX|..];
    FirstDotIsFirst(rest);
    material := rest[|id| + 1..];
    assert rest == id + "." + material;
    assert secret == SECRET_PREFIX + rest;
  }

  lemma PartsAreAccepted(id: string, material: string)
    requires Part(id, 1) && Part(material, 32)
    ensures CredentialId(SECRET_PREFIX + id + "." + material) == Some(id)
  {
    var secret := SECRET_PREFIX + id + "." + material;
    assert secret == SECRET_PREFIX + (id + "." + material);
    var rest := secret[|SECRET_PREFIX|..];
    assert rest == id + "." + material;
    DotSplits(id, material);
    assert rest[..|id|] == id && rest[|id| + 1..] == material;
  }

  /** The parser accepts exactly the strings of the form prefix, id, dot, material
      with both parts within their alphabet and length, and answers that id; so no
      accepted string is longer than 266 characters. */
  lemma AcceptedSecrets(secret: string, id: string)
    ensures CredentialId(secret) == Some(id) <==>
              exists material :: secret == SECRET_PREFIX + id + "." + material && Part(id, 1) && Part(material, 32)
    ensures CredentialId(secret).Some? ==> |secret| <= 266
  {
    if CredentialId(secret).Some? {
      var material := AcceptedParts(secret);
    }
    if material :| secret == SECRET_PREFIX + id + "." + material && Part(id, 1) && Part(material, 32) {
      PartsAreAccepted(id, material);
    }
  }

  /** An accepted string is cut in one way only. */
  lemma SecretsSplitUniquely(a: string, x: string, b: string, y: string)
    requires Part(a, 1) && Part(b, 1) && SECRET_PREFIX + a + "." + x == SECRET_PREFIX + b + "." + y
    ensures a == b && x == y
  {
    DotSplits(a, x);
    DotSplits(b, y);
    var s, t := SECRET_PREFIX + a + "." + x, SECRET_PREFIX + b + "." + y;
    assert s[|SECRET_PREFIX|..] == a + "." + x;
    assert t[|SECRET_PREFIX|..] == b + "." + y;
    assert a == (a + "." + x)[..|a|] == (b + "." + y)[..|b|] == b;
    assert x == (a + "." + x)[|a| + 1..] == (b + "." + y)[|b| + 1..] == y;
  }

  lemma PrintedParts(id: seq<Byte>, material: seq<Byte>)
    requires |id| == 18 && |material| == 32
    ensures Part(CredentialName(id), 1) && |CredentialName(id)| == 28
    ensures Part(Encode(material), 32) && |Encode(material)| == 43
  {
    EncodedReadsBack(id);
    EncodedReadsBack(material);
    var name := CredentialName(id);
    forall i | 0 <= i < |name| ensures IsSecretChar(name[i]) {
      if i >= 4 { assert name[i] == Encode(id)[i - 4]; }
    }
  }

  /** A generated secret reads back as its own credential id. */
  lemma SecretRoundTrip(id: seq<Byte>, material: seq<Byte>)
    requires |id| == 18 && |material| == 32
    ensures CredentialId(Wire(id, material)) == Some(CredentialName(id))
    ensures |Wire(id, material)| == 81
  {
    PrintedParts(id, material);
    AcceptedSecrets(Wire(id, material), CredentialName(id));
  }

  /** Different random bytes print different secrets. */
  lemma WireIsInjective(id: seq<Byte>, material: seq<Byte>, id': seq<Byte>, material': seq<Byte>)
    requires |id| == |id'| == 18 && |material| == |material'| == 32 && Wire(id, material) == Wire(id', material')
    ensures id == id' && material == material'
  {
    PrintedParts(id, material);
    PrintedParts(id', material');
    SecretsSplitUniquely(CredentialName(id), Encode(material), CredentialName(id'), Encode(material'));
    assert Encode(id) == CredentialName(id)[4..] && Encode(id') == CredentialName(id')[4..];
    EncodedReadsBack(id);
    EncodedReadsBack(id');
    EncodedReadsBack(material);
    EncodedReadsBack(material');
  }
}
