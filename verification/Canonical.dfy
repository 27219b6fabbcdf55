/** The two byte strings the admission protocol hashes, and why neither is ambiguous:
    `bound_nonce` in scripts/session_admission.py, `qualification` in
    scripts/tpm_attestation.py. */
module Canonical {
  import opened Bytes
  import opened Hashing

  // ---- Text

  predicate IsHexDigit(c: char) {
    '0' <= c <= '9' || 'a' <= c <= 'f'
  }

  predicate IsHex(s: string, n: nat) {
    |s| == n && forall i :: 0 <= i < n ==> IsHexDigit(s[i])
  }

  function Nibble(c: char): (n: nat)
    ensures n < 16
  {
    if '0' <= c <= '9' then c as int - '0' as int else if 'a' <= c <= 'f' then c as int - 'a' as int + 10 else 0
  }

  function Digit(n: nat): (c: char)
    requires n < 16
    ensures IsHexDigit(c) && Nibble(c) == n
  {
    if n < 10 then '0' + n as char else 'a' + (n - 10) as char
  }

  /** bytes.fromhex, on text that is hexadecimal. */
  function FromHex(s: string): (r: seq<byte>)
    ensures |r| == |s| / 2
  {
    if |s| < 2 then [] else [16 * Nibble(s[0]) + Nibble(s[1])] + FromHex(s[2..])
  }

  /** hexdigest. */
  function Hex(b: seq<byte>): (s: string)
    ensures IsHex(s, 2 * |b|)
  {
    if b == [] then "" else [Digit(b[0] / 16), Digit(b[0] % 16)] + Hex(b[1..])
  }

  lemma {:induction false} HexRoundTrip(b: seq<byte>)
    ensures FromHex(Hex(b)) == b
  {
    if b != [] {
      HexRoundTrip(b[1..]);
      assert Hex(b)[2..] == Hex(b[1..]);
    }
  }

  lemma SameNibble(c: char, d: char)
    requires IsHexDigit(c) && IsHexDigit(d) && Nibble(c) == Nibble(d)
    ensures c == d
  {
  }

  lemma {:induction false} FromHexInjective(s: string, t: string, n: nat)
    requires IsHex(s, 2 * n) && IsHex(t, 2 * n) && FromHex(s) == FromHex(t)
    ensures s == t
  {
    if n > 0 {
      assert FromHex(s)[0] == FromHex(t)[0] && FromHex(s)[1..] == FromHex(t)[1..];
      FromHexInjective(s[2..], t[2..], n - 1);
      SameNibble(s[0], t[0]);
      SameNibble(s[1], t[1]);
      assert s == [s[0], s[1]] + s[2..] && t == [t[0], t[1]] + t[2..];
    }
  }

  function Decimal(n: nat): (s: string)
    ensures |s| >= 1 && forall i :: 0 <= i < |s| ==> '0' <= s[i] <= '9'
  {
    if n < 10 then ['0' + n as char] else Decimal(n / 10) + ['0' + (n % 10) as char]
  }

  lemma {:induction false} DecimalInjective(m: nat, n: nat)
    requires Decimal(m) == Decimal(n)
    ensures m == n
  {
    var s, t := Decimal(m), Decimal(n);
    assert s[|s| - 1] == t[|t| - 1];
    assert m % 10 == n % 10;
    if m >= 10 && n >= 10 {
      assert s[..|s| - 1] == Decimal(m / 10) && t[..|t| - 1] == Decimal(n / 10);
      DecimalInjective(m / 10, n / 10);
    }
  }

  predicate IsAscii(s: string) {
    forall i :: 0 <= i < |s| ==> (s[i] as int) < 128
  }

  function Ascii(s: string): (r: seq<byte>)
    ensures |r| == |s| && forall i :: 0 <= i < |s| ==> r[i] == s[i] as int % 256
  {
    seq(|s|, i requires 0 <= i < |s| => s[i] as int % 256)
  }

  lemma AsciiInjective(s: string, t: string)
    requires IsAscii(s) && IsAscii(t) && Ascii(s) == Ascii(t)
    ensures s == t
  {
    forall i | 0 <= i < |s| ensures s[i] == t[i] {
      assert Ascii(s)[i] == Ascii(t)[i];
    }
  }

  lemma HexIsAscii(s: string, n: nat)
    requires IsHex(s, n)
    ensures IsAscii(s)
  {
  }

  /** Equal concatenations whose left parts have equal length have equal parts. */
  lemma SplitSame<T>(a: seq<T>, b: seq<T>, c: seq<T>, d: seq<T>)
    requires a + b == c + d && |a| == |c|
    ensures a == c && b == d
  {
    assert (a + b)[..|a|] == a && (c + d)[..|a|] == c;
    assert (a + b)[|a|..] == b && (c + d)[|a|..] == d;
  }

  // ---- bound_nonce

  datatype Binding = Binding(
    admissionId: string, attestor: string, connectionId: string, controller: string,
    gameSessionId: string, instanceId: string, peerId: nat)

  /** Every field but the peer has a fixed width. */
  predicate WellFormed(b: Binding) {
    && IsHex(b.admissionId, 32) && IsHex(b.attestor, 64) && IsHex(b.connectionId, 64)
    && IsHex(b.controller, 64) && IsHex(b.gameSessionId, 32) && IsHex(b.instanceId, 32)
    && 2 <= b.peerId <= 2147483647
  }

  function Field(key: string, value: string, rest: string): string {
    key + (value + rest)
  }

  /** json.dumps with sorted keys and no spaces. */
  function Text(b: Binding): string {
    Field("{\"admission_id\":\"", b.admissionId,
    Field("\",\"attestor\":\"", b.attestor,
    Field("\",\"connection_id\":\"", b.connectionId,
    Field("\",\"controller\":\"", b.controller,
    Field("\",\"game_session_id\":\"", b.gameSessionId,
    Field("\",\"instance_id\":\"", b.instanceId,
    Field("\",\"peer_id\":", Decimal(b.peerId), "}")))))))
  }

  const PROTOCOL: string := "arena-admission/1"

  function NonceInput(b: Binding, salt: string): seq<byte> {
    Ascii(PROTOCOL + "\0" + Text(b) + "\0") + FromHex(salt)
  }

  function BoundNonce(hash: Hash, b: Binding, salt: string): (nonce: string)
    ensures IsHex(nonce, 64)
  {
    Hex(hash(NonceInput(b, salt)))
  }

  lemma FieldSame(key: string, v: string, r: string, w: string, q: string)
    requires |v| == |w| && Field(key, v, r) == Field(key, w, q)
    ensures v == w && r == q
  {
    SplitSame(key, v + r, key, w + q);
    SplitSame(v, r, w, q);
  }

  lemma FieldAscii(key: string, v: string, r: string)
    requires IsAscii(key) && IsAscii(v) && IsAscii(r)
    ensures IsAscii(Field(key, v, r))
  {
  }

  lemma TextIsAscii(b: Binding)
    requires WellFormed(b)
    ensures IsAscii(Text(b))
  {
    HexIsAscii(b.admissionId, 32); HexIsAscii(b.attestor, 64); HexIsAscii(b.connectionId, 64);
    HexIsAscii(b.controller, 64); HexIsAscii(b.gameSessionId, 32); HexIsAscii(b.instanceId, 32);
    var r6 := Field("\",\"peer_id\":", Decimal(b.peerId), "}");
    var r5 := Field("\",\"instance_id\":\"", b.instanceId, r6);
    var r4 := Field("\",\"game_session_id\":\"", b.gameSessionId, r5);
    var r3 := Field("\",\"controller\":\"", b.controller, r4);
    var r2 := Field("\",\"connection_id\":\"", b.connectionId, r3);
    var r1 := Field("\",\"attestor\":\"", b.attestor, r2);
    FieldAscii("\",\"peer_id\":", Decimal(b.peerId), "}");
    FieldAscii("\",\"instance_id\":\"", b.instanceId, r6);
    FieldAscii("\",\"game_session_id\":\"", b.gameSessionId, r5);
    FieldAscii("\",\"controller\":\"", b.controller, r4);
    FieldAscii("\",\"connection_id\":\"", b.connectionId, r3);
    FieldAscii("\",\"attestor\":\"", b.attestor, r2);
    FieldAscii("{\"admission_id\":\"", b.admissionId, r1);
  }

  /** The canonical text names one binding only. */
  lemma TextInjective(a: Binding, b: Binding)
    requires WellFormed(a) && WellFormed(b) && Text(a) == Text(b)
    ensures a == b
  {
    var p := Field("\",\"peer_id\":", Decimal(a.peerId), "}");
    var q := Field("\",\"peer_id\":", Decimal(b.peerId), "}");
    var p1 := Field("\",\"instance_id\":\"", a.instanceId, p);
    var q1 := Field("\",\"instance_id\":\"", b.instanceId, q);
    var p2 := Field("\",\"game_session_id\":\"", a.gameSessionId, p1);
    var q2 := Field("\",\"game_session_id\":\"", b.gameSessionId, q1);
    var p3 := Field("\",\"controller\":\"", a.controller, p2);
    var q3 := Field("\",\"controller\":\"", b.controller, q2);
    var p4 := Field("\",\"connection_id\":\"", a.connectionId, p3);
    var q4 := Field("\",\"connection_id\":\"", b.connectionId, q3);
    var p5 := Field("\",\"attestor\":\"", a.attestor, p4);
    var q5 := Field("\",\"attestor\":\"", b.attestor, q4);
    FieldSame("{\"admission_id\":\"", a.admissionId, p5, b.admissionId, q5);
    FieldSame("\",\"attestor\":\"", a.attestor, p4, b.attestor, q4);
    FieldSame("\",\"connection_id\":\"", a.connectionId, p3, b.connectionId, q3);
    FieldSame("\",\"controller\":\"", a.controller, p2, b.controller, q2);
    FieldSame("\",\"game_session_id\":\"", a.gameSessionId, p1, b.gameSessionId, q1);
    FieldSame("\",\"instance_id\":\"", a.instanceId, p, b.instanceId, q);
    assert |p| == |"\",\"peer_id\":"| + |Decimal(a.peerId)| + 1;
    assert |q| == |"\",\"peer_id\":"| + |Decimal(b.peerId)| + 1;
    FieldSame("\",\"peer_id\":", Decimal(a.peerId), "}", Decimal(b.peerId), "}");
    DecimalInjective(a.peerId, b.peerId);
  }

  /** The hashed string names one binding and one salt only. */
  lemma NonceInputInjective(a: Binding, s: string, b: Binding, t: string)
    requires WellFormed(a) && WellFormed(b) && IsHex(s, 64) && IsHex(t, 64)
    requires NonceInput(a, s) == NonceInput(b, t)
    ensures a == b && s == t
  {
    var p, q := PROTOCOL + "\0" + Text(a) + "\0", PROTOCOL + "\0" + Text(b) + "\0";
    SplitSame(Ascii(p), FromHex(s), Ascii(q), FromHex(t));
    FromHexInjective(s, t, 32);
    TextIsAscii(a);
    TextIsAscii(b);
    AsciiInjective(p, q);
    SplitSame(PROTOCOL + "\0" + Text(a), "\0", PROTOCOL + "\0" + Text(b), "\0");
    SplitSame(PROTOCOL + "\0", Text(a), PROTOCOL + "\0", Text(b));
    TextInjective(a, b);
  }

  // ---- qualification

  /** The fields of a challenge that are signed. */
  datatype Challenge = Challenge(
    sessionId: string, nonce: string, createdAt: u64, expiresAt: u64, policyId: string, akSha256: string)

  predicate WellFormedChallenge(c: Challenge) {
    IsHex(c.sessionId, 32) && IsHex(c.nonce, 64) && IsHex(c.akSha256, 64) && IsAscii(c.policyId)
  }

  function QualificationInput(hash: Hash, c: Challenge): seq<byte> {
    Ascii("lab-attest/1\0") + (FromHex(c.sessionId) + (FromHex(c.nonce) + (Big(c.createdAt, 8) + (Big(c.expiresAt, 8)
    + (hash(Ascii(c.policyId)) + FromHex(c.akSha256))))))
  }

  function Qualification(hash: Hash, c: Challenge): string {
    Hex(hash(QualificationInput(hash, c)))
  }

  /** The binary input determines every field; the policy text, up to its digest. */
  lemma QualificationInputInjective(hash: Hash, c: Challenge, d: Challenge)
    requires WellFormedChallenge(c) && WellFormedChallenge(d)
    requires QualificationInput(hash, c) == QualificationInput(hash, d)
    ensures d == c.(policyId := d.policyId) && hash(Ascii(c.policyId)) == hash(Ascii(d.policyId))
  {
    var c5, d5 := hash(Ascii(c.policyId)) + FromHex(c.akSha256), hash(Ascii(d.policyId)) + FromHex(d.akSha256);
    var c4, d4 := Big(c.expiresAt, 8) + c5, Big(d.expiresAt, 8) + d5;
    var c3, d3 := Big(c.createdAt, 8) + c4, Big(d.createdAt, 8) + d4;
    var c2, d2 := FromHex(c.nonce) + c3, FromHex(d.nonce) + d3;
    var c1, d1 := FromHex(c.sessionId) + c2, FromHex(d.sessionId) + d2;
    SplitSame(Ascii("lab-attest/1\0"), c1, Ascii("lab-attest/1\0"), d1);
    SplitSame(FromHex(c.sessionId), c2, FromHex(d.sessionId), d2);
    SplitSame(FromHex(c.nonce), c3, FromHex(d.nonce), d3);
    SplitSame(Big(c.createdAt, 8), c4, Big(d.createdAt, 8), d4);
    SplitSame(Big(c.expiresAt, 8), c5, Big(d.expiresAt, 8), d5);
    SplitSame<byte>(hash(Ascii(c.policyId)), FromHex(c.akSha256), hash(Ascii(d.policyId)), FromHex(d.akSha256));
    FromHexInjective(c.sessionId, d.sessionId, 16);
    FromHexInjective(c.nonce, d.nonce, 32);
    FromHexInjective(c.akSha256, d.akSha256, 32);
    PowValues();
    BigRoundTrip(c.createdAt, 8); BigRoundTrip(d.createdAt, 8);
    BigRoundTrip(c.expiresAt, 8); BigRoundTrip(d.expiresAt, 8);
  }

  /** Where the quoting side must put each field. */
  lemma QualificationLayout(hash: Hash, c: Challenge)
    requires WellFormedChallenge(c)
    ensures var q := QualificationInput(hash, c);
            && |q| == 141 && q[..13] == Ascii("lab-attest/1\0")
            && q[13..29] == FromHex(c.sessionId) && q[29..61] == FromHex(c.nonce)
            && q[61..69] == Big(c.createdAt, 8) && q[69..77] == Big(c.expiresAt, 8)
            && q[77..109] == hash(Ascii(c.policyId)) && q[109..141] == FromHex(c.akSha256)
  {
    var q := QualificationInput(hash, c);
    var c5 := hash(Ascii(c.policyId)) + FromHex(c.akSha256);
    var c4 := Big(c.expiresAt, 8) + c5;
    var c3 := Big(c.createdAt, 8) + c4;
    var c2 := FromHex(c.nonce) + c3;
    var c1 := FromHex(c.sessionId) + c2;
    Beheaded(q, 0, Ascii("lab-attest/1\0"), c1);
    Beheaded(q, 13, FromHex(c.sessionId), c2);
    Beheaded(q, 29, FromHex(c.nonce), c3);
    Beheaded(q, 61, Big(c.createdAt, 8), c4);
    Beheaded(q, 69, Big(c.expiresAt, 8), c5);
    Beheaded(q, 77, hash(Ascii(c.policyId)), FromHex(c.akSha256));
  }

  lemma Regroup(p: string, key: string, v: string, rest: string)
    ensures p + Field(key, v, rest) == p + key + v + rest
  {
  }

  /** The canonical text written out. */
  lemma TextLayout(b: Binding)
    ensures Text(b) ==
            "{\"admission_id\":\"" + b.admissionId + "\",\"attestor\":\"" + b.attestor +
            "\",\"connection_id\":\"" + b.connectionId + "\",\"controller\":\"" + b.controller +
            "\",\"game_session_id\":\"" + b.gameSessionId + "\",\"instance_id\":\"" + b.instanceId +
            "\",\"peer_id\":" + Decimal(b.peerId) + "}"
  {
    var r6 := Field("\",\"peer_id\":", Decimal(b.peerId), "}");
    var r5 := Field("\",\"instance_id\":\"", b.instanceId, r6);
    var r4 := Field("\",\"game_session_id\":\"", b.gameSessionId, r5);
    var r3 := Field("\",\"controller\":\"", b.controller, r4);
    var r2 := Field("\",\"connection_id\":\"", b.connectionId, r3);
    var r1 := Field("\",\"attestor\":\"", b.attestor, r2);
    var p0 := "{\"admission_id\":\"" + b.admissionId;
    var p1 := p0 + "\",\"attestor\":\"" + b.attestor;
    var p2 := p1 + "\",\"connection_id\":\"" + b.connectionId;
    var p3 := p2 + "\",\"controller\":\"" + b.controller;
    var p4 := p3 + "\",\"game_session_id\":\"" + b.gameSessionId;
    var p5 := p4 + "\",\"instance_id\":\"" + b.instanceId;
    Flat("{\"admission_id\":\"", b.admissionId, r1);
    Regroup(p0, "\",\"attestor\":\"", b.attestor, r2);
    Regroup(p1, "\",\"connection_id\":\"", b.connectionId, r3);
    Regroup(p2, "\",\"controller\":\"", b.controller, r4);
    Regroup(p3, "\",\"game_session_id\":\"", b.gameSessionId, r5);
    Regroup(p4, "\",\"instance_id\":\"", b.instanceId, r6);
    Regroup(p5, "\",\"peer_id\":", Decimal(b.peerId), "}");
  }

  lemma Flat(key: string, v: string, rest: string)
    ensures Field(key, v, rest) == key + v + rest
  {
  }

  /** The strings hashed for one bound challenge. */
  ghost function HashedFor(hash: Hash, c: Challenge, b: Binding, salt: string): set<seq<byte>> {
    {NonceInput(b, salt), QualificationInput(hash, c), Ascii(c.policyId)}
  }

  /** `c` carries the nonce that binds it to `b`. */
  predicate IsBound(hash: Hash, c: Challenge, b: Binding, salt: string) {
    WellFormedChallenge(c) && WellFormed(b) && IsHex(salt, 64) && c.nonce == BoundNonce(hash, b, salt)
  }

  /** One qualification value names one challenge, one binding and one salt. */
  lemma QualificationNamesBinding(
    hash: Hash, c: Challenge, a: Binding, s: string, d: Challenge, b: Binding, t: string)
    requires IsBound(hash, c, a, s) && IsBound(hash, d, b, t)
    requires CollisionFree(hash, HashedFor(hash, c, a, s) + HashedFor(hash, d, b, t))
    ensures Qualification(hash, c) == Qualification(hash, d) <==> c == d && a == b && s == t
  {
    if Qualification(hash, c) == Qualification(hash, d) {
      HexRoundTrip(hash(QualificationInput(hash, c)));
      HexRoundTrip(hash(QualificationInput(hash, d)));
      QualificationInputInjective(hash, c, d);
      AsciiInjective(c.policyId, d.policyId);
      HexRoundTrip(hash(NonceInput(a, s)));
      HexRoundTrip(hash(NonceInput(b, t)));
      NonceInputInjective(a, s, b, t);
    }
  }
}
