/** The datagrams of lab-udp/2 byte by byte, as lab_util.c and evidence.c lay them out, and
    what a server answers to each. */
module LabDatagrams {
  import opened Bytes
  import opened LabContract
  import opened LabSession
  import W = SequenceWindow
  import E = Evidence

  function Datagram(kind: byte, number: u32, payload: seq<byte>): (dat: seq<byte>)
    requires |payload| <= 112
    ensures |dat| == 16 + |payload|
  {
    [0x4C, 2, kind, 0] + Little(number, 4) + Little(|payload|, 4) + [0xAA, 0xAA, 0xAA, 0xAA] + payload
  }

  /** The header check passes exactly for a length that suits the kind. */
  function LengthOf(kind: byte): nat {
    match kind
    case 0x01 => 60 case 0x02 => 56 case 0x10 => 40 case 0x11 => 28 case 0x20 => 60
    case 0x30 => 24 case 0x40 => 44 case 0x41 => 104 case 0x42 => 28 case _ => 0
  }

  lemma DatagramRead(kind: byte, number: u32, payload: seq<byte>)
    requires |payload| <= 112
    ensures var dat := Datagram(kind, number, payload);
            && ParseHeader(dat) == HasHeader(Header(0x4C, 2, kind, 0, number, |payload|)) && dat[16..] == payload
            && (OpenRefusal(dat).Ok? <==> |payload| == LengthOf(kind))
            && (!OpenRefusal(dat).Ok? ==> OpenRefusal(dat).BadLen?)
  {
    var h := Header(0x4C, 2, kind, 0, number, |payload|);
    assert Datagram(kind, number, payload) == PackHeader(h) + payload;
    HeaderRoundTrip(h, payload, []);
  }

  /** Which datagrams an open session looks into at all, and why it refuses the rest. */
  lemma HeaderCheckedExactly(dat: seq<byte>)
    ensures var r := OpenRefusal(dat);
            var sized := |dat| <= 128;
            var padded := sized && |dat| >= 16 && dat[12] == dat[13] == dat[14] == dat[15] == 0xAA;
            var magic := padded && dat[0] == 0x4C;
            var version := magic && dat[1] == 2;
            var length := version && FromLittle(dat[8..12]) == |dat| - 16 == LengthOf(dat[2]);
            var plain := length && dat[3] == 0;
            && (r.TooBig? <==> !sized)
            && (r.BadMagic? <==> sized && !magic)
            && (r.BadVersion? <==> magic && !version)
            && (r.BadLen? <==> version && !length)
            && (r.BadPayload? <==> length && !plain)
            && (r.Ok? <==> plain)
  {
    if |dat| >= 16 {
      assert dat[12..16] == [dat[12], dat[13], dat[14], dat[15]];
    }
  }

  // ---- Payloads

  function PackRequest(r: E.Request): (p: seq<byte>)
    ensures |p| == 44
  {
    r.session + Little(r.requestId, 4) + r.instance + [r.origin, r.capability, r.evidenceClass, r.reserved] + Little(r.seed, 4)
  }

  function PackObservation(o: E.Observation): (p: seq<byte>)
    ensures |p| == 104
  {
    o.session + Little(o.requestId, 4) + o.instance + o.subject + [o.origin, o.capability, o.evidenceClass, o.ok] +
    Little(o.seed, 4) + Little(o.elapsedMs, 4) + Little(o.error, 4) + o.data
  }

  function PackPing(session: Id, nonce: Id, stamp: seq<byte>): seq<byte> {
    session + nonce + stamp
  }

  function PackLeave(session: Id, reason: u32, last: u32): seq<byte> {
    session + Little(reason, 4) + Little(last, 4)
  }

  /** app_id, "LabClient" in 16 bytes, the client's own name in 24, and its nonce. */
  function PackHello(name: seq<byte>, nonce: Id): seq<byte> {
    [0x01, 0x42, 0x41, 0x4C] + [0x4C, 0x61, 0x62, 0x43, 0x6C, 0x69, 0x65, 0x6E, 0x74, 0, 0, 0, 0, 0, 0, 0] + name + nonce
  }

  lemma WordOf(v: u32)
    ensures Word(Little(v, 4)) == v
  {
    PowValues();
    LittleRoundTrip(v, 4);
  }

  lemma WordIs(s: seq<byte>)
    requires |s| == 4
    ensures Little(Word(s), 4) == s
  {
    LittleBytes(s);
  }

  lemma RequestParts(a: Id, b: seq<byte>, c: Id, d: seq<byte>, e: seq<byte>)
    requires |b| == 4 && |d| == 4 && |e| == 4
    ensures var p := a + b + c + d + e;
            |p| == 44 && p[..16] == a && p[16..20] == b && p[20..36] == c
            && p[36] == d[0] && p[37] == d[1] && p[38] == d[2] && p[39] == d[3] && p[40..44] == e
  {
  }

  lemma RequestReadsBack(r: E.Request)
    ensures ParseRequest(PackRequest(r)) == r
  {
    WordOf(r.requestId);
    WordOf(r.seed);
    RequestParts(r.session, Little(r.requestId, 4), r.instance, [r.origin, r.capability, r.evidenceClass, r.reserved], Little(r.seed, 4));
  }

  lemma RequestSlices(p: seq<byte>)
    requires |p| == 44
    ensures p == p[..16] + p[16..20] + p[20..36] + p[36..40] + p[40..44]
  {
    Consecutive(p, 0, 16, 20);
    Consecutive(p, 0, 20, 36);
    Consecutive(p, 0, 36, 40);
    Consecutive(p, 0, 40, 44);
  }

  lemma RequestCanonical(p: seq<byte>)
    requires |p| == 44
    ensures PackRequest(ParseRequest(p)) == p
  {
    RequestSlices(p);
    WordIs(p[16..20]);
    WordIs(p[40..44]);
    assert [p[36], p[37], p[38], p[39]] == p[36..40];
  }

  /** Every request is read back as packed, and only its own bytes read as it. */
  lemma RequestRoundTrip(r: E.Request, p: seq<byte>)
    requires |p| == 44
    ensures ParseRequest(PackRequest(r)) == r
    ensures PackRequest(ParseRequest(p)) == p
  {
    RequestReadsBack(r);
    RequestCanonical(p);
  }

  lemma ObservationParts(a: Id, b: seq<byte>, c: Id, d: Id, e: seq<byte>, f: seq<byte>, g: seq<byte>, h: seq<byte>, i: E.Data)
    requires |b| == 4 && |e| == 4 && |f| == 4 && |g| == 4 && |h| == 4
    ensures var p := a + b + c + d + e + f + g + h + i;
            |p| == 104 && p[..16] == a && p[16..20] == b && p[20..36] == c && p[36..52] == d
            && p[52] == e[0] && p[53] == e[1] && p[54] == e[2] && p[55] == e[3]
            && p[56..60] == f && p[60..64] == g && p[64..68] == h && p[68..104] == i
  {
  }

  lemma ObservationReadsBack(o: E.Observation)
    ensures ParseObservation(PackObservation(o)) == o
  {
    WordOf(o.requestId);
    WordOf(o.seed);
    WordOf(o.elapsedMs);
    WordOf(o.error);
    ObservationParts(o.session, Little(o.requestId, 4), o.instance, o.subject,
                     [o.origin, o.capability, o.evidenceClass, o.ok],
                     Little(o.seed, 4), Little(o.elapsedMs, 4), Little(o.error, 4), o.data);
  }

  lemma ObservationSlices(p: seq<byte>)
    requires |p| == 104
    ensures p == p[..16] + p[16..20] + p[20..36] + p[36..52] + p[52..56] + p[56..60] + p[60..64] + p[64..68] + p[68..104]
  {
    Consecutive(p, 0, 16, 20);
    Consecutive(p, 0, 20, 36);
    Consecutive(p, 0, 36, 52);
    Consecutive(p, 0, 52, 56);
    Consecutive(p, 0, 56, 60);
    Consecutive(p, 0, 60, 64);
    Consecutive(p, 0, 64, 68);
    Consecutive(p, 0, 68, 104);
  }

  lemma ObservationCanonical(p: seq<byte>)
    requires |p| == 104
    ensures PackObservation(ParseObservation(p)) == p
  {
    ObservationSlices(p);
    ObservationWords(p, ParseObservation(p));
  }

  lemma ObservationWords(p: seq<byte>, o: E.Observation)
    requires |p| == 104 && o == ParseObservation(p)
    ensures o.session == p[..16] && Little(o.requestId, 4) == p[16..20] && o.instance == p[20..36] && o.subject == p[36..52]
    ensures [o.origin, o.capability, o.evidenceClass, o.ok] == p[52..56] && Little(o.seed, 4) == p[56..60]
    ensures Little(o.elapsedMs, 4) == p[60..64] && Little(o.error, 4) == p[64..68] && o.data == p[68..104]
  {
    WordIs(p[16..20]);
    WordIs(p[56..60]);
    WordIs(p[60..64]);
    WordIs(p[64..68]);
  }

  /** Every observation is read back as packed, and only its own bytes read as it. */
  lemma ObservationRoundTrip(o: E.Observation, p: seq<byte>)
    requires |p| == 104
    ensures ParseObservation(PackObservation(o)) == o
    ensures PackObservation(ParseObservation(p)) == p
  {
    ObservationReadsBack(o);
    ObservationCanonical(p);
  }

  // ---- What is answered

  /** The session can still take this number. */
  predicate Usable(c: Client, number: u32)
    requires |c.sequence.seen| == 16
  {
    && 1 <= number < 0xFFFF_FFFF && c.sequence.next < 0xFFFF_FFFF
    && number <= c.sequence.next + 8 && c.sequence.next <= number + 16
    && (number < c.sequence.next ==> c.sequence.seen[number % 16] != number)
  }

  /** And has then taken it. */
  predicate Consumed(c: Client, number: u32, c': Client) {
    && |c.sequence.seen| == 16 && c'.sequence.seen == c.sequence.seen[number % 16 := number]
    && c'.sequence.next == if number >= c.sequence.next then number + 1 else c.sequence.next
  }

  /** A well-formed REQUEST under a usable number, with nothing pending in time, is answered
      PENDING and becomes the pending request. */
  lemma RequestAnswered(policy: E.Policy, c: Client, r: E.Request, number: u32, env: Env)
    requires SessionInv(c) && c.used && Usable(c, number)
    requires E.Entitled(c.evidence, policy, r.session, r.instance, r.origin, r.capability, r.evidenceClass)
    requires r.reserved == 0 && r.requestId > c.evidence.lastRequest
    requires (c.evidence.pending ==> c.evidence.deadline <= env.now) && env.now + policy.timeoutMs <= U64_MAX
    ensures var (c', reply) := DoOpen(policy, c, Datagram(0x40, number, PackRequest(r)), env);
            && reply == Decision(c.session, r.requestId, Pending, Ok, number)
            && Consumed(c, number, c') && c'.lastRx == env.later
            && c'.evidence.pending && c'.evidence.request == r && c'.evidence.lastRequest == r.requestId
            && c'.evidence.deadline == env.now + policy.timeoutMs
  {
    DatagramRead(0x40, number, PackRequest(r));
    RequestReadsBack(r);
    E.RequestGrantedExactly(c.evidence, policy, r, env.now);
  }

  /** The OBSERVATION that fits the pending request, in time and under a usable number, is
      answered ACCEPTED and settles it. */
  lemma ObservationAnswered(policy: E.Policy, c: Client, o: E.Observation, number: u32, env: Env)
    requires SessionInv(c) && c.used && Usable(c, number)
    requires E.Entitled(c.evidence, policy, o.session, o.instance, o.origin, o.capability, o.evidenceClass)
    requires c.evidence.pending && env.now < c.evidence.deadline && Matches(c.evidence.request, o)
    requires NonZero(o.subject) && o.ok == 1 && o.error == 0 && o.elapsedMs <= policy.timeoutMs
    requires E.DataFits(o.capability, o.data)
    ensures var (c', reply) := DoOpen(policy, c, Datagram(0x41, number, PackObservation(o)), env);
            && reply == Decision(c.session, o.requestId, Accepted, Ok, number)
            && Consumed(c, number, c') && c'.lastRx == env.later && c'.evidence == c.evidence.(pending := false)
  {
    DatagramRead(0x41, number, PackObservation(o));
    ObservationReadsBack(o);
    E.ObservationAcceptedExactly(c.evidence, policy, o, env.now);
  }

  /** A PING of the session under a usable number is answered with its own stamp and nonce. */
  lemma PingAnswered(policy: E.Policy, c: Client, nonce: Id, stamp: seq<byte>, number: u32, env: Env)
    requires SessionInv(c) && c.used && Usable(c, number) && |stamp| == 8
    ensures var (c', reply) := DoOpen(policy, c, Datagram(0x10, number, PackPing(c.session, nonce, stamp)), env);
            reply == Pong(stamp, nonce) && Consumed(c, number, c') && c'.lastRx == env.later && c'.evidence == c.evidence
  {
    var pay := PackPing(c.session, nonce, stamp);
    DatagramRead(0x10, number, pay);
    assert pay[..16] == c.session && pay[16..32] == nonce && pay[32..40] == stamp;
  }

  /** A PING or BYE of another session changes nothing and is answered BAD_SESSION. */
  lemma StrangerAnswered(policy: E.Policy, c: Client, session: Id, nonce: Id, stamp: seq<byte>, number: u32, env: Env)
    requires SessionInv(c) && c.used && session != c.session && |stamp| == 8
    ensures DoOpen(policy, c, Datagram(0x10, number, PackPing(session, nonce, stamp)), env) == SendReset(c, BadSession)
    ensures DoOpen(policy, c, Datagram(0x30, number, PackLeave(session, 0, 0)), env) == SendReset(c, BadSession)
  {
    var ping, bye := PackPing(session, nonce, stamp), PackLeave(session, 0, 0);
    DatagramRead(0x10, number, ping);
    DatagramRead(0x30, number, bye);
    assert ping[..16] == session && bye[..16] == session;
  }

  /** BYE of the session is acknowledged with reason 0 and frees the slot. */
  lemma ByeAnswered(policy: E.Policy, c: Client, reason: u32, number: u32, env: Env)
    requires SessionInv(c) && c.used
    ensures DoOpen(policy, c, Datagram(0x30, number, PackLeave(c.session, reason, 0)), env) == (CLEARED, Reset(c.session, Ok, c.nrst))
  {
    var bye := PackLeave(c.session, reason, 0);
    DatagramRead(0x30, number, bye);
    assert bye[..16] == c.session;
  }

  /** So is a RST of the session with a message that fits. */
  lemma RstAnswered(policy: E.Policy, c: Client, reason: u32, length: u32, message: seq<byte>, number: u32, env: Env)
    requires SessionInv(c) && c.used && |message| == 36
    ensures DoOpen(policy, c, Datagram(0x20, number, PackLeave(c.session, reason, length) + message), env) ==
            if length <= 36 then (CLEARED, Reset(c.session, Ok, c.nrst)) else SendReset(c, BadPayload)
  {
    var rst := PackLeave(c.session, reason, length) + message;
    DatagramRead(0x20, number, rst);
    WordOf(length);
    assert rst[..16] == c.session && rst[20..24] == Little(length, 4);
  }

  /** No zero byte up to and including index i. */
  ghost predicate Inside(s: seq<byte>, i: nat)
    requires i < |s|
  {
    forall j :: 0 <= j <= i ==> s[j] != 0
  }

  /** What comes before the first zero byte is printable and no space. */
  ghost predicate PrintsUpToZero(s: seq<byte>) {
    forall i :: 0 <= i < |s| && Inside(s, i) ==> 0x21 <= s[i] <= 0x7E
  }

  lemma InsideShift(s: seq<byte>, i: nat)
    requires i + 1 < |s| && s[0] != 0
    ensures Inside(s, i + 1) <==> Inside(s[1..], i)
  {
    assert forall j :: 0 <= j <= i ==> s[1..][j] == s[j + 1];
    if Inside(s[1..], i) {
      forall j | 0 <= j <= i + 1 ensures s[j] != 0 {
        assert j > 0 ==> s[1..][j - 1] == s[j];
      }
    }
  }

  lemma PrintsShift(s: seq<byte>)
    requires s != [] && s[0] != 0
    ensures PrintsUpToZero(s) <==> 0x21 <= s[0] <= 0x7E && PrintsUpToZero(s[1..])
  {
    assert Inside(s, 0);
    forall i | 0 <= i < |s| - 1 ensures Inside(s, i + 1) <==> Inside(s[1..], i) {
      InsideShift(s, i);
    }
    if PrintsUpToZero(s) {
      forall i | 0 <= i < |s| - 1 && Inside(s[1..], i) ensures 0x21 <= s[1..][i] <= 0x7E {
        assert Inside(s, i + 1);
      }
    }
    if 0x21 <= s[0] <= 0x7E && PrintsUpToZero(s[1..]) {
      forall i | 0 <= i < |s| && Inside(s, i) ensures 0x21 <= s[i] <= 0x7E {
        assert i > 0 ==> Inside(s, (i - 1) + 1) && s[1..][i - 1] == s[i];
      }
    }
  }

  lemma {:induction false} PrintableExactly(s: seq<byte>)
    ensures Printable(s) <==> PrintsUpToZero(s)
  {
    if s != [] && s[0] != 0 {
      PrintableExactly(s[1..]);
      PrintsShift(s);
    }
  }

  /** Which 60 bytes a HELLO may carry. */
  lemma HelloFormedExactly(pay: seq<byte>)
    requires |pay| == 60
    ensures HelloWellFormed(pay) <==>
            && FromLittle(pay[..4]) == 0x4C414201
            && pay[4..14] == [0x4C, 0x61, 0x62, 0x43, 0x6C, 0x69, 0x65, 0x6E, 0x74, 0]
            && PrintsUpToZero(pay[20..44])
            && NonZero(pay[44..60])
  {
    PrintableExactly(pay[20..44]);
  }

  /** A HELLO with a printable name and a nonzero nonce that no session has is acknowledged
      with that nonce and the ids drawn. */
  lemma HelloAnswered(from: Peer, name: seq<byte>, nonce: Id, env: Env)
    requires |name| == 24 && Printable(name) && NonZero(nonce) && env.random.Drawn? && env.sent
    ensures var (c, reply) := DoNew(CLEARED.(addr := from), Datagram(0x01, 0, PackHello(name, nonce)), false, env);
            && JustOpened(c) && c.cnonce == nonce && c.session == env.random.session && c.snonce == env.random.snonce
            && c.hello == PackHello(name, nonce) && reply == Ack(AckBytes(c)) && c.openT == c.lastRx == env.later
  {
    var pay := PackHello(name, nonce);
    DatagramRead(0x01, 0, pay);
    HelloParts([0x01, 0x42, 0x41, 0x4C], name, nonce);
    assert Word([0x01, 0x42, 0x41, 0x4C]) == 0x4C414201 by {
      var w: seq<byte> := [0x01, 0x42, 0x41, 0x4C];
      assert FromLittle(w) == 0x01 + 256 * FromLittle(w[1..]);
      assert FromLittle(w[1..]) == 0x42 + 256 * FromLittle(w[1..][1..]);
      assert FromLittle(w[1..][1..]) == 0x41 + 256 * FromLittle(w[1..][1..][1..]);
      assert FromLittle(w[1..][1..][1..]) == 0x4C;
    }
  }

  lemma HelloParts(id: seq<byte>, name: seq<byte>, nonce: Id)
    requires |id| == 4 && |name| == 24
    ensures var p := id + [0x4C, 0x61, 0x62, 0x43, 0x6C, 0x69, 0x65, 0x6E, 0x74, 0, 0, 0, 0, 0, 0, 0] + name + nonce;
            |p| == 60 && p[..4] == id && p[4..14] == APP && p[20..44] == name && p[44..60] == nonce
  {
  }
}
