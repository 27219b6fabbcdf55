/** lab/server/server.c, one client slot: what a datagram does to an open session and how
    a session is opened. */
module LabSession {
  import opened Bytes
  import opened LabContract
  import W = SequenceWindow
  import E = Evidence

  const MAGIC: byte := 0x4C
  const VERSION: byte := 2
  const MAX_DATAGRAM: nat := 128

  const HELLO: byte := 0x01
  const HELLO_ACK: byte := 0x02
  const PING: byte := 0x10
  const PONG: byte := 0x11
  const RST: byte := 0x20
  const BYE: byte := 0x30
  const REQUEST: byte := 0x40
  const OBSERVATION: byte := 0x41
  const DECISION: byte := 0x42

  const APP_ID: nat := 0x4C414201
  /** "LabClient" and its NUL. */
  const APP: seq<byte> := [0x4C, 0x61, 0x62, 0x43, 0x6C, 0x69, 0x65, 0x6E, 0x74, 0]

  datatype Peer = Peer(family: nat, address: u32, port: nat)

  datatype Header = Header(magic: byte, version: byte, kind: byte, flags: byte, number: u32, length: u32)
  datatype Parsed = NoHeader | HasHeader(header: Header)

  function PayloadLength(kind: byte): nat {
    if kind == HELLO then 60 else if kind == HELLO_ACK then 56 else if kind == PING then 40
    else if kind == PONG then 28 else if kind == RST then 60 else if kind == BYE then 24
    else if kind == REQUEST then 44 else if kind == OBSERVATION then 104 else if kind == DECISION then 28 else 0
  }

  function Word(s: seq<byte>): u32
    requires |s| == 4
  {
    PowValues(); LittleBytes(s);
    FromLittle(s)
  }

  function ParseHeader(dat: seq<byte>): Parsed {
    if |dat| < 16 || dat[12..16] != [0xAA, 0xAA, 0xAA, 0xAA] then NoHeader
    else HasHeader(Header(dat[0], dat[1], dat[2], dat[3], Word(dat[4..8]), Word(dat[8..12])))
  }

  function PackHeader(h: Header): (s: seq<byte>)
    ensures |s| == 16
  {
    [h.magic, h.version, h.kind, h.flags] + Little(h.number, 4) + Little(h.length, 4) + [0xAA, 0xAA, 0xAA, 0xAA]
  }

  /** Every header is read back, whatever payload follows, and only packed headers are read. */
  lemma HeaderRoundTrip(h: Header, payload: seq<byte>, dat: seq<byte>)
    ensures ParseHeader(PackHeader(h) + payload) == HasHeader(h)
    ensures ParseHeader(dat).HasHeader? <==> |dat| >= 16 && dat[12..16] == [0xAA, 0xAA, 0xAA, 0xAA]
    ensures ParseHeader(dat).HasHeader? ==> PackHeader(ParseHeader(dat).header) == dat[..16]
  {
    PowValues();
    var s := PackHeader(h) + payload;
    assert s[4..8] == Little(h.number, 4) && s[8..12] == Little(h.length, 4) && s[12..16] == [0xAA, 0xAA, 0xAA, 0xAA];
    LittleRoundTrip(h.number, 4);
    LittleRoundTrip(h.length, 4);
    if ParseHeader(dat).HasHeader? {
      LittleBytes(dat[4..8]);
      LittleBytes(dat[8..12]);
      assert dat[..16] == [dat[0], dat[1], dat[2], dat[3]] + dat[4..8] + dat[8..12] + dat[12..16];
    }
  }

  function ParseRequest(p: seq<byte>): E.Request
    requires |p| == 44
  {
    E.Request(p[..16], Word(p[16..20]), p[20..36], p[36], p[37], p[38], p[39], Word(p[40..44]))
  }

  function ParseObservation(p: seq<byte>): E.Observation
    requires |p| == 104
  {
    E.Observation(p[..16], Word(p[16..20]), p[20..36], p[36..52], p[52], p[53], p[54], p[55],
                  Word(p[56..60]), Word(p[60..64]), Word(p[64..68]), p[68..104])
  }

  // ---- The slot

  datatype Client = Client(
    used: bool, open: bool, session: Id, cnonce: Id, sequence: W.Window, evidence: E.State,
    snonce: Id, hello: seq<byte>, nrst: u32, openT: u64, lastRx: u64, addr: Peer)

  const NO_WINDOW: W.Window := W.Window(0, W.FRESH.seen)

  /** memset(c, 0, sizeof *c). */
  const CLEARED: Client := Client(
    false, false, Zeros(16), Zeros(16), NO_WINDOW, E.CLOSED,
    Zeros(16), Zeros(60), 0, 0, 0, Peer(0, 0, 0))

  /** What is sent back; only the ACK is kept as bytes. */
  datatype Reply =
    | Silence
    | Reset(session: Id, reason: Reason, number: u32)
    | Ack(bytes: seq<byte>)
    | Decision(session: Id, requestId: u32, status: Status, reason: Reason, number: u32)
    | Pong(stamp: seq<byte>, echo: Id)

  datatype Status = Rejected | Pending | Accepted

  /** Clock readings of one call, the entropy it may draw, whether sending works. */
  datatype Env = Env(now: u64, later: u64, random: Entropy, sent: bool)
  datatype Entropy = Unavailable | Drawn(session: Id, snonce: Id)

  function SendReset(c: Client, reason: Reason): (r: (Client, Reply)) {
    (c.(nrst := if c.nrst == U32_MAX then 0 else c.nrst + 1), Reset(c.session, reason, c.nrst))
  }

  /** send_hello_ack: header with sequence 0, result 1, reason 0, then the three ids. */
  function AckBytes(c: Client): seq<byte> {
    PackHeader(Header(MAGIC, VERSION, HELLO_ACK, 0, 0, 56)) + AckPayload(c)
  }

  function AckPayload(c: Client): (p: seq<byte>)
    ensures |p| == 56
  {
    Little(1, 4) + Little(0, 4) + c.session + c.snonce + c.cnonce
  }

  /** The client reads from an ACK exactly the three ids of the slot. */
  lemma AckIsRead(c: Client)
    ensures |AckBytes(c)| == 72 && ParseHeader(AckBytes(c)) == HasHeader(Header(MAGIC, VERSION, HELLO_ACK, 0, 0, 56))
    ensures var p := AckBytes(c)[16..];
            Word(p[..4]) == 1 && Word(p[4..8]) == 0 && p[8..24] == c.session && p[24..40] == c.snonce && p[40..] == c.cnonce
  {
    HeaderRoundTrip(Header(MAGIC, VERSION, HELLO_ACK, 0, 0, 56), AckPayload(c), []);
    var p := AckPayload(c);
    assert AckBytes(c)[16..] == p;
    assert p[..4] == Little(1, 4) && p[4..8] == Little(0, 4);
    PowValues();
    LittleRoundTrip(1, 4);
    LittleRoundTrip(0, 4);
  }

  // ---- Opening

  predicate Printable(name: seq<byte>) {
    name == [] || name[0] == 0 || (0x21 <= name[0] <= 0x7E && Printable(name[1..]))
  }

  function HelloNonce(pay: seq<byte>): Id
    requires |pay| == 60
  {
    pay[44..60]
  }

  /** The checks of do_hello up to the nonce. */
  predicate HelloWellFormed(pay: seq<byte>) {
    && |pay| == 60
    && Word(pay[..4]) == APP_ID && pay[4..14] == APP
    && Printable(pay[20..44]) && NonZero(HelloNonce(pay))
  }

  /** What is written into the slot before the ACK is sent. */
  function Filled(c: Client, pay: seq<byte>, session: Id, snonce: Id): Client
    requires |pay| == 60
  {
    c.(session := session, cnonce := HelloNonce(pay), snonce := snonce, hello := pay)
  }

  /** And after it: the slot is in use, its evidence bound, its window reset. */
  function Opened(c: Client, now: u64): Client {
    c.(used := true, open := true, evidence := Bound(c.evidence, c.session, c.cnonce),
       sequence := W.FRESH, openT := now, lastRx := now)
  }

  function Bound(s: E.State, session: Id, instance: Id): E.State {
    s.(open := true, session := session, instance := instance)
  }

  function DoHello(c: Client, pay: seq<byte>, nonceTaken: bool, env: Env): (r: (Client, Reply)) {
    if |pay| != 60 then SendReset(c, if |pay| > 64 && |pay| <= 128 then TooBig else BadLen)
    else if !HelloWellFormed(pay) then SendReset(c, BadPayload)
    else if nonceTaken then SendReset(c, DupNonce)
    else if env.random.Unavailable? then SendReset(c, Busy)
    else if !env.sent then (Filled(c, pay, env.random.session, env.random.snonce), Silence)
    else
      (Opened(Filled(c, pay, env.random.session, env.random.snonce), env.later),
       Ack(AckBytes(Filled(c, pay, env.random.session, env.random.snonce))))
  }

  /** The checks of do_new before the HELLO itself. */
  function NewRefusal(dat: seq<byte>): Reason {
    if |dat| < 16 then BadMagic
    else if dat[0] != MAGIC then BadMagic
    else if dat[1] != VERSION then BadVersion
    else if dat[2] != HELLO then BadKind
    else
      match ParseHeader(dat)
      case NoHeader => BadMagic
      case HasHeader(h) =>
        if h.length != |dat| - 16 then BadLen
        else if h.flags != 0 || h.number != 0 then BadPayload
        else Ok
  }

  function DoNew(c: Client, dat: seq<byte>, nonceTaken: bool, env: Env): (r: (Client, Reply)) {
    var reason := NewRefusal(dat);
    if !reason.Ok? then SendReset(c, reason) else DoHello(c, dat[16..], nonceTaken, env)
  }

  /** Why a first datagram does not open a session: the first of these conditions that fails.
      Every refusal is a reset that carries the slot's session and counts itself. */
  lemma OpeningReasonExactly(c: Client, dat: seq<byte>, nonceTaken: bool, env: Env)
    requires |dat| <= 128
    ensures var (c', reply) := DoNew(c, dat, nonceTaken, env);
            var magic := |dat| >= 16 && dat[0] == 0x4C;
            var version := magic && dat[1] == 2;
            var kind := version && dat[2] == 0x01;
            var padded := kind && dat[12] == dat[13] == dat[14] == dat[15] == 0xAA;
            var length := padded && FromLittle(dat[8..12]) == |dat| - 16;
            var plain := length && dat[3] == 0 && dat[4] == dat[5] == dat[6] == dat[7] == 0;
            var hello := plain && |dat| == 76;
            var formed := hello && HelloWellFormed(dat[16..]);
            var new_ := formed && !nonceTaken;
            var drawn := new_ && env.random.Drawn?;
            && (reply.Reset? <==> !drawn)
            && (reply.Silence? <==> drawn && !env.sent) && (reply.Ack? <==> drawn && env.sent)
            && (reply.Reset? ==>
                  && reply.session == c.session && reply.number == c.nrst && c' == c.(nrst := c'.nrst)
                  && (reply.reason.BadMagic? <==> !magic || (kind && !padded))
                  && (reply.reason.BadVersion? <==> magic && !version)
                  && (reply.reason.BadKind? <==> version && !kind)
                  && (reply.reason.BadLen? <==> (padded && !length) || (plain && !hello && |dat| <= 80))
                  && (reply.reason.TooBig? <==> plain && !hello && |dat| > 80)
                  && (reply.reason.BadPayload? <==> (length && !plain) || (hello && !formed))
                  && (reply.reason.DupNonce? <==> formed && !new_)
                  && (reply.reason.Busy? <==> new_ && !drawn))
  {
    if |dat| >= 16 {
      assert dat[12..16] == [dat[12], dat[13], dat[14], dat[15]];
      ZeroWord(dat[4..8]);
    }
  }

  lemma ZeroWord(s: seq<byte>)
    requires |s| == 4
    ensures Word(s) == 0 <==> s[0] == s[1] == s[2] == s[3] == 0
  {
    assert FromLittle(s) == s[0] + 256 * FromLittle(s[1..]);
    assert FromLittle(s[1..]) == s[1] + 256 * FromLittle(s[1..][1..]);
    assert FromLittle(s[1..][1..]) == s[2] + 256 * FromLittle(s[1..][1..][1..]);
    assert FromLittle(s[1..][1..][1..]) == s[3];
  }

  // ---- An open session

  /** The policy verdict on the payload, and the evidence state it would lead to. */
  function Verdict(policy: E.Policy, c: Client, kind: byte, pay: seq<byte>, now: u64): (Reason, E.State)
    requires |pay| == PayloadLength(kind) && (kind == REQUEST || kind == OBSERVATION)
  {
    if kind == REQUEST then E.PolicyRequest(c.evidence, policy, ParseRequest(pay), now)
    else E.PolicyObservation(c.evidence, policy, ParseObservation(pay), now)
  }

  function RequestIdOf(kind: byte, pay: seq<byte>): u32
    requires |pay| == PayloadLength(kind) && (kind == REQUEST || kind == OBSERVATION)
  {
    if kind == REQUEST then ParseRequest(pay).requestId else ParseObservation(pay).requestId
  }

  /** Policy first, then the sequence number, both on copies. */
  function EvidenceReason(policy: E.Policy, c: Client, h: Header, pay: seq<byte>, now: u64): Reason
    requires c.sequence.Valid() && |pay| == PayloadLength(h.kind) && (h.kind == REQUEST || h.kind == OBSERVATION)
  {
    var reason := Verdict(policy, c, h.kind, pay, now).0;
    if reason.Ok? then W.Admit(c.sequence, h.number).0 else reason
  }

  function DoEvidence(policy: E.Policy, c: Client, h: Header, pay: seq<byte>, env: Env): (r: (Client, Reply))
    requires c.sequence.Valid() && |pay| == PayloadLength(h.kind) && (h.kind == REQUEST || h.kind == OBSERVATION)
  {
    var reason := EvidenceReason(policy, c, h, pay, env.now);
    var status := if !reason.Ok? then Rejected else if h.kind == REQUEST then Pending else Accepted;
    var c' := if reason.Closing? then CLEARED
              else if !reason.Ok? then c
              else c.(evidence := Verdict(policy, c, h.kind, pay, env.now).1,
                      sequence := W.Admit(c.sequence, h.number).1, lastRx := env.later);
    (c', Decision(c.session, RequestIdOf(h.kind, pay), status, reason, h.number))
  }

  function DoPing(c: Client, h: Header, pay: seq<byte>, env: Env): (r: (Client, Reply))
    requires c.sequence.Valid() && |pay| == 40
  {
    if pay[..16] != c.session then SendReset(c, BadSession)
    else
      var admitted := W.Admit(c.sequence, h.number);
      if admitted.0.Closing? then (CLEARED, SendReset(c, admitted.0).1)
      else if !admitted.0.Ok? then SendReset(c, admitted.0)
      else (c.(sequence := admitted.1, lastRx := env.later), Pong(pay[32..40], pay[16..32]))
  }

  /** BYE, and a RST from the client. */
  function DoLeave(c: Client, h: Header, pay: seq<byte>): (r: (Client, Reply))
    requires |pay| == PayloadLength(h.kind) && (h.kind == BYE || h.kind == RST)
  {
    if pay[..16] != c.session then SendReset(c, BadSession)
    else if h.kind == RST && Word(pay[20..24]) > 36 then SendReset(c, BadPayload)
    else (CLEARED, SendReset(c, Ok).1)
  }

  function OpenRefusal(dat: seq<byte>): Reason {
    if |dat| > MAX_DATAGRAM then TooBig
    else
      match ParseHeader(dat)
      case NoHeader => BadMagic
      case HasHeader(h) =>
        if h.magic != MAGIC then BadMagic
        else if h.version != VERSION then BadVersion
        else if h.length != |dat| - 16 || PayloadLength(h.kind) != h.length then BadLen
        else if h.flags != 0 then BadPayload
        else Ok
  }

  function DoOpen(policy: E.Policy, c: Client, dat: seq<byte>, env: Env): (r: (Client, Reply))
    requires c.sequence.Valid()
  {
    var reason := OpenRefusal(dat);
    if !reason.Ok? then SendReset(c, reason)
    else
      var h, pay := ParseHeader(dat).header, dat[16..];
      if h.kind == HELLO then
        if h.number == 0 && pay == c.hello then (c, Ack(AckBytes(c))) else SendReset(c, DupSession)
      else if h.kind == REQUEST || h.kind == OBSERVATION then DoEvidence(policy, c, h, pay, env)
      else if h.kind == PING then DoPing(c, h, pay, env)
      else if h.kind == BYE || h.kind == RST then DoLeave(c, h, pay)
      else SendReset(c, BadKind)
  }

  // ---- A whole session

  /** The state do_hello leaves behind, or any later one of the same session. */
  ghost predicate SessionInv(c: Client) {
    && c.open && c.sequence.Valid() && c.evidence.open
    && c.evidence.session == c.session && c.evidence.instance == c.cnonce
  }

  ghost predicate JustOpened(c: Client) {
    SessionInv(c) && c.used && c.sequence == W.FRESH && !c.evidence.pending
  }

  /** A datagram with the clock readings of its handling. */
  datatype Event = Event(dat: seq<byte>, env: Env)

  ghost predicate StepAt(policy: E.Policy, states: seq<Client>, events: seq<Event>, replies: seq<Reply>, i: nat)
    requires i < |events| == |replies| && i + 1 < |states|
  {
    && states[i].used && states[i].sequence.Valid()
    && states[i + 1] == DoOpen(policy, states[i], events[i].dat, events[i].env).0
    && replies[i] == DoOpen(policy, states[i], events[i].dat, events[i].env).1
  }

  /** Consecutive states of one session, used until the last one, and what was answered. */
  ghost predicate IsSession(policy: E.Policy, states: seq<Client>, events: seq<Event>, replies: seq<Reply>) {
    && |states| == |events| + 1 && |replies| == |events| && JustOpened(states[0])
    && forall i :: 0 <= i < |events| ==> StepAt(policy, states, events, replies, i)
  }

  lemma SessionGrows(policy: E.Policy, states: seq<Client>, events: seq<Event>, replies: seq<Reply>, e: Event)
    returns (states': seq<Client>, replies': seq<Reply>)
    requires IsSession(policy, states, events, replies)
    requires states[|states| - 1].used && states[|states| - 1].sequence.Valid()
    ensures IsSession(policy, states', events + [e], replies') && states'[0] == states[0]
    ensures states'[|states'| - 1] == DoOpen(policy, states[|states| - 1], e.dat, e.env).0
  {
    var (c, reply) := DoOpen(policy, states[|states| - 1], e.dat, e.env);
    states', replies' := states + [c], replies + [reply];
    forall k | 0 <= k < |events| + 1 ensures StepAt(policy, states', events + [e], replies', k) {
      if k < |events| {
        assert StepAt(policy, states, events, replies, k);
      }
    }
  }

  predicate Granted(reply: Reply) {
    reply.Pong? || Decides(reply, Pending) || Decides(reply, Accepted)
  }

  predicate Decides(reply: Reply, status: Status) {
    reply.Decision? && reply.status == status
  }

  function NumberOf(e: Event): u32 {
    match ParseHeader(e.dat) case HasHeader(h) => h.number case NoHeader => 0
  }

  /** What one datagram did to the slot: nothing but the reset counter, or everything, or
      exactly its own grant. */
  ghost predicate GrantOrNothing(c: Client, number: u32, later: u64, r: (Client, Reply))
    requires c.sequence.Valid()
  {
    && (!Granted(r.1) ==> r.0 == CLEARED || r.0 == c.(nrst := r.0.nrst))
    && (Granted(r.1) ==>
          && SessionInv(r.0) && r.0.used && W.Admit(c.sequence, number) == (Ok, r.0.sequence)
          && r.0 == c.(sequence := r.0.sequence, evidence := r.0.evidence, lastRx := later))
  }

  lemma EvidenceGrants(policy: E.Policy, c: Client, h: Header, pay: seq<byte>, env: Env)
    requires SessionInv(c) && c.used
    requires |pay| == PayloadLength(h.kind) && (h.kind == REQUEST || h.kind == OBSERVATION)
    ensures GrantOrNothing(c, h.number, env.later, DoEvidence(policy, c, h, pay, env))
  {
  }

  /** The number can never be accepted again in this session. */
  predicate Exhausted(c: Client, number: u32) {
    number != 0 && (number == U32_MAX || c.sequence.next == U32_MAX)
  }

  /** A datagram that only its number could still stop: a PING of this session, or evidence
      the policy agrees with. */
  predicate UpToItsNumber(policy: E.Policy, c: Client, e: Event) {
    OpenRefusal(e.dat).Ok? &&
    var h, pay := ParseHeader(e.dat).header, e.dat[16..];
    || (h.kind == PING && pay[..16] == c.session)
    || ((h.kind == REQUEST || h.kind == OBSERVATION) && Verdict(policy, c, h.kind, pay, e.env.now).0.Ok?)
  }

  /** A refusal that ends the session all the same. */
  predicate ClosesByNumber(policy: E.Policy, c: Client, e: Event) {
    UpToItsNumber(policy, c, e) && Exhausted(c, NumberOf(e))
  }

  /** BYE or RST of this session: the client leaves. */
  predicate Leaves(c: Client, e: Event) {
    OpenRefusal(e.dat).Ok? &&
    var h, pay := ParseHeader(e.dat).header, e.dat[16..];
    (h.kind == BYE || (h.kind == RST && Word(pay[20..24]) <= 36)) && pay[..16] == c.session
  }

  predicate Refuses(reply: Reply) {
    Decides(reply, Rejected) || (reply.Reset? && !reply.reason.Ok?)
  }

  predicate SaysClosing(reply: Reply) {
    (reply.Decision? || reply.Reset?) && reply.reason.Closing?
  }

  /** When exactly an open session loses its slot: on a refusal if and only if the number is
      exhausted and nothing else was wrong, and otherwise only because the client leaves. */
  lemma ClearedExactly(policy: E.Policy, c: Client, e: Event)
    requires SessionInv(c) && c.used
    ensures var (c', reply) := DoOpen(policy, c, e.dat, e.env);
            && (!c'.used ==> c' == CLEARED)
            && (Refuses(reply) && !c'.used <==> ClosesByNumber(policy, c, e))
            && (!c'.used <==> ClosesByNumber(policy, c, e) || Leaves(c, e))
            && (SaysClosing(reply) <==> ClosesByNumber(policy, c, e))
  {
  }

  /** Such a refusal can always be provoked: whatever is pending, a PING of the session with
      the last number is refused and takes the pending request with it. */
  lemma LastNumberCloses(policy: E.Policy, c: Client, nonce: Id, stamp: seq<byte>, env: Env) returns (e: Event)
    requires SessionInv(c) && c.used && c.evidence.pending && |stamp| == 8
    ensures e.env == env && NumberOf(e) == U32_MAX
    ensures var (c', reply) := DoOpen(policy, c, e.dat, e.env);
            reply == Reset(c.session, Closing, c.nrst) && Refuses(reply) && c' == CLEARED && !c'.evidence.pending
  {
    var h, pay := Header(MAGIC, VERSION, PING, 0, U32_MAX, 40), c.session + nonce + stamp;
    e := Event(PackHeader(h) + pay, env);
    HeaderRoundTrip(h, pay, []);
    assert e.dat[16..] == pay && pay[..16] == c.session;
    ClearedExactly(policy, c, e);
  }

  /** A datagram that is not granted leaves evidence, sequence and deadline alone, unless it
      ends the session, which happens exactly when its number is exhausted or the client
      leaves; one that is granted consumes its own number. */
  lemma RefusedChangesNothing(policy: E.Policy, c: Client, e: Event)
    requires SessionInv(c) && c.used
    ensures var r := DoOpen(policy, c, e.dat, e.env);
            && GrantOrNothing(c, NumberOf(e), e.env.later, r) && (Granted(r.1) ==> ParseHeader(e.dat).HasHeader?)
            && (r.0 == CLEARED <==> ClosesByNumber(policy, c, e) || Leaves(c, e))
  {
    ClearedExactly(policy, c, e);
    if OpenRefusal(e.dat).Ok? {
      var h := ParseHeader(e.dat).header;
      if h.kind == REQUEST || h.kind == OBSERVATION {
        EvidenceGrants(policy, c, h, e.dat[16..], e.env);
      }
    }
  }

  // ---- Numbers

  ghost function GrantedNumbers(events: seq<Event>, replies: seq<Reply>, n: nat): set<nat>
    requires n <= |events| == |replies|
  {
    set i | 0 <= i < n && Granted(replies[i]) :: NumberOf(events[i])
  }

  lemma {:induction false} SessionKeeps(policy: E.Policy, states: seq<Client>, events: seq<Event>, replies: seq<Reply>, n: nat)
    requires IsSession(policy, states, events, replies) && n < |states| && states[n].used
    ensures SessionInv(states[n]) && states[n].session == states[0].session && states[n].cnonce == states[0].cnonce
    ensures W.Refines(states[n].sequence, W.Ideal(states[n].sequence.next, GrantedNumbers(events, replies, n)))
  {
    if n == 0 {
      W.FreshRefines();
      assert GrantedNumbers(events, replies, 0) == {};
    } else {
      assert StepAt(policy, states, events, replies, n - 1);
      SessionKeeps(policy, states, events, replies, n - 1);
      var c, e := states[n - 1], events[n - 1];
      RefusedChangesNothing(policy, c, e);
      WindowKeeps(c, NumberOf(e), e.env.later, (states[n], replies[n - 1]), GrantedNumbers(events, replies, n - 1));
      assert GrantedNumbers(events, replies, n) ==
             GrantedNumbers(events, replies, n - 1) + if Granted(replies[n - 1]) then {NumberOf(e)} else {};
    }
  }

  lemma WindowKeeps(c: Client, number: u32, later: u64, r: (Client, Reply), accepted: set<nat>)
    requires SessionInv(c) && W.Refines(c.sequence, W.Ideal(c.sequence.next, accepted))
    requires GrantOrNothing(c, number, later, r) && r.0.used
    ensures SessionInv(r.0) && r.0.session == c.session && r.0.cnonce == c.cnonce
    ensures W.Refines(r.0.sequence, W.Ideal(r.0.sequence.next, accepted + if Granted(r.1) then {number} else {}))
  {
    if Granted(r.1) {
      W.AcceptRefines(c.sequence, W.Ideal(c.sequence.next, accepted), number);
    } else {
      assert accepted + {} == accepted;
    }
  }

  /** Over PING, REQUEST and OBSERVATION in any order, a sequence number is granted at
      most once in a session. */
  lemma NumberGrantedOnce(policy: E.Policy, states: seq<Client>, events: seq<Event>, replies: seq<Reply>, i: nat, j: nat)
    requires IsSession(policy, states, events, replies) && i < j < |events|
    requires Granted(replies[i]) && Granted(replies[j])
    ensures NumberOf(events[i]) != NumberOf(events[j])
  {
    assert StepAt(policy, states, events, replies, j);
    SessionKeeps(policy, states, events, replies, j);
    RefusedChangesNothing(policy, states[j], events[j]);
    assert NumberOf(events[i]) in GrantedNumbers(events, replies, j);
    W.AcceptRefines(states[j].sequence,
                    W.Ideal(states[j].sequence.next, GrantedNumbers(events, replies, j)), NumberOf(events[j]));
  }

  // ---- Requests and observations

  /** The payload of a REQUEST or OBSERVATION datagram. */
  function AsRequest(e: Event): E.Request
    requires |e.dat| == 60
  {
    ParseRequest(e.dat[16..])
  }

  function AsObservation(e: Event): E.Observation
    requires |e.dat| == 120
  {
    ParseObservation(e.dat[16..])
  }

  /** The observation names the request it answers. */
  predicate Matches(r: E.Request, o: E.Observation) {
    (o.requestId, o.origin, o.capability, o.seed) == (r.requestId, r.origin, r.capability, r.seed)
  }

  /** What one decision does to the evidence. */
  lemma DecisionEffect(policy: E.Policy, c: Client, e: Event)
    requires SessionInv(c) && c.used
    ensures var (c', reply) := DoOpen(policy, c, e.dat, e.env);
            && (Decides(reply, Pending) ==>
                  && |e.dat| == 60 && reply.requestId == AsRequest(e).requestId
                  && c'.evidence == c.evidence.(request := AsRequest(e), lastRequest := AsRequest(e).requestId,
                                                deadline := e.env.now + policy.timeoutMs, pending := true))
            && (Decides(reply, Accepted) ==>
                  && |e.dat| == 120 && reply.requestId == AsObservation(e).requestId
                  && c.evidence.pending && e.env.now < c.evidence.deadline
                  && Matches(c.evidence.request, AsObservation(e))
                  && c'.evidence == c.evidence.(pending := false))
            && (!Decides(reply, Pending) && !Decides(reply, Accepted) && c'.used ==> c'.evidence == c.evidence)
  {
  }

  /** No request was granted and no observation accepted strictly between. */
  ghost predicate UndecidedBetween(replies: seq<Reply>, k: nat, m: nat)
    requires m <= |replies|
  {
    forall j :: k < j < m ==> !Decides(replies[j], Pending) && !Decides(replies[j], Accepted)
  }

  /** A pending request is the latest one granted, untouched since. */
  lemma {:induction false} PendingIsLatest(policy: E.Policy, states: seq<Client>, events: seq<Event>, replies: seq<Reply>, n: nat)
    returns (k: nat)
    requires IsSession(policy, states, events, replies) && n < |states| && states[n].used && states[n].evidence.pending
    ensures k < n && Decides(replies[k], Pending) && |events[k].dat| == 60
    ensures states[n].evidence.request == AsRequest(events[k])
    ensures states[n].evidence.deadline == events[k].env.now + policy.timeoutMs
    ensures UndecidedBetween(replies, k, n)
  {
    assert StepAt(policy, states, events, replies, n - 1);
    SessionKeeps(policy, states, events, replies, n - 1);
    DecisionEffect(policy, states[n - 1], events[n - 1]);
    if Decides(replies[n - 1], Pending) {
      k := n - 1;
    } else {
      k := PendingIsLatest(policy, states, events, replies, n - 1);
    }
  }

  /** Every ACCEPTED decision answers the latest PENDING one, with the same request id,
      origin, capability and seed, before its timeout; nothing else was decided between
      them. */
  lemma AcceptedAnswersPending(policy: E.Policy, states: seq<Client>, events: seq<Event>, replies: seq<Reply>, m: nat)
    returns (k: nat)
    requires IsSession(policy, states, events, replies) && m < |events| && Decides(replies[m], Accepted)
    ensures k < m && Decides(replies[k], Pending) && UndecidedBetween(replies, k, m)
    ensures |events[m].dat| == 120 && |events[k].dat| == 60
    ensures Matches(AsRequest(events[k]), AsObservation(events[m]))
    ensures events[m].env.now < events[k].env.now + policy.timeoutMs
  {
    assert StepAt(policy, states, events, replies, m);
    SessionKeeps(policy, states, events, replies, m);
    DecisionEffect(policy, states[m], events[m]);
    k := PendingIsLatest(policy, states, events, replies, m);
  }

  /** No two acceptances answer the same request. */
  lemma AcceptancesApart(policy: E.Policy, states: seq<Client>, events: seq<Event>, replies: seq<Reply>, m: nat, n: nat)
    returns (k: nat, l: nat)
    requires IsSession(policy, states, events, replies) && m < n < |events|
    requires Decides(replies[m], Accepted) && Decides(replies[n], Accepted)
    ensures k < m < l < n
    ensures Decides(replies[k], Pending) && UndecidedBetween(replies, k, m)
    ensures Decides(replies[l], Pending) && UndecidedBetween(replies, l, n)
  {
    k := AcceptedAnswersPending(policy, states, events, replies, m);
    l := AcceptedAnswersPending(policy, states, events, replies, n);
  }
}
