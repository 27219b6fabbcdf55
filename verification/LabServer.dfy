/** lab/server/server.c: the table of sessions behind one UDP socket. */
module LabServer {
  import opened Bytes
  import opened LabContract
  import opened LabSession
  import W = SequenceWindow
  import E = Evidence

  const SLOTS: nat := 32

  /** The command line, after clamping: between 1 and 32 sessions. */
  datatype Config = Config(maxClients: nat, timeoutMs: u32, policy: E.Policy) {
    predicate Valid() {
      1 <= maxClients <= SLOTS
    }
  }

  type Table = seq<Client>

  predicate Loopback(p: Peer) {
    p.address / 0x100_0000 == 127
  }

  // ---- Scans

  function FindPeer(t: Table, p: Peer): (k: nat)
    ensures k <= |t|
    ensures k < |t| ==> t[k].used && t[k].addr == p
    ensures forall j :: 0 <= j < k ==> !(t[j].used && t[j].addr == p)
  {
    if t == [] || (t[0].used && t[0].addr == p) then 0
    else
      var k := FindPeer(t[1..], p);
      assert forall j :: 1 <= j < k + 1 ==> t[j] == t[1..][j - 1];
      k + 1
  }

  function FirstFree(t: Table): (k: nat)
    ensures k <= |t|
    ensures k < |t| ==> !t[k].used
    ensures forall j :: 0 <= j < k ==> t[j].used
  {
    if t == [] || !t[0].used then 0
    else
      var k := FirstFree(t[1..]);
      assert forall j :: 1 <= j < k + 1 ==> t[j] == t[1..][j - 1];
      k + 1
  }

  function CountUsed(t: Table): (n: nat)
    ensures n <= |t|
  {
    if t == [] then 0 else CountUsed(t[..|t| - 1]) + if t[|t| - 1].used then 1 else 0
  }

  predicate NonceTaken(t: Table, nonce: Id) {
    exists i :: 0 <= i < |t| && t[i].used && t[i].cnonce == nonce
  }

  // ---- One datagram, one sweep

  datatype Event =
    | Datagram(from: Peer, dat: seq<byte>, env: Env)
    | Tick(now: u64)

  ghost predicate Shaped(t: Table) {
    |t| == SLOTS && forall i :: 0 <= i < |t| ==> t[i].sequence.Valid()
  }

  /** The slot a datagram is handled in: as it stands, or wiped when it was free. */
  function Prepared(c: Client, from: Peer): Client {
    (if c.used then c else CLEARED).(addr := from)
  }

  /** Slots never overlap, so the handlers see one client and the nonces of the rest. */
  function Handle(cfg: Config, c: Client, nonceTaken: bool, dat: seq<byte>, env: Env): (r: (Client, Reply))
    requires c.sequence.Valid()
    ensures r.0.sequence.Valid()
  {
    if |dat| > MAX_DATAGRAM then SendReset(c, TooBig)
    else if !c.open then DoNew(c, dat, nonceTaken, env)
    else DoOpen(cfg.policy, c, dat, env)
  }

  predicate HelloNonceTaken(t: Table, dat: seq<byte>) {
    |dat| == 76 && NonceTaken(t, HelloNonce(dat[16..]))
  }

  function SlotFor(cfg: Config, t: Table, from: Peer): (k: nat)
    ensures k <= |t|
  {
    var k := FindPeer(t, from);
    if k < |t| then k else if CountUsed(t) >= cfg.maxClients then |t| else FirstFree(t)
  }

  function Receive(cfg: Config, t: Table, from: Peer, dat: seq<byte>, env: Env): (r: (Table, Reply))
    requires Shaped(t)
    ensures Shaped(r.0)
  {
    if !Loopback(from) then (t, SendReset(CLEARED, BadMagic).1)
    else
      var k := SlotFor(cfg, t, from);
      if k == |t| then (t, SendReset(CLEARED, Busy).1)
      else
        var r := Handle(cfg, Prepared(t[k], from), HelloNonceTaken(t, dat), dat, env);
        (t[k := r.0], r.1)
  }

  /** Unsigned 64-bit subtraction. */
  predicate Late(cfg: Config, c: Client, now: u64) {
    c.used && c.open && (now + U64_MAX + 1 - c.lastRx) % (U64_MAX + 1) > cfg.timeoutMs
  }

  function Sweep(cfg: Config, t: Table, now: u64): (r: Table)
    ensures |r| == |t|
    ensures forall i :: 0 <= i < |t| ==> r[i] == if Late(cfg, t[i], now) then CLEARED else t[i]
  {
    if t == [] then []
    else [if Late(cfg, t[0], now) then CLEARED else t[0]] + Sweep(cfg, t[1..], now)
  }

  /** What a sweep sends, in slot order: each client it drops is told why. */
  function Told(cfg: Config, t: Table, now: u64): seq<(Peer, Reply)> {
    if t == [] then []
    else
      var last := t[|t| - 1];
      Told(cfg, t[..|t| - 1], now) + if Late(cfg, last, now) then [(last.addr, SendReset(last, Timeout).1)] else []
  }

  /** Exactly the clients that lose their slot get a TIMEOUT, with their own session. */
  lemma {:induction false} DroppedAreTold(cfg: Config, t: Table, now: u64, p: Peer, reply: Reply)
    ensures (p, reply) in Told(cfg, t, now) <==>
            exists i :: 0 <= i < |t| && Late(cfg, t[i], now) && p == t[i].addr
                        && reply == Reset(t[i].session, Timeout, t[i].nrst)
  {
    if t != [] {
      var init := t[..|t| - 1];
      DroppedAreTold(cfg, init, now, p, reply);
      assert forall i :: 0 <= i < |init| ==> init[i] == t[i];
    }
  }

  /** A client is late exactly when more than the timeout has passed since it was heard. */
  lemma LateExactly(cfg: Config, c: Client, now: u64)
    requires c.used && c.open && c.lastRx <= now
    ensures Late(cfg, c, now) <==> now - c.lastRx > cfg.timeoutMs
  {
    assert now + U64_MAX + 1 - c.lastRx == (now - c.lastRx) + (U64_MAX + 1);
  }

  /** A client heard from within the timeout keeps its slot untouched; any other loses it and
      is told. */
  lemma SweepExactly(cfg: Config, t: Table, now: u64, i: nat)
    requires i < |t| && t[i].used && t[i].open && t[i].lastRx <= now
    ensures now - t[i].lastRx <= cfg.timeoutMs ==> Sweep(cfg, t, now)[i] == t[i]
    ensures now - t[i].lastRx > cfg.timeoutMs ==> Sweep(cfg, t, now)[i] == CLEARED
    ensures now - t[i].lastRx > cfg.timeoutMs ==> (t[i].addr, Reset(t[i].session, Timeout, t[i].nrst)) in Told(cfg, t, now)
  {
    LateExactly(cfg, t[i], now);
    var late := Late(cfg, t[i], now);
    assert Sweep(cfg, t, now)[i] == if late then CLEARED else t[i];
    if late {
      DroppedAreTold(cfg, t, now, t[i].addr, Reset(t[i].session, Timeout, t[i].nrst));
    }
  }

  function Next(cfg: Config, t: Table, e: Event): (r: Table)
    requires Shaped(t)
    ensures Shaped(r)
  {
    match e
    case Datagram(from, dat, env) => Receive(cfg, t, from, dat, env).0
    case Tick(now) => Sweep(cfg, t, now)
  }

  function Run(cfg: Config, t: Table, events: seq<Event>): (r: Table)
    requires Shaped(t)
    ensures Shaped(r)
  {
    if events == [] then t else Next(cfg, Run(cfg, t, events[..|events| - 1]), events[|events| - 1])
  }

  function Empty(n: nat): (t: Table)
    ensures |t| == n && forall i :: 0 <= i < n ==> t[i] == CLEARED
  {
    if n == 0 then [] else Empty(n - 1) + [CLEARED]
  }

  // ---- The table invariant

  /** A session in use: opened by a HELLO of this very peer. */
  ghost predicate SlotInv(c: Client) {
    c.used ==>
      && SessionInv(c) && Loopback(c.addr)
      && |c.hello| == 60 && HelloWellFormed(c.hello) && c.cnonce == HelloNonce(c.hello)
  }

  ghost predicate Apart(a: Client, b: Client) {
    a.used && b.used ==> a.addr != b.addr && a.cnonce != b.cnonce
  }

  ghost predicate TableInv(cfg: Config, t: Table) {
    && Shaped(t) && cfg.Valid() && CountUsed(t) <= cfg.maxClients
    && (forall i :: 0 <= i < |t| ==> SlotInv(t[i]))
    && forall i, j :: 0 <= i < j < |t| ==> Apart(t[i], t[j])
  }

  lemma {:induction false} CountUpdate(t: Table, k: nat, c: Client)
    requires k < |t|
    ensures CountUsed(t[k := c]) == CountUsed(t) + (if c.used then 1 else 0) - (if t[k].used then 1 else 0)
  {
    var init := t[..|t| - 1];
    if k < |init| {
      CountUpdate(init, k, c);
      assert t[k := c][..|t| - 1] == init[k := c];
    } else {
      assert t[k := c][..|t| - 1] == init;
    }
  }

  lemma {:induction false} CountFewer(t: Table, u: Table)
    requires |t| == |u| && forall i :: 0 <= i < |t| && u[i].used ==> t[i].used
    ensures CountUsed(u) <= CountUsed(t)
  {
    if t != [] {
      CountFewer(t[..|t| - 1], u[..|u| - 1]);
    }
  }

  lemma {:induction false} CountEmpty(n: nat)
    ensures CountUsed(Empty(n)) == 0
  {
    if n > 0 {
      CountEmpty(n - 1);
      assert Empty(n)[..n - 1] == Empty(n - 1);
    }
  }

  /** A free slot becomes a session if and only if a well-formed HELLO brings a new nonce,
      entropy can be drawn and the ACK be sent; then it starts fresh, with the ids drawn. */
  lemma OpeningIsFresh(cfg: Config, from: Peer, nonceTaken: bool, dat: seq<byte>, env: Env)
    requires Loopback(from)
    ensures var (c, reply) := Handle(cfg, Prepared(CLEARED, from), nonceTaken, dat, env);
            && c.addr == from && SlotInv(c)
            && (c.used <==>
                  && |dat| == 76 && NewRefusal(dat).Ok? && HelloWellFormed(dat[16..]) && !nonceTaken
                  && env.random.Drawn? && env.sent)
            && (c.used ==>
                  && JustOpened(c) && dat[16..] == c.hello && reply == Ack(AckBytes(c))
                  && c.session == env.random.session && c.snonce == env.random.snonce
                  && c.openT == c.lastRx == env.later)
            && (!c.used ==> !reply.Ack?)
  {
  }

  /** A session in use keeps its identity, or is cleared. */
  lemma IdentityKept(cfg: Config, c: Client, nonceTaken: bool, dat: seq<byte>, env: Env)
    requires c.used && SlotInv(c)
    ensures var c' := Handle(cfg, c, nonceTaken, dat, env).0;
            && SlotInv(c')
            && (c'.used ==> SameIdentity(c, c'))
  {
    RefusedChangesNothing(cfg.policy, c, LabSession.Event(dat, env));
  }

  predicate SameIdentity(a: Client, b: Client) {
    a.addr == b.addr && a.session == b.session && a.snonce == b.snonce && a.cnonce == b.cnonce && a.hello == b.hello
  }

  /** What a datagram can do to the slot it is handled in. */
  lemma HandleEffect(cfg: Config, t: Table, k: nat, from: Peer, dat: seq<byte>, env: Env)
    requires TableInv(cfg, t) && k < |t| && Loopback(from) && (t[k].used ==> t[k].addr == from)
    ensures var c := Handle(cfg, Prepared(t[k], from), HelloNonceTaken(t, dat), dat, env).0;
            && SlotInv(c)
            && (c.used ==> c.addr == from && if t[k].used then SameIdentity(t[k], c) else !NonceTaken(t, c.cnonce))
  {
    if t[k].used {
      IdentityKept(cfg, t[k], HelloNonceTaken(t, dat), dat, env);
    } else {
      OpeningIsFresh(cfg, from, HelloNonceTaken(t, dat), dat, env);
    }
  }

  lemma UpdateKeepsInv(cfg: Config, t: Table, k: nat, c: Client)
    requires TableInv(cfg, t) && k < |t| && SlotInv(c) && c.sequence.Valid()
    requires c.used && !t[k].used ==> CountUsed(t) < cfg.maxClients && !NonceTaken(t, c.cnonce)
    requires c.used && t[k].used ==> c.cnonce == t[k].cnonce
    requires c.used ==> forall j :: 0 <= j < |t| && j != k && t[j].used ==> t[j].addr != c.addr
    ensures TableInv(cfg, t[k := c])
  {
    CountUpdate(t, k, c);
    var u := t[k := c];
    forall i, j | 0 <= i < j < |u| ensures Apart(u[i], u[j]) {
      assert Apart(t[i], t[j]);
    }
  }

  lemma ReceiveKeepsInv(cfg: Config, t: Table, from: Peer, dat: seq<byte>, env: Env)
    requires TableInv(cfg, t)
    ensures TableInv(cfg, Receive(cfg, t, from, dat, env).0)
  {
    var k := SlotFor(cfg, t, from);
    if Loopback(from) && k < |t| {
      HandleEffect(cfg, t, k, from, dat, env);
      assert Prepared(t[k], from).sequence.Valid();
      var c := Handle(cfg, Prepared(t[k], from), HelloNonceTaken(t, dat), dat, env).0;
      forall j | 0 <= j < |t| && j != k && t[j].used ensures t[j].addr != from {
        assert Apart(t[if j < k then j else k], t[if j < k then k else j]);
      }
      UpdateKeepsInv(cfg, t, k, c);
    }
  }

  lemma SweepKeepsInv(cfg: Config, t: Table, now: u64)
    requires TableInv(cfg, t)
    ensures TableInv(cfg, Sweep(cfg, t, now))
  {
    var r := Sweep(cfg, t, now);
    CountFewer(t, r);
    forall i, j | 0 <= i < j < |t| ensures Apart(r[i], r[j]) {
      assert Apart(t[i], t[j]);
    }
  }

  /** In every reachable table the used slots have distinct peers and distinct nonzero
      nonces, are at most `maxClients`, and keep their evidence bound to themselves. */
  lemma {:induction false} ReachableInv(cfg: Config, events: seq<Event>)
    requires cfg.Valid()
    ensures TableInv(cfg, Run(cfg, Empty(SLOTS), events))
  {
    if events == [] {
      CountEmpty(SLOTS);
    } else {
      ReachableInv(cfg, events[..|events| - 1]);
      var t := Run(cfg, Empty(SLOTS), events[..|events| - 1]);
      match events[|events| - 1]
      case Datagram(from, dat, env) => ReceiveKeepsInv(cfg, t, from, dat, env);
      case Tick(now) => SweepKeepsInv(cfg, t, now);
    }
  }

  ghost function UsedSlots(t: Table): set<nat> {
    set i: nat | i < |t| && t[i].used
  }

  /** The clients counted are the slots in use. */
  lemma {:induction false} CountIsSize(t: Table)
    ensures CountUsed(t) == |UsedSlots(t)|
  {
    if t != [] {
      var n := |t| - 1;
      CountIsSize(t[..n]);
      assert UsedSlots(t) == UsedSlots(t[..n]) + if t[n].used then {n} else {};
    } else {
      assert UsedSlots(t) == {};
    }
  }

  /** A peer without a session is turned away, and nothing changes, if and only if it is not
      on the loopback or as many sessions as allowed are in use; otherwise exactly one free
      slot handles its datagram. */
  lemma NewPeerAnswered(cfg: Config, t: Table, from: Peer, dat: seq<byte>, env: Env)
    requires TableInv(cfg, t) && forall i :: 0 <= i < |t| && t[i].used ==> t[i].addr != from
    ensures var (t', reply) := Receive(cfg, t, from, dat, env);
            && (from.address / 0x100_0000 != 127 ==> t' == t && reply.Reset? && reply.reason.BadMagic?)
            && (from.address / 0x100_0000 == 127 && |UsedSlots(t)| >= cfg.maxClients ==> t' == t && reply.Reset? && reply.reason.Busy?)
            && (from.address / 0x100_0000 == 127 && |UsedSlots(t)| < cfg.maxClients ==>
                  exists k :: 0 <= k < |t| && !t[k].used && t' == t[k := t'[k]]
                              && (t'[k], reply) == Handle(cfg, CLEARED.(addr := from), HelloNonceTaken(t, dat), dat, env))
  {
    CountIsSize(t);
    if FirstFree(t) == |t| {
      CountFull(t);
    }
  }

  lemma {:induction false} CountFull(t: Table)
    requires forall i :: 0 <= i < |t| ==> t[i].used
    ensures CountUsed(t) == |t|
  {
    if t != [] {
      CountFull(t[..|t| - 1]);
    }
  }

  // ---- Isolation

  /** A datagram changes no session but its own peer's. */
  lemma OthersUnchanged(cfg: Config, t: Table, from: Peer, dat: seq<byte>, env: Env, j: nat)
    requires Shaped(t) && j < |t| && t[j].used && t[j].addr != from
    ensures Receive(cfg, t, from, dat, env).0[j] == t[j]
  {
  }

  /** The peer's own session sees exactly what do_open makes of it. */
  lemma OwnerHandled(cfg: Config, t: Table, dat: seq<byte>, env: Env, i: nat)
    requires TableInv(cfg, t) && i < |t| && t[i].used
    ensures var (t', reply) := Receive(cfg, t, t[i].addr, dat, env);
            (t', reply) == (t[i := t'[i]], reply) && (t'[i], reply) == DoOpen(cfg.policy, t[i], dat, env)
  {
    forall j | 0 <= j < |t| && j != i && t[j].used ensures t[j].addr != t[i].addr {
      assert Apart(t[if i < j then i else j], t[if i < j then j else i]);
    }
    assert FindPeer(t, t[i].addr) == i;
  }

  /** The slot is in use after every event so far. */
  ghost predicate Lives(cfg: Config, t: Table, events: seq<Event>, i: nat)
    requires Shaped(t) && i < |t|
  {
    forall n :: 0 <= n <= |events| ==> Run(cfg, t, events[..n])[i].used
  }

  lemma LivesToTheEnd(cfg: Config, t: Table, events: seq<Event>, i: nat)
    requires Shaped(t) && i < |t| && Lives(cfg, t, events, i)
    ensures Run(cfg, t, events)[i].used
  {
    assert events[..|events|] == events;
  }

  lemma LivesPrefix(cfg: Config, t: Table, events: seq<Event>, i: nat)
    requires Shaped(t) && i < |t| && Lives(cfg, t, events, i) && events != []
    ensures Lives(cfg, t, events[..|events| - 1], i)
    ensures Run(cfg, t, events)[i].used && Run(cfg, t, events[..|events| - 1])[i].used
  {
    var init := events[..|events| - 1];
    LivesShorter(cfg, t, events, init, i);
    LivesToTheEnd(cfg, t, events, i);
    LivesToTheEnd(cfg, t, init, i);
  }

  lemma LivesShorter(cfg: Config, t: Table, events: seq<Event>, init: seq<Event>, i: nat)
    requires Shaped(t) && i < |t| && Lives(cfg, t, events, i) && init <= events
    ensures Lives(cfg, t, init, i)
  {
    forall n | 0 <= n <= |init| ensures init[..n] == events[..n] {
    }
  }

  /** The datagrams of one peer, in order. */
  function Of(events: seq<Event>, p: Peer): seq<LabSession.Event> {
    if events == [] then []
    else
      match events[|events| - 1]
      case Datagram(from, dat, env) =>
        Of(events[..|events| - 1], p) + if from == p then [LabSession.Event(dat, env)] else []
      case Tick(_) => Of(events[..|events| - 1], p)
  }

  /** One more event, for a slot that survives it. */
  lemma SurvivorStep(cfg: Config, t: Table, e: Event, i: nat)
    requires TableInv(cfg, t) && i < |t| && t[i].used && Next(cfg, t, e)[i].used
    ensures TableInv(cfg, Next(cfg, t, e)) && SameIdentity(t[i], Next(cfg, t, e)[i])
    ensures if e.Datagram? && e.from == t[i].addr
            then Next(cfg, t, e)[i] == DoOpen(cfg.policy, t[i], e.dat, e.env).0
            else Next(cfg, t, e)[i] == t[i]
  {
    match e
    case Datagram(from, dat, env) =>
      ReceiveKeepsInv(cfg, t, from, dat, env);
      if from == t[i].addr {
        OwnerHandled(cfg, t, dat, env, i);
        RefusedChangesNothing(cfg.policy, t[i], LabSession.Event(dat, env));
      } else {
        OthersUnchanged(cfg, t, from, dat, env, i);
      }
    case Tick(now) =>
      SweepKeepsInv(cfg, t, now);
  }

  /** Whatever the other peers and the clock do meanwhile, a slot's history is one session of
      its own peer's datagrams: the session theorems hold inside the server. */
  lemma {:induction false} SlotIsSession(cfg: Config, t: Table, events: seq<Event>, i: nat)
    returns (states: seq<Client>, replies: seq<Reply>)
    requires TableInv(cfg, t) && i < |t| && t[i].used && JustOpened(t[i]) && Lives(cfg, t, events, i)
    ensures IsSession(cfg.policy, states, Of(events, t[i].addr), replies)
    ensures states[0] == t[i] && states[|states| - 1] == Run(cfg, t, events)[i]
    ensures TableInv(cfg, Run(cfg, t, events)) && SameIdentity(t[i], Run(cfg, t, events)[i])
  {
    if events == [] {
      states, replies := [t[i]], [];
    } else {
      LivesPrefix(cfg, t, events, i);
      var init, last := events[..|events| - 1], events[|events| - 1];
      assert events == init + [last];
      states, replies := SlotIsSession(cfg, t, init, i);
      var u := Run(cfg, t, init);
      SurvivorStep(cfg, u, last, i);
      states, replies := Extended(cfg.policy, states, init, replies, last, t[i].addr, Run(cfg, t, events)[i]);
    }
  }

  /** One more event of the server, for a session of the peer `p`. */
  lemma Extended(policy: E.Policy, states: seq<Client>, events: seq<Event>, replies: seq<Reply>, e: Event, p: Peer, c: Client)
    returns (states': seq<Client>, replies': seq<Reply>)
    requires IsSession(policy, states, Of(events, p), replies)
    requires states[|states| - 1].used && states[|states| - 1].sequence.Valid()
    requires if e.Datagram? && e.from == p then c == DoOpen(policy, states[|states| - 1], e.dat, e.env).0
             else c == states[|states| - 1]
    ensures IsSession(policy, states', Of(events + [e], p), replies') && states'[0] == states[0]
    ensures states'[|states'| - 1] == c
  {
    assert (events + [e])[..|events|] == events;
    if e.Datagram? && e.from == p {
      states', replies' := SessionGrows(policy, states, Of(events, p), replies, LabSession.Event(e.dat, e.env));
    } else {
      assert Of(events + [e], p) == Of(events, p);
      states', replies' := states, replies;
    }
  }

  // ---- Retransmission

  /** Who answers a HELLO with an ACK: the slot it opened, or the one it had opened before. */
  lemma AckMeans(cfg: Config, t: Table, from: Peer, dat: seq<byte>, env: Env) returns (i: nat)
    requires TableInv(cfg, t) && Receive(cfg, t, from, dat, env).1.Ack?
    ensures i < |t|
    ensures var (t', reply) := Receive(cfg, t, from, dat, env);
            && t'[i].used && t'[i].addr == from && IsHelloOf(dat, t'[i]) && reply == Ack(AckBytes(t'[i]))
  {
    i := SlotFor(cfg, t, from);
    if t[i].used {
      OwnerHandled(cfg, t, dat, env, i);
    } else {
      OpeningIsFresh(cfg, from, HelloNonceTaken(t, dat), dat, env);
    }
  }

  /** The well-formed HELLO that carries the slot's stored payload. */
  predicate IsHelloOf(dat: seq<byte>, c: Client) {
    && |dat| == 76 && dat[16..] == c.hello && OpenRefusal(dat).Ok?
    && ParseHeader(dat).header.kind == HELLO && ParseHeader(dat).header.number == 0
  }

  lemma SameAck(policy: E.Policy, a: Client, b: Client, dat: seq<byte>, env: Env)
    requires IsHelloOf(dat, a) && SameIdentity(a, b) && b.sequence.Valid()
    ensures DoOpen(policy, b, dat, env) == (b, Ack(AckBytes(a)))
  {
  }

  lemma RetransmittedAt(cfg: Config, u: Table, i: nat, c: Client, dat: seq<byte>, env: Env)
    requires TableInv(cfg, u) && i < |u| && u[i].used && SameIdentity(c, u[i]) && IsHelloOf(dat, c)
    ensures Receive(cfg, u, c.addr, dat, env) == (u, Ack(AckBytes(c)))
  {
    OwnerHandled(cfg, u, dat, env, i);
    SameAck(cfg.policy, c, u[i], dat, env);
    assert u[i := u[i]] == u;
  }

  /** An identical HELLO, sent again at any time while its session lasts, gets the very same
      ACK bytes and changes nothing at all: no new session, no renewed deadline. */
  lemma RetransmissionSameAck(cfg: Config, t: Table, from: Peer, dat: seq<byte>, env: Env, events: seq<Event>, env': Env)
    returns (i: nat)
    requires TableInv(cfg, t) && Receive(cfg, t, from, dat, env).1.Ack?
    ensures i < |t| && Receive(cfg, t, from, dat, env).0[i].used
    ensures var (t', reply) := Receive(cfg, t, from, dat, env);
            Lives(cfg, t', events, i) ==>
              var u := Run(cfg, t', events); Receive(cfg, u, from, dat, env') == (u, reply)
  {
    i := AckMeans(cfg, t, from, dat, env);
    ReceiveKeepsInv(cfg, t, from, dat, env);
    var t' := Receive(cfg, t, from, dat, env).0;
    if Lives(cfg, t', events, i) {
      IdentityThroughout(cfg, t', events, i);
      LivesToTheEnd(cfg, t', events, i);
      RetransmittedAt(cfg, Run(cfg, t', events), i, t'[i], dat, env');
    }
  }

  lemma {:induction false} IdentityThroughout(cfg: Config, t: Table, events: seq<Event>, i: nat)
    requires TableInv(cfg, t) && i < |t| && t[i].used && Lives(cfg, t, events, i)
    ensures TableInv(cfg, Run(cfg, t, events)) && SameIdentity(t[i], Run(cfg, t, events)[i])
  {
    if events != [] {
      LivesPrefix(cfg, t, events, i);
      IdentityThroughout(cfg, t, events[..|events| - 1], i);
      SurvivorStep(cfg, Run(cfg, t, events[..|events| - 1]), events[|events| - 1], i);
    }
  }

  // ---- The table in place

  class Server {
    const cfg: Config
    const clients: array<Client>

    ghost predicate Valid()
      reads this, clients
    {
      Shaped(clients[..])
    }

    constructor (cfg: Config)
      ensures Valid() && fresh(clients) && this.cfg == cfg && clients[..] == Empty(SLOTS)
    {
      this.cfg := cfg;
      clients := new Client[SLOTS](_ => CLEARED);
    }

    method FindClient(from: Peer) returns (k: nat)
      requires Valid()
      ensures k == FindPeer(clients[..], from)
    {
      k := 0;
      while k < SLOTS && !(clients[k].used && clients[k].addr == from)
        invariant 0 <= k <= SLOTS
        invariant forall j :: 0 <= j < k ==> !(clients[j].used && clients[j].addr == from)
      {
        k := k + 1;
      }
      assert forall j :: 0 <= j < SLOTS ==> clients[..][j] == clients[j];
    }

    method InUse() returns (n: nat)
      requires Valid()
      ensures n == CountUsed(clients[..])
    {
      n := 0;
      for i := 0 to SLOTS
        invariant n == CountUsed(clients[..i])
      {
        assert clients[..i + 1][..i] == clients[..i];
        n := n + if clients[i].used then 1 else 0;
      }
      assert clients[..SLOTS] == clients[..];
    }

    method FindFree() returns (k: nat)
      requires Valid()
      ensures k == FirstFree(clients[..])
    {
      k := 0;
      while k < SLOTS && clients[k].used
        invariant 0 <= k <= SLOTS
        invariant forall j :: 0 <= j < k ==> clients[j].used
      {
        k := k + 1;
      }
      assert forall j :: 0 <= j < SLOTS ==> clients[..][j] == clients[j];
    }

    method Taken(nonce: Id) returns (taken: bool)
      requires Valid()
      ensures taken == NonceTaken(clients[..], nonce)
    {
      for i := 0 to SLOTS
        invariant forall j :: 0 <= j < i ==> !(clients[j].used && clients[j].cnonce == nonce)
      {
        if clients[i].used && clients[i].cnonce == nonce {
          assert clients[..][i].used && clients[..][i].cnonce == nonce;
          return true;
        }
      }
      return false;
    }

    /** do_evidence: policy and window run on copies; both are written back only when
        both agree. */
    method Evidence(k: nat, h: Header, pay: seq<byte>, env: Env) returns (reply: Reply)
      requires Valid() && k < clients.Length
      requires |pay| == PayloadLength(h.kind) && (h.kind == REQUEST || h.kind == OBSERVATION)
      modifies clients
      ensures clients[..] == old(clients[..])[k := clients[k]]
      ensures (clients[k], reply) == DoEvidence(cfg.policy, old(clients[k]), h, pay, env)
    {
      var next := new E.Cell(clients[k].evidence);
      var sequence := clients[k].sequence;
      var reason;
      if h.kind == REQUEST {
        reason := next.Ask(cfg.policy, ParseRequest(pay), env.now);
      } else {
        reason := next.Observe(cfg.policy, ParseObservation(pay), env.now);
      }
      var status := Rejected;
      if reason.Ok? {
        var (verdict, after) := W.Admit(sequence, h.number);
        reason, sequence := verdict, after;
      }
      reply := Decision(clients[k].session, RequestIdOf(h.kind, pay), status, reason, h.number);
      if reason.Ok? {
        clients[k] := clients[k].(evidence := next.state, sequence := sequence, lastRx := env.later);
        reply := reply.(status := if h.kind == REQUEST then Pending else Accepted);
      }
      if reason.Closing? {
        clients[k] := CLEARED;
      }
    }

    /** do_new or do_open, in the slot chosen for the datagram. */
    method Dispatch(k: nat, dat: seq<byte>, env: Env) returns (reply: Reply)
      requires Valid() && k < clients.Length
      modifies clients
      ensures clients[..] == old(clients[..])[k := clients[k]]
      ensures (clients[k], reply) == Handle(cfg, old(clients[k]), old(HelloNonceTaken(clients[..], dat)), dat, env)
    {
      if |dat| > MAX_DATAGRAM {
        var (c, r) := SendReset(clients[k], TooBig);
        clients[k], reply := c, r;
      } else if !clients[k].open {
        var taken := false;
        if |dat| == 76 {
          taken := Taken(HelloNonce(dat[16..]));
        }
        var (c, r) := DoNew(clients[k], dat, taken, env);
        clients[k], reply := c, r;
      } else if OpenRefusal(dat).Ok? && ParseHeader(dat).header.kind in {REQUEST, OBSERVATION} {
        reply := Evidence(k, ParseHeader(dat).header, dat[16..], env);
      } else {
        var (c, r) := DoOpen(cfg.policy, clients[k], dat, env);
        clients[k], reply := c, r;
      }
    }

    /** One turn of the receive loop. */
    method Take(from: Peer, dat: seq<byte>, env: Env) returns (reply: Reply)
      requires Valid()
      modifies clients
      ensures Valid()
      ensures (clients[..], reply) == Receive(cfg, old(clients[..]), from, dat, env)
    {
      if !Loopback(from) {
        return SendReset(CLEARED, BadMagic).1;
      }
      var k := FindClient(from);
      if k == SLOTS {
        var inUse := InUse();
        if inUse >= cfg.maxClients {
          return SendReset(CLEARED, Busy).1;
        }
        k := FindFree();
        if k == SLOTS {
          return SendReset(CLEARED, Busy).1;
        }
      }
      ghost var before := clients[..];
      clients[k] := Prepared(clients[k], from);
      PreparedKeepsNonces(before, k, from, dat);
      assert clients[..] == before[k := Prepared(before[k], from)];
      assert k == SlotFor(cfg, before, from);
      reply := Dispatch(k, dat, env);
      assert clients[..] == before[k := clients[k]];
    }

    method DropIfLate(k: nat, now: u64) returns (told: seq<(Peer, Reply)>)
      requires Valid() && k < clients.Length
      modifies clients
      ensures clients[..] == old(clients[..])[k := if Late(cfg, old(clients[k]), now) then CLEARED else old(clients[k])]
      ensures told == if Late(cfg, old(clients[k]), now)
                      then [(old(clients[k].addr), SendReset(old(clients[k]), Timeout).1)] else []
    {
      told := [];
      if clients[k].used && clients[k].open
         && (now + U64_MAX + 1 - clients[k].lastRx) % (U64_MAX + 1) > cfg.timeoutMs {
        told := [(clients[k].addr, SendReset(clients[k], Timeout).1)];
        clients[k] := CLEARED;
      }
    }

    /** sweep_timeouts, and what it sends. */
    method DropLate(now: u64) returns (told: seq<(Peer, Reply)>)
      requires Valid()
      modifies clients
      ensures Valid()
      ensures clients[..] == Sweep(cfg, old(clients[..]), now)
      ensures told == Told(cfg, old(clients[..]), now)
    {
      told := [];
      ghost var before := clients[..];
      for i := 0 to SLOTS
        invariant Valid()
        invariant told == Told(cfg, before[..i], now)
        invariant forall j :: 0 <= j < SLOTS ==>
                    clients[j] == if j < i && Late(cfg, before[j], now) then CLEARED else before[j]
      {
        assert before[..i + 1][..i] == before[..i];
        var one := DropIfLate(i, now);
        told := told + one;
      }
      assert before[..SLOTS] == before;
    }
  }

  /** Only used slots hold nonces, so wiping a free one hides none. */
  lemma PreparedKeepsNonces(t: Table, k: nat, from: Peer, dat: seq<byte>)
    requires k < |t|
    ensures HelloNonceTaken(t[k := Prepared(t[k], from)], dat) == HelloNonceTaken(t, dat)
  {
    if |dat| == 76 {
      var u, nonce := t[k := Prepared(t[k], from)], HelloNonce(dat[16..]);
      assert forall i :: 0 <= i < |t| ==> (u[i].used && u[i].cnonce == nonce <==> t[i].used && t[i].cnonce == nonce);
    }
  }
}
