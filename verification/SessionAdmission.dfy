/** scripts/session_admission.py: the registry of admissions. Each operation is a function
    on the table, generic in the references to entries and verifiers; the class below it
    does the same in place. Clock readings are whole milliseconds. */
module SessionAdmission {
  import opened Options
  import opened Bytes
  import opened Hashing
  import opened Canonical
  import A = Attestation

  datatype Phase = Registered | Challenged | Verifying | Allowed | Denied | Revoked | Expired

  /** The fields of an Entry; `V` refers to its verifier. */
  datatype Record<V> = Record(
    binding: Binding, deadline: int, phase: Phase,
    leaseDeadline: int, challengeDeadline: int, verifier: Option<V>)

  /** Public key identity and policy of one attestor. */
  datatype Enrolled = Enrolled(policyId: string, akSha256: string)

  datatype Config = Config(
    controllers: set<string>, attestors: map<string, Enrolled>,
    maximum: nat, bindingMs: nat, challengeMs: nat, leaseMs: nat, instanceId: string)
  {
    /** What the constructor demands. */
    ghost predicate Valid() {
      && (forall c :: c in controllers ==> IsHex(c, 64))
      && (forall a :: a in attestors ==> IsHex(a, 64) && IsAscii(attestors[a].policyId) && IsHex(attestors[a].akSha256, 64))
      && controllers != {} && attestors.Keys != {} && controllers !! attestors.Keys
      && 1 <= maximum <= 4096 && 1 <= bindingMs <= 3600000
      && 1 <= challengeMs <= 60000 && 1 <= leaseMs <= 60000 && IsHex(instanceId, 32)
    }

    function Settings(identity: string): A.Settings
      requires identity in attestors
    {
      A.Settings(attestors[identity].policyId, attestors[identity].akSha256, challengeMs, 1)
    }
  }

  /** `entries` is the dictionary; `store` also holds entries it dropped, which a
      verification in flight may still refer to. */
  datatype Table<E, V> = Table(entries: map<string, E>, store: map<E, Record<V>>) {
    ghost predicate Closed() {
      forall id :: id in entries ==> entries[id] in store
    }
  }

  datatype Reply<E> =
    | Report(entry: E, binding: Binding, phase: Phase, allow: bool, remainingMs: nat, attestation: Option<A.Result>)
    | ChallengeSent(entry: E, salt: string, challenge: Challenge)
    | Refused(error: string)
    | Silent

  /** Up to four readings of a monotone clock within one locked call. */
  datatype Clock = Clock(t1: int, t2: int, t3: int, t4: int) {
    predicate Monotone() {
      t1 <= t2 <= t3 <= t4
    }
  }

  function Min(a: int, b: int): int {
    if a < b then a else b
  }

  // ---- _status

  function Aged<V>(r: Record<V>, now: int): Record<V> {
    var r1 := if !r.phase.Revoked? && now >= r.deadline then r.(phase := Expired) else r;
    if r1.phase.Allowed? && now >= r1.leaseDeadline then r1.(phase := Expired) else r1
  }

  function ReportOf<E, V>(e: E, r: Record<V>, now: int, attestation: Option<A.Result>): Reply<E> {
    var left := Min(r.deadline, r.leaseDeadline) - now;
    Report(e, r.binding, r.phase, r.phase.Allowed?, if r.phase.Allowed? && left > 0 then left else 0, attestation)
  }

  function Put<E, V>(t: Table<E, V>, e: E, r: Record<V>): Table<E, V> {
    t.(store := t.store[e := r])
  }

  function Show<E, V>(t: Table<E, V>, e: E, r: Record<V>, now: int, attestation: Option<A.Result>): (Table<E, V>, Reply<E>) {
    (Put(t, e, Aged(r, now)), ReportOf(e, Aged(r, now), now, attestation))
  }

  // ---- Finding an entry

  datatype Lookup<E> = Missing(error: string) | Found(entry: E)

  predicate HasRole(cfg: Config, identity: string, controller: bool) {
    if controller then identity in cfg.controllers else identity in cfg.attestors
  }

  function PartyOf(b: Binding, controller: bool): string {
    if controller then b.controller else b.attestor
  }

  function Find<E, V>(cfg: Config, t: Table<E, V>, identity: string, id: string, controller: bool): (r: Lookup<E>)
    requires t.Closed()
    ensures r.Found? ==>
              && id in t.entries && r.entry == t.entries[id]
              && PartyOf(t.store[r.entry].binding, controller) == identity && HasRole(cfg, identity, controller)
  {
    if !HasRole(cfg, identity, controller) then Missing("UNAUTHORIZED_ROLE")
    else if !IsHex(id, 32) then Missing("INVALID_IDENTIFIER")
    else if id !in t.entries || PartyOf(t.store[t.entries[id]].binding, controller) != identity then Missing("UNKNOWN_ADMISSION")
    else Found(t.entries[id])
  }

  // ---- register

  /** Who may hold a seat only once. */
  predicate SameSeat(b: Binding, controller: string, session: string, peer: int) {
    b.controller == controller && b.gameSessionId == session && b.peerId == peer
  }

  predicate Kept<V>(r: Record<V>, now: int) {
    now < r.deadline && !r.phase.Revoked?
  }

  function Purge<E, V>(t: Table<E, V>, now: int): Table<E, V>
    requires t.Closed()
  {
    t.(entries := map id | id in t.entries && Kept(t.store[t.entries[id]], now) :: t.entries[id])
  }

  predicate SeatTaken<E, V>(t: Table<E, V>, controller: string, session: string, peer: int)
    requires t.Closed()
  {
    exists id :: id in t.entries && SameSeat(t.store[t.entries[id]].binding, controller, session, peer)
  }

  /** The checks before the table is touched. */
  function RegisterError(cfg: Config, identity: string, session: string, peer: int, attestor: string): string {
    if !HasRole(cfg, identity, true) then "UNAUTHORIZED_ROLE"
    else if !IsHex(session, 32) || !IsHex(attestor, 64) then "INVALID_IDENTIFIER"
    else if !(2 <= peer <= 2147483647) then "INVALID_PEER"
    else if attestor !in cfg.attestors then "UNKNOWN_ATTESTOR"
    else ""
  }

  /** And those on the purged table. */
  function AddError<E, V>(cfg: Config, t: Table<E, V>, identity: string, session: string, peer: int, id: string): string
    requires t.Closed()
  {
    if SeatTaken(t, identity, session, peer) then "PEER_ALREADY_REGISTERED"
    else if |t.entries| >= cfg.maximum then "ADMISSION_LIMIT"
    else if id in t.entries then "ENTROPY_COLLISION"
    else ""
  }

  function Added<E, V>(t: Table<E, V>, e: E, r: Record<V>): Table<E, V> {
    Table(t.entries[r.binding.admissionId := e], t.store[e := r])
  }

  function NewRecord<V>(cfg: Config, b: Binding, now: int): Record<V> {
    Record(b, now + cfg.bindingMs, Registered, 0, 0, None)
  }

  datatype Registration<E, V> = Rejected(table: Table<E, V>, error: string) | Accepted(table: Table<E, V>, record: Record<V>)

  /** Everything up to the creation of the entry; `ids` are the drawn admission and
      connection identifiers. */
  function Registering<E, V>(cfg: Config, t: Table<E, V>, identity: string, session: string, peer: int, attestor: string,
                             now: int, ids: (string, string)): Registration<E, V>
    requires t.Closed()
  {
    var error := RegisterError(cfg, identity, session, peer, attestor);
    if error != "" then Rejected(t, error)
    else
      var kept := Purge(t, now);
      var error := AddError(cfg, kept, identity, session, peer, ids.0);
      if error != "" then Rejected(kept, error)
      else Accepted(kept, NewRecord(cfg, Binding(ids.0, attestor, ids.1, identity, session, cfg.instanceId, peer), now))
  }

  function Register<E, V>(cfg: Config, t: Table<E, V>, identity: string, session: string, peer: int, attestor: string,
                          clk: Clock, ids: (string, string), e: E): (Table<E, V>, Reply<E>)
    requires t.Closed()
  {
    match Registering(cfg, t, identity, session, peer, attestor, clk.t1, ids)
    case Rejected(kept, error) => (kept, Refused(error))
    case Accepted(kept, r) => Show(Added(kept, e, r), e, r, clk.t2, None)
  }

  // ---- status, revoke

  function Status<E, V>(cfg: Config, t: Table<E, V>, identity: string, id: string, now: int): (Table<E, V>, Reply<E>)
    requires t.Closed()
  {
    match Find(cfg, t, identity, id, true)
    case Missing(error) => (t, Refused(error))
    case Found(e) => Show(t, e, t.store[e], now, None)
  }

  function Revoke<E, V>(cfg: Config, t: Table<E, V>, identity: string, id: string, now: int): (Table<E, V>, Reply<E>)
    requires t.Closed()
  {
    match Find(cfg, t, identity, id, true)
    case Missing(error) => (t, Refused(error))
    case Found(e) => Show(t, e, t.store[e].(phase := Revoked), now, None)
  }

  // ---- challenge

  function ChallengeError<V>(r: Record<V>, clk: Clock): string {
    if r.phase.Revoked? || clk.t1 >= r.deadline then "ADMISSION_CLOSED"
    else if r.phase.Verifying? || (r.phase.Challenged? && clk.t2 < r.challengeDeadline) then "CHALLENGE_PENDING"
    else ""
  }

  function WithChallenge<V>(cfg: Config, r: Record<V>, v: V, now: int): Record<V> {
    r.(verifier := Some(v), phase := Challenged, challengeDeadline := now + cfg.challengeMs)
  }

  /** The challenge itself, with its nonce bound. */
  function BoundTo(hash: Hash, settings: A.Settings, b: Binding, salt: string, f: A.Fresh): Challenge
    requires settings.Valid() && f.Valid()
  {
    A.NewChallenge(settings, f.draws[0], f).(nonce := BoundNonce(hash, b, salt))
  }

  datatype Offer<E> = NoOffer(error: string) | Offered(entry: E)

  function MayChallenge<E, V>(cfg: Config, t: Table<E, V>, identity: string, id: string, clk: Clock): (r: Offer<E>)
    requires t.Closed()
    ensures r.Offered? ==> Find(cfg, t, identity, id, false) == Found(r.entry) && ChallengeError(t.store[r.entry], clk) == ""
  {
    match Find(cfg, t, identity, id, false)
    case Missing(error) => NoOffer(error)
    case Found(e) =>
      if ChallengeError(t.store[e], clk) != "" then NoOffer(ChallengeError(t.store[e], clk)) else Offered(e)
  }

  function SendChallenge<E, V>(hash: Hash, cfg: Config, t: Table<E, V>, identity: string, id: string, clk: Clock,
                               salt: string, f: A.Fresh, v: V): (Table<E, V>, Reply<E>)
    requires t.Closed() && cfg.Valid() && f.Valid()
  {
    match MayChallenge(cfg, t, identity, id, clk)
    case NoOffer(error) => (t, Refused(error))
    case Offered(e) =>
      (Put(t, e, WithChallenge(cfg, t.store[e], v, clk.t4)),
       ChallengeSent(e, salt, BoundTo(hash, cfg.Settings(identity), t.store[e].binding, salt, f)))
  }

  // ---- submit

  function ReserveError<V>(r: Record<V>, evidence: Option<A.Evidence>, now: int): string {
    if r.phase.Revoked? || now >= r.deadline then "ADMISSION_CLOSED"
    else if !r.phase.Challenged? then "NO_PENDING_CHALLENGE"
    else if evidence.None? then "INVALID_SCHEMA"
    else ""
  }

  datatype Reservation<E> = NotReserved(error: string) | Reserved(entry: E)

  function MayReserve<E, V>(cfg: Config, t: Table<E, V>, identity: string, id: string,
                            evidence: Option<A.Evidence>, now: int): (r: Reservation<E>)
    requires t.Closed()
    ensures r.Reserved? ==>
              && Find(cfg, t, identity, id, false) == Found(r.entry)
              && ReserveError(t.store[r.entry], evidence, now) == ""
  {
    match Find(cfg, t, identity, id, false)
    case Missing(error) => NotReserved(error)
    case Found(e) =>
      if ReserveError(t.store[e], evidence, now) != "" then NotReserved(ReserveError(t.store[e], evidence, now))
      else Reserved(e)
  }

  /** The first locked half of submit. */
  function Reserve<E, V>(cfg: Config, t: Table<E, V>, identity: string, id: string,
                         evidence: Option<A.Evidence>, now: int): (Table<E, V>, Reply<E>)
    requires t.Closed()
  {
    match MayReserve(cfg, t, identity, id, evidence, now)
    case NotReserved(error) => (t, Refused(error))
    case Reserved(e) => (Put(t, e, t.store[e].(phase := Verifying)), Silent)
  }

  /** A lease starts at challenge issue. */
  function LeaseEnd<V>(cfg: Config, r: Record<V>): int {
    Min(r.deadline, r.challengeDeadline - cfg.challengeMs + cfg.leaseMs)
  }

  function Judged<V>(cfg: Config, r: Record<V>, result: A.Result): Record<V> {
    r.(phase := if result.decision.Allow? then Allowed else Denied, leaseDeadline := LeaseEnd(cfg, r))
  }

  predicate StillWanted<E(==), V>(t: Table<E, V>, id: string, e: E)
    requires e in t.store
  {
    id in t.entries && t.entries[id] == e && t.store[e].phase.Verifying?
  }

  /** The second locked half: a result, or the exception that replaced it. */
  function Complete<E, V>(cfg: Config, t: Table<E, V>, id: string, e: E, result: Option<A.Result>, now: int): (Table<E, V>, Reply<E>)
    requires e in t.store
  {
    match result
    case None => (if t.store[e].phase.Verifying? then Put(t, e, t.store[e].(phase := Denied)) else t, Refused("EXCEPTION"))
    case Some(r) =>
      if !StillWanted(t, id, e) then (t, Refused("ADMISSION_CLOSED"))
      else Show(t, e, Judged(cfg, t.store[e], r), now, Some(r))
  }

  // ---- The registry in place

  class BoundChallenge {
    const binding: Binding
    const salt: string
    const server: A.AttestationServer

    constructor (settings: A.Settings, binding: Binding, salt: string)
      ensures this.binding == binding && this.salt == salt
      ensures fresh(server) && server.cfg == settings && server.sessions == map[]
    {
      this.binding := binding;
      this.salt := salt;
      server := new A.AttestationServer(settings);
    }

    /** The only call to issue a new verifier gets: its one session carries the bound
        nonce instead of the random one. */
    method Issue(hash: Hash, owner: string, now: int, f: A.Fresh) returns (challenge: Challenge)
      requires server.cfg.Valid() && server.cfg.maximum == 1 && server.sessions == map[] && f.Valid()
      modifies server
      ensures challenge == BoundTo(hash, server.cfg, binding, salt, f)
      ensures server.sessions == map[f.draws[0] := A.Session(owner, challenge, now + server.cfg.ttlMs, false)]
    {
      FirstIssue(server.cfg, owner, now, f);
      var issued := server.IssueTo(owner, now, f);
      challenge := issued.challenge.(nonce := BoundNonce(hash, binding, salt));
      var sid := challenge.sessionId;
      server.sessions := server.sessions[sid := server.sessions[sid].(challenge := challenge)];
    }
  }

  /** A new server with room for one session cannot refuse. */
  lemma FirstIssue(settings: A.Settings, owner: string, now: int, f: A.Fresh)
    requires settings.Valid() && settings.maximum == 1 && f.Valid()
    ensures A.Issue(settings, map[], owner, now, f) ==
            (map[f.draws[0] := A.Session(owner, A.NewChallenge(settings, f.draws[0], f), now + settings.ttlMs, false)],
             A.Issued(A.NewChallenge(settings, f.draws[0], f)))
  {
    assert A.Prune(map[], now) == map[];
  }

  class Entry {
    const binding: Binding
    const deadline: int
    var phase: Phase
    var leaseDeadline: int
    var challengeDeadline: int
    var verifier: BoundChallenge?

    constructor (binding: Binding, deadline: int)
      ensures Value() == Record(binding, deadline, Registered, 0, 0, None)
    {
      this.binding := binding;
      this.deadline := deadline;
      phase, leaseDeadline, challengeDeadline, verifier := Registered, 0, 0, null;
    }

    ghost function Value(): Record<BoundChallenge>
      reads this
    {
      Record(binding, deadline, phase, leaseDeadline, challengeDeadline,
             if verifier == null then None else Some(verifier as BoundChallenge))
    }

    /** _status */
    method Show(now: int, attestation: Option<A.Result>) returns (reply: Reply<Entry>)
      modifies this
      ensures Value() == Aged(old(Value()), now)
      ensures reply == ReportOf(this, Value(), now, attestation)
    {
      if !phase.Revoked? && now >= deadline {
        phase := Expired;
      }
      if phase.Allowed? && now >= leaseDeadline {
        phase := Expired;
      }
      var remaining := Min(deadline, leaseDeadline) - now;
      reply := Report(this, binding, phase, phase.Allowed?, if phase.Allowed? && remaining > 0 then remaining else 0, attestation);
    }
  }

  class AdmissionRegistry {
    const hash: Hash
    const cfg: Config
    var entries: map<string, Entry>
    /** Every entry ever registered, the dropped ones included. */
    ghost var all: set<Entry>

    ghost predicate Valid()
      reads this
    {
      cfg.Valid() && forall id :: id in entries ==> entries[id] in all
    }

    ghost function View(): (t: Table<Entry, BoundChallenge>)
      reads this, all
    {
      Table(entries, map e | e in all :: e.Value())
    }

    constructor (hash: Hash, cfg: Config)
      requires cfg.Valid()
      ensures Valid() && this.hash == hash && this.cfg == cfg && View() == Table(map[], map[])
    {
      this.hash := hash;
      this.cfg := cfg;
      entries := map[];
      all := {};
    }

    /** The role check and the look-up every operation but register begins with. */
    method FindEntry(identity: string, id: string, controller: bool) returns (r: Lookup<Entry>)
      requires Valid()
      ensures r == Find(cfg, View(), identity, id, controller)
    {
      if !HasRole(cfg, identity, controller) {
        return Missing("UNAUTHORIZED_ROLE");
      }
      if !IsHex(id, 32) {
        return Missing("INVALID_IDENTIFIER");
      }
      if id !in entries || PartyOf(entries[id].binding, controller) != identity {
        return Missing("UNKNOWN_ADMISSION");
      }
      return Found(entries[id]);
    }

    method ShowEntry(e: Entry, now: int, attestation: Option<A.Result>) returns (reply: Reply<Entry>)
      requires Valid() && e in all
      modifies e
      ensures (View(), reply) == Show(old(View()), e, old(e.Value()), now, attestation)
    {
      reply := e.Show(now, attestation);
      assert View() == Put(old(View()), e, e.Value());
    }

    method Attach(e: Entry, verifier: BoundChallenge, now: int)
      requires Valid() && e in all
      modifies e
      ensures View() == Put(old(View()), e, WithChallenge(cfg, old(e.Value()), verifier, now))
    {
      e.verifier := verifier;
      e.phase := Challenged;
      e.challengeDeadline := now + cfg.challengeMs;
      assert View() == Put(old(View()), e, e.Value());
    }

    method DropClosed(now: int)
      requires Valid()
      modifies this
      ensures Valid() && all == old(all) && View() == Purge(old(View()), now)
    {
      entries := map id | id in entries && now < entries[id].deadline && !entries[id].phase.Revoked? :: entries[id];
    }

    method Add(binding: Binding, now: int) returns (e: Entry)
      requires Valid()
      modifies this
      ensures Valid() && fresh(e) && all == old(all) + {e} && e.Value() == NewRecord(cfg, binding, now)
      ensures View() == Added(old(View()), e, NewRecord(cfg, binding, now))
    {
      e := new Entry(binding, now + cfg.bindingMs);
      entries := entries[binding.admissionId := e];
      all := all + {e};
    }

    method DoStatus(identity: string, id: string, now: int) returns (reply: Reply<Entry>)
      requires Valid()
      modifies all
      ensures Valid() && (View(), reply) == Status(cfg, old(View()), identity, id, now)
    {
      var found := FindEntry(identity, id, true);
      match found
      case Missing(error) => return Refused(error);
      case Found(e) => reply := ShowEntry(e, now, None);
    }

    method DoRevoke(identity: string, id: string, now: int) returns (reply: Reply<Entry>)
      requires Valid()
      modifies all
      ensures Valid() && (View(), reply) == Revoke(cfg, old(View()), identity, id, now)
    {
      var found := FindEntry(identity, id, true);
      match found
      case Missing(error) => return Refused(error);
      case Found(e) =>
        e.phase := Revoked;
        reply := e.Show(now, None);
        assert View() == Put(old(View()), e, e.Value());
    }

    method CheckChallenge(identity: string, id: string, clk: Clock) returns (r: Offer<Entry>)
      requires Valid()
      ensures r == MayChallenge(cfg, View(), identity, id, clk)
    {
      var found := FindEntry(identity, id, false);
      if found.Missing? {
        return NoOffer(found.error);
      }
      var e := found.entry;
      if e.phase.Revoked? || clk.t1 >= e.deadline {
        return NoOffer("ADMISSION_CLOSED");
      }
      if e.phase.Verifying? || (e.phase.Challenged? && clk.t2 < e.challengeDeadline) {
        return NoOffer("CHALLENGE_PENDING");
      }
      return Offered(e);
    }

    method DoChallenge(identity: string, id: string, clk: Clock, salt: string, f: A.Fresh)
      returns (reply: Reply<Entry>, verifier: BoundChallenge?)
      requires Valid() && f.Valid()
      modifies all
      ensures Valid()
      ensures verifier == null ==>
                && View() == old(View())
                && MayChallenge(cfg, View(), identity, id, clk).NoOffer?
                && reply == Refused(MayChallenge(cfg, View(), identity, id, clk).error)
      ensures verifier != null ==>
                && fresh(verifier) && fresh(verifier.server)
                && (View(), reply) == SendChallenge(hash, cfg, old(View()), identity, id, clk, salt, f, verifier)
                && reply.ChallengeSent? && verifier.server.cfg == cfg.Settings(identity)
                && verifier.server.sessions == map[f.draws[0] := A.Session(identity, reply.challenge, clk.t3 + cfg.challengeMs, false)]
    {
      verifier := null;
      var offer := CheckChallenge(identity, id, clk);
      if offer.NoOffer? {
        return Refused(offer.error), null;
      }
      var e := offer.entry;
      verifier := new BoundChallenge(cfg.Settings(identity), e.binding, salt);
      var challenge := verifier.Issue(hash, identity, clk.t3, f);
      assert View() == old(View());
      Attach(e, verifier, clk.t4);
      reply := ChallengeSent(e, salt, challenge);
    }

    /** submit, before the lock is let go; the caller then runs `verifier`. */
    method DoReserve(identity: string, id: string, evidence: Option<A.Evidence>, now: int)
      returns (reply: Reply<Entry>, entry: Entry?, verifier: BoundChallenge?)
      requires Valid()
      modifies all
      ensures Valid() && (View(), reply) == Reserve(cfg, old(View()), identity, id, evidence, now)
      ensures reply.Silent? ==>
                && entry != null && old(MayReserve(cfg, View(), identity, id, evidence, now)) == Reserved(entry as Entry)
                && verifier == old(entry.verifier)
    {
      entry, verifier := null, null;
      var found := FindEntry(identity, id, false);
      if found.Missing? {
        return Refused(found.error), null, null;
      }
      var e := found.entry;
      if e.phase.Revoked? || now >= e.deadline {
        return Refused("ADMISSION_CLOSED"), null, null;
      }
      if !e.phase.Challenged? {
        return Refused("NO_PENDING_CHALLENGE"), null, null;
      }
      if evidence.None? {
        return Refused("INVALID_SCHEMA"), null, null;
      }
      e.phase := Verifying;
      reply, entry, verifier := Silent, e, e.verifier;
      assert View() == Put(old(View()), e, e.Value());
    }

    /** submit, once the verifier has answered or raised. */
    method DoComplete(id: string, entry: Entry, result: Option<A.Result>, now: int) returns (reply: Reply<Entry>)
      requires Valid() && entry in all
      modifies all
      ensures Valid() && (View(), reply) == Complete(cfg, old(View()), id, entry, result, now)
    {
      if result.None? {
        if entry.phase.Verifying? {
          entry.phase := Denied;
        }
        assert View() == Put(old(View()), entry, entry.Value());
        return Refused("EXCEPTION");
      }
      if !(id in entries && entries[id] == entry) || !entry.phase.Verifying? {
        return Refused("ADMISSION_CLOSED");
      }
      entry.phase := if result.value.decision.Allow? then Allowed else Denied;
      var issued := entry.challengeDeadline - cfg.challengeMs;
      entry.leaseDeadline := Min(entry.deadline, issued + cfg.leaseMs);
      reply := entry.Show(now, result);
      assert View() == Put(old(View()), entry, entry.Value());
    }

    method DoRegister(identity: string, session: string, peer: int, attestor: string, clk: Clock, ids: (string, string))
      returns (reply: Reply<Entry>)
      requires Valid()
      modifies this, all
      ensures Valid()
      ensures match Registering(cfg, old(View()), identity, session, peer, attestor, clk.t1, ids)
              case Rejected(kept, error) => View() == kept && reply == Refused(error)
              case Accepted(_, _) =>
                && reply.Report? && fresh(reply.entry)
                && (View(), reply) == Register(cfg, old(View()), identity, session, peer, attestor, clk, ids, reply.entry)
    {
      var error := RegisterError(cfg, identity, session, peer, attestor);
      if error != "" {
        return Refused(error);
      }
      DropClosed(clk.t1);
      if exists id :: id in entries && SameSeat(entries[id].binding, identity, session, peer) {
        return Refused("PEER_ALREADY_REGISTERED");
      }
      if |entries| >= cfg.maximum {
        return Refused("ADMISSION_LIMIT");
      }
      if ids.0 in entries {
        return Refused("ENTROPY_COLLISION");
      }
      var binding := Binding(ids.0, attestor, ids.1, identity, session, cfg.instanceId, peer);
      var e := Add(binding, clk.t1);
      reply := ShowEntry(e, clk.t2, None);
    }
  }
}
