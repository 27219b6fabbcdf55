/** Whole runs of the admission service: the registry of scripts/session_admission.py with
    the verifications it lets run outside its lock. Entries, verifiers and verifications in
    flight are named by numbers, which are never an identifier on the wire. */
module AdmissionRuns {
  import opened Options
  import opened Hashing
  import opened Canonical
  import A = Attestation
  import opened S = SessionAdmission

  type Ref = nat

  datatype Verifier = Verifier(settings: A.Settings, binding: Binding, salt: string, sessions: A.Sessions)

  /** Where one call of submit stands between its two locked halves. */
  datatype Stage = Waiting | Checking(session: A.Session) | Over(result: Option<A.Result>)
  datatype Flight = Flight(
    id: string, entry: Ref, verifier: Ref, identity: string, evidence: A.Evidence, stage: Stage, at: int)

  datatype State = State(
    table: Table<Ref, Ref>, verifiers: map<Ref, Verifier>, flights: map<Ref, Flight>, now: int)
  {
    /** Every reference leads somewhere. */
    ghost predicate Sound() {
      && table.Closed()
      && (forall e :: e in table.store ==> SoundRecord(table.store[e]))
      && (forall f :: f in flights ==> flights[f].entry in table.store && flights[f].verifier in verifiers)
    }

    ghost predicate SoundRecord(r: Record<Ref>) {
      && (r.verifier.Some? ==> r.verifier.value in verifiers)
      && (r.phase in {Challenged, Verifying, Allowed} ==> r.verifier.Some?)
    }
  }

  const NOTHING: State := State(Table(map[], map[]), map[], map[], 0)

  /** The first five hold the registry's lock; Try holds the verifier's; Conclude runs the
      tools under no lock; Finish takes the registry's lock again. */
  datatype Step =
    | Register(identity: string, session: string, peer: int, attestor: string, clk: Clock, ids: (string, string), entry: Ref)
    | Status(identity: string, id: string, clk: Clock)
    | Revoke(identity: string, id: string, clk: Clock)
    | Challenge(identity: string, id: string, clk: Clock, salt: string, entropy: A.Fresh, verifier: Ref)
    | Reserve(identity: string, id: string, evidence: Option<A.Evidence>, clk: Clock, flight: Ref)
    | Try(flight: Ref, at: int)
    | Conclude(flight: Ref, outcome: A.Outcome, at: int)
    | Finish(flight: Ref, clk: Clock)

  /** What a step may assume: a clock that never runs back where one call follows another,
      new objects that are new, hexadecimal draws. Identifiers may repeat. */
  ghost predicate Enabled(s: State, step: Step) {
    match step
    case Register(_, _, _, _, clk, ids, e) =>
      s.now <= clk.t1 && clk.Monotone() && IsHex(ids.0, 32) && IsHex(ids.1, 64) && e !in s.table.store
    case Status(_, _, clk) => s.now <= clk.t1 && clk.Monotone()
    case Revoke(_, _, clk) => s.now <= clk.t1 && clk.Monotone()
    case Challenge(_, _, clk, salt, f, v) =>
      s.now <= clk.t1 && clk.Monotone() && IsHex(salt, 64) && f.Valid() && v !in s.verifiers
    case Reserve(_, _, _, clk, f) => s.now <= clk.t1 && clk.Monotone() && f !in s.flights
    case Try(f, at) => f in s.flights && s.flights[f].stage.Waiting? && s.flights[f].at <= at
    case Conclude(f, _, at) => f in s.flights && s.flights[f].stage.Checking? && s.flights[f].at <= at
    case Finish(f, clk) =>
      f in s.flights && s.flights[f].stage.Over? && s.flights[f].at <= clk.t1 && s.now <= clk.t1 && clk.Monotone()
  }

  function NewVerifier(cfg: Config, identity: string, binding: Binding, salt: string, c: Canonical.Challenge, now: int): Verifier
    requires identity in cfg.attestors
  {
    Verifier(cfg.Settings(identity), binding, salt,
             map[c.sessionId := A.Session(identity, c, now + cfg.challengeMs, false)])
  }

  function Move(s: State, r: (Table<Ref, Ref>, Reply<Ref>), now: int): (State, Reply<Ref>) {
    (s.(table := r.0, now := now), r.1)
  }

  function WithVerifier(s: State, v: Ref, verifier: Verifier): State {
    s.(verifiers := s.verifiers[v := verifier])
  }

  function WithFlight(s: State, f: Ref, flight: Flight): State {
    s.(flights := s.flights[f := flight])
  }

  function Challenging(hash: Hash, cfg: Config, s: State, identity: string, id: string, clk: Clock,
                       salt: string, f: A.Fresh, v: Ref): (State, Reply<Ref>)
    requires cfg.Valid() && s.Sound() && f.Valid()
  {
    var next := Move(s, SendChallenge(hash, cfg, s.table, identity, id, clk, salt, f, v), clk.t4);
    if !next.1.ChallengeSent? then next
    else
      (WithVerifier(next.0, v, NewVerifier(cfg, identity, s.table.store[next.1.entry].binding, salt, next.1.challenge, clk.t3)),
       next.1)
  }

  function Reserving(cfg: Config, s: State, identity: string, id: string, evidence: Option<A.Evidence>,
                     clk: Clock, f: Ref): (State, Reply<Ref>)
    requires s.Sound()
  {
    var next := Move(s, S.Reserve(cfg, s.table, identity, id, evidence, clk.t1), clk.t4);
    match MayReserve(cfg, s.table, identity, id, evidence, clk.t1)
    case NotReserved(_) => next
    case Reserved(e) =>
      (WithFlight(next.0, f, Flight(id, e, s.table.store[e].verifier.value, identity, evidence.value, Waiting, clk.t1)), next.1)
  }

  function Trial(s: State, f: Ref, at: int): (A.Sessions, A.Admission)
    requires f in s.flights && s.flights[f].verifier in s.verifiers
  {
    var v := s.verifiers[s.flights[f].verifier];
    A.Admit(v.settings, v.sessions, s.flights[f].identity, s.flights[f].evidence, at)
  }

  function StageAfter(a: A.Admission): Stage {
    match a
    case Raised(_) => Over(None)
    case Answered(result) => Over(Some(result))
    case ToVerify(session) => Checking(session)
  }

  function Trying(s: State, f: Ref, at: int): State
    requires f in s.flights && s.flights[f].verifier in s.verifiers
  {
    var v := s.flights[f].verifier;
    WithFlight(WithVerifier(s, v, s.verifiers[v].(sessions := Trial(s, f, at).0)),
               f, s.flights[f].(stage := StageAfter(Trial(s, f, at).1), at := at))
  }

  function Conclusion(hash: Hash, s: State, f: Ref, outcome: A.Outcome, at: int): Option<A.Result>
    requires f in s.flights && s.flights[f].verifier in s.verifiers && s.flights[f].stage.Checking?
  {
    A.Conclude(hash, s.verifiers[s.flights[f].verifier].settings, s.flights[f].stage.session, outcome, at)
  }

  function Next(hash: Hash, cfg: Config, s: State, step: Step): (State, Reply<Ref>)
    requires cfg.Valid() && s.Sound() && Enabled(s, step)
  {
    match step
    case Register(identity, session, peer, attestor, clk, ids, e) =>
      Move(s, S.Register(cfg, s.table, identity, session, peer, attestor, clk, ids, e), clk.t4)
    case Status(identity, id, clk) => Move(s, S.Status(cfg, s.table, identity, id, clk.t1), clk.t4)
    case Revoke(identity, id, clk) => Move(s, S.Revoke(cfg, s.table, identity, id, clk.t1), clk.t4)
    case Challenge(identity, id, clk, salt, f, v) => Challenging(hash, cfg, s, identity, id, clk, salt, f, v)
    case Reserve(identity, id, evidence, clk, f) => Reserving(cfg, s, identity, id, evidence, clk, f)
    case Try(f, at) => (Trying(s, f, at), Silent)
    case Conclude(f, outcome, at) =>
      (WithFlight(s, f, s.flights[f].(stage := Over(Conclusion(hash, s, f, outcome, at)), at := at)), Silent)
    case Finish(f, clk) =>
      Move(s.(flights := s.flights - {f}),
           Complete(cfg, s.table, s.flights[f].id, s.flights[f].entry, s.flights[f].stage.result, clk.t1), clk.t4)
  }

  // ---- What one step does to one entry

  predicate ChallengeOf(step: Step, reply: Reply<Ref>, e: Ref) {
    step.Challenge? && reply.ChallengeSent? && reply.entry == e
  }

  predicate RevokeOf(step: Step, reply: Reply<Ref>, e: Ref) {
    step.Revoke? && reply.Report? && reply.entry == e
  }

  /** A verification of `e` comes back with ALLOW. */
  predicate Grants(s: State, step: Step, e: Ref) {
    && step.Finish? && step.flight in s.flights && s.flights[step.flight].entry == e
    && s.flights[step.flight].stage.Over? && s.flights[step.flight].stage.result.Some?
    && s.flights[step.flight].stage.result.value.decision.Allow?
  }

  /** When a report was made. */
  function TimeOf(step: Step): int {
    match step
    case Register(_, _, _, _, clk, _, _) => clk.t2
    case Status(_, _, clk) => clk.t1
    case Revoke(_, _, clk) => clk.t1
    case Challenge(_, _, clk, _, _, _) => clk.t1
    case Reserve(_, _, _, clk, _) => clk.t1
    case Try(_, at) => at
    case Conclude(_, _, at) => at
    case Finish(_, clk) => clk.t1
  }

  predicate FinishOf(s: State, step: Step, e: Ref) {
    step.Finish? && step.flight in s.flights && s.flights[step.flight].entry == e
  }

  /** No challenge can be issued for an entry in one of these states, now or later. */
  predicate Shut(r: Record<Ref>, now: int) {
    r.phase.Verifying? || r.phase.Revoked? || (r.phase.Expired? && now >= r.deadline)
  }

  ghost predicate Effect(cfg: Config, s: State, step: Step, now: int, reply: Reply<Ref>, e: Ref, r: Record<Ref>, r': Record<Ref>) {
    && r'.binding == r.binding && r'.deadline == r.deadline
    && (r.phase.Revoked? || RevokeOf(step, reply, e) ==> r'.phase.Revoked?)
    && (if ChallengeOf(step, reply, e) then
          && r'.verifier == Some(step.verifier) && r'.challengeDeadline == step.clk.t4 + cfg.challengeMs
          && r'.phase.Challenged? && !Shut(r, s.now)
        else
          r'.verifier == r.verifier && r'.challengeDeadline == r.challengeDeadline)
    && (r'.phase.Allowed? ==>
          if r.phase.Allowed? then r'.leaseDeadline == r.leaseDeadline
          else Grants(s, step, e) && r.phase.Verifying? && r'.leaseDeadline == LeaseEnd(cfg, r))
    && (Shut(r, s.now) && !FinishOf(s, step, e) ==> Shut(r', now))
    && (reply.Report? && reply.entry == e ==>
          reply == ReportOf(e, r', TimeOf(step), reply.attestation) && Aged(r', TimeOf(step)) == r')
  }

  ghost predicate EffectOn(cfg: Config, s: State, step: Step, next: (State, Reply<Ref>), e: Ref)
    requires e in s.table.store
  {
    e in next.0.table.store && Effect(cfg, s, step, next.0.now, next.1, e, s.table.store[e], next.0.table.store[e])
  }

  lemma RegisterEffect(hash: Hash, cfg: Config, s: State, step: Step, e: Ref)
    requires cfg.Valid() && s.Sound() && Enabled(s, step) && e in s.table.store
    requires step.Register?
    ensures EffectOn(cfg, s, step, Next(hash, cfg, s, step), e)
  {
  }

  lemma StatusEffect(hash: Hash, cfg: Config, s: State, step: Step, e: Ref)
    requires cfg.Valid() && s.Sound() && Enabled(s, step) && e in s.table.store
    requires step.Status?
    ensures EffectOn(cfg, s, step, Next(hash, cfg, s, step), e)
  {
  }

  lemma RevokeEffect(hash: Hash, cfg: Config, s: State, step: Step, e: Ref)
    requires cfg.Valid() && s.Sound() && Enabled(s, step) && e in s.table.store
    requires step.Revoke?
    ensures EffectOn(cfg, s, step, Next(hash, cfg, s, step), e)
  {
  }

  lemma WithChallengeEffect(cfg: Config, s: State, step: Step, reply: Reply<Ref>, e: Ref, r: Record<Ref>)
    requires ChallengeOf(step, reply, e) && s.now <= step.clk.t1 && ChallengeError(r, step.clk) == ""
    ensures Effect(cfg, s, step, step.clk.t4, reply, e, r, WithChallenge(cfg, r, step.verifier, step.clk.t4))
  {
  }

  lemma ChallengeOwn(hash: Hash, cfg: Config, s: State, step: Step, e: Ref)
    requires cfg.Valid() && s.Sound() && Enabled(s, step) && e in s.table.store
    requires step.Challenge? && MayChallenge(cfg, s.table, step.identity, step.id, step.clk) == Offered(e)
    ensures EffectOn(cfg, s, step, Next(hash, cfg, s, step), e)
  {
    var (s', reply) := Next(hash, cfg, s, step);
    assert reply.ChallengeSent? && reply.entry == e && s'.now == step.clk.t4;
    WithChallengeEffect(cfg, s, step, reply, e, s.table.store[e]);
    assert s'.table == Put(s.table, e, WithChallenge(cfg, s.table.store[e], step.verifier, step.clk.t4));
  }

  lemma SameEffect(cfg: Config, s: State, step: Step, now: int, reply: Reply<Ref>, e: Ref, r: Record<Ref>)
    requires s.now <= now && !ChallengeOf(step, reply, e) && !(reply.Report? && reply.entry == e)
    ensures Effect(cfg, s, step, now, reply, e, r, r)
  {
  }

  lemma ChallengeOther(hash: Hash, cfg: Config, s: State, step: Step, e: Ref)
    requires cfg.Valid() && s.Sound() && Enabled(s, step) && e in s.table.store
    requires step.Challenge? && MayChallenge(cfg, s.table, step.identity, step.id, step.clk) != Offered(e)
    ensures EffectOn(cfg, s, step, Next(hash, cfg, s, step), e)
  {
    var (s', reply) := Next(hash, cfg, s, step);
    SameEffect(cfg, s, step, step.clk.t4, reply, e, s.table.store[e]);
    assert s'.now == step.clk.t4 && e in s'.table.store && s'.table.store[e] == s.table.store[e];
  }

  lemma SubmitEffect(hash: Hash, cfg: Config, s: State, step: Step, e: Ref)
    requires cfg.Valid() && s.Sound() && Enabled(s, step) && e in s.table.store
    requires step.Reserve? || step.Try? || step.Conclude?
    ensures EffectOn(cfg, s, step, Next(hash, cfg, s, step), e)
  {
  }

  lemma FinishEffect(hash: Hash, cfg: Config, s: State, step: Step, e: Ref)
    requires cfg.Valid() && s.Sound() && Enabled(s, step) && e in s.table.store
    requires step.Finish?
    ensures EffectOn(cfg, s, step, Next(hash, cfg, s, step), e)
  {
  }

  lemma StepEffect(hash: Hash, cfg: Config, s: State, step: Step, e: Ref)
    requires cfg.Valid() && s.Sound() && Enabled(s, step) && e in s.table.store
    ensures EffectOn(cfg, s, step, Next(hash, cfg, s, step), e)
  {
    if step.Register? {
      RegisterEffect(hash, cfg, s, step, e);
    } else if step.Status? {
      StatusEffect(hash, cfg, s, step, e);
    } else if step.Revoke? {
      RevokeEffect(hash, cfg, s, step, e);
    } else if step.Challenge? {
      if MayChallenge(cfg, s.table, step.identity, step.id, step.clk) == Offered(e) {
        ChallengeOwn(hash, cfg, s, step, e);
      } else {
        ChallengeOther(hash, cfg, s, step, e);
      }
    } else if step.Finish? {
      FinishEffect(hash, cfg, s, step, e);
    } else {
      SubmitEffect(hash, cfg, s, step, e);
    }
  }

  /** Entries appear only by registering. */
  lemma StepBirth(hash: Hash, cfg: Config, s: State, step: Step, e: Ref)
    requires cfg.Valid() && s.Sound() && Enabled(s, step)
    requires e !in s.table.store && e in Next(hash, cfg, s, step).0.table.store
    ensures step.Register? && step.entry == e
    ensures var (s', reply) := Next(hash, cfg, s, step);
            var r := NewRecord(cfg, s'.table.store[e].binding, step.clk.t1);
            && s'.table.store[e] == Aged(r, step.clk.t2) && WellFormed(r.binding)
            && reply == ReportOf(e, s'.table.store[e], step.clk.t2, None)
  {
  }

  /** An answer is about an entry of the dictionary, or the one just made. */
  lemma AnswersAboutKnown(hash: Hash, cfg: Config, s: State, step: Step)
    requires cfg.Valid() && s.Sound() && Enabled(s, step)
    ensures var (s', reply) := Next(hash, cfg, s, step);
            (reply.Report? || reply.ChallengeSent?) ==>
              && reply.entry in s'.table.store
              && (!step.Register? ==> reply.entry in s.table.store && reply.entry in s.table.entries.Values)
  {
  }

  // ---- The invariant

  ghost predicate SeatsApart(t: Table<Ref, Ref>)
    requires t.Closed()
  {
    forall i, j :: i in t.entries && j in t.entries && i != j ==>
      var b := t.store[t.entries[j]].binding;
      !SameSeat(t.store[t.entries[i]].binding, b.controller, b.gameSessionId, b.peerId)
  }

  ghost predicate RecordInv(cfg: Config, r: Record<Ref>) {
    WellFormed(r.binding) && (r.phase.Allowed? ==> r.leaseDeadline == LeaseEnd(cfg, r))
  }

  ghost predicate TableInv(cfg: Config, t: Table<Ref, Ref>) {
    && t.Closed() && |t.entries| <= cfg.maximum && SeatsApart(t)
    && (forall id :: id in t.entries ==> t.store[t.entries[id]].binding.admissionId == id)
    && (forall e :: e in t.store ==> RecordInv(cfg, t.store[e]))
  }

  ghost predicate FlightInv(s: State, f: Flight) {
    && f.entry in s.table.store && f.verifier in s.verifiers
    && s.table.store[f.entry].verifier == Some(f.verifier) && Shut(s.table.store[f.entry], s.now)
  }

  ghost predicate Inv(cfg: Config, s: State) {
    && s.Sound() && TableInv(cfg, s.table)
    && (forall f :: f in s.flights ==> FlightInv(s, s.flights[f]))
    && (forall f, g :: f in s.flights && g in s.flights && f != g ==> s.flights[f].entry != s.flights[g].entry)
  }

  lemma SoundRegister(hash: Hash, cfg: Config, s: State, step: Step)
    requires cfg.Valid() && s.Sound() && Enabled(s, step) && (step.Register?)
    ensures Next(hash, cfg, s, step).0.Sound()
  {
  }

  lemma SoundReport(hash: Hash, cfg: Config, s: State, step: Step)
    requires cfg.Valid() && s.Sound() && Enabled(s, step) && (step.Status? || step.Revoke?)
    ensures Next(hash, cfg, s, step).0.Sound()
  {
  }

  lemma SoundChallenge(hash: Hash, cfg: Config, s: State, step: Step)
    requires cfg.Valid() && s.Sound() && Enabled(s, step) && (step.Challenge?)
    ensures Next(hash, cfg, s, step).0.Sound()
  {
  }

  lemma SoundReserve(hash: Hash, cfg: Config, s: State, step: Step)
    requires cfg.Valid() && s.Sound() && Enabled(s, step) && (step.Reserve?)
    ensures Next(hash, cfg, s, step).0.Sound()
  {
  }

  lemma SoundVerify(hash: Hash, cfg: Config, s: State, step: Step)
    requires cfg.Valid() && s.Sound() && Enabled(s, step) && (step.Try? || step.Conclude?)
    ensures Next(hash, cfg, s, step).0.Sound()
  {
  }

  lemma SoundFinish(hash: Hash, cfg: Config, s: State, step: Step)
    requires cfg.Valid() && s.Sound() && Enabled(s, step) && (step.Finish?)
    ensures Next(hash, cfg, s, step).0.Sound()
  {
  }

  /** So a run never gets stuck on a dangling reference. */
  lemma SoundKept(hash: Hash, cfg: Config, s: State, step: Step)
    requires cfg.Valid() && s.Sound() && Enabled(s, step)
    ensures Next(hash, cfg, s, step).0.Sound()
  {
    if step.Register? { SoundRegister(hash, cfg, s, step); }
    else if step.Challenge? { SoundChallenge(hash, cfg, s, step); }
    else if step.Reserve? { SoundReserve(hash, cfg, s, step); }
    else if step.Finish? { SoundFinish(hash, cfg, s, step); }
    else if step.Try? || step.Conclude? { SoundVerify(hash, cfg, s, step); }
    else { SoundReport(hash, cfg, s, step); }
  }

  lemma SubmitFrame(hash: Hash, cfg: Config, s: State, step: Step)
    requires cfg.Valid() && s.Sound() && Enabled(s, step) && (step.Reserve? || step.Try? || step.Conclude? || step.Finish?)
    ensures Next(hash, cfg, s, step).0.table.entries == s.table.entries
    ensures Next(hash, cfg, s, step).0.table.store.Keys == s.table.store.Keys
  {
  }

  lemma ControlFrame(hash: Hash, cfg: Config, s: State, step: Step)
    requires cfg.Valid() && s.Sound() && Enabled(s, step) && (step.Status? || step.Revoke? || step.Challenge?)
    ensures Next(hash, cfg, s, step).0.table.entries == s.table.entries
    ensures Next(hash, cfg, s, step).0.table.store.Keys == s.table.store.Keys
  {
  }

  /** Only register touches the dictionary. */
  lemma EntriesFrame(hash: Hash, cfg: Config, s: State, step: Step)
    requires cfg.Valid() && s.Sound() && Enabled(s, step) && !step.Register?
    ensures Next(hash, cfg, s, step).0.table.entries == s.table.entries
    ensures Next(hash, cfg, s, step).0.table.store.Keys == s.table.store.Keys
  {
    if step.Status? || step.Revoke? || step.Challenge? {
      ControlFrame(hash, cfg, s, step);
    } else {
      SubmitFrame(hash, cfg, s, step);
    }
  }

  /** A flight starts at Reserve, on the entry reserved and its verifier, and keeps both. */
  ghost predicate FlightFrame(cfg: Config, s: State, step: Step, s': State, f: Ref)
    requires s.Sound() && s'.Sound() && f in s'.flights
  {
    if f in s.flights then
      && s'.flights[f].entry == s.flights[f].entry && s'.flights[f].verifier == s.flights[f].verifier
      && !(step.Finish? && step.flight == f)
    else
      && step.Reserve? && step.flight == f
      && MayReserve(cfg, s.table, step.identity, step.id, step.evidence, step.clk.t1) == Reserved(s'.flights[f].entry)
      && s.table.store[s'.flights[f].entry].verifier == Some(s'.flights[f].verifier)
      && s'.table.store[s'.flights[f].entry].phase.Verifying?
  }

  lemma FlightsFrame(hash: Hash, cfg: Config, s: State, step: Step, f: Ref)
    requires cfg.Valid() && s.Sound() && Enabled(s, step)
    requires f in Next(hash, cfg, s, step).0.flights
    ensures Next(hash, cfg, s, step).0.Sound()
    ensures FlightFrame(cfg, s, step, Next(hash, cfg, s, step).0, f)
  {
    SoundKept(hash, cfg, s, step);
  }

  lemma RecordKept(cfg: Config, s: State, step: Step, now: int, reply: Reply<Ref>, e: Ref, r: Record<Ref>, r': Record<Ref>)
    requires RecordInv(cfg, r) && Effect(cfg, s, step, now, reply, e, r, r')
    ensures RecordInv(cfg, r')
  {
  }

  /** Changing records, but no binding, keeps the table in order. */
  lemma RecordsKeepTable(cfg: Config, t: Table<Ref, Ref>, u: Table<Ref, Ref>)
    requires TableInv(cfg, t) && u.entries == t.entries && u.store.Keys == t.store.Keys
    requires forall e :: e in t.store ==> u.store[e].binding == t.store[e].binding && RecordInv(cfg, u.store[e])
    ensures TableInv(cfg, u)
  {
  }

  lemma PurgeKeepsTable(cfg: Config, t: Table<Ref, Ref>, now: int)
    requires TableInv(cfg, t)
    ensures TableInv(cfg, Purge(t, now))
  {
    var u := Purge(t, now);
    assert u.entries.Keys <= t.entries.Keys;
    A.SubsetSize(u.entries.Keys, t.entries.Keys);
    assert |u.entries| == |u.entries.Keys| && |t.entries| == |t.entries.Keys|;
  }

  lemma AddKeepsTable(cfg: Config, t: Table<Ref, Ref>, e: Ref, r: Record<Ref>)
    requires TableInv(cfg, t) && e !in t.store && RecordInv(cfg, r)
    requires AddError(cfg, t, r.binding.controller, r.binding.gameSessionId, r.binding.peerId, r.binding.admissionId) == ""
    ensures TableInv(cfg, Added(t, e, r))
  {
    var u := Added(t, e, r);
    A.MapSizes(t.entries, r.binding.admissionId, e);
    forall i, j | i in u.entries && j in u.entries && i != j
      ensures var b := u.store[u.entries[j]].binding;
              !SameSeat(u.store[u.entries[i]].binding, b.controller, b.gameSessionId, b.peerId)
    {
      assert i in t.entries || j in t.entries;
    }
  }

  /** What register made keeps its word about the binding and the purged table. */
  lemma AcceptedFits(cfg: Config, t: Table<Ref, Ref>, step: Step)
    requires cfg.Valid() && TableInv(cfg, t) && step.Register? && IsHex(step.ids.0, 32) && IsHex(step.ids.1, 64)
    ensures match Registering(cfg, t, step.identity, step.session, step.peer, step.attestor, step.clk.t1, step.ids)
            case Rejected(kept, _) => TableInv(cfg, kept)
            case Accepted(kept, r) =>
              && TableInv(cfg, kept) && kept.store == t.store && RecordInv(cfg, r) && !r.phase.Allowed?
              && AddError(cfg, kept, r.binding.controller, r.binding.gameSessionId, r.binding.peerId, r.binding.admissionId) == ""
  {
    PurgeKeepsTable(cfg, t, step.clk.t1);
  }

  lemma RegisterKeepsTable(hash: Hash, cfg: Config, s: State, step: Step)
    requires cfg.Valid() && s.Sound() && Enabled(s, step) && step.Register? && TableInv(cfg, s.table)
    ensures TableInv(cfg, Next(hash, cfg, s, step).0.table)
  {
    AcceptedFits(cfg, s.table, step);
    match Registering(cfg, s.table, step.identity, step.session, step.peer, step.attestor, step.clk.t1, step.ids)
    case Rejected(_, _) =>
    case Accepted(kept, r) =>
      AddKeepsTable(cfg, kept, step.entry, r);
      var u := Added(kept, step.entry, r);
      RecordsKeepTable(cfg, u, Put(u, step.entry, Aged(r, step.clk.t2)));
  }

  lemma TableKept(hash: Hash, cfg: Config, s: State, step: Step)
    requires cfg.Valid() && s.Sound() && Enabled(s, step) && TableInv(cfg, s.table)
    ensures TableInv(cfg, Next(hash, cfg, s, step).0.table)
  {
    if step.Register? {
      RegisterKeepsTable(hash, cfg, s, step);
    } else {
      var (s', reply) := Next(hash, cfg, s, step);
      EntriesFrame(hash, cfg, s, step);
      forall e | e in s.table.store
        ensures s'.table.store[e].binding == s.table.store[e].binding && RecordInv(cfg, s'.table.store[e])
      {
        StepEffect(hash, cfg, s, step, e);
        RecordKept(cfg, s, step, s'.now, reply, e, s.table.store[e], s'.table.store[e]);
      }
      RecordsKeepTable(cfg, s.table, s'.table);
    }
  }

  lemma FlightKept(hash: Hash, cfg: Config, s: State, step: Step, f: Ref)
    requires cfg.Valid() && Inv(cfg, s) && Enabled(s, step) && f in Next(hash, cfg, s, step).0.flights
    ensures FlightInv(Next(hash, cfg, s, step).0, Next(hash, cfg, s, step).0.flights[f])
  {
    var (s', reply) := Next(hash, cfg, s, step);
    FlightsFrame(hash, cfg, s, step, f);
    var e := s'.flights[f].entry;
    if f in s.flights {
      assert FlightInv(s, s.flights[f]);
      assert !FinishOf(s, step, e);
    }
    StepEffect(hash, cfg, s, step, e);
  }

  lemma FlightsApart(hash: Hash, cfg: Config, s: State, step: Step, f: Ref, g: Ref)
    requires cfg.Valid() && Inv(cfg, s) && Enabled(s, step)
    requires f in Next(hash, cfg, s, step).0.flights && g in Next(hash, cfg, s, step).0.flights && f != g
    ensures Next(hash, cfg, s, step).0.flights[f].entry != Next(hash, cfg, s, step).0.flights[g].entry
  {
    FlightsFrame(hash, cfg, s, step, f);
    FlightsFrame(hash, cfg, s, step, g);
    if f in s.flights {
      assert FlightInv(s, s.flights[f]);
    }
    if g in s.flights {
      assert FlightInv(s, s.flights[g]);
    }
  }

  /** Every step of every kind keeps the invariant: at most `maximum` entries under their own
      identifiers, no seat taken twice, at most one verification per entry, and that one on
      the verifier of the entry's latest challenge. */
  lemma InvKept(hash: Hash, cfg: Config, s: State, step: Step)
    requires cfg.Valid() && Inv(cfg, s) && Enabled(s, step)
    ensures Inv(cfg, Next(hash, cfg, s, step).0)
  {
    var s' := Next(hash, cfg, s, step).0;
    SoundKept(hash, cfg, s, step);
    TableKept(hash, cfg, s, step);
    forall f | f in s'.flights ensures FlightInv(s', s'.flights[f]) {
      FlightKept(hash, cfg, s, step, f);
    }
    forall f, g | f in s'.flights && g in s'.flights && f != g ensures s'.flights[f].entry != s'.flights[g].entry {
      FlightsApart(hash, cfg, s, step, f, g);
    }
  }
}
