/** What each call to the registry is answered, exactly: who may make it, what it changes,
    and which error everyone else gets. */
module AdmissionAnswers {
  import opened Options
  import opened Hashing
  import opened Canonical
  import A = Attestation
  import opened S = SessionAdmission
  import opened R = AdmissionRuns
  import opened T = AdmissionTheorems

  /** The controller that registered the entry filed under `id`. */
  ghost predicate Controls(cfg: Config, s: State, identity: string, id: string)
    requires s.Sound()
  {
    identity in cfg.controllers && IsHex(id, 32) && id in s.table.entries
    && s.table.store[s.table.entries[id]].binding.controller == identity
  }

  /** The attestor it was registered for. */
  ghost predicate Attests(cfg: Config, s: State, identity: string, id: string)
    requires s.Sound()
  {
    identity in cfg.attestors && IsHex(id, 32) && id in s.table.entries
    && s.table.store[s.table.entries[id]].binding.attestor == identity
  }

  /** The error for anyone else. */
  predicate Rejects(reply: Reply<Ref>, role: bool, id: string) {
    reply == Refused(if !role then "UNAUTHORIZED_ROLE" else if !IsHex(id, 32) then "INVALID_IDENTIFIER" else "UNKNOWN_ADMISSION")
  }

  /** Only the table moved, and in it only the record of `e`. */
  ghost predicate OnlyEntry(s: State, s': State, e: Ref, r: Record<Ref>, now: int) {
    s' == s.(table := s.table.(store := s.table.store[e := r]), now := now)
  }

  ghost predicate Untouched(s: State, s': State, now: int) {
    s' == s.(now := now)
  }

  // ---- revoke

  /** The controller of an entry can always revoke it, whatever its state, a verification in
      flight included. */
  lemma RevokeAnswered(hash: Hash, cfg: Config, s: State, step: Step)
    requires cfg.Valid() && s.Sound() && Enabled(s, step) && step.Revoke?
    ensures var (s', reply) := Next(hash, cfg, s, step);
            if Controls(cfg, s, step.identity, step.id) then
              var e := s.table.entries[step.id];
              var r := s.table.store[e];
              && reply == Report(e, r.binding, Revoked, false, 0, None)
              && OnlyEntry(s, s', e, r.(phase := Revoked), step.clk.t4)
            else
              Rejects(reply, step.identity in cfg.controllers, step.id) && Untouched(s, s', step.clk.t4)
  {
  }

  /** And then nothing that is still in flight, or sent later, brings it back. */
  lemma RevokeStops(r: Run, k: nat, n: nat)
    requires r.Valid() && k < |r.steps| && r.steps[k].Revoke? && r.states[k].Sound()
    requires Controls(r.cfg, r.states[k], r.steps[k].identity, r.steps[k].id)
    requires k < n < |r.states|
    ensures var e := r.states[k].table.entries[r.steps[k].id];
            && r.Knows(n, e) && r.Entry(n, e).phase.Revoked?
            && (n < |r.steps| && r.replies[n].Report? && r.replies[n].entry == e ==> !r.replies[n].allow)
  {
    var e := r.states[k].table.entries[r.steps[k].id];
    assert r.StepAt(k);
    RevokeAnswered(r.hash, r.cfg, r.states[k], r.steps[k]);
    RevokedForGood(r, k, n, e);
    if n < |r.steps| {
      GoneForGood(r, n, n, e);
    }
  }

  // ---- status

  /** What status shows: the phase after both expiries, and the time left while allowed. */
  ghost predicate ShownAt(r: Record<Ref>, now: int, e: Ref, reply: Reply<Ref>, r': Record<Ref>) {
    && r' == r.(phase := r'.phase)
    && (r'.phase.Expired? <==>
          r.phase.Expired? || (!r.phase.Revoked? && now >= r.deadline) || (r.phase.Allowed? && now >= r.leaseDeadline))
    && (!r'.phase.Expired? ==> r'.phase == r.phase)
    && reply.Report? && reply.entry == e && reply.binding == r.binding && reply.phase == r'.phase
    && (reply.allow <==> r.phase.Allowed? && now < r.deadline && now < r.leaseDeadline)
    && (reply.allow ==> reply.remainingMs == if r.deadline < r.leaseDeadline then r.deadline - now else r.leaseDeadline - now)
    && (!reply.allow ==> reply.remainingMs == 0)
  }

  lemma StatusAnswered(hash: Hash, cfg: Config, s: State, step: Step)
    requires cfg.Valid() && s.Sound() && Enabled(s, step) && step.Status?
    ensures var (s', reply) := Next(hash, cfg, s, step);
            if Controls(cfg, s, step.identity, step.id) then
              var e := s.table.entries[step.id];
              && e in s'.table.store && ShownAt(s.table.store[e], step.clk.t1, e, reply, s'.table.store[e])
              && reply.attestation == None && OnlyEntry(s, s', e, s'.table.store[e], step.clk.t4)
            else
              Rejects(reply, step.identity in cfg.controllers, step.id) && Untouched(s, s', step.clk.t4)
  {
  }

  // ---- register

  /** The entries a registration leaves alone: neither revoked nor past their deadline. */
  ghost predicate Stays(t: Table<Ref, Ref>, now: int, id: string)
    requires t.Closed()
  {
    id in t.entries && now < t.store[t.entries[id]].deadline && !t.store[t.entries[id]].phase.Revoked?
  }

  ghost predicate SeatHeld(t: Table<Ref, Ref>, now: int, controller: string, session: string, peer: int)
    requires t.Closed()
  {
    exists id :: Stays(t, now, id) &&
      var b := t.store[t.entries[id]].binding;
      b.controller == controller && b.gameSessionId == session && b.peerId == peer
  }

  /** The request itself is in order. */
  predicate WellAsked(cfg: Config, step: Step)
    requires step.Register?
  {
    && step.identity in cfg.controllers && IsHex(step.session, 32) && IsHex(step.attestor, 64)
    && 2 <= step.peer <= 2147483647 && step.attestor in cfg.attestors
  }

  lemma MalformedRegister(hash: Hash, cfg: Config, s: State, step: Step)
    requires cfg.Valid() && s.Sound() && Enabled(s, step) && step.Register? && !WellAsked(cfg, step)
    ensures var (s', reply) := Next(hash, cfg, s, step);
            && Untouched(s, s', step.clk.t4)
            && reply == Refused(if step.identity !in cfg.controllers then "UNAUTHORIZED_ROLE"
                                else if !(IsHex(step.session, 32) && IsHex(step.attestor, 64)) then "INVALID_IDENTIFIER"
                                else if !(2 <= step.peer <= 2147483647) then "INVALID_PEER" else "UNKNOWN_ATTESTOR")
  {
  }

  /** The dictionary after the closed entries are dropped. */
  ghost function Staying(t: Table<Ref, Ref>, now: int): map<string, Ref>
    requires t.Closed()
  {
    map id | id in t.entries && Stays(t, now, id) :: t.entries[id]
  }

  lemma PurgeIsStaying(t: Table<Ref, Ref>, now: int, controller: string, session: string, peer: int)
    requires t.Closed()
    ensures Purge(t, now) == t.(entries := Staying(t, now))
    ensures SeatTaken(Purge(t, now), controller, session, peer) <==> SeatHeld(t, now, controller, session, peer)
  {
    assert Purge(t, now).entries == Staying(t, now);
    if SeatHeld(t, now, controller, session, peer) {
      var id :| Stays(t, now, id) && SameSeat(t.store[t.entries[id]].binding, controller, session, peer);
      assert id in Purge(t, now).entries;
    }
  }

  /** A well-formed registration first drops exactly the closed entries, and then is refused
      for a held seat, a full table or a repeated identifier. */
  lemma RegisterRefused(hash: Hash, cfg: Config, s: State, step: Step)
    requires cfg.Valid() && s.Sound() && Enabled(s, step) && step.Register? && WellAsked(cfg, step)
    ensures var (s', reply) := Next(hash, cfg, s, step);
            var now, t := step.clk.t1, s.table;
            var held := SeatHeld(t, now, step.identity, step.session, step.peer);
            var full, again := |Staying(t, now)| >= cfg.maximum, Stays(t, now, step.ids.0);
            && (reply.Refused? <==> held || full || again)
            && (reply.Refused? ==>
                  && s' == s.(table := t.(entries := Staying(t, now)), now := step.clk.t4)
                  && reply == Refused(if held then "PEER_ALREADY_REGISTERED"
                                      else if full then "ADMISSION_LIMIT" else "ENTROPY_COLLISION"))
  {
    PurgeIsStaying(s.table, step.clk.t1, step.identity, step.session, step.peer);
  }

  lemma RegisterAccepts(cfg: Config, s: State, step: Step)
    requires s.Sound() && step.Register? && WellAsked(cfg, step) && |Staying(s.table, step.clk.t1)| < cfg.maximum
    requires !SeatHeld(s.table, step.clk.t1, step.identity, step.session, step.peer) && !Stays(s.table, step.clk.t1, step.ids.0)
    ensures Registering(cfg, s.table, step.identity, step.session, step.peer, step.attestor, step.clk.t1, step.ids) ==
            Accepted(s.table.(entries := Staying(s.table, step.clk.t1)),
                     Record(Binding(step.ids.0, step.attestor, step.ids.1, step.identity, step.session, cfg.instanceId, step.peer),
                            step.clk.t1 + cfg.bindingMs, Registered, 0, 0, None))
  {
    PurgeIsStaying(s.table, step.clk.t1, step.identity, step.session, step.peer);
  }

  /** One new entry, for exactly what was asked. */
  ghost predicate AddsEntry(cfg: Config, s: State, step: Step, s': State, reply: Reply<Ref>)
    requires s.Sound() && step.Register? && step.peer >= 0
  {
    var now := step.clk.t1;
    var b := Binding(step.ids.0, step.attestor, step.ids.1, step.identity, step.session, cfg.instanceId, step.peer);
    var phase := if step.clk.t2 >= now + cfg.bindingMs then Expired else Registered;
    && reply == Report(step.entry, b, phase, false, 0, None)
    && s'.table.entries == Staying(s.table, now)[step.ids.0 := step.entry]
    && s'.table.store == s.table.store[step.entry := Record(b, now + cfg.bindingMs, phase, 0, 0, None)]
    && s' == s.(table := s'.table, now := step.clk.t4)
  }

  /** Otherwise it adds that entry. */
  lemma RegisterAdds(hash: Hash, cfg: Config, s: State, step: Step)
    requires cfg.Valid() && s.Sound() && Enabled(s, step) && step.Register? && WellAsked(cfg, step)
    requires |Staying(s.table, step.clk.t1)| < cfg.maximum
    requires !SeatHeld(s.table, step.clk.t1, step.identity, step.session, step.peer) && !Stays(s.table, step.clk.t1, step.ids.0)
    ensures AddsEntry(cfg, s, step, Next(hash, cfg, s, step).0, Next(hash, cfg, s, step).1)
  {
    RegisterAccepts(cfg, s, step);
    var b := Binding(step.ids.0, step.attestor, step.ids.1, step.identity, step.session, cfg.instanceId, step.peer);
    var kept := s.table.(entries := Staying(s.table, step.clk.t1));
    var r := Record<Ref>.Record(b, step.clk.t1 + cfg.bindingMs, Registered, 0, 0, None);
    RegisterShows(hash, cfg, s, step, kept, r);
    AddShown(cfg, s, step, Next(hash, cfg, s, step), kept, r);
  }

  lemma RegisterShows(hash: Hash, cfg: Config, s: State, step: Step, kept: Table<Ref, Ref>, r: Record<Ref>)
    requires cfg.Valid() && s.Sound() && Enabled(s, step) && step.Register?
    requires Registering(cfg, s.table, step.identity, step.session, step.peer, step.attestor, step.clk.t1, step.ids) ==
             Accepted(kept, r)
    ensures Next(hash, cfg, s, step) ==
            Move(s, Show(Added(kept, step.entry, r), step.entry, r, step.clk.t2, None), step.clk.t4)
  {
  }

  lemma AddShown(cfg: Config, s: State, step: Step, next: (State, Reply<Ref>), kept: Table<Ref, Ref>, r: Record<Ref>)
    requires s.Sound() && step.Register? && step.peer >= 0 && kept == s.table.(entries := Staying(s.table, step.clk.t1))
    requires r == Record(
               Binding(step.ids.0, step.attestor, step.ids.1, step.identity, step.session, cfg.instanceId, step.peer),
               step.clk.t1 + cfg.bindingMs, Registered, 0, 0, None)
    requires next == Move(s, Show(Added(kept, step.entry, r), step.entry, r, step.clk.t2, None), step.clk.t4)
    ensures AddsEntry(cfg, s, step, next.0, next.1)
  {
    var phase := if step.clk.t2 >= r.deadline then Expired else Registered;
    assert kept.store[step.entry := r][step.entry := r.(phase := phase)] == kept.store[step.entry := r.(phase := phase)];
  }

  // ---- challenge

  /** Nothing stands in the way of a new challenge. */
  predicate Challengeable(r: Record<Ref>, clk: Clock) {
    && !r.phase.Revoked? && clk.t1 < r.deadline && !r.phase.Verifying?
    && (r.phase.Challenged? ==> r.challengeDeadline <= clk.t2)
  }

  lemma ChallengeForOthers(hash: Hash, cfg: Config, s: State, step: Step)
    requires cfg.Valid() && s.Sound() && Enabled(s, step) && step.Challenge? && !Attests(cfg, s, step.identity, step.id)
    ensures var (s', reply) := Next(hash, cfg, s, step);
            Rejects(reply, step.identity in cfg.attestors, step.id) && Untouched(s, s', step.clk.t4)
  {
  }

  /** The attestor of an entry gets a challenge if and only if the entry is open and no other
      challenge is pending. */
  lemma ChallengeAnswered(hash: Hash, cfg: Config, s: State, step: Step)
    requires cfg.Valid() && s.Sound() && Enabled(s, step) && step.Challenge? && Attests(cfg, s, step.identity, step.id)
    ensures var (s', reply) := Next(hash, cfg, s, step);
            var r := s.table.store[s.table.entries[step.id]];
            && (reply.ChallengeSent? <==> Challengeable(r, step.clk))
            && (!Challengeable(r, step.clk) ==>
                  && Untouched(s, s', step.clk.t4)
                  && reply == Refused(if r.phase.Revoked? || step.clk.t1 >= r.deadline then "ADMISSION_CLOSED" else "CHALLENGE_PENDING"))
  {
  }

  /** It is bound to that entry and to nothing else. */
  lemma ChallengeNames(hash: Hash, cfg: Config, s: State, step: Step)
    requires cfg.Valid() && s.Sound() && Enabled(s, step) && step.Challenge? && Attests(cfg, s, step.identity, step.id)
    requires Challengeable(s.table.store[s.table.entries[step.id]], step.clk)
    ensures var reply := Next(hash, cfg, s, step).1;
            var e := s.table.entries[step.id];
            && reply.ChallengeSent? && reply.entry == e && reply.salt == step.salt
            && var c := reply.challenge;
               && c.sessionId == step.entropy.draws[0] && c.nonce == BoundNonce(hash, s.table.store[e].binding, step.salt)
               && c.createdAt == step.entropy.created && c.expiresAt == step.entropy.created + cfg.challengeMs
               && c.policyId == cfg.attestors[step.identity].policyId && c.akSha256 == cfg.attestors[step.identity].akSha256
  {
  }

  lemma OfferedTo(cfg: Config, s: State, step: Step)
    requires s.Sound() && step.Challenge? && Attests(cfg, s, step.identity, step.id)
    requires Challengeable(s.table.store[s.table.entries[step.id]], step.clk)
    ensures MayChallenge(cfg, s.table, step.identity, step.id, step.clk) == Offered(s.table.entries[step.id])
  {
  }

  /** It replaces the challenge the entry had and suspends its lease. */
  lemma ChallengeReplaces(hash: Hash, cfg: Config, s: State, step: Step)
    requires cfg.Valid() && s.Sound() && Enabled(s, step) && step.Challenge? && Attests(cfg, s, step.identity, step.id)
    requires Challengeable(s.table.store[s.table.entries[step.id]], step.clk)
    ensures var s' := Next(hash, cfg, s, step).0;
            var e := s.table.entries[step.id];
            && s'.flights == s.flights && s'.table.entries == s.table.entries
            && s'.table.store == s.table.store[
                 e := s.table.store[e].(phase := Challenged, verifier := Some(step.verifier),
                                        challengeDeadline := step.clk.t4 + cfg.challengeMs)]
  {
    OfferedTo(cfg, s, step);
  }

  /** And it comes with a verifier that holds it, unused, for this attestor alone. */
  lemma ChallengeHeld(hash: Hash, cfg: Config, s: State, step: Step)
    requires cfg.Valid() && s.Sound() && Enabled(s, step) && step.Challenge? && Attests(cfg, s, step.identity, step.id)
    requires Challengeable(s.table.store[s.table.entries[step.id]], step.clk)
    ensures var (s', reply) := Next(hash, cfg, s, step);
            && reply.ChallengeSent? && step.verifier in s'.verifiers
            && s'.verifiers[step.verifier].sessions ==
               map[reply.challenge.sessionId := A.Session(step.identity, reply.challenge, step.clk.t3 + cfg.challengeMs, false)]
  {
    OfferedTo(cfg, s, step);
  }

  // ---- submit

  /** A submit is let through to the verifier if and only if its attestor has a challenge
      pending on an open entry; the entry then waits for that one verification. */
  lemma ReserveAnswered(hash: Hash, cfg: Config, s: State, step: Step)
    requires cfg.Valid() && s.Sound() && Enabled(s, step) && step.Reserve?
    ensures var (s', reply) := Next(hash, cfg, s, step);
            if !Attests(cfg, s, step.identity, step.id) then
              Rejects(reply, step.identity in cfg.attestors, step.id) && Untouched(s, s', step.clk.t4)
            else
              var e := s.table.entries[step.id];
              var r := s.table.store[e];
              var open := !r.phase.Revoked? && step.clk.t1 < r.deadline;
              if open && r.phase.Challenged? && step.evidence.Some? then
                && reply.Silent? && s'.table == s.table.(store := s.table.store[e := r.(phase := Verifying)])
                && s'.verifiers == s.verifiers
                && s'.flights == s.flights[step.flight :=
                     Flight(step.id, e, r.verifier.value, step.identity, step.evidence.value, Waiting, step.clk.t1)]
              else
                && Untouched(s, s', step.clk.t4)
                && reply == Refused(if !open then "ADMISSION_CLOSED"
                                    else if !r.phase.Challenged? then "NO_PENDING_CHALLENGE" else "INVALID_SCHEMA")
  {
  }

  /** Under the verifier's lock: the tools may run only for the attestor the challenge was
      issued to, once, in time; nothing but that verifier and that flight changes. */
  lemma TryAnswered(hash: Hash, cfg: Config, s: State, step: Step)
    requires cfg.Valid() && s.Sound() && Enabled(s, step) && step.Try?
    ensures var s' := Next(hash, cfg, s, step).0;
            var fl := s.flights[step.flight];
            var v, sid := s.verifiers[fl.verifier], fl.evidence.sessionId;
            var due := fl.evidence.schemaOk && |sid| == 32 && sid in v.sessions && v.sessions[sid].owner == fl.identity
                       && !v.sessions[sid].used && step.at < v.sessions[sid].deadline;
            && s'.table == s.table && s'.now == s.now && s'.flights.Keys == s.flights.Keys
            && (forall f :: f in s.flights && f != step.flight ==> s'.flights[f] == s.flights[f])
            && (s'.flights[step.flight].stage.Checking? <==> due)
            && (due ==>
                  && s'.flights[step.flight].stage == Checking(v.sessions[sid].(used := true))
                  && s'.verifiers == s.verifiers[fl.verifier := v.(sessions := v.sessions[sid := v.sessions[sid].(used := true)])])
            && (!due ==> s'.verifiers == s.verifiers && s'.flights[step.flight].stage.Over?)
  {
    var fl := s.flights[step.flight];
    var v := s.verifiers[fl.verifier];
    A.AdmittedExactly(v.settings, v.sessions, fl.identity, fl.evidence, step.at);
  }

  /** The entry still waits, under the same identifier, for this verification. */
  ghost predicate Awaited(s: State, fl: Flight)
    requires fl.entry in s.table.store
  {
    fl.id in s.table.entries && s.table.entries[fl.id] == fl.entry && s.table.store[fl.entry].phase.Verifying?
  }

  /** A result counts if and only if its entry still waits for it: then the decision and the
      lease are recorded and reported. */
  lemma FinishAnswered(hash: Hash, cfg: Config, s: State, step: Step)
    requires cfg.Valid() && s.Sound() && Enabled(s, step) && step.Finish?
    requires s.flights[step.flight].stage.result.Some?
    ensures var (s', reply) := Next(hash, cfg, s, step);
            var fl := s.flights[step.flight];
            var e, result := fl.entry, fl.stage.result.value;
            && s'.flights == s.flights - {step.flight} && s'.verifiers == s.verifiers
            && e in s.table.store && s'.table.entries == s.table.entries
            && (!Awaited(s, fl) ==> s'.table == s.table && reply == Refused("ADMISSION_CLOSED"))
            && (Awaited(s, fl) ==>
                  var r := s.table.store[e];
                  var lease := r.challengeDeadline - cfg.challengeMs + cfg.leaseMs;
                  var decided := r.(phase := if result.decision == A.Allow then Allowed else Denied,
                                    leaseDeadline := if r.deadline < lease then r.deadline else lease);
                  && e in s'.table.store && s'.table.store == s.table.store[e := s'.table.store[e]]
                  && ShownAt(decided, step.clk.t1, e, reply, s'.table.store[e]) && reply.attestation == Some(result))
  {
  }

  /** An exception in the verifier denies an entry that still waits, and nothing else. */
  lemma FailureAnswered(hash: Hash, cfg: Config, s: State, step: Step)
    requires cfg.Valid() && s.Sound() && Enabled(s, step) && step.Finish?
    requires s.flights[step.flight].stage.result.None?
    ensures var (s', reply) := Next(hash, cfg, s, step);
            var e := s.flights[step.flight].entry;
            && e in s.table.store && reply.Refused? && s'.flights == s.flights - {step.flight}
            && s'.table.entries == s.table.entries
            && s'.table.store == if s.table.store[e].phase.Verifying? then s.table.store[e := s.table.store[e].(phase := Denied)]
                                 else s.table.store
  {
  }
}
