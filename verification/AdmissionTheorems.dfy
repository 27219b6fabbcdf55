/** What holds in every run of the admission service, whatever is interleaved. */
module AdmissionTheorems {
  import opened Options
  import opened Bytes
  import opened Hashing
  import opened Canonical
  import A = Attestation
  import opened S = SessionAdmission
  import opened R = AdmissionRuns

  /** Consecutive states, the steps between them and what each answered. */
  datatype Run = Run(hash: Hash, cfg: Config, states: seq<State>, steps: seq<Step>, replies: seq<Reply<Ref>>) {
    ghost predicate StepAt(i: nat)
      requires cfg.Valid() && i < |steps| == |replies| && i + 1 < |states|
    {
      && states[i].Sound() && Enabled(states[i], steps[i])
      && states[i + 1] == Next(hash, cfg, states[i], steps[i]).0
      && replies[i] == Next(hash, cfg, states[i], steps[i]).1
    }

    ghost predicate Valid() {
      && cfg.Valid() && |states| == |steps| + 1 && |replies| == |steps|
      && states[0] == NOTHING.(now := states[0].now)
      && forall i :: 0 <= i < |steps| ==> StepAt(i)
    }

    predicate ChallengedAt(k: nat, e: Ref)
      requires k < |steps| == |replies|
    {
      ChallengeOf(steps[k], replies[k], e)
    }

    predicate RevokedAt(k: nat, e: Ref)
      requires k < |steps| == |replies|
    {
      RevokeOf(steps[k], replies[k], e)
    }

    ghost predicate Knows(n: nat, e: Ref) {
      n < |states| && e in states[n].table.store
    }

    ghost function Entry(n: nat, e: Ref): Record<Ref>
      requires Knows(n, e)
    {
      states[n].table.store[e]
    }

    /** No challenge for `e` in [from, to). */
    ghost predicate NoChallenge(from: nat, to: nat, e: Ref)
      requires |steps| == |replies| && to <= |steps|
    {
      forall j :: from <= j < to ==> !ChallengedAt(j, e)
    }
  }

  // ---- Reachable states

  lemma {:induction false} InvAt(r: Run, n: nat)
    requires r.Valid() && n < |r.states|
    ensures Inv(r.cfg, r.states[n])
  {
    if n > 0 {
      assert r.StepAt(n - 1);
      InvAt(r, n - 1);
      InvKept(r.hash, r.cfg, r.states[n - 1], r.steps[n - 1]);
    }
  }

  /** Every reachable registry holds at most `maximum` entries, gives each seat (controller,
      game session, peer) to one entry, and runs at most one verification per entry. */
  lemma RegistryInOrder(r: Run, n: nat)
    requires r.Valid() && n < |r.states|
    ensures var s := r.states[n];
            && s.Sound() && |s.table.entries| <= r.cfg.maximum && SeatsApart(s.table)
            && forall f, g :: f in s.flights && g in s.flights && f != g ==> s.flights[f].entry != s.flights[g].entry
  {
    InvAt(r, n);
  }

  lemma EffectAt(r: Run, n: nat, e: Ref)
    requires r.Valid() && n < |r.steps| && r.Knows(n, e)
    ensures r.Knows(n + 1, e)
    ensures Effect(r.cfg, r.states[n], r.steps[n], r.states[n + 1].now, r.replies[n], e, r.Entry(n, e), r.Entry(n + 1, e))
  {
    assert r.StepAt(n);
    StepEffect(r.hash, r.cfg, r.states[n], r.steps[n], e);
  }

  lemma BirthAt(r: Run, n: nat, e: Ref)
    requires r.Valid() && n < |r.steps| && !r.Knows(n, e) && r.Knows(n + 1, e)
    ensures r.steps[n].Register? && r.steps[n].entry == e
    ensures r.Entry(n + 1, e) == Aged(NewRecord(r.cfg, r.Entry(n + 1, e).binding, r.steps[n].clk.t1), r.steps[n].clk.t2)
    ensures r.replies[n] == ReportOf(e, r.Entry(n + 1, e), r.steps[n].clk.t2, None)
  {
    assert r.StepAt(n);
    StepBirth(r.hash, r.cfg, r.states[n], r.steps[n], e);
  }

  lemma ReplyKnown(r: Run, n: nat)
    requires r.Valid() && n < |r.steps| && (r.replies[n].Report? || r.replies[n].ChallengeSent?)
    ensures r.Knows(n + 1, r.replies[n].entry)
    ensures !r.steps[n].Register? ==> r.Knows(n, r.replies[n].entry)
  {
    assert r.StepAt(n);
    AnswersAboutKnown(r.hash, r.cfg, r.states[n], r.steps[n]);
  }

  // ---- Allow

  /** Where an entry comes from. */
  lemma {:induction false} BornAt(r: Run, n: nat, e: Ref) returns (b: nat)
    requires r.Valid() && n < |r.states| && r.Knows(n, e)
    ensures b < n && r.steps[b].Register? && r.steps[b].entry == e
    ensures r.replies[b].Report? && r.replies[b].entry == e && r.replies[b].binding == r.Entry(n, e).binding
    ensures r.Entry(n, e).deadline == r.steps[b].clk.t1 + r.cfg.bindingMs
  {
    if r.Knows(n - 1, e) {
      EffectAt(r, n - 1, e);
      b := BornAt(r, n - 1, e);
    } else {
      BirthAt(r, n - 1, e);
      b := n - 1;
    }
  }

  /** The challenge behind an entry's verifier and challenge deadline is its latest. */
  lemma {:induction false} LatestChallenge(r: Run, n: nat, e: Ref) returns (k: nat)
    requires r.Valid() && n < |r.states| && r.Knows(n, e) && r.Entry(n, e).verifier.Some?
    ensures k < n && r.ChallengedAt(k, e) && r.NoChallenge(k + 1, n, e)
    ensures r.steps[k].verifier == r.Entry(n, e).verifier.value
    ensures r.Entry(n, e).challengeDeadline == r.steps[k].clk.t4 + r.cfg.challengeMs
  {
    if r.Knows(n - 1, e) {
      EffectAt(r, n - 1, e);
      if r.ChallengedAt(n - 1, e) {
        k := n - 1;
      } else {
        k := LatestChallenge(r, n - 1, e);
      }
    } else {
      BirthAt(r, n - 1, e);
    }
  }

  /** An allowed entry was allowed by a verification, and not challenged since. */
  lemma {:induction false} GrantedSince(r: Run, n: nat, e: Ref) returns (c: nat)
    requires r.Valid() && n < |r.states| && r.Knows(n, e) && r.Entry(n, e).phase.Allowed?
    ensures c < n && r.Knows(c, e) && Grants(r.states[c], r.steps[c], e) && r.NoChallenge(c, n, e)
    ensures r.Entry(c, e).phase.Verifying? && r.Entry(c, e).verifier == r.Entry(n, e).verifier
    ensures r.Entry(c, e).challengeDeadline == r.Entry(n, e).challengeDeadline
  {
    if r.Knows(n - 1, e) {
      EffectAt(r, n - 1, e);
      if r.Entry(n - 1, e).phase.Allowed? {
        c := GrantedSince(r, n - 1, e);
      } else {
        c := n - 1;
      }
    } else {
      BirthAt(r, n - 1, e);
    }
  }

  lemma {:induction false} RevokedForGood(r: Run, k: nat, n: nat, e: Ref)
    requires r.Valid() && k < n < |r.states| && r.RevokedAt(k, e)
    ensures r.Knows(n, e) && r.Entry(n, e).phase.Revoked?
  {
    if n == k + 1 {
      ReplyKnown(r, k);
      EffectAt(r, k, e);
    } else {
      RevokedForGood(r, k, n - 1, e);
      EffectAt(r, n - 1, e);
    }
  }

  /** The steps that justify the answer at `n`: registered at b, challenged at k, granted at
      c, with the verifier of that challenge. */
  ghost predicate Justified(r: Run, n: nat, b: nat, k: nat, c: nat)
    requires r.Valid() && n < |r.steps| && r.replies[n].Report?
  {
    var e := r.replies[n].entry;
    && b <= n && r.steps[b].Register? && r.steps[b].entry == e
    && k < c <= n && r.ChallengedAt(k, e) && r.NoChallenge(k + 1, n + 1, e)
    && Grants(r.states[c], r.steps[c], e) && r.states[c].flights[r.steps[c].flight].verifier == r.steps[k].verifier
    && forall j :: 0 <= j <= n ==> !r.RevokedAt(j, e)
  }

  /** Every answer that says allow, at time t: its entry was never revoked, its latest
      challenge was decided ALLOW, t is before the binding deadline and before the end of
      the lease that began at that challenge, and so is t plus the time said to remain. */
  lemma AllowIsSafe(r: Run, n: nat) returns (b: nat, k: nat, c: nat)
    requires r.Valid() && n < |r.steps| && r.replies[n].Report? && r.replies[n].allow
    ensures Justified(r, n, b, k, c)
    ensures var t, left := TimeOf(r.steps[n]), r.replies[n].remainingMs;
            && t < t + left <= r.steps[b].clk.t1 + r.cfg.bindingMs
            && t + left <= r.steps[k].clk.t4 + r.cfg.leaseMs
  {
    var e := r.replies[n].entry;
    ReplyKnown(r, n);
    ReportIsCurrent(r, n);
    b := BornAt(r, n + 1, e);
    c := GrantedSince(r, n + 1, e);
    InvAt(r, c);
    assert FlightInv(r.states[c], r.states[c].flights[r.steps[c].flight]);
    k := LatestChallenge(r, c, e);
    assert r.NoChallenge(k + 1, n + 1, e);
    forall j | 0 <= j <= n ensures !r.RevokedAt(j, e) {
      if r.RevokedAt(j, e) {
        RevokedForGood(r, j, n + 1, e);
      }
    }
    InvAt(r, n + 1);
    assert RecordInv(r.cfg, r.Entry(n + 1, e));
  }

  /** A report shows its entry as it is just after. */
  lemma ReportIsCurrent(r: Run, n: nat)
    requires r.Valid() && n < |r.steps| && r.replies[n].Report?
    ensures r.Knows(n + 1, r.replies[n].entry)
    ensures var r' := r.Entry(n + 1, r.replies[n].entry);
            && r.replies[n] == ReportOf(r.replies[n].entry, r', TimeOf(r.steps[n]), r.replies[n].attestation)
            && Aged(r', TimeOf(r.steps[n])) == r'
  {
    ReplyKnown(r, n);
    var e := r.replies[n].entry;
    if r.Knows(n, e) {
      EffectAt(r, n, e);
    } else {
      BirthAt(r, n, e);
    }
  }

  // ---- Late results

  /** Purged, revoked, or past its binding deadline. */
  ghost predicate Gone(s: State, e: Ref)
    requires e in s.table.store
  {
    e !in s.table.entries.Values || s.table.store[e].phase.Revoked? || s.now >= s.table.store[e].deadline
  }

  lemma NewKeepsOthersOut(hash: Hash, cfg: Config, s: State, step: Step, e: Ref)
    requires cfg.Valid() && s.Sound() && Enabled(s, step)
    requires e in s.table.store && e !in s.table.entries.Values
    ensures e !in Next(hash, cfg, s, step).0.table.entries.Values
  {
    if step.Register? {
      var ids := Next(hash, cfg, s, step).0.table.entries;
      forall id | id in ids ensures ids[id] != e {
        assert ids[id] == step.entry || (id in s.table.entries && ids[id] == s.table.entries[id]);
      }
    } else {
      EntriesFrame(hash, cfg, s, step);
    }
  }

  lemma ClockKept(hash: Hash, cfg: Config, s: State, step: Step)
    requires cfg.Valid() && s.Sound() && Enabled(s, step)
    ensures s.now <= Next(hash, cfg, s, step).0.now
  {
  }

  lemma GoneStays(r: Run, n: nat, e: Ref)
    requires r.Valid() && n < |r.steps| && r.Knows(n, e) && Gone(r.states[n], e)
    ensures r.Knows(n + 1, e) && Gone(r.states[n + 1], e)
  {
    EffectAt(r, n, e);
    assert r.StepAt(n);
    ClockKept(r.hash, r.cfg, r.states[n], r.steps[n]);
    if e !in r.states[n].table.entries.Values {
      NewKeepsOthersOut(r.hash, r.cfg, r.states[n], r.steps[n], e);
    }
  }

  /** A result that comes back for a gone entry is thrown away. */
  lemma LateFinish(hash: Hash, cfg: Config, s: State, step: Step, e: Ref)
    requires cfg.Valid() && s.Sound() && Enabled(s, step) && e in s.table.store && Gone(s, e) && FinishOf(s, step, e)
    requires s.table.store[e].phase.Verifying?
    ensures e in Next(hash, cfg, s, step).0.table.store
    ensures !Next(hash, cfg, s, step).0.table.store[e].phase.Allowed?
  {
  }

  lemma {:induction false} GoneForLong(r: Run, i: nat, n: nat, e: Ref)
    requires r.Valid() && i <= n < |r.states| && r.Knows(i, e) && Gone(r.states[i], e)
    ensures r.Knows(n, e) && Gone(r.states[n], e)
  {
    if i < n {
      GoneForLong(r, i, n - 1, e);
      GoneStays(r, n - 1, e);
    }
  }

  /** Once an entry is purged, revoked or past its deadline, no step ever makes it ALLOWED
      again and no answer about it says allow, however late its verification returns. */
  lemma GoneForGood(r: Run, i: nat, n: nat, e: Ref)
    requires r.Valid() && i <= n < |r.steps| && r.Knows(i, e) && Gone(r.states[i], e)
    ensures r.Knows(n, e) && r.Knows(n + 1, e)
    ensures r.Entry(n + 1, e).phase.Allowed? ==> r.Entry(n, e).phase.Allowed?
    ensures r.replies[n].Report? && r.replies[n].entry == e ==> !r.replies[n].allow
  {
    GoneForLong(r, i, n, e);
    EffectAt(r, n, e);
    assert r.StepAt(n);
    var s, step := r.states[n], r.steps[n];
    if r.Entry(n + 1, e).phase.Allowed? && !r.Entry(n, e).phase.Allowed? {
      LateFinish(r.hash, r.cfg, s, step, e);
    }
    if r.replies[n].Report? && r.replies[n].entry == e && r.replies[n].allow {
      NoAllowWhenGone(r, n, e);
    }
  }

  lemma NoAllowWhenGone(r: Run, n: nat, e: Ref)
    requires r.Valid() && n < |r.steps| && r.Knows(n, e) && Gone(r.states[n], e)
    requires r.replies[n].Report? && r.replies[n].entry == e
    ensures !r.replies[n].allow
  {
    EffectAt(r, n, e);
    assert r.StepAt(n);
    ReportTime(r.hash, r.cfg, r.states[n], r.steps[n], e);
  }

  /** Reports are made about entries of the dictionary, at the registry's own time. */
  lemma ReportTime(hash: Hash, cfg: Config, s: State, step: Step, e: Ref)
    requires cfg.Valid() && s.Sound() && Enabled(s, step) && e in s.table.store
    requires Next(hash, cfg, s, step).1.Report? && Next(hash, cfg, s, step).1.entry == e
    ensures s.now <= TimeOf(step) && e in s.table.entries.Values
  {
  }

  // ---- One use

  /** The same verifier later: only `used` flags may have been raised. */
  ghost predicate SameButUsed(a: Verifier, b: Verifier) {
    && b == a.(sessions := b.sessions) && a.sessions.Keys == b.sessions.Keys
    && forall sid :: sid in a.sessions ==>
         && b.sessions[sid] == a.sessions[sid].(used := b.sessions[sid].used)
         && (a.sessions[sid].used ==> b.sessions[sid].used)
  }

  lemma TryKeepsVerifiers(hash: Hash, cfg: Config, s: State, step: Step, v: Ref)
    requires cfg.Valid() && s.Sound() && Enabled(s, step) && v in s.verifiers && step.Try?
    ensures v in Next(hash, cfg, s, step).0.verifiers
    ensures SameButUsed(s.verifiers[v], Next(hash, cfg, s, step).0.verifiers[v])
  {
  }

  lemma OthersKeepVerifiers(hash: Hash, cfg: Config, s: State, step: Step, v: Ref)
    requires cfg.Valid() && s.Sound() && Enabled(s, step) && v in s.verifiers && !step.Try?
    ensures v in Next(hash, cfg, s, step).0.verifiers
    ensures SameButUsed(s.verifiers[v], Next(hash, cfg, s, step).0.verifiers[v])
  {
    assert Next(hash, cfg, s, step).0.verifiers[v] == s.verifiers[v];
  }

  lemma VerifierStep(hash: Hash, cfg: Config, s: State, step: Step, v: Ref)
    requires cfg.Valid() && s.Sound() && Enabled(s, step) && v in s.verifiers
    ensures v in Next(hash, cfg, s, step).0.verifiers
    ensures SameButUsed(s.verifiers[v], Next(hash, cfg, s, step).0.verifiers[v])
  {
    if step.Try? {
      TryKeepsVerifiers(hash, cfg, s, step, v);
    } else {
      OthersKeepVerifiers(hash, cfg, s, step, v);
    }
  }

  /** What the verifier of a challenge is when it is made. */
  ghost function MadeAt(r: Run, k: nat): Verifier
    requires r.Valid() && k < |r.steps| && r.steps[k].Challenge? && r.replies[k].ChallengeSent?
    requires r.Knows(k, r.replies[k].entry) && r.steps[k].identity in r.cfg.attestors
  {
    NewVerifier(r.cfg, r.steps[k].identity, r.Entry(k, r.replies[k].entry).binding, r.steps[k].salt,
                r.replies[k].challenge, r.steps[k].clk.t3)
  }

  ghost predicate Made(r: Run, k: nat, v: Ref)
    requires r.Valid()
  {
    && k < |r.steps| && r.steps[k].Challenge? && r.replies[k].ChallengeSent? && r.steps[k].verifier == v
    && r.Knows(k, r.replies[k].entry) && r.steps[k].identity in r.cfg.attestors && r.steps[k].entropy.Valid()
    && IsHex(r.steps[k].salt, 64) && WellFormed(r.Entry(k, r.replies[k].entry).binding)
    && r.cfg.Settings(r.steps[k].identity).Valid()
    && r.replies[k].challenge ==
       BoundTo(r.hash, r.cfg.Settings(r.steps[k].identity), r.Entry(k, r.replies[k].entry).binding,
               r.steps[k].salt, r.steps[k].entropy)
  }

  lemma VerifierBirth(hash: Hash, cfg: Config, s: State, step: Step, v: Ref)
    requires cfg.Valid() && s.Sound() && Enabled(s, step)
    requires v !in s.verifiers && v in Next(hash, cfg, s, step).0.verifiers
    ensures step.Challenge? && step.verifier == v && step.identity in cfg.attestors
    ensures var (s', reply) := Next(hash, cfg, s, step);
            && reply.ChallengeSent? && reply.entry in s.table.store
            && reply.challenge == BoundTo(hash, cfg.Settings(step.identity), s.table.store[reply.entry].binding, step.salt, step.entropy)
            && s'.verifiers[v] == NewVerifier(cfg, step.identity, s.table.store[reply.entry].binding, step.salt, reply.challenge, step.clk.t3)
  {
  }

  /** Every verifier was made by one challenge and is still that challenge's. */
  lemma {:induction false} MadeBy(r: Run, n: nat, v: Ref) returns (k: nat)
    requires r.Valid() && n < |r.states| && v in r.states[n].verifiers
    ensures k < n && Made(r, k, v) && SameButUsed(MadeAt(r, k), r.states[n].verifiers[v])
  {
    assert r.StepAt(n - 1);
    if v in r.states[n - 1].verifiers {
      VerifierStep(r.hash, r.cfg, r.states[n - 1], r.steps[n - 1], v);
      k := MadeBy(r, n - 1, v);
    } else {
      VerifierBirth(r.hash, r.cfg, r.states[n - 1], r.steps[n - 1], v);
      InvAt(r, n - 1);
      k := n - 1;
      assert RecordInv(r.cfg, r.Entry(k, r.replies[k].entry));
    }
  }

  /** The verifier's lock let flight `f` through: its tools may run. */
  ghost predicate Admitted(s: State, step: Step, session: A.Session)
    requires s.Sound()
  {
    step.Try? && step.flight in s.flights && Trial(s, step.flight, step.at).1 == A.ToVerify(session)
  }

  /** A flight is checking a session only because Try admitted it. */
  lemma CheckingStep(hash: Hash, cfg: Config, s: State, step: Step, f: Ref)
    requires cfg.Valid() && s.Sound() && Enabled(s, step)
    requires f in Next(hash, cfg, s, step).0.flights && Next(hash, cfg, s, step).0.flights[f].stage.Checking?
    ensures var fl := Next(hash, cfg, s, step).0.flights[f];
            && f in s.flights && s.flights[f].verifier == fl.verifier
            && (s.flights[f] == fl || (Admitted(s, step, fl.stage.session) && step.flight == f && s.flights[f].stage.Waiting?))
  {
  }

  /** And is over with ALLOW only because Conclude said so. */
  lemma OverStep(hash: Hash, cfg: Config, s: State, step: Step, f: Ref)
    requires cfg.Valid() && s.Sound() && Enabled(s, step)
    requires f in Next(hash, cfg, s, step).0.flights && Allowing(Next(hash, cfg, s, step).0.flights[f])
    ensures var fl := Next(hash, cfg, s, step).0.flights[f];
            && f in s.flights && s.flights[f].verifier == fl.verifier
            && (s.flights[f] == fl ||
                (step.Conclude? && step.flight == f && s.flights[f].stage.Checking?
                 && fl.stage.result == Conclusion(hash, s, f, step.outcome, step.at)))
  {
  }

  predicate Allowing(fl: Flight) {
    fl.stage.Over? && fl.stage.result.Some? && fl.stage.result.value.decision.Allow?
  }

  /** Flight `f` stays exactly as it is over (from, to]. */
  ghost predicate Steady(r: Run, from: nat, to: nat, f: Ref)
    requires to < |r.states| && f in r.states[to].flights
  {
    forall x :: from < x <= to ==> f in r.states[x].flights && r.states[x].flights[f] == r.states[to].flights[f]
  }

  lemma SteadyGrows(r: Run, from: nat, to: nat, f: Ref)
    requires from <= to && to + 1 < |r.states| && f in r.states[to].flights && (from < to ==> Steady(r, from, to, f))
    requires f in r.states[to + 1].flights && (from < to ==> r.states[to + 1].flights[f] == r.states[to].flights[f])
    ensures Steady(r, from, to + 1, f)
  {
  }

  /** A flight that stays as it is was neither concluded nor finished meanwhile. */
  lemma SteadyUntouched(r: Run, from: nat, to: nat, f: Ref, c: nat)
    requires r.Valid() && from < c < to < |r.states| && f in r.states[to].flights && Steady(r, from, to, f)
    ensures !(r.steps[c].Conclude? && r.steps[c].flight == f) && !(r.steps[c].Finish? && r.steps[c].flight == f)
  {
    assert r.StepAt(c);
    assert r.states[c].flights[f] == r.states[c + 1].flights[f];
  }

  lemma {:induction false} CheckingSince(r: Run, n: nat, f: Ref) returns (a: nat)
    requires r.Valid() && n < |r.states| && f in r.states[n].flights && r.states[n].flights[f].stage.Checking?
    ensures a < n && r.states[a].Sound() && r.steps[a].Try? && r.steps[a].flight == f && f in r.states[a].flights
    ensures Admitted(r.states[a], r.steps[a], r.states[n].flights[f].stage.session)
    ensures r.states[a].flights[f].verifier == r.states[n].flights[f].verifier && Steady(r, a, n, f)
  {
    assert r.StepAt(n - 1);
    CheckingStep(r.hash, r.cfg, r.states[n - 1], r.steps[n - 1], f);
    if f in r.states[n - 1].flights && r.states[n - 1].flights[f] == r.states[n].flights[f] {
      a := CheckingSince(r, n - 1, f);
    } else {
      a := n - 1;
    }
    SteadyGrows(r, a, n - 1, f);
  }

  lemma {:induction false} AllowingSince(r: Run, n: nat, f: Ref) returns (m: nat)
    requires r.Valid() && n < |r.states| && f in r.states[n].flights && Allowing(r.states[n].flights[f])
    ensures m < n && ConcludedAllow(r, m) && r.steps[m].flight == f
    ensures r.states[m].flights[f].verifier == r.states[n].flights[f].verifier && Steady(r, m, n, f)
  {
    assert r.StepAt(n - 1);
    OverStep(r.hash, r.cfg, r.states[n - 1], r.steps[n - 1], f);
    if f in r.states[n - 1].flights && r.states[n - 1].flights[f] == r.states[n].flights[f] {
      m := AllowingSince(r, n - 1, f);
    } else {
      m := n - 1;
    }
    SteadyGrows(r, m, n - 1, f);
  }

  /** The step by which a verification ends in ALLOW. */
  ghost predicate ConcludedAllow(r: Run, m: nat)
    requires r.Valid()
  {
    && m < |r.steps| && r.steps[m].Conclude? && r.StepAt(m)
    && var c := Conclusion(r.hash, r.states[m], r.steps[m].flight, r.steps[m].outcome, r.steps[m].at);
       c.Some? && c.value.decision.Allow?
  }

  /** The verifier flight `f` holds. */
  ghost function HeldBy(r: Run, n: nat, f: Ref): Ref
    requires n < |r.states| && f in r.states[n].flights
  {
    r.states[n].flights[f].verifier
  }

  lemma {:induction false} VerifierLater(r: Run, a: nat, n: nat, v: Ref)
    requires r.Valid() && a <= n < |r.states| && v in r.states[a].verifiers
    ensures v in r.states[n].verifiers && SameButUsed(r.states[a].verifiers[v], r.states[n].verifiers[v])
  {
    if a < n {
      VerifierLater(r, a, n - 1, v);
      assert r.StepAt(n - 1);
      VerifierStep(r.hash, r.cfg, r.states[n - 1], r.steps[n - 1], v);
    }
  }

  /** Being admitted uses the session up. */
  lemma AdmittedUses(hash: Hash, cfg: Config, s: State, step: Step, session: A.Session)
    requires cfg.Valid() && s.Sound() && Enabled(s, step) && Admitted(s, step, session)
    ensures var v, sid := s.flights[step.flight].verifier, s.flights[step.flight].evidence.sessionId;
            var before, after := s.verifiers[v].sessions, Next(hash, cfg, s, step).0.verifiers[v].sessions;
            && sid in before && !before[sid].used && session == before[sid].(used := true)
            && after == before[sid := session]
  {
  }

  ghost predicate AdmittedAt(r: Run, a: nat, session: A.Session)
    requires r.Valid()
  {
    a < |r.steps| && r.StepAt(a) && Admitted(r.states[a], r.steps[a], session)
  }

  /** A verifier's lock lets one attempt through, ever. */
  lemma OneAttemptPerVerifier(r: Run, a: nat, b: nat, x: A.Session, y: A.Session)
    requires r.Valid() && a < b && AdmittedAt(r, a, x) && AdmittedAt(r, b, y)
    ensures HeldBy(r, a, r.steps[a].flight) != HeldBy(r, b, r.steps[b].flight)
  {
    var v := HeldBy(r, a, r.steps[a].flight);
    AdmittedUses(r.hash, r.cfg, r.states[a], r.steps[a], x);
    AdmittedUses(r.hash, r.cfg, r.states[b], r.steps[b], y);
    var k := MadeBy(r, a, v);
    VerifierLater(r, a + 1, b, v);
    assert AllUsed(r.states[a + 1].verifiers[v].sessions);
    assert AllUsed(r.states[b].verifiers[v].sessions);
  }

  ghost predicate AllUsed(sessions: A.Sessions) {
    forall sid :: sid in sessions ==> sessions[sid].used
  }

  /** The attempt that led to a conclusion. */
  lemma AttemptOf(r: Run, m: nat) returns (a: nat, session: A.Session)
    requires r.Valid() && ConcludedAllow(r, m)
    ensures a < m && AdmittedAt(r, a, session) && r.steps[a].flight == r.steps[m].flight
    ensures HeldBy(r, a, r.steps[a].flight) == HeldBy(r, m, r.steps[m].flight)
    ensures Steady(r, a, m, r.steps[m].flight)
  {
    session := r.states[m].flights[r.steps[m].flight].stage.session;
    a := CheckingSince(r, m, r.steps[m].flight);
    assert r.StepAt(a);
  }

  /** So two conclusions never concern the same verifier. */
  lemma ConclusionsApart(r: Run, m: nat, n: nat)
    requires r.Valid() && m < n && ConcludedAllow(r, m) && ConcludedAllow(r, n)
    ensures HeldBy(r, m, r.steps[m].flight) != HeldBy(r, n, r.steps[n].flight)
  {
    var a, x := AttemptOf(r, m);
    var b, y := AttemptOf(r, n);
    if a == b {
      SteadyUntouched(r, b, n, r.steps[n].flight, m);
    }
    OneAttemptPerVerifier(r, if a < b then a else b, if a < b then b else a, if a < b then x else y, if a < b then y else x);
  }

  /** What ALLOW required of the evidence: the quote names the very challenge that made the
      verifier, passed every check, and was through before the challenge deadline. */
  lemma ConclusionMeans(r: Run, m: nat) returns (k: nat)
    requires r.Valid() && ConcludedAllow(r, m)
    ensures k < m && Made(r, k, HeldBy(r, m, r.steps[m].flight))
    ensures var o := r.steps[m].outcome;
            && o.Inspected? && o.signature && o.selection && o.reference != Some(false)
            && o.qualification == Qualification(r.hash, r.replies[k].challenge)
    ensures r.steps[m].at < r.steps[k].clk.t3 + r.cfg.challengeMs
  {
    var f := r.steps[m].flight;
    var session := r.states[m].flights[f].stage.session;
    var v := HeldBy(r, m, f);
    var a := CheckingSince(r, m, f);
    assert r.StepAt(a);
    AdmittedUses(r.hash, r.cfg, r.states[a], r.steps[a], session);
    k := MadeBy(r, a, v);
    A.AllowExactly(r.hash, r.states[m].verifiers[v].settings, session, r.steps[m].outcome, r.steps[m].at);
  }

  /** Entropy: no two challenges draw the same salt. */
  ghost predicate DistinctSalts(r: Run) {
    forall i, j :: 0 <= i < j < |r.steps| && r.steps[i].Challenge? && r.steps[j].Challenge? ==>
      r.steps[i].salt != r.steps[j].salt
  }

  /** The strings hashed for the challenge sent at k. */
  ghost function HashedAt(r: Run, k: nat): set<seq<byte>>
    requires r.Valid() && k < |r.steps| && r.steps[k].Challenge? && Made(r, k, r.steps[k].verifier)
  {
    HashedFor(r.hash, r.replies[k].challenge, r.Entry(k, r.replies[k].entry).binding, r.steps[k].salt)
  }

  /** SHA-256 has no collision among the strings this run hashes. */
  ghost predicate NoCollisions(r: Run)
    requires r.Valid()
  {
    forall k, l | 0 <= k < |r.steps| && 0 <= l < |r.steps| && r.steps[k].Challenge? && r.steps[l].Challenge?
      && Made(r, k, r.steps[k].verifier) && Made(r, l, r.steps[l].verifier) ::
      CollisionFree(r.hash, HashedAt(r, k) + HashedAt(r, l))
  }

  lemma MadeIsBound(r: Run, k: nat)
    requires r.Valid() && k < |r.steps| && r.steps[k].Challenge? && Made(r, k, r.steps[k].verifier)
    ensures IsBound(r.hash, r.replies[k].challenge, r.Entry(k, r.replies[k].entry).binding, r.steps[k].salt)
  {
  }

  lemma NoCollisionAt(r: Run, k: nat, l: nat)
    requires r.Valid() && NoCollisions(r) && k < |r.steps| && l < |r.steps| && r.steps[k].Challenge? && r.steps[l].Challenge?
    requires Made(r, k, r.steps[k].verifier) && Made(r, l, r.steps[l].verifier)
    ensures CollisionFree(
              r.hash,
              HashedFor(r.hash, r.replies[k].challenge, r.Entry(k, r.replies[k].entry).binding, r.steps[k].salt) +
              HashedFor(r.hash, r.replies[l].challenge, r.Entry(l, r.replies[l].entry).binding, r.steps[l].salt))
  {
    assert CollisionFree(r.hash, HashedAt(r, k) + HashedAt(r, l));
  }

  /** Two challenges never ask for the same quote. */
  lemma QuotesApart(r: Run, k: nat, l: nat)
    requires r.Valid() && DistinctSalts(r) && NoCollisions(r) && k < |r.steps| && l < |r.steps| && k != l
    requires r.steps[k].Challenge? && r.steps[l].Challenge?
    requires Made(r, k, r.steps[k].verifier) && Made(r, l, r.steps[l].verifier)
    ensures Qualification(r.hash, r.replies[k].challenge) != Qualification(r.hash, r.replies[l].challenge)
  {
    MadeIsBound(r, k);
    MadeIsBound(r, l);
    NoCollisionAt(r, k, l);
    QualificationNamesBinding(
      r.hash,
      r.replies[k].challenge, r.Entry(k, r.replies[k].entry).binding, r.steps[k].salt,
      r.replies[l].challenge, r.Entry(l, r.replies[l].entry).binding, r.steps[l].salt);
  }

  /** One quote qualification supports at most one ALLOW over a whole run. */
  lemma OneAllowPerQuote(r: Run, m: nat, n: nat)
    requires r.Valid() && DistinctSalts(r) && NoCollisions(r)
    requires m < n && ConcludedAllow(r, m) && ConcludedAllow(r, n)
    ensures r.steps[m].outcome.qualification != r.steps[n].outcome.qualification
  {
    ConclusionsApart(r, m, n);
    var k := ConclusionMeans(r, m);
    var l := ConclusionMeans(r, n);
    QuotesApart(r, k, l);
  }

  // ---- From the quote to the answer

  lemma GrantIsConcluded(r: Run, c: nat, e: Ref) returns (m: nat)
    requires r.Valid() && c < |r.steps| && Grants(r.states[c], r.steps[c], e)
    ensures m < c && ConcludedAllow(r, m) && r.steps[m].flight == r.steps[c].flight
    ensures HeldBy(r, m, r.steps[m].flight) == HeldBy(r, c, r.steps[c].flight)
    ensures Steady(r, m, c, r.steps[c].flight)
  {
    m := AllowingSince(r, c, r.steps[c].flight);
  }

  /** Two leases never rest on the same quote. */
  lemma GrantsApart(r: Run, c: nat, d: nat, e: Ref, e': Ref) returns (m: nat, n: nat)
    requires r.Valid() && DistinctSalts(r) && NoCollisions(r) && c < d < |r.steps|
    requires Grants(r.states[c], r.steps[c], e) && Grants(r.states[d], r.steps[d], e')
    ensures m < c && ConcludedAllow(r, m) && r.steps[m].flight == r.steps[c].flight
    ensures n < d && ConcludedAllow(r, n) && r.steps[n].flight == r.steps[d].flight
    ensures r.steps[m].outcome.qualification != r.steps[n].outcome.qualification
  {
    m := GrantIsConcluded(r, c, e);
    n := GrantIsConcluded(r, d, e');
    if n < c {
      SteadyUntouched(r, n, d, r.steps[d].flight, c);
    }
    OneAllowPerQuote(r, if m < n then m else n, if m < n then n else m);
  }

  lemma ChallengeMakes(r: Run, k: nat, n: nat)
    requires r.Valid() && k < n < |r.states| && r.steps[k].Challenge? && r.replies[k].ChallengeSent?
    ensures r.steps[k].verifier in r.states[n].verifiers
  {
    assert r.StepAt(k);
    VerifierLater(r, k + 1, n, r.steps[k].verifier);
  }

  /** A new verifier is a new object. */
  lemma MadeOnce(r: Run, k: nat, l: nat)
    requires r.Valid() && k < |r.steps| && l < |r.steps| && r.steps[k].Challenge? && r.steps[l].Challenge?
    requires r.replies[k].ChallengeSent? && r.replies[l].ChallengeSent? && r.steps[k].verifier == r.steps[l].verifier
    ensures k == l
  {
    assert r.StepAt(k) && r.StepAt(l);
    if k < l {
      ChallengeMakes(r, k, l);
    } else if l < k {
      ChallengeMakes(r, l, k);
    }
  }

  /** The whole chain behind an answer that says allow: its entry's latest challenge was met
      by a quote that names that challenge, checked before the challenge deadline. */
  lemma AllowIsVerified(r: Run, n: nat) returns (b: nat, k: nat, m: nat, c: nat)
    requires r.Valid() && n < |r.steps| && r.replies[n].Report? && r.replies[n].allow
    ensures Justified(r, n, b, k, c) && k < m < c && ConcludedAllow(r, m) && r.steps[m].flight == r.steps[c].flight
    ensures var o := r.steps[m].outcome;
            && o.Inspected? && o.signature && o.selection && o.reference != Some(false)
            && o.qualification == Qualification(r.hash, r.replies[k].challenge)
    ensures r.steps[m].at < r.steps[k].clk.t3 + r.cfg.challengeMs
  {
    b, k, c := AllowIsSafe(r, n);
    m := GrantIsConcluded(r, c, r.replies[n].entry);
    var l := ConclusionMeans(r, m);
    MadeOnce(r, k, l);
  }
}
