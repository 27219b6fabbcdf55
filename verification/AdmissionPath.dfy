/** The other direction: the protocol can succeed. From any configuration, a controller that
    registers a peer and an attestor that answers with a matching quote get an answer that
    says allow, for as long as the lease and the binding last. */
module AdmissionPath {
  import opened Options
  import opened Hashing
  import opened Canonical
  import A = Attestation
  import opened S = SessionAdmission
  import opened R = AdmissionRuns
  import opened T = AdmissionTheorems

  datatype Case = Case(
    hash: Hash, cfg: Config, controller: string, attestor: string, session: string, peer: int,
    ids: (string, string), salt: string, entropy: A.Fresh)
  {
    ghost predicate Valid() {
      && cfg.Valid() && controller in cfg.controllers && attestor in cfg.attestors
      && IsHex(session, 32) && 2 <= peer <= 2147483647
      && IsHex(ids.0, 32) && IsHex(ids.1, 64) && IsHex(salt, 64) && entropy.Valid()
    }

    function Seat(): Binding
      requires peer >= 0
    {
      Binding(ids.0, attestor, ids.1, controller, session, cfg.instanceId, peer)
    }

    function Sent(): Canonical.Challenge
      requires Valid()
    {
      BoundTo(hash, cfg.Settings(attestor), Seat(), salt, entropy)
    }

    function Session(used: bool): A.Session
      requires Valid()
    {
      A.Session(attestor, Sent(), cfg.challengeMs, used)
    }

    function Checker(used: bool): Verifier
      requires Valid()
    {
      Verifier(cfg.Settings(attestor), Seat(), salt, map[entropy.draws[0] := Session(used)])
    }

    function Answer(): A.Evidence
      requires |entropy.draws| == 4
    {
      A.Evidence(true, entropy.draws[0])
    }

    function Outcome(): A.Outcome
      requires Valid()
    {
      A.Inspected(Qualification(hash, Sent()), true, true, None)
    }

    function Flying(stage: Stage): Flight
      requires Valid()
    {
      Flight(ids.0, 0, 0, attestor, Answer(), stage, 0)
    }

    function Granted(): Option<A.Result>
      requires Valid()
    {
      A.Conclude(hash, cfg.Settings(attestor), Session(true), Outcome(), 0)
    }

    function Made(phase: Phase): Record<Ref>
      requires Valid()
    {
      Record(Seat(), cfg.bindingMs, phase, 0, cfg.challengeMs, Some(0))
    }

    function Tabled(r: Record<Ref>): Table<Ref, Ref> {
      Table(map[ids.0 := 0], map[0 := r])
    }
  }

  const ZERO: Clock := Clock(0, 0, 0, 0)

  lemma Registers(x: Case)
    requires x.Valid()
    ensures var step := Step.Register(x.controller, x.session, x.peer, x.attestor, ZERO, x.ids, 0);
            && Enabled(NOTHING, step)
            && Next(x.hash, x.cfg, NOTHING, step).0 ==
               NOTHING.(table := x.Tabled(NewRecord(x.cfg, x.Seat(), 0)))
  {
    var t: Table<Ref, Ref> := Table(map[], map[]);
    assert Purge(t, 0) == t;
    assert Put(Added(t, 0, NewRecord(x.cfg, x.Seat(), 0)), 0, NewRecord(x.cfg, x.Seat(), 0)) ==
           x.Tabled(NewRecord(x.cfg, x.Seat(), 0));
  }

  lemma Challenges(x: Case)
    requires x.Valid()
    ensures var s := NOTHING.(table := x.Tabled(NewRecord(x.cfg, x.Seat(), 0)));
            var step := Step.Challenge(x.attestor, x.ids.0, ZERO, x.salt, x.entropy, 0);
            && s.Sound() && Enabled(s, step)
            && Next(x.hash, x.cfg, s, step).0 ==
               State(x.Tabled(x.Made(Challenged)), map[0 := x.Checker(false)], map[], 0)
  {
    var t := x.Tabled(NewRecord(x.cfg, x.Seat(), 0));
    assert Put(t, 0, x.Made(Challenged)) == x.Tabled(x.Made(Challenged));
    assert MayChallenge(x.cfg, t, x.attestor, x.ids.0, ZERO) == Offered(0);
  }

  lemma Reserves(x: Case)
    requires x.Valid()
    ensures var s := State(x.Tabled(x.Made(Challenged)), map[0 := x.Checker(false)], map[], 0);
            var step := Step.Reserve(x.attestor, x.ids.0, Some(x.Answer()), ZERO, 0);
            && s.Sound() && Enabled(s, step)
            && Next(x.hash, x.cfg, s, step).0 ==
               State(x.Tabled(x.Made(Verifying)), map[0 := x.Checker(false)], map[0 := x.Flying(Waiting)], 0)
  {
    var t := x.Tabled(x.Made(Challenged));
    assert Put(t, 0, x.Made(Verifying)) == x.Tabled(x.Made(Verifying));
    assert MayReserve(x.cfg, t, x.attestor, x.ids.0, Some(x.Answer()), 0) == Reserved(0);
  }

  lemma Tries(x: Case)
    requires x.Valid()
    ensures var s := State(x.Tabled(x.Made(Verifying)), map[0 := x.Checker(false)], map[0 := x.Flying(Waiting)], 0);
            && s.Sound() && Enabled(s, Try(0, 0))
            && Next(x.hash, x.cfg, s, Try(0, 0)).0 ==
               State(x.Tabled(x.Made(Verifying)), map[0 := x.Checker(true)], map[0 := x.Flying(Checking(x.Session(true)))], 0)
  {
    var sessions := x.Checker(false).sessions;
    assert sessions[x.entropy.draws[0] := x.Session(true)] == x.Checker(true).sessions;
  }

  lemma Concludes(x: Case)
    requires x.Valid()
    ensures var s := State(x.Tabled(x.Made(Verifying)), map[0 := x.Checker(true)], map[0 := x.Flying(Checking(x.Session(true)))], 0);
            && s.Sound() && Enabled(s, Conclude(0, x.Outcome(), 0))
            && Next(x.hash, x.cfg, s, Conclude(0, x.Outcome(), 0)).0 ==
               State(x.Tabled(x.Made(Verifying)), map[0 := x.Checker(true)], map[0 := x.Flying(Over(x.Granted()))], 0)
  {
  }

  lemma Finishes(x: Case)
    requires x.Valid()
    ensures var s := State(x.Tabled(x.Made(Verifying)), map[0 := x.Checker(true)], map[0 := x.Flying(Over(x.Granted()))], 0);
            && s.Sound() && Enabled(s, Finish(0, ZERO))
            && var reply := Next(x.hash, x.cfg, s, Finish(0, ZERO)).1;
               reply == Report(0, x.Seat(), Allowed, true, Min(x.cfg.bindingMs, x.cfg.leaseMs), x.Granted())
  {
    A.AllowExactly(x.hash, x.cfg.Settings(x.attestor), x.Session(true), x.Outcome(), 0);
  }

  lemma ReachesVerifying(x: Case) returns (r: Run)
    requires x.Valid()
    ensures r.Valid() && r.hash == x.hash && r.cfg == x.cfg && |r.steps| == 3
    ensures r.states[3] == State(x.Tabled(x.Made(Verifying)), map[0 := x.Checker(false)], map[0 := x.Flying(Waiting)], 0)
  {
    r := Run(x.hash, x.cfg, [NOTHING], [], []);
    Registers(x);
    r := Grown(r, Step.Register(x.controller, x.session, x.peer, x.attestor, ZERO, x.ids, 0));
    Challenges(x);
    r := Grown(r, Step.Challenge(x.attestor, x.ids.0, ZERO, x.salt, x.entropy, 0));
    Reserves(x);
    r := Grown(r, Step.Reserve(x.attestor, x.ids.0, Some(x.Answer()), ZERO, 0));
  }

  /** There is a run of six steps that ends in allow, with all the time there is to give. */
  lemma AllowIsReachable(x: Case) returns (r: Run)
    requires x.Valid()
    ensures r.Valid() && r.hash == x.hash && r.cfg == x.cfg && |r.steps| == 6
    ensures r.replies[5] == Report(0, x.Seat(), Allowed, true, Min(x.cfg.bindingMs, x.cfg.leaseMs), x.Granted())
  {
    r := ReachesVerifying(x);
    Tries(x);
    r := Grown(r, Try(0, 0));
    Concludes(x);
    r := Grown(r, Conclude(0, x.Outcome(), 0));
    Finishes(x);
    r := Grown(r, Finish(0, ZERO));
  }

  /** A run goes on with any enabled step. */
  lemma Grown(r: Run, step: Step) returns (r': Run)
    requires r.Valid() && r.states[|r.steps|].Sound() && Enabled(r.states[|r.steps|], step)
    ensures r'.Valid() && r'.hash == r.hash && r'.cfg == r.cfg && |r'.steps| == |r.steps| + 1
    ensures r'.states[|r'.steps|] == Next(r.hash, r.cfg, r.states[|r.steps|], step).0
    ensures r'.replies[|r.steps|] == Next(r.hash, r.cfg, r.states[|r.steps|], step).1
  {
    var (s, reply) := Next(r.hash, r.cfg, r.states[|r.steps|], step);
    r' := Run(r.hash, r.cfg, r.states + [s], r.steps + [step], r.replies + [reply]);
    forall i | 0 <= i < |r'.steps| ensures r'.StepAt(i) {
      if i < |r.steps| {
        assert r.StepAt(i);
      }
    }
  }
}
