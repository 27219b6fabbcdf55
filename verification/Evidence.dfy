/** lab/contracts/evidence.c: the request/observation policy of one session. */
module Evidence {
  import opened Bytes
  import opened LabContract

  type Data = d: seq<byte> | |d| == 36 witness Zeros(36)

  const LINUX: byte := 1
  const WINDOWS: byte := 2
  const SELF_REPORTED: byte := 1

  /** `origin` 0 accepts any; `capabilities` is a bit mask of 1..3. */
  datatype Policy = Policy(origin: byte, capabilities: byte, evidenceClass: byte, timeoutMs: u32)

  datatype Request = Request(
    session: Id, requestId: u32, instance: Id,
    origin: byte, capability: byte, evidenceClass: byte, reserved: byte, seed: u32)

  datatype Observation = Observation(
    session: Id, requestId: u32, instance: Id, subject: Id,
    origin: byte, capability: byte, evidenceClass: byte, ok: byte,
    seed: u32, elapsedMs: u32, error: u32, data: Data)

  datatype State = State(
    open: bool, pending: bool, session: Id, instance: Id, lastRequest: u32, deadline: u64, request: Request)

  const NO_REQUEST: Request := Request(Zeros(16), 0, Zeros(16), 0, 0, 0, 0, 0)
  const CLOSED: State := State(false, false, Zeros(16), Zeros(16), 0, 0, NO_REQUEST)

  predicate HasCapability(mask: byte, capability: byte) {
    || (capability == 1 && mask % 2 == 1)
    || (capability == 2 && mask / 2 % 2 == 1)
    || (capability == 3 && mask / 4 % 2 == 1)
  }

  function Common(s: State, policy: Policy, session: Id, instance: Id, origin: byte, capability: byte, evidenceClass: byte): Reason {
    if !s.open then Closing
    else if s.session != session then BadSession
    else if s.instance != instance then OldInstance
    else if (origin != LINUX && origin != WINDOWS) || (policy.origin != 0 && policy.origin != origin) then OriginMismatch
    else if !HasCapability(policy.capabilities, capability) then Unsupported
    else if evidenceClass != SELF_REPORTED || evidenceClass != policy.evidenceClass then Insufficient
    else Ok
  }

  function PolicyRequest(s: State, policy: Policy, r: Request, now: u64): (out: (Reason, State))
    ensures !out.0.Ok? ==> out.1 == s
  {
    var reason := Common(s, policy, r.session, r.instance, r.origin, r.capability, r.evidenceClass);
    if !reason.Ok? then (reason, s)
    else if r.reserved != 0 || r.requestId == 0 then (BadPayload, s)
    else if r.requestId <= s.lastRequest then (Replay, s)
    else if s.pending && now < s.deadline then (Busy, s)
    else if U64_MAX - now < policy.timeoutMs then (BadPayload, s)
    else (Ok, s.(request := r, lastRequest := r.requestId, deadline := now + policy.timeoutMs, pending := true))
  }

  /** What each capability must report: a 4096-byte file and its digest; a process and its
      generation; nothing. */
  predicate DataFits(capability: byte, data: Data) {
    && (capability == 1 ==> FromLittle(data[..4]) == 4096 && NonZero(data[4..]))
    && (capability == 2 ==> NonZero(data[..8]) && NonZero(data[8..16]) && !NonZero(data[16..]))
    && (capability == 3 ==> !NonZero(data))
  }

  function PolicyObservation(s: State, policy: Policy, o: Observation, now: u64): (out: (Reason, State))
    ensures !out.0.Ok? ==> out.1 == s
  {
    var reason := Common(s, policy, o.session, o.instance, o.origin, o.capability, o.evidenceClass);
    if !reason.Ok? then (reason, s)
    else if !s.pending || o.requestId != s.request.requestId then (UnknownRequest, s)
    else if now >= s.deadline then (Expired, s)
    else if o.capability != s.request.capability || o.origin != s.request.origin || o.seed != s.request.seed
         || !NonZero(o.subject) || o.ok != 1 || o.error != 0 || o.elapsedMs > policy.timeoutMs then (BadPayload, s)
    else if !DataFits(o.capability, o.data) then (BadPayload, s)
    else (Ok, s.(pending := false))
  }

  /** Who may speak about what in this session. */
  predicate Entitled(s: State, policy: Policy, session: Id, instance: Id, origin: byte, capability: byte, evidenceClass: byte) {
    && s.open && session == s.session && instance == s.instance
    && origin in {LINUX, WINDOWS} && policy.origin in {0, origin}
    && HasCapability(policy.capabilities, capability)
    && evidenceClass == SELF_REPORTED == policy.evidenceClass
  }

  /** A request is granted if and only if it is entitled, newer than every earlier one, and
      no other is still pending in time; its own timeout must not overflow the clock. */
  lemma RequestGrantedExactly(s: State, policy: Policy, r: Request, now: u64)
    ensures PolicyRequest(s, policy, r, now).0.Ok? <==>
            && Entitled(s, policy, r.session, r.instance, r.origin, r.capability, r.evidenceClass)
            && r.reserved == 0 && r.requestId > s.lastRequest
            && (s.pending ==> s.deadline <= now) && now + policy.timeoutMs <= U64_MAX
  {
  }

  /** An observation is accepted if and only if it is entitled, answers the pending request
      in time, repeats its terms, and reports the data its capability calls for. */
  lemma ObservationAcceptedExactly(s: State, policy: Policy, o: Observation, now: u64)
    ensures PolicyObservation(s, policy, o, now).0.Ok? <==>
            && Entitled(s, policy, o.session, o.instance, o.origin, o.capability, o.evidenceClass)
            && s.pending && now < s.deadline
            && (o.requestId, o.capability, o.origin, o.seed) ==
               (s.request.requestId, s.request.capability, s.request.origin, s.request.seed)
            && NonZero(o.subject) && o.ok == 1 && o.error == 0 && o.elapsedMs <= policy.timeoutMs
            && DataFits(o.capability, o.data)
  {
  }

  /** The reason a request is refused with: the first of these conditions that fails. */
  lemma RequestReasonExactly(s: State, policy: Policy, r: Request, now: u64)
    ensures var reason := PolicyRequest(s, policy, r, now).0;
            var ours := s.open && r.session == s.session;
            var current := ours && r.instance == s.instance;
            var allowed := current && r.origin in {1, 2} && (policy.origin == 0 || policy.origin == r.origin);
            var able := allowed && 1 <= r.capability <= 3 && policy.capabilities / [1, 2, 4][r.capability - 1] % 2 == 1;
            var vouched := able && r.evidenceClass == 1 && policy.evidenceClass == 1;
            var formed := vouched && r.reserved == 0 && r.requestId != 0;
            var newer := formed && r.requestId > s.lastRequest;
            var free := newer && (s.pending ==> s.deadline <= now);
            var fits := free && now + policy.timeoutMs <= 0xFFFF_FFFF_FFFF_FFFF;
            && (reason.Closing? <==> !s.open) && (reason.BadSession? <==> s.open && !ours)
            && (reason.OldInstance? <==> ours && !current) && (reason.OriginMismatch? <==> current && !allowed)
            && (reason.Unsupported? <==> allowed && !able) && (reason.Insufficient? <==> able && !vouched)
            && (reason.BadPayload? <==> (vouched && !formed) || (free && !fits))
            && (reason.Replay? <==> formed && !newer) && (reason.Busy? <==> newer && !free) && (reason.Ok? <==> fits)
  {
  }

  /** And an observation. */
  lemma ObservationReasonExactly(s: State, policy: Policy, o: Observation, now: u64)
    ensures var reason := PolicyObservation(s, policy, o, now).0;
            var ours := s.open && o.session == s.session;
            var current := ours && o.instance == s.instance;
            var allowed := current && o.origin in {1, 2} && (policy.origin == 0 || policy.origin == o.origin);
            var able := allowed && 1 <= o.capability <= 3 && policy.capabilities / [1, 2, 4][o.capability - 1] % 2 == 1;
            var vouched := able && o.evidenceClass == 1 && policy.evidenceClass == 1;
            var asked := vouched && s.pending && o.requestId == s.request.requestId;
            var timely := asked && now < s.deadline;
            && (reason.Closing? <==> !s.open) && (reason.BadSession? <==> s.open && !ours)
            && (reason.OldInstance? <==> ours && !current) && (reason.OriginMismatch? <==> current && !allowed)
            && (reason.Unsupported? <==> allowed && !able) && (reason.Insufficient? <==> able && !vouched)
            && (reason.UnknownRequest? <==> vouched && !asked) && (reason.Expired? <==> asked && !timely)
            && (reason.BadPayload? || reason.Ok? <==> timely)
  {
  }

  /** The 36 bytes of data that each capability calls for. */
  lemma DataFitsExactly(data: Data, digest: seq<byte>, process: seq<byte>, generation: seq<byte>)
    requires |digest| == 32 && |process| == 8 && |generation| == 8
    ensures DataFits(1, data) <==> FromLittle(data[..4]) == 4096 && exists i :: 4 <= i < 36 && data[i] != 0
    ensures DataFits(1, [0, 16, 0, 0] + digest) <==> NonZero(digest)
    ensures DataFits(2, process + generation + Zeros(20)) <==> NonZero(process) && NonZero(generation)
    ensures DataFits(2, data) ==> forall i :: 16 <= i < 36 ==> data[i] == 0
    ensures DataFits(3, data) <==> data == Zeros(36)
  {
    var size: seq<byte> := [0, 16, 0, 0];
    assert FromLittle(size) == 4096 by {
      assert FromLittle(size) == 0 + 256 * FromLittle(size[1..]);
      assert FromLittle(size[1..]) == 16 + 256 * FromLittle(size[1..][1..]);
      assert FromLittle(size[1..][1..]) == 0 + 256 * FromLittle(size[1..][1..][1..]);
    }
    var file, run := size + digest, process + generation + Zeros(20);
    assert file[..4] == size && file[4..] == digest;
    assert run[..8] == process && run[8..16] == generation && run[16..] == Zeros(20);
    Tail(data, 4);
    Tail(data, 16);
    assert DataFits(3, data) ==> data == Zeros(36);
  }

  lemma Tail(data: Data, k: nat)
    requires k <= 36
    ensures NonZero(data[k..]) <==> exists i :: k <= i < 36 && data[i] != 0
  {
    if i :| k <= i < 36 && data[i] != 0 {
      assert data[k..][i - k] != 0;
    }
  }

  /** The struct behind the pointer both policy functions update. */
  class Cell {
    var state: State

    constructor (state: State)
      ensures this.state == state
    {
      this.state := state;
    }

    method Ask(policy: Policy, r: Request, now: u64) returns (reason: Reason)
      modifies this
      ensures (reason, state) == PolicyRequest(old(state), policy, r, now)
    {
      reason := Common(state, policy, r.session, r.instance, r.origin, r.capability, r.evidenceClass);
      if !reason.Ok? { return; }
      if r.reserved != 0 || r.requestId == 0 { return BadPayload; }
      if r.requestId <= state.lastRequest { return Replay; }
      if state.pending && now < state.deadline { return Busy; }
      if U64_MAX - now < policy.timeoutMs { return BadPayload; }
      state := state.(request := r);
      state := state.(lastRequest := r.requestId);
      state := state.(deadline := now + policy.timeoutMs);
      state := state.(pending := true);
    }

    method Observe(policy: Policy, o: Observation, now: u64) returns (reason: Reason)
      modifies this
      ensures (reason, state) == PolicyObservation(old(state), policy, o, now)
    {
      reason := Common(state, policy, o.session, o.instance, o.origin, o.capability, o.evidenceClass);
      if !reason.Ok? { return; }
      if !state.pending || o.requestId != state.request.requestId { return UnknownRequest; }
      if now >= state.deadline { return Expired; }
      if o.capability != state.request.capability || o.origin != state.request.origin || o.seed != state.request.seed
         || !NonZero(o.subject) || o.ok != 1 || o.error != 0 || o.elapsedMs > policy.timeoutMs { return BadPayload; }
      if o.capability == 1 && (FromLittle(o.data[..4]) != 4096 || !NonZero(o.data[4..])) { return BadPayload; }
      if o.capability == 2 && (!NonZero(o.data[..8]) || !NonZero(o.data[8..16]) || NonZero(o.data[16..])) { return BadPayload; }
      if o.capability == 3 && NonZero(o.data) { return BadPayload; }
      state := state.(pending := false);
    }
  }
}
