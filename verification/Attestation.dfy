/** scripts/tpm_attestation.py: one-use challenges and the decision on a quote. Clock
    readings are whole milliseconds. */
module Attestation {
  import opened Options
  import opened Bytes
  import opened Hashing
  import opened Canonical

  const PINNED_POLICY: string := "pinned-ak-quote-v1"

  /** After its deadline a session is remembered this long, so that reuse is told apart. */
  const REMEMBERED_MS: nat := 60000

  datatype Settings = Settings(policyId: string, akSha256: string, ttlMs: nat, maximum: nat) {
    ghost predicate Valid() {
      1 <= ttlMs <= 60000 && IsAscii(policyId) && IsHex(akSha256, 64)
    }
  }

  datatype Session = Session(owner: string, challenge: Challenge, deadline: int, used: bool)
  type Sessions = map<string, Session>

  // ---- Issuing

  datatype Issued = Refused(error: string) | Issued(challenge: Challenge)

  function Prune(s: Sessions, now: int): Sessions {
    map sid | sid in s && now < s[sid].deadline + REMEMBERED_MS :: s[sid]
  }

  /** The first draw not in use, out of four. */
  function Pick(s: Sessions, draws: seq<string>): (r: Option<string>)
    ensures r.None? <==> forall i :: 0 <= i < |draws| ==> draws[i] in s
    ensures r.Some? ==> r.value in draws && r.value !in s
  {
    if draws == [] then None
    else if draws[0] !in s then Some(draws[0])
    else Pick(s, draws[1..])
  }

  /** What entropy and the wall clock give one call. */
  datatype Fresh = Fresh(created: u64, draws: seq<string>, nonce: string) {
    ghost predicate Valid() {
      && created <= U64_MAX - 60000 && |draws| == 4 && IsHex(nonce, 64)
      && forall i :: 0 <= i < 4 ==> IsHex(draws[i], 32)
    }
  }

  function NewChallenge(cfg: Settings, sid: string, f: Fresh): Challenge
    requires cfg.Valid() && f.Valid()
  {
    Challenge(sid, f.nonce, f.created, f.created + cfg.ttlMs, cfg.policyId, cfg.akSha256)
  }

  function Issue(cfg: Settings, s: Sessions, owner: string, now: int, f: Fresh): (r: (Sessions, Issued))
    requires cfg.Valid() && f.Valid()
  {
    var kept := Prune(s, now);
    if |kept| >= cfg.maximum then (kept, Refused("SESSION_LIMIT"))
    else
      match Pick(kept, f.draws)
      case None => (kept, Refused("ENTROPY_COLLISION"))
      case Some(sid) =>
        (kept[sid := Session(owner, NewChallenge(cfg, sid, f), now + cfg.ttlMs, false)],
         Issued(NewChallenge(cfg, sid, f)))
  }

  // ---- Submitting, up to the verifier

  datatype Validity = Verified | Failed | NotVerified
  datatype PolicyValidity = Passed | PolicyFailed | NotEvaluated
  datatype ReferenceValidity = NotConfigured | ReferenceNotEvaluated | Matched | Mismatch
  datatype Decision = Allow | Deny | Indeterminate

  datatype Result = Result(
    decision: Decision, crypto: Validity, freshness: Validity, policy: PolicyValidity,
    reference: ReferenceValidity, reason: string)

  function Base(cfg: Settings, decision: Decision, reason: string): Result {
    Result(decision, NotVerified, Failed, NotEvaluated,
           if cfg.policyId != PINNED_POLICY then ReferenceNotEvaluated else NotConfigured, reason)
  }

  /** The keys and protocol are checked first; the quote itself is opaque here. */
  datatype Evidence = Evidence(schemaOk: bool, sessionId: string)

  datatype Admission = Raised(error: string) | Answered(result: Result) | ToVerify(session: Session)

  function Admit(cfg: Settings, s: Sessions, owner: string, e: Evidence, now: int): (r: (Sessions, Admission)) {
    if !e.schemaOk then (s, Raised("INVALID_SCHEMA"))
    else if |e.sessionId| != 32 then (s, Raised("INVALID_SESSION"))
    else if e.sessionId !in s || s[e.sessionId].owner != owner then (s, Answered(Base(cfg, Deny, "UNKNOWN_SESSION")))
    else if s[e.sessionId].used then (s, Answered(Base(cfg, Deny, "CHALLENGE_REUSED")))
    else if now >= s[e.sessionId].deadline then (s, Answered(Base(cfg, Deny, "CHALLENGE_EXPIRED")))
    else
      var session := s[e.sessionId].(used := true);
      (s[e.sessionId := session], ToVerify(session))
  }

  /** Who gets the verifier to run, and what everyone else is told: only the owner of a
      live, unused session uses it up, and a refusal leaves every session as it is. */
  lemma AdmittedExactly(cfg: Settings, s: Sessions, owner: string, e: Evidence, now: int)
    ensures var (s', r) := Admit(cfg, s, owner, e, now);
            var sid := e.sessionId;
            var known := e.schemaOk && |sid| == 32 && sid in s && s[sid].owner == owner;
            && (r.ToVerify? <==> known && !s[sid].used && now < s[sid].deadline)
            && (r.ToVerify? ==> r.session == s[sid].(used := true) && s' == s[sid := s[sid].(used := true)])
            && (!r.ToVerify? ==> s' == s)
            && (r == Raised("INVALID_SCHEMA") <==> !e.schemaOk)
            && (r == Raised("INVALID_SESSION") <==> e.schemaOk && |sid| != 32)
            && (r.Raised? ==> r.error in {"INVALID_SCHEMA", "INVALID_SESSION"})
            && (r.Answered? ==> r.result.decision == Deny && r.result.freshness == Failed && r.result.crypto == NotVerified)
            && (r.Answered? && r.result.reason == "UNKNOWN_SESSION" <==> e.schemaOk && |sid| == 32 && !known)
            && (r.Answered? && r.result.reason == "CHALLENGE_REUSED" <==> known && s[sid].used)
            && (r.Answered? && r.result.reason == "CHALLENGE_EXPIRED" <==> known && !s[sid].used && now >= s[sid].deadline)
  {
    RefusalsDiffer();
  }

  lemma RefusalsDiffer()
    ensures "UNKNOWN_SESSION" != "CHALLENGE_REUSED" && "UNKNOWN_SESSION" != "CHALLENGE_EXPIRED"
    ensures "CHALLENGE_REUSED" != "CHALLENGE_EXPIRED" && "INVALID_SCHEMA" != "INVALID_SESSION"
  {
    assert "CHALLENGE_REUSED"[10] != "CHALLENGE_EXPIRED"[10];
    assert "INVALID_SCHEMA"[9] != "INVALID_SESSION"[9];
  }

  /** Sessions still remembered at `now`: a minute beyond their deadline. */
  ghost predicate Remembered(s: Sessions, now: int, sid: string) {
    sid in s && now < s[sid].deadline + 60000
  }

  /** What issuing leaves: the remembered sessions, and on success one more, unused, under an
      id none of them has, for this owner until now + ttl. */
  lemma IssuedExactly(cfg: Settings, s: Sessions, owner: string, now: int, f: Fresh)
    requires cfg.Valid() && f.Valid()
    ensures var (s', r) := Issue(cfg, s, owner, now, f);
            var kept := map sid | sid in s && Remembered(s, now, sid) :: s[sid];
            && (r == Refused("SESSION_LIMIT") <==> |kept| >= cfg.maximum)
            && (r == Refused("ENTROPY_COLLISION") <==>
                  |kept| < cfg.maximum && forall i :: 0 <= i < 4 ==> f.draws[i] in kept)
            && (r.Refused? ==> s' == kept && r.error in {"SESSION_LIMIT", "ENTROPY_COLLISION"})
            && (r.Issued? ==>
                  && var c := r.challenge;
                  && c.sessionId in f.draws && c.sessionId !in kept && c.nonce == f.nonce
                  && c.createdAt == f.created && c.expiresAt == f.created + cfg.ttlMs
                  && c.policyId == cfg.policyId && c.akSha256 == cfg.akSha256
                  && s' == kept[c.sessionId := Session(owner, c, now + cfg.ttlMs, false)])
  {
    var kept := map sid | sid in s && Remembered(s, now, sid) :: s[sid];
    assert Prune(s, now) == kept;
    assert "SESSION_LIMIT"[0] != "ENTROPY_COLLISION"[0];
  }

  // ---- The verifier's answer

  /** What the external tools report: the verifier raised (some other exception, a
      ValueError, a tool or system error), the quote was not understood, or its parts. */
  datatype Outcome =
    | Crashed | BadPayload | ToolFailure | MalformedQuote
    | Inspected(qualification: string, signature: bool, selection: bool, reference: Option<bool>)

  function Reason(signature: bool, current: bool, selection: bool, reference: Option<bool>): string {
    if !signature then "SIGNATURE_OR_PCR_DIGEST_INVALID"
    else if !current then "NONCE_MISMATCH"
    else if !selection then "PCR_SELECTION_MISMATCH"
    else if reference == Some(false) then "PCR_REFERENCE_MISMATCH"
    else "SCOPED_POLICY_PASS"
  }

  function ReferenceOf(evaluated: bool, reference: Option<bool>): ReferenceValidity {
    match reference
    case None => NotConfigured
    case Some(matches) => if !evaluated then ReferenceNotEvaluated else if matches then Matched else Mismatch
  }

  /** QuoteVerifier.verify, once the tools have run. */
  function Verdict(signature: bool, current: bool, selection: bool, reference: Option<bool>): Result {
    Result(
      Deny,
      if signature then Verified else Failed,
      if signature && current then Verified else if signature then Failed else NotVerified,
      if signature && current && selection && reference != Some(false) then Passed
      else if signature && current then PolicyFailed else NotEvaluated,
      ReferenceOf(signature && current && selection, reference),
      Reason(signature, current, selection, reference))
  }

  function Decided(r: Result): Result {
    r.(decision := if r.reason == "SCOPED_POLICY_PASS" then Allow else Deny)
  }

  /** The rest of submit; None when the exception goes on to the caller. */
  function Conclude(hash: Hash, cfg: Settings, session: Session, outcome: Outcome, now: int): (r: Option<Result>) {
    match outcome
    case Crashed => None
    case BadPayload => Some(Base(cfg, Deny, "INVALID_PAYLOAD"))
    case ToolFailure => Some(Base(cfg, Indeterminate, "VERIFIER_ERROR"))
    case MalformedQuote =>
      Some(Late(session, now, Base(cfg, Deny, "MALFORMED_QUOTE").(crypto := Failed, freshness := NotVerified)))
    case Inspected(q, signature, selection, reference) =>
      Some(Late(session, now, Verdict(signature, q == Qualification(hash, session.challenge), selection, reference)))
  }

  /** The second look at the clock, after the tools. */
  function Late(session: Session, now: int, r: Result): Result {
    Decided(if now >= session.deadline
            then r.(freshness := Failed, policy := NotEvaluated, reason := "CHALLENGE_EXPIRED") else r)
  }

  /** ALLOW if and only if everything was checked and passed, in time. */
  lemma AllowExactly(hash: Hash, cfg: Settings, session: Session, outcome: Outcome, now: int)
    ensures var r := Conclude(hash, cfg, session, outcome, now);
            (r.Some? && r.value.decision == Allow) <==>
            && outcome.Inspected? && outcome.signature && outcome.selection && outcome.reference != Some(false)
            && outcome.qualification == Qualification(hash, session.challenge)
            && now < session.deadline
  {
  }

  /** The three validities and the decision never contradict each other. */
  lemma ValiditiesAgree(hash: Hash, cfg: Settings, session: Session, outcome: Outcome, now: int)
    ensures var r := Conclude(hash, cfg, session, outcome, now);
            r.Some? ==>
              && (r.value.decision == Allow <==> r.value.policy == Passed)
              && (r.value.policy != NotEvaluated ==> r.value.crypto == Verified && r.value.freshness == Verified)
              && (r.value.freshness == Verified ==> r.value.crypto == Verified && now < session.deadline)
              && (r.value.decision == Allow ==> r.value.reference in {NotConfigured, Matched})
  {
  }

  /** The reason given, for every way a verification can end. */
  lemma ConcludedExactly(hash: Hash, cfg: Settings, session: Session, outcome: Outcome, now: int)
    ensures var r := Conclude(hash, cfg, session, outcome, now);
            var late := now >= session.deadline;
            && (r.None? <==> outcome.Crashed?)
            && (outcome.BadPayload? ==> r.value.reason == "INVALID_PAYLOAD" && r.value.decision == Deny)
            && (outcome.ToolFailure? ==> r.value.reason == "VERIFIER_ERROR" && r.value.decision == Indeterminate)
            && (outcome.MalformedQuote? ==>
                  r.value.reason == (if late then "CHALLENGE_EXPIRED" else "MALFORMED_QUOTE") && r.value.decision == Deny)
            && (outcome.Inspected? ==>
                  var named := outcome.qualification == Qualification(hash, session.challenge);
                  var mismatch := outcome.reference == Some(false);
                  && (late ==> r.value.reason == "CHALLENGE_EXPIRED")
                  && (!late && !outcome.signature ==> r.value.reason == "SIGNATURE_OR_PCR_DIGEST_INVALID")
                  && (!late && outcome.signature && !named ==> r.value.reason == "NONCE_MISMATCH")
                  && (!late && outcome.signature && named && !outcome.selection ==> r.value.reason == "PCR_SELECTION_MISMATCH")
                  && (!late && outcome.signature && named && outcome.selection && mismatch ==>
                        r.value.reason == "PCR_REFERENCE_MISMATCH")
                  && (r.value.crypto == if outcome.signature then Verified else Failed)
                  && (r.value.freshness == Verified <==> !late && outcome.signature && named))
  {
  }

  // ---- Runs of one server

  datatype Op =
    | DoIssue(owner: string, now: int, entropy: Fresh)
    | DoAdmit(owner: string, evidence: Evidence, now: int)

  ghost predicate Steps(cfg: Settings, s: Sessions, op: Op, s': Sessions)
    requires cfg.Valid()
  {
    match op
    case DoIssue(owner, now, f) => f.Valid() && s' == Issue(cfg, s, owner, now, f).0
    case DoAdmit(owner, e, now) => s' == Admit(cfg, s, owner, e, now).0
  }

  ghost predicate IsRun(cfg: Settings, states: seq<Sessions>, ops: seq<Op>)
    requires cfg.Valid()
  {
    && |states| == |ops| + 1 && states[0] == map[]
    && forall i :: 0 <= i < |ops| ==> Steps(cfg, states[i], ops[i], states[i + 1])
  }

  /** The verifier is about to run for `sid`. */
  ghost predicate Admits(cfg: Settings, s: Sessions, op: Op, sid: string) {
    op.DoAdmit? && op.evidence.sessionId == sid && Admit(cfg, s, op.owner, op.evidence, op.now).1.ToVerify?
  }

  ghost predicate Issues(cfg: Settings, s: Sessions, op: Op, sid: string)
    requires cfg.Valid()
  {
    op.DoIssue? && op.entropy.Valid() && Issue(cfg, s, op.owner, op.now, op.entropy).1.Issued?
    && Issue(cfg, s, op.owner, op.now, op.entropy).1.challenge.sessionId == sid
  }

  ghost predicate Spent(s: Sessions, sid: string) {
    sid in s ==> s[sid].used
  }

  lemma SpentStays(cfg: Settings, s: Sessions, op: Op, s': Sessions, sid: string)
    requires cfg.Valid() && Steps(cfg, s, op, s') && !Issues(cfg, s, op, sid)
    requires Spent(s, sid) || Admits(cfg, s, op, sid)
    ensures Spent(s', sid)
  {
  }

  /** Between two runs of the verifier for the same session id, that id was issued anew:
      each challenge gets one attempt, whatever is pruned or resubmitted. */
  lemma {:induction false} OneAttempt(cfg: Settings, states: seq<Sessions>, ops: seq<Op>, sid: string, i: nat, j: nat)
    returns (k: nat)
    requires cfg.Valid() && IsRun(cfg, states, ops) && i < j < |ops|
    requires Admits(cfg, states[i], ops[i], sid) && Admits(cfg, states[j], ops[j], sid)
    ensures i < k < j && Issues(cfg, states[k], ops[k], sid)
  {
    k := i + 1;
    SpentStays(cfg, states[i], ops[i], states[i + 1], sid);
    while k < j && !Issues(cfg, states[k], ops[k], sid)
      invariant i < k <= j && Spent(states[k], sid)
    {
      SpentStays(cfg, states[k], ops[k], states[k + 1], sid);
      k := k + 1;
    }
  }

  /** Every session was put there by the latest issue of its id, for the one who asked. */
  lemma {:induction false} SessionFrom(cfg: Settings, states: seq<Sessions>, ops: seq<Op>, sid: string, n: nat)
    returns (k: nat)
    requires cfg.Valid() && IsRun(cfg, states, ops) && n < |states| && sid in states[n]
    ensures k < n && Issues(cfg, states[k], ops[k], sid) && states[n][sid].owner == ops[k].owner
    ensures states[n][sid].deadline == ops[k].now + cfg.ttlMs
    ensures forall j :: k < j < n ==> !Issues(cfg, states[j], ops[j], sid)
  {
    var s, op := states[n - 1], ops[n - 1];
    assert Steps(cfg, s, op, states[n]);
    if Issues(cfg, s, op, sid) {
      IssuedExactly(cfg, s, op.owner, op.now, op.entropy);
      k := n - 1;
    } else {
      SessionKept(cfg, s, op, states[n], sid);
      k := SessionFrom(cfg, states, ops, sid, n - 1);
    }
  }

  lemma SessionKept(cfg: Settings, s: Sessions, op: Op, s': Sessions, sid: string)
    requires cfg.Valid() && Steps(cfg, s, op, s') && sid in s' && !Issues(cfg, s, op, sid)
    ensures sid in s && s'[sid].owner == s[sid].owner && s'[sid].deadline == s[sid].deadline
  {
    match op
    case DoIssue(owner, now, f) => IssuedExactly(cfg, s, owner, now, f);
    case DoAdmit(owner, e, now) => AdmittedExactly(cfg, s, owner, e, now);
  }

  /** Whoever gets the verifier to run for an id is the owner of that id's latest issue, and
      is the first to do so since, within its time. */
  lemma OnlyTheOwner(cfg: Settings, states: seq<Sessions>, ops: seq<Op>, sid: string, n: nat) returns (k: nat)
    requires cfg.Valid() && IsRun(cfg, states, ops) && n < |ops| && Admits(cfg, states[n], ops[n], sid)
    ensures k < n && Issues(cfg, states[k], ops[k], sid) && ops[n].owner == ops[k].owner
    ensures ops[n].now < ops[k].now + cfg.ttlMs
    ensures forall j :: k < j < n ==> !Issues(cfg, states[j], ops[j], sid) && !Admits(cfg, states[j], ops[j], sid)
  {
    AdmittedExactly(cfg, states[n], ops[n].owner, ops[n].evidence, ops[n].now);
    k := SessionFrom(cfg, states, ops, sid, n);
    forall j | k < j < n ensures !Admits(cfg, states[j], ops[j], sid) {
      if Admits(cfg, states[j], ops[j], sid) {
        var i := OneAttempt(cfg, states, ops, sid, j, n);
      }
    }
  }

  /** Every session is filed under its own id. */
  ghost predicate Filed(s: Sessions) {
    forall sid :: sid in s ==> s[sid].challenge.sessionId == sid
  }

  lemma MapSizes<K, V>(s: map<K, V>, k: K, v: V)
    ensures |s[k := v]| <= |s| + 1
  {
    assert s[k := v].Keys == s.Keys + {k};
  }

  lemma PruneShrinks(s: Sessions, now: int)
    ensures |Prune(s, now)| <= |s|
  {
    SubsetSize(Prune(s, now).Keys, s.Keys);
  }

  lemma {:induction false} SubsetSize<T>(a: set<T>, b: set<T>)
    requires a <= b
    ensures |a| <= |b|
  {
    if a != {} {
      var x :| x in a;
      SubsetSize(a - {x}, b - {x});
    }
  }

  /** A server never remembers more than `maximum` sessions. */
  lemma {:induction false} Bounded(cfg: Settings, states: seq<Sessions>, ops: seq<Op>, n: nat)
    requires cfg.Valid() && IsRun(cfg, states, ops) && n < |states|
    ensures |states[n]| <= cfg.maximum && Filed(states[n])
  {
    if n > 0 {
      Bounded(cfg, states, ops, n - 1);
      var s, op := states[n - 1], ops[n - 1];
      assert Steps(cfg, s, op, states[n]);
      match op
      case DoIssue(owner, now, f) =>
        PruneShrinks(s, now);
        var kept := Prune(s, now);
        var picked := Pick(kept, f.draws);
        if picked.Some? {
          MapSizes(kept, picked.value, Session(owner, NewChallenge(cfg, picked.value, f), now + cfg.ttlMs, false));
        }
      case DoAdmit(owner, e, now) =>
        if e.sessionId in s {
          assert s[e.sessionId := s[e.sessionId].(used := true)].Keys == s.Keys;
        }
    }
  }

  // ---- The server in place

  class AttestationServer {
    const cfg: Settings
    var sessions: Sessions

    constructor (cfg: Settings)
      ensures this.cfg == cfg && sessions == map[]
    {
      this.cfg := cfg;
      sessions := map[];
    }

    /** issue, under the server's lock. */
    method IssueTo(owner: string, now: int, f: Fresh) returns (r: Issued)
      requires cfg.Valid() && f.Valid()
      modifies this
      ensures (sessions, r) == Issue(cfg, old(sessions), owner, now, f)
    {
      sessions := map sid | sid in sessions && now < sessions[sid].deadline + REMEMBERED_MS :: sessions[sid];
      if |sessions| >= cfg.maximum {
        return Refused("SESSION_LIMIT");
      }
      var i := 0;
      while i < 4 && f.draws[i] in sessions
        invariant 0 <= i <= 4
        invariant Pick(sessions, f.draws) == Pick(sessions, f.draws[i..])
      {
        i := i + 1;
      }
      if i == 4 {
        return Refused("ENTROPY_COLLISION");
      }
      var challenge := NewChallenge(cfg, f.draws[i], f);
      sessions := sessions[f.draws[i] := Session(owner, challenge, now + cfg.ttlMs, false)];
      return Issued(challenge);
    }

    /** submit, as far as it holds the lock. */
    method Begin(owner: string, e: Evidence, now: int) returns (r: Admission)
      modifies this
      ensures (sessions, r) == Admit(cfg, old(sessions), owner, e, now)
    {
      if !e.schemaOk {
        return Raised("INVALID_SCHEMA");
      }
      if |e.sessionId| != 32 {
        return Raised("INVALID_SESSION");
      }
      if e.sessionId !in sessions || owner != sessions[e.sessionId].owner {
        return Answered(Base(cfg, Deny, "UNKNOWN_SESSION"));
      }
      var session := sessions[e.sessionId];
      if session.used {
        return Answered(Base(cfg, Deny, "CHALLENGE_REUSED"));
      }
      if now >= session.deadline {
        return Answered(Base(cfg, Deny, "CHALLENGE_EXPIRED"));
      }
      session := session.(used := true);
      sessions := sessions[e.sessionId := session];
      return ToVerify(session);
    }
  }
}
