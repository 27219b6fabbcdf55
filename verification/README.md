# Verification model of the arena laboratory

A Dafny model of four parts of the repository and the codecs between them, with proofs
about whole runs rather than single calls.

**Admission and attestation** (`scripts/session_admission.py`, `scripts/tpm_attestation.py`).
`SessionAdmission` holds each registry operation as a function on a table that is generic in
the references to entries and verifiers, and the registry, its entries and its bound
challenges as classes whose methods are proved equal to those functions. `Attestation` does
the same for the challenge server. `AdmissionRuns` makes a step relation of them: the locked
operations, the verifier's own lock, the tools running under no lock, the completion. A
verification in flight keeps its reference to an entry the table may have dropped since,
and admission identifiers may be drawn again. Clock readings must only increase between calls
that wait for each other. `AdmissionAnswers` states what each step is
answered and changes, exactly; `AdmissionTheorems` proves what holds in every such run,
`AdmissionPath` that allow is reachable from every configuration, and `Canonical` that the two
hashed byte strings are unambiguous.

**lab-udp/2 server** (`lab/server/server.c`, `lab/contracts/*.c`). `SequenceWindow` relates the
16-word ring to the unbounded set it stands for; `Evidence` is the request/observation policy;
`LabSession` one client slot and whole sessions; `LabDatagrams` the datagrams byte by byte and
what each is answered; `LabServer` the table of 32 slots, its scan
loops in place, and the theorem that each slot of a live server behaves as a session of its
own peer's datagrams.

**Game** (`lab/game/*.c`, `lab/app/game_host.c`, `lab/app/game_viewer.c`,
`scripts/game_service.py`, `scripts/bridge_transport.py`). `Game` has the rules and their
invariant, `GameRecords` the 48-byte input and the 80-byte state with its C and Python
decoders, `GameHost` the command loop, `GameService` the interleaving of client tasks over the
worker's pipes, `ViewerFrames` the incremental frame reader, `ViewerRecords` what the viewer makes of one
worker's records.

**Bounds and parsers**. `TokenBucket`, `PacketQueue`, `TunnelFrames`
(`scripts/gateway_protocol.py`), `ArenaGateway` (`scripts/arena_gateway.py`), `ImaReplay`
(`lab/app/ima_replay.c`, whose fold is the extend operation of section 17.2 of the TPM 2.0
Library, Part 1), `AimDetector` (`game/scripts/aim_detector.gd`).

Conventions. SHA-256 is an uninterpreted function; freedom from collision is a hypothesis on
the very inputs a statement talks about. Entropy, clocks and the answers of external tools are
inputs of the steps. Deadlines are integers in milliseconds; token levels and scores are exact
reals. A message field of an unexpected JSON type is represented by a value its check refuses.

## What the proofs found

- docs/lab-udp-protocol.md says that a refusal changes no pending request and consumes no
  sequence number. In the code one kind of refusal clears the whole slot: an open session loses
  its slot on a refusal if and only if nothing but the number was wrong and the number, or the
  session's next one, is 4294967295 (`LabSession.ClearedExactly`). For every session with a
  pending request `LabSession.LastNumberCloses` gives a datagram that is refused and takes the
  request with it. Every other refusal leaves evidence, window and deadline alone
  (`LabSession.RefusedChangesNothing`).
- `Gateway.close()` by itself does not keep the count of pending handshakes: a task cancelled
  before its first step never runs the `finally` that gives its place back. The count stays
  exact after a call of `close()` if and only if no task is waiting to run its first step
  (`ArenaGateway.CloseIsClean`; `ArenaGateway.UnstartedLeaks` gives the run). The shipped driver
  always meets that condition: it cancels and gathers `listen` first, and the event loop runs
  what was spawned before it comes back (`ArenaGateway.Accounting`), so the count is exact at
  every await point of `stdio_main`.
- The log replayer refuses a log that ends within 4 bytes of the 64 MiB limit, because the
  read that would meet the end of file is counted against the limit first
  (`ImaReplay.NearLimitRefused`).
- Reusing an admission identifier after a purge is harmless: the completion compares object
  identity, and no theorem here assumes identifiers to be distinct.

## Model

| member | source | states |
|---|---|---|
| AdmissionTheorems.AllowIsSafe | scripts/session_admission.py:86-160 | In every interleaving, an answer with allow at time t is about an entry never revoked before, whose latest challenge was decided ALLOW; t plus the remaining time passes neither the binding deadline nor the lease counted from that challenge |
| AdmissionTheorems.AllowIsVerified | scripts/session_admission.py:137-160 | Behind every allow there is a quote that names that latest challenge, passed every check, and was through before the challenge deadline |
| AdmissionTheorems.OneAllowPerQuote | scripts/tpm_attestation.py:165-187 | Over a whole run one qualification value supports at most one ALLOW, given distinct salts and no collision among the strings hashed |
| AdmissionTheorems.GrantsApart | scripts/session_admission.py:147-160 | Two leases never rest on quotes with the same qualification |
| AdmissionTheorems.OneAttemptPerVerifier | scripts/tpm_attestation.py:170-180 | A bound challenge lets a single attempt through to the tools, ever |
| AdmissionTheorems.ConclusionMeans | scripts/tpm_attestation.py:180-187 | ALLOW requires signature, selection, reference and the qualification of the challenge that made the verifier, before its deadline |
| AdmissionTheorems.GoneForGood | scripts/session_admission.py:147-160 | An entry that was purged, revoked or passed its deadline never becomes ALLOWED and is never reported with allow, however late its verification returns |
| AdmissionTheorems.RevokedForGood | scripts/session_admission.py:120-122 | A revoked entry stays revoked in every later state |
| AdmissionTheorems.RegistryInOrder | scripts/session_admission.py:111-187 | In every reachable state: at most `maximum` entries, no two with the same controller, game session and peer, at most one verification in flight per entry |
| AdmissionRuns.InvKept | scripts/session_admission.py:98-187 | Each of the eight kinds of step keeps the registry invariant, with flights tied to their entry's latest verifier |
| AdmissionRuns.StepEffect | scripts/session_admission.py:86-160 | What any step does to any one entry: fixed binding and deadline, which step may challenge, allow or revoke it, and that a report shows the entry as it stands |
| AdmissionPath.AllowIsReachable | scripts/session_admission.py:98-187 | From every configuration a registration, a challenge and a matching quote lead to allow with the full lease |
| AdmissionAnswers.RevokeAnswered | scripts/session_admission.py:111-122 | The controller of an entry always revokes it, a verification in flight included; anyone else gets the exact error and changes nothing |
| AdmissionAnswers.RevokeStops | scripts/session_admission.py:120-160 | From then on the entry stays revoked and no answer about it says allow |
| AdmissionAnswers.StatusAnswered | scripts/session_admission.py:86-119 | What status shows, both expiries and the time left, and to whom |
| AdmissionAnswers.MalformedRegister | scripts/session_admission.py:162-169 | A registration that is not in order gets the exact error and drops nothing |
| AdmissionAnswers.RegisterRefused | scripts/session_admission.py:170-181 | Which entries a registration drops, and when exactly it is then refused, with which error |
| AdmissionAnswers.RegisterAdds | scripts/session_admission.py:182-187 | Otherwise one new entry, for exactly what was asked |
| AdmissionAnswers.ChallengeAnswered | scripts/session_admission.py:123-128 | An attestor gets a challenge if and only if the entry is open and no challenge is pending |
| AdmissionAnswers.ChallengeForOthers | scripts/session_admission.py:108-117 | Anyone else gets the exact error and changes nothing |
| AdmissionAnswers.ChallengeNames | scripts/session_admission.py:129-136 | Every field of the challenge sent |
| AdmissionAnswers.ChallengeReplaces | scripts/session_admission.py:132-134 | The entry is challenged anew until issue plus challenge time, and nothing else changes |
| AdmissionAnswers.ChallengeHeld | scripts/session_admission.py:41-51 | The new verifier holds that one challenge, unused, for that attestor |
| AdmissionAnswers.ReserveAnswered | scripts/session_admission.py:137-143 | A submit goes to the verifier if and only if its attestor has a challenge pending on an open entry, and the exact error otherwise |
| AdmissionAnswers.TryAnswered | scripts/tpm_attestation.py:165-179 | The tools may run only for the attestor the challenge was issued to, once, in time |
| AdmissionAnswers.FinishAnswered | scripts/session_admission.py:153-160 | A result counts if and only if its entry still waits for it; then decision, lease and report |
| AdmissionAnswers.FailureAnswered | scripts/session_admission.py:146-152 | An exception denies an entry that still waits, and nothing else |
| Canonical.NonceInputInjective | scripts/session_admission.py:34-38 | The hashed nonce string determines binding and salt |
| Canonical.QualificationInputInjective | scripts/tpm_attestation.py:66-71 | The fixed-width qualification input determines every field of the challenge |
| Canonical.QualificationNamesBinding | scripts/session_admission.py:34-51 | Equal qualifications if and only if equal challenge, binding and salt, absent collisions |
| Canonical.TextInjective | scripts/session_admission.py:36-36 | The canonical JSON text names one binding |
| Canonical.TextLayout | scripts/session_admission.py:36-36 | The canonical text written out |
| Canonical.QualificationLayout | scripts/tpm_attestation.py:66-71 | The byte offset of every field of the qualification input |
| Attestation.AllowExactly | scripts/tpm_attestation.py:180-187 | ALLOW if and only if every check passed and the second clock reading is before the deadline |
| Attestation.ValiditiesAgree | scripts/tpm_attestation.py:127-138 | Decision and the reported validities never contradict each other |
| Attestation.OneAttempt | scripts/tpm_attestation.py:150-179 | Between two runs of the verifier for one session id, that id was issued anew, through any pruning |
| Attestation.OnlyTheOwner | scripts/tpm_attestation.py:165-179 | Whoever gets the verifier to run for an id is the owner of its latest issue, the first since, and in time |
| Attestation.AdmittedExactly | scripts/tpm_attestation.py:165-179 | When the verifier runs, and each refusal exactly; a refusal leaves every session as it is |
| Attestation.IssuedExactly | scripts/tpm_attestation.py:150-163 | Which sessions are kept, when issuing is refused, and the session it adds |
| Attestation.ConcludedExactly | scripts/tpm_attestation.py:180-187 | The reason and decision for every way a verification can end |
| Attestation.Bounded | scripts/tpm_attestation.py:150-163 | A server never holds more than `maximum` sessions |
| Attestation.AttestationServer.IssueTo | scripts/tpm_attestation.py:150-163 | issue in place: pruning, limit, up to four draws |
| Attestation.AttestationServer.Begin | scripts/tpm_attestation.py:165-179 | The locked half of submit in place: which evidence is refused and why, and that an admitted session is marked used |
| SessionAdmission.BoundChallenge.Issue | scripts/session_admission.py:41-51 | A new one-session server cannot refuse; its session carries the bound nonce |
| SessionAdmission.Entry.Show | scripts/session_admission.py:86-96 | _status in place: both expiries and the remaining time |
| SessionAdmission.AdmissionRegistry.DoRegister | scripts/session_admission.py:162-187 | register in place: validation, purge, seat and size limits, new entry |
| SessionAdmission.AdmissionRegistry.DoStatus | scripts/session_admission.py:111-119 | status in place, with its refusals |
| SessionAdmission.AdmissionRegistry.DoRevoke | scripts/session_admission.py:120-122 | revoke in place |
| SessionAdmission.AdmissionRegistry.CheckChallenge | scripts/session_admission.py:123-128 | Exactly when a challenge is refused, and with which error |
| SessionAdmission.AdmissionRegistry.DoChallenge | scripts/session_admission.py:125-136 | challenge in place: a new verifier whose only session is the challenge sent; the old lease is suspended |
| SessionAdmission.AdmissionRegistry.DoReserve | scripts/session_admission.py:137-143 | First locked half of submit in place, handing out the entry and its verifier |
| SessionAdmission.AdmissionRegistry.DoComplete | scripts/session_admission.py:146-160 | Second locked half, by object identity, for a result or an exception |
| SessionAdmission.AdmissionRegistry.FindEntry | scripts/session_admission.py:108-117 | Role check, identifier check and look-up, with their errors in order |
| SequenceWindow.AcceptRefines | lab/contracts/lab_util.c:127-137 | One step of the 16-word ring answers exactly as the unbounded set of accepted numbers |
| SequenceWindow.AcceptedExactly | lab/contracts/lab_util.c:127-137 | Over a session, a number is accepted if and only if it is in range, no bound is exhausted and it was never accepted before |
| SequenceWindow.NeverTwice | lab/contracts/lab_util.c:127-137 | No number is accepted twice |
| SequenceWindow.ExhaustionIsPermanent | lab/contracts/lab_util.c:127-137 | `next` never moves back or wraps; once exhausted every further nonzero number is answered CLOSING |
| SequenceWindow.Ring.Accept | lab/contracts/lab_util.c:127-137 | The C function in place |
| Evidence.RequestGrantedExactly | lab/contracts/evidence.c:49-69 | A request is granted if and only if it is entitled, newer than all before, nothing is pending in time and its timeout fits the clock |
| Evidence.ObservationAcceptedExactly | lab/contracts/evidence.c:49-82 | An observation is accepted if and only if it answers the pending request in time, on its terms, with the data its capability calls for |
| Evidence.RequestReasonExactly | lab/contracts/evidence.c:49-69 | The reason of every refused request, condition by condition |
| Evidence.ObservationReasonExactly | lab/contracts/evidence.c:49-82 | And of every refused observation |
| Evidence.DataFitsExactly | lab/contracts/evidence.c:77-79 | The 36 bytes each capability calls for |
| Evidence.Cell.Ask | lab/contracts/evidence.c:60-69 | lab_policy_request in place |
| Evidence.Cell.Observe | lab/contracts/evidence.c:70-82 | lab_policy_observation in place |
| LabSession.RefusedChangesNothing | lab/server/server.c:239-267 | A datagram not granted changes neither evidence, window nor deadline, unless its number is exhausted or the client leaves, which is exactly when the slot is cleared; a granted one consumes its own number |
| LabSession.ClearedExactly | lab/server/server.c:270-389 | When exactly an open slot is lost, and when exactly on a refusal: a PING of the session, or evidence the policy agrees with, under an exhausted number |
| LabSession.LastNumberCloses | lab/server/server.c:328-333 | For every session with a pending request, a datagram that is refused as CLOSING and clears it |
| LabSession.NumberGrantedOnce | lab/server/server.c:328-334 | Over PING, REQUEST and OBSERVATION in any order a sequence number is granted once |
| LabSession.AcceptedAnswersPending | lab/contracts/evidence.c:60-82 | Every ACCEPTED answers the latest PENDING with equal id, origin, capability and seed, less than the request timeout later |
| LabSession.AcceptancesApart | lab/contracts/evidence.c:70-82 | Two acceptances never answer the same request |
| LabSession.DecisionEffect | lab/server/server.c:239-267 | What a decision does to the evidence state, for each status |
| LabSession.HeaderRoundTrip | lab/contracts/lab_util.c:85-110 | Every header is read back whatever follows it, and only packed headers are read |
| LabSession.AckIsRead | lab/server/server.c:145-167 | An ACK carries result 1, reason 0 and exactly the three ids of the slot, in the order the client reads |
| LabSession.OpeningReasonExactly | lab/server/server.c:181-221 | When a first datagram opens a session, and the reason of every refusal |
| LabDatagrams.DatagramRead | lab/contracts/lab_util.c:85-125 | A datagram laid out byte by byte is read back, and passes the header check exactly when its length suits its kind |
| LabDatagrams.HeaderCheckedExactly | lab/server/server.c:270-293 | Which datagrams an open session looks into, and why it refuses the rest |
| LabDatagrams.RequestRoundTrip | lab/contracts/evidence.c:11-36 | The 44 bytes of a REQUEST and its fields determine each other |
| LabDatagrams.ObservationRoundTrip | lab/contracts/evidence.c:11-42 | The 104 bytes of an OBSERVATION and its fields determine each other |
| LabDatagrams.RequestAnswered | lab/server/server.c:239-267 | A well-formed REQUEST datagram under a usable number is answered PENDING and becomes the pending request |
| LabDatagrams.ObservationAnswered | lab/server/server.c:239-267 | The OBSERVATION datagram that fits it is answered ACCEPTED and settles it |
| LabDatagrams.PingAnswered | lab/server/server.c:309-351 | A PING is answered with its own stamp and nonce |
| LabDatagrams.StrangerAnswered | lab/server/server.c:324-327 | A PING or BYE of another session changes nothing |
| LabDatagrams.ByeAnswered | lab/server/server.c:352-365 | BYE frees the slot |
| LabDatagrams.RstAnswered | lab/server/server.c:366-386 | So does a RST whose message fits |
| LabDatagrams.HelloFormedExactly | lab/server/server.c:188-212 | Which 60 bytes a HELLO may carry |
| LabDatagrams.HelloAnswered | lab/server/server.c:181-236 | A proper HELLO datagram is acknowledged with its nonce and the ids drawn |
| LabServer.ReachableInv | lab/server/server.c:551-588 | Used slots have distinct peers and distinct nonzero nonces, at most max_clients, evidence bound to their own session |
| LabServer.OthersUnchanged | lab/server/server.c:551-588 | A datagram changes no other peer's slot |
| LabServer.NewPeerAnswered | lab/server/server.c:551-595 | A peer without a session is turned away exactly when not on the loopback or the sessions in use have reached the limit; else one free slot handles it |
| LabServer.SweepExactly | lab/server/server.c:430-441 | A client heard from within the timeout keeps its slot; any other loses it and is told |
| LabServer.CountIsSize | lab/server/server.c:567-568 | The count is the number of slots in use |
| LabServer.SlotIsSession | lab/server/server.c:551-588 | A slot's history inside the live server is one session of its own peer's datagrams |
| LabServer.OpeningIsFresh | lab/server/server.c:181-236 | A free slot becomes a session if and only if a well-formed HELLO brings an unused nonce, entropy is drawn and the ACK sent; it starts fresh with the ids drawn |
| LabServer.RetransmissionSameAck | lab/server/server.c:294-299 | An identical HELLO at any time while its session lasts gets the very same ACK bytes and changes nothing, deadline included |
| LabServer.Server.FindClient | lab/server/server.c:560-565 | The peer scan finds the first matching slot |
| LabServer.Server.InUse | lab/server/server.c:567-568 | The count of used slots |
| LabServer.Server.Taken | lab/server/server.c:214-219 | The nonce scan |
| LabServer.Server.Evidence | lab/server/server.c:239-267 | do_evidence in place: policy and window on copies, both committed or neither |
| LabServer.Server.Dispatch | lab/server/server.c:590-595 | do_new or do_open in the chosen slot; no other slot changes |
| LabServer.Server.Take | lab/server/server.c:551-595 | One turn of the receive loop in place |
| LabServer.Server.DropLate | lab/server/server.c:430-441 | sweep_timeouts in place, with unsigned 64-bit subtraction, and the RSTs it sends |
| LabServer.DroppedAreTold | lab/server/server.c:430-441 | Exactly the clients that lose their slot are sent a TIMEOUT with their own session |
| Game.ReachableKeepsInv | lab/game/game.c:53-138 | In every reachable world: health is 100 less 25 per hit of the other, kills is 1 exactly when the other is at 0, hits and ammo within 4, unit facing, grid coordinates in the arena, no shared position |
| Game.Conservation | lab/game/game.c:53-125 | The same in numbers, for either player of every reachable world |
| Game.StartExactly | lab/game/game.c:53-70 | How a match begins |
| Game.AnsweredExactly | lab/game/game.c:85-125 | When an input is accepted, and the result of every refusal, condition by condition |
| Game.AcceptedRecord | lab/game/game.c:119-123 | The stamp an accepted input leaves, and what it leaves alone |
| Game.HitIsOnRay | lab/game/game.c:76-83 | A shot hits exactly on the ray faced, up to two metres |
| Game.AcceptedEffect | lab/game/game.c:85-125 | What an accepted move, shot or wait changes on both players, and nothing else |
| Game.AcceptedInputsApart | lab/game/game.c:85-125 | Accepted inputs of a player have increasing sequences and ticks; accepted shots are 4 ticks apart |
| Game.SpeedLimit | lab/game/game.c:85-125 | Displacement between ticks s and t is at most 100 mm times t-s+1 |
| Game.KillTakesTwelveTicks | lab/game/game.c:85-125 | Full health to none spans at least 12 ticks |
| Game.Arena.constructor | lab/game/game.c:53-70 | game_init |
| Game.Arena.Apply | lab/game/game.c:85-125 | game_apply in place |
| Game.Arena.Close | lab/game/game.c:134-138 | game_close in place |
| GameRecords.InputRoundTrip | lab/game/game.c:20-51 | Every valid input survives encode and decode |
| GameRecords.InputBytesCanonical | lab/game/game.c:20-51 | Only the canonical bytes of a valid input decode |
| GameRecords.DecodersAgree | scripts/game_service.py:27-44 | The C and Python decoders accept the same 80-byte strings with equal values |
| GameRecords.ViewRoundTrip | lab/game/view.c:4-39 | Every in-range view survives the record, negative coordinates included |
| GameRecords.ViewCanonical | lab/game/view.c:15-39 | Every accepted record is the one encoding of an in-range view |
| GameRecords.ReplyIsRead | lab/app/game_host.c:19-35 | Both decoders read the record of a reachable world back as that world, player by player and field by field |
| GameRecords.ReplyLayout | lab/app/game_host.c:19-35 | The place of every field in the 80 bytes |
| GameRecords.NamesAgree | scripts/game_service.py:14-16 | The supervisor names every result as the worker does |
| GameRecords.Reply | lab/app/game_host.c:19-35 | The record filled field by field in a zeroed buffer |
| GameRecords.ReadView | lab/game/view.c:15-39 | The C decoder's loops |
| GameHost.Loop.Turn | lab/app/game_host.c:61-91 | One turn of the command loop in place |
| GameHost.QuitsExactly | lab/app/game_host.c:61-90 | On which commands the worker leaves |
| GameHost.InputCommand | lab/app/game_host.c:68-73 | Operation 1 plays its input and tells the result |
| GameHost.ClockCommand | lab/app/game_host.c:80-85 | Operation 2 sets the clock and nothing else |
| GameHost.CloseCommand | lab/app/game_host.c:86-86 | Operation 3 closes the slot named and nothing else |
| GameHost.SnapshotCommand | lab/app/game_host.c:87-87 | Operation 4 changes nothing and tells whether the slot is open |
| GameHost.HostRunsMatches | lab/app/game_host.c:61-91 | Whatever commands arrive, the worker's world is the one reached by the events of those very commands, each taken in the world before it |
| GameHost.HostInputsApart | lab/app/game_host.c:61-91 | In every run of the worker two accepted inputs of a player have increasing sequences and ticks, and accepted shots are 4 ticks apart |
| GameHost.HostLimits | lab/app/game_host.c:80-85 | Conservation, speed and kill limits hold between any two moments of a worker |
| GameHost.GreetingAccepted | scripts/game_service.py:86-94 | What a worker writes on starting passes every check of its supervisor |
| GameHost.Loop.Greet | lab/app/game_host.c:58-60 | The two start-up records |
| GameHost.ClientInputArrives | scripts/game_service.py:47-54 | An input built from the worker's own record decodes to that intent for that match and session |
| GameService.RepliesAssociated | scripts/game_service.py:98-126 | In every interleaving each record handed out is the worker's reply to that very command, none twice; unbroken with a free lock means empty pipes |
| GameService.AppliedOnTime | scripts/game_service.py:120-126 | An input the worker takes up follows directly the clock reading of its own apply, in the world that left, so it is played at that tick |
| GameService.JobDoes | scripts/game_service.py:116-126 | What apply, snapshot and the release of a slot make the worker do, command by command |
| GameService.BrokenIsFinal | scripts/game_service.py:112-114 | After one failed exchange nothing is handed out any more |
| GameService.NeverBreaksItself | scripts/game_service.py:98-126 | Without timeout, cancellation or close the service never breaks |
| GameService.WireAnswered | scripts/game_service.py:116-126 | The worker answers every command the service sends, for the slot asked about |
| ViewerFrames.StreamDelivers | lab/app/game_viewer.c:45-68 | Fed the frames of a list of packets, the reader hands over exactly that list |
| ViewerFrames.DeliversPrefix | lab/app/game_viewer.c:45-68 | However much has arrived, and even after a refused packet, what was handed over is a prefix of the packets |
| ViewerFrames.EncodeFrame | scripts/bridge_transport.py:16-19 | The writer refuses exactly empty and over-long data, and puts the length a reader needs in front |
| ViewerFrames.Viewer.Receive | lab/app/game_viewer.c:45-68 | receive in place, for every way reads may split, fail or be interrupted, with used, wanted and the buffer within bounds |
| ViewerRecords.MessageExactly | lab/app/game_viewer.c:24-43 | The packets the viewer takes |
| ViewerRecords.LaterRecordShown | lab/app/game_viewer.c:24-43 | Of two records of one match the later is shown if and only if its sequence is no smaller |
| ViewerRecords.WorkerRecordsShown | lab/app/game_viewer.c:24-43 | So for the records of one worker, whatever commands come between |
| TunnelFrames.ReadsExactlyWritten | scripts/gateway_protocol.py:70-91 | A stream parses to a list of packets if and only if it is what writing them produces |
| TunnelFrames.FrameExactly | scripts/gateway_protocol.py:70-74 | What can be framed, and the bytes that makes |
| TunnelFrames.ReadExactly | scripts/gateway_protocol.py:77-91 | Which sizes and types a reader refuses, and when it waits |
| Bytes.LittleAt | lab/contracts/lab_util.c:73-78 | Byte i of a little-endian word |
| Bytes.BigAt | scripts/gateway_protocol.py:74-74 | Byte i of a big-endian word |
| TokenBucket.AcceptedExactly | scripts/gateway_protocol.py:148-164 | A call is accepted if and only if no window from creation or any reading up to now exceeds 64 + 512/s frames or 65536 + 524288/s bytes |
| TokenBucket.Rate.Take | scripts/gateway_protocol.py:155-164 | take in place |
| PacketQueue.Conserved | scripts/gateway_protocol.py:126-145 | What left and what waits is what was stored, in order; the counter is exact and both limits hold |
| PacketQueue.AnsweredExactly | scripts/gateway_protocol.py:134-145 | Exactly when a put is refused; a get takes the oldest packet, which expires exactly when it waited longer than the age |
| PacketQueue.BoundedQueue.TryPut | scripts/gateway_protocol.py:134-138 | put in place |
| PacketQueue.BoundedQueue.TryGet | scripts/gateway_protocol.py:140-145 | get in place |
| PacketQueue.AcceptedCount | scripts/gateway_protocol.py:94-106 | Whatever is offered, the accepted numbers are 1, 2, 3, ... |
| PacketQueue.Sequence.Next | scripts/gateway_protocol.py:98-100 | next never passes the largest identifier |
| PacketQueue.Sequence.Accept | scripts/gateway_protocol.py:102-106 | accept in place |
| ArenaGateway.Accounting | scripts/arena_gateway.py:416-428 | In every run under stdio_main, at every await point: pending is exactly the number of handshakes and at most 4, at most 8 channels and 256 routes, and nothing is cancelled before its first step |
| ArenaGateway.ExactBeforeClose | scripts/arena_gateway.py:251-308 | Until close() is called the count is exact in every interleaving |
| ArenaGateway.CloseIsClean | scripts/arena_gateway.py:339-353 | The count stays exact in every run that calls close() here if and only if no task waits to run its first step |
| ArenaGateway.UnstartedLeaks | scripts/arena_gateway.py:339-353 | Otherwise a run that cancels that task and leaves the count one too high |
| ArenaGateway.ForwardedWasAcknowledged | scripts/arena_gateway.py:108-116 | A datagram passes on a channel only after exactly one accepted ROUTE_ACK, which carried the request id of that channel's own ROUTE_OPEN and of no other, and after forwarding began with the channel not closed |
| ArenaGateway.ForwardIsReachable | scripts/arena_gateway.py:251-282 | A run that forwards |
| ArenaGateway.AckAnswered | scripts/arena_gateway.py:108-116 | Exactly which ROUTE_ACK is accepted, and what any other does |
| ArenaGateway.RouteCloseAnswered | scripts/arena_gateway.py:195-206 | What a ROUTE_CLOSE does to a live, a retired and an unknown channel |
| ArenaGateway.RetiredForGood | scripts/arena_gateway.py:219-238 | A retired id never names a channel again |
| ImaReplay.AcceptedExactly | lab/app/ima_replay.c:64-95 | A log is accepted if and only if it is a run of 1 to 100000 well-formed records at most 64 MiB less 4 long; the PCR is the left fold of extend |
| ImaReplay.NearLimitRefused | lab/app/ima_replay.c:22-26 | Well-formed records that end within 4 bytes of 64 MiB are refused with the byte limit |
| ImaReplay.SamePcrSameLog | lab/app/ima_replay.c:64-95 | Two accepted logs with the same final PCR are byte-identical, absent collisions and returns to the zero PCR |
| ImaReplay.TemplateFromData | lab/app/ima_replay.c:51-63 | No data is valid both with two and with three fields |
| ImaReplay.FieldsExactly | lab/app/ima_replay.c:42-63 | The template data accepted: a named digest and a path, and for ima-sig one more field |
| ImaReplay.RecordRefusedExactly | lab/app/ima_replay.c:68-79 | The error of every refused record, up to its template name |
| ImaReplay.DataRefusedExactly | lab/app/ima_replay.c:80-92 | And from its data length on |
| ImaReplay.CheckDigestField | lab/app/ima_replay.c:42-50 | digest_field |
| ImaReplay.CheckFields | lab/app/ima_replay.c:51-63 | fields_valid, its loop over the offset |
| ImaReplay.Input.Fill | lab/app/ima_replay.c:22-37 | take in place, for every way reads may split or fail |
| ImaReplay.RunReplay | lab/app/ima_replay.c:64-95 | replay over such an input gives the answer of the whole file; a failing input can only refuse |
| AimDetector.ScoreIsBestSuffix | game/scripts/aim_detector.gd:10-24 | The score is at most the best stretch of frames that ends now (18 a snap, 8 a second of tracking beyond the warm-up, less 0.7 a second), and exactly that while no stretch is worth more than 100 |
| AimDetector.ScoreStep | game/scripts/aim_detector.gd:15-24 | One frame adds what it is worth, between 0 and 100 |
| AimDetector.CountsExactly | game/scripts/aim_detector.gd:10-23 | Samples, snaps and tracked time are those of the frames |
| AimDetector.AimedIsBest | game/scripts/aim_detector.gd:18-23 | The tracked time is the best balance of seconds on target less twice those off it |
| AimDetector.OneSnap | game/scripts/aim_detector.gd:15-24 | One snap on the second frame scores 17.9888 |
| AimDetector.SlowClimb | game/scripts/aim_detector.gd:10-30 | Without a snap, 0 to HIGH_SUSPICION takes more than ten seconds |
| AimDetector.ClimbBound | game/scripts/aim_detector.gd:10-24 | From any state the score climbs at most 18 a snap and 7.3 a second |
| AimDetector.Detector.Observe | game/scripts/aim_detector.gd:10-30 | observe in place |

## Left out

- AdmissionTheorems.OneAllowPerQuote: salts are assumed pairwise distinct and SHA-256 free of collisions among the strings of the run.
- ImaReplay.SamePcrSameLog: assumes that no extension of either replay yields 32 zero bytes; without it a longer log could end in the initial value.
- ImaReplay.RunReplay: a failed read and a failed clock are one kind of failure; the printed report is not modelled.
- Attestation.Bounded: the wall clock is assumed to stay 60 seconds below 2^64 ms, where packing would raise.
- LabServer.ReachableInv: logging, counters, the client's printable name and the RSTs sent on shutdown are not part of the slot.
- ArenaGateway.Accounting: the loop runs what is ready in the order it became ready, and the driver's gather gives it a turn (CPython's may not when all four driver tasks have ended already); the client role (`connect`) and the final clearing of the tables are not modelled.
- GameService.RepliesAssociated: which certificate claims which slot (`claimed`, `connected`) and the four-task limit are not modelled; any number of tasks may compete.
- AimDetector.ScoreIsBestSuffix: angles are parameters and arithmetic is in exact reals.
- TokenBucket.AcceptedExactly: arithmetic is in exact reals, so rounding of the float levels is not covered.
- PacketQueue.BoundedQueue.TryGet: a get on an empty queue is reported as not ready instead of waiting.
- Game.Arena.constructor: the ids game_init refuses (zero, or two equal sessions) are the complement of its precondition `CanStart`.
- The constructor checks of the registry (roles, limits) are the precondition `Config.Valid`; the eight-handler and four-verification limits of the network service only add counters.
- Message schema checks (`set(message)`, JSON types) are reduced to the fields the operations use.
- The base64 and size checks on a quote, running the inspector and tpm2_checkquote are one outcome of the verifier.
- Of the lab-udp/2 packers only the header and the ACK are modelled as bytes; RST, PONG and DECISION are values.
- The JSON parsers, TLS, sockets, subprocesses, certificates, signals, logging and command lines.
- Real-time bounds: a timeout is a step that may happen at any moment.
- Drawing, the Godot scene, the lab client, the adapter and the platform probes.
