/** The two fixed-size records of the game pipe: the 48-byte input and the 80-byte state,
    with the writer of each and its decoders (C and Python for the state). */
module GameRecords {
  import opened Options
  import opened Bytes
  import opened Game

  const LGIN: seq<byte> := [0x4C, 0x47, 0x49, 0x4E, 1]
  const LGST: seq<byte> := [0x4C, 0x47, 0x53, 0x54, 1]
  const LGRE: seq<byte> := [0x4C, 0x47, 0x52, 0x45]

  // ---- Input record

  function ActionByte(a: Action): byte {
    match a case Move => 1 case Fire => 2 case Wait => 3
  }

  function AxisByte(a: Axis): byte {
    match a case None => 0 case Neg => 1 case Pos => 2
  }

  function ToAxis(b: byte): Axis
    requires b <= 2
  {
    if b == 0 then Axis.None else if b == 1 then Neg else Pos
  }

  function EncodeInput(input: Input): (s: seq<byte>)
    ensures |s| == 48
  {
    LGIN + [ActionByte(input.action), AxisByte(input.axisX), AxisByte(input.axisY)] +
    input.match_ + input.session + Little(input.sequence, 4) + Zeros(4)
  }

  function DecodeInput(bytes: seq<byte>): Option<Input> {
    if |bytes| != 48 || bytes[..5] != LGIN || NonZero(bytes[44..48]) then Option.None
    else if !(1 <= bytes[5] <= 3) || bytes[6] > 2 || bytes[7] > 2 then Option.None
    else
      PowValues(); LittleBytes(bytes[40..44]);
      var input := Input(bytes[8..24], bytes[24..40], FromLittle(bytes[40..44]),
                         if bytes[5] == 1 then Move else if bytes[5] == 2 then Fire else Wait,
                         ToAxis(bytes[6]), ToAxis(bytes[7]));
      if ValidInput(input) then Some(input) else Option.None
  }

  lemma InputParts(a: seq<byte>, b: seq<byte>, m: Id, s: Id, q: seq<byte>, z: seq<byte>)
    requires |a| == 5 && |b| == 3 && |q| == 4 && |z| == 4
    ensures var r := a + b + m + s + q + z;
            && r[..5] == a && r[5] == b[0] && r[6] == b[1] && r[7] == b[2] && r[8..24] == m
            && r[24..40] == s && r[40..44] == q && r[44..48] == z
  {
  }

  lemma InputRoundTrip(input: Input)
    requires ValidInput(input)
    ensures DecodeInput(EncodeInput(input)) == Some(input)
  {
    PowValues();
    LittleRoundTrip(input.sequence, 4);
    InputParts(LGIN, [ActionByte(input.action), AxisByte(input.axisX), AxisByte(input.axisY)],
               input.match_, input.session, Little(input.sequence, 4), Zeros(4));
  }

  lemma ZeroBytes(s: seq<byte>)
    requires !NonZero(s)
    ensures s == Zeros(|s|)
  {
  }

  /** Only the canonical bytes of a valid input decode. */
  lemma InputBytesCanonical(bytes: seq<byte>)
    requires DecodeInput(bytes).Some?
    ensures ValidInput(DecodeInput(bytes).value) && EncodeInput(DecodeInput(bytes).value) == bytes
  {
    var input := DecodeInput(bytes).value;
    LittleBytes(bytes[40..44]);
    ZeroBytes(bytes[44..48]);
    assert bytes == bytes[..5] + [bytes[5], bytes[6], bytes[7]] + bytes[8..24] + bytes[24..40] + bytes[40..44] + bytes[44..48];
    assert bytes[5] == ActionByte(input.action) && bytes[6] == AxisByte(input.axisX) && bytes[7] == AxisByte(input.axisY);
  }

  // ---- State record

  datatype PlayerView = PlayerView(x: int, y: int, health: byte, ammo: byte, hits: byte, kills: byte, open: bool)

  datatype View = View(
    match_: Id, session: Id, slot: nat, result: nat, sequence: u32, tick: u64,
    first: PlayerView, second: PlayerView)

  const RESULT_COUNT: nat := 14

  predicate PlayerInRange(p: PlayerView) {
    && -EDGE <= p.x <= EDGE && -EDGE <= p.y <= EDGE
    && p.health <= HEALTH && p.ammo <= AMMO && p.hits <= AMMO && p.kills <= 1
  }

  predicate InRange(v: View) {
    && v.slot < 2 && v.result < RESULT_COUNT && NonZero(v.match_) && NonZero(v.session)
    && PlayerInRange(v.first) && PlayerInRange(v.second)
  }

  /** (uint32_t)x for a 32-bit x. */
  function Unsigned(x: int): (u: u32)
    requires -0x8000_0000 <= x < 0x8000_0000
  {
    if x < 0 then x + 0x1_0000_0000 else x
  }

  /** signed32 of view.c. */
  function Signed(raw: u32): int {
    if raw <= 0x7FFF_FFFF then raw else raw - 0x1_0000_0000
  }

  /** A little-endian signed word as the `i` format of Python's struct reads it: the
      sign is the top bit of the last byte. */
  function PythonSigned(b: seq<byte>): int
    requires |b| == 4
  {
    var b0: int, b1: int, b2: int, b3: int := b[0], b[1], b[2], b[3];
    b0 + 0x100 * b1 + 0x1_0000 * b2 + 0x100_0000 * (if b3 < 128 then b3 else b3 - 256)
  }

  lemma SignedAgree(b: seq<byte>)
    requires |b| == 4
    ensures FromLittle(b) <= U32_MAX && Signed(FromLittle(b)) == PythonSigned(b)
  {
    assert FromLittle(b) == b[0] + 256 * FromLittle(b[1..]);
    assert FromLittle(b[1..]) == b[1] + 256 * FromLittle(b[1..][1..]);
    assert FromLittle(b[1..][1..]) == b[2] + 256 * FromLittle(b[1..][1..][1..]);
    assert FromLittle(b[1..][1..][1..]) == b[3];
  }

  function EncodePlayer(p: PlayerView): (s: seq<byte>)
    requires -0x8000_0000 <= p.x < 0x8000_0000 && -0x8000_0000 <= p.y < 0x8000_0000
    ensures |s| == 12
  {
    Little(Unsigned(p.x), 4) + Little(Unsigned(p.y), 4) + [p.health, p.ammo, p.hits, p.kills]
  }

  function OpenMask(first: bool, second: bool): byte {
    (if first then 1 else 0) + if second then 2 else 0
  }

  function EncodeView(v: View): (s: seq<byte>)
    requires InRange(v)
    ensures |s| == 80
  {
    LGST + [v.result, v.slot, 1] + Little(v.tick, 8) + Little(v.sequence, 4) + v.match_ + v.session +
    EncodePlayer(v.first) + EncodePlayer(v.second) + [OpenMask(v.first.open, v.second.open), 0, 0, 0]
  }

  // game_view_decode of view.c

  function PlayerRecord(r: seq<byte>, open: bool): (p: PlayerView)
    requires |r| == 12
  {
    PowValues(); LittleBytes(r[..4]); LittleBytes(r[4..8]);
    PlayerView(Signed(FromLittle(r[..4])), Signed(FromLittle(r[4..8])), r[8], r[9], r[10], r[11], open)
  }

  predicate HeaderAccepted(bytes: seq<byte>) {
    && |bytes| == 80 && bytes[..5] == LGST && bytes[5] <= 13 && bytes[6] < 2 && bytes[7] == 1
    && bytes[76] <= 3 && bytes[77] == 0 && bytes[78] == 0 && bytes[79] == 0
  }

  function DecodeView(bytes: seq<byte>): Option<View> {
    if !HeaderAccepted(bytes) then Option.None
    else
      PowValues(); LittleBytes(bytes[8..16]); LittleBytes(bytes[16..20]);
      var v := View(bytes[20..36], bytes[36..52], bytes[6], bytes[5],
                    FromLittle(bytes[16..20]), FromLittle(bytes[8..16]),
                    PlayerRecord(bytes[52..64], bytes[76] % 2 == 1),
                    PlayerRecord(bytes[64..76], bytes[76] / 2 % 2 == 1));
      if NonZero(v.match_) && NonZero(v.session) && PlayerInRange(v.first) && PlayerInRange(v.second)
      then Some(v) else Option.None
  }

  // `state` of game_service.py

  datatype ErrorName =
    | IdentityNotEnrolled | PlayerConnected | SessionClosed | WorkerUnavailable | BadFrame | SessionLimit
    | MatchInactive | StateSchema | StateRange | StateIdentity

  /** The names of the results, as the supervisor lists them. */
  const RESULTS: seq<string> := [
    "ACCEPTED", "BAD_INPUT", "WRONG_MATCH", "WRONG_SESSION", "SESSION_CLOSED", "PLAYER_DEAD",
    "SEQUENCE_REPLAY", "SEQUENCE_EXHAUSTED", "TICK_ALREADY_USED", "FIRE_COOLDOWN", "NO_AMMO",
    "OUTSIDE_ARENA", "POSITION_OCCUPIED", "SERVER_TICK_EXHAUSTED"]

  datatype Dict = Dict(tick: nat, sequence: nat, player: nat, reason: string, players: seq<PlayerView>)
  datatype PythonState = Returned(value: Dict) | Raised(error: ErrorName)

  const ERRORS: map<byte, ErrorName> := map[
    1 := IdentityNotEnrolled, 2 := PlayerConnected, 3 := SessionClosed, 4 := WorkerUnavailable,
    5 := BadFrame, 6 := SessionLimit, 7 := MatchInactive]

  function PythonPlayer(bytes: seq<byte>, slot: nat): PlayerView
    requires |bytes| == 80 && slot < 2
  {
    var at := 52 + slot * 12;
    PlayerView(PythonSigned(bytes[at..at + 4]), PythonSigned(bytes[at + 4..at + 8]),
               bytes[at + 8], bytes[at + 9], bytes[at + 10], bytes[at + 11],
               if slot == 0 then bytes[76] in {1, 3} else bytes[76] in {2, 3})
  }

  predicate PythonInRange(p: PlayerView) {
    -10000 <= p.x <= 10000 && -10000 <= p.y <= 10000 && p.health <= 100 && p.ammo <= 4 && p.hits <= 4 && p.kills <= 1
  }

  function State(data: seq<byte>): PythonState {
    if |data| == 5 && data[..4] == LGRE && data[4] in ERRORS then Raised(ERRORS[data[4]])
    else if |data| != 80 || data[..5] != LGST || data[5] >= |RESULTS| || data[6] > 1 || data[7] != 1
         || data[76] > 3 || NonZero(data[77..]) then Raised(StateSchema)
    else
      var players := [PythonPlayer(data, 0), PythonPlayer(data, 1)];
      if !PythonInRange(players[0]) || !PythonInRange(players[1]) then Raised(StateRange)
      else if !NonZero(data[20..36]) || !NonZero(data[36..52]) then Raised(StateIdentity)
      else Returned(Dict(FromLittle(data[8..16]), FromLittle(data[16..20]), data[6], RESULTS[data[5]], players))
  }

  function ToDict(v: View): Dict
    requires v.result < RESULT_COUNT
  {
    Dict(v.tick, v.sequence, v.slot, RESULTS[v.result], [v.first, v.second])
  }

  /** The two decoders accept the same strings of 80 bytes and agree on every field. */
  lemma DecodersAgree(bytes: seq<byte>)
    requires |bytes| == 80
    ensures DecodeView(bytes).Some? <==> State(bytes).Returned?
    ensures DecodeView(bytes).Some? ==> InRange(DecodeView(bytes).value) && State(bytes).value == ToDict(DecodeView(bytes).value)
  {
    SignedAgree(bytes[52..56]);
    SignedAgree(bytes[56..60]);
    SignedAgree(bytes[64..68]);
    SignedAgree(bytes[68..72]);
    assert bytes[52..64][..4] == bytes[52..56] && bytes[52..64][4..8] == bytes[56..60];
    assert bytes[64..76][..4] == bytes[64..68] && bytes[64..76][4..8] == bytes[68..72];
    assert NonZero(bytes[77..]) <==> bytes[77] != 0 || bytes[78] != 0 || bytes[79] != 0 by {
      assert bytes[77..][0] == bytes[77] && bytes[77..][1] == bytes[78] && bytes[77..][2] == bytes[79];
    }
  }

  // ---- Encoding and decoding are inverse

  lemma SignedRoundTrip(x: int)
    requires -0x8000_0000 <= x < 0x8000_0000
    ensures Signed(Unsigned(x)) == x
    ensures FromLittle(Little(Unsigned(x), 4)) == Unsigned(x)
  {
    PowValues();
    LittleRoundTrip(Unsigned(x), 4);
  }

  lemma PlayerRoundTrip(p: PlayerView)
    requires PlayerInRange(p)
    ensures PlayerRecord(EncodePlayer(p), p.open) == p
  {
    SignedRoundTrip(p.x);
    SignedRoundTrip(p.y);
    var r := EncodePlayer(p);
    assert r[..4] == Little(Unsigned(p.x), 4) && r[4..8] == Little(Unsigned(p.y), 4);
    assert r[8] == p.health && r[9] == p.ammo && r[10] == p.hits && r[11] == p.kills;
  }

  lemma PlayerCanonical(r: seq<byte>, open: bool)
    requires |r| == 12 && PlayerInRange(PlayerRecord(r, open))
    ensures EncodePlayer(PlayerRecord(r, open)) == r
  {
    var p := PlayerRecord(r, open);
    PowValues();
    LittleBytes(r[..4]);
    LittleBytes(r[4..8]);
    assert Unsigned(p.x) == FromLittle(r[..4]) && Unsigned(p.y) == FromLittle(r[4..8]);
    assert r == r[..4] + r[4..8] + [r[8], r[9], r[10], r[11]];
  }

  lemma StateParts(h: seq<byte>, k: seq<byte>, t: seq<byte>, q: seq<byte>, m: Id, s: Id, a: seq<byte>, b: seq<byte>, z: seq<byte>)
    requires |h| == 5 && |k| == 3 && |t| == 8 && |q| == 4 && |a| == 12 && |b| == 12 && |z| == 4
    ensures var r := h + k + t + q + m + s + a + b + z;
            && r[..5] == h && r[5] == k[0] && r[6] == k[1] && r[7] == k[2] && r[8..16] == t && r[16..20] == q
            && r[20..36] == m && r[36..52] == s && r[52..64] == a && r[64..76] == b
            && r[76] == z[0] && r[77] == z[1] && r[78] == z[2] && r[79] == z[3]
  {
  }

  lemma StateSlices(r: seq<byte>)
    requires |r| == 80
    ensures r == r[..5] + [r[5], r[6], r[7]] + r[8..16] + r[16..20] + r[20..36] + r[36..52] +
                 r[52..64] + r[64..76] + [r[76], r[77], r[78], r[79]]
  {
  }

  /** Every in-range view survives the record. */
  lemma ViewRoundTrip(v: View)
    requires InRange(v)
    ensures DecodeView(EncodeView(v)) == Some(v)
  {
    PowValues();
    LittleRoundTrip(v.tick, 8);
    LittleRoundTrip(v.sequence, 4);
    PlayerRoundTrip(v.first);
    PlayerRoundTrip(v.second);
    StateParts(LGST, [v.result, v.slot, 1], Little(v.tick, 8), Little(v.sequence, 4), v.match_, v.session,
               EncodePlayer(v.first), EncodePlayer(v.second), [OpenMask(v.first.open, v.second.open), 0, 0, 0]);
  }

  /** And every accepted record is the one encoding of an in-range view. */
  lemma ViewCanonical(bytes: seq<byte>)
    requires DecodeView(bytes).Some?
    ensures InRange(DecodeView(bytes).value) && EncodeView(DecodeView(bytes).value) == bytes
  {
    var v := DecodeView(bytes).value;
    LittleBytes(bytes[8..16]);
    LittleBytes(bytes[16..20]);
    PlayerCanonical(bytes[52..64], bytes[76] % 2 == 1);
    PlayerCanonical(bytes[64..76], bytes[76] / 2 % 2 == 1);
    StateSlices(bytes);
    assert bytes[76] == OpenMask(v.first.open, v.second.open);
  }

  // ---- What the host writes

  function ResultByte(r: Result): byte {
    match r
    case Ok => 0 case BadInput => 1 case WrongMatch => 2 case WrongSession => 3 case Closed => 4
    case Dead => 5 case Replay => 6 case SequenceExhausted => 7 case TickUsed => 8 case Cooldown => 9
    case NoAmmo => 10 case Wall => 11 case Occupied => 12 case ClockExhausted => 13
  }

  function PlayerViewOf(p: Player): PlayerView {
    PlayerView(p.x, p.y, p.health % 256, p.ammo % 256, p.hits % 256, p.kills % 256, p.open)
  }

  function ViewOf(w: World, slot: Slot, sequence: u32, status: Result): View
    requires w.TwoPlayers()
  {
    View(w.match_, w.players[slot].session, slot, ResultByte(status), sequence, w.tick,
         PlayerViewOf(w.players[0]), PlayerViewOf(w.players[1]))
  }

  lemma ReachableInRange(w: World, slot: Slot, sequence: u32, status: Result)
    requires Inv(w)
    ensures InRange(ViewOf(w, slot, sequence, status))
    ensures ViewOf(w, slot, sequence, status).first.health == w.players[0].health
    ensures ViewOf(w, slot, sequence, status).second.health == w.players[1].health
  {
  }

  /** `d` shows player `p`, field by field. */
  ghost predicate Shows(d: PlayerView, p: Player) {
    && d.x == p.x && d.y == p.y && d.health == p.health && d.ammo == p.ammo
    && d.hits == p.hits && d.kills == p.kills && d.open == p.open
  }

  /** C's enumeration and the supervisor's list name every result alike. */
  lemma NamesAgree(r: Result)
    ensures ResultByte(r) < |RESULTS| && RESULTS[ResultByte(r)] == ResultName(r)
  {
  }

  lemma ViewShows(w: World, slot: Slot, sequence: u32, status: Result)
    requires Inv(w)
    ensures var v := ViewOf(w, slot, sequence, status);
            && InRange(v) && v.match_ == w.match_ && v.session == w.players[slot].session && v.slot == slot
            && v.sequence == sequence && v.tick == w.tick && v.result == ResultByte(status)
            && Shows(v.first, w.players[0]) && Shows(v.second, w.players[1])
  {
  }

  /** The record the host writes for a reachable world is accepted by both decoders, and
      each gives back exactly the fields of that world. */
  lemma ReplyIsRead(w: World, slot: Slot, sequence: u32, status: Result)
    requires Inv(w)
    ensures InRange(ViewOf(w, slot, sequence, status))
    ensures var bytes := EncodeView(ViewOf(w, slot, sequence, status));
            && DecodeView(bytes) == Some(ViewOf(w, slot, sequence, status))
            && var v := DecodeView(bytes).value;
               && v.match_ == w.match_ && v.session == w.players[slot].session && v.slot == slot
               && v.sequence == sequence && v.tick == w.tick
               && Shows(v.first, w.players[0]) && Shows(v.second, w.players[1])
    ensures var bytes := EncodeView(ViewOf(w, slot, sequence, status));
            && State(bytes).Returned?
            && var d := State(bytes).value;
               && d.tick == w.tick && d.sequence == sequence && d.player == slot && d.reason == ResultName(status)
               && |d.players| == 2 && Shows(d.players[0], w.players[0]) && Shows(d.players[1], w.players[1])
  {
    ViewShows(w, slot, sequence, status);
    NamesAgree(status);
    ViewRoundTrip(ViewOf(w, slot, sequence, status));
    DecodersAgree(EncodeView(ViewOf(w, slot, sequence, status)));
  }

  /** Twelve bytes of a record: two signed little-endian words, then the four counters. */
  ghost predicate PlayerBytes(r: seq<byte>, p: Player) {
    && |r| == 12
    && FromLittle(r[..4]) == (p.x + 0x1_0000_0000) % 0x1_0000_0000
    && FromLittle(r[4..8]) == (p.y + 0x1_0000_0000) % 0x1_0000_0000
    && r[8] == p.health && r[9] == p.ammo && r[10] == p.hits && r[11] == p.kills
  }

  /** And where each of those fields lies. */
  lemma ReplyLayout(w: World, slot: Slot, sequence: u32, status: Result)
    requires Inv(w)
    ensures InRange(ViewOf(w, slot, sequence, status))
    ensures var bytes := EncodeView(ViewOf(w, slot, sequence, status));
            && |bytes| == 80
            && bytes[..5] == [0x4C, 0x47, 0x53, 0x54, 1] && bytes[6] == slot && bytes[7] == 1
            && bytes[5] < |RESULTS| && RESULTS[bytes[5]] == ResultName(status)
            && FromLittle(bytes[8..16]) == w.tick && FromLittle(bytes[16..20]) == sequence
            && bytes[20..36] == w.match_ && bytes[36..52] == w.players[slot].session
            && PlayerBytes(bytes[52..64], w.players[0]) && PlayerBytes(bytes[64..76], w.players[1])
            && bytes[76] == (if w.players[0].open then 1 else 0) + (if w.players[1].open then 2 else 0)
            && bytes[77] == bytes[78] == bytes[79] == 0
  {
    var v := ViewOf(w, slot, sequence, status);
    ViewShows(w, slot, sequence, status);
    NamesAgree(status);
    StateParts(LGST, [v.result, v.slot, 1], Little(v.tick, 8), Little(v.sequence, 4), v.match_, v.session,
               EncodePlayer(v.first), EncodePlayer(v.second), [OpenMask(v.first.open, v.second.open), 0, 0, 0]);
    PowValues();
    LittleRoundTrip(v.tick, 8);
    LittleRoundTrip(v.sequence, 4);
    PlayerLaid(v.first, w.players[0]);
    PlayerLaid(v.second, w.players[1]);
  }

  lemma PlayerLaid(d: PlayerView, p: Player)
    requires Shows(d, p) && -EDGE <= d.x <= EDGE && -EDGE <= d.y <= EDGE
    ensures PlayerBytes(EncodePlayer(d), p)
  {
    PowValues();
    LittleRoundTrip(Unsigned(d.x), 4);
    LittleRoundTrip(Unsigned(d.y), 4);
    PlayerSlices(Little(Unsigned(d.x), 4), Little(Unsigned(d.y), 4), [d.health, d.ammo, d.hits, d.kills]);
  }

  lemma PlayerSlices(x: seq<byte>, y: seq<byte>, c: seq<byte>)
    requires |x| == 4 && |y| == 4 && |c| == 4
    ensures var r := x + y + c;
            |r| == 12 && r[..4] == x && r[4..8] == y && r[8] == c[0] && r[9] == c[1] && r[10] == c[2] && r[11] == c[3]
  {
  }

  /** memcpy of the next field of a zeroed buffer. */
  method Emit(out: array<byte>, at: nat, part: seq<byte>)
    requires at + |part| <= out.Length && out[at..] == Zeros(out.Length - at)
    modifies out
    ensures out[..at + |part|] == old(out[..at]) + part
    ensures out[at + |part|..] == Zeros(out.Length - at - |part|)
  {
    assert forall i :: at <= i < out.Length ==> out[i] == out[at..][i - at] == 0;
    forall i | 0 <= i < |part| {
      out[at + i] := part[i];
    }
  }

  method EmitLittle(out: array<byte>, at: nat, value: nat, count: nat)
    requires at + count <= out.Length && out[at..] == Zeros(out.Length - at)
    modifies out
    ensures out[..at + count] == old(out[..at]) + Little(value, count)
    ensures out[at + count..] == Zeros(out.Length - at - count)
  {
    assert out[at..][count..] == out[at + count..];
    PutLittle(out, at, value, count);
  }

  method EmitPlayer(out: array<byte>, at: nat, p: Player)
    requires at + 12 <= out.Length && out[at..] == Zeros(out.Length - at)
    requires -EDGE <= p.x <= EDGE && -EDGE <= p.y <= EDGE
    modifies out
    ensures out[..at + 12] == old(out[..at]) + EncodePlayer(PlayerViewOf(p))
    ensures out[at + 12..] == Zeros(out.Length - at - 12)
  {
    ghost var before := out[..at];
    EmitLittle(out, at, Unsigned(p.x), 4);
    EmitLittle(out, at + 4, Unsigned(p.y), 4);
    Emit(out, at + 8, [p.health % 256, p.ammo % 256, p.hits % 256, p.kills % 256]);
    assert out[..at + 12] == before + Little(Unsigned(p.x), 4) + Little(Unsigned(p.y), 4) +
                             [p.health % 256, p.ammo % 256, p.hits % 256, p.kills % 256];
  }

  function Head(v: View): seq<byte>
    requires InRange(v)
  {
    LGST + [v.result, v.slot, 1] + Little(v.tick, 8) + Little(v.sequence, 4) + v.match_ + v.session
  }

  method EmitHead(data: array<byte>, w: World, slot: Slot, sequence: u32, status: Result)
    requires Inv(w) && data.Length == 80 && data[..] == Zeros(80)
    modifies data
    ensures InRange(ViewOf(w, slot, sequence, status))
    ensures data[..52] == Head(ViewOf(w, slot, sequence, status)) && data[52..] == Zeros(28)
  {
    ReachableInRange(w, slot, sequence, status);
    assert data[..0] == [] && data[0..] == data[..];
    Emit(data, 0, LGST);
    Emit(data, 5, [ResultByte(status), slot, 1]);
    EmitLittle(data, 8, w.tick, 8);
    EmitLittle(data, 16, sequence, 4);
    Emit(data, 20, w.match_);
    Emit(data, 36, w.players[slot].session);
  }

  /** `reply`: fills the record of a world field by field. */
  method Reply(w: World, slot: Slot, sequence: u32, status: Result) returns (data: array<byte>)
    requires Inv(w)
    ensures fresh(data) && InRange(ViewOf(w, slot, sequence, status))
    ensures data[..] == EncodeView(ViewOf(w, slot, sequence, status))
  {
    data := new byte[80](_ => 0);
    assert data[..] == Zeros(80);
    EmitHead(data, w, slot, sequence, status);
    ghost var v := ViewOf(w, slot, sequence, status);
    EmitPlayer(data, 52, w.players[0]);
    EmitPlayer(data, 64, w.players[1]);
    ghost var body := data[..76];
    assert body == Head(v) + EncodePlayer(v.first) + EncodePlayer(v.second);
    var mask := 0;
    var i := 0;
    while i < 2
      invariant 0 <= i <= 2
      invariant mask == OpenMask(i > 0 && w.players[0].open, i > 1 && w.players[1].open)
    {
      if w.players[i].open {
        mask := mask + if i == 0 then 1 else 2;
      }
      i := i + 1;
    }
    Emit(data, 76, [mask]);
    assert data[..] == data[..77] + data[77..];
    assert body + [mask] + Zeros(3) == body + [mask, 0, 0, 0];
  }

  // ---- game_view_decode, reading the bytes in loops

  method AnyNonZero(bytes: seq<byte>) returns (any: bool)
    ensures any == NonZero(bytes)
  {
    any := false;
    var i := 0;
    while i < |bytes|
      invariant 0 <= i <= |bytes|
      invariant any == NonZero(bytes[..i])
    {
      assert bytes[..i + 1] == bytes[..i] + [bytes[i]];
      assert NonZero(bytes[..i + 1]) <==> NonZero(bytes[..i]) || bytes[i] != 0 by {
        if bytes[i] != 0 {
          assert bytes[..i + 1][i] != 0;
        } else if NonZero(bytes[..i]) {
          var k :| 0 <= k < i && bytes[..i][k] != 0;
          assert bytes[..i + 1][k] != 0;
        }
      }
      any := any || bytes[i] != 0;
      i := i + 1;
    }
    assert bytes[..i] == bytes;
  }

  method ReadPlayer(bytes: seq<byte>, at: nat, open: bool) returns (p: PlayerView)
    requires at + 12 <= |bytes|
    ensures p == PlayerRecord(bytes[at..at + 12], open)
  {
    var r := bytes[at..at + 12];
    PowValues();
    LittleBytes(r[..4]);
    LittleBytes(r[4..8]);
    var x := ReadLittle(r, 0, 4);
    var y := ReadLittle(r, 4, 4);
    assert r[0..4] == r[..4];
    p := PlayerView(Signed(x), Signed(y), r[8], r[9], r[10], r[11], open);
  }

  method ReadView(bytes: seq<byte>) returns (v: Option<View>)
    ensures v == DecodeView(bytes)
  {
    if !HeaderAccepted(bytes) {
      return Option.None;
    }
    PowValues();
    LittleBytes(bytes[8..16]);
    LittleBytes(bytes[16..20]);
    var sequence := ReadLittle(bytes, 16, 4);
    var tick := ReadLittle(bytes, 8, 8);
    var match_ := AnyNonZero(bytes[20..36]);
    var session := AnyNonZero(bytes[36..52]);
    if !match_ || !session {
      return Option.None;
    }
    var players: seq<PlayerView> := [];
    var i := 0;
    while i < 2
      invariant 0 <= i == |players| <= 2
      invariant i > 0 ==> players[0] == PlayerRecord(bytes[52..64], bytes[76] % 2 == 1) && PlayerInRange(players[0])
      invariant i > 1 ==> players[1] == PlayerRecord(bytes[64..76], bytes[76] / 2 % 2 == 1) && PlayerInRange(players[1])
    {
      var p := ReadPlayer(bytes, 52 + 12 * i, if i == 0 then bytes[76] % 2 == 1 else bytes[76] / 2 % 2 == 1);
      if !PlayerInRange(p) {
        return Option.None;
      }
      players := players + [p];
      i := i + 1;
    }
    return Some(View(bytes[20..36], bytes[36..52], bytes[6], bytes[5], sequence, tick, players[0], players[1]));
  }
}
