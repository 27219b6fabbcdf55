/** lab/game/game.c: the authoritative rules of a two-player match. */
module Game {
  import opened Bytes

  const STEP := 100
  const EDGE := 10000
  const RANGE := 2000
  const FIRE_TICKS: nat := 4
  const AMMO: nat := 4
  const HEALTH: nat := 100
  const DAMAGE: nat := 25

  datatype Action = Move | Fire | Wait
  datatype Axis = None | Neg | Pos

  datatype Result =
    | Ok | BadInput | WrongMatch | WrongSession | Closed | Dead | Replay | SequenceExhausted
    | TickUsed | Cooldown | NoAmmo | Wall | Occupied | ClockExhausted

  /** game_result_name */
  function ResultName(r: Result): string {
    match r
    case Ok => "ACCEPTED" case BadInput => "BAD_INPUT" case WrongMatch => "WRONG_MATCH"
    case WrongSession => "WRONG_SESSION" case Closed => "SESSION_CLOSED" case Dead => "PLAYER_DEAD"
    case Replay => "SEQUENCE_REPLAY" case SequenceExhausted => "SEQUENCE_EXHAUSTED"
    case TickUsed => "TICK_ALREADY_USED" case Cooldown => "FIRE_COOLDOWN" case NoAmmo => "NO_AMMO"
    case Wall => "OUTSIDE_ARENA" case Occupied => "POSITION_OCCUPIED" case ClockExhausted => "SERVER_TICK_EXHAUSTED"
  }

  type Slot = s: nat | s < 2

  datatype Input = Input(match_: Id, session: Id, sequence: u32, action: Action, axisX: Axis, axisY: Axis)

  datatype Player = Player(
    session: Id, x: int, y: int, facingX: int, facingY: int,
    lastSequence: u32, lastInputTick: u64, nextFireTick: u64,
    ammo: nat, health: nat, hits: nat, kills: nat, open: bool, hasInput: bool)

  datatype World = World(match_: Id, tick: u64, players: seq<Player>) {
    predicate TwoPlayers() {
      |players| == 2
    }
  }

  function Other(slot: Slot): Slot {
    1 - slot
  }

  predicate ValidInput(input: Input) {
    && NonZero(input.match_) && NonZero(input.session) && input.sequence != 0
    && if input.action.Move? then input.axisX.None? != input.axisY.None?
       else input.axisX.None? && input.axisY.None?
  }

  function Direction(axis: Axis): int {
    match axis case Neg => -1 case Pos => 1 case None => 0
  }

  predicate Hit(shooter: Player, other: Player) {
    var dx, dy := other.x - shooter.x, other.y - shooter.y;
    if shooter.facingX != 0 then dy == 0 && 0 < dx * shooter.facingX <= RANGE
    else dx == 0 && 0 < dy * shooter.facingY <= RANGE
  }

  function Initial(match_: Id, a: Id, b: Id): World {
    World(match_, 0, [
      Player(a, 0, 0, 1, 0, 0, 0, 0, AMMO, HEALTH, 0, 0, true, false),
      Player(b, 500, 0, -1, 0, 0, 0, 0, AMMO, HEALTH, 0, 0, true, false)])
  }

  predicate CanStart(match_: Id, a: Id, b: Id) {
    NonZero(match_) && NonZero(a) && NonZero(b) && a != b
  }

  predicate Stands(p: Player) {
    p.open && p.health > 0
  }

  /** The checks before an input may act at all. */
  function Admitted(w: World, slot: Slot, input: Input): Result
    requires w.TwoPlayers()
  {
    var player := w.players[slot];
    if !ValidInput(input) then BadInput
    else if w.match_ != input.match_ then WrongMatch
    else if player.session != input.session then WrongSession
    else if !player.open then Closed
    else if player.health == 0 then Dead
    else if input.sequence == U32_MAX then SequenceExhausted
    else if input.sequence <= player.lastSequence then Replay
    else if player.hasInput && player.lastInputTick == w.tick then TickUsed
    else Ok
  }

  function Moved(w: World, slot: Slot, input: Input): (r: (Result, Player))
    requires w.TwoPlayers()
  {
    var player, other := w.players[slot], w.players[Other(slot)];
    var fx, fy := Direction(input.axisX), Direction(input.axisY);
    var next := player.(facingX := fx, facingY := fy, x := player.x + fx * STEP, y := player.y + fy * STEP);
    if next.x < -EDGE || next.x > EDGE || next.y < -EDGE || next.y > EDGE then (Wall, player)
    else if Stands(other) && next.x == other.x && next.y == other.y then (Occupied, player)
    else (Ok, next)
  }

  function Fired(w: World, slot: Slot): (r: (Result, Player, bool))
    requires w.TwoPlayers()
  {
    var player, other := w.players[slot], w.players[Other(slot)];
    if player.ammo == 0 then (NoAmmo, player, false)
    else if w.tick < player.nextFireTick then (Cooldown, player, false)
    else if w.tick > U64_MAX - FIRE_TICKS then (ClockExhausted, player, false)
    else
      var damage := Stands(other) && Hit(player, other);
      (Ok, player.(nextFireTick := w.tick + FIRE_TICKS, ammo := player.ammo - 1,
                   hits := player.hits + if damage then 1 else 0,
                   kills := player.kills + if damage && other.health <= DAMAGE then 1 else 0), damage)
  }

  /** What the action does to the player, and whether it hurts the other one. */
  function Acted(w: World, slot: Slot, input: Input): (r: (Result, Player, bool))
    requires w.TwoPlayers()
  {
    match input.action
    case Move => var (result, next) := Moved(w, slot, input); (result, next, false)
    case Fire => Fired(w, slot)
    case Wait => (Ok, w.players[slot], false)
  }

  function Hurt(p: Player): Player {
    p.(health := if p.health > DAMAGE then p.health - DAMAGE else 0)
  }

  function ApplyInput(w: World, slot: Slot, input: Input): (r: (Result, World))
    requires w.TwoPlayers()
    ensures r.1.TwoPlayers()
    ensures !r.0.Ok? ==> r.1 == w
  {
    var admitted := Admitted(w, slot, input);
    if !admitted.Ok? then (admitted, w)
    else
      var (result, next, damage) := Acted(w, slot, input);
      if !result.Ok? then (result, w)
      else
        var other := w.players[Other(slot)];
        var players := w.players
          [slot := next.(hasInput := true, lastInputTick := w.tick, lastSequence := input.sequence)]
          [Other(slot) := if damage then Hurt(other) else other];
        (Ok, w.(players := players))
  }

  function ClosePlayer(w: World, slot: Slot): (w': World)
    requires w.TwoPlayers()
    ensures w'.TwoPlayers()
  {
    w.(players := w.players[slot := w.players[slot].(open := false)])
  }

  /** How a match begins. */
  lemma StartExactly(match_: Id, a: Id, b: Id)
    ensures var w := Initial(match_, a, b);
            && w.match_ == match_ && w.tick == 0 && |w.players| == 2
            && var p, q := w.players[0], w.players[1];
               && p.session == a && q.session == b
               && (p.x, p.y, q.x, q.y) == (0, 0, 500, 0)
               && (p.facingX, p.facingY, q.facingX, q.facingY) == (1, 0, -1, 0)
               && p.health == q.health == 100 && p.ammo == q.ammo == 4 && p.hits == q.hits == p.kills == q.kills == 0
               && p.open && q.open && !p.hasInput && !q.hasInput
               && p.lastSequence == q.lastSequence == 0 && p.nextFireTick == q.nextFireTick == 0
  {
  }

  // ---- The same rules, in place

  class Arena {
    var match_: Id
    var tick: u64
    const players: array<Player>

    ghost predicate Valid() {
      players.Length == 2
    }

    function Value(): World
      reads this, players
    {
      World(match_, tick, players[..])
    }

    constructor (match_: Id, a: Id, b: Id)
      requires CanStart(match_, a, b)
      ensures Valid() && fresh(players) && Value() == Initial(match_, a, b)
    {
      this.match_, this.tick := match_, 0;
      var ps := new Player[2](_ => Player(a, 0, 0, 1, 0, 0, 0, 0, AMMO, HEALTH, 0, 0, true, false));
      ps[1] := Player(b, 500, 0, -1, 0, 0, 0, 0, AMMO, HEALTH, 0, 0, true, false);
      players := ps;
      new;
      assert players[..] == Initial(match_, a, b).players;
    }

    method Apply(slot: Slot, input: Input) returns (result: Result)
      requires Valid()
      modifies this, players
      ensures (result, Value()) == ApplyInput(old(Value()), slot, input)
    {
      if !ValidInput(input) { return BadInput; }
      if match_ != input.match_ { return WrongMatch; }
      var next, other := players[slot], players[Other(slot)];
      if next.session != input.session { return WrongSession; }
      if !next.open { return Closed; }
      if next.health == 0 { return Dead; }
      if input.sequence == U32_MAX { return SequenceExhausted; }
      if input.sequence <= next.lastSequence { return Replay; }
      if next.hasInput && next.lastInputTick == tick { return TickUsed; }
      var damage := false;
      if input.action.Move? {
        next := next.(facingX := Direction(input.axisX), facingY := Direction(input.axisY));
        next := next.(x := next.x + next.facingX * STEP, y := next.y + next.facingY * STEP);
        if next.x < -EDGE || next.x > EDGE || next.y < -EDGE || next.y > EDGE { return Wall; }
        if Stands(other) && next.x == other.x && next.y == other.y { return Occupied; }
      } else if input.action.Fire? {
        if next.ammo == 0 { return NoAmmo; }
        if tick < next.nextFireTick { return Cooldown; }
        if tick > U64_MAX - FIRE_TICKS { return ClockExhausted; }
        next := next.(nextFireTick := tick + FIRE_TICKS, ammo := next.ammo - 1);
        damage := Stands(other) && Hit(next, other);
        if damage {
          next := next.(hits := next.hits + 1);
          if other.health <= DAMAGE { next := next.(kills := next.kills + 1); }
        }
      }
      next := next.(hasInput := true, lastInputTick := tick, lastSequence := input.sequence);
      players[slot] := next;
      if damage {
        players[Other(slot)] := Hurt(players[Other(slot)]);
      }
      assert players[..] == old(players[..])[slot := next][Other(slot) := if damage then Hurt(other) else other];
      return Ok;
    }

    method Close(slot: Slot)
      requires Valid()
      modifies players
      ensures Value() == ClosePlayer(old(Value()), slot)
    {
      players[slot] := players[slot].(open := false);
    }
  }

  // ---- What every run of a match keeps

  /** Everything that can happen to a match: an input for a slot, the supervisor's
      clock, a slot closed for good. */
  datatype Event = Play(slot: Slot, input: Input) | Clock(tick: u64) | Leave(slot: Slot)

  /** A clock that goes back is refused by the host and changes nothing here. */
  function Next(w: World, e: Event): (w': World)
    requires w.TwoPlayers()
    ensures w'.TwoPlayers()
  {
    match e
    case Play(slot, input) => ApplyInput(w, slot, input).1
    case Clock(tick) => if tick < w.tick then w else w.(tick := tick)
    case Leave(slot) => ClosePlayer(w, slot)
  }

  function Run(w: World, events: seq<Event>): (w': World)
    requires w.TwoPlayers()
    ensures w'.TwoPlayers()
  {
    if events == [] then w
    else Next(Run(w, events[..|events| - 1]), events[|events| - 1])
  }

  ghost predicate PlayerInv(p: Player, tick: nat) {
    && NonZero(p.session)
    && -EDGE <= p.x <= EDGE && -EDGE <= p.y <= EDGE && p.x % STEP == 0 && p.y % STEP == 0
    && (p.facingX, p.facingY) in {(1, 0), (-1, 0), (0, 1), (0, -1)}
    && p.hits + p.ammo <= AMMO
    && p.lastInputTick <= tick && p.nextFireTick <= tick + FIRE_TICKS
    && p.lastSequence < U32_MAX
  }

  /** `p` against the other player `o`: conservation of damage. */
  ghost predicate Scored(p: Player, o: Player) {
    && p.health == HEALTH - DAMAGE * o.hits
    && p.kills == (if o.health == 0 then 1 else 0)
  }

  ghost predicate Inv(w: World) {
    && w.TwoPlayers() && NonZero(w.match_)
    && PlayerInv(w.players[0], w.tick) && PlayerInv(w.players[1], w.tick)
    && Scored(w.players[0], w.players[1]) && Scored(w.players[1], w.players[0])
    && w.players[0].session != w.players[1].session
    && (w.players[0].health > 0 || w.players[1].health > 0)
    && (Stands(w.players[0]) && Stands(w.players[1]) ==>
          (w.players[0].x, w.players[0].y) != (w.players[1].x, w.players[1].y))
  }

  /** The invariant seen from one slot. */
  lemma InvFrom(w: World, slot: Slot)
    requires w.TwoPlayers()
    ensures var p, o := w.players[slot], w.players[Other(slot)];
            Inv(w) <==>
            && NonZero(w.match_)
            && PlayerInv(p, w.tick) && PlayerInv(o, w.tick) && Scored(p, o) && Scored(o, p)
            && p.session != o.session && (p.health > 0 || o.health > 0)
            && (Stands(p) && Stands(o) ==> (p.x, p.y) != (o.x, o.y))
  {
  }

  function Stamped(p: Player, tick: u64, sequence: u32): Player {
    p.(hasInput := true, lastInputTick := tick, lastSequence := sequence)
  }

  /** An accepted input changes the player as it acted and the other only by damage. */
  lemma PlayResult(w: World, slot: Slot, input: Input)
    requires w.TwoPlayers() && ApplyInput(w, slot, input).0.Ok?
    ensures Admitted(w, slot, input).Ok? && Acted(w, slot, input).0.Ok?
    ensures var (_, next, damage) := Acted(w, slot, input);
            var other := w.players[Other(slot)];
            var w' := ApplyInput(w, slot, input).1;
            && w'.match_ == w.match_ && w'.tick == w.tick
            && w'.players[slot] == Stamped(next, w.tick, input.sequence)
            && w'.players[Other(slot)] == if damage then Hurt(other) else other
  {
  }

  lemma PlayKeepsInv(w: World, slot: Slot, input: Input)
    requires Inv(w)
    ensures Inv(ApplyInput(w, slot, input).1)
  {
    if ApplyInput(w, slot, input).0.Ok? {
      InvFrom(w, slot);
      PlayResult(w, slot, input);
      ActedKeeps(w, slot, input);
      InvFrom(ApplyInput(w, slot, input).1, slot);
    }
  }

  lemma StepKeepsInv(w: World, e: Event)
    requires Inv(w)
    ensures Inv(Next(w, e))
  {
    if e.Play? {
      PlayKeepsInv(w, e.slot, e.input);
    }
  }

  /** `next` and the damage it deals fit the rest of the world. */
  ghost predicate Fits(w: World, slot: Slot, next: Player, damage: bool)
    requires w.TwoPlayers()
  {
    var other := w.players[Other(slot)];
    var other' := if damage then Hurt(other) else other;
    && PlayerInv(next, w.tick) && Scored(next, other') && Scored(other', next)
    && next.session == w.players[slot].session && next.health > 0 && next.open
    && (Stands(other') ==> (next.x, next.y) != (other'.x, other'.y))
  }

  lemma FireFits(w: World, slot: Slot, input: Input)
    requires Inv(w) && Admitted(w, slot, input).Ok? && Acted(w, slot, input).0.Ok? && input.action.Fire?
    ensures Fits(w, slot, Acted(w, slot, input).1, Acted(w, slot, input).2)
  {
    InvFrom(w, slot);
  }

  lemma MoveFits(w: World, slot: Slot, input: Input)
    requires Inv(w) && Admitted(w, slot, input).Ok? && Acted(w, slot, input).0.Ok? && !input.action.Fire?
    ensures Fits(w, slot, Acted(w, slot, input).1, Acted(w, slot, input).2)
  {
    InvFrom(w, slot);
  }

  lemma ActedKeeps(w: World, slot: Slot, input: Input)
    requires Inv(w) && Admitted(w, slot, input).Ok? && Acted(w, slot, input).0.Ok?
    ensures Fits(w, slot, Acted(w, slot, input).1, Acted(w, slot, input).2)
  {
    if input.action.Fire? {
      FireFits(w, slot, input);
    } else {
      MoveFits(w, slot, input);
    }
  }

  /** Every world a match can reach satisfies the invariant. */
  lemma {:induction false} ReachableKeepsInv(match_: Id, a: Id, b: Id, events: seq<Event>)
    requires CanStart(match_, a, b)
    ensures Inv(Run(Initial(match_, a, b), events))
  {
    if events != [] {
      ReachableKeepsInv(match_, a, b, events[..|events| - 1]);
      StepKeepsInv(Run(Initial(match_, a, b), events[..|events| - 1]), events[|events| - 1]);
    }
  }

  /** The same in numbers, for either player `p` of a reachable world and the other, `o`. */
  lemma Conservation(match_: Id, a: Id, b: Id, events: seq<Event>, slot: Slot)
    requires CanStart(match_, a, b)
    ensures var w := Run(Initial(match_, a, b), events);
            var p, o := w.players[slot], w.players[1 - slot];
            && p.health == 100 - 25 * o.hits && p.hits + p.ammo <= 4 && 0 <= p.health <= 100
            && p.kills == (if o.health == 0 then 1 else 0)
            && -10000 <= p.x <= 10000 && -10000 <= p.y <= 10000 && p.x % 100 == 0 && p.y % 100 == 0
            && (p.facingX, p.facingY) in {(1, 0), (-1, 0), (0, 1), (0, -1)}
            && (p.open && p.health > 0 && o.open && o.health > 0 ==> (p.x, p.y) != (o.x, o.y))
            && w.match_ == match_ && p.session == (if slot == 0 then a else b)
  {
    ReachableKeepsInv(match_, a, b, events);
    InvFrom(Run(Initial(match_, a, b), events), slot);
    NamesKept(Initial(match_, a, b), events);
  }

  /** No event renames the match or a session. */
  lemma {:induction false} NamesKept(w: World, events: seq<Event>)
    requires w.TwoPlayers()
    ensures var w' := Run(w, events);
            && w'.match_ == w.match_
            && w'.players[0].session == w.players[0].session && w'.players[1].session == w.players[1].session
  {
    if events != [] {
      NamesKept(w, events[..|events| - 1]);
    }
  }

  /** A shot hits exactly when the target is on the ray the shooter faces, at most two
      metres away. */
  lemma HitIsOnRay(p: Player, o: Player, tick: nat)
    requires PlayerInv(p, tick)
    ensures Hit(p, o) <==>
            exists d: nat :: 1 <= d <= 2000 && o.x == p.x + d * p.facingX && o.y == p.y + d * p.facingY
  {
    if Hit(p, o) {
      var d := Distance(p, o);
      assert 1 <= d <= RANGE && o.x == p.x + d * p.facingX && o.y == p.y + d * p.facingY;
    }
  }

  /** An accepted shot takes 25 from a standing player on that ray and nothing from any
      other; an accepted move is one step the way the input names. */
  lemma AcceptedEffect(w: World, slot: Slot, input: Input)
    requires Inv(w) && ApplyInput(w, slot, input).0.Ok?
    ensures var p, o := w.players[slot], w.players[Other(slot)];
            var p', o' := ApplyInput(w, slot, input).1.players[slot], ApplyInput(w, slot, input).1.players[Other(slot)];
            && o' == o.(health := o'.health)
            && o.health - o'.health ==
               (if input.action.Fire? && Stands(o) && Hit(p, o) then DAMAGE else 0)
            && p'.hits - p.hits == (o.health - o'.health) / DAMAGE
            && (input.action.Move? ==>
                  && p'.x - p.x == STEP * (if input.axisX.Pos? then 1 else if input.axisX.Neg? then -1 else 0)
                  && p'.y - p.y == STEP * (if input.axisY.Pos? then 1 else if input.axisY.Neg? then -1 else 0)
                  && (p'.facingX * STEP, p'.facingY * STEP) == (p'.x - p.x, p'.y - p.y))
            && (!input.action.Move? ==> (p'.x, p'.y, p'.facingX, p'.facingY) == (p.x, p.y, p.facingX, p.facingY))
            && p.ammo - p'.ammo == (if input.action.Fire? then 1 else 0)
  {
    InvFrom(w, slot);
    PlayResult(w, slot, input);
  }

  /** Where a move would lead. */
  function TargetX(w: World, slot: Slot, input: Input): int
    requires w.TwoPlayers()
  {
    w.players[slot].x + (if input.axisX.Pos? then 100 else if input.axisX.Neg? then -100 else 0)
  }

  function TargetY(w: World, slot: Slot, input: Input): int
    requires w.TwoPlayers()
  {
    w.players[slot].y + (if input.axisY.Pos? then 100 else if input.axisY.Neg? then -100 else 0)
  }

  /** When exactly an input is accepted, and which result a refusal carries: the first of
      these conditions that fails names it. */
  lemma AnsweredExactly(w: World, slot: Slot, input: Input)
    requires Inv(w)
    ensures var r, p, o := ApplyInput(w, slot, input).0, w.players[slot], w.players[1 - slot];
            var straight := (input.axisX.None? && !input.axisY.None?) || (!input.axisX.None? && input.axisY.None?);
            var valid := && NonZero(input.match_) && NonZero(input.session) && input.sequence > 0
                         && if input.action.Move? then straight else input.axisX.None? && input.axisY.None?;
            var match_ := valid && input.match_ == w.match_;
            var session := match_ && input.session == p.session;
            var open := session && p.open;
            var alive := open && p.health > 0;
            var numbered := alive && input.sequence < 0xFFFF_FFFF;
            var newer := numbered && input.sequence > p.lastSequence;
            var timely := newer && (p.hasInput ==> p.lastInputTick != w.tick);
            var x, y := TargetX(w, slot, input), TargetY(w, slot, input);
            var inside := -10000 <= x <= 10000 && -10000 <= y <= 10000;
            var taken := o.open && o.health > 0 && x == o.x && y == o.y;
            && (r.BadInput? <==> !valid)
            && (r.WrongMatch? <==> valid && !match_)
            && (r.WrongSession? <==> match_ && !session)
            && (r.Closed? <==> session && !open)
            && (r.Dead? <==> open && !alive)
            && (r.SequenceExhausted? <==> alive && !numbered)
            && (r.Replay? <==> numbered && !newer)
            && (r.TickUsed? <==> newer && !timely)
            && (r.Wall? <==> timely && input.action.Move? && !inside)
            && (r.Occupied? <==> timely && input.action.Move? && inside && taken)
            && (r.NoAmmo? <==> timely && input.action.Fire? && p.ammo == 0)
            && (r.Cooldown? <==> timely && input.action.Fire? && p.ammo > 0 && w.tick < p.nextFireTick)
            && (r.ClockExhausted? <==> timely && input.action.Fire? && p.ammo > 0 && w.tick >= p.nextFireTick
                                       && w.tick + 4 > 0xFFFF_FFFF_FFFF_FFFF)
            && (r.Ok? ==> timely)
  {
  }

  /** An accepted input stamps the player and changes nothing that its action does not. */
  lemma AcceptedRecord(w: World, slot: Slot, input: Input)
    requires Inv(w) && ApplyInput(w, slot, input).0.Ok?
    ensures var w' := ApplyInput(w, slot, input).1;
            var p, p' := w.players[slot], w'.players[slot];
            && w'.match_ == w.match_ && w'.tick == w.tick
            && p'.hasInput && p'.lastInputTick == w.tick && p'.lastSequence == input.sequence
            && p'.session == p.session && p'.health == p.health && p'.open
            && p'.nextFireTick == (if input.action.Fire? then w.tick + 4 else p.nextFireTick)
            && (input.action.Move? ==> p'.x == TargetX(w, slot, input) && p'.y == TargetY(w, slot, input))
  {
  }

  // ---- How fast a player can act

  function Abs(x: int): nat {
    if x < 0 then -x else x
  }

  function Distance(p: Player, q: Player): nat {
    Abs(p.x - q.x) + Abs(p.y - q.y)
  }

  /** What the clock allowed `q` to do since it was `p` at tick `since`. */
  ghost predicate Paced(p: Player, q: Player, since: nat) {
    && p.lastSequence <= q.lastSequence
    && (p.hasInput ==> q.hasInput) && p.lastInputTick <= q.lastInputTick
    && (q.lastSequence == p.lastSequence ==>
          && Distance(p, q) == 0 && (q.ammo, q.hits, q.nextFireTick) == (p.ammo, p.hits, p.nextFireTick)
          && q.hasInput == p.hasInput && q.lastInputTick == p.lastInputTick)
    && (q.lastSequence > p.lastSequence ==>
          && q.hasInput && since <= q.lastInputTick
          && Distance(p, q) <= STEP * (q.lastInputTick - since + 1))
    && q.ammo <= p.ammo && p.hits <= q.hits <= p.hits + (p.ammo - q.ammo)
    && p.nextFireTick <= q.nextFireTick
    && (q.ammo < p.ammo ==> since + FIRE_TICKS * (p.ammo - q.ammo) <= q.nextFireTick)
  }

  lemma {:induction false} RunIsPaced(w: World, events: seq<Event>, slot: Slot)
    requires Inv(w)
    ensures Inv(Run(w, events)) && w.tick <= Run(w, events).tick
    ensures Paced(w.players[slot], Run(w, events).players[slot], w.tick)
  {
    if events != [] {
      var init, e := events[..|events| - 1], events[|events| - 1];
      RunIsPaced(w, init, slot);
      StepKeepsInv(Run(w, init), e);
      StepIsPaced(w.players[slot], w.tick, Run(w, init), e, slot);
    }
  }

  /** One accepted action: a step of 100 mm, or a shot once the gun has cooled. */
  ghost predicate OneAction(q: Player, q': Player, tick: nat) {
    && Distance(q, q') <= STEP
    && q.lastSequence < q'.lastSequence && (q.hasInput ==> q.lastInputTick < tick)
    && q'.hasInput && q'.lastInputTick == tick
    && (|| (q'.ammo, q'.hits, q'.nextFireTick) == (q.ammo, q.hits, q.nextFireTick)
        || (&& q'.ammo + 1 == q.ammo && q.hits <= q'.hits <= q.hits + 1
            && q.nextFireTick <= tick && q'.nextFireTick == tick + FIRE_TICKS))
  }

  lemma PlayIsOneAction(w: World, slot: Slot, input: Input)
    requires Inv(w) && ApplyInput(w, slot, input).0.Ok?
    ensures OneAction(w.players[slot], ApplyInput(w, slot, input).1.players[slot], w.tick)
  {
    PlayResult(w, slot, input);
    InvFrom(w, slot);
  }

  lemma ActionIsPaced(p: Player, q: Player, q': Player, since: nat, tick: nat)
    requires Paced(p, q, since) && OneAction(q, q', tick) && since <= tick && q.lastInputTick <= tick
    ensures Paced(p, q', since)
  {
    assert Distance(p, q') <= Distance(p, q) + Distance(q, q');
    if q.lastSequence > p.lastSequence {
      assert q.lastInputTick + 1 <= q'.lastInputTick;
    }
  }

  lemma StepIsPaced(p: Player, since: nat, w: World, e: Event, slot: Slot)
    requires Inv(w) && since <= w.tick && Paced(p, w.players[slot], since)
    ensures w.tick <= Next(w, e).tick
    ensures Paced(p, Next(w, e).players[slot], since)
  {
    if e.Play? && ApplyInput(w, e.slot, e.input).0.Ok? {
      PlayResult(w, e.slot, e.input);
      if e.slot == slot {
        PlayIsOneAction(w, slot, e.input);
        ActionIsPaced(p, w.players[slot], Next(w, e).players[slot], since, w.tick);
      }
    }
  }

  /** Between ticks s and t a player moves at most 100 mm for each tick, both counted. */
  lemma SpeedLimit(w: World, events: seq<Event>, slot: Slot)
    requires Inv(w)
    ensures var w' := Run(w, events);
            Distance(w.players[slot], w'.players[slot]) <= STEP * (w'.tick - w.tick + 1)
  {
    RunIsPaced(w, events, slot);
  }

  /** Taking a player from full health to none takes at least twelve ticks. */
  lemma KillTakesTwelveTicks(w: World, events: seq<Event>, slot: Slot)
    requires Inv(w) && w.players[slot].health == HEALTH
    requires Run(w, events).players[slot].health == 0
    ensures Run(w, events).tick >= w.tick + 12
  {
    RunIsPaced(w, events, Other(slot));
    InvFrom(w, slot);
    InvFrom(Run(w, events), slot);
  }

  ghost predicate AcceptedAt(w: World, events: seq<Event>, i: nat, slot: Slot)
    requires w.TwoPlayers()
  {
    && i < |events| && events[i].Play? && events[i].slot == slot
    && ApplyInput(Run(w, events[..i]), slot, events[i].input).0.Ok?
  }

  /** Of two accepted inputs of a player, the later has a larger sequence and a later
      tick; two accepted shots are four ticks apart. */
  lemma AcceptedInputsApart(w: World, events: seq<Event>, i: nat, j: nat, slot: Slot)
    requires Inv(w) && i < j
    requires AcceptedAt(w, events, i, slot) && AcceptedAt(w, events, j, slot)
    ensures events[i].input.sequence < events[j].input.sequence
    ensures Run(w, events[..i]).tick < Run(w, events[..j]).tick
    ensures events[i].input.action.Fire? && events[j].input.action.Fire? ==>
              Run(w, events[..i]).tick + FIRE_TICKS <= Run(w, events[..j]).tick
  {
    var before, last := Run(w, events[..i]), Run(w, events[..j]);
    var after := Next(before, events[i]);
    RunIsPaced(w, events[..i], slot);
    JustAccepted(before, slot, events[i].input);
    RunBetween(w, events, i, j);
    RunIsPaced(after, events[i + 1..j], slot);
    LaterAction(after, last, slot, events[i].input, events[j].input);
  }

  lemma JustAccepted(w: World, slot: Slot, input: Input)
    requires Inv(w) && ApplyInput(w, slot, input).0.Ok?
    ensures var w' := Next(w, Play(slot, input));
            && Inv(w') && w'.tick == w.tick
            && w'.players[slot].lastSequence == input.sequence && w'.players[slot].hasInput
            && w'.players[slot].lastInputTick == w.tick
            && (input.action.Fire? ==> w'.players[slot].nextFireTick == w.tick + FIRE_TICKS)
  {
    StepKeepsInv(w, Play(slot, input));
    PlayResult(w, slot, input);
  }

  lemma RunBetween(w: World, events: seq<Event>, i: nat, j: nat)
    requires w.TwoPlayers() && i < j <= |events|
    ensures Run(w, events[..j]) == Run(Next(Run(w, events[..i]), events[i]), events[i + 1..j])
  {
    assert events[..i + 1][..i] == events[..i];
    RunSplit(w, events[..j], i + 1);
    assert events[..j][..i + 1] == events[..i + 1] && events[..j][i + 1..] == events[i + 1..j];
  }

  lemma LaterAction(after: World, last: World, slot: Slot, first: Input, second: Input)
    requires Inv(after) && Inv(last) && Paced(after.players[slot], last.players[slot], after.tick)
    requires after.players[slot].lastSequence == first.sequence && after.players[slot].hasInput
    requires after.players[slot].lastInputTick == after.tick <= last.tick
    requires first.action.Fire? ==> after.players[slot].nextFireTick == after.tick + FIRE_TICKS
    requires ApplyInput(last, slot, second).0.Ok?
    ensures first.sequence < second.sequence && after.tick < last.tick
    ensures first.action.Fire? && second.action.Fire? ==> after.tick + FIRE_TICKS <= last.tick
  {
  }

  lemma {:induction false} RunSplit(w: World, events: seq<Event>, k: nat)
    requires w.TwoPlayers() && k <= |events|
    ensures Run(w, events) == Run(Run(w, events[..k]), events[k..])
    decreases |events|
  {
    if k < |events| {
      var n := |events| - 1;
      RunSplit(w, events[..n], k);
      assert events[..n][..k] == events[..k];
      assert events[k..][..n - k] == events[..n][k..];
    } else {
      assert events[..k] == events;
    }
  }
}
