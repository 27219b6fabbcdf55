/** lab/app/game_host.c: the worker loop that owns the world, and the client command
    built by `command` of game_service.py. */
module GameHost {
  import opened Options
  import opened Bytes
  import opened Game
  import R = GameRecords

  /** The worker either waits for its next command or has left its loop. */
  datatype Host = Waiting(world: World) | Exited(code: nat)

  type Command = c: seq<byte> | |c| == 50 witness Zeros(50)

  datatype Handled = Handled(host: Host, reply: Option<seq<byte>>)

  function Answer(w: World, slot: Slot, sequence: u32, status: Result): Handled
    requires Inv(w)
  {
    R.ReachableInRange(w, slot, sequence, status);
    Handled(Waiting(w), Some(R.EncodeView(R.ViewOf(w, slot, sequence, status))))
  }

  const LEFT: Handled := Handled(Exited(1), Option.None)

  /** What a command does to the match, and the status it is answered with. */
  datatype Effect = Effect(events: seq<Event>, sequence: u32, status: Result) | Quit

  function EffectOf(w: World, command: Command): Effect
    requires w.TwoPlayers()
  {
    var op, slot := command[0], command[1];
    if slot >= 2 then Quit
    else if op == 1 then
      match R.DecodeInput(command[2..])
      case None => Effect([], 0, BadInput)
      case Some(input) => Effect([Play(slot, input)], input.sequence, ApplyInput(w, slot, input).0)
    else if NonZero(command[if op == 2 then 10 else 2..]) then Quit
    else if op == 2 then
      PowValues(); LittleBytes(command[2..10]);
      var tick := FromLittle(command[2..10]);
      if tick < w.tick then Quit else Effect([Clock(tick)], 0, Ok)
    else if op == 3 then Effect([Leave(slot)], 0, Ok)
    else if op == 4 then Effect([], 0, if w.players[slot].open then Ok else Closed)
    else Quit
  }

  lemma EffectKeepsInv(w: World, command: Command)
    requires Inv(w) && EffectOf(w, command).Effect?
    ensures |EffectOf(w, command).events| <= 1
    ensures Inv(Run(w, EffectOf(w, command).events))
  {
    var events := EffectOf(w, command).events;
    if events == [] {
      assert Run(w, events) == w;
    } else {
      assert events[..|events| - 1] == [];
      assert Run(w, events) == Next(w, events[0]);
      StepKeepsInv(w, events[0]);
    }
  }

  /** One turn of the command loop. */
  function Handle(w: World, command: Command): (h: Handled)
    requires Inv(w)
    ensures h.host.Waiting? ==> Inv(h.host.world) && h.reply.Some?
  {
    match EffectOf(w, command)
    case Quit => LEFT
    case Effect(events, sequence, status) =>
      EffectKeepsInv(w, command);
      Answer(Run(w, events), command[1], sequence, status)
  }

  /** The two records written before the first command. */
  function Greeting(w: World): (s: seq<byte>)
    requires Inv(w)
    ensures |s| == 160
  {
    R.ReachableInRange(w, 0, 0, Ok);
    R.ReachableInRange(w, 1, 0, Ok);
    R.EncodeView(R.ViewOf(w, 0, 0, Ok)) + R.EncodeView(R.ViewOf(w, 1, 0, Ok))
  }

  /** What start() of the supervisor demands of those 160 bytes. */
  predicate HelloAccepted(data: seq<byte>) {
    && |data| == 160
    && R.State(data[..80]).Returned? && R.State(data[80..]).Returned?
    && R.State(data[..80]).value.player == 0 && R.State(data[80..]).value.player == 1
    && R.State(data[..80]).value.reason == R.State(data[80..]).value.reason == "ACCEPTED"
    && data[20..36] == data[100..116] && data[36..52] != data[116..132]
  }

  /** The loop body on the world in place. */
  class Loop {
    const arena: Arena
    var host: Host

    ghost predicate Valid()
      reads this, arena, arena.players
    {
      && arena.Valid() && Inv(arena.Value())
      && (host.Waiting? ==> host.world == arena.Value())
    }

    constructor (match_: Id, a: Id, b: Id)
      requires CanStart(match_, a, b)
      ensures Valid() && fresh(arena) && fresh(arena.players) && host == Waiting(Initial(match_, a, b))
    {
      arena := new Arena(match_, a, b);
      host := Waiting(Initial(match_, a, b));
      ReachableKeepsInv(match_, a, b, []);
    }

    /** The records of both slots, before any command. */
    method Greet() returns (data: seq<byte>)
      requires Valid() && host.Waiting?
      ensures data == Greeting(host.world)
    {
      var w := World(arena.match_, arena.tick, arena.players[..]);
      var first := R.Reply(w, 0, 0, Ok);
      var second := R.Reply(w, 1, 0, Ok);
      data := first[..] + second[..];
    }

    method Turn(command: Command) returns (reply: Option<seq<byte>>)
      requires Valid() && host.Waiting?
      modifies this, arena, arena.players
      ensures Valid()
      ensures Handled(host, reply) == Handle(old(host.world), command)
    {
      ghost var before := arena.Value();
      EventOnce(before);
      var op, slot := command[0], command[1];
      if slot >= 2 {
        host := Exited(1);
        return Option.None;
      }
      ghost var effect := EffectOf(before, command);
      if effect.Effect? {
        EffectKeepsInv(before, command);
      }
      var sequence: u32, status: Result := 0, BadInput;
      if op == 1 {
        var decoded := R.DecodeInput(command[2..]);
        if decoded.Some? {
          sequence := decoded.value.sequence;
          status := arena.Apply(slot, decoded.value);
        }
      } else {
        var any := R.AnyNonZero(command[if op == 2 then 10 else 2..]);
        if any {
          host := Exited(1);
          return Option.None;
        }
        if op == 2 {
          PowValues();
          LittleBytes(command[2..10]);
          var tick := ReadLittle(command, 2, 8);
          if tick < arena.tick {
            host := Exited(1);
            return Option.None;
          }
          arena.tick := tick;
          status := Ok;
        } else if op == 3 {
          arena.Close(slot);
          status := Ok;
        } else if op == 4 {
          status := if arena.players[slot].open then Ok else Closed;
        } else {
          host := Exited(1);
          return Option.None;
        }
      }
      assert arena.Value() == Run(before, effect.events) && (sequence, status) == (effect.sequence, effect.status);
      host := Waiting(World(arena.match_, arena.tick, arena.players[..]));
      var data := R.Reply(World(arena.match_, arena.tick, arena.players[..]), slot, sequence, status);
      return Some(data[..]);
    }
  }

  lemma EventOnce(w: World)
    requires w.TwoPlayers()
    ensures Run(w, []) == w && forall e :: Run(w, [e]) == Next(w, e)
  {
    forall e ensures Run(w, [e]) == Next(w, e) {
      assert [e][..0] == [];
    }
  }

  // ---- What each command does and is answered

  /** The record tells the supervisor this about world `w`. */
  ghost predicate Tells(reply: Option<seq<byte>>, w: World, slot: Slot, sequence: u32, status: Result)
    requires w.TwoPlayers()
  {
    && reply.Some? && R.State(reply.value).Returned?
    && var d := R.State(reply.value).value;
       && d.tick == w.tick && d.sequence == sequence && d.player == slot && d.reason == ResultName(status)
       && |d.players| == 2 && R.Shows(d.players[0], w.players[0]) && R.Shows(d.players[1], w.players[1])
  }

  lemma AnswerTells(w: World, slot: Slot, sequence: u32, status: Result)
    requires Inv(w)
    ensures Answer(w, slot, sequence, status).host == Waiting(w)
    ensures Tells(Answer(w, slot, sequence, status).reply, w, slot, sequence, status)
  {
    R.ReplyIsRead(w, slot, sequence, status);
  }

  /** The worker leaves exactly on an unknown slot or operation, on reserved bytes that are
      not zero, and on a clock that would run back. */
  lemma QuitsExactly(w: World, command: Command)
    requires Inv(w)
    ensures var op, slot := command[0], command[1];
            var h := Handle(w, command);
            && (h.host.Exited? <==>
                  || slot > 1 || op !in {1, 2, 3, 4} || (op in {3, 4} && NonZero(command[2..]))
                  || (op == 2 && (NonZero(command[10..]) || FromLittle(command[2..10]) < w.tick)))
            && (h.host.Exited? ==> h.host == Exited(1) && h.reply.None?)
  {
  }

  /** Operation 1 plays the input in its 48 bytes and reports its result; bytes that are no
      input are answered BAD_INPUT and change nothing. */
  lemma InputCommand(w: World, command: Command)
    requires Inv(w) && command[0] == 1 && command[1] < 2
    ensures var slot, decoded := command[1], R.DecodeInput(command[2..]);
            var h := Handle(w, command);
            if decoded.None? then h.host == Waiting(w) && Tells(h.reply, w, slot, 0, BadInput)
            else
              var (result, w') := ApplyInput(w, slot, decoded.value);
              h.host == Waiting(w') && Tells(h.reply, w', slot, decoded.value.sequence, result)
  {
    var slot, decoded := command[1], R.DecodeInput(command[2..]);
    EventOnce(w);
    if decoded.None? {
      AnswerTells(w, slot, 0, BadInput);
    } else {
      var (result, w') := ApplyInput(w, slot, decoded.value);
      PlayKeepsInv(w, slot, decoded.value);
      AnswerTells(w', slot, decoded.value.sequence, result);
    }
  }

  /** Operation 2 sets the clock, and nothing else. */
  lemma ClockCommand(w: World, command: Command)
    requires Inv(w) && Handle(w, command).host.Waiting? && command[0] == 2
    ensures FromLittle(command[2..10]) <= U64_MAX
    ensures var w', h := w.(tick := FromLittle(command[2..10])), Handle(w, command);
            h.host == Waiting(w') && Tells(h.reply, w', command[1], 0, Ok)
  {
    PowValues();
    LittleBytes(command[2..10]);
    var w' := w.(tick := FromLittle(command[2..10]));
    EventOnce(w);
    StepKeepsInv(w, Clock(w'.tick));
    AnswerTells(w', command[1], 0, Ok);
  }

  /** Operation 3 closes the slot it names, and nothing else. */
  lemma CloseCommand(w: World, command: Command)
    requires Inv(w) && Handle(w, command).host.Waiting? && command[0] == 3
    ensures var slot, h := command[1], Handle(w, command);
            var w' := w.(players := w.players[slot := w.players[slot].(open := false)]);
            h.host == Waiting(w') && Tells(h.reply, w', slot, 0, Ok)
  {
    var slot := command[1];
    var w' := w.(players := w.players[slot := w.players[slot].(open := false)]);
    EventOnce(w);
    StepKeepsInv(w, Leave(slot));
    AnswerTells(w', slot, 0, Ok);
  }

  /** Operation 4 changes nothing and says whether the slot is open. */
  lemma SnapshotCommand(w: World, command: Command)
    requires Inv(w) && Handle(w, command).host.Waiting? && command[0] == 4
    ensures var slot, h := command[1], Handle(w, command);
            h.host == Waiting(w) && Tells(h.reply, w, slot, 0, if w.players[slot].open then Ok else Closed)
  {
    EventOnce(w);
    AnswerTells(w, command[1], 0, if w.players[command[1]].open then Ok else Closed);
  }

  // ---- Runs of the worker

  function Started(match_: Id, a: Id, b: Id): (h: Host)
    requires CanStart(match_, a, b)
    ensures h.Waiting? && Inv(h.world)
  {
    ReachableKeepsInv(match_, a, b, []);
    Waiting(Initial(match_, a, b))
  }

  function OneMore(h: Host, command: Command): (h': Host)
    requires h.Waiting? ==> Inv(h.world)
    ensures h'.Waiting? ==> Inv(h'.world)
  {
    if h.Waiting? then Handle(h.world, command).host else h
  }

  function RunHost(h: Host, commands: seq<Command>): (h': Host)
    requires h.Waiting? ==> Inv(h.world)
    ensures h'.Waiting? ==> Inv(h'.world)
  {
    if commands == [] then h
    else OneMore(RunHost(h, commands[..|commands| - 1]), commands[|commands| - 1])
  }

  /** The match events of a list of commands: for each, what it does in the world the
      commands before it led to. */
  function EventsOf(w: World, commands: seq<Command>): seq<Event>
    requires Inv(w)
  {
    if commands == [] then []
    else
      var n := |commands| - 1;
      match RunHost(Waiting(w), commands[..n])
      case Exited(_) => EventsOf(w, commands[..n])
      case Waiting(mid) =>
        match EffectOf(mid, commands[n])
        case Quit => EventsOf(w, commands[..n])
        case Effect(events, _, _) => EventsOf(w, commands[..n]) + events
  }

  /** Whatever bytes arrive, a worker that still waits is in the world those events lead
      to: no command can do anything else to the game. */
  lemma {:induction false} HostRunsMatches(w: World, commands: seq<Command>)
    requires Inv(w) && RunHost(Waiting(w), commands).Waiting?
    ensures RunHost(Waiting(w), commands).world == Run(w, EventsOf(w, commands))
  {
    if commands != [] {
      var n := |commands| - 1;
      HostRunsMatches(w, commands[..n]);
      var mid := RunHost(Waiting(w), commands[..n]).world;
      var events, more := EventsOf(w, commands[..n]), EffectOf(mid, commands[n]).events;
      EffectKeepsInv(mid, commands[n]);
      RunSplit(w, events + more, |events|);
      assert (events + more)[..|events|] == events && (events + more)[|events|..] == more;
    }
  }

  /** So in every run of the worker, between any two moments: conservation holds, no
      player outran 100 mm a tick, and no kill took less than twelve ticks. */
  lemma HostLimits(match_: Id, a: Id, b: Id, before: seq<Command>, after: seq<Command>, slot: Slot)
    requires CanStart(match_, a, b)
    requires RunHost(Started(match_, a, b), before).Waiting?
    requires RunHost(RunHost(Started(match_, a, b), before), after).Waiting?
    ensures var w := RunHost(Started(match_, a, b), before).world;
            var w' := RunHost(Waiting(w), after).world;
            && Inv(w) && Inv(w')
            && Distance(w.players[slot], w'.players[slot]) <= STEP * (w'.tick - w.tick + 1)
            && (w.players[slot].health == HEALTH && w'.players[slot].health == 0 ==> w'.tick >= w.tick + 12)
  {
    var w := RunHost(Started(match_, a, b), before).world;
    HostRunsMatches(w, after);
    var events := EventsOf(w, after);
    SpeedLimit(w, events, slot);
    if w.players[slot].health == HEALTH && Run(w, events).players[slot].health == 0 {
      KillTakesTwelveTicks(w, events, slot);
    }
  }

  /** The input a command carries, if it is one. */
  function InputIn(command: Command): Option<Input> {
    if command[0] == 1 then R.DecodeInput(command[2..]) else Option.None
  }

  /** The worker answers this command with ACCEPTED, and it plays for `slot`. */
  predicate AcceptedBy(h: Host, command: Command, slot: Slot)
    requires h.Waiting? ==> Inv(h.world)
  {
    h.Waiting? && command[1] == slot && InputIn(command).Some? && ApplyInput(h.world, slot, InputIn(command).value).0.Ok?
  }

  lemma {:induction false} HostConcat(h: Host, a: seq<Command>, b: seq<Command>)
    requires h.Waiting? ==> Inv(h.world)
    ensures RunHost(h, a + b) == RunHost(RunHost(h, a), b)
    decreases |b|
  {
    if b == [] {
      assert a + b == a;
    } else {
      assert (a + b)[..|a + b| - 1] == a + b[..|b| - 1];
      HostConcat(h, a, b[..|b| - 1]);
    }
  }

  lemma AcceptedPlays(w: World, command: Command, slot: Slot)
    requires Inv(w) && AcceptedBy(Waiting(w), command, slot)
    ensures Handle(w, command).host == Waiting(Next(w, Play(slot, InputIn(command).value)))
  {
    EventOnce(w);
  }

  /** In every run of the worker, whatever else it is sent: of two accepted inputs of a
      player the later has a larger sequence and was applied at a later tick, and two accepted
      shots are four ticks apart. */
  lemma HostInputsApart(h: Host, commands: seq<Command>, i: nat, j: nat, slot: Slot)
    requires (h.Waiting? ==> Inv(h.world)) && i < j < |commands|
    requires AcceptedBy(RunHost(h, commands[..i]), commands[i], slot)
    requires AcceptedBy(RunHost(h, commands[..j]), commands[j], slot)
    ensures var first, second := InputIn(commands[i]).value, InputIn(commands[j]).value;
            var s, t := RunHost(h, commands[..i]).world.tick, RunHost(h, commands[..j]).world.tick;
            && first.sequence < second.sequence && s < t
            && (first.action.Fire? && second.action.Fire? ==> s + FIRE_TICKS <= t)
  {
    var before := RunHost(h, commands[..i]).world;
    AcceptedPlays(before, commands[i], slot);
    RunFrom(h, commands, i, j);
    PacedApart(before, slot, InputIn(commands[i]).value, commands[..j][i + 1..], InputIn(commands[j]).value);
  }

  /** What comes after command `i` starts where that command left the worker. */
  lemma RunFrom(h: Host, commands: seq<Command>, i: nat, j: nat)
    requires (h.Waiting? ==> Inv(h.world)) && i < j <= |commands| && RunHost(h, commands[..i]).Waiting?
    ensures var after := Handle(RunHost(h, commands[..i]).world, commands[i]).host;
            RunHost(h, commands[..j]) == RunHost(after, commands[..j][i + 1..])
  {
    var before, one, rest := commands[..i], [commands[i]], commands[..j][i + 1..];
    assert commands[..j] == (before + one) + rest;
    HostConcat(h, before + one, rest);
    HostConcat(h, before, one);
    assert one[..0] == [];
  }

  lemma PacedApart(before: World, slot: Slot, first: Input, between: seq<Command>, second: Input)
    requires Inv(before) && ApplyInput(before, slot, first).0.Ok? && Inv(Next(before, Play(slot, first)))
    requires RunHost(Waiting(Next(before, Play(slot, first))), between).Waiting?
    requires ApplyInput(RunHost(Waiting(Next(before, Play(slot, first))), between).world, slot, second).0.Ok?
    ensures var last := RunHost(Waiting(Next(before, Play(slot, first))), between).world;
            && first.sequence < second.sequence && before.tick < last.tick
            && (first.action.Fire? && second.action.Fire? ==> before.tick + FIRE_TICKS <= last.tick)
  {
    var after := Next(before, Play(slot, first));
    JustAccepted(before, slot, first);
    HostRunsMatches(after, between);
    var events := EventsOf(after, between);
    RunIsPaced(after, events, slot);
    LaterAction(after, Run(after, events), slot, first, second);
  }

  // ---- The client side of an input

  datatype Intent = East | West | North | South | Shoot | Idle

  /** `command(hello, sequence, action)`: refuses sequences outside 1..2^32-2. */
  function ClientInput(hello: seq<byte>, sequence: nat, intent: Intent): Option<seq<byte>>
    requires |hello| == 80
  {
    if R.State(hello).Raised? || !(0 < sequence < U32_MAX) then Option.None
    else
      var (kind, x, y) := match intent
        case East => (1, 2, 0) case West => (1, 1, 0) case North => (1, 0, 2)
        case South => (1, 0, 1) case Shoot => (2, 0, 0) case Idle => (3, 0, 0);
      Some(R.LGIN + [kind, x, y] + hello[20..52] + Little(sequence, 4) + Zeros(4))
  }

  function InputOf(w: World, slot: Slot, sequence: u32, intent: Intent): Input
    requires w.TwoPlayers()
  {
    Input(w.match_, w.players[slot].session, sequence,
          if intent.Shoot? then Fire else if intent.Idle? then Wait else Move,
          if intent.East? then Pos else if intent.West? then Neg else Axis.None,
          if intent.North? then Pos else if intent.South? then Neg else Axis.None)
  }

  /** The input a client builds from the worker's own record is decoded by the worker as
      that very intent, addressed to that very match and session. */
  lemma ClientInputArrives(w: World, slot: Slot, seen: u32, status: Result, sequence: nat, intent: Intent)
    requires Inv(w) && 0 < sequence < U32_MAX
    ensures R.InRange(R.ViewOf(w, slot, seen, status))
    ensures var built := ClientInput(R.EncodeView(R.ViewOf(w, slot, seen, status)), sequence, intent);
            && built.Some?
            && R.DecodeInput(built.value) == Some(InputOf(w, slot, sequence, intent))
            && Admitted(w, slot, InputOf(w, slot, sequence, intent)) !in {BadInput, WrongMatch, WrongSession}
  {
    var v := R.ViewOf(w, slot, seen, status);
    R.ReplyIsRead(w, slot, seen, status);
    HelloCarriesIds(v);
    BuiltIsEncoded(w, slot, R.EncodeView(v), sequence, intent);
    R.InputRoundTrip(InputOf(w, slot, sequence, intent));
  }

  lemma HelloCarriesIds(v: R.View)
    requires R.InRange(v)
    ensures R.EncodeView(v)[20..52] == v.match_ + v.session
  {
    R.StateParts(R.LGST, [v.result, v.slot, 1], Little(v.tick, 8), Little(v.sequence, 4), v.match_, v.session,
                 R.EncodePlayer(v.first), R.EncodePlayer(v.second), [R.OpenMask(v.first.open, v.second.open), 0, 0, 0]);
    var hello := R.EncodeView(v);
    assert hello[20..52] == hello[20..36] + hello[36..52];
  }

  /** What a worker writes on starting is what its supervisor waits for. */
  lemma GreetingAccepted(match_: Id, a: Id, b: Id)
    requires CanStart(match_, a, b)
    ensures Inv(Initial(match_, a, b)) && HelloAccepted(Greeting(Initial(match_, a, b)))
  {
    ReachableKeepsInv(match_, a, b, []);
    var w := Initial(match_, a, b);
    R.ReplyIsRead(w, 0, 0, Ok);
    R.ReplyIsRead(w, 1, 0, Ok);
    var v0, v1 := R.ViewOf(w, 0, 0, Ok), R.ViewOf(w, 1, 0, Ok);
    HelloCarriesIds(v0);
    HelloCarriesIds(v1);
    GreetingParts(R.EncodeView(v0), R.EncodeView(v1), match_, a, match_, b);
  }

  lemma GreetingParts(x: seq<byte>, y: seq<byte>, m: Id, s: Id, n: Id, t: Id)
    requires |x| == 80 && |y| == 80 && x[20..52] == m + s && y[20..52] == n + t
    ensures (x + y)[..80] == x && (x + y)[80..] == y
    ensures (x + y)[20..36] == m && (x + y)[36..52] == s && (x + y)[100..116] == n && (x + y)[116..132] == t
  {
    assert x[20..36] == x[20..52][..16] && x[36..52] == x[20..52][16..];
    assert y[20..36] == y[20..52][..16] && y[36..52] == y[20..52][16..];
  }

  lemma BuiltIsEncoded(w: World, slot: Slot, hello: seq<byte>, sequence: nat, intent: Intent)
    requires w.TwoPlayers() && |hello| == 80 && 0 < sequence < U32_MAX && R.State(hello).Returned?
    requires hello[20..52] == w.match_ + w.players[slot].session
    ensures ClientInput(hello, sequence, intent) == Some(R.EncodeInput(InputOf(w, slot, sequence, intent)))
  {
    var input := InputOf(w, slot, sequence, intent);
    var key := [R.ActionByte(input.action), R.AxisByte(input.axisX), R.AxisByte(input.axisY)];
    Reassociate(R.LGIN + key, input.match_, input.session);
    assert ClientInput(hello, sequence, intent).Some?;
    match intent
    case East => assert key == [1, 2, 0];
    case West => assert key == [1, 1, 0];
    case North => assert key == [1, 0, 2];
    case South => assert key == [1, 0, 1];
    case Shoot => assert key == [2, 0, 0];
    case Idle => assert key == [3, 0, 0];
  }

  lemma Reassociate(a: seq<byte>, b: seq<byte>, c: seq<byte>)
    ensures a + (b + c) == a + b + c
  {
  }
}
