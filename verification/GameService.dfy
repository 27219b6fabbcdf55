/** scripts/game_service.py: several client tasks share one worker through a pair of
    pipes. Every step a task, the worker or a timeout can take is one transition, so a
    run is any interleaving of them. */
module GameService {
  import opened Options
  import opened Bytes
  import opened Game
  import G = GameHost
  import R = GameRecords

  type Payload = p: seq<byte> | |p| == 48 witness Zeros(48)

  /** The four operations the service ever sends: apply's two, the release of a slot and
      the snapshot. */
  datatype Ask = Input(slot: Slot, payload: Payload) | SetClock(slot: Slot, tick: u64) | CloseSlot(slot: Slot) | Snapshot(slot: Slot)

  function Wire(ask: Ask): (c: G.Command) {
    match ask
    case Input(slot, payload) => [1, slot] + payload
    case SetClock(slot, tick) => [2, slot] + Little(tick, 8) + Zeros(40)
    case CloseSlot(slot) => [3, slot] + Zeros(48)
    case Snapshot(slot) => [4, slot] + Zeros(48)
  }

  /** `id` is ghost bookkeeping: it tells which exchange wrote the command. */
  datatype Sent = Sent(id: nat, ask: Ask)
  datatype Answered = Answered(id: nat, bytes: seq<byte>)
  datatype Delivery = Delivery(sent: Sent, bytes: seq<byte>)

  /** What the worker did with a command: the world it found, where it was then, and its
      reply, if any. */
  datatype Processed = Processed(world: World, ask: Ask, after: G.Host, reply: Option<seq<byte>>)

  datatype Exchange = Idle | Awaiting(sent: Sent)

  /** What a task takes the lock for: apply(slot, payload), snapshot(slot), or the release of
      its slot; `done` counts the exchanges completed under this lock. */
  datatype Job = Apply(slot: Slot, payload: Payload) | Look(slot: Slot) | Leave(slot: Slot)
  datatype Call = Call(task: nat, job: Job, done: nat)

  /** The exchange that comes next; apply reads the clock and then sends its input. */
  function NextAsk(c: Call, clock: u64): Option<Ask> {
    match c.job
    case Apply(slot, payload) =>
      if c.done == 0 then Some(SetClock(slot, clock)) else if c.done == 1 then Some(Ask.Input(slot, payload)) else Option.None
    case Look(slot) => if c.done == 0 then Some(Snapshot(slot)) else Option.None
    case Leave(slot) => if c.done == 0 then Some(CloseSlot(slot)) else Option.None
  }

  /** `holder` owns the asyncio lock; `clock` is the latest tick the loop has read. */
  datatype Service = Service(
    broken: bool, holder: Option<Call>, exchange: Exchange, clock: u64, nextId: nat,
    commands: seq<Sent>, host: G.Host, replies: seq<Answered>,
    processed: map<nat, Processed>, delivered: seq<Delivery>)

  datatype Step =
    | Acquire(task: nat, job: Job) // a task gets the free lock
    | Advance(tick: u64)      // time passes
    | Write                   // the holder starts its next exchange
    | Work                    // the worker takes the next command
    | Read                    // the holder gets the 80 bytes it waits for
    | Fail                    // timeout, cancellation or end of file during an exchange
    | Release                 // the holder leaves the lock
    | Shutdown                // close() marks the service broken

  ghost predicate Enabled(s: Service, step: Step) {
    match step
    case Acquire(_, _) => s.holder.None?
    case Advance(tick) => s.clock <= tick
    case Write => s.holder.Some? && s.exchange.Idle? && !s.broken && NextAsk(s.holder.value, s.clock).Some?
    case Work => s.host.Waiting? && s.commands != []
    case Read => s.exchange.Awaiting? && s.replies != []
    case Fail => s.exchange.Awaiting?
    case Release => s.holder.Some? && s.exchange.Idle?
    case Shutdown => true
  }

  function OneDone(holder: Option<Call>): Option<Call> {
    match holder case Some(c) => Some(c.(done := c.done + 1)) case None => Option.None
  }

  /** Reading a record and checking it: `state`, then the slot of the reply. */
  function Checked(s: Service): (r: Service)
    requires s.exchange.Awaiting? && s.replies != []
  {
    var bytes, value := s.replies[0].bytes, R.State(s.replies[0].bytes);
    var s' := s.(exchange := Idle, replies := s.replies[1..]);
    if value.Raised? || value.value.player != s.exchange.sent.ask.slot then s'.(broken := true)
    else s'.(delivered := s.delivered + [Delivery(s.exchange.sent, bytes)], holder := OneDone(s.holder))
  }

  function Worked(s: Service): (r: Service)
    requires s.host.Waiting? && Inv(s.host.world) && s.commands != []
  {
    var sent := s.commands[0];
    var handled := G.Handle(s.host.world, Wire(sent.ask));
    var replies := match handled.reply case Some(bytes) => [Answered(sent.id, bytes)] case None => [];
    s.(commands := s.commands[1..], host := handled.host, replies := s.replies + replies,
       processed := s.processed[sent.id := Processed(s.host.world, sent.ask, handled.host, handled.reply)])
  }

  ghost function Next(s: Service, step: Step): Service
    requires Enabled(s, step) && (s.host.Waiting? ==> Inv(s.host.world))
  {
    match step
    case Acquire(task, job) => s.(holder := Some(Call(task, job, 0)))
    case Advance(tick) => s.(clock := tick)
    case Write =>
      var sent := Sent(s.nextId, NextAsk(s.holder.value, s.clock).value);
      s.(exchange := Awaiting(sent), commands := s.commands + [sent], nextId := s.nextId + 1)
    case Work => Worked(s)
    case Read => Checked(s)
    case Fail => s.(exchange := Idle, broken := true)
    case Release => s.(holder := Option.None)
    case Shutdown => s.(broken := true)
  }

  /** What sits in the two pipes while an exchange is open: its command not yet taken,
      its reply, or nothing because the worker took it and left. */
  ghost predicate PipesHold(s: Service, sent: Sent) {
    || (s.commands == [sent] && s.replies == [])
    || (s.commands == [] && s.replies == [] && s.host.Exited?)
    || (&& s.commands == [] && |s.replies| == 1 && s.replies[0].id == sent.id
        && ReplyOf(s, sent, s.replies[0].bytes))
  }

  /** `bytes` is what the worker answered to this very command. */
  ghost predicate ReplyOf(s: Service, sent: Sent, bytes: seq<byte>) {
    && sent.id in s.processed && s.processed[sent.id].ask == sent.ask
    && s.processed[sent.id].reply == Some(bytes)
  }

  /** And an answer is the reply of the command loop in the world it then had. */
  ghost predicate Truthful(p: Processed) {
    Inv(p.world) && G.Handled(p.after, p.reply) == G.Handle(p.world, Wire(p.ask))
  }

  ghost predicate PipeInv(s: Service) {
    && (s.host.Waiting? ==> Inv(s.host.world))
    && (s.exchange.Awaiting? ==> s.holder.Some? && s.exchange.sent.id + 1 == s.nextId && PipesHold(s, s.exchange.sent))
    && (s.exchange.Idle? && !s.broken ==> s.commands == [] && s.replies == [])
    && |s.commands| <= 1
    && (s.commands != [] ==> s.commands[0].id < s.nextId && s.commands[0].id !in s.processed)
    && (forall id :: id in s.processed ==> id < s.nextId)
  }

  ghost predicate DeliveredInv(s: Service) {
    && (forall i :: 0 <= i < |s.delivered| ==> ReplyOf(s, s.delivered[i].sent, s.delivered[i].bytes))
    && (forall i :: 0 <= i < |s.delivered| ==>
          s.delivered[i].sent.id < s.nextId - if s.exchange.Awaiting? then 1 else 0)
    && (forall i, j :: 0 <= i < j < |s.delivered| ==> s.delivered[i].sent.id < s.delivered[j].sent.id)
  }

  ghost predicate ServiceInv(s: Service) {
    PipeInv(s) && DeliveredInv(s) && forall id :: id in s.processed ==> Truthful(s.processed[id])
  }

  ghost predicate Start(s: Service) {
    && !s.broken && s.holder.None? && s.exchange.Idle? && s.clock == 0
    && s.commands == [] && s.replies == [] && s.processed == map[] && s.delivered == []
    && s.host.Waiting? && Inv(s.host.world) && s.host.world.tick == 0
  }

  ghost predicate StepAt(states: seq<Service>, steps: seq<Step>, i: nat)
    requires i < |steps| && i + 1 < |states|
  {
    && Enabled(states[i], steps[i]) && (states[i].host.Waiting? ==> Inv(states[i].host.world))
    && states[i + 1] == Next(states[i], steps[i])
  }

  /** Consecutive states of one run; each step was possible where it was taken. */
  ghost predicate IsRun(states: seq<Service>, steps: seq<Step>) {
    && |states| == |steps| + 1 && Start(states[0])
    && forall i :: 0 <= i < |steps| ==> StepAt(states, steps, i)
  }

  ghost predicate Remembers(s: Service, s': Service) {
    forall id :: id in s.processed ==> id in s'.processed && s'.processed[id] == s.processed[id]
  }

  lemma WorkKeepsPipes(s: Service)
    requires PipeInv(s) && Enabled(s, Work)
    ensures PipeInv(Worked(s)) && Remembers(s, Worked(s))
  {
    var sent, s' := s.commands[0], Worked(s);
    var handled := G.Handle(s.host.world, Wire(sent.ask));
    if s.exchange.Awaiting? && handled.reply.Some? {
      assert s'.replies == [Answered(sent.id, handled.reply.value)];
      assert ReplyOf(s', sent, handled.reply.value);
    }
  }

  lemma StepKeepsPipes(s: Service, step: Step)
    requires PipeInv(s) && Enabled(s, step)
    ensures PipeInv(Next(s, step)) && Remembers(s, Next(s, step))
  {
    if step.Work? {
      WorkKeepsPipes(s);
    }
  }

  lemma ReplyKept(s: Service, s': Service, sent: Sent, bytes: seq<byte>)
    requires Remembers(s, s') && ReplyOf(s, sent, bytes)
    ensures ReplyOf(s', sent, bytes)
  {
  }

  /** Nothing new is handed out, and the open exchange is not older than before. */
  lemma UntouchedKeepsDelivered(s: Service, s': Service)
    requires DeliveredInv(s) && Remembers(s, s') && s'.delivered == s.delivered
    requires s.nextId - (if s.exchange.Awaiting? then 1 else 0) <= s'.nextId - if s'.exchange.Awaiting? then 1 else 0
    ensures DeliveredInv(s')
  {
    forall i | 0 <= i < |s.delivered| ensures ReplyOf(s', s.delivered[i].sent, s.delivered[i].bytes) {
      ReplyKept(s, s', s.delivered[i].sent, s.delivered[i].bytes);
    }
  }

  lemma HandedOutKeepsDelivered(s: Service, s': Service, bytes: seq<byte>)
    requires DeliveredInv(s) && s.exchange.Awaiting? && s.exchange.sent.id + 1 == s.nextId == s'.nextId
    requires s'.processed == s.processed && s'.exchange.Idle?
    requires s'.delivered == s.delivered + [Delivery(s.exchange.sent, bytes)] && ReplyOf(s, s.exchange.sent, bytes)
    ensures DeliveredInv(s')
  {
    forall i | 0 <= i < |s'.delivered| ensures ReplyOf(s', s'.delivered[i].sent, s'.delivered[i].bytes) {
      ReplyKept(s, s', s'.delivered[i].sent, s'.delivered[i].bytes);
    }
  }

  lemma StepKeepsDelivered(s: Service, step: Step)
    requires PipeInv(s) && DeliveredInv(s) && Enabled(s, step) && Remembers(s, Next(s, step))
    ensures DeliveredInv(Next(s, step))
  {
    var s' := Next(s, step);
    if step.Read? && s'.delivered != s.delivered {
      HandedOutKeepsDelivered(s, s', s.replies[0].bytes);
    } else {
      UntouchedKeepsDelivered(s, s');
    }
  }

  lemma WorkIsTruthful(s: Service)
    requires Enabled(s, Work) && Inv(s.host.world)
    requires forall id :: id in s.processed ==> Truthful(s.processed[id])
    ensures forall id :: id in Worked(s).processed ==> Truthful(Worked(s).processed[id])
  {
    var handled := G.Handle(s.host.world, Wire(s.commands[0].ask));
    var p := Processed(s.host.world, s.commands[0].ask, handled.host, handled.reply);
    assert Truthful(p) && Worked(s).processed == s.processed[s.commands[0].id := p];
  }

  lemma StepKeepsInv(s: Service, step: Step)
    requires ServiceInv(s) && Enabled(s, step)
    ensures ServiceInv(Next(s, step))
  {
    StepKeepsPipes(s, step);
    StepKeepsDelivered(s, step);
    if step.Work? {
      WorkIsTruthful(s);
    }
  }

  lemma {:induction false} RunKeepsInv(states: seq<Service>, steps: seq<Step>, k: nat)
    requires IsRun(states, steps) && k < |states|
    ensures ServiceInv(states[k])
  {
    if k > 0 {
      assert StepAt(states, steps, k - 1);
      RunKeepsInv(states, steps, k - 1);
      StepKeepsInv(states[k - 1], steps[k - 1]);
    }
  }

  /** Reply association: in every interleaving, each record handed to a task is the
      worker's own reply to the very command of that exchange, and no reply is handed
      out twice; an unbroken service with a free lock has empty pipes. */
  lemma RepliesAssociated(states: seq<Service>, steps: seq<Step>, k: nat)
    requires IsRun(states, steps) && k < |states|
    ensures forall i :: 0 <= i < |states[k].delivered| ==>
              var d := states[k].delivered[i];
              ReplyOf(states[k], d.sent, d.bytes) && Truthful(states[k].processed[d.sent.id])
    ensures forall i, j :: 0 <= i < j < |states[k].delivered| ==>
              states[k].delivered[i].sent.id != states[k].delivered[j].sent.id
    ensures !states[k].broken && states[k].holder.None? ==> states[k].commands == [] && states[k].replies == []
  {
    RunKeepsInv(states, steps, k);
  }

  /** One failed exchange ends them all: once broken with no exchange open, no record is
      ever handed out again. */
  lemma {:induction false} BrokenIsFinal(states: seq<Service>, steps: seq<Step>, i: nat, k: nat)
    requires IsRun(states, steps) && i <= k < |states| && states[i].broken && states[i].exchange.Idle?
    ensures states[k].broken && states[k].exchange.Idle? && states[k].delivered == states[i].delivered
  {
    if i < k {
      assert StepAt(states, steps, k - 1);
      BrokenIsFinal(states, steps, i, k - 1);
    }
  }

  // ---- An input and its tick

  /** Exchange `id` set the clock for `slot`, and the worker has done nothing since. */
  ghost predicate JustSet(s: Service, id: nat, slot: Slot) {
    && id in s.processed && s.processed[id].ask.SetClock? && s.processed[id].ask.slot == slot
    && s.host == s.processed[id].after
  }

  /** The worker took up exchange `id` in the very world the one before it left, and that one
      set the clock for the same slot. */
  ghost predicate Timed(processed: map<nat, Processed>, id: nat)
    requires id in processed
  {
    && id >= 1 && id - 1 in processed
    && processed[id - 1].ask.SetClock? && processed[id - 1].ask.slot == processed[id].ask.slot
    && processed[id - 1].after == G.Waiting(processed[id].world)
  }

  /** The open exchange is the one its job has come to. */
  predicate Current(c: Call, ask: Ask) {
    c.job.Apply? ==>
      (c.done == 0 && ask.SetClock? && ask.slot == c.job.slot) || (c.done == 1 && ask == Ask.Input(c.job.slot, c.job.payload))
  }

  ghost predicate TimedInv(s: Service) {
    && (forall id :: id in s.processed && s.processed[id].ask.Input? ==> Timed(s.processed, id))
    && (s.commands != [] && s.commands[0].ask.Input? ==>
          s.commands[0].id >= 1 && JustSet(s, s.commands[0].id - 1, s.commands[0].ask.slot))
    && (s.exchange.Awaiting? ==>
          && s.holder.Some? && Current(s.holder.value, s.exchange.sent.ask)
          && (s.exchange.sent.ask.SetClock? && s.replies != [] ==> JustSet(s, s.exchange.sent.id, s.exchange.sent.ask.slot)))
    && (s.exchange.Idle? && !s.broken && s.holder.Some? && s.holder.value.job.Apply? && s.holder.value.done == 1 ==>
          s.nextId >= 1 && JustSet(s, s.nextId - 1, s.holder.value.job.slot))
  }

  /** One command taken up, whatever the worker makes of it. */
  lemma TakenKeepsTimed(s: Service, s': Service, sent: Sent, p: Processed)
    requires TimedInv(s) && s.commands == [sent] && s.host.Waiting? && sent.id !in s.processed
    requires s.exchange.Awaiting? || s.broken
    requires s.exchange.Awaiting? ==> s.exchange.sent == sent && s.replies == []
    requires p.world == s.host.world && p.ask == sent.ask && p.after == s'.host
    requires s' == s.(commands := [], host := s'.host, replies := s'.replies, processed := s.processed[sent.id := p])
    ensures TimedInv(s')
  {
    forall id | id in s'.processed && s'.processed[id].ask.Input? ensures Timed(s'.processed, id) {
      if id != sent.id {
        assert Timed(s.processed, id);
      }
    }
  }

  lemma WorkKeepsTimed(s: Service)
    requires PipeInv(s) && TimedInv(s) && Enabled(s, Work)
    ensures TimedInv(Worked(s))
  {
    var sent := s.commands[0];
    var handled := G.Handle(s.host.world, Wire(sent.ask));
    assert s.commands[1..] == [];
    TakenKeepsTimed(s, Worked(s), sent, Processed(s.host.world, sent.ask, handled.host, handled.reply));
  }

  lemma WriteKeepsTimed(s: Service)
    requires PipeInv(s) && TimedInv(s) && Enabled(s, Write)
    ensures TimedInv(Next(s, Write))
  {
    var s' := Next(s, Write);
    assert s'.commands == [Sent(s.nextId, NextAsk(s.holder.value, s.clock).value)];
  }

  lemma ReadKeepsTimed(s: Service)
    requires PipeInv(s) && TimedInv(s) && Enabled(s, Read)
    ensures TimedInv(Checked(s))
  {
  }

  lemma StepKeepsTimed(s: Service, step: Step)
    requires PipeInv(s) && TimedInv(s) && Enabled(s, step)
    ensures TimedInv(Next(s, step))
  {
    match step
    case Work => WorkKeepsTimed(s);
    case Write => WriteKeepsTimed(s);
    case Read => ReadKeepsTimed(s);
    case _ =>
  }

  lemma {:induction false} RunKeepsTimed(states: seq<Service>, steps: seq<Step>, k: nat)
    requires IsRun(states, steps) && k < |states|
    ensures TimedInv(states[k])
  {
    if k > 0 {
      assert StepAt(states, steps, k - 1);
      RunKeepsInv(states, steps, k - 1);
      RunKeepsTimed(states, steps, k - 1);
      StepKeepsTimed(states[k - 1], steps[k - 1]);
    }
  }

  lemma SetClockSets(w: World, slot: Slot, tick: u64)
    requires Inv(w) && G.Handle(w, Wire(SetClock(slot, tick))).host.Waiting?
    ensures G.Handle(w, Wire(SetClock(slot, tick))).host.world == w.(tick := tick) && w.tick <= tick
  {
    ClockParts(slot, tick);
    G.EventOnce(w);
  }

  /** apply is one unit, whatever other tasks do: an input the worker takes up comes directly
      after the clock reading of the same apply, in the world that reading left, so it is
      played at that very tick. */
  lemma AppliedOnTime(states: seq<Service>, steps: seq<Step>, k: nat, id: nat)
    requires IsRun(states, steps) && k < |states| && id in states[k].processed && states[k].processed[id].ask.Input?
    ensures id >= 1 && id - 1 in states[k].processed
    ensures var clock, input := states[k].processed[id - 1], states[k].processed[id];
            && clock.ask.SetClock? && clock.ask.slot == input.ask.slot
            && clock.world.tick <= clock.ask.tick && input.world == clock.world.(tick := clock.ask.tick)
  {
    RunKeepsTimed(states, steps, k);
    RunKeepsInv(states, steps, k);
    var clock := states[k].processed[id - 1];
    SetClockSets(clock.world, clock.ask.slot, clock.ask.tick);
  }

  // ---- The service never breaks itself

  lemma WireParts(op: byte, slot: byte, payload: seq<byte>)
    ensures ([op, slot] + payload)[0] == op && ([op, slot] + payload)[1] == slot
    ensures ([op, slot] + payload)[2..] == payload
  {
  }

  lemma ClockParts(slot: byte, tick: u64)
    ensures var c := [2, slot] + Little(tick, 8) + Zeros(40);
            c[0] == 2 && c[1] == slot && FromLittle(c[2..10]) == tick && !NonZero(c[10..])
  {
    PowValues();
    LittleRoundTrip(tick, 8);
    var c := [2, slot] + Little(tick, 8) + Zeros(40);
    assert c[2..10] == Little(tick, 8) && c[10..] == Zeros(40);
  }

  lemma WireUnderstood(w: World, ask: Ask)
    requires Inv(w) && (ask.SetClock? ==> w.tick <= ask.tick)
    ensures var effect := G.EffectOf(w, Wire(ask));
            effect.Effect? && Wire(ask)[1] == ask.slot &&
            forall e :: e in effect.events ==> Game.Next(w, e).tick == if ask.SetClock? then ask.tick else w.tick
    ensures ask.SetClock? ==> |G.EffectOf(w, Wire(ask)).events| == 1
  {
    if ask.SetClock? {
      ClockParts(ask.slot, ask.tick);
    } else {
      WireParts(Wire(ask)[0], ask.slot, if ask.Input? then ask.payload else Zeros(48));
    }
  }

  /** The worker answers every command the service sends, for the slot it asks about,
      unless the clock it is given is behind its own. */
  lemma WireAnswered(w: World, ask: Ask)
    requires Inv(w) && (ask.SetClock? ==> w.tick <= ask.tick)
    ensures var handled := G.Handle(w, Wire(ask));
            && handled.host.Waiting? && handled.reply.Some?
            && R.State(handled.reply.value).Returned? && R.State(handled.reply.value).value.player == ask.slot
            && handled.host.world.tick == if ask.SetClock? then ask.tick else w.tick
  {
    var command := Wire(ask);
    WireUnderstood(w, ask);
    var effect := G.EffectOf(w, command);
    G.EffectKeepsInv(w, command);
    G.EventOnce(w);
    var w' := Game.Run(w, effect.events);
    R.ReplyIsRead(w', ask.slot, effect.sequence, effect.status);
  }

  /** What each job makes the worker do, command by command: apply sets the clock and then
      plays the client's own 48 bytes, snapshot changes nothing, the release of a slot closes
      that slot. */
  lemma JobDoes(w: World, c: Call, clock: u64)
    requires Inv(w) && w.tick <= clock
    ensures NextAsk(c, clock).None? <==> c.done >= if c.job.Apply? then 2 else 1
    ensures NextAsk(c, clock).Some? ==>
              var slot, command := c.job.slot, Wire(NextAsk(c, clock).value);
              var after := G.Handle(w, command).host;
              && command[1] == slot
              && (c.job.Look? ==> after == G.Waiting(w))
              && (c.job.Leave? ==> after == G.Waiting(w.(players := w.players[slot := w.players[slot].(open := false)])))
              && (c.job.Apply? && c.done == 0 ==> after == G.Waiting(w.(tick := clock)))
              && (c.job.Apply? && c.done == 1 ==>
                    after == G.Waiting(match R.DecodeInput(c.job.payload)
                                       case None => w case Some(input) => ApplyInput(w, slot, input).1))
  {
    if NextAsk(c, clock).Some? {
      var ask := NextAsk(c, clock).value;
      var command := Wire(ask);
      WireAnswered(w, ask);
      match c.job
      case Look(slot) =>
        WireParts(4, slot, Zeros(48));
        G.SnapshotCommand(w, command);
      case Leave(slot) =>
        WireParts(3, slot, Zeros(48));
        G.CloseCommand(w, command);
      case Apply(slot, payload) =>
        if c.done == 0 {
          ClockParts(slot, clock);
          G.ClockCommand(w, command);
        } else {
          WireParts(1, slot, payload);
          G.InputCommand(w, command);
        }
    }
  }

  ghost predicate Healthy(s: Service) {
    && PipeInv(s) && !s.broken && s.host.Waiting? && s.host.world.tick <= s.clock
    && (s.commands != [] && s.commands[0].ask.SetClock? ==> s.host.world.tick <= s.commands[0].ask.tick <= s.clock)
    && (s.replies != [] && s.exchange.Awaiting? ==>
          && R.State(s.replies[0].bytes).Returned?
          && R.State(s.replies[0].bytes).value.player == s.exchange.sent.ask.slot)
  }

  lemma StepKeepsHealth(s: Service, step: Step)
    requires Healthy(s) && Enabled(s, step) && !step.Fail? && !step.Shutdown?
    ensures Healthy(Next(s, step))
  {
    StepKeepsPipes(s, step);
    if step.Work? {
      WireAnswered(s.host.world, s.commands[0].ask);
    }
  }

  /** Only a timeout, a cancellation or close() breaks the service: in any interleaving
      without them the worker keeps answering and every record read is handed out. */
  lemma {:induction false} NeverBreaksItself(states: seq<Service>, steps: seq<Step>, k: nat)
    requires IsRun(states, steps) && k < |states| && Fail !in steps && Shutdown !in steps
    ensures Healthy(states[k])
  {
    if k > 0 {
      assert StepAt(states, steps, k - 1);
      NeverBreaksItself(states, steps, k - 1);
      assert steps[k - 1] in steps;
      StepKeepsHealth(states[k - 1], steps[k - 1]);
    }
  }
}
