/** scripts/arena_gateway.py, server role: how handshake tasks, channels and retired
    endpoints are counted. A state is what another task can observe at an await point;
    each step is the code between two awaits. */
module ArenaGateway {

  const MAX_PENDING: nat := 4
  const MAX_CHANNELS: nat := 8
  const MAX_ROUTES: nat := 256
  const MAX_ID: nat := 2147483647

  type Task = nat
  type ChannelId = nat

  /** Where a serve_socket task waits. */
  datatype Phase =
    | Spawned                      // created, its first step not run yet
    | Handshaking                  // TLS
    | Opening(channel: ChannelId)  // OPEN sent, OPEN_ACK awaited
    | Advertised(channel: ChannelId)
    | Forwarding(channel: ChannelId)

  /** `request` is the id of the ROUTE_OPEN (0 before it), `acks` counts the ROUTE_ACKs
      acknowledged (the event is set when it is 1). */
  datatype Channel = Channel(request: nat, acks: nat, closed: bool)

  /** `listening` and `obeying`: the tasks listen and commands still run. `stopping` is set
      by close(). */
  datatype Gateway = Gateway(
    pending: int, tasks: map<Task, Phase>, channels: map<ChannelId, Channel>,
    retired: seq<ChannelId>, retiredIds: set<ChannelId>, sent: nat,
    listening: bool, obeying: bool, stopping: bool)

  const START: Gateway := Gateway(0, map[], map[], [], {}, 0, true, true, false)

  datatype Step =
    | Accept(task: Task)                       // listen: a connection, taken or dropped
    | Begin(task: Task)                        // the spawned task runs its first step
    | Admit(task: Task, id: ChannelId)         // handshake done; id drawn at random
    | Opened(task: Task)                       // OPEN_ACK matched: ROUTE_OPEN emitted
    | RouteAck(id: ChannelId, request: nat)    // command from the game
    | RouteClose(id: ChannelId)
    | Enter(task: Task)                        // advertise returns, forward begins
    | Forward(task: Task)                      // one datagram passes
    | Emit                                     // another message took the next request id
    | End(task: Task)                          // the task fails, is closed or cancelled
    | StopListening                            // listen fails or is cancelled
    | Close                                    // Gateway.close() up to its first await
    | CancelUnstarted(task: Task)              // close() cancelled it before its first step

  predicate HasChannel(phase: Phase) {
    phase.Opening? || phase.Advertised? || phase.Forwarding?
  }

  predicate PastAck(phase: Phase) {
    phase.Forwarding?
  }

  /** The check of listen before a handshake is allowed. */
  predicate CanAccept(g: Gateway) {
    g.pending < MAX_PENDING && |g.channels| < MAX_CHANNELS && |g.channels| + |g.retired| < MAX_ROUTES
  }

  /** close() is only called once listen is over. */
  ghost predicate Enabled(g: Gateway, step: Step) {
    match step
    case Accept(task) => g.listening && task !in g.tasks
    case Begin(task) => task in g.tasks && g.tasks[task].Spawned? && !g.stopping
    case Admit(task, _) => task in g.tasks && g.tasks[task].Handshaking?
    case Opened(task) => task in g.tasks && g.tasks[task].Opening? && g.tasks[task].channel in g.channels && g.sent < MAX_ID
    case RouteAck(_, _) => g.obeying
    case RouteClose(_) => g.obeying
    case Enter(task) =>
      && task in g.tasks && g.tasks[task].Advertised? && g.tasks[task].channel in g.channels
      && g.channels[g.tasks[task].channel].acks > 0 && !g.channels[g.tasks[task].channel].closed
    case Forward(task) => task in g.tasks && g.tasks[task].Forwarding?
    case Emit => g.sent < MAX_ID
    case End(task) => task in g.tasks && !g.tasks[task].Spawned?
    case StopListening => g.listening
    case Close => !g.listening && !g.stopping
    case CancelUnstarted(task) => g.stopping && task in g.tasks && g.tasks[task].Spawned?
  }

  /** retire: the channel leaves the table; its endpoint and id stay reserved. A ROUTE_CLOSE
      takes a request id unless the gateway is stopping or the ids are used up. */
  function Retire(g: Gateway, id: ChannelId): Gateway
    requires id in g.channels
  {
    g.(channels := g.channels - {id}, retired := g.retired + [id], retiredIds := g.retiredIds + {id},
       sent := if g.stopping || g.sent >= MAX_ID then g.sent else g.sent + 1)
  }

  /** The outer finally of serve_socket. A forwarding task has added itself back first. */
  function Ended(g: Gateway, task: Task): Gateway
    requires task in g.tasks
  {
    var phase := g.tasks[task];
    var g := if phase.Forwarding? then g.(pending := g.pending + 1) else g;
    var g := g.(pending := g.pending - 1, tasks := g.tasks - {task});
    if HasChannel(phase) && phase.channel in g.channels
    then Retire(g, phase.channel) else g
  }

  /** Channel.acknowledge: what it accepts. */
  predicate Acknowledges(c: Channel, request: nat) {
    1 <= request <= MAX_ID && request == c.request && c.acks == 0 && !c.closed
  }

  function CloseAll(channels: map<ChannelId, Channel>): map<ChannelId, Channel> {
    map id | id in channels :: channels[id].(closed := true)
  }

  /** A channel opens under a new id. */
  function WithChannel(g: Gateway, task: Task, id: ChannelId): Gateway {
    g.(channels := g.channels[id := Channel(0, 0, false)], tasks := g.tasks[task := Opening(id)])
  }

  predicate Full(g: Gateway) {
    |g.channels| >= MAX_CHANNELS || |g.channels| + |g.retired| >= MAX_ROUTES
  }

  /** A refused command ends the task that reads commands, and nothing else at once. */
  function Next(g: Gateway, step: Step): Gateway
    requires Enabled(g, step)
  {
    match step
    case Accept(task) =>
      if CanAccept(g) then g.(pending := g.pending + 1, tasks := g.tasks[task := Spawned]) else g
    case Begin(task) => g.(tasks := g.tasks[task := Handshaking])
    case Admit(task, id) =>
      if Full(g) || id in g.channels || id in g.retiredIds then Ended(g, task) else WithChannel(g, task, id)
    case Opened(task) =>
      var id := g.tasks[task].channel;
      g.(sent := g.sent + 1, channels := g.channels[id := g.channels[id].(request := g.sent + 1)],
         tasks := g.tasks[task := Advertised(id)])
    case RouteAck(id, request) =>
      if id !in g.channels || !Acknowledges(g.channels[id], request) then g.(obeying := false)
      else g.(channels := g.channels[id := g.channels[id].(acks := g.channels[id].acks + 1)])
    case RouteClose(id) =>
      if id in g.channels then g.(channels := g.channels[id := g.channels[id].(closed := true)])
      else if id in g.retiredIds then g else g.(obeying := false)
    case Enter(task) =>
      g.(pending := g.pending - 1, tasks := g.tasks[task := Forwarding(g.tasks[task].channel)])
    case Forward(_) => g
    case Emit => g.(sent := g.sent + 1)
    case End(task) => Ended(g, task)
    case StopListening => g.(listening := false)
    case Close => g.(stopping := true, channels := CloseAll(g.channels))
    case CancelUnstarted(task) => g.(tasks := g.tasks - {task})
  }

  /** Consecutive states of one run. */
  datatype Run = Run(states: seq<Gateway>, steps: seq<Step>) {
    ghost predicate StepAt(i: nat)
      requires i < |steps| && i + 1 < |states|
    {
      Enabled(states[i], steps[i]) && states[i + 1] == Next(states[i], steps[i])
    }

    ghost predicate Valid() {
      && |states| == |steps| + 1 && states[0] == START
      && forall i :: 0 <= i < |steps| ==> StepAt(i)
    }
  }

  // ---- What is counted

  /** The handshakes: tasks not past their route acknowledgement. */
  function Handshakes(tasks: map<Task, Phase>): set<Task> {
    set t | t in tasks && !PastAck(tasks[t])
  }

  /** How far the counter is above the handshakes. */
  function Debt(g: Gateway): int {
    g.pending - |Handshakes(g.tasks)|
  }

  ghost predicate Exact(g: Gateway) {
    g.pending == |Handshakes(g.tasks)|
  }

  ghost predicate Unstarted(g: Gateway) {
    exists t :: t in g.tasks && g.tasks[t].Spawned?
  }

  ghost predicate Sizes(g: Gateway) {
    && g.pending <= MAX_PENDING
    && |g.channels| <= MAX_CHANNELS && |g.channels| + |g.retired| <= MAX_ROUTES
    && (g.stopping ==> !g.listening) && g.sent <= MAX_ID
  }

  ghost predicate ChannelInv(c: Channel, sent: nat) {
    && c.request <= sent && c.acks <= 1
    && (c.acks == 1 ==> c.request >= 1)
  }

  ghost predicate Ids(g: Gateway) {
    && g.retiredIds == (set id | id in g.retired)
    && (forall id :: id in g.channels ==> id !in g.retiredIds && ChannelInv(g.channels[id], g.sent))
    && (forall i, j :: 0 <= i < j < |g.retired| ==> g.retired[i] != g.retired[j])
  }

  ghost predicate TaskInv(channels: map<ChannelId, Channel>, phase: Phase) {
    HasChannel(phase) ==>
      && phase.channel in channels
      && (phase.Opening? ==> channels[phase.channel].request == 0)
      && (phase.Forwarding? ==> channels[phase.channel].acks == 1)
  }

  ghost predicate Apart(p: Phase, q: Phase) {
    HasChannel(p) && HasChannel(q) ==> p.channel != q.channel
  }

  ghost predicate Owned(g: Gateway) {
    && (forall t :: t in g.tasks ==> TaskInv(g.channels, g.tasks[t]))
    && (forall t, u :: t in g.tasks && u in g.tasks && t != u ==> Apart(g.tasks[t], g.tasks[u]))
  }

  ghost predicate Inv(g: Gateway) {
    Sizes(g) && Ids(g) && Owned(g) && Debt(g) >= 0 && (!g.stopping ==> Debt(g) == 0)
  }

  lemma HandshakeAdded(tasks: map<Task, Phase>, task: Task, phase: Phase)
    requires task !in tasks && !PastAck(phase)
    ensures |Handshakes(tasks[task := phase])| == |Handshakes(tasks)| + 1
  {
    assert Handshakes(tasks[task := phase]) == Handshakes(tasks) + {task};
  }

  lemma HandshakeKept(tasks: map<Task, Phase>, task: Task, phase: Phase)
    requires task in tasks && PastAck(tasks[task]) == PastAck(phase)
    ensures Handshakes(tasks[task := phase]) == Handshakes(tasks)
  {
  }

  lemma HandshakePassed(tasks: map<Task, Phase>, task: Task, phase: Phase)
    requires task in tasks && !PastAck(tasks[task]) && PastAck(phase)
    ensures |Handshakes(tasks[task := phase])| == |Handshakes(tasks)| - 1
  {
    assert Handshakes(tasks[task := phase]) == Handshakes(tasks) - {task};
  }

  lemma HandshakeGone(tasks: map<Task, Phase>, task: Task)
    requires task in tasks
    ensures |Handshakes(tasks - {task})| == |Handshakes(tasks)| - if PastAck(tasks[task]) then 0 else 1
  {
    assert Handshakes(tasks - {task}) == Handshakes(tasks) - {task};
  }

  /** The task is gone and, unless it was forwarding, so is its place among the pending. */
  function Left(g: Gateway, task: Task): Gateway
    requires task in g.tasks
  {
    g.(pending := g.pending - (if PastAck(g.tasks[task]) then 0 else 1), tasks := g.tasks - {task})
  }

  lemma EndedIs(g: Gateway, task: Task)
    requires Owned(g) && task in g.tasks
    ensures HasChannel(g.tasks[task]) ==> g.tasks[task].channel in g.channels
    ensures Ended(g, task) ==
            if HasChannel(g.tasks[task]) then Retire(Left(g, task), g.tasks[task].channel) else Left(g, task)
  {
    assert TaskInv(g.channels, g.tasks[task]);
  }

  /** Every step keeps the counter as far from the handshakes as it was, but for one: a task
      cancelled before its first step never runs the finally that gives its place back. */
  lemma DebtStep(g: Gateway, step: Step)
    requires Owned(g) && Enabled(g, step)
    ensures Debt(Next(g, step)) == Debt(g) + if step.CancelUnstarted? then 1 else 0
  {
    match step
    case Accept(task) => HandshakeAdded(g.tasks, task, Spawned);
    case Begin(task) => HandshakeKept(g.tasks, task, Handshaking);
    case Admit(task, id) =>
      EndedIs(g, task);
      HandshakeGone(g.tasks, task);
      HandshakeKept(g.tasks, task, Opening(id));
    case Opened(task) => HandshakeKept(g.tasks, task, Advertised(g.tasks[task].channel));
    case Enter(task) => HandshakePassed(g.tasks, task, Forwarding(g.tasks[task].channel));
    case End(task) =>
      EndedIs(g, task);
      HandshakeGone(g.tasks, task);
    case CancelUnstarted(task) => HandshakeGone(g.tasks, task);
    case _ =>
  }

  // ---- Keeping the invariant

  lemma RetireSizes(g: Gateway, id: ChannelId)
    requires id in g.channels
    ensures |Retire(g, id).channels| == |g.channels| - 1
    ensures |Retire(g, id).retired| == |g.retired| + 1
  {
    assert (g.channels - {id}).Keys == g.channels.Keys - {id};
    assert |g.channels| == |g.channels.Keys| && |g.channels - {id}| == |(g.channels - {id}).Keys|;
  }

  /** A change to one task's phase and to that task's channel keeps ownership. */
  lemma OwnedUpdate(g: Gateway, task: Task, phase: Phase, channels: map<ChannelId, Channel>)
    requires Owned(g) && (task in g.tasks ==> HasChannel(g.tasks[task]) ==> HasChannel(phase) && phase.channel == g.tasks[task].channel)
    requires HasChannel(phase) && (task !in g.tasks || !HasChannel(g.tasks[task])) ==> phase.channel !in g.channels
    requires TaskInv(channels, phase)
    requires forall id :: id in g.channels && (HasChannel(phase) ==> id != phase.channel) ==> id in channels && channels[id] == g.channels[id]
    ensures Owned(g.(tasks := g.tasks[task := phase], channels := channels))
  {
    var g' := g.(tasks := g.tasks[task := phase], channels := channels);
    forall t | t in g'.tasks ensures TaskInv(channels, g'.tasks[t]) {
      if t != task {
        assert TaskInv(g.channels, g.tasks[t]);
        assert task in g.tasks ==> Apart(g.tasks[t], g.tasks[task]);
      }
    }
    forall t, u | t in g'.tasks && u in g'.tasks && t != u ensures Apart(g'.tasks[t], g'.tasks[u]) {
      assert t in g.tasks ==> TaskInv(g.channels, g.tasks[t]);
      assert u in g.tasks ==> TaskInv(g.channels, g.tasks[u]);
      assert t in g.tasks && u in g.tasks ==> Apart(g.tasks[t], g.tasks[u]);
    }
  }

  /** A change inside one channel that undoes neither its request nor its ack. */
  lemma OwnedChannel(g: Gateway, id: ChannelId, c: Channel)
    requires Owned(g) && id in g.channels
    requires c.request == g.channels[id].request && (g.channels[id].acks == 1 ==> c.acks == 1)
    ensures Owned(g.(channels := g.channels[id := c]))
  {
    forall t | t in g.tasks ensures TaskInv(g.channels[id := c], g.tasks[t]) {
      assert TaskInv(g.channels, g.tasks[t]);
    }
  }

  /** A task leaves; its channel, if it had one, is nobody's. */
  lemma OwnedGone(g: Gateway, task: Task)
    requires Owned(g) && task in g.tasks
    ensures Owned(g.(tasks := g.tasks - {task}))
    ensures HasChannel(g.tasks[task]) ==> Unused(g.tasks - {task}, g.tasks[task].channel)
  {
    forall t | t in g.tasks - {task} ensures Apart(g.tasks[t], g.tasks[task]) {
    }
  }

  ghost predicate Unused(tasks: map<Task, Phase>, id: ChannelId) {
    forall t :: t in tasks && HasChannel(tasks[t]) ==> tasks[t].channel != id
  }

  lemma RetireKeeps(g: Gateway, id: ChannelId)
    requires Sizes(g) && Ids(g) && Owned(g) && id in g.channels && Unused(g.tasks, id)
    ensures Sizes(Retire(g, id)) && Ids(Retire(g, id)) && Owned(Retire(g, id))
  {
    var g' := Retire(g, id);
    RetireSizes(g, id);
    assert g'.retiredIds == (set x | x in g'.retired);
    assert id !in g.retired;
    forall t | t in g.tasks ensures TaskInv(g'.channels, g.tasks[t]) {
      assert TaskInv(g.channels, g.tasks[t]);
    }
  }

  lemma EndKeeps(g: Gateway, task: Task)
    requires Sizes(g) && Ids(g) && Owned(g) && task in g.tasks
    ensures Sizes(Ended(g, task)) && Ids(Ended(g, task)) && Owned(Ended(g, task))
  {
    EndedIs(g, task);
    OwnedGone(g, task);
    if HasChannel(g.tasks[task]) {
      RetireKeeps(Left(g, task), g.tasks[task].channel);
    }
  }

  lemma NewKey(channels: map<ChannelId, Channel>, id: ChannelId, c: Channel)
    requires id !in channels
    ensures channels[id := c].Keys == channels.Keys + {id} && |channels[id := c]| == |channels| + 1
  {
    assert channels[id := c].Keys == channels.Keys + {id};
    assert |channels[id := c]| == |channels[id := c].Keys| && |channels| == |channels.Keys|;
  }

  lemma AddedKeepsIds(g: Gateway, task: Task, id: ChannelId)
    requires Ids(g) && id !in g.channels && id !in g.retiredIds
    ensures Ids(WithChannel(g, task, id))
  {
    var g' := WithChannel(g, task, id);
    forall i | i in g'.channels ensures i !in g'.retiredIds && ChannelInv(g'.channels[i], g'.sent) {
      if i != id {
        assert i in g.channels;
      }
    }
  }

  lemma AdmitKeeps(g: Gateway, task: Task, id: ChannelId)
    requires Sizes(g) && Ids(g) && Owned(g) && Enabled(g, Admit(task, id))
    ensures var g' := Next(g, Admit(task, id)); Sizes(g') && Ids(g') && Owned(g')
  {
    if Full(g) || id in g.channels || id in g.retiredIds {
      EndKeeps(g, task);
    } else {
      NewKey(g.channels, id, Channel(0, 0, false));
      AddedKeepsIds(g, task, id);
      OwnedUpdate(g, task, Opening(id), g.channels[id := Channel(0, 0, false)]);
    }
  }

  /** Replacing one channel keeps the table's size and keys. */
  lemma SameKeys(channels: map<ChannelId, Channel>, id: ChannelId, c: Channel)
    requires id in channels
    ensures channels[id := c].Keys == channels.Keys && |channels[id := c]| == |channels|
  {
    assert channels[id := c].Keys == channels.Keys;
    assert |channels[id := c]| == |channels[id := c].Keys| && |channels| == |channels.Keys|;
  }

  lemma ChannelKeeps(g: Gateway, id: ChannelId, c: Channel)
    requires Sizes(g) && Ids(g) && Owned(g) && id in g.channels && ChannelInv(c, g.sent)
    requires c.request == g.channels[id].request && (g.channels[id].acks == 1 ==> c.acks == 1)
    ensures var g' := g.(channels := g.channels[id := c]); Sizes(g') && Ids(g') && Owned(g')
  {
    SameKeys(g.channels, id, c);
    OwnedChannel(g, id, c);
  }

  lemma OpenedKeeps(g: Gateway, task: Task)
    requires Sizes(g) && Ids(g) && Owned(g) && Enabled(g, Opened(task))
    ensures var g' := Next(g, Opened(task)); Sizes(g') && Ids(g') && Owned(g')
  {
    var id := g.tasks[task].channel;
    var c := g.channels[id].(request := g.sent + 1);
    SameKeys(g.channels, id, c);
    OwnedUpdate(g, task, Advertised(id), g.channels[id := c]);
  }

  lemma AckKeeps(g: Gateway, id: ChannelId, request: nat)
    requires Sizes(g) && Ids(g) && Owned(g) && Enabled(g, RouteAck(id, request))
    ensures var g' := Next(g, RouteAck(id, request)); Sizes(g') && Ids(g') && Owned(g')
  {
    if id in g.channels && Acknowledges(g.channels[id], request) {
      ChannelKeeps(g, id, g.channels[id].(acks := g.channels[id].acks + 1));
    }
  }

  lemma RouteCloseKeeps(g: Gateway, id: ChannelId)
    requires Sizes(g) && Ids(g) && Owned(g) && Enabled(g, RouteClose(id))
    ensures var g' := Next(g, RouteClose(id)); Sizes(g') && Ids(g') && Owned(g')
  {
    if id in g.channels {
      ChannelKeeps(g, id, g.channels[id].(closed := true));
    }
  }

  lemma CloseKeeps(g: Gateway)
    requires Sizes(g) && Ids(g) && Owned(g) && Enabled(g, Close)
    ensures var g' := Next(g, Close); Sizes(g') && Ids(g') && Owned(g')
  {
    var g' := Next(g, Close);
    assert g'.channels.Keys == g.channels.Keys;
    assert |g'.channels| == |g'.channels.Keys| && |g.channels| == |g.channels.Keys|;
    forall t | t in g.tasks ensures TaskInv(g'.channels, g.tasks[t]) {
      assert TaskInv(g.channels, g.tasks[t]);
    }
  }

  lemma StepKeepsInv(g: Gateway, step: Step)
    requires Inv(g) && Enabled(g, step)
    ensures Inv(Next(g, step))
  {
    DebtStep(g, step);
    match step
    case Accept(task) => OwnedUpdate(g, task, Spawned, g.channels);
    case Begin(task) => OwnedUpdate(g, task, Handshaking, g.channels);
    case Admit(task, id) => AdmitKeeps(g, task, id);
    case Opened(task) => OpenedKeeps(g, task);
    case RouteAck(id, request) => AckKeeps(g, id, request);
    case RouteClose(id) => RouteCloseKeeps(g, id);
    case Enter(task) => OwnedUpdate(g, task, Forwarding(g.tasks[task].channel), g.channels);
    case Forward(_) =>
    case Emit =>
    case End(task) => EndKeeps(g, task);
    case StopListening =>
    case Close => CloseKeeps(g);
    case CancelUnstarted(task) => OwnedGone(g, task);
  }

  lemma {:induction false} InvAt(r: Run, k: nat)
    requires r.Valid() && k < |r.states|
    ensures Inv(r.states[k])
  {
    if k > 0 {
      assert r.StepAt(k - 1);
      InvAt(r, k - 1);
      StepKeepsInv(r.states[k - 1], r.steps[k - 1]);
    }
  }

  // ---- The counter and close()

  ghost predicate AlwaysExact(r: Run) {
    forall n :: 0 <= n < |r.states| ==> Exact(r.states[n])
  }

  function Last(r: Run): Gateway
    requires r.states != []
  {
    r.states[|r.states| - 1]
  }

  function Extended(r: Run, step: Step): Run
    requires r.states != [] && Enabled(Last(r), step)
  {
    Run(r.states + [Next(Last(r), step)], r.steps + [step])
  }

  lemma ExtendedIsValid(r: Run, step: Step)
    requires r.Valid() && Enabled(Last(r), step)
    ensures Extended(r, step).Valid()
  {
    var r' := Extended(r, step);
    forall i | 0 <= i < |r'.steps| ensures r'.StepAt(i) {
      if i < |r.steps| {
        assert r.StepAt(i);
      }
    }
  }

  /** `r'` goes on from the end of `r` by calling close(). */
  ghost predicate ClosesAfter(r: Run, r': Run) {
    && r'.Valid() && |r.steps| < |r'.steps| && |r.states| == |r.steps| + 1
    && r'.states[..|r.states|] == r.states && r'.steps[|r.steps|].Close?
  }

  /** Exact, and nothing is left that close() could cancel before it starts. */
  ghost predicate Settled(g: Gateway) {
    Exact(g) && (g.stopping ==> !Unstarted(g))
  }

  lemma SettledStep(g: Gateway, step: Step)
    requires Inv(g) && Enabled(g, step) && Settled(g) && (step.Close? ==> !Unstarted(g))
    ensures Settled(Next(g, step))
  {
    DebtStep(g, step);
  }

  /** Until close() the counter equals the handshakes in progress at every await point. */
  lemma ExactBeforeClose(r: Run, n: nat)
    requires r.Valid() && n < |r.states| && !r.states[n].stopping
    ensures Exact(r.states[n])
  {
    InvAt(r, n);
  }

  lemma {:induction false} SettledFrom(r: Run, c: nat, n: nat)
    requires r.Valid() && c <= n < |r.states| && !r.states[c].stopping && !Unstarted(r.states[c])
    requires c < |r.steps| && r.steps[c].Close?
    ensures Settled(r.states[n]) && (c < n ==> r.states[n].stopping)
  {
    if c == n {
      ExactBeforeClose(r, n);
    } else {
      SettledFrom(r, c, n - 1);
      InvAt(r, n - 1);
      assert r.StepAt(n - 1);
      SettledStep(r.states[n - 1], r.steps[n - 1]);
    }
  }

  lemma {:induction false} OpenBefore(r: Run, n: nat, c: nat)
    requires r.Valid() && n <= c < |r.states| && !r.states[c].stopping
    ensures !r.states[n].stopping
  {
    if n < c {
      assert r.StepAt(c - 1);
      OpenBefore(r, n, c - 1);
    }
  }

  lemma CleanCloseIsExact(r: Run, r': Run)
    requires r.Valid() && Enabled(Last(r), Close) && !Unstarted(Last(r)) && ClosesAfter(r, r')
    ensures AlwaysExact(r')
  {
    var c := |r.steps|;
    assert r'.states[c] == r'.states[..|r.states|][c] == Last(r);
    forall n | 0 <= n < |r'.states| ensures Exact(r'.states[n]) {
      if n <= c {
        OpenBefore(r', n, c);
        ExactBeforeClose(r', n);
      } else {
        SettledFrom(r', c, n);
      }
    }
  }

  /** close() while a task has not run its first step: that task can be cancelled before it
      does, and its place among the pending is never given back. */
  lemma UnstartedLeaks(r: Run, task: Task) returns (r': Run)
    requires r.Valid() && Enabled(Last(r), Close) && task in Last(r).tasks && Last(r).tasks[task].Spawned?
    ensures ClosesAfter(r, r') && Last(r').pending == |Handshakes(Last(r').tasks)| + 1
  {
    var g := Last(r);
    InvAt(r, |r.states| - 1);
    ExtendedIsValid(r, Close);
    var closed := Extended(r, Close);
    CloseKeeps(g);
    DebtStep(g, Close);
    ExtendedIsValid(closed, CancelUnstarted(task));
    r' := Extended(closed, CancelUnstarted(task));
    DebtStep(Last(closed), CancelUnstarted(task));
    assert r'.states[..|r.states|] == r.states;
  }

  /** The condition a caller of close() can check: the counter stays exact in every run that
      closes here if and only if no task is waiting to run its first step. */
  lemma CloseIsClean(r: Run)
    requires r.Valid() && Enabled(Last(r), Close)
    ensures (forall r' :: ClosesAfter(r, r') ==> AlwaysExact(r')) <==> !Unstarted(Last(r))
  {
    if Unstarted(Last(r)) {
      var task :| task in Last(r).tasks && Last(r).tasks[task].Spawned?;
      var r' := UnstartedLeaks(r, task);
      assert !Exact(r'.states[|r'.states| - 1]);
      assert !AlwaysExact(r');
    } else {
      forall r' | ClosesAfter(r, r') ensures AlwaysExact(r') {
        CleanCloseIsExact(r, r');
      }
    }
  }

  // ---- The driver

  /** What the event loop still has to run, oldest first: the first step of a spawned task,
      or the driver, whose gather of the cancelled tasks comes back to call close(). */
  datatype Turn = First(task: Task) | Gathered

  ghost predicate MayRun(ready: seq<Turn>, step: Step) {
    match step
    case Begin(task) => ready != [] && ready[0] == First(task)
    case Close => ready != [] && ready[0] == Gathered
    case _ => true
  }

  function Queued(ready: seq<Turn>, g: Gateway, step: Step): seq<Turn>
    requires MayRun(ready, step)
  {
    match step
    case Accept(task) => if CanAccept(g) then ready + [First(task)] else ready
    case StopListening => ready + [Gathered]
    case Begin(_) => ready[1..]
    case Close => ready[1..]
    case _ => ready
  }

  /** A run of the gateway inside stdio_main. */
  datatype Driven = Driven(run: Run, ready: seq<seq<Turn>>) {
    ghost predicate TurnAt(i: nat)
      requires i < |run.steps| && |ready| == |run.steps| + 1 && |run.states| == |run.steps| + 1
    {
      MayRun(ready[i], run.steps[i]) && ready[i + 1] == Queued(ready[i], run.states[i], run.steps[i])
    }

    ghost predicate Valid() {
      && run.Valid() && |ready| == |run.steps| + 1 && ready[0] == []
      && forall i :: 0 <= i < |run.steps| ==> TurnAt(i)
    }
  }

  ghost predicate ReadyInv(g: Gateway, ready: seq<Turn>) {
    && (forall t :: t in g.tasks && g.tasks[t].Spawned? && !g.stopping ==> First(t) in ready)
    && (g.listening ==> Gathered !in ready)
    && (forall i :: 0 <= i < |ready| && ready[i] == Gathered ==> i == |ready| - 1)
  }

  lemma ReadyStep(g: Gateway, ready: seq<Turn>, step: Step)
    requires Inv(g) && Enabled(g, step) && MayRun(ready, step) && ReadyInv(g, ready)
    ensures ReadyInv(Next(g, step), Queued(ready, g, step))
    ensures step.Close? ==> !Unstarted(g)
  {
    if step.Begin? {
      forall t | t in g.tasks && g.tasks[t].Spawned? && t != step.task ensures First(t) in ready[1..] {
        assert First(t) in ready && ready == [ready[0]] + ready[1..];
      }
    } else if step.Close? {
      assert |ready| == 1;
    }
  }

  lemma {:induction false} DrivenKeeps(d: Driven, n: nat)
    requires d.Valid() && n < |d.run.states|
    ensures ReadyInv(d.run.states[n], d.ready[n]) && Settled(d.run.states[n])
  {
    if n == 0 {
      InvAt(d.run, 0);
    } else {
      DrivenKeeps(d, n - 1);
      InvAt(d.run, n - 1);
      assert d.run.StepAt(n - 1) && d.TurnAt(n - 1);
      ReadyStep(d.run.states[n - 1], d.ready[n - 1], d.run.steps[n - 1]);
      SettledStep(d.run.states[n - 1], d.run.steps[n - 1]);
    }
  }

  /** As stdio_main drives it, the gateway counts right at every await point, closing
      included: pending is the number of handshakes in progress and at most 4, there are at
      most 8 channels and 256 routes, and nothing is cancelled before its first step. */
  lemma Accounting(d: Driven, n: nat)
    requires d.Valid() && n < |d.run.states|
    ensures var g := d.run.states[n];
            && g.pending == |Handshakes(g.tasks)| <= MAX_PENDING
            && |g.channels| <= MAX_CHANNELS && |g.channels| + |g.retired| <= MAX_ROUTES
            && (g.stopping ==> !Unstarted(g))
  {
    DrivenKeeps(d, n);
    InvAt(d.run, n);
  }

  // ---- Acknowledgement

  /** The ROUTE_OPEN of `id` is emitted, with the next request id. */
  predicate Opens(g: Gateway, step: Step, id: ChannelId) {
    step.Opened? && step.task in g.tasks && HasChannel(g.tasks[step.task]) && g.tasks[step.task].channel == id
  }

  ghost predicate OpenedAt(r: Run, i: nat, id: ChannelId) {
    i < |r.steps| && i < |r.states| && Opens(r.states[i], r.steps[i], id)
  }

  /** A ROUTE_ACK was accepted for `id`. */
  ghost predicate AckedAt(r: Run, j: nat, id: ChannelId) {
    && j < |r.steps| && j + 1 < |r.states| && r.steps[j].RouteAck? && r.steps[j].id == id
    && id in r.states[j].channels && id in r.states[j + 1].channels
    && r.states[j + 1].channels[id].acks > r.states[j].channels[id].acks
  }

  /** The ids live or retired. */
  function Known(g: Gateway): set<ChannelId> {
    g.channels.Keys + g.retiredIds
  }

  /** What one step does to one channel: its request changes when it is opened, its
      acknowledgement when one with that very request arrives. */
  ghost predicate ChannelStep(g: Gateway, step: Step, g': Gateway, id: ChannelId) {
    && g.retiredIds <= g'.retiredIds && g.sent <= g'.sent && (step.Opened? ==> g'.sent == g.sent + 1)
    && (id in g.channels && id !in g'.channels ==> id in g'.retiredIds)
    && (id !in g.channels && id in g'.channels ==> g'.channels[id] == Channel(0, 0, false))
    && (id in g.channels && id in g'.channels ==>
          var c, c' := g.channels[id], g'.channels[id];
          && c'.request == (if Opens(g, step, id) then g.sent + 1 else c.request)
          && (c'.acks == c.acks
              || (step == RouteAck(id, c.request) && c.acks == 0 && c'.acks == 1 && c.request >= 1)))
  }

  lemma EndedChannel(g: Gateway, step: Step, task: Task, id: ChannelId)
    requires Inv(g) && task in g.tasks && !step.Opened? && !step.RouteAck?
    ensures ChannelStep(g, step, Ended(g, task), id)
  {
    EndedIs(g, task);
  }

  lemma AdmittedChannel(g: Gateway, step: Step, id: ChannelId)
    requires Inv(g) && Enabled(g, step) && step.Admit?
    ensures ChannelStep(g, step, Next(g, step), id)
  {
    if Full(g) || step.id in g.channels || step.id in g.retiredIds {
      EndedChannel(g, step, step.task, id);
    }
  }

  lemma OtherChannel(g: Gateway, step: Step, id: ChannelId)
    requires Inv(g) && Enabled(g, step) && !step.End? && !step.Admit?
    ensures ChannelStep(g, step, Next(g, step), id)
  {
  }

  lemma ChannelStepOf(g: Gateway, step: Step, g': Gateway, id: ChannelId)
    requires Inv(g) && Enabled(g, step) && g' == Next(g, step)
    ensures ChannelStep(g, step, g', id)
  {
    if step.End? {
      EndedChannel(g, step, step.task, id);
    } else if step.Admit? {
      AdmittedChannel(g, step, id);
    } else {
      OtherChannel(g, step, id);
    }
  }

  lemma ChannelAt(r: Run, n: nat, id: ChannelId)
    requires r.Valid() && n < |r.steps|
    ensures Inv(r.states[n]) && Enabled(r.states[n], r.steps[n])
    ensures ChannelStep(r.states[n], r.steps[n], r.states[n + 1], id)
  {
    InvAt(r, n);
    assert r.StepAt(n);
    ChannelStepOf(r.states[n], r.steps[n], r.states[n + 1], id);
  }

  /** A channel's request id is the one emitted when it was opened. */
  lemma {:induction false} OpenedBefore(r: Run, n: nat, id: ChannelId) returns (i: nat)
    requires r.Valid() && n < |r.states| && id in r.states[n].channels && r.states[n].channels[id].request >= 1
    ensures i < n && OpenedAt(r, i, id) && r.states[n].channels[id].request == r.states[i].sent + 1
  {
    ChannelAt(r, n - 1, id);
    if OpenedAt(r, n - 1, id) {
      i := n - 1;
    } else {
      i := OpenedBefore(r, n - 1, id);
    }
  }

  /** An acknowledged channel was acknowledged under its own request id, after that was
      emitted, and has kept it. */
  lemma {:induction false} AckedBefore(r: Run, n: nat, id: ChannelId) returns (j: nat)
    requires r.Valid() && n < |r.states| && id in r.states[n].channels && r.states[n].channels[id].acks >= 1
    ensures j < n && AckedAt(r, j, id) && r.steps[j].request >= 1
    ensures r.steps[j].request == r.states[j].channels[id].request == r.states[n].channels[id].request
  {
    ChannelAt(r, n - 1, id);
    var g, step := r.states[n - 1], r.steps[n - 1];
    assert step.Opened? ==> TaskInv(g.channels, g.tasks[step.task]);
    if id in g.channels && r.states[n].channels[id].acks == g.channels[id].acks {
      j := AckedBefore(r, n - 1, id);
    } else {
      j := n - 1;
    }
  }

  lemma {:induction false} AckStays(r: Run, j: nat, n: nat, id: ChannelId)
    requires r.Valid() && AckedAt(r, j, id) && j < n < |r.states|
    ensures id in Known(r.states[n]) && (id in r.states[n].channels ==> r.states[n].channels[id].acks >= 1)
  {
    InvAt(r, n);
    ChannelAt(r, n - 1, id);
    if j + 1 < n {
      AckStays(r, j, n - 1, id);
    }
  }

  lemma NotAckedAgain(r: Run, j: nat, k: nat, id: ChannelId)
    requires r.Valid() && AckedAt(r, j, id) && j < k
    ensures !AckedAt(r, k, id)
  {
    if k < |r.steps| {
      AckStays(r, j, k, id);
      ChannelAt(r, k, id);
    }
  }

  lemma AckedOnce(r: Run, j: nat, k: nat, id: ChannelId)
    requires r.Valid() && AckedAt(r, j, id) && AckedAt(r, k, id)
    ensures j == k
  {
    if j < k {
      NotAckedAgain(r, j, k, id);
    } else if k < j {
      NotAckedAgain(r, k, j, id);
    }
  }

  lemma {:induction false} SentGrows(r: Run, a: nat, b: nat)
    requires r.Valid() && a <= b < |r.states|
    ensures r.states[a].sent <= r.states[b].sent
  {
    if a < b {
      ChannelAt(r, b - 1, 0);
      SentGrows(r, a, b - 1);
    }
  }

  /** No two ROUTE_OPENs carry the same request id. */
  lemma OpenedApart(r: Run, i: nat, id: ChannelId, x: nat, other: ChannelId)
    requires r.Valid() && OpenedAt(r, i, id) && OpenedAt(r, x, other) && i != x
    ensures r.states[i].sent != r.states[x].sent
  {
    var a, b := if i < x then i else x, if i < x then x else i;
    ChannelAt(r, a, id);
    SentGrows(r, a + 1, b);
  }

  /** Forwarding begins on an acknowledged channel that nobody has closed. */
  ghost predicate EnteredAt(r: Run, x: nat, id: ChannelId) {
    && x < |r.steps| && x < |r.states| && r.steps[x].Enter? && r.steps[x].task in r.states[x].tasks
    && r.states[x].tasks[r.steps[x].task] == Advertised(id)
    && id in r.states[x].channels && r.states[x].channels[id].acks >= 1 && !r.states[x].channels[id].closed
  }

  lemma ForwardingStep(g: Gateway, step: Step, task: Task, id: ChannelId)
    requires Enabled(g, step) && task in Next(g, step).tasks && Next(g, step).tasks[task] == Forwarding(id)
    ensures task in g.tasks
    ensures g.tasks[task] == Forwarding(id) || (step == Enter(task) && g.tasks[task] == Advertised(id))
    ensures step == Enter(task) && g.tasks[task] == Advertised(id) ==>
              id in g.channels && g.channels[id].acks >= 1 && !g.channels[id].closed
  {
  }

  lemma {:induction false} EnteredBefore(r: Run, n: nat, task: Task, id: ChannelId) returns (x: nat)
    requires r.Valid() && n < |r.states| && task in r.states[n].tasks && r.states[n].tasks[task] == Forwarding(id)
    ensures x < n && EnteredAt(r, x, id) && r.steps[x].task == task
  {
    assert r.StepAt(n - 1);
    ForwardingStep(r.states[n - 1], r.steps[n - 1], task, id);
    if r.states[n - 1].tasks[task] == Forwarding(id) {
      x := EnteredBefore(r, n - 1, task, id);
    } else {
      x := n - 1;
    }
  }

  /** A datagram passes on a channel only after exactly one ROUTE_ACK was accepted for it,
      which carried the request id of the channel's own ROUTE_OPEN (no other ROUTE_OPEN of the
      run carries it), and after forwarding began with the channel not closed. */
  lemma ForwardedWasAcknowledged(r: Run, k: nat) returns (i: nat, j: nat, x: nat)
    requires r.Valid() && k < |r.steps| && r.steps[k].Forward?
    ensures r.StepAt(k) && HasChannel(r.states[k].tasks[r.steps[k].task])
    ensures var id := r.states[k].tasks[r.steps[k].task].channel;
            && i < j < x < k && OpenedAt(r, i, id) && AckedAt(r, j, id) && r.steps[j].request == r.states[i].sent + 1
            && EnteredAt(r, x, id) && r.steps[x].task == r.steps[k].task
            && (forall y: nat :: AckedAt(r, y, id) ==> y == j)
            && forall y: nat, other :: OpenedAt(r, y, other) && r.states[y].sent == r.states[i].sent ==> y == i && other == id
  {
    assert r.StepAt(k);
    var task := r.steps[k].task;
    var id := r.states[k].tasks[task].channel;
    x := EnteredBefore(r, k, task, id);
    j := AckedBefore(r, x, id);
    i := OpenedBefore(r, j, id);
    forall y: nat | AckedAt(r, y, id) ensures y == j {
      AckedOnce(r, y, j, id);
    }
    forall y: nat, other | OpenedAt(r, y, other) && r.states[y].sent == r.states[i].sent ensures y == i && other == id {
      if y != i {
        OpenedApart(r, i, id, y, other);
      }
    }
  }

  lemma RouteIsReachable(id: ChannelId) returns (r: Run)
    ensures r.Valid() && |r.steps| == 4
    ensures Last(r) == START.(pending := 1, tasks := map[0 := Advertised(id)], channels := map[id := Channel(1, 0, false)], sent := 1)
  {
    r := Run([START], []);
    r := Onward(r, Accept(0));
    r := Onward(r, Begin(0));
    r := Onward(r, Admit(0, id));
    r := Onward(r, Opened(0));
  }

  lemma Onward(r: Run, step: Step) returns (r': Run)
    requires r.Valid() && Enabled(Last(r), step)
    ensures r'.Valid() && |r'.steps| == |r.steps| + 1 && r'.steps[|r.steps|] == step
    ensures Last(r') == Next(Last(r), step)
  {
    ExtendedIsValid(r, step);
    r' := Extended(r, step);
  }

  /** And datagrams do pass: connection, handshake, ROUTE_OPEN 1, its ROUTE_ACK, forwarding. */
  lemma ForwardIsReachable(id: ChannelId) returns (r: Run)
    ensures r.Valid() && |r.steps| == 7 && r.steps[6] == Forward(0)
    ensures Last(r) == START.(tasks := map[0 := Forwarding(id)], channels := map[id := Channel(1, 1, false)], sent := 1)
  {
    r := RouteIsReachable(id);
    r := Onward(r, RouteAck(id, 1));
    r := Onward(r, Enter(0));
    r := Onward(r, Forward(0));
  }

  // ---- Commands from the game

  /** A ROUTE_ACK is accepted once, for a live channel that is not closed, under the id of its
      ROUTE_OPEN; any other ends the reading of commands and changes nothing else. */
  lemma AckAnswered(g: Gateway, id: ChannelId, request: nat)
    requires Inv(g) && g.obeying
    ensures var g' := Next(g, RouteAck(id, request));
            var due := id in g.channels && request >= 1 && request == g.channels[id].request
                       && g.channels[id].acks == 0 && !g.channels[id].closed;
            && (due ==> g' == g.(channels := g.channels[id := g.channels[id].(acks := 1)]))
            && (!due ==> g' == g.(obeying := false))
  {
  }

  /** A ROUTE_CLOSE closes a live channel, is ignored for a retired one, and otherwise ends the
      reading of commands. */
  lemma RouteCloseAnswered(g: Gateway, id: ChannelId)
    requires Inv(g) && g.obeying
    ensures var g' := Next(g, RouteClose(id));
            && (id in g.channels ==> g' == g.(channels := g.channels[id := g.channels[id].(closed := true)]))
            && (id in g.retiredIds ==> g' == g)
            && (id !in g.channels && id !in g.retiredIds ==> g' == g.(obeying := false))
  {
  }

  // ---- Retired ids

  /** A retired id never names a channel again. */
  lemma {:induction false} RetiredForGood(r: Run, i: nat, k: nat, id: ChannelId)
    requires r.Valid() && i <= k < |r.states| && id in r.states[i].retiredIds
    ensures id in r.states[k].retiredIds && id !in r.states[k].channels
  {
    InvAt(r, k);
    if i < k {
      RetiredForGood(r, i, k - 1, id);
      ChannelAt(r, k - 1, id);
    }
  }
}
