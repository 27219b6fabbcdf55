/** BoundedQueue and Sequence of gateway_protocol.py: what waits between two ends of a
    channel, and the numbering of private requests. Times are exact reals. */
module PacketQueue {
  import opened Bytes

  datatype Item = Item(at: real, data: seq<byte>)
  datatype Limits = Limits(count: nat, bytes: nat, age: real)

  /** The queue with its byte counter. */
  datatype Queue = Queue(items: seq<Item>, bytes: int)

  datatype Call = Put(at: real, data: seq<byte>) | Get(at: real)
  datatype Outcome = Stored | Full | Taken(item: Item) | Late(item: Item) | NotReady

  /** asyncio's queue is full at `count`, and never when `count` is 0. */
  predicate IsFull(q: Queue, lim: Limits) {
    0 < lim.count <= |q.items|
  }

  /** A get on an empty queue waits: no step is taken. */
  function Step(q: Queue, lim: Limits, call: Call): (Queue, Outcome) {
    match call
    case Put(at, data) =>
      if q.bytes + |data| > lim.bytes || IsFull(q, lim) then (q, Full)
      else (Queue(q.items + [Item(at, data)], q.bytes + |data|), Stored)
    case Get(at) =>
      if q.items == [] then (q, NotReady)
      else
        (Queue(q.items[1..], q.bytes - |q.items[0].data|),
         if at - q.items[0].at > lim.age then Late(q.items[0]) else Taken(q.items[0]))
  }

  function Weight(items: seq<Item>): nat {
    if items == [] then 0 else |items[0].data| + Weight(items[1..])
  }

  /** A whole history: what was stored, what left the queue (in time or not), what is left. */
  datatype History = History(stored: seq<Item>, left: seq<Item>, queue: Queue)

  function Record(h: History, call: Call, r: (Queue, Outcome)): History {
    match r.1
    case Stored => History(h.stored + [Item(call.at, if call.Put? then call.data else [])], h.left, r.0)
    case Taken(item) => History(h.stored, h.left + [item], r.0)
    case Late(item) => History(h.stored, h.left + [item], r.0)
    case Full => h.(queue := r.0)
    case NotReady => h.(queue := r.0)
  }

  function Run(lim: Limits, calls: seq<Call>): History {
    if calls == [] then History([], [], Queue([], 0))
    else
      var h := Run(lim, calls[..|calls| - 1]);
      Record(h, calls[|calls| - 1], Step(h.queue, lim, calls[|calls| - 1]))
  }

  lemma {:induction false} WeightAppend(a: seq<Item>, b: Item)
    ensures Weight(a + [b]) == Weight(a) + |b.data|
  {
    if a == [] {
      assert a + [b] == [b];
      assert Weight([b]) == |b.data| + Weight([]);
    } else {
      assert (a + [b])[1..] == a[1..] + [b];
      WeightAppend(a[1..], b);
    }
  }

  /** What left, then what waits, is what was stored; the counter weighs what waits. */
  ghost predicate InOrder(lim: Limits, h: History) {
    && h.stored == h.left + h.queue.items
    && h.queue.bytes == Weight(h.queue.items) <= lim.bytes
    && (lim.count > 0 ==> |h.queue.items| <= lim.count)
  }

  lemma PutKeeps(lim: Limits, h: History, at: real, data: seq<byte>)
    requires InOrder(lim, h)
    ensures InOrder(lim, Record(h, Put(at, data), Step(h.queue, lim, Put(at, data))))
  {
    WeightAppend(h.queue.items, Item(at, data));
  }

  lemma GetKeeps(lim: Limits, h: History, at: real)
    requires InOrder(lim, h)
    ensures InOrder(lim, Record(h, Get(at), Step(h.queue, lim, Get(at))))
  {
    if h.queue.items != [] {
      assert h.queue.items == [h.queue.items[0]] + h.queue.items[1..];
    }
  }

  /** Nothing is lost, repeated or reordered, and both limits hold throughout. */
  lemma {:induction false} Conserved(lim: Limits, calls: seq<Call>)
    ensures InOrder(lim, Run(lim, calls))
  {
    if calls != [] {
      var init, call := calls[..|calls| - 1], calls[|calls| - 1];
      Conserved(lim, init);
      if call.Put? {
        PutKeeps(lim, Run(lim, init), call.at, call.data);
      } else {
        GetKeeps(lim, Run(lim, init), call.at);
      }
    }
  }

  /** A get takes the oldest packet waiting, and hands it over if and only if it waited no
      longer than `age`; a put is refused exactly when it would pass a limit. */
  lemma AnsweredExactly(lim: Limits, calls: seq<Call>, call: Call)
    ensures var h := Run(lim, calls);
            var r := Step(h.queue, lim, call).1;
            match call
            case Put(at, data) =>
              (r.Stored? || r.Full?) && (r.Stored? <==> Weight(h.queue.items) + |data| <= lim.bytes && (lim.count == 0 || |h.queue.items| < lim.count))
            case Get(at) =>
              var k := |h.left|;
              if k < |h.stored| then r == (if at - h.stored[k].at > lim.age then Late(h.stored[k]) else Taken(h.stored[k]))
              else r.NotReady?
  {
    Conserved(lim, calls);
  }

  class BoundedQueue {
    const lim: Limits
    var items: seq<Item>
    var bytes: int

    function Value(): Queue
      reads this
    {
      Queue(items, bytes)
    }

    constructor (lim: Limits)
      ensures this.lim == lim && Value() == Queue([], 0)
    {
      this.lim := lim;
      items, bytes := [], 0;
    }

    method TryPut(at: real, data: seq<byte>) returns (r: Outcome)
      modifies this
      ensures (Value(), r) == Step(old(Value()), lim, Put(at, data))
    {
      if bytes + |data| > lim.bytes || IsFull(Value(), lim) {
        return Full;
      }
      items := items + [Item(at, data)];
      bytes := bytes + |data|;
      return Stored;
    }

    method TryGet(at: real) returns (r: Outcome)
      modifies this
      ensures (Value(), r) == Step(old(Value()), lim, Get(at))
    {
      if items == [] {
        return NotReady;
      }
      var item := items[0];
      items := items[1..];
      bytes := bytes - |item.data|;
      if at - item.at > lim.age {
        return Late(item);
      }
      return Taken(item);
    }
  }

  // ---- Sequence

  const MAX_ID: nat := 2147483647

  /** The last number used; a refused one leaves it. */
  class Sequence {
    var value: nat

    constructor ()
      ensures value == 0
    {
      value := 0;
    }

    method Next() returns (ok: bool, number: nat)
      modifies this
      ensures ok <==> old(value) < MAX_ID
      ensures value == if ok then old(value) + 1 else old(value)
      ensures ok ==> number == value
    {
      if value + 1 > MAX_ID {
        return false, 0;
      }
      value := value + 1;
      return true, value;
    }

    method Accept(number: int) returns (ok: bool)
      modifies this
      ensures (ok, value) == Admit(old(value), number)
    {
      if !(1 <= number <= MAX_ID) || number != value + 1 {
        return false;
      }
      value := number;
      return true;
    }
  }

  function Admit(value: nat, number: int): (bool, nat) {
    if 1 <= number <= MAX_ID && number == value + 1 then (true, number) else (false, value)
  }

  /** Accepting a list of numbers one after the other. */
  function AdmitAll(value: nat, numbers: seq<int>): (seq<int>, nat) {
    if numbers == [] then ([], value)
    else
      var (accepted, last) := AdmitAll(value, numbers[..|numbers| - 1]);
      var (ok, next) := Admit(last, numbers[|numbers| - 1]);
      (if ok then accepted + [numbers[|numbers| - 1]] else accepted, next)
  }

  /** Whatever is offered, the accepted numbers are 1, 2, 3, ... without gap or repeat. */
  lemma {:induction false} AcceptedCount(numbers: seq<int>)
    ensures var (accepted, last) := AdmitAll(0, numbers);
            |accepted| == last <= MAX_ID && forall i :: 0 <= i < last ==> accepted[i] == i + 1
  {
    if numbers != [] {
      AcceptedCount(numbers[..|numbers| - 1]);
    }
  }
}
