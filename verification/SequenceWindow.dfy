/** lab_sequence_accept: a 16-slot ring standing in for the set of every number
    ever accepted in a session. */
module SequenceWindow {
  import opened Bytes
  import opened LabContract

  const RING: nat := 16
  const AHEAD: nat := 8

  /** The C struct by value. */
  datatype Window = Window(next: u32, seen: seq<u32>) {
    ghost predicate Valid() {
      |seen| == RING
    }
  }

  const FRESH: Window := Window(1, [0, 0, 0, 0, 0, 0, 0, 0, 0, 0, 0, 0, 0, 0, 0, 0])

  function Admit(w: Window, number: u32): (r: (Reason, Window))
    requires w.Valid()
    ensures r.1.Valid()
    ensures !r.0.Ok? ==> r.1 == w
  {
    if number == 0 then (BadSeq, w)
    else if number == U32_MAX || w.next == U32_MAX then (Closing, w)
    else if number >= w.next then
      if number - w.next > AHEAD then (BadSeq, w)
      else (Ok, Window(number + 1, w.seen[number % RING := number]))
    else if w.next - number > RING then (BadSeq, w)
    else if w.seen[number % RING] == number then (Replay, w)
    else (Ok, w.(seen := w.seen[number % RING := number]))
  }

  /** The contract the ring stands for: remember every accepted number. */
  datatype Ideal = Ideal(next: nat, accepted: set<nat>)

  const IDEAL_FRESH: Ideal := Ideal(1, {})

  ghost function IdealAccept(s: Ideal, number: u32): (Reason, Ideal) {
    if number == 0 then (BadSeq, s)
    else if number == U32_MAX || s.next == U32_MAX then (Closing, s)
    else if number > s.next + AHEAD || s.next > number + RING then (BadSeq, s)
    else if number in s.accepted then (Replay, s)
    else (Ok, Ideal(if number >= s.next then number + 1 else s.next, s.accepted + {number}))
  }

  /** Each slot holds the largest accepted number of its residue class, or 0. */
  ghost predicate SlotMatches(slot: nat, i: nat, accepted: set<nat>) {
    && (slot != 0 ==> slot in accepted && slot % RING == i)
    && forall n :: n in accepted && n % RING == i ==> n <= slot
  }

  ghost predicate Refines(w: Window, s: Ideal) {
    && w.Valid()
    && 1 <= w.next == s.next
    && (forall n :: n in s.accepted ==> 1 <= n < s.next)
    && forall i :: 0 <= i < RING ==> SlotMatches(w.seen[i], i, s.accepted)
  }

  lemma FreshRefines()
    ensures Refines(FRESH, IDEAL_FRESH)
  {
  }

  /** One step: sixteen words answer exactly as the unbounded set does. */
  lemma AcceptRefines(w: Window, s: Ideal, number: u32)
    requires Refines(w, s)
    ensures Admit(w, number).0 == IdealAccept(s, number).0
    ensures Refines(Admit(w, number).1, IdealAccept(s, number).1)
  {
    var k := number % RING;
    assert SlotMatches(w.seen[k], k, s.accepted);
    if number in s.accepted && s.next <= number + RING {
      // Nothing of the same class fits between `number` and `next`.
      SameClassFar(number, w.seen[k]);
      assert w.seen[k] == number;
    }
    var (reason, w') := Admit(w, number);
    if reason.Ok? {
      var accepted' := s.accepted + {number};
      forall i | 0 <= i < RING ensures SlotMatches(w'.seen[i], i, accepted') {
        assert SlotMatches(w.seen[i], i, s.accepted);
        if i == k {
          forall n | n in accepted' && n % RING == k ensures n <= number {
            if n > number {
              SameClassFar(number, n);
            }
          }
        }
      }
    }
  }

  lemma SameClassFar(a: nat, b: nat)
    requires a < b ==> a % RING == b % RING
    ensures a < b ==> b >= a + RING
  {
  }

  /** A whole session: the answers to a list of numbers. */
  function Answers(w: Window, numbers: seq<u32>): (r: (seq<Reason>, Window))
    requires w.Valid()
    ensures |r.0| == |numbers| && r.1.Valid()
  {
    if numbers == [] then ([], w)
    else
      var (before, mid) := Answers(w, numbers[..|numbers| - 1]);
      var (reason, last) := Admit(mid, numbers[|numbers| - 1]);
      (before + [reason], last)
  }

  /** The numbers a session has accepted so far. */
  ghost function Accepted(reasons: seq<Reason>, numbers: seq<u32>): set<nat>
    requires |reasons| == |numbers|
  {
    set i | 0 <= i < |numbers| && reasons[i].Ok? :: numbers[i]
  }

  lemma {:induction false} SessionRefines(numbers: seq<u32>)
    ensures var (reasons, w) := Answers(FRESH, numbers);
            Refines(w, Ideal(w.next, Accepted(reasons, numbers)))
  {
    if numbers == [] {
      FreshRefines();
      assert Accepted([], numbers) == {};
    } else {
      var last := numbers[|numbers| - 1];
      var init := numbers[..|numbers| - 1];
      SessionRefines(init);
      var (before, mid) := Answers(FRESH, init);
      var ideal := Ideal(mid.next, Accepted(before, init));
      AcceptRefines(mid, ideal, last);
      var (reasons, w) := Answers(FRESH, numbers);
      assert Accepted(reasons, numbers) ==
             Accepted(before, init) + if reasons[|init|].Ok? then {last} else {} by {
        assert forall i :: 0 <= i < |init| ==> reasons[i] == before[i] && numbers[i] == init[i];
      }
    }
  }

  /** Exact acceptance over a whole session: a number is accepted if and only if it
      is in range of `next`, neither end of the number space is touched, and it was
      never accepted before. */
  lemma AcceptedExactly(numbers: seq<u32>, number: u32)
    ensures var (reasons, w) := Answers(FRESH, numbers);
            Admit(w, number).0.Ok? <==>
            && number != 0 && number != U32_MAX && w.next != U32_MAX
            && number <= w.next + AHEAD && w.next <= number + RING
            && number !in Accepted(reasons, numbers)
  {
    SessionRefines(numbers);
    var (reasons, w) := Answers(FRESH, numbers);
    AcceptRefines(w, Ideal(w.next, Accepted(reasons, numbers)), number);
  }

  /** No number is accepted twice in a session, however the numbers arrive. */
  lemma {:induction false} NeverTwice(numbers: seq<u32>, i: nat, j: nat)
    requires i < j < |numbers|
    requires Answers(FRESH, numbers).0[i].Ok? && Answers(FRESH, numbers).0[j].Ok?
    ensures numbers[i] != numbers[j]
  {
    var init := numbers[..|numbers| - 1];
    if j == |numbers| - 1 {
      AcceptedExactly(init, numbers[j]);
      assert numbers[i] in Accepted(Answers(FRESH, init).0, init) by {
        assert init[i] == numbers[i];
      }
    } else {
      NeverTwice(init, i, j);
    }
  }

  /** `next` never moves back, never wraps, and once it is exhausted every further
      nonzero number is answered Closing. */
  lemma {:induction false} ExhaustionIsPermanent(w: Window, numbers: seq<u32>)
    requires w.Valid()
    ensures w.next <= Answers(w, numbers).1.next
    ensures w.next == U32_MAX ==>
              && Answers(w, numbers).1 == w
              && forall i :: 0 <= i < |numbers| ==>
                   Answers(w, numbers).0[i] == if numbers[i] == 0 then BadSeq else Closing
  {
    if numbers != [] {
      ExhaustionIsPermanent(w, numbers[..|numbers| - 1]);
    }
  }

  /** The ring in place, as the C function updates it. */
  class Ring {
    var next: u32
    const seen: array<u32>

    ghost predicate Valid()
      reads this, seen
    {
      seen.Length == RING && Value().Valid()
    }

    function Value(): Window
      reads this, seen
    {
      Window(next, seen[..])
    }

    /** The reset a completed HELLO performs. */
    constructor ()
      ensures Valid() && fresh(seen) && Value() == FRESH
    {
      next := 1;
      seen := new u32[RING](_ => 0);
    }

    method Accept(number: u32) returns (reason: Reason)
      requires Valid()
      modifies this, seen
      ensures Valid()
      ensures (reason, Value()) == Admit(old(Value()), number)
    {
      if number == 0 {
        return BadSeq;
      }
      if number == U32_MAX || next == U32_MAX {
        return Closing;
      }
      if number >= next {
        if number - next > AHEAD {
          return BadSeq;
        }
        next := number + 1;
      } else if next - number > RING {
        return BadSeq;
      } else if seen[number % RING] == number {
        return Replay;
      }
      seen[number % RING] := number;
      return Ok;
    }
  }
}
