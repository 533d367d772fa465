// The dequeue discipline of the frame queue as a function of its contents, and
// what it means over whole runs of arrivals and pops.
module PriorityQueue {
  import opened Frames

  const CAPACITY := 64

  /** Offset of the first control frame; the length when there is none. */
  function FirstControl(q: seq<Frame>): (k: nat)
    ensures k <= |q|
    ensures k < |q| ==> IsControl(q[k])
    ensures forall i :: 0 <= i < k ==> !IsControl(q[i])
  {
    if q == [] || IsControl(q[0]) then 0 else
      var k := FirstControl(q[1..]);
      assert forall i :: 1 <= i < k + 1 ==> q[i] == q[1..][i - 1];
      k + 1
  }

  function Selected(q: seq<Frame>): (k: nat)
    requires q != []
    ensures k < |q|
  {
    if FirstControl(q) == |q| then 0 else FirstControl(q)
  }

  function Without<T>(q: seq<T>, k: nat): seq<T>
    requires k < |q|
  {
    q[..k] + q[k + 1..]
  }

  datatype Event = Arrive(frame: Frame) | Pop

  /** The queue, and the history of what was taken in and handed out. */
  datatype State = State(queue: seq<Frame>, accepted: seq<Frame>, delivered: seq<Frame>)

  function Apply(s: State, e: Event): State {
    match e
    case Arrive(f) =>
      if |s.queue| >= CAPACITY then s
      else s.(queue := s.queue + [f], accepted := s.accepted + [f])
    case Pop =>
      if s.queue == [] then s
      else
        var k := Selected(s.queue);
        s.(queue := Without(s.queue, k), delivered := s.delivered + [s.queue[k]])
  }

  function Run(s: State, events: seq<Event>): State
    decreases events
  {
    if events == [] then s else Run(Apply(s, events[0]), events[1..])
  }

  /** The frames of one traffic class, in order. */
  function OfClass(q: seq<Frame>, control: bool): seq<Frame> {
    if q == [] then []
    else (if IsControl(q[0]) == control then [q[0]] else []) + OfClass(q[1..], control)
  }

  /** In a class, what was accepted is what was delivered followed by what still waits. */
  ghost predicate Ordered(s: State, control: bool) {
    OfClass(s.accepted, control) == OfClass(s.delivered, control) + OfClass(s.queue, control)
  }

  lemma {:induction false} OfClassConcat(a: seq<Frame>, b: seq<Frame>, control: bool)
    ensures OfClass(a + b, control) == OfClass(a, control) + OfClass(b, control)
  {
    if a == [] {
      assert a + b == b;
    } else {
      assert (a + b)[1..] == a[1..] + b;
      OfClassConcat(a[1..], b, control);
    }
  }

  lemma {:induction false} OfClassNone(q: seq<Frame>, control: bool)
    requires forall i :: 0 <= i < |q| ==> IsControl(q[i]) != control
    ensures OfClass(q, control) == []
  {
    if q != [] {
      OfClassNone(q[1..], control);
    }
  }

  /** Taking out a frame that no frame of its class precedes. */
  lemma OfClassWithout(q: seq<Frame>, k: nat, control: bool)
    requires k < |q|
    requires IsControl(q[k]) == control ==> forall i :: 0 <= i < k ==> IsControl(q[i]) != control
    ensures OfClass(q, control)
         == (if IsControl(q[k]) == control then [q[k]] else []) + OfClass(Without(q, k), control)
  {
    var front, back := q[..k], q[k + 1..];
    assert q == front + ([q[k]] + back);
    OfClassConcat(front, [q[k]] + back, control);
    OfClassConcat([q[k]], back, control);
    OfClassConcat(front, back, control);
    assert OfClass([q[k]], control) == if IsControl(q[k]) == control then [q[k]] else [] by {
      assert [q[k]][1..] == [];
    }
    if IsControl(q[k]) == control {
      OfClassNone(front, control);
    }
  }

  lemma ArriveKeepsOrder(s: State, f: Frame, control: bool)
    requires Ordered(s, control)
    ensures Ordered(Apply(s, Arrive(f)), control)
  {
    OfClassConcat(s.queue, [f], control);
    OfClassConcat(s.accepted, [f], control);
  }

  lemma MovesOver(accepted: seq<Frame>, delivered: seq<Frame>, head: seq<Frame>, rest: seq<Frame>)
    requires accepted == delivered + (head + rest)
    ensures accepted == delivered + head + rest
  {
  }

  lemma PopKeepsOrder(s: State, control: bool)
    requires Ordered(s, control) && s.queue != []
    ensures Ordered(Apply(s, Pop), control)
  {
    var k := Selected(s.queue);
    var f, rest := s.queue[k], Without(s.queue, k);
    OfClassWithout(s.queue, k, control);
    var head := if IsControl(f) == control then [f] else [];
    MovesOver(OfClass(s.accepted, control), OfClass(s.delivered, control), head, OfClass(rest, control));
    OfClassConcat(s.delivered, [f], control);
    OfClassOne(f, control);
  }

  lemma OfClassOne(f: Frame, control: bool)
    ensures OfClass([f], control) == if IsControl(f) == control then [f] else []
  {
    assert [f][1..] == [];
  }

  lemma ApplyKeepsOrder(s: State, e: Event, control: bool)
    requires Ordered(s, control)
    ensures Ordered(Apply(s, e), control)
  {
    match e
    case Arrive(f) => ArriveKeepsOrder(s, f, control);
    case Pop => if s.queue != [] { PopKeepsOrder(s, control); }
  }

  lemma {:induction false} RunKeepsOrder(s: State, events: seq<Event>, control: bool)
    requires Ordered(s, control)
    ensures Ordered(Run(s, events), control)
    decreases events
  {
    if events != [] {
      ApplyKeepsOrder(s, events[0], control);
      RunKeepsOrder(Apply(s, events[0]), events[1..], control);
    }
  }

  /** From an empty queue, over any interleaving of arrivals and pops: each class
      leaves in arrival order, and nothing accepted is lost, duplicated or invented. */
  lemma EachClassIsFifo(events: seq<Event>, control: bool)
    ensures var s := Run(State([], [], []), events);
            OfClass(s.accepted, control) == OfClass(s.delivered, control) + OfClass(s.queue, control)
  {
    RunKeepsOrder(State([], [], []), events, control);
  }

  lemma MultisetWithout(q: seq<Frame>, k: nat)
    requires k < |q|
    ensures multiset(q) == multiset([q[k]]) + multiset(Without(q, k))
  {
    assert q == q[..k] + [q[k]] + q[k + 1..];
  }

  lemma {:induction false} NothingLost(s: State, events: seq<Event>)
    requires multiset(s.accepted) == multiset(s.delivered) + multiset(s.queue)
    ensures var t := Run(s, events); multiset(t.accepted) == multiset(t.delivered) + multiset(t.queue)
    decreases events
  {
    if events != [] {
      if events[0].Pop? && s.queue != [] {
        MultisetWithout(s.queue, Selected(s.queue));
      }
      NothingLost(Apply(s, events[0]), events[1..]);
    }
  }

  /** A bulk frame is handed out only when no control frame waits. */
  lemma BulkWaitsForControl(s: State)
    requires s.queue != []
    ensures var f := s.queue[Selected(s.queue)];
            Apply(s, Pop).delivered == s.delivered + [f] &&
            (!IsControl(f) ==> forall i :: 0 <= i < |s.queue| ==> !IsControl(s.queue[i]))
  {
  }
}
