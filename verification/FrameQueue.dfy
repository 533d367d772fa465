// The ring of 64 frame slots inside the link.
module FrameQueues {
  import opened Frames
  import opened PriorityQueue
  import opened Wrappers

  class FrameQueue {
    const slots: array<Frame>
    var head: nat
    var tail: nat
    var count: nat

    ghost predicate Valid()
      reads this
    {
      && slots.Length == CAPACITY
      && head < CAPACITY && tail < CAPACITY && count <= CAPACITY
      && tail == (head + count) % CAPACITY
    }

    function Slot(i: nat): (index: nat)
      reads this
      ensures index < CAPACITY
    {
      (head + i) % CAPACITY
    }

    /** The waiting frames, oldest first. */
    ghost function Contents(): (q: seq<Frame>)
      requires Valid()
      reads this, slots
      ensures |q| == count
    {
      seq(count, i requires 0 <= i < count && Valid() reads this, slots => slots[Slot(i)])
    }

    lemma SlotsDiffer(i: nat, j: nat)
      requires i < CAPACITY && j < CAPACITY && i != j
      ensures Slot(i) != Slot(j)
    {
    }

    static lemma NextTail(h: nat, n: nat)
      ensures ((h + n) % CAPACITY + 1) % CAPACITY == (h + (n + 1)) % CAPACITY
    {
    }

    static lemma NextHead(h: nat, i: nat)
      ensures ((h + 1) % CAPACITY + i) % CAPACITY == (h + (i + 1)) % CAPACITY
    {
    }

    constructor ()
      ensures Valid() && fresh(slots) && Contents() == []
    {
      slots := new Frame[CAPACITY](_ => Frame(1, 0, 0, []));
      head, tail, count := 0, 0, 0;
    }

    /** The tail end of decode_received_frame_. */
    method Enqueue(f: Frame) returns (queued: bool)
      requires Valid()
      modifies this, slots
      ensures Valid() && queued == (|old(Contents())| < CAPACITY)
      ensures Contents() == if queued then old(Contents()) + [f] else old(Contents())
    {
      if count >= CAPACITY {
        return false;
      }
      ghost var before, n := Contents(), count;
      forall i: nat | i < n
        ensures Slot(i) != tail
      {
        SlotsDiffer(i, n);
      }
      slots[tail] := f;
      NextTail(head, count);
      tail := (tail + 1) % CAPACITY;
      count := count + 1;
      assert Contents()[n] == f;
      assert forall i :: 0 <= i < n ==> Contents()[i] == before[i];
      assert Contents() == before + [f];
      return true;
    }

    /** pop */
    method Pop() returns (frame: Option<Frame>)
      requires Valid()
      modifies this
      ensures Valid()
      ensures if old(Contents()) == [] then frame == None && Contents() == []
              else frame == Some(old(Contents()[0])) && Contents() == old(Contents()[1..])
    {
      if count == 0 {
        return None;
      }
      ghost var before, h := Contents(), head;
      frame := Some(slots[head]);
      NextHead(head, count - 1);
      head := (head + 1) % CAPACITY;
      count := count - 1;
      forall i: nat | i < count
        ensures Contents()[i] == before[i + 1]
      {
        NextHead(h, i);
      }
      assert Contents() == before[1..];
    }

    /** pop_priority */
    method PopPriority() returns (frame: Option<Frame>)
      requires Valid()
      modifies this, slots
      ensures Valid()
      ensures if old(Contents()) == [] then frame == None && Contents() == []
              else var q := old(Contents());
                   frame == Some(q[Selected(q)]) && Contents() == Without(q, Selected(q))
    {
      if count == 0 {
        return None;
      }
      ghost var q := Contents();
      var selected, found := FindControl();
      if !found || selected == 0 {
        frame := Pop();
        assert q[1..] == Without(q, 0);
        return;
      }
      frame := Some(slots[Slot(selected)]);
      CloseGap(selected, q);
      DropLast();
    }

    method DropLast()
      requires Valid() && count > 0
      modifies this
      ensures Valid() && Contents() == old(Contents()[..count - 1])
    {
      ghost var before := Contents();
      tail := (tail + CAPACITY - 1) % CAPACITY;
      count := count - 1;
      assert Contents() == before[..count];
    }

    /** The search loop of pop_priority. */
    method FindControl() returns (selected: nat, found: bool)
      requires Valid() && count > 0
      ensures selected == Selected(Contents()) && found == (FirstControl(Contents()) < count)
    {
      ghost var q := Contents();
      selected, found := 0, false;
      var offset := 0;
      while offset < count
        invariant offset <= count && selected == 0 && !found
        invariant forall i :: 0 <= i < offset ==> !IsControl(q[i])
      {
        assert q[offset] == slots[Slot(offset)];
        if IsControl(slots[Slot(offset)]) {
          selected, found := offset, true;
          break;
        }
        offset := offset + 1;
      }
    }

    method Overwrite(i: nat, f: Frame)
      requires Valid() && i < count
      modifies slots
      ensures Valid() && Contents() == old(Contents())[i := f]
    {
      forall j: nat | j < count && j != i
        ensures Slot(i) != Slot(j)
      {
        SlotsDiffer(i, j);
      }
      slots[Slot(i)] := f;
    }

    /** The shifting loop of pop_priority: every frame behind the gap moves one
        slot towards the head. */
    method CloseGap(selected: nat, ghost q: seq<Frame>)
      requires Valid() && q == Contents() && selected < count
      modifies slots
      ensures Valid() && Contents()[..count - 1] == Without(q, selected)
    {
      var offset := selected;
      assert Contents() == Shifted(q, selected, offset);
      while offset + 1 < count
        invariant selected <= offset < count && Valid()
        invariant Contents() == Shifted(q, selected, offset)
      {
        ShiftOne(Contents(), q, selected, offset);
        assert Contents()[offset + 1] == slots[Slot(offset + 1)];
        Overwrite(offset, slots[Slot(offset + 1)]);
        offset := offset + 1;
      }
      ShiftedAll(Contents(), q, selected);
    }
  }

  /** The queue with the frames up to `offset` already moved over the gap. */
  ghost function Shifted(q: seq<Frame>, selected: nat, offset: nat): seq<Frame>
    requires selected <= offset < |q|
  {
    q[..selected] + q[selected + 1..offset + 1] + q[offset..]
  }

  lemma ShiftOne(now: seq<Frame>, q: seq<Frame>, selected: nat, offset: nat)
    requires selected <= offset < offset + 1 < |q| && now == Shifted(q, selected, offset)
    ensures |now| == |q| && now[offset := now[offset + 1]] == Shifted(q, selected, offset + 1)
  {
    var next := Shifted(q, selected, offset + 1);
    assert forall i :: 0 <= i < |q| ==> now[i] == if selected <= i < offset then q[i + 1] else q[i];
    assert forall i :: 0 <= i < |q| ==> next[i] == if selected <= i < offset + 1 then q[i + 1] else q[i];
  }

  lemma ShiftedAll(now: seq<Frame>, q: seq<Frame>, selected: nat)
    requires selected < |q| && now == Shifted(q, selected, |q| - 1)
    ensures |now| == |q| && now[..|q| - 1] == Without(q, selected)
  {
    assert q[selected + 1..|q|] == q[selected + 1..];
  }
}
