/** The writer's loop over a queue nobody else touches meanwhile: what one uninterrupted drain
    puts on the wire. The delivery protocol takes the same loop apart into single steps. */
module Writer {
  import opened Wrappers
  import opened Outbox
  import opened Delivery
  import opened DeliveryPipe

  // The frames of a queue in the order they will be popped.
  function Contents(l: Lanes<Frame>): seq<Frame> {
    l.control + l.document + Unkeyed(l.ephemeral)
  }

  function Unkeyed(queue: seq<(string, Frame)>): (r: seq<Frame>)
    ensures |r| == |queue| && forall i :: 0 <= i < |r| ==> r[i] == queue[i].1
  {
    seq(|queue|, i requires 0 <= i < |queue| => queue[i].1)
  }

  lemma FirstOfFirst<F>(a: seq<F>, b: seq<F>, c: seq<F>)
    requires a != []
    ensures a + b + c == [a[0]] + (a[1..] + b + c)
  {
  }

  lemma FirstOfSecond<F>(b: seq<F>, c: seq<F>)
    requires b != []
    ensures [] + b + c == [b[0]] + ([] + b[1..] + c)
  {
  }

  lemma UnkeyedFront(queue: seq<(string, Frame)>)
    requires queue != []
    ensures [] + [] + Unkeyed(queue) == [queue[0].1] + ([] + [] + Unkeyed(queue[1..]))
  {
  }

  lemma PopsInOrder(l: Lanes<Frame>)
    ensures Pop(l).1.None? <==> Contents(l) == []
    ensures Pop(l).1.Some? ==> Contents(l) == [Pop(l).1.value] + Contents(Pop(l).0)
    ensures Pop(l).1.None? ==> Pop(l).0 == l
  {
    if |l.control| > 0 {
      FirstOfFirst(l.control, l.document, Unkeyed(l.ephemeral));
    } else if |l.document| > 0 {
      assert l.control == [];
      FirstOfSecond(l.document, Unkeyed(l.ephemeral));
    } else if |l.ephemeral| > 0 {
      assert l.control == [] && l.document == [];
      UnkeyedFront(l.ephemeral);
    }
  }

  // What is written of some frames, given the last sequence sent; a frame that does not encode
  // is passed over, but has moved the sequence on.
  function Written(last: nat, frames: seq<Frame>, encodes: Frame -> bool): seq<Frame>
    decreases |frames|
  {
    if frames == [] then []
    else
      var frame, rest := frames[0], frames[1..];
      if frame.EventFrame? && frame.seqNo <= last then Written(last, rest, encodes)
      else (if encodes(frame) then [frame] else []) + Written(if frame.EventFrame? then frame.seqNo else last, rest, encodes)
  }

  class Writer {
    const outbox: Outbox<Frame>
    var lastSeq: nat
    var wire: seq<Frame>

    constructor (outbox: Outbox<Frame>, lastSeq: nat)
      ensures this.outbox == outbox && this.lastSeq == lastSeq && wire == []
    {
      this.outbox := outbox;
      this.lastSeq, wire := lastSeq, [];
    }

    /** Pop until the queue is empty, sending each frame that is not an event already passed. */
    method Drain(encodes: Frame -> bool)
      requires outbox.Valid()
      modifies this, outbox
      ensures outbox.Valid() && Contents(outbox.View()) == []
      ensures wire == old(wire) + Written(old(lastSeq), old(Contents(outbox.View())), encodes)
      ensures lastSeq == Final(old(lastSeq), Events(old(Contents(outbox.View()))))
    {
      ghost var all, total := Contents(outbox.View()), Final(lastSeq, Events(Contents(outbox.View())));
      ghost var target := wire + Written(lastSeq, all, encodes);
      ghost var left := all;
      var more := true;
      while more
        invariant outbox.Valid() && left == Contents(outbox.View())
        invariant wire + Written(lastSeq, left, encodes) == target
        invariant Final(lastSeq, Events(left)) == total
        invariant !more ==> left == []
        decreases more, |left|
      {
        PopsInOrder(outbox.View());
        var popped := outbox.Next();
        more := popped.Some?;
        if popped.Some? {
          var frame := popped.value;
          ghost var was := left;
          left := Contents(outbox.View());
          assert was[0] == frame && was[1..] == left;
          FinalStep(lastSeq, was);
          if frame.EventFrame? && frame.seqNo <= lastSeq {
            continue;
          }
          if frame.EventFrame? {
            lastSeq := frame.seqNo;
          }
          if encodes(frame) {
            wire := wire + [frame];
          }
        }
      }
    }
  }

  lemma FinalStep(last: nat, frames: seq<Frame>)
    requires frames != []
    ensures Final(last, Events(frames))
            == Final(if frames[0].EventFrame? && frames[0].seqNo > last then frames[0].seqNo else last, Events(frames[1..]))
  {
    var rest := Events(frames[1..]);
    if frames[0].EventFrame? {
      assert ([frames[0].seqNo] + rest)[1..] == rest;
    } else {
      assert [] + rest == rest;
    }
  }

  /** When frames encode, the events written are the queued events with repeats and stragglers
      left out, and every frame that is not an event is written. */
  lemma {:induction false} DrainIsDedup(last: nat, frames: seq<Frame>, encodes: Frame -> bool)
    requires forall frame :: frame in frames ==> encodes(frame)
    ensures Events(Written(last, frames, encodes)) == Dedup(last, Events(frames))
    decreases |frames|
  {
    if frames != [] {
      var frame, rest := frames[0], frames[1..];
      var later := Events(rest);
      assert forall f :: f in rest ==> f in frames;
      if frame.EventFrame? {
        assert Events(frames) == [frame.seqNo] + later && ([frame.seqNo] + later)[1..] == later;
        DrainIsDedup(if frame.seqNo <= last then last else frame.seqNo, rest, encodes);
        if frame.seqNo > last {
          EventsConcat([frame], Written(frame.seqNo, rest, encodes));
          assert Events([frame]) == [frame.seqNo] + Events([frame][1..]) && [frame][1..] == [];
        }
      } else {
        assert Events(frames) == [] + later && [] + later == later;
        DrainIsDedup(last, rest, encodes);
        EventsConcat([frame], Written(last, rest, encodes));
        assert Events([frame]) == [] + Events([frame][1..]) && [frame][1..] == [];
      }
    }
  }

  // ----- The loop and the protocol's steps -----

  lemma ExecFirst(s: State, action: Action, t: State, rest: seq<Action>)
    requires Apply(s, action) == Some(t)
    ensures Exec(s, [action] + rest) == Exec(t, rest)
  {
    assert ([action] + rest)[1..] == rest;
  }

  // The steps for one frame: pop, compare, and write or pass over.
  function FrameSteps(s: State, frame: Frame, encodes: Frame -> bool): seq<Action> {
    [PopNext, Compare] + LastStep(s, frame, encodes)
  }

  function AfterFrame(s: State, frame: Frame, encodes: Frame -> bool): State {
    var popped := s.(box := Pop(s.box).0);
    if frame.EventFrame? && frame.seqNo <= s.lastSeq then popped
    else popped.(lastSeq := if frame.EventFrame? then frame.seqNo else s.lastSeq,
                 wire := if encodes(frame) then s.wire + [frame] else s.wire)
  }

  lemma PopStep(s: State)
    requires s.writer.Ready?
    ensures var (box, frame) := Pop(s.box);
            Apply(s, PopNext) == Some(s.(box := box, writer := if frame.Some? then Holding(frame.value) else Drained))
  {
  }

  lemma CompareStep(s: State)
    requires s.writer.Holding?
    ensures Apply(s, Compare) == Some(CompareFrame(s, s.writer.frame))
  {
  }

  lemma SendStep(s: State)
    requires s.writer.Sending?
    ensures Apply(s, Write) == Some(s.(wire := s.wire + [s.writer.frame], writer := Ready))
    ensures Apply(s, FailToEncode) == Some(s.(writer := Ready))
  {
  }

  // What is left to do with a frame once compared.
  function LastStep(s: State, frame: Frame, encodes: Frame -> bool): seq<Action> {
    if frame.EventFrame? && frame.seqNo <= s.lastSeq then [] else if encodes(frame) then [Write] else [FailToEncode]
  }

  lemma ComparedIsSteps(s: State, holding: State, frame: Frame, encodes: Frame -> bool, rest: seq<Action>)
    requires s.writer.Ready? && holding == s.(box := Pop(s.box).0, writer := Holding(frame))
    ensures Exec(CompareFrame(holding, frame), LastStep(s, frame, encodes) + rest) == Exec(AfterFrame(s, frame, encodes), rest)
  {
    var last, compared := LastStep(s, frame, encodes), CompareFrame(holding, frame);
    if last == [] {
      assert last + rest == rest;
      assert compared == AfterFrame(s, frame, encodes);
    } else {
      SendStep(compared);
      ExecFirst(compared, last[0], AfterFrame(s, frame, encodes), rest);
      assert last + rest == [last[0]] + rest;
    }
  }

  lemma FrameIsSteps(s: State, encodes: Frame -> bool, rest: seq<Action>)
    requires s.writer.Ready? && Pop(s.box).1.Some?
    ensures var frame := Pop(s.box).1.value;
            Exec(s, FrameSteps(s, frame, encodes) + rest) == Exec(AfterFrame(s, frame, encodes), rest)
  {
    var frame := Pop(s.box).1.value;
    var holding := s.(box := Pop(s.box).0, writer := Holding(frame));
    var last := LastStep(s, frame, encodes);
    PopStep(s);
    ExecFirst(s, PopNext, holding, [Compare] + (last + rest));
    CompareStep(holding);
    ExecFirst(holding, Compare, CompareFrame(holding, frame), last + rest);
    assert FrameSteps(s, frame, encodes) + rest == [PopNext] + ([Compare] + (last + rest));
    ComparedIsSteps(s, holding, frame, encodes, rest);
  }

  // What one frame adds to the wire and to the sequence.
  lemma FrameCounts(s: State, encodes: Frame -> bool)
    requires Pop(s.box).1.Some?
    ensures var next := AfterFrame(s, Pop(s.box).1.value, encodes);
            && next.wire + Written(next.lastSeq, Contents(next.box), encodes)
               == s.wire + Written(s.lastSeq, Contents(s.box), encodes)
            && Final(next.lastSeq, Events(Contents(next.box))) == Final(s.lastSeq, Events(Contents(s.box)))
            && |Contents(next.box)| < |Contents(s.box)|
  {
    var frames := Contents(s.box);
    var frame := Pop(s.box).1.value;
    var next := AfterFrame(s, frame, encodes);
    PopsInOrder(s.box);
    assert frames[0] == frame && frames[1..] == Contents(next.box);
    FinalStep(s.lastSeq, frames);
    WrittenStep(s.wire, s.lastSeq, frames, encodes);
  }

  lemma WrittenStep(wire: seq<Frame>, last: nat, frames: seq<Frame>, encodes: Frame -> bool)
    requires frames != []
    ensures var frame, rest := frames[0], frames[1..];
            wire + Written(last, frames, encodes)
            == if frame.EventFrame? && frame.seqNo <= last then wire + Written(last, rest, encodes)
               else (if encodes(frame) then wire + [frame] else wire)
                    + Written(if frame.EventFrame? then frame.seqNo else last, rest, encodes)
  {
  }

  /** An uninterrupted drain is a run of the protocol: some steps of the writer write the same
      frames, store the same sequence and leave the queue empty. */
  lemma {:induction false} DrainIsSteps(s: State, encodes: Frame -> bool) returns (actions: seq<Action>, t: State)
    requires s.writer.Ready?
    ensures Exec(s, actions) == Some(t) && t.writer.Drained? && Contents(t.box) == []
    ensures t.wire == s.wire + Written(s.lastSeq, Contents(s.box), encodes)
    ensures t.lastSeq == Final(s.lastSeq, Events(Contents(s.box)))
    decreases |Contents(s.box)|
  {
    if Pop(s.box).1.None? {
      PopsInOrder(s.box);
      PopStep(s);
      actions, t := [PopNext], s.(box := Pop(s.box).0, writer := Drained);
      ExecFirst(s, PopNext, t, []);
      assert [PopNext] + [] == [PopNext];
    } else {
      var frame := Pop(s.box).1.value;
      FrameCounts(s, encodes);
      var rest, end := DrainIsSteps(AfterFrame(s, frame, encodes), encodes);
      FrameIsSteps(s, encodes, rest);
      actions, t := FrameSteps(s, frame, encodes) + rest, end;
    }
  }
}
