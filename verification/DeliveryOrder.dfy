/** What holds of every run of the delivery protocol, whatever order publications reach the
    hub in: written events only go up, resync frames never point past what was written, the
    document lane is bounded, and a waiting writer always has a wake-up coming. */
module DeliveryOrder {
  import opened Outbox
  import opened Delivery

  predicate Rising(events: seq<nat>, above: nat, upTo: nat) {
    && (forall i :: 0 <= i < |events| ==> above < events[i] <= upTo)
    && (forall i, j :: 0 <= i < j < |events| ==> events[i] < events[j])
  }

  predicate SendingEvent(s: State) {
    s.writer.Sending? && s.writer.frame.EventFrame?
  }

  // Before catch-up has been queued nothing has been written and the writer is not running.
  predicate Quiet(s: State) {
    !s.prepended ==> s.writer.Off? && s.wire == []
  }

  predicate Early(s: State) {
    s.server.Outside? || s.server.Joined? || s.server.Measured? || s.server.Welcomed? || s.server.Replaying?
  }

  predicate Phases(s: State) {
    && Quiet(s)
    && (Early(s) ==> !s.prepended)
    && (s.server.Serving? ==> s.prepended)
    && (s.server.Outside? || s.server.Joined? || s.server.Measured? ==> s.deltaFrom == 0 && s.lastSeq == 0)
    && s.deltaFrom <= s.lastSeq
  }

  /** The events written so far rise strictly from above the point the session resumed at, and
      the one in flight is above them all. */
  predicate InOrder(s: State) {
    && Phases(s)
    && (if SendingEvent(s)
        then s.lastSeq == s.writer.frame.seqNo > s.deltaFrom && Rising(Events(s.wire), s.deltaFrom, s.lastSeq - 1)
        else Rising(Events(s.wire), s.deltaFrom, s.lastSeq))
  }

  lemma RisingWiden(events: seq<nat>, above: nat, upTo: nat, more: nat)
    requires Rising(events, above, upTo) && upTo <= more
    ensures Rising(events, above, more)
  {
  }

  lemma WrittenEvents(wire: seq<Frame>, frame: Frame)
    ensures Events(wire + [frame]) == Events(wire) + (if frame.EventFrame? then [frame.seqNo] else [])
  {
    EventsConcat(wire, [frame]);
    assert Events([frame][1..]) == [];
  }

  lemma InOrderHub(s: State, action: Action)
    requires InOrder(s) && HubStep(s, action).Some?
    ensures InOrder(HubStep(s, action).value)
  {
  }

  lemma InOrderServer(s: State, action: Action)
    requires InOrder(s) && ServerStep(s, action).Some?
    ensures InOrder(ServerStep(s, action).value)
  {
  }

  lemma InOrderWrite(s: State)
    requires InOrder(s) && s.writer.Sending?
    ensures InOrder(s.(wire := s.wire + [s.writer.frame], writer := Ready))
  {
    WrittenEvents(s.wire, s.writer.frame);
  }

  lemma InOrderWriter(s: State, action: Action)
    requires InOrder(s) && WriterStep(s, action).Some?
    ensures InOrder(WriterStep(s, action).value)
  {
    match action
    case Write => InOrderWrite(s);
    case FailToEncode =>
      if SendingEvent(s) {
        RisingWiden(Events(s.wire), s.deltaFrom, s.lastSeq - 1, s.lastSeq);
      }
    case FailToWrite =>
      if SendingEvent(s) {
        RisingWiden(Events(s.wire), s.deltaFrom, s.lastSeq - 1, s.lastSeq);
      }
    case _ =>
  }

  lemma InOrderStep(s: State, action: Action)
    requires InOrder(s) && Apply(s, action).Some?
    ensures InOrder(Apply(s, action).value)
  {
    if IsEnvironment(action) {
    } else if IsHub(action) {
      InOrderHub(s, action);
    } else if IsServer(action) {
      InOrderServer(s, action);
    } else {
      InOrderWriter(s, action);
    }
  }

  lemma {:induction false} InOrderRun(s: State, actions: seq<Action>)
    requires InOrder(s) && Exec(s, actions).Some?
    ensures InOrder(Exec(s, actions).value)
    decreases |actions|
  {
    if actions != [] {
      InOrderStep(s, actions[0]);
      InOrderRun(Apply(s, actions[0]).value, actions[1..]);
    }
  }

  /** In every run, under any order of publication, even repeated or never, the event
      sequences written to a session rise strictly and start above the point it resumed at. */
  lemma WritesInOrder(log: seq<bool>, published: seq<nat>, fanned: nat, caps: (int, int), actions: seq<Action>)
    requires Exec(Start(log, published, fanned, caps.0, caps.1), actions).Some?
    ensures var s := Exec(Start(log, published, fanned, caps.0, caps.1), actions).value;
            Rising(Events(s.wire), s.deltaFrom, s.lastSeq)
  {
    InOrderRun(Start(log, published, fanned, caps.0, caps.1), actions);
    var s := Exec(Start(log, published, fanned, caps.0, caps.1), actions).value;
    if SendingEvent(s) {
      RisingWiden(Events(s.wire), s.deltaFrom, s.lastSeq - 1, s.lastSeq);
    }
  }

  // ----- Resync frames -----

  // The last event written, or the point the session resumed at if none has been.
  function Reached(wire: seq<Frame>, deltaFrom: nat): nat {
    if Events(wire) == [] then deltaFrom else Events(wire)[|Events(wire)| - 1]
  }

  predicate Sound(frame: Frame, bound: nat) {
    frame.ResyncFrame? && frame.slow ==> frame.fromSeq <= bound
  }

  predicate NoResync(frames: seq<Frame>) {
    forall i :: 0 <= i < |frames| ==> !frames[i].ResyncFrame?
  }

  predicate BoxSound(box: Lanes<Frame>, bound: nat) {
    && (forall i :: 0 <= i < |box.control| ==> Sound(box.control[i], bound))
    && NoResync(box.document)
    && (forall i :: 0 <= i < |box.ephemeral| ==> !box.ephemeral[i].1.ResyncFrame?)
  }

  lemma BoxSoundAfterPush(box: Lanes<Frame>, bound: nat, frame: Frame, key: string, batch: seq<Frame>)
    requires BoxSound(box, bound)
    ensures Sound(frame, bound) ==> BoxSound(PushControl(box, frame).0, bound)
    ensures !frame.ResyncFrame? ==> BoxSound(PushDocument(box, frame).0, bound)
    ensures !frame.ResyncFrame? ==> BoxSound(PushEphemeral(box, key, frame).0, bound)
    ensures NoResync(batch) ==> BoxSound(PrependDocument(box, batch).0, bound)
  {
  }

  lemma BoxSoundAfterPop(box: Lanes<Frame>, bound: nat)
    requires BoxSound(box, bound)
    ensures BoxSound(Pop(box).0, bound)
    ensures Pop(box).1.Some? ==> Sound(Pop(box).1.value, bound)
  {
  }

  lemma BoxSoundWiden(box: Lanes<Frame>, bound: nat, more: nat)
    requires BoxSound(box, bound) && bound <= more
    ensures BoxSound(box, more)
  {
  }

  /** Slow-consumer resync frames on their way carry at most the last sequence stored, travel
      by the control lane only, and those written point no further than what was written. */
  predicate ResyncSound(s: State) {
    && InOrder(s)
    && (!SendingEvent(s) && !s.writer.Done? ==> s.lastSeq == Reached(s.wire, s.deltaFrom))
    && (s.hub.Resyncing? && s.hub.slow ==> s.hub.fromSeq <= s.lastSeq)
    && BoxSound(s.box, s.lastSeq)
    && (s.server.Replaying? ==> NoResync(s.server.frames))
    && (s.writer.Holding? || s.writer.Sending? ==> Sound(s.writer.frame, s.lastSeq))
    && WireSound(s.wire, s.deltaFrom)
  }

  predicate WireSound(wire: seq<Frame>, deltaFrom: nat) {
    forall i :: 0 <= i < |wire| ==> Sound(wire[i], Reached(wire[..i], deltaFrom))
  }

  lemma WireSoundAppend(wire: seq<Frame>, deltaFrom: nat, frame: Frame)
    requires WireSound(wire, deltaFrom) && Sound(frame, Reached(wire, deltaFrom))
    ensures WireSound(wire + [frame], deltaFrom)
  {
    forall i | 0 <= i < |wire + [frame]|
      ensures Sound((wire + [frame])[i], Reached((wire + [frame])[..i], deltaFrom))
    {
      if i < |wire| {
        assert (wire + [frame])[..i] == wire[..i];
      } else {
        assert (wire + [frame])[..i] == wire;
      }
    }
  }

  lemma {:induction false} ReplayHasNoResync(from: nat, upTo: nat, included: set<nat>)
    ensures NoResync(ReplayFrames(from, upTo, included))
    decreases upTo
  {
    if from < upTo {
      ReplayHasNoResync(from, upTo - 1, included);
    }
  }

  lemma ResyncHub(s: State, action: Action)
    requires ResyncSound(s) && HubStep(s, action).Some? && InOrder(HubStep(s, action).value)
    ensures ResyncSound(HubStep(s, action).value)
  {
    match action
    case Visit => BoxSoundAfterPush(s.box, s.lastSeq, EventFrame(s.hub.seqNo), "", []);
    case PushResync => BoxSoundAfterPush(s.box, s.lastSeq, ResyncFrame(s.hub.slow, s.hub.fromSeq), "", []);
    case FanEphemeral(key, tag) => BoxSoundAfterPush(s.box, s.lastSeq, OtherFrame(tag), key, []);
    case _ =>
  }

  lemma ResyncServer(s: State, action: Action)
    requires ResyncSound(s) && ServerStep(s, action).Some? && InOrder(ServerStep(s, action).value)
    ensures ResyncSound(ServerStep(s, action).value)
  {
    match action
    case StoreDelta => BoxSoundWiden(s.box, s.lastSeq, s.server.resumeFrom);
    case ReadReplay(included) => ReplayHasNoResync(s.deltaFrom, CatchUpTop(s), included);
    case QueueReplay => BoxSoundAfterPush(s.box, s.lastSeq, OtherFrame(0), "", s.server.frames);
    case AnswerControl(tag) => BoxSoundAfterPush(s.box, s.lastSeq, OtherFrame(tag), "", []);
    case AnswerDocument(tag) => BoxSoundAfterPush(s.box, s.lastSeq, OtherFrame(tag), "", []);
    case _ =>
  }

  lemma ResyncWriter(s: State, action: Action)
    requires ResyncSound(s) && !action.FailToEncode?
    requires WriterStep(s, action).Some? && InOrder(WriterStep(s, action).value)
    ensures ResyncSound(WriterStep(s, action).value)
  {
    match action
    case PopNext => BoxSoundAfterPop(s.box, s.lastSeq);
    case Compare =>
      if s.writer.frame.EventFrame? && s.writer.frame.seqNo > s.lastSeq {
        BoxSoundWiden(s.box, s.lastSeq, s.writer.frame.seqNo);
      }
    case Write => ResyncWrite(s);
    case _ =>
  }

  lemma ResyncWrite(s: State)
    requires ResyncSound(s) && s.writer.Sending? && InOrder(WriterStep(s, Write).value)
    ensures ResyncSound(WriterStep(s, Write).value)
  {
    ReachedAppend(s.wire, s.deltaFrom, s.writer.frame);
    assert Sound(s.writer.frame, Reached(s.wire, s.deltaFrom));
    WireSoundAppend(s.wire, s.deltaFrom, s.writer.frame);
  }

  lemma ReachedAppend(wire: seq<Frame>, deltaFrom: nat, frame: Frame)
    ensures Reached(wire + [frame], deltaFrom) == (if frame.EventFrame? then frame.seqNo else Reached(wire, deltaFrom))
  {
    WrittenEvents(wire, frame);
  }

  lemma ResyncStep(s: State, action: Action)
    requires ResyncSound(s) && Apply(s, action).Some? && !action.FailToEncode?
    ensures ResyncSound(Apply(s, action).value)
  {
    InOrderStep(s, action);
    if IsEnvironment(action) {
    } else if IsHub(action) {
      ResyncHub(s, action);
    } else if IsServer(action) {
      ResyncServer(s, action);
    } else {
      ResyncWriter(s, action);
    }
  }

  predicate Encodes(actions: seq<Action>) {
    forall i :: 0 <= i < |actions| ==> !actions[i].FailToEncode?
  }

  lemma {:induction false} ResyncRun(s: State, actions: seq<Action>)
    requires ResyncSound(s) && Exec(s, actions).Some? && Encodes(actions)
    ensures ResyncSound(Exec(s, actions).value)
    decreases |actions|
  {
    if actions != [] {
      ResyncStep(s, actions[0]);
      assert forall i :: 0 <= i < |actions[1..]| ==> actions[1..][i] == actions[i + 1];
      ResyncRun(Apply(s, actions[0]).value, actions[1..]);
    }
  }

  /** In every run in which frames encode, under any order of publication, a slow-consumer
      resync that reaches the client asks to resume no later than the last event written
      before it, or the point the session resumed at. */
  lemma ResyncNeverSkips(log: seq<bool>, published: seq<nat>, fanned: nat, caps: (int, int), actions: seq<Action>, i: nat)
    requires Exec(Start(log, published, fanned, caps.0, caps.1), actions).Some? && Encodes(actions)
    requires i < |Exec(Start(log, published, fanned, caps.0, caps.1), actions).value.wire|
    ensures var s := Exec(Start(log, published, fanned, caps.0, caps.1), actions).value;
            Sound(s.wire[i], Reached(s.wire[..i], s.deltaFrom))
  {
    ResyncRun(Start(log, published, fanned, caps.0, caps.1), actions);
  }

  // ----- The document lane is bounded -----

  predicate Bounded(s: State) {
    && Phases(s)
    && |s.box.document| <= s.box.documentCap + (if s.prepended then CATCH_UP_LIMIT else 0)
    && (s.server.Replaying? ==> |s.server.frames| <= CATCH_UP_LIMIT)
  }

  lemma {:induction false} ReplayLength(from: nat, upTo: nat, included: set<nat>)
    ensures |ReplayFrames(from, upTo, included)| <= (if upTo <= from then 0 else upTo - from)
    decreases upTo
  {
    if from < upTo {
      ReplayLength(from, upTo - 1, included);
    }
  }

  lemma BoundedHub(s: State, action: Action)
    requires Bounded(s) && HubStep(s, action).Some? && Phases(HubStep(s, action).value)
    ensures Bounded(HubStep(s, action).value) && HubStep(s, action).value.box.documentCap == s.box.documentCap
  {
  }

  lemma BoundedServer(s: State, action: Action)
    requires Bounded(s) && ServerStep(s, action).Some? && Phases(ServerStep(s, action).value)
    ensures Bounded(ServerStep(s, action).value) && ServerStep(s, action).value.box.documentCap == s.box.documentCap
  {
    if action.ReadReplay? {
      ReplayLength(s.deltaFrom, CatchUpTop(s), action.included);
    }
  }

  lemma BoundedWriter(s: State, action: Action)
    requires Bounded(s) && WriterStep(s, action).Some? && Phases(WriterStep(s, action).value)
    ensures Bounded(WriterStep(s, action).value) && WriterStep(s, action).value.box.documentCap == s.box.documentCap
  {
  }

  lemma BoundedStep(s: State, action: Action)
    requires Bounded(s) && Apply(s, action).Some? && Phases(Apply(s, action).value)
    ensures Bounded(Apply(s, action).value) && Apply(s, action).value.box.documentCap == s.box.documentCap
  {
    if IsEnvironment(action) {
    } else if IsHub(action) {
      BoundedHub(s, action);
    } else if IsServer(action) {
      BoundedServer(s, action);
    } else {
      BoundedWriter(s, action);
    }
  }

  lemma {:induction false} BoundedRun(s: State, actions: seq<Action>)
    requires Bounded(s) && InOrder(s) && Exec(s, actions).Some?
    ensures Bounded(Exec(s, actions).value)
    ensures Exec(s, actions).value.box.documentCap == s.box.documentCap
    decreases |actions|
  {
    if actions != [] {
      InOrderStep(s, actions[0]);
      BoundedStep(s, actions[0]);
      BoundedRun(Apply(s, actions[0]).value, actions[1..]);
    }
  }

  /** The document lane never holds more than its cap and one catch-up. */
  lemma DocumentLaneIsBounded(log: seq<bool>, published: seq<nat>, fanned: nat, caps: (int, int), actions: seq<Action>)
    requires Exec(Start(log, published, fanned, caps.0, caps.1), actions).Some?
    ensures var s := Exec(Start(log, published, fanned, caps.0, caps.1), actions).value;
            |s.box.document| <= (if caps.0 <= 0 then 256 else caps.0) + 500
  {
    BoundedRun(Start(log, published, fanned, caps.0, caps.1), actions);
  }

  // ----- No wake-up is lost -----

  predicate Pending(s: State) {
    |s.box.control| > 0 || |s.box.document| > 0 || |s.box.ephemeral| > 0
  }

  predicate Awake(s: State) {
    && (s.writer.Drained? || s.writer.Waiting? ==> Pending(s) ==> s.box.signal)
    && (s.writer.Waiting? ==> s.box.closed ==> s.box.signal)
  }

  lemma AwakeHub(s: State, action: Action)
    requires Awake(s) && HubStep(s, action).Some?
    ensures Awake(HubStep(s, action).value)
  {
  }

  lemma AwakeServer(s: State, action: Action)
    requires Awake(s) && ServerStep(s, action).Some?
    ensures Awake(ServerStep(s, action).value)
  {
  }

  lemma AwakeWriter(s: State, action: Action)
    requires Awake(s) && WriterStep(s, action).Some?
    ensures Awake(WriterStep(s, action).value)
  {
  }

  lemma AwakeStep(s: State, action: Action)
    requires Awake(s) && Apply(s, action).Some?
    ensures Awake(Apply(s, action).value)
  {
    if IsEnvironment(action) {
    } else if IsHub(action) {
      AwakeHub(s, action);
    } else if IsServer(action) {
      AwakeServer(s, action);
    } else {
      AwakeWriter(s, action);
    }
  }

  lemma {:induction false} AwakeRun(s: State, actions: seq<Action>)
    requires Awake(s) && Exec(s, actions).Some?
    ensures Awake(Exec(s, actions).value)
    decreases |actions|
  {
    if actions != [] {
      AwakeStep(s, actions[0]);
      AwakeRun(Apply(s, actions[0]).value, actions[1..]);
    }
  }

  /** A writer waiting for the signal while anything is queued, or after the queue was closed,
      can always take the step that wakes it. */
  lemma NoLostWakeUp(log: seq<bool>, published: seq<nat>, fanned: nat, caps: (int, int), actions: seq<Action>)
    requires Exec(Start(log, published, fanned, caps.0, caps.1), actions).Some?
    ensures var s := Exec(Start(log, published, fanned, caps.0, caps.1), actions).value;
            s.writer.Waiting? && (Pending(s) || s.box.closed) ==> Apply(s, Wake).Some?
  {
    AwakeRun(Start(log, published, fanned, caps.0, caps.1), actions);
  }
}
