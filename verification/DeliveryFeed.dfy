/** What reaches the wire under any order of publication: of catch-up followed by the
    publications handed over since the session joined, the events that come in turn. */
module DeliveryFeed {
  import opened Outbox
  import opened Delivery
  import opened DeliveryOrder
  import opened DeliveryPipe

  // ----- The invariant, part by part -----

  // Where the hub and the session stand in the list of publications.
  predicate Tracking(s: State) {
    && s.joinedAt <= s.reach <= s.fanned <= |s.published|
    && (forall i :: 0 <= i < |s.published| ==> s.published[i] <= |s.log|)
    && (s.hub.Fanning? ==> s.fanned >= 1 && s.hub.seqNo == s.published[s.fanned - 1])
    && (s.server.Outside? ==> !s.attached && s.joinedAt == s.reach == 0)
    && (s.hub.Stopped? ==> !s.attached)
    && (s.attached && s.hub.Idle? ==> s.reach == s.fanned)
    && (s.attached && s.hub.Fanning? ==> s.reach == s.fanned - 1)
  }

  predicate NoEvents(frames: seq<Frame>) {
    forall i :: 0 <= i < |frames| ==> !frames[i].EventFrame?
  }

  // Events travel by the document lane only.
  predicate OneLane(box: Lanes<Frame>) {
    NoEvents(box.control) && forall i :: 0 <= i < |box.ephemeral| ==> !box.ephemeral[i].1.EventFrame?
  }

  // The resume point is stored before catch-up is read.
  predicate Resumed(s: State) {
    s.server.Welcomed? || s.server.Replaying? ==> s.lastSeq == s.deltaFrom
  }

  /** The events handed over since the session joined, in that order. */
  function Handed(s: State): seq<nat> {
    if s.joinedAt <= s.reach <= |s.published| then Concerning(s.log, s.published[s.joinedAt..s.reach]) else []
  }

  /** Everything the session was ever given: catch-up, then what was handed over. */
  function Fed(s: State): seq<nat> {
    s.caught + Handed(s)
  }

  // Events handed to the connection, the one in flight included.
  function Sent(s: State): seq<nat> {
    Events(s.wire) + (if SendingEvent(s) then [s.writer.frame.seqNo] else [])
  }

  // Events the writer still has to compare.
  function Ahead(s: State): seq<nat> {
    (if s.writer.Holding? && s.writer.frame.EventFrame? then [s.writer.frame.seqNo] else []) + Events(s.box.document)
  }

  // Until catch-up is queued the lane holds what the hub handed over since the session joined.
  predicate Gathering(s: State) {
    Early(s) ==> Events(s.box.document) == Handed(s)
  }

  // Sent and still to be sent make up what the writer would send of all it was given.
  predicate InStep(from: nat, fed: seq<nat>, sent: seq<nat>, last: nat, ahead: seq<nat>) {
    sent + Dedup(last, ahead) == Dedup(from, fed) && Final(last, ahead) == Final(from, fed)
  }

  predicate Flowing(s: State) {
    s.prepended ==>
      if s.writer.Done? then Events(s.wire) <= Dedup(s.deltaFrom, Fed(s))
      else InStep(s.deltaFrom, Fed(s), Sent(s), s.lastSeq, Ahead(s))
  }

  predicate Feeding(s: State) {
    Phases(s) && Tracking(s) && OneLane(s.box) && Resumed(s) && Gathering(s) && Flowing(s)
  }

  // ----- Positions and lanes -----

  lemma OneLaneAfter(box: Lanes<Frame>, frame: Frame, key: string, batch: seq<Frame>)
    requires OneLane(box)
    ensures !frame.EventFrame? ==> OneLane(PushControl(box, frame).0)
    ensures OneLane(PushDocument(box, frame).0)
    ensures !frame.EventFrame? ==> OneLane(PushEphemeral(box, key, frame).0)
    ensures OneLane(PrependDocument(box, batch).0)
    ensures OneLane(Pop(box).0)
  {
  }

  predicate Positioned(s: State) {
    Tracking(s) && Resumed(s)
  }

  lemma EnvironmentPositions(s: State, action: Action)
    requires Positioned(s) && Environment(s, action).Some?
    ensures Positioned(Environment(s, action).value)
  {
  }

  lemma HubPositions(s: State, action: Action)
    requires Positioned(s) && HubStep(s, action).Some?
    ensures Positioned(HubStep(s, action).value)
  {
  }

  lemma HubOneLane(s: State, action: Action)
    requires OneLane(s.box) && HubStep(s, action).Some?
    ensures OneLane(HubStep(s, action).value.box)
  {
    match action
    case Visit => OneLaneAfter(s.box, EventFrame(s.hub.seqNo), "", []);
    case PushResync => OneLaneAfter(s.box, ResyncFrame(s.hub.slow, s.hub.fromSeq), "", []);
    case FanEphemeral(key, tag) => OneLaneAfter(s.box, OtherFrame(tag), key, []);
    case _ =>
  }

  lemma ServerPositions(s: State, action: Action)
    requires Phases(s) && Positioned(s) && ServerStep(s, action).Some?
    ensures Positioned(ServerStep(s, action).value)
  {
  }

  lemma ServerOneLane(s: State, action: Action)
    requires OneLane(s.box) && ServerStep(s, action).Some?
    ensures OneLane(ServerStep(s, action).value.box)
  {
    match action
    case QueueReplay => OneLaneAfter(s.box, OtherFrame(0), "", s.server.frames);
    case AnswerControl(tag) => OneLaneAfter(s.box, OtherFrame(tag), "", []);
    case AnswerDocument(tag) => OneLaneAfter(s.box, OtherFrame(tag), "", []);
    case _ =>
  }

  lemma WriterPositions(s: State, action: Action)
    requires Phases(s) && Positioned(s) && WriterStep(s, action).Some?
    ensures Positioned(WriterStep(s, action).value)
  {
  }

  lemma WriterOneLane(s: State, action: Action)
    requires OneLane(s.box) && WriterStep(s, action).Some?
    ensures OneLane(WriterStep(s, action).value.box)
  {
    OneLaneAfter(s.box, OtherFrame(0), "", []);
  }

  // ----- Everyone else -----

  lemma CommitKeeps(s: State, entitled: bool)
    requires Feeding(s)
    ensures Gathering(s.(log := s.log + [entitled])) && Flowing(s.(log := s.log + [entitled]))
  {
    ConcerningGrows(s.log, [entitled], s.published[s.joinedAt..s.reach]);
    assert Handed(s.(log := s.log + [entitled])) == Handed(s);
  }

  lemma PublishKeeps(s: State, n: nat)
    requires Feeding(s)
    ensures Gathering(s.(published := s.published + [n])) && Flowing(s.(published := s.published + [n]))
  {
    assert (s.published + [n])[s.joinedAt..s.reach] == s.published[s.joinedAt..s.reach];
    assert Handed(s.(published := s.published + [n])) == Handed(s);
  }

  // ----- The hub -----

  lemma AheadAppend(s: State, frame: Frame)
    ensures Ahead(s.(box := s.box.(document := s.box.document + [frame])))
         == Ahead(s) + (if frame.EventFrame? then [frame.seqNo] else [])
  {
    WrittenEvents(s.box.document, frame);
    if s.writer.Holding? && s.writer.frame.EventFrame? {
      assert [s.writer.frame.seqNo] + (Events(s.box.document) + [s.writer.frame.seqNo])
          == [s.writer.frame.seqNo] + Events(s.box.document) + [s.writer.frame.seqNo];
    }
  }

  // One publication handed over, whether it concerns the user or not.
  predicate HandedOver(s: State, t: State) {
    && s.attached && s.hub.Fanning? && t.reach == s.fanned
    && t.log == s.log && t.published == s.published && t.deltaFrom == s.deltaFrom && t.lastSeq == s.lastSeq
    && t.joinedAt == s.joinedAt && t.caught == s.caught && t.prepended == s.prepended
    && t.server == s.server && t.writer == s.writer && t.wire == s.wire
    && t.box.document == s.box.document + (if IsEntitled(s.log, s.hub.seqNo) then [EventFrame(s.hub.seqNo)] else [])
  }

  lemma HandedOneMore(s: State, t: State)
    requires Tracking(s) && HandedOver(s, t)
    ensures Handed(t) == if IsEntitled(s.log, s.hub.seqNo) then Handed(s) + [s.hub.seqNo] else Handed(s)
    ensures Fed(t) == if IsEntitled(s.log, s.hub.seqNo) then Fed(s) + [s.hub.seqNo] else Fed(s)
  {
    var before := s.published[s.joinedAt..s.reach];
    assert t.published[t.joinedAt..t.reach] == before + [s.hub.seqNo];
    ConcerningMore(s.log, before, s.hub.seqNo);
    assert Handed(s) + [] == Handed(s);
    assert s.caught + (Handed(s) + [s.hub.seqNo]) == s.caught + Handed(s) + [s.hub.seqNo];
  }

  // The same event at the end of both lists changes both sides alike.
  lemma InStepMore(from: nat, fed: seq<nat>, sent: seq<nat>, last: nat, ahead: seq<nat>, n: nat)
    requires InStep(from, fed, sent, last, ahead)
    ensures InStep(from, fed + [n], sent, last, ahead + [n])
  {
    AppendOne(from, fed, n);
    AppendOne(last, ahead, n);
    var more := if n <= Final(from, fed) then [] else [n];
    assert sent + (Dedup(last, ahead) + more) == sent + Dedup(last, ahead) + more;
  }

  lemma HandOverKeeps(s: State, t: State)
    requires Feeding(s) && HandedOver(s, t)
    ensures Gathering(t) && Flowing(t)
  {
    var n := s.hub.seqNo;
    HandedOneMore(s, t);
    assert s.box.document + [] == s.box.document;
    WrittenEvents(s.box.document, EventFrame(n));
    AheadAppend(s, EventFrame(n));
    assert Ahead(t) == if IsEntitled(s.log, n) then Ahead(s) + [n] else Ahead(s);
    assert Sent(t) == Sent(s);
    AppendOne(s.deltaFrom, Fed(s), n);
    if s.prepended && !s.writer.Done? && IsEntitled(s.log, n) {
      InStepMore(s.deltaFrom, Fed(s), Sent(s), s.lastSeq, Ahead(s), n);
    }
  }

  lemma VisitKeeps(s: State)
    requires Feeding(s) && s.hub.Fanning?
    ensures Gathering(VisitSession(s, s.hub.seqNo)) && Flowing(VisitSession(s, s.hub.seqNo))
  {
    var t := VisitSession(s, s.hub.seqNo);
    if s.attached && t.reach == s.fanned {
      assert s.box.document + [] == s.box.document;
      HandOverKeeps(s, t);
    }
  }

  // Steps that leave log, positions, document lane, writer and wire alone.
  predicate SamePipe(s: State, t: State) {
    && t.log == s.log && t.published == s.published && t.deltaFrom == s.deltaFrom && t.lastSeq == s.lastSeq
    && t.joinedAt == s.joinedAt && t.reach == s.reach && t.caught == s.caught && t.prepended == s.prepended
    && t.box.document == s.box.document && t.writer == s.writer && t.wire == s.wire
  }

  lemma SamePipeFlows(s: State, t: State)
    requires Gathering(s) && Flowing(s) && SamePipe(s, t)
    ensures Flowing(t)
    ensures Early(s) || !Early(t) ==> Gathering(t)
  {
  }

  lemma HubKeeps(s: State, action: Action)
    requires Feeding(s) && HubStep(s, action).Some?
    ensures Gathering(HubStep(s, action).value) && Flowing(HubStep(s, action).value)
  {
    if action.Visit? {
      VisitKeeps(s);
    } else {
      assert SamePipe(s, HubStep(s, action).value);
      SamePipeFlows(s, HubStep(s, action).value);
    }
  }

  // ----- The serving goroutine -----

  lemma JoinKeeps(s: State)
    requires Feeding(s) && s.server.Outside? && ServerStep(s, Join).Some?
    ensures Gathering(ServerStep(s, Join).value) && Flowing(ServerStep(s, Join).value)
  {
    assert s.published[0..0] == [] && s.published[s.fanned..s.fanned] == [];
    assert Handed(s) == [] && Handed(ServerStep(s, Join).value) == [];
  }

  // Catch-up just queued, and the writer not yet started.
  lemma QueuedFlows(s: State, t: State)
    requires Phases(s) && Gathering(s) && s.server.Replaying? && s.lastSeq == s.deltaFrom
    requires t.box.document == s.server.frames + s.box.document
    requires t == s.(box := t.box, server := Serving, caught := Events(s.server.frames), prepended := true)
    ensures Flowing(t)
  {
    EventsConcat(s.server.frames, s.box.document);
    assert [] + Events(t.box.document) == Events(t.box.document);
    assert Handed(t) == Handed(s);
    assert Ahead(t) == Fed(t) && Sent(t) == [];
    assert [] + Dedup(t.deltaFrom, Fed(t)) == Dedup(t.deltaFrom, Fed(t));
  }

  lemma QueueReplayKeeps(s: State)
    requires Feeding(s) && s.server.Replaying?
    ensures Gathering(ServerStep(s, QueueReplay).value) && Flowing(ServerStep(s, QueueReplay).value)
  {
    var t := ServerStep(s, QueueReplay).value;
    if t.server.Serving? {
      assert [] + s.box.document == s.box.document;
      QueuedFlows(s, t);
    }
  }

  lemma AnswerDocumentKeeps(s: State, tag: nat)
    requires Feeding(s) && s.server.Serving?
    ensures Flowing(ServerStep(s, AnswerDocument(tag)).value)
  {
    AheadAppend(s, OtherFrame(tag));
    assert Ahead(s) + [] == Ahead(s);
    assert Ahead(ServerStep(s, AnswerDocument(tag)).value) == Ahead(s);
  }

  lemma ServerKeeps(s: State, action: Action)
    requires Feeding(s) && ServerStep(s, action).Some?
    ensures Gathering(ServerStep(s, action).value) && Flowing(ServerStep(s, action).value)
  {
    var t := ServerStep(s, action).value;
    match action
    case Join => JoinKeeps(s);
    case QueueReplay => QueueReplayKeeps(s);
    case AnswerDocument(tag) => AnswerDocumentKeeps(s, tag);
    case StoreDelta =>
    case _ => SamePipeFlows(s, t);
  }

  // ----- The writer -----

  lemma PopKeepsAhead(s: State)
    requires OneLane(s.box) && s.writer.Ready?
    ensures Ahead(WriterStep(s, PopNext).value) == Ahead(s) && Sent(WriterStep(s, PopNext).value) == Sent(s)
  {
    assert [] + Events(s.box.document) == Events(s.box.document);
  }

  // The writer compares the front of the queue with the last sequence sent.
  lemma InStepCompare(from: nat, fed: seq<nat>, sent: seq<nat>, last: nat, n: nat, rest: seq<nat>)
    requires InStep(from, fed, sent, last, [n] + rest)
    ensures n <= last ==> InStep(from, fed, sent, last, rest)
    ensures n > last ==> InStep(from, fed, sent + [n], n, rest)
  {
    assert ([n] + rest)[1..] == rest;
    if n > last {
      assert sent + ([n] + Dedup(n, rest)) == sent + [n] + Dedup(n, rest);
    }
  }

  // A frame that is not an event, one already passed, and one that is sent.
  lemma CompareViews(s: State)
    requires s.writer.Holding?
    ensures var t, frame, rest := CompareFrame(s, s.writer.frame), s.writer.frame, Events(s.box.document);
            && Fed(t) == Fed(s) && Ahead(t) == rest && Sent(s) == Events(s.wire)
            && Ahead(s) == (if frame.EventFrame? then [frame.seqNo] + rest else rest)
            && Sent(t) == (if frame.EventFrame? && frame.seqNo > s.lastSeq then Sent(s) + [frame.seqNo] else Sent(s))
  {
    assert [] + Events(s.box.document) == Events(s.box.document);
    assert Events(s.wire) + [] == Events(s.wire);
  }

  lemma CompareKeeps(s: State)
    requires Flowing(s) && s.writer.Holding?
    ensures Flowing(CompareFrame(s, s.writer.frame))
  {
    CompareViews(s);
    if s.prepended && s.writer.frame.EventFrame? {
      InStepCompare(s.deltaFrom, Fed(s), Sent(s), s.lastSeq, s.writer.frame.seqNo, Events(s.box.document));
    }
  }

  lemma WriteKeeps(s: State)
    requires Feeding(s) && s.writer.Sending?
    ensures Flowing(WriterStep(s, Write).value)
  {
    WrittenEvents(s.wire, s.writer.frame);
    assert Sent(WriterStep(s, Write).value) == Sent(s);
  }

  // What has been written is a prefix, at every moment.
  lemma PrefixSoFar(s: State)
    requires Feeding(s) && s.prepended
    ensures Events(s.wire) <= Dedup(s.deltaFrom, Fed(s))
  {
    if !s.writer.Done? {
      assert Events(s.wire) <= Sent(s) <= Sent(s) + Dedup(s.lastSeq, Ahead(s));
    }
  }

  lemma WriterKeeps(s: State, action: Action)
    requires Feeding(s) && WriterStep(s, action).Some? && !action.FailToEncode?
    ensures Gathering(WriterStep(s, action).value) && Flowing(WriterStep(s, action).value)
  {
    match action
    case PopNext => PopKeepsAhead(s);
    case Compare => CompareKeeps(s);
    case Write => WriteKeeps(s);
    case _ =>
      if s.prepended {
        PrefixSoFar(s);
      }
  }

  // ----- Whole runs -----

  /** Every step of every actor keeps sent plus pending equal to what the writer would send of
      all the session was given. */
  lemma FeedingStep(s: State, action: Action)
    requires Feeding(s) && InOrder(s) && Apply(s, action).Some? && !action.FailToEncode?
    ensures Feeding(Apply(s, action).value) && InOrder(Apply(s, action).value)
  {
    InOrderStep(s, action);
    if IsEnvironment(action) {
      EnvironmentPositions(s, action);
      if action.Commit? {
        CommitKeeps(s, action.entitled);
      } else {
        PublishKeeps(s, action.seqNo);
      }
    } else if IsHub(action) {
      HubPositions(s, action);
      HubOneLane(s, action);
      HubKeeps(s, action);
    } else if IsServer(action) {
      ServerPositions(s, action);
      ServerOneLane(s, action);
      ServerKeeps(s, action);
    } else {
      WriterPositions(s, action);
      WriterOneLane(s, action);
      WriterKeeps(s, action);
    }
  }

  lemma {:induction false} FeedingRun(s: State, actions: seq<Action>)
    requires Feeding(s) && InOrder(s) && Encodes(actions) && Exec(s, actions).Some?
    ensures Feeding(Exec(s, actions).value) && InOrder(Exec(s, actions).value)
    decreases |actions|
  {
    if actions != [] {
      FeedingStep(s, actions[0]);
      assert forall i :: 0 <= i < |actions[1..]| ==> actions[1..][i] == actions[i + 1];
      FeedingRun(Apply(s, actions[0]).value, actions[1..]);
    }
  }

  // A world in motion before the session arrives: some events committed, some of them
  // published in whatever order, the first of those publications taken by the hub.
  predicate Begun(s: State, caps: (int, int)) {
    && s == Start(s.log, s.published, s.fanned, caps.0, caps.1)
    && s.fanned <= |s.published|
    && forall i :: 0 <= i < |s.published| ==> s.published[i] <= |s.log|
  }

  lemma BegunIsFeeding(s: State, caps: (int, int))
    requires Begun(s, caps)
    ensures Feeding(s) && InOrder(s)
  {
    assert s.published[0..0] == [];
  }

  // The session is still attached and everything published has made its way through.
  predicate Quiescent(s: State) {
    && s.attached && s.prepended && s.hub.Idle? && s.fanned == |s.published|
    && (s.writer.Ready? || s.writer.Drained? || s.writer.Waiting?)
    && Events(s.box.document) == []
  }

  lemma WrittenSoFar(t: State)
    requires Feeding(t)
    ensures Events(t.wire) <= Dedup(t.deltaFrom, t.caught + Concerning(t.log, t.published[t.joinedAt..t.reach]))
  {
    if t.prepended {
      PrefixSoFar(t);
    } else {
      assert Events(t.wire) == [];
    }
  }

  lemma WrittenInTheEnd(t: State)
    requires Feeding(t) && Quiescent(t)
    ensures Events(t.wire) == Dedup(t.deltaFrom, t.caught + Concerning(t.log, t.published[t.joinedAt..]))
  {
    assert Ahead(t) == [] && Dedup(t.lastSeq, Ahead(t)) == [];
    assert Sent(t) == Events(t.wire) + [] && Sent(t) + [] == Sent(t);
    assert t.published[t.joinedAt..t.reach] == t.published[t.joinedAt..];
    assert Fed(t) == t.caught + Concerning(t.log, t.published[t.joinedAt..]);
  }

  /** Over every run in which frames encode, under any order of publication, the events written
      are a prefix of those that come in turn in catch-up followed by the entitled publications
      since the session joined; once everything has made its way through, they are all of them. */
  lemma WireIsFedInTurn(s: State, caps: (int, int), actions: seq<Action>)
    requires Begun(s, caps) && Encodes(actions) && Exec(s, actions).Some?
    ensures var t := Exec(s, actions).value;
            && t.joinedAt <= t.reach <= |t.published|
            && Events(t.wire) <= Dedup(t.deltaFrom, t.caught + Concerning(t.log, t.published[t.joinedAt..t.reach]))
            && (Quiescent(t) ==>
                  Events(t.wire) == Dedup(t.deltaFrom, t.caught + Concerning(t.log, t.published[t.joinedAt..])))
  {
    BegunIsFeeding(s, caps);
    FeedingRun(s, actions);
    var t := Exec(s, actions).value;
    WrittenSoFar(t);
    if Quiescent(t) {
      WrittenInTheEnd(t);
    }
  }

  // ----- Catch-up that includes what live fan-out would have shown -----

  predicate ReplaysEntitled(log: seq<bool>, included: set<nat>) {
    forall n: nat :: n <= |log| ==> (n in included <==> IsEntitled(log, n))
  }

  predicate Faithful(s: State, action: Action) {
    !action.FailToEncode? && (action.ReadReplay? ==> ReplaysEntitled(s.log, action.included))
  }

  predicate FaithfulRun(s: State, actions: seq<Action>)
    decreases |actions|
  {
    actions == [] ||
    (Faithful(s, actions[0]) && (Apply(s, actions[0]).Some? ==> FaithfulRun(Apply(s, actions[0]).value, actions[1..])))
  }

  // Where the session resumes is within the log, and catch-up is what the log has from there.
  predicate Catching(s: State) {
    && s.deltaFrom <= |s.log|
    && (s.server.Measured? ==> s.server.resumeFrom <= |s.log|)
    && (s.server.Replaying? || s.prepended ==> s.deltaFrom <= s.top <= |s.log|)
    && (s.server.Replaying? ==> Events(s.server.frames) == Entitled(s.log, s.deltaFrom, s.top))
    && (s.prepended ==> s.caught == Entitled(s.log, s.deltaFrom, s.top))
  }

  lemma {:induction false} ReplayEvents(log: seq<bool>, from: nat, upTo: nat, included: set<nat>)
    requires upTo <= |log| && ReplaysEntitled(log, included)
    ensures Events(ReplayFrames(from, upTo, included)) == Entitled(log, from, upTo)
    decreases upTo
  {
    if from < upTo {
      ReplayEvents(log, from, upTo - 1, included);
      var before := ReplayFrames(from, upTo - 1, included);
      if upTo in included {
        WrittenEvents(before, EventFrame(upTo));
      } else {
        assert before + [] == before;
      }
      assert upTo in included <==> IsEntitled(log, upTo);
    }
  }

  lemma CatchingServer(s: State, action: Action)
    requires Phases(s) && Catching(s) && Faithful(s, action) && ServerStep(s, action).Some?
    ensures Catching(ServerStep(s, action).value)
  {
    if action.ReadReplay? {
      ReplayEvents(s.log, s.deltaFrom, CatchUpTop(s), action.included);
    }
  }

  lemma CatchingStep(s: State, action: Action)
    requires Phases(s) && Catching(s) && Faithful(s, action) && Apply(s, action).Some?
    ensures Catching(Apply(s, action).value)
  {
    if action.Commit? {
      if s.server.Replaying? || s.prepended {
        EntitledGrows(s.log, [action.entitled], s.deltaFrom, s.top);
      }
    } else if IsServer(action) {
      CatchingServer(s, action);
    }
  }

  lemma {:induction false} CatchingRun(s: State, actions: seq<Action>)
    requires Feeding(s) && InOrder(s) && Catching(s) && FaithfulRun(s, actions) && Exec(s, actions).Some?
    ensures Feeding(Exec(s, actions).value) && Catching(Exec(s, actions).value)
    decreases |actions|
  {
    if actions != [] {
      CatchingStep(s, actions[0]);
      FeedingStep(s, actions[0]);
      CatchingRun(Apply(s, actions[0]).value, actions[1..]);
    }
  }

  lemma {:induction false} FaithfulEncodes(s: State, actions: seq<Action>)
    requires FaithfulRun(s, actions) && Exec(s, actions).Some?
    ensures Encodes(actions)
    decreases |actions|
  {
    if actions != [] {
      FaithfulEncodes(Apply(s, actions[0]).value, actions[1..]);
      assert actions == [actions[0]] + actions[1..];
    }
  }

  /** The exact condition, under any order of publication: a session to which everything
      published has made its way has all entitled events above its resume point if and only if
      each of those beyond catch-up was published since it joined, ahead of any larger one. */
  lemma NothingLostIffInTurn(s: State, caps: (int, int), actions: seq<Action>)
    requires Begun(s, caps) && FaithfulRun(s, actions) && Exec(s, actions).Some?
    ensures var t := Exec(s, actions).value;
            Quiescent(t) ==>
              && t.joinedAt <= |t.published|
              && (Events(t.wire) == Entitled(t.log, t.deltaFrom, |t.log|) <==>
                    forall n: nat :: t.top < n && IsEntitled(t.log, n) ==>
                      InTurn(Concerning(t.log, t.published[t.joinedAt..]), n))
  {
    BegunIsFeeding(s, caps);
    CatchingRun(s, actions);
    FaithfulEncodes(s, actions);
    WireIsFedInTurn(s, caps, actions);
    var t := Exec(s, actions).value;
    if Quiescent(t) {
      var handed := Concerning(t.log, t.published[t.joinedAt..]);
      ConcerningMembers(t.log, t.published[t.joinedAt..]);
      forall i | 0 <= i < |handed| ensures IsEntitled(t.log, handed[i]) {
        assert handed[i] in handed;
      }
      EverythingIffInTurn(t.log, t.deltaFrom, t.top, handed);
    }
  }
}
