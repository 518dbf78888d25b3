/** The hub's fan-out over all sessions of a world, and the session methods it calls. The loop
    visits sessions in no particular order; what happens to each depends on that session alone. */
module Hub {
  import opened Wrappers
  import opened Outbox
  import opened Delivery

  datatype Lane = ControlLane | DocumentLane | EphemeralLane

  // Frames for everyone who is eligible, or a frame of their own for some users.
  datatype Publication = Publication(
    channel: string, lane: Lane, key: string, frame: Frame, perUser: Option<map<Id, Frame>>,
    audience: seq<Id>, exclude: string)

  /** An empty audience is everyone. */
  predicate Allows(publication: Publication, userId: Id) {
    |publication.audience| == 0 || userId in publication.audience
  }

  // The frame a session is due, if any.
  function FrameFor(publication: Publication, id: string, userId: Id, subscriptions: set<string>): Option<Frame> {
    if id == publication.exclude || publication.channel !in subscriptions || !Allows(publication, userId) then None
    else if publication.perUser.None? then Some(publication.frame)
    else if userId in publication.perUser.value then Some(publication.perUser.value[userId])
    else None
  }

  function Deliver(lane: Lane, key: string, box: Lanes<Frame>, frame: Frame): (Lanes<Frame>, Reply) {
    match lane
    case EphemeralLane => PushEphemeral(box, key, frame)
    case ControlLane => PushControl(box, frame)
    case DocumentLane => PushDocument(box, frame)
  }

  function ClosedWithResync(box: Lanes<Frame>, slow: bool, fromSeq: nat): Lanes<Frame> {
    Close(PushControl(box, ResyncFrame(slow, fromSeq)).0)
  }

  // One session's queue after a fan-out, and whether the hub lets go of the session.
  function Handled(lane: Lane, key: string, due: Option<Frame>, box: Lanes<Frame>, lastSeq: nat): (Lanes<Frame>, bool) {
    if due.None? then (box, false)
    else
      var (next, reply) := Deliver(lane, key, box, due.value);
      if reply.Accepted? then (next, false) else (ClosedWithResync(next, true, lastSeq), true)
  }

  // What the hub reads of a session, and the queue it pushes to.
  datatype Session = Session(userId: Id, subscriptions: set<string>, lastSeq: nat, box: Lanes<Frame>)

  // A session after its share of a fan-out, and whether its queue refused the frame.
  function Received(publication: Publication, id: string, session: Session): (Session, bool) {
    var due := FrameFor(publication, id, session.userId, session.subscriptions);
    var (box, gone) := Handled(publication.lane, publication.key, due, session.box, session.lastSeq);
    (session.(box := box), gone)
  }

  // What visiting does to each session.
  function Outcomes<T>(sessions: map<string, T>, visit: (string, T) -> (T, bool)): (r: map<string, (T, bool)>)
    ensures r.Keys == sessions.Keys && forall id :: id in r ==> r[id] == visit(id, sessions[id])
  {
    map id | id in sessions :: visit(id, sessions[id])
  }

  function Farewell(session: Session): Session {
    session.(box := ClosedWithResync(session.box, false, 0))
  }

  // Those kept, and those let go.
  function Stay<T>(outcomes: map<string, (T, bool)>): map<string, T> {
    map id | id in outcomes && !outcomes[id].1 :: outcomes[id].0
  }

  function Go<T>(outcomes: map<string, (T, bool)>): map<string, T> {
    map id | id in outcomes && outcomes[id].1 :: outcomes[id].0
  }

  // Visit every session once, in whatever order.
  method Visited<T>(all: map<string, T>, visit: (string, T) -> (T, bool)) returns (sessions: map<string, T>, gone: map<string, T>)
    ensures sessions == Stay(Outcomes(all, visit))
    ensures gone == Go(Outcomes(all, visit))
  {
    sessions, gone := all, map[];
    var pending := all.Keys;
    while pending != {}
      invariant pending <= all.Keys
      invariant forall id :: id in sessions <==> id in all && (id in pending || !visit(id, all[id]).1)
      invariant forall id :: id in sessions ==> sessions[id] == if id in pending then all[id] else visit(id, all[id]).0
      invariant forall id :: id in gone <==> id in all && id !in pending && visit(id, all[id]).1
      invariant forall id :: id in gone ==> gone[id] == visit(id, all[id]).0
      decreases |pending|
    {
      var id :| id in pending;
      var (session, refused) := visit(id, sessions[id]);
      pending := pending - {id};
      if refused {
        sessions, gone := sessions - {id}, gone[id := session];
      } else {
        sessions := sessions[id := session];
      }
    }
  }

  function Kept(publication: Publication, sessions: map<string, Session>): map<string, Session> {
    Stay(Outcomes(sessions, (id, session) => Received(publication, id, session)))
  }

  function LetGo(publication: Publication, sessions: map<string, Session>): map<string, Session> {
    Go(Outcomes(sessions, (id, session) => Received(publication, id, session)))
  }

  function Dismissed(sessions: map<string, Session>): map<string, Session> {
    Go(Outcomes(sessions, (id, session) => (Farewell(session), true)))
  }

  /** The hub of a world: the sessions it serves, and, for the record, those it has let go with
      the queue it left them. */
  class Hub {
    var sessions: map<string, Session>
    var released: map<string, Session>
    var stopped: bool

    constructor ()
      ensures sessions == map[] && released == map[] && !stopped
    {
      sessions, released, stopped := map[], map[], false;
    }

    // Joining, leaving and publishing to a hub that has stopped do nothing.
    method Join(id: string, session: Session)
      modifies this
      ensures sessions == if stopped then old(sessions) else Served(old(sessions), DoJoin(id, session))
      ensures released == old(released) && stopped == old(stopped)
    {
      if !stopped {
        sessions := sessions[id := session];
      }
    }

    method Leave(id: string)
      modifies this
      ensures sessions == if stopped then old(sessions) else Served(old(sessions), DoLeave(id))
      ensures released == old(released) && stopped == old(stopped)
    {
      if !stopped {
        sessions := sessions - {id};
      }
    }

    // Those let go move from one table to the other.
    method VisitAll(visit: (string, Session) -> (Session, bool))
      modifies this
      ensures stopped == old(stopped)
      ensures var outcomes := Outcomes(old(sessions), visit);
              && sessions == Stay(outcomes)
              && released == old(released) + Go(outcomes)
    {
      var kept, gone := Visited(sessions, visit);
      sessions, released := kept, released + gone;
    }

    /** Each session ends up as if the publication had been for it alone, and the hub lets go of
        exactly those whose queue refused the frame. */
    method FanOut(publication: Publication)
      modifies this
      ensures stopped == old(stopped)
      ensures sessions == Served(old(sessions), DoPublish(publication))
      ensures released == old(released) + LetGo(publication, old(sessions))
    {
      VisitAll((id, session) => Received(publication, id, session));
    }

    /** The world closes: every session is told to start over, and the hub serves no one. */
    method Quit()
      modifies this
      ensures stopped && sessions == map[]
      ensures released == old(released) + Dismissed(old(sessions))
    {
      VisitAll((id, session) => (Farewell(session), true));
      stopped := true;
    }
  }

  // ----- One session of many -----

  datatype Op = DoJoin(id: string, session: Session) | DoLeave(id: string) | DoPublish(publication: Publication)

  // What the hub does to its table.
  function Served(sessions: map<string, Session>, op: Op): map<string, Session> {
    match op
    case DoJoin(id, session) => sessions[id := session]
    case DoLeave(id) => sessions - {id}
    case DoPublish(publication) => Kept(publication, sessions)
  }

  function ServedAll(sessions: map<string, Session>, ops: seq<Op>): map<string, Session>
    decreases |ops|
  {
    if ops == [] then sessions else ServedAll(Served(sessions, ops[0]), ops[1..])
  }

  function Look(sessions: map<string, Session>, id: string): Option<Session> {
    if id in sessions then Some(sessions[id]) else None
  }

  // What becomes of a session if it is the only one there is.
  function Alone(id: string, current: Option<Session>, op: Op): Option<Session> {
    match op
    case DoJoin(other, session) => if other == id then Some(session) else current
    case DoLeave(other) => if other == id then None else current
    case DoPublish(publication) =>
      if current.None? then None
      else
        var (next, gone) := Received(publication, id, current.value);
        if gone then None else Some(next)
  }

  function AloneAll(id: string, current: Option<Session>, ops: seq<Op>): Option<Session>
    decreases |ops|
  {
    if ops == [] then current else AloneAll(id, Alone(id, current, ops[0]), ops[1..])
  }

  /** Over every run of joins, leaves and publications, what the hub holds for a session is what
      it would hold if there were no other: sessions never affect each other through the hub. */
  lemma {:induction false} SessionsAreIndependent(sessions: map<string, Session>, ops: seq<Op>, id: string)
    ensures Look(ServedAll(sessions, ops), id) == AloneAll(id, Look(sessions, id), ops)
    decreases |ops|
  {
    if ops != [] {
      OneServedAlone(sessions, ops[0], id);
      SessionsAreIndependent(Served(sessions, ops[0]), ops[1..], id);
    }
  }

  lemma OneServedAlone(sessions: map<string, Session>, op: Op, id: string)
    ensures Look(Served(sessions, op), id) == Alone(id, Look(sessions, id), op)
  {
    if op.DoPublish? && id in sessions {
      assert Outcomes(sessions, (other, session) => Received(op.publication, other, session))[id]
          == Received(op.publication, id, sessions[id]);
    }
  }

  // ----- Who gets a publication -----

  // Reasons for a session to be passed over.
  predicate PassedOver(publication: Publication, id: string, session: Session) {
    || id == publication.exclude
    || publication.channel !in session.subscriptions
    || (publication.audience != [] && session.userId !in publication.audience)
    || (publication.perUser.Some? && session.userId !in publication.perUser.value)
  }

  // What offering a frame to one lane of a session's queue makes of the session.
  function Offered(session: Session, pushed: (Lanes<Frame>, Reply)): (Session, bool) {
    if pushed.1.Accepted? then (session.(box := pushed.0), false)
    else (session.(box := Close(PushControl(pushed.0, ResyncFrame(true, session.lastSeq)).0)), true)
  }

  /** A session that is excluded, not subscribed, outside the audience or without a frame of its
      own among those there are keeps its entry as it is. Every other session is offered its own
      frame if there is one for each user, else the common one, on the lane named; it keeps its
      place if its queue accepts, and is let go with a resync from where it stands if not. */
  lemma WhoIsServed(publication: Publication, sessions: map<string, Session>, id: string)
    requires id in sessions
    ensures var session, kept, gone := sessions[id], Served(sessions, DoPublish(publication)), LetGo(publication, sessions);
            if PassedOver(publication, id, session) then Look(kept, id) == Some(session) && id !in gone
            else
              var frame := if publication.perUser.Some? then publication.perUser.value[session.userId] else publication.frame;
              var pushed := match publication.lane
                            case ControlLane => PushControl(session.box, frame)
                            case DocumentLane => PushDocument(session.box, frame)
                            case EphemeralLane => PushEphemeral(session.box, publication.key, frame);
              var (after, refused) := Offered(session, pushed);
              if refused then id !in kept && Look(gone, id) == Some(after)
              else Look(kept, id) == Some(after) && id !in gone
  {
    var outcomes := Outcomes(sessions, (other, session) => Received(publication, other, session));
    assert outcomes[id] == Received(publication, id, sessions[id]);
  }

  /** When the world closes every session, and no other, is let go, with a resync from zero behind
      whatever control frames it had waiting, and its queue closed; an already closed queue stays
      as it is. */
  lemma QuitTellsEveryone(sessions: map<string, Session>, id: string)
    ensures id in Dismissed(sessions) <==> id in sessions
    ensures id in sessions ==>
              var before, after := sessions[id], Dismissed(sessions)[id];
              && after == before.(box := after.box) && after.box.closed
              && after.box.document == before.box.document && after.box.ephemeral == before.box.ephemeral
              && after.box.control == before.box.control + (if before.box.closed then [] else [ResyncFrame(false, 0)])
  {
    if id in sessions {
      assert sessions[id].box.control + [] == sessions[id].box.control;
      var outcomes := Outcomes(sessions, (other, session) => (Farewell(session), true));
      assert outcomes[id] == (Farewell(sessions[id]), true);
    }
  }

  // Nothing in the run is for the session: it neither joins again nor leaves, and is passed over.
  predicate Unconcerned(id: string, session: Session, ops: seq<Op>) {
    forall i :: 0 <= i < |ops| ==>
      match ops[i]
      case DoJoin(other, _) => other != id
      case DoLeave(other) => other != id
      case DoPublish(publication) => PassedOver(publication, id, session)
  }

  /** Over every run of the hub, a session outside the audience of everything published, or passed
      over for any other reason, keeps the queue it had. */
  lemma {:induction false} OutsidersReceiveNothing(sessions: map<string, Session>, id: string, ops: seq<Op>)
    requires id in sessions && Unconcerned(id, sessions[id], ops)
    ensures Look(ServedAll(sessions, ops), id) == Some(sessions[id])
    decreases |ops|
  {
    if ops != [] {
      if ops[0].DoPublish? {
        WhoIsServed(ops[0].publication, sessions, id);
      }
      assert forall i :: 0 <= i < |ops[1..]| ==> ops[1..][i] == ops[i + 1];
      OutsidersReceiveNothing(Served(sessions, ops[0]), id, ops[1..]);
    }
  }

  // The steps of the delivery protocol that make up a session's share of an event's fan-out.
  function Share(refused: bool): seq<Action> {
    if refused then [Visit, ReadLastSeq, PushResync, ShutQueue] else [Visit]
  }

  // A fan-out in progress, seen from one session: the publication is for those entitled to it.
  predicate Concerns(s: State, publication: Publication, id: string, session: Session) {
    && s.attached && s.hub.Fanning? && 1 <= s.hub.seqNo <= |s.log|
    && publication.lane.DocumentLane?
    && (s.log[s.hub.seqNo - 1] <==> !PassedOver(publication, id, session))
    && (s.log[s.hub.seqNo - 1] ==>
          EventFrame(s.hub.seqNo)
          == if publication.perUser.Some? then publication.perUser.value[session.userId] else publication.frame)
    && session.box == s.box && session.lastSeq == s.lastSeq
  }

  /** The protocol's steps for one session, taken together, are the loop's work on it: they leave
      the same queue behind and let the session go in the same cases. */
  lemma FanOutIsSteps(s: State, publication: Publication, id: string, session: Session)
    requires Concerns(s, publication, id, session)
    ensures var (next, gone) := Received(publication, id, session);
            && Exec(s, Share(gone)).Some?
            && var t := Exec(s, Share(gone)).value;
               && t.box == next.box && t.attached == !gone && t.hub.Idle?
               && t.lastSeq == next.lastSeq && t.log == s.log && t.wire == s.wire
  {
    var (next, gone) := Received(publication, id, session);
    var s1 := VisitSession(s, s.hub.seqNo);
    if gone {
      var s2 := s1.(hub := Resyncing(true, s1.lastSeq));
      var s3 := s2.(box := PushControl(s2.box, ResyncFrame(true, s1.lastSeq)).0, hub := Shutting(true));
      var s4 := s3.(box := Close(s3.box), attached := false, hub := Idle);
      assert Apply(s, Visit) == Some(s1) && Apply(s1, ReadLastSeq) == Some(s2);
      assert Apply(s2, PushResync) == Some(s3) && Apply(s3, ShutQueue) == Some(s4);
      ExecFour(s, s1, s2, s3, s4);
    } else {
      assert [Visit][1..] == [];
      assert Exec(s1, []) == Some(s1);
    }
  }

  lemma ExecFour(s: State, s1: State, s2: State, s3: State, s4: State)
    requires Apply(s, Visit) == Some(s1) && Apply(s1, ReadLastSeq) == Some(s2)
    requires Apply(s2, PushResync) == Some(s3) && Apply(s3, ShutQueue) == Some(s4)
    ensures Exec(s, [Visit, ReadLastSeq, PushResync, ShutQueue]) == Some(s4)
  {
    assert [ShutQueue][1..] == [];
    assert [PushResync, ShutQueue][1..] == [ShutQueue];
    assert [ReadLastSeq, PushResync, ShutQueue][1..] == [PushResync, ShutQueue];
    assert [Visit, ReadLastSeq, PushResync, ShutQueue][1..] == [ReadLastSeq, PushResync, ShutQueue];
    assert Exec(s4, []) == Some(s4);
    assert Exec(s3, [ShutQueue]) == Some(s4);
    assert Exec(s2, [PushResync, ShutQueue]) == Some(s4);
    assert Exec(s1, [ReadLastSeq, PushResync, ShutQueue]) == Some(s4);
  }
}
