/** The realtime delivery protocol around one session, as a step system: the event log, the
    hub goroutine, the session's own goroutine, its writer, and everyone else who commits and
    publishes. A run is a list of actions; every interleaving is some run. */
module Delivery {
  import opened Wrappers
  import opened Outbox

  const CATCH_UP_LIMIT: nat := 500

  datatype Frame =
    | EventFrame(seqNo: nat)
    | ResyncFrame(slow: bool, fromSeq: nat)
    | OtherFrame(tag: nat)

  // The hub goroutine, as far as this session can tell what it is doing.
  datatype Hub =
    | Idle
    | Fanning(seqNo: nat)                       // took a publication, has not visited the session
    | Refused                                   // the session's queue refused a frame
    | Resyncing(slow: bool, fromSeq: nat)       // about to push the resync frame
    | Shutting(slow: bool)                      // about to close the queue
    | Stopped

  // The goroutine that serves the session, up to the point where it reads intents.
  datatype Server =
    | Outside
    | Joined
    | Measured(resumeFrom: nat)                 // chose where to resume, has not stored it
    | Welcomed
    | Replaying(frames: seq<Frame>)             // has read catch-up, has not queued it
    | Serving
    | Ending

  datatype Writer =
    | Off
    | Ready
    | Holding(frame: Frame)                     // popped, not yet compared with lastSeq
    | Sending(frame: Frame)                     // lastSeq stored, not yet written
    | Drained                                   // the last pop found nothing
    | Waiting                                   // found the queue open, waits for the signal
    | Done

  /** log[n-1] tells whether event n has a frame for the session's user. The last five fields
      are history: how many publications the hub had taken when the session joined and how many
      it has handed over, how far catch-up read, what it queued, and whether it has. */
  datatype State = State(
    log: seq<bool>,
    published: seq<nat>, fanned: nat,
    hub: Hub, attached: bool,
    server: Server, deltaFrom: nat, lastSeq: nat,
    box: Lanes<Frame>,
    writer: Writer, wire: seq<Frame>,
    joinedAt: nat, reach: nat, top: nat, caught: seq<nat>, prepended: bool)

  function Start(log: seq<bool>, published: seq<nat>, fanned: nat, documentCap: int, ephemeralCap: int): State {
    State(log, published, fanned, Idle, false, Outside, 0, 0, Fresh(documentCap, ephemeralCap), Off, [],
          0, 0, 0, [], false)
  }

  datatype Action =
    // everyone else
    | Commit(entitled: bool)
    | Publish(seqNo: nat)
    // the hub
    | Take
    | Visit
    | ReadLastSeq
    | PushResync
    | ShutQueue
    | FanEphemeral(key: string, tag: nat)
    | Quit
    // the serving goroutine
    | Join
    | Measure(helloLastSeq: int)
    | StoreDelta
    | ReadReplay(included: set<nat>)
    | QueueReplay
    | Abandon
    | CloseQueue
    | Leave
    | AnswerControl(tag: nat)
    | AnswerDocument(tag: nat)
    // the writer
    | StartWriter
    | PopNext
    | Compare
    | Write
    | FailToEncode
    | FailToWrite
    | TestClosed
    | Wake
    | Cancel

  // The events above one, up to the catch-up limit, that replay includes.
  function ReplayFrames(from: nat, upTo: nat, included: set<nat>): seq<Frame>
    decreases upTo
  {
    if upTo <= from then []
    else ReplayFrames(from, upTo - 1, included) + (if upTo in included then [EventFrame(upTo)] else [])
  }

  function CatchUpTop(s: State): nat {
    if |s.log| <= s.deltaFrom + CATCH_UP_LIMIT then |s.log| else s.deltaFrom + CATCH_UP_LIMIT
  }

  function Environment(s: State, action: Action): Option<State> {
    match action
    case Commit(entitled) => Some(s.(log := s.log + [entitled]))
    case Publish(seqNo) =>
      if 1 <= seqNo <= |s.log| then Some(s.(published := s.published + [seqNo])) else None
    case _ => None
  }

  // Handing event seqNo to the session: skipped, queued or refused.
  function VisitSession(s: State, seqNo: nat): State {
    if !s.attached then s.(hub := Idle)
    else if !(1 <= seqNo <= |s.log| && s.log[seqNo - 1]) then s.(hub := Idle, reach := s.fanned)
    else
      var (box, reply) := PushDocument(s.box, EventFrame(seqNo));
      if reply.Accepted? then s.(box := box, hub := Idle, reach := s.fanned) else s.(box := box, hub := Refused)
  }

  function HubStep(s: State, action: Action): Option<State> {
    match action
    case Take =>
      if s.hub.Idle? && s.fanned < |s.published|
      then Some(s.(hub := Fanning(s.published[s.fanned]), fanned := s.fanned + 1)) else None
    case Visit => if s.hub.Fanning? then Some(VisitSession(s, s.hub.seqNo)) else None
    case ReadLastSeq => if s.hub.Refused? then Some(s.(hub := Resyncing(true, s.lastSeq))) else None
    case PushResync =>
      if s.hub.Resyncing?
      then Some(s.(box := PushControl(s.box, ResyncFrame(s.hub.slow, s.hub.fromSeq)).0, hub := Shutting(s.hub.slow)))
      else None
    case ShutQueue =>
      if s.hub.Shutting?
      then Some(s.(box := Close(s.box), attached := false, hub := if s.hub.slow then Idle else Stopped)) else None
    case FanEphemeral(key, tag) =>
      if s.hub.Idle? && s.attached then
        var (box, reply) := PushEphemeral(s.box, key, OtherFrame(tag));
        Some(s.(box := box, hub := if reply.Accepted? then Idle else Refused))
      else None
    case Quit =>
      if s.hub.Idle? then Some(s.(hub := if s.attached then Resyncing(false, 0) else Stopped)) else None
    case _ => None
  }

  function ServerStep(s: State, action: Action): Option<State> {
    match action
    case Join =>
      if s.server.Outside? && s.hub.Idle?
      then Some(s.(server := Joined, attached := true, joinedAt := s.fanned, reach := s.fanned))
      else if s.server.Outside? && s.hub.Stopped? then Some(s.(server := Joined, joinedAt := s.fanned, reach := s.fanned))
      else None
    case Measure(helloLastSeq) =>
      if s.server.Joined?
      then Some(s.(server := Measured(if helloLastSeq < 0 || helloLastSeq > |s.log| then 0 else helloLastSeq)))
      else None
    case StoreDelta =>
      if s.server.Measured?
      then Some(s.(server := Welcomed, deltaFrom := s.server.resumeFrom, lastSeq := s.server.resumeFrom)) else None
    case ReadReplay(included) =>
      if s.server.Welcomed?
      then Some(s.(server := Replaying(ReplayFrames(s.deltaFrom, CatchUpTop(s), included)), top := CatchUpTop(s)))
      else None
    case QueueReplay =>
      if s.server.Replaying? then
        var (box, reply) := PrependDocument(s.box, s.server.frames);
        Some(if reply.Accepted?
             then s.(box := box, server := Serving, caught := Events(s.server.frames), prepended := true)
             else s.(server := Ending))
      else None
    case Abandon => if s.server.Outside? then None else Some(s.(server := Ending))
    case CloseQueue => if s.server.Ending? then Some(s.(box := Close(s.box))) else None
    case Leave =>
      if s.server.Ending? && (s.hub.Idle? || s.hub.Stopped?) then Some(s.(attached := false)) else None
    case AnswerControl(tag) =>
      if s.server.Serving? then Some(s.(box := PushControl(s.box, OtherFrame(tag)).0)) else None
    case AnswerDocument(tag) =>
      if s.server.Serving? then Some(s.(box := PushDocument(s.box, OtherFrame(tag)).0)) else None
    case _ => None
  }

  // The writer's test of one popped frame against the last sequence sent.
  function CompareFrame(s: State, frame: Frame): State {
    if !frame.EventFrame? then s.(writer := Sending(frame))
    else if frame.seqNo <= s.lastSeq then s.(writer := Ready)
    else s.(writer := Sending(frame), lastSeq := frame.seqNo)
  }

  function WriterStep(s: State, action: Action): Option<State> {
    match action
    case StartWriter => if s.server.Serving? && s.writer.Off? then Some(s.(writer := Ready)) else None
    case PopNext =>
      if s.writer.Ready? then
        var (box, frame) := Pop(s.box);
        Some(s.(box := box, writer := if frame.Some? then Holding(frame.value) else Drained))
      else None
    case Compare => if s.writer.Holding? then Some(CompareFrame(s, s.writer.frame)) else None
    case Write => if s.writer.Sending? then Some(s.(wire := s.wire + [s.writer.frame], writer := Ready)) else None
    case FailToEncode => if s.writer.Sending? then Some(s.(writer := Ready)) else None
    case FailToWrite => if s.writer.Sending? then Some(s.(writer := Done)) else None
    case TestClosed => if s.writer.Drained? then Some(s.(writer := if s.box.closed then Done else Waiting)) else None
    case Wake =>
      if s.writer.Waiting? && s.box.signal then Some(s.(writer := Ready, box := s.box.(signal := false))) else None
    case Cancel => if s.writer.Waiting? then Some(s.(writer := Done)) else None
    case _ => None
  }

  predicate IsEnvironment(action: Action) {
    action.Commit? || action.Publish?
  }

  predicate IsHub(action: Action) {
    action.Take? || action.Visit? || action.ReadLastSeq? || action.PushResync? || action.ShutQueue?
    || action.FanEphemeral? || action.Quit?
  }

  predicate IsServer(action: Action) {
    action.Join? || action.Measure? || action.StoreDelta? || action.ReadReplay? || action.QueueReplay?
    || action.Abandon? || action.CloseQueue? || action.Leave? || action.AnswerControl? || action.AnswerDocument?
  }

  /** One step; None when the action is not enabled. */
  function Apply(s: State, action: Action): Option<State> {
    if IsEnvironment(action) then Environment(s, action)
    else if IsHub(action) then HubStep(s, action)
    else if IsServer(action) then ServerStep(s, action)
    else WriterStep(s, action)
  }

  function Exec(s: State, actions: seq<Action>): Option<State>
    decreases |actions|
  {
    if actions == [] then Some(s)
    else match Apply(s, actions[0])
      case None => None
      case Some(t) => Exec(t, actions[1..])
  }

  // The sequences of the events among some frames, in order.
  function Events(frames: seq<Frame>): seq<nat> {
    if frames == [] then []
    else (if frames[0].EventFrame? then [frames[0].seqNo] else []) + Events(frames[1..])
  }

  lemma {:induction false} EventsConcat(a: seq<Frame>, b: seq<Frame>)
    ensures Events(a + b) == Events(a) + Events(b)
  {
    if a == [] {
      assert a + b == b;
    } else {
      EventsConcat(a[1..], b);
      assert (a + b)[0] == a[0] && (a + b)[1..] == a[1..] + b;
    }
  }
}
