/** The loop that reads catch-up, and how its frames appear in the delivery protocol. */
module Replay {
  import opened Wrappers
  import opened Documents
  import opened Permission
  import CatchUp
  import Delivery

  type Event = CatchUp.Event

  datatype ReplayFrame = ReplayFrame(seqNo: nat, kind: string, payload: CatchUp.Payload)

  // What a subject is shown of an event: a payload, nothing, or an error.
  type Showing = Event -> Outcome<Option<CatchUp.Payload>>

  // The frames for some events, oldest first; one that cannot be worked out fails them all.
  function Frames(events: seq<Event>, show: Showing): Outcome<seq<ReplayFrame>> {
    if events == [] then Ok([])
    else
      var earlier, event := Frames(events[..|events| - 1], show), events[|events| - 1];
      if earlier.Fail? || show(event).Fail? then Fail
      else if show(event).value.None? then earlier
      else Ok(earlier.value + [ReplayFrame(event.seqNo, event.kind, show(event).value.value)])
  }

  lemma OneMore(events: seq<Event>, show: Showing, i: nat)
    requires i < |events| && Frames(events[..i], show).Ok?
    ensures var event := events[i];
            Frames(events[..i + 1], show)
            == if show(event).Fail? then Fail
               else if show(event).value.None? then Frames(events[..i], show)
               else Ok(Frames(events[..i], show).value + [ReplayFrame(event.seqNo, event.kind, show(event).value.value)])
  {
    assert events[..i + 1][..i] == events[..i];
  }

  lemma {:induction false} FailureStays(events: seq<Event>, show: Showing, n: nat)
    requires n <= |events| && Frames(events[..n], show).Fail?
    ensures Frames(events, show).Fail?
    decreases |events|
  {
    if n == |events| {
      assert events[..n] == events;
    } else {
      assert events[..|events| - 1][..n] == events[..n];
      FailureStays(events[..|events| - 1], show, n);
    }
  }

  /** One pass over the events read: the audience first, then the payload for this subject. */
  method ReplayFrames(store: Store, policy: Policy, subject: Subject, worldId: Id, events: seq<Event>)
    returns (r: Outcome<seq<ReplayFrame>>)
    ensures r == Frames(events, event => CatchUp.Replay(store, policy, subject, worldId, event))
  {
    ghost var show: Showing := event => CatchUp.Replay(store, policy, subject, worldId, event);
    var frames: seq<ReplayFrame> := [];
    for i := 0 to |events|
      invariant Frames(events[..i], show) == Ok(frames)
    {
      var event := events[i];
      OneMore(events, show, i);
      if !CatchUp.AudienceAllows(event.audience, subject.userId) {
        continue;
      }
      var payload := CatchUp.ReplayPayload(store, policy, subject, worldId, event);
      if payload.Fail? {
        FailureStays(events, show, i + 1);
        return Fail;
      }
      if payload.value.None? {
        continue;
      }
      frames := frames + [ReplayFrame(event.seqNo, event.kind, payload.value.value)];
    }
    assert events[..|events|] == events;
    r := Ok(frames);
  }

  // ----- In the delivery protocol -----

  // Events as the log returns them: numbered one after another.
  predicate Numbered(events: seq<Event>, from: nat) {
    forall i :: 0 <= i < |events| ==> events[i].seqNo == from + 1 + i
  }

  predicate Shown(show: Showing, event: Event) {
    show(event).Ok? && show(event).value.Some?
  }

  function Numbers(frames: seq<ReplayFrame>): seq<nat> {
    if frames == [] then [] else Numbers(frames[..|frames| - 1]) + [frames[|frames| - 1].seqNo]
  }

  /** Catch-up over consecutive events puts exactly the frames on the protocol's queue that its
      replay step does, for the set of events the subject is shown. */
  lemma {:induction false} ReplayIsProtocolStep(events: seq<Event>, show: Showing, from: nat, included: set<nat>)
    requires Numbered(events, from) && Frames(events, show).Ok?
    requires forall i :: 0 <= i < |events| ==> (from + 1 + i in included <==> Shown(show, events[i]))
    ensures Numbers(Frames(events, show).value)
            == Delivery.Events(Delivery.ReplayFrames(from, from + |events|, included))
    decreases |events|
  {
    if events != [] {
      var front, last, top := events[..|events| - 1], events[|events| - 1], from + |events|;
      ReplayIsProtocolStep(front, show, from, included);
      assert top == from + 1 + (|events| - 1);
      assert top in included <==> Shown(show, last);
      assert last.seqNo == top;
      OneMoreEvent(Delivery.ReplayFrames(from, top - 1, included), top);
      if Shown(show, last) {
        NumbersMore(Frames(front, show).value, ReplayFrame(top, last.kind, show(last).value.value));
      }
    }
  }

  lemma OneMoreEvent(before: seq<Delivery.Frame>, n: nat)
    ensures Delivery.Events(before + [Delivery.EventFrame(n)]) == Delivery.Events(before) + [n]
    ensures before + [] == before
  {
    Delivery.EventsConcat(before, [Delivery.EventFrame(n)]);
    assert Delivery.Events([Delivery.EventFrame(n)][1..]) == [];
  }

  lemma NumbersMore(frames: seq<ReplayFrame>, frame: ReplayFrame)
    ensures Numbers(frames + [frame]) == Numbers(frames) + [frame.seqNo]
  {
    assert (frames + [frame])[..|frames|] == frames;
  }
}
