/** No loss: when publications reach the hub in sequence order, replay includes what live fan-out
    would have shown and frames encode, what has been written is at every moment a prefix of what
    the user is entitled to, but for what catch-up could not reach before the session joined. */
module DeliveryComplete {
  import opened Delivery
  import opened DeliveryOrder
  import opened DeliveryPipe
  import opened DeliveryFeed

  predicate Orderly(s: State, action: Action) {
    Faithful(s, action) && (action.Publish? ==> action.seqNo == |s.published| + 1)
  }

  predicate OrderlyRun(s: State, actions: seq<Action>)
    decreases |actions|
  {
    actions == [] ||
    (Orderly(s, actions[0]) && (Apply(s, actions[0]).Some? ==> OrderlyRun(Apply(s, actions[0]).value, actions[1..])))
  }

  lemma {:induction false} OrderlyIsFaithful(s: State, actions: seq<Action>)
    requires OrderlyRun(s, actions)
    ensures FaithfulRun(s, actions)
    decreases |actions|
  {
    if actions != [] && Apply(s, actions[0]).Some? {
      OrderlyIsFaithful(Apply(s, actions[0]).value, actions[1..]);
    }
  }

  // The channel carries the sequences in order.
  predicate Channel(s: State) {
    (forall i :: 0 <= i < |s.published| ==> s.published[i] == i + 1) && |s.published| <= |s.log|
  }

  /** The session joined no further ahead of its resume point than catch-up can bridge. */
  predicate WithinCatchUp(s: State) {
    s.joinedAt <= s.deltaFrom + CATCH_UP_LIMIT
  }

  // Catch-up within reach was read after the session joined, so it covers that point.
  predicate Covering(s: State) {
    s.server.Replaying? || s.prepended ==> WithinCatchUp(s) ==> s.joinedAt <= s.top
  }

  predicate Ordered(s: State) {
    Channel(s) && Covering(s)
  }

  lemma OrderedServer(s: State, action: Action)
    requires Phases(s) && Tracking(s) && Ordered(s) && ServerStep(s, action).Some?
    ensures Ordered(ServerStep(s, action).value)
  {
  }

  // Steps that leave the channel and the session's positions alone.
  predicate SamePositions(s: State, t: State) {
    && t.log == s.log && t.published == s.published && t.server == s.server && t.prepended == s.prepended
    && t.joinedAt == s.joinedAt && t.deltaFrom == s.deltaFrom && t.top == s.top
  }

  lemma HubLeavesPositions(s: State, action: Action)
    requires HubStep(s, action).Some?
    ensures SamePositions(s, HubStep(s, action).value)
  {
  }

  lemma WriterLeavesPositions(s: State, action: Action)
    requires WriterStep(s, action).Some?
    ensures SamePositions(s, WriterStep(s, action).value)
  {
  }

  lemma OrderedEnvironment(s: State, action: Action)
    requires Ordered(s) && Orderly(s, action) && Environment(s, action).Some?
    ensures Ordered(Environment(s, action).value)
  {
  }

  lemma OrderedStep(s: State, action: Action)
    requires Phases(s) && Tracking(s) && Ordered(s) && Orderly(s, action) && Apply(s, action).Some?
    ensures Ordered(Apply(s, action).value)
  {
    if IsEnvironment(action) {
      OrderedEnvironment(s, action);
    } else if IsHub(action) {
      HubLeavesPositions(s, action);
    } else if IsServer(action) {
      OrderedServer(s, action);
    } else {
      WriterLeavesPositions(s, action);
    }
  }

  // A world in motion before the session arrives: some events committed, the first few
  // published in order, the first of those taken by the hub.
  predicate Underway(s: State, caps: (int, int)) {
    Begun(s, caps) && Channel(s)
  }

  lemma {:induction false} OrderlyRunKeeps(s: State, actions: seq<Action>)
    requires Feeding(s) && InOrder(s) && Catching(s) && Ordered(s) && OrderlyRun(s, actions) && Exec(s, actions).Some?
    ensures var t := Exec(s, actions).value;
            Feeding(t) && Catching(t) && Ordered(t)
    decreases |actions|
  {
    if actions != [] {
      OrderedStep(s, actions[0]);
      CatchingStep(s, actions[0]);
      FeedingStep(s, actions[0]);
      OrderlyRunKeeps(Apply(s, actions[0]).value, actions[1..]);
    }
  }

  lemma OrderlyRunHolds(s: State, caps: (int, int), actions: seq<Action>)
    requires Underway(s, caps) && OrderlyRun(s, actions) && Exec(s, actions).Some?
    ensures var t := Exec(s, actions).value;
            Feeding(t) && Catching(t) && Ordered(t)
  {
    BegunIsFeeding(s, caps);
    OrderlyRunKeeps(s, actions);
  }

  // In order, what was handed over is a stretch of the log.
  lemma FedIsBridged(t: State)
    requires Feeding(t) && Catching(t) && Ordered(t) && t.prepended
    ensures Dedup(t.deltaFrom, Fed(t)) == Bridged(t.log, t.deltaFrom, t.top, t.joinedAt, t.reach)
  {
    ConcerningRange(t.log, t.published, t.joinedAt, t.reach);
    CatchUpThenLive(t.log, t.deltaFrom, t.top, t.joinedAt, t.reach);
  }

  // What the session can come to be written: all entitled events above its resume point but
  // those between the end of catch-up and the point it joined at.
  function Owed(t: State): seq<nat>
    requires t.top <= |t.log|
  {
    Bridged(t.log, t.deltaFrom, t.top, t.joinedAt, |t.log|)
  }

  /** Over every interleaving of commits, publications, join, catch-up, writes, overflow and
      close, however many events were missed: what has been written is a prefix of the entitled
      events above the resume point without those between catch-up and join. */
  lemma WrittenIsAPrefix(s: State, caps: (int, int), actions: seq<Action>)
    requires Underway(s, caps) && OrderlyRun(s, actions) && Exec(s, actions).Some?
    ensures var t := Exec(s, actions).value;
            if t.prepended then t.top <= |t.log| && Events(t.wire) <= Owed(t) else Events(t.wire) == []
  {
    OrderlyRunHolds(s, caps, actions);
    var t := Exec(s, actions).value;
    if t.prepended {
      PrefixSoFar(t);
      FedIsBridged(t);
      var from := Max(t.top, t.joinedAt);
      EntitledPrefix(t.log, from, t.reach, |t.log|);
    }
  }

  /** No loss: with at most 500 events missed at join, what has been written is at every moment a
      prefix of all the entitled events above the resume point: no gap, no duplicate, nothing out
      of turn. */
  lemma NothingIsLost(s: State, caps: (int, int), actions: seq<Action>)
    requires Underway(s, caps) && OrderlyRun(s, actions) && Exec(s, actions).Some?
    ensures var t := Exec(s, actions).value;
            WithinCatchUp(t) ==> Events(t.wire) <= Entitled(t.log, t.deltaFrom, |t.log|)
  {
    OrderlyRunHolds(s, caps, actions);
    WrittenIsAPrefix(s, caps, actions);
    var t := Exec(s, actions).value;
    if t.prepended && WithinCatchUp(t) {
      BridgedIffNoGap(t.log, t.deltaFrom, t.top, t.joinedAt);
    }
  }

  // The session is still attached and everything committed has made its way through.
  predicate Settled(s: State) {
    Quiescent(s) && |s.published| == |s.log|
  }

  /** The exact condition: a settled session has been written exactly what it was owed, and that
      is every entitled event above its resume point if and only if none of them lies beyond the
      end of catch-up and not beyond the point the session joined at. */
  lemma SettledExactly(s: State, caps: (int, int), actions: seq<Action>)
    requires Underway(s, caps) && OrderlyRun(s, actions) && Exec(s, actions).Some?
    ensures var t := Exec(s, actions).value;
            Settled(t) ==>
              && t.top <= |t.log| && Events(t.wire) == Owed(t)
              && (Events(t.wire) == Entitled(t.log, t.deltaFrom, |t.log|) <==>
                    forall n: nat :: t.top < n <= t.joinedAt ==> !IsEntitled(t.log, n))
  {
    OrderlyRunHolds(s, caps, actions);
    OrderlyIsFaithful(s, actions);
    FaithfulEncodes(s, actions);
    WireIsFedInTurn(s, caps, actions);
    var t := Exec(s, actions).value;
    if Settled(t) {
      assert t.published[t.joinedAt..] == t.published[t.joinedAt..t.reach];
      FedIsBridged(t);
      BridgedIffNoGap(t.log, t.deltaFrom, t.top, t.joinedAt);
    }
  }

  /** And so, within reach of catch-up, nothing is withheld. */
  lemma SettledIsEverything(s: State, caps: (int, int), actions: seq<Action>)
    requires Underway(s, caps) && OrderlyRun(s, actions) && Exec(s, actions).Some?
    ensures var t := Exec(s, actions).value;
            WithinCatchUp(t) && Settled(t) ==> Events(t.wire) == Entitled(t.log, t.deltaFrom, |t.log|)
  {
    OrderlyRunHolds(s, caps, actions);
    SettledExactly(s, caps, actions);
  }
}
