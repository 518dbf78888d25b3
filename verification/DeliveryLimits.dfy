/** The failing side of the two exact conditions: a run in which publications overtake each
    other, and one in which more was missed than catch-up reads. In both an event is lost for
    good while the session stays connected. */
module DeliveryLimits {
  import opened Wrappers
  import opened Delivery
  import opened DeliveryPipe
  import opened DeliveryOrder
  import opened DeliveryFeed
  import opened DeliveryComplete

  // A run from s to t.
  predicate Leads(s: State, actions: seq<Action>, t: State) {
    Exec(s, actions) == Some(t)
  }

  lemma {:induction false} Then(s: State, actions: seq<Action>, t: State, action: Action, u: State)
    requires Leads(s, actions, t) && Apply(t, action) == Some(u)
    ensures Leads(s, actions + [action], u)
    decreases |actions|
  {
    if actions == [] {
      assert actions + [action] == [action] && [action][1..] == [];
    } else {
      assert (actions + [action])[0] == actions[0] && (actions + [action])[1..] == actions[1..] + [action];
      Then(Apply(s, actions[0]).value, actions[1..], t, action, u);
    }
  }

  // A session that resumes from the start of the world with nothing included in catch-up.
  lemma Greeted(s: State) returns (actions: seq<Action>, t: State)
    requires s == Start(s.log, s.published, s.fanned, 0, 0)
    ensures actions == [Join, Measure(0), StoreDelta] && Leads(s, actions, t)
    ensures t == s.(server := Welcomed, attached := true, joinedAt := s.fanned, reach := s.fanned)
  {
    actions, t := [], s;
    Then(s, actions, t, Join, s.(server := Joined, attached := true, joinedAt := s.fanned, reach := s.fanned));
    actions, t := actions + [Join], s.(server := Joined, attached := true, joinedAt := s.fanned, reach := s.fanned);
    Then(s, actions, t, Measure(0), t.(server := Measured(0)));
    actions, t := actions + [Measure(0)], t.(server := Measured(0));
    Then(s, actions, t, StoreDelta, t.(server := Welcomed));
    actions, t := actions + [StoreDelta], t.(server := Welcomed);
  }

  lemma {:induction false} NothingToReplay(from: nat, upTo: nat, included: set<nat>)
    requires forall n :: n in included ==> n > upTo
    ensures ReplayFrames(from, upTo, included) == []
    decreases upTo
  {
    if from < upTo {
      NothingToReplay(from, upTo - 1, included);
    }
  }

  lemma Served(s: State, before: seq<Action>, t: State, included: set<nat>) returns (actions: seq<Action>, u: State)
    requires Leads(s, before, t) && t.server.Welcomed? && t.writer.Off? && t.deltaFrom == 0 && t.caught == []
    requires forall n :: n in included ==> n > CatchUpTop(t)
    ensures actions == before + [ReadReplay(included), QueueReplay, StartWriter] && Leads(s, actions, u)
    ensures u == t.(server := Serving, top := CatchUpTop(t), prepended := true, writer := Ready)
  {
    NothingToReplay(0, CatchUpTop(t), included);
    var t1 := t.(server := Replaying([]), top := CatchUpTop(t));
    var t2 := t1.(server := Serving, prepended := true);
    u := t2.(writer := Ready);
    Then(s, before, t, ReadReplay(included), t1);
    Then(s, before + [ReadReplay(included)], t1, QueueReplay, t2);
    Then(s, before + [ReadReplay(included)] + [QueueReplay], t2, StartWriter, u);
    actions := before + [ReadReplay(included)] + [QueueReplay] + [StartWriter];
  }

  // The hub takes the next publication and the session's queue accepts it.
  lemma Passed(s: State, before: seq<Action>, t: State) returns (actions: seq<Action>, u: State)
    requires Leads(s, before, t) && t.hub.Idle? && t.attached && t.fanned < |t.published|
    requires IsEntitled(t.log, t.published[t.fanned])
    requires !t.box.closed && |t.box.document| < t.box.documentCap
    ensures Leads(s, actions, u)
    ensures var n := t.published[t.fanned];
            u == t.(fanned := t.fanned + 1, reach := t.fanned + 1,
                    box := t.box.(document := t.box.document + [EventFrame(n)], signal := true))
  {
    var n := t.published[t.fanned];
    var t1 := t.(hub := Fanning(n), fanned := t.fanned + 1);
    u := t.(fanned := t.fanned + 1, reach := t.fanned + 1,
            box := t.box.(document := t.box.document + [EventFrame(n)], signal := true));
    Then(s, before, t, Take, t1);
    Then(s, before + [Take], t1, Visit, u);
    actions := before + [Take] + [Visit];
  }

  // The writer pops the front event and sends it, or drops it as already seen.
  lemma Drawn(s: State, before: seq<Action>, t: State) returns (actions: seq<Action>, u: State)
    requires Leads(s, before, t) && t.writer.Ready? && t.box.control == []
    requires t.box.document != [] && t.box.document[0].EventFrame?
    ensures Leads(s, actions, u)
    ensures var n := t.box.document[0].seqNo;
            var rest := t.(box := t.box.(document := t.box.document[1..]));
            u == if n <= t.lastSeq then rest else rest.(lastSeq := n, wire := t.wire + [EventFrame(n)])
  {
    var n := t.box.document[0].seqNo;
    var rest := t.(box := t.box.(document := t.box.document[1..]));
    Then(s, before, t, PopNext, rest.(writer := Holding(EventFrame(n))));
    if n <= t.lastSeq {
      u := rest;
      Then(s, before + [PopNext], rest.(writer := Holding(EventFrame(n))), Compare, u);
      actions := before + [PopNext] + [Compare];
    } else {
      var t2 := rest.(writer := Sending(EventFrame(n)), lastSeq := n);
      u := rest.(lastSeq := n, wire := t.wire + [EventFrame(n)]);
      Then(s, before + [PopNext], rest.(writer := Holding(EventFrame(n))), Compare, t2);
      Then(s, before + [PopNext] + [Compare], t2, Write, u);
      actions := before + [PopNext] + [Compare] + [Write];
    }
  }

  // Two events committed, and published the wrong way round.
  lemma Swapped(s: State, before: seq<Action>, t: State) returns (actions: seq<Action>, u: State)
    requires Leads(s, before, t) && t.log == [] && t.published == []
    ensures Leads(s, actions, u) && u == t.(log := [true, true], published := [2, 1])
  {
    var t1, t2, t3 := t.(log := [true]), t.(log := [true, true]), t.(log := [true, true], published := [2]);
    u := t.(log := [true, true], published := [2, 1]);
    assert t.log + [true] == [true] && [true] + [true] == [true, true];
    assert t.published + [2] == [2] && [2] + [1] == [2, 1];
    Then(s, before, t, Commit(true), t1);
    Then(s, before + [Commit(true)], t1, Commit(true), t2);
    Then(s, before + [Commit(true)] + [Commit(true)], t2, Publish(2), t3);
    Then(s, before + [Commit(true)] + [Commit(true)] + [Publish(2)], t3, Publish(1), u);
    actions := before + [Commit(true)] + [Commit(true)] + [Publish(2)] + [Publish(1)];
  }

  /** Publications out of order: the later event is written, the earlier one is then dropped as
      already seen, and the session settles without it. */
  lemma OutOfOrderPublicationLoses() returns (s: State, actions: seq<Action>, t: State)
    ensures Underway(s, (0, 0)) && Leads(s, actions, t)
    ensures WithinCatchUp(t) && Settled(t)
    ensures Events(t.wire) == [2] && Entitled(t.log, t.deltaFrom, |t.log|) == [1, 2]
  {
    s := Start([], [], 0, 0, 0);
    var a0, t0 := Greeted(s);
    var a1, t1 := Served(s, a0, t0, {});
    var a2, t2 := Swapped(s, a1, t1);
    var a3, t3 := Passed(s, a2, t2);
    var a4, t4 := Passed(s, a3, t3);
    var a5, t5 := Drawn(s, a4, t4);
    actions, t := Drawn(s, a5, t5);
    assert t.wire == [EventFrame(2)];
    WrittenEvents([], EventFrame(2));
    assert [] + [EventFrame(2)] == [EventFrame(2)];
    assert Entitled([true, true], 0, 1) == [1];
  }

  // A log of n events of which only the last concerns the user.
  function LastOnly(n: nat): seq<bool> {
    seq(n, i => i == n - 1)
  }

  lemma {:induction false} LastOnlyEntitled(n: nat, hi: nat)
    requires hi <= n
    ensures Entitled(LastOnly(n), 0, hi) == (if 0 < hi == n then [n] else [])
    decreases hi
  {
    if 0 < hi {
      LastOnlyEntitled(n, hi - 1);
    }
  }

  /** More missed than catch-up reads: every other assumption holds, the session settles, and
      the one event the user was entitled to has never been written. */
  lemma CatchUpLimitLoses() returns (s: State, actions: seq<Action>, t: State)
    ensures Underway(s, (0, 0)) && Leads(s, actions, t) && OrderlyRun(s, actions)
    ensures !WithinCatchUp(t) && Settled(t)
    ensures Events(t.wire) == [] && Entitled(t.log, t.deltaFrom, |t.log|) == [CATCH_UP_LIMIT + 1]
  {
    var n := CATCH_UP_LIMIT + 1;
    s := Start(LastOnly(n), seq(n, i => i + 1), n, 0, 0);
    var a0, t0 := Greeted(s);
    LastOnlyEntitled(n, n);
    assert ReplaysEntitled(s.log, {n});
    actions, t := Served(s, a0, t0, {n});
    OrderlySteps(s, a0, t0, {n});
  }

  predicate Plain(action: Action) {
    !action.Publish? && !action.ReadReplay? && !action.FailToEncode?
  }

  // Actions under no assumption, ahead of an orderly run.
  lemma {:induction false} OrderlyTail(s: State, before: seq<Action>, t: State, after: seq<Action>)
    requires Leads(s, before, t) && OrderlyRun(t, after)
    requires forall i :: 0 <= i < |before| ==> Plain(before[i])
    ensures OrderlyRun(s, before + after)
    decreases |before|
  {
    if before == [] {
      assert before + after == after;
    } else {
      assert (before + after)[0] == before[0] && (before + after)[1..] == before[1..] + after;
      OrderlyTail(Apply(s, before[0]).value, before[1..], t, after);
    }
  }

  lemma {:induction false} OrderlyPlain(s: State, actions: seq<Action>)
    requires forall i :: 0 <= i < |actions| ==> Plain(actions[i])
    ensures OrderlyRun(s, actions)
    decreases |actions|
  {
    if actions != [] && Apply(s, actions[0]).Some? {
      OrderlyPlain(Apply(s, actions[0]).value, actions[1..]);
    }
  }

  lemma OrderlySteps(s: State, before: seq<Action>, t: State, included: set<nat>)
    requires Leads(s, before, t) && before == [Join, Measure(0), StoreDelta]
    requires ReplaysEntitled(t.log, included)
    ensures OrderlyRun(s, before + [ReadReplay(included), QueueReplay, StartWriter])
  {
    var rest := [QueueReplay, StartWriter];
    assert [ReadReplay(included), QueueReplay, StartWriter][1..] == rest;
    if Apply(t, ReadReplay(included)).Some? {
      OrderlyPlain(Apply(t, ReadReplay(included)).value, rest);
    }
    OrderlyTail(s, before, t, [ReadReplay(included), QueueReplay, StartWriter]);
  }
}
