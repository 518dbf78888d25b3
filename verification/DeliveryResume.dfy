/** Where a session resumes, told from the client's side, and what the no-loss results say about
    the sequence the client named; and when the writer may stop. */
module DeliveryResume {
  import opened Delivery
  import opened DeliveryPipe
  import opened DeliveryComplete

  // ----- Runs cut in two -----

  lemma {:induction false} Cut(s: State, actions: seq<Action>, i: nat)
    requires i <= |actions| && Exec(s, actions).Some?
    ensures Exec(s, actions[..i]).Some? && Exec(Exec(s, actions[..i]).value, actions[i..]) == Exec(s, actions)
    decreases i
  {
    if i == 0 {
      assert actions[..0] == [] && actions[0..] == actions;
    } else {
      Cut(Apply(s, actions[0]).value, actions[1..], i - 1);
      assert actions[..i][0] == actions[0] && actions[..i][1..] == actions[1..][..i - 1];
      assert actions[1..][i - 1..] == actions[i..];
    }
  }

  // ----- The resume point -----

  // The greeting is over: the resume point is stored, or never will be.
  predicate Greeted(s: State) {
    !s.server.Outside? && !s.server.Joined? && !s.server.Measured?
  }

  lemma GreetedStep(s: State, action: Action)
    requires Greeted(s) && Apply(s, action).Some?
    ensures !action.StoreDelta? && Greeted(Apply(s, action).value) && Apply(s, action).value.deltaFrom == s.deltaFrom
  {
  }

  lemma {:induction false} GreetedStays(s: State, actions: seq<Action>)
    requires Greeted(s) && Exec(s, actions).Some?
    ensures StoreDelta !in actions && Exec(s, actions).value.deltaFrom == s.deltaFrom
    decreases |actions|
  {
    if actions != [] {
      GreetedStep(s, actions[0]);
      GreetedStays(Apply(s, actions[0]).value, actions[1..]);
      assert actions == [actions[0]] + actions[1..];
    }
  }

  lemma MeasuredStep(s: State, action: Action)
    requires s.server.Measured? && Apply(s, action).Some?
    ensures var t := Apply(s, action).value;
            && (action.StoreDelta? ==> Greeted(t) && t.deltaFrom == s.server.resumeFrom)
            && (!action.StoreDelta? ==> t.server == s.server || Greeted(t))
  {
  }

  lemma {:induction false} MeasuredIsStored(s: State, actions: seq<Action>)
    requires s.server.Measured? && StoreDelta in actions && Exec(s, actions).Some?
    ensures Exec(s, actions).value.deltaFrom == s.server.resumeFrom
    decreases |actions|
  {
    var t := Apply(s, actions[0]).value;
    assert actions == [actions[0]] + actions[1..];
    MeasuredStep(s, actions[0]);
    if Greeted(t) {
      GreetedStays(t, actions[1..]);
    } else {
      MeasuredIsStored(t, actions[1..]);
    }
  }

  /** Over every run: the sequence the client names is where it resumes, if that lies between 0
      and the length the log had when it was looked at; otherwise it resumes from the start. */
  lemma ResumesWhereAsked(s: State, actions: seq<Action>, i: nat, hello: int)
    requires Exec(s, actions).Some? && i < |actions| && actions[i] == Measure(hello) && StoreDelta in actions[i..]
    ensures Exec(s, actions[..i]).Some?
    ensures var n, deltaFrom := |Exec(s, actions[..i]).value.log|, Exec(s, actions).value.deltaFrom;
            deltaFrom == if 0 <= hello <= n then hello else 0
  {
    Cut(s, actions, i);
    var before := Exec(s, actions[..i]).value;
    assert actions[i..][0] == Measure(hello) && actions[i..] == [Measure(hello)] + actions[i..][1..];
    var measured := Apply(before, Measure(hello)).value;
    assert StoreDelta in actions[i..][1..];
    MeasuredIsStored(measured, actions[i..][1..]);
  }

  // ----- No loss, from the client's side -----

  // The client named a sequence the server has, and its resume point was stored.
  predicate Asked(s: State, actions: seq<Action>, i: nat, hello: nat) {
    && i < |actions| && actions[i] == Measure(hello) && StoreDelta in actions[i..]
    && Exec(s, actions[..i]).Some? && hello <= |Exec(s, actions[..i]).value.log|
  }

  /** A client that has everything up to a sequence and names it when it connects: over every
      orderly run what it is written is a prefix of the entitled events above that sequence, as
      long as no more than 500 lay between the sequence and the point the session joined at; and
      once the session has settled it has been written all of them. */
  lemma ClientMissesNothing(s: State, caps: (int, int), actions: seq<Action>, i: nat, hello: nat)
    requires Underway(s, caps) && OrderlyRun(s, actions) && Exec(s, actions).Some? && Asked(s, actions, i, hello)
    ensures var t := Exec(s, actions).value;
            t.joinedAt <= hello + 500 ==>
              && Events(t.wire) <= Entitled(t.log, hello, |t.log|)
              && (Settled(t) ==> Events(t.wire) == Entitled(t.log, hello, |t.log|))
  {
    ResumesWhereAsked(s, actions, i, hello);
    NothingIsLost(s, caps, actions);
    SettledIsEverything(s, caps, actions);
  }

  /** A client that names a sequence the server does not have is written everything from the
      start, under the same condition. */
  lemma StrangerStartsOver(s: State, caps: (int, int), actions: seq<Action>, i: nat, hello: int)
    requires Underway(s, caps) && OrderlyRun(s, actions) && Exec(s, actions).Some?
    requires i < |actions| && actions[i] == Measure(hello) && StoreDelta in actions[i..]
    requires Exec(s, actions[..i]).Some? && (hello < 0 || hello > |Exec(s, actions[..i]).value.log|)
    ensures var t := Exec(s, actions).value;
            t.joinedAt <= 500 ==>
              && Events(t.wire) <= Entitled(t.log, 0, |t.log|)
              && (Settled(t) ==> Events(t.wire) == Entitled(t.log, 0, |t.log|))
  {
    ResumesWhereAsked(s, actions, i, hello);
    NothingIsLost(s, caps, actions);
    SettledIsEverything(s, caps, actions);
  }

  // ----- When the writer may stop -----

  lemma ClosedStays(s: State, action: Action)
    requires Apply(s, action).Some? && s.box.closed
    ensures Apply(s, action).value.box.closed
  {
  }

  lemma StopsWhenClosed(s: State, action: Action)
    requires Apply(s, action).Some? && !s.writer.Done? && Apply(s, action).value.writer.Done?
    requires !action.FailToWrite? && !action.Cancel?
    ensures Apply(s, action).value.box.closed
  {
  }

  /** Over every run the writer stops only after a failed write, a cancelled context, or on a
      queue that has been closed. */
  lemma {:induction false} WriterKeepsGoing(s: State, actions: seq<Action>)
    requires Exec(s, actions).Some? && (s.writer.Done? ==> s.box.closed)
    requires FailToWrite !in actions && Cancel !in actions
    ensures Exec(s, actions).value.writer.Done? ==> Exec(s, actions).value.box.closed
    decreases |actions|
  {
    if actions != [] {
      var t := Apply(s, actions[0]).value;
      assert actions == [actions[0]] + actions[1..];
      if s.box.closed {
        ClosedStays(s, actions[0]);
      } else if t.writer.Done? {
        StopsWhenClosed(s, actions[0]);
      }
      WriterKeepsGoing(t, actions[1..]);
    }
  }
}
