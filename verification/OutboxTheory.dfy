/** What every run of the send queue keeps: order within a lane, priority between lanes, the
    newest frame per key, and an account of every ephemeral push. */
module OutboxTheory {
  import opened Wrappers
  import opened Outbox

  datatype Op<F> =
    | DoControl(frame: F)
    | DoDocument(frame: F)
    | DoEphemeral(key: string, frame: F)
    | DoPrepend(frames: seq<F>)
    | DoPop
    | DoClose

  /** What has gone through the queue: the frames accepted on each ordered lane, in the order
      promised, those taken from it, and the ephemeral counts with the newest frame per key. */
  datatype Ledger<F> = Ledger(
    control: seq<F>, controlPopped: nat,
    document: seq<F>, documentPopped: nat,
    accepted: nat, coalesced: nat, ephemeralPopped: nat,
    newest: map<string, F>)

  function Blank<F>(): Ledger<F> {
    Ledger([], 0, [], 0, 0, 0, 0, map[])
  }

  // A prepended batch goes ahead of everything still waiting.
  function InsertAt<F>(items: seq<F>, at: nat, batch: seq<F>): seq<F> {
    if at <= |items| then items[..at] + batch + items[at..] else items + batch
  }

  function Step<F>(l: Lanes<F>, g: Ledger<F>, op: Op<F>): (Lanes<F>, Ledger<F>) {
    match op
    case DoControl(frame) =>
      var (m, reply) := PushControl(l, frame);
      (m, if reply.Accepted? then g.(control := g.control + [frame]) else g)
    case DoDocument(frame) =>
      var (m, reply) := PushDocument(l, frame);
      (m, if reply.Accepted? then g.(document := g.document + [frame]) else g)
    case DoEphemeral(key, frame) =>
      var (m, reply) := PushEphemeral(l, key, frame);
      (m, if reply.Accepted?
          then g.(accepted := g.accepted + 1,
                  coalesced := g.coalesced + (if HasKey(l.ephemeral, key) then 1 else 0),
                  newest := g.newest[key := frame])
          else g)
    case DoPrepend(frames) =>
      var (m, reply) := PrependDocument(l, frames);
      (m, if reply.Accepted? then g.(document := InsertAt(g.document, g.documentPopped, frames)) else g)
    case DoPop =>
      var (m, frame) := Pop(l);
      (m, if |l.control| > 0 then g.(controlPopped := g.controlPopped + 1)
          else if |l.document| > 0 then g.(documentPopped := g.documentPopped + 1)
          else if |l.ephemeral| > 0 then g.(ephemeralPopped := g.ephemeralPopped + 1)
          else g)
    case DoClose => (Close(l), g)
  }

  function Run<F>(l: Lanes<F>, g: Ledger<F>, ops: seq<Op<F>>): (Lanes<F>, Ledger<F>)
    decreases |ops|
  {
    if ops == [] then (l, g)
    else
      var (m, h) := Step(l, g, ops[0]);
      Run(m, h, ops[1..])
  }

  ghost predicate DistinctQueue<F>(queue: seq<(string, F)>) {
    forall i, j :: 0 <= i < j < |queue| ==> queue[i].0 != queue[j].0
  }

  // Every keyed frame waiting is the newest pushed under its key.
  ghost predicate Newest<F>(queue: seq<(string, F)>, newest: map<string, F>) {
    forall i :: 0 <= i < |queue| ==> queue[i].0 in newest && newest[queue[i].0] == queue[i].1
  }

  // A lane holds what was accepted on it from the first frame not yet taken.
  predicate Waiting<F(==)>(items: seq<F>, popped: nat, lane: seq<F>) {
    popped <= |items| && lane == items[popped..]
  }

  lemma WaitingLaws<F>(items: seq<F>, popped: nat, lane: seq<F>, frame: F, batch: seq<F>)
    requires Waiting(items, popped, lane)
    ensures Waiting(items + [frame], popped, lane + [frame])
    ensures Waiting(InsertAt(items, popped, batch), popped, batch + lane)
    ensures |lane| > 0 ==> Waiting(items, popped + 1, lane[1..]) && lane[0] == items[popped]
    ensures |lane| == |items| - popped
  {
    assert InsertAt(items, popped, batch) == items[..popped] + (batch + lane);
  }

  /** The account of a queue against its ledger. */
  ghost predicate Accounts<F>(l: Lanes<F>, g: Ledger<F>) {
    && Waiting(g.control, g.controlPopped, l.control)
    && Waiting(g.document, g.documentPopped, l.document)
    && g.accepted == g.coalesced + g.ephemeralPopped + l.dropped + |l.ephemeral|
    && 0 < l.documentCap && 0 < l.ephemeralCap && |l.ephemeral| <= l.ephemeralCap
    && DistinctQueue(l.ephemeral) && Newest(l.ephemeral, g.newest)
  }

  lemma EphemeralKeeps<F>(l: Lanes<F>, g: Ledger<F>, key: string, frame: F)
    requires Accounts(l, g)
    ensures Accounts(Step(l, g, DoEphemeral(key, frame)).0, Step(l, g, DoEphemeral(key, frame)).1)
  {
  }

  lemma PopKeeps<F>(l: Lanes<F>, g: Ledger<F>)
    requires Accounts(l, g)
    ensures Accounts(Step(l, g, DoPop).0, Step(l, g, DoPop).1)
  {
    if |l.control| > 0 {
      WaitingLaws(g.control, g.controlPopped, l.control, l.control[0], []);
    } else if |l.document| > 0 {
      WaitingLaws(g.document, g.documentPopped, l.document, l.document[0], []);
    }
  }

  lemma StepKeeps<F>(l: Lanes<F>, g: Ledger<F>, op: Op<F>)
    requires Accounts(l, g)
    ensures Accounts(Step(l, g, op).0, Step(l, g, op).1)
  {
    match op
    case DoControl(frame) => WaitingLaws(g.control, g.controlPopped, l.control, frame, []);
    case DoDocument(frame) => WaitingLaws(g.document, g.documentPopped, l.document, frame, []);
    case DoEphemeral(key, frame) => EphemeralKeeps(l, g, key, frame);
    case DoPrepend(frames) => PrependKeeps(l, g, frames);
    case DoPop => PopKeeps(l, g);
    case DoClose =>
  }

  lemma PrependKeeps<F>(l: Lanes<F>, g: Ledger<F>, frames: seq<F>)
    requires Accounts(l, g)
    ensures Accounts(Step(l, g, DoPrepend(frames)).0, Step(l, g, DoPrepend(frames)).1)
  {
    if frames == [] {
      assert InsertAt(g.document, g.documentPopped, frames) == g.document;
    } else {
      WaitingLaws(g.document, g.documentPopped, l.document, frames[0], frames);
    }
  }

  /** Over every run: each ordered lane holds exactly what was accepted and not yet taken, in
      order; accepted ephemeral pushes are those coalesced, taken, dropped or still waiting;
      waiting keys are distinct, within the cap, and carry their newest frame. */
  lemma {:induction false} RunAccounts<F>(l: Lanes<F>, g: Ledger<F>, ops: seq<Op<F>>)
    requires Accounts(l, g)
    ensures Accounts(Run(l, g, ops).0, Run(l, g, ops).1)
    decreases |ops|
  {
    if ops != [] {
      StepKeeps(l, g, ops[0]);
      var (m, h) := Step(l, g, ops[0]);
      RunAccounts(m, h, ops[1..]);
    }
  }

  lemma {:induction false} CapsStay<F>(l: Lanes<F>, g: Ledger<F>, ops: seq<Op<F>>)
    ensures Run(l, g, ops).0.documentCap == l.documentCap && Run(l, g, ops).0.ephemeralCap == l.ephemeralCap
    decreases |ops|
  {
    if ops != [] {
      var (m, h) := Step(l, g, ops[0]);
      CapsStay(m, h, ops[1..]);
    }
  }

  lemma EveryRunAccounts<F>(documentCap: int, ephemeralCap: int, ops: seq<Op<F>>)
    ensures var (l, g) := Run(Fresh(documentCap, ephemeralCap), Blank(), ops);
            && Accounts(l, g)
            && l.documentCap == (if documentCap <= 0 then 256 else documentCap)
            && l.ephemeralCap == (if ephemeralCap <= 0 then 64 else ephemeralCap)
  {
    RunAccounts(Fresh<F>(documentCap, ephemeralCap), Blank<F>(), ops);
    CapsStay(Fresh<F>(documentCap, ephemeralCap), Blank<F>(), ops);
  }

  /** What a pop hands over after any run: the oldest control frame not yet taken; with none
      waiting, the oldest such document frame; with neither, the newest frame of the key that
      has waited longest; and nothing only when all three lanes are empty. */
  lemma PopAfterAnyRun<F>(documentCap: int, ephemeralCap: int, ops: seq<Op<F>>)
    ensures var (l, g) := Run(Fresh(documentCap, ephemeralCap), Blank(), ops);
            var frame := Pop(l).1;
            && (g.controlPopped < |g.control| ==> frame == Some(g.control[g.controlPopped]))
            && (g.controlPopped == |g.control| && g.documentPopped < |g.document| ==>
                  frame == Some(g.document[g.documentPopped]))
            && (g.controlPopped == |g.control| && g.documentPopped == |g.document| && |l.ephemeral| > 0 ==>
                  l.ephemeral[0].0 in g.newest && frame == Some(g.newest[l.ephemeral[0].0]))
            && (frame == None ==> g.controlPopped == |g.control| && g.documentPopped == |g.document|
                                  && g.accepted == g.coalesced + g.ephemeralPopped + l.dropped)
  {
    EveryRunAccounts(documentCap, ephemeralCap, ops);
    var (l, g) := Run(Fresh<F>(documentCap, ephemeralCap), Blank<F>(), ops);
    if |l.control| > 0 {
      WaitingLaws(g.control, g.controlPopped, l.control, l.control[0], []);
    } else if |l.document| > 0 {
      WaitingLaws(g.document, g.documentPopped, l.document, l.document[0], []);
    }
  }
}
