/** The three-lane send queue of a session: the simple form it is meant to have, the form it
    is kept in (a map of newest frames beside an order of keys), and the refinement. */
module Outbox {
  import opened Wrappers

  const DEFAULT_DOCUMENT_CAP: nat := 256
  const DEFAULT_EPHEMERAL_CAP: nat := 64

  datatype Reply = Accepted | RefusedClosed | RefusedSlow

  /** The simple form: the ephemeral lane is a list of keyed frames, at most one per key. */
  datatype Lanes<F> = Lanes(
    control: seq<F>, document: seq<F>, ephemeral: seq<(string, F)>,
    documentCap: nat, ephemeralCap: nat,
    signal: bool, closed: bool, overflow: bool, dropped: nat)

  function Fresh<F>(documentCap: int, ephemeralCap: int): Lanes<F> {
    Lanes([], [], [],
          if documentCap <= 0 then DEFAULT_DOCUMENT_CAP else documentCap,
          if ephemeralCap <= 0 then DEFAULT_EPHEMERAL_CAP else ephemeralCap,
          false, false, false, 0)
  }

  function PushControl<F>(l: Lanes<F>, frame: F): (Lanes<F>, Reply) {
    if l.closed then (l, RefusedClosed)
    else (l.(control := l.control + [frame], signal := true), Accepted)
  }

  function PushDocument<F>(l: Lanes<F>, frame: F): (Lanes<F>, Reply) {
    if l.closed then (l, RefusedClosed)
    else if |l.document| >= l.documentCap then (l.(overflow := true), RefusedSlow)
    else (l.(document := l.document + [frame], signal := true), Accepted)
  }

  predicate HasKey<F>(queue: seq<(string, F)>, key: string) {
    exists i :: 0 <= i < |queue| && queue[i].0 == key
  }

  // The queue with the frame of a key replaced where it stands.
  function Coalesce<F>(queue: seq<(string, F)>, key: string, frame: F): (r: seq<(string, F)>)
    ensures |r| == |queue|
    ensures forall i :: 0 <= i < |r| ==> r[i] == (if queue[i].0 == key then (key, frame) else queue[i])
  {
    seq(|queue|, i requires 0 <= i < |queue| => if queue[i].0 == key then (key, frame) else queue[i])
  }

  function PushEphemeral<F>(l: Lanes<F>, key: string, frame: F): (Lanes<F>, Reply) {
    if l.closed then (l, RefusedClosed)
    else if HasKey(l.ephemeral, key) then
      (l.(ephemeral := Coalesce(l.ephemeral, key, frame), signal := true), Accepted)
    else if |l.ephemeral| >= l.ephemeralCap && |l.ephemeral| > 0 then
      (l.(ephemeral := l.ephemeral[1..] + [(key, frame)], dropped := l.dropped + 1, signal := true), Accepted)
    else (l.(ephemeral := l.ephemeral + [(key, frame)], signal := true), Accepted)
  }

  function PrependDocument<F>(l: Lanes<F>, frames: seq<F>): (Lanes<F>, Reply) {
    if |frames| == 0 then (l, Accepted)
    else if l.closed then (l, RefusedClosed)
    else (l.(document := frames + l.document, signal := true), Accepted)
  }

  /** Control before document before ephemeral, each lane from its front. */
  function Pop<F>(l: Lanes<F>): (Lanes<F>, Option<F>) {
    if |l.control| > 0 then (l.(control := l.control[1..]), Some(l.control[0]))
    else if |l.document| > 0 then (l.(document := l.document[1..]), Some(l.document[0]))
    else if |l.ephemeral| > 0 then (l.(ephemeral := l.ephemeral[1..]), Some(l.ephemeral[0].1))
    else (l, None)
  }

  function Close<F>(l: Lanes<F>): Lanes<F> {
    if l.closed then l else l.(closed := true, signal := true)
  }

  // ----- The form the queue is kept in -----

  ghost predicate DistinctKeys(keys: seq<string>) {
    forall i, j :: 0 <= i < j < |keys| ==> keys[i] != keys[j]
  }

  // The order holds every key of the map once.
  ghost predicate Indexed<F>(order: seq<string>, frames: map<string, F>) {
    DistinctKeys(order) && forall key :: key in order <==> key in frames
  }

  ghost function Queued<F>(order: seq<string>, frames: map<string, F>): (r: seq<(string, F)>)
    requires Indexed(order, frames)
    ensures |r| == |order| && forall i :: 0 <= i < |r| ==> r[i] == (order[i], frames[order[i]])
  {
    seq(|order|, i requires 0 <= i < |order| => (order[i], frames[order[i]]))
  }

  lemma QueuedHasKey<F>(order: seq<string>, frames: map<string, F>, key: string)
    requires Indexed(order, frames)
    ensures HasKey(Queued(order, frames), key) <==> key in frames
  {
    if key in frames {
      var i :| 0 <= i < |order| && order[i] == key;
      assert Queued(order, frames)[i].0 == key;
    }
  }

  lemma QueuedCoalesced<F>(order: seq<string>, frames: map<string, F>, key: string, frame: F)
    requires Indexed(order, frames) && key in frames
    ensures Indexed(order, frames[key := frame])
    ensures Queued(order, frames[key := frame]) == Coalesce(Queued(order, frames), key, frame)
  {
  }

  lemma QueuedTail<F>(order: seq<string>, frames: map<string, F>)
    requires Indexed(order, frames) && |order| > 0
    ensures Indexed(order[1..], frames - {order[0]})
    ensures Queued(order[1..], frames - {order[0]}) == Queued(order, frames)[1..]
  {
    forall key
      ensures key in order[1..] <==> key in frames && key != order[0]
    {
      if key in order && key != order[0] {
        var i :| 0 <= i < |order| && order[i] == key;
        assert order[1..][i - 1] == key;
      }
    }
  }

  lemma QueuedAppended<F>(order: seq<string>, frames: map<string, F>, key: string, frame: F)
    requires Indexed(order, frames) && key !in frames
    ensures Indexed(order + [key], frames[key := frame])
    ensures Queued(order + [key], frames[key := frame]) == Queued(order, frames) + [(key, frame)]
  {
    assert key !in order;
  }

  class Outbox<F(0)> {
    var control: seq<F>
    var document: seq<F>
    var ephemeral: map<string, F>
    var order: seq<string>
    const documentCap: nat
    const ephemeralCap: nat
    var signal: bool
    var closed: bool
    var overflow: bool
    var droppedEphemeral: nat

    ghost predicate Valid()
      reads this
    {
      && documentCap > 0 && ephemeralCap > 0
      && Indexed(order, ephemeral) && |order| <= ephemeralCap
    }

    ghost function View(): (l: Lanes<F>)
      requires Valid()
      reads this
    {
      Lanes(control, document, Queued(order, ephemeral),
            documentCap, ephemeralCap, signal, closed, overflow, droppedEphemeral)
    }

    constructor (documentCap: int, ephemeralCap: int)
      ensures Valid() && View() == Fresh(documentCap, ephemeralCap)
    {
      control, document, ephemeral, order := [], [], map[], [];
      this.documentCap := if documentCap <= 0 then DEFAULT_DOCUMENT_CAP else documentCap;
      this.ephemeralCap := if ephemeralCap <= 0 then DEFAULT_EPHEMERAL_CAP else ephemeralCap;
      signal, closed, overflow, droppedEphemeral := false, false, false, 0;
    }

    method Control(frame: F) returns (reply: Reply)
      requires Valid()
      modifies this
      ensures Valid() && (View(), reply) == PushControl(old(View()), frame)
    {
      if closed {
        return RefusedClosed;
      }
      control := control + [frame];
      signal := true;
      reply := Accepted;
    }

    method Document(frame: F) returns (reply: Reply)
      requires Valid()
      modifies this
      ensures Valid() && (View(), reply) == PushDocument(old(View()), frame)
    {
      if closed {
        return RefusedClosed;
      }
      if |document| >= documentCap {
        overflow := true;
        return RefusedSlow;
      }
      document := document + [frame];
      signal := true;
      reply := Accepted;
    }

    method Ephemeral(key: string, frame: F) returns (reply: Reply)
      requires Valid()
      modifies this
      ensures Valid() && (View(), reply) == PushEphemeral(old(View()), key, frame)
    {
      QueuedHasKey(order, ephemeral, key);
      if closed {
        return RefusedClosed;
      }
      if key in ephemeral {
        QueuedCoalesced(order, ephemeral, key, frame);
        ephemeral := ephemeral[key := frame];
        signal := true;
        return Accepted;
      }
      if |order| >= ephemeralCap {
        QueuedTail(order, ephemeral);
        var oldest := order[0];
        order := order[1..];
        ephemeral := ephemeral - {oldest};
        droppedEphemeral := droppedEphemeral + 1;
      }
      QueuedAppended(order, ephemeral, key, frame);
      ephemeral := ephemeral[key := frame];
      order := order + [key];
      signal := true;
      reply := Accepted;
    }

    method Prepend(frames: seq<F>) returns (reply: Reply)
      requires Valid()
      modifies this
      ensures Valid() && (View(), reply) == PrependDocument(old(View()), frames)
    {
      if |frames| == 0 {
        return Accepted;
      }
      if closed {
        return RefusedClosed;
      }
      document := frames + document;
      signal := true;
      reply := Accepted;
    }

    method Next() returns (frame: Option<F>)
      requires Valid()
      modifies this
      ensures Valid() && (View(), frame) == Pop(old(View()))
    {
      if |control| > 0 {
        frame := Some(control[0]);
        control := control[1..];
      } else if |document| > 0 {
        frame := Some(document[0]);
        document := document[1..];
      } else if |order| > 0 {
        QueuedTail(order, ephemeral);
        var key := order[0];
        order := order[1..];
        frame := Some(ephemeral[key]);
        ephemeral := ephemeral - {key};
      } else {
        frame := None;
      }
    }

    method Shut()
      requires Valid()
      modifies this
      ensures Valid() && View() == Close(old(View()))
    {
      if closed {
        return;
      }
      closed := true;
      signal := true;
    }
  }
}
