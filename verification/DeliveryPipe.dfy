/** The arithmetic of the delivery pipe: what the writer's comparison makes of a queue of event
    sequences, measured against the events a user is entitled to. */
module DeliveryPipe {

  predicate IsEntitled(log: seq<bool>, n: int) {
    1 <= n <= |log| && log[n - 1]
  }

  // The entitled events above lo, up to hi, in order.
  function Entitled(log: seq<bool>, lo: nat, hi: nat): seq<nat>
    requires hi <= |log|
  {
    if hi <= lo then [] else Entitled(log, lo, hi - 1) + (if log[hi - 1] then [hi] else [])
  }

  // The entitled events among some publications, in the order published.
  function Concerning(log: seq<bool>, numbers: seq<nat>): seq<nat> {
    if numbers == [] then []
    else
      var n := numbers[|numbers| - 1];
      Concerning(log, numbers[..|numbers| - 1]) + (if IsEntitled(log, n) then [n] else [])
  }

  // What the writer sends of a queue, given the last sequence it sent.
  function Dedup(last: nat, events: seq<nat>): seq<nat>
    decreases |events|
  {
    if events == [] then []
    else if events[0] <= last then Dedup(last, events[1..])
    else [events[0]] + Dedup(events[0], events[1..])
  }

  // The last sequence it will have sent once the queue is empty.
  function Final(last: nat, events: seq<nat>): nat
    decreases |events|
  {
    if events == [] then last
    else Final(if events[0] <= last then last else events[0], events[1..])
  }

  /** One more event at the end of the queue is sent exactly when it is above all before it. */
  lemma {:induction false} AppendOne(last: nat, events: seq<nat>, n: nat)
    ensures Final(last, events + [n]) == (if n <= Final(last, events) then Final(last, events) else n)
    ensures Dedup(last, events + [n]) == Dedup(last, events) + (if n <= Final(last, events) then [] else [n])
    decreases |events|
  {
    if events == [] {
      assert events + [n] == [n] && [n][1..] == [];
    } else {
      assert (events + [n])[0] == events[0] && (events + [n])[1..] == events[1..] + [n];
      var next := if events[0] <= last then last else events[0];
      AppendOne(next, events[1..], n);
      if events[0] > last {
        assert [events[0]] + (Dedup(next, events[1..]) + (if n <= Final(next, events[1..]) then [] else [n]))
            == Dedup(last, events) + (if n <= Final(last, events) then [] else [n]);
      }
    }
  }

  // ----- Who gets through -----

  predicate Ascending(events: seq<nat>) {
    forall i, j :: 0 <= i < j < |events| ==> events[i] < events[j]
  }

  // The event comes before every event that is not smaller.
  predicate InTurnAt(events: seq<nat>, i: nat) {
    i < |events| && forall j :: 0 <= j < i ==> events[j] < events[i]
  }

  predicate InTurn(events: seq<nat>, n: nat) {
    exists i :: 0 <= i < |events| && events[i] == n && InTurnAt(events, i)
  }

  // The last sequence sent is the largest of all.
  lemma {:induction false} FinalIsMost(last: nat, events: seq<nat>)
    ensures last <= Final(last, events) && forall i :: 0 <= i < |events| ==> events[i] <= Final(last, events)
    ensures Final(last, events) == last || Final(last, events) in events
    decreases |events|
  {
    if events != [] {
      FinalIsMost(if events[0] <= last then last else events[0], events[1..]);
      assert events == [events[0]] + events[1..];
    }
  }

  lemma {:induction false} DedupAscends(last: nat, events: seq<nat>)
    ensures Ascending(Dedup(last, events))
    ensures forall i :: 0 <= i < |Dedup(last, events)| ==> last < Dedup(last, events)[i] <= Final(last, events)
    decreases |events|
  {
    if events != [] {
      var front, n := events[..|events| - 1], events[|events| - 1];
      assert events == front + [n];
      DedupAscends(last, front);
      AppendOne(last, front, n);
      FinalIsMost(last, front);
    }
  }

  lemma InTurnMore(front: seq<nat>, m: nat, n: nat)
    ensures InTurn(front + [m], n) <==>
            InTurn(front, n) || (n == m && forall j :: 0 <= j < |front| ==> front[j] < m)
  {
    var events := front + [m];
    if InTurn(front, n) {
      var i :| 0 <= i < |front| && front[i] == n && InTurnAt(front, i);
      assert events[i] == n && InTurnAt(events, i);
    }
    if n == m && forall j :: 0 <= j < |front| ==> front[j] < m {
      assert events[|front|] == n && InTurnAt(events, |front|);
    }
    if InTurn(events, n) {
      var i :| 0 <= i < |events| && events[i] == n && InTurnAt(events, i);
      assert forall j :: 0 <= j < |front| ==> front[j] == events[j];
      if i < |front| {
        assert front[i] == n && InTurnAt(front, i);
      }
    }
  }

  /** The writer sends an event exactly when it is above the resume point and comes before every
      event that is not smaller. */
  lemma {:induction false} SentExactlyInTurn(last: nat, events: seq<nat>, n: nat)
    ensures n in Dedup(last, events) <==> last < n && InTurn(events, n)
    decreases |events|
  {
    if events != [] {
      var front, m := events[..|events| - 1], events[|events| - 1];
      assert events == front + [m];
      SentExactlyInTurn(last, front, n);
      AppendOne(last, front, m);
      FinalIsMost(last, front);
      InTurnMore(front, m, n);
      if last < m && m <= Final(last, front) {
        var j :| 0 <= j < |front| && front[j] == Final(last, front);
        assert !(front[j] < m);
      }
    }
  }

  lemma {:induction false} SameMembers(a: seq<nat>, b: seq<nat>)
    requires Ascending(a) && Ascending(b) && forall n: nat :: n in a <==> n in b
    ensures a == b
    decreases |a|
  {
    BothEmpty(a, b);
    if a != [] {
      SameLeast(a, b);
      forall n: nat ensures n in a[1..] <==> n in b[1..] {
        RestMembers(a, n);
        RestMembers(b, n);
      }
      SameMembers(a[1..], b[1..]);
      assert a == [a[0]] + a[1..] && b == [b[0]] + b[1..];
    }
  }

  lemma BothEmpty(a: seq<nat>, b: seq<nat>)
    requires forall n: nat :: n in a <==> n in b
    ensures a == [] <==> b == []
  {
    if a != [] {
      assert a[0] in b;
    }
    if b != [] {
      assert b[0] in a;
    }
  }

  lemma SameLeast(a: seq<nat>, b: seq<nat>)
    requires a != [] && b != [] && Ascending(a) && Ascending(b) && a[0] in b && b[0] in a
    ensures a[0] == b[0]
  {
    var i :| 0 <= i < |b| && b[i] == a[0];
    var j :| 0 <= j < |a| && a[j] == b[0];
  }

  lemma RestMembers(a: seq<nat>, n: nat)
    requires a != [] && Ascending(a)
    ensures n in a[1..] <==> n in a && n != a[0]
  {
    assert a == [a[0]] + a[1..];
  }

  // ----- Entitled events -----

  lemma {:induction false} EntitledMembers(log: seq<bool>, lo: nat, hi: nat)
    requires hi <= |log|
    ensures Ascending(Entitled(log, lo, hi))
    ensures forall n: nat :: n in Entitled(log, lo, hi) <==> lo < n <= hi && IsEntitled(log, n)
    decreases hi
  {
    if lo < hi {
      EntitledMembers(log, lo, hi - 1);
      var before := Entitled(log, lo, hi - 1);
      forall i | 0 <= i < |before| ensures before[i] < hi {
        assert before[i] in before;
      }
    }
  }

  lemma {:induction false} EntitledGrows(log: seq<bool>, more: seq<bool>, lo: nat, hi: nat)
    requires hi <= |log|
    ensures Entitled(log + more, lo, hi) == Entitled(log, lo, hi)
    decreases hi
  {
    if lo < hi {
      EntitledGrows(log, more, lo, hi - 1);
    }
  }

  lemma {:induction false} EntitledPrefix(log: seq<bool>, lo: nat, mid: nat, hi: nat)
    requires mid <= hi <= |log|
    ensures Entitled(log, lo, mid) <= Entitled(log, lo, hi)
    decreases hi
  {
    if mid < hi {
      EntitledPrefix(log, lo, mid, hi - 1);
    }
  }

  lemma {:induction false} ConcerningMembers(log: seq<bool>, numbers: seq<nat>)
    ensures forall n: nat :: n in Concerning(log, numbers) <==> n in numbers && IsEntitled(log, n)
    decreases |numbers|
  {
    if numbers != [] {
      ConcerningMembers(log, numbers[..|numbers| - 1]);
      assert numbers == numbers[..|numbers| - 1] + [numbers[|numbers| - 1]];
    }
  }

  lemma {:induction false} ConcerningGrows(log: seq<bool>, more: seq<bool>, numbers: seq<nat>)
    requires forall i :: 0 <= i < |numbers| ==> numbers[i] <= |log|
    ensures Concerning(log + more, numbers) == Concerning(log, numbers)
    decreases |numbers|
  {
    if numbers != [] {
      ConcerningGrows(log, more, numbers[..|numbers| - 1]);
    }
  }

  lemma ConcerningMore(log: seq<bool>, numbers: seq<nat>, n: nat)
    ensures Concerning(log, numbers + [n]) == Concerning(log, numbers) + (if IsEntitled(log, n) then [n] else [])
  {
    assert (numbers + [n])[..|numbers|] == numbers;
  }

  // Consecutive publications concern the user exactly as the log says.
  lemma {:induction false} ConcerningRange(log: seq<bool>, published: seq<nat>, lo: nat, hi: nat)
    requires lo <= hi <= |published| && hi <= |log|
    requires forall i :: 0 <= i < |published| ==> published[i] == i + 1
    ensures Concerning(log, published[lo..hi]) == Entitled(log, lo, hi)
    decreases hi
  {
    if lo < hi {
      ConcerningRange(log, published, lo, hi - 1);
      assert published[lo..hi] == published[lo..hi - 1] + [hi];
      ConcerningMore(log, published[lo..hi - 1], hi);
    } else {
      assert published[lo..hi] == [];
    }
  }

  // ----- Catch-up ahead of what arrived meanwhile -----

  // Catch-up comes first: what it brought is in turn, and above it only the rest matters.
  lemma InTurnAfterCatchUp(caught: seq<nat>, handed: seq<nat>, top: nat, n: nat)
    requires Ascending(caught) && forall i :: 0 <= i < |caught| ==> caught[i] <= top
    ensures n <= top && n in caught ==> InTurn(caught + handed, n)
    ensures n > top ==> (InTurn(caught + handed, n) <==> InTurn(handed, n))
  {
    var fed := caught + handed;
    if n <= top && n in caught {
      var i :| 0 <= i < |caught| && caught[i] == n;
      assert fed[i] == n && InTurnAt(fed, i);
    }
    if n > top && InTurn(fed, n) {
      var i :| 0 <= i < |fed| && fed[i] == n && InTurnAt(fed, i);
      assert i >= |caught|;
      assert handed[i - |caught|] == n;
      forall j | 0 <= j < i - |caught| ensures handed[j] < n {
        assert handed[j] == fed[j + |caught|];
      }
      assert InTurnAt(handed, i - |caught|);
    }
    if n > top && InTurn(handed, n) {
      var i :| 0 <= i < |handed| && handed[i] == n && InTurnAt(handed, i);
      assert fed[i + |caught|] == n;
      forall j | 0 <= j < i + |caught| ensures fed[j] < n {
        assert fed[j] == if j < |caught| then caught[j] else handed[j - |caught|];
      }
      assert InTurnAt(fed, i + |caught|);
    }
  }

  /** Catch-up to top, then publications in any order: the writer sends all entitled events above
      its resume point if and only if each one above top is handed over before any larger one. */
  lemma EverythingIffInTurn(log: seq<bool>, from: nat, top: nat, handed: seq<nat>)
    requires from <= top <= |log|
    requires forall i :: 0 <= i < |handed| ==> IsEntitled(log, handed[i])
    ensures Dedup(from, Entitled(log, from, top) + handed) == Entitled(log, from, |log|) <==>
            forall n: nat :: top < n && IsEntitled(log, n) ==> InTurn(handed, n)
  {
    var caught, all := Entitled(log, from, top), Entitled(log, from, |log|);
    var fed := caught + handed;
    EntitledMembers(log, from, top);
    EntitledMembers(log, from, |log|);
    DedupAscends(from, fed);
    forall i | 0 <= i < |caught| ensures caught[i] <= top {
      assert caught[i] in caught;
    }
    forall n: nat ensures n in Dedup(from, fed) <==> from < n && InTurn(fed, n) {
      SentExactlyInTurn(from, fed, n);
    }
    forall n: nat
      ensures n <= top && n in caught ==> InTurn(fed, n)
      ensures n > top ==> (InTurn(fed, n) <==> InTurn(handed, n))
      ensures InTurn(fed, n) ==> IsEntitled(log, n)
    {
      InTurnAfterCatchUp(caught, handed, top, n);
      if InTurn(fed, n) {
        var i :| 0 <= i < |fed| && fed[i] == n && InTurnAt(fed, i);
        assert i < |caught| ==> n in caught;
      }
    }
    if forall n: nat :: top < n && IsEntitled(log, n) ==> InTurn(handed, n) {
      forall n: nat ensures n in Dedup(from, fed) <==> n in all {
      }
      SameMembers(Dedup(from, fed), all);
    }
    if Dedup(from, fed) == all {
      forall n: nat | top < n && IsEntitled(log, n) ensures InTurn(handed, n) {
        assert n in all;
      }
    }
  }

  // All of an ascending list is in turn.
  lemma AscendingInTurn(events: seq<nat>, n: nat)
    requires Ascending(events)
    ensures InTurn(events, n) <==> n in events
  {
    if n in events {
      var i :| 0 <= i < |events| && events[i] == n;
      assert InTurnAt(events, i);
    }
  }

  function Max(a: nat, b: nat): nat {
    if a < b then b else a
  }

  /** The entitled events up to top, and those beyond where the session joined: what lies between
      the two is missing. */
  function Bridged(log: seq<bool>, from: nat, top: nat, joined: nat, hi: nat): seq<nat>
    requires top <= |log| && hi <= |log|
  {
    Entitled(log, from, top) + Entitled(log, Max(top, joined), hi)
  }

  lemma BridgedMembers(log: seq<bool>, from: nat, top: nat, joined: nat, hi: nat)
    requires from <= top <= |log| && hi <= |log|
    ensures Ascending(Bridged(log, from, top, joined, hi))
    ensures forall n: nat :: n in Bridged(log, from, top, joined, hi) <==>
              IsEntitled(log, n) && (from < n <= top || Max(top, joined) < n <= hi)
  {
    var first, second := Entitled(log, from, top), Entitled(log, Max(top, joined), hi);
    EntitledMembers(log, from, top);
    EntitledMembers(log, Max(top, joined), hi);
    forall i, j | 0 <= i < |first| && 0 <= j < |second| ensures first[i] < second[j] {
      assert first[i] in first && second[j] in second;
    }
  }

  /** Catch-up to top ahead of the publications in order since the session joined comes out as
      exactly those two stretches. */
  lemma CatchUpThenLive(log: seq<bool>, from: nat, top: nat, joined: nat, reach: nat)
    requires from <= top <= |log| && joined <= reach <= |log|
    ensures Dedup(from, Entitled(log, from, top) + Entitled(log, joined, reach)) == Bridged(log, from, top, joined, reach)
  {
    var caught, handed := Entitled(log, from, top), Entitled(log, joined, reach);
    var fed := caught + handed;
    EntitledMembers(log, from, top);
    EntitledMembers(log, joined, reach);
    BridgedMembers(log, from, top, joined, reach);
    DedupAscends(from, fed);
    forall i | 0 <= i < |caught| ensures caught[i] <= top {
      assert caught[i] in caught;
    }
    forall n: nat ensures n in Dedup(from, fed) <==> n in Bridged(log, from, top, joined, reach) {
      SentExactlyInTurn(from, fed, n);
      InTurnAfterCatchUp(caught, handed, top, n);
      AscendingInTurn(handed, n);
      if InTurn(fed, n) {
        assert n in fed;
      }
    }
    SameMembers(Dedup(from, fed), Bridged(log, from, top, joined, reach));
  }

  /** The two stretches are all there is if and only if nothing entitled lies between them. */
  lemma BridgedIffNoGap(log: seq<bool>, from: nat, top: nat, joined: nat)
    requires from <= top <= |log| && joined <= |log|
    ensures Bridged(log, from, top, joined, |log|) == Entitled(log, from, |log|) <==>
            forall n: nat :: top < n <= joined ==> !IsEntitled(log, n)
  {
    var bridged, all := Bridged(log, from, top, joined, |log|), Entitled(log, from, |log|);
    BridgedMembers(log, from, top, joined, |log|);
    EntitledMembers(log, from, |log|);
    if forall n: nat :: top < n <= joined ==> !IsEntitled(log, n) {
      forall n: nat ensures n in bridged <==> n in all {
      }
      SameMembers(bridged, all);
    }
    if bridged == all {
      forall n: nat | top < n <= joined ensures !IsEntitled(log, n) {
        assert n !in bridged;
      }
    }
  }
}
